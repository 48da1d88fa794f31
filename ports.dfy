/** The shape of a port enumerator (`PortsMapper` in port_mapper.go) and the
    values it produces: a set of visible serial port names, or an error. */
module Ports {

  datatype Option<+T> = None | Some(value: T)

  /** An error value. Errors from collaborators are carried verbatim;
      `Wrapped` is Go's `fmt.Errorf("<context>: %w", cause)`. */
  datatype Error = Error(message: string) | Wrapped(context: string, cause: Error)

  /** One answer of a port enumerator: the set of ports currently visible
      (the keys of the Go map, every one mapped to true), or a failure. */
  datatype Snapshot = Listed(ports: set<string>) | Failed(err: Error)

  /** A port enumerator as seen from the caller: its answer to the k-th call
      (counting from 0). A Go closure may keep state between calls, so its
      answers are indexed by call number rather than fixed. */
  type Enumerator = nat -> Snapshot
}
