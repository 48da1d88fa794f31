/** Which enumerator `Reset` calls (reset.go:92-109) and the object that
    stands for the selected `portsMapper` variable during one call. */
module Mapping {
  import opened Ports
  import opened DryRun

  /** The enumerator in use: a caller's or the default lister, or the
      dry-run emulator started on the target port. */
  datatype Mapper = Listing(answers: Enumerator) | Emulated(portToTouch: string)

  /** A nil mapper falls back to the default one; dry-run replaces whatever
      was chosen, even a mapper the caller supplied. */
  function SelectMapper(portsMapper: Option<Enumerator>, defaultMapper: Enumerator,
                        dryRun: bool, portToTouch: string): (r: Mapper)
    ensures r.Emulated? <==> dryRun
    ensures r.Emulated? ==> r.portToTouch == portToTouch
    ensures !dryRun && portsMapper.Some? ==> r == Listing(portsMapper.value)
    ensures !dryRun && portsMapper.None? ==> r == Listing(defaultMapper)
  {
    if dryRun then Emulated(portToTouch)
    else if portsMapper.None? then Listing(defaultMapper)
    else Listing(portsMapper.value)
  }

  /** The answer of mapper `m` to its k-th call. */
  function AnswerAt(m: Mapper, k: nat): Snapshot {
    match m
    case Listing(answers) => answers(k)
    case Emulated(portToTouch) => EmulatedAnswer(portToTouch, k)
  }

  /** The answers of mapper `m`, call by call. */
  function Answers(m: Mapper): Enumerator {
    (k: nat) => AnswerAt(m, k)
  }

  /** The `portsMapper` variable of one `Reset` call, with the number of
      calls made so far; in dry-run it owns the emulator closure. */
  class PortsMapper {
    const source: Mapper
    const emulator: Emulator?
    var calls: nat

    ghost predicate Valid()
      reads this, emulator
    {
      source.Emulated? ==>
        emulator != null && emulator.emulatedPort == PortAfter(source.portToTouch, calls)
    }

    constructor (source: Mapper)
      ensures Valid() && this.source == source && calls == 0
      ensures emulator != null ==> fresh(emulator)
    {
      this.source := source;
      calls := 0;
      if source.Emulated? {
        emulator := new Emulator(source.portToTouch);
      } else {
        emulator := null;
      }
    }

    /** Call the enumerator once: the answer is the mapper's answer to this
        call number, and the call is counted. */
    method Next() returns (s: Snapshot)
      requires Valid()
      modifies this, emulator
      ensures Valid() && calls == old(calls) + 1
      ensures s == AnswerAt(source, old(calls))
    {
      match source {
        case Listing(answers) =>
          s := answers(calls);
        case Emulated(_) =>
          s := emulator.Next();
      }
      calls := calls + 1;
    }
  }
}
