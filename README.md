# Reset of a serial board and detection of its bootloader port

This project models `Reset` from the arduino serial utilities (reset.go). A call
takes a baseline snapshot of the visible serial ports. When the target port is
listed, it performs the 1200-bps "touch" that reboots the board into its
bootloader. If asked to wait, it then polls the port enumerator until a port
outside the baseline appears and survives a debounce re-check. It returns that
port, or `""` when the deadline passes.

The model has five modules:

- `Ports` (ports.dfy): the values of the world. An enumerator answers each call
  with a set of port names or an error. Errors carry a `Wrapped` form for Go's
  `%w` wrapping.
- `DryRun` (emulator.dfy): the dry-run enumerator. Go writes it as a closure
  over one mutable variable, `emulatedPort`. Here it is the class `Emulator`
  with that field and a `Next` method, plus functions giving its answer to the
  k-th call.
- `Mapping` (mapper.dfy): selection of the enumerator (nil falls back to the
  default, dry-run replaces any choice). The class `PortsMapper` stands for
  the `portsMapper` variable during one call and counts the calls made.
- `Reset` (reset.dfy) holds the imperative model:
  - `HasNewPorts` and `FindNewPort` are the two scans over Go maps.
  - `PollRound` is one round of the loop, `WaitForNewPort` the loop itself,
    and `Reset` the whole call.
  - Each method is proved against functions of its inputs: `Round`, `Poll`
    and `ResetSpec`. `Reset` ensures `Allowed(req, env, outcome)`, meaning the
    outcome is one the specification permits.
- `ResetProperties` (properties.dfy): what the call guarantees, proved about
  `ResetSpec` and so, through `Allowed`, about every outcome of `Reset`.

Inputs that come from the world are parameters of the `Environment`:

- The default OS lister is an enumerator.
- The result of the real touch is `touchResult`.
- The deadline is `budget`, the number of poll rounds that start before the
  deadline passes.

Callbacks are flags saying which hooks are installed; a nil `cb` is
`NoCallbacks`. Each hook invocation is appended to an event trace.

Go map iteration order decides which new port is returned when several
qualify. `ResetSpec` therefore yields `Found(candidates)`, and `Allowed`
accepts any returned port in that set.

Three behaviours of the code worth knowing, all modelled as written:

- The debug message with the baseline (reset.go:112-114) is sent before the
  enumeration error is checked. A failing first enumeration therefore still
  invokes `Debug` once; it invokes no other hook.
- A touch error while waiting is discarded silently (reset.go:129). It is not
  reported through `Debug`.
- A port is not required to appear in two consecutive snapshots.
  - The poll needs only some port outside the baseline (reset.go:155-161).
  - The port returned is any port of the re-check outside that same baseline
    (reset.go:184-189).
  - `StableMeansNewInCheck` exhibits a run where the returned port was never
    in the poll snapshot.

A run of the specification also records the call numbers at which the poll
rounds took their `now` snapshot, and how many enumerator calls were made.
`Schedule` states what these must be: each round compares against the
previous round's poll snapshot (reset.go:197), never against its re-check,
and the last call made is the one that ended the loop.

## Model

| member | source | states |
|---|---|---|
| DryRun.Visible | reset.go:98-101 | the emulator reports exactly its current port, and nothing when that port is empty |
| DryRun.Advance | reset.go:102-106 | one call only appends to the emulated port, never leaves it empty, and changes it exactly when it is empty or ends in "999" |
| DryRun.PortAfter | reset.go:96-107 | after any number of calls the emulated port still starts with the target, and it is non-empty from the first call on |
| DryRun.EmulatedAnswer | reset.go:95-108 | the emulator never fails, and its first answer lists just the target (nothing for an empty target) |
| DryRun.AdvanceSettles | reset.go:102-106 | one call moves the emulated port to where any further call leaves it; a name ending in "999" no longer does so after the call |
| DryRun.PortAfterSettles | reset.go:96-107 | from the first call on, the emulated port is fixed at target+"0", "newport" or the target itself |
| DryRun.Emulator.constructor | reset.go:96 | the emulated port starts at the target port |
| DryRun.Emulator.Next | reset.go:97-108 | one closure call reports the current port and then advances the field as the closure does |
| Mapping.SelectMapper | reset.go:86-109 | the emulator is selected exactly in dry-run, started on the target port; otherwise the caller's lister, or the default lister when the caller passes nil |
| Mapping.PortsMapper.constructor | reset.go:92-109 | the selected mapper starts with no calls made, owning a fresh emulator in dry-run |
| Mapping.PortsMapper.Next | reset.go:111-177 | every `portsMapper()` call (the baseline, each poll, each re-check) returns the mapper's answer for that call number and counts it, keeping the emulator in step |
| Reset.Fire | reset.go:120-125 | a hook's event is delivered exactly when the hook is installed, at most once |
| Reset.Announced | reset.go:112-125 | the events before any waiting hold `TouchingPort` exactly when the hook is installed and the target is non-empty and in the baseline; all other events are debug messages |
| Reset.Round | reset.go:148-198 | one round makes one or two enumerator calls; it returns only with a found port or an error, after polling at its first call |
| Reset.Poll | reset.go:147-204 | the loop never ends as "not waited", runs at most its budget of rounds with at most two calls each, and times out only after running every round |
| Reset.ResetSpec | reset.go:91-205 | the call makes at least the baseline call; without waiting it makes only that call and ends as "not waited" unless an error is returned; with waiting it never ends as "not waited" |
| Reset.Touches | reset.go:119-132 | the real touch needs a non-empty target and is never made in dry-run |
| Reset.HasNewPorts | reset.go:155-161 | the scan reports true exactly when some port of `now` is missing from `last` |
| Reset.FindNewPort | reset.go:184-190 | a found port is in `check` and not in `last`, and nothing is found exactly when `check` lies inside `last` |
| Reset.RoundAdvancesBaseline | reset.go:163-198 | a round that does not return makes its `now` snapshot the next baseline; the re-check, if made, listed nothing outside the old baseline |
| Reset.PollRound | reset.go:148-198 | one round's enumerations, hook events, early return and call count agree with the round's specification |
| Reset.WaitForNewPort | reset.go:142-204 | the loop's port, error and hook events are an outcome the poll specification permits, and it makes exactly the enumerator calls the specification counts |
| Reset.Reset | reset.go:91-205 | every outcome of the call, including whether the real touch was made, is one the specification of the whole call permits |
| ResetProperties.RoundDebugOnly | reset.go:148-195 | before the final report of a found port, a round emits only debug messages |
| ResetProperties.RoundOutcomes | reset.go:148-190 | a failed poll ends the round with that poll's error; otherwise a round returns only with the re-check's error after a listing poll, or with the non-empty set of re-checked ports outside the baseline after a poll that saw a new port |
| ResetProperties.PollEventKinds | reset.go:147-203 | before the final report of a found port, the loop emits debug messages and, on timeout, the empty-name report only |
| ResetProperties.PollFoundReports | reset.go:186-203 | before the final report of a found port, `BootloaderPortFound` is reported only on timeout, once, with "" |
| ResetProperties.PollCalls | reset.go:148-180 | the loop returns an error exactly when one of its calls failed; the error is that of the first failed call, and that call is the last one made |
| ResetProperties.PollSchedule | reset.go:147-199 | the loop's rounds poll one after another, each compared with the previous round's poll snapshot, never its re-check; a round passes on after one call if nothing was new or after a re-check listing nothing new, and the last round is the one that ended the loop |
| ResetProperties.PollFoundWitness | reset.go:155-197 | every port the loop can return is new and stable against the last round's baseline: outside it, listed by that round's re-check, after a poll that saw a port outside it |
| ResetProperties.InitialFailureAborts | reset.go:111-117 | a failing first enumeration returns "" with that error, invokes only the baseline debug message and touches nothing |
| ResetProperties.ErrorsAbort | reset.go:111-180 | an error comes with "" and no found report; unless it is the wrapped touch error when not waiting, it is the error of the first failed enumerator call, the last call made; with no error every call made listed |
| ResetProperties.TouchOnlyWhenPresent | reset.go:119-133 | the real touch happens exactly when the target is non-empty, in the baseline and not in dry-run |
| ResetProperties.NoTouchingAfterAnnounced | reset.go:119-204 | after the announcements no `TouchingPort` event follows |
| ResetProperties.TouchingHookGating | reset.go:119-125 | `TouchingPort` fires, with the target only, exactly when the hook is installed and the target is present, dry-run or not |
| ResetProperties.NoWaitOutcome | reset.go:111-137 | without waiting the port is "", nothing waits or reports a port, and the only errors are a failed first enumeration or the wrapped error of the real touch |
| ResetProperties.WaitIgnoresTouchResult | reset.go:129-140 | when waiting, the touch result changes nothing: polling starts as after a successful touch |
| ResetProperties.FoundPortIsNewAndStable | reset.go:155-197 | a non-empty port comes only from waiting, without error, and is new and stable against the baseline of the round that found it, that is the previous round's poll snapshot |
| ResetProperties.WaitPathTrace | reset.go:135-204 | on the waiting path the caller sees the announcements, the waiting hook, the loop's events and the final report |
| ResetProperties.WaitingFiresOnce | reset.go:138-140 | on the waiting path without error, `WaitingForNewSerial` fires once exactly when installed |
| ResetProperties.FoundReportedOnce | reset.go:186-204 | on the waiting path without error, `BootloaderPortFound` fires once with the returned port, "" on timeout |
| ResetProperties.StableMeansNewInCheck | reset.go:155-189 | a lister whose new port is replaced at the re-check makes the call return a port the poll never saw |
| ResetProperties.DryRunReplacesMapper | reset.go:92-109 | in dry-run neither the caller's mapper nor the default one influences the call |
| ResetProperties.SuppliedMapperUsed | reset.go:86-94 | outside dry-run a mapper the caller supplies answers every call, and the default lister has no influence on the call |
| ResetProperties.NilMapperUsesDefault | reset.go:92-94 | a nil mapper behaves as the default lister passed explicitly |
| ResetProperties.DryRunWithoutWait | reset.go:126-136 | dry-run without waiting returns "" and no error, and never touches |
| ResetProperties.DryRunFindsSuffixedPort | reset.go:82-84 | dry-run with waiting on a target ending in "999" returns target+"0" without error |
| ResetProperties.DryRunFindsNewport | reset.go:95-108 | dry-run with waiting on the empty target returns "newport" without error |
| ResetProperties.SteadyPollTimesOut | reset.go:147-204 | when every answer from some call on equals the baseline, every round passes and the loop times out |
| ResetProperties.DryRunSteady | reset.go:95-108 | once the emulated port is the target itself, every answer from the first call on lists just the target |
| ResetProperties.DryRunOtherTargetTimesOut | reset.go:142-204 | dry-run with waiting on any other target times out with "" and no error |

## Left out

- `Touch1200bps` (reset.go:30-57) is not part of this model. Its serial-port
  calls, the 500 ms sleep and the `runtime.GOOS` branch are I/O. Only its
  result, success or an error, is an input.
- `DefaultPortMapper` (port_mapper.go:29-39) wraps the OS port list and is an
  input enumerator here.
- Wall-clock time is left out, and no real-time bound is proved. This covers
  `time.Now`, the 10 s and 100 ms deadlines, and the 1 s and 250 ms sleeps.
  The deadline becomes the number of rounds that start before it passes.
- Debug message text (`fmt.Sprintf` of the maps) is left out. Only which debug
  message was sent is recorded.
- Snapshots are sets of names, i.e. Go maps whose values are all true. A
  caller's enumerator that maps a port to false is not modelled. For such a map
  `last[p]` and membership differ.
- Go map iteration order is left out. Which qualifying port is returned is
  left open, as a set of candidates.
- Callbacks that panic or block are not modelled, nor is concurrent use of the
  callbacks.
- Snapshots are values. A caller's enumerator that hands back one map and
  keeps changing it afterwards would make `last` share that map with `now`
  after reset.go:197; such aliasing is not modelled.
- Errors are compared structurally. Go's error identity
  and formatting of `%w` are not modelled.
