/** The reset-and-detect state machine of `Reset` (reset.go:91-205):
    baseline snapshot, optional 1200-bps touch, then polling with a debounce
    re-check until a new port is stable or the deadline passes. */
module Reset {
  import opened Ports
  import opened DryRun
  import opened Mapping

  /** Which progress hooks the caller installed; a nil `cb` is `NoCallbacks`. */
  datatype Callbacks = Callbacks(touchingPort: bool, waitingForNewSerial: bool,
                                 bootloaderPortFound: bool, debug: bool)

  const NoCallbacks := Callbacks(false, false, false, false)

  /** The debug messages `Reset` emits; their formatted text is not modelled. */
  datatype DebugNote = LastPorts | TouchPort | WaitPorts | NewPortsFound | CheckPorts | CheckFailed

  /** One invocation of a progress hook. */
  datatype Event =
    | TouchingPort(port: string)
    | WaitingForNewSerial
    | BootloaderPortFound(port: string)
    | Debug(note: DebugNote)

  /** The events a hook delivers: the event if the hook is installed, else nothing. */
  function Fire(hooked: bool, e: Event): (t: seq<Event>)
    ensures e in t <==> hooked
    ensures |t| <= 1
  {
    if hooked then [e] else []
  }

  /** The arguments of `Reset`. */
  datatype Request = Request(portToTouch: string, wait: bool, dryRun: bool,
                             portsMapper: Option<Enumerator>, cb: Callbacks)

  /** What the world answers during one call: the default OS lister, the
      result the real 1200-bps touch would report, and how many poll rounds
      start before the deadline (10 s, or 100 ms in dry-run) passes. */
  datatype Environment = Environment(defaultMapper: Enumerator, touchResult: Option<Error>,
                                     budget: nat)

  /** What `Reset` reports to its caller, the hooks it invoked, and whether
      it performed the real touch. */
  datatype Outcome = Outcome(port: string, err: Option<Error>, trace: seq<Event>, touched: bool)

  /** How a call ends. `Found` carries every port the final comparison could
      return: which one is picked depends on Go's map iteration order. */
  datatype Verdict = Found(candidates: set<string>) | NotWaited | TimedOut | Aborted(err: Error)

  /** A verdict with the hook events invoked before it (for `Found`, all but
      the final `BootloaderPortFound`, which names the port picked), the call
      numbers at which the poll rounds took their `now` snapshot, and the
      number of enumerator calls made in all. */
  datatype Run = Run(verdict: Verdict, trace: seq<Event>, polls: seq<nat>, calls: nat)

  const TouchContext := "1200-bps touch"

  /** A run preceded by some hook events. */
  function After(events: seq<Event>, r: Run): Run {
    r.(trace := events + r.trace)
  }

  /** A run preceded by a round that polled at call `calls` and emitted `events`. */
  function AfterRound(calls: nat, events: seq<Event>, r: Run): Run {
    Run(r.verdict, events + r.trace, [calls] + r.polls, r.calls)
  }

  /** The touch is attempted only for a non-empty target present in the
      baseline snapshot. */
  predicate Touching(portToTouch: string, last: set<string>) {
    portToTouch != "" && portToTouch in last
  }

  function Selected(req: Request, env: Environment): Mapper {
    SelectMapper(req.portsMapper, env.defaultMapper, req.dryRun, req.portToTouch)
  }

  /** How one poll round ends: it either returns from `Reset` with a run,
      or continues at call number `next` with baseline `now`. */
  datatype RoundEnd = Stop(run: Run) | Continue(next: nat, now: set<string>, events: seq<Event>)

  /** One round of the poll loop (reset.go:148-198), starting at call number
      `calls` with baseline `last`. */
  function Round(answers: Enumerator, calls: nat, last: set<string>, cb: Callbacks): (r: RoundEnd)
    ensures r.Continue? ==> calls < r.next <= calls + 2
    ensures r.Stop? ==> r.run.polls == [calls] && calls < r.run.calls <= calls + 2
    ensures r.Stop? ==> r.run.verdict.Found? || r.run.verdict.Aborted?
  {
    match answers(calls)
    case Failed(e) => Stop(Run(Aborted(e), [], [calls], calls + 1))
    case Listed(now) =>
      var seen := Fire(cb.debug, Debug(WaitPorts));
      if now <= last then Continue(calls + 1, now, seen)
      else
        var flagged := seen + Fire(cb.debug, Debug(NewPortsFound));
        match answers(calls + 1)
        case Failed(e) => Stop(Run(Aborted(e), flagged, [calls], calls + 2))
        case Listed(check) =>
          var checked := flagged + Fire(cb.debug, Debug(CheckPorts));
          if !(check <= last) then Stop(Run(Found(check - last), checked, [calls], calls + 2))
          else Continue(calls + 2, now, checked + Fire(cb.debug, Debug(CheckFailed)))
  }

  /** The poll loop from call number `calls` on, with baseline `last` and
      `fuel` rounds left before the deadline. */
  function Poll(answers: Enumerator, calls: nat, last: set<string>, fuel: nat, cb: Callbacks): (r: Run)
    ensures !r.verdict.NotWaited?
    ensures |r.polls| <= fuel && calls <= r.calls <= calls + 2 * fuel
    ensures r.verdict.TimedOut? ==> |r.polls| == fuel
    decreases fuel
  {
    if fuel == 0 then Run(TimedOut, Fire(cb.bootloaderPortFound, BootloaderPortFound("")), [], calls)
    else match Round(answers, calls, last, cb)
      case Stop(r) => r
      case Continue(next, now, events) => AfterRound(calls, events, Poll(answers, next, now, fuel - 1, cb))
  }

  /** A round that does not return moves the baseline to its `now` snapshot,
      never to the re-check: that one is only compared with the old baseline,
      and it listed nothing outside it. */
  lemma RoundAdvancesBaseline(answers: Enumerator, calls: nat, last: set<string>, cb: Callbacks)
    requires Round(answers, calls, last, cb).Continue?
    ensures answers(calls).Listed?
    ensures Round(answers, calls, last, cb).now == answers(calls).ports
    ensures Round(answers, calls, last, cb).next == calls + 1 <==> answers(calls).ports <= last
    ensures Round(answers, calls, last, cb).next == calls + 2 ==>
              answers(calls + 1).Listed? && answers(calls + 1).ports <= last
    ensures Round(answers, calls, last, cb).next in {calls + 1, calls + 2}
  {
  }

  /** The hook events before any waiting: the baseline debug message and,
      when the target is present, the touch announcements. */
  function Announced(req: Request, last: set<string>): (t: seq<Event>)
    ensures TouchingPort(req.portToTouch) in t <==> req.cb.touchingPort && Touching(req.portToTouch, last)
    ensures forall e | e in t :: e.Debug? || e == TouchingPort(req.portToTouch)
  {
    Fire(req.cb.debug, Debug(LastPorts)) +
    (if Touching(req.portToTouch, last)
     then Fire(req.cb.debug, Debug(TouchPort)) + Fire(req.cb.touchingPort, TouchingPort(req.portToTouch))
     else [])
  }

  /** The whole call, as a function of its arguments and the environment. */
  function ResetSpec(req: Request, env: Environment): (r: Run)
    ensures r.calls >= 1
    ensures r.verdict.NotWaited? <==> !req.wait && !r.verdict.Aborted?
    ensures !req.wait ==> r.calls == 1 && r.polls == []
  {
    var m := Selected(req, env);
    match AnswerAt(m, 0)
    case Failed(e) => Run(Aborted(e), Fire(req.cb.debug, Debug(LastPorts)), [], 1)
    case Listed(last) =>
      if Touching(req.portToTouch, last) && !req.dryRun && env.touchResult.Some? && !req.wait then
        Run(Aborted(Wrapped(TouchContext, env.touchResult.value)), Announced(req, last), [], 1)
      else if !req.wait then
        Run(NotWaited, Announced(req, last), [], 1)
      else
        After(Announced(req, last) + Fire(req.cb.waitingForNewSerial, WaitingForNewSerial),
              Poll(Answers(m), 1, last, env.budget, req.cb))
  }

  /** Whether the real touch is performed. */
  predicate Touches(req: Request, env: Environment)
    ensures Touches(req, env) ==> req.portToTouch != "" && !req.dryRun
  {
    var first := AnswerAt(Selected(req, env), 0);
    first.Listed? && Touching(req.portToTouch, first.ports) && !req.dryRun
  }

  /** `o` is one way the run `r` can be reported to the caller. */
  predicate Realizes(r: Run, cb: Callbacks, o: Outcome) {
    match r.verdict
    case Found(candidates) =>
      o.port in candidates && o.err == None &&
      o.trace == r.trace + Fire(cb.bootloaderPortFound, BootloaderPortFound(o.port))
    case NotWaited => o.port == "" && o.err == None && o.trace == r.trace
    case TimedOut => o.port == "" && o.err == None && o.trace == r.trace
    case Aborted(e) => o.port == "" && o.err == Some(e) && o.trace == r.trace
  }

  /** The outcomes `Reset(req)` may have in environment `env`. */
  predicate Allowed(req: Request, env: Environment, o: Outcome) {
    o.touched == Touches(req, env) && Realizes(ResetSpec(req, env), req.cb, o)
  }

  /** The scan over `now` for a port missing from `last` (reset.go:155-161). */
  method HasNewPorts(now: set<string>, last: set<string>) returns (hasNewPorts: bool)
    ensures hasNewPorts <==> exists p :: p in now && p !in last
  {
    hasNewPorts := false;
    var unseen := now;
    while unseen != {}
      invariant unseen <= now
      invariant forall p :: p in now && p !in unseen ==> p in last
      decreases unseen
    {
      var p :| p in unseen;
      if p !in last {
        hasNewPorts := true;
        break;
      }
      unseen := unseen - {p};
    }
  }

  /** The scan over `check` for a port missing from `last` (reset.go:184-190);
      which one is found first is left open. */
  method FindNewPort(check: set<string>, last: set<string>) returns (found: bool, port: string)
    ensures found ==> port in check && port !in last
    ensures !found <==> check <= last
  {
    found, port := false, "";
    var unseen := check;
    while unseen != {}
      invariant unseen <= check
      invariant forall p :: p in check && p !in unseen ==> p in last
      decreases unseen
    {
      var p :| p in unseen;
      if p !in last {
        found, port := true, p;
        break;
      }
      unseen := unseen - {p};
    }
  }

  /** Reporting a run after some earlier hook events. */
  lemma RealizesAfter(events: seq<Event>, r: Run, cb: Callbacks, o: Outcome, later: Run)
    requires Realizes(r, cb, o)
    requires later.verdict == r.verdict && later.trace == events + r.trace
    ensures Realizes(later, cb, o.(trace := events + o.trace))
  {
    if r.verdict.Found? {
      assert events + (r.trace + Fire(cb.bootloaderPortFound, BootloaderPortFound(o.port)))
          == (events + r.trace) + Fire(cb.bootloaderPortFound, BootloaderPortFound(o.port));
    }
  }

  /** `whole` is the run `r` reached after the hook events `events`. */
  ghost predicate Continues(whole: Run, events: seq<Event>, r: Run) {
    whole.verdict == r.verdict && whole.trace == events + r.trace && whole.calls == r.calls
  }

  lemma ContinuesAfterRound(whole: Run, events: seq<Event>, calls: nat, round: seq<Event>, r: Run)
    requires Continues(whole, events, AfterRound(calls, round, r))
    ensures Continues(whole, events + round, r)
  {
    assert events + (round + r.trace) == (events + round) + r.trace;
  }

  /** One round of the poll loop (reset.go:148-198): enumerate, and if some
      port is new, enumerate again and look for a port still new. */
  method PollRound(mapper: PortsMapper, last: set<string>, cb: Callbacks)
    returns (stop: bool, port: string, err: Option<Error>, now: set<string>, events: seq<Event>)
    requires mapper.Valid()
    modifies mapper, mapper.emulator
    ensures mapper.Valid()
    ensures var round := Round(Answers(mapper.source), old(mapper.calls), last, cb);
            if stop then round.Stop? && round.run.calls == mapper.calls &&
                         Realizes(round.run, cb, Outcome(port, err, events, false))
            else round == Continue(mapper.calls, now, events)
  {
    port, err, now := "", None, {};
    var snap := mapper.Next();
    if snap.Failed? {
      return true, "", Some(snap.err), now, [];
    }
    now := snap.ports;
    events := Fire(cb.debug, Debug(WaitPorts));
    var hasNewPorts := HasNewPorts(now, last);
    if !hasNewPorts {
      return false, port, err, now, events;
    }
    events := events + Fire(cb.debug, Debug(NewPortsFound));
    var recheck := mapper.Next();
    if recheck.Failed? {
      return true, "", Some(recheck.err), now, events;
    }
    var check := recheck.ports;
    events := events + Fire(cb.debug, Debug(CheckPorts));
    var found, p := FindNewPort(check, last);
    if found {
      return true, p, None, now, events + Fire(cb.bootloaderPortFound, BootloaderPortFound(p));
    }
    events := events + Fire(cb.debug, Debug(CheckFailed));
    stop := false;
  }

  /** The poll loop of `Reset` (reset.go:142-204), run on the selected mapper
      from baseline `baseline` with `rounds` rounds before the deadline. */
  method WaitForNewPort(mapper: PortsMapper, baseline: set<string>, rounds: nat, cb: Callbacks)
    returns (port: string, err: Option<Error>, trace: seq<Event>)
    requires mapper.Valid()
    modifies mapper, mapper.emulator
    ensures mapper.Valid()
    ensures Realizes(Poll(Answers(mapper.source), old(mapper.calls), baseline, rounds, cb), cb,
                     Outcome(port, err, trace, false))
    ensures mapper.calls == Poll(Answers(mapper.source), old(mapper.calls), baseline, rounds, cb).calls
  {
    ghost var answers := Answers(mapper.source);
    ghost var expected := Poll(answers, mapper.calls, baseline, rounds, cb);
    trace := [];
    var last, fuel := baseline, rounds;
    while fuel > 0
      invariant mapper.Valid()
      invariant Continues(expected, trace, Poll(answers, mapper.calls, last, fuel, cb))
      decreases fuel
    {
      ghost var calls := mapper.calls;
      var stop, p, e, now, events := PollRound(mapper, last, cb);
      if stop {
        RealizesAfter(trace, Round(answers, calls, last, cb).run, cb, Outcome(p, e, events, false), expected);
        return p, e, trace + events;
      }
      ContinuesAfterRound(expected, trace, calls, events, Poll(answers, mapper.calls, now, fuel - 1, cb));
      trace := trace + events;
      last := now;
      fuel := fuel - 1;
    }
    trace := trace + Fire(cb.bootloaderPortFound, BootloaderPortFound(""));
    port, err := "", None;
  }

  /** `Reset`: take the baseline, touch the target if it is present, and if
      asked to wait, poll for a new port that survives the debounce check. */
  method Reset(req: Request, env: Environment)
    returns (port: string, err: Option<Error>, trace: seq<Event>, touched: bool)
    ensures Allowed(req, env, Outcome(port, err, trace, touched))
  {
    var cb := req.cb;
    var m := SelectMapper(req.portsMapper, env.defaultMapper, req.dryRun, req.portToTouch);
    var mapper := new PortsMapper(m);
    touched := false;

    var first := mapper.Next();
    assert first == AnswerAt(m, 0) && mapper.calls == 1;
    trace := Fire(cb.debug, Debug(LastPorts));
    if first.Failed? {
      return "", Some(first.err), trace, touched;
    }
    var last := first.ports;

    if req.portToTouch != "" && req.portToTouch in last {
      trace := trace + Fire(cb.debug, Debug(TouchPort));
      trace := trace + Fire(cb.touchingPort, TouchingPort(req.portToTouch));
      if !req.dryRun {
        touched := true;
        if env.touchResult.Some? && !req.wait {
          assert trace == Announced(req, last);
          return "", Some(Wrapped(TouchContext, env.touchResult.value)), trace, touched;
        }
      }
    }
    assert trace == Announced(req, last);

    if !req.wait {
      return "", None, trace, touched;
    }
    trace := trace + Fire(cb.waitingForNewSerial, WaitingForNewSerial);

    var found, failure, events := WaitForNewPort(mapper, last, env.budget, cb);
    assert ResetSpec(req, env) == After(trace, Poll(Answers(m), 1, last, env.budget, cb));
    RealizesAfter(trace, Poll(Answers(m), 1, last, env.budget, cb), cb, Outcome(found, failure, events, false),
                  ResetSpec(req, env));
    port, err, trace := found, failure, trace + events;
  }
}
