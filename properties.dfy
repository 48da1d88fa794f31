/** What the reset state machine guarantees, proved about `ResetSpec` and so,
    through `Reset.Reset`'s postcondition, about every outcome of a call. */
module ResetProperties {
  import opened Ports
  import opened DryRun
  import opened Mapping
  import opened Reset

  /** The ports reported through `BootloaderPortFound`, in order. */
  function FoundReports(trace: seq<Event>): seq<string> {
    if trace == [] then []
    else (if trace[0].BootloaderPortFound? then [trace[0].port] else []) + FoundReports(trace[1..])
  }

  lemma {:induction false} FoundReportsConcat(a: seq<Event>, b: seq<Event>)
    ensures FoundReports(a + b) == FoundReports(a) + FoundReports(b)
  {
    if a == [] {
      assert a + b == b;
    } else {
      assert (a + b)[0] == a[0];
      assert (a + b)[1..] == a[1..] + b;
      FoundReportsConcat(a[1..], b);
    }
  }

  lemma Regroup(a: seq<Event>, b: seq<Event>, c: seq<Event>, d: seq<Event>)
    ensures (a + b) + c + d == a + (b + c + d)
  {
  }

  lemma {:induction false} NoFoundReports(trace: seq<Event>)
    requires forall e | e in trace :: !e.BootloaderPortFound?
    ensures FoundReports(trace) == []
  {
    if trace != [] {
      NoFoundReports(trace[1..]);
    }
  }

  /** `p` is new and stable against baseline `base`: the poll at call `k`
      saw some port outside `base`, and the re-check at call `k + 1` lists
      `p`, which is outside `base`. */
  ghost predicate NewAndStable(answers: Enumerator, base: set<string>, k: nat, p: string) {
    && answers(k).Listed? && answers(k + 1).Listed?
    && !(answers(k).ports <= base)
    && p in answers(k + 1).ports && p !in base
  }

  /** The calls from `from` up to `to` (excluded) all listed ports. */
  ghost predicate AllListed(answers: Enumerator, from: nat, to: nat) {
    forall i | from <= i < to :: answers(i).Listed?
  }

  /** Call `k` is the first call from `from` on that failed, with error `e`. */
  ghost predicate FirstFailure(answers: Enumerator, from: nat, k: nat, e: Error) {
    from <= k && answers(k) == Failed(e) && AllListed(answers, from, k)
  }

  /** The baseline of the round at index `i` of `polls`: the loop's starting
      baseline for the first round, the previous round's poll snapshot after. */
  ghost function BaseOf(answers: Enumerator, last: set<string>, polls: seq<nat>, i: nat): set<string>
    requires i < |polls|
  {
    if i == 0 then last
    else match answers(polls[i - 1])
      case Listed(now) => now
      case Failed(_) => {}
  }

  /** The round polling at call `k` against `base` did not return, and the
      next round polls at call `next`: after one call if nothing was new,
      after a failed re-check otherwise. */
  ghost predicate Passed(answers: Enumerator, base: set<string>, k: nat, next: nat) {
    match answers(k)
    case Failed(_) => false
    case Listed(now) =>
      if now <= base then next == k + 1
      else next == k + 2 && answers(k + 1).Listed? && answers(k + 1).ports <= base
  }

  /** The round at index `i` of `polls` passed on to the round at `i + 1`. */
  ghost predicate PassedAt(answers: Enumerator, last: set<string>, polls: seq<nat>, i: nat)
    requires i + 1 < |polls|
  {
    Passed(answers, BaseOf(answers, last, polls, i), polls[i], polls[i + 1])
  }

  /** The round polling at call `k` against `base` ended the loop with `r`. */
  ghost predicate Ended(answers: Enumerator, base: set<string>, k: nat, r: Run) {
    match answers(k)
    case Failed(e) => r.verdict == Aborted(e) && r.calls == k + 1
    case Listed(now) =>
      && !(now <= base) && r.calls == k + 2
      && match answers(k + 1)
         case Failed(e) => r.verdict == Aborted(e)
         case Listed(check) => !(check <= base) && r.verdict == Found(check - base)
  }

  /** `r` is a run of rounds from call `calls` with baseline `last`, each
      round's baseline being the previous round's poll snapshot. */
  ghost predicate Schedule(answers: Enumerator, calls: nat, last: set<string>, r: Run) {
    var n := |r.polls|;
    && (n == 0 ==> r.verdict == TimedOut && r.calls == calls)
    && (n > 0 ==> r.polls[0] == calls)
    && (forall i | 0 <= i < n - 1 :: PassedAt(answers, last, r.polls, i))
    && (n > 0 ==>
          if r.verdict.TimedOut? then Passed(answers, BaseOf(answers, last, r.polls, n - 1), r.polls[n - 1], r.calls)
          else Ended(answers, BaseOf(answers, last, r.polls, n - 1), r.polls[n - 1], r))
  }

  ghost predicate DebugOnly(trace: seq<Event>) {
    forall e | e in trace :: e.Debug?
  }

  /** A round emits only debug messages. */
  lemma RoundDebugOnly(answers: Enumerator, calls: nat, last: set<string>, cb: Callbacks)
    ensures Round(answers, calls, last, cb).Continue? ==> DebugOnly(Round(answers, calls, last, cb).events)
    ensures Round(answers, calls, last, cb).Stop? ==> DebugOnly(Round(answers, calls, last, cb).run.trace)
  {
  }

  /** A round ends the loop only by finding ports that the re-check lists
      outside the baseline, or by an error of one of its two enumerations:
      a failed poll ends it with the poll's error, a failed re-check (made
      only after a poll that listed) with the re-check's. */
  lemma RoundOutcomes(answers: Enumerator, calls: nat, last: set<string>, cb: Callbacks)
    ensures answers(calls).Failed? ==> Round(answers, calls, last, cb) == Stop(Run(Aborted(answers(calls).err), [], [calls], calls + 1))
    ensures Round(answers, calls, last, cb).Stop? ==>
              var r := Round(answers, calls, last, cb).run;
              && (r.verdict.Found? || r.verdict.Aborted?)
              && (r.verdict.Aborted? ==>
                    answers(calls) == Failed(r.verdict.err) ||
                    (answers(calls).Listed? && answers(calls + 1) == Failed(r.verdict.err) && r.calls == calls + 2))
              && (r.verdict.Found? ==>
                    && answers(calls).Listed? && answers(calls + 1).Listed?
                    && !(answers(calls).ports <= last)
                    && r.verdict.candidates == answers(calls + 1).ports - last
                    && r.verdict.candidates != {})
  {
    var round := Round(answers, calls, last, cb);
    if round.Stop? && round.run.verdict.Found? {
      var check := answers(calls + 1).ports;
      var p :| p in check && p !in last;
      assert p in round.run.verdict.candidates;
    }
  }

  /** Only debug messages and the timeout report. */
  ghost predicate Quiet(trace: seq<Event>) {
    forall e | e in trace :: e.Debug? || e == BootloaderPortFound("")
  }

  lemma QuietConcat(a: seq<Event>, b: seq<Event>)
    requires DebugOnly(a) && Quiet(b)
    ensures Quiet(a + b)
  {
  }

  /** The poll loop never invokes the touching or waiting hooks: besides
      debug messages it only reports the empty name, on timeout. */
  lemma {:induction false} PollEventKinds(answers: Enumerator, calls: nat, last: set<string>, fuel: nat, cb: Callbacks)
    ensures Quiet(Poll(answers, calls, last, fuel, cb).trace)
    decreases fuel
  {
    if fuel > 0 {
      RoundDebugOnly(answers, calls, last, cb);
      var round := Round(answers, calls, last, cb);
      if round.Continue? {
        var rest := Poll(answers, round.next, round.now, fuel - 1, cb);
        PollStep(answers, calls, last, fuel, cb);
        PollEventKinds(answers, round.next, round.now, fuel - 1, cb);
        QuietConcat(round.events, rest.trace);
      }
    }
  }

  /** The poll loop reports through `BootloaderPortFound` only on timeout,
      once, with the empty name. */
  lemma {:induction false} PollFoundReports(answers: Enumerator, calls: nat, last: set<string>, fuel: nat, cb: Callbacks)
    ensures FoundReports(Poll(answers, calls, last, fuel, cb).trace) ==
              (if Poll(answers, calls, last, fuel, cb).verdict.TimedOut? && cb.bootloaderPortFound then [""] else [])
    decreases fuel
  {
    if fuel == 0 {
      TimeoutReport(cb);
    } else {
      var round := Round(answers, calls, last, cb);
      if round.Continue? {
        PollStep(answers, calls, last, fuel, cb);
        PollFoundReports(answers, round.next, round.now, fuel - 1, cb);
        RoundDebugOnly(answers, calls, last, cb);
        FoundReportsAfter(round.events, Poll(answers, round.next, round.now, fuel - 1, cb).trace);
      } else {
        RoundStopReports(answers, calls, last, cb);
      }
    }
  }

  lemma FoundReportsAfter(events: seq<Event>, trace: seq<Event>)
    requires DebugOnly(events)
    ensures FoundReports(events + trace) == FoundReports(trace)
  {
    NoFoundReports(events);
    FoundReportsConcat(events, trace);
  }

  lemma RoundStopReports(answers: Enumerator, calls: nat, last: set<string>, cb: Callbacks)
    requires Round(answers, calls, last, cb).Stop?
    ensures !Round(answers, calls, last, cb).run.verdict.TimedOut?
    ensures FoundReports(Round(answers, calls, last, cb).run.trace) == []
  {
    RoundDebugOnly(answers, calls, last, cb);
    NoFoundReports(Round(answers, calls, last, cb).run.trace);
  }

  lemma TimeoutReport(cb: Callbacks)
    ensures FoundReports(Fire(cb.bootloaderPortFound, BootloaderPortFound(""))) ==
              (if cb.bootloaderPortFound then [""] else [])
  {
    if cb.bootloaderPortFound {
      assert FoundReports([BootloaderPortFound("")]) == [""] + FoundReports([]);
    }
  }

  /** A round that does not return hands over to the rest of the loop. */
  lemma PollStep(answers: Enumerator, calls: nat, last: set<string>, fuel: nat, cb: Callbacks)
    requires fuel > 0 && Round(answers, calls, last, cb).Continue?
    ensures var round := Round(answers, calls, last, cb);
            Poll(answers, calls, last, fuel, cb) == AfterRound(calls, round.events, Poll(answers, round.next, round.now, fuel - 1, cb))
  {
  }

  /** The loop makes the calls from `calls` up to the run's count, and
      returns an error exactly when one of them failed: the first that
      failed, which is the last call made. */
  lemma {:induction false} PollCalls(answers: Enumerator, calls: nat, last: set<string>, fuel: nat, cb: Callbacks)
    ensures var r := Poll(answers, calls, last, fuel, cb);
            r.verdict.Aborted? ==> r.calls > calls && FirstFailure(answers, calls, r.calls - 1, r.verdict.err)
    ensures var r := Poll(answers, calls, last, fuel, cb);
            !r.verdict.Aborted? ==> AllListed(answers, calls, r.calls)
    decreases fuel
  {
    if fuel > 0 {
      RoundOutcomes(answers, calls, last, cb);
      var round := Round(answers, calls, last, cb);
      if round.Continue? {
        RoundAdvancesBaseline(answers, calls, last, cb);
        PollStep(answers, calls, last, fuel, cb);
        PollCalls(answers, round.next, round.now, fuel - 1, cb);
        ListedPrefix(answers, calls, round.next, Poll(answers, round.next, round.now, fuel - 1, cb).calls);
      } else {
        assert Poll(answers, calls, last, fuel, cb) == round.run;
      }
    }
  }

  lemma ListedPrefix(answers: Enumerator, from: nat, mid: nat, to: nat)
    requires from <= mid && AllListed(answers, from, mid)
    ensures AllListed(answers, mid, to) ==> AllListed(answers, from, to)
    ensures forall k, e :: FirstFailure(answers, mid, k, e) ==> FirstFailure(answers, from, k, e)
  {
  }

  /** The loop runs rounds one after the other: each round after the first
      compares against the previous round's poll snapshot, never against its
      re-check, and the last round is the one that ended the loop. */
  lemma {:induction false} PollSchedule(answers: Enumerator, calls: nat, last: set<string>, fuel: nat, cb: Callbacks)
    ensures Schedule(answers, calls, last, Poll(answers, calls, last, fuel, cb))
    decreases fuel
  {
    if fuel > 0 {
      var round := Round(answers, calls, last, cb);
      if round.Continue? {
        PollSchedule(answers, round.next, round.now, fuel - 1, cb);
        ScheduleStep(answers, calls, last, fuel, cb);
      } else {
        RoundEnded(answers, calls, last, cb);
        PollStop(answers, calls, last, fuel, cb);
      }
    }
  }

  lemma ScheduleStep(answers: Enumerator, calls: nat, last: set<string>, fuel: nat, cb: Callbacks)
    requires fuel > 0 && Round(answers, calls, last, cb).Continue?
    requires var round := Round(answers, calls, last, cb);
             Schedule(answers, round.next, round.now, Poll(answers, round.next, round.now, fuel - 1, cb))
    ensures Schedule(answers, calls, last, Poll(answers, calls, last, fuel, cb))
  {
    var round := Round(answers, calls, last, cb);
    RoundPassed(answers, calls, last, cb);
    PollStep(answers, calls, last, fuel, cb);
    ScheduleCons(answers, calls, last, round.next, round.events, Poll(answers, round.next, round.now, fuel - 1, cb));
  }

  /** A round that returns ends the loop with its run. */
  lemma PollStop(answers: Enumerator, calls: nat, last: set<string>, fuel: nat, cb: Callbacks)
    requires fuel > 0 && Round(answers, calls, last, cb).Stop?
    ensures Poll(answers, calls, last, fuel, cb) == Round(answers, calls, last, cb).run
  {
  }

  lemma RoundPassed(answers: Enumerator, calls: nat, last: set<string>, cb: Callbacks)
    requires Round(answers, calls, last, cb).Continue?
    ensures answers(calls).Listed? && Round(answers, calls, last, cb).now == answers(calls).ports
    ensures Passed(answers, last, calls, Round(answers, calls, last, cb).next)
  {
  }

  lemma RoundEnded(answers: Enumerator, calls: nat, last: set<string>, cb: Callbacks)
    requires Round(answers, calls, last, cb).Stop?
    ensures Schedule(answers, calls, last, Round(answers, calls, last, cb).run)
  {
    var r := Round(answers, calls, last, cb).run;
    assert Ended(answers, last, calls, r);
  }

  /** A round that passed, followed by a schedule from its successor call
      with its poll snapshot as baseline, is a schedule. */
  lemma ScheduleCons(answers: Enumerator, calls: nat, last: set<string>, next: nat,
                     events: seq<Event>, rest: Run)
    requires Passed(answers, last, calls, next) && answers(calls).Listed?
    requires Schedule(answers, next, answers(calls).ports, rest)
    ensures Schedule(answers, calls, last, AfterRound(calls, events, rest))
  {
    var r := AfterRound(calls, events, rest);
    var now := answers(calls).ports;
    forall i | 0 < i < |r.polls|
      ensures BaseOf(answers, last, r.polls, i) == BaseOf(answers, now, rest.polls, i - 1)
    {
    }
    forall i | 0 <= i < |r.polls| - 1
      ensures PassedAt(answers, last, r.polls, i)
    {
      if i > 0 {
        assert PassedAt(answers, now, rest.polls, i - 1);
        assert r.polls[i] == rest.polls[i - 1] && r.polls[i + 1] == rest.polls[i];
      }
    }
  }

  /** Every port the loop can return is new and stable against the baseline
      of the last round, which is the previous round's poll snapshot. */
  lemma PollFoundWitness(answers: Enumerator, calls: nat, last: set<string>, fuel: nat, cb: Callbacks)
    ensures var r := Poll(answers, calls, last, fuel, cb);
            r.verdict.Found? ==>
              && |r.polls| > 0 && Schedule(answers, calls, last, r)
              && var k := r.polls[|r.polls| - 1];
                 var base := BaseOf(answers, last, r.polls, |r.polls| - 1);
                 r.calls == k + 2 &&
                 forall p | p in r.verdict.candidates :: NewAndStable(answers, base, k, p)
  {
    PollSchedule(answers, calls, last, fuel, cb);
  }

  /** A failing first enumeration ends the call at once with that error:
      only the baseline debug message is emitted, nothing is touched. */
  lemma InitialFailureAborts(req: Request, env: Environment, o: Outcome, e: Error)
    requires Allowed(req, env, o)
    requires AnswerAt(Selected(req, env), 0) == Failed(e)
    ensures o == Outcome("", Some(e), Fire(req.cb.debug, Debug(LastPorts)), false)
  {
  }

  /** An error comes back with the empty port and no `BootloaderPortFound`
      report. Unless it is the wrapped error of the real touch (only when not
      waiting), it is the error of the first enumerator call that failed, and
      that call is the last one made. Without error, every call made listed. */
  lemma ErrorsAbort(req: Request, env: Environment, o: Outcome)
    requires Allowed(req, env, o)
    ensures o.err.Some? ==> o.port == "" && FoundReports(o.trace) == []
    ensures o.err.Some? ==>
              (!req.wait && o.touched && env.touchResult.Some? &&
               o.err.value == Wrapped(TouchContext, env.touchResult.value)) ||
              FirstFailure(Answers(Selected(req, env)), 0, ResetSpec(req, env).calls - 1, o.err.value)
    ensures req.wait && o.err.Some? ==>
              FirstFailure(Answers(Selected(req, env)), 0, ResetSpec(req, env).calls - 1, o.err.value)
    ensures o.err.None? ==> AllListed(Answers(Selected(req, env)), 0, ResetSpec(req, env).calls)
  {
    var m := Selected(req, env);
    var first := AnswerAt(m, 0);
    if first.Failed? {
      InitialFailureAborts(req, env, o, first.err);
      NoFoundReports(o.trace);
    } else if !req.wait {
      NoWaitOutcome(req, env, o);
    } else {
      var r := Poll(Answers(m), 1, first.ports, env.budget, req.cb);
      WaitPathTrace(req, env, o);
      assert ResetSpec(req, env).calls == r.calls;
      PollCalls(Answers(m), 1, first.ports, env.budget, req.cb);
      ListedPrefix(Answers(m), 0, 1, r.calls);
      if o.err.Some? {
        PollFoundReports(Answers(m), 1, first.ports, env.budget, req.cb);
        WaitTraceReports(req, first.ports, r, o.port);
      }
    }
  }

  /** The real touch happens exactly when the target is non-empty and listed
      in the baseline, and never in dry-run. */
  lemma TouchOnlyWhenPresent(req: Request, env: Environment, o: Outcome)
    requires Allowed(req, env, o)
    ensures o.touched <==>
              AnswerAt(Selected(req, env), 0).Listed? && !req.dryRun &&
              Touching(req.portToTouch, AnswerAt(Selected(req, env), 0).ports)
    ensures req.dryRun ==> !o.touched
  {
  }

  ghost predicate NoTouching(trace: seq<Event>) {
    forall e | e in trace :: !e.TouchingPort?
  }

  /** The waiting hook, the poll loop's events and the final report hold no
      `TouchingPort` report. */
  lemma WaitTailNoTouching(req: Request, r: Run, port: string)
    requires forall e | e in r.trace :: e.Debug? || e == BootloaderPortFound("")
    ensures NoTouching(Fire(req.cb.waitingForNewSerial, WaitingForNewSerial) + r.trace +
                       (if r.verdict.Found? then Fire(req.cb.bootloaderPortFound, BootloaderPortFound(port)) else []))
  {
  }

  /** After the announcements, the call invokes no `TouchingPort` hook. */
  lemma NoTouchingAfterAnnounced(req: Request, env: Environment, o: Outcome)
    requires Allowed(req, env, o) && AnswerAt(Selected(req, env), 0).Listed?
    ensures var last := AnswerAt(Selected(req, env), 0).ports;
            exists rest :: o.trace == Announced(req, last) + rest && NoTouching(rest)
  {
    var m := Selected(req, env);
    var last := AnswerAt(m, 0).ports;
    if req.wait {
      var r := Poll(Answers(m), 1, last, env.budget, req.cb);
      WaitPathTrace(req, env, o);
      PollEventKinds(Answers(m), 1, last, env.budget, req.cb);
      WaitTailNoTouching(req, r, o.port);
      var tail := if r.verdict.Found? then Fire(req.cb.bootloaderPortFound, BootloaderPortFound(o.port)) else [];
      var rest := Fire(req.cb.waitingForNewSerial, WaitingForNewSerial) + r.trace + tail;
      Regroup(Announced(req, last), Fire(req.cb.waitingForNewSerial, WaitingForNewSerial), r.trace, tail);
    } else {
      assert o.trace == Announced(req, last) + [];
    }
  }

  /** The `TouchingPort` hook fires, with the target, exactly when the
      target is non-empty and listed in the baseline, dry-run or not. */
  lemma TouchingHookGating(req: Request, env: Environment, o: Outcome)
    requires Allowed(req, env, o)
    ensures TouchingPort(req.portToTouch) in o.trace <==>
              req.cb.touchingPort && AnswerAt(Selected(req, env), 0).Listed? &&
              Touching(req.portToTouch, AnswerAt(Selected(req, env), 0).ports)
    ensures forall e | e in o.trace && e.TouchingPort? :: e.port == req.portToTouch
  {
    var m := Selected(req, env);
    if AnswerAt(m, 0).Listed? {
      var last := AnswerAt(m, 0).ports;
      NoTouchingAfterAnnounced(req, env, o);
      var rest :| o.trace == Announced(req, last) + rest && NoTouching(rest);
    } else {
      assert o.trace == Fire(req.cb.debug, Debug(LastPorts));
    }
  }

  /** Without waiting the port is always empty; besides a failing first
      enumeration, the only error is a failed real touch. */
  lemma NoWaitOutcome(req: Request, env: Environment, o: Outcome)
    requires Allowed(req, env, o) && !req.wait
    ensures o.port == "" && WaitingForNewSerial !in o.trace && FoundReports(o.trace) == []
    ensures o.err.Some? <==>
              AnswerAt(Selected(req, env), 0).Failed? || (o.touched && env.touchResult.Some?)
    ensures o.err.Some? && AnswerAt(Selected(req, env), 0).Listed? ==>
              o.err.value == Wrapped(TouchContext, env.touchResult.value)
  {
    var first := AnswerAt(Selected(req, env), 0);
    if first.Listed? {
      assert o.trace == Announced(req, first.ports);
      AnnouncedReports(req, first.ports);
    } else {
      assert o.trace == Fire(req.cb.debug, Debug(LastPorts));
      NoFoundReports(o.trace);
    }
  }

  /** The announcements hold neither the waiting hook nor a found report. */
  lemma AnnouncedReports(req: Request, last: set<string>)
    ensures WaitingForNewSerial !in Announced(req, last)
    ensures FoundReports(Announced(req, last)) == []
  {
    NoFoundReports(Announced(req, last));
  }

  /** When waiting, the result of the real touch is ignored: the call runs
      as if the touch had succeeded. */
  lemma WaitIgnoresTouchResult(req: Request, env: Environment, touchResult: Option<Error>)
    requires req.wait
    ensures ResetSpec(req, env) == ResetSpec(req, env.(touchResult := touchResult))
    ensures Touches(req, env) == Touches(req, env.(touchResult := touchResult))
  {
  }

  /** A non-empty port is returned only on the waiting path, without error,
      and it is new and stable against the baseline of the round that found
      it: the previous round's poll snapshot, or the call's baseline for the
      first round. */
  lemma FoundPortIsNewAndStable(req: Request, env: Environment, o: Outcome)
    requires Allowed(req, env, o) && o.port != ""
    ensures req.wait && o.err == None && AnswerAt(Selected(req, env), 0).Listed?
    ensures var answers := Answers(Selected(req, env));
            var last := AnswerAt(Selected(req, env), 0).ports;
            var r := ResetSpec(req, env);
            && |r.polls| > 0 && Schedule(answers, 1, last, r)
            && NewAndStable(answers, BaseOf(answers, last, r.polls, |r.polls| - 1), r.polls[|r.polls| - 1], o.port)
  {
    var m := Selected(req, env);
    var last := AnswerAt(m, 0).ports;
    var r := Poll(Answers(m), 1, last, env.budget, req.cb);
    WaitPathTrace(req, env, o);
    PollFoundWitness(Answers(m), 1, last, env.budget, req.cb);
    ScheduleAfter(Answers(m), 1, last, WaitPrelude(req, last), r);
  }

  lemma ScheduleAfter(answers: Enumerator, calls: nat, last: set<string>, events: seq<Event>, r: Run)
    requires Schedule(answers, calls, last, r)
    ensures Schedule(answers, calls, last, After(events, r))
  {
    var r' := After(events, r);
    assert r'.polls == r.polls && r'.calls == r.calls && r'.verdict == r.verdict;
  }

  /** The hook events of the waiting path before the poll loop. */
  function WaitPrelude(req: Request, last: set<string>): seq<Event> {
    Announced(req, last) + Fire(req.cb.waitingForNewSerial, WaitingForNewSerial)
  }

  /** On the waiting path, what the caller sees is the prelude, the poll
      loop's events and, when a port was found, its report. */
  lemma WaitPathTrace(req: Request, env: Environment, o: Outcome)
    requires Allowed(req, env, o) && req.wait && AnswerAt(Selected(req, env), 0).Listed?
    ensures var last := AnswerAt(Selected(req, env), 0).ports;
            var r := Poll(Answers(Selected(req, env)), 1, last, env.budget, req.cb);
            && ResetSpec(req, env).verdict == r.verdict
            && o.trace == WaitPrelude(req, last) + r.trace +
                 (if r.verdict.Found? then Fire(req.cb.bootloaderPortFound, BootloaderPortFound(o.port)) else [])
            && (r.verdict.TimedOut? ==> o.port == "" && o.err == None)
            && (r.verdict.Found? ==> o.err == None)
            && (r.verdict.Aborted? ==> o.port == "" && o.err == Some(r.verdict.err))
  {
    var last := AnswerAt(Selected(req, env), 0).ports;
    var r := Poll(Answers(Selected(req, env)), 1, last, env.budget, req.cb);
    assert ResetSpec(req, env) == After(WaitPrelude(req, last), r);
    if r.verdict.Found? {
      assert o.trace == (WaitPrelude(req, last) + r.trace) + Fire(req.cb.bootloaderPortFound, BootloaderPortFound(o.port));
    }
  }

  /** On the waiting path without error, `WaitingForNewSerial` fires exactly once. */
  lemma WaitingFiresOnce(req: Request, env: Environment, o: Outcome)
    requires Allowed(req, env, o) && req.wait && o.err == None
    ensures multiset(o.trace)[WaitingForNewSerial] == (if req.cb.waitingForNewSerial then 1 else 0)
  {
    var m := Selected(req, env);
    var last := AnswerAt(m, 0).ports;
    var r := Poll(Answers(m), 1, last, env.budget, req.cb);
    WaitPathTrace(req, env, o);
    PollEventKinds(Answers(m), 1, last, env.budget, req.cb);
    var tail := if r.verdict.Found? then Fire(req.cb.bootloaderPortFound, BootloaderPortFound(o.port)) else [];
    Regroup(Announced(req, last), Fire(req.cb.waitingForNewSerial, WaitingForNewSerial), r.trace, tail);
    WaitingCount(Announced(req, last), req.cb, r.trace, tail);
  }

  lemma WaitingCount(announced: seq<Event>, cb: Callbacks, polled: seq<Event>, tail: seq<Event>)
    requires WaitingForNewSerial !in announced && WaitingForNewSerial !in polled && WaitingForNewSerial !in tail
    ensures multiset(announced + (Fire(cb.waitingForNewSerial, WaitingForNewSerial) + polled + tail))[WaitingForNewSerial]
            == (if cb.waitingForNewSerial then 1 else 0)
  {
    var waiting := Fire(cb.waitingForNewSerial, WaitingForNewSerial);
    assert multiset(announced + (waiting + polled + tail))
        == multiset(announced) + multiset(waiting) + multiset(polled) + multiset(tail);
  }

  /** On the waiting path without error, `BootloaderPortFound` fires exactly
      once, with the returned port; on timeout that port is empty. */
  lemma FoundReportedOnce(req: Request, env: Environment, o: Outcome)
    requires Allowed(req, env, o) && req.wait && o.err == None
    ensures FoundReports(o.trace) == (if req.cb.bootloaderPortFound then [o.port] else [])
    ensures ResetSpec(req, env).verdict.TimedOut? ==> o.port == ""
  {
    var m := Selected(req, env);
    var last := AnswerAt(m, 0).ports;
    var r := Poll(Answers(m), 1, last, env.budget, req.cb);
    WaitPathTrace(req, env, o);
    PollFoundReports(Answers(m), 1, last, env.budget, req.cb);
    WaitTraceReports(req, last, r, o.port);
  }

  /** The found reports of a waiting-path trace: none before the loop, the
      loop's own, and the final report of a found port. */
  lemma WaitTraceReports(req: Request, last: set<string>, r: Run, port: string)
    requires !r.verdict.NotWaited?
    requires r.verdict.TimedOut? ==> port == ""
    requires FoundReports(r.trace) == (if r.verdict.TimedOut? && req.cb.bootloaderPortFound then [""] else [])
    ensures var tail := if r.verdict.Found? then Fire(req.cb.bootloaderPortFound, BootloaderPortFound(port)) else [];
            FoundReports(WaitPrelude(req, last) + r.trace + tail) ==
              (if req.cb.bootloaderPortFound && !r.verdict.Aborted? then [port] else [])
  {
    var pre := WaitPrelude(req, last);
    var tail := if r.verdict.Found? then Fire(req.cb.bootloaderPortFound, BootloaderPortFound(port)) else [];
    AnnouncedReports(req, last);
    NoFoundReports(Fire(req.cb.waitingForNewSerial, WaitingForNewSerial));
    FoundReportsConcat(Announced(req, last), Fire(req.cb.waitingForNewSerial, WaitingForNewSerial));
    FoundReportsConcat(pre, r.trace);
    FoundReportsConcat(pre + r.trace, tail);
    if r.verdict.Found? && req.cb.bootloaderPortFound {
      assert FoundReports(tail) == [port] + FoundReports([]);
    }
  }

  /** A lister whose new port "A" vanishes at the re-check while another,
      "B", appears. */
  function FlakyLister(k: nat): Snapshot {
    if k == 0 then Listed({}) else if k == 1 then Listed({"A"}) else Listed({"B"})
  }

  /** The re-check compares against the old baseline, not against the poll
      that flagged a port: "B" is returned although the poll saw only "A". */
  lemma StableMeansNewInCheck(cb: Callbacks, env: Environment, o: Outcome)
    requires env.budget >= 1
    requires Allowed(Request("", true, false, Some(FlakyLister), cb), env, o)
    ensures o.port == "B" && o.err == None
    ensures "B" !in FlakyLister(1).ports
  {
    var req := Request("", true, false, Some(FlakyLister), cb);
    assert AnswerAt(Selected(req, env), 1) == Listed({"A"});
    assert AnswerAt(Selected(req, env), 2) == Listed({"B"});
    assert {"B"} - {} == {"B"};
  }

  /** Dry-run ignores both the caller's mapper and the default one. */
  lemma DryRunReplacesMapper(req: Request, env: Environment, portsMapper: Option<Enumerator>,
                             defaultMapper: Enumerator)
    requires req.dryRun
    ensures ResetSpec(req, env) ==
              ResetSpec(req.(portsMapper := portsMapper), env.(defaultMapper := defaultMapper))
    ensures Touches(req, env) == Touches(req.(portsMapper := portsMapper), env.(defaultMapper := defaultMapper))
  {
  }

  /** Outside dry-run a mapper the caller supplies is the one called: the
      default lister plays no part, and every answer is the caller's. */
  lemma SuppliedMapperUsed(req: Request, env: Environment, defaultMapper: Enumerator)
    requires !req.dryRun && req.portsMapper.Some?
    ensures ResetSpec(req, env) == ResetSpec(req, env.(defaultMapper := defaultMapper))
    ensures Touches(req, env) == Touches(req, env.(defaultMapper := defaultMapper))
    ensures forall k: nat :: AnswerAt(Selected(req, env), k) == req.portsMapper.value(k)
  {
  }

  /** A nil mapper behaves as the default lister passed explicitly. */
  lemma NilMapperUsesDefault(req: Request, env: Environment)
    requires req.portsMapper.None?
    ensures ResetSpec(req, env) == ResetSpec(req.(portsMapper := Some(env.defaultMapper)), env)
    ensures Touches(req, env) == Touches(req.(portsMapper := Some(env.defaultMapper)), env)
  {
  }

  /** Dry-run without waiting returns the empty port and no error. */
  lemma DryRunWithoutWait(req: Request, env: Environment, o: Outcome)
    requires Allowed(req, env, o) && req.dryRun && !req.wait
    ensures o.port == "" && o.err == None && !o.touched
  {
  }

  /** Dry-run on a target ending in "999" finds the target with a "0" appended. */
  lemma DryRunFindsSuffixedPort(req: Request, env: Environment, o: Outcome)
    requires Allowed(req, env, o) && req.dryRun && req.wait && env.budget >= 1
    requires HasSuffix(req.portToTouch, "999")
    ensures o.port == req.portToTouch + "0" && o.err == None && !o.touched
  {
    var t := req.portToTouch;
    PortAfterSettles(t, 1);
    PortAfterSettles(t, 2);
    assert t + "0" != t by {
      assert |t + "0"| != |t|;
    }
    assert {t + "0"} - {t} == {t + "0"};
  }

  /** Dry-run on the empty target finds "newport". */
  lemma DryRunFindsNewport(req: Request, env: Environment, o: Outcome)
    requires Allowed(req, env, o) && req.dryRun && req.wait && env.budget >= 1
    requires req.portToTouch == ""
    ensures o.port == "newport" && o.err == None && !o.touched
  {
    PortAfterSettles("", 1);
    PortAfterSettles("", 2);
    assert !HasSuffix("", "999");
    assert {"newport"} - {} == {"newport"};
  }

  /** An enumerator whose answer stays the baseline from call `calls` on
      makes every round pass, so the loop runs out of rounds. */
  lemma {:induction false} SteadyPollTimesOut(answers: Enumerator, calls: nat, last: set<string>, fuel: nat,
                                              cb: Callbacks)
    requires forall k | calls <= k :: answers(k) == Listed(last)
    ensures Poll(answers, calls, last, fuel, cb).verdict == TimedOut
    decreases fuel
  {
    if fuel > 0 {
      assert answers(calls) == Listed(last);
      RoundPassed(answers, calls, last, cb);
      PollStep(answers, calls, last, fuel, cb);
      SteadyPollTimesOut(answers, calls + 1, last, fuel - 1, cb);
    }
  }

  /** Once the emulated port has settled on the target, every answer lists
      just the target. */
  lemma DryRunSteady(t: string)
    requires Advance(t) == t
    ensures forall k | 1 <= k :: Answers(Emulated(t))(k) == Listed(Visible(t))
  {
    forall k | 1 <= k
      ensures Answers(Emulated(t))(k) == Listed(Visible(t))
    {
      PortAfterSettles(t, k);
    }
  }

  /** Dry-run on any other target times out: empty port, no error. */
  lemma DryRunOtherTargetTimesOut(req: Request, env: Environment, o: Outcome)
    requires Allowed(req, env, o) && req.dryRun && req.wait
    requires req.portToTouch != "" && !HasSuffix(req.portToTouch, "999")
    ensures ResetSpec(req, env).verdict == TimedOut
    ensures o.port == "" && o.err == None && !o.touched
  {
    DryRunSteady(req.portToTouch);
    SteadyPollTimesOut(Answers(Emulated(req.portToTouch)), 1, Visible(req.portToTouch), env.budget, req.cb);
  }
}
