// The edge-triggered alert loop of _validator_cohort_monitor (main.py): a condition raises an alert
// when a report first shows it and a recovery when a report no longer does. An alert goes to a bounded
// queue; when that is full or not running, emit returns false and the loop does not look.

module CohortAlerts {

  import opened Common

  type Code = string

  datatype Alert = Raised(code: Code) | Recovered(code: Code) | MonitorFailed

  /** One turn of the loop: another process leads; the lease or the inspection throws; or a report
      with its issue codes. */
  datatype Pass = NotLeader | Broken | Report(codes: seq<Code>)

  // ---- what the alerts mean ---------------------------------------------------------------

  /** The codes raised and not recovered since. */
  function Open(log: seq<Alert>): set<Code>
  {
    if log == [] then {}
    else
      var before := Open(log[..|log| - 1]);
      match log[|log| - 1]
      case Raised(c) => before + {c}
      case Recovered(c) => before - {c}
      case MonitorFailed => before
  }

  /** Every code alternates between raised and recovered, starting with raised. */
  predicate Alternating(log: seq<Alert>)
  {
    log == [] ||
    var before := log[..|log| - 1];
    && Alternating(before)
    && match log[|log| - 1]
       case Raised(c) => c !in Open(before)
       case Recovered(c) => c in Open(before)
       case MonitorFailed => true
  }

  predicate Balanced(log: seq<Alert>, prior: set<Code>)
  {
    Alternating(log) && Open(log) == prior
  }

  // ---- one pass ---------------------------------------------------------------------------

  function Codes(s: seq<Code>): set<Code>
  {
    set c | c in s
  }

  /** The codes that are new, in the order of the report. */
  function Raises(codes: seq<Code>, prior: set<Code>): seq<Alert>
  {
    Flat(codes, c => if c in prior then [] else [Raised(c)])
  }

  function Recoveries(gone: seq<Code>): (r: seq<Alert>)
    ensures |r| == |gone|
    ensures forall i :: 0 <= i < |r| ==> r[i] == Recovered(gone[i])
  {
    seq(|gone|, i requires 0 <= i < |gone| => Recovered(gone[i]))
  }

  predicate Lists(walk: seq<Code>, s: set<Code>)
  {
    && Codes(walk) == s
    && forall i, j :: 0 <= i < j < |walk| ==> walk[i] != walk[j]
  }

  /** The order in which a set of codes is walked. */
  ghost predicate Walks(order: set<Code> -> seq<Code>)
  {
    forall s :: Lists(order(s), s)
  }

  function PassAlerts(p: Pass, prior: set<Code>, order: set<Code> -> seq<Code>): seq<Alert>
  {
    match p
    case NotLeader => []
    case Broken => [MonitorFailed]
    case Report(codes) => Raises(codes, prior) + Recoveries(order(prior - Codes(codes)))
  }

  function PassCodes(p: Pass, prior: set<Code>): set<Code>
  {
    if p.Report? then Codes(p.codes) else prior
  }

  /** One turn more. Without the lease nothing happens, a failure is reported and leaves the codes, and a report
      raises the codes that were not in the one before, in its own order, and then recovers, in the order of the
      walk, those that are gone. */
  lemma {:induction false} NextPass(passes: seq<Pass>, codes: seq<Code>, order: set<Code> -> seq<Code>)
    ensures Alerts(passes + [NotLeader], order) == Alerts(passes, order)
    ensures Alerts(passes + [Broken], order) == Alerts(passes, order) + [MonitorFailed]
    ensures Prior(passes + [NotLeader]) == Prior(passes + [Broken]) == Prior(passes)
    ensures forall c :: c in Prior(passes + [Report(codes)]) <==> c in codes
    ensures var was := Prior(passes);
            var gone := order(set c | c in was && c !in codes);
            Alerts(passes + [Report(codes)], order) ==
              Alerts(passes, order) + Flat(codes, c => if c in was then [] else [Raised(c)])
              + seq(|gone|, i requires 0 <= i < |gone| => Recovered(gone[i]))
  {
    var was := Prior(passes);
    OnePass(passes, NotLeader, order);
    OnePass(passes, Broken, order);
    OnePass(passes, Report(codes), order);
    assert (set c | c in was && c !in codes) == was - Codes(codes);
  }

  lemma {:induction false} OnePass(passes: seq<Pass>, p: Pass, order: set<Code> -> seq<Code>)
    ensures Alerts(passes + [p], order) == Alerts(passes, order) + PassAlerts(p, Prior(passes), order)
    ensures Prior(passes + [p]) == PassCodes(p, Prior(passes))
  {
    assert (passes + [p])[..|passes|] == passes;
  }

  predicate NewOnce(codes: seq<Code>, prior: set<Code>)
  {
    forall i, j :: 0 <= i < j < |codes| && codes[i] == codes[j] ==> codes[i] in prior
  }

  /** No code new to this report appears in it twice. */
  predicate Clean(p: Pass, prior: set<Code>)
  {
    p.Report? ==> NewOnce(p.codes, prior)
  }

  /** prior_codes after the passes. */
  function Prior(passes: seq<Pass>): set<Code>
  {
    if passes == [] then {} else PassCodes(passes[|passes| - 1], Prior(passes[..|passes| - 1]))
  }

  /** Every call of emit by the passes. */
  function Alerts(passes: seq<Pass>, order: set<Code> -> seq<Code>): seq<Alert>
  {
    if passes == [] then []
    else
      var before := passes[..|passes| - 1];
      Alerts(before, order) + PassAlerts(passes[|passes| - 1], Prior(before), order)
  }

  /** The emitted alerts that the queue took; room(k) tells whether it had room for the k-th. */
  function Taken(log: seq<Alert>, room: nat -> bool): seq<Alert>
  {
    if log == [] then []
    else
      var last := |log| - 1;
      Taken(log[..last], room) + if room(last) then [log[last]] else []
  }

  // ---- the loop, as code ------------------------------------------------------------------

  /** `alerts.emit`: how many calls there were, and the queue so far. */
  method Emit(calls: nat, queue: seq<Alert>, alert: Alert, room: nat -> bool, ghost log: seq<Alert>)
    returns (calls': nat, queue': seq<Alert>)
    requires calls == |log| && queue == Taken(log, room)
    ensures calls' == |log + [alert]| && queue' == Taken(log + [alert], room)
    ensures calls' == calls + 1 && queue' == if room(calls) then queue + [alert] else queue
  {
    assert (log + [alert])[..|log|] == log;
    calls', queue' := calls + 1, queue;
    if room(calls) {
      queue' := queue' + [alert];
    }
  }

  method EmitRaises(codes: seq<Code>, prior: set<Code>, calls0: nat, queue0: seq<Alert>,
                    room: nat -> bool, ghost log0: seq<Alert>)
    returns (calls: nat, queue: seq<Alert>)
    requires calls0 == |log0| && queue0 == Taken(log0, room)
    ensures var log := log0 + Raises(codes, prior);
            calls == |log| && queue == Taken(log, room)
  {
    calls, queue := calls0, queue0;
    ghost var log := log0;
    assert log0 + [] == log0;
    for i := 0 to |codes|
      invariant log == log0 + Raises(codes[..i], prior)
      invariant calls == |log| && queue == Taken(log, room)
    {
      assert codes[..i + 1][..i] == codes[..i];
      if codes[i] !in prior {
        calls, queue := Emit(calls, queue, Raised(codes[i]), room, log);
        log := log + [Raised(codes[i])];
        assert log == log0 + (Raises(codes[..i], prior) + [Raised(codes[i])]);
      }
    }
    assert codes[..|codes|] == codes;
  }

  method EmitRecoveries(gone: seq<Code>, calls0: nat, queue0: seq<Alert>, room: nat -> bool, ghost log0: seq<Alert>)
    returns (calls: nat, queue: seq<Alert>)
    requires calls0 == |log0| && queue0 == Taken(log0, room)
    ensures var log := log0 + Recoveries(gone);
            calls == |log| && queue == Taken(log, room)
  {
    calls, queue := calls0, queue0;
    ghost var log := log0;
    assert log0 + Recoveries(gone[..0]) == log0;
    for i := 0 to |gone|
      invariant log == log0 + Recoveries(gone[..i])
      invariant calls == |log| && queue == Taken(log, room)
    {
      calls, queue := Emit(calls, queue, Recovered(gone[i]), room, log);
      RecoveryNext(log0, gone, i);
      log := log + [Recovered(gone[i])];
    }
    assert gone[..|gone|] == gone;
  }

  lemma {:induction false} RecoveryNext(log: seq<Alert>, gone: seq<Code>, i: nat)
    requires i < |gone|
    ensures log + Recoveries(gone[..i + 1]) == log + Recoveries(gone[..i]) + [Recovered(gone[i])]
  {
    assert Recoveries(gone[..i + 1]) == Recoveries(gone[..i]) + [Recovered(gone[i])];
  }

  /** The two loops over a report. */
  method EmitReport(codes: seq<Code>, prior: set<Code>, order: set<Code> -> seq<Code>, calls0: nat, queue0: seq<Alert>,
                    room: nat -> bool, ghost log0: seq<Alert>)
    returns (calls: nat, queue: seq<Alert>)
    requires calls0 == |log0| && queue0 == Taken(log0, room)
    ensures var log := log0 + PassAlerts(Report(codes), prior, order);
            calls == |log| && queue == Taken(log, room)
  {
    calls, queue := EmitRaises(codes, prior, calls0, queue0, room, log0);
    ghost var log := log0 + Raises(codes, prior);
    var gone := order(prior - Codes(codes));
    calls, queue := EmitRecoveries(gone, calls, queue, room, log);
    assert log0 + (Raises(codes, prior) + Recoveries(gone)) == log + Recoveries(gone);
  }

  /** The loop, for any number of turns: what the queue took, and prior_codes. */
  method Monitor(passes: seq<Pass>, order: set<Code> -> seq<Code>, room: nat -> bool)
    returns (queue: seq<Alert>, priorCodes: set<Code>)
    ensures queue == Taken(Alerts(passes, order), room) && priorCodes == Prior(passes)
  {
    var calls := 0;
    queue, priorCodes := [], {};
    for n := 0 to |passes|
      invariant calls == |Alerts(passes[..n], order)| && queue == Taken(Alerts(passes[..n], order), room)
      invariant priorCodes == Prior(passes[..n])
    {
      assert passes[..n + 1][..n] == passes[..n];
      ghost var log := Alerts(passes[..n], order);
      match passes[n] {
        case NotLeader =>
          assert log + [] == log;
        case Broken =>
          calls, queue := Emit(calls, queue, MonitorFailed, room, log);
        case Report(codes) =>
          calls, queue := EmitReport(codes, priorCodes, order, calls, queue, room, log);
          priorCodes := Codes(codes);
      }
    }
    assert passes[..|passes|] == passes;
  }

  // ---- alternation of what is emitted -----------------------------------------------------

  lemma LogStep(log: seq<Alert>, tail: seq<Alert>, a: Alert)
    ensures Open(log + (tail + [a])) == Open((log + tail) + [a])
    ensures Alternating(log + (tail + [a])) == Alternating((log + tail) + [a])
    ensures ((log + tail) + [a])[..|log + tail|] == log + tail
  {
    assert log + (tail + [a]) == (log + tail) + [a];
  }

  lemma RaiseStep(log: seq<Alert>, tail: seq<Alert>, c: Code)
    ensures Open(log + (tail + [Raised(c)])) == Open(log + tail) + {c}
    ensures Alternating(log + (tail + [Raised(c)])) <==> Alternating(log + tail) && c !in Open(log + tail)
  {
    LogStep(log, tail, Raised(c));
  }

  lemma NewOnceStep(front: seq<Code>, c: Code, prior: set<Code>)
    ensures Codes(front + [c]) == Codes(front) + {c}
    ensures NewOnce(front + [c], prior) <==> NewOnce(front, prior) && (c in prior || c !in Codes(front))
  {
    var codes := front + [c];
    if NewOnce(codes, prior) {
      forall i, j | 0 <= i < j < |front| && front[i] == front[j] ensures front[i] in prior {
        assert codes[i] == codes[j];
      }
      if c in front {
        var i :| 0 <= i < |front| && front[i] == c;
        assert codes[i] == codes[|front|];
      }
    }
  }

  /** Raising a report's new codes over a balanced log. */
  lemma {:induction false} RaisesFeed(log: seq<Alert>, codes: seq<Code>, prior: set<Code>)
    requires Balanced(log, prior)
    ensures Open(log + Raises(codes, prior)) == prior + Codes(codes)
    ensures Alternating(log + Raises(codes, prior)) <==> NewOnce(codes, prior)
  {
    if codes == [] {
      assert log + Raises(codes, prior) == log;
    } else {
      var front, c := codes[..|codes| - 1], codes[|codes| - 1];
      RaisesFeed(log, front, prior);
      assert codes == front + [c];
      NewOnceStep(front, c, prior);
      if c in prior {
        assert Raises(codes, prior) == Raises(front, prior);
      } else {
        assert Raises(codes, prior) == Raises(front, prior) + [Raised(c)];
        RaiseStep(log, Raises(front, prior), c);
      }
    }
  }

  /** Recovering distinct open codes. */
  lemma {:induction false} RecoveriesFeed(log: seq<Alert>, gone: seq<Code>)
    requires forall i, j :: 0 <= i < j < |gone| ==> gone[i] != gone[j]
    requires Codes(gone) <= Open(log)
    ensures Open(log + Recoveries(gone)) == Open(log) - Codes(gone)
    ensures Alternating(log + Recoveries(gone)) <==> Alternating(log)
  {
    if gone == [] {
      assert log + Recoveries(gone) == log;
    } else {
      var front, c := gone[..|gone| - 1], gone[|gone| - 1];
      assert gone == front + [c];
      assert Codes(gone) == Codes(front) + {c};
      RecoveriesFeed(log, front);
      assert Recoveries(gone) == Recoveries(front) + [Recovered(c)];
      LogStep(log, Recoveries(front), Recovered(c));
    }
  }

  lemma ReportBalanced(log: seq<Alert>, codes: seq<Code>, prior: set<Code>, order: set<Code> -> seq<Code>)
    requires Walks(order) && Balanced(log, prior)
    ensures Balanced(log + PassAlerts(Report(codes), prior, order), Codes(codes)) <==> NewOnce(codes, prior)
  {
    var raises, gone := Raises(codes, prior), order(prior - Codes(codes));
    assert Lists(gone, prior - Codes(codes));
    RaisesFeed(log, codes, prior);
    RecoveriesFeed(log + raises, gone);
    assert log + (raises + Recoveries(gone)) == (log + raises) + Recoveries(gone);
    assert prior + Codes(codes) - (prior - Codes(codes)) == Codes(codes);
  }

  lemma FailureKeeps(log: seq<Alert>)
    ensures Open(log + [MonitorFailed]) == Open(log)
    ensures Alternating(log + [MonitorFailed]) == Alternating(log)
  {
    assert (log + [MonitorFailed])[..|log|] == log;
  }

  /** After one pass from a balanced log, the log is balanced exactly when the pass was clean. */
  lemma PassBalanced(log: seq<Alert>, p: Pass, prior: set<Code>, order: set<Code> -> seq<Code>)
    requires Walks(order) && Balanced(log, prior)
    ensures Balanced(log + PassAlerts(p, prior, order), PassCodes(p, prior)) <==> Clean(p, prior)
  {
    FailureKeeps(log);
    if p.NotLeader? {
      assert log + [] == log;
    } else if p.Report? {
      ReportBalanced(log, p.codes, prior, order);
    }
  }

  predicate BalancedAfter(passes: seq<Pass>, n: nat, order: set<Code> -> seq<Code>)
    requires n <= |passes|
  {
    Balanced(Alerts(passes[..n], order), Prior(passes[..n]))
  }

  predicate CleanAt(passes: seq<Pass>, n: nat)
    requires n < |passes|
  {
    Clean(passes[n], Prior(passes[..n]))
  }

  lemma TurnBalanced(passes: seq<Pass>, n: nat, order: set<Code> -> seq<Code>)
    requires Walks(order) && n < |passes| && BalancedAfter(passes, n, order)
    ensures BalancedAfter(passes, n + 1, order) <==> CleanAt(passes, n)
  {
    assert passes[..n + 1][..n] == passes[..n];
    PassBalanced(Alerts(passes[..n], order), passes[n], Prior(passes[..n]), order);
  }

  lemma {:induction false} CleanRun(passes: seq<Pass>, m: nat, order: set<Code> -> seq<Code>)
    requires Walks(order) && m <= |passes|
    requires forall n :: 0 <= n < m ==> CleanAt(passes, n)
    ensures BalancedAfter(passes, m, order)
  {
    if m == 0 {
      assert passes[..0] == [];
    } else {
      CleanRun(passes, m - 1, order);
      TurnBalanced(passes, m - 1, order);
    }
  }

  /** Along every run the emitted alerts of each code alternate and the open codes are exactly prior_codes,
      after every pass, if and only if no report repeats a new code. */
  lemma AlternatesWhenClean(passes: seq<Pass>, order: set<Code> -> seq<Code>)
    requires Walks(order)
    ensures (forall n :: 0 <= n <= |passes| ==> BalancedAfter(passes, n, order))
       <==> (forall n :: 0 <= n < |passes| ==> CleanAt(passes, n))
  {
    if forall n :: 0 <= n <= |passes| ==> BalancedAfter(passes, n, order) {
      forall n | 0 <= n < |passes| ensures CleanAt(passes, n) {
        TurnBalanced(passes, n, order);
      }
    }
    if forall n :: 0 <= n < |passes| ==> CleanAt(passes, n) {
      forall n | 0 <= n <= |passes| ensures BalancedAfter(passes, n, order) {
        CleanRun(passes, n, order);
      }
    }
  }

  // ---- alternation of what the queue takes ------------------------------------------------

  predicate About(a: Alert, c: Code)
  {
    !a.MonitorFailed? && a.code == c
  }

  /** Did the queue miss an odd number of alerts about `c`? */
  predicate OddLoss(log: seq<Alert>, room: nat -> bool, c: Code)
  {
    log != [] &&
    var last := |log| - 1;
    OddLoss(log[..last], room, c) != (About(log[last], c) && !room(last))
  }

  /** Every alert that is taken comes after an even number of lost ones about its code. */
  predicate PairedLosses(log: seq<Alert>, room: nat -> bool)
  {
    log == [] ||
    var last := |log| - 1;
    && PairedLosses(log[..last], room)
    && (room(last) && !log[last].MonitorFailed? ==> !OddLoss(log[..last], room, log[last].code))
  }

  lemma TakenStep(front: seq<Alert>, a: Alert, room: nat -> bool)
    ensures Taken(front + [a], room) == if room(|front|) then Taken(front, room) + [a] else Taken(front, room)
    ensures PairedLosses(front + [a], room) <==>
              PairedLosses(front, room) && (room(|front|) && !a.MonitorFailed? ==> !OddLoss(front, room, a.code))
    ensures forall c :: OddLoss(front + [a], room, c) <==> (OddLoss(front, room, c) != (About(a, c) && !room(|front|)))
  {
    assert (front + [a])[..|front|] == front;
  }

  lemma OpenStep(log: seq<Alert>, a: Alert)
    ensures forall c :: c in Open(log + [a]) <==> a == Raised(c) || (a != Recovered(c) && c in Open(log))
    ensures Alternating(log + [a]) <==>
              Alternating(log) && (!a.MonitorFailed? ==> (a.Raised? <==> a.code !in Open(log)))
  {
    assert (log + [a])[..|log|] == log;
  }

  /** While the taken alerts alternate, a code is open in them as in the emitted ones unless an odd number
      of alerts about it was lost. */
  lemma {:induction false} TakenOpen(log: seq<Alert>, room: nat -> bool, c: Code)
    requires Alternating(log) && PairedLosses(log, room)
    ensures c in Open(Taken(log, room)) <==> (c in Open(log) <==> !OddLoss(log, room, c))
  {
    if log != [] {
      var front, a := log[..|log| - 1], log[|log| - 1];
      assert log == front + [a];
      TakenOpen(front, room, c);
      TakenStep(front, a, room);
      OpenStep(front, a);
      OpenStep(Taken(front, room), a);
    }
  }

  /** The alerts that the queue takes alternate if and only if losses come in pairs. */
  lemma {:induction false} TakenAlternate(log: seq<Alert>, room: nat -> bool)
    requires Alternating(log)
    ensures Alternating(Taken(log, room)) <==> PairedLosses(log, room)
  {
    if log != [] {
      var front, a := log[..|log| - 1], log[|log| - 1];
      assert log == front + [a];
      TakenAlternate(front, room);
      TakenStep(front, a, room);
      OpenStep(front, a);
      OpenStep(Taken(front, room), a);
      if PairedLosses(front, room) && !a.MonitorFailed? {
        TakenOpen(front, room, a.code);
      }
    }
  }

  /** Over every run of reports without a repeated new code: the alerts that reach the queue alternate for
      each code if and only if each of them follows an even number of lost alerts about that code. */
  lemma QueueAlternates(passes: seq<Pass>, order: set<Code> -> seq<Code>, room: nat -> bool)
    requires Walks(order) && forall n :: 0 <= n < |passes| ==> CleanAt(passes, n)
    ensures Alternating(Taken(Alerts(passes, order), room)) <==> PairedLosses(Alerts(passes, order), room)
  {
    CleanRun(passes, |passes|, order);
    assert passes[..|passes|] == passes;
    TakenAlternate(Alerts(passes, order), room);
  }

  ghost predicate NoOddLoss(log: seq<Alert>, room: nat -> bool)
  {
    forall c :: !OddLoss(log, room, c)
  }

  lemma TakenMatches(log: seq<Alert>, room: nat -> bool, prior: set<Code>)
    requires Balanced(log, prior) && PairedLosses(log, room)
    ensures Open(Taken(log, room)) == prior <==> NoOddLoss(log, room)
  {
    var open := Open(Taken(log, room));
    forall c ensures c in open <==> (c in prior <==> !OddLoss(log, room, c)) {
      TakenOpen(log, room, c);
    }
    if NoOddLoss(log, room) {
      forall c ensures c in open <==> c in prior {
        assert !OddLoss(log, room, c);
      }
      assert open == prior;
    } else {
      var c :| OddLoss(log, room, c);
      assert c in open <==> c !in prior;
    }
  }

  /** And then the codes open in the queue are prior_codes exactly when no code has an odd number of losses. */
  lemma QueueMatches(passes: seq<Pass>, order: set<Code> -> seq<Code>, room: nat -> bool)
    requires Walks(order) && forall n :: 0 <= n < |passes| ==> CleanAt(passes, n)
    requires PairedLosses(Alerts(passes, order), room)
    ensures Open(Taken(Alerts(passes, order), room)) == Prior(passes) <==>
            NoOddLoss(Alerts(passes, order), room)
  {
    CleanRun(passes, |passes|, order);
    assert passes[..|passes|] == passes;
    TakenMatches(Alerts(passes, order), room, Prior(passes));
  }

  /** A set of at most one code has one walk. */
  lemma OnlyWalk(walk: seq<Code>, s: set<Code>)
    requires Lists(walk, s)
    ensures s == {} ==> walk == []
    ensures forall c :: s == {c} ==> walk == [c]
  {
    assert |walk| >= 1 ==> walk[0] in Codes(walk);
    assert |walk| >= 2 ==> walk[1] in Codes(walk);
    assert forall c :: c in s ==> c in walk;
  }

  /** A condition that appears once and is gone in the next report. */
  lemma OneCondition(c: Code, order: set<Code> -> seq<Code>)
    requires Walks(order)
    ensures Alerts([Report([c]), Report([])], order) == [Raised(c), Recovered(c)]
  {
    var first := [Report([c])];
    assert first[..0] == [] && [c][..0] == [] && [Report([c]), Report([])][..1] == first;
    assert Codes([c]) == {c} && Codes([]) == {};
    var none, one := {} - Codes([c]), {c} - Codes([]);
    assert Lists(order(none), none) && Lists(order(one), one);
    OnlyWalk(order(none), none);
    OnlyWalk(order(one), one);
    assert one == {c};
    assert Raises([c], {}) == Raises([], {}) + [Raised(c)];
    assert PassAlerts(Report([c]), {}, order) == [Raised(c)] && PassAlerts(Report([]), {c}, order) == [Recovered(c)];
    assert Prior(first) == PassCodes(Report([c]), Prior([]));
    assert Alerts(first, order) == Alerts([], order) + PassAlerts(Report([c]), {}, order);
  }

  /** The queue is full when a condition appears and has room again when it is gone: the recovery arrives
      for a condition that was never raised. */
  lemma RecoveredOnly(c: Code, order: set<Code> -> seq<Code>)
    requires Walks(order)
    ensures var queue := Taken(Alerts([Report([c]), Report([])], order), (k: nat) => k > 0);
            queue == [Recovered(c)] && !Alternating(queue)
  {
    OneCondition(c, order);
    var log, room := [Raised(c), Recovered(c)], (k: nat) => k > 0;
    TakenStep([], Raised(c), room);
    TakenStep([Raised(c)], Recovered(c), room);
    assert [] + [Raised(c)] == [Raised(c)] && log == [Raised(c)] + [Recovered(c)];
    OpenStep([], Recovered(c));
    assert [] + [Recovered(c)] == [Recovered(c)];
  }
}
