// The operator's shadow-run lifecycle: the commands of manage_validator_shadow_run.py over the
// transactions of services/validator_shadow.py. A command previews against the row it read; by the
// time its transaction runs, other operators' commands may have changed the table. Digests are
// collision free, so a commitment is modelled by what it commits to. Times are seconds.

module ShadowRun {

  import opened Common

  type Id = string

  const RUN_HOURS: nat := 168
  const HOUR: nat := 3600
  const CLOCK_SKEW: int := 300
  const DRAIN_GRACE: nat := 300 // max(300, CAPTURE_TIMEOUT_SECONDS = 5)

  datatype Status = Draft | Running | Completed | Failed | Cancelled

  predicate Terminal(s: Status)
  {
    s.Completed? || s.Failed? || s.Cancelled?
  }

  datatype Verification = Verification(migration: bool, concurrency: bool, replay: bool, noSideEffect: bool)

  /** The live network as one snapshot reads it. */
  datatype Network = Network(operators: nat, participating: nat, groups: nat, clear: bool, critical: bool)

  datatype Gate = Gate(observedAt: int, network: Network, verification: Verification)

  datatype Reason =
    | FewOperators | FewParticipating | NoGroups | CohortNotClear
    | NoMigration | NoConcurrency | NoReplay | SideEffects
    | CollectorGroupMissing | CollectorLeaderMissing
    | Not168Hours | GraceNotElapsed | OutboxNotDrained

  function Unless(ok: bool, reason: Reason): seq<Reason>
  {
    if ok then [] else [reason]
  }

  function NetworkFailing(n: Network): seq<Reason>
  {
    Unless(n.operators >= 3, FewOperators)
    + Unless(n.participating >= 3, FewParticipating)
    + Unless(n.groups >= 1, NoGroups)
    + Unless(n.clear && !n.critical, CohortNotClear)
  }

  function VerificationFailing(v: Verification): seq<Reason>
  {
    Unless(v.migration, NoMigration)
    + Unless(v.concurrency, NoConcurrency)
    + Unless(v.replay, NoReplay)
    + Unless(v.noSideEffect, SideEffects)
  }

  /** evaluate_start_gate; the two effect checks always pass for a gate built here. */
  function Failing(g: Gate): seq<Reason>
  {
    NetworkFailing(g.network) + VerificationFailing(g.verification)
  }

  predicate Eligible(g: Gate)
  {
    && g.network.operators >= 3 && g.network.participating >= 3 && g.network.groups >= 1
    && g.network.clear && !g.network.critical
    && g.verification == Verification(true, true, true, true)
  }

  lemma EligibleWhenNothingFails(g: Gate)
    ensures Failing(g) == [] <==> Eligible(g)
  {
    assert Eligible(g) ==> |Failing(g)| == 0;
  }

  /** The reason is one of the start gate's, and it is true. */
  predicate Broken(g: Gate, r: Reason)
  {
    match r
    case FewOperators => g.network.operators < 3
    case FewParticipating => g.network.participating < 3
    case NoGroups => g.network.groups == 0
    case CohortNotClear => !g.network.clear || g.network.critical
    case NoMigration => !g.verification.migration
    case NoConcurrency => !g.verification.concurrency
    case NoReplay => !g.verification.replay
    case SideEffects => !g.verification.noSideEffect
    case _ => false
  }

  lemma InUnless(list: seq<Reason>, ok: bool, reason: Reason, r: Reason)
    ensures r in list + Unless(ok, reason) <==> r in list || (!ok && r == reason)
  {
    if !ok {
      assert (list + [reason])[|list|] == reason;
    }
  }

  lemma NetworkReasons(n: Network, r: Reason)
    ensures r in NetworkFailing(n) <==>
              || (r.FewOperators? && n.operators < 3) || (r.FewParticipating? && n.participating < 3)
              || (r.NoGroups? && n.groups == 0) || (r.CohortNotClear? && (!n.clear || n.critical))
  {
    var a := Unless(n.operators >= 3, FewOperators);
    var b := a + Unless(n.participating >= 3, FewParticipating);
    InUnless(a, n.participating >= 3, FewParticipating, r);
    InUnless(b, n.groups >= 1, NoGroups, r);
    InUnless(b + Unless(n.groups >= 1, NoGroups), n.clear && !n.critical, CohortNotClear, r);
  }

  lemma VerificationReasons(v: Verification, r: Reason)
    ensures r in VerificationFailing(v) <==>
              || (r.NoMigration? && !v.migration) || (r.NoConcurrency? && !v.concurrency)
              || (r.NoReplay? && !v.replay) || (r.SideEffects? && !v.noSideEffect)
  {
    var a := Unless(v.migration, NoMigration);
    var b := a + Unless(v.concurrency, NoConcurrency);
    InUnless(a, v.concurrency, NoConcurrency, r);
    InUnless(b, v.replay, NoReplay, r);
    InUnless(b + Unless(v.replay, NoReplay), v.noSideEffect, SideEffects, r);
  }

  /** Each check fails exactly for its own reason. */
  lemma ReasonsAre(g: Gate, r: Reason)
    ensures r in Failing(g) <==> Broken(g, r)
  {
    NetworkReasons(g.network, r);
    VerificationReasons(g.verification, r);
    assert r in Failing(g) <==> r in NetworkFailing(g.network) || r in VerificationFailing(g.verification);
  }

  lemma AllReasonsAre(g: Gate)
    ensures forall r :: r in Failing(g) <==> Broken(g, r)
  {
    forall r ensures r in Failing(g) <==> Broken(g, r) {
      ReasonsAre(g, r);
    }
  }

  datatype Config = Config(baseline: string, interval: nat, runHours: nat)

  datatype Row = Row(status: Status, config: Config, commit: string, reference: string, gate: Gate, created: int,
    started: Option<int>, scheduledEnd: Option<int>, ended: Option<int>)

  type Table = map<Id, Row>

  /** What run_state_hash commits to. */
  datatype Stamp = Stamp(id: Id, status: Status, config: Config, commit: string, gate: Gate,
    started: Option<int>, scheduledEnd: Option<int>, ended: Option<int>)

  function StampOf(id: Id, r: Row): Stamp
  {
    Stamp(id, r.status, r.config, r.commit, r.gate, r.started, r.scheduledEnd, r.ended)
  }

  datatype Deployment = Deployment(build: Option<string>, enabled: bool, baseline: string, interval: nat)

  /** runtime_policy_config of a stored policy. */
  predicate Accepts(d: Deployment, c: Config)
  {
    c.runHours >= RUN_HOURS && c.baseline == d.baseline && c.interval == d.interval
  }

  datatype Group = Group(pending: nat, lag: Option<nat>)

  datatype Transport = Transport(length: nat, group: Option<Group>, leaderTtl: int)

  predicate Drained(t: Transport)
  {
    && t.length == 0
    && t.group.Some?
    && t.group.value.pending == 0
    && (t.group.value.lag.Some? ==> t.group.value.lag.value == 0)
  }

  /** What one command reads outside the table: the two network snapshots, the collector's
      transport, the deployment and the server clock at its transaction. */
  datatype Moment = Moment(deployment: Deployment, clock: int, before: Network, within: Network, transport: Transport)

  datatype Denied = NoSuchRun | WrongBuild | Disabled | BadInput | BadTime | GateChanged | StateChanged
                  | Preflight(reasons: seq<Reason>) | NotDraft | NotRunning | AnotherRunning | PolicyChanged
                  | BeforeCreation | DifferentInputs | TooEarly

  datatype Answer = Preview(eligible: bool, reasons: seq<Reason>) | Done(row: Row) | Refused(why: Denied)

  // ---- the transactions -----------------------------------------------------------------

  predicate Fresh(m: Moment, at: int)
  {
    -CLOCK_SKEW <= at - m.clock <= CLOCK_SKEW
  }

  predicate OtherRunning(t: Table, id: Id)
  {
    exists other :: other in t && other != id && t[other].status.Running?
  }

  function CreateRun(t: Table, id: Id, row: Row): (Table, Answer)
  {
    if id !in t then
      (t[id := row], Done(row))
    else if t[id].config != row.config || t[id].commit != row.commit || t[id].reference != row.reference
            || (t[id].status.Draft? && t[id].gate != row.gate) then
      (t, Refused(DifferentInputs))
    else
      (t, Done(t[id]))
  }

  function StartRun(t: Table, id: Id, at: int, expected: Gate, m: Moment): (Table, Answer)
  {
    if !m.deployment.enabled then (t, Refused(Disabled))
    else if !Fresh(m, at) then (t, Refused(BadTime))
    else if id !in t then (t, Refused(NoSuchRun))
    else if m.deployment.build != Some(t[id].commit) then (t, Refused(WrongBuild))
    else if t[id].status.Running? then (t, Done(t[id]))
    else if !t[id].status.Draft? then (t, Refused(NotDraft))
    else if at < t[id].created then (t, Refused(BeforeCreation))
    else if OtherRunning(t, id) then (t, Refused(AnotherRunning))
    else if !Accepts(m.deployment, t[id].config) then (t, Refused(PolicyChanged))
    else
      var gate := Gate(at, m.within, t[id].gate.verification);
      if Failing(gate) != [] then (t, Refused(Preflight(Failing(gate))))
      else if gate != expected then (t, Refused(GateChanged))
      else
        var row := t[id].(status := Running, gate := gate, started := Some(at),
                          scheduledEnd := Some(at + t[id].config.runHours * HOUR));
        (t[id := row], Done(row))
  }

  function FinishRun(t: Table, id: Id, status: Status, at: int, expected: Stamp, m: Moment): (Table, Answer)
  {
    if !m.deployment.enabled then (t, Refused(Disabled))
    else if !Fresh(m, at) then (t, Refused(BadTime))
    else if id !in t then (t, Refused(NoSuchRun))
    else if m.deployment.build != Some(t[id].commit) then (t, Refused(WrongBuild))
    else if StampOf(id, t[id]) != expected then (t, Refused(StateChanged))
    else if t[id].status == status then (t, Done(t[id]))
    else if !t[id].status.Running? then (t, Refused(NotRunning))
    else if status.Completed? && (t[id].scheduledEnd.None? || at < t[id].scheduledEnd.value) then (t, Refused(TooEarly))
    else
      var row := t[id].(status := status, ended := Some(at));
      (t[id := row], Done(row))
  }

  // ---- when a command changes the table, and to what ------------------------------------

  datatype Command =
    | Prepare(id: Id, wellFormed: bool, commit: string, reference: string, verification: Verification,
        apply: bool, expectedGate: Option<Gate>, at: int)
    | Start(id: Id, apply: bool, expectedGate: Option<Gate>, at: int)
    | Finish(id: Id, status: Status, apply: bool, expectedState: Option<Stamp>, at: int)

  predicate Creates(c: Command, t: Table, m: Moment)
  {
    && c.Prepare? && c.apply && c.wellFormed
    && m.deployment.build == Some(c.commit)
    && m.before == m.within
    && c.expectedGate == Some(Gate(c.at, m.within, c.verification))
    && c.id !in t
  }

  /** The row as read is a draft of this build, the gate the operator previewed is the live one and is
      open, and the collector runs. */
  predicate ReadyToStart(c: Command, seen: Table, m: Moment)
  {
    && c.Start? && c.apply
    && c.id in seen && m.deployment.build == Some(seen[c.id].commit) && seen[c.id].status.Draft?
    && c.expectedGate == Some(Gate(c.at, m.before, seen[c.id].gate.verification))
    && Eligible(c.expectedGate.value)
    && m.transport.group.Some? && m.transport.leaderTtl > 0
    && m.deployment.enabled && Fresh(m, c.at)
  }

  /** And the row now is still such a draft, nothing else runs, and the gate is the live one still. */
  predicate Starts(c: Command, seen: Table, t: Table, m: Moment)
  {
    && ReadyToStart(c, seen, m)
    && c.id in t && m.deployment.build == Some(t[c.id].commit) && t[c.id].status.Draft?
    && t[c.id].created <= c.at
    && !OtherRunning(t, c.id)
    && Accepts(m.deployment, t[c.id].config)
    && c.expectedGate == Some(Gate(c.at, m.within, t[c.id].gate.verification))
  }

  /** Or someone else has started it since. */
  predicate Overtaken(c: Command, seen: Table, t: Table, m: Moment)
  {
    && ReadyToStart(c, seen, m)
    && c.id in t && m.deployment.build == Some(t[c.id].commit) && t[c.id].status.Running?
  }

  /** The row as read is running and is still the row now; a completion is after the grace, with the
      outbox empty. */
  predicate Finishes(c: Command, seen: Table, t: Table, m: Moment)
  {
    && c.Finish? && c.apply && Terminal(c.status)
    && c.id in seen && m.deployment.build == Some(seen[c.id].commit) && seen[c.id].status.Running?
    && c.expectedState == Some(StampOf(c.id, seen[c.id]))
    && m.deployment.enabled && Fresh(m, c.at)
    && c.id in t && StampOf(c.id, t[c.id]) == StampOf(c.id, seen[c.id])
    && (c.status.Completed? ==>
          && t[c.id].scheduledEnd.Some?
          && c.at >= t[c.id].scheduledEnd.value + DRAIN_GRACE
          && Drained(m.transport))
  }

  function NewRow(c: Command, m: Moment): Row
    requires c.Prepare?
  {
    Row(Draft, Config(m.deployment.baseline, m.deployment.interval, RUN_HOURS), c.commit, c.reference,
        Gate(c.at, m.before, c.verification), m.clock, None, None, None)
  }

  /** Preparing a run again: the frozen inputs are the same, and so is the gate while it is a draft. */
  predicate SameInputs(was: Row, now: Row)
  {
    && was.config == now.config && was.commit == now.commit && was.reference == now.reference
    && (was.status.Draft? ==> was.gate == now.gate)
  }

  function After(c: Command, seen: Table, t: Table, m: Moment): Table
  {
    if Creates(c, t, m) then
      t[c.id := NewRow(c, m)]
    else if Starts(c, seen, t, m) then
      t[c.id := t[c.id].(status := Running, gate := c.expectedGate.value, started := Some(c.at),
                         scheduledEnd := Some(c.at + t[c.id].config.runHours * HOUR))]
    else if Finishes(c, seen, t, m) then
      t[c.id := t[c.id].(status := c.status, ended := Some(c.at))]
    else
      t
  }

  // ---- what an answer tells ---------------------------------------------------------------

  /** The transport holds nothing any more: an empty stream, and a consumer group without anything pending and
      without a lag. */
  predicate NothingLeft(length: nat, group: Option<Group>)
  {
    length == 0 && group.Some? && group.value.pending == 0 && group.value.lag in {None, Some(0)}
  }

  /** A run was started in a network of at least three operators, three of them participating in at least one
      group, with a clear cohort, all four verifications, a collector at work and nothing else running. */
  lemma StartsMeans(c: Command, seen: Table, t: Table, m: Moment)
    requires Starts(c, seen, t, m)
    ensures c.Start? && c.apply && c.id in t && t[c.id].status.Draft? && m.deployment.build == Some(t[c.id].commit)
    ensures forall n | n in {m.before, m.within} ::
              n.operators >= 3 && n.participating >= 3 && n.groups >= 1 && n.clear && !n.critical
    ensures t[c.id].gate.verification == Verification(true, true, true, true)
    ensures m.transport.group.Some? && m.transport.leaderTtl > 0 && m.deployment.enabled
    ensures t[c.id].created <= c.at && m.clock - 300 <= c.at <= m.clock + 300
    ensures t[c.id].config.runHours >= 168
    ensures t[c.id].config.baseline == m.deployment.baseline && t[c.id].config.interval == m.deployment.interval
    ensures forall other :: other in t && other != c.id ==> !t[other].status.Running?
    ensures c.expectedGate == Some(Gate(c.at, m.before, t[c.id].gate.verification)) && m.before == m.within
  {
  }

  /** A run was closed by a command that had seen the row as it still is, running; a completion five minutes or
      more after the scheduled end, with nothing left in the transport. */
  lemma FinishesMeans(c: Command, seen: Table, t: Table, m: Moment)
    requires Finishes(c, seen, t, m)
    ensures c.Finish? && c.apply && c.status in {Completed, Failed, Cancelled}
    ensures c.id in t && t[c.id].status.Running? && m.deployment.build == Some(t[c.id].commit)
    ensures c.expectedState == Some(StampOf(c.id, t[c.id]))
    ensures c.id in seen && var (was, now) := (seen[c.id], t[c.id]);
              && was.status == now.status && was.config == now.config && was.commit == now.commit && was.gate == now.gate
              && was.started == now.started && was.scheduledEnd == now.scheduledEnd && was.ended == now.ended
    ensures m.deployment.enabled && m.clock - 300 <= c.at <= m.clock + 300
    ensures c.status.Completed? ==>
              && t[c.id].scheduledEnd.Some? && c.at >= t[c.id].scheduledEnd.value + 300
              && NothingLeft(m.transport.length, m.transport.group)
  {
  }

  /** Why a preparation is refused. */
  predicate PrepareRefused(c: Command, t: Table, m: Moment, why: Denied)
    requires c.Prepare?
  {
    match why
    case BadInput => !c.wellFormed
    case WrongBuild => m.deployment.build != Some(c.commit)
    case GateChanged => c.expectedGate != Some(Gate(c.at, m.before, c.verification)) || m.within != m.before
    case DifferentInputs =>
      c.id in t &&
      var was := t[c.id];
      || was.config != Config(m.deployment.baseline, m.deployment.interval, 168)
      || was.commit != c.commit || was.reference != c.reference
      || (was.status.Draft? && was.gate != Gate(c.at, m.before, c.verification))
    case _ => false
  }

  /** Why a start is refused, looking at the row as it was read and as it is now. */
  predicate StartRefused(c: Command, seen: Table, t: Table, m: Moment, why: Denied)
    requires c.Start?
  {
    match why
    case NoSuchRun => c.id !in seen || c.id !in t
    case WrongBuild =>
      (c.id in seen && m.deployment.build != Some(seen[c.id].commit)) || (c.id in t && m.deployment.build != Some(t[c.id].commit))
    case GateChanged =>
      c.id in seen &&
      (c.expectedGate != Some(Gate(c.at, m.before, seen[c.id].gate.verification)) ||
       (c.id in t && Gate(c.at, m.within, t[c.id].gate.verification) != Gate(c.at, m.before, seen[c.id].gate.verification)))
    case Preflight(reasons) =>
      c.id in seen &&
      if reasons == [] then !seen[c.id].status.Draft?
      else forall r :: r in reasons ==>
             || (r.CollectorGroupMissing? && m.transport.group.None?)
             || (r.CollectorLeaderMissing? && m.transport.leaderTtl <= 0)
             || Broken(Gate(c.at, m.before, seen[c.id].gate.verification), r)
             || (c.id in t && Broken(Gate(c.at, m.within, t[c.id].gate.verification), r))
    case Disabled => !m.deployment.enabled
    case BadTime => c.at < m.clock - 300 || c.at > m.clock + 300
    case NotDraft => c.id in t && t[c.id].status in {Completed, Failed, Cancelled}
    case BeforeCreation => c.id in t && c.at < t[c.id].created
    case AnotherRunning => exists other :: other in t && other != c.id && t[other].status.Running?
    case PolicyChanged =>
      c.id in t && (t[c.id].config.runHours < 168 || t[c.id].config.baseline != m.deployment.baseline
                    || t[c.id].config.interval != m.deployment.interval)
    case _ => false
  }

  /** Why a finish is refused. */
  predicate FinishRefused(c: Command, seen: Table, t: Table, m: Moment, why: Denied)
    requires c.Finish?
  {
    match why
    case NoSuchRun => c.id !in seen || c.id !in t
    case WrongBuild =>
      (c.id in seen && m.deployment.build != Some(seen[c.id].commit)) || (c.id in t && m.deployment.build != Some(t[c.id].commit))
    case StateChanged =>
      c.id in seen && (c.expectedState != Some(StampOf(c.id, seen[c.id])) ||
                       (c.id in t && StampOf(c.id, t[c.id]) != StampOf(c.id, seen[c.id])))
    case Preflight(reasons) =>
      c.id in seen &&
      if reasons == [] then !seen[c.id].status.Running?
      else c.status.Completed? && forall r :: r in reasons ==>
             var end := seen[c.id].scheduledEnd;
             || (r.Not168Hours? && (end.None? || c.at < end.value))
             || (r.GraceNotElapsed? && end.Some? && end.value <= c.at < end.value + 300)
             || (r.OutboxNotDrained? && !NothingLeft(m.transport.length, m.transport.group))
    case Disabled => !m.deployment.enabled
    case BadTime => c.at < m.clock - 300 || c.at > m.clock + 300
    case _ => false
  }

  // ---- the commands, as code --------------------------------------------------------------

  /** seen is the table the command's first read found, t the table its transaction finds. */
  method PrepareCommand(c: Command, seen: Table, t: Table, m: Moment) returns (next: Table, answer: Answer)
    requires c.Prepare?
    ensures next == After(c, seen, t, m)
    ensures next != t ==> answer == Done(next[c.id])
    ensures answer.Preview? ==> !c.apply && (answer.eligible <==> Eligible(Gate(c.at, m.before, c.verification)))
    ensures answer.Preview? ==> forall r :: r in answer.reasons <==> Broken(Gate(c.at, m.before, c.verification), r)
    ensures answer.Done? ==> c.id in next && answer.row == next[c.id]
    ensures answer.Done? <==>
              || Creates(c, t, m)
              || (c.id in t && Creates(c, t - {c.id}, m) && SameInputs(t[c.id], NewRow(c, m)))
    ensures answer.Done? ==>
              && c.apply && c.wellFormed && m.deployment.build == Some(c.commit) && m.before == m.within
              && c.expectedGate == Some(Gate(c.at, m.before, c.verification))
    ensures answer.Done? && c.id !in t ==>
              answer.row == Row(Draft, Config(m.deployment.baseline, m.deployment.interval, 168), c.commit, c.reference,
                                Gate(c.at, m.before, c.verification), m.clock, None, None, None)
    ensures answer.Done? && c.id in t ==>
              && next == t && answer.row.config == Config(m.deployment.baseline, m.deployment.interval, 168)
              && answer.row.commit == c.commit && answer.row.reference == c.reference
              && (answer.row.status.Draft? ==> answer.row.gate == Gate(c.at, m.before, c.verification))
    ensures answer.Refused? ==> PrepareRefused(c, t, m, answer.why)
  {
    next := t;
    if !c.wellFormed {
      return t, Refused(BadInput);
    }
    if m.deployment.build != Some(c.commit) {
      return t, Refused(WrongBuild);
    }
    var gate := Gate(c.at, m.before, c.verification);
    EligibleWhenNothingFails(gate);
    AllReasonsAre(gate);
    if !c.apply {
      return t, Preview(Failing(gate) == [], Failing(gate));
    }
    if c.expectedGate != Some(gate) {
      return t, Refused(GateChanged);
    }
    if Gate(c.at, m.within, c.verification) != gate {
      return t, Refused(GateChanged);
    }
    var r := CreateRun(t, c.id, NewRow(c, m));
    next, answer := r.0, r.1;
  }

  method StartCommand(c: Command, seen: Table, t: Table, m: Moment) returns (next: Table, answer: Answer)
    requires c.Start?
    ensures next == After(c, seen, t, m)
    ensures next != t ==> answer == Done(next[c.id])
    ensures answer.Preview? ==> !c.apply && c.id in seen
    ensures answer.Preview? ==> (answer.eligible <==> seen[c.id].status.Draft? && answer.reasons == [])
    ensures answer.Done? ==> c.id in next && answer.row == next[c.id] && next[c.id].status.Running?
    ensures answer.Done? <==> Starts(c, seen, t, m) || Overtaken(c, seen, t, m)
    ensures answer.Done? ==>
              && c.apply && c.id in seen && c.id in t && m.deployment.build == Some(t[c.id].commit)
              && m.deployment.enabled && m.clock - 300 <= c.at <= m.clock + 300
              && c.expectedGate == Some(Gate(c.at, m.before, seen[c.id].gate.verification))
              && if t[c.id].status.Running? then next == t
                 else next == t[c.id := answer.row] &&
                      answer.row == t[c.id].(status := Running, gate := Gate(c.at, m.within, t[c.id].gate.verification),
                                             started := Some(c.at),
                                             scheduledEnd := Some(c.at + t[c.id].config.runHours * 3600))
    ensures answer.Refused? ==> StartRefused(c, seen, t, m, answer.why)
    ensures answer.Preview? ==> forall r :: r in answer.reasons <==>
              || (r.CollectorGroupMissing? && m.transport.group.None?)
              || (r.CollectorLeaderMissing? && m.transport.leaderTtl <= 0)
              || Broken(Gate(c.at, m.before, seen[c.id].gate.verification), r)
  {
    if c.id !in seen {
      return t, Refused(NoSuchRun);
    }
    var row := seen[c.id];
    if m.deployment.build != Some(row.commit) {
      return t, Refused(WrongBuild);
    }
    var gate := Gate(c.at, m.before, row.gate.verification);
    EligibleWhenNothingFails(gate);
    AllReasonsAre(gate);
    var ready := m.transport.group.Some? && m.transport.leaderTtl > 0;
    var reasons := Failing(gate);
    if m.transport.group.None? {
      reasons := reasons + [CollectorGroupMissing];
    }
    if m.transport.leaderTtl <= 0 {
      reasons := reasons + [CollectorLeaderMissing];
    }
    var eligible := row.status.Draft? && Failing(gate) == [] && ready;
    if !c.apply {
      return t, Preview(eligible, reasons);
    }
    if c.expectedGate != Some(gate) {
      return t, Refused(GateChanged);
    }
    if !eligible {
      return t, Refused(Preflight(reasons));
    }
    if c.id in t {
      EligibleWhenNothingFails(Gate(c.at, m.within, t[c.id].gate.verification));
      AllReasonsAre(Gate(c.at, m.within, t[c.id].gate.verification));
    }
    var r := StartRun(t, c.id, c.at, gate, m);
    next, answer := r.0, r.1;
  }

  method FinishCommand(c: Command, seen: Table, t: Table, m: Moment) returns (next: Table, answer: Answer)
    requires c.Finish? && Terminal(c.status)
    ensures next == After(c, seen, t, m)
    ensures answer.Done? <==> Finishes(c, seen, t, m)
    ensures answer.Done? ==>
              c.id in t && answer.row == t[c.id].(status := c.status, ended := Some(c.at)) && next == t[c.id := answer.row]
    ensures answer.Preview? ==> !c.apply && c.id in seen
    ensures answer.Preview? ==> (answer.eligible <==> seen[c.id].status.Running? && answer.reasons == [])
    ensures answer.Done? && c.status.Completed? ==> NothingLeft(m.transport.length, m.transport.group)
    ensures answer.Refused? ==> FinishRefused(c, seen, t, m, answer.why)
    ensures c.status.Completed? && !NothingLeft(m.transport.length, m.transport.group) ==> next == t
    ensures (answer.Preview? || (answer.Refused? && answer.why.Preflight?)) && c.status.Completed? ==>
              var reasons := if answer.Preview? then answer.reasons else answer.why.reasons;
              OutboxNotDrained in reasons <==> !NothingLeft(m.transport.length, m.transport.group)
  {
    if c.id !in seen {
      return t, Refused(NoSuchRun);
    }
    var row := seen[c.id];
    if m.deployment.build != Some(row.commit) {
      return t, Refused(WrongBuild);
    }
    var completing := c.status.Completed?;
    var reasons: seq<Reason> := [];
    if completing && (row.scheduledEnd.None? || c.at < row.scheduledEnd.value) {
      reasons := [Not168Hours];
    } else if completing && c.at < row.scheduledEnd.value + DRAIN_GRACE {
      reasons := [GraceNotElapsed];
    }
    if completing && !Drained(m.transport) {
      reasons := reasons + [OutboxNotDrained];
    }
    var eligible := row.status.Running? && reasons == [];
    if !c.apply {
      return t, Preview(eligible, reasons);
    }
    if c.expectedState != Some(StampOf(c.id, row)) {
      return t, Refused(StateChanged);
    }
    if !eligible {
      return t, Refused(Preflight(reasons));
    }
    var r := FinishRun(t, c.id, c.status, c.at, StampOf(c.id, row), m);
    next, answer := r.0, r.1;
  }

  // ---- every run of commands ----------------------------------------------------------------

  /** One command of a run: it read the table as it was after `seen` earlier commands. */
  datatype Event = Event(command: Command, seen: nat, moment: Moment)

  predicate Timely(events: seq<Event>)
  {
    forall k :: 0 <= k < |events| ==> events[k].seen <= k
  }

  /** The table after the first n commands; every read may be as old as the run itself. */
  function At(events: seq<Event>, n: nat): Table
    requires Timely(events) && n <= |events|
    decreases n
  {
    if n == 0 then map[]
    else
      var e := events[n - 1];
      After(e.command, At(events, e.seen), At(events, n - 1), e.moment)
  }

  predicate WellFormed(r: Row)
  {
    && (r.status.Draft? ==> r.started.None? && r.scheduledEnd.None? && r.ended.None?)
    && (!r.status.Draft? ==>
          && r.started.Some? && r.created <= r.started.value
          && r.config.runHours >= RUN_HOURS
          && r.scheduledEnd == Some(r.started.value + r.config.runHours * HOUR))
    && (r.status.Running? ==> r.ended.None?)
    && (Terminal(r.status) ==> r.ended.Some?)
    && (r.status.Completed? ==> r.ended.value >= r.scheduledEnd.value + DRAIN_GRACE)
  }

  predicate OneRunning(t: Table)
  {
    forall a, b :: a in t && b in t && t[a].status.Running? && t[b].status.Running? ==> a == b
  }

  predicate Sound(t: Table)
  {
    OneRunning(t) && forall id :: id in t ==> WellFormed(t[id])
  }

  /** What a later row may be, given an earlier one. */
  predicate Onward(was: Row, now: Row)
  {
    && now.config == was.config && now.commit == was.commit
    && now.reference == was.reference && now.created == was.created
    && (was.status.Draft? || was.status == now.status || (was.status.Running? && Terminal(now.status)))
    && (!was.status.Draft? ==> !now.status.Draft? && now.gate == was.gate && now.started == was.started
                               && now.scheduledEnd == was.scheduledEnd)
    && (was.status == now.status ==> now == was)
  }

  predicate AllOnward(was: Table, now: Table)
  {
    forall id :: id in was ==> id in now && Onward(was[id], now[id])
  }

  lemma PutKeeps(t: Table, id: Id, row: Row)
    requires Sound(t) && WellFormed(row)
    requires row.status.Running? ==> !OtherRunning(t, id)
    requires id in t ==> Onward(t[id], row)
    ensures Sound(t[id := row]) && AllOnward(t, t[id := row])
  {
  }

  lemma CommandKeeps(c: Command, seen: Table, t: Table, m: Moment)
    requires Sound(t)
    ensures Sound(After(c, seen, t, m))
    ensures AllOnward(t, After(c, seen, t, m))
  {
    if Creates(c, t, m) || Starts(c, seen, t, m) || Finishes(c, seen, t, m) {
      PutKeeps(t, c.id, After(c, seen, t, m)[c.id]);
    } else {
      assert AllOnward(t, t);
    }
  }

  lemma {:induction false} RunKeeps(events: seq<Event>, n: nat)
    requires Timely(events) && n <= |events|
    ensures Sound(At(events, n))
    decreases n
  {
    if n == 0 {
      assert At(events, 0) == map[];
    } else {
      RunKeeps(events, n - 1);
      CommandKeeps(events[n - 1].command, At(events, events[n - 1].seen), At(events, n - 1), events[n - 1].moment);
    }
  }

  /** At most one run is running at any time, whatever the operators do and however stale their reads. */
  lemma AtMostOneRunning(events: seq<Event>, n: nat)
    requires Timely(events) && n <= |events|
    ensures OneRunning(At(events, n))
  {
    RunKeeps(events, n);
  }

  /** A run only goes draft, running, one terminal status; what it was created with, and its window once
      started, never change, and nothing changes after the end. */
  lemma {:induction false} OnlyForward(events: seq<Event>, i: nat, j: nat)
    requires Timely(events) && i <= j <= |events|
    ensures AllOnward(At(events, i), At(events, j))
    decreases j
  {
    if i < j {
      OnlyForward(events, i, j - 1);
      RunKeeps(events, j - 1);
      var e := events[j - 1];
      CommandKeeps(e.command, At(events, e.seen), At(events, j - 1), e.moment);
      var a, b, c := At(events, i), At(events, j - 1), At(events, j);
      forall id | id in a ensures id in c && Onward(a[id], c[id]) {
        assert id in b && Onward(a[id], b[id]) && Onward(b[id], c[id]);
      }
    }
  }

  /** A command that only previews, and one applied with a commitment other than that of the gate or the
      row its transaction meets, change nothing. */
  lemma OutdatedChangesNothing(c: Command, seen: Table, t: Table, m: Moment)
    requires
      || !c.apply
      || (c.Prepare? && c.expectedGate != Some(Gate(c.at, m.within, c.verification)))
      || (c.Start? && (c.id in t ==> c.expectedGate != Some(Gate(c.at, m.within, t[c.id].gate.verification))))
      || (c.Finish? && (c.id in t ==> c.expectedState != Some(StampOf(c.id, t[c.id]))))
    ensures After(c, seen, t, m) == t
  {
  }

  /** A command either leaves a row's stage as it was, or is the one that moved it there. */
  lemma MovedBy(c: Command, seen: Table, t: Table, m: Moment, id: Id)
    requires Sound(t) && id in After(c, seen, t, m)
    ensures var now := After(c, seen, t, m)[id];
      || now.status.Draft?
      || (id in t && now == t[id])
      || (c.id == id && Starts(c, seen, t, m) && now.status.Running? && now.started == Some(c.at))
      || (c.id == id && Finishes(c, seen, t, m) && now.status == c.status && now.ended == Some(c.at)
          && now.started == t[id].started)
  {
  }

  /** The event that started a run that is no longer a draft. */
  lemma {:induction false} StartedBy(events: seq<Event>, n: nat, id: Id) returns (k: nat)
    requires Timely(events) && n <= |events|
    requires id in At(events, n) && !At(events, n)[id].status.Draft?
    ensures k < n
    ensures Starts(events[k].command, At(events, events[k].seen), At(events, k), events[k].moment)
    ensures events[k].command.id == id && At(events, n)[id].started == Some(events[k].command.at)
    decreases n
  {
    var e := events[n - 1];
    var was, seen := At(events, n - 1), At(events, e.seen);
    RunKeeps(events, n - 1);
    k := n - 1;
    if !StartedHere(e.command, seen, was, e.moment, id) {
      k := StartedBy(events, n - 1, id);
    }
  }

  /** Either the command started the run, or it was no draft before, with the same start. */
  predicate StartedHere(c: Command, seen: Table, t: Table, m: Moment, id: Id)
    requires Sound(t) && id in After(c, seen, t, m) && !After(c, seen, t, m)[id].status.Draft?
    ensures !StartedHere(c, seen, t, m, id) ==>
              id in t && !t[id].status.Draft? && t[id].started == After(c, seen, t, m)[id].started
    ensures StartedHere(c, seen, t, m, id) ==> c.id == id && After(c, seen, t, m)[id].started == Some(c.at)
  {
    MovedBy(c, seen, t, m, id);
    c.id == id && Starts(c, seen, t, m)
  }

  /** The event that ended a terminal run. */
  lemma {:induction false} FinishedBy(events: seq<Event>, n: nat, id: Id) returns (k: nat)
    requires Timely(events) && n <= |events|
    requires id in At(events, n) && Terminal(At(events, n)[id].status)
    ensures k < n
    ensures Finishes(events[k].command, At(events, events[k].seen), At(events, k), events[k].moment)
    ensures events[k].command.id == id && events[k].command.status == At(events, n)[id].status
    ensures At(events, n)[id].ended == Some(events[k].command.at)
    decreases n
  {
    var e := events[n - 1];
    var was, now := At(events, n - 1), At(events, n);
    RunKeeps(events, n - 1);
    MovedBy(e.command, At(events, e.seen), was, e.moment, id);
    if id in was && was[id] == now[id] {
      k := FinishedBy(events, n - 1, id);
    } else {
      k := n - 1;
    }
  }

  /** A completed run was started by one command and completed by a later one, which found the outbox
      empty; by their own times the whole window and the grace lie between them, and by the server's
      clock at least 168 hours less the skew the two commands together were allowed beyond the grace. */
  lemma CompletedRan(events: seq<Event>, n: nat, id: Id) returns (s: nat, f: nat)
    requires Timely(events) && n <= |events|
    requires id in At(events, n) && At(events, n)[id].status.Completed?
    ensures s < f < n
    ensures Starts(events[s].command, At(events, events[s].seen), At(events, s), events[s].moment)
    ensures Finishes(events[f].command, At(events, events[f].seen), At(events, f), events[f].moment)
    ensures events[s].command.id == events[f].command.id == id
    ensures NothingLeft(events[f].moment.transport.length, events[f].moment.transport.group)
    ensures events[f].command.at >= events[s].command.at + RUN_HOURS * HOUR + DRAIN_GRACE
    ensures events[f].moment.clock >= events[s].moment.clock + RUN_HOURS * HOUR + DRAIN_GRACE - 2 * CLOCK_SKEW
  {
    RunKeeps(events, n);
    f := FinishedBy(events, n, id);
    OnlyForward(events, f, n);
    var was, now := At(events, f)[id], At(events, n)[id];
    assert Onward(was, now);
    s := StartedBy(events, f, id);
  }

  /** A run of three commands that reaches this bound: by the server clock the run lasted five minutes less
      than 168 hours. */
  lemma ShortestRun(id: Id, commit: string, reference: string, baseline: string, interval: nat)
    returns (events: seq<Event>)
    ensures Timely(events) && |events| == 3 && id in At(events, 3) && At(events, 3)[id].status.Completed?
    ensures events[1].command.Start? && events[2].command.Finish?
    ensures events[2].moment.clock - events[1].moment.clock
            == RUN_HOURS * HOUR + DRAIN_GRACE - 2 * CLOCK_SKEW == RUN_HOURS * HOUR - 300
  {
    var d := Deployment(Some(commit), true, baseline, interval);
    var net, v := Network(3, 3, 1, true, false), Verification(true, true, true, true);
    var gate, transport := Gate(0, net, v), Transport(0, Some(Group(0, None)), 1);
    var week := RUN_HOURS * HOUR;
    var draft := Row(Draft, Config(baseline, interval, RUN_HOURS), commit, reference, gate, 0, None, None, None);
    var running := draft.(status := Running, started := Some(0), scheduledEnd := Some(week));
    var prepare := Prepare(id, true, commit, reference, v, true, Some(gate), 0);
    var start := Start(id, true, Some(gate), 0);
    var finish := Finish(id, Completed, true, Some(StampOf(id, running)), week + DRAIN_GRACE);
    events := [Event(prepare, 0, Moment(d, 0, net, net, transport)),
               Event(start, 1, Moment(d, CLOCK_SKEW, net, net, transport)),
               Event(finish, 2, Moment(d, week + DRAIN_GRACE - CLOCK_SKEW, net, net, transport))];
    assert At(events, 0) == map[];
    assert At(events, 1) == map[id := draft];
    assert At(events, 2) == map[id := running];
    assert Finishes(finish, At(events, 2), At(events, 2), events[2].moment);
  }
}
