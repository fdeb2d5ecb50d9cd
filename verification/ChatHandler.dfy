// The chat handler and its generator as code, run against the machine of InFlight while
// other requests take any steps they like at every await.

module ChatHandler {

  import opened Common
  import opened InFlight
  import Streaming

  /** `others(i)` is what other requests attempt at the i-th await. */
  type Schedule = nat -> seq<Step>

  predicate Concerns(t: Step, id: Id)
  {
    match t
    case Arrive(i, _, _) => i == id
    case Act(i, _) => i == id
    case Expire(_) => false
  }

  /** The steps that are possible and not about `id` are taken, the rest are not. */
  function Meanwhile(s: State, ts: seq<Step>, id: Id): State
    decreases |ts|
  {
    if ts == [] then s
    else Meanwhile(if Enabled(s, ts[0]) && !Concerns(ts[0], id) then Do(s, ts[0]) else s, ts[1..], id)
  }

  ghost predicate Reaches(s: State, u: State)
  {
    exists steps :: Run(s, steps, u)
  }

  lemma ReachesSelf(s: State)
    ensures Reaches(s, s)
  {
    assert Run(s, [], s);
  }

  lemma ReachesStep(s: State, u: State, t: Step)
    requires Reaches(s, u) && Enabled(u, t)
    ensures Reaches(s, Do(u, t))
  {
    var steps :| Run(s, steps, u);
    RunLast(s, steps, u, t);
  }

  /** Other requests leave `id` alone, and what they do is a run of the machine. */
  lemma {:induction false} MeanwhileRuns(s0: State, s: State, ts: seq<Step>, id: Id)
    requires Reaches(s0, s) && id in s.reqs
    ensures Reaches(s0, Meanwhile(s, ts, id))
    ensures id in Meanwhile(s, ts, id).reqs && Meanwhile(s, ts, id).reqs[id] == s.reqs[id]
    decreases |ts|
  {
    if ts != [] {
      if Enabled(s, ts[0]) && !Concerns(ts[0], id) {
        ReachesStep(s0, s, ts[0]);
        MeanwhileRuns(s0, Do(s, ts[0]), ts[1..], id);
      } else {
        MeanwhileRuns(s0, s, ts[1..], id);
      }
    }
  }

  /** One step of `id`, followed by an await. */
  method Take(ghost s0: State, s: State, id: Id, action: Action, others: seq<Step>) returns (u: State)
    requires Reaches(s0, s) && id in s.reqs && CanAct(s.reqs[id], action)
    ensures Reaches(s0, u) && id in u.reqs
    ensures var (q, a) := (s.reqs[id], s.reqs[id].account);
            u.reqs[id] == Advance(q, action, if a.Some? then Counter(s, a.value) else 0, s.limit)
  {
    ReachesStep(s0, s, Act(id, action));
    u := Do(s, Act(id, action));
    MeanwhileRuns(s0, u, others, id);
    u := Meanwhile(u, others, id);
  }

  /** `concurrency.release`. */
  method ReleaseSlot(ghost s0: State, s: State, id: Id, others: Schedule, at: nat) returns (u: State)
    requires Reaches(s0, s) && id in s.reqs && (s.reqs[id].phase.Leaving? || s.reqs[id].phase.Closing?)
    ensures Reaches(s0, u) && id in u.reqs
    ensures u.reqs[id] == s.reqs[id].(phase := Gone(s.reqs[id].end), releases := s.reqs[id].releases + 1)
  {
    u := Take(s0, s, id, Decr, others(at));
    if u.reqs[id].phase.Flooring? {
      u := Take(s0, u, id, SetZero, others(at + 1));
    }
  }

  datatype Result = TooMany429 | Payment402 | DispatchFailed | StreamHandedOver | Body

  /** `submit_job`; when it fails the hold is released, which may fail too. */
  method Dispatch(ghost s0: State, s: State, id: Id, queued: bool, freed: bool, others: Schedule, at: nat)
    returns (u: State)
    requires Reaches(s0, s) && id in s.reqs && s.reqs[id].phase.Paid?
    ensures Reaches(s0, u) && id in u.reqs
    ensures var q := s.reqs[id];
            u.reqs[id] ==
            if queued then q.(phase := Dispatched, queued := true)
            else Finish(if freed && q.hold.Held? then q.(hold := Freed) else q, NotQueued(freed), Leaving)
  {
    u := Take(s0, s, id, Submit(queued), others(at));
    if !queued {
      u := Take(s0, u, id, ReleaseHold(freed), others(at + 1));
    }
  }

  /** `_handle_chat_completions_for_user` from the slot to the response. */
  method HandleChat(s0: State, id: Id, account: Option<Account>, stream: bool,
                    paid: bool, held: bool, queued: bool, freed: bool, others: Schedule)
    returns (s: State, result: Result)
    requires id !in s0.reqs
    ensures Reaches(s0, s) && id in s.reqs && s.reqs[id].account == account
    ensures var q := s.reqs[id];
            match result
            case TooMany429 => q.phase == Gone(TooMany) && q.hold.NoHold? && !q.queued && q.releases == 0
            case Payment402 => !paid && q.phase == Gone(Unpaid) && q.hold.NoHold? && !q.queued && q.releases == One(account.Some?)
            case DispatchFailed =>
              && paid && !queued && q.phase == Gone(NotQueued(freed)) && !q.queued && q.releases == One(account.Some?)
              && q.hold == (if !held then NoHold else if freed then Freed else Held)
            case StreamHandedOver =>
              paid && queued && stream && q.phase == Offered && q.queued && q.releases == 0 && q.hold == (if held then Held else NoHold)
            case Body =>
              && paid && queued && !stream && q.phase == Gone(Answered) && q.queued && q.releases == One(account.Some?)
              && q.hold == (if held then Held else NoHold)
    ensures account.None? ==> result != TooMany429
  {
    ReachesSelf(s0);
    ReachesStep(s0, s0, Arrive(id, account, stream));
    s := Do(s0, Arrive(id, account, stream));
    s := Take(s0, s, id, Incr, others(0));
    if s.reqs[id].phase.OverLimit? {
      s := Take(s0, s, id, UndoIncr, others(1));
      return s, TooMany429;
    }
    var inflightHeld := account.Some?;
    s := Take(s0, s, id, Authorize(paid, held), others(2));
    if !paid {
      result := Payment402;
    } else {
      s := Dispatch(s0, s, id, queued, freed, others, 3);
      if !queued {
        result := DispatchFailed;
      } else {
        s := Take(s0, s, id, Respond, others(5));
        if stream {
          inflightHeld := false;
          result := StreamHandedOver;
        } else {
          s := Take(s0, s, id, Collected, others(6));
          result := Body;
        }
      }
    }
    if inflightHeld {
      s := ReleaseSlot(s0, s, id, others, 7);
    }
  }

  /** The Messages and Responses endpoints from `authorize_passthrough` to the response: no slot is taken,
      and the hold and the queue are treated as in chat. */
  method HandlePassthrough(s0: State, id: Id, stream: bool, paid: bool, held: bool, queued: bool, freed: bool,
                           others: Schedule)
    returns (s: State, result: Result)
    requires id !in s0.reqs
    ensures Reaches(s0, s) && id in s.reqs && s.reqs[id].releases == 0
    ensures var q := s.reqs[id];
            match result
            case TooMany429 => false
            case Payment402 => !paid && q.phase == Gone(Unpaid) && q.hold.NoHold? && !q.queued
            case DispatchFailed =>
              && paid && !queued && q.phase == Gone(NotQueued(freed)) && !q.queued
              && q.hold == (if !held then NoHold else if freed then Freed else Held)
            case StreamHandedOver =>
              paid && queued && stream && q.phase == Offered && q.queued && q.hold == (if held then Held else NoHold)
            case Body =>
              paid && queued && !stream && q.phase == Gone(Answered) && q.queued && q.hold == (if held then Held else NoHold)
  {
    ReachesSelf(s0);
    ReachesStep(s0, s0, Arrive(id, None, stream));
    s := Do(s0, Arrive(id, None, stream));
    s := Take(s0, s, id, Incr, []);
    s := Take(s0, s, id, Authorize(paid, held), others(0));
    if !paid {
      return s, Payment402;
    }
    s := Dispatch(s0, s, id, queued, freed, others, 1);
    if !queued {
      return s, DispatchFailed;
    }
    s := Take(s0, s, id, Respond, []);
    if stream {
      return s, StreamHandedOver;
    }
    s := Take(s0, s, id, Collected, others(3));
    return s, Body;
  }

  /** The generator the handler returned: its code decides whether the slot is released,
      and the machine is left with a released slot unless it was dropped at once. */
  method RunGenerator(s0: State, id: Id, es: seq<Streaming.Event>, extra: bool, patience: nat,
                      tokens: Streaming.Totals -> nat, others: Schedule)
    returns (s: State, fx: Streaming.Effects)
    requires id in s0.reqs && s0.reqs[id].phase.Offered?
    ensures Reaches(s0, s) && id in s.reqs
    ensures patience == 0 ==> s.reqs[id] == s0.reqs[id].(phase := Gone(Dropped)) && fx == Streaming.Effects(0, [], 0)
    ensures patience > 0 ==>
              && s.reqs[id].phase == Gone(Streamed) && fx.releases == One(s0.reqs[id].account.Some?)
              && s.reqs[id].releases == s0.reqs[id].releases + fx.releases
    ensures |fx.observed| == One(patience > 0)
  {
    ReachesSelf(s0);
    var slot, sent := s0.reqs[id].account.Some?, [];
    sent, fx := Streaming.StreamOpenAI(es, extra, slot, patience, tokens);
    if patience == 0 {
      s := Take(s0, s0, id, Drop, others(0));
      return;
    }
    s := Take(s0, s0, id, Resume, others(0));
    s := Take(s0, s, id, Stop, others(1));
    if fx.releases > 0 {
      s := ReleaseSlot(s0, s, id, others, 2);
    }
  }
}
