// The life of a text request: the per-account slot, the credit hold and the dispatch.
// A state of the machine holds every request at once; a step is one Redis command, one
// service call or one hand-over by one request, so a run is an arbitrary interleaving.

module InFlight {

  import opened Common

  type Account = nat
  type Id = nat

  /** Where a request is in the handler or in its generator. */
  datatype Phase =
    | Arrived
    | OverLimit              // INCR returned more than the limit, the DECR is still to come
    | Trying                 // inside the `try`
    | Paid                   // authorized, not yet submitted
    | Undoing                // submit failed, `release_job` is still to come
    | Dispatched             // queued, response not yet made
    | Collecting             // the handler assembles the response
    | Leaving                // the handler's `finally`
    | Offered                // the generator exists but was not resumed past its role chunk
    | Streaming              // inside the generator's `try`
    | Closing                // the generator's `finally`
    | Flooring               // the release read a negative count, SET 0 is still to come
    | Gone(end: End)

  datatype End =
    | TooMany                // 429
    | Unpaid                 // 402, or authorization raised
    | NotQueued(freed: bool) // dispatch failed; was the hold given back?
    | Answered               // the handler returned or raised after dispatch
    | Streamed               // the generator ran its `finally`
    | Dropped                // the generator was discarded at or before its role chunk

  datatype HoldState = NoHold | Held | Freed

  datatype Request = Request(account: Option<Account>, stream: bool, phase: Phase,
                             end: End, hold: HoldState, queued: bool, releases: nat)

  datatype State = State(limit: int, counter: map<Account, int>, reqs: map<Id, Request>)

  function Counter(s: State, a: Account): int
  {
    if a in s.counter then s.counter[a] else 0
  }

  // ---- steps -----------------------------------------------------------------------

  datatype Action =
    | Incr
    | UndoIncr
    | Authorize(ok: bool, held: bool)
    | Submit(queued: bool)
    | ReleaseHold(worked: bool)
    | Respond
    | Collected
    | Resume
    | Drop
    | Stop
    | Decr
    | SetZero

  datatype Step =
    | Arrive(id: Id, account: Option<Account>, stream: bool)
    | Act(id: Id, action: Action)
    | Expire(key: Account)

  predicate CanAct(q: Request, action: Action)
  {
    match action
    case Incr => q.phase.Arrived?
    case UndoIncr => q.phase.OverLimit?
    case Authorize(_, _) => q.phase.Trying?
    case Submit(_) => q.phase.Paid?
    case ReleaseHold(_) => q.phase.Undoing?
    case Respond => q.phase.Dispatched?
    case Collected => q.phase.Collecting?
    case Resume => q.phase.Offered?
    case Drop => q.phase.Offered?
    case Stop => q.phase.Streaming?
    case Decr => q.phase.Leaving? || q.phase.Closing?
    case SetZero => q.phase.Flooring?
  }

  /** The `finally` of the handler or of the generator, with or without a slot to release. */
  function Finish(q: Request, end: End, last: Phase): Request
  {
    if q.account.Some? then q.(phase := last, end := end) else q.(phase := Gone(end))
  }

  /** The request after one action; `c` is the count its account had before. */
  function Advance(q: Request, action: Action, c: int, limit: int): Request
  {
    match action
    case Incr => q.(phase := if q.account.Some? && c + 1 > limit then OverLimit else Trying)
    case UndoIncr => q.(phase := Gone(TooMany))
    case Authorize(ok, held) =>
      if ok then q.(phase := Paid, hold := if held then Held else NoHold) else Finish(q, Unpaid, Leaving)
    case Submit(ok) => if ok then q.(phase := Dispatched, queued := true) else q.(phase := Undoing)
    case ReleaseHold(worked) =>
      Finish(if worked && q.hold.Held? then q.(hold := Freed) else q, NotQueued(worked), Leaving)
    case Respond => q.(phase := if q.stream then Offered else Collecting)
    case Collected => Finish(q, Answered, Leaving)
    case Resume => q.(phase := Streaming)
    case Drop => q.(phase := Gone(Dropped))
    case Stop => Finish(q, Streamed, Closing)
    case Decr => q.(phase := if c - 1 < 0 then Flooring else Gone(q.end), releases := q.releases + 1)
    case SetZero => q.(phase := Gone(q.end))
  }

  /** The account's count after the action, in Redis. */
  function Recount(action: Action, c: int): int
  {
    match action
    case Incr => c + 1
    case UndoIncr | Decr => c - 1
    case SetZero => 0
    case _ => c
  }

  predicate Enabled(s: State, t: Step)
  {
    match t
    case Arrive(id, _, _) => id !in s.reqs
    case Act(id, action) => id in s.reqs && CanAct(s.reqs[id], action)
    case Expire(_) => true
  }

  function Put(s: State, id: Id, q: Request): State
  {
    s.(reqs := s.reqs[id := q])
  }

  function Do(s: State, t: Step): State
    requires Enabled(s, t)
  {
    match t
    case Arrive(id, account, stream) =>
      Put(s, id, Request(account, stream, Arrived, Answered, NoHold, false, 0))
    case Act(id, action) =>
      var q := s.reqs[id];
      (match q.account
       case None => Put(s, id, Advance(q, action, 0, s.limit))
       case Some(a) =>
         var c := Counter(s, a);
         Put(s.(counter := s.counter[a := Recount(action, c)]), id, Advance(q, action, c, s.limit)))
    case Expire(a) => s.(counter := s.counter - {a})
  }

  // ---- counting --------------------------------------------------------------------

  /** Does the request own a slot? A dropped generator still does: nothing releases it. */
  predicate Owns(q: Request)
  {
    q.account.Some? && !q.phase.Arrived? && !q.phase.OverLimit? && !q.phase.Flooring? &&
    (q.phase.Gone? ==> q.phase.end.Dropped?)
  }

  function SlotOf(a: Account): Request -> bool
  {
    (q: Request) => q.account == Some(a) && Owns(q)
  }

  /** Requests of `a` between an INCR that exceeded the limit and its DECR. */
  function PassingOf(a: Account): Request -> bool
  {
    (q: Request) => q.account == Some(a) && q.phase.OverLimit?
  }

  function Ids(reqs: map<Id, Request>, p: Request -> bool): set<Id>
  {
    set id | id in reqs && p(reqs[id])
  }

  function Slots(s: State, a: Account): nat
  {
    |Ids(s.reqs, SlotOf(a))|
  }

  function Passing(s: State, a: Account): nat
  {
    |Ids(s.reqs, PassingOf(a))|
  }

  function One(b: bool): nat
  {
    if b then 1 else 0
  }

  /** Changing one request changes a count by that request alone. */
  lemma CountPut(reqs: map<Id, Request>, id: Id, q: Request, p: Request -> bool)
    ensures |Ids(reqs[id := q], p)| == |Ids(reqs, p)| - One(id in reqs && p(reqs[id])) + One(p(q))
  {
    var x, y := Ids(reqs, p), Ids(reqs[id := q], p);
    assert y == (if p(q) then x - {id} + {id} else x - {id});
  }

  lemma CountsAfter(s: State, id: Id, q: Request, a: Account)
    ensures Slots(Put(s, id, q), a) ==
            Slots(s, a) - One(id in s.reqs && SlotOf(a)(s.reqs[id])) + One(SlotOf(a)(q))
    ensures Passing(Put(s, id, q), a) ==
            Passing(s, a) - One(id in s.reqs && PassingOf(a)(s.reqs[id])) + One(PassingOf(a)(q))
  {
    CountPut(s.reqs, id, q, SlotOf(a));
    CountPut(s.reqs, id, q, PassingOf(a));
  }

  // ---- the invariant ----------------------------------------------------------------

  /** The hold, the queue and the number of releases agree with where the request is. */
  predicate Sound(q: Request)
  {
    && (q.phase.Flooring? || q.phase.OverLimit? || q.phase.Leaving? || q.phase.Closing? ==> q.account.Some?)
    && q.releases == One(q.account.Some? && (q.phase.Flooring? ||
         (q.phase.Gone? && !q.phase.end.TooMany? && !q.phase.end.Dropped?)))
    && (match q.phase
        case Arrived | OverLimit | Trying => q.hold.NoHold? && !q.queued
        case Paid | Undoing => !q.hold.Freed? && !q.queued
        case Dispatched | Collecting | Offered | Streaming => !q.hold.Freed? && q.queued
        case Leaving | Closing | Flooring => Settled(q, q.end) && !q.end.TooMany? && !q.end.Dropped?
        case Gone(end) => Settled(q, end))
  }

  predicate Settled(q: Request, end: End)
  {
    match end
    case TooMany | Unpaid => q.hold.NoHold? && !q.queued
    case NotQueued(freed) => !q.queued && (if freed then !q.hold.Held? else !q.hold.Freed?)
    case Answered | Streamed | Dropped => !q.hold.Freed? && q.queued
  }

  ghost predicate AllSound(s: State)
  {
    forall id :: id in s.reqs ==> Sound(s.reqs[id])
  }

  ghost predicate Inv(s: State)
  {
    && AllSound(s)
    && (forall id :: id in s.reqs ==> !s.reqs[id].phase.Flooring?)
    && (forall a :: Counter(s, a) == Slots(s, a) + Passing(s, a))
    && (forall a :: Slots(s, a) <= s.limit)
  }

  lemma ActionSound(q: Request, action: Action, c: int, limit: int)
    requires Sound(q) && CanAct(q, action)
    ensures Sound(Advance(q, action, c, limit))
  {
  }

  lemma StepSound(s: State, t: Step)
    requires AllSound(s) && Enabled(s, t)
    ensures AllSound(Do(s, t))
  {
    if t.Act? {
      var q := s.reqs[t.id];
      ActionSound(q, t.action, if q.account.Some? then Counter(s, q.account.value) else 0, s.limit);
    }
  }

  /** One action moves the account's count by exactly what it does to its own slot. */
  lemma ActionBalances(q: Request, action: Action, c: int, limit: int)
    requires Sound(q) && !q.phase.Flooring? && CanAct(q, action)
    requires Owns(q) ==> c >= 1
    ensures var r := Advance(q, action, c, limit);
            && !r.phase.Flooring? && r.account == q.account
            && (q.account.Some? ==>
                 Recount(action, c) - c == One(Owns(r)) + One(r.phase.OverLimit?) - One(Owns(q)) - One(q.phase.OverLimit?))
            && (Owns(r) && !Owns(q) ==> action.Incr? && c + 1 <= limit)
  {
  }

  /** A request of `a` in a phase that owns a slot is counted. */
  lemma OwnerCounted(s: State, id: Id, a: Account)
    requires id in s.reqs && SlotOf(a)(s.reqs[id])
    ensures Slots(s, a) >= 1
  {
    assert id in Ids(s.reqs, SlotOf(a));
  }

  /** Every step except an expiry keeps the invariant; in particular a release never
      reads a negative count. */
  lemma StepKeeps(s: State, t: Step)
    requires s.limit > 0 && Inv(s) && Enabled(s, t) && !t.Expire?
    ensures Inv(Do(s, t))
  {
    var u := Do(s, t);
    StepSound(s, t);
    if t.Act? {
      var q := s.reqs[t.id];
      var c := if q.account.Some? then Counter(s, q.account.value) else 0;
      if Owns(q) {
        OwnerCounted(s, t.id, q.account.value);
      }
      ActionBalances(q, t.action, c, s.limit);
    }
    forall a
      ensures Counter(u, a) == Slots(u, a) + Passing(u, a) && Slots(u, a) <= u.limit
    {
      CountsAfter(s, t.id, u.reqs[t.id], a);
    }
  }

  // ---- runs -----------------------------------------------------------------------

  /** A run of enabled steps from `s` to `u`, newest step last. */
  ghost predicate Run(s: State, steps: seq<Step>, u: State)
    decreases |steps|
  {
    if steps == [] then u == s
    else Enabled(s, steps[0]) && Run(Do(s, steps[0]), steps[1..], u)
  }

  /** Every count that expires does so while none of the account's requests is counted. */
  ghost predicate IdleExpiry(s: State, steps: seq<Step>)
    decreases |steps|
  {
    steps == [] ||
    (Enabled(s, steps[0]) ==>
       && (steps[0].Expire? ==> Slots(s, steps[0].key) + Passing(s, steps[0].key) == 0)
       && IdleExpiry(Do(s, steps[0]), steps[1..]))
  }

  /** The key's time to live is harmless exactly when it runs out on an idle account. */
  lemma ExpiryKeeps(s: State, a: Account)
    requires Inv(s)
    ensures Inv(Do(s, Expire(a))) <==> Slots(s, a) + Passing(s, a) == 0
  {
    var u := Do(s, Expire(a));
    assert forall b :: Slots(u, b) == Slots(s, b) && Passing(u, b) == Passing(s, b);
    assert Counter(u, a) == 0;
  }

  lemma {:induction false} RunKeeps(s: State, steps: seq<Step>, u: State)
    requires s.limit > 0 && Inv(s) && Run(s, steps, u) && IdleExpiry(s, steps)
    ensures Inv(u)
    decreases |steps|
  {
    if steps != [] {
      if steps[0].Expire? {
        ExpiryKeeps(s, steps[0].key);
      } else {
        StepKeeps(s, steps[0]);
      }
      RunKeeps(Do(s, steps[0]), steps[1..], u);
    }
  }

  lemma {:induction false} RunSound(s: State, steps: seq<Step>, u: State)
    requires AllSound(s) && Run(s, steps, u)
    ensures AllSound(u)
    decreases |steps|
  {
    if steps != [] {
      StepSound(s, steps[0]);
      RunSound(Do(s, steps[0]), steps[1..], u);
    }
  }

  function Empty(limit: int): State
  {
    State(limit, map[], map[])
  }

  /** In every interleaving of any number of requests: the stored count is the number of
      owned slots plus the requests just being refused, an account never owns more slots
      than the limit, and no release ever has to lift a negative count back to zero. */
  lemma SlotsBounded(limit: int, steps: seq<Step>, s: State, a: Account)
    requires limit > 0 && Run(Empty(limit), steps, s) && IdleExpiry(Empty(limit), steps)
    ensures Counter(s, a) == Slots(s, a) + Passing(s, a)
    ensures Slots(s, a) <= limit
    ensures forall id :: id in s.reqs ==> !s.reqs[id].phase.Flooring?
  {
    EmptyInv(limit);
    RunKeeps(Empty(limit), steps, s);
    RunLimit(Empty(limit), steps, s);
  }

  // ---- leaks and the expiry that heals them -------------------------------------------

  /** A slot whose owner can still release it. */
  function LiveOf(a: Account): Request -> bool
  {
    (q: Request) => q.account == Some(a) && Owns(q) && !q.phase.Gone?
  }

  function LiveSlots(s: State, a: Account): nat
  {
    |Ids(s.reqs, LiveOf(a))|
  }

  predicate Abandoned(q: Request)
  {
    q.phase == Gone(Dropped)
  }

  function Without(s: State, healed: set<Id>): State
  {
    s.(reqs := s.reqs - healed)
  }

  /** Leaving out some dropped requests, whose slots an expiry has given back, the invariant holds. */
  ghost predicate Heals(s: State, healed: set<Id>)
  {
    (forall id :: id in healed ==> id in s.reqs && Abandoned(s.reqs[id])) && Inv(Without(s, healed))
  }

  /** Every count that expires does so while no live request of the account is counted. */
  ghost predicate LiveExpiry(s: State, steps: seq<Step>)
    decreases |steps|
  {
    steps == [] ||
    (Enabled(s, steps[0]) ==>
       && (steps[0].Expire? ==> LiveSlots(s, steps[0].key) + Passing(s, steps[0].key) == 0)
       && LiveExpiry(Do(s, steps[0]), steps[1..]))
  }

  lemma StepHeals(s: State, healed: set<Id>, t: Step)
    requires s.limit > 0 && Heals(s, healed) && Enabled(s, t) && !t.Expire?
    ensures Heals(Do(s, t), healed)
  {
    var u := Without(s, healed);
    assert t.Act? ==> t.id in u.reqs && u.reqs[t.id] == s.reqs[t.id];
    StepKeeps(u, t);
    WithoutStep(s, healed, t);
  }

  lemma WithoutStep(s: State, healed: set<Id>, t: Step)
    requires Enabled(s, t) && Enabled(Without(s, healed), t) && !t.Expire? && t.id !in healed
    ensures Do(Without(s, healed), t) == Without(Do(s, t), healed)
  {
    var u := Without(s, healed);
    assert Do(u, t).reqs == Do(s, t).reqs - healed;
  }

  lemma SameOwners(s: State, x: set<Id>, y: set<Id>, b: Account)
    requires forall id :: id in s.reqs && s.reqs[id].account == Some(b) ==> (id in x <==> id in y)
    ensures Slots(Without(s, x), b) == Slots(Without(s, y), b) && Passing(Without(s, x), b) == Passing(Without(s, y), b)
  {
    assert Ids(Without(s, x).reqs, SlotOf(b)) == Ids(Without(s, y).reqs, SlotOf(b));
    assert Ids(Without(s, x).reqs, PassingOf(b)) == Ids(Without(s, y).reqs, PassingOf(b));
  }

  /** An expiry while no live request is counted gives back every leaked slot of the account. */
  lemma ExpiryHeals(s: State, healed: set<Id>, a: Account) returns (more: set<Id>)
    requires Heals(s, healed) && LiveSlots(s, a) + Passing(s, a) == 0
    ensures Heals(Do(s, Expire(a)), more)
    ensures forall id :: id in s.reqs && s.reqs[id].account == Some(a) && Abandoned(s.reqs[id]) ==> id in more
  {
    var leaked := set id | id in s.reqs && s.reqs[id].account == Some(a) && Abandoned(s.reqs[id]);
    more := healed + leaked;
    var u := Without(Do(s, Expire(a)), more);
    assert forall id :: id in u.reqs ==> id in Without(s, healed).reqs && Without(s, healed).reqs[id] == u.reqs[id];
    forall id | id in u.reqs && u.reqs[id].account == Some(a)
      ensures !SlotOf(a)(u.reqs[id]) && !PassingOf(a)(u.reqs[id])
    {
      assert LiveOf(a)(s.reqs[id]) ==> id in Ids(s.reqs, LiveOf(a));
      assert PassingOf(a)(s.reqs[id]) ==> id in Ids(s.reqs, PassingOf(a));
    }
    assert Ids(u.reqs, SlotOf(a)) == {} && Ids(u.reqs, PassingOf(a)) == {};
    forall b
      ensures Counter(u, b) == Slots(u, b) + Passing(u, b) && Slots(u, b) <= u.limit
    {
      if b != a {
        SameOwners(s, healed, more, b);
        assert Counter(u, b) == Counter(Without(s, healed), b);
        assert u.reqs == Without(s, more).reqs;
      } else {
        assert 0 <= Slots(Without(s, healed), a) <= s.limit;
      }
    }
  }

  lemma {:induction false} RunHeals(s: State, steps: seq<Step>, u: State, healed: set<Id>) returns (more: set<Id>)
    requires s.limit > 0 && Heals(s, healed) && Run(s, steps, u) && LiveExpiry(s, steps)
    ensures Heals(u, more)
    decreases |steps|
  {
    if steps == [] {
      return healed;
    }
    if steps[0].Expire? {
      more := ExpiryHeals(s, healed, steps[0].key);
    } else {
      StepHeals(s, healed, steps[0]);
      more := healed;
    }
    more := RunHeals(Do(s, steps[0]), steps[1..], u, more);
  }

  lemma HealedCounts(s: State, healed: set<Id>, a: Account)
    requires Heals(s, healed)
    ensures LiveSlots(s, a) <= Slots(Without(s, healed), a) <= Slots(s, a)
    ensures Passing(Without(s, healed), a) == Passing(s, a)
    ensures (forall id :: id in s.reqs && s.reqs[id].account == Some(a) && Abandoned(s.reqs[id]) ==> id in healed) ==>
              LiveSlots(s, a) == Slots(Without(s, healed), a)
  {
    var u := Without(s, healed);
    var live, some, all := Ids(s.reqs, LiveOf(a)), Ids(u.reqs, SlotOf(a)), Ids(s.reqs, SlotOf(a));
    assert live <= some <= all;
    SubsetSize(live, some);
    SubsetSize(some, all);
    assert Ids(u.reqs, PassingOf(a)) == Ids(s.reqs, PassingOf(a));
    if forall id :: id in s.reqs && s.reqs[id].account == Some(a) && Abandoned(s.reqs[id]) ==> id in healed {
      assert live == some;
    }
  }

  lemma SubsetSize(x: set<Id>, y: set<Id>)
    requires x <= y
    ensures |x| <= |y|
  {
    assert y == x + (y - x);
  }

  /** The same for runs in which leaked slots expire: the stored count lies between the slots whose owners
      are live and all owned ones, live owners never exceed the limit, and no release reads a negative count. */
  lemma LiveSlotsBounded(limit: int, steps: seq<Step>, s: State, a: Account)
    requires limit > 0 && Run(Empty(limit), steps, s) && LiveExpiry(Empty(limit), steps)
    ensures LiveSlots(s, a) + Passing(s, a) <= Counter(s, a) <= Slots(s, a) + Passing(s, a)
    ensures LiveSlots(s, a) <= limit
    ensures forall id :: id in s.reqs ==> !s.reqs[id].phase.Flooring?
  {
    EmptyInv(limit);
    assert Without(Empty(limit), {}) == Empty(limit);
    var healed := RunHeals(Empty(limit), steps, s, {});
    HealedCounts(s, healed, a);
    RunLimit(Empty(limit), steps, s);
    var u := Without(s, healed);
    forall id | id in s.reqs ensures !s.reqs[id].phase.Flooring? {
      assert id !in healed ==> id in u.reqs && u.reqs[id] == s.reqs[id];
    }
  }

  /** Right after an expiry with no live owner the count is again exactly the live owners plus the requests
      just being refused, however many slots had leaked. */
  lemma ExpiryRestores(limit: int, steps: seq<Step>, s: State, a: Account)
    requires limit > 0 && Run(Empty(limit), steps, s) && LiveExpiry(Empty(limit), steps)
    requires LiveSlots(s, a) + Passing(s, a) == 0
    ensures var u := Do(s, Expire(a)); Counter(u, a) == LiveSlots(u, a) + Passing(u, a)
    ensures exists healed :: Heals(Do(s, Expire(a)), healed) &&
              forall id :: id in s.reqs && s.reqs[id].account == Some(a) && Abandoned(s.reqs[id]) ==> id in healed
  {
    EmptyInv(limit);
    assert Without(Empty(limit), {}) == Empty(limit);
    var healed := RunHeals(Empty(limit), steps, s, {});
    var more := ExpiryHeals(s, healed, a);
    HealedCounts(Do(s, Expire(a)), more, a);
  }

  lemma EmptyInv(limit: int)
    requires limit > 0
    ensures Inv(Empty(limit))
  {
    assert forall b :: Ids(map[], SlotOf(b)) == {} && Ids(map[], PassingOf(b)) == {};
  }

  /** A request releases its slot at most once; when it is over it has done so exactly
      once, unless its generator was dropped before it was resumed past the role chunk:
      that slot is owned for ever. This holds whatever expires. */
  lemma SlotReleasedOnce(limit: int, steps: seq<Step>, s: State, id: Id)
    requires Run(Empty(limit), steps, s)
    requires id in s.reqs && s.reqs[id].account.Some?
    ensures var q := s.reqs[id];
            && q.releases <= 1
            && (q.phase.Gone? && !q.phase.end.TooMany? ==>
                 (q.releases == 1 <==> !q.phase.end.Dropped?) && (Owns(q) <==> q.phase.end.Dropped?))
  {
    RunSound(Empty(limit), steps, s);
  }

  /** Where the money is when a request is over: nothing was held, or the hold was given
      back and the job never queued, or the job is queued with its hold. A hold without
      a queued job remains only when both the dispatch and its release failed. */
  lemma HoldAccounted(limit: int, steps: seq<Step>, s: State, id: Id)
    requires Run(Empty(limit), steps, s)
    requires id in s.reqs
    ensures var q := s.reqs[id];
            && (q.hold.Freed? ==> !q.queued)
            && (q.phase.Gone? && q.hold.Freed? ==> q.phase.end == NotQueued(true))
            && (q.phase.Gone? && q.hold.Held? ==> q.queued || q.phase.end == NotQueued(false))
            && (q.phase.Gone? && q.phase.end == NotQueued(true) ==> !q.hold.Held? && !q.queued)
  {
    RunSound(Empty(limit), steps, s);
  }

  lemma {:induction false} RunLast(s: State, steps: seq<Step>, u: State, t: Step)
    requires Run(s, steps, u) && Enabled(u, t)
    ensures Run(s, steps + [t], Do(u, t))
    decreases |steps|
  {
    if steps == [] {
      assert Run(Do(s, t), [t][1..], Do(u, t));
      assert steps + [t] == [t];
    } else {
      RunLast(Do(s, steps[0]), steps[1..], u, t);
      assert (steps + [t])[1..] == steps[1..] + [t];
    }
  }

  /** A request without stream of account 7. */
  function Of7(phase: Phase, end: End, releases: nat): Request
  {
    Request(Some(7), false, phase, end, NoHold, false, releases)
  }

  lemma FillTheLimit() returns (steps: seq<Step>)
    ensures Run(Empty(1), steps, State(1, map[7 := 2], map[0 := Of7(Trying, Answered, 0), 1 := Of7(OverLimit, Answered, 0)]))
  {
    var s := Empty(1);
    steps := [];
    RunLast(Empty(1), steps, s, Arrive(0, Some(7), false));
    steps, s := steps + [Arrive(0, Some(7), false)], State(1, map[], map[0 := Of7(Arrived, Answered, 0)]);
    RunLast(Empty(1), steps, s, Act(0, Incr));
    steps, s := steps + [Act(0, Incr)], State(1, map[7 := 1], map[0 := Of7(Trying, Answered, 0)]);
    RunLast(Empty(1), steps, s, Arrive(1, Some(7), false));
    steps, s := steps + [Arrive(1, Some(7), false)], s.(reqs := s.reqs[1 := Of7(Arrived, Answered, 0)]);
    RunLast(Empty(1), steps, s, Act(1, Incr));
    steps := steps + [Act(1, Incr)];
    assert Do(s, Act(1, Incr)) == State(1, map[7 := 2], map[0 := Of7(Trying, Answered, 0), 1 := Of7(OverLimit, Answered, 0)]);
  }

  /** With a limit of one, request 2 is refused although no slot is owned: request 1 has
      counted itself and has not yet taken that back. */
  lemma RefusedWithoutOwners() returns (steps: seq<Step>, s: State)
    ensures Run(Empty(1), steps, s)
    ensures 2 in s.reqs && s.reqs[2].phase.OverLimit? && Slots(s, 7) == 0
  {
    steps := FillTheLimit();
    var other := Of7(OverLimit, Answered, 0);
    s := State(1, map[7 := 2], map[0 := Of7(Trying, Answered, 0), 1 := other]);
    RunLast(Empty(1), steps, s, Act(0, Authorize(false, false)));
    steps := steps + [Act(0, Authorize(false, false))];
    var denied := State(1, map[7 := 2], map[0 := Of7(Leaving, Unpaid, 0), 1 := other]);
    assert Do(s, Act(0, Authorize(false, false))) == denied;
    s := denied;
    RunLast(Empty(1), steps, s, Act(0, Decr));
    steps := steps + [Act(0, Decr)];
    var left := State(1, map[7 := 1], map[0 := Of7(Gone(Unpaid), Unpaid, 1), 1 := other]);
    assert Do(s, Act(0, Decr)) == left;
    s := left;
    RunLast(Empty(1), steps, s, Arrive(2, Some(7), false));
    steps := steps + [Arrive(2, Some(7), false)];
    s := s.(reqs := s.reqs[2 := Of7(Arrived, Answered, 0)]);
    RunLast(Empty(1), steps, s, Act(2, Incr));
    steps, s := steps + [Act(2, Incr)], Do(s, Act(2, Incr));
    assert Ids(s.reqs, SlotOf(7)) == {};
  }

  /** A request is turned away exactly when the owned slots and the requests being turned
      away at that moment fill the limit, in every interleaving. */
  lemma RefusedExactlyWhenFull(limit: int, steps: seq<Step>, s: State, id: Id)
    requires limit > 0 && Run(Empty(limit), steps, s) && IdleExpiry(Empty(limit), steps)
    requires Enabled(s, Act(id, Incr)) && s.reqs[id].account.Some?
    ensures var a := s.reqs[id].account.value;
            Do(s, Act(id, Incr)).reqs[id].phase.OverLimit? <==> Slots(s, a) + Passing(s, a) >= limit
  {
    var a := s.reqs[id].account.value;
    SlotsBounded(limit, steps, s, a);
    RunLimit(Empty(limit), steps, s);
  }

  lemma {:induction false} RunLimit(s: State, steps: seq<Step>, u: State)
    requires Run(s, steps, u)
    ensures u.limit == s.limit
    decreases |steps|
  {
    if steps != [] {
      RunLimit(Do(s, steps[0]), steps[1..], u);
    }
  }
}
