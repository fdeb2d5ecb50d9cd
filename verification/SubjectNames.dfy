// The two names of an app subject over whole runs: which transactions take them apart, and that the handlers
// issue none of these as long as nobody makes the legacy name behind their back.

module SubjectNames {

  import opened Common
  import opened AliasForest
  import opened Identities
  import opened Exchange
  import opened IdentityRuns

  /** A transaction of some request, decided on what had been read after the first `seen` transactions. */
  datatype Event = Event(op: Op, seen: nat)

  /** The database after the first `n` transactions. */
  function At(x: Db, h: seq<Event>, n: nat): Db
    requires n <= |h|
  {
    if n == 0 then x else Apply(At(x, h, n - 1), h[n - 1].op)
  }

  predicate Makes(op: Op, k: Key)
  {
    (op.DoAttach? && op.key == k) || (op.DoCreate? && k in op.keys)
  }

  /** Where the stable name was given out, the legacy one was nobody's when that was decided, or belonged to the
      family of the account. */
  ghost predicate Considerate(s: Db, op: Op, p: Key, l: Key)
  {
    match op
    case DoAttach(aid, k) => k == p && l in s.ident ==> Owner(s, l) == Root(s.alias, aid)
    case DoCreate(_, keys) => p in keys ==> l !in s.ident
    case _ => true
  }

  ghost predicate ConsiderateAt(x: Db, h: seq<Event>, i: nat, p: Key, l: Key)
    requires i < |h|
  {
    h[i].seen <= i && Considerate(At(x, h, h[i].seen), h[i].op, p, l)
  }

  ghost predicate SplitAt(x: Db, h: seq<Event>, i: nat, p: Key, l: Key)
    requires i <= |h|
  {
    Split(At(x, h, i), p, l)
  }

  ghost predicate StrayAt(x: Db, h: seq<Event>, i: nat, p: Key, l: Key)
    requires i < |h|
  {
    Stray(At(x, h, i), h[i].op, p, l)
  }

  // ---- runs of transactions -------------------------------------------------------------

  lemma {:induction false} AtReaches(x: Db, h: seq<Event>, m: nat, n: nat)
    requires Reachable(x) && m <= n <= |h|
    ensures Reachable(At(x, h, m)) && Reaches(At(x, h, m), At(x, h, n)) && Reachable(At(x, h, n))
    decreases n
  {
    if n == m {
      ReachesNothing(At(x, h, m));
      if n > 0 {
        AtReaches(x, h, n - 1, n - 1);
        ReachesByStep(At(x, h, n - 1), h[n - 1].op);
      }
    } else {
      AtReaches(x, h, m, n - 1);
      ReachesByStep(At(x, h, n - 1), h[n - 1].op);
      ReachesTransitive(At(x, h, m), At(x, h, n - 1), At(x, h, n));
    }
  }

  lemma {:induction false} StraySplitsNext(x: Db, h: seq<Event>, i: nat, p: Key, l: Key)
    requires Reachable(x) && p != l && i < |h| && !SplitAt(x, h, i, p, l)
    ensures SplitAt(x, h, i + 1, p, l) <==> StrayAt(x, h, i, p, l)
  {
    AtReaches(x, h, i, i);
    StraySplits(At(x, h, i), h[i].op, p, l);
  }

  /** The names of a subject are together at every point of a run if and only if no transaction of it was a stray
      one. */
  lemma {:induction false} TogetherExactly(x: Db, h: seq<Event>, n: nat, p: Key, l: Key)
    requires Reachable(x) && p != l && !Split(x, p, l) && n <= |h|
    ensures (forall i :: 0 <= i <= n ==> !SplitAt(x, h, i, p, l)) <==> (forall i :: 0 <= i < n ==> !StrayAt(x, h, i, p, l))
    decreases n
  {
    if n > 0 {
      TogetherExactly(x, h, n - 1, p, l);
      if !SplitAt(x, h, n - 1, p, l) {
        StraySplitsNext(x, h, n - 1, p, l);
      }
    }
  }

  lemma MadeBy(db: Db, op: Op, k: Key)
    requires k !in db.ident && k in Apply(db, op).ident
    ensures Makes(op, k)
  {
  }

  /** The transaction at which a login first appears between two points of a run. */
  lemma {:induction false} FirstMade(x: Db, h: seq<Event>, m: nat, n: nat, k: Key) returns (j: nat)
    requires m <= n <= |h| && k !in At(x, h, m).ident && k in At(x, h, n).ident
    ensures m <= j < n && k !in At(x, h, j).ident && k in At(x, h, j + 1).ident && Makes(h[j].op, k)
    decreases n
  {
    j := n - 1;
    if k in At(x, h, j).ident {
      j := FirstMade(x, h, m, j, k);
    } else {
      MadeBy(At(x, h, j), h[j].op, k);
    }
  }

  /** A considerate transaction that gives out the stable name takes the names apart only when another one made the
      legacy name after it was decided. */
  lemma {:induction false} StrayOnlyIfMade(x: Db, h: seq<Event>, i: nat, p: Key, l: Key) returns (j: nat)
    requires Reachable(x) && p != l && i < |h| && ConsiderateAt(x, h, i, p, l) && !Makes(h[i].op, l)
    requires StrayAt(x, h, i, p, l)
    ensures h[i].seen <= j < i && Makes(h[j].op, l) && l !in At(x, h, j).ident && l in At(x, h, j + 1).ident
  {
    var s, y := At(x, h, h[i].seen), At(x, h, i);
    AtReaches(x, h, h[i].seen, i);
    assert Parts(y, h[i].op, p, l);
    if l in s.ident {
      LoginOf(s, y, l);
      FamilyOf(s, y, h[i].op.aid);
    }
    j := FirstMade(x, h, h[i].seen, i, l);
  }

  /** When every transaction that gives out the stable name is considerate and nobody makes the legacy name, the two
      names are never at different owners. */
  lemma {:induction false} NamesTogether(x: Db, h: seq<Event>, p: Key, l: Key)
    requires Reachable(x) && p != l && !Split(x, p, l)
    requires forall i :: 0 <= i < |h| ==> ConsiderateAt(x, h, i, p, l) && !Makes(h[i].op, l)
    ensures forall i :: 0 <= i <= |h| ==> !SplitAt(x, h, i, p, l)
  {
    forall i | 0 <= i < |h| ensures !StrayAt(x, h, i, p, l) {
      if StrayAt(x, h, i, p, l) {
        var j := StrayOnlyIfMade(x, h, i, p, l);
      }
    }
    TogetherExactly(x, h, |h|, p, l);
  }

  /** A bridge sign-in of a subject that has the stable name, but not the legacy one, makes a second account. */
  lemma SignInApart(db: Db, uuid: Account, p: Key, l: Key)
    requires Reachable(db) && p != l && uuid !in db.accounts && l !in db.ident
    ensures Split(Create(db, uuid, {l}).0, p, l) <==> p in db.ident
  {
    NewIsApart(db, uuid, l, p);
  }

  // ---- one request among the others -------------------------------------------------------

  /** The subject that a request deals with, if any, is this one, or one with other names. */
  predicate Proper(mine: Option<(Key, Key)>, p: Key, l: Key)
  {
    mine.Some? ==> mine.value.0 != l && (mine.value.0 == p ==> mine.value.1 == l)
  }

  /** Requests of one service about other subjects, and of other services, deal with other names, as long as no
      service is called like an account. */
  lemma OtherSubjects(service: string, account: string, subject: string, service': string, account': string, subject': string)
    requires ':' !in service && ':' !in service' && ':' !in account'
    requires service != account' && (service == service' ==> account == account')
    ensures Proper(Some((AppKey(service, subject), AppKey(account, subject))), AppKey(service', subject'), AppKey(account', subject'))
  {
    if AppKey(service, subject) == AppKey(account', subject') {
      AppKeyInjective(service, subject, account', subject');
    }
    if AppKey(service, subject) == AppKey(service', subject') {
      AppKeyInjective(service, subject, service', subject');
    }
  }

  lemma DecidedIsConsiderate(s: Db, op: Op, mine: Option<(Key, Key)>, p: Key, l: Key)
    requires p.kind.App? && l.kind.App? && Proper(mine, p, l) && Decided(s, op, mine)
    ensures Considerate(s, op, p, l) && !Makes(op, l)
  {
  }

  /** What the others do at one await, each transaction with what it was decided on. */
  function Theirs(ops: seq<Op>, when: nat -> nat): (h: seq<Event>)
    ensures |h| == |ops|
  {
    if ops == [] then []
    else Theirs(ops[..|ops| - 1], when) + [Event(ops[|ops| - 1], when(|ops| - 1))]
  }

  /** All transactions, in order: those of the past, then those of a request and of the others at its awaits. */
  function Weave(past: seq<Event>, env: Schedule, when: nat -> nat -> nat, moves: seq<Move>): seq<Event>
    decreases |moves|
  {
    if moves == [] then past
    else
      var h, last := Weave(past, env, when, moves[..|moves| - 1]), moves[|moves| - 1];
      match last.act
      case Wait(at) => h + Theirs(env(at), when(at))
      case Own(op) =>
        h + [Event(op, if last.seen < |moves| then |Weave(past, env, when, moves[..last.seen])| else 0)]
  }

  /** It is one of the request's own. */
  ghost predicate OwnAt(past: seq<Event>, env: Schedule, when: nat -> nat -> nat, moves: seq<Move>, i: nat)
  {
    exists k :: 0 <= k < |moves| && moves[k].act.Own? && |Weave(past, env, when, moves[..k])| == i
  }

  lemma {:induction false} AtPrefix(x: Db, g: seq<Event>, h: seq<Event>, n: nat)
    requires g <= h && n <= |g|
    ensures At(x, g, n) == At(x, h, n)
    decreases n
  {
    if n > 0 {
      AtPrefix(x, g, h, n - 1);
    }
  }

  lemma {:induction false} RunLast(db: Db, ops: seq<Op>)
    requires ops != []
    ensures Run(db, ops) == Apply(Run(db, ops[..|ops| - 1]), ops[|ops| - 1])
  {
    var init, last := ops[..|ops| - 1], ops[|ops| - 1];
    RunConcat(db, init, [last]);
    RunOne(Run(db, init), last);
    assert init + [last] == ops;
  }

  lemma {:induction false} AtNext(x: Db, h: seq<Event>, e: Event)
    ensures At(x, h + [e], |h| + 1) == Apply(At(x, h, |h|), e.op)
  {
    AtPrefix(x, h, h + [e], |h|);
  }

  lemma {:induction false} AtTheirs(x: Db, h: seq<Event>, ops: seq<Op>, when: nat -> nat)
    ensures At(x, h + Theirs(ops, when), |h| + |ops|) == Run(At(x, h, |h|), ops)
    decreases |ops|
  {
    if ops == [] {
      assert h + Theirs(ops, when) == h;
    } else {
      var rest, e := ops[..|ops| - 1], Event(ops[|ops| - 1], when(|ops| - 1));
      var before := h + Theirs(rest, when);
      assert At(x, before, |before|) == Run(At(x, h, |h|), rest) by {
        AtTheirs(x, h, rest, when);
      }
      assert h + Theirs(ops, when) == before + [e];
      AtNext(x, before, e);
      RunLast(At(x, h, |h|), ops);
    }
  }

  lemma {:induction false} WeaveLast(x: Db, past: seq<Event>, env: Schedule, when: nat -> nat -> nat, moves: seq<Move>)
    requires moves != []
    ensures var (before, all, last) := (Weave(past, env, when, moves[..|moves| - 1]), Weave(past, env, when, moves), moves[|moves| - 1]);
            && before <= all
            && At(x, all, |all|) == Step(env)(At(x, before, |before|), last.act)
  {
    var before, last := Weave(past, env, when, moves[..|moves| - 1]), moves[|moves| - 1];
    match last.act
    case Wait(at) =>
      assert Weave(past, env, when, moves) == before + Theirs(env(at), when(at));
      AtTheirs(x, before, env(at), when(at));
    case Own(op) =>
      var e := Event(op, if last.seen < |moves| then |Weave(past, env, when, moves[..last.seen])| else 0);
      assert Weave(past, env, when, moves) == before + [e];
      AtNext(x, before, e);
  }

  /** After the first `k` moves the run is where the request is. */
  lemma {:induction false} WeaveAt(x: Db, past: seq<Event>, env: Schedule, when: nat -> nat -> nat, moves: seq<Move>, k: nat)
    requires k <= |moves|
    ensures var (part, all) := (Weave(past, env, when, moves[..k]), Weave(past, env, when, moves));
            && past <= part <= all
            && At(x, all, |part|) == Play(Step(env), At(x, past, |past|), moves[..k])
    decreases |moves|
  {
    if moves == [] {
      assert moves[..k] == [];
    } else {
      var init, all := moves[..|moves| - 1], Weave(past, env, when, moves);
      var before := Weave(past, env, when, init);
      WeaveLast(x, past, env, when, moves);
      if k < |moves| {
        WeaveAt(x, past, env, when, init, k);
        assert init[..k] == moves[..k];
        AtPrefix(x, before, all, |Weave(past, env, when, moves[..k])|);
      } else {
        WeaveAt(x, past, env, when, init, |init|);
        assert init[..|init|] == init && moves[..k] == moves;
      }
    }
  }

  /** Where an own transaction stands in the run, and what it was decided on. */
  lemma {:induction false} OwnEvent(x: Db, past: seq<Event>, env: Schedule, when: nat -> nat -> nat, moves: seq<Move>, k: nat)
    requires k < |moves| && moves[k].act.Own? && moves[k].seen <= k
    ensures var (all, part, read) := (Weave(past, env, when, moves), Weave(past, env, when, moves[..k]), Weave(past, env, when, moves[..moves[k].seen]));
            && |read| <= |part| < |all|
            && all[|part|] == Event(moves[k].act.op, |read|)
            && At(x, all, |read|) == Play(Step(env), At(x, past, |past|), moves[..moves[k].seen])
  {
    var seen := moves[k].seen;
    var part, next, read := Weave(past, env, when, moves[..k]), Weave(past, env, when, moves[..k + 1]), Weave(past, env, when, moves[..seen]);
    assert moves[..k + 1][..k] == moves[..k] && moves[..k + 1][..seen] == moves[..seen];
    assert next == part + [Event(moves[k].act.op, |read|)];
    assert next <= Weave(past, env, when, moves) by {
      WeaveAt(x, past, env, when, moves, k + 1);
    }
    assert read <= part by {
      WeaveAt(x, past, env, when, moves[..k], seen);
      assert moves[..k][..seen] == moves[..seen];
    }
    WeaveAt(x, past, env, when, moves, seen);
  }

  /** A request's own transactions are considerate, and none makes a legacy name. */
  lemma {:induction false} OwnIsConsiderate(x: Db, past: seq<Event>, env: Schedule, when: nat -> nat -> nat, moves: seq<Move>,
                         mine: Option<(Key, Key)>, p: Key, l: Key, k: nat)
    requires p.kind.App? && l.kind.App? && Proper(mine, p, l)
    requires AllDecided(Step(env), Fair(mine), At(x, past, |past|), moves)
    requires k < |moves| && moves[k].act.Own?
    ensures var (all, i) := (Weave(past, env, when, moves), |Weave(past, env, when, moves[..k])|);
            i < |all| && ConsiderateAt(x, all, i, p, l) && !Makes(all[i].op, l)
  {
    var start := At(x, past, |past|);
    assert DecidedAt(Step(env), Fair(mine), start, moves, k);
    OwnEvent(x, past, env, when, moves, k);
    DecidedIsConsiderate(Play(Step(env), start, moves[..moves[k].seen]), moves[k].act.op, mine, p, l);
  }

  /** However a request's moves are interleaved with the others: if their transactions are considerate and make no
      legacy name, the two names of the subject are never at different owners, and the run ends where the request
      does. */
  lemma {:induction false} RequestAmongOthers(x: Db, past: seq<Event>, env: Schedule, when: nat -> nat -> nat, moves: seq<Move>,
                           mine: Option<(Key, Key)>, p: Key, l: Key)
    requires Reachable(x) && p != l && p.kind.App? && l.kind.App? && Proper(mine, p, l) && !Split(x, p, l)
    requires AllDecided(Step(env), Fair(mine), At(x, past, |past|), moves)
    requires var all := Weave(past, env, when, moves);
             forall i :: 0 <= i < |all| && !OwnAt(past, env, when, moves, i) ==>
                           ConsiderateAt(x, all, i, p, l) && !Makes(all[i].op, l)
    ensures var all := Weave(past, env, when, moves);
            && (forall i :: 0 <= i <= |all| ==> !SplitAt(x, all, i, p, l))
            && At(x, all, |all|) == Play(Step(env), At(x, past, |past|), moves)
  {
    var all := Weave(past, env, when, moves);
    forall i | 0 <= i < |all| ensures ConsiderateAt(x, all, i, p, l) && !Makes(all[i].op, l) {
      if OwnAt(past, env, when, moves, i) {
        var k :| 0 <= k < |moves| && moves[k].act.Own? && |Weave(past, env, when, moves[..k])| == i;
        OwnIsConsiderate(x, past, env, when, moves, mine, p, l, k);
      }
    }
    NamesTogether(x, all, p, l);
    WeaveAt(x, past, env, when, moves, |moves|);
    assert moves[..|moves|] == moves;
  }

  /** A transaction of a request takes the names apart only when somebody made the legacy name after the request had
      read that it was nobody's. */
  lemma {:induction false} OwnStray(x: Db, past: seq<Event>, env: Schedule, when: nat -> nat -> nat, moves: seq<Move>,
                 mine: Option<(Key, Key)>, p: Key, l: Key, k: nat) returns (j: nat)
    requires Reachable(x) && p != l && p.kind.App? && l.kind.App? && Proper(mine, p, l)
    requires AllDecided(Step(env), Fair(mine), At(x, past, |past|), moves)
    requires k < |moves| && moves[k].act.Own?
    requires var (all, i) := (Weave(past, env, when, moves), |Weave(past, env, when, moves[..k])|);
             i < |all| && StrayAt(x, all, i, p, l)
    ensures var (all, i) := (Weave(past, env, when, moves), |Weave(past, env, when, moves[..k])|);
            && all[i].seen <= j < i && Makes(all[j].op, l)
            && l !in At(x, all, j).ident && l in At(x, all, j + 1).ident
  {
    OwnIsConsiderate(x, past, env, when, moves, mine, p, l, k);
    j := StrayOnlyIfMade(x, Weave(past, env, when, moves), |Weave(past, env, when, moves[..k])|, p, l);
  }

  /** So for every handler that issues its transactions as promised: its run among the others has no point at which
      the names of a subject are at different owners. */
  lemma {:induction false} HandlerAmongOthers(x: Db, past: seq<Event>, env: Schedule, when: nat -> nat -> nat, db: Db,
                           mine: Option<(Key, Key)>, p: Key, l: Key) returns (moves: seq<Move>)
    requires Reachable(x) && p != l && p.kind.App? && l.kind.App? && Proper(mine, p, l) && !Split(x, p, l)
    requires Issues(env, At(x, past, |past|), db, mine)
    ensures var all := Weave(past, env, when, moves);
            && At(x, all, |all|) == db
            && ((forall i :: 0 <= i < |all| && !OwnAt(past, env, when, moves, i) ==>
                               ConsiderateAt(x, all, i, p, l) && !Makes(all[i].op, l)) ==>
                  forall i :: 0 <= i <= |all| ==> !SplitAt(x, all, i, p, l))
  {
    var start := At(x, past, |past|);
    moves :| Play(Step(env), start, moves) == db && AllDecided(Step(env), Fair(mine), start, moves);
    var all := Weave(past, env, when, moves);
    WeaveAt(x, past, env, when, moves, |moves|);
    assert moves[..|moves|] == moves;
    if forall i :: 0 <= i < |all| && !OwnAt(past, env, when, moves, i) ==>
                     ConsiderateAt(x, all, i, p, l) && !Makes(all[i].op, l) {
      RequestAmongOthers(x, past, env, when, moves, mine, p, l);
    }
  }
}
