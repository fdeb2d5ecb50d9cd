// The sign-in handlers. Each one is a series of lookups and transactions with an await before
// each of them; `env(i)` is what all other requests do at the i-th await, so a contract that
// holds for every `env` holds in every interleaving.

module Exchange {

  import opened Common
  import opened AliasForest
  import opened Identities

  type Schedule = nat -> seq<Op>

  /** Nothing else runs at these awaits. */
  ghost predicate QuietIn(env: Schedule, lo: nat, hi: nat)
  {
    forall i :: lo <= i < hi ==> env(i) == []
  }

  /** Nothing else runs while the handler does. */
  ghost predicate Quiet(env: Schedule)
  {
    forall i :: env(i) == []
  }

  /** Nothing else runs except at one await. */
  ghost predicate QuietBut(env: Schedule, at: nat)
  {
    forall i :: i != at ==> env(i) == []
  }

  /** Every login row names a live account. */
  ghost predicate LiveRows(db: Db)
  {
    forall k :: k in db.ident ==> !Retired(db.alias, db.ident[k])
  }

  ghost predicate Live(db: Db, a: Account)
  {
    a in db.accounts && !Retired(db.alias, a)
  }

  datatype Status = Ok | Conflict409 | Crash500

  datatype Answer = Token(account: Account) | Denied | Failed(status: Status)

  // ---- two logins apart ---------------------------------------------------------------

  /** Both logins have owners, and not the same. */
  ghost predicate Split(x: Db, j: Key, k: Key)
  {
    j in x.ident && k in x.ident && Owner(x, j) != Owner(x, k)
  }

  /** The accounts that owned the two logins at `x` were merged by the time of `y`. */
  ghost predicate Rejoined(x: Db, y: Db, j: Key, k: Key)
  {
    j in x.ident && k in x.ident && Root(y.alias, x.ident[j]) == Root(y.alias, x.ident[k])
  }

  // ---- what a request does ------------------------------------------------------------

  /** A handler waits while the others run, or runs a transaction of its own. */
  datatype Act = Wait(at: nat) | Own(op: Op)

  /** What a handler does, and after how many of its moves it had read what it decided that on. */
  datatype Move = Move(act: Act, seen: nat)

  /** What one act does while the others follow the schedule. */
  function Step(env: Schedule): (Db, Act) -> Db
  {
    (y: Db, act: Act) => if act.Wait? then Run(y, env(act.at)) else Apply(y, act.op)
  }

  function Play(step: (Db, Act) -> Db, x: Db, moves: seq<Move>): Db
  {
    if moves == [] then x else step(Play(step, x, moves[..|moves| - 1]), moves[|moves| - 1].act)
  }

  /** What a request about the subject of these two names (the stable and the legacy one), or about none, may do
      after reading `s`: of all app names it gives out only that stable one, to a new account when the legacy
      name is nobody's, and to an old one when the legacy name is nobody's or of the same family. */
  ghost predicate Decided(s: Db, op: Op, mine: Option<(Key, Key)>)
  {
    match op
    case DoAttach(aid, k) =>
      k.kind.App? ==> mine.Some? && k == mine.value.0 &&
                      (mine.value.1 in s.ident ==> Owner(s, mine.value.1) == Root(s.alias, aid))
    case DoCreate(_, keys) =>
      forall k :: k in keys && k.kind.App? ==> mine.Some? && k == mine.value.0 && mine.value.1 !in s.ident
    case _ => true
  }

  ghost function Fair(mine: Option<(Key, Key)>): (Db, Op) -> bool
  {
    (s: Db, op: Op) => Decided(s, op, mine)
  }

  ghost predicate DecidedAt(step: (Db, Act) -> Db, fair: (Db, Op) -> bool, x: Db, moves: seq<Move>, i: nat)
    requires i < |moves|
  {
    moves[i].act.Own? ==> moves[i].seen <= i && fair(Play(step, x, moves[..moves[i].seen]), moves[i].act.op)
  }

  ghost predicate AllDecided(step: (Db, Act) -> Db, fair: (Db, Op) -> bool, x: Db, moves: seq<Move>)
  {
    forall i :: 0 <= i < |moves| ==> DecidedAt(step, fair, x, moves, i)
  }

  /** A request leads from `x` to `y`, the others running at its awaits, and every transaction of its own is so
      decided. */
  ghost predicate Issues(env: Schedule, x: Db, y: Db, mine: Option<(Key, Key)>)
  {
    exists moves :: Play(Step(env), x, moves) == y && AllDecided(Step(env), Fair(mine), x, moves)
  }

  // ---- facts about two moments of one run -------------------------------------------

  lemma ForestAt(db: Db)
    requires Reachable(db)
    ensures Forest(db.alias)
  {
    ReachableInv(db);
  }

  /** An account and what it resolved to earlier are one family from then on. */
  lemma FamilyOf(x: Db, y: Db, a: Account)
    requires Reachable(x) && Reaches(x, y)
    ensures Root(y.alias, Root(x.alias, a)) == Root(y.alias, a)
  {
    ReachesGrows(x, y);
    assert SameFamily(x, y, a);
  }

  /** A login found at `x` belongs, at `y`, to the family of its owner at `x`. */
  lemma LoginOf(x: Db, y: Db, k: Key)
    requires Reachable(x) && Reaches(x, y) && k in x.ident
    ensures k in y.ident && Owner(y, k) == Root(y.alias, Owner(x, k))
  {
    ReachesGrows(x, y);
    assert SameLogin(x, y, k);
    assert SameFamily(x, y, x.ident[k]);
  }

  /** A live account is its own root and is found at once. */
  lemma LiveRoot(db: Db, a: Account)
    requires Reachable(db) && !Retired(db.alias, a)
    ensures Root(db.alias, a) == a && Canonical(db.alias, a) == Found(a)
  {
    ForestAt(db);
    OneHop(db.alias, a);
  }

  lemma RootAt(db: Db, a: Account)
    requires Reachable(db)
    ensures !Retired(db.alias, Root(db.alias, a)) && Root(db.alias, Root(db.alias, a)) == Root(db.alias, a)
  {
    ForestAt(db);
    RootIsLive(db.alias, a);
  }

  /** With live rows every login resolves, to the account it names. */
  lemma LiveLookup(db: Db, k: Key)
    requires Reachable(db) && LiveRows(db) && k in db.ident
    ensures Resolve(db, k) == Some(Found(db.ident[k])) && Owner(db, k) == db.ident[k] && Live(db, db.ident[k])
  {
    ReachableInv(db);
    LiveRoot(db, db.ident[k]);
  }

  lemma JoinLiveRows(db: Db, d: Account, s: Account)
    requires Reachable(db) && LiveRows(db) && d != s && Live(db, d) && Live(db, s)
    ensures LiveRows(Join(db, d, s)) && Live(Join(db, d, s), d)
    ensures Join(db, d, s).busy == db.busy && Join(db, d, s).accounts == db.accounts
  {
    ForestAt(db);
    Extend(db.alias, s, d);
  }

  lemma MergeJoins(db: Db, d: Account, s: Account)
    requires Reachable(db)
    ensures var (db', reply) := Merge(db, d, s);
            && Reaches(db, db') && Reachable(db')
            && (reply.Merged? || reply.Already? ==> Root(db'.alias, d) == Root(db'.alias, s))
            && (!reply.Merged? ==> db' == db)
            && !reply.Linked? && !reply.Taken?
  {
    ReachableInv(db);
    ReachesByStep(db, DoMerge(d, s));
    MergeFacts(db, d, s);
  }

  /** Two live accounts that exist: joined, unless they are one or busy. */
  lemma MergeLive(db: Db, d: Account, s: Account)
    requires Reachable(db) && Live(db, d) && Live(db, s) && d != s
    ensures Merge(db, d, s) == if d in db.busy || s in db.busy then (db, Refused) else (Join(db, d, s), Merged)
  {
    LiveRoot(db, d);
    LiveRoot(db, s);
  }

  /** A retired account is one row away from the account it was merged into. */
  lemma JoinLookup(db: Db, d: Account, s: Account)
    requires Reachable(db) && d != s && Live(db, d) && Live(db, s)
    ensures Canonical(Join(db, d, s).alias, s) == Found(d) && Canonical(Join(db, d, s).alias, d) == Found(d)
  {
    ForestAt(db);
    Extend(db.alias, s, d);
    OneHop(db.alias, s);
    OneHop(db.alias, d);
  }

  lemma RootExists(db: Db, a: Account)
    requires Reachable(db) && a in db.accounts
    ensures Live(db, Root(db.alias, a))
  {
    ReachableInv(db);
    RootAt(db, a);
  }

  // ---- the transactions of a request --------------------------------------------------

  /** The same moves, made after `n` others. */
  function Later(moves: seq<Move>, n: nat): (r: seq<Move>)
    ensures |r| == |moves|
  {
    seq(|moves|, i requires 0 <= i < |moves| => Move(moves[i].act, n + moves[i].seen))
  }

  lemma LaterOn(a: seq<Move>, b: seq<Move>, n: nat)
    requires n <= |b|
    ensures (a + Later(b, |a|))[..|a| + n] == a + Later(b[..n], |a|)
    ensures n < |b| ==> (a + Later(b, |a|))[|a| + n] == Move(b[n].act, |a| + b[n].seen)
  {
  }

  lemma {:induction false} PlayOn(step: (Db, Act) -> Db, x: Db, a: seq<Move>, b: seq<Move>)
    ensures Play(step, x, a + Later(b, |a|)) == Play(step, Play(step, x, a), b)
    decreases |b|
  {
    if b == [] {
      assert a + Later(b, |a|) == a;
    } else {
      var all := a + Later(b, |a|);
      PlayOn(step, x, a, b[..|b| - 1]);
      LaterOn(a, b, |b| - 1);
      assert all[..|all| - 1] == a + Later(b[..|b| - 1], |a|);
    }
  }

  lemma DecidedBefore(step: (Db, Act) -> Db, fair: (Db, Op) -> bool, x: Db, a: seq<Move>, all: seq<Move>, i: nat)
    requires a <= all && i < |a| && DecidedAt(step, fair, x, a, i)
    ensures DecidedAt(step, fair, x, all, i)
  {
    if a[i].act.Own? {
      assert all[..a[i].seen] == a[..a[i].seen];
    }
  }

  lemma PlayPart(step: (Db, Act) -> Db, x: Db, a: seq<Move>, b: seq<Move>, n: nat)
    requires n <= |b|
    ensures Play(step, x, (a + Later(b, |a|))[..|a| + n]) == Play(step, Play(step, x, a), b[..n])
  {
    LaterOn(a, b, n);
    PlayOn(step, x, a, b[..n]);
  }

  lemma DecidedAfter(step: (Db, Act) -> Db, fair: (Db, Op) -> bool, x: Db, a: seq<Move>, b: seq<Move>, j: nat)
    requires j < |b| && DecidedAt(step, fair, Play(step, x, a), b, j)
    ensures DecidedAt(step, fair, x, a + Later(b, |a|), |a| + j)
  {
    assert (a + Later(b, |a|))[|a| + j] == Move(b[j].act, |a| + b[j].seen) by {
      LaterOn(a, b, j);
    }
    if b[j].act.Own? {
      PlayPart(step, x, a, b, b[j].seen);
    }
  }

  lemma AllDecidedOn(step: (Db, Act) -> Db, fair: (Db, Op) -> bool, x: Db, a: seq<Move>, b: seq<Move>)
    requires AllDecided(step, fair, x, a) && AllDecided(step, fair, Play(step, x, a), b)
    ensures AllDecided(step, fair, x, a + Later(b, |a|))
  {
    var all := a + Later(b, |a|);
    forall i | 0 <= i < |all| ensures DecidedAt(step, fair, x, all, i) {
      if i < |a| {
        DecidedBefore(step, fair, x, a, all, i);
      } else {
        DecidedAfter(step, fair, x, a, b, i - |a|);
      }
    }
  }

  lemma AllDecidedWith(step: (Db, Act) -> Db, fair: (Db, Op) -> bool, x: Db, a: seq<Move>, op: Op)
    requires AllDecided(step, fair, x, a) && fair(x, op)
    ensures AllDecided(step, fair, x, a + [Move(Own(op), 0)])
    ensures Play(step, x, a + [Move(Own(op), 0)]) == step(Play(step, x, a), Own(op))
  {
    var all := a + [Move(Own(op), 0)];
    assert all[..|a|] == a && all[..0] == [];
    forall i | 0 <= i < |all| ensures DecidedAt(step, fair, x, all, i) {
      if i < |a| {
        DecidedBefore(step, fair, x, a, all, i);
      } else {
        assert all[i] == Move(Own(op), 0);
      }
    }
  }

  lemma AllDecidedWider(step: (Db, Act) -> Db, fair: (Db, Op) -> bool, fairer: (Db, Op) -> bool, x: Db, moves: seq<Move>)
    requires AllDecided(step, fairer, x, moves) && forall s, op :: fairer(s, op) ==> fair(s, op)
    ensures AllDecided(step, fair, x, moves)
  {
    forall i | 0 <= i < |moves| ensures DecidedAt(step, fair, x, moves, i) {
      assert DecidedAt(step, fairer, x, moves, i);
    }
  }

  lemma IssuesNothing(env: Schedule, x: Db)
    ensures forall mine :: Issues(env, x, x, mine)
  {
    forall mine ensures Issues(env, x, x, mine) {
      assert Play(Step(env), x, []) == x && AllDecided(Step(env), Fair(mine), x, []);
    }
  }

  lemma IssuesWider(env: Schedule, x: Db, y: Db, mine: Option<(Key, Key)>)
    requires Issues(env, x, y, None)
    ensures Issues(env, x, y, mine)
  {
    var moves :| Play(Step(env), x, moves) == y && AllDecided(Step(env), Fair(None), x, moves);
    AllDecidedWider(Step(env), Fair(mine), Fair(None), x, moves);
  }

  lemma IssuesChain(env: Schedule, x: Db, y: Db, z: Db, mine: Option<(Key, Key)>)
    requires Issues(env, x, y, mine) || Issues(env, x, y, None)
    requires Issues(env, y, z, mine) || Issues(env, y, z, None)
    ensures Issues(env, x, z, mine)
  {
    if Issues(env, x, y, None) { IssuesWider(env, x, y, mine); }
    if Issues(env, y, z, None) { IssuesWider(env, y, z, mine); }
    var a :| Play(Step(env), x, a) == y && AllDecided(Step(env), Fair(mine), x, a);
    var b :| Play(Step(env), y, b) == z && AllDecided(Step(env), Fair(mine), y, b);
    PlayOn(Step(env), x, a, b);
    AllDecidedOn(Step(env), Fair(mine), x, a, b);
  }

  /** A transaction decided on `x` runs after whatever came in between. */
  lemma IssuesLater(env: Schedule, x: Db, y: Db, op: Op, mine: Option<(Key, Key)>)
    requires Issues(env, x, y, mine) || Issues(env, x, y, None)
    requires Decided(x, op, mine)
    ensures Issues(env, x, Apply(y, op), mine)
  {
    if Issues(env, x, y, None) { IssuesWider(env, x, y, mine); }
    var a :| Play(Step(env), x, a) == y && AllDecided(Step(env), Fair(mine), x, a);
    AllDecidedWith(Step(env), Fair(mine), x, a, op);
    assert Step(env)(y, Own(op)) == Apply(y, op);
  }

  /** The same with an await in between. */
  lemma NameGiven(env: Schedule, x: Db, y: Db, z: Db, op: Op, mine: Option<(Key, Key)>)
    requires Issues(env, x, y, mine) || Issues(env, x, y, None)
    requires Issues(env, y, z, None)
    requires Decided(x, op, mine)
    ensures Issues(env, x, Apply(z, op), mine)
  {
    IssuesChain(env, x, y, z, mine);
    IssuesLater(env, x, z, op, mine);
  }

  lemma IssuesStep(env: Schedule, x: Db, op: Op, mine: Option<(Key, Key)>)
    requires Decided(x, op, mine)
    ensures Issues(env, x, Apply(x, op), mine)
  {
    IssuesNothing(env, x);
    IssuesLater(env, x, x, op, mine);
  }

  lemma Meanwhile(db: Db, env: Schedule, at: nat)
    requires Reachable(db)
    ensures var next := Run(db, env(at)); Reaches(db, next) && Reachable(next) && Issues(env, db, next, None)
  {
    var wait := [Move(Wait(at), 0)];
    assert wait[..0] == [] && Step(env)(db, Wait(at)) == Run(db, env(at));
    assert Play(Step(env), db, wait) == Run(db, env(at)) && AllDecided(Step(env), Fair(None), db, wait);
    ReachesByRun(db, env(at));
  }

  /** `await`: the other requests run. */
  method Await(ghost start: Db, db: Db, env: Schedule, at: nat) returns (next: Db)
    requires Reachable(start) && Reaches(start, db)
    ensures next == Run(db, env(at)) && (env(at) == [] ==> next == db)
    ensures Reaches(start, next) && Reachable(db) && Reachable(next) && Reaches(db, next)
    ensures Issues(env, db, next, None)
    ensures forall mine :: Issues(env, start, db, mine) ==> Issues(env, start, next, mine)
  {
    ReachesTransitive(EMPTY, start, db);
    Meanwhile(db, env, at);
    next := Run(db, env(at));
    ReachesTransitive(start, db, next);
    forall mine | Issues(env, start, db, mine) ensures Issues(env, start, next, mine) {
      IssuesChain(env, start, db, next, mine);
    }
  }

  // ---- services called by the handlers ----------------------------------------------

  /** `merge_accounts`: two lookups, then the transaction. */
  method MergeAccounts(db0: Db, destination: Account, source: Account, env: Schedule, at: nat)
    returns (db: Db, reply: Reply)
    requires Reachable(db0)
    ensures Reaches(db0, db) && Reachable(db)
    ensures reply.Merged? || reply.Already? ==> Root(db.alias, destination) == Root(db.alias, source)
    ensures !reply.Linked? && !reply.Taken?
    ensures Issues(env, db0, db, None)
    ensures var (d, s) := (Root(db0.alias, destination), Root(db0.alias, source));
            QuietIn(env, at, at + 2) && Canonical(db0.alias, destination).Found? && Canonical(db0.alias, source).Found?
            && destination in db0.accounts && source in db0.accounts ==>
              && !reply.Fault?
              && (if reply.Merged? then d != s && db == Join(db0, d, s) else db == db0)
              && (reply.Already? <==> d == s)
              && (reply.Refused? ==> d in db0.busy || s in db0.busy)
  {
    ReachesNothing(db0);
    IssuesNothing(env, db0);
    var d := Canonical(db0.alias, destination);
    if !d.Found? {
      return db0, Fault;
    }
    db := Await(db0, db0, env, at);
    ghost var db1 := db;
    FamilyOf(db0, db1, destination);
    RootAt(db1, source);
    var s := Canonical(db.alias, source);
    if !s.Found? {
      return db, Fault;
    }
    if d.account == s.account {
      return db, Already(d.account);
    }
    db := Await(db0, db, env, at + 1);
    ghost var db2 := db;
    MergeJoins(db2, d.account, s.account);
    IssuesStep(env, db2, DoMerge(d.account, s.account), None);
    if destination in db0.accounts && source in db0.accounts && db1 == db0 && db2 == db0 {
      RootExists(db0, destination);
      RootExists(db0, source);
      MergeLive(db0, d.account, s.account);
    }
    var result := Merge(db, d.account, s.account);
    db, reply := result.0, result.1;
    ReachesTransitive(db1, db2, db);
    ReachesTransitive(db0, db1, db);
    IssuesChain(env, db0, db2, db, None);
    FamilyOf(db0, db, destination);
    FamilyOf(db1, db, source);
  }

  /** `attach_identity`: one lookup, then the transaction. */
  method AttachIdentity(db0: Db, account: Account, k: Key, env: Schedule, at: nat)
    returns (db: Db, reply: Reply)
    requires Reachable(db0)
    ensures Reaches(db0, db) && Reachable(db)
    ensures reply.Linked? || reply.Already? ==> k in db.ident && Owner(db, k) == Root(db.alias, account)
    ensures reply.Taken? ==> k in db.ident && Owner(db, k) == reply.owner
    ensures !reply.Merged? && !reply.Refused?
    ensures var others := Run(db0, env(at));
            if Canonical(db0.alias, account).Found?
            then Reaches(db0, others) && Reachable(others) && Reaches(others, db) && (db, reply) == Attach(others, Root(db0.alias, account), k)
            else db == db0 && reply == Fault
    ensures !k.kind.App? ==> Issues(env, db0, db, None)
    ensures Issues(env, db0, Run(db0, env(at)), None)
    ensures Root(Run(db0, env(at)).alias, Root(db0.alias, account)) == Root(Run(db0, env(at)).alias, account)
  {
    ReachesNothing(db0);
    IssuesNothing(env, db0);
    var aid := Canonical(db0.alias, account);
    Meanwhile(db0, env, at);
    FamilyOf(db0, Run(db0, env(at)), account);
    if !aid.Found? {
      return db0, Fault;
    }
    db := Await(db0, db0, env, at);
    ghost var db1 := db;
    ReachesByStep(db1, DoAttach(aid.account, k));
    FamilyOf(db0, db1, account);
    if k in db1.ident {
      RootAt(db1, db1.ident[k]);
    }
    var result := Attach(db, aid.account, k);
    db, reply := result.0, result.1;
    ReachesTransitive(db0, db1, db);
    if !k.kind.App? {
      IssuesStep(env, db1, DoAttach(aid.account, k), None);
      IssuesChain(env, db0, db1, db, None);
    }
  }

  /** The same for a name of an app subject, on what was read at `x` about the other name. */
  method GiveName(ghost x: Db, db0: Db, account: Account, k: Key, ghost legacy: Key, env: Schedule, at: nat)
    returns (db: Db, reply: Reply)
    requires Reachable(db0)
    ensures Reaches(db0, db) && Reachable(db)
    ensures reply.Linked? || reply.Already? ==> k in db.ident && Owner(db, k) == Root(db.alias, account)
    ensures reply.Taken? ==> k in db.ident && Owner(db, k) == reply.owner
    ensures !reply.Merged? && !reply.Refused?
    ensures var others := Run(db0, env(at));
            if Canonical(db0.alias, account).Found?
            then Reaches(db0, others) && Reachable(others) && Reaches(others, db) && (db, reply) == Attach(others, Root(db0.alias, account), k)
            else db == db0 && reply == Fault
    ensures Issues(env, x, db0, Some((k, legacy))) && Decided(x, DoAttach(Root(db0.alias, account), k), Some((k, legacy))) ==>
              Issues(env, x, db, Some((k, legacy)))
  {
    db, reply := AttachIdentity(db0, account, k, env, at);
    ghost var op := DoAttach(Root(db0.alias, account), k);
    if Canonical(db0.alias, account).Found? && Issues(env, x, db0, Some((k, legacy))) && Decided(x, op, Some((k, legacy))) {
      NameGiven(env, x, db0, Run(db0, env(at)), op, Some((k, legacy)));
    }
  }

  /** `create_account` together with its logins. */
  method CreateFor(db0: Db, uuid: Account, keys: set<Key>) returns (db: Db, created: bool)
    requires Reachable(db0)
    ensures Reaches(db0, db) && Reachable(db)
    ensures created <==> uuid !in db0.accounts && forall k :: k in keys ==> k !in db0.ident
    ensures !created ==> db == db0
    ensures db == Create(db0, uuid, keys).0
    ensures created ==> Live(db, uuid) && forall k :: k in keys ==> k in db.ident && Owner(db, k) == Root(db.alias, uuid)
    ensures created && LiveRows(db0) ==> LiveRows(db)
    ensures forall k :: k in db.ident <==> k in db0.ident || (created && k in keys)
    ensures db.alias == db0.alias && db.busy == db0.busy && forall k :: k in db0.ident ==> db.ident[k] == db0.ident[k]
  {
    ReachesByStep(db0, DoCreate(uuid, keys));
    ReachableInv(db0);
    var result := Create(db0, uuid, keys);
    db, created := result.0, result.1.Linked?;
  }

  // ---- application subjects -----------------------------------------------------------

  /** A subject in the namespace of a service, or of its account for the legacy name. */
  function AppKey(namespace: string, subject: string): Key
  {
    Key(App, namespace + ":" + subject)
  }

  /** Namespaces without a colon never share a name. */
  lemma AppKeyInjective(n: string, s: string, m: string, t: string)
    requires ':' !in n && ':' !in m
    requires AppKey(n, s) == AppKey(m, t)
    ensures n == m && s == t
  {
    var x := n + ":" + s;
    assert x == m + ":" + t;
    assert forall i :: 0 <= i < |n| ==> x[i] == n[i] && n[i] in n;
    assert forall i :: 0 <= i < |m| ==> x[i] == m[i] && m[i] in m;
    assert x[|n|] == x[|m|] == ':';
    assert n == x[..|n|] && m == x[..|m|];
    assert s == x[|n| + 1..] && t == x[|m| + 1..];
  }

  /** A legacy name never stands alone, or apart. */
  ghost predicate Settled(db: Db, primary: Key, legacy: Key)
  {
    legacy in db.ident ==> primary in db.ident && Owner(db, primary) == Owner(db, legacy)
  }

  /** The names are settled at `db`, unless others had split them at `x` and they were not joined since. */
  ghost predicate SettledSince(x: Db, db: Db, primary: Key, legacy: Key)
  {
    Settled(db, primary, legacy) <==> !Split(x, primary, legacy) || Rejoined(x, db, primary, legacy)
  }

  lemma OwnerLives(db: Db, k: Key)
    requires Reachable(db) && k in db.ident
    ensures Live(db, Owner(db, k))
  {
    ReachableInv(db);
    RootExists(db, db.ident[k]);
  }

  /** The lookup of a login gives up. */
  predicate Lost(db: Db, k: Key)
  {
    k in db.ident && !Canonical(db.alias, db.ident[k]).Found?
  }

  /** Whose subject it is while nothing else happens: the stable name decides, then the legacy one. */
  function FirstOwner(db: Db, primary: Key, legacy: Key): Option<Account>
  {
    if primary in db.ident then Some(Owner(db, primary))
    else if legacy in db.ident then Some(Owner(db, legacy))
    else None
  }

  /** What resolving a subject leaves while nothing else happens. */
  function Reconciled(db: Db, primary: Key, legacy: Key): Db
  {
    if legacy !in db.ident then db
    else if primary !in db.ident then db.(ident := db.ident[primary := Owner(db, legacy)])
    else if Owner(db, primary) == Owner(db, legacy) then db
    else Join(db, Owner(db, primary), Owner(db, legacy))
  }

  /** Resolving a subject can retire an account only in favour of the owner of its stable name. */
  function Absorbed(db: Db, primary: Key, legacy: Key, a: Account): Account
  {
    if primary in db.ident && legacy in db.ident && db.ident[legacy] == a then db.ident[primary] else a
  }

  lemma ReconciledLookup(db: Db, primary: Key, legacy: Key, a: Account)
    requires Reachable(db) && LiveRows(db) && Live(db, a)
    ensures var y := Reconciled(db, primary, legacy);
            Canonical(y.alias, a) == Found(Absorbed(db, primary, legacy, a)) && a in y.accounts
  {
    LiveRoot(db, a);
    if primary in db.ident { LiveLookup(db, primary); }
    if legacy in db.ident { LiveLookup(db, legacy); }
    if primary in db.ident && legacy in db.ident && db.ident[primary] != db.ident[legacy] {
      JoinLookup(db, db.ident[primary], db.ident[legacy]);
      ForestAt(db);
      Extend(db.alias, db.ident[legacy], db.ident[primary]);
      OneHop(db.alias, a);
    }
  }

  /** The branch of `_resolve_service_app_identity` where both names have owners: their
      accounts are merged and the survivor is looked up. */
  method MergeNamespaces(db0: Db, primaryOwner: Account, legacyOwner: Account, env: Schedule, at: nat)
    returns (db: Db, owner: Account, status: Status)
    requires Reachable(db0)
    ensures Reaches(db0, db) && Reachable(db)
    ensures status.Ok? ==> owner == Root(db.alias, primaryOwner) == Root(db.alias, legacyOwner)
    ensures Issues(env, db0, db, None)
    ensures QuietIn(env, at, at + 3) && Live(db0, primaryOwner) && Live(db0, legacyOwner) && primaryOwner != legacyOwner ==>
              if status.Ok? then db == Join(db0, primaryOwner, legacyOwner) && owner == primaryOwner
              else status.Conflict409? && db == db0 && db0.busy != {}
  {
    if Live(db0, primaryOwner) { LiveRoot(db0, primaryOwner); }
    if Live(db0, legacyOwner) { LiveRoot(db0, legacyOwner); }
    var reply;
    db, reply := MergeAccounts(db0, primaryOwner, legacyOwner, env, at);
    if reply.Refused? {
      return db, 0, Conflict409;
    }
    if reply.Fault? {
      return db, 0, Crash500;
    }
    ghost var db1 := db;
    db := Await(db0, db, env, at + 2);
    FamilyOf(db1, db, primaryOwner);
    FamilyOf(db1, db, legacyOwner);
    if Live(db0, primaryOwner) && Live(db0, legacyOwner) && primaryOwner != legacyOwner {
      JoinLookup(db0, primaryOwner, legacyOwner);
    }
    var current := Canonical(db.alias, primaryOwner);
    if !current.Found? {
      return db, 0, Crash500;
    }
    return db, current.account, Ok;
  }

  /** The branch where only the legacy name has an owner, who gets the stable name. */
  method AttachPrimary(db0: Db, primary: Key, legacy: Key, owner0: Account, env: Schedule, at: nat)
    returns (db: Db, owner: Account, status: Status)
    requires Reachable(db0) && legacy in db0.ident && Owner(db0, legacy) == Root(db0.alias, owner0)
    ensures Reaches(db0, db) && Reachable(db)
    ensures status.Ok? ==> primary in db.ident && Owner(db, primary) == Root(db.alias, owner)
    ensures var others := Run(db0, env(at));
            status.Ok? ==> SettledSince(others, db, primary, legacy)
    ensures Issues(env, db0, db, Some((primary, legacy))) && !status.Conflict409?
    ensures var attached := Attach(Run(db0, env(at)), Root(db0.alias, owner0), primary);
            Canonical(db0.alias, owner0).Found? && env(at + 2) == [] ==>
              db == attached.0 && (status.Ok? <==> !attached.1.Fault?)
    ensures QuietIn(env, at, at + 3) && Live(db0, owner0) && primary !in db0.ident ==>
              && status.Ok? && owner == owner0 && db == db0.(ident := db0.ident[primary := owner0])
  {
    if Live(db0, owner0) { LiveRoot(db0, owner0); }
    RootAt(db0, owner0);
    IssuesNothing(env, db0);
    var reply;
    db, reply := GiveName(db0, db0, owner0, primary, legacy, env, at);
    owner := owner0;
    status := if reply.Fault? then Crash500 else Ok;
    if !reply.Fault? {
      ghost var others := Run(db0, env(at));
      LoginOf(db0, others, legacy);
      FamilyOf(db0, others, owner0);
      if reply.Taken? {
        db, owner, status := LookAgain(db0, db, primary, legacy, env, at + 2);
      } else {
        LoginOf(others, db, legacy);
      }
    }
  }

  /** Another request has the stable name, so its owner is looked up. */
  method LookAgain(ghost x: Db, db0: Db, primary: Key, legacy: Key, env: Schedule, at: nat)
    returns (db: Db, owner: Account, status: Status)
    requires Reachable(x) && Reaches(x, db0) && Reachable(db0) && Issues(env, x, db0, Some((primary, legacy)))
    requires primary in db0.ident && legacy in db0.ident
    ensures Reaches(x, db) && Reachable(db) && Issues(env, x, db, Some((primary, legacy)))
    ensures status.Ok? ==> primary in db.ident && Owner(db, primary) == Root(db.alias, owner)
    ensures SettledSince(db0, db, primary, legacy)
    ensures env(at) == [] && Canonical(db0.alias, db0.ident[primary]).Found? ==> db == db0 && status.Ok?
    ensures !status.Conflict409?
  {
    db := Await(x, db0, env, at);
    LoginOf(db0, db, primary);
    LoginOf(db0, db, legacy);
    FamilyOf(db0, db, db0.ident[primary]);
    FamilyOf(db0, db, db0.ident[legacy]);
    RootAt(db, db.ident[primary]);
    var again := Resolve(db, primary);
    if !again.value.Found? {
      return db, 0, Crash500;
    }
    return db, again.value.account, Ok;
  }

  /** The legacy name is looked up first after one await, and used after two more. */
  ghost function AtAttach(db0: Db, env: Schedule, at: nat): Db
  {
    Run(Run(Run(db0, env(at)), env(at + 1)), env(at + 2))
  }

  /** The outcome for a subject with its legacy name only, when others run up to the attach. */
  ghost predicate LegacyOutcome(db0: Db, db: Db, ok: bool, primary: Key, legacy: Key, env: Schedule, at: nat)
  {
    var (seen, next) := (Run(db0, env(at)), Run(Run(db0, env(at)), env(at + 1)));
    legacy in seen.ident && Canonical(seen.alias, seen.ident[legacy]).Found? && env(at + 4) == [] ==>
      && legacy in next.ident
      && (Canonical(next.alias, Owner(seen, legacy)).Found? ==>
            var attached := Attach(AtAttach(db0, env, at), Owner(next, legacy), primary);
            db == attached.0 && (ok <==> !attached.1.Fault?))
  }

  /** The rest when only the legacy name has an owner. */
  method SettleLegacy(db0: Db, primary: Key, legacy: Key, owner0: Account, env: Schedule, at: nat)
    returns (db: Db, owner: Account, status: Status)
    requires Reachable(db0) && legacy in db0.ident && Owner(db0, legacy) == owner0
    ensures Reaches(db0, db) && Reachable(db)
    ensures status.Ok? ==> primary in db.ident && Owner(db, primary) == Root(db.alias, owner)
    ensures var others := Run(Run(db0, env(at)), env(at + 1));
            status.Ok? ==> SettledSince(others, db, primary, legacy)
    ensures Issues(env, db0, db, Some((primary, legacy))) && !status.Conflict409?
    ensures var next := Run(db0, env(at));
            legacy in next.ident && (Canonical(next.alias, owner0).Found? && env(at + 3) == [] ==>
              var attached := Attach(Run(next, env(at + 1)), Owner(next, legacy), primary);
              db == attached.0 && (status.Ok? <==> !attached.1.Fault?))
    ensures QuietIn(env, at, at + 4) && primary !in db0.ident ==>
              && status.Ok? && owner == owner0 && db == db0.(ident := db0.ident[primary := owner0])
  {
    OwnerLives(db0, legacy);
    ReachesNothing(db0);
    IssuesNothing(env, db0);
    db := Await(db0, db0, env, at);
    ghost var next := db;
    LoginOf(db0, next, legacy);
    db, owner, status := AttachPrimary(db, primary, legacy, owner0, env, at + 1);
    ReachesTransitive(db0, next, db);
    IssuesChain(env, db0, next, db, Some((primary, legacy)));
  }

  /** The rest when both names have owners. */
  method SettleBoth(ghost x: Db, db0: Db, primary: Key, legacy: Key, primaryOwner: Account, legacyOwner: Account,
                    env: Schedule, at: nat)
    returns (db: Db, owner: Account, status: Status)
    requires Reachable(x) && Reaches(x, db0) && Reachable(db0)
    requires primary in x.ident && Owner(x, primary) == primaryOwner
    requires legacy in db0.ident && Owner(db0, legacy) == legacyOwner
    ensures Reaches(db0, db) && Reachable(db)
    ensures status.Ok? ==>
              && primary in db.ident && legacy in db.ident
              && Owner(db, primary) == Owner(db, legacy) == Root(db.alias, owner)
    ensures Issues(env, db0, db, None)
    ensures QuietIn(env, at, at + 4) && Live(db0, primaryOwner) && Live(db0, legacyOwner) && primaryOwner != legacyOwner ==>
              && (if status.Ok? then db == Join(db0, primaryOwner, legacyOwner) && owner == primaryOwner
                  else status.Conflict409? && db == db0 && db0.busy != {})
              && (LiveRows(db0) ==> LiveRows(db)) && db.accounts == db0.accounts && db.busy == db0.busy
  {
    ReachesNothing(db0);
    IssuesNothing(env, db0);
    db := Await(db0, db0, env, at);
    ghost var next := db;
    if LiveRows(db0) && Live(db0, primaryOwner) && Live(db0, legacyOwner) && primaryOwner != legacyOwner {
      JoinLiveRows(db0, primaryOwner, legacyOwner);
    }
    db, owner, status := MergeNamespaces(db, primaryOwner, legacyOwner, env, at + 1);
    ReachesTransitive(db0, next, db);
    ReachesTransitive(x, db0, db);
    IssuesChain(env, db0, next, db, None);
    LoginOf(x, db, primary);
    LoginOf(db0, db, legacy);
    RootAt(db, primaryOwner);
  }

  /** `_resolve_service_app_identity`: the owner of the stable name, absorbing the
      legacy name of the same subject. */
  method ResolveServiceApp(db0: Db, primary: Key, legacy: Key, env: Schedule, at: nat)
    returns (db: Db, owner: Option<Account>, status: Status)
    requires Reachable(db0)
    ensures Reaches(db0, db) && Reachable(db)
    ensures status.Ok? && owner.Some? ==> primary in db.ident && Owner(db, primary) == Root(db.alias, owner.value)
    ensures status.Ok? && owner.None? && primary != legacy ==> legacy !in db.ident
    ensures status.Ok? && primary in db0.ident ==> owner.Some? && Settled(db, primary, legacy)
    ensures primary !in db0.ident && primary != legacy && legacy !in Run(db0, env(at)).ident ==>
              status.Ok? && owner.None? && db == Run(db0, env(at))
    ensures status.Ok? && primary !in db0.ident && primary != legacy && legacy in Run(db0, env(at)).ident ==>
              owner.Some? && SettledSince(AtAttach(db0, env, at), db, primary, legacy)
    ensures primary !in db0.ident && primary != legacy ==>
              LegacyOutcome(db0, db, status.Ok?, primary, legacy, env, at) && !status.Conflict409?
    ensures Issues(env, db0, db, Some((primary, legacy)))
    ensures QuietIn(env, at, at + 5) ==>
              && (status.Ok? ==> owner == FirstOwner(db0, primary, legacy) && db == Reconciled(db0, primary, legacy))
              && (status.Conflict409? ==> db == db0 && db0.busy != {})
              && (status.Crash500? ==> db == db0) && (status.Crash500? <==> Lost(db0, primary) || Lost(db0, legacy))
              && (Settled(db0, primary, legacy) && !status.Crash500? ==> status.Ok? && db == db0)
    ensures QuietIn(env, at, at + 5) && LiveRows(db0) ==>
              && LiveRows(db) && !status.Crash500? && db.accounts == db0.accounts && db.busy == db0.busy
              && (status.Ok? ==> Settled(db, primary, legacy))
              && (status.Ok? ==> owner == if primary in db.ident then Some(db.ident[primary]) else None)
  {
    if primary in db0.ident {
      OwnerLives(db0, primary);
      if LiveRows(db0) { LiveLookup(db0, primary); }
    }
    if legacy in db0.ident {
      OwnerLives(db0, legacy);
      if LiveRows(db0) { LiveLookup(db0, legacy); }
    }
    ReachesNothing(db0);
    IssuesNothing(env, db0);
    db, owner, status := db0, None, Ok;
    var first := Resolve(db, primary);
    if first.Some? && !first.value.Found? {
      return db, None, Crash500;
    }
    db := Await(db0, db, env, at);
    ghost var seen := db;
    if primary in db0.ident { LoginOf(db0, seen, primary); }
    if legacy in seen.ident { RootAt(seen, seen.ident[legacy]); }
    var second := if legacy != primary then Resolve(db, legacy) else None;
    if second.Some? && !second.value.Found? {
      return db, None, Crash500;
    }
    if first.Some? && second.Some? && first.value.account != second.value.account {
      var survivor;
      db, survivor, status := SettleBoth(db0, db, primary, legacy, first.value.account, second.value.account, env, at + 1);
      ReachesTransitive(db0, seen, db);
      IssuesChain(env, db0, seen, db, Some((primary, legacy)));
      return db, Some(survivor), status;
    }
    if first.Some? {
      return db, Some(first.value.account), Ok;
    }
    if second.Some? {
      var account;
      db, account, status := SettleLegacy(db, primary, legacy, second.value.account, env, at + 1);
      ReachesTransitive(db0, seen, db);
      IssuesChain(env, db0, seen, db, Some((primary, legacy)));
      return db, Some(account), status;
    }
  }

  /** After a merge of its two owners the stable name is found as before; the legacy one too, unless its own lookup
      already took all the reads there are. */
  lemma MergedLookup(db: Db, primary: Key, legacy: Key)
    requires Reachable(db) && primary in db.ident && legacy in db.ident && !Lost(db, primary) && !Lost(db, legacy)
    requires Owner(db, primary) != Owner(db, legacy)
    ensures var y := Reconciled(db, primary, legacy);
            && primary in y.ident && legacy in y.ident && Owner(y, primary) == Owner(y, legacy) == Owner(db, primary)
            && !Lost(y, primary)
            && (Lost(y, legacy) <==> Depth(db.alias, db.ident[legacy]) == MAX_READS - 1)
  {
    var d, s := Owner(db, primary), Owner(db, legacy);
    OwnerLives(db, primary);
    OwnerLives(db, legacy);
    ForestAt(db);
    Extend(db.alias, s, d);
    OneHop(db.alias, d);
    OneHop(db.alias, s);
  }

  /** Resolving the same subject again changes nothing and gives the same owner; it fails only when the first
      resolution merged away an account whose legacy name was the full number of reads away. */
  method ResolveTwice(db0: Db, primary: Key, legacy: Key, env: Schedule)
    returns (first: Db, owner: Option<Account>, status: Status, second: Db, again: Option<Account>, status2: Status)
    requires Reachable(db0) && Quiet(env)
    ensures status.Ok? ==> second == first && (status2.Ok? ==> again == owner)
    ensures status.Ok? ==>
              (status2.Ok? <==> !(Split(db0, primary, legacy) && Depth(db0.alias, db0.ident[legacy]) == MAX_READS - 1))
    ensures db0.busy == {} ==> (status.Ok? <==> !Lost(db0, primary) && !Lost(db0, legacy))
  {
    first, owner, status := ResolveServiceApp(db0, primary, legacy, env, 0);
    second, again, status2 := ResolveServiceApp(first, primary, legacy, env, 5);
    if status.Ok? && legacy in db0.ident {
      OwnerLives(db0, legacy);
      LiveRoot(db0, Owner(db0, legacy));
      if Split(db0, primary, legacy) { MergedLookup(db0, primary, legacy); }
    }
  }

  /** The request leads from `x` to `y`, and at `x` it read that the legacy name was nobody's. */
  ghost predicate MayLink(env: Schedule, x: Db, y: Db, link: Option<Key>, legacy: Key)
  {
    && link.Some? && legacy !in x.ident && Issues(env, x, y, Some((link.value, legacy)))
  }

  /** The account is resolved once more and, if the subject had no owner, linked to it. */
  method FinishToken(ghost x: Db, db0: Db, account: Account, link: Option<Key>, ghost legacy: Key, env: Schedule, at: nat)
    returns (db: Db, status: Status, token: Account)
    requires Reachable(db0)
    ensures Reaches(db0, db) && Reachable(db)
    ensures status.Ok? ==> Root(db.alias, token) == Root(db.alias, account)
    ensures status.Ok? && link.Some? ==> link.value in db.ident && Owner(db, link.value) == Root(db.alias, token)
    ensures link.None? ==> Issues(env, db0, db, None)
    ensures MayLink(env, x, db0, link, legacy) ==> Issues(env, x, db, Some((link.value, legacy)))
    ensures QuietIn(env, at, at + 3) && LiveRows(db0) && Canonical(db0.alias, account).Found? && account in db0.accounts ==>
              && LiveRows(db) && !status.Crash500? && Live(db, token) && token == Root(db0.alias, account)
              && (link.None? ==> db == db0)
              && (link.None? || link.value !in db0.ident ==> status.Ok?)
  {
    if account in db0.accounts {
      RootExists(db0, account);
      LiveRoot(db0, Root(db0.alias, account));
    }
    ReachesNothing(db0);
    token, status := account, Ok;
    IssuesNothing(env, db0);
    db := Await(db0, db0, env, at);
    ghost var db1 := db;
    if MayLink(env, x, db0, link, legacy) {
      IssuesChain(env, x, db0, db1, Some((link.value, legacy)));
    }
    var canonical := Canonical(db.alias, account);
    if !canonical.Found? {
      return db, Crash500, account;
    }
    RootAt(db, account);
    token := canonical.account;
    if link.Some? {
      db, status := LinkSubject(x, db, token, link.value, legacy, env, at + 1);
      ReachesTransitive(db0, db1, db);
      FamilyOf(db1, db, account);
    }
  }

  /** The subject of a token is linked to its account. */
  method LinkSubject(ghost x: Db, db0: Db, token: Account, k: Key, ghost legacy: Key, env: Schedule, at: nat)
    returns (db: Db, status: Status)
    requires Reachable(db0)
    ensures Reaches(db0, db) && Reachable(db)
    ensures status.Ok? ==> k in db.ident && Owner(db, k) == Root(db.alias, token)
    ensures MayLink(env, x, db0, Some(k), legacy) ==> Issues(env, x, db, Some((k, legacy)))
    ensures QuietIn(env, at, at + 2) && LiveRows(db0) && Live(db0, token) ==>
              LiveRows(db) && Live(db, token) && !status.Crash500? && (k !in db0.ident ==> status.Ok?)
  {
    ReachesNothing(db0);
    if Live(db0, token) { LiveRoot(db0, token); }
    if LiveRows(db0) && k in db0.ident { LiveLookup(db0, k); }
    db := Await(db0, db0, env, at);
    ghost var db1 := db;
    if MayLink(env, x, db0, Some(k), legacy) {
      IssuesChain(env, x, db0, db1, Some((k, legacy)));
    }
    var reply;
    db, reply := GiveName(x, db, token, k, legacy, env, at + 1);
    status := if reply.Taken? then Conflict409 else if reply.Fault? then Crash500 else Ok;
    ReachesTransitive(db0, db1, db);
  }

  // ---- wallets ----------------------------------------------------------------------

  /** Peek, compare, verify the signature, consume. The await with other work in it is
      the signature check; the consuming read is atomic. */
  method ConsumeChallenge(db0: Db, nonce: Option<string>, expected: Challenge, signed: bool, env: Schedule, at: nat)
    returns (db: Db, ok: bool)
    requires Reachable(db0)
    ensures Reaches(db0, db) && Reachable(db)
    ensures !ok ==> db == db0 || db == Run(db0, env(at))
    ensures ok <==> nonce.Some? && nonce.value in db0.nonces && db0.nonces[nonce.value] == expected && signed &&
                    nonce.value in Run(db0, env(at)).nonces
    ensures ok ==> db == Apply(Run(db0, env(at)), Consume(nonce.value))
    ensures forall mine :: Issues(env, db0, db, mine)
  {
    ReachesNothing(db0);
    IssuesNothing(env, db0);
    if nonce.None? || nonce.value !in db0.nonces || db0.nonces[nonce.value] != expected {
      return db0, false;
    }
    db := Await(db0, db0, env, at);
    if !signed || nonce.value !in db.nonces {
      return db, false;
    }
    ghost var db1 := db;
    ReachesByStep(db, Consume(nonce.value));
    db, ok := db.(nonces := db.nonces - {nonce.value}), true;
    ReachesTransitive(db0, db1, db);
    forall mine ensures Issues(env, db0, db, mine) {
      IssuesStep(env, db1, Consume(nonce.value), mine);
      IssuesChain(env, db0, db1, db, mine);
    }
  }

  /** `wallet_verify` once the wallet is proved. */
  method SignIn(db0: Db, wallet: Key, uuid: Account, env: Schedule) returns (db: Db, answer: Answer)
    requires Reachable(db0) && wallet.kind.Wallet?
    ensures Reaches(db0, db) && Reachable(db)
    ensures answer.Token? ==> wallet in db.ident && Owner(db, wallet) == Root(db.alias, answer.account)
    ensures Issues(env, db0, db, None)
    ensures QuietIn(env, 1, 3) && LiveRows(db0) && uuid !in db0.accounts ==>
              LiveRows(db) && answer == Token(if wallet in db0.ident then db0.ident[wallet] else uuid)
  {
    ReachesNothing(db0);
    IssuesNothing(env, db0);
    db := Await(db0, db0, env, 1);
    var owner := Resolve(db, wallet);
    if owner.Some? {
      RootAt(db, db.ident[wallet]);
      if LiveRows(db) { LiveLookup(db, wallet); }
      return db, if owner.value.Found? then Token(owner.value.account) else Failed(Crash500);
    }
    db := Await(db0, db, env, 2);
    ghost var others := db;
    IssuesStep(env, others, DoCreate(uuid, {wallet}), None);
    var created;
    db, created := CreateFor(db, uuid, {wallet});
    ReachesTransitive(db0, others, db);
    IssuesChain(env, db0, others, db, None);
    answer := if created then Token(uuid) else Failed(Crash500);
  }

  /** `wallet_verify`: prove a wallet, then find or create its account. */
  method WalletVerify(db0: Db, address: string, message: string, nonce: Option<string>, signed: bool,
                      uuid: Account, env: Schedule)
    returns (db: Db, answer: Answer, consumed: bool)
    requires Reachable(db0)
    ensures Reaches(db0, db) && Reachable(db)
    ensures !consumed ==> answer == Denied && (db == db0 || db == Run(db0, env(0)))
    ensures consumed ==> signed && nonce.Some? && nonce.value in db0.nonces && db0.nonces[nonce.value] == Siwe(address, message)
    ensures answer.Token? ==> consumed && Key(Wallet, address) in db.ident &&
                              Owner(db, Key(Wallet, address)) == Root(db.alias, answer.account)
    ensures Issues(env, db0, db, None)
    ensures Quiet(env) && LiveRows(db0) && uuid !in db0.accounts ==>
              var wallet := Key(Wallet, address);
              && LiveRows(db)
              && (consumed <==> signed && nonce.Some? && nonce.value in db0.nonces && db0.nonces[nonce.value] == Siwe(address, message))
              && answer == if !consumed then Denied else Token(if wallet in db0.ident then db0.ident[wallet] else uuid)
  {
    db, consumed := ConsumeChallenge(db0, nonce, Siwe(address, message), signed, env, 0);
    if !consumed {
      return db, Denied, false;
    }
    ghost var proved := db;
    db, answer := SignIn(db, Key(Wallet, address), uuid, env);
    ReachesTransitive(db0, proved, db);
    IssuesChain(env, db0, proved, db, None);
  }

  /** `link_wallet` once the wallet is proved. */
  method LinkProved(db0: Db, account: Account, wallet: Key, env: Schedule) returns (db: Db, answer: Answer, reply: Reply)
    requires Reachable(db0) && wallet.kind.Wallet?
    ensures Reaches(db0, db) && Reachable(db)
    ensures answer.Token? && !reply.Taken? ==> wallet in db.ident && Owner(db, wallet) == Root(db.alias, account)
    ensures Issues(env, db0, db, None)
    ensures QuietIn(env, 1, 4) && LiveRows(db0) && Live(db0, account) && db0.busy == {} ==>
              answer == Token(account) && !reply.Taken? && LiveRows(db) && Live(db, account)
    ensures QuietIn(env, 1, 2) && Live(db0, account) && wallet !in db0.ident ==>
              && (db, reply) == Attach(Run(db0, env(2)), account, wallet)
              && (reply.Linked? ==> answer == Token(account))
  {
    IssuesNothing(env, db0);
    ReachesNothing(db0);
    var owner := Resolve(db0, wallet);
    if LiveRows(db0) && wallet in db0.ident { LiveLookup(db0, wallet); }
    if Live(db0, account) { LiveRoot(db0, account); }
    if owner.Some? && !owner.value.Found? {
      return db0, Failed(Crash500), Fault;
    }
    db := Await(db0, db0, env, 1);
    ghost var db1 := db;
    if owner.Some? && owner.value.account != account {
      if LiveRows(db1) && Live(db1, account) && Live(db1, owner.value.account) {
        JoinLiveRows(db1, account, owner.value.account);
        LiveRoot(db1, owner.value.account);
      }
      db, reply := MergeAccounts(db, account, owner.value.account, env, 2);
      ReachesTransitive(db0, db1, db);
      LoginOf(db0, db, wallet);
      FamilyOf(db0, db, db0.ident[wallet]);
    } else {
      db, reply := AttachIdentity(db, account, wallet, env, 2);
      ReachesTransitive(db0, db1, db);
    }
    IssuesChain(env, db0, db1, db, None);
    answer := if reply.Refused? then Failed(Conflict409) else if reply.Fault? then Failed(Crash500) else Token(account);
  }

  /** `link_wallet`: the nonce is spent first, then the signature is checked, and an
      attach conflict is part of the reply. */
  method LinkWallet(db0: Db, account: Account, address: string, nonce: string, signed: bool, env: Schedule)
    returns (db: Db, answer: Answer, reply: Reply)
    requires Reachable(db0)
    ensures Reaches(db0, db) && Reachable(db)
    ensures nonce !in db0.nonces ==> answer == Denied && db == db0
    ensures nonce in db0.nonces && !signed ==> answer == Denied && db == Run(Apply(db0, Consume(nonce)), env(0))
    ensures answer.Token? && !reply.Taken? ==> Key(Wallet, address) in db.ident &&
                                               Owner(db, Key(Wallet, address)) == Root(db.alias, account)
    ensures Issues(env, db0, db, None)
    ensures Quiet(env) && LiveRows(db0) && Live(db0, account) && db0.busy == {} && nonce in db0.nonces && signed ==>
              answer == Token(account) && !reply.Taken? && LiveRows(db) && Live(db, account)
    ensures QuietBut(env, 2) && Live(db0, account) && nonce in db0.nonces && signed && Key(Wallet, address) !in db0.ident ==>
              && (db, reply) == Attach(Run(Apply(db0, Consume(nonce)), env(2)), account, Key(Wallet, address))
              && (reply.Linked? ==> answer == Token(account))
  {
    ReachesNothing(db0);
    IssuesNothing(env, db0);
    db, reply := db0, Fault;
    if nonce !in db.nonces {
      return db, Denied, Fault;
    }
    ReachesByStep(db, Consume(nonce));
    db := db.(nonces := db.nonces - {nonce});
    ghost var db1 := db;
    IssuesStep(env, db0, Consume(nonce), None);
    db := Await(db0, db, env, 0);
    ghost var db2 := db;
    if !signed {
      return db, Denied, Fault;
    }
    db, answer, reply := LinkProved(db, account, Key(Wallet, address), env);
    ReachesTransitive(db0, db2, db);
    IssuesChain(env, db0, db2, db, None);
  }

  /** Two accounts, some nonces, no logins. */
  function Fresh(a: Account, b: Account, nonces: map<string, Challenge>): Db
  {
    EMPTY.(accounts := {a, b}, nonces := nonces)
  }

  lemma FreshReachable(a: Account, b: Account)
    requires a != b
    ensures Reachable(Fresh(a, b, map[]))
  {
    ReachesNothing(EMPTY);
    var one := EMPTY.(accounts := {a});
    assert Apply(EMPTY, DoCreate(a, {})) == one;
    ReachesByStep(EMPTY, DoCreate(a, {}));
    assert Apply(one, DoCreate(b, {})) == Fresh(a, b, map[]);
    ReachesByStep(one, DoCreate(b, {}));
  }

  lemma FreshIssued(a: Account, b: Account, nonces: map<string, Challenge>, n: string, c: Challenge)
    requires Reachable(Fresh(a, b, nonces))
    ensures Reachable(Fresh(a, b, nonces[n := c]))
  {
    assert Apply(Fresh(a, b, nonces), Issue(n, c)) == Fresh(a, b, nonces[n := c]);
    ReachesByStep(Fresh(a, b, nonces), Issue(n, c));
  }

  lemma RunOne(db: Db, op: Op)
    ensures Run(db, [op]) == Apply(db, op)
  {
    assert Run(Apply(db, op), [op][1..]) == Apply(db, op);
  }

  lemma FreshMerge(a: Account, b: Account)
    requires a != b
    ensures Run(Fresh(a, b, map[]), [DoMerge(b, a)]) == Fresh(a, b, map[]).(alias := [Alias(a, b)])
    ensures Next([Alias(a, b)], a) == Some(b) && Root([Alias(a, b)], a) == b
  {
    var db := Fresh(a, b, map[]);
    RunOne(db, DoMerge(b, a));
    assert Join(db, b, a) == db.(alias := [Alias(a, b)]);
    assert [Alias(a, b)][..0] == [];
  }

  /** A handler can leave a login on a retired account: while account a links a wallet, another request
      merges a into b. */
  method StaleLink(a: Account, b: Account, address: string, nonce: string) returns (db: Db, answer: Answer)
    requires a != b
    ensures answer == Token(a) && Key(Wallet, address) in db.ident && db.ident[Key(Wallet, address)] == a
    ensures Reachable(db) && Retired(db.alias, a) && Root(db.alias, a) == b
  {
    FreshReachable(a, b);
    FreshIssued(a, b, map[], nonce, Legacy);
    var db0 := Fresh(a, b, map[][nonce := Legacy]);
    var env: Schedule := i => if i == 2 then [DoMerge(b, a)] else [];
    FreshMerge(a, b);
    assert Apply(db0, Consume(nonce)) == Fresh(a, b, map[]);
    var reply;
    db, answer, reply := LinkWallet(db0, a, address, nonce, true, env);
  }

  /** The part of `exchange_wallet_identity` that gives the wallet to the owner of the app subject. A
      conflict reported by the attach is not looked at. */
  method ClaimWallet(db0: Db, account: Account, wallet: Key, walletOwner: Option<Account>, env: Schedule, at: nat)
    returns (db: Db, status: Status)
    requires Reachable(db0) && wallet.kind.Wallet?
    requires walletOwner.Some? ==> wallet in db0.ident && Owner(db0, wallet) == Root(db0.alias, walletOwner.value)
    ensures Reaches(db0, db) && Reachable(db)
    ensures status.Ok? ==> wallet in db.ident
    ensures status.Ok? && walletOwner.Some? ==> Owner(db, wallet) == Root(db.alias, account)
    ensures status.Ok? && walletOwner.None? ==>
              var others := Run(db0, env(at));
              && Reaches(db0, others) && Reachable(others) && Reaches(others, db)
              && (Owner(db, wallet) == Root(db.alias, account) <==>
                    wallet !in others.ident || Owner(others, wallet) == Root(others.alias, account))
              && (wallet in others.ident ==> db == others)
    ensures walletOwner.None? && Live(db0, account) ==>
              var (others, k) := (Run(db0, env(at)), wallet);
              (status.Ok? <==> !Attach(others, account, k).1.Fault?) && db == Attach(others, account, k).0
    ensures Issues(env, db0, db, None)
    ensures QuietIn(env, at, at + 2) && LiveRows(db0) && Live(db0, account) &&
            (if walletOwner.Some? then wallet in db0.ident && walletOwner.value == db0.ident[wallet] else wallet !in db0.ident) ==>
              LiveRows(db) && Live(db, account) && !status.Crash500? && (!status.Ok? ==> db0.busy != {})
  {
    ReachesNothing(db0);
    IssuesNothing(env, db0);
    if Live(db0, account) { LiveRoot(db0, account); }
    db, status := db0, Ok;
    if walletOwner.Some? && walletOwner.value != account {
      if LiveRows(db0) && Live(db0, account) && walletOwner.value == db0.ident[wallet] {
        LiveLookup(db0, wallet);
        JoinLiveRows(db0, account, walletOwner.value);
      }
      var reply;
      db, reply := MergeAccounts(db0, account, walletOwner.value, env, at);
      status := if reply.Refused? then Conflict409 else if reply.Fault? then Crash500 else Ok;
      LoginOf(db0, db, wallet);
      FamilyOf(db0, db, walletOwner.value);
    } else if walletOwner.None? {
      var reply;
      db, reply := AttachIdentity(db0, account, wallet, env, at);
      status := if reply.Fault? then Crash500 else Ok;
    }
  }

  /** The database when the attach of an unowned wallet runs, two awaits after the wallet was looked up. */
  ghost function AtClaim(looked: Db, env: Schedule, at: nat): Db
  {
    Run(Run(looked, env(at)), env(at + 1))
  }

  /** Who the token is for: the owner of the app subject, who also gets the wallet; else
      the owner of the wallet; else a new account made for it. */
  method SettleWallet(db0: Db, appOwner: Option<Account>, wallet: Key, uuid: Account, env: Schedule, at: nat)
    returns (db: Db, status: Status, account: Account)
    requires Reachable(db0) && wallet.kind.Wallet?
    ensures Reaches(db0, db) && Reachable(db)
    ensures appOwner.Some? ==> account == appOwner.value
    ensures status.Ok? ==> wallet in db.ident
    ensures status.Ok? && (appOwner.None? || wallet in db0.ident) ==> Owner(db, wallet) == Root(db.alias, account)
    ensures status.Ok? && appOwner.Some? && wallet !in db0.ident ==>
              var others := AtClaim(db0, env, at);
              && Reaches(db0, others) && Reachable(others) && Reaches(others, db)
              && (Owner(db, wallet) == Root(db.alias, account) <==>
                    wallet !in others.ident || Owner(others, wallet) == Root(others.alias, account))
              && (wallet in others.ident ==> db == others)
    ensures Issues(env, db0, db, None)
    ensures appOwner.Some? && wallet !in db0.ident && Live(Run(db0, env(at)), account) && QuietIn(env, at + 1, at + 2) ==>
              var others := Run(db0, env(at));
              (status.Ok? <==> !Attach(others, account, wallet).1.Fault?) && db == Attach(others, account, wallet).0
    ensures QuietIn(env, at, at + 3) && LiveRows(db0) && uuid !in db0.accounts && (appOwner.Some? ==> Live(db0, appOwner.value)) ==>
              && LiveRows(db) && !status.Crash500? && (!status.Ok? ==> db0.busy != {})
              && (status.Ok? ==> Live(db, account))
              && (appOwner.None? ==> account == if wallet in db0.ident then db0.ident[wallet] else uuid)
              && (appOwner.None? ==> forall k :: k in db.ident ==> k in db0.ident || k == wallet)
  {
    account, status := if appOwner.Some? then appOwner.value else uuid, Ok;
    ReachesNothing(db0);
    IssuesNothing(env, db0);
    var found := Resolve(db0, wallet);
    if wallet in db0.ident {
      RootAt(db0, db0.ident[wallet]);
      if LiveRows(db0) { LiveLookup(db0, wallet); }
    }
    if found.Some? && !found.value.Found? {
      return db0, Crash500, account;
    }
    var walletOwner := if found.Some? then Some(found.value.account) else None;
    db := Await(db0, db0, env, at);
    ghost var db1 := db;
    if wallet in db0.ident {
      LoginOf(db0, db1, wallet);
    }
    if appOwner.Some? {
      db, status := ClaimWallet(db, account, wallet, walletOwner, env, at + 1);
      ReachesTransitive(db0, db1, AtClaim(db0, env, at));
    } else if walletOwner.Some? {
      account := walletOwner.value;
      ReachesNothing(db);
      IssuesNothing(env, db);
    } else {
      IssuesStep(env, db, DoCreate(uuid, {wallet}), None);
      var created;
      db, created := CreateFor(db, uuid, {wallet});
      status := if created then Ok else Crash500;
    }
    ReachesTransitive(db0, db1, db);
    IssuesChain(env, db0, db1, db, None);
  }

  // ---- the exchange of a wallet -----------------------------------------------------------

  function Subject(service: string, subject: Option<string>): Key
  {
    AppKey(service, if subject.Some? then subject.value else "")
  }

  /** The account that a login with an app subject ends in: the subject's, else the login's, else a new one. */
  function Survivor(db: Db, service: string, serviceAccount: string, subject: Option<string>, login: Key, uuid: Account): Account
  {
    var known := if subject.Some? then FirstOwner(db, Subject(service, subject), Subject(serviceAccount, subject)) else None;
    if known.Some? then known.value else if login in db.ident then db.ident[login] else uuid
  }

  /** The exchange goes by the owner of the app subject, finds the wallet unowned, and by the time it attaches
      the wallet another request has given it to an account other than the subject's. */
  ghost predicate Beaten(looked: Db, owner: Option<Account>, wallet: Key, app: Key, env: Schedule)
  {
    owner.Some? && wallet !in looked.ident && Split(AtClaim(looked, env, 8), wallet, app)
  }

  /** What `Beaten` means for a later database. */
  lemma BeatenOrNot(looked: Db, owner: Account, wallet: Key, app: Key, env: Schedule, claimed: Db, db: Db)
    requires Reachable(looked) && wallet !in looked.ident
    requires app in looked.ident && Owner(looked, app) == Root(looked.alias, owner)
    requires Reaches(looked, claimed) && Reachable(claimed) && Reaches(claimed, db) && wallet in claimed.ident
    requires var others := AtClaim(looked, env, 8);
      && Reaches(looked, others) && Reachable(others)
      && (Owner(claimed, wallet) == Root(claimed.alias, owner) <==>
            wallet !in others.ident || Owner(others, wallet) == Root(others.alias, owner))
      && (wallet in others.ident ==> claimed == others)
    ensures wallet in db.ident
    ensures Owner(db, wallet) == Root(db.alias, owner) <==>
              !Beaten(looked, Some(owner), wallet, app, env) || Rejoined(AtClaim(looked, env, 8), db, wallet, app)
  {
    var others := AtClaim(looked, env, 8);
    LoginOf(looked, others, app);
    FamilyOf(looked, others, owner);
    LoginOf(claimed, db, wallet);
    FamilyOf(claimed, db, owner);
    if wallet in others.ident {
      FamilyOf(others, db, others.ident[wallet]);
      FamilyOf(others, db, others.ident[app]);
    }
  }

  /** What settling the wallet left to say, for the database in which it was looked up. */
  ghost predicate Claimed(looked: Db, owner: Option<Account>, wallet: Key, env: Schedule, db: Db, account: Account)
  {
    && wallet in db.ident
    && (owner.None? || wallet in looked.ident ==> Owner(db, wallet) == Root(db.alias, account))
    && (owner.Some? && wallet !in looked.ident ==>
          var others := AtClaim(looked, env, 8);
          && Reaches(looked, others) && Reachable(others) && account == owner.value
          && (Owner(db, wallet) == Root(db.alias, account) <==>
                wallet !in others.ident || Owner(others, wallet) == Root(others.alias, account))
          && (wallet in others.ident ==> db == others))
  }

  /** The exchange up to the account the token will be for. `resolved` is the database after the subject
      was resolved, `looked` the one in which the wallet was looked up. */
  method SettleSubject(db0: Db, service: string, serviceAccount: string, wallet: Key, subject: Option<string>,
                       uuid: Account, env: Schedule)
    returns (db: Db, status: Status, account: Account, owner: Option<Account>, ghost resolved: Db, ghost looked: Db)
    requires Reachable(db0) && wallet.kind.Wallet?
    ensures Reaches(db0, db) && Reachable(db)
    ensures Reaches(db0, resolved) && Reachable(resolved) && Reaches(resolved, db)
    ensures status.Ok? ==> Reaches(db0, looked) && Reachable(looked) && Reaches(looked, db)
    ensures status.Ok? ==> Claimed(looked, owner, wallet, env, db, account)
    ensures status.Ok? && owner.Some? ==>
              var app := Subject(service, subject);
              subject.Some? && account == owner.value && app in looked.ident && Owner(looked, app) == Root(looked.alias, account)
    ensures subject.None? ==> Issues(env, db0, db, None)
    ensures var (app, legacy) := (Subject(service, subject), Subject(serviceAccount, subject));
            subject.Some? ==> Issues(env, db0, resolved, Some((app, legacy))) && Issues(env, resolved, db, None)
    ensures subject.Some? && owner.None? && status.Ok? && Subject(service, subject) != Subject(serviceAccount, subject) ==>
              Subject(serviceAccount, subject) !in resolved.ident
    ensures QuietIn(env, 2, 11) && LiveRows(db0) && uuid !in db0.accounts ==>
              && LiveRows(db) && !status.Crash500? && (!status.Ok? ==> db0.busy != {})
              && (status.Ok? ==> Live(db, account) && account == Survivor(db0, service, serviceAccount, subject, wallet, uuid))
              && (status.Ok? && subject.Some? && owner.None? ==> Subject(service, subject) !in db.ident)
    ensures var (app, legacy) := (Subject(service, subject), Subject(serviceAccount, subject));
            QuietIn(env, 2, 8) && QuietIn(env, 9, 10) && LiveRows(db0) && db0.busy == {} && subject.Some?
            && FirstOwner(db0, app, legacy).Some? && wallet !in db0.ident ==>
              var (others, known) := (Run(Reconciled(db0, app, legacy), env(8)), FirstOwner(db0, app, legacy).value);
              Live(others, known) ==>
                && account == known && owner.Some? && db == Attach(others, known, wallet).0
                && (status.Ok? <==> !Attach(others, known, wallet).1.Fault?)
  {
    db, status, owner, account := db0, Ok, None, uuid;
    resolved, looked := db0, db0;
    ReachesNothing(db0);
    IssuesNothing(env, db0);
    var app, legacy := Subject(service, subject), Subject(serviceAccount, subject);
    if subject.Some? {
      db, owner, status := ResolveServiceApp(db, app, legacy, env, 2);
    }
    resolved := db;
    ReachesNothing(resolved);
    IssuesNothing(env, resolved);
    if !status.Ok? {
      return;
    }
    db := Await(db0, db, env, 7);
    looked := db;
    if owner.Some? {
      LoginOf(resolved, looked, app);
      FamilyOf(resolved, looked, owner.value);
      if LiveRows(looked) { LiveLookup(looked, app); }
    }
    db, status, account := SettleWallet(db, owner, wallet, uuid, env, 8);
    ReachesTransitive(db0, looked, db);
    ReachesTransitive(resolved, looked, db);
    IssuesChain(env, resolved, looked, db, None);
    if subject.None? {
      IssuesChain(env, db0, looked, db, None);
    }
  }

  /** What a token of the exchange tells: the app subject resolves to its account, and the wallet does unless
      another request beat the exchange to it and the two accounts are still apart. `looked` is the database in
      which the wallet was looked up, `owner` the owner that the subject was resolved to. */
  ghost predicate TokenFor(db: Db, account: Account, looked: Db, owner: Option<Account>, subject: Option<string>,
                           app: Key, wallet: Key, env: Schedule)
  {
    && Reaches(looked, db) && wallet in db.ident
    && (subject.Some? ==> app in db.ident && Owner(db, app) == Root(db.alias, account))
    && (owner.Some? ==> subject.Some? && app in looked.ident && Owner(looked, app) == Root(looked.alias, owner.value))
    && (Owner(db, wallet) == Root(db.alias, account) <==>
          !Beaten(looked, owner, wallet, app, env) || Rejoined(AtClaim(looked, env, 8), db, wallet, app))
  }

  /** The outcome when nothing else runs from `x` on. */
  ghost predicate Undisturbed(x: Db, db: Db, answer: Answer, service: string, serviceAccount: string, wallet: Key,
                              subject: Option<string>, uuid: Account)
  {
    LiveRows(x) && uuid !in x.accounts ==>
      && LiveRows(db) && answer != Failed(Crash500)
      && (answer.Token? ==> Live(db, answer.account) && wallet in db.ident && Owner(db, wallet) == answer.account)
      && (answer.Token? ==> answer.account == Survivor(x, service, serviceAccount, subject, wallet, uuid))
      && (x.busy == {} ==> answer.Token?)
  }

  /** The outcome for a subject with an owner and a wallet without, when others run only between the lookup of the
      wallet and its attach. */
  ghost predicate OthersAtClaim(x: Db, db: Db, answer: Answer, app: Key, legacy: Key, wallet: Key, env: Schedule)
  {
    LiveRows(x) && x.busy == {} && FirstOwner(x, app, legacy).Some? && wallet !in x.ident ==>
      var (others, known) := (Run(Reconciled(x, app, legacy), env(8)), FirstOwner(x, app, legacy).value);
      Live(others, known) && LiveRows(others) ==> answer == Token(known) && db == Attach(others, known, wallet).0
  }

  lemma AttachFine(x: Db, a: Account, k: Key)
    requires Reachable(x) && LiveRows(x) && Live(x, a)
    ensures var (y, reply) := Attach(x, a, k); !reply.Fault? && LiveRows(y) && Live(y, a)
  {
    LiveRoot(x, a);
    if k in x.ident { LiveLookup(x, k); }
  }

  /** The last part of the exchange: the account is resolved once more and, if the subject had no owner, gets it. */
  method FinishWallet(ghost resolved: Db, ghost looked: Db, db0: Db, account: Account, owner: Option<Account>,
                      subject: Option<string>, app: Key, ghost legacy: Key, wallet: Key, env: Schedule)
    returns (db: Db, answer: Answer)
    requires Reachable(db0) && Reachable(looked) && Reaches(looked, db0)
    requires Claimed(looked, owner, wallet, env, db0, account)
    requires owner.Some? ==> subject.Some? && account == owner.value && app in looked.ident && Owner(looked, app) == Root(looked.alias, account)
    ensures Reaches(db0, db) && Reachable(db)
    ensures answer.Token? ==> TokenFor(db, answer.account, looked, owner, subject, app, wallet, env)
    ensures subject.None? || owner.Some? ==> Issues(env, db0, db, None)
    ensures subject.Some? && owner.None? && MayLink(env, resolved, db0, Some(app), legacy) ==>
              Issues(env, resolved, db, Some((app, legacy)))
    ensures QuietIn(env, 11, 15) && LiveRows(db0) && Live(db0, account) ==>
              && LiveRows(db) && answer != Failed(Crash500)
              && (answer.Token? ==> answer.account == account && Live(db, account))
              && (subject.None? || owner.Some? ==> db == db0)
              && (subject.None? || owner.Some? || app !in db0.ident ==> answer.Token?)
  {
    ReachesNothing(db0);
    IssuesNothing(env, db0);
    if Live(db0, account) { LiveRoot(db0, account); }
    db := Await(db0, db0, env, 11);
    ghost var db5 := db;
    var link := if subject.Some? && owner.None? then Some(app) else None;
    if link.Some? && MayLink(env, resolved, db0, link, legacy) {
      IssuesChain(env, resolved, db0, db5, Some((app, legacy)));
    }
    var status, token;
    db, status, token := FinishToken(resolved, db, account, link, legacy, env, 12);
    ReachesTransitive(db0, db5, db);
    ReachesTransitive(looked, db0, db);
    if link.None? { IssuesChain(env, db0, db5, db, None); }
    if !status.Ok? {
      return db, Failed(status);
    }
    FamilyOf(db5, db, account);
    LoginOf(db0, db, wallet);
    FamilyOf(db0, db, account);
    if owner.Some? {
      LoginOf(looked, db, app);
      FamilyOf(looked, db, account);
      if wallet !in looked.ident {
        BeatenOrNot(looked, account, wallet, app, env, db0, db);
      }
    }
    answer := Token(token);
  }

  /** The exchange once the challenge is spent. */
  method ExchangeProved(db0: Db, service: string, serviceAccount: string, wallet: Key, subject: Option<string>,
                        uuid: Account, env: Schedule)
    returns (db: Db, answer: Answer, ghost looked: Db, ghost owner: Option<Account>)
    requires Reachable(db0) && wallet.kind.Wallet?
    ensures Reaches(db0, db) && Reachable(db)
    ensures answer.Token? ==>
              Reaches(db0, looked) && TokenFor(db, answer.account, looked, owner, subject, Subject(service, subject), wallet, env)
    ensures var (app, legacy) := (Subject(service, subject), Subject(serviceAccount, subject));
            app != legacy ==> Issues(env, db0, db, if subject.Some? then Some((app, legacy)) else None)
    ensures QuietIn(env, 2, 15) ==> Undisturbed(db0, db, answer, service, serviceAccount, wallet, subject, uuid)
    ensures var (app, legacy) := (Subject(service, subject), Subject(serviceAccount, subject));
            QuietIn(env, 2, 8) && QuietIn(env, 9, 15) && subject.Some? ==> OthersAtClaim(db0, db, answer, app, legacy, wallet, env)
  {
    var app, legacy := Subject(service, subject), Subject(serviceAccount, subject);
    var status, account, appOwner;
    ghost var resolved;
    db, status, account, appOwner, resolved, looked := SettleSubject(db0, service, serviceAccount, wallet, subject, uuid, env);
    owner := appOwner;
    ghost var mine := if subject.Some? then Some((app, legacy)) else None;
    ghost var settled := db;
    if QuietIn(env, 2, 8) && LiveRows(db0) && db0.busy == {} && subject.Some? && FirstOwner(db0, app, legacy).Some? {
      ghost var others, known := Run(Reconciled(db0, app, legacy), env(8)), FirstOwner(db0, app, legacy).value;
      if LiveRows(others) && Live(others, known) && Reachable(others) { AttachFine(others, known, wallet); }
    }
    if subject.Some? { IssuesChain(env, db0, resolved, settled, mine); }
    if !status.Ok? {
      return db, Failed(status), looked, owner;
    }
    if subject.Some? { IssuesWider(env, resolved, settled, mine); }
    db, answer := FinishWallet(resolved, looked, db, account, appOwner, subject, app, legacy, wallet, env);
    ReachesTransitive(db0, settled, db);
    if subject.None? || appOwner.Some? {
      IssuesChain(env, db0, settled, db, mine);
    } else if app != legacy {
      IssuesChain(env, db0, resolved, db, mine);
    }
    if Live(db, account) { LiveRoot(db, account); }
  }

  /** `exchange_wallet_identity`. */
  method ExchangeWallet(db0: Db, service: string, serviceAccount: string, address: string, message: string,
                        subject: Option<string>, nonce: Option<string>, signed: bool, uuid: Account, env: Schedule)
    returns (db: Db, answer: Answer, consumed: bool, ghost looked: Db, ghost owner: Option<Account>)
    requires Reachable(db0)
    ensures Reaches(db0, db) && Reachable(db)
    ensures !consumed ==> answer == Denied && (db == db0 || db == Run(db0, env(0)))
    ensures consumed ==> signed && nonce.Some? && nonce.value in db0.nonces &&
                         db0.nonces[nonce.value] == ServiceSiwe(service, subject, address, message)
    ensures answer.Token? ==>
              && consumed && Reaches(db0, looked)
              && TokenFor(db, answer.account, looked, owner, subject, Subject(service, subject), Key(Wallet, address), env)
    ensures var (app, legacy) := (Subject(service, subject), Subject(serviceAccount, subject));
            app != legacy ==> Issues(env, db0, db, if subject.Some? then Some((app, legacy)) else None)
    ensures QuietBut(env, 8) ==>
              (consumed <==> signed && nonce.Some? && nonce.value in db0.nonces &&
                             db0.nonces[nonce.value] == ServiceSiwe(service, subject, address, message))
    ensures Quiet(env) && consumed ==>
              Undisturbed(Apply(db0, Consume(nonce.value)), db, answer, service, serviceAccount, Key(Wallet, address), subject, uuid)
    ensures var (app, legacy) := (Subject(service, subject), Subject(serviceAccount, subject));
            QuietBut(env, 8) && consumed && subject.Some? ==>
              OthersAtClaim(Apply(db0, Consume(nonce.value)), db, answer, app, legacy, Key(Wallet, address), env)
  {
    looked, owner := db0, None;
    db, consumed := ConsumeChallenge(db0, nonce, ServiceSiwe(service, subject, address, message), signed, env, 0);
    ghost var mine := if subject.Some? then Some((Subject(service, subject), Subject(serviceAccount, subject))) else None;
    IssuesNothing(env, db0);
    if !consumed {
      return db, Denied, false, db0, None;
    }
    ghost var db1 := db;
    db := Await(db0, db, env, 1);
    ghost var db2 := db;
    db, answer, looked, owner := ExchangeProved(db, service, serviceAccount, Key(Wallet, address), subject, uuid, env);
    ReachesTransitive(db0, db2, db);
    if answer.Token? { ReachesTransitive(db0, db2, looked); }
    IssuesChain(env, db0, db1, db2, mine);
    if Subject(service, subject) != Subject(serviceAccount, subject) { IssuesChain(env, db0, db2, db, mine); }
  }

  // ---- a race -------------------------------------------------------------------------------

  /** Two accounts with a subject each, and a challenge for each of them about one wallet. */
  function Rivals(service: string, a: Account, x: string, b: Account, y: string, nonces: map<string, Challenge>): Db
  {
    EMPTY.(accounts := {a, b}, ident := map[AppKey(service, x) := a, AppKey(service, y) := b], nonces := nonces)
  }

  lemma RivalsReachable(service: string, a: Account, x: string, b: Account, y: string)
    requires a != b && AppKey(service, x) != AppKey(service, y)
    ensures Reachable(Rivals(service, a, x, b, y, map[]))
  {
    var j, k := AppKey(service, x), AppKey(service, y);
    ReachesNothing(EMPTY);
    var one := EMPTY.(accounts := {a}, ident := map[j := a]);
    assert Apply(EMPTY, DoCreate(a, {j})) == one;
    ReachesByStep(EMPTY, DoCreate(a, {j}));
    assert Apply(one, DoCreate(b, {k})) == Rivals(service, a, x, b, y, map[]);
    ReachesByStep(one, DoCreate(b, {k}));
  }

  lemma RivalsIssued(service: string, a: Account, x: string, b: Account, y: string, nonces: map<string, Challenge>,
                     n: string, c: Challenge)
    requires Reachable(Rivals(service, a, x, b, y, nonces))
    ensures Reachable(Rivals(service, a, x, b, y, nonces[n := c]))
  {
    var db := Rivals(service, a, x, b, y, nonces);
    assert Apply(db, Issue(n, c)) == Rivals(service, a, x, b, y, nonces[n := c]);
    ReachesByStep(db, Issue(n, c));
  }

  lemma RunTwo(db: Db, i: Op, j: Op)
    ensures Run(db, [i, j]) == Apply(Apply(db, i), j)
  {
    assert [i, j][1..] == [j];
    RunOne(Apply(db, i), j);
  }

  lemma RaceSteps(service: string, a: Account, x: string, b: Account, y: string, wallet: Key, n': string, c': Challenge)
    requires a != b && wallet.kind.Wallet?
    ensures var none := Rivals(service, a, x, b, y, map[]);
            var db1 := Rivals(service, a, x, b, y, map[n' := c']);
            var taken := none.(ident := none.ident[wallet := b]);
            && Apply(db1, Consume(n')) == none
            && Attach(none, b, wallet).0 == taken && Attach(taken, a, wallet).0 == taken
            && Run(db1, [Consume(n'), DoAttach(b, wallet)]) == taken
  {
    var none := Rivals(service, a, x, b, y, map[]);
    var db1 := Rivals(service, a, x, b, y, map[n' := c']);
    var taken := none.(ident := none.ident[wallet := b]);
    assert Apply(db1, Consume(n')) == none;
    assert Attach(none, b, wallet).0 == taken && Attach(taken, a, wallet).0 == taken;
    RunTwo(db1, Consume(n'), DoAttach(b, wallet));
  }

  /** The exchange of b when nothing else runs: it takes exactly the two transactions of the race. */
  method RivalAlone(service: string, serviceAccount: string, address: string, a: Account, x: string,
                    b: Account, y: string, m': string, n': string) returns (db: Db, answer: Answer)
    requires a != b && x != y && service != serviceAccount && ':' !in service && ':' !in serviceAccount
    requires Reachable(Rivals(service, a, x, b, y, map[n' := ServiceSiwe(service, Some(y), address, m')]))
    ensures answer == Token(b)
    ensures var db0 := Rivals(service, a, x, b, y, map[n' := ServiceSiwe(service, Some(y), address, m')]);
            db == Run(db0, [Consume(n'), DoAttach(b, Key(Wallet, address))])
  {
    var wallet, c' := Key(Wallet, address), ServiceSiwe(service, Some(y), address, m');
    NoLegacy(service, serviceAccount, x, y);
    RaceSteps(service, a, x, b, y, wallet, n', c');
    var db0 := Rivals(service, a, x, b, y, map[n' := c']);
    var quiet: Schedule := i => [];
    var consumed;
    ghost var looked, owner;
    db, answer, consumed, looked, owner :=
      ExchangeWallet(db0, service, serviceAccount, address, m', Some(y), Some(n'), true, 0, quiet);
  }

  /** Account a's exchange has looked the wallet up, unowned, when the whole of b's exchange of the same
      wallet runs. Both get their tokens, and the wallet is b's. */
  method WalletRace(service: string, serviceAccount: string, address: string, a: Account, x: string, m: string, n: string,
                    b: Account, y: string, m': string, n': string)
    returns (db: Db, answer: Answer, rival: Answer)
    requires a != b && n != n' && x != y && service != serviceAccount && ':' !in service && ':' !in serviceAccount
    ensures answer == Token(a) && rival == Token(b)
    ensures Reachable(db) && Key(Wallet, address) in db.ident && AppKey(service, x) in db.ident
    ensures Owner(db, Key(Wallet, address)) == b && Owner(db, AppKey(service, x)) == Root(db.alias, a) == a
  {
    var wallet := Key(Wallet, address);
    var c, c' := ServiceSiwe(service, Some(x), address, m), ServiceSiwe(service, Some(y), address, m');
    NoLegacy(service, serviceAccount, x, y);
    RivalsReachable(service, a, x, b, y);
    RivalsIssued(service, a, x, b, y, map[], n', c');
    RivalsIssued(service, a, x, b, y, map[n' := c'], n, c);
    var db0, db1 := Rivals(service, a, x, b, y, map[n' := c'][n := c]), Rivals(service, a, x, b, y, map[n' := c']);
    assert Apply(db0, Consume(n)) == db1;
    RaceSteps(service, a, x, b, y, wallet, n', c');
    var env: Schedule := i => if i == 8 then [Consume(n'), DoAttach(b, wallet)] else [];
    var alone;
    alone, rival := RivalAlone(service, serviceAccount, address, a, x, b, y, m', n');
    assert alone == Run(db1, env(8));
    var consumed;
    ghost var looked, owner;
    db, answer, consumed, looked, owner :=
      ExchangeWallet(db0, service, serviceAccount, address, m, Some(x), Some(n), true, 0, env);
  }

  lemma NoLegacy(service: string, serviceAccount: string, x: string, y: string)
    requires x != y && service != serviceAccount && ':' !in service && ':' !in serviceAccount
    ensures AppKey(service, x) != AppKey(service, y)
    ensures AppKey(serviceAccount, x) != AppKey(service, x) && AppKey(serviceAccount, x) != AppKey(service, y)
    ensures AppKey(serviceAccount, y) != AppKey(service, x) && AppKey(serviceAccount, y) != AppKey(service, y)
  {
    if AppKey(service, x) == AppKey(service, y) { AppKeyInjective(service, x, service, y); }
    if AppKey(serviceAccount, x) == AppKey(service, x) { AppKeyInjective(serviceAccount, x, service, x); }
    if AppKey(serviceAccount, x) == AppKey(service, y) { AppKeyInjective(serviceAccount, x, service, y); }
    if AppKey(serviceAccount, y) == AppKey(service, x) { AppKeyInjective(serviceAccount, y, service, x); }
    if AppKey(serviceAccount, y) == AppKey(service, y) { AppKeyInjective(serviceAccount, y, service, y); }
  }

  // ---- the other exchanges ------------------------------------------------------------

  /** The last part of `exchange_google_identity`, and of `bind_service_identity`: the subject joins
      `account`. */
  method JoinSubject(ghost x: Db, db0: Db, account: Account, app: Key, ghost legacy: Key, owner: Option<Account>,
                     env: Schedule, at: nat)
    returns (db: Db, reply: Reply)
    requires Reachable(db0)
    requires owner.Some? ==> app in db0.ident && Owner(db0, app) == Root(db0.alias, owner.value)
    ensures Reaches(db0, db) && Reachable(db)
    ensures reply.Merged? || reply.Already? || reply.Linked? ==> app in db.ident && Owner(db, app) == Root(db.alias, account)
    ensures owner.Some? ==> Issues(env, db0, db, None) && !reply.Taken?
    ensures owner.None? && MayLink(env, x, db0, Some(app), legacy) ==> Issues(env, x, db, Some((app, legacy)))
    ensures QuietIn(env, at, at + 2) && LiveRows(db0) && account in db0.accounts && Canonical(db0.alias, account).Found? &&
            (if owner.Some? then app in db0.ident && owner.value == db0.ident[app] else app !in db0.ident) ==>
              && LiveRows(db) && !reply.Fault? && !reply.Taken? && (reply.Refused? ==> db0.busy != {})
              && Canonical(db.alias, account) == Canonical(db0.alias, account) && account in db.accounts
  {
    ReachesNothing(db0);
    IssuesNothing(env, db0);
    db := db0;
    if owner.Some? && owner.value != account {
      db, reply := JoinByMerge(db, account, app, owner.value, env, at);
    } else if owner.Some? {
      reply := Already(account);
    } else {
      if account in db0.accounts { RootExists(db0, account); }
      db, reply := GiveName(x, db, account, app, legacy, env, at);
    }
  }

  method JoinByMerge(db0: Db, account: Account, app: Key, owner: Account, env: Schedule, at: nat)
    returns (db: Db, reply: Reply)
    requires Reachable(db0) && app in db0.ident && Owner(db0, app) == Root(db0.alias, owner)
    ensures Reaches(db0, db) && Reachable(db)
    ensures reply.Merged? || reply.Already? ==> app in db.ident && Owner(db, app) == Root(db.alias, account)
    ensures Issues(env, db0, db, None) && !reply.Taken? && !reply.Linked?
    ensures QuietIn(env, at, at + 2) && LiveRows(db0) && account in db0.accounts && Canonical(db0.alias, account).Found? &&
            owner == db0.ident[app] ==>
              && LiveRows(db) && !reply.Fault? && (reply.Refused? ==> db0.busy != {})
              && Canonical(db.alias, account) == Canonical(db0.alias, account) && account in db.accounts
  {
    db, reply := MergeAccounts(db0, account, owner, env, at);
    LoginOf(db0, db, app);
    FamilyOf(db0, db, owner);
    if LiveRows(db0) && account in db0.accounts && owner == db0.ident[app] {
      LiveLookup(db0, app);
      LiveRoot(db0, owner);
      JoinFor(db0, account, owner);
      if QuietIn(env, at, at + 2) && Canonical(db0.alias, account).Found? {
        assert db == db0 || (Root(db0.alias, account) != owner && db == Join(db0, Root(db0.alias, account), owner));
      }
    }
  }

  /** Joining a live account into the account that `a` stands for leaves `a` where it was. */
  lemma JoinFor(db: Db, a: Account, s: Account)
    requires Reachable(db) && LiveRows(db) && a in db.accounts && Live(db, s)
    ensures var r := Root(db.alias, a);
            r != s ==>
              LiveRows(Join(db, r, s)) && Canonical(Join(db, r, s).alias, a) == Canonical(db.alias, a) && a in Join(db, r, s).accounts
  {
    var r := Root(db.alias, a);
    RootExists(db, a);
    if r != s {
      ForestAt(db);
      JoinLiveRows(db, r, s);
      Extend(db.alias, s, r);
    }
  }

  /** Create the account of logins that were nobody's at `x`; a lost race is resolved by reading again. */
  method CreateOrFind(ghost x: Db, ghost mine: Option<(Key, Key)>, db0: Db, login: Key, keys: set<Key>, uuid: Account,
                      env: Schedule, at: nat)
    returns (db: Db, status: Status, account: Account)
    requires Reachable(db0) && login in keys
    ensures Reaches(db0, db) && Reachable(db)
    ensures status.Ok? ==> login in db.ident && Owner(db, login) == Root(db.alias, account)
    ensures Issues(env, x, db0, mine) && Decided(x, DoCreate(uuid, keys), mine) ==> Issues(env, x, db, mine)
    ensures var others := Run(db0, env(at));
            && Reaches(db0, others) && Reachable(others)
            && (if uuid !in others.accounts && forall k :: k in keys ==> k !in others.ident
                then status.Ok? && account == uuid && db == Create(others, uuid, keys).0 && Live(db, uuid)
                else db == Run(others, env(at + 1)) && (status.Conflict409? <==> login !in db.ident)
                     && (status.Ok? ==> account == Owner(db, login)))
    ensures LiveRows(Run(db0, env(at))) && env(at + 1) == [] ==> LiveRows(db) && !status.Crash500?
  {
    ReachesNothing(db0);
    db := Await(db0, db0, env, at);
    ghost var others := db;
    var created;
    db, created := CreateFor(db, uuid, keys);
    ReachesTransitive(db0, others, db);
    if Issues(env, x, db0, mine) && Decided(x, DoCreate(uuid, keys), mine) {
      NameGiven(env, x, db0, others, DoCreate(uuid, keys), mine);
    }
    if created {
      return db, Ok, uuid;
    }
    db := Await(db0, db, env, at + 1);
    if Issues(env, x, others, mine) {
      IssuesChain(env, x, others, db, mine);
    }
    var again := Resolve(db, login);
    if again.None? {
      return db, Conflict409, uuid;
    }
    if LiveRows(db) { LiveLookup(db, login); }
    if !again.value.Found? {
      return db, Crash500, uuid;
    }
    RootAt(db, db.ident[login]);
    return db, Ok, again.value.account;
  }

  /** Find the account of a login, or create one. */
  method FindOrCreate(ghost mine: Option<(Key, Key)>, db0: Db, login: Key, keys: set<Key>, uuid: Account, env: Schedule, at: nat)
    returns (db: Db, status: Status, account: Account)
    requires Reachable(db0) && login in keys
    requires login !in db0.ident ==> Decided(db0, DoCreate(uuid, keys), mine)
    ensures Reaches(db0, db) && Reachable(db)
    ensures status.Ok? ==> login in db.ident && Owner(db, login) == Root(db.alias, account)
    ensures Issues(env, db0, db, mine)
    ensures login in db0.ident ==> db == db0 && (status.Ok? ==> account == Owner(db0, login))
    ensures QuietIn(env, at, at + 2) && LiveRows(db0) && uuid !in db0.accounts ==>
              && LiveRows(db) && !status.Crash500?
              && (status.Conflict409? <==> login !in db0.ident && exists k :: k in keys && k in db0.ident)
              && (status.Ok? ==> Live(db, account) && account == if login in db0.ident then db0.ident[login] else uuid)
              && (db == if status.Ok? && login !in db0.ident then Create(db0, uuid, keys).0 else db0)
              && db.busy == db0.busy
  {
    ReachesNothing(db0);
    IssuesNothing(env, db0);
    var found := Resolve(db0, login);
    if login in db0.ident {
      RootAt(db0, db0.ident[login]);
      if LiveRows(db0) { LiveLookup(db0, login); }
    }
    if found.Some? {
      return db0, if found.value.Found? then Ok else Crash500, if found.value.Found? then found.value.account else uuid;
    }
    db, status, account := CreateOrFind(db0, mine, db0, login, keys, uuid, env, at);
  }

  /** What the Google exchange and the binding share: the subject is resolved and joins the account. */
  method JoinNamed(db0: Db, account: Account, app: Key, legacy: Key, env: Schedule, at: nat)
    returns (db: Db, status: Status, reply: Reply)
    requires Reachable(db0)
    ensures Reaches(db0, db) && Reachable(db)
    ensures status.Ok? && !reply.Taken? ==> app in db.ident && Owner(db, app) == Root(db.alias, account)
    ensures app != legacy ==> Issues(env, db0, db, Some((app, legacy)))
    ensures QuietIn(env, at, at + 8) && LiveRows(db0) && Live(db0, account) && db0.busy == {} ==>
              && LiveRows(db) && status.Ok? && !reply.Taken? && account in db.accounts
              && Canonical(db.alias, account) == Found(Absorbed(db0, app, legacy, account))
  {
    var owner;
    reply := Fault;
    db, owner, status := ResolveServiceApp(db0, app, legacy, env, at);
    if !status.Ok? {
      return;
    }
    ghost var db1 := db;
    if LiveRows(db0) && Live(db0, account) {
      ReconciledLookup(db0, app, legacy, account);
    }
    db := Await(db0, db, env, at + 5);
    ghost var db2 := db;
    IssuesWider(env, db1, db2, Some((app, legacy)));
    if owner.Some? {
      LoginOf(db1, db2, app);
      FamilyOf(db1, db2, owner.value);
    }
    db, reply := JoinSubject(db1, db, account, app, legacy, owner, env, at + 6);
    status := if reply.Refused? then Conflict409 else if reply.Fault? then Crash500 else Ok;
    ReachesTransitive(db0, db2, db);
    if app != legacy {
      if owner.Some? { IssuesChain(env, db1, db2, db, Some((app, legacy))); }
      IssuesChain(env, db0, db1, db, Some((app, legacy)));
    }
  }

  /** Creating an account for other logins changes nothing for a subject. */
  lemma CreateApart(db: Db, uuid: Account, keys: set<Key>, app: Key, legacy: Key, a: Account)
    requires app !in keys && legacy !in keys
    ensures Absorbed(Create(db, uuid, keys).0, app, legacy, a) == Absorbed(db, app, legacy, a)
  {
  }

  /** `exchange_google_identity`, with `email` set when Google verified the address. */
  method ExchangeGoogle(db0: Db, service: string, serviceAccount: string, google: string, email: Option<string>,
                        subject: Option<string>, uuid: Account, env: Schedule)
    returns (db: Db, answer: Answer)
    requires Reachable(db0)
    ensures Reaches(db0, db) && Reachable(db)
    ensures answer.Token? ==> Key(Google, google) in db.ident &&
                              Owner(db, Key(Google, google)) == Root(db.alias, answer.account)
    ensures answer.Token? && subject.Some? ==>
              var app := Subject(service, subject);
              app in db.ident && Owner(db, app) == Root(db.alias, answer.account)
    ensures var (app, legacy) := (Subject(service, subject), Subject(serviceAccount, subject));
            app != legacy ==> Issues(env, db0, db, if subject.Some? then Some((app, legacy)) else None)
    ensures var (login, app, legacy) := (Key(Google, google), Subject(service, subject), Subject(serviceAccount, subject));
            Quiet(env) && LiveRows(db0) && uuid !in db0.accounts && db0.busy == {} ==>
              var account := if login in db0.ident then db0.ident[login] else uuid;
              && LiveRows(db)
              && answer == if login !in db0.ident && email.Some? && Key(Email, email.value) in db0.ident then Failed(Conflict409)
                           else Token(if subject.Some? then Absorbed(db0, app, legacy, account) else account)
  {
    var login, app, legacy := Key(Google, google), Subject(service, subject), Subject(serviceAccount, subject);
    var keys := if email.Some? then {login, Key(Email, email.value)} else {login};
    ghost var mine := if subject.Some? then Some((app, legacy)) else None;
    var status, account;
    db, status, account := FindOrCreate(mine, db0, login, keys, uuid, env, 0);
    ghost var db1 := db;
    IssuesNothing(env, db0);
    if !status.Ok? {
      return db, Failed(status);
    }
    db := Await(db0, db, env, 2);
    ghost var db2 := db;
    CreateApart(db0, uuid, keys, app, legacy, account);
    LoginOf(db1, db2, login);
    FamilyOf(db1, db2, account);
    db, answer := FinishGoogle(db, login, account, app, legacy, subject.Some?, env);
    ReachesTransitive(db0, db2, db);
    if app != legacy { IssuesChain(env, db0, db2, db, mine); }
  }

  /** The exchange once Google's account is known: the subject joins it, and the token is made. */
  method FinishGoogle(db0: Db, login: Key, account: Account, app: Key, legacy: Key, named: bool, env: Schedule)
    returns (db: Db, answer: Answer)
    requires Reachable(db0) && login in db0.ident && Owner(db0, login) == Root(db0.alias, account)
    ensures Reaches(db0, db) && Reachable(db)
    ensures answer.Token? ==> login in db.ident && Owner(db, login) == Root(db.alias, answer.account)
    ensures answer.Token? && named ==> app in db.ident && Owner(db, app) == Root(db.alias, answer.account)
    ensures app != legacy ==> Issues(env, db0, db, if named then Some((app, legacy)) else None)
    ensures QuietIn(env, 3, 14) && LiveRows(db0) && Live(db0, account) && db0.busy == {} ==>
              LiveRows(db) && answer == Token(if named then Absorbed(db0, app, legacy, account) else account)
  {
    ghost var mine := if named then Some((app, legacy)) else None;
    var status := Ok;
    db := db0;
    ReachesNothing(db0);
    IssuesNothing(env, db0);
    if Live(db0, account) { LiveRoot(db0, account); }
    if named {
      var reply;
      db, status, reply := JoinNamed(db, account, app, legacy, env, 3);
      status := if status.Ok? && reply.Taken? then Conflict409 else status;
    }
    ghost var db3 := db;
    if !status.Ok? {
      return db, Failed(status);
    }
    var token;
    db, status, token := FinishToken(db3, db, account, None, legacy, env, 11);
    ReachesTransitive(db0, db3, db);
    if app != legacy { IssuesChain(env, db0, db3, db, mine); }
    if !status.Ok? {
      return db, Failed(status);
    }
    LoginOf(db0, db, login);
    FamilyOf(db0, db, account);
    if named {
      LoginOf(db3, db, app);
      FamilyOf(db3, db, account);
    }
    answer := Token(token);
  }

  /** A new account is a family of its own. */
  lemma NewIsApart(db: Db, uuid: Account, app: Key, legacy: Key)
    requires Reachable(db) && uuid !in db.accounts && app !in db.ident && app != legacy
    ensures var y := Create(db, uuid, {app}).0;
            && (Settled(y, app, legacy) <==> legacy !in db.ident)
            && (Split(y, app, legacy) <==> legacy in db.ident)
  {
    ReachableInv(db);
    OneHop(db.alias, uuid);
  }

  /** When the account for a subject without owner is made: its names were looked up before the last await. */
  ghost function AtCreation(db0: Db, env: Schedule): Db
  {
    Run(Run(db0, env(0)), env(5))
  }

  /** The outcome for a subject without owner: it gets a new account, apart from the legacy name exactly if somebody
      made that one after it was looked up; and if somebody else made the stable one, that is left alone. */
  ghost predicate NewOutcome(others: Db, db: Db, answer: Answer, app: Key, legacy: Key, uuid: Account, env: Schedule)
  {
    if app in others.ident || uuid in others.accounts then db == Run(others, env(6))
    else answer == Token(uuid) && db == Create(others, uuid, {app}).0
         && (Settled(db, app, legacy) <==> legacy !in others.ident)
  }

  /** The exchange of a subject whose two names were found nobody's. */
  method NewSubject(db0: Db, app: Key, legacy: Key, uuid: Account, env: Schedule) returns (db: Db, answer: Answer)
    requires Reachable(db0) && (app != legacy ==> legacy !in db0.ident)
    ensures Reaches(db0, db) && Reachable(db)
    ensures answer.Token? ==> app in db.ident && Owner(db, app) == Root(db.alias, answer.account)
    ensures app != legacy ==> Issues(env, db0, db, Some((app, legacy)))
    ensures app != legacy ==> NewOutcome(Run(db0, env(5)), db, answer, app, legacy, uuid, env)
    ensures QuietIn(env, 5, 7) && LiveRows(db0) && uuid !in db0.accounts && app !in db0.ident ==>
              LiveRows(db) && answer == Token(uuid)
  {
    IssuesNothing(env, db0);
    var status, account;
    db, status, account := CreateOrFind(db0, Some((app, legacy)), db0, app, {app}, uuid, env, 5);
    ghost var others := Run(db0, env(5));
    if app != legacy && uuid !in others.accounts && app !in others.ident { NewIsApart(others, uuid, app, legacy); }
    answer := if status.Ok? then Token(account) else Failed(status);
  }

  /** `exchange_service_identity`: only the app subject is proved. */
  method ExchangeService(db0: Db, service: string, serviceAccount: string, subject: string, uuid: Account, env: Schedule)
    returns (db: Db, answer: Answer)
    requires Reachable(db0)
    ensures Reaches(db0, db) && Reachable(db)
    ensures answer.Token? ==> AppKey(service, subject) in db.ident &&
                              Owner(db, AppKey(service, subject)) == Root(db.alias, answer.account)
    ensures var (app, legacy) := (AppKey(service, subject), AppKey(serviceAccount, subject));
            app != legacy ==> Issues(env, db0, db, Some((app, legacy)))
    ensures var (app, legacy) := (AppKey(service, subject), AppKey(serviceAccount, subject));
            if app in db0.ident then answer.Token? ==> Settled(db, app, legacy)
            else if app == legacy then true
            else if legacy in Run(db0, env(0)).ident then
              && (answer.Token? ==> SettledSince(AtAttach(db0, env, 0), db, app, legacy))
              && LegacyOutcome(db0, db, answer.Token?, app, legacy, env, 0)
            else NewOutcome(AtCreation(db0, env), db, answer, app, legacy, uuid, env)
    ensures Quiet(env) && LiveRows(db0) && uuid !in db0.accounts && db0.busy == {} ==>
              var known := FirstOwner(db0, AppKey(service, subject), AppKey(serviceAccount, subject));
              LiveRows(db) && answer == Token(if known.Some? then known.value else uuid)
  {
    var app, legacy := AppKey(service, subject), AppKey(serviceAccount, subject);
    var owner, status;
    db, owner, status := ResolveServiceApp(db0, app, legacy, env, 0);
    if !status.Ok? {
      return db, Failed(status);
    }
    if owner.Some? {
      return db, Token(owner.value);
    }
    ghost var looked := db;
    db, answer := NewSubject(db, app, legacy, uuid, env);
    ReachesTransitive(db0, looked, db);
    if app != legacy {
      IssuesChain(env, db0, looked, db, Some((app, legacy)));
    }
  }

  /** `authenticate` with the assertion of a bridge about one of its users, verified: the app subject in the
      namespace of the bridge's account is signed in, with a new account the first time. */
  method BridgeSignIn(db0: Db, bridgeAccount: string, subject: string, uuid: Account, env: Schedule)
    returns (db: Db, answer: Answer)
    requires Reachable(db0)
    ensures Reaches(db0, db) && Reachable(db)
    ensures answer.Token? ==> AppKey(bridgeAccount, subject) in db.ident &&
                              Owner(db, AppKey(bridgeAccount, subject)) == Root(db.alias, answer.account)
    ensures var name := AppKey(bridgeAccount, subject); Issues(env, db0, db, Some((name, name)))
    ensures answer != Denied
    ensures var name := AppKey(bridgeAccount, subject);
            Quiet(env) && LiveRows(db0) && uuid !in db0.accounts ==>
              if name in db0.ident then db == db0 && answer == Token(db0.ident[name])
              else db == Create(db0, uuid, {name}).0 && answer == Token(uuid)
  {
    var name := AppKey(bridgeAccount, subject);
    var status, account;
    db, status, account := FindOrCreate(Some((name, name)), db0, name, {name}, uuid, env, 0);
    if !status.Ok? {
      return db, Failed(status);
    }
    ghost var found := db;
    db := Await(db0, db, env, 2);
    ghost var looked := db;
    LoginOf(found, looked, name);
    FamilyOf(found, looked, account);
    if Live(looked, account) { LiveRoot(looked, account); }
    var current := Canonical(db.alias, account);
    if !current.Found? {
      return db, Failed(Crash500);
    }
    ReachableInv(looked);
    db := Await(db0, db, env, 3);
    LoginOf(looked, db, name);
    ReachesGrows(looked, db);
    answer := if current.account in db.accounts then Token(current.account) else Denied;
  }

  /** One account with one name, and then another one with the other name. */
  function Guest(b: Account, l: Key): Db
  {
    EMPTY.(accounts := {b}, ident := map[l := b])
  }

  function Doubled(b: Account, l: Key, a: Account, p: Key): Db
  {
    EMPTY.(accounts := {a, b}, ident := map[l := b, p := a])
  }

  lemma ApartSteps(b: Account, l: Key, a: Account, p: Key)
    requires a != b && p != l
    ensures Run(EMPTY, [DoCreate(b, {l})]) == Create(EMPTY, b, {l}).0 == Guest(b, l)
    ensures Run(Guest(b, l), [DoCreate(a, {p})]) == Create(Guest(b, l), a, {p}).0 == Doubled(b, l, a, p)
    ensures Reachable(EMPTY) && Reachable(Guest(b, l))
    ensures Attach(Doubled(b, l, a, p), b, p) == (Doubled(b, l, a, p), Taken(a))
  {
    ReachesNothing(EMPTY);
    RunOne(EMPTY, DoCreate(b, {l}));
    RunOne(Guest(b, l), DoCreate(a, {p}));
    ReachesByStep(EMPTY, DoCreate(b, {l}));
  }

  /** Three sign-ins of one new subject. An exchange finds both names nobody's; a bridge sign-in makes the legacy
      one; a second exchange finds that one; the first makes the stable name. All three succeed, and leave the two
      names at different accounts. */
  method NamesApart(service: string, serviceAccount: string, subject: string, a: Account, b: Account)
    returns (db: Db, guest: Answer, first: Answer, second: Answer)
    requires a != b && service != serviceAccount && ':' !in service && ':' !in serviceAccount
    ensures guest == Token(b) && first == Token(a) && second == Token(a)
    ensures Reachable(db) && Split(db, AppKey(service, subject), AppKey(serviceAccount, subject))
  {
    var p, l := AppKey(service, subject), AppKey(serviceAccount, subject);
    if p == l { AppKeyInjective(service, subject, serviceAccount, subject); }
    ApartSteps(b, l, a, p);
    var quiet: Schedule := i => [];
    var alone;
    alone, guest := BridgeSignIn(EMPTY, serviceAccount, subject, b, quiet);
    assert alone == Guest(b, l);
    var bridge: Schedule := i => if i == 5 then [DoCreate(b, {l})] else [];
    db, first := ExchangeService(EMPTY, service, serviceAccount, subject, a, bridge);
    assert AtCreation(EMPTY, bridge) == Guest(b, l);
    var exchange: Schedule := i => if i == 2 then [DoCreate(a, {p})] else [];
    var again;
    again, second := ExchangeService(alone, service, serviceAccount, subject, a + b + 1, exchange);
    assert AtAttach(alone, exchange, 0) == db == again;
  }

  /** `bind_service_identity` for the account named in a step-up token. A conflict while
      attaching is reported in the reply. */
  method BindService(db0: Db, service: string, serviceAccount: string, subject: string, tokenAccount: Account, env: Schedule)
    returns (db: Db, answer: Answer, reply: Reply)
    requires Reachable(db0)
    ensures Reaches(db0, db) && Reachable(db)
    ensures answer.Token? && !reply.Taken? ==>
              && AppKey(service, subject) in db.ident
              && Owner(db, AppKey(service, subject)) == Root(db.alias, tokenAccount)
    ensures Canonical(db0.alias, tokenAccount).TooLong? ==> answer == Failed(Crash500) && db == db0
    ensures var (app, legacy) := (AppKey(service, subject), AppKey(serviceAccount, subject));
            app != legacy ==> Issues(env, db0, db, Some((app, legacy)))
    ensures var (app, legacy) := (AppKey(service, subject), AppKey(serviceAccount, subject));
            Quiet(env) && LiveRows(db0) && Live(db0, tokenAccount) && db0.busy == {} ==>
              && answer == Token(tokenAccount) && !reply.Taken? && LiveRows(db)
              && Root(db.alias, tokenAccount) == Absorbed(db0, app, legacy, tokenAccount)
  {
    ReachesNothing(db0);
    IssuesNothing(env, db0);
    reply := Fault;
    var app, legacy := AppKey(service, subject), AppKey(serviceAccount, subject);
    if Live(db0, tokenAccount) { LiveRoot(db0, tokenAccount); }
    var destination := Canonical(db0.alias, tokenAccount);
    if !destination.Found? {
      return db0, Failed(Crash500), Fault;
    }
    db := Await(db0, db0, env, 0);
    ghost var db1 := db;
    var status;
    var d := destination.account;
    db, status, reply := JoinNamed(db, d, app, legacy, env, 1);
    ReachesTransitive(db0, db1, db);
    if app != legacy { IssuesChain(env, db0, db1, db, Some((app, legacy))); }
    FamilyOf(db0, db, tokenAccount);
    answer := if status.Ok? then Token(d) else Failed(status);
  }
}
