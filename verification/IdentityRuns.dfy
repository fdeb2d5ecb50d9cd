// What holds of the account database over whole runs.

module IdentityRuns {

  import opened Common
  import opened AliasForest
  import opened Identities
  import opened Exchange

  // ---- families -----------------------------------------------------------------

  /** Two logins of one account are never separated again, whatever happens later. */
  lemma NeverSplit(db: Db, ops: seq<Op>, j: Key, k: Key)
    requires Reachable(db)
    requires j in db.ident && k in db.ident && Owner(db, j) == Owner(db, k)
    ensures var y := Run(db, ops);
            j in y.ident && k in y.ident && Owner(y, j) == Owner(y, k)
  {
    ReachesByRun(db, ops);
    LoginOf(db, Run(db, ops), j);
    LoginOf(db, Run(db, ops), k);
  }

  /** The only transactions that can split the two names of a subject: those that put one of them on an
      account outside the family of the other. */
  ghost predicate Stray(db: Db, op: Op, p: Key, l: Key)
  {
    Parts(db, op, p, l) || Parts(db, op, l, p)
  }

  /** The transaction makes `j`, apart from `k`. */
  ghost predicate Parts(db: Db, op: Op, j: Key, k: Key)
  {
    j !in db.ident && k in db.ident &&
    match op
    case DoAttach(aid, key) => key == j && aid in db.accounts && Owner(db, k) != Root(db.alias, aid)
    case DoCreate(a, keys) => j in keys && a !in db.accounts && forall x :: x in keys ==> x !in db.ident
    case _ => false
  }

  lemma AttachSplits(db: Db, aid: Account, key: Key, p: Key, l: Key)
    requires p != l && !Split(db, p, l)
    ensures Split(Attach(db, aid, key).0, p, l) <==> Stray(db, DoAttach(aid, key), p, l)
  {
  }

  lemma CreateSplits(db: Db, a: Account, keys: set<Key>, p: Key, l: Key)
    requires Structure(db) && !Split(db, p, l)
    ensures Split(Create(db, a, keys).0, p, l) <==> Stray(db, DoCreate(a, keys), p, l)
  {
    OneHop(db.alias, a);
  }

  lemma MergeSplits(db: Db, d: Account, s: Account, p: Key, l: Key)
    requires Reachable(db) && !Split(db, p, l)
    ensures !Split(Merge(db, d, s).0, p, l)
  {
    MergeJoins(db, d, s);
    if p in db.ident { LoginOf(db, Merge(db, d, s).0, p); }
    if l in db.ident { LoginOf(db, Merge(db, d, s).0, l); }
  }

  lemma OtherSplits(db: Db, op: Op, p: Key, l: Key)
    requires !op.DoCreate? && !op.DoAttach? && !op.DoMerge?
    ensures Split(Apply(db, op), p, l) <==> Split(db, p, l)
  {
    assert Apply(db, op).ident == db.ident && Apply(db, op).alias == db.alias;
  }

  /** Of two names that belong together, or of which one is missing: a transaction splits them if and only if
      it is such a one. */
  lemma StraySplits(db: Db, op: Op, p: Key, l: Key)
    requires Reachable(db) && p != l && !Split(db, p, l)
    ensures Split(Apply(db, op), p, l) <==> Stray(db, op, p, l)
  {
    match op {
      case DoMerge(d, s) => MergeSplits(db, d, s, p, l);
      case DoCreate(a, keys) =>
        ReachableInv(db);
        CreateSplits(db, a, keys, p, l);
      case DoAttach(aid, key) => AttachSplits(db, aid, key, p, l);
      case _ => OtherSplits(db, op, p, l);
    }
  }

  /** No run ever makes an account an alias of itself, at any distance. */
  lemma NoAliasCycle(db: Db, a: Account, n: nat)
    requires Reachable(db) && n > 0
    ensures Hops(db.alias, a, n) != Some(a)
  {
    ForestAt(db);
    NoCycle(db.alias, a, n);
  }

  /** `Attach` is the only transaction that can put a login on a retired account, and it
      does so exactly when the account it resolved earlier was merged away meanwhile. */
  ghost predicate StaleAttach(db: Db, op: Op)
  {
    op.DoAttach? && Retired(db.alias, op.aid) && op.key !in db.ident
  }

  lemma LiveRowsStep(db: Db, op: Op)
    requires Reachable(db) && LiveRows(db)
    ensures LiveRows(Apply(db, op)) <==> !StaleAttach(db, op)
  {
    ReachableInv(db);
    match op
    case DoMerge(d, s) => MergeLiveRows(db, d, s);
    case DoAttach(aid, k) =>
      if StaleAttach(db, op) {
        assert Apply(db, op).ident[k] == aid;
      }
    case DoCreate(a, keys) =>
      assert !Retired(db.alias, a) || a in db.accounts;
    case _ =>
  }

  lemma MergeLiveRows(db: Db, d0: Account, s0: Account)
    requires Reachable(db) && LiveRows(db)
    ensures LiveRows(Merge(db, d0, s0).0)
  {
    ReachableInv(db);
    if Merge(db, d0, s0).1.Merged? {
      RootAt(db, d0);
      RootAt(db, s0);
      JoinLiveRows(db, Root(db.alias, d0), Root(db.alias, s0));
    }
  }

  ghost predicate NoStaleAttach(db: Db, ops: seq<Op>)
    decreases |ops|
  {
    ops == [] || (!StaleAttach(db, ops[0]) && NoStaleAttach(Apply(db, ops[0]), ops[1..]))
  }

  /** A login on a retired account is never moved off it. */
  lemma StaleRowStays(db: Db, op: Op, k: Key)
    requires Reachable(db) && k in db.ident && Retired(db.alias, db.ident[k])
    ensures var y := Apply(db, op);
            k in y.ident && y.ident[k] == db.ident[k] && Retired(y.alias, y.ident[k])
  {
    ReachableInv(db);
    if op.DoMerge? && Merge(db, op.destination, op.source).1.Merged? {
      var d, s := Root(db.alias, op.destination), Root(db.alias, op.source);
      RootAt(db, op.source);
      RootAt(db, op.destination);
      Extend(db.alias, s, d);
    }
  }

  lemma {:induction false} StaleRowRun(db: Db, ops: seq<Op>, k: Key)
    requires Reachable(db) && k in db.ident && Retired(db.alias, db.ident[k])
    ensures !LiveRows(Run(db, ops))
    decreases |ops|
  {
    if ops != [] {
      StaleRowStays(db, ops[0], k);
      ReachesByStep(db, ops[0]);
      StaleRowRun(Apply(db, ops[0]), ops[1..], k);
    }
  }

  /** After any run every login is on a live account if and only if no attach of the run was stale. */
  lemma {:induction false} LiveRowsRun(db: Db, ops: seq<Op>)
    requires Reachable(db) && LiveRows(db)
    ensures LiveRows(Run(db, ops)) <==> NoStaleAttach(db, ops)
    decreases |ops|
  {
    if ops != [] {
      LiveRowsStep(db, ops[0]);
      ReachesByStep(db, ops[0]);
      var next := Apply(db, ops[0]);
      if LiveRows(next) {
        LiveRowsRun(next, ops[1..]);
      } else {
        var k :| k in next.ident && Retired(next.alias, next.ident[k]);
        StaleRowRun(next, ops[1..], k);
      }
    }
  }

  /** Without such an attach every login of every run resolves at its first lookup. */
  lemma {:induction false} LoginsResolve(db: Db, ops: seq<Op>, k: Key)
    requires Reachable(db) && LiveRows(db) && NoStaleAttach(db, ops)
    requires k in Run(db, ops).ident
    ensures Resolve(Run(db, ops), k) == Some(Found(Run(db, ops).ident[k]))
    decreases |ops|
  {
    if ops == [] {
      LiveLookup(db, k);
    } else {
      LiveRowsStep(db, ops[0]);
      ReachesByStep(db, ops[0]);
      LoginsResolve(Apply(db, ops[0]), ops[1..], k);
    }
  }

  /** Account 0 is merged into 1, that into 2, and so on up to `n`. */
  function OnwardMerges(n: nat): seq<Op>
  {
    if n == 0 then [DoCreate(0, {})]
    else OnwardMerges(n - 1) + [DoCreate(n, {}), DoMerge(n, n - 1)]
  }

  function Upto(n: nat): (s: set<Account>)
    ensures forall a: Account :: a in s <==> a <= n
  {
    if n == 0 then {0} else Upto(n - 1) + {n}
  }

  function OnwardDb(n: nat): Db
  {
    EMPTY.(accounts := Upto(n), alias := Ladder(n))
  }

  /** With no logins, credit or holds a merge only adds its alias row. */
  lemma PlainMerge(db: Db, d: Account, s: Account)
    requires db.ident == map[] && db.money == map[] && db.busy == {}
    requires d != s && d in db.accounts && s in db.accounts
    requires Canonical(db.alias, d) == Found(d) && Canonical(db.alias, s) == Found(s)
    ensures Merge(db, d, s).0 == db.(alias := db.alias + [Alias(s, d)])
  {
    assert Join(db, d, s) == db.(alias := db.alias + [Alias(s, d)]);
  }

  lemma PlainCreate(db: Db, a: Account)
    requires a !in db.accounts
    ensures Create(db, a, {}).0 == db.(accounts := db.accounts + {a})
  {
    assert Create(db, a, {}).0.ident == db.ident;
  }

  lemma PlainStep(y: Db, s: Account, d: Account)
    requires y.ident == map[] && y.money == map[] && y.busy == {}
    requires s in y.accounts && d !in y.accounts
    requires Canonical(y.alias, d) == Found(d) && Canonical(y.alias, s) == Found(s)
    ensures Apply(Apply(y, DoCreate(d, {})), DoMerge(d, s)) ==
            y.(accounts := y.accounts + {d}, alias := y.alias + [Alias(s, d)])
  {
    PlainCreate(y, d);
    PlainMerge(y.(accounts := y.accounts + {d}), d, s);
  }

  lemma OnwardStep(n: nat)
    requires n > 0
    ensures Apply(Apply(OnwardDb(n - 1), DoCreate(n, {})), DoMerge(n, n - 1)) == OnwardDb(n)
  {
    var y := OnwardDb(n - 1);
    LadderTop(n - 1, n);
    LadderTop(n - 1, n - 1);
    PlainStep(y, n - 1, n);
    assert OnwardDb(n) == y.(accounts := y.accounts + {n}, alias := y.alias + [Alias(n - 1, n)]);
  }

  lemma {:induction false} OnwardRun(n: nat)
    ensures Run(EMPTY, OnwardMerges(n)) == OnwardDb(n)
  {
    if n == 0 {
      assert Run(Apply(EMPTY, OnwardMerges(0)[0]), OnwardMerges(0)[1..]) == Apply(EMPTY, DoCreate(0, {}));
    } else {
      OnwardRun(n - 1);
      OnwardStep(n);
      var pair := [DoCreate(n, {}), DoMerge(n, n - 1)];
      var y := Apply(OnwardDb(n - 1), pair[0]);
      RunConcat(EMPTY, OnwardMerges(n - 1), pair);
      assert Run(y, pair[1..]) == Run(Apply(y, pair[1]), []);
    }
  }

  /** Merging an account onward is never refused, so a token for account 0 still resolves
      after `n` such merges exactly when `n` is at most seven. */
  lemma OnwardLookup(n: nat)
    ensures Reachable(OnwardDb(n))
    ensures Canonical(OnwardDb(n).alias, 0).Found? <==> n <= 7
    ensures n <= 7 ==> Canonical(OnwardDb(n).alias, 0) == Found(n)
  {
    OnwardRun(n);
    LadderDepth(n);
  }

  /** Account 0 was merged onward to 7, and meanwhile a legacy name was attached to it; the stable name is 8's. */
  function FarDb(p: Key, l: Key): Db
  {
    OnwardDb(7).(accounts := Upto(8), ident := map[l := 0][p := 8])
  }

  lemma FarAttach(far: Db, l: Key)
    requires 0 in far.accounts && far.ident == map[]
    ensures Apply(far, DoAttach(0, l)) == far.(ident := map[l := 0])
  {
  }

  lemma FarCreate(far: Db, p: Key, l: Key)
    requires p != l && far.ident == map[l := 0] && 8 !in far.accounts
    ensures Apply(far, DoCreate(8, {p})) == far.(accounts := far.accounts + {8}, ident := map[l := 0][p := 8])
  {
    assert Enter(far.ident, {p}, 8) == map[l := 0][p := 8];
  }

  lemma FarReachable(p: Key, l: Key)
    requires p != l
    ensures Reachable(FarDb(p, l))
  {
    var far := OnwardDb(7);
    OnwardRun(7);
    FarAttach(far, l);
    ReachesByStep(far, DoAttach(0, l));
    FarCreate(far.(ident := map[l := 0]), p, l);
    ReachesByStep(far.(ident := map[l := 0]), DoCreate(8, {p}));
    assert Upto(8) == Upto(7) + {8};
  }

  /** Such a subject is resolved once. The second time its legacy name is eight rows away. */
  method ResolvedOnce(p: Key, l: Key) returns (status: Status, again: Status)
    requires p != l
    ensures Reachable(FarDb(p, l)) && status.Ok? && !again.Ok?
  {
    var far := FarDb(p, l);
    FarReachable(p, l);
    LadderDepth(7);
    LadderTop(7, 8);
    OneHop(far.alias, 8);
    var first, owner, second, owner2;
    first, owner, status, second, owner2, again := ResolveTwice(far, p, l, i => []);
  }

  // ---- credit ---------------------------------------------------------------------

  function Total(l: seq<Entry>): Money
  {
    if l == [] then Money(0, 0)
    else
      var m := Total(l[..|l| - 1]);
      Money(m.balance + l[|l| - 1].delta, m.funded + l[|l| - 1].funded)
  }

  /** A merge moves the source's credit, bought part included, and creates none. */
  lemma MergeConserves(db: Db, d0: Account, s0: Account)
    requires Reachable(db) && Merge(db, d0, s0).1.Merged?
    ensures var (d, s, y) := (Root(db.alias, d0), Root(db.alias, s0), Merge(db, d0, s0).0);
            && Money0(y, d).balance == Money0(db, d).balance + Money0(db, s).balance
            && Money0(y, d).funded == Money0(db, d).funded + Money0(db, s).funded
            && Money0(y, s) == Money(0, 0)
            && (forall a :: a != d && a != s ==> Money0(y, a) == Money0(db, a))
            && Total(y.ledger) == Total(db.ledger)
  {
    var d, s := Root(db.alias, d0), Root(db.alias, s0);
    ReachableInv(db);
    RootAt(db, d0);
    MoveMoneyKeepsLedger(db, d, s);
    var y := MoveMoney(db, d, s);
    if y.ledger != db.ledger {
      var m := Money0(db, s);
      var once := db.ledger + [Entry(s, -m.balance, -m.funded, MergeOut(|db.alias|))];
      assert y.ledger == once + [Entry(d, m.balance, m.funded, MergeIn(|db.alias|))];
      assert y.ledger[..|y.ledger| - 1] == once && once[..|once| - 1] == db.ledger;
    }
  }

  /** Over every run the balance of an account is the sum of its ledger rows, is never
      overdrawn, and is zero once the account was merged away. */
  lemma CreditSound(ops: seq<Op>, a: Account)
    ensures var db := Run(EMPTY, ops);
            && Money0(db, a) == LedgerSum(db.ledger, a)
            && 0 <= Money0(db, a).funded <= Money0(db, a).balance
            && (Retired(db.alias, a) ==> Money0(db, a) == Money(0, 0))
  {
    assert Reachable(Run(EMPTY, ops));
    ReachableInv(Run(EMPTY, ops));
  }

  /** No two ledger rows have one reference; those of merges are numbered by the alias rows. */
  ghost predicate RefsSound(db: Db)
  {
    && (forall i, j :: 0 <= i < j < |db.ledger| ==> db.ledger[i].ref != db.ledger[j].ref)
    && (forall i :: 0 <= i < |db.ledger| && !db.ledger[i].ref.Given? ==> db.ledger[i].ref.n < |db.alias|)
  }

  lemma RefsStep(db: Db, op: Op)
    requires RefsSound(db)
    ensures RefsSound(Apply(db, op)) && db.ledger <= Apply(db, op).ledger
  {
  }

  /** The ledger is only appended to, and over every run each reference moves value at most once. */
  lemma {:induction false} RefsRun(db: Db, ops: seq<Op>)
    requires RefsSound(db)
    ensures RefsSound(Run(db, ops)) && db.ledger <= Run(db, ops).ledger
    decreases |ops|
  {
    if ops != [] {
      RefsStep(db, ops[0]);
      RefsRun(Apply(db, ops[0]), ops[1..]);
    }
  }

  /** A credit or debit repeated at any later time, for any account and amount, changes nothing. */
  lemma ReplayIgnored(db: Db, ops: seq<Op>, ref: string, a: Account, amount: int, funded: int)
    requires RefsSound(db) && Used(db.ledger, Given(ref))
    ensures var y := Run(db, ops); Credit(y, a, amount, funded, ref) == y && Debit(y, a, amount, ref) == y
  {
    RefsRun(db, ops);
    var i :| 0 <= i < |db.ledger| && db.ledger[i].ref == Given(ref);
    assert Run(db, ops).ledger[i].ref == Given(ref);
  }

  // ---- nonces -----------------------------------------------------------------------

  /** How many times `n` was accepted in a run, and how many times it was issued. */
  function Spent(db: Db, ops: seq<Op>, n: string): nat
    decreases |ops|
  {
    if ops == [] then 0
    else
      (if ops[0] == Consume(n) && n in db.nonces then 1 else 0) + Spent(Apply(db, ops[0]), ops[1..], n)
  }

  function Issued(ops: seq<Op>, n: string): nat
  {
    if ops == [] then 0
    else (if ops[0].Issue? && ops[0].nonce == n then 1 else 0) + Issued(ops[1..], n)
  }

  function Present(db: Db, n: string): nat
  {
    if n in db.nonces then 1 else 0
  }

  lemma NoncesStay(db: Db, op: Op)
    ensures !op.Issue? && !op.Consume? && !op.Expire? ==> Apply(db, op).nonces == db.nonces
  {
  }

  /** In every interleaving a nonce is accepted at most as often as it was issued. */
  lemma {:induction false} SpentAtMostIssued(db: Db, ops: seq<Op>, n: string)
    ensures Spent(db, ops, n) + Present(Run(db, ops), n) <= Issued(ops, n) + Present(db, n)
    decreases |ops|
  {
    if ops != [] {
      SpentAtMostIssued(Apply(db, ops[0]), ops[1..], n);
      NoncesStay(db, ops[0]);
    }
  }

  /** A nonce minted once lets at most one caller through. */
  lemma SingleUse(ops: seq<Op>, n: string)
    requires Issued(ops, n) <= 1
    ensures Spent(EMPTY, ops, n) <= 1
  {
    SpentAtMostIssued(EMPTY, ops, n);
  }
}
