// The table of retired accounts (grid_account_aliases) and the bounded walk that
// resolves a retired account to the account that replaced it.

module AliasForest {

  import opened Common

  type Account = nat

  /** One row: `source` was merged into `canonical`. */
  datatype Alias = Alias(source: Account, canonical: Account)

  /** The rows in order of creation. `source` is the primary key. */
  type Table = seq<Alias>

  /** What `canonical_account_id` reports. */
  datatype Lookup = Found(account: Account) | TooLong | Cycle

  /** The canonical account stored for `a`, if `a` was retired. */
  function Next(t: Table, a: Account): Option<Account>
  {
    if t == [] then None
    else
      var last := t[|t| - 1];
      if last.source == a then Some(last.canonical) else Next(t[..|t| - 1], a)
  }

  predicate Retired(t: Table, a: Account)
  {
    Next(t, a).Some?
  }

  /** Every row was created between two accounts that were both still live. */
  predicate Forest(t: Table)
  {
    t == [] ||
    var last, init := t[|t| - 1], t[..|t| - 1];
    && Forest(init)
    && last.source != last.canonical
    && !Retired(init, last.source)
    && !Retired(init, last.canonical)
  }

  /** The live account that `a` stands for: the merges replayed in order. */
  function Root(t: Table, a: Account): Account
  {
    if t == [] then a
    else
      var last, r := t[|t| - 1], Root(t[..|t| - 1], a);
      if r == last.source then last.canonical else r
  }

  /** How many rows separate `a` from its root. */
  function Depth(t: Table, a: Account): nat
  {
    if t == [] then 0
    else
      var init := t[..|t| - 1];
      Depth(init, a) + if Root(init, a) == t[|t| - 1].source then 1 else 0
  }

  /** Following `n` rows from `a`. */
  function Hops(t: Table, a: Account, n: nat): Option<Account>
    decreases n
  {
    if n == 0 then Some(a)
    else
      match Next(t, a)
      case None => None
      case Some(b) => Hops(t, b, n - 1)
  }

  /** A hop keeps the root and comes one row closer to it; a live account is its own root. */
  lemma {:induction false} OneHop(t: Table, a: Account)
    requires Forest(t)
    ensures match Next(t, a)
            case None => Root(t, a) == a && Depth(t, a) == 0
            case Some(b) => Root(t, a) == Root(t, b) && Depth(t, a) == Depth(t, b) + 1
  {
    if t != [] {
      var last, init := t[|t| - 1], t[..|t| - 1];
      OneHop(init, a);
      OneHop(init, last.source);
      OneHop(init, last.canonical);
    }
  }

  lemma {:induction false} ManyHops(t: Table, a: Account, n: nat)
    requires Forest(t)
    requires Hops(t, a, n).Some?
    ensures Root(t, a) == Root(t, Hops(t, a, n).value)
    ensures Depth(t, a) == Depth(t, Hops(t, a, n).value) + n
    decreases n
  {
    OneHop(t, a);
    if n != 0 {
      ManyHops(t, Next(t, a).value, n - 1);
    }
  }

  /** No account is reached from itself: the aliases have no cycle. */
  lemma NoCycle(t: Table, a: Account, n: nat)
    requires Forest(t)
    requires n > 0
    ensures Hops(t, a, n) != Some(a)
  {
    if Hops(t, a, n).Some? {
      ManyHops(t, a, n);
    }
  }

  /** Roots are live, and resolving a root again changes nothing. */
  lemma {:induction false} RootIsLive(t: Table, a: Account)
    requires Forest(t)
    ensures !Retired(t, Root(t, a))
    ensures Root(t, Root(t, a)) == Root(t, a)
    decreases Depth(t, a)
  {
    OneHop(t, a);
    match Next(t, a)
    case None =>
    case Some(b) => RootIsLive(t, b);
  }

  lemma {:induction false} DepthBound(t: Table, a: Account)
    ensures Depth(t, a) <= |t|
  {
    if t != [] {
      DepthBound(t[..|t| - 1], a);
    }
  }

  /** Appending a merge of two live accounts redirects exactly the members of `s`. */
  lemma Extend(t: Table, s: Account, d: Account)
    requires Forest(t)
    requires s != d && !Retired(t, s) && !Retired(t, d)
    ensures Forest(t + [Alias(s, d)])
    ensures forall a :: Root(t + [Alias(s, d)], a) == if Root(t, a) == s then d else Root(t, a)
    ensures forall a :: Depth(t + [Alias(s, d)], a) == Depth(t, a) + if Root(t, a) == s then 1 else 0
    ensures forall a :: Retired(t + [Alias(s, d)], a) <==> Retired(t, a) || a == s
  {
    var u := t + [Alias(s, d)];
    assert u[..|u| - 1] == t;
  }

  /** The walk gives up after eight reads. */
  const MAX_READS: nat := 8

  /** What the walk reports, in terms of the root and the distance to it. */
  function Canonical(t: Table, a: Account): Lookup
  {
    if Depth(t, a) < MAX_READS then Found(Root(t, a)) else TooLong
  }

  /** The walk over the stored rows, as coded: at most eight reads and a set of
      accounts already visited. The error for a cycle is never raised on a forest. */
  method CanonicalAccountId(t: Table, a: Account) returns (r: Lookup)
    ensures Forest(t) ==> r == Canonical(t, a)
    ensures r.Found? ==> !Retired(t, r.account)
  {
    var current, seen := a, {};
    for i := 0 to MAX_READS
      invariant Forest(t) ==> Root(t, current) == Root(t, a) && Depth(t, current) + i == Depth(t, a)
      invariant Forest(t) ==> forall s :: s in seen ==> Depth(t, s) > Depth(t, current)
    {
      if current in seen {
        return Cycle;
      }
      seen := seen + {current};
      var next := Next(t, current);
      if Forest(t) {
        OneHop(t, current);
      }
      if next.None? {
        return Found(current);
      }
      current := next.value;
    }
    return TooLong;
  }

  /** Accounts 0..n merged one into the next: 0 -> 1 -> ... -> n. */
  function Ladder(n: nat): Table
  {
    if n == 0 then [] else Ladder(n - 1) + [Alias(n - 1, n)]
  }

  /** Merging a live account onward again and again is always allowed, and puts the
      first account as many rows away as there were merges. */
  lemma {:induction false} LadderDepth(n: nat)
    ensures Forest(Ladder(n))
    ensures Root(Ladder(n), 0) == n && Depth(Ladder(n), 0) == n
    ensures forall a :: a >= n ==> !Retired(Ladder(n), a)
  {
    if n != 0 {
      var t := Ladder(n - 1);
      LadderDepth(n - 1);
      assert !Retired(t, n - 1) && !Retired(t, n) && Root(t, 0) == n - 1 && Depth(t, 0) == n - 1;
      Extend(t, n - 1, n);
      assert Ladder(n) == t + [Alias(n - 1, n)];
    }
  }

  /** The end of the ladder and every account beyond it are live. */
  lemma LadderTop(n: nat, a: Account)
    requires a >= n
    ensures Canonical(Ladder(n), a) == Found(a)
  {
    LadderDepth(n);
    OneHop(Ladder(n), a);
    assert !Retired(Ladder(n), a);
  }
}
