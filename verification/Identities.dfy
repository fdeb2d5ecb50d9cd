// The account database and its transactions: identities, merges, credit and
// single-use nonces. Each transaction is one function, so a run of the system is a
// sequence of operations in any interleaving of the requests that issue them.

module Identities {

  import opened Common
  import opened AliasForest

  datatype Kind = Wallet | Google | GitHub | Email | App

  /** A proved login: (kind, subject) is unique in the identity table. */
  datatype Key = Key(kind: Kind, subject: string)

  /** Spendable credit, and the part of it that was bought. */
  datatype Money = Money(balance: int, funded: int)

  /** What a ledger row is about: the caller's reference, or one side of the n-th merge. The column is
      unique. */
  datatype Ref = Given(text: string) | MergeOut(n: nat) | MergeIn(n: nat)

  datatype Entry = Entry(account: Account, delta: int, funded: int, ref: Ref)

  predicate Used(l: seq<Entry>, ref: Ref)
  {
    exists i :: 0 <= i < |l| && l[i].ref == ref
  }

  /** What a nonce is bound to when it is issued. */
  datatype Challenge =
    | Siwe(address: string, message: string)
    | ServiceSiwe(service: string, subject: Option<string>, wallet: string, text: string)
    | Legacy

  datatype Db = Db(
    accounts: set<Account>,
    alias: Table,
    ident: map<Key, Account>,
    money: map<Account, Money>,
    ledger: seq<Entry>,
    busy: set<Account>,
    nonces: map<string, Challenge>)

  const EMPTY := Db({}, [], map[], map[], [], {}, map[])

  /** The reply of a transaction. `Refused` is the ValueError a handler turns into a
      409, `Fault` any other exception. */
  datatype Reply =
    | Linked
    | Already(account: Account)
    | Taken(owner: Account)
    | Merged
    | Refused
    | Fault

  // ---- reading -------------------------------------------------------------

  function Money0(db: Db, a: Account): Money
  {
    if a in db.money then db.money[a] else Money(0, 0)
  }

  /** `resolve_identity`: the live owner of a proved login. */
  function Resolve(db: Db, k: Key): Option<Lookup>
  {
    if k in db.ident then Some(Canonical(db.alias, db.ident[k])) else None
  }

  /** The account a login belongs to once every merge is taken into account. */
  function Owner(db: Db, k: Key): Account
    requires k in db.ident
  {
    Root(db.alias, db.ident[k])
  }

  // ---- transactions ----------------------------------------------------------

  /** The login table with new rows for `a`. */
  function Enter(ident: map<Key, Account>, keys: set<Key>, a: Account): map<Key, Account>
  {
    map k | k in ident.Keys + keys :: if k in keys then a else ident[k]
  }

  /** `create_account`: a new row and its logins, or an IntegrityError. */
  function Create(db: Db, a: Account, keys: set<Key>): (r: (Db, Reply))
  {
    if a in db.accounts || exists k :: k in keys && k in db.ident then (db, Fault)
    else
      (db.(accounts := db.accounts + {a}, ident := Enter(db.ident, keys, a)), Linked)
  }

  /** The transaction of `attach_identity`. `aid` was resolved before it began, so it
      may have been retired in the meantime. */
  function Attach(db: Db, aid: Account, k: Key): (r: (Db, Reply))
  {
    match Resolve(db, k)
    case Some(Found(owner)) => (db, if owner == aid then Already(aid) else Taken(owner))
    case Some(_) => (db, Fault)
    case None => if aid !in db.accounts then (db, Fault) else (db.(ident := db.ident[k := aid]), Linked)
  }

  /** Purchased credit follows the merge through two ledger rows. */
  function MoveMoney(db: Db, d: Account, s: Account): Db
  {
    var from, to := Money0(db, s), Money0(db, d);
    if from.balance <= 0 then db
    else
      db.(money := db.money[d := Money(to.balance + from.balance, to.funded + from.funded)][s := Money(0, 0)],
          ledger := db.ledger + [Entry(s, -from.balance, -from.funded, MergeOut(|db.alias|)),
                                 Entry(d, from.balance, from.funded, MergeIn(|db.alias|))])
  }

  /** `s` is retired in favour of `d`: its credit, its logins and its alias row. */
  function Join(db: Db, d: Account, s: Account): Db
  {
    MoveMoney(db, d, s).(
      alias := db.alias + [Alias(s, d)],
      ident := map k | k in db.ident :: if db.ident[k] == s then d else db.ident[k])
  }

  /** The transaction of `merge_accounts`. `d0` and `s0` were resolved before the row
      locks were taken; both are resolved again under the locks. */
  function Merge(db: Db, d0: Account, s0: Account): (r: (Db, Reply))
  {
    if d0 == s0 || d0 !in db.accounts || s0 !in db.accounts then (db, Refused)
    else
      match (Canonical(db.alias, d0), Canonical(db.alias, s0))
      case (Found(d), Found(s)) =>
        if d == s then (db, Already(d))
        else if d !in {d0, s0} || s !in {d0, s0} then (db, Refused)
        else if d in db.busy || s in db.busy then (db, Refused)
        else (Join(db, d, s), Merged)
      case _ => (db, Fault)
  }

  /** `credit`: value is added to the live account that `a` stands for, once for each reference. */
  function Credit(db: Db, a: Account, amount: int, funded: int, ref: string): Db
  {
    match Canonical(db.alias, a)
    case Found(root) =>
      if amount <= 0 || !(0 <= funded <= amount) || root !in db.accounts || Used(db.ledger, Given(ref)) then db
      else
        var m := Money0(db, root);
        db.(money := db.money[root := Money(m.balance + amount, m.funded + funded)],
            ledger := db.ledger + [Entry(root, amount, funded, Given(ref))])
    case _ => db
  }

  /** `debit`: conditional on the balance of the live account, bought credit first, once for each
      reference. The row is written before the balance is tested; a failed test rolls it back. */
  function Debit(db: Db, a: Account, amount: int, ref: string): Db
  {
    match Canonical(db.alias, a)
    case Found(root) =>
      if amount <= 0 || Used(db.ledger, Given(ref)) then db
      else
        var m := Money0(db, root);
        var used := if m.funded < amount then m.funded else amount;
        var written := db.(ledger := db.ledger + [Entry(root, -amount, -used, Given(ref))]);
        if root !in db.money || m.balance < amount then db
        else written.(money := db.money[root := Money(m.balance - amount, m.funded - used)])
    case _ => db
  }

  datatype Op =
    | DoCreate(account: Account, keys: set<Key>)
    | DoAttach(aid: Account, key: Key)
    | DoMerge(destination: Account, source: Account)
    | DoCredit(payee: Account, amount: int, funded: int, ref: string)
    | DoDebit(payer: Account, price: int, ref: string)
    | Hold(account: Account)
    | Release(account: Account)
    | Issue(nonce: string, challenge: Challenge)
    | Consume(nonce: string)
    | Expire(nonce: string)

  function Apply(db: Db, op: Op): Db
  {
    match op
    case DoCreate(a, keys) => Create(db, a, keys).0
    case DoAttach(aid, k) => Attach(db, aid, k).0
    case DoMerge(d, s) => Merge(db, d, s).0
    case DoCredit(a, amount, funded, ref) => Credit(db, a, amount, funded, ref)
    case DoDebit(a, amount, ref) => Debit(db, a, amount, ref)
    case Hold(a) => db.(busy := db.busy + {a})
    case Release(a) => db.(busy := db.busy - {a})
    case Issue(n, c) => db.(nonces := db.nonces[n := c])
    case Consume(n) => db.(nonces := db.nonces - {n})
    case Expire(n) => db.(nonces := db.nonces - {n})
  }

  function Run(db: Db, ops: seq<Op>): Db
    decreases |ops|
  {
    if ops == [] then db else Run(Apply(db, ops[0]), ops[1..])
  }

  // ---- the invariant -----------------------------------------------------------

  function LedgerSum(l: seq<Entry>, a: Account): Money
  {
    if l == [] then Money(0, 0)
    else
      var last, m := l[|l| - 1], LedgerSum(l[..|l| - 1], a);
      if last.account == a then Money(m.balance + last.delta, m.funded + last.funded) else m
  }

  /** Aliases form a forest over existing accounts and logins point at existing accounts. */
  ghost predicate Structure(db: Db)
  {
    && Forest(db.alias)
    && (forall a :: Retired(db.alias, a) ==> a in db.accounts)
    && (forall a {:trigger Root(db.alias, a)} :: a in db.accounts ==> Root(db.alias, a) in db.accounts)
    && (forall k :: k in db.ident ==> db.ident[k] in db.accounts)
  }

  /** Balances are what the ledger says, never overdrawn, never more bought than spendable,
      and never left on an account that was merged away. */
  ghost predicate Funds(db: Db)
  {
    && (forall a :: Money0(db, a) == LedgerSum(db.ledger, a))
    && (forall a :: 0 <= Money0(db, a).funded <= Money0(db, a).balance)
    && (forall a :: a !in db.accounts || Retired(db.alias, a) ==> Money0(db, a) == Money(0, 0))
  }

  ghost predicate Inv(db: Db)
  {
    Structure(db) && Funds(db)
  }

  /** `a` and the account it stood for at `x` still stand for the same account at `y`. */
  ghost predicate SameFamily(x: Db, y: Db, a: Account)
  {
    Root(y.alias, Root(x.alias, a)) == Root(y.alias, a)
  }

  /** The login `k` of `x` is still there, in the family of the account it named. */
  ghost predicate SameLogin(x: Db, y: Db, k: Key)
    requires k in x.ident
  {
    k in y.ident && Root(y.alias, y.ident[k]) == Root(y.alias, x.ident[k])
  }

  /** How a later database relates to an earlier one: nothing disappears and no two
      things that belonged together come apart. */
  ghost predicate Grows(x: Db, y: Db)
  {
    && x.accounts <= y.accounts
    && (forall a :: SameFamily(x, y, a))
    && (forall k :: k in x.ident ==> SameLogin(x, y, k))
  }

  lemma GrowsReflexive(x: Db)
    requires Structure(x)
    ensures Grows(x, x)
  {
    forall a
      ensures SameFamily(x, x, a)
    {
      RootIsLive(x.alias, a);
    }
  }

  /** A transaction without a merge only adds rows. */
  lemma GrowsByRows(x: Db, y: Db)
    requires Structure(x)
    requires y.alias == x.alias && x.accounts <= y.accounts
    requires forall k :: k in x.ident ==> k in y.ident && y.ident[k] == x.ident[k]
    ensures Grows(x, y)
  {
    GrowsReflexive(x);
    forall a
      ensures SameFamily(x, y, a)
    {
      assert SameFamily(x, x, a);
    }
  }

  lemma GrowsTransitive(x: Db, y: Db, z: Db)
    requires Grows(x, y) && Grows(y, z)
    ensures Grows(x, z)
  {
    forall a
      ensures SameFamily(x, z, a)
    {
      assert SameFamily(x, y, a) && SameFamily(y, z, a) && SameFamily(y, z, Root(x.alias, a));
    }
    forall k | k in x.ident
      ensures SameLogin(x, z, k)
    {
      assert SameLogin(x, y, k) && SameLogin(y, z, k);
      assert SameFamily(y, z, y.ident[k]) && SameFamily(y, z, x.ident[k]);
    }
  }

  lemma LedgerAppend(l: seq<Entry>, e: Entry, a: Account)
    ensures LedgerSum(l + [e], a) ==
            var m := LedgerSum(l, a);
            if e.account == a then Money(m.balance + e.delta, m.funded + e.funded) else m
  {
    assert (l + [e])[..|l|] == l;
  }

  lemma MoveMoneyKeepsLedger(db: Db, d: Account, s: Account)
    requires d != s && Funds(db) && d in db.accounts && s in db.accounts && !Retired(db.alias, d)
    ensures var m := MoveMoney(db, d, s);
            && m == db.(money := m.money, ledger := m.ledger)
            && Money0(m, s) == Money(0, 0)
            && Money0(m, d).balance == Money0(db, d).balance + Money0(db, s).balance
            && Money0(m, d).funded == Money0(db, d).funded + Money0(db, s).funded
            && (forall a :: a != s && a != d ==> Money0(m, a) == Money0(db, a))
            && (forall a :: Money0(m, a) == LedgerSum(m.ledger, a))
  {
    var from := Money0(db, s);
    var e := Entry(s, -from.balance, -from.funded, MergeOut(|db.alias|));
    var f := Entry(d, from.balance, from.funded, MergeIn(|db.alias|));
    assert db.ledger + [e, f] == db.ledger + [e] + [f];
    forall a
      ensures Money0(MoveMoney(db, d, s), a) == LedgerSum(MoveMoney(db, d, s).ledger, a)
    {
      LedgerAppend(db.ledger, e, a);
      LedgerAppend(db.ledger + [e], f, a);
    }
  }

  lemma JoinKeeps(db: Db, d: Account, s: Account)
    requires Inv(db) && d != s && d in db.accounts && s in db.accounts
    requires !Retired(db.alias, d) && !Retired(db.alias, s)
    ensures Inv(Join(db, d, s))
    ensures Grows(db, Join(db, d, s))
  {
    Extend(db.alias, s, d);
    MoveMoneyKeepsLedger(db, d, s);
    GrowsReflexive(db);
    OneHop(db.alias, d);
    OneHop(db.alias, s);
    var j := Join(db, d, s);
    assert Structure(j);
    forall a
      ensures SameFamily(db, j, a)
    {
      assert SameFamily(db, db, a);
    }
    assert forall a :: Money0(j, a) == Money0(MoveMoney(db, d, s), a);
    assert Funds(j);
  }

  /** A merge decided on stale reads still joins two live accounts. */
  lemma MergeFacts(db: Db, d0: Account, s0: Account)
    requires Inv(db)
    ensures var (db', r) := Merge(db, d0, s0);
            && Inv(db') && Grows(db, db')
            && (r.Merged? || r.Already? ==> Root(db'.alias, d0) == Root(db'.alias, s0))
            && (!r.Merged? ==> db' == db)
            && (r.Already? ==> r.account == Root(db.alias, d0))
  {
    var (db', r) := Merge(db, d0, s0);
    GrowsReflexive(db);
    if r.Merged? {
      var d, s := Root(db.alias, d0), Root(db.alias, s0);
      RootIsLive(db.alias, d0);
      RootIsLive(db.alias, s0);
      JoinKeeps(db, d, s);
      Extend(db.alias, s, d);
    }
  }

  lemma CreditFacts(db: Db, a: Account, amount: int, funded: int, ref: string)
    requires Inv(db)
    ensures Inv(Credit(db, a, amount, funded, ref))
  {
    RootIsLive(db.alias, a);
    forall b {
      LedgerAppend(db.ledger, Entry(Root(db.alias, a), amount, funded, Given(ref)), b);
    }
  }

  lemma DebitFacts(db: Db, a: Account, amount: int, ref: string)
    requires Inv(db)
    ensures Inv(Debit(db, a, amount, ref))
  {
    var m := Money0(db, Root(db.alias, a));
    var used := if m.funded < amount then m.funded else amount;
    forall b {
      LedgerAppend(db.ledger, Entry(Root(db.alias, a), -amount, -used, Given(ref)), b);
    }
  }

  /** A valid top-up with a new reference adds exactly its amount and its bought part to the live account;
      anything else changes nothing. */
  lemma CreditExact(db: Db, a: Account, amount: int, funded: int, ref: string)
    ensures var (y, root) := (Credit(db, a, amount, funded, ref), Root(db.alias, a));
            if Canonical(db.alias, a).Found? && root in db.accounts && 0 <= funded <= amount && amount > 0
               && !Used(db.ledger, Given(ref))
            then
              && Money0(y, root).balance == Money0(db, root).balance + amount
              && Money0(y, root).funded == Money0(db, root).funded + funded
              && (forall b :: b != root ==> Money0(y, b) == Money0(db, b))
            else y == db
  {
  }

  /** A covered debit with a new reference takes exactly its amount from the live account, bought credit
      first; anything else changes nothing. */
  lemma DebitExact(db: Db, a: Account, amount: int, ref: string)
    requires Funds(db)
    ensures var (y, root) := (Debit(db, a, amount, ref), Root(db.alias, a));
            var m := Money0(db, root);
            if Canonical(db.alias, a).Found? && 0 < amount <= m.balance && !Used(db.ledger, Given(ref))
            then
              && Money0(y, root).balance == m.balance - amount
              && Money0(y, root).funded == (if m.funded > amount then m.funded - amount else 0)
              && (forall b :: b != root ==> Money0(y, b) == Money0(db, b))
            else y == db
  {
  }

  lemma CreateFacts(db: Db, a: Account, keys: set<Key>)
    requires Inv(db)
    ensures Inv(Create(db, a, keys).0)
  {
    OneHop(db.alias, a);
  }

  lemma AttachFacts(db: Db, aid: Account, k: Key)
    requires Inv(db)
    ensures Inv(Attach(db, aid, k).0)
  {
    var y := Attach(db, aid, k).0;
    assert y == db.(ident := y.ident);
  }

  /** Every transaction keeps the invariant and never takes anything apart. */
  lemma StepKeeps(db: Db, op: Op)
    requires Inv(db)
    ensures Inv(Apply(db, op)) && Grows(db, Apply(db, op))
  {
    if op.DoMerge? {
      MergeFacts(db, op.destination, op.source);
    } else {
      match op {
        case DoCredit(a, amount, funded, ref) => CreditFacts(db, a, amount, funded, ref);
        case DoDebit(a, amount, ref) => DebitFacts(db, a, amount, ref);
        case DoCreate(a, keys) => CreateFacts(db, a, keys);
        case DoAttach(aid, k) => AttachFacts(db, aid, k);
        case _ =>
      }
      GrowsByRows(db, Apply(db, op));
    }
  }

  lemma {:induction false} RunKeeps(db: Db, ops: seq<Op>)
    requires Inv(db)
    ensures Inv(Run(db, ops)) && Grows(db, Run(db, ops))
    decreases |ops|
  {
    if ops == [] {
      GrowsReflexive(db);
    } else {
      var next := Apply(db, ops[0]);
      StepKeeps(db, ops[0]);
      RunKeeps(next, ops[1..]);
      GrowsTransitive(db, next, Run(db, ops));
    }
  }

  // ---- runs ---------------------------------------------------------------------

  /** `y` comes from `x` by some transactions, in some order. */
  ghost predicate Reaches(x: Db, y: Db)
  {
    exists ops :: Run(x, ops) == y
  }

  ghost predicate Reachable(db: Db)
  {
    Reaches(EMPTY, db)
  }

  lemma {:induction false} RunConcat(db: Db, a: seq<Op>, b: seq<Op>)
    ensures Run(db, a + b) == Run(Run(db, a), b)
    decreases |a|
  {
    if a == [] {
      assert a + b == b;
    } else {
      assert (a + b)[0] == a[0] && (a + b)[1..] == a[1..] + b;
      RunConcat(Apply(db, a[0]), a[1..], b);
    }
  }

  lemma ReachesTransitive(x: Db, y: Db, z: Db)
    requires Reaches(x, y) && Reaches(y, z)
    ensures Reaches(x, z)
  {
    var a :| Run(x, a) == y;
    var b :| Run(y, b) == z;
    RunConcat(x, a, b);
  }

  lemma ReachesByRun(x: Db, ops: seq<Op>)
    requires Reachable(x)
    ensures Reaches(x, Run(x, ops)) && Reachable(Run(x, ops))
  {
    ReachesTransitive(EMPTY, x, Run(x, ops));
  }

  lemma ReachesByStep(x: Db, op: Op)
    requires Reachable(x)
    ensures Reaches(x, Apply(x, op)) && Reachable(Apply(x, op))
  {
    assert Run(x, [op]) == Apply(x, op) by {
      assert Run(Apply(x, op), [op][1..]) == Apply(x, op);
    }
    ReachesTransitive(EMPTY, x, Apply(x, op));
  }

  lemma ReachesNothing(x: Db)
    ensures Reaches(x, x)
  {
    assert Run(x, []) == x;
  }

  /** Every reachable database is a forest with sound accounts. */
  lemma ReachableInv(db: Db)
    requires Reachable(db)
    ensures Inv(db)
  {
    var ops :| Run(EMPTY, ops) == db;
    assert Inv(EMPTY);
    RunKeeps(EMPTY, ops);
  }

  lemma ReachesGrows(x: Db, y: Db)
    requires Reachable(x) && Reaches(x, y)
    ensures Grows(x, y)
  {
    ReachableInv(x);
    var ops :| Run(x, ops) == y;
    RunKeeps(x, ops);
  }
}
