// The two-level cache of horde_redis.py: a cluster of Redis servers, and a local Redis
// on every node in front of it. Times are milliseconds.

module HordeCache {

  import opened Common

  type Key = string
  type Value = string
  type Node = nat

  /** A stored value and the time from which it is gone, if any. */
  datatype Cell = Cell(value: Value, expires: Option<nat>)

  type Store = map<Key, Cell>

  const SECOND: nat := 1000
  const DAY: nat := 24 * 3600 * SECOND

  predicate Fresh(c: Cell, now: nat)
  {
    c.expires.None? || now < c.expires.value
  }

  /** GET. */
  function Visible(s: Store, now: nat, k: Key): Option<Value>
  {
    if k in s && Fresh(s[k], now) then Some(s[k].value) else None
  }

  /** TTL, in seconds as Redis rounds it; -1 without an expiry. */
  function Ttl(c: Cell, now: nat): int
  {
    match c.expires
    case None => -1
    case Some(e) => if e <= now then -2 else (e - now + 500) / SECOND
  }

  /** How long a value just fetched is kept locally. */
  function Keep(c: Cell, now: nat): (secs: nat)
    ensures 1 <= secs <= 5
  {
    var ttl := Ttl(c, now);
    if ttl > 5 then 5 else if ttl <= 0 then 2 else ttl
  }

  /** Two seconds for a value without an expiry; otherwise the seconds it has left, to the nearest, but no more than
      five, and two when that is none. */
  lemma KeepIs(c: Cell, now: nat, left: nat)
    requires c.expires.None? || c.expires == Some(now + left)
    ensures c.expires.None? ==> Keep(c, now) == 2
    ensures c.expires.Some? && left >= 5 * SECOND ==> Keep(c, now) == 5
    ensures c.expires.Some? && left < SECOND / 2 ==> Keep(c, now) == 2
    ensures c.expires.Some? && SECOND / 2 <= left < 5 * SECOND ==>
              left - SECOND / 2 < Keep(c, now) * SECOND <= left + SECOND / 2
  {
  }

  function Least(a: nat, b: nat): (r: nat)
    ensures r <= a && r <= b && (r == a || r == b)
  {
    if a < b then a else b
  }

  // ---- one node, as code --------------------------------------------------------------

  /** The servers every write goes to. */
  class Cluster {
    var servers: seq<Store>

    constructor (n: nat)
      ensures servers == seq(n, _ => map[])
    {
      servers := seq(n, _ => map[]);
    }
  }

  /** A write on the servers that are up; an exception on one is logged and skipped. */
  function Everywhere(servers: seq<Store>, up: seq<bool>, k: Key, c: Option<Cell>): (r: seq<Store>)
    ensures |r| == |servers|
  {
    seq(|servers|, i requires 0 <= i < |servers| =>
      if i < |up| && up[i] then (if c.Some? then servers[i][k := c.value] else servers[i] - {k}) else servers[i])
  }

  class HordeRedis {
    const cluster: Cluster
    const connected: bool    // was the cluster up at start?
    var local: Option<Store> // the local Redis, if it was up at start

    constructor (cluster: Cluster, connected: bool, hasLocal: bool)
      ensures this.cluster == cluster && this.connected == connected
      ensures local == if hasLocal then Some(map[]) else None
    {
      this.cluster, this.connected := cluster, connected;
      local := if hasLocal then Some(map[]) else None;
    }

    /** The loop over `all_horde_redis` shared by the writing operations. */
    method WriteAll(up: seq<bool>, k: Key, c: Option<Cell>)
      modifies cluster
      ensures cluster.servers == Everywhere(old(cluster.servers), up, k, c)
      ensures |cluster.servers| == |old(cluster.servers)|
      ensures forall i :: 0 <= i < |cluster.servers| ==>
                if i < |up| && up[i]
                then (if c.Some? then k in cluster.servers[i] && cluster.servers[i][k] == c.value else k !in cluster.servers[i])
                     && cluster.servers[i] - {k} == old(cluster.servers)[i] - {k}
                else cluster.servers[i] == old(cluster.servers)[i]
    {
      ghost var before := cluster.servers;
      for i := 0 to |cluster.servers|
        invariant |cluster.servers| == |before|
        invariant forall j :: 0 <= j < i ==> cluster.servers[j] == Everywhere(before, up, k, c)[j]
        invariant forall j :: i <= j < |before| ==> cluster.servers[j] == before[j]
      {
        if i < |up| && up[i] {
          var s := cluster.servers[i];
          cluster.servers := cluster.servers[i := if c.Some? then s[k := c.value] else s - {k}];
        }
      }
    }

    /** `horde_r_set`. */
    method Set(now: nat, k: Key, v: Value, up: seq<bool>)
      modifies this, cluster
      ensures cluster.servers == Everywhere(old(cluster.servers), up, k, Some(Cell(v, None)))
      ensures local == match old(local)
                       case None => None
                       case Some(s) => Some(s[k := Cell(v, Some(now + 10 * DAY))])
    {
      WriteAll(up, k, Some(Cell(v, None)));
      if local.Some? {
        local := Some(local.value[k := Cell(v, Some(now + 10 * DAY))]);
      }
    }

    /** `horde_r_setex`, with the expiry in whole seconds. */
    method SetEx(now: nat, k: Key, secs: nat, v: Value, up: seq<bool>)
      requires secs > 0
      modifies this, cluster
      ensures cluster.servers == Everywhere(old(cluster.servers), up, k, Some(Cell(v, Some(now + secs * SECOND))))
      ensures local == match old(local)
                       case None => None
                       case Some(s) => Some(s[k := Cell(v, Some(now + Least(secs * SECOND, 5 * DAY)))])
    {
      WriteAll(up, k, Some(Cell(v, Some(now + secs * SECOND))));
      var expiry := secs * SECOND;
      if expiry > 5 * DAY {
        expiry := 5 * DAY;
      }
      if local.Some? {
        local := Some(local.value[k := Cell(v, Some(now + expiry))]);
      }
    }

    /** `horde_r_delete`. */
    method Delete(k: Key, up: seq<bool>)
      modifies this, cluster
      ensures cluster.servers == Everywhere(old(cluster.servers), up, k, None)
      ensures local == match old(local)
                       case None => None
                       case Some(s) => Some(s - {k})
    {
      WriteAll(up, k, None);
      if local.Some? {
        local := Some(local.value - {k});
      }
    }

    /** `horde_r_get`. Reads go through one host name; `server` is the server that answers for it, if
        one does, and otherwise the read raises. */
    method Get(now: nat, k: Key, server: Option<nat>) returns (v: Option<Value>, raised: bool)
      requires server.Some? ==> server.value < |cluster.servers|
      modifies this
      ensures (v, local) == ReadThrough(cluster.servers, connected, old(local), now, k, server)
      ensures raised <==> (old(local).None? || Visible(old(local).value, now, k).None?) && connected && server.None?
      ensures old(local).Some? && Visible(old(local).value, now, k).Some? ==>
                v == Visible(old(local).value, now, k) && local == old(local)
      ensures (old(local).None? || Visible(old(local).value, now, k).None?) ==>
                && v == (if connected && server.Some? then Visible(cluster.servers[server.value], now, k) else None)
                && (old(local).None? || v.None? ==> local == old(local))
                && (old(local).Some? && v.Some? ==>
                      local == Some(old(local).value[k := Cell(v.value, Some(now + Keep(cluster.servers[server.value][k], now) * SECOND))]))
    {
      v, raised := None, false;
      if local.Some? {
        v := Visible(local.value, now, k);
      }
      if v.None? && connected {
        if server.None? {
          return None, true;
        }
        var remote := cluster.servers[server.value];
        v := Visible(remote, now, k);
        if v.Some? && local.Some? {
          var ttl := Ttl(remote[k], now);
          if ttl > 5 {
            ttl := 5;
          }
          if ttl <= 0 {
            ttl := 2;
          }
          local := Some(local.value[k := Cell(v.value, Some(now + ttl * SECOND))]);
        }
      }
    }
  }

  /** A read through the local store, if there is one: the value, and the local store afterwards. */
  function ReadThrough(servers: seq<Store>, connected: bool, local: Option<Store>, now: nat, k: Key, server: Option<nat>)
    : (Option<Value>, Option<Store>)
    requires server.Some? ==> server.value < |servers|
  {
    var own := if local.Some? then Visible(local.value, now, k) else None;
    if own.Some? || !connected || server.None? then (own, local)
    else
      var remote := servers[server.value];
      var v := Visible(remote, now, k);
      if v.None? || local.None? then (v, local)
      else (v, Some(local.value[k := Cell(v.value, Some(now + Keep(remote[k], now) * SECOND))]))
  }

  // ---- many nodes -----------------------------------------------------------------------

  /** An operation, with the servers it reaches: those that take a write, or the one that answers. */
  datatype Op =
    | WSet(node: Node, key: Key, value: Value, up: seq<bool>)
    | WSetEx(node: Node, key: Key, secs: nat, value: Value, up: seq<bool>)
    | WDelete(node: Node, key: Key, up: seq<bool>)
    | RGet(node: Node, key: Key, server: Option<nat>)

  datatype Timed = Timed(at: nat, op: Op)

  /** How many servers there are, and which nodes found the cluster and a local Redis at start. */
  datatype Net = Net(size: nat, connected: set<Node>, caching: set<Node>)

  datatype World = World(servers: seq<Store>, locals: map<Node, Store>)

  predicate Fits(net: Net, w: World, op: Op)
  {
    |w.servers| == net.size && (op.RGet? && op.server.Some? ==> op.server.value < net.size)
  }

  function Local(w: World, n: Node): Store
  {
    if n in w.locals then w.locals[n] else map[]
  }

  function LocalOf(net: Net, w: World, n: Node): Option<Store>
  {
    if n in net.caching then Some(Local(w, n)) else None
  }

  /** What the operation leaves in the writer's local store; None deletes. */
  function Kept(net: Net, w: World, n: Node, k: Key, c: Option<Cell>): map<Node, Store>
  {
    if n !in net.caching then w.locals
    else w.locals[n := if c.Some? then Local(w, n)[k := c.value] else Local(w, n) - {k}]
  }

  function Do(net: Net, w: World, t: Timed): World
    requires Fits(net, w, t.op)
  {
    match t.op
    case WSet(n, k, v, up) =>
      World(Everywhere(w.servers, up, k, Some(Cell(v, None))), Kept(net, w, n, k, Some(Cell(v, Some(t.at + 10 * DAY)))))
    case WSetEx(n, k, secs, v, up) =>
      if secs == 0 then w
      else World(Everywhere(w.servers, up, k, Some(Cell(v, Some(t.at + secs * SECOND)))),
                 Kept(net, w, n, k, Some(Cell(v, Some(t.at + Least(secs * SECOND, 5 * DAY))))))
    case WDelete(n, k, up) => World(Everywhere(w.servers, up, k, None), Kept(net, w, n, k, None))
    case RGet(n, k, server) =>
      var local := ReadThrough(w.servers, n in net.connected, LocalOf(net, w, n), t.at, k, server).1;
      if local.Some? then w.(locals := w.locals[n := local.value]) else w
  }

  function Answer(net: Net, w: World, t: Timed): Option<Value>
    requires Fits(net, w, t.op) && t.op.RGet?
  {
    ReadThrough(w.servers, t.op.node in net.connected, LocalOf(net, w, t.op.node), t.at, t.op.key, t.op.server).0
  }

  /** A node's methods carry out the steps of the shared model, whichever servers are up: one operation
      leads to the model's next world, and a read returns the model's answer. */
  method Perform(net: Net, h: HordeRedis, t: Timed, ghost w: World) returns (v: Option<Value>)
    requires Fits(net, w, t.op) && (t.op.WSetEx? ==> t.op.secs > 0)
    requires h.connected == (t.op.node in net.connected)
    requires h.cluster.servers == w.servers && h.local == LocalOf(net, w, t.op.node)
    modifies h, h.cluster
    ensures h.cluster.servers == Do(net, w, t).servers
    ensures h.local == LocalOf(net, Do(net, w, t), t.op.node)
    ensures v == if t.op.RGet? then Answer(net, w, t) else None
  {
    v := None;
    match t.op {
      case WSet(_, k, x, up) =>
        h.Set(t.at, k, x, up);
      case WSetEx(_, k, secs, x, up) =>
        h.SetEx(t.at, k, secs, x, up);
      case WDelete(_, k, up) =>
        h.Delete(k, up);
      case RGet(_, k, server) =>
        var raised;
        v, raised := h.Get(t.at, k, server);
    }
  }

  ghost predicate Valid(net: Net, run: seq<Timed>)
  {
    forall i :: 0 <= i < |run| && run[i].op.RGet? && run[i].op.server.Some? ==> run[i].op.server.value < net.size
  }

  /** The world after a run. */
  function After(net: Net, run: seq<Timed>): (w: World)
    requires Valid(net, run)
    ensures |w.servers| == net.size
  {
    if run == [] then World(seq(net.size, _ => map[]), map[])
    else
      assert Valid(net, run[..|run| - 1]);
      Do(net, After(net, run[..|run| - 1]), run[|run| - 1])
  }

  predicate Ordered(run: seq<Timed>)
  {
    forall i, j :: 0 <= i <= j < |run| ==> run[i].at <= run[j].at
  }

  /** Does the operation write or delete `k`? */
  predicate Writes(op: Op, k: Key)
  {
    !op.RGet? && op.key == k && (op.WSetEx? ==> op.secs > 0)
  }

  /** How long a node's own write of `v` stays in its local store. */
  function OwnTerm(op: Op): nat
  {
    match op
    case WSet(_, _, _, _) => 10 * DAY
    case WSetEx(_, _, secs, _, _) => Least(secs * SECOND, 5 * DAY)
    case _ => 0
  }

  /** Read `j` of node `n` found `v` on the server that answered it. */
  ghost predicate Fetched(net: Net, run: seq<Timed>, j: nat, n: Node, k: Key, v: Value)
    requires Valid(net, run) && j < |run|
  {
    && run[j].op.RGet? && run[j].op.node == n && run[j].op.key == k && run[j].op.server.Some?
    && Valid(net, run[..j])
    && Visible(After(net, run[..j]).servers[run[j].op.server.value], run[j].at, k) == Some(v)
  }

  /** Operation `j` is the last write of `k` by node `n`, and it wrote `v`. */
  ghost predicate Wrote(run: seq<Timed>, j: nat, n: Node, k: Key, v: Value)
    requires j < |run|
  {
    && Writes(run[j].op, k) && run[j].op.node == n && !run[j].op.WDelete? && run[j].op.value == v
    && forall i :: j < i < |run| ==> !(Writes(run[i].op, k) && run[i].op.node == n)
  }

  /** Where a local entry came from. */
  ghost predicate Justified(net: Net, run: seq<Timed>, n: Node, k: Key, c: Cell)
    requires Valid(net, run)
  {
    exists j :: 0 <= j < |run| && Origin(net, run, j, n, k, c)
  }

  ghost predicate Origin(net: Net, run: seq<Timed>, j: nat, n: Node, k: Key, c: Cell)
    requires Valid(net, run) && j < |run|
  {
    c.expires.Some? &&
    ((Fetched(net, run, j, n, k, c.value) && c.expires.value <= run[j].at + 5 * SECOND) ||
     (Wrote(run, j, n, k, c.value) && c.expires.value == run[j].at + OwnTerm(run[j].op)))
  }

  lemma OriginLater(net: Net, run: seq<Timed>, t: Timed, j: nat, n: Node, k: Key, c: Cell)
    requires Valid(net, run) && Valid(net, run + [t])
    requires j < |run| && Origin(net, run, j, n, k, c)
    requires !(Writes(t.op, k) && t.op.node == n)
    ensures Origin(net, run + [t], j, n, k, c)
  {
    assert (run + [t])[..j] == run[..j];
  }

  /** An entry that an operation leaves in a local store was there before, or is that operation's own. */
  lemma EntryAfter(net: Net, w: World, t: Timed, n: Node, k: Key)
    requires Fits(net, w, t.op) && k in Local(Do(net, w, t), n)
    ensures var c := Local(Do(net, w, t), n)[k];
      || (k in Local(w, n) && Local(w, n)[k] == c && (n !in net.caching || !(Writes(t.op, k) && t.op.node == n)))
      || (Writes(t.op, k) && t.op.node == n && !t.op.WDelete? && c == Cell(t.op.value, Some(t.at + OwnTerm(t.op))))
      || (t.op.RGet? && t.op.node == n && t.op.key == k && t.op.server.Some?
          && Visible(w.servers[t.op.server.value], t.at, k) == Some(c.value)
          && c.expires.Some? && c.expires.value <= t.at + 5 * SECOND)
  {
    if t.op.node != n {
      assert Local(Do(net, w, t), n) == Local(w, n);
    }
  }

  lemma OwnOrigin(net: Net, init: seq<Timed>, t: Timed, n: Node, k: Key, c: Cell)
    requires Valid(net, init) && Valid(net, init + [t]) && t.op.node == n
    requires
      || (Writes(t.op, k) && !t.op.WDelete? && c == Cell(t.op.value, Some(t.at + OwnTerm(t.op))))
      || (t.op.RGet? && t.op.key == k && t.op.server.Some? && t.op.server.value < net.size
          && Visible(After(net, init).servers[t.op.server.value], t.at, k) == Some(c.value)
          && c.expires.Some? && c.expires.value <= t.at + 5 * SECOND)
    ensures Origin(net, init + [t], |init|, n, k, c)
  {
    assert (init + [t])[..|init|] == init;
  }

  lemma {:induction false} LocalJustified(net: Net, run: seq<Timed>, n: Node, k: Key)
    requires Valid(net, run) && n in net.caching && k in Local(After(net, run), n)
    ensures Justified(net, run, n, k, Local(After(net, run), n)[k])
  {
    if run != [] {
      var init, t := run[..|run| - 1], run[|run| - 1];
      assert run == init + [t] && Valid(net, init);
      var w := After(net, init);
      var c := Local(Do(net, w, t), n)[k];
      EntryAfter(net, w, t, n, k);
      if k in Local(w, n) && Local(w, n)[k] == c && !(Writes(t.op, k) && t.op.node == n) {
        LocalJustified(net, init, n, k);
        var j :| 0 <= j < |init| && Origin(net, init, j, n, k, c);
        OriginLater(net, init, t, j, n, k, c);
      } else {
        OwnOrigin(net, init, t, n, k, c);
      }
    }
  }

  /** Over every timed run of any nodes, whichever servers miss whichever writes and whichever server
      answers: a value read is the answering server's current one, or one that a server answered this node
      with less than five seconds before, or the reader's own last write of the key, within ten days for
      `set` and five days or the expiry for `setex`. */
  lemma ReadsAreExplained(net: Net, run: seq<Timed>, t: Timed, v: Value)
    requires Valid(net, run) && Fits(net, After(net, run), t.op) && Ordered(run + [t]) && t.op.RGet?
    requires Answer(net, After(net, run), t) == Some(v)
    ensures || (t.op.server.Some? && Visible(After(net, run).servers[t.op.server.value], t.at, t.op.key) == Some(v))
            || (exists j :: 0 <= j < |run| && Fetched(net, run, j, t.op.node, t.op.key, v) && t.at < run[j].at + 5 * SECOND)
            || (exists j :: 0 <= j < |run| && Wrote(run, j, t.op.node, t.op.key, v) && t.at < run[j].at + OwnTerm(run[j].op))
  {
    var n, k := t.op.node, t.op.key;
    if n in net.caching && Visible(Local(After(net, run), n), t.at, k).Some? {
      LocalJustified(net, run, n, k);
      var c := Local(After(net, run), n)[k];
      var j :| 0 <= j < |run| && Origin(net, run, j, n, k, c);
    }
  }

  // ---- reading what others wrote -------------------------------------------------------

  /** The node has nothing of its own to answer with. */
  predicate Misses(net: Net, w: World, t: Timed)
  {
    t.op.node !in net.caching || Visible(Local(w, t.op.node), t.at, t.op.key).None?
  }

  /** After every run: a node with nothing of its own reads exactly what the server that answers holds, whoever
      wrote it, and nothing when it never found the cluster; a node with a value of its own reads that, whether a
      server answers or not. */
  lemma ReadsTheServer(net: Net, run: seq<Timed>, t: Timed)
    requires Valid(net, run) && Fits(net, After(net, run), t.op) && t.op.RGet?
    ensures var (w, n, k) := (After(net, run), t.op.node, t.op.key);
            Answer(net, w, t) ==
              if !Misses(net, w, t) then Visible(w.locals[n], t.at, k)
              else if n in net.connected && t.op.server.Some? then Visible(w.servers[t.op.server.value], t.at, k)
              else None
  {
  }

  /** None of the operations writes or deletes the key at this node, and all come before the given time. */
  ghost predicate QuietUntil(rest: seq<Timed>, n: Node, k: Key, until: nat)
  {
    forall i :: 0 <= i < |rest| ==> rest[i].at < until && !(Writes(rest[i].op, k) && rest[i].op.node == n)
  }

  /** An entry stays while it is fresh and its node does not write the key. */
  lemma EntryStays(net: Net, w: World, t: Timed, n: Node, k: Key, c: Cell)
    requires Fits(net, w, t.op) && n in net.caching && k in Local(w, n) && Local(w, n)[k] == c
    requires Fresh(c, t.at) && !(Writes(t.op, k) && t.op.node == n)
    ensures k in Local(Do(net, w, t), n) && Local(Do(net, w, t), n)[k] == c
  {
  }

  lemma ValidFront(net: Net, run: seq<Timed>, t: Timed)
    requires Valid(net, run + [t])
    ensures Valid(net, run) && Fits(net, After(net, run), t.op)
    ensures After(net, run + [t]) == Do(net, After(net, run), t)
  {
    var all := run + [t];
    assert forall i :: 0 <= i < |run| ==> all[i] == run[i];
    assert all[|run|] == t && all[..|run|] == run;
  }

  lemma {:induction false} EntryStaysThrough(net: Net, run: seq<Timed>, rest: seq<Timed>, n: Node, k: Key, v: Value, until: nat)
    requires Valid(net, run) && Valid(net, run + rest) && n in net.caching
    requires k in Local(After(net, run), n) && Local(After(net, run), n)[k] == Cell(v, Some(until))
    requires QuietUntil(rest, n, k, until)
    ensures k in Local(After(net, run + rest), n) && Local(After(net, run + rest), n)[k] == Cell(v, Some(until))
    decreases |rest|
  {
    if rest == [] {
      assert run + rest == run;
    } else {
      var init, t := rest[..|rest| - 1], rest[|rest| - 1];
      assert run + rest == run + init + [t];
      ValidFront(net, run + init, t);
      EntryStaysThrough(net, run, init, n, k, v, until);
      EntryStays(net, After(net, run + init), t, n, k, Cell(v, Some(until)));
    }
  }

  /** A value fetched from a server is served from the local store as long as `Keep` says, whatever the other
      nodes write meanwhile and whether or not a server answers. */
  lemma FetchedIsServed(net: Net, run: seq<Timed>, fetch: Timed, rest: seq<Timed>, t: Timed, c: Cell)
    requires Valid(net, run) && Valid(net, run + [fetch]) && Valid(net, run + [fetch] + rest)
    requires fetch.op.RGet? && fetch.op.server.Some? && Fits(net, After(net, run), fetch.op)
    requires fetch.op.node in net.connected && fetch.op.node in net.caching && Misses(net, After(net, run), fetch)
    requires var remote := After(net, run).servers[fetch.op.server.value];
             fetch.op.key in remote && remote[fetch.op.key] == c && Fresh(c, fetch.at)
    requires QuietUntil(rest, fetch.op.node, fetch.op.key, fetch.at + Keep(c, fetch.at) * SECOND)
    requires t.op.RGet? && t.op.node == fetch.op.node && t.op.key == fetch.op.key
    requires t.at < fetch.at + Keep(c, fetch.at) * SECOND
    requires Fits(net, After(net, run + [fetch] + rest), t.op)
    ensures Answer(net, After(net, run + [fetch] + rest), t) == Some(c.value)
  {
    var until := fetch.at + Keep(c, fetch.at) * SECOND;
    ValidFront(net, run, fetch);
    EntryStaysThrough(net, run + [fetch], rest, fetch.op.node, fetch.op.key, c.value, until);
  }

  // ---- reading one's own writes --------------------------------------------------------

  /** Nothing after operation `j` writes or deletes `k`. */
  ghost predicate Untouched(run: seq<Timed>, j: nat, k: Key)
  {
    forall i :: j < i < |run| ==> !Writes(run[i].op, k)
  }

  /** What the servers hold after a write. */
  function Stored(t: Timed): Cell
    requires t.op.WSet? || t.op.WSetEx?
  {
    Cell(t.op.value, if t.op.WSet? then None else Some(t.at + t.op.secs * SECOND))
  }

  predicate AllUp(net: Net, up: seq<bool>)
  {
    |up| == net.size && forall i :: 0 <= i < |up| ==> up[i]
  }

  /** An operation that does not write a key leaves it on the servers, and in a local store unless it
      fetches it again. */
  lemma OthersLeave(net: Net, w: World, t: Timed, n: Node, k: Key)
    requires Fits(net, w, t.op) && !Writes(t.op, k)
    ensures forall i :: 0 <= i < net.size ==>
              var (x, y) := (w.servers[i], Do(net, w, t).servers[i]);
              (k in y <==> k in x) && (k in x ==> y[k] == x[k])
    ensures k in Local(Do(net, w, t), n) ==>
              || (k in Local(w, n) && Local(Do(net, w, t), n)[k] == Local(w, n)[k])
              || exists i :: 0 <= i < net.size && k in w.servers[i] && Local(Do(net, w, t), n)[k].value == w.servers[i][k].value
  {
    if t.op.node != n {
      assert Local(Do(net, w, t), n) == Local(w, n);
    }
  }

  /** As long as nobody else writes the key, the servers hold the write, and the writer's local store
      nothing but its value. */
  lemma {:induction false} OwnWriteStays(net: Net, run: seq<Timed>, j: nat)
    requires Valid(net, run) && j < |run| && !run[j].op.WDelete? && Writes(run[j].op, run[j].op.key)
    requires AllUp(net, run[j].op.up) && Untouched(run, j, run[j].op.key)
    ensures var (w, op) := (After(net, run), run[j].op);
            && (forall i :: 0 <= i < net.size ==> op.key in w.servers[i] && w.servers[i][op.key] == Stored(run[j]))
            && (op.node in net.caching && op.key in Local(w, op.node) ==> Local(w, op.node)[op.key].value == op.value)
  {
    var init, t := run[..|run| - 1], run[|run| - 1];
    assert Valid(net, init);
    if j < |run| - 1 {
      OwnWriteStays(net, init, j);
      OthersLeave(net, After(net, init), t, run[j].op.node, run[j].op.key);
    }
  }

  /** A node whose write reached the servers reads its value until it expires on them, or for ever when it
      was written without expiry, unless someone writes the key again. */
  lemma ReadYourWrite(net: Net, run: seq<Timed>, j: nat, t: Timed)
    requires Valid(net, run) && j < |run| && !run[j].op.WDelete? && Writes(run[j].op, run[j].op.key)
    requires AllUp(net, run[j].op.up) && Untouched(run, j, run[j].op.key)
    requires Fits(net, After(net, run), t.op) && t.op.RGet? && t.op.node == run[j].op.node && t.op.key == run[j].op.key
    requires t.op.node in net.connected && t.op.server.Some? && Fresh(Stored(run[j]), t.at)
    ensures Answer(net, After(net, run), t) == Some(run[j].op.value)
  {
    OwnWriteStays(net, run, j);
  }

  /** Any other node that has nothing of its own reads it too. */
  lemma ReadOthersWrite(net: Net, run: seq<Timed>, j: nat, t: Timed)
    requires Valid(net, run) && j < |run| && !run[j].op.WDelete? && Writes(run[j].op, run[j].op.key)
    requires AllUp(net, run[j].op.up) && Untouched(run, j, run[j].op.key)
    requires Fits(net, After(net, run), t.op) && t.op.RGet? && t.op.key == run[j].op.key
    requires t.op.node in net.connected && t.op.server.Some? && Misses(net, After(net, run), t)
    ensures Answer(net, After(net, run), t) ==
              if run[j].op.WSet? || t.at < run[j].at + run[j].op.secs * SECOND then Some(run[j].op.value) else None
  {
    OwnWriteStays(net, run, j);
  }

  lemma {:induction false} OwnDeleteStays(net: Net, run: seq<Timed>, j: nat)
    requires Valid(net, run) && j < |run| && run[j].op.WDelete? && AllUp(net, run[j].op.up)
    requires Untouched(run, j, run[j].op.key)
    ensures forall i :: 0 <= i < net.size ==> run[j].op.key !in After(net, run).servers[i]
    ensures run[j].op.node in net.caching ==> run[j].op.key !in Local(After(net, run), run[j].op.node)
  {
    var init, t := run[..|run| - 1], run[|run| - 1];
    assert Valid(net, init);
    if j < |run| - 1 {
      OwnDeleteStays(net, init, j);
      OthersLeave(net, After(net, init), t, run[j].op.node, run[j].op.key);
    }
  }

  /** A node whose delete reached the servers finds nothing until someone writes the key. */
  lemma ReadYourDelete(net: Net, run: seq<Timed>, j: nat, t: Timed)
    requires Valid(net, run) && j < |run| && run[j].op.WDelete? && AllUp(net, run[j].op.up)
    requires Untouched(run, j, run[j].op.key)
    requires Fits(net, After(net, run), t.op) && t.op.RGet? && t.op.node == run[j].op.node && t.op.key == run[j].op.key
    ensures Answer(net, After(net, run), t) == None
  {
    OwnDeleteStays(net, run, j);
  }

  /** The local cache outlives the five seconds its comment promises: four days after
      another node replaced the value, the first writer still reads its own. */
  lemma StaleForDays(k: Key, x: Value, y: Value)
    ensures var net := Net(1, {0, 1}, {0, 1});
            var run := [Timed(0, WSetEx(0, k, 6 * 24 * 3600, x, [true])), Timed(SECOND, WSet(1, k, y, [true]))];
            && Visible(After(net, run).servers[0], 4 * DAY, k) == Some(y)
            && Answer(net, After(net, run), Timed(4 * DAY, RGet(0, k, Some(0)))) == Some(x)
  {
    var net := Net(1, {0, 1}, {0, 1});
    var first, second := Timed(0, WSetEx(0, k, 6 * 24 * 3600, x, [true])), Timed(SECOND, WSet(1, k, y, [true]));
    var run := [first, second];
    assert run[..1] == [first] && [first][..0] == [];
    assert After(net, [first]) == Do(net, After(net, [first][..0]), first);
    assert After(net, run) == Do(net, After(net, run[..1]), second);
  }
}
