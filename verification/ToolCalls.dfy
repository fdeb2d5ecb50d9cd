// Merging of streamed tool-call fragments (chat_output.py).

module ToolCalls {

  /** One fragment. An empty field is an absent one. */
  datatype Fragment = Fragment(index: int, id: string, kind: string, name: string, args: string)

  /** A call assembled so far. */
  datatype Call = Call(index: int, id: string, kind: string, name: string, args: string)

  type Calls = map<int, Call>

  function Blank(i: int): Call
  {
    Call(i, "", "function", "", "")
  }

  function Either(x: string, y: string): string
  {
    if x != "" then x else y
  }

  function Join(c: Call, f: Fragment): Call
  {
    Call(c.index, Either(f.id, c.id), Either(f.kind, c.kind), c.name + f.name, c.args + f.args)
  }

  function At(acc: Calls, i: int): Call
  {
    if i in acc then acc[i] else Blank(i)
  }

  function Merge(acc: Calls, fs: seq<Fragment>): Calls
  {
    if fs == [] then acc
    else
      var f, before := fs[|fs| - 1], Merge(acc, fs[..|fs| - 1]);
      before[f.index := Join(At(before, f.index), f)]
  }

  /** `merge_tool_call_deltas`: updates the accumulator fragment by fragment. */
  method MergeToolCallDeltas(acc0: Calls, deltas: seq<Fragment>) returns (acc: Calls)
    ensures acc == Merge(acc0, deltas)
  {
    acc := acc0;
    for k := 0 to |deltas|
      invariant acc == Merge(acc0, deltas[..k])
    {
      var f := deltas[k];
      var slot := if f.index in acc then acc[f.index] else Blank(f.index);
      if f.id != "" {
        slot := slot.(id := f.id);
      }
      if f.kind != "" {
        slot := slot.(kind := f.kind);
      }
      if f.name != "" {
        slot := slot.(name := slot.name + f.name);
      }
      if f.args != "" {
        slot := slot.(args := slot.args + f.args);
      }
      assert slot == Join(At(acc, f.index), f) by {
        assert f.name == "" ==> slot.name + f.name == slot.name;
        assert f.args == "" ==> slot.args + f.args == slot.args;
      }
      acc := acc[f.index := slot];
      assert deltas[..k + 1][..k] == deltas[..k];
    }
    assert deltas[..|deltas|] == deltas;
  }

  // ---- what the merge means ------------------------------------------------------

  /** The fragments of one index, in order. */
  function Only(fs: seq<Fragment>, i: int): seq<Fragment>
  {
    if fs == [] then []
    else Only(fs[..|fs| - 1], i) + if fs[|fs| - 1].index == i then [fs[|fs| - 1]] else []
  }

  function Names(fs: seq<Fragment>): string
  {
    if fs == [] then "" else Names(fs[..|fs| - 1]) + fs[|fs| - 1].name
  }

  function Args(fs: seq<Fragment>): string
  {
    if fs == [] then "" else Args(fs[..|fs| - 1]) + fs[|fs| - 1].args
  }

  /** The last id, or kind, that was present. */
  function LastId(fs: seq<Fragment>): string
  {
    if fs == [] then "" else Either(fs[|fs| - 1].id, LastId(fs[..|fs| - 1]))
  }

  function LastKind(fs: seq<Fragment>): string
  {
    if fs == [] then "function" else Either(fs[|fs| - 1].kind, LastKind(fs[..|fs| - 1]))
  }

  /** Each index gets the concatenation of its own fragments, untouched by the others. */
  lemma {:induction false} MergeMeaning(fs: seq<Fragment>, i: int)
    ensures i in Merge(map[], fs) <==> Only(fs, i) != []
    ensures i in Merge(map[], fs) ==>
              var mine := Only(fs, i);
              Merge(map[], fs)[i] == Call(i, LastId(mine), LastKind(mine), Names(mine), Args(mine))
  {
    if fs != [] {
      var f, rest := fs[|fs| - 1], fs[..|fs| - 1];
      MergeMeaning(rest, i);
      if f.index == i {
        var mine := Only(fs, i);
        assert mine[..|mine| - 1] == Only(rest, i) && mine[|mine| - 1] == f;
        assert Merge(map[], fs)[i] == Join(At(Merge(map[], rest), i), f);
        assert At(Merge(map[], rest), i) ==
               Call(i, LastId(Only(rest, i)), LastKind(Only(rest, i)), Names(Only(rest, i)), Args(Only(rest, i)));
      } else {
        assert Only(fs, i) == Only(rest, i);
      }
    }
  }

  /** Where the stream cut its chunks makes no difference. */
  lemma {:induction false} MergeAppend(acc: Calls, a: seq<Fragment>, b: seq<Fragment>)
    ensures Merge(acc, a + b) == Merge(Merge(acc, a), b)
  {
    if b == [] {
      assert a + b == a;
    } else {
      assert (a + b)[..|a + b| - 1] == a + b[..|b| - 1];
      MergeAppend(acc, a, b[..|b| - 1]);
    }
  }

  /** Cutting one fragment's argument text in two, the rest arriving in a bare fragment,
      gives the same calls. */
  lemma SplitFragment(acc: Calls, f: Fragment, x: string, y: string)
    requires f.args == x + y
    ensures Merge(acc, [f]) == Merge(acc, [f.(args := x), Fragment(f.index, "", "", "", y)])
  {
    var two := [f.(args := x), Fragment(f.index, "", "", "", y)];
    var c := At(acc, f.index);
    assert Merge(acc, [f]) == acc[f.index := Join(c, f)] by {
      assert [f][..0] == [];
    }
    assert two[..1] == [f.(args := x)];
    var half := acc[f.index := Join(c, f.(args := x))];
    assert Merge(acc, two[..1]) == half by {
      assert two[..1][..0] == [];
    }
    assert Join(Join(c, f.(args := x)), two[1]) == Join(c, f) by {
      assert c.args + f.args == (c.args + x) + y;
      assert c.name + f.name + "" == c.name + f.name;
    }
    assert half[f.index := Join(c, f)] == acc[f.index := Join(c, f)];
  }

  // ---- the calls as a list -------------------------------------------------------

  lemma {:induction false} LeastExists(calls: Calls)
    requires calls != map[]
    ensures exists k :: k in calls && forall j :: j in calls ==> k <= j
    decreases |calls|
  {
    assert (forall x :: x !in calls) ==> calls == map[];
    var x :| x in calls;
    var rest, least := calls - {x}, x;
    assert forall j :: j in calls ==> j == x || j in rest;
    if rest != map[] {
      LeastExists(rest);
      var k :| k in rest && forall j :: j in rest ==> k <= j;
      least := if k < x then k else x;
    }
    assert least in calls && forall j :: j in calls ==> least <= j;
  }

  function Least(calls: Calls): (k: int)
    requires calls != map[]
    ensures k in calls && forall j :: j in calls ==> k <= j
  {
    LeastExists(calls);
    var k :| k in calls && forall j :: j in calls ==> k <= j;
    k
  }

  /** The assembled calls, by index. */
  function InOrder(calls: Calls): seq<Call>
    decreases |calls|
  {
    if calls == map[] then []
    else [calls[Least(calls)]] + InOrder(calls - {Least(calls)})
  }

  /** Every call carries the index it is filed under. */
  predicate Indexed(calls: Calls)
  {
    forall i :: i in calls ==> calls[i].index == i
  }

  predicate Ascending(list: seq<Call>)
  {
    forall i, j :: 0 <= i < j < |list| ==> list[i].index < list[j].index
  }

  /** The list holds exactly these calls, in the order of their indices. */
  ghost predicate ListsCalls(list: seq<Call>, calls: Calls)
  {
    Ascending(list) && forall c :: c in list <==> c.index in calls && calls[c.index] == c
  }

  lemma {:induction false} MergeIndexed(acc: Calls, fs: seq<Fragment>)
    requires Indexed(acc)
    ensures Indexed(Merge(acc, fs))
  {
    if fs != [] {
      MergeIndexed(acc, fs[..|fs| - 1]);
    }
  }

  lemma PutFirst(calls: Calls, k: int, tail: seq<Call>)
    requires Indexed(calls) && k in calls && forall j :: j in calls ==> k <= j
    requires ListsCalls(tail, calls - {k})
    ensures ListsCalls([calls[k]] + tail, calls)
  {
    var list := [calls[k]] + tail;
    forall i, j | 0 <= i < j < |list| ensures list[i].index < list[j].index {
      assert list[j] == tail[j - 1] && tail[j - 1] in tail;
      if i > 0 {
        assert list[i] == tail[i - 1];
      }
    }
    assert forall c :: c in list <==> c == calls[k] || c in tail;
  }

  lemma {:induction false} InOrderLists(calls: Calls)
    requires Indexed(calls)
    ensures ListsCalls(InOrder(calls), calls)
    decreases |calls|
  {
    if calls != map[] {
      var k := Least(calls);
      InOrderLists(calls - {k});
      PutFirst(calls, k, InOrder(calls - {k}));
    }
  }

  /** There is only one such list. */
  lemma {:induction false} ListIsUnique(x: seq<Call>, y: seq<Call>)
    requires Ascending(x) && Ascending(y) && forall c :: c in x <==> c in y
    ensures x == y
    decreases |x|
  {
    if y != [] {
      assert y[0] in y;
    }
    if x != [] {
      assert x[0] in x;
      var i :| 0 <= i < |y| && y[i] == x[0];
      assert y[0] in x;
      var j :| 0 <= j < |x| && x[j] == y[0];
      assert i == 0 && j == 0;
      forall c ensures c in x[1..] <==> c in y[1..] {
        TailHolds(x, c);
        TailHolds(y, c);
      }
      ListIsUnique(x[1..], y[1..]);
      assert x == [x[0]] + x[1..] && y == [y[0]] + y[1..];
    }
  }

  lemma TailHolds(x: seq<Call>, c: Call)
    requires Ascending(x) && x != []
    ensures c in x[1..] <==> c in x && c != x[0]
  {
    if c in x && c != x[0] {
      var i :| 0 <= i < |x| && x[i] == c;
      assert x[1..][i - 1] == c;
    }
    if c in x[1..] {
      var i :| 0 <= i < |x| - 1 && x[1..][i] == c;
      assert x[i + 1] == c && x[0].index < x[i + 1].index;
    }
  }

  /** A list is the ordered one exactly when it holds exactly the calls, in the order of their indices. */
  lemma InOrderExactly(list: seq<Call>, calls: Calls)
    requires Indexed(calls)
    ensures list == InOrder(calls) <==> ListsCalls(list, calls)
  {
    InOrderLists(calls);
    if ListsCalls(list, calls) {
      ListIsUnique(list, InOrder(calls));
    }
  }
}
