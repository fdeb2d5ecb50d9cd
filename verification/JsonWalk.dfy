// The bounded walk over a raw request body (_passthrough.py).

module JsonWalk {

  import opened Common

  datatype Entry = Entry(key: string, value: Json)

  datatype Json =
    | Scalar(text: string)
    | Str(s: string)
    | List(items: seq<Json>)
    | Dict(entries: seq<Entry>)

  /** The values directly below a node. */
  function Children(j: Json): (cs: seq<Json>)
    ensures forall i :: 0 <= i < |cs| ==> cs[i] < j
  {
    match j
    case List(xs) => xs
    case Dict(es) => seq(|es|, i requires 0 <= i < |es| => es[i].value)
    case _ => []
  }

  /** The items of a list and the values of an object, in order; nothing else has anything below it. */
  lemma ChildrenAre(xs: seq<Json>, es: seq<Entry>, text: string)
    ensures Children(List(xs)) == xs
    ensures |Children(Dict(es))| == |es| && forall i :: 0 <= i < |es| ==> Children(Dict(es))[i] == es[i].value
    ensures Children(Str(text)) == [] && Children(Scalar(text)) == []
  {
  }

  function MaxOf(s: seq<int>, default: int): int
  {
    if s == [] then default
    else if |s| == 1 then s[0]
    else
      var m := MaxOf(s[..|s| - 1], default);
      if m < s[|s| - 1] then s[|s| - 1] else m
  }

  lemma {:induction false} MaxOfIs(s: seq<int>, default: int)
    ensures forall i :: 0 <= i < |s| ==> s[i] <= MaxOf(s, default)
    ensures if s == [] then MaxOf(s, default) == default else MaxOf(s, default) in s
  {
    if |s| > 1 {
      MaxOfIs(s[..|s| - 1], default);
    }
  }

  /** `_nesting_depth`: stops counting once the answer is past the cap. */
  function NestingDepth(j: Json, d: nat, cap: nat): int
    decreases j
  {
    if d > cap then d
    else
      var cs := Children(j);
      MaxOf(seq(|cs|, i requires 0 <= i < |cs| => NestingDepth(cs[i], d + 1, cap)), d)
  }

  // ---- paths ----------------------------------------------------------------------

  /** The node reached by taking the given child at each level. */
  function At(j: Json, path: seq<nat>): Option<Json>
    decreases path
  {
    if path == [] then Some(j)
    else if path[0] < |Children(j)| then At(Children(j)[path[0]], path[1..])
    else None
  }

  ghost predicate Within(j: Json, d: nat, cap: nat)
  {
    forall p :: At(j, p).Some? ==> d + |p| <= cap
  }

  predicate Shallow(j: Json, d: nat, cap: nat)
  {
    d <= cap && forall i :: 0 <= i < |Children(j)| ==> Shallow(Children(j)[i], d + 1, cap)
  }

  lemma {:induction false} ShallowPaths(j: Json, d: nat, cap: nat)
    ensures Shallow(j, d, cap) <==> Within(j, d, cap)
    decreases j
  {
    var cs := Children(j);
    assert At(j, []).Some?;
    forall i | 0 <= i < |cs|
      ensures Shallow(cs[i], d + 1, cap) <==> Within(cs[i], d + 1, cap)
    {
      ShallowPaths(cs[i], d + 1, cap);
    }
    if Within(j, d, cap) {
      forall i: nat, p | i < |cs| && At(cs[i], p).Some?
        ensures d + 1 + |p| <= cap
      {
        assert ([i] + p)[1..] == p && At(j, [i] + p).Some?;
      }
    }
    if Shallow(j, d, cap) {
      forall p | At(j, p).Some?
        ensures d + |p| <= cap
      {
        if p != [] {
          assert Within(cs[p[0]], d + 1, cap) && At(cs[p[0]], p[1..]).Some?;
        }
      }
    }
  }

  lemma {:induction false} CountedDepth(j: Json, d: nat, cap: nat)
    ensures NestingDepth(j, d, cap) <= cap <==> Shallow(j, d, cap)
    decreases j
  {
    if d <= cap {
      var cs := Children(j);
      var depths := seq(|cs|, i requires 0 <= i < |cs| => NestingDepth(cs[i], d + 1, cap));
      MaxOfIs(depths, d);
      forall i: nat | i < |cs|
        ensures depths[i] <= cap <==> Shallow(cs[i], d + 1, cap)
      {
        CountedDepth(cs[i], d + 1, cap);
      }
    }
  }

  /** The early cut-off never changes the verdict: the counted depth is past the cap
      exactly when some node really is. */
  lemma DepthVerdict(j: Json, d: nat, cap: nat)
    ensures NestingDepth(j, d, cap) <= cap <==> Within(j, d, cap)
  {
    CountedDepth(j, d, cap);
    ShallowPaths(j, d, cap);
  }

  // ---- the guard --------------------------------------------------------------------

  datatype Verdict = Pass | TooLarge413 | Bad400

  /** `guard_passthrough_body`; `size` is the length of the serialized body, if it has one. */
  function Guard(body: Json, size: Option<nat>, maxChars: nat, cap: nat): Verdict
  {
    if !body.Dict? && !body.List? then Pass
    else if size.None? then Bad400
    else if size.value > maxChars then TooLarge413
    else if NestingDepth(body, 0, cap) > cap then Bad400
    else Pass
  }

  /** The guard lets a body through exactly when it is no container, or fits the size and nests no deeper
      than the cap. */
  lemma GuardVerdict(body: Json, size: Option<nat>, maxChars: nat, cap: nat)
    ensures Guard(body, size, maxChars, cap).Pass? <==>
              (!body.Dict? && !body.List?) || (size.Some? && size.value <= maxChars && Within(body, 0, cap))
    ensures Guard(body, size, maxChars, cap).TooLarge413? <==>
              (body.Dict? || body.List?) && size.Some? && size.value > maxChars
  {
    DepthVerdict(body, 0, cap);
  }

  // ---- sanitizing -------------------------------------------------------------------

  function WithChildren(j: Json, cs: seq<Json>): Json
    requires |cs| == |Children(j)|
  {
    match j
    case List(xs) => List(cs)
    case Dict(es) => Dict(seq(|es|, i requires 0 <= i < |es| => Entry(es[i].key, cs[i])))
    case _ => j
  }

  lemma ChildrenOf(j: Json, cs: seq<Json>)
    requires |cs| == |Children(j)|
    ensures Children(WithChildren(j, cs)) == cs
    ensures Label(WithChildren(j, cs)) == Label(j)
  {
    match j
    case Dict(es) =>
      assert seq(|es|, i requires 0 <= i < |es| => Entry(es[i].key, cs[i]).key) ==
             seq(|es|, i requires 0 <= i < |es| => es[i].key);
    case _ =>
  }

  /** `deep_sanitize`: past the cap a subtree is returned unwalked. */
  function DeepSanitize(j: Json, d: nat, cap: nat, scrub: string -> string): Json
    decreases j
  {
    if d > cap then j
    else if j.Str? then Str(scrub(j.s))
    else
      var cs := Children(j);
      WithChildren(j, seq(|cs|, i requires 0 <= i < |cs| => DeepSanitize(cs[i], d + 1, cap, scrub)))
  }

  /** Up to the cap: a string is scrubbed, the items of a list and the values of an object are walked one level
      deeper, and lengths, keys and all other values stay. Beyond it everything stays. */
  lemma DeepSanitizeIs(j: Json, d: nat, cap: nat, scrub: string -> string)
    ensures d > cap ==> DeepSanitize(j, d, cap, scrub) == j
    ensures d <= cap ==>
              match (j, DeepSanitize(j, d, cap, scrub))
              case (Str(s), r) => r == Str(scrub(s))
              case (Scalar(_), r) => r == j
              case (List(xs), List(ys)) =>
                |ys| == |xs| && forall i :: 0 <= i < |xs| ==> ys[i] == DeepSanitize(xs[i], d + 1, cap, scrub)
              case (Dict(es), Dict(fs)) =>
                |fs| == |es| && forall i :: 0 <= i < |es| ==>
                  fs[i].key == es[i].key && fs[i].value == DeepSanitize(es[i].value, d + 1, cap, scrub)
              case _ => false
  {
  }

  /** What a node is, apart from what is below it. */
  datatype Shape = AScalar(text: string) | AString(s: string) | AList(length: nat) | ADict(keys: seq<string>)

  function Label(j: Json): Shape
  {
    match j
    case Scalar(t) => AScalar(t)
    case Str(s) => AString(s)
    case List(xs) => AList(|xs|)
    case Dict(es) => ADict(seq(|es|, i requires 0 <= i < |es| => es[i].key))
  }

  /** At path `p`, `y` has the node that `x` has there: scrubbed if it is a string that
      was reached, and otherwise with the same text, length or keys. */
  ghost predicate NodeScrubbed(x: Json, y: Json, p: seq<nat>, reached: bool, scrub: string -> string)
  {
    match (At(x, p), At(y, p))
    case (None, None) => true
    case (Some(u), Some(v)) =>
      if u.Str? && reached then v == Str(scrub(u.s)) else Label(v) == Label(u)
    case _ => false
  }

  /** The capped walk, exactly: every string it reaches is scrubbed, nothing else changes. */
  lemma {:induction false} WalkSpec(j: Json, d: nat, cap: nat, scrub: string -> string, p: seq<nat>)
    ensures NodeScrubbed(j, DeepSanitize(j, d, cap, scrub), p, d + |p| <= cap, scrub)
    decreases j
  {
    var cs := Children(j);
    if d <= cap && !j.Str? {
      var walked := seq(|cs|, i requires 0 <= i < |cs| => DeepSanitize(cs[i], d + 1, cap, scrub));
      ChildrenOf(j, walked);
      if p != [] && p[0] < |cs| {
        WalkSpec(cs[p[0]], d + 1, cap, scrub, p[1..]);
      }
    }
  }

  /** For every body the guard lets through, every string value at any depth is scrubbed
      and the structure and keys are kept. */
  lemma GuardedBodyIsClean(body: Json, size: Option<nat>, maxChars: nat, cap: nat, scrub: string -> string, p: seq<nat>)
    requires Guard(body, size, maxChars, cap).Pass?
    ensures NodeScrubbed(body, DeepSanitize(body, 0, cap, scrub), p, true, scrub)
  {
    WalkSpec(body, 0, cap, scrub, p);
    if body.Dict? || body.List? {
      DepthVerdict(body, 0, cap);
    }
  }

  // ---- the cap --------------------------------------------------------------------

  /** The sanitizer without a cap. */
  function Scrub(j: Json, scrub: string -> string): Json
  {
    if j.Str? then Str(scrub(j.s))
    else
      var cs := Children(j);
      WithChildren(j, seq(|cs|, i requires 0 <= i < |cs| => Scrub(cs[i], scrub)))
  }

  /** No string beyond the cap is one the scrubber would have changed. */
  ghost predicate NothingMissed(j: Json, d: nat, cap: nat, scrub: string -> string)
  {
    forall p :: d + |p| > cap && At(j, p).Some? && At(j, p).value.Str? ==> scrub(At(j, p).value.s) == At(j, p).value.s
  }

  predicate Missless(j: Json, d: nat, cap: nat, scrub: string -> string)
  {
    (d > cap && j.Str? ==> scrub(j.s) == j.s) &&
    forall i :: 0 <= i < |Children(j)| ==> Missless(Children(j)[i], d + 1, cap, scrub)
  }

  lemma MissedBelow(j: Json, d: nat, cap: nat, scrub: string -> string, i: nat)
    requires NothingMissed(j, d, cap, scrub) && i < |Children(j)|
    ensures NothingMissed(Children(j)[i], d + 1, cap, scrub)
  {
    var c := Children(j)[i];
    forall p: seq<nat> | d + 1 + |p| > cap && At(c, p).Some? && At(c, p).value.Str?
      ensures scrub(At(c, p).value.s) == At(c, p).value.s
    {
      assert ([i] + p)[1..] == p && At(j, [i] + p) == At(c, p);
    }
  }

  lemma MissedAbove(j: Json, d: nat, cap: nat, scrub: string -> string)
    requires d > cap && j.Str? ==> scrub(j.s) == j.s
    requires forall i :: 0 <= i < |Children(j)| ==> NothingMissed(Children(j)[i], d + 1, cap, scrub)
    ensures NothingMissed(j, d, cap, scrub)
  {
    forall p: seq<nat> | d + |p| > cap && At(j, p).Some? && At(j, p).value.Str?
      ensures scrub(At(j, p).value.s) == At(j, p).value.s
    {
      if p != [] {
        var c := Children(j)[p[0]];
        assert NothingMissed(c, d + 1, cap, scrub) && At(j, p) == At(c, p[1..]);
      }
    }
  }

  lemma {:induction false} MisslessPaths(j: Json, d: nat, cap: nat, scrub: string -> string)
    ensures Missless(j, d, cap, scrub) <==> NothingMissed(j, d, cap, scrub)
    decreases j
  {
    var cs := Children(j);
    forall i: nat | i < |cs|
      ensures Missless(cs[i], d + 1, cap, scrub) <==> NothingMissed(cs[i], d + 1, cap, scrub)
    {
      MisslessPaths(cs[i], d + 1, cap, scrub);
    }
    if NothingMissed(j, d, cap, scrub) {
      assert At(j, []) == Some(j);
      forall i: nat | i < |cs|
        ensures NothingMissed(cs[i], d + 1, cap, scrub)
      {
        MissedBelow(j, d, cap, scrub, i);
      }
    }
    if Missless(j, d, cap, scrub) {
      MissedAbove(j, d, cap, scrub);
    }
  }

  lemma Rebuild(j: Json)
    ensures WithChildren(j, Children(j)) == j
  {
    match j
    case Dict(es) => assert seq(|es|, i requires 0 <= i < |es| => Entry(es[i].key, Children(j)[i])) == es;
    case _ =>
  }

  function DeepChildren(j: Json, d: nat, cap: nat, scrub: string -> string): seq<Json>
  {
    var cs := Children(j);
    seq(|cs|, i requires 0 <= i < |cs| => DeepSanitize(cs[i], d + 1, cap, scrub))
  }

  function ScrubChildren(j: Json, scrub: string -> string): seq<Json>
  {
    var cs := Children(j);
    seq(|cs|, i requires 0 <= i < |cs| => Scrub(cs[i], scrub))
  }

  /** Beyond the cap too, the walk leaves the children as it would leave each of them. */
  lemma DeepFromChildren(j: Json, d: nat, cap: nat, scrub: string -> string)
    requires !j.Str?
    ensures DeepSanitize(j, d, cap, scrub) == WithChildren(j, DeepChildren(j, d, cap, scrub))
  {
    if d > cap {
      assert DeepChildren(j, d, cap, scrub) == Children(j);
      Rebuild(j);
    }
  }

  lemma EqualByChildren(j: Json, d: nat, cap: nat, scrub: string -> string)
    requires !j.Str?
    ensures DeepSanitize(j, d, cap, scrub) == Scrub(j, scrub) <==>
              forall i: nat :: i < |Children(j)| ==>
                DeepSanitize(Children(j)[i], d + 1, cap, scrub) == Scrub(Children(j)[i], scrub)
  {
    var deep, full := DeepChildren(j, d, cap, scrub), ScrubChildren(j, scrub);
    DeepFromChildren(j, d, cap, scrub);
    ChildrenOf(j, deep);
    ChildrenOf(j, full);
    assert DeepSanitize(j, d, cap, scrub) == Scrub(j, scrub) <==> deep == full;
    if forall i: nat :: i < |Children(j)| ==> DeepSanitize(Children(j)[i], d + 1, cap, scrub) == Scrub(Children(j)[i], scrub) {
      assert deep == full;
    }
    if deep == full {
      forall i: nat | i < |Children(j)|
        ensures DeepSanitize(Children(j)[i], d + 1, cap, scrub) == Scrub(Children(j)[i], scrub)
      {
        assert deep[i] == full[i];
      }
    }
  }

  lemma {:induction false} EqualWhenMissless(j: Json, d: nat, cap: nat, scrub: string -> string)
    ensures DeepSanitize(j, d, cap, scrub) == Scrub(j, scrub) <==> Missless(j, d, cap, scrub)
    decreases j
  {
    if !j.Str? {
      EqualByChildren(j, d, cap, scrub);
      forall i: nat | i < |Children(j)|
        ensures DeepSanitize(Children(j)[i], d + 1, cap, scrub) == Scrub(Children(j)[i], scrub) <==>
                Missless(Children(j)[i], d + 1, cap, scrub)
      {
        EqualWhenMissless(Children(j)[i], d + 1, cap, scrub);
      }
    }
  }

  /** The capped walk gives the same body as the uncapped one exactly when it misses no
      string that needed scrubbing. */
  lemma CapExact(j: Json, d: nat, cap: nat, scrub: string -> string)
    ensures DeepSanitize(j, d, cap, scrub) == Scrub(j, scrub) <==> NothingMissed(j, d, cap, scrub)
  {
    EqualWhenMissless(j, d, cap, scrub);
    MisslessPaths(j, d, cap, scrub);
  }

  /** A guarded body is sanitized as if there were no cap. */
  lemma GuardMakesCapHarmless(body: Json, size: Option<nat>, maxChars: nat, cap: nat, scrub: string -> string)
    requires Guard(body, size, maxChars, cap).Pass?
    ensures DeepSanitize(body, 0, cap, scrub) == Scrub(body, scrub)
  {
    CapExact(body, 0, cap, scrub);
    if body.Dict? || body.List? {
      DepthVerdict(body, 0, cap);
    }
  }

  // ---- the output budget ---------------------------------------------------------------

  /** The value of an output cap in a request: missing or null, an empty text, an integer after
      `int(...)`, or something `int` rejects. */
  datatype Budget = Absent | Blank | Int(n: int) | NotInt

  datatype BudgetResult = Accepted(n: int) | Rejected422

  const MAX_OUTPUT_TOKENS := 32768

  /** The two fields of the raw request that matter here. */
  datatype Fields = Fields(maxTokens: Budget, maxOutputTokens: Budget)

  /** `normalize_output_budget`. The default comes from the environment and is not
      checked against the maximum. */
  method NormalizeOutputBudget(anthropic: bool, raw0: Fields, default: int) returns (raw: Fields, r: BudgetResult)
    ensures r == Budgeted(anthropic, raw0, default)
    ensures anthropic || raw0.maxOutputTokens.Absent? ==>
              match raw0.maxTokens
              case Int(n) => r == if 1 <= n <= 32768 then Accepted(n) else Rejected422
              case NotInt => r == Rejected422
              case _ => r == Accepted(default)
    ensures !anthropic && !raw0.maxOutputTokens.Absent? ==>
              match raw0.maxOutputTokens
              case Int(n) => r == if 1 <= n <= 32768 then Accepted(n) else Rejected422
              case NotInt => r == Rejected422
              case _ => r == Accepted(default)
    ensures raw == match r
                   case Rejected422 => raw0
                   case Accepted(n) => if anthropic then raw0.(maxTokens := Int(n)) else raw0.(maxOutputTokens := Int(n))
  {
    raw := raw0;
    var value := if anthropic then raw.maxTokens else raw.maxOutputTokens;
    if !anthropic && value.Absent? {
      value := raw.maxTokens;
    }
    var n := default;
    match value {
      case Absent =>
      case Blank =>
      case NotInt => return raw, Rejected422;
      case Int(m) =>
        if m < 1 || m > MAX_OUTPUT_TOKENS {
          return raw, Rejected422;
        }
        n := m;
    }
    raw := if anthropic then raw.(maxTokens := Int(n)) else raw.(maxOutputTokens := Int(n));
    return raw, Accepted(n);
  }

  function Budgeted(anthropic: bool, raw: Fields, default: int): BudgetResult
  {
    var v := if anthropic then raw.maxTokens else if raw.maxOutputTokens.Absent? then raw.maxTokens else raw.maxOutputTokens;
    match v
    case Absent | Blank => Accepted(default)
    case NotInt => Rejected422
    case Int(m) => if 1 <= m <= MAX_OUTPUT_TOKENS then Accepted(m) else Rejected422
  }

  /** Normalizing an accepted request again changes nothing, unless the configured default
      was used and lies outside the range that explicit values must respect. */
  lemma BudgetStable(anthropic: bool, raw: Fields, default: int)
    requires Budgeted(anthropic, raw, default).Accepted?
    ensures var n := Budgeted(anthropic, raw, default).n;
            var again := if anthropic then raw.(maxTokens := Int(n)) else raw.(maxOutputTokens := Int(n));
            Budgeted(anthropic, again, default) == Accepted(n) <==> 1 <= n <= MAX_OUTPUT_TOKENS
  {
  }
}
