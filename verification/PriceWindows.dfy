// The reviewed reward valuation windows: the validators of config.py and the lookup that
// settlement/payouts.py makes for a payout period. Times are microseconds since the epoch, UTC.

module PriceWindows {

  import opened Common

  const HOUR: nat := 3600000000

  datatype Window = Window(since: int, until: int, price: int, share: int)

  // ---- what the configuration accepts -----------------------------------------------------

  /** WorkerRewardDemandPolicy. */
  predicate ValidWindow(w: Window)
  {
    && w.since % HOUR == 0 && w.until % HOUR == 0
    && HOUR <= w.until - w.since <= 7 * 24 * HOUR
    && 1 <= w.price <= 1000000000000000
    && 1 <= w.share < 10000
  }

  /** GridSettings.validate_worker_reward_demand, over windows that are valid one by one. */
  predicate Accepted(cutoff: Option<int>, policies: seq<Window>)
  {
    && (forall i :: 0 <= i < |policies| ==> ValidWindow(policies[i]))
    && (policies != [] ==> cutoff.Some? && policies[0].since >= cutoff.value)
    && (forall i :: 0 <= i < |policies| - 1 ==> policies[i].until == policies[i + 1].since)
  }

  // ---- the partition ----------------------------------------------------------------------

  predicate Holds(w: Window, t: int)
  {
    w.since <= t < w.until
  }

  /** Windows come in strict order, each over before the next begins. */
  lemma {:induction false} Ordered(cutoff: Option<int>, policies: seq<Window>, i: nat, j: nat)
    requires Accepted(cutoff, policies) && i < j < |policies|
    ensures policies[i].since < policies[i].until <= policies[j].since < policies[j].until
  {
    if i + 1 < j {
      Ordered(cutoff, policies, i, j - 1);
    }
  }

  /** The window that holds an instant of the span. */
  lemma {:induction false} WindowAt(cutoff: Option<int>, policies: seq<Window>, t: int) returns (i: nat)
    requires Accepted(cutoff, policies) && policies != []
    requires policies[0].since <= t < policies[|policies| - 1].until
    ensures i < |policies| && Holds(policies[i], t)
    ensures forall j :: 0 <= j < |policies| && Holds(policies[j], t) ==> j == i
  {
    var last := |policies| - 1;
    if policies[last].since <= t {
      i := last;
    } else {
      assert last > 0;
      i := WindowAt(cutoff, policies[..last], t);
    }
    forall j | 0 <= j < |policies| && Holds(policies[j], t) ensures j == i {
      if j < i {
        Ordered(cutoff, policies, j, i);
      } else if i < j {
        Ordered(cutoff, policies, i, j);
      }
    }
  }

  /** Each UTC hour of the span lies wholly inside exactly one window. */
  lemma HourInOneWindow(cutoff: Option<int>, policies: seq<Window>, hour: int) returns (i: nat)
    requires Accepted(cutoff, policies) && policies != []
    requires hour % HOUR == 0 && policies[0].since <= hour < policies[|policies| - 1].until
    ensures i < |policies|
    ensures policies[i].since <= hour && hour + HOUR <= policies[i].until
    ensures forall j, t :: 0 <= j < |policies| && hour <= t < hour + HOUR && Holds(policies[j], t) ==> j == i
  {
    i := WindowAt(cutoff, policies, hour);
    assert ValidWindow(policies[i]);
    WholeHours(policies[i].until, hour);
    forall j, t | 0 <= j < |policies| && hour <= t < hour + HOUR && Holds(policies[j], t) ensures j == i {
      if j < i {
        Ordered(cutoff, policies, j, i);
      } else if i < j {
        Ordered(cutoff, policies, i, j);
      }
    }
  }

  lemma WholeHours(a: int, b: int)
    requires a % HOUR == 0 && b % HOUR == 0 && b < a
    ensures b + HOUR <= a
  {
    assert a == HOUR * (a / HOUR) && b == HOUR * (b / HOUR);
  }

  function TotalLength(policies: seq<Window>): int
  {
    if policies == [] then 0
    else TotalLength(policies[..|policies| - 1]) + policies[|policies| - 1].until - policies[|policies| - 1].since
  }

  /** The lengths add up to the span: no gap and no overlap. */
  lemma {:induction false} LengthsAddUp(cutoff: Option<int>, policies: seq<Window>)
    requires Accepted(cutoff, policies) && policies != []
    ensures TotalLength(policies) == policies[|policies| - 1].until - policies[0].since
  {
    var front := policies[..|policies| - 1];
    if front != [] {
      LengthsAddUp(cutoff, front);
      assert policies[|front| - 1].until == policies[|front|].since;
    } else {
      assert TotalLength(front) == 0;
    }
  }

  /** Nothing is priced before the cutoff, and n windows span at least n hours and at most n weeks. */
  lemma {:induction false} SpanBounds(cutoff: Option<int>, policies: seq<Window>)
    requires Accepted(cutoff, policies) && policies != []
    ensures cutoff.Some? && forall i :: 0 <= i < |policies| ==> policies[i].since >= cutoff.value
    ensures var span := policies[|policies| - 1].until - policies[0].since;
            |policies| * 3600000000 <= span <= |policies| * 604800000000
  {
    assert ValidWindow(policies[|policies| - 1]);
    if |policies| > 1 {
      SpanBounds(cutoff, policies[..|policies| - 1]);
      assert policies[|policies| - 2].until == policies[|policies| - 1].since;
    }
    forall i | 0 <= i < |policies| ensures policies[i].since >= cutoff.value {
      if i > 0 {
        Ordered(cutoff, policies, 0, i);
      }
    }
  }

  // ---- the lookup -------------------------------------------------------------------------

  datatype Answer = Unpriced | Priced(window: Window) | Unreviewed

  predicate Contains(w: Window, start: int, end: int)
  {
    w.since <= start && end <= w.until
  }

  /** _demand_policy. */
  method DemandPolicy(policies: seq<Window>, start: int, end: int) returns (r: Answer)
    ensures Answers(policies, start, end, r)
  {
    if policies == [] || end <= policies[0].since {
      return Unpriced;
    }
    var i := 0;
    while i < |policies|
      invariant 0 <= i <= |policies|
      invariant forall j :: 0 <= j < i ==> !Contains(policies[j], start, end)
    {
      if Contains(policies[i], start, end) {
        return Priced(policies[i]);
      }
      i := i + 1;
    }
    return Unreviewed;
  }

  /** No price before the first window; otherwise the first window that contains the whole period, and an
      error when none does. */
  ghost predicate Answers(policies: seq<Window>, start: int, end: int, r: Answer)
  {
    && (r.Unpriced? <==> policies == [] || end <= policies[0].since)
    && (r.Priced? ==> exists i :: 0 <= i < |policies| && r.window == policies[i] && Contains(policies[i], start, end)
                        && forall j :: 0 <= j < i ==> !Contains(policies[j], start, end))
    && (r.Unreviewed? ==> forall i :: 0 <= i < |policies| ==> !Contains(policies[i], start, end))
  }

  /** A period gets a price exactly when one window holds all its instants, and then it gets that one's. */
  lemma PricedByOneWindow(cutoff: Option<int>, policies: seq<Window>, start: int, end: int, r: Answer)
    requires Accepted(cutoff, policies) && start < end && Answers(policies, start, end, r)
    ensures r.Priced? <==> exists i :: 0 <= i < |policies| && HoldsAll(policies[i], start, end)
    ensures forall i :: 0 <= i < |policies| && HoldsAll(policies[i], start, end) ==> r == Priced(policies[i])
  {
    forall i | 0 <= i < |policies| && HoldsAll(policies[i], start, end) ensures r == Priced(policies[i]) {
      assert Holds(policies[i], start) && Holds(policies[i], end - 1);
      if i > 0 {
        Ordered(cutoff, policies, 0, i);
      }
      assert Contains(policies[i], start, end);
      var k :| 0 <= k < |policies| && r.window == policies[k] && Contains(policies[k], start, end);
      if k < i {
        Ordered(cutoff, policies, k, i);
      } else if i < k {
        Ordered(cutoff, policies, i, k);
      }
    }
    if r.Priced? {
      var k :| 0 <= k < |policies| && r.window == policies[k] && Contains(policies[k], start, end);
      assert HoldsAll(policies[k], start, end);
    }
  }

  predicate HoldsAll(w: Window, start: int, end: int)
  {
    forall t :: start <= t < end ==> Holds(w, t)
  }

  // ---- appending --------------------------------------------------------------------------

  /** A further window is accepted exactly when it is valid and begins where the last one ends. */
  lemma AppendAccepted(cutoff: Option<int>, policies: seq<Window>, w: Window)
    requires Accepted(cutoff, policies) && policies != []
    ensures Accepted(cutoff, policies + [w]) <==> ValidWindow(w) && w.since == policies[|policies| - 1].until
  {
    var next := policies + [w];
    if Accepted(cutoff, next) {
      assert ValidWindow(next[|policies|]) && next[|policies| - 1].until == next[|policies|].since;
    }
  }

  /** And it leaves the answer for every period that ends by then as it was. */
  lemma AppendKeepsAnswers(cutoff: Option<int>, policies: seq<Window>, w: Window, start: int, end: int, r: Answer)
    requires policies != [] && Accepted(cutoff, policies) && Accepted(cutoff, policies + [w])
    requires start < end <= policies[|policies| - 1].until
    ensures Answers(policies + [w], start, end, r) <==> Answers(policies, start, end, r)
  {
    var next := policies + [w];
    AppendAccepted(cutoff, policies, w);
    assert !Contains(w, start, end);
    assert forall i :: 0 <= i < |policies| ==> next[i] == policies[i];
    if Answers(policies, start, end, r) && r.Priced? {
      var i :| 0 <= i < |policies| && r.window == policies[i] && Contains(policies[i], start, end)
            && forall j :: 0 <= j < i ==> !Contains(policies[j], start, end);
      assert r.window == next[i] && Contains(next[i], start, end);
    }
  }
}
