/**
 * Greedy plate decomposition of the plate calculator
 * (calculatePlates in components/PlateCalculator.tsx).
 *
 * Weights are whole hundredths of the unit (45 lbs is 4500, 1.25 kg is 125).
 * The load per side, `(total - bar) / 2`, can be half a hundredth, so the
 * remaining load is kept in HALF-hundredths: a remaining value `r2` stands
 * for `r2 / 200` units.
 */
module Plates {
  import opened Program

  function BarWeight(u: Unit): int {
    match u
    case Lbs => 4500
    case Kg => 2000
  }

  function AvailablePlates(u: Unit): (ds: seq<int>)
    ensures ValidDenominations(ds)
  {
    match u
    case Lbs => [4500, 3500, 2500, 1000, 500, 250]
    case Kg => [2000, 1500, 1000, 500, 250, 125]
  }

  function SmallestPlate(u: Unit): int {
    match u
    case Lbs => 250
    case Kg => 125
  }

  /** Positive, strictly descending, each a multiple of the smallest. */
  ghost predicate ValidDenominations(ds: seq<int>) {
    && |ds| > 0
    && ds[|ds| - 1] > 0
    && (forall i :: 0 <= i < |ds| ==> ds[i] > 0)
    && (forall i :: 0 <= i < |ds| ==> ds[i] % ds[|ds| - 1] == 0)
    && (forall i, j :: 0 <= i < j < |ds| ==> ds[i] > ds[j])
  }

  function Sum(s: seq<int>): int {
    if s == [] then 0 else s[0] + Sum(s[1..])
  }

  lemma {:induction false} SumAppend(a: seq<int>, b: seq<int>)
    ensures Sum(a + b) == Sum(a) + Sum(b)
  {
    if a == [] {
      assert a + b == b;
    } else {
      assert (a + b)[1..] == a[1..] + b;
      SumAppend(a[1..], b);
    }
  }

  /**
   * `Math.round((remaining - plate) * 100) / 100` for a remaining load of `r2`
   * half-hundredths and a plate of `plate` hundredths, again in half-hundredths.
   */
  function RoundedRemainder(r2: int, plate: int): int {
    2 * ((r2 - 2 * plate + 1) / 2)
  }

  ghost predicate NonIncreasing(s: seq<int>) {
    forall k, m :: 0 <= k < m < |s| ==> s[k] >= s[m]
  }

  /** The plates taken and the load left (in half-hundredths). */
  datatype Loading = Loading(plates: seq<int>, rest: int)

  /** The inner `while`: take `plate` while it still fits. */
  function Drain(r2: int, plate: int): Loading
    requires plate > 0
    decreases r2
  {
    if r2 >= 2 * plate then
      var d := Drain(RoundedRemainder(r2, plate), plate);
      Loading([plate] + d.plates, d.rest)
    else Loading([], r2)
  }

  /** The outer `for`: drain each denomination from index `i` on, in order. */
  function GreedyFrom(r2: int, ds: seq<int>, i: nat): Loading
    requires i <= |ds|
    requires forall j :: 0 <= j < |ds| ==> ds[j] > 0
    decreases |ds| - i
  {
    if i == |ds| then Loading([], r2)
    else
      var d := Drain(r2, ds[i]);
      var g := GreedyFrom(d.rest, ds, i + 1);
      Loading(d.plates + g.plates, g.rest)
  }

  /** The plates for one side of the bar, largest first. */
  function PlatesFor(total: int, u: Unit): seq<int> {
    var perSide2 := total - BarWeight(u);
    if perSide2 <= 0 then [] else GreedyFrom(perSide2, AvailablePlates(u), 0).plates
  }

  /** Half a hundredth gained once, when an odd half-hundredth load is first rounded. */
  function Bump(r2: int, plates: seq<int>): int {
    if r2 % 2 == 1 && |plates| > 0 then 1 else 0
  }

  // ---------------------------------------------------------------- the loop

  method CalculatePlates(totalWeight: int, u: Unit) returns (plates: seq<int>)
    ensures plates == PlatesFor(totalWeight, u)
  {
    var barWeight := BarWeight(u);
    var availablePlates := AvailablePlates(u);
    var perSide2 := totalWeight - barWeight;
    if perSide2 <= 0 {
      return [];
    }
    assert forall j :: 0 <= j < |availablePlates| ==> availablePlates[j] > 0;
    plates := [];
    var remaining := perSide2;
    ghost var all := GreedyFrom(perSide2, availablePlates, 0).plates;
    for i := 0 to |availablePlates|
      invariant plates + GreedyFrom(remaining, availablePlates, i).plates == all
    {
      var taken;
      ghost var g := GreedyFrom(Drain(remaining, availablePlates[i]).rest, availablePlates, i + 1);
      taken, remaining := TakeWhileFits(remaining, availablePlates[i]);
      assert plates + (taken + g.plates) == (plates + taken) + g.plates;
      plates := plates + taken;
    }
  }

  // ---------------------------------------------------------------- the inner loop

  /** The inner `while`, proved against `Drain`. */
  method TakeWhileFits(r2: int, plate: int) returns (taken: seq<int>, rest: int)
    requires plate > 0
    ensures taken == Drain(r2, plate).plates && rest == Drain(r2, plate).rest
  {
    taken, rest := [], r2;
    while rest >= 2 * plate
      invariant taken + Drain(rest, plate).plates == Drain(r2, plate).plates
      invariant Drain(rest, plate).rest == Drain(r2, plate).rest
      decreases rest
    {
      var next := RoundedRemainder(rest, plate);
      assert taken + ([plate] + Drain(next, plate).plates) == (taken + [plate]) + Drain(next, plate).plates;
      taken := taken + [plate];
      rest := next;
    }
  }

  lemma {:induction false} DrainPlates(r2: int, plate: int)
    requires plate > 0
    ensures forall k :: 0 <= k < |Drain(r2, plate).plates| ==> Drain(r2, plate).plates[k] == plate
    decreases r2
  {
    if r2 >= 2 * plate {
      var next := RoundedRemainder(r2, plate);
      DrainPlates(next, plate);
      assert Drain(r2, plate).plates == [plate] + Drain(next, plate).plates;
    }
  }

  lemma {:induction false} DrainRest(r2: int, plate: int)
    requires r2 >= 0 && plate > 0
    ensures var d := Drain(r2, plate);
      && 0 <= d.rest < 2 * plate && d.rest <= r2
      && (|d.plates| == 0 ==> d.rest == r2)
      && (|d.plates| > 0 ==> d.rest % 2 == 0)
      && 2 * Sum(d.plates) + d.rest == r2 + Bump(r2, d.plates)
    decreases r2
  {
    if r2 >= 2 * plate {
      var next := RoundedRemainder(r2, plate);
      DrainRest(next, plate);
      var d := Drain(next, plate);
      assert ([plate] + d.plates)[1..] == d.plates;
      assert next % 2 == 0;
      if r2 % 2 == 0 {
        assert next == r2 - 2 * plate;
      } else {
        assert next == r2 - 2 * plate + 1;
      }
    }
  }

  /** Draining multiples of the unit's smallest plate keeps a load that is a whole number of them. */
  lemma {:induction false} DrainKeepsMultiple(r2: int, plate: int, u: Unit)
    requires r2 >= 0 && plate > 0 && plate % SmallestPlate(u) == 0
    requires r2 % (2 * SmallestPlate(u)) == 0
    ensures Drain(r2, plate).rest % (2 * SmallestPlate(u)) == 0
    decreases r2
  {
    if r2 >= 2 * plate {
      var next := RoundedRemainder(r2, plate);
      var m := 2 * SmallestPlate(u);
      assert next == r2 - 2 * plate;
      assert 2 * plate == m * (plate / SmallestPlate(u));
      assert next == m * (r2 / m - plate / SmallestPlate(u));
      DrainKeepsMultiple(next, plate, u);
    }
  }

  // ---------------------------------------------------------------- the outer loop

  lemma {:induction false} GreedyPlatesIn(r2: int, ds: seq<int>, i: nat)
    requires ValidDenominations(ds) && i <= |ds|
    ensures forall k :: 0 <= k < |GreedyFrom(r2, ds, i).plates| ==> GreedyFrom(r2, ds, i).plates[k] in ds[i..]
    ensures i < |ds| ==> forall k :: 0 <= k < |GreedyFrom(r2, ds, i).plates| ==> GreedyFrom(r2, ds, i).plates[k] <= ds[i]
    ensures i == |ds| ==> GreedyFrom(r2, ds, i).plates == []
    decreases |ds| - i
  {
    if i < |ds| {
      var d := Drain(r2, ds[i]);
      DrainPlates(r2, ds[i]);
      GreedyPlatesIn(d.rest, ds, i + 1);
      var g := GreedyFrom(d.rest, ds, i + 1);
      var ps := d.plates + g.plates;
      assert ds[i + 1..] == ds[i..][1..];
      forall k | 0 <= k < |ps| ensures ps[k] in ds[i..] && ps[k] <= ds[i] {
        if k < |d.plates| {
          assert ps[k] == ds[i..][0];
        } else {
          assert ps[k] == g.plates[k - |d.plates|];
          if i + 1 < |ds| {
            assert ds[i + 1] < ds[i];
          }
        }
      }
    }
  }

  lemma {:induction false} GreedyOrdered(r2: int, ds: seq<int>, i: nat)
    requires ValidDenominations(ds) && i <= |ds|
    ensures NonIncreasing(GreedyFrom(r2, ds, i).plates)
    decreases |ds| - i
  {
    if i < |ds| {
      var d := Drain(r2, ds[i]);
      DrainPlates(r2, ds[i]);
      GreedyOrdered(d.rest, ds, i + 1);
      GreedyPlatesIn(d.rest, ds, i + 1);
      var g := GreedyFrom(d.rest, ds, i + 1);
      var ps := d.plates + g.plates;
      forall k, m | 0 <= k < m < |ps| ensures ps[k] >= ps[m] {
        assert NonIncreasing(g.plates);
        if k >= |d.plates| {
          assert ps[k] == g.plates[k - |d.plates|] && ps[m] == g.plates[m - |d.plates|];
          assert g.plates[k - |d.plates|] >= g.plates[m - |d.plates|];
        } else if m >= |d.plates| {
          assert ps[k] == d.plates[k] == ds[i];
          assert ps[m] == g.plates[m - |d.plates|];
          assert i + 1 < |ds| && ds[i + 1] < ds[i];
          assert g.plates[m - |d.plates|] <= ds[i + 1];
        } else {
          assert ps[k] == d.plates[k] && ps[m] == d.plates[m];
        }
      }
    }
  }

  lemma {:induction false} GreedyRest(r2: int, ds: seq<int>, i: nat)
    requires r2 >= 0 && ValidDenominations(ds) && i <= |ds|
    ensures var g := GreedyFrom(r2, ds, i);
      && 0 <= g.rest <= r2
      && (i < |ds| ==> g.rest < 2 * ds[|ds| - 1])
      && 2 * Sum(g.plates) + g.rest == r2 + Bump(r2, g.plates)
    decreases |ds| - i
  {
    if i < |ds| {
      var d := Drain(r2, ds[i]);
      DrainRest(r2, ds[i]);
      GreedyRest(d.rest, ds, i + 1);
      var g := GreedyFrom(d.rest, ds, i + 1);
      SumAppend(d.plates, g.plates);
      if |d.plates| > 0 {
        assert Bump(d.rest, g.plates) == 0;
      }
      if i + 1 == |ds| {
        assert g.rest == d.rest;
      }
    }
  }

  lemma {:induction false} GreedyKeepsMultiple(r2: int, u: Unit, i: nat)
    requires r2 >= 0 && i <= |AvailablePlates(u)|
    requires r2 % (2 * SmallestPlate(u)) == 0
    ensures GreedyFrom(r2, AvailablePlates(u), i).rest % (2 * SmallestPlate(u)) == 0
    decreases |AvailablePlates(u)| - i
  {
    var ds := AvailablePlates(u);
    if i < |ds| {
      var d := Drain(r2, ds[i]);
      DrainRest(r2, ds[i]);
      assert ds[i] % SmallestPlate(u) == 0;
      DrainKeepsMultiple(r2, ds[i], u);
      GreedyKeepsMultiple(d.rest, u, i + 1);
    }
  }

  // ---------------------------------------------------------------- properties

  /** At or below the bar's weight no plate is loaded. */
  lemma BarOnlyIsEmpty(total: int, u: Unit)
    requires total <= BarWeight(u)
    ensures PlatesFor(total, u) == []
    ensures PlatesFor(BarWeight(u), u) == []
  {
  }

  /** Every plate is one of the unit's denominations, and the list is largest first. */
  lemma PlatesAreDenominationsInOrder(total: int, u: Unit)
    ensures forall k :: 0 <= k < |PlatesFor(total, u)| ==> PlatesFor(total, u)[k] in AvailablePlates(u)
    ensures NonIncreasing(PlatesFor(total, u))
  {
    if total > BarWeight(u) {
      GreedyPlatesIn(total - BarWeight(u), AvailablePlates(u), 0);
      GreedyOrdered(total - BarWeight(u), AvailablePlates(u), 0);
      assert AvailablePlates(u)[0..] == AvailablePlates(u);
    }
  }

  /**
   * The load left unmet on each side is less than the smallest plate, and the
   * plates never exceed the per-side load when it is a whole number of hundredths
   * (by at most half a hundredth otherwise, from the round-half-up step).
   */
  lemma PlatesFitTheLoad(total: int, u: Unit)
    ensures total - (BarWeight(u) + 2 * Sum(PlatesFor(total, u))) < 2 * SmallestPlate(u)
    ensures (total - BarWeight(u)) % 2 == 0 ==> BarWeight(u) + 2 * Sum(PlatesFor(total, u)) <= total || total < BarWeight(u)
    ensures BarWeight(u) + 2 * Sum(PlatesFor(total, u)) <= total + 1 || total < BarWeight(u)
  {
    if total > BarWeight(u) {
      var ds, r2 := AvailablePlates(u), total - BarWeight(u);
      GreedyRest(r2, ds, 0);
      var g := GreedyFrom(r2, ds, 0);
      assert PlatesFor(total, u) == g.plates;
      assert ds[|ds| - 1] == SmallestPlate(u);
      assert 0 <= Bump(r2, g.plates) <= 1;
      assert r2 % 2 == 0 ==> Bump(r2, g.plates) == 0;
    }
  }

  /** When the per-side load is a whole number of smallest plates, the bar is loaded exactly. */
  lemma ExactWhenMultipleOfSmallest(total: int, u: Unit)
    requires total >= BarWeight(u)
    requires (total - BarWeight(u)) % (2 * SmallestPlate(u)) == 0
    ensures BarWeight(u) + 2 * Sum(PlatesFor(total, u)) == total
  {
    if total > BarWeight(u) {
      var ds, r2 := AvailablePlates(u), total - BarWeight(u);
      GreedyRest(r2, ds, 0);
      GreedyKeepsMultiple(r2, u, 0);
      var g := GreedyFrom(r2, ds, 0);
      var m := 2 * SmallestPlate(u);
      EvenWhenMultiple(r2, SmallestPlate(u));
      ZeroWhenSmallMultiple(g.rest, m);
    }
  }

  lemma EvenWhenMultiple(x: int, s: int)
    requires s > 0 && x % (2 * s) == 0
    ensures x % 2 == 0
  {
    var q := x / (2 * s);
    assert x == 2 * (s * q);
  }

  lemma ZeroWhenSmallMultiple(x: int, m: int)
    requires 0 <= x < m && x % m == 0
    ensures x == 0
  {
  }

  lemma Examples()
    ensures PlatesFor(22500, Lbs) == [4500, 4500]
    ensures PlatesFor(23000, Lbs) == [4500, 4500, 250]
    ensures PlatesFor(10000, Kg) == [2000, 2000]
    ensures PlatesFor(6000, Kg) == [2000]
  {
    TwoPlatesOf(18000, Lbs);
    Example230Lbs();
    TwoPlatesOf(8000, Kg);
    var kg := AvailablePlates(Kg);
    assert Drain(4000, 2000) == Loading([2000], 0);
    ZeroTakesNothing(kg, 1);
  }

  /** Twice the largest plate per side, in half-hundredths, is two of them. */
  lemma TwoPlatesOf(r2: int, u: Unit)
    requires r2 == 4 * AvailablePlates(u)[0]
    ensures GreedyFrom(r2, AvailablePlates(u), 0).plates == [AvailablePlates(u)[0], AvailablePlates(u)[0]]
  {
    var ds := AvailablePlates(u);
    var p := ds[0];
    assert Drain(0, p) == Loading([], 0);
    assert Drain(2 * p, p) == Loading([p], 0);
    assert Drain(r2, p) == Loading([p, p], 0);
    ZeroTakesNothing(ds, 1);
  }

  lemma Example230Lbs()
    ensures GreedyFrom(18500, AvailablePlates(Lbs), 0).plates == [4500, 4500, 250]
  {
    var lbs := AvailablePlates(Lbs);
    assert Drain(500, 4500) == Loading([], 500);
    assert Drain(9500, 4500) == Loading([4500], 500);
    assert Drain(18500, 4500) == Loading([4500, 4500], 500);
    assert Drain(0, 250) == Loading([], 0);
    assert Drain(500, 250) == Loading([250], 0);
    ZeroTakesNothing(lbs, 6);
    assert GreedyFrom(500, lbs, 5) == Loading([250], 0);
    assert GreedyFrom(500, lbs, 1) == Loading([250], 0);
  }

  /** Nothing is left to load: no more plates. */
  lemma {:induction false} ZeroTakesNothing(ds: seq<int>, i: nat)
    requires i <= |ds| && forall j :: 0 <= j < |ds| ==> ds[j] > 0
    ensures GreedyFrom(0, ds, i) == Loading([], 0)
    decreases |ds| - i
  {
    if i < |ds| {
      ZeroTakesNothing(ds, i + 1);
    }
  }
}
