/**
 The two correction loops of the allocation and what they achieve: the exact target, within bounds, in one
 pass upwards, whatever the order of the dictionary.
 */
module AllocationLoops {
  import opened Prelude
  import opened Allocation

  // ---- what the loops compute ----------------------------------------------------------------

  function Floor(checked: Shares, target: int, total: int, name: int): int
    requires name in checked && total > 0
  {
    var share := target * checked[name] / total;
    if share >= 1 then share else 1
  }

  function Base(checked: Shares, target: int, total: int): (base: Shares)
    requires total > 0
    ensures base.Keys == checked.Keys
  {
    map name | name in checked :: Floor(checked, target, total, name)
  }

  /** One more for each unsaturated name in order, `d` of them at most. */
  function Raise(order: seq<int>, shares: Shares, checked: Shares, d: nat): (raised: Shares)
    requires Covers(shares, order) && Covers(checked, order)
    ensures raised.Keys == shares.Keys
  {
    if order == [] || d == 0 then shares
    else
      var name := order[0];
      assert Covers(shares, order[1..]) && Covers(checked, order[1..]);
      if shares[name] >= checked[name] then Raise(order[1..], shares, checked, d)
      else Raise(order[1..], shares[name := shares[name] + 1], checked, d - 1)
  }

  /** One less for each name above one, from the last in order, `d` of them at most; and what is left of `d`. */
  function LowerPass(order: seq<int>, shares: Shares, d: nat): (lowered: (Shares, nat))
    requires Covers(shares, order)
    ensures lowered.0.Keys == shares.Keys && lowered.1 <= d
  {
    if order == [] || d == 0 then (shares, d)
    else
      var name, init := order[|order| - 1], order[..|order| - 1];
      assert Covers(shares, init);
      if shares[name] <= 1 then LowerPass(init, shares, d)
      else LowerPass(init, shares[name := shares[name] - 1], d - 1)
  }

  /** Passes until nothing is left to take, or nothing can be taken. */
  function Lower(order: seq<int>, shares: Shares, d: nat): (lowered: Shares)
    requires Covers(shares, order)
    ensures lowered.Keys == shares.Keys
    decreases d
  {
    var (next, left) := LowerPass(order, shares, d);
    if left == 0 || left == d then next else Lower(order, next, left)
  }

  // ---- raising -------------------------------------------------------------------------------

  predicate Unsaturated(shares: Shares, checked: Shares, name: int)
    requires name in shares && name in checked
  {
    shares[name] < checked[name]
  }

  function Room(order: seq<int>, shares: Shares, checked: Shares): nat
    requires Covers(shares, order) && Covers(checked, order)
  {
    if order == [] then 0
    else
      assert Covers(shares, order[1..]) && Covers(checked, order[1..]);
      (if Unsaturated(shares, checked, order[0]) then 1 else 0) + Room(order[1..], shares, checked)
  }

  lemma {:induction false} RoomSame(order: seq<int>, shares: Shares, other: Shares, checked: Shares)
    requires Covers(shares, order) && Covers(checked, order) && Covers(other, order)
    requires forall k | 0 <= k < |order| :: shares[order[k]] == other[order[k]]
    ensures Room(order, shares, checked) == Room(order, other, checked)
  {
    if order != [] {
      assert forall k | 0 <= k < |order[1..]| :: order[1..][k] == order[k + 1];
      RoomSame(order[1..], shares, other, checked);
    }
  }

  /** The first unsaturated names gain one each and no other name changes. */
  ghost predicate RaisedFirst(order: seq<int>, shares: Shares, checked: Shares, raised: Shares)
    requires Covers(shares, order) && Covers(checked, order) && Covers(raised, order)
  {
    && (forall k | 0 <= k < |order| ::
          raised[order[k]] == shares[order[k]]
          || (Unsaturated(shares, checked, order[k]) && raised[order[k]] == shares[order[k]] + 1))
    && (forall a, b | 0 <= a < b < |order| ::
          raised[order[b]] > shares[order[b]] && Unsaturated(shares, checked, order[a])
          ==> raised[order[a]] > shares[order[a]])
  }

  /** The pass gives its slots to the first unsaturated names of the order, as many as there are slots or names. */
  ghost predicate RaisedBy(order: seq<int>, shares: Shares, checked: Shares, d: nat, raised: Shares)
    requires Covers(shares, order) && Covers(checked, order) && Covers(raised, order)
  {
    && raised.Keys == shares.Keys
    && RaisedFirst(order, shares, checked, raised)
    && (forall n | n in shares && n !in order :: raised[n] == shares[n])
    && (d == 0 ==> raised == shares)
    && Gained(order, shares, raised) == if d < Room(order, shares, checked) then d else Room(order, shares, checked)
  }

  lemma RestOf(order: seq<int>)
    requires order != [] && Distinct(order)
    ensures Distinct(order[1..]) && order[0] !in order[1..] && order == [order[0]] + order[1..]
    ensures forall k | 0 <= k < |order[1..]| :: order[1..][k] == order[k + 1]
  {
  }

  lemma {:induction false} RaiseSpec(order: seq<int>, shares: Shares, checked: Shares, d: nat)
    requires Covers(shares, order) && Covers(checked, order) && Distinct(order)
    ensures RaisedBy(order, shares, checked, d, Raise(order, shares, checked, d))
    decreases |order|
  {
    hide RaisedBy;
    if order == [] || d == 0 {
      NothingRaised(order, shares, checked, d);
    } else {
      var name := order[0];
      RestOf(order);
      var next := if shares[name] >= checked[name] then shares else shares[name := shares[name] + 1];
      var left := if shares[name] >= checked[name] then d else d - 1;
      RaiseSpec(order[1..], next, checked, left);
      RaisedByCons(order, shares, next, checked, d, left, Raise(order[1..], next, checked, left));
    }
  }

  lemma NothingRaised(order: seq<int>, shares: Shares, checked: Shares, d: nat)
    requires Covers(shares, order) && Covers(checked, order) && (order == [] || d == 0)
    ensures RaisedBy(order, shares, checked, d, shares)
  {
    NothingGained(order, shares);
  }

  lemma RaisedByCons(order: seq<int>, shares: Shares, next: Shares, checked: Shares, d: nat, left: nat, raised: Shares)
    requires order != [] && d > 0 && Covers(shares, order) && Covers(checked, order) && Covers(raised, order)
    requires Distinct(order) && order[0] !in order[1..] && raised.Keys == shares.Keys
    requires next == if shares[order[0]] >= checked[order[0]] then shares else shares[order[0] := shares[order[0]] + 1]
    requires left == if shares[order[0]] >= checked[order[0]] then d else d - 1
    requires Covers(next, order[1..]) && Covers(checked, order[1..]) && Covers(raised, order[1..])
    requires RaisedBy(order[1..], next, checked, left, raised)
    ensures RaisedBy(order, shares, checked, d, raised)
  {
    hide RaisedFirst, Gained, Room, Distinct;
    assert forall n | n in next && n !in order[1..] :: raised[n] == next[n];
    assert order[0] in next;
    CountsCons(order, shares, next, checked, raised);
    RaisedCons(order, shares, next, checked, raised);
  }

  lemma CountsCons(order: seq<int>, shares: Shares, next: Shares, checked: Shares, raised: Shares)
    requires order != [] && Covers(shares, order) && Covers(checked, order) && Covers(raised, order)
    requires order[0] !in order[1..]
    requires next == if shares[order[0]] >= checked[order[0]] then shares else shares[order[0] := shares[order[0]] + 1]
    requires raised[order[0]] == next[order[0]]
    requires Covers(next, order[1..]) && Covers(checked, order[1..]) && Covers(raised, order[1..])
    ensures Gained(order, shares, raised) == next[order[0]] - shares[order[0]] + Gained(order[1..], next, raised)
    ensures Room(order, shares, checked) == next[order[0]] - shares[order[0]] + Room(order[1..], next, checked)
  {
    assert forall k | 0 <= k < |order[1..]| :: order[1..][k] == order[k + 1];
    RoomSame(order[1..], next, shares, checked);
    GainedSame(order[1..], next, shares, raised);
  }

  lemma RaisedCons(order: seq<int>, shares: Shares, next: Shares, checked: Shares, raised: Shares)
    requires order != [] && Covers(shares, order) && Covers(checked, order) && Covers(raised, order) && Distinct(order)
    requires next == if shares[order[0]] >= checked[order[0]] then shares else shares[order[0] := shares[order[0]] + 1]
    requires raised[order[0]] == next[order[0]]
    requires Covers(next, order[1..]) && Covers(checked, order[1..]) && Covers(raised, order[1..])
    requires RaisedFirst(order[1..], next, checked, raised)
    ensures RaisedFirst(order, shares, checked, raised)
  {
    var rest := order[1..];
    forall k | 1 <= k < |order|
      ensures order[k] == rest[k - 1] && next[order[k]] == shares[order[k]]
    {
    }
  }

  function Gained(order: seq<int>, shares: Shares, raised: Shares): int
    requires Covers(shares, order) && Covers(raised, order)
  {
    if order == [] then 0
    else
      assert Covers(shares, order[1..]) && Covers(raised, order[1..]);
      raised[order[0]] - shares[order[0]] + Gained(order[1..], shares, raised)
  }

  lemma {:induction false} GainedSame(order: seq<int>, shares: Shares, other: Shares, raised: Shares)
    requires Covers(shares, order) && Covers(other, order) && Covers(raised, order)
    requires forall k | 0 <= k < |order| :: shares[order[k]] == other[order[k]]
    ensures Gained(order, shares, raised) == Gained(order, other, raised)
  {
    if order != [] {
      assert forall k | 0 <= k < |order[1..]| :: order[1..][k] == order[k + 1];
      GainedSame(order[1..], shares, other, raised);
    }
  }

  lemma {:induction false} NothingGained(order: seq<int>, shares: Shares)
    requires Covers(shares, order)
    ensures Gained(order, shares, shares) == 0
  {
    if order != [] { NothingGained(order[1..], shares); }
  }

  lemma {:induction false} GainedSums(order: seq<int>, shares: Shares, raised: Shares)
    requires Covers(shares, order) && Covers(raised, order)
    ensures Gained(order, shares, raised) == Sum(order, raised) - Sum(order, shares)
  {
    if order != [] {
      assert order == [order[0]] + order[1..];
      GainedSums(order[1..], shares, raised);
      SumConcat([order[0]], order[1..], shares);
      SumConcat([order[0]], order[1..], raised);
      SumOne(order[0], shares);
      SumOne(order[0], raised);
    }
  }

  // ---- one pass is enough --------------------------------------------------------------------

  /** What a name's rounding costs: less than one slot while it is unsaturated, nothing otherwise. */
  lemma FloorCost(checked: Shares, target: int, total: int, name: int)
    requires name in checked && checked[name] >= 1 && total > 0 && 1 <= target <= total
    ensures var base := Floor(checked, target, total, name);
      && 1 <= base <= checked[name]
      && total * base + (if base < checked[name] then total - 1 else 0) >= target * checked[name]
  {
    var v := checked[name];
    var q, r := target * v / total, target * v % total;
    assert total * q + r == target * v;
    assert target * v <= total * v by { MulLeft(v, target, total); }
    if q > v { MulLeft(total, v + 1, q); }
    if q < 1 { MulLeft(total, q, 0); }
    if q >= v { MulLeft(total, v, q); }
  }

  lemma {:induction false} DeficitBound(order: seq<int>, checked: Shares, target: int, total: int)
    requires Covers(checked, order) && total > 0 && 1 <= target <= total
    requires forall n | n in checked :: checked[n] >= 1
    ensures var base := Base(checked, target, total);
      && Covers(base, order)
      && total * Sum(order, base) + (total - 1) * Room(order, base, checked) >= target * Sum(order, checked)
  {
    var base := Base(checked, target, total);
    if order != [] {
      var rest := order[1..];
      assert order == [order[0]] + rest;
      DeficitBound(rest, checked, target, total);
      SumConcat([order[0]], rest, base);
      SumConcat([order[0]], rest, checked);
      SumOne(order[0], base);
      SumOne(order[0], checked);
      FloorCost(checked, target, total, order[0]);
      hide Floor;
      var b, v := base[order[0]], checked[order[0]];
      DeficitStep(total, target, Sum(rest, base), Room(rest, base, checked), Sum(rest, checked), b, v);
    }
  }

  lemma DeficitStep(total: int, target: int, sum: int, room: int, weights: int, b: int, v: int)
    requires total * sum + (total - 1) * room >= target * weights
    requires total * b + (if b < v then total - 1 else 0) >= target * v
    ensures total * (b + sum) + (total - 1) * ((if b < v then 1 else 0) + room) >= target * (v + weights)
  {
    assert total * (b + sum) == total * b + total * sum;
    assert target * (v + weights) == target * v + target * weights;
    assert (total - 1) * (1 + room) == (total - 1) + (total - 1) * room;
  }

  /** The rounded-down shares fall short by no more than the number of unsaturated names. */
  lemma DeficitFits(order: seq<int>, checked: Shares, target: int, total: int)
    requires Covers(checked, order) && total > 0 && 1 <= target <= total && Sum(order, checked) == total
    requires forall n | n in checked :: checked[n] >= 1
    ensures var base := Base(checked, target, total);
      Covers(base, order) && target - Sum(order, base) <= Room(order, base, checked)
  {
    DeficitBound(order, checked, target, total);
    hide Sum, Room, Base;
    var base := Base(checked, target, total);
    DeficitArithmetic(total, target, Sum(order, base), Room(order, base, checked));
  }

  lemma DeficitArithmetic(total: int, target: int, sum: int, room: int)
    requires total > 0 && room >= 0 && total * sum + (total - 1) * room >= target * total
    ensures target - sum <= room
  {
    assert (total - 1) * room == total * room - room;
    assert total * (sum + room) == total * sum + total * room;
    assert total * (sum + room + 1) == total * (sum + room) + total;
    if target >= sum + room + 1 { MulLeft(total, sum + room + 1, target); }
  }

  // ---- lowering ------------------------------------------------------------------------------

  /** A pass takes from the last names first, at most one slot from each and never the last slot. */
  ghost predicate LoweredLast(order: seq<int>, shares: Shares, lowered: Shares)
    requires Covers(shares, order) && Covers(lowered, order)
  {
    && (forall k | 0 <= k < |order| ::
          lowered[order[k]] == shares[order[k]] || (shares[order[k]] > 1 && lowered[order[k]] == shares[order[k]] - 1))
    && (forall a, b | 0 <= a < b < |order| ::
          lowered[order[a]] < shares[order[a]] && shares[order[b]] > 1 ==> lowered[order[b]] < shares[order[b]])
  }

  lemma InitOf(order: seq<int>)
    requires order != [] && Distinct(order)
    ensures var name, init := order[|order| - 1], order[..|order| - 1];
      && Distinct(init) && name !in init && order == init + [name]
      && forall k | 0 <= k < |init| :: init[k] == order[k]
  {
  }

  lemma {:induction false} LowerPassSpec(order: seq<int>, shares: Shares, d: nat)
    requires Covers(shares, order) && Distinct(order)
    ensures var (lowered, left) := LowerPass(order, shares, d);
      && LoweredLast(order, shares, lowered)
      && (forall n | n in shares && n !in order :: lowered[n] == shares[n])
      && Sum(order, lowered) == Sum(order, shares) - (d - left)
      && (left > 0 ==> forall k | 0 <= k < |order| && shares[order[k]] > 1 :: lowered[order[k]] < shares[order[k]])
    decreases |order|
  {
    if order != [] && d > 0 {
      var name, init := order[|order| - 1], order[..|order| - 1];
      InitOf(order);
      hide Distinct;
      var next := if shares[name] <= 1 then shares else shares[name := shares[name] - 1];
      var left := if shares[name] <= 1 then d else d - 1;
      LowerPassSpec(init, next, left);
      SumSame(init, next, shares);
      var lowered := LowerPass(init, next, left).0;
      assert Sum(order, lowered) == Sum(init, lowered) + lowered[name];
      assert Sum(order, shares) == Sum(init, shares) + shares[name];
      hide LoweredLast, Sum;
      LoweredSnoc(order, shares, next, lowered);
    }
  }

  lemma LoweredSnoc(order: seq<int>, shares: Shares, next: Shares, lowered: Shares)
    requires order != [] && Covers(shares, order) && Covers(lowered, order) && Distinct(order)
    requires var name := order[|order| - 1];
      next == (if shares[name] <= 1 then shares else shares[name := shares[name] - 1]) && lowered[name] == next[name]
    requires Covers(next, order[..|order| - 1]) && Covers(lowered, order[..|order| - 1])
    requires LoweredLast(order[..|order| - 1], next, lowered)
    ensures LoweredLast(order, shares, lowered)
  {
    var init := order[..|order| - 1];
    forall k | 0 <= k < |init|
      ensures order[k] == init[k] && next[order[k]] == shares[order[k]]
    {
    }
  }

  lemma {:induction false} AllOnes(order: seq<int>, shares: Shares)
    requires Covers(shares, order) && forall k | 0 <= k < |order| :: shares[order[k]] <= 1
    ensures Sum(order, shares) <= |order|
  {
    if order != [] { AllOnes(order[..|order| - 1], shares); }
  }

  lemma LowerProgress(order: seq<int>, shares: Shares, d: nat)
    requires Covers(shares, order) && Distinct(order) && d > 0 && Sum(order, shares) - d >= |order|
    ensures LowerPass(order, shares, d).1 < d
  {
    LowerPassSpec(order, shares, d);
    var (lowered, left) := LowerPass(order, shares, d);
    if left == d {
      if exists k :: 0 <= k < |order| && shares[order[k]] > 1 {
        var k :| 0 <= k < |order| && shares[order[k]] > 1;
        SumLess(order, lowered, shares, k);
      } else {
        AllOnes(order, shares);
      }
    }
  }

  lemma {:induction false} SumLess(order: seq<int>, small: Shares, large: Shares, k: nat)
    requires Covers(small, order) && Covers(large, order) && k < |order|
    requires forall j | 0 <= j < |order| :: small[order[j]] <= large[order[j]]
    requires small[order[k]] < large[order[k]]
    ensures Sum(order, small) < Sum(order, large)
  {
    var init := order[..|order| - 1];
    if k < |init| { SumLess(init, small, large, k); } else { SumAtMost(init, small, large); }
  }

  lemma {:induction false} SumAtMost(order: seq<int>, small: Shares, large: Shares)
    requires Covers(small, order) && Covers(large, order)
    requires forall j | 0 <= j < |order| :: small[order[j]] <= large[order[j]]
    ensures Sum(order, small) <= Sum(order, large)
  {
    if order != [] { SumAtMost(order[..|order| - 1], small, large); }
  }

  lemma {:induction false} LowerSpec(order: seq<int>, shares: Shares, d: nat)
    requires Covers(shares, order) && Distinct(order) && Sum(order, shares) - d >= |order|
    requires forall k | 0 <= k < |order| :: shares[order[k]] >= 1
    ensures var lowered := Lower(order, shares, d);
      && Sum(order, lowered) == Sum(order, shares) - d
      && forall k | 0 <= k < |order| :: 1 <= lowered[order[k]] <= shares[order[k]]
    decreases d
  {
    LowerPassSpec(order, shares, d);
    if d > 0 {
      LowerProgress(order, shares, d);
      var (next, left) := LowerPass(order, shares, d);
      if left > 0 { LowerSpec(order, next, left); }
    }
  }
}
