/**
 When a larger request gets the smaller share.  Rounding down never reverses two requests and neither do the
 lowering passes; the raising pass does exactly when the slots left over run out between the two.
 */
module AllocationOrder {
  import opened Prelude
  import opened Allocation
  import opened AllocationLoops
  import opened ApiLimits

  // ---- ranks ---------------------------------------------------------------------------------

  /** The nodes that want more than their rounded-down share and come before `name` in the order of correction. */
  ghost function Ahead(checked: Shares, target: int, total: int, name: int): set<int>
    requires total > 0 && name in checked
  {
    set m | m in checked && Floor(checked, target, total, m) < checked[m] && Before(checked, target, total, m, name)
  }

  ghost function Rank(checked: Shares, target: int, total: int, name: int): nat
    requires total > 0 && name in checked
  {
    |Ahead(checked, target, total, name)|
  }

  /** Slots left over by rounding down; negative when rounding up to one slot took too many. */
  function Deficit(requested: seq<Request>, configured: Option<int>): int
    requires Distinct(Names(requested)) && Short(requested, configured)
  {
    CheckedCovers(requested);
    var base := Base(Checked(requested), Target(requested, configured), Total(requested));
    Target(requested, configured) - Sum(Names(requested), base)
  }

  /** Room counts the unsaturated names. */
  lemma {:induction false} RoomIsCount(order: seq<int>, shares: Shares, checked: Shares)
    requires Covers(shares, order) && Covers(checked, order) && Distinct(order)
    ensures Room(order, shares, checked) == |set m | m in order && shares[m] < checked[m]|
  {
    var all := set m | m in order && shares[m] < checked[m];
    if order == [] {
      assert all == {};
    } else {
      var rest := order[1..];
      RestOf(order);
      hide Distinct;
      RoomIsCount(rest, shares, checked);
      var fewer := set m | m in rest && shares[m] < checked[m];
      if shares[order[0]] < checked[order[0]] {
        assert all == fewer + {order[0]};
      } else {
        assert all == fewer;
      }
    }
  }

  /** A raising pass gives its slots to the names with fewer than `d` unsaturated names before them. */
  lemma {:induction false} RaiseByRank(order: seq<int>, shares: Shares, checked: Shares, d: nat, k: nat)
    requires Covers(shares, order) && Covers(checked, order) && Distinct(order) && k < |order|
    ensures Covers(shares, order[..k]) && Covers(checked, order[..k]) && order[k] in Raise(order, shares, checked, d)
    ensures Raise(order, shares, checked, d)[order[k]]
         == shares[order[k]]
            + if shares[order[k]] < checked[order[k]] && Room(order[..k], shares, checked) < d then 1 else 0
    decreases |order|
  {
    if d > 0 {
      var name, rest := order[0], order[1..];
      RestOf(order);
      hide Distinct;
      var next := if shares[name] >= checked[name] then shares else shares[name := shares[name] + 1];
      var left := if shares[name] >= checked[name] then d else d - 1;
      if k == 0 {
        RaiseSpec(rest, next, checked, left);
        hide RaisedFirst, Gained;
      } else {
        RoomCons(order, shares, next, checked, k);
        RaiseByRank(rest, next, checked, left, k - 1);
      }
    }
  }

  lemma {:induction false} RoomCons(order: seq<int>, shares: Shares, next: Shares, checked: Shares, k: nat)
    requires Covers(shares, order) && Covers(checked, order) && order != [] && order[0] !in order[1..]
      && 0 < k < |order|
    requires next == if shares[order[0]] >= checked[order[0]] then shares else shares[order[0] := shares[order[0]] + 1]
    ensures order[1..][k - 1] == order[k] && next[order[k]] == shares[order[k]]
    ensures Covers(shares, order[..k]) && Covers(checked, order[..k])
    ensures Covers(next, order[1..][..k - 1]) && Covers(checked, order[1..][..k - 1])
    ensures Room(order[..k], shares, checked)
         == (if shares[order[0]] < checked[order[0]] then 1 else 0) + Room(order[1..][..k - 1], next, checked)
  {
    assert order[..k][0] == order[0] && order[..k][1..] == order[1..][..k - 1];
    assert order[k] in order[1..] by { assert order[1..][k - 1] == order[k]; }
    var between := order[1..][..k - 1];
    forall j | 0 <= j < |between| ensures between[j] in next && next[between[j]] == shares[between[j]] {
      assert order[1..][j] == order[j + 1];
    }
    RoomSame(between, next, shares, checked);
  }

  /** The room before a name in the order of correction is its rank. */
  lemma RoomIsRank(order: seq<int>, checked: Shares, target: int, total: int, k: nat)
    requires total > 0 && Covers(checked, order) && Distinct(order) && Sorted(checked, target, total, order)
    requires (forall n | n in checked :: n in order) && k < |order|
    ensures var base := Base(checked, target, total);
      Covers(base, order[..k]) && Covers(checked, order[..k])
      && Room(order[..k], base, checked) == Rank(checked, target, total, order[k])
  {
    hide Before, Floor, Sorted, Room, Distinct;
    var base, before := Base(checked, target, total), order[..k];
    assert forall j | 0 <= j < k :: before[j] == order[j];
    PrefixDistinct(order, k);
    RoomIsCount(before, base, checked);
    AheadIsBefore(order, checked, target, total, k, base);
  }

  lemma PrefixDistinct(order: seq<int>, k: nat)
    requires Distinct(order) && k <= |order|
    ensures Distinct(order[..k])
  {
  }

  lemma AheadIsBefore(order: seq<int>, checked: Shares, target: int, total: int, k: nat, base: Shares)
    requires total > 0 && Covers(checked, order) && Distinct(order) && Sorted(checked, target, total, order)
    requires (forall n | n in checked :: n in order) && k < |order|
    requires base == Base(checked, target, total) && Covers(base, order[..k]) && Covers(checked, order[..k])
    ensures Ahead(checked, target, total, order[k]) == set m | m in order[..k] && base[m] < checked[m]
  {
    hide Before, Floor;
    forall m ensures m in order[..k] <==> m in checked && Before(checked, target, total, m, order[k]) {
      if m in order[..k] {
        var j :| 0 <= j < k && order[..k][j] == m;
        assert order[j] == m;
      }
      if m in checked && Before(checked, target, total, m, order[k]) {
        var j :| 0 <= j < |order| && order[j] == m;
        NotLater(order, checked, target, total, j, k);
        assert order[..k][j] == m;
      }
    }
  }

  lemma NotLater(order: seq<int>, checked: Shares, target: int, total: int, j: nat, k: nat)
    requires total > 0 && Covers(checked, order) && Sorted(checked, target, total, order) && j < |order| && k < |order|
    requires Before(checked, target, total, order[j], order[k])
    ensures j < k
  {
    if k < j { BeforeTotal(checked, target, total, order[j], order[k]); }
  }

  // ---- rounding down keeps the order ---------------------------------------------------------

  lemma FloorMonotone(checked: Shares, target: int, total: int, a: int, b: int)
    requires a in checked && b in checked && checked[a] <= checked[b] && total > 0 && target >= 1
    ensures Floor(checked, target, total, a) <= Floor(checked, target, total, b)
  {
    MulLeft(target, checked[a], checked[b]);
    DivMonotone(target * checked[a], target * checked[b], total);
  }

  lemma DivMonotone(x: int, y: int, n: int)
    requires x <= y && n > 0
    ensures x / n <= y / n
  {
    var q, r := x / n, y / n;
    assert n * q <= x && y < n * r + n;
    if q >= r + 1 { MulLeft(n, r + 1, q); }
  }

  // ---- lowering never reverses ---------------------------------------------------------------

  /** `b` has at least what `a` has, and where they are level above one slot, `a` comes later and is taken from
      first. */
  predicate InOrder(order: seq<int>, shares: Shares, i: nat, j: nat)
    requires Covers(shares, order) && i < |order| && j < |order|
  {
    shares[order[i]] <= shares[order[j]] && (shares[order[i]] == shares[order[j]] > 1 ==> j < i)
  }

  lemma PassKeepsOrder(order: seq<int>, shares: Shares, d: nat, i: nat, j: nat)
    requires Covers(shares, order) && Distinct(order) && i < |order| && j < |order|
    requires InOrder(order, shares, i, j) && forall k | 0 <= k < |order| :: shares[order[k]] >= 1
    ensures var (lowered, left) := LowerPass(order, shares, d);
      && lowered[order[i]] <= lowered[order[j]]
      && (left > 0 ==> InOrder(order, lowered, i, j))
      && forall k | 0 <= k < |order| :: lowered[order[k]] >= 1
  {
    LowerPassSpec(order, shares, d);
    hide LowerPass, Sum;
  }

  /** The lowering passes never leave a larger rounded-down share below a smaller one. */
  lemma {:induction false} LoweringKeepsOrder(order: seq<int>, shares: Shares, d: nat, i: nat, j: nat)
    requires Covers(shares, order) && Distinct(order) && i < |order| && j < |order|
    requires InOrder(order, shares, i, j) && forall k | 0 <= k < |order| :: shares[order[k]] >= 1
    ensures Lower(order, shares, d)[order[i]] <= Lower(order, shares, d)[order[j]]
    decreases d
  {
    PassKeepsOrder(order, shares, d, i, j);
    var (next, left) := LowerPass(order, shares, d);
    if left != 0 && left != d { LoweringKeepsOrder(order, next, left, i, j); }
  }

  /** Where two requests round down to the same share above one slot, the larger has the larger remainder. */
  lemma LevelRemainders(checked: Shares, target: int, total: int, a: int, b: int)
    requires a in checked && b in checked && checked[a] < checked[b] && total > 0 && target >= 1
    requires target * checked[a] / total == target * checked[b] / total
    ensures Before(checked, target, total, b, a)
  {
    var q := target * checked[a] / total;
    assert total * q + Remainder(checked, target, total, a) == target * checked[a];
    assert total * q + Remainder(checked, target, total, b) == target * checked[b];
    assert target * checked[b] == target * checked[a] + target * (checked[b] - checked[a]);
    MulLeft(target, 1, checked[b] - checked[a]);
  }

  // ---- the exact condition -------------------------------------------------------------------

  /** The larger request of `b` gets the smaller share: both round down to the same share, `a` wants more, and
      the slots left over reach `a` but not `b`. */
  ghost predicate RunsOutBetween(checked: Shares, target: int, total: int, deficit: int, a: int, b: int)
    requires total > 0 && a in checked && b in checked
  {
    && Floor(checked, target, total, a) == Floor(checked, target, total, b) < checked[a]
    && Rank(checked, target, total, a) < deficit <= Rank(checked, target, total, b)
  }

  /** A complete order of correction of valid requests. */
  ghost predicate Complete(order: seq<int>, checked: Shares, target: int, total: int) {
    && total > 0 && Covers(checked, order) && Distinct(order) && Sorted(checked, target, total, order)
    && (forall n | n in checked :: checked[n] >= 1 && n in order)
    && Sum(order, checked) == total && 1 <= |order| <= target <= total
  }

  lemma InversionRaising(order: seq<int>, checked: Shares, target: int, total: int, d: nat, a: int, b: int)
    requires Complete(order, checked, target, total) && a in checked && b in checked && checked[a] < checked[b]
    ensures var base := Base(checked, target, total);
      && Covers(base, order)
      && var shares := Raise(order, base, checked, d);
         a in shares && b in shares && (shares[a] > shares[b] <==> RunsOutBetween(checked, target, total, d, a, b))
  {
    var base := Base(checked, target, total);
    var i :| 0 <= i < |order| && order[i] == a;
    var j :| 0 <= j < |order| && order[j] == b;
    hide Sorted, Distinct, Sum, Rank, Room, Floor, Raise;
    RaiseByRank(order, base, checked, d, i);
    RaiseByRank(order, base, checked, d, j);
    RoomIsRank(order, checked, target, total, i);
    RoomIsRank(order, checked, target, total, j);
    FloorMonotone(checked, target, total, a, b);
    assert base[a] == Floor(checked, target, total, a) && base[b] == Floor(checked, target, total, b);
  }

  lemma LoweringInOrder(order: seq<int>, checked: Shares, target: int, total: int, d: nat, a: int, b: int)
    requires Complete(order, checked, target, total) && a in checked && b in checked && checked[a] < checked[b]
    ensures var base := Base(checked, target, total);
      && Covers(base, order)
      && var shares := Lower(order, base, d); a in shares && b in shares && shares[a] <= shares[b]
  {
    var base := Base(checked, target, total);
    var i :| 0 <= i < |order| && order[i] == a;
    var j :| 0 <= j < |order| && order[j] == b;
    BaseFacts(checked, target, total);
    FloorMonotone(checked, target, total, a, b);
    if base[a] == base[b] > 1 {
      LevelRemainders(checked, target, total, a, b);
      NotLater(order, checked, target, total, j, i);
    }
    hide Sorted, Sum, Floor, Base, Before;
    LoweringKeepsOrder(order, base, d, i, j);
  }

  /** In the bounded branch, exactly when the slots left over run out between the two does the larger request
      get the smaller share; when one-slot minimums took too many there is no such pair. */
  lemma InversionExactly(requested: seq<Request>, configured: Option<int>, shares: Shares, a: int, b: int)
    requires Distinct(Names(requested)) && IsAllocation(requested, configured, shares) && Short(requested, configured)
    requires a in Checked(requested) && b in Checked(requested) && Checked(requested)[a] < Checked(requested)[b]
    ensures a in shares && b in shares
    ensures shares[a] > shares[b] <==>
      RunsOutBetween(Checked(requested), Target(requested, configured), Total(requested),
        Deficit(requested, configured), a, b)
  {
    hide IsAllocation, Before, Sorted, Checked, Names, Total, Target, Base, RunsOutBetween, Sum, Distinct, Raise, Lower;
    var order := AllocationParts(requested, configured, shares);
    var checked, total, target := Checked(requested), Total(requested), Target(requested, configured);
    var base := Base(checked, target, total);
    CheckedCovers(requested);
    SumAnyOrder(Names(requested), order, base);
    var deficit := Deficit(requested, configured);
    assert deficit == target - Sum(order, base);
    assert Complete(order, checked, target, total);
    hide Complete, Deficit;
    if deficit >= 0 {
      InversionRaising(order, checked, target, total, deficit, a, b);
    } else {
      LoweringInOrder(order, checked, target, total, -deficit, a, b);
      NeverOut(checked, target, total, deficit, a, b);
    }
  }

  lemma NeverOut(checked: Shares, target: int, total: int, deficit: int, a: int, b: int)
    requires total > 0 && a in checked && b in checked && deficit < 0
    ensures !RunsOutBetween(checked, target, total, deficit, a, b)
  {
  }

  /** It only happens around one slot: the smaller request is worth less than one slot, rounded up to it, and the
      larger one at least one and less than two. */
  lemma InversionAtOneSlot(requested: seq<Request>, configured: Option<int>, shares: Shares, a: int, b: int)
    requires Distinct(Names(requested)) && IsAllocation(requested, configured, shares) && Short(requested, configured)
    requires a in Checked(requested) && b in Checked(requested) && Checked(requested)[a] < Checked(requested)[b]
    ensures a in shares && b in shares
    ensures shares[a] > shares[b] ==>
      var checked, total, target := Checked(requested), Total(requested), Target(requested, configured);
      target * checked[a] < total <= target * checked[b] < 2 * total
  {
    InversionExactly(requested, configured, shares, a, b);
    hide IsAllocation;
    CheckedCovers(requested);
    var checked, total, target := Checked(requested), Total(requested), Target(requested, configured);
    var deficit := Deficit(requested, configured);
    hide Checked, Names, Total, Target, Deficit;
    if shares[a] > shares[b] { OneSlot(checked, target, total, deficit, a, b); }
  }

  lemma OneSlot(checked: Shares, target: int, total: int, deficit: int, a: int, b: int)
    requires total > 0 && target >= 1 && a in checked && b in checked && 1 <= checked[a] < checked[b]
    requires RunsOutBetween(checked, target, total, deficit, a, b)
    ensures target * checked[a] < total <= target * checked[b] < 2 * total
  {
    var x, y := target * checked[a], target * checked[b];
    MulLeft(target, checked[a], checked[b]);
    MulLeft(target, 1, checked[a]);
    if x / total == y / total {
      LevelRemainders(checked, target, total, a, b);
      RankGrows(checked, target, total, b, a);
    } else {
      Quotients(x, y, total);
    }
  }

  /** Who comes earlier has the smaller rank. */
  lemma RankGrows(checked: Shares, target: int, total: int, a: int, b: int)
    requires total > 0 && a in checked && b in checked && Before(checked, target, total, a, b)
    ensures Rank(checked, target, total, a) <= Rank(checked, target, total, b)
  {
    var x, y := Ahead(checked, target, total, a), Ahead(checked, target, total, b);
    forall m | m in x ensures m in y { BeforeTransitive(checked, target, total, m, a, b); }
    assert y == x + (y - x);
  }

  /** Different quotients that both round to the same positive share. */
  lemma Quotients(x: int, y: int, n: int)
    requires 0 <= x <= y && n > 0 && x / n != y / n
    requires (if x / n >= 1 then x / n else 1) == if y / n >= 1 then y / n else 1
    ensures x < n <= y < 2 * n
  {
    var q, r := x / n, y / n;
    assert n * q + x % n == x && n * r + y % n == y;
    DivMonotone(x, y, n);
    if q < 0 { MulLeft(n, q, -1); }
  }
}
