/** `allocate_api_capacity`, and what every allocation is. */
module ApiLimits {
  import opened Prelude
  import opened Allocation
  import opened AllocationLoops

  /** The shares both loops arrive at. */
  function Corrected(order: seq<int>, checked: Shares, target: int, total: int): Shares
    requires Covers(checked, order) && total > 0
  {
    var base := Base(checked, target, total);
    assert Covers(base, order);
    var used := Sum(order, base);
    if used <= target then Raise(order, base, checked, target - used) else Lower(order, base, used - target)
  }

  ghost predicate IsOrder(requested: seq<Request>, checked: Shares, target: int, total: int, order: seq<int>)
    requires total > 0
  {
    multiset(order) == multiset(Names(requested)) && Covers(checked, order) && Sorted(checked, target, total, order)
  }

  ghost predicate IsAllocation(requested: seq<Request>, configured: Option<int>, shares: Shares) {
    var names, checked := Names(requested), Checked(requested);
    Covers(checked, names) &&
    var total := Sum(names, checked);
    if configured.None? || configured.value >= total || total <= 0 then shares == checked
    else
      var target := Max(|names|, configured.value);
      exists order ::
        IsOrder(requested, checked, target, total, order) && shares == Corrected(order, checked, target, total)
  }

  lemma {:induction false} SumAtLeast(names: seq<int>, m: Shares)
    requires Covers(m, names) && forall n | n in m :: m[n] >= 1
    ensures Sum(names, m) >= |names|
  {
    if names != [] { SumAtLeast(names[..|names| - 1], m); }
  }

  lemma CheckedCovers(requested: seq<Request>)
    requires Distinct(Names(requested))
    ensures Covers(Checked(requested), Names(requested))
    ensures forall n | n in Checked(requested) :: Checked(requested)[n] >= 1 && n in Names(requested)
    ensures Sum(Names(requested), Checked(requested)) >= |requested|
  {
    CheckedSpec(requested);
    hide Checked;
    var names, checked := Names(requested), Checked(requested);
    hide Names;
    forall n | n in checked ensures n in names {
      var k :| 0 <= k < |requested| && requested[k].name == n;
      assert names[k] == n;
    }
    SumAtLeast(names, checked);
  }

  /** An order of distinct names has no name twice. */
  lemma OrderDistinct(names: seq<int>, order: seq<int>)
    requires Distinct(names) && multiset(order) == multiset(names)
    ensures Distinct(order) && |order| == |names|
  {
    assert |multiset(order)| == |order| && |multiset(names)| == |names|;
    forall a, b | 0 <= a < b < |order| ensures order[a] != order[b] {
      if order[a] == order[b] {
        SplitTwice(order, a, b);
        OnlyOnce(names, order[a]);
      }
    }
  }

  lemma SplitTwice(s: seq<int>, a: nat, b: nat)
    requires a < b < |s| && s[a] == s[b]
    ensures multiset(s)[s[a]] >= 2
  {
    assert s == s[..b] + s[b..];
    assert s[..b][a] == s[a] && s[b..][0] == s[a];
    assert s[a] in multiset(s[..b]) && s[a] in multiset(s[b..]);
  }

  lemma {:induction false} OnlyOnce(names: seq<int>, x: int)
    requires Distinct(names)
    ensures multiset(names)[x] <= 1
  {
    if names != [] {
      var init, last := names[..|names| - 1], names[|names| - 1];
      assert names == init + [last];
      OnlyOnce(init, x);
      if last == x { assert x !in init; }
    }
  }

  // ---- the method ----------------------------------------------------------------------------

  /** `stalled` tells whether a correction loop was left by its `not changed` exit. */
  method Allocate(requested: seq<Request>, configured: Option<int>) returns (shares: Shares, ghost stalled: bool)
    requires Distinct(Names(requested))
    ensures IsAllocation(requested, configured, shares) && !stalled
  {
    stalled := false;
    var names := Names(requested);
    var checked: Shares := map[];
    for i := 0 to |requested|
      invariant checked == Checked(requested[..i])
    {
      assert requested[..i + 1][..i] == requested[..i];
      checked := checked[requested[i].name := if requested[i].value >= 1 then requested[i].value else 1];
    }
    assert requested[..|requested|] == requested;
    CheckedCovers(requested);
    if checked == map[] { return checked, false; }
    var total := SumOf(names, checked);
    if configured.None? || configured.value >= total { return checked, false; }
    NonEmpty(requested);
    var target := Max(|names|, configured.value);
    var order := SortedNames(checked, target, total, names);
    OrderDistinct(names, order);
    SumAnyOrder(names, order, checked);
    shares, stalled := Correct(order, checked, target, total);
    assert IsOrder(requested, checked, target, total, order);
  }

  lemma NonEmpty(requested: seq<Request>)
    requires Distinct(Names(requested)) && Checked(requested) != map[]
    ensures requested != []
  {
  }

  method SumOf(names: seq<int>, m: Shares) returns (sum: int)
    requires Covers(m, names)
    ensures sum == Sum(names, m)
  {
    sum := 0;
    for i := 0 to |names|
      invariant Covers(m, names[..i]) && sum == Sum(names[..i], m)
    {
      assert names[..i + 1][..i] == names[..i];
      sum := sum + m[names[i]];
    }
    assert names[..|names|] == names;
  }

  /** One pass of the upward loop. */
  method RaiseOnce(order: seq<int>, before: Shares, checked: Shares, usedBefore: int, target: int)
    returns (shares: Shares, used: int, changed: bool)
    requires Covers(before, order) && Covers(checked, order) && Distinct(order)
    requires usedBefore == Sum(order, before) < target
    ensures shares == Raise(order, before, checked, target - usedBefore)
    ensures used == Sum(order, shares) <= target && (changed <==> used > usedBefore)
  {
    hide Distinct;
    shares, used, changed := before, usedBefore, false;
    var k := 0;
    while k < |order|
      invariant k <= |order| && shares.Keys == before.Keys && Covers(shares, order)
      invariant Covers(shares, order[k..]) && Covers(checked, order[k..])
      invariant usedBefore <= used == Sum(order, shares) < target && (changed <==> used > usedBefore)
      invariant Raise(order[k..], shares, checked, target - used) == Raise(order, before, checked, target - usedBefore)
    {
      var name := order[k];
      assert order[k..][0] == name && order[k..][1..] == order[k + 1..];
      if shares[name] < checked[name] {
        SumUpdate(order, k, shares, shares[name] + 1);
        shares := shares[name := shares[name] + 1];
        used := used + 1;
        changed := true;
        if used == target { return; }
      }
      k := k + 1;
    }
  }

  /** One pass of the downward loop, from the last name to the first. */
  method LowerOnce(order: seq<int>, before: Shares, usedBefore: int, target: int)
    returns (shares: Shares, used: int, changed: bool)
    requires Covers(before, order) && Distinct(order)
    requires usedBefore == Sum(order, before) > target
    ensures shares.Keys == before.Keys && Covers(shares, order)
    ensures target <= used == Sum(order, shares)
      && (shares, used - target) == LowerPass(order, before, usedBefore - target)
    ensures changed <==> used < usedBefore
  {
    hide Distinct;
    shares, used, changed := before, usedBefore, false;
    var k := |order|;
    assert order[..k] == order;
    while k > 0
      invariant k <= |order| && shares.Keys == before.Keys && Covers(shares, order) && Covers(shares, order[..k])
      invariant target < used == Sum(order, shares) <= usedBefore && (changed <==> used < usedBefore)
      invariant LowerPass(order[..k], shares, used - target) == LowerPass(order, before, usedBefore - target)
    {
      k := k - 1;
      var name := order[k];
      assert order[..k + 1][..k] == order[..k];
      if shares[name] > 1 {
        SumUpdate(order, k, shares, shares[name] - 1);
        shares := shares[name := shares[name] - 1];
        used := used - 1;
        changed := true;
        if used == target { return; }
      }
    }
  }

  /** From the rounded-down shares to the target.  The upward loop gets there in one pass and every pass of
      the downward loop takes something: neither leaves by its `not changed` exit. */
  method Correct(order: seq<int>, checked: Shares, target: int, total: int)
      returns (shares: Shares, ghost stalled: bool)
    requires Covers(checked, order) && Distinct(order) && Sum(order, checked) == total
    requires forall n | n in checked :: checked[n] >= 1
    requires 1 <= |order| <= target <= total
    ensures shares == Corrected(order, checked, target, total) && !stalled
  {
    hide Raise, Lower, Sum, Room;
    stalled := false;
    var base := Base(checked, target, total);
    DeficitFits(order, checked, target, total);
    hide Base;
    var used := SumOf(order, base);
    shares := base;
    if used <= target {
      RaiseNothing(order, base, checked);
      ghost var passes;
      shares, used, passes, stalled := RaiseLoop(order, base, checked, used, target);
    }
    LowerNothing(order, shares);
    if used > target {
      shares, used, stalled := LowerLoop(order, shares, used, target);
    }
  }

  method RaiseLoop(order: seq<int>, base: Shares, checked: Shares, usedBefore: int, target: int)
    returns (shares: Shares, used: int, ghost passes: nat, ghost stalled: bool)
    requires Covers(base, order) && Covers(checked, order) && Distinct(order)
    requires usedBefore == Sum(order, base) <= target <= usedBefore + Room(order, base, checked)
    ensures shares == Raise(order, base, checked, target - usedBefore) && used == Sum(order, shares) == target
    ensures passes <= 1 && !stalled
  {
    hide Raise, Sum, Room;
    RaiseNothing(order, base, checked);
    RaiseReaches(order, base, checked, target - usedBefore);
    shares, used, passes, stalled := base, usedBefore, 0, false;
    while used < target
      invariant !stalled
      invariant (used == usedBefore && shares == base && passes == 0)
             || (used == target && passes <= 1 && shares == Raise(order, base, checked, target - usedBefore))
      decreases target - used
    {
      var changed;
      shares, used, changed := RaiseOnce(order, shares, checked, used, target);
      passes := passes + 1;
      assert changed && used == target;
      if !changed {
        stalled := true;
        break;
      }
    }
  }

  method LowerLoop(order: seq<int>, base: Shares, usedBefore: int, target: int)
    returns (shares: Shares, used: int, ghost stalled: bool)
    requires Covers(base, order) && Distinct(order)
    requires usedBefore == Sum(order, base) >= target >= |order|
    ensures shares == Lower(order, base, usedBefore - target) && used == target && !stalled
  {
    hide LowerPass, Sum;
    shares, used, stalled := base, usedBefore, false;
    while used > target
      invariant !stalled
      invariant shares.Keys == base.Keys && Covers(shares, order) && target <= used == Sum(order, shares)
      invariant Lower(order, shares, used - target) == Lower(order, base, usedBefore - target)
      decreases used - target
    {
      LowerProgress(order, shares, used - target);
      ghost var next := LowerPass(order, shares, used - target);
      LowerNothing(order, next.0);
      var changed;
      shares, used, changed := LowerOnce(order, shares, used, target);
      assert changed;
      if !changed {
        stalled := true;
        break;
      }
    }
    LowerNothing(order, shares);
  }

  lemma RaiseReaches(order: seq<int>, shares: Shares, checked: Shares, d: nat)
    requires Covers(shares, order) && Covers(checked, order) && Distinct(order) && d <= Room(order, shares, checked)
    ensures Sum(order, Raise(order, shares, checked, d)) == Sum(order, shares) + d
  {
    RaiseSpec(order, shares, checked, d);
    GainedSums(order, shares, Raise(order, shares, checked, d));
  }

  lemma RaiseNothing(order: seq<int>, shares: Shares, checked: Shares)
    requires Covers(shares, order) && Covers(checked, order)
    ensures Raise(order, shares, checked, 0) == shares
  {
  }

  lemma LowerNothing(order: seq<int>, shares: Shares)
    requires Covers(shares, order)
    ensures Lower(order, shares, 0) == shares
  {
  }

  // ---- what every allocation is --------------------------------------------------------------

  /** The parts of a true allocation, spelled out. */
  lemma AllocationParts(requested: seq<Request>, configured: Option<int>, shares: Shares) returns (order: seq<int>)
    requires Distinct(Names(requested)) && IsAllocation(requested, configured, shares)
    requires Short(requested, configured)
    ensures var checked, total, target := Checked(requested), Total(requested), Target(requested, configured);
      && IsOrder(requested, checked, target, total, order) && Distinct(order) && |order| == |requested|
      && shares == Corrected(order, checked, target, total)
      && Sum(order, checked) == total && 1 <= |order| <= target <= total
      && (forall n | n in checked :: checked[n] >= 1 && n in order)
  {
    CheckedCovers(requested);
    var names, checked := Names(requested), Checked(requested);
    var total, target := Total(requested), Target(requested, configured);
    var o :| IsOrder(requested, checked, target, total, o) && shares == Corrected(o, checked, target, total);
    order := o;
    OrderDistinct(names, order);
    SumAnyOrder(names, order, checked);
    forall n | n in checked ensures n in order { assert n in multiset(names); }
  }

  function Total(requested: seq<Request>): (total: int)
    requires Distinct(Names(requested))
    ensures total >= |requested|
  {
    CheckedCovers(requested);
    Sum(Names(requested), Checked(requested))
  }

  function Target(requested: seq<Request>, configured: Option<int>): int
    requires configured.Some?
  {
    Max(|requested|, configured.value)
  }

  /** The budget is smaller than the requests. */
  predicate Short(requested: seq<Request>, configured: Option<int>)
    requires Distinct(Names(requested))
  {
    requested != [] && configured.Some? && configured.value < Total(requested)
  }

  /** A budget that is no constraint leaves the requests as they are. */
  lemma AmpleBudget(requested: seq<Request>, configured: Option<int>, shares: Shares)
    requires Distinct(Names(requested)) && IsAllocation(requested, configured, shares) && !Short(requested, configured)
    ensures shares == Checked(requested)
  {
    CheckedCovers(requested);
  }

  /** A budget short of the requests is met exactly: the shares sum to the target, every node keeps a slot and
      none gets more than it asked for, nor more than one above its rounded-down proportion. */
  lemma AllocationExact(requested: seq<Request>, configured: Option<int>, shares: Shares)
    requires Distinct(Names(requested)) && IsAllocation(requested, configured, shares) && Short(requested, configured)
    ensures var checked, total, target := Checked(requested), Total(requested), Target(requested, configured);
      && shares.Keys == checked.Keys
      && Covers(shares, Names(requested)) && Sum(Names(requested), shares) == target
      && (forall n | n in checked :: 1 <= shares[n] <= checked[n] && shares[n] <= Floor(checked, target, total, n) + 1)
      && ((forall n | n in checked :: shares[n] >= Floor(checked, target, total, n))
          || (forall n | n in checked :: shares[n] <= Floor(checked, target, total, n)))
  {
    var order := AllocationParts(requested, configured, shares);
    CheckedCovers(requested);
    var checked, total, target := Checked(requested), Total(requested), Target(requested, configured);
    SumAnyOrder(Names(requested), order, shares);
    hide Checked, Total, Target, Names, Sorted;
    CorrectedExact(order, checked, target, total);
  }

  lemma CorrectedExact(order: seq<int>, checked: Shares, target: int, total: int)
    requires Covers(checked, order) && Distinct(order) && Sum(order, checked) == total
    requires forall n | n in checked :: checked[n] >= 1 && n in order
    requires 1 <= |order| <= target <= total
    ensures var shares := Corrected(order, checked, target, total);
      && Covers(shares, order) && shares.Keys == checked.Keys && Sum(order, shares) == target
      && (forall n | n in checked :: 1 <= shares[n] <= checked[n] && shares[n] <= Floor(checked, target, total, n) + 1)
      && ((forall n | n in checked :: shares[n] >= Floor(checked, target, total, n))
          || (forall n | n in checked :: shares[n] <= Floor(checked, target, total, n)))
  {
    hide Floor, Base, Sum, Room, Raise, Lower, Distinct;
    BaseFacts(checked, target, total);
    DeficitFits(order, checked, target, total);
    var base := Base(checked, target, total);
    if Sum(order, base) <= target {
      RaisedExact(order, base, checked, target - Sum(order, base));
    } else {
      LoweredExact(order, base, Sum(order, base) - target);
    }
  }

  lemma BaseFacts(checked: Shares, target: int, total: int)
    requires 1 <= target <= total && forall n | n in checked :: checked[n] >= 1
    ensures var base := Base(checked, target, total);
      forall n | n in checked :: base[n] == Floor(checked, target, total, n) && 1 <= base[n] <= checked[n]
  {
    forall n | n in checked ensures 1 <= Floor(checked, target, total, n) <= checked[n] {
      FloorCost(checked, target, total, n);
    }
  }

  lemma RaisedExact(order: seq<int>, base: Shares, checked: Shares, d: nat)
    requires Covers(base, order) && Covers(checked, order) && Distinct(order) && d <= Room(order, base, checked)
    requires base.Keys == checked.Keys && forall n | n in checked :: n in order && base[n] <= checked[n]
    ensures var shares := Raise(order, base, checked, d);
      && Sum(order, shares) == Sum(order, base) + d
      && forall n | n in checked :: base[n] <= shares[n] <= base[n] + 1 && shares[n] <= checked[n]
  {
    RaiseReaches(order, base, checked, d);
    RaiseSpec(order, base, checked, d);
    hide Raise, Sum, Room;
    forall n | n in checked ensures var m := Raise(order, base, checked, d)[n];
        base[n] <= m <= base[n] + 1 && m <= checked[n]
    {
      var k :| 0 <= k < |order| && order[k] == n;
    }
  }

  lemma LoweredExact(order: seq<int>, base: Shares, d: nat)
    requires Covers(base, order) && Distinct(order) && Sum(order, base) - d >= |order|
    requires forall n | n in base :: n in order && base[n] >= 1
    ensures var shares := Lower(order, base, d);
      && Sum(order, shares) == Sum(order, base) - d
      && forall n | n in base :: 1 <= shares[n] <= base[n]
  {
    LowerSpec(order, base, d);
    hide Lower, Sum;
    forall n | n in base ensures 1 <= Lower(order, base, d)[n] <= base[n] {
      var k :| 0 <= k < |order| && order[k] == n;
    }
  }

  /** The slots left over by rounding down go to the largest remainders first, among the nodes that want more. */
  lemma LargestRemainders(requested: seq<Request>, configured: Option<int>, shares: Shares, a: int, b: int)
    requires Distinct(Names(requested)) && IsAllocation(requested, configured, shares) && Short(requested, configured)
    requires a in Checked(requested) && b in Checked(requested)
    requires a in shares && b in shares
    requires var checked, total, target := Checked(requested), Total(requested), Target(requested, configured);
      && shares[a] > Floor(checked, target, total, a)
      && shares[b] <= Floor(checked, target, total, b) < checked[b]
    ensures Before(Checked(requested), Target(requested, configured), Total(requested), a, b)
  {
    var order := AllocationParts(requested, configured, shares);
    hide IsAllocation, Before, Sorted, Checked, Total, Target, Names, Floor, Corrected, Sum;
    CorrectedBefore(order, Checked(requested), Target(requested, configured), Total(requested), a, b);
  }

  lemma CorrectedBefore(order: seq<int>, checked: Shares, target: int, total: int, a: int, b: int)
    requires Covers(checked, order) && Distinct(order) && Sum(order, checked) == total
      && 1 <= |order| <= target <= total
    requires Sorted(checked, target, total, order) && a in checked && b in checked
    requires forall n | n in checked :: checked[n] >= 1 && n in order
    requires var shares := Corrected(order, checked, target, total);
      && a in shares && b in shares
      && shares[a] > Floor(checked, target, total, a)
      && shares[b] <= Floor(checked, target, total, b) < checked[b]
    ensures Before(checked, target, total, a, b)
  {
    hide Before, Sorted, Floor, Base, Sum, Lower, Raise, Distinct;
    BaseFacts(checked, target, total);
    var base := Base(checked, target, total);
    if Sum(order, base) <= target {
      RaisedBefore(order, base, checked, target, total, target - Sum(order, base), a, b);
    } else {
      LoweredExact(order, base, Sum(order, base) - target);
    }
  }

  lemma RaisedBefore(order: seq<int>, base: Shares, checked: Shares, target: int, total: int, d: nat, a: int, b: int)
    requires total > 0 && Covers(base, order) && Covers(checked, order) && Distinct(order)
    requires Sorted(checked, target, total, order)
    requires a in order && b in order
    requires var shares := Raise(order, base, checked, d);
      a in base && b in base && a in checked && b in checked && shares[a] > base[a] && shares[b] <= base[b] < checked[b]
    ensures Before(checked, target, total, a, b)
  {
    RaiseSpec(order, base, checked, d);
    hide Raise, Before;
    var i :| 0 <= i < |order| && order[i] == a;
    var j :| 0 <= j < |order| && order[j] == b;
  }

  /** Two dictionaries with the same entries get the same shares, whatever order their keys come in. */
  lemma AnyDictionaryOrder(a: seq<Request>, b: seq<Request>, configured: Option<int>, x: Shares, y: Shares)
    requires Distinct(Names(a)) && Distinct(Names(b)) && multiset(a) == multiset(b)
    requires IsAllocation(a, configured, x) && IsAllocation(b, configured, y)
    ensures x == y
  {
    SameEntries(a, b);
    SameNames(a, b);
    CheckedCovers(a);
    CheckedCovers(b);
    SumAnyOrder(Names(a), Names(b), Checked(a));
    if Short(a, configured) {
      var p := AllocationParts(a, configured, x);
      var q := AllocationParts(b, configured, y);
      hide Checked, Names, Before;
      SortedUnique(Checked(a), Target(a, configured), Total(a), p, q);
    }
  }

  lemma SameEntries(a: seq<Request>, b: seq<Request>)
    requires Distinct(Names(a)) && Distinct(Names(b)) && multiset(a) == multiset(b)
    ensures Checked(a) == Checked(b) && |a| == |b|
  {
    hide Checked, Names, Distinct;
    SameSize(a, b);
    EntriesWithin(a, b);
    EntriesWithin(b, a);
    SameMaps(Checked(a), Checked(b));
  }

  lemma SameSize(a: seq<Request>, b: seq<Request>)
    requires multiset(a) == multiset(b)
    ensures |a| == |b|
  {
    assert |multiset(a)| == |a| && |multiset(b)| == |b|;
  }

  lemma SameMaps(x: Shares, y: Shares)
    requires forall n | n in x :: n in y && x[n] == y[n]
    requires forall n | n in y :: n in x && y[n] == x[n]
    ensures x == y
  {
    assert forall n :: n in x.Keys ==> n in y.Keys && x[n] == y[n];
    assert forall n :: n in y.Keys ==> n in x.Keys && y[n] == x[n];
    assert x.Keys == y.Keys;
    assert x == y;
  }

  lemma EntriesWithin(a: seq<Request>, b: seq<Request>)
    requires Distinct(Names(a)) && Distinct(Names(b)) && multiset(a) == multiset(b)
    ensures forall n | n in Checked(a) :: n in Checked(b) && Checked(a)[n] == Checked(b)[n]
  {
    CheckedSpec(a);
    CheckedSpec(b);
    hide Checked, Distinct, Names;
    forall n | n in Checked(a) ensures n in Checked(b) && Checked(a)[n] == Checked(b)[n] {
      var k :| 0 <= k < |a| && a[k].name == n;
      assert a[k] in multiset(b);
      var j := IndexOf(b, a[k]);
    }
  }

  lemma {:induction false} SameNames(a: seq<Request>, b: seq<Request>)
    requires multiset(a) == multiset(b)
    ensures multiset(Names(a)) == multiset(Names(b))
    decreases |a|
  {
    hide Names;
    if a == [] {
      assert b == [] by { assert |multiset(b)| == 0; }
    } else {
      var k := TakeOut(a, b);
      NamesRemoved(a, 0);
      NamesRemoved(b, k);
      SameNames(a[..0] + a[0 + 1..], b[..k] + b[k + 1..]);
    }
  }

  lemma NamesRemoved(b: seq<Request>, k: nat)
    requires k < |b|
    ensures multiset(Names(b)) == multiset(Names(b[..k] + b[k + 1..])) + multiset{b[k].name}
  {
    var rest, names := b[..k] + b[k + 1..], Names(b);
    assert b == b[..k] + [b[k]] + b[k + 1..];
    assert names == names[..k] + [b[k].name] + names[k + 1..];
    assert Names(rest) == names[..k] + names[k + 1..];
  }

  /** Order is not preserved: of the requests 9, 11, 15 and 15 for a budget of five, the smallest alone gets
      two slots. */
  lemma SmallestCanWin(shares: Shares)
    requires IsAllocation(FOUR_NODES, Some(5), shares)
    ensures Distinct(Names(FOUR_NODES)) && shares == map[0 := 2, 1 := 1, 2 := 1, 3 := 1]
  {
    FourNodes();
    var checked: Shares := map[0 := 9, 1 := 11, 2 := 15, 3 := 15];
    var order := AllocationParts(FOUR_NODES, Some(5), shares);
    hide Checked, Names, IsAllocation, Short, Total, Target;
    FourOrder(checked, order);
    hide Before, Sorted;
    FourShares(checked, order);
  }

  lemma FourOrder(checked: Shares, order: seq<int>)
    requires checked == map[0 := 9, 1 := 11, 2 := 15, 3 := 15] && Covers(checked, order)
    requires multiset(order) == multiset([0, 1, 2, 3]) && Sorted(checked, 5, 50, order)
    ensures order == [0, 2, 3, 1]
  {
    var expected := [0, 2, 3, 1];
    assert multiset(expected) == multiset([0, 1, 2, 3]);
    FourSorted(checked);
    hide Sorted;
    SortedUnique(checked, 5, 50, order, expected);
  }

  lemma FourSorted(checked: Shares)
    requires checked == map[0 := 9, 1 := 11, 2 := 15, 3 := 15]
    ensures Sorted(checked, 5, 50, [0, 2, 3, 1])
  {
    assert Before(checked, 5, 50, 0, 2) && Before(checked, 5, 50, 0, 3) && Before(checked, 5, 50, 0, 1);
    assert Before(checked, 5, 50, 2, 3) && Before(checked, 5, 50, 2, 1) && Before(checked, 5, 50, 3, 1);
    hide Before;
  }

  lemma FourShares(checked: Shares, order: seq<int>)
    requires checked == map[0 := 9, 1 := 11, 2 := 15, 3 := 15] && Covers(checked, order) && order == [0, 2, 3, 1]
    ensures Corrected(order, checked, 5, 50) == map[0 := 2, 1 := 1, 2 := 1, 3 := 1]
  {
    var base := Base(checked, 5, 50);
    assert base == map[0 := 1, 1 := 1, 2 := 1, 3 := 1];
    hide Base;
    FourOnes(order, base);
    RaiseNothing(order[1..], base[0 := 2], checked);
    assert Raise(order, base, checked, 1) == base[0 := 2];
  }

  lemma FourOnes(order: seq<int>, base: Shares)
    requires base == map[0 := 1, 1 := 1, 2 := 1, 3 := 1] && order == [0, 2, 3, 1]
    ensures Covers(base, order) && Sum(order, base) == 4
  {
    AllOnes(order, base);
    SumAtLeast(order, base);
  }

  const FOUR_NODES := [Request(0, 9), Request(1, 11), Request(2, 15), Request(3, 15)]

  lemma FourNodes()
    ensures Distinct(Names(FOUR_NODES)) && Names(FOUR_NODES) == [0, 1, 2, 3]
    ensures Checked(FOUR_NODES) == map[0 := 9, 1 := 11, 2 := 15, 3 := 15]
    ensures Total(FOUR_NODES) == 50 && Target(FOUR_NODES, Some(5)) == 5 && Short(FOUR_NODES, Some(5))
  {
    var four := FOUR_NODES;
    assert Names(four) == [0, 1, 2, 3];
    assert four[..3][..2] == four[..2] && four[..2][..1] == four[..1] && four[..1][..0] == [];
    assert Checked(four[..1]) == map[0 := 9];
    assert Checked(four[..2]) == map[0 := 9, 1 := 11];
    assert Checked(four[..3]) == map[0 := 9, 1 := 11, 2 := 15];
    assert Checked(four) == map[0 := 9, 1 := 11, 2 := 15, 3 := 15];
    var m, names := Checked(four), [0, 1, 2, 3];
    assert names[..3][..2] == names[..2] && names[..2][..1] == names[..1] && names[..1][..0] == [];
    assert Sum(names[..1], m) == 9;
    assert Sum(names[..2], m) == 20;
    assert Sum(names[..3], m) == 35;
    assert Sum(names, m) == 50;
  }
}
