/**
 Splitting an aggregate API budget over the active nodes by bounded largest remainder.  Requests are weights
 and upper bounds; every node keeps one slot.  Here are the requests, their sums and the order in which the
 correction loops visit the nodes.
 */
module Allocation {
  import opened Prelude

  /** One entry of the dictionary of requests; names stand for node names, of which only the order matters. */
  datatype Request = Request(name: int, value: int)

  type Shares = map<int, int>

  // ---- dictionaries as sequences of entries --------------------------------------------------

  function Names(requested: seq<Request>): (names: seq<int>)
    ensures |names| == |requested| && forall k | 0 <= k < |names| :: names[k] == requested[k].name
  {
    seq(|requested|, k requires 0 <= k < |requested| => requested[k].name)
  }

  predicate Distinct(names: seq<int>) {
    forall a, b | 0 <= a < b < |names| :: names[a] != names[b]
  }

  function Checked(requested: seq<Request>): Shares {
    if requested == [] then map[]
    else
      var last := requested[|requested| - 1];
      Checked(requested[..|requested| - 1])[last.name := if last.value >= 1 then last.value else 1]
  }

  predicate Covers(m: Shares, names: seq<int>) {
    forall k | 0 <= k < |names| :: names[k] in m
  }

  function Sum(names: seq<int>, m: Shares): int
    requires Covers(m, names)
  {
    if names == [] then 0 else Sum(names[..|names| - 1], m) + m[names[|names| - 1]]
  }

  lemma {:induction false} SumConcat(a: seq<int>, b: seq<int>, m: Shares)
    requires Covers(m, a + b)
    ensures Covers(m, a) && Covers(m, b) && Sum(a + b, m) == Sum(a, m) + Sum(b, m)
  {
    assert forall k | 0 <= k < |a| :: (a + b)[k] == a[k];
    assert forall k | 0 <= k < |b| :: (a + b)[|a| + k] == b[k];
    if b == [] {
      assert a + b == a;
    } else {
      var init := b[..|b| - 1];
      assert (a + b)[..|a + b| - 1] == a + init;
      SumConcat(a, init, m);
    }
  }

  lemma SumOne(x: int, m: Shares)
    requires x in m
    ensures Sum([x], m) == m[x]
  {
    assert [x][..0] == [];
  }

  lemma SumRemoved(names: seq<int>, k: nat, m: Shares)
    requires k < |names| && Covers(m, names)
    ensures Covers(m, names[..k] + names[k + 1..])
    ensures Sum(names, m) == Sum(names[..k] + names[k + 1..], m) + m[names[k]]
  {
    var x := names[k];
    assert names == names[..k] + [x] + names[k + 1..];
    SumConcat(names[..k] + [x], names[k + 1..], m);
    SumConcat(names[..k], [x], m);
    SumConcat(names[..k], names[k + 1..], m);
    SumOne(x, m);
  }

  /** The order of summation does not matter. */
  lemma {:induction false} SumAnyOrder(a: seq<int>, b: seq<int>, m: Shares)
    requires Covers(m, a) && Covers(m, b) && multiset(a) == multiset(b)
    ensures Sum(a, m) == Sum(b, m)
    decreases |a|
  {
    if a == [] {
      assert b == [] by { assert |multiset(b)| == 0; }
    } else {
      var k := TakeOut(a, b);
      SumRemoved(a, 0, m);
      SumRemoved(b, k, m);
      SumAnyOrder(a[..0] + a[0 + 1..], b[..k] + b[k + 1..], m);
    }
  }

  lemma {:induction false} SumUpdate(names: seq<int>, k: nat, m: Shares, value: int)
    requires k < |names| && Covers(m, names) && Distinct(names)
    ensures Covers(m[names[k] := value], names)
    ensures Sum(names, m[names[k] := value]) == Sum(names, m) - m[names[k]] + value
  {
    var m', rest := m[names[k] := value], names[..k] + names[k + 1..];
    SumRemoved(names, k, m);
    SumRemoved(names, k, m');
    SumSame(rest, m, m');
  }

  lemma {:induction false} SumSame(names: seq<int>, m: Shares, m': Shares)
    requires Covers(m, names) && Covers(m', names) && forall k | 0 <= k < |names| :: m[names[k]] == m'[names[k]]
    ensures Sum(names, m) == Sum(names, m')
  {
    if names != [] { SumSame(names[..|names| - 1], m, m'); }
  }

  lemma {:induction false} CheckedSpec(requested: seq<Request>)
    requires Distinct(Names(requested))
    ensures forall k | 0 <= k < |requested| ::
              requested[k].name in Checked(requested)
              && Checked(requested)[requested[k].name] == if requested[k].value >= 1 then requested[k].value else 1
    ensures forall n | n in Checked(requested) :: Checked(requested)[n] >= 1
    ensures forall n | n in Checked(requested) :: exists k :: 0 <= k < |requested| && requested[k].name == n
  {
    if requested != [] {
      var init := requested[..|requested| - 1];
      assert forall k | 0 <= k < |init| :: Names(init)[k] == Names(requested)[k];
      CheckedSpec(init);
      forall n | n in Checked(requested) ensures exists k :: 0 <= k < |requested| && requested[k].name == n {
        if n in Checked(init) {
          var k :| 0 <= k < |init| && init[k].name == n;
          assert requested[k].name == n;
        }
      }
    }
  }

  // ---- the order of correction ---------------------------------------------------------------

  function Remainder(checked: Shares, target: int, total: int, name: int): int
    requires name in checked && total > 0
  {
    (target * checked[name]) % total
  }

  /** Larger remainders first, then smaller names. */
  predicate Before(checked: Shares, target: int, total: int, a: int, b: int)
    requires a in checked && b in checked && total > 0
  {
    var x, y := Remainder(checked, target, total, a), Remainder(checked, target, total, b);
    x > y || (x == y && a < b)
  }

  predicate Sorted(checked: Shares, target: int, total: int, order: seq<int>)
    requires total > 0 && Covers(checked, order)
  {
    forall a, b | 0 <= a < b < |order| :: Before(checked, target, total, order[a], order[b])
  }

  /** The names in the order of correction: `sorted` by remainder and name. */
  method SortedNames(checked: Shares, target: int, total: int, names: seq<int>) returns (order: seq<int>)
    requires total > 0 && Covers(checked, names) && Distinct(names)
    ensures multiset(order) == multiset(names) && Covers(checked, order) && Sorted(checked, target, total, order)
  {
    order := [];
    for i := 0 to |names|
      invariant multiset(order) == multiset(names[..i])
      invariant Covers(checked, order) && Sorted(checked, target, total, order)
    {
      hide Before;
      var name := names[i];
      var at := 0;
      while at < |order| && Before(checked, target, total, order[at], name)
        invariant at <= |order|
        invariant forall k | 0 <= k < at :: Before(checked, target, total, order[k], name)
      {
        at := at + 1;
      }
      assert forall k | 0 <= k < |order| :: order[k] != name by {
        forall k | 0 <= k < |order| ensures order[k] != name { Elsewhere(names, i, order, k); }
      }
      InsertSorted(checked, target, total, order, at, name);
      assert names[..i + 1] == names[..i] + [name];
      order := order[..at] + [name] + order[at..];
    }
    assert names[..|names|] == names;
  }

  /** Inserting a name before the first that does not precede it keeps the order. */
  lemma InsertSorted(checked: Shares, target: int, total: int, order: seq<int>, at: nat, name: int)
    requires total > 0 && Covers(checked, order) && Sorted(checked, target, total, order) && name in checked
      && at <= |order|
    requires forall k | 0 <= k < |order| :: order[k] != name
    requires forall k | 0 <= k < at :: Before(checked, target, total, order[k], name)
    requires at < |order| ==> !Before(checked, target, total, order[at], name)
    ensures var inserted := order[..at] + [name] + order[at..];
      && multiset(inserted) == multiset(order) + multiset{name}
      && Covers(checked, inserted) && Sorted(checked, target, total, inserted)
  {
    forall k | at <= k < |order| ensures Before(checked, target, total, name, order[k]) {
      BeforeTotal(checked, target, total, order[at], name);
      if at < k { BeforeTransitive(checked, target, total, name, order[at], order[k]); }
    }
    hide Before;
    InsertElements(order, at, name);
    var inserted := order[..at] + [name] + order[at..];
    forall k | 0 <= k < |inserted| ensures inserted[k] in checked {
      assert inserted[k] == name || (k < at && inserted[k] == order[k]) || (k > at && inserted[k] == order[k - 1]);
    }
  }

  lemma InsertElements(order: seq<int>, at: nat, name: int)
    requires at <= |order|
    ensures var inserted := order[..at] + [name] + order[at..];
      && multiset(inserted) == multiset(order) + multiset{name}
      && |inserted| == |order| + 1
      && forall k | 0 <= k < |inserted| ::
         inserted[k] == if k < at then order[k] else if k == at then name else order[k - 1]
  {
    assert order == order[..at] + order[at..];
  }

  lemma BeforeTotal(checked: Shares, target: int, total: int, a: int, b: int)
    requires total > 0 && a in checked && b in checked && a != b
    ensures Before(checked, target, total, a, b) <==> !Before(checked, target, total, b, a)
  {
    hide Remainder;
  }

  lemma BeforeTransitive(checked: Shares, target: int, total: int, a: int, b: int, c: int)
    requires total > 0 && a in checked && b in checked && c in checked
    requires Before(checked, target, total, a, b) && Before(checked, target, total, b, c)
    ensures Before(checked, target, total, a, c)
  {
    hide Remainder;
  }

  lemma Elsewhere(names: seq<int>, i: nat, order: seq<int>, k: nat)
    requires i < |names| && Distinct(names) && multiset(order) == multiset(names[..i]) && k < |order|
    ensures order[k] != names[i]
  {
    assert order[k] in multiset(names[..i]);
  }

  /** There is only one such order. */
  lemma {:induction false} SortedUnique(checked: Shares, target: int, total: int, a: seq<int>, b: seq<int>)
    requires total > 0 && Covers(checked, a) && Covers(checked, b)
    requires Sorted(checked, target, total, a) && Sorted(checked, target, total, b)
    requires multiset(a) == multiset(b)
    ensures a == b
    decreases |a|
  {
    if a == [] {
      assert b == [] by { assert |multiset(b)| == 0; }
    } else {
      hide Before;
      assert a[0] in multiset(b) && b[0] in multiset(a);
      var j :| 0 <= j < |b| && b[j] == a[0];
      var k :| 0 <= k < |a| && a[k] == b[0];
      if a[0] != b[0] { BeforeTotal(checked, target, total, a[0], b[0]); }
      TailsMatch(a, b);
      SortedUnique(checked, target, total, a[1..], b[1..]);
    }
  }

  lemma TailsMatch(a: seq<int>, b: seq<int>)
    requires a != [] && b != [] && a[0] == b[0] && multiset(a) == multiset(b)
    ensures multiset(a[1..]) == multiset(b[1..]) && a == [a[0]] + a[1..] && b == [b[0]] + b[1..]
  {
    assert a == [a[0]] + a[1..] && b == [b[0]] + b[1..];
    assert multiset(a[1..]) == multiset(a) - multiset{a[0]};
    assert multiset(b[1..]) == multiset(b) - multiset{b[0]};
  }
}
