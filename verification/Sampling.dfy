/**
 Deterministic samples: counts from selectors, the ids with the smallest ranks, and what stays of a sample
 when its count grows or a candidate is added.
 */
module Sampling {
  import opened Prelude

  // ---- counts --------------------------------------------------------------------------------

  datatype Kind = Count | Percentage

  datatype Selector = Selector(kind: Kind, value: int)

  datatype Result<T> = Ok(value: T) | Refused

  /** `sample_count`. */
  function SampleCount(selector: Selector, population: int): (r: Result<int>)
    ensures r.Ok? <==> population >= 0 && 0 <= selector.value
                       && selector.value <= if selector.kind.Count? then population else 100
    ensures r.Ok? ==> 0 <= r.value <= population
    ensures r.Ok? && selector.kind.Count? ==> r.value == selector.value
    ensures r.Ok? && selector.kind.Percentage? ==> 100 * (r.value - 1) < selector.value * population <= 100 * r.value
  {
    if population < 0 || selector.value < 0 || (selector.kind.Percentage? && selector.value > 100) then Refused
    else if selector.kind.Count? then if selector.value > population then Refused else Ok(selector.value)
    else
      PercentageFits(selector.value, population);
      Ok((selector.value * population + 99) / 100)
  }

  lemma PercentageFits(value: int, population: int)
    requires 0 <= value <= 100 && population >= 0
    ensures 0 <= (value * population + 99) / 100 <= population
  {
    MulLeft(population, value, 100);
    MulLeft(population, 0, value);
    assert population * value == value * population;
  }

  /** A percentage is rounded up exactly: the result is the least count that covers it. */
  lemma PercentageIsCeiling(value: int, population: int, n: int)
    requires 0 <= value <= 100 && population >= 0
    ensures var count := SampleCount(Selector(Percentage, value), population).value;
      100 * n >= value * population <==> n >= count
  {
  }

  /** More percent, or more candidates, never means fewer samples; all of them only at full percentage or
      when rounding leaves nothing out. */
  lemma PercentageMonotone(value: int, more: int, population: int, larger: int)
    requires 0 <= value <= more <= 100 && 0 <= population <= larger
    ensures SampleCount(Selector(Percentage, value), population).value
         <= SampleCount(Selector(Percentage, more), larger).value
    ensures SampleCount(Selector(Percentage, 100), population) == Ok(population)
  {
    MulLeft(population, value, more);
    MulLeft(more, population, larger);
    assert population * value == value * population && population * more == more * population;
  }

  // ---- full coverage -------------------------------------------------------------------------

  method AnyOf<T(==)>(s: set<T>) returns (x: T)
    requires s != {}
    ensures x in s
  {
    x :| x in s;
  }

  /** `starting_population_is_fully_selected`. */
  method FullySelected(population: map<int, int>, selected: map<int, int>) returns (r: Result<bool>)
    ensures r.Refused? <==>
      || population.Keys != selected.Keys
      || exists m ::
           && m in population && m in selected
           && SampleCount(Selector(Count, selected[m]), population[m]).Refused?
    ensures r.Ok? ==> (r.value <==> (exists m :: m in selected && selected[m] > 0) && selected == population)
  {
    if population.Keys != selected.Keys { return Refused; }
    var todo := population.Keys;
    var some, all := false, true;
    while todo != {}
      invariant todo <= population.Keys
      invariant forall m | m in population && m !in todo :: SampleCount(Selector(Count, selected[m]), population[m]).Ok?
      invariant some <==> exists m :: m in population && m !in todo && selected[m] > 0
      invariant all <==> forall m | m in population && m !in todo :: selected[m] == population[m]
      decreases |todo|
    {
      var m := AnyOf(todo);
      if SampleCount(Selector(Count, selected[m]), population[m]).Refused? { return Refused; }
      some := some || selected[m] != 0;
      all := all && selected[m] == population[m];
      todo := todo - {m};
    }
    assert all <==> selected == population by {
      if all { assert forall m | m in population :: selected[m] == population[m]; }
    }
    r := Ok(some && all);
  }

  /** Selecting every candidate of every member is full coverage exactly when some member has one. */
  lemma HundredPercentIsFull(population: map<int, int>, selected: map<int, int>)
    requires forall m | m in population :: population[m] >= 0
    requires selected.Keys == population.Keys
    requires forall m | m in population :: Ok(selected[m]) == SampleCount(Selector(Percentage, 100), population[m])
    ensures selected == population
    ensures ((exists m :: m in selected && selected[m] > 0) && selected == population) <==>
      exists m :: m in population && population[m] > 0
  {
    forall m | m in population ensures selected[m] == population[m] {
      PercentageMonotone(100, 100, population[m], population[m]);
    }
  }

  // ---- selection -----------------------------------------------------------------------------

  type Bytes = seq<nat>

  /** Candidates by job id, each with its identity bytes; `digest` is the hash of the request's prefix and
      the identity. */
  type Candidates = map<nat, Bytes>

  predicate Earlier(digest: Bytes -> int, c: Candidates, a: nat, b: nat)
    requires a in c && b in c
  {
    digest(c[a]) < digest(c[b]) || (digest(c[a]) == digest(c[b]) && a < b)
  }

  /** `count` candidates, each ranked before every candidate left out. */
  ghost predicate IsSelection(digest: Bytes -> int, c: Candidates, count: nat, s: set<nat>) {
    && |s| == count && s <= c.Keys
    && forall a, b | a in s && b in c && b !in s :: Earlier(digest, c, a, b)
  }

  predicate Ascending(s: seq<nat>) {
    forall i, j | 0 <= i < j < |s| :: s[i] < s[j]
  }

  ghost predicate ListsSet(ids: seq<nat>, s: set<nat>) {
    Ascending(ids) && forall x :: x in ids <==> x in s
  }

  predicate ValidName(s: string) {
    s != "" && '\0' !in s
  }

  predicate DistinctIdentities(c: Candidates) {
    forall a, b | a in c && b in c && c[a] == c[b] :: a == b
  }

  /** `select_sample_ids`. */
  method SelectSampleIds(node: string, c: Candidates, count: int, seed: string,
      digest: (string, string) -> Bytes -> int)
    returns (r: Result<seq<nat>>)
    ensures r.Ok? <==> 0 <= count <= |c| && ValidName(seed) && ValidName(node) && DistinctIdentities(c)
    ensures r.Ok? ==> IsSample(digest(seed, node), c, count, r.value)
  {
    if SampleCount(Selector(Count, count), |c|).Refused? || !ValidName(seed) || !ValidName(node) { return Refused; }
    if !(forall a | a in c.Keys :: forall b | b in c.Keys :: c[a] == c[b] ==> a == b) { return Refused; }
    var s := NSmallest(digest(seed, node), c, count);
    var ids := SortedIds(s);
    r := Ok(ids);
  }

  /** The `count` smallest in rank, taken one after another. */
  method NSmallest(digest: Bytes -> int, c: Candidates, count: nat) returns (s: set<nat>)
    requires count <= |c|
    ensures IsSelection(digest, c, count, s)
  {
    s := {};
    var rest := c.Keys;
    for n := 0 to count
      invariant s !! rest && s + rest == c.Keys && |s| == n && |rest| == |c| - n
      invariant forall a, b | a in s && b in rest :: Earlier(digest, c, a, b)
    {
      var least := FirstRanked(digest, c, rest);
      s, rest := s + {least}, rest - {least};
    }
  }

  method FirstRanked(digest: Bytes -> int, c: Candidates, rest: set<nat>) returns (least: nat)
    requires rest != {} && rest <= c.Keys
    ensures least in rest && forall b | b in rest && b != least :: Earlier(digest, c, least, b)
  {
    least :| least in rest;
    var todo := rest - {least};
    while todo != {}
      invariant todo <= rest && least in rest - todo
      invariant forall b | b in rest - todo && b != least :: Earlier(digest, c, least, b)
      decreases |todo|
    {
      var x :| x in todo;
      EarlierOrder(digest, c, x, least);
      if Earlier(digest, c, x, least) { least := x; }
      todo := todo - {x};
    }
  }

  /** Ranks are a strict total order. */
  lemma EarlierOrder(digest: Bytes -> int, c: Candidates, a: nat, b: nat)
    requires a in c && b in c
    ensures !(Earlier(digest, c, a, b) && Earlier(digest, c, b, a))
    ensures a != b ==> Earlier(digest, c, a, b) || Earlier(digest, c, b, a)
    ensures forall d | d in c :: Earlier(digest, c, a, b) && Earlier(digest, c, b, d) ==> Earlier(digest, c, a, d)
    ensures forall d | d in c :: Earlier(digest, c, b, a) && Earlier(digest, c, a, d) ==> Earlier(digest, c, b, d)
  {
  }

  method SortedIds(s: set<nat>) returns (ids: seq<nat>)
    ensures ListsSet(ids, s)
  {
    ids := [];
    var rest := s;
    while rest != {}
      invariant rest <= s && ListsSet(ids, s - rest)
      invariant forall a, b | a in ids && b in rest :: a < b
      decreases |rest|
    {
      var least := LeastId(rest);
      ListsMore(ids, s - rest, least);
      assert s - (rest - {least}) == s - rest + {least};
      ids, rest := ids + [least], rest - {least};
    }
    assert s - rest == s;
  }

  method LeastId(s: set<nat>) returns (least: nat)
    requires s != {}
    ensures least in s && forall b | b in s :: least <= b
  {
    least :| least in s;
    var todo := s - {least};
    while todo != {}
      invariant todo <= s && least in s && least !in todo
      invariant forall b | b in s && b !in todo :: least <= b
      decreases |todo|
    {
      var x :| x in todo;
      if x < least { least := x; }
      todo := todo - {x};
    }
  }

  lemma ListsMore(ids: seq<nat>, s: set<nat>, x: nat)
    requires ListsSet(ids, s) && forall a | a in ids :: a < x
    ensures ListsSet(ids + [x], s + {x})
  {
    var more := ids + [x];
    assert more[|ids|] == x;
    forall i | 0 <= i < |ids| ensures more[i] < x { assert ids[i] in ids; }
    forall a: nat ensures a in more <==> a in s + {x} {
      if a in ids { var k :| 0 <= k < |ids| && ids[k] == a; assert more[k] == a; }
    }
  }

  // ---- what a sample depends on --------------------------------------------------------------

  /** Of two sets of candidates that each rank before what they leave out, the smaller lies in the larger. */
  lemma SelectionsNest(digest: Bytes -> int, c: Candidates, count: nat, more: nat, s: set<nat>, t: set<nat>)
    requires count <= more && IsSelection(digest, c, count, s) && IsSelection(digest, c, more, t)
    ensures s <= t
  {
    if !(s <= t) {
      var a :| a in s && a !in t;
      forall b | b in t ensures b in s { EarlierOrder(digest, c, a, b); }
      ProperSize(t, s, a);
    }
  }

  lemma ProperSize(small: set<nat>, large: set<nat>, a: nat)
    requires small <= large && a in large && a !in small
    ensures |small| < |large|
  {
    assert large == small + (large - small);
    assert a in large - small;
  }

  /** The ids are determined by the candidates, however they are traversed. */
  lemma SelectionUnique(digest: Bytes -> int, c: Candidates, count: nat, s: set<nat>, t: set<nat>)
    requires IsSelection(digest, c, count, s) && IsSelection(digest, c, count, t)
    ensures s == t
  {
    SelectionsNest(digest, c, count, count, s, t);
    SelectionsNest(digest, c, count, count, t, s);
  }

  /** Listings of one set are equal. */
  lemma {:induction false} ListingUnique(x: seq<nat>, y: seq<nat>, s: set<nat>)
    requires ListsSet(x, s) && ListsSet(y, s)
    ensures x == y
    decreases |x|
  {
    assert |x| > 0 ==> x[0] in x && x[0] in s && x[0] in y;
    assert |y| > 0 ==> y[0] in y && y[0] in s && y[0] in x;
    if x != [] {
      var a, b := x[|x| - 1], y[|y| - 1];
      assert a in y && b in x;
      LastIsLargest(x, b);
      LastIsLargest(y, a);
      InitLists(x, s);
      InitLists(y, s);
      ListingUnique(x[..|x| - 1], y[..|y| - 1], s - {a});
    }
  }

  lemma LastIsLargest(x: seq<nat>, a: nat)
    requires Ascending(x) && a in x
    ensures a <= x[|x| - 1]
  {
  }

  lemma InitLists(x: seq<nat>, s: set<nat>)
    requires x != [] && ListsSet(x, s)
    ensures ListsSet(x[..|x| - 1], s - {x[|x| - 1]})
  {
    var init, last := x[..|x| - 1], x[|x| - 1];
    assert x == init + [last];
    forall a: nat ensures a in init <==> a in s - {last} {
      if a in init { var k :| 0 <= k < |init| && init[k] == a; }
    }
  }

  /** Adding one candidate changes a sample by at most one swap, for that candidate. */
  lemma OneSwap(digest: Bytes -> int, c: Candidates, id: nat, identity: Bytes, count: nat, s: set<nat>, t: set<nat>)
    requires id !in c && IsSelection(digest, c, count, s) && IsSelection(digest, c[id := identity], count, t)
    ensures t == s || exists out :: out in s && t == s - {out} + {id}
  {
    var d := c[id := identity];
    if id in t {
      var kept := t - {id};
      assert t == kept + {id} && |kept| == count - 1;
      assert IsSelection(digest, c, count - 1, kept) by {
        forall a, b | a in kept && b in c && b !in kept ensures Earlier(digest, c, a, b) {
          assert Earlier(digest, d, a, b);
        }
      }
      SelectionsNest(digest, c, count - 1, count, kept, s);
      OneMore(kept, s);
      var out :| out in s && out !in kept && s == kept + {out};
      assert t == s - {out} + {id};
    } else {
      assert IsSelection(digest, c, count, t) by {
        forall a, b | a in t && b in c && b !in t ensures Earlier(digest, c, a, b) { assert Earlier(digest, d, a, b); }
      }
      SelectionUnique(digest, c, count, s, t);
    }
  }

  lemma OneMore(small: set<nat>, large: set<nat>)
    requires small <= large && |large| == |small| + 1
    ensures exists x :: x in large && x !in small && large == small + {x}
  {
    assert large == small + (large - small);
    assert |large - small| == 1;
    var x :| x in large - small;
    assert large - small == {x} by {
      assert |large - small - {x}| == 0;
    }
  }

  // ---- samples as they are returned ----------------------------------------------------------

  /** `ids` is a sample of `count` of the candidates. */
  ghost predicate IsSample(digest: Bytes -> int, c: Candidates, count: nat, ids: seq<nat>) {
    exists s :: IsSelection(digest, c, count, s) && ListsSet(ids, s)
  }

  /** In numbers: the ids are candidates, ascending, and each has a smaller digest than every candidate left out, or
      the same digest and the smaller id. */
  lemma SampleRanks(digest: Bytes -> int, c: Candidates, count: nat, ids: seq<nat>)
    requires IsSample(digest, c, count, ids)
    ensures forall i, j | 0 <= i < j < |ids| :: ids[i] < ids[j]
    ensures forall a, b | a in ids && b in c && b !in ids ::
      a in c && (digest(c[a]) < digest(c[b]) || (digest(c[a]) == digest(c[b]) && a < b))
    ensures |ids| == count
  {
    var s :| IsSelection(digest, c, count, s) && ListsSet(ids, s);
    IdsCount(ids, s);
    forall a, b | a in ids && b in c && b !in ids
      ensures a in c && (digest(c[a]) < digest(c[b]) || (digest(c[a]) == digest(c[b]) && a < b))
    {
      assert Earlier(digest, c, a, b);
    }
  }

  lemma {:induction false} IdsCount(ids: seq<nat>, s: set<nat>)
    requires ListsSet(ids, s)
    ensures |ids| == |s|
    decreases |ids|
  {
    if ids == [] {
      assert s == {} by { assert forall x | x in s :: x in ids; }
    } else {
      var last, init := ids[|ids| - 1], ids[..|ids| - 1];
      assert ids == init + [last] && last !in init;
      assert ListsSet(init, s - {last});
      IdsCount(init, s - {last});
    }
  }

  /** The same candidates, seed and node give the same sample; a larger count keeps what it had. */
  lemma SamplesNest(digest: Bytes -> int, c: Candidates, count: nat, more: nat, x: seq<nat>, y: seq<nat>)
    requires count <= more && IsSample(digest, c, count, x) && IsSample(digest, c, more, y)
    ensures forall id | id in x :: id in y
    ensures count == more ==> x == y
  {
    var s :| IsSelection(digest, c, count, s) && ListsSet(x, s);
    var t :| IsSelection(digest, c, more, t) && ListsSet(y, t);
    SelectionsNest(digest, c, count, more, s, t);
    if count == more {
      SelectionUnique(digest, c, count, s, t);
      ListingUnique(x, y, s);
    }
  }
}
