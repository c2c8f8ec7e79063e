/**
 Several fiber pumps share one live limit: the coordinator splits the total exactly over the pumps still
 running.  Limits are read in two moments, first the total, then the share under the lock, and other pumps
 start fibers, finish them and leave in between.
 */
module Lanes {
  import opened Prelude

  // ---- the exact split -----------------------------------------------------------------------

  /** How many of the lanes below `upto` are active: the position of `upto` among the ordered ones. */
  function Count(active: set<nat>, upto: nat): (n: nat)
    ensures n <= upto
  {
    if upto == 0 then 0 else Count(active, upto - 1) + if upto - 1 in active then 1 else 0
  }

  /** The active lanes below `upto`, each at the place the number of smaller ones gives it. */
  ghost predicate InOrder(active: set<nat>, upto: nat, ordered: seq<nat>) {
    && |ordered| == Count(active, upto)
    && (forall k: nat | k < upto && k in active :: Count(active, k) < |ordered| && ordered[Count(active, k)] == k)
    && (forall j | 0 <= j < |ordered| :: ordered[j] < upto && ordered[j] in active && Count(active, ordered[j]) == j)
  }

  function LanesBelow(n: nat): (s: set<nat>)
    ensures forall k: nat :: k in s <==> k < n
  {
    if n == 0 then {} else LanesBelow(n - 1) + {n - 1}
  }

  /** The share of position `position` when `total` is split over `n`. */
  function Split(total: nat, n: nat, position: nat): nat
    requires n > 0
  {
    total / n + if position < total % n then 1 else 0
  }

  function Share(total: nat, active: set<nat>, lanes: nat, lane: nat): nat {
    if lane < lanes && lane in active && Count(active, lanes) > 0
    then Split(total, Count(active, lanes), Count(active, lane)) else 0
  }

  /** Of two active lanes the one that comes first gets as much as the other, or one more. */
  lemma SharesFair(total: nat, active: set<nat>, lanes: nat, a: nat, b: nat)
    requires a < b < lanes && a in active && b in active
    ensures Share(total, active, lanes, b) <= Share(total, active, lanes, a) <= Share(total, active, lanes, b) + 1
  {
    CountGrows(active, a, b);
    CountGrows(active, b, lanes);
  }

  /** The shares of the lanes below `upto`, added up. */
  function Shares(total: nat, active: set<nat>, lanes: nat, upto: nat): nat {
    if upto == 0 then 0 else Shares(total, active, lanes, upto - 1) + Share(total, active, lanes, upto - 1)
  }

  lemma {:induction false} CountGrows(active: set<nat>, a: nat, b: nat)
    requires a <= b
    ensures Count(active, a) <= Count(active, b)
    ensures a < b && a in active ==> Count(active, a) < Count(active, b)
    decreases b
  {
    if a < b { CountGrows(active, a, b - 1); }
  }

  lemma {:induction false} SharesUpTo(total: nat, active: set<nat>, lanes: nat, upto: nat)
    requires Count(active, lanes) > 0 && upto <= lanes
    ensures var n, c := Count(active, lanes), Count(active, upto);
      Shares(total, active, lanes, upto) == (total / n) * c + if c < total % n then c else total % n
  {
    if upto > 0 {
      SharesUpTo(total, active, lanes, upto - 1);
      NextShare(total, Count(active, lanes), Count(active, upto - 1));
      hide Split;
    }
  }

  lemma NextShare(total: nat, n: nat, c: nat)
    requires n > 0
    ensures (total / n) * c + (if c < total % n then c else total % n) + Split(total, n, c)
         == (total / n) * (c + 1) + if c + 1 < total % n then c + 1 else total % n
  {
    var q, r := total / n, total % n;
    assert q * (c + 1) == q * c + q;
  }

  /** The shares of the active lanes sum to exactly the total. */
  lemma SharesExact(total: nat, active: set<nat>, lanes: nat)
    requires Count(active, lanes) > 0
    ensures Shares(total, active, lanes, lanes) == total
  {
    SharesUpTo(total, active, lanes, lanes);
    var n := Count(active, lanes);
    assert (total / n) * n + total % n == total;
  }

  /** A larger total shrinks no share. */
  lemma SplitMonotone(total: nat, more: nat, n: nat, position: nat)
    requires n > 0 && total <= more
    ensures Split(total, n, position) <= Split(more, n, position)
  {
    hide Split;
    var q, r := Divided(total, n, position);
    var q', r' := Divided(more, n, position);
    if q' < q { MulLeft(n, q' + 1, q); }
  }

  /** One lane fewer shrinks no share, whether or not the position moves up. */
  lemma SplitFewer(total: nat, n: nat, position: nat, moved: nat)
    requires n > 1 && moved <= position
    ensures Split(total, n, position) <= Split(total, n - 1, moved)
  {
    hide Split;
    var q, r := Divided(total, n, position);
    var q', r' := Divided(total, n - 1, moved);
    FewerParts(total, n, q, r, q', r');
  }

  lemma Divided(total: nat, n: nat, position: nat) returns (q: nat, r: nat)
    requires n > 0
    ensures n * q + r == total && r < n && Split(total, n, position) == q + if position < r then 1 else 0
  {
    q, r := total / n, total % n;
  }

  /** Over one part fewer the quotient is larger, or the same with a remainder that is larger by it. */
  lemma FewerParts(total: nat, n: nat, q: nat, r: nat, q': nat, r': nat)
    requires n > 1 && n * q + r == total && (n - 1) * q' + r' == total && r' < n - 1
    ensures q' > q || (q' == q && r' == q + r)
  {
    assert (n - 1) * q + (q + r) == total;
    if q' < q { MulLeft(n - 1, q' + 1, q); }
  }

  lemma {:induction false} CountWithout(active: set<nat>, lane: nat, upto: nat)
    ensures Count(active - {lane}, upto) == Count(active, upto) - if lane in active && lane < upto then 1 else 0
  {
    if upto > 0 { CountWithout(active, lane, upto - 1); }
  }

  /** Another lane's leaving never shrinks a lane's share. */
  lemma ShareGrows(total: nat, active: set<nat>, lanes: nat, lane: nat, other: nat)
    requires lane != other
    ensures Share(total, active, lanes, lane) <= Share(total, active - {other}, lanes, lane)
  {
    CountWithout(active, other, lanes);
    CountWithout(active, other, lane);
    if lane < lanes && lane in active {
      CountGrows(active, lane, lanes);
      var n := Count(active, lanes);
      if other in active && other < lanes {
        CountGrows(active - {other}, lane, lanes);
        SplitFewer(total, n, Count(active, lane), Count(active - {other}, lane));
      }
    }
  }

  /** The place of an active lane among the ordered ones. */
  lemma PlaceOf(active: set<nat>, lanes: nat, ordered: seq<nat>, lane: nat)
    requires InOrder(active, lanes, ordered) && lane in active && lane < lanes
    ensures Count(active, lane) < |ordered| == Count(active, lanes) && ordered[Count(active, lane)] == lane
    ensures forall j | 0 <= j < |ordered| && ordered[j] == lane :: j == Count(active, lane)
  {
    hide Count;
  }

  lemma NoPlace(active: set<nat>, lanes: nat, ordered: seq<nat>)
    requires InOrder(active, lanes, ordered)
    ensures ordered == [] <==> Count(active, lanes) == 0
  {
    hide Count;
  }

  lemma SplitIs(total: nat, n: nat, position: nat)
    requires n > 0
    ensures Split(total, n, position) == total / n + if position < total % n then 1 else 0
  {
  }

  // ---- the coordinator -----------------------------------------------------------------------

  class LaneCoordinator {
    const lanes: nat
    var active: set<nat>

    constructor (lanes: nat)
      ensures this.lanes == lanes && active == LanesBelow(lanes)
    {
      this.lanes := lanes;
      active := LanesBelow(lanes);
    }

    /** The lanes still running, in order. */
    method Ordered() returns (ordered: seq<nat>)
      ensures InOrder(active, lanes, ordered)
    {
      ordered := [];
      for k := 0 to lanes
        invariant InOrder(active, k, ordered)
      {
        if k in active { ordered := ordered + [k]; }
      }
    }

    /** `limit_for`; `None` stands for the error of a total below one. */
    method LimitFor(total: int, lane: nat) returns (limit: Option<nat>)
      ensures limit.None? <==> total < 1
      ensures limit.Some? ==> limit.value == Share(total, active, lanes, lane)
    {
      hide Count, InOrder, Split;
      if total < 1 { return None; }
      var ordered := Ordered();
      if lane !in active || ordered == [] || lane >= lanes {
        NoPlace(active, lanes, ordered);
        return Some(0);
      }
      PlaceOf(active, lanes, ordered, lane);
      SplitIs(total, |ordered|, Count(active, lane));
      var position := 0;
      while ordered[position] != lane
        invariant position <= Count(active, lane)
        decreases |ordered| - position
      {
        position := position + 1;
      }
      var base, remainder := total / |ordered|, total % |ordered|;
      return Some(base + if position < remainder then 1 else 0);
    }

    method Unregister(lane: nat)
      modifies this
      ensures active == old(active) - {lane}
    {
      active := active - {lane};
    }
  }

  // ---- pumps running side by side ------------------------------------------------------------

  /** `total` is the last total read, `limit` the last share read, `inFlight` the active fibers. */
  datatype Lane = Lane(total: nat, limit: nat, inFlight: nat)

  /** `peak` is the largest total there has been. */
  datatype Fleet = Fleet(total: nat, peak: nat, active: set<nat>, lanes: seq<Lane>)

  datatype Step =
    | SetTotal(total: nat)
    | ReadTotal(lane: nat)
    | ReadShare(lane: nat)
    | StartFiber(lane: nat)
    | EndFiber(lane: nat)
    | Leave(lane: nat)

  function Start(lanes: nat, total: nat): Fleet {
    Fleet(total, total, LanesBelow(lanes), seq(lanes, _ => Lane(0, 0, 0)))
  }

  /** A pump admits up to the limit it last read, and leaves only with no fiber active. */
  predicate Enabled(f: Fleet, s: Step) {
    match s
    case SetTotal(_) => true
    case ReadTotal(k) => k < |f.lanes|
    case ReadShare(k) => k < |f.lanes|
    case StartFiber(k) => k < |f.lanes| && f.lanes[k].inFlight < f.lanes[k].limit && k in f.active
    case EndFiber(k) => k < |f.lanes| && f.lanes[k].inFlight > 0
    case Leave(k) => k < |f.lanes| && f.lanes[k].inFlight == 0
  }

  function Apply(f: Fleet, s: Step): Fleet
    requires Enabled(f, s)
  {
    match s
    case SetTotal(total) => f.(total := total, peak := if total > f.peak then total else f.peak)
    case ReadTotal(k) => f.(lanes := f.lanes[k := f.lanes[k].(total := f.total)])
    case ReadShare(k) => f.(lanes :=
      f.lanes[k := f.lanes[k].(limit := Share(f.lanes[k].total, f.active, |f.lanes|, k))])
    case StartFiber(k) => f.(lanes := f.lanes[k := f.lanes[k].(inFlight := f.lanes[k].inFlight + 1)])
    case EndFiber(k) => f.(lanes := f.lanes[k := f.lanes[k].(inFlight := f.lanes[k].inFlight - 1)])
    case Leave(k) => f.(active := f.active - {k})
  }

  function InFlight(lanes: seq<Lane>): nat {
    if lanes == [] then 0 else InFlight(lanes[..|lanes| - 1]) + lanes[|lanes| - 1].inFlight
  }

  /** What a lane has read is never more than its share of the largest total now. */
  ghost predicate LaneOk(f: Fleet, k: nat)
    requires k < |f.lanes|
  {
    && f.lanes[k].total <= f.peak
    && (if k in f.active
        then f.lanes[k].limit <= Share(f.peak, f.active, |f.lanes|, k)
             && f.lanes[k].inFlight <= Share(f.peak, f.active, |f.lanes|, k)
        else f.lanes[k].inFlight == 0)
  }

  ghost predicate Inv(f: Fleet) {
    f.total <= f.peak && forall k: nat | k < |f.lanes| :: LaneOk(f, k)
  }

  lemma StepOk(f: Fleet, s: Step)
    requires Inv(f) && Enabled(f, s)
    ensures Inv(Apply(f, s))
  {
    var f' := Apply(f, s);
    forall k: nat | k < |f'.lanes| ensures LaneOk(f', k) {
      assert LaneOk(f, k);
      match s
      case SetTotal(_) => GrowsWithTotal(f.peak, f'.peak, f.active, |f.lanes|, k);
      case ReadShare(_) => GrowsWithTotal(f.lanes[k].total, f.peak, f.active, |f.lanes|, k);
      case Leave(j) => if j != k { ShareGrows(f.peak, f.active, |f.lanes|, k, j); }
      case _ =>
    }
  }

  lemma GrowsWithTotal(total: nat, more: nat, active: set<nat>, lanes: nat, lane: nat)
    requires total <= more
    ensures Share(total, active, lanes, lane) <= Share(more, active, lanes, lane)
  {
    if Count(active, lanes) > 0 { SplitMonotone(total, more, Count(active, lanes), Count(active, lane)); }
  }

  ghost predicate Possible(f: Fleet, run: seq<Step>)
    decreases |run|
  {
    run == [] || (Enabled(f, run[0]) && Possible(Apply(f, run[0]), run[1..]))
  }

  ghost function After(f: Fleet, run: seq<Step>): Fleet
    requires Possible(f, run)
    decreases |run|
  {
    if run == [] then f else After(Apply(f, run[0]), run[1..])
  }

  lemma {:induction false} RunOk(f: Fleet, run: seq<Step>)
    requires Inv(f) && Possible(f, run)
    ensures Inv(After(f, run))
    decreases |run|
  {
    if run != [] {
      StepOk(f, run[0]);
      RunOk(Apply(f, run[0]), run[1..]);
    }
  }

  lemma {:induction false} InFlightWithinShares(f: Fleet, upto: nat)
    requires Inv(f) && upto <= |f.lanes|
    ensures InFlight(f.lanes[..upto]) <= Shares(f.peak, f.active, |f.lanes|, upto)
  {
    if upto > 0 {
      InFlightWithinShares(f, upto - 1);
      assert f.lanes[..upto][..upto - 1] == f.lanes[..upto - 1];
      assert LaneOk(f, upto - 1);
    }
  }

  lemma {:induction false} NoSharesWithoutLanes(total: nat, active: set<nat>, lanes: nat, upto: nat)
    requires Count(active, lanes) == 0
    ensures Shares(total, active, lanes, upto) == 0
  {
    if upto > 0 { NoSharesWithoutLanes(total, active, lanes, upto - 1); }
  }

  /** The largest total over a run. */
  ghost function PeakTotal(total: nat, run: seq<Step>): nat
    decreases |run|
  {
    if run == [] then total
    else
      var next := if run[0].SetTotal? then run[0].total else total;
      var rest := PeakTotal(next, run[1..]);
      if total > rest then total else rest
  }

  lemma {:induction false} PeakIsPeak(f: Fleet, run: seq<Step>)
    requires Possible(f, run) && f.total <= f.peak
    ensures After(f, run).peak == if f.peak > PeakTotal(f.total, run) then f.peak else PeakTotal(f.total, run)
    decreases |run|
  {
    if run != [] { PeakIsPeak(Apply(f, run[0]), run[1..]); }
  }

  /** In every interleaving of total changes, limit reads, admissions, completions and exits, the fibers in
      flight over all lanes never exceed the largest total there has been. */
  lemma AggregateBound(lanes: nat, total: nat, run: seq<Step>)
    requires Possible(Start(lanes, total), run)
    ensures InFlight(After(Start(lanes, total), run).lanes) <= PeakTotal(total, run)
  {
    var f := Start(lanes, total);
    assert Inv(f);
    RunOk(f, run);
    PeakIsPeak(f, run);
    var g := After(f, run);
    assert g.lanes[..|g.lanes|] == g.lanes;
    InFlightWithinShares(g, |g.lanes|);
    if Count(g.active, |g.lanes|) > 0 {
      SharesExact(g.peak, g.active, |g.lanes|);
    } else {
      NoSharesWithoutLanes(g.peak, g.active, |g.lanes|, |g.lanes|);
    }
  }

  /** The total never decreases in the run. */
  predicate Rising(total: nat, run: seq<Step>)
    decreases |run|
  {
    run == [] ||
    (if run[0].SetTotal? then total <= run[0].total && Rising(run[0].total, run[1..]) else Rising(total, run[1..]))
  }

  lemma {:induction false} RisingPeak(f: Fleet, run: seq<Step>)
    requires Possible(f, run) && Rising(f.total, run)
    ensures After(f, run).total == PeakTotal(f.total, run)
    decreases |run|
  {
    if run != [] { RisingPeak(Apply(f, run[0]), run[1..]); }
  }

  /** With a total that never decreases, the fibers in flight never exceed the total of the moment. */
  lemma SteadyBound(lanes: nat, total: nat, run: seq<Step>)
    requires Possible(Start(lanes, total), run) && Rising(total, run)
    ensures var f := After(Start(lanes, total), run); InFlight(f.lanes) <= f.total
  {
    AggregateBound(lanes, total, run);
    RisingPeak(Start(lanes, total), run);
  }
}
