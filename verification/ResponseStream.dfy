/**
 Reading one JSON response as it streams in: which event ends the reading, and what it ends in.  The
 outcome is decided by the first decisive event, whatever the shard's siblings do.
 */
module ResponseStream {
  import opened Prelude

  /** A chunk arrives; the stream ends; or a wait passes without either.  `stalled` is what the stall test
      says at that moment. */
  datatype Event =
    | Chunk(data: seq<nat>, at: int, stalled: bool)
    | End
    | Quiet(at: int, stalled: bool)

  /** `complete` recognises a whole encoded JSON document; it is consulted for JSON content only. */
  datatype Reader = Reader(isJson: bool, complete: seq<nat> -> bool, headersAt: int, readTimeout: Option<int>)

  datatype Reading =
    | Response(body: seq<nat>, retires: bool)
    | StreamStall
    | ReadTimeout
    | Waiting

  // ---- what a prefix of events says ----------------------------------------------------------

  /** The bytes received. */
  function Body(events: seq<Event>): seq<nat> {
    if events == [] then []
    else
      var last := events[|events| - 1];
      Body(events[..|events| - 1]) + if last.Chunk? then last.data else []
  }

  /** When the last chunk came, or the headers did. */
  function Progress(r: Reader, events: seq<Event>): int {
    if events == [] then r.headersAt
    else
      var last := events[|events| - 1];
      if last.Chunk? then last.at else Progress(r, events[..|events| - 1])
  }

  ghost predicate HasChunk(events: seq<Event>) {
    exists k :: 0 <= k < |events| && events[k].Chunk?
  }

  /** The document stood complete when the last chunk arrived. */
  ghost predicate Complete(r: Reader, events: seq<Event>) {
    r.isJson && r.complete(Body(events)) && HasChunk(events)
  }

  /** A chunk arrived, or a wait passed, with the stall test true and the document incomplete. */
  ghost predicate Stalls(r: Reader, events: seq<Event>, k: nat)
    requires k < |events|
  {
    !events[k].End? && events[k].stalled && !Complete(r, events[..k + 1])
  }

  /** A wait passed, the stall test false and the document incomplete, at least the read timeout after the last
      chunk or the headers. */
  ghost predicate TimesOut(r: Reader, events: seq<Event>, k: nat)
    requires k < |events|
  {
    && events[k].Quiet? && !events[k].stalled && !Complete(r, events[..k + 1])
    && r.readTimeout.Some? && events[k].at - Progress(r, events[..k]) >= r.readTimeout.value
  }

  /** A wait passed although the document was complete. */
  ghost predicate Lingers(r: Reader, events: seq<Event>, k: nat)
    requires k < |events|
  {
    events[k].Quiet? && Complete(r, events[..k + 1])
  }

  ghost predicate Decisive(r: Reader, events: seq<Event>, k: nat)
    requires k < |events|
  {
    events[k].End? || Stalls(r, events, k) || TimesOut(r, events, k) || Lingers(r, events, k)
  }

  /** The reading loop: `json_complete`, `body` and the last progress are updated chunk by chunk.  It stops at the
      first decisive event, and which kind of event that is decides the outcome. */
  method Read(r: Reader, events: seq<Event>) returns (result: Reading, used: nat)
    ensures IsReading(r, events, result, used)
  {
    var body: seq<nat>, jsonComplete, progress := [], false, r.headersAt;
    used := 0;
    while used < |events|
      invariant used <= |events|
      invariant body == Body(events[..used]) && jsonComplete == Complete(r, events[..used])
      invariant progress == Progress(r, events[..used])
      invariant forall k | 0 <= k < used :: !Decisive(r, events, k)
    {
      var event := events[used];
      Grows(r, events, used);
      used := used + 1;
      match event
      case End =>
        return Response(body, false), used;
      case Quiet(at, stalled) =>
        if jsonComplete { return Response(body, true), used; }
        if stalled { return StreamStall, used; }
        if r.readTimeout.Some? && at - progress >= r.readTimeout.value { return ReadTimeout, used; }
      case Chunk(data, at, stalled) =>
        body := body + data;
        progress := at;
        if r.isJson { jsonComplete := r.complete(body); }
        if !jsonComplete && stalled { return StreamStall, used; }
    }
    result := Waiting;
  }

  /** The result of a reading, and how many events it took. */
  ghost predicate IsReading(r: Reader, events: seq<Event>, result: Reading, used: nat) {
    && used <= |events|
    && (forall k | 0 <= k < used - 1 :: !Decisive(r, events, k))
    && (result.Waiting? ==> used == |events| && forall k | 0 <= k < used :: !Decisive(r, events, k))
    && (!result.Waiting? ==> used > 0)
    && (result.StreamStall? ==> Stalls(r, events, used - 1))
    && (result.ReadTimeout? ==> TimesOut(r, events, used - 1))
    && (result.Response? ==>
          && result.body == Body(events[..used])
          && if result.retires then Lingers(r, events, used - 1) else events[used - 1].End?)
  }

  lemma Grows(r: Reader, events: seq<Event>, used: nat)
    requires used < |events|
    ensures var before, after, last := events[..used], events[..used + 1], events[used];
      && Body(after) == Body(before) + (if last.Chunk? then last.data else [])
      && Progress(r, after) == (if last.Chunk? then last.at else Progress(r, before))
      && Complete(r, after) == (if last.Chunk? then r.isJson && r.complete(Body(after)) else Complete(r, before))
  {
    var before, after, last := events[..used], events[..used + 1], events[used];
    assert after[..|after| - 1] == before && after[|after| - 1] == last;
    if last.Chunk? {
      assert 0 <= used < |after| && after[used].Chunk?;
    } else {
      assert Body(after) == Body(before);
      if Complete(r, after) {
        var k :| 0 <= k < |after| && after[k].Chunk?;
        assert before[k].Chunk?;
      }
      if Complete(r, before) {
        var k :| 0 <= k < |before| && before[k].Chunk?;
        assert after[k].Chunk?;
      }
    }
  }

  // ---- what a reading says of its events -----------------------------------------------------

  /** Event `k` does not end a reading: not the end of the stream; a chunk only with the stall test false or the
      document whole; a wait only with the test false, the document not whole and the read timeout, counted from
      the last chunk or the headers, not passed. */
  ghost predicate Passes(r: Reader, events: seq<Event>, k: nat)
    requires k < |events|
  {
    match events[k]
    case End => false
    case Chunk(_, _, stalled) => stalled ==> r.isJson && r.complete(Body(events[..k + 1]))
    case Quiet(at, stalled) =>
      && !stalled
      && !(r.isJson && HasChunk(events[..k]) && r.complete(Body(events[..k])))
      && (r.readTimeout.Some? ==> at < Progress(r, events[..k]) + r.readTimeout.value)
  }

  /** None of the first `n` events ends a reading. */
  ghost predicate Undecided(r: Reader, events: seq<Event>, n: nat)
    requires n <= |events|
  {
    forall k | 0 <= k < n :: Passes(r, events, k)
  }

  lemma PassesIs(r: Reader, events: seq<Event>, k: nat)
    requires k < |events|
    ensures Passes(r, events, k) <==> !Decisive(r, events, k)
  {
    Grows(r, events, k);
  }

  /** The reading ended at event `k`, the first that does not pass. */
  ghost predicate EndsAt(r: Reader, events: seq<Event>, k: nat) {
    k < |events| && Undecided(r, events, k) && !Passes(r, events, k)
  }

  lemma ReadingEnds(r: Reader, events: seq<Event>, result: Reading, used: nat)
    requires IsReading(r, events, result, used)
    ensures result.Waiting? <==> Undecided(r, events, |events|)
    ensures !result.Waiting? ==> used > 0 && EndsAt(r, events, used - 1)
    ensures forall k: nat | EndsAt(r, events, k) :: used == k + 1 && !result.Waiting?
  {
    forall k | 0 <= k < |events| ensures Passes(r, events, k) <==> !Decisive(r, events, k) {
      PassesIs(r, events, k);
    }
    hide Passes, Complete;
    if !result.Waiting? { assert Decisive(r, events, used - 1) && !Passes(r, events, used - 1); }
  }

  /** A reading ends at the first event that does not pass and is otherwise still waiting.  It stalls exactly when
      the stall test is true there and no whole document has been received. */
  lemma StallExactly(r: Reader, events: seq<Event>, result: Reading, used: nat)
    requires IsReading(r, events, result, used)
    ensures result.StreamStall? <==> exists k: nat ::
      && EndsAt(r, events, k) && !events[k].End? && events[k].stalled
      && !(r.isJson && HasChunk(events[..k + 1]) && r.complete(Body(events[..k + 1])))
  {
    ReadingEnds(r, events, result, used);
    hide EndsAt, HasChunk, Body, Progress;
    if result.StreamStall? { assert EndsAt(r, events, used - 1); }
  }

  /** It times out exactly when that event is a wait with the stall test false, no whole document received, and at
      least the read timeout since the last chunk, or since the headers. */
  lemma TimeoutExactly(r: Reader, events: seq<Event>, result: Reading, used: nat)
    requires IsReading(r, events, result, used)
    ensures result.ReadTimeout? <==> exists k: nat ::
      && EndsAt(r, events, k) && events[k].Quiet? && !events[k].stalled
      && !(r.isJson && HasChunk(events[..k + 1]) && r.complete(Body(events[..k + 1])))
      && r.readTimeout.Some? && events[k].at >= Progress(r, events[..k]) + r.readTimeout.value
  {
    ReadingEnds(r, events, result, used);
    hide EndsAt, HasChunk, Body, Progress;
    if result.ReadTimeout? { assert EndsAt(r, events, used - 1); }
  }

  /** It is a response exactly when that event is the end of the stream, or a wait after a whole document; the shard
      retires in the second case, and the body is what was received. */
  lemma ResponseExactly(r: Reader, events: seq<Event>, result: Reading, used: nat)
    requires IsReading(r, events, result, used)
    ensures result.Response? && !result.retires <==> exists k: nat :: EndsAt(r, events, k) && events[k].End?
    ensures result.Response? && result.retires <==> exists k: nat ::
      && EndsAt(r, events, k) && events[k].Quiet?
      && r.isJson && HasChunk(events[..k + 1]) && r.complete(Body(events[..k + 1]))
    ensures result.Response? ==> used > 0 && result.body == Body(events[..used])
  {
    ReadingEnds(r, events, result, used);
    hide EndsAt, HasChunk, Body, Progress;
    if result.Response? { assert EndsAt(r, events, used - 1); }
  }

  /** The body is the chunks' bytes, in their order, and nothing else. */
  lemma {:induction false} BodyJoins(a: seq<Event>, b: seq<Event>)
    ensures Body(a + b) == Body(a) + Body(b)
  {
    if b == [] {
      assert a + b == a;
    } else {
      var last := b[|b| - 1];
      assert (a + b)[..|a + b| - 1] == a + b[..|b| - 1];
      BodyJoins(a, b[..|b| - 1]);
      var data := if last.Chunk? then last.data else [];
      assert Body(a) + (Body(b[..|b| - 1]) + data) == Body(a) + Body(b[..|b| - 1]) + data;
    }
  }

  lemma BodyOfOne(event: Event)
    ensures Body([event]) == if event.Chunk? then event.data else []
  {
    assert [event][..0] == [];
  }

  /** Progress is the time of the last chunk, or of the headers. */
  lemma {:induction false} ProgressMeans(r: Reader, events: seq<Event>, k: nat)
    ensures !HasChunk(events) ==> Progress(r, events) == r.headersAt
    ensures k < |events| && events[k].Chunk? && (forall j | k < j < |events| :: !events[j].Chunk?) ==>
      Progress(r, events) == events[k].at
    decreases |events|
  {
    if events != [] {
      var init := events[..|events| - 1];
      ProgressMeans(r, init, k);
      if !HasChunk(events) { assert !HasChunk(init); }
    }
  }

  /** A complete document is never given up as stalled or timed out, and a shard is retired exactly when
      the document is complete but its stream was not seen to end. */
  lemma CompleteIsKept(r: Reader, events: seq<Event>, result: Reading, used: nat)
    requires IsReading(r, events, result, used)
    ensures Complete(r, events[..used]) ==> !result.StreamStall? && !result.ReadTimeout?
    ensures result.Response? ==> result.body == Body(events[..used])
    ensures result.Response? && result.retires ==>
      Complete(r, events[..used]) && forall k | 0 <= k < used :: !events[k].End?
    ensures result.Response? && !result.retires ==> events[used - 1].End?
  {
    forall k | 0 <= k < used - 1 ensures !events[k].End? {
      assert !Decisive(r, events, k);
    }
  }
}
