/** The two failover loops: one answer from the first candidate that does not fail retryably. */
module Failover {
  import opened Sequences
  import opened Router

  /** How one adapter call ends. `OtherError` is any exception the loops do not catch. */
  datatype Ending<+R> = Answer(value: R, elapsed: real) | HttpStatus(code: int) | ProviderFailed | OtherError

  const FAILOVER_STATUS_CODES := {429, 500, 502, 503, 504}

  predicate Retryable<R>(ending: Ending<R>) {
    ending.ProviderFailed? || (ending.HttpStatus? && ending.code in FAILOVER_STATUS_CODES)
  }

  /** The first candidate whose ending settles the request; past the end when every one fails retryably. */
  function Decisive<R>(endings: seq<Ending<R>>): (k: nat)
    ensures k <= |endings|
    ensures forall j :: 0 <= j < k ==> Retryable(endings[j])
    ensures k < |endings| ==> !Retryable(endings[k])
  {
    if endings == [] || !Retryable(endings[0]) then 0 else 1 + Decisive(endings[1..])
  }

  lemma {:induction false} DecisiveIs<R>(endings: seq<Ending<R>>, k: nat)
    requires k <= |endings|
    requires forall j :: 0 <= j < k ==> Retryable(endings[j])
    requires k < |endings| ==> !Retryable(endings[k])
    ensures Decisive(endings) == k
  {
  }

  datatype Outcome<+R> = Served(value: R, candidate: Candidate, attempt: nat) | Raised(ending: Ending<R>) | AllFailed

  function Settled<R>(candidates: seq<Candidate>, endings: seq<Ending<R>>): Outcome<R>
    requires |candidates| == |endings|
  {
    var k := Decisive(endings);
    if k == |endings| then AllFailed
    else if endings[k].Answer? then Served(endings[k].value, candidates[k], k)
    else Raised(endings[k])
  }

  /** The candidates that are called at all: everything up to and including the decisive one. */
  function Called(candidates: seq<Candidate>, k: nat): seq<Candidate>
    requires k <= |candidates|
  {
    candidates[..Min(k + 1, |candidates|)]
  }

  method CompleteWithFailover<R>(router: ModelRouter, candidates: seq<Candidate>, endings: seq<Ending<R>>)
    returns (outcome: Outcome<R>, calls: seq<Candidate>)
    requires router.Valid() && candidates != [] && |candidates| == |endings|
    modifies router`ewma
    ensures router.Valid()
    ensures outcome == Settled(candidates, endings)
    ensures calls == Called(candidates, Decisive(endings))
    ensures router.ewma ==
      if outcome.Served? then
        RecordLatency(
          router.config.alpha, old(router.ewma), outcome.candidate.provider, endings[outcome.attempt].elapsed)
      else old(router.ewma)
  {
    calls := [];
    for attempt := 0 to |candidates|
      invariant calls == candidates[..attempt]
      invariant forall j :: 0 <= j < attempt ==> Retryable(endings[j])
      invariant router.Valid() && router.ewma == old(router.ewma)
    {
      calls := calls + [candidates[attempt]];
      match endings[attempt]
      case Answer(value, elapsed) =>
        DecisiveIs(endings, attempt);
        router.NoteLatency(candidates[attempt].provider, elapsed);
        return Served(value, candidates[attempt], attempt), calls;
      case HttpStatus(code) =>
        if code !in FAILOVER_STATUS_CODES {
          DecisiveIs(endings, attempt);
          return Raised(endings[attempt]), calls;
        }
      case ProviderFailed =>
      case OtherError =>
        DecisiveIs(endings, attempt);
        return Raised(endings[attempt]), calls;
    }
    DecisiveIs(endings, |endings|);
    return AllFailed, calls;
  }

  /** Candidate `k` is the first that does not fail retryably. */
  ghost predicate FirstToSettle<R>(endings: seq<Ending<R>>, k: nat) {
    k < |endings| && !Retryable(endings[k]) && forall j :: 0 <= j < k ==> Retryable(endings[j])
  }

  /** The loop refines "ask the first candidate that does not fail retryably, and report what it says". */
  lemma FailoverRefinesFirst<R>(candidates: seq<Candidate>, endings: seq<Ending<R>>)
    requires |candidates| == |endings|
    ensures var o := Settled(candidates, endings);
      && (o.AllFailed? <==> forall j :: 0 <= j < |endings| ==> Retryable(endings[j]))
      && (forall k: nat :: FirstToSettle(endings, k) ==>
           o == if endings[k].Answer? then Served(endings[k].value, candidates[k], k) else Raised(endings[k]))
  {
    forall k: nat | FirstToSettle(endings, k) ensures k == Decisive(endings) {
      DecisiveIs(endings, k);
    }
  }

  /** A provider error, or one of the five status codes that stand for a provider in trouble. */
  ghost predicate PassedOver<R>(e: Ending<R>) {
    e.ProviderFailed? || e == HttpStatus(429) || e == HttpStatus(500) || e == HttpStatus(502) || e == HttpStatus(503)
    || e == HttpStatus(504)
  }

  /** What each outcome says about the calls made: all others were passed over, and this one settled it. */
  lemma OutcomeMeans<R>(candidates: seq<Candidate>, endings: seq<Ending<R>>)
    requires |candidates| == |endings|
    ensures var o := Settled(candidates, endings);
      var k := Decisive(endings);
      && (forall j :: 0 <= j < k ==> PassedOver(endings[j]))
      && (o.AllFailed? <==> k == |endings|)
      && (o.Served? <==> k < |endings| && endings[k].Answer?)
      && (o.Served? ==> o.attempt == k && o.candidate == candidates[k] && o.value == endings[k].value)
      && (o.Raised? <==> k < |endings| && !endings[k].Answer? && !PassedOver(endings[k]))
      && (o.Raised? ==> o.ending == endings[k])
  {
  }

  // ----- streaming -----

  /** One adapter's stream: the chunks it yields, then how it ends. */
  datatype Stream = Stream(chunks: seq<string>, ending: Ending<()>)

  function Endings(streams: seq<Stream>): (r: seq<Ending<()>>)
    ensures |r| == |streams|
    ensures forall i :: 0 <= i < |r| ==> r[i] == streams[i].ending
  {
    seq(|streams|, i requires 0 <= i < |streams| => streams[i].ending)
  }

  function ChunkLists(streams: seq<Stream>): (r: seq<seq<string>>)
    ensures |r| == |streams|
    ensures forall i :: 0 <= i < |r| ==> r[i] == streams[i].chunks
  {
    seq(|streams|, i requires 0 <= i < |streams| => streams[i].chunks)
  }

  /** The exact output law: every called provider's chunks, failed ones included, one after the other. */
  function Emitted(streams: seq<Stream>): seq<string> {
    Flatten(ChunkLists(streams[..Min(Decisive(Endings(streams)) + 1, |streams|)]))
  }

  method StreamWithFailover(router: ModelRouter, candidates: seq<Candidate>, streams: seq<Stream>)
    returns (emitted: seq<string>, outcome: Outcome<()>)
    requires router.Valid() && candidates != [] && |candidates| == |streams|
    modifies router`ewma
    ensures router.Valid()
    ensures outcome == Settled(candidates, Endings(streams))
    ensures emitted == Emitted(streams)
    ensures router.ewma ==
      if outcome.Served? then
        RecordLatency(
          router.config.alpha, old(router.ewma), outcome.candidate.provider, streams[outcome.attempt].ending.elapsed)
      else old(router.ewma)
  {
    emitted := [];
    ghost var endings := Endings(streams);
    assert streams[..0] == [];
    for attempt := 0 to |candidates|
      invariant emitted == Flatten(ChunkLists(streams[..attempt]))
      invariant forall j :: 0 <= j < attempt ==> Retryable(endings[j])
      invariant router.Valid() && router.ewma == old(router.ewma)
    {
      var stream := streams[attempt];
      ghost var before := emitted;
      for i := 0 to |stream.chunks|
        invariant emitted == before + stream.chunks[..i]
      {
        emitted := emitted + [stream.chunks[i]];
      }
      EmittedStep(streams, attempt);
      match stream.ending
      case Answer(value, elapsed) =>
        DecisiveIs(endings, attempt);
        router.NoteLatency(candidates[attempt].provider, elapsed);
        return emitted, Served(value, candidates[attempt], attempt);
      case HttpStatus(code) =>
        if code !in FAILOVER_STATUS_CODES {
          DecisiveIs(endings, attempt);
          return emitted, Raised(stream.ending);
        }
      case ProviderFailed =>
      case OtherError =>
        DecisiveIs(endings, attempt);
        return emitted, Raised(stream.ending);
    }
    DecisiveIs(endings, |endings|);
    assert streams[..|streams|] == streams;
    return emitted, AllFailed;
  }

  lemma EmittedStep(streams: seq<Stream>, attempt: nat)
    requires attempt < |streams|
    ensures Flatten(ChunkLists(streams[..attempt + 1]))
      == Flatten(ChunkLists(streams[..attempt])) + streams[attempt].chunks
  {
    var front, last := ChunkLists(streams[..attempt]), [streams[attempt].chunks];
    assert ChunkLists(streams[..attempt + 1]) == front + last;
    FlattenConcat(front, last);
    assert Flatten(last) == streams[attempt].chunks + Flatten([]);
  }

  lemma {:induction false} FlattenEmptyIff(xss: seq<seq<string>>)
    ensures Flatten(xss) == [] <==> forall i :: 0 <= i < |xss| ==> xss[i] == []
  {
    if xss != [] {
      FlattenEmptyIff(xss[1..]);
      assert forall i :: 1 <= i < |xss| ==> xss[i] == xss[1..][i - 1];
    }
  }

  /**
   When some provider settles the stream, the output is that provider's stream alone iff no
   provider that failed before it had already yielded a chunk.
   */
  lemma SingleStreamIff(streams: seq<Stream>)
    requires Decisive(Endings(streams)) < |streams|
    ensures var k := Decisive(Endings(streams));
      Emitted(streams) == streams[k].chunks <==> forall j :: 0 <= j < k ==> streams[j].chunks == []
  {
    var k := Decisive(Endings(streams));
    EmittedStep(streams, k);
    var failed := ChunkLists(streams[..k]);
    FlattenEmptyIff(failed);
    assert |Emitted(streams)| == |Flatten(failed)| + |streams[k].chunks|;
    assert [] + streams[k].chunks == streams[k].chunks;
    assert forall j :: 0 <= j < k ==> failed[j] == streams[j].chunks;
  }

  /** A retryable error after the first chunk leaves that chunk in front of the next provider's answer. */
  lemma MidStreamFailureMixes()
    ensures var streams := [Stream(["a"], HttpStatus(503)), Stream(["b"], Answer((), 1.0))];
      Decisive(Endings(streams)) == 1 && Emitted(streams) == ["a", "b"]
  {
    var streams := [Stream(["a"], HttpStatus(503)), Stream(["b"], Answer((), 1.0))];
    DecisiveIs(Endings(streams), 1);
    assert streams[..2] == streams;
    assert ChunkLists(streams) == [["a"], ["b"]];
    assert Flatten([["b"]]) == ["b"] + Flatten([]);
    assert [["a"], ["b"]][1..] == [["b"]];
  }
}
