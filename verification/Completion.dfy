/**
 Completion detection on a session's frames, and what polling it over a growing log can promise.
 */
module Completion {
  import opened Sequences
  import opened LogDrain

  datatype Block = TextBlock(text: string) | OtherBlock

  /** `content` is the frame's own content when that is a string, and empty otherwise. */
  datatype Frame =
    | Assistant(blocks: seq<Block>, content: string)
    | TextDelta(text: string)
    | Result(result: string)
    | OtherFrame(kind: string)

  predicate OccursAt(text: string, marker: string, i: nat) {
    i + |marker| <= |text| && text[i..i + |marker|] == marker
  }

  predicate Contains(text: string, marker: string) {
    exists i: nat | i <= |text| :: OccursAt(text, marker, i)
  }

  function BlockText(blocks: seq<Block>): string {
    if blocks == [] then ""
    else (if blocks[0].TextBlock? then blocks[0].text else "") + BlockText(blocks[1..])
  }

  function FrameText(frame: Frame): string {
    match frame
    case Assistant(blocks, content) => BlockText(blocks) + content
    case TextDelta(text) => text
    case Result(_) => ""
    case OtherFrame(_) => ""
  }

  /** The assistant text of a run of frames, joined in order. */
  function AssistantText(frames: seq<Frame>): string {
    if frames == [] then "" else FrameText(frames[0]) + AssistantText(frames[1..])
  }

  /** `segment` ends with a result frame: does this result, or the text before it, hold the marker? */
  predicate SegmentComplete(segment: seq<Frame>, marker: string)
    requires segment != [] && segment[|segment| - 1].Result?
  {
    Contains(segment[|segment| - 1].result, marker) || Contains(AssistantText(segment), marker)
  }

  /** What the loop still adds when `segment` is open and `frames` are left. */
  function Scan(segment: seq<Frame>, frames: seq<Frame>, marker: string): seq<Frame>
    decreases |frames|
  {
    if frames == [] then []
    else
      var now := segment + [frames[0]];
      if !frames[0].Result? then Scan(now, frames[1..], marker)
      else (if SegmentComplete(now, marker) then [frames[0]] else []) + Scan([], frames[1..], marker)
  }

  function Completions(frames: seq<Frame>, marker: string): seq<Frame> {
    Scan([], frames, marker)
  }

  method CompletionResults(frames: seq<Frame>, marker: string) returns (complete: seq<Frame>)
    ensures complete == Completions(frames, marker)
  {
    var segment: seq<Frame> := [];
    complete := [];
    for i := 0 to |frames|
      invariant complete + Scan(segment, frames[i..], marker) == Completions(frames, marker)
    {
      var frame := frames[i];
      assert frames[i..][1..] == frames[i + 1..];
      segment := segment + [frame];
      if !frame.Result? {
        continue;
      }
      if SegmentComplete(segment, marker) {
        complete := complete + [frame];
      }
      segment := [];
    }
  }

  // ----- a positional description of the same result -----

  /** Where the segment that is open after `frames` begins: just past the last result frame. */
  function SegmentStart(frames: seq<Frame>): (n: nat)
    ensures n <= |frames|
  {
    if frames == [] then 0
    else if frames[|frames| - 1].Result? then |frames|
    else SegmentStart(frames[..|frames| - 1])
  }

  /** The segment frame `i` belongs to, up to and including it. */
  function SegmentAt(frames: seq<Frame>, i: nat): (segment: seq<Frame>)
    requires i < |frames|
    ensures segment != [] && segment[|segment| - 1] == frames[i]
  {
    frames[SegmentStart(frames[..i])..i + 1]
  }

  /** Frame `i` is a completion: a result whose own segment, and no other, holds the marker. */
  predicate CompletedAt(frames: seq<Frame>, i: nat, marker: string)
    requires i < |frames|
  {
    frames[i].Result? && SegmentComplete(SegmentAt(frames, i), marker)
  }

  /** The completed frames among the first `n`, in order. */
  function CompletedFrames(frames: seq<Frame>, n: nat, marker: string): seq<Frame>
    requires n <= |frames|
  {
    if n == 0 then []
    else
      var last := if CompletedAt(frames, n - 1, marker) then [frames[n - 1]] else [];
      CompletedFrames(frames, n - 1, marker) + last
  }

  lemma {:induction false} SegmentHoldsNoResult(frames: seq<Frame>, k: nat)
    requires SegmentStart(frames) <= k < |frames|
    ensures !frames[k].Result?
    decreases |frames|
  {
    if !frames[|frames| - 1].Result? && k < |frames| - 1 {
      SegmentHoldsNoResult(frames[..|frames| - 1], k);
    }
  }

  lemma {:induction false} ScanOpenSegment(segment: seq<Frame>, frames: seq<Frame>, marker: string)
    requires forall k :: 0 <= k < |frames| ==> !frames[k].Result?
    ensures Scan(segment, frames, marker) == []
    decreases |frames|
  {
    if frames != [] {
      ScanOpenSegment(segment + [frames[0]], frames[1..], marker);
    }
  }

  /** Splitting at a result boundary: nothing of the first part reaches the second. */
  lemma {:induction false} ScanBoundary(segment: seq<Frame>, xs: seq<Frame>, ys: seq<Frame>, marker: string)
    requires xs != [] && xs[|xs| - 1].Result?
    ensures Scan(segment, xs + ys, marker) == Scan(segment, xs, marker) + Completions(ys, marker)
    decreases |xs|
  {
    var tail := xs[1..];
    assert (xs + ys)[0] == xs[0] && (xs + ys)[1..] == tail + ys;
    var now := segment + [xs[0]];
    if tail == [] {
      assert tail + ys == ys;
    } else if xs[0].Result? {
      ScanBoundary([], tail, ys, marker);
    } else {
      ScanBoundary(now, tail, ys, marker);
    }
  }

  /** Completions distribute over concatenation at result boundaries: a marker never leaks across a result. */
  lemma CompletionsDistribute(xs: seq<Frame>, ys: seq<Frame>, marker: string)
    requires xs == [] || xs[|xs| - 1].Result?
    ensures Completions(xs + ys, marker) == Completions(xs, marker) + Completions(ys, marker)
  {
    if xs == [] {
      assert xs + ys == ys;
    } else {
      ScanBoundary([], xs, ys, marker);
    }
  }

  lemma {:induction false} ScanAppend(segment: seq<Frame>, open: seq<Frame>, last: Frame, marker: string)
    requires forall k :: 0 <= k < |open| ==> !open[k].Result?
    ensures Scan(segment, open + [last], marker)
      == if last.Result? && SegmentComplete(segment + open + [last], marker) then [last] else []
    decreases |open|
  {
    if open == [] {
      assert open + [last] == [last] && segment + open == segment;
    } else {
      assert (open + [last])[1..] == open[1..] + [last];
      ScanAppend(segment + [open[0]], open[1..], last, marker);
      assert segment + [open[0]] + open[1..] == segment + open;
    }
  }

  lemma SegmentStartIsBoundary(frames: seq<Frame>)
    ensures SegmentStart(frames) > 0 ==> frames[SegmentStart(frames) - 1].Result?
  {
    if frames != [] && !frames[|frames| - 1].Result? {
      SegmentStartIsBoundary(frames[..|frames| - 1]);
    }
  }

  lemma AppendToOpen(closed: seq<Frame>, open: seq<Frame>, last: Frame, marker: string)
    requires closed == [] || closed[|closed| - 1].Result?
    requires forall k :: 0 <= k < |open| ==> !open[k].Result?
    ensures Completions(closed + open, marker) == Completions(closed, marker)
    ensures Completions(closed + (open + [last]), marker) == Completions(closed, marker)
      + (if last.Result? && SegmentComplete(open + [last], marker) then [last] else [])
  {
    CompletionsDistribute(closed, open, marker);
    CompletionsDistribute(closed, open + [last], marker);
    ScanOpenSegment([], open, marker);
    ScanAppend([], open, last, marker);
    assert [] + open + [last] == open + [last];
  }

  /** The segment of a frame just appended is the open segment and that frame. */
  lemma SegmentAtEnd(frames: seq<Frame>, last: Frame)
    ensures SegmentAt(frames + [last], |frames|) == frames[SegmentStart(frames)..] + [last]
  {
    var all := frames + [last];
    assert all[..|frames|] == frames;
    SliceToEnd(frames, last, SegmentStart(frames));
  }

  lemma SliceToEnd(frames: seq<Frame>, last: Frame, n: nat)
    requires n <= |frames|
    ensures (frames + [last])[n..|frames| + 1] == frames[n..] + [last]
  {
  }

  /** One more frame adds at most itself, and does so exactly when it completes its own segment. */
  lemma CompletionsAppend(frames: seq<Frame>, last: Frame, marker: string)
    ensures Completions(frames + [last], marker) == Completions(frames, marker)
      + (if CompletedAt(frames + [last], |frames|, marker) then [last] else [])
  {
    var n := SegmentStart(frames);
    var closed, open := frames[..n], frames[n..];
    SegmentStartIsBoundary(frames);
    forall k | 0 <= k < |open| ensures !open[k].Result? {
      SegmentHoldsNoResult(frames, n + k);
    }
    assert frames == closed + open;
    assert frames + [last] == closed + (open + [last]);
    AppendToOpen(closed, open, last, marker);
    SegmentAtEnd(frames, last);
  }

  /** Whether a frame completes depends only on the frames up to it. */
  lemma CompletedInPrefix(frames: seq<Frame>, n: nat, marker: string)
    requires 0 < n <= |frames|
    ensures CompletedAt(frames[..n], n - 1, marker) <==> CompletedAt(frames, n - 1, marker)
  {
    assert frames[..n][..n - 1] == frames[..n - 1];
    assert SegmentAt(frames[..n], n - 1) == SegmentAt(frames, n - 1);
  }

  lemma CompletionsOfPrefix(frames: seq<Frame>, n: nat, marker: string)
    requires 0 < n <= |frames|
    ensures Completions(frames[..n], marker) == Completions(frames[..n - 1], marker)
      + (if CompletedAt(frames, n - 1, marker) then [frames[n - 1]] else [])
  {
    var front := frames[..n - 1];
    assert frames[..n] == front + [frames[n - 1]];
    CompletionsAppend(front, frames[n - 1], marker);
    CompletedInPrefix(frames, n, marker);
  }

  /** The loop returns exactly the frames at which a segment completes, once each and in order. */
  lemma {:induction false} CompletionsAreExact(frames: seq<Frame>, n: nat, marker: string)
    requires n <= |frames|
    ensures Completions(frames[..n], marker) == CompletedFrames(frames, n, marker)
  {
    if n > 0 {
      CompletionsAreExact(frames, n - 1, marker);
      CompletionsOfPrefix(frames, n, marker);
    }
  }

  /** A longer run of frames keeps every completion of a shorter one, in place. */
  lemma {:induction false} CompletionsGrow(xs: seq<Frame>, ys: seq<Frame>, marker: string)
    ensures Completions(xs, marker) <= Completions(xs + ys, marker)
    decreases |ys|
  {
    if ys == [] {
      assert xs + ys == xs;
    } else {
      var front := ys[..|ys| - 1];
      CompletionsGrow(xs, front, marker);
      CompletionsAppend(xs + front, ys[|ys| - 1], marker);
      assert xs + ys == (xs + front) + [ys[|ys| - 1]];
    }
  }

  // ----- which text counts -----

  lemma ContainsIff(text: string, marker: string)
    ensures Contains(text, marker) <==> exists front, back :: text == front + marker + back
  {
    if Contains(text, marker) {
      var i: nat :| i <= |text| && OccursAt(text, marker, i);
      assert text == text[..i] + marker + text[i + |marker|..];
    }
    if front, back :| text == front + marker + back {
      assert text[|front|..|front| + |marker|] == marker;
      assert OccursAt(text, marker, |front|);
    }
  }

  lemma InnerContains(front: string, inner: string, back: string, marker: string)
    requires Contains(inner, marker)
    ensures Contains(front + inner + back, marker)
  {
    var i: nat :| i <= |inner| && OccursAt(inner, marker, i);
    var whole := front + inner + back;
    assert whole[|front| + i..|front| + i + |marker|] == inner[i..i + |marker|];
    assert OccursAt(whole, marker, |front| + i);
  }

  lemma {:induction false} BlockTextSplit(blocks: seq<Block>, j: nat)
    requires j < |blocks|
    ensures BlockText(blocks) == BlockText(blocks[..j])
      + (match blocks[j] case TextBlock(text) => text case OtherBlock => "") + BlockText(blocks[j + 1..])
  {
    if j > 0 {
      BlockTextSplit(blocks[1..], j - 1);
      assert blocks[1..][..j - 1] == blocks[1..j] && blocks[..j][1..] == blocks[1..j];
      assert blocks[1..][j..] == blocks[j + 1..];
    }
  }

  /** The assistant text is the frames' texts in order: text blocks and content, and streamed deltas; nothing else. */
  lemma {:induction false} AssistantTextSplit(frames: seq<Frame>, k: nat)
    requires k < |frames|
    ensures AssistantText(frames) == AssistantText(frames[..k])
      + (match frames[k]
         case Assistant(blocks, content) => BlockText(blocks) + content
         case TextDelta(text) => text
         case Result(_) => ""
         case OtherFrame(_) => "")
      + AssistantText(frames[k + 1..])
  {
    if k > 0 {
      AssistantTextSplit(frames[1..], k - 1);
      assert frames[1..][..k - 1] == frames[1..k] && frames[..k][1..] == frames[1..k];
      assert frames[1..][k..] == frames[k + 1..];
    }
  }

  /** A frame that says the marker by itself: streamed, as a whole text block, or as its content. */
  ghost predicate Says(frame: Frame, marker: string) {
    match frame
    case Assistant(blocks, content) =>
      || Contains(content, marker)
      || exists j :: 0 <= j < |blocks| && blocks[j].TextBlock? && Contains(blocks[j].text, marker)
    case TextDelta(text) => Contains(text, marker)
    case Result(_) => false
    case OtherFrame(_) => false
  }

  lemma SayingIsText(frame: Frame, marker: string)
    requires Says(frame, marker)
    ensures Contains(FrameText(frame), marker)
  {
    match frame
    case Assistant(blocks, content) =>
      if Contains(content, marker) {
        InnerContains(BlockText(blocks), content, "", marker);
        assert BlockText(blocks) + content + "" == FrameText(frame);
      } else {
        var j :| 0 <= j < |blocks| && blocks[j].TextBlock? && Contains(blocks[j].text, marker);
        BlockTextSplit(blocks, j);
        var front, back := BlockText(blocks[..j]), BlockText(blocks[j + 1..]) + content;
        InnerContains(front, blocks[j].text, back, marker);
        assert front + blocks[j].text + back == FrameText(frame);
      }
    case TextDelta(_) =>
  }

  /** A result completes when it holds the marker itself, or a frame since the result before it says it. */
  lemma SayingCompletes(frames: seq<Frame>, i: nat, k: nat, marker: string)
    requires k <= i < |frames| && frames[i].Result? && forall j :: k <= j < i ==> !frames[j].Result?
    requires Contains(frames[i].result, marker) || Says(frames[k], marker)
    ensures CompletedAt(frames, i, marker)
  {
    if !Contains(frames[i].result, marker) {
      StartIsBefore(frames[..i], k);
      var start := SegmentStart(frames[..i]);
      assert SegmentAt(frames, i)[k - start] == frames[k];
      SayingInText(SegmentAt(frames, i), k - start, marker);
    }
  }

  lemma SayingInText(segment: seq<Frame>, k: nat, marker: string)
    requires k < |segment| && Says(segment[k], marker)
    ensures Contains(AssistantText(segment), marker)
  {
    AssistantTextSplit(segment, k);
    SayingIsText(segment[k], marker);
    InnerContains(AssistantText(segment[..k]), FrameText(segment[k]), AssistantText(segment[k + 1..]), marker);
  }

  lemma {:induction false} StartIsBefore(frames: seq<Frame>, k: nat)
    requires k <= |frames| && forall j :: k <= j < |frames| ==> !frames[j].Result?
    ensures SegmentStart(frames) <= k
    decreases |frames|
  {
    if k < |frames| {
      StartIsBefore(frames[..|frames| - 1], k);
    }
  }

  /** A segment in which no assistant text stands completes only by its result's own words. */
  lemma {:induction false} SilentSegment(frames: seq<Frame>)
    requires forall f :: f in frames ==> f.Result? || f.OtherFrame?
    ensures AssistantText(frames) == ""
  {
    if frames != [] {
      assert frames[0] in frames;
      SilentSegment(frames[1..]);
    }
  }

  lemma SilentNeedsResult(frames: seq<Frame>, i: nat, marker: string)
    requires i < |frames| && frames[i].Result? && marker != ""
    requires forall j :: SegmentStart(frames[..i]) <= j < i ==> frames[j].OtherFrame?
    ensures CompletedAt(frames, i, marker) <==> Contains(frames[i].result, marker)
  {
    var segment, start := SegmentAt(frames, i), SegmentStart(frames[..i]);
    forall f | f in segment ensures f.Result? || f.OtherFrame? {
      var n :| 0 <= n < |segment| && segment[n] == f;
      assert segment[n] == frames[start + n];
    }
    SilentSegment(segment);
  }

  // ----- polling through the drained log -----

  type Excluded = (string, Frame) -> bool

  function Streamable(excluded: Excluded): Row<Frame> -> bool {
    (row: Row<Frame>) => !excluded(row.kind, row.payload)
  }

  function StreamFrames(rows: seq<Row<Frame>>, excluded: Excluded): seq<Frame> {
    if rows == [] then []
    else (if excluded(rows[0].kind, rows[0].payload) then [] else [rows[0].payload]) + StreamFrames(rows[1..], excluded)
  }

  lemma {:induction false} StreamFramesConcat(xs: seq<Row<Frame>>, ys: seq<Row<Frame>>, excluded: Excluded)
    ensures StreamFrames(xs + ys, excluded) == StreamFrames(xs, excluded) + StreamFrames(ys, excluded)
  {
    if xs == [] {
      assert xs + ys == ys;
    } else {
      assert (xs + ys)[1..] == xs[1..] + ys;
      StreamFramesConcat(xs[1..], ys, excluded);
    }
  }

  function Payloads(rows: seq<Row<Frame>>): (frames: seq<Frame>)
    ensures |frames| == |rows| && forall i :: 0 <= i < |rows| ==> frames[i] == rows[i].payload
  {
    seq(|rows|, i requires 0 <= i < |rows| => rows[i].payload)
  }

  lemma PayloadsJoin(xs: seq<Row<Frame>>, ys: seq<Row<Frame>>)
    ensures Payloads(xs + ys) == Payloads(xs) + Payloads(ys)
  {
  }

  /** The payloads of exactly the rows that are not excluded, in order. */
  lemma {:induction false} StreamFramesAre(rows: seq<Row<Frame>>, excluded: Excluded, visible: Row<Frame> -> bool)
    requires forall row: Row<Frame> :: visible(row) <==> !excluded(row.kind, row.payload)
    ensures StreamFrames(rows, excluded) == Payloads(Filter(rows, visible))
  {
    if rows != [] {
      StreamFramesAre(rows[1..], excluded, visible);
      var first := if visible(rows[0]) then [rows[0]] else [];
      PayloadsJoin(first, Filter(rows[1..], visible));
      assert Payloads(first) == if visible(rows[0]) then [rows[0].payload] else [];
    }
  }

  /** A later horizon on a grown log wants everything an earlier one wanted, followed by more. */
  lemma WantedExtends(
    log: seq<Row<Frame>>, grown: seq<Row<Frame>>, visible: Row<Frame> -> bool, after: int, head: int, later: int)
    requires ValidLog(log) && ValidLog(grown) && GrowsPast(log, grown, head) && head <= later
    ensures Wanted(log, visible, after, head) <= Wanted(grown, visible, after, later)
  {
    GrowthUnseen(log, grown, visible, after, head);
    CountsOrdered(grown, head, later);
    var i, j, k := CountUpTo(grown, after), CountUpTo(grown, head), CountUpTo(grown, later);
    if i <= j {
      FilterSlice(grown, visible, i, j, k);
    }
  }

  lemma MoreRowsMoreCompletions(xs: seq<Row<Frame>>, zs: seq<Row<Frame>>, excluded: Excluded, marker: string)
    requires xs <= zs
    ensures Completions(StreamFrames(xs, excluded), marker) <= Completions(StreamFrames(zs, excluded), marker)
  {
    var ys := zs[|xs|..];
    assert zs == xs + ys;
    StreamFramesConcat(xs, ys, excluded);
    CompletionsGrow(StreamFrames(xs, excluded), StreamFrames(ys, excluded), marker);
  }

  /** One poll: drain the log up to the head read before it, and look for completions. */
  function Poll(logs: Schedule<Frame>, excluded: Excluded, after: int, head: int, marker: string): seq<Frame> {
    match Drain(HonestServer(logs, Streamable(excluded)), 0, after, head)
    case Rows(rows) => Completions(StreamFrames(rows, excluded), marker)
    case CursorStuck => []
  }

  /** What a poll finds: the completions among the payloads of exactly the visible rows up to the head. */
  lemma PollFinds(
    logs: Schedule<Frame>, excluded: Excluded, visible: Row<Frame> -> bool, after: int, head: int, marker: string)
    requires ValidSchedule(logs, head)
    requires forall row: Row<Frame> :: visible(row) <==> !excluded(row.kind, row.payload)
    ensures Poll(logs, excluded, after, head, marker)
      == Completions(Payloads(Wanted(logs(0), visible, after, head)), marker)
  {
    var rows := Wanted(logs(0), visible, after, head);
    var i, j := CountUpTo(logs(0), after), CountUpTo(logs(0), head);
    DrainIsWanted(logs, Streamable(excluded), 0, after, head);
    if i <= j {
      FilterAlike(logs(0)[i..j], Streamable(excluded), visible);
    }
    forall row | row in rows ensures visible(row) {
      FilterMembers(logs(0)[i..j], visible, row);
    }
    StreamFramesAre(rows, excluded, visible);
    FilterAll(rows, visible);
  }

  /**
   Polling with a growing head never loses a completion: whatever rows arrive during and between
   the two drains, the first poll's completions are a prefix of the second's.
   */
  lemma PollingIsStable(
    first: Schedule<Frame>, second: Schedule<Frame>, excluded: Excluded, after: int, head: int, later: int,
    marker: string)
    requires ValidSchedule(first, head) && ValidSchedule(second, later)
    requires head <= later && GrowsPast(first(0), second(0), head)
    ensures Poll(first, excluded, after, head, marker) <= Poll(second, excluded, after, later, marker)
  {
    var visible := Streamable(excluded);
    DrainIsWanted(first, visible, 0, after, head);
    DrainIsWanted(second, visible, 0, after, later);
    WantedExtends(first(0), second(0), visible, after, head, later);
    MoreRowsMoreCompletions(
      Wanted(first(0), visible, after, head), Wanted(second(0), visible, after, later), excluded, marker);
  }

  // ----- the harvest's own checks -----

  datatype RowError = NonIncreasing(at: nat) | ForeignSession(at: nat) | LogSentinel(at: nat) | InvalidPayload(at: nat)

  /** A harvested row; a number that is no integer and a payload that is no object are `None`. */
  datatype Harvested = Harvested(session: string, pos: Option<int>, kind: string, payload: Option<Frame>)

  predicate IsSentinel(kind: string) { kind == "log_gap" || kind == "log_conflict" }

  /** Row `i` is of this session, typed, no sentinel, and its number is above the one before it. */
  predicate RowOk(rows: seq<Harvested>, session: string, i: nat)
    requires i < |rows|
  {
    && rows[i].session == session && !IsSentinel(rows[i].kind) && rows[i].payload.Some?
    && rows[i].pos.Some?
    && (if i == 0 then 0 < rows[i].pos.value
        else rows[i - 1].pos.Some? && rows[i - 1].pos.value < rows[i].pos.value)
  }

  /** The rows as log rows, once they are typed. */
  function LogRows(rows: seq<Harvested>): seq<Row<Frame>>
    requires forall i :: 0 <= i < |rows| ==> rows[i].pos.Some? && rows[i].payload.Some?
  {
    seq(|rows|, i requires 0 <= i < |rows| => Row(rows[i].pos.value, rows[i].kind, rows[i].payload.value))
  }

  /** The last integer number before row `i`, or 0. */
  function LastNumber(rows: seq<Harvested>, i: nat): int
    requires i <= |rows|
  {
    if i == 0 then 0 else if rows[i - 1].pos.Some? then rows[i - 1].pos.value else LastNumber(rows, i - 1)
  }

  /** It is that of the nearest earlier row that has one, whether or not that row was in order. */
  lemma {:induction false} LastNumberIs(rows: seq<Harvested>, i: nat, j: nat)
    requires i <= |rows|
    requires j < i && rows[j].pos.Some? && forall k :: j < k < i ==> rows[k].pos.None?
    ensures LastNumber(rows, i) == rows[j].pos.value
  {
    if j < i - 1 {
      LastNumberIs(rows, i - 1, j);
    }
  }

  /** What is wrong with row `i`, in the order it is looked at. */
  function ComplaintsOf(rows: seq<Harvested>, session: string, i: nat): seq<RowError>
    requires i < |rows|
  {
    (if rows[i].pos.None? || rows[i].pos.value <= LastNumber(rows, i) then [NonIncreasing(i)] else [])
    + (if rows[i].session != session then [ForeignSession(i)] else [])
    + (if IsSentinel(rows[i].kind) then [LogSentinel(i)] else [])
    + (if rows[i].payload.None? then [InvalidPayload(i)] else [])
  }

  function Complaints(rows: seq<Harvested>, session: string, n: nat): seq<RowError>
    requires n <= |rows|
  {
    if n == 0 then [] else Complaints(rows, session, n - 1) + ComplaintsOf(rows, session, n - 1)
  }

  lemma RowComplaints(rows: seq<Harvested>, session: string, i: nat, e: RowError)
    requires i < |rows|
    ensures e in ComplaintsOf(rows, session, i) <==>
      || (e == NonIncreasing(i) && (rows[i].pos.None? || rows[i].pos.value <= LastNumber(rows, i)))
      || (e == ForeignSession(i) && rows[i].session != session)
      || (e == LogSentinel(i) && rows[i].kind in {"log_gap", "log_conflict"})
      || (e == InvalidPayload(i) && rows[i].payload.None?)
  {
  }

  lemma OwnRow(rows: seq<Harvested>, session: string, i: nat, e: RowError)
    requires i < |rows|
    ensures e in ComplaintsOf(rows, session, i) ==> e.at == i
  {
    RowComplaints(rows, session, i, e);
  }

  lemma InEither(xs: seq<RowError>, ys: seq<RowError>, e: RowError)
    ensures e in xs + ys <==> e in xs || e in ys
  {
  }

  lemma {:induction false} ComplaintStands(rows: seq<Harvested>, session: string, n: nat, e: RowError)
    requires n <= |rows|
    ensures e in Complaints(rows, session, n) <==> e.at < n && e in ComplaintsOf(rows, session, e.at)
  {
    if n > 0 {
      ComplaintStands(rows, session, n - 1, e);
      OwnRow(rows, session, n - 1, e);
      InEither(Complaints(rows, session, n - 1), ComplaintsOf(rows, session, n - 1), e);
    }
  }

  /** A complaint is made exactly about a row that deserves it. */
  lemma ComplaintsAre(rows: seq<Harvested>, session: string, e: RowError)
    ensures e in Complaints(rows, session, |rows|) <==>
      && e.at < |rows|
      && match e
         case NonIncreasing(i) => rows[i].pos.None? || rows[i].pos.value <= LastNumber(rows, i)
         case ForeignSession(i) => rows[i].session != session
         case LogSentinel(i) => rows[i].kind in {"log_gap", "log_conflict"}
         case InvalidPayload(i) => rows[i].payload.None?
  {
    ComplaintStands(rows, session, |rows|, e);
    if e.at < |rows| {
      RowComplaints(rows, session, e.at, e);
    }
  }

  /** Clean exactly when every row is typed, of this session and no sentinel, and the log they make is well formed. */
  method ValidateRows(rows: seq<Harvested>, session: string) returns (errors: seq<RowError>)
    ensures errors == Complaints(rows, session, |rows|)
    ensures errors == [] <==>
      && (forall i :: 0 <= i < |rows| ==> rows[i].pos.Some? && rows[i].payload.Some?)
      && (forall i :: 0 <= i < |rows| ==>
            rows[i].session == session && rows[i].kind != "log_gap" && rows[i].kind != "log_conflict")
      && ValidLog(LogRows(rows))
  {
    errors := [];
    var previous := 0;
    for i := 0 to |rows|
      invariant errors == Complaints(rows, session, i) && previous == LastNumber(rows, i)
    {
      var found := ValidateRow(rows, session, i, previous);
      errors := errors + found;
      if rows[i].pos.Some? {
        previous := rows[i].pos.value;
      }
    }
    CleanRows(rows, session, |rows|);
    CleanRowsAreLog(rows, session);
  }

  method ValidateRow(rows: seq<Harvested>, session: string, i: nat, previous: int) returns (errors: seq<RowError>)
    requires i < |rows| && previous == LastNumber(rows, i)
    ensures errors == ComplaintsOf(rows, session, i)
  {
    errors := [];
    if rows[i].pos.None? || rows[i].pos.value <= previous {
      errors := errors + [NonIncreasing(i)];
    }
    if rows[i].session != session {
      errors := errors + [ForeignSession(i)];
    }
    if IsSentinel(rows[i].kind) {
      errors := errors + [LogSentinel(i)];
    }
    if rows[i].payload.None? {
      errors := errors + [InvalidPayload(i)];
    }
  }

  /** No complaint about the first `n` rows iff each of them is in order with the one before. */
  lemma {:induction false} CleanRows(rows: seq<Harvested>, session: string, n: nat)
    requires n <= |rows|
    ensures Complaints(rows, session, n) == [] <==> forall i :: 0 <= i < n ==> RowOk(rows, session, i)
  {
    if n > 0 {
      CleanRows(rows, session, n - 1);
      assert RowOk(rows, session, n - 1) ==> ComplaintsOf(rows, session, n - 1) == [];
      if Complaints(rows, session, n) == [] && n > 1 {
        assert RowOk(rows, session, n - 2);
      }
    }
  }

  /** Rows that are each in order with the one before make a valid log. */
  lemma CleanRowsAreLog(rows: seq<Harvested>, session: string)
    ensures (forall i :: 0 <= i < |rows| ==> RowOk(rows, session, i)) <==>
      && (forall i :: 0 <= i < |rows| ==> rows[i].pos.Some? && rows[i].payload.Some?)
      && (forall i :: 0 <= i < |rows| ==> rows[i].session == session && !IsSentinel(rows[i].kind))
      && ValidLog(LogRows(rows))
  {
    if forall i :: 0 <= i < |rows| ==> RowOk(rows, session, i) {
      forall i | 0 <= i < |rows|
        ensures rows[i].pos.Some? && rows[i].payload.Some?
        ensures rows[i].session == session && !IsSentinel(rows[i].kind)
      {
        assert RowOk(rows, session, i);
      }
      var log := LogRows(rows);
      forall i | 0 < i < |log| ensures log[i - 1].pos < log[i].pos { assert RowOk(rows, session, i); }
      forall i | 0 <= i < |log| ensures log[i].pos > 0 {
        assert RowOk(rows, session, 0);
        if i > 0 { IncreasingPairs(log, 0, i); }
      }
    } else if (forall i :: 0 <= i < |rows| ==> rows[i].pos.Some? && rows[i].payload.Some?) && ValidLog(LogRows(rows)) {
      var i :| 0 <= i < |rows| && !RowOk(rows, session, i);
      var log := LogRows(rows);
      assert log[i].pos > 0;
      if i > 0 { assert log[i - 1].pos < log[i].pos; }
    }
  }
}
