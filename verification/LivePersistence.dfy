/**
 The check that every frame captured live is present, in order, among the persisted ones: a
 greedy search with a cursor, relaxed for frame types that are re-sent as snapshots.
 */
module LivePersistence {
  import opened Sequences

  /** `kind` is the frame's `type`; the rest of the payload is compared as a whole. */
  datatype Frame = Frame(kind: string, body: string)

  const EXCLUDED_TYPES := {"conversation_history", "conversation_state", "terminal_snapshot"}
  const SNAPSHOT_TYPES := {"available_commands", "plan", "agent_update"}

  /** Frames that were never on the shared wire, as the read path decides it. */
  type Hidden = Frame -> bool

  predicate Relevant(frame: Frame, hidden: Hidden) {
    frame.kind !in EXCLUDED_TYPES && !hidden(frame)
  }

  predicate Snapshot(frame: Frame) { frame.kind in SNAPSHOT_TYPES }

  /** The relevant frames of a live capture, in order. */
  function RelevantFrames(live: seq<Frame>, hidden: Hidden): seq<Frame> {
    Filter(live, (f: Frame) => Relevant(f, hidden))
  }

  /** The first position at or after `cursor` that holds `frame`. */
  function FindFrom(persisted: seq<Frame>, frame: Frame, cursor: nat): (match_: Option<nat>)
    requires cursor <= |persisted|
    ensures match_.Some? ==> cursor <= match_.value < |persisted| && persisted[match_.value] == frame
    ensures match_.Some? ==> forall i :: cursor <= i < match_.value ==> persisted[i] != frame
    ensures match_.None? ==> frame !in persisted[cursor..]
    decreases |persisted| - cursor
  {
    if cursor == |persisted| then None
    else if persisted[cursor] == frame then Some(cursor)
    else
      assert persisted[cursor..] == [persisted[cursor]] + persisted[cursor + 1..];
      FindFrom(persisted, frame, cursor + 1)
  }

  /** What happened to one checked frame: matched at a position, reconciled, or missing. */
  datatype Fate = Matched(at: nat) | Reconciled | Missing

  function FateOf(persisted: seq<Frame>, frame: Frame, cursor: nat): Fate
    requires cursor <= |persisted|
  {
    match FindFrom(persisted, frame, cursor)
    case Some(i) => Matched(i)
    case None => if Snapshot(frame) && frame in persisted[..cursor] then Reconciled else Missing
  }

  function NextCursor(fate: Fate, cursor: nat): nat {
    if fate.Matched? then fate.at + 1 else cursor
  }

  /** The fate of each of `frames`, searched one after the other from `cursor`. */
  function Fates(persisted: seq<Frame>, frames: seq<Frame>, cursor: nat): (fates: seq<Fate>)
    requires cursor <= |persisted|
    ensures |fates| == |frames|
    decreases |frames|
  {
    if frames == [] then []
    else
      var fate := FateOf(persisted, frames[0], cursor);
      [fate] + Fates(persisted, frames[1..], NextCursor(fate, cursor))
  }

  predicate NoneMissing(fates: seq<Fate>) {
    forall i | 0 <= i < |fates| :: !fates[i].Missing?
  }

  datatype Report = Report(passed: bool, checked: nat, missing: seq<nat>, reconciled: nat)

  function CountReconciled(fates: seq<Fate>): nat {
    |Filter(fates, (f: Fate) => f.Reconciled?)|
  }

  function CountMissing(fates: seq<Fate>): nat {
    |Filter(fates, (f: Fate) => f.Missing?)|
  }

  lemma NoneMissingCount(fates: seq<Fate>)
    ensures NoneMissing(fates) <==> CountMissing(fates) == 0
  {
    var lost := (f: Fate) => f.Missing?;
    if NoneMissing(fates) {
      FilterNone(fates, lost);
    } else {
      var i :| 0 <= i < |fates| && fates[i].Missing?;
      FilterMembers(fates, lost, fates[i]);
    }
  }

  /** The fates of the relevant frames of `live` from `index` on. */
  ghost function FatesFrom(
    persisted: seq<Frame>, live: seq<Frame>, hidden: Hidden, index: nat, cursor: nat): seq<Fate>
    requires index <= |live| && cursor <= |persisted|
    decreases |live| - index
  {
    if index == |live| then []
    else if !Relevant(live[index], hidden) then FatesFrom(persisted, live, hidden, index + 1, cursor)
    else
      var fate := FateOf(persisted, live[index], cursor);
      [fate] + FatesFrom(persisted, live, hidden, index + 1, NextCursor(fate, cursor))
  }

  lemma {:induction false} FatesFromAreFates(
    persisted: seq<Frame>, live: seq<Frame>, hidden: Hidden, index: nat, cursor: nat)
    requires index <= |live| && cursor <= |persisted|
    ensures FatesFrom(persisted, live, hidden, index, cursor)
      == Fates(persisted, RelevantFrames(live[index..], hidden), cursor)
    decreases |live| - index
  {
    if index < |live| {
      assert live[index..][1..] == live[index + 1..];
      var rest := RelevantFrames(live[index + 1..], hidden);
      if Relevant(live[index], hidden) {
        var fate := FateOf(persisted, live[index], cursor);
        assert ([live[index]] + rest)[1..] == rest;
        FatesFromAreFates(persisted, live, hidden, index + 1, NextCursor(fate, cursor));
      } else {
        FatesFromAreFates(persisted, live, hidden, index + 1, cursor);
        assert RelevantFrames(live[index..], hidden) == rest;
      }
    }
  }

  /** The live indices, from `index` on, of the frames whose fate is Missing. */
  ghost function MissingFrom(
    persisted: seq<Frame>, live: seq<Frame>, hidden: Hidden, index: nat, cursor: nat): seq<nat>
    requires index <= |live| && cursor <= |persisted|
    decreases |live| - index
  {
    if index == |live| then []
    else if !Relevant(live[index], hidden) then MissingFrom(persisted, live, hidden, index + 1, cursor)
    else
      var fate := FateOf(persisted, live[index], cursor);
      (if fate.Missing? then [index] else [])
      + MissingFrom(persisted, live, hidden, index + 1, NextCursor(fate, cursor))
  }

  /** How many relevant frames stand in the capture from `index` on and before `i`. */
  function PlaceOf(live: seq<Frame>, hidden: Hidden, index: nat, i: nat): (place: nat)
    requires index <= i <= |live|
    decreases i - index
  {
    if index == i then 0
    else (if Relevant(live[index], hidden) then 1 else 0) + PlaceOf(live, hidden, index + 1, i)
  }

  /** The frame at that place of the fates is missing. */
  predicate LostAt(fates: seq<Fate>, place: nat) { place < |fates| && fates[place].Missing? }

  /** A live index is reported exactly when its frame is relevant and that frame's own fate is Missing. */
  lemma {:induction false} MissingIff(
    persisted: seq<Frame>, live: seq<Frame>, hidden: Hidden, index: nat, cursor: nat, i: nat)
    requires index <= i < |live| && cursor <= |persisted|
    ensures i in MissingFrom(persisted, live, hidden, index, cursor) <==>
      && Relevant(live[i], hidden)
      && LostAt(FatesFrom(persisted, live, hidden, index, cursor), PlaceOf(live, hidden, index, i))
    decreases |live| - index
  {
    var next := CursorPast(persisted, live[index], hidden, cursor);
    MissingUnfolds(persisted, live, hidden, index, cursor);
    MissingLater(persisted, live, hidden, index + 1, next);
    var frame, fate := live[index], FateOf(persisted, live[index], cursor);
    var now, later := Relevant(frame, hidden) && fate.Missing?, MissingFrom(persisted, live, hidden, index + 1, next);
    var rest := FatesFrom(persisted, live, hidden, index + 1, next);
    OneBefore(index, now, later, |live|);
    if index < i {
      MissingIff(persisted, live, hidden, index + 1, next, i);
      LostLater(if Relevant(frame, hidden) then [fate] else [], rest, PlaceOf(live, hidden, index + 1, i));
      assert i in (if now then [index] else []) + later <==> i in later;
    }
  }

  lemma LostLater(first: seq<Fate>, rest: seq<Fate>, place: nat)
    ensures LostAt(first + rest, |first| + place) <==> LostAt(rest, place)
  {
  }

  ghost function CursorPast(persisted: seq<Frame>, frame: Frame, hidden: Hidden, cursor: nat): (next: nat)
    requires cursor <= |persisted|
    ensures next <= |persisted|
  {
    if Relevant(frame, hidden) then NextCursor(FateOf(persisted, frame, cursor), cursor) else cursor
  }

  /** One step of the two scans over the live capture. */
  lemma MissingUnfolds(persisted: seq<Frame>, live: seq<Frame>, hidden: Hidden, index: nat, cursor: nat)
    requires index < |live| && cursor <= |persisted|
    ensures var next, frame := CursorPast(persisted, live[index], hidden, cursor), live[index];
      && MissingFrom(persisted, live, hidden, index, cursor)
         == (if Relevant(frame, hidden) && FateOf(persisted, frame, cursor).Missing? then [index] else [])
            + MissingFrom(persisted, live, hidden, index + 1, next)
      && FatesFrom(persisted, live, hidden, index, cursor)
         == (if Relevant(frame, hidden) then [FateOf(persisted, frame, cursor)] else [])
            + FatesFrom(persisted, live, hidden, index + 1, next)
  {
  }

  /** Increasing indices from `low` on and below `high`. */
  ghost predicate Ascending(xs: seq<nat>, low: nat, high: nat) {
    && (forall k :: 0 <= k < |xs| ==> low <= xs[k] < high)
    && (forall k :: 0 < k < |xs| ==> xs[k - 1] < xs[k])
  }

  lemma OneBefore(index: nat, now: bool, later: seq<nat>, high: nat)
    requires index < high && Ascending(later, index + 1, high)
    ensures Ascending((if now then [index] else []) + later, index, high)
    ensures index in (if now then [index] else []) + later <==> now
  {
  }

  /** Reported indices lie in the part scanned, in increasing order. */
  lemma {:induction false} MissingLater(
    persisted: seq<Frame>, live: seq<Frame>, hidden: Hidden, index: nat, cursor: nat)
    requires index <= |live| && cursor <= |persisted|
    ensures Ascending(MissingFrom(persisted, live, hidden, index, cursor), index, |live|)
    decreases |live| - index
  {
    if index < |live| {
      var next := CursorPast(persisted, live[index], hidden, cursor);
      MissingUnfolds(persisted, live, hidden, index, cursor);
      MissingLater(persisted, live, hidden, index + 1, next);
      var now := Relevant(live[index], hidden) && FateOf(persisted, live[index], cursor).Missing?;
      OneBefore(index, now, MissingFrom(persisted, live, hidden, index + 1, next), |live|);
    }
  }

  /** The search for one frame: forward from the cursor, then among what is behind it for a snapshot. */
  method Search(persisted: seq<Frame>, frame: Frame, cursor: nat) returns (fate: Fate)
    requires cursor <= |persisted|
    ensures fate == FateOf(persisted, frame, cursor)
    ensures fate.Matched? ==> fate.at < |persisted|
  {
    var found := FindFrom(persisted, frame, cursor);
    if found.Some? {
      return Matched(found.value);
    }
    if Snapshot(frame) && frame in persisted[..cursor] {
      return Reconciled;
    }
    return Missing;
  }

  /** What the check finds. */
  ghost function ReportOf(live: seq<Frame>, persisted: seq<Frame>, hidden: Hidden): Report {
    var fates := Fates(persisted, RelevantFrames(live, hidden), 0);
    var missing := MissingFrom(persisted, live, hidden, 0, 0);
    Report(fates != [] && missing == [], |fates|, missing, CountReconciled(fates))
  }

  /** `live_persistence`: missing frames are named by their index in the live capture. */
  method CheckLive(live: seq<Frame>, persisted: seq<Frame>, hidden: Hidden) returns (report: Report)
    ensures report == ReportOf(live, persisted, hidden)
    ensures report.missing == [] <==> NoneMissing(Fates(persisted, RelevantFrames(live, hidden), 0))
  {
    var cursor: nat, checked: nat, reconciled: nat := 0, 0, 0;
    var missing: seq<nat> := [];
    ghost var fates: seq<Fate> := [];
    ghost var all := FatesFrom(persisted, live, hidden, 0, 0);
    ghost var lost := MissingFrom(persisted, live, hidden, 0, 0);
    for index := 0 to |live|
      invariant cursor <= |persisted|
      invariant all == fates + FatesFrom(persisted, live, hidden, index, cursor)
      invariant checked == |fates|
      invariant |missing| == CountMissing(fates)
      invariant reconciled == CountReconciled(fates)
      invariant lost == missing + MissingFrom(persisted, live, hidden, index, cursor)
    {
      var frame := live[index];
      if !Relevant(frame, hidden) {
        continue;
      }
      var fate := Search(persisted, frame, cursor);
      checked := checked + 1;
      match fate {
        case Matched(at) => cursor := at + 1;
        case Reconciled => reconciled := reconciled + 1;
        case Missing => missing := missing + [index];
      }
      FateAppended(fates, fate, FatesFrom(persisted, live, hidden, index + 1, cursor));
      fates := fates + [fate];
    }
    assert fates + [] == fates && missing + [] == missing && live[0..] == live;
    FatesFromAreFates(persisted, live, hidden, 0, 0);
    NoneMissingCount(fates);
    report := Report(checked > 0 && missing == [], checked, missing, reconciled);
  }

  lemma FateAppended(fates: seq<Fate>, fate: Fate, rest: seq<Fate>)
    ensures fates + ([fate] + rest) == (fates + [fate]) + rest
    ensures CountMissing(fates + [fate]) == CountMissing(fates) + (if fate.Missing? then 1 else 0)
    ensures CountReconciled(fates + [fate]) == CountReconciled(fates) + (if fate.Reconciled? then 1 else 0)
  {
    FilterConcat(fates, [fate], (f: Fate) => f.Reconciled?);
    FilterConcat(fates, [fate], (f: Fate) => f.Missing?);
  }

  lemma NoneMissingTail(fates: seq<Fate>)
    requires fates != [] && NoneMissing(fates)
    ensures NoneMissing(fates[1..])
  {
    forall i | 0 <= i < |fates[1..]| ensures !fates[1..][i].Missing? {
      assert fates[1..][i] == fates[i + 1];
    }
  }

  // ----- what a pass means -----

  /** A way to account for every frame from `cursor` on: match it further on, or reconcile a snapshot seen before. */
  ghost predicate Accounts(persisted: seq<Frame>, frames: seq<Frame>, fates: seq<Fate>, cursor: nat)
    requires cursor <= |persisted|
    decreases |frames|
  {
    |fates| == |frames| &&
    (frames == [] ||
      match fates[0]
      case Matched(at) =>
        && cursor <= at < |persisted|
        && persisted[at] == frames[0]
        && Accounts(persisted, frames[1..], fates[1..], at + 1)
      case Reconciled =>
        && Snapshot(frames[0])
        && frames[0] in persisted[..cursor]
        && Accounts(persisted, frames[1..], fates[1..], cursor)
      case Missing => false)
  }

  /** Strictly increasing witness positions; each reconciled snapshot occurs no later than an earlier match. */
  ghost predicate Witnessed(persisted: seq<Frame>, frames: seq<Frame>, fates: seq<Fate>)
    requires |fates| == |frames|
  {
    && (forall i :: 0 <= i < |fates| ==> !fates[i].Missing?)
    && (forall i :: 0 <= i < |fates| && fates[i].Matched? ==>
          fates[i].at < |persisted| && persisted[fates[i].at] == frames[i])
    && (forall i, j :: 0 <= i < j < |fates| && fates[i].Matched? && fates[j].Matched? ==> fates[i].at < fates[j].at)
    && (forall j :: 0 <= j < |fates| && fates[j].Reconciled? ==>
          Snapshot(frames[j]) && exists i, q :: 0 <= i < j && SeenBefore(persisted, frames[j], fates[i], q))
  }

  ghost predicate SeenBefore(persisted: seq<Frame>, frame: Frame, earlier: Fate, q: nat) {
    earlier.Matched? && q <= earlier.at && q < |persisted| && persisted[q] == frame
  }

  /** The cursor once the first `n` frames have met their fates. */
  ghost function CursorAfter(fates: seq<Fate>, n: nat, cursor: nat): nat
    requires n <= |fates|
  {
    if n == 0 then cursor else NextCursor(fates[n - 1], CursorAfter(fates, n - 1, cursor))
  }

  lemma {:induction false} CursorAfterTail(fates: seq<Fate>, n: nat, cursor: nat)
    requires 0 < n <= |fates|
    ensures CursorAfter(fates, n, cursor) == CursorAfter(fates[1..], n - 1, NextCursor(fates[0], cursor))
  {
    if n > 1 {
      CursorAfterTail(fates, n - 1, cursor);
    }
  }

  /** Each single step of an account, read off by position. */
  lemma {:induction false} AccountStep(
    persisted: seq<Frame>, frames: seq<Frame>, fates: seq<Fate>, cursor: nat, i: nat)
    requires cursor <= |persisted| && Accounts(persisted, frames, fates, cursor) && i < |frames|
    ensures var c := CursorAfter(fates, i, cursor);
      && c <= |persisted|
      && !fates[i].Missing?
      && (fates[i].Matched? ==> c <= fates[i].at < |persisted| && persisted[fates[i].at] == frames[i])
      && (fates[i].Reconciled? ==> Snapshot(frames[i]) && frames[i] in persisted[..c])
    decreases i
  {
    if i > 0 {
      AccountStep(persisted, frames[1..], fates[1..], NextCursor(fates[0], cursor), i - 1);
      CursorAfterTail(fates, i, cursor);
    }
  }

  lemma {:induction false} CursorGrows(
    persisted: seq<Frame>, frames: seq<Frame>, fates: seq<Fate>, cursor: nat, i: nat, j: nat)
    requires cursor <= |persisted| && Accounts(persisted, frames, fates, cursor) && i <= j <= |frames|
    ensures CursorAfter(fates, i, cursor) <= CursorAfter(fates, j, cursor)
    decreases j
  {
    if i < j {
      CursorGrows(persisted, frames, fates, cursor, i, j - 1);
      AccountStep(persisted, frames, fates, cursor, j - 1);
    }
  }

  /** A positive cursor is one past the position of some earlier match. */
  lemma {:induction false} CursorComesFromMatch(fates: seq<Fate>, n: nat) returns (i: nat)
    requires n <= |fates| && CursorAfter(fates, n, 0) > 0
    ensures i < n && fates[i].Matched? && CursorAfter(fates, n, 0) == fates[i].at + 1
  {
    if fates[n - 1].Matched? {
      i := n - 1;
    } else {
      i := CursorComesFromMatch(fates, n - 1);
    }
  }

  lemma AccountIsWitnessed(persisted: seq<Frame>, frames: seq<Frame>, fates: seq<Fate>)
    requires Accounts(persisted, frames, fates, 0)
    ensures |fates| == |frames| && Witnessed(persisted, frames, fates)
  {
    forall i | 0 <= i < |fates|
      ensures !fates[i].Missing?
      ensures fates[i].Matched? ==> fates[i].at < |persisted| && persisted[fates[i].at] == frames[i]
    {
      AccountStep(persisted, frames, fates, 0, i);
    }
    forall i, j | 0 <= i < j < |fates| && fates[i].Matched? && fates[j].Matched?
      ensures fates[i].at < fates[j].at
    {
      AccountStep(persisted, frames, fates, 0, j);
      CursorGrows(persisted, frames, fates, 0, i + 1, j);
    }
    forall j | 0 <= j < |fates| && fates[j].Reconciled?
      ensures Snapshot(frames[j]) && exists i, q :: 0 <= i < j && SeenBefore(persisted, frames[j], fates[i], q)
    {
      AccountStep(persisted, frames, fates, 0, j);
      var c := CursorAfter(fates, j, 0);
      var q :| 0 <= q < |persisted[..c]| && persisted[..c][q] == frames[j];
      var i := CursorComesFromMatch(fates, j);
      assert SeenBefore(persisted, frames[j], fates[i], q);
    }
  }

  lemma {:induction false} GreedyAccounts(persisted: seq<Frame>, frames: seq<Frame>, cursor: nat)
    requires cursor <= |persisted| && NoneMissing(Fates(persisted, frames, cursor))
    ensures Accounts(persisted, frames, Fates(persisted, frames, cursor), cursor)
    decreases |frames|
  {
    if frames != [] {
      var fates := Fates(persisted, frames, cursor);
      var fate := FateOf(persisted, frames[0], cursor);
      assert fates[0] == fate && fates[1..] == Fates(persisted, frames[1..], NextCursor(fate, cursor));
      NoneMissingTail(fates);
      GreedyAccounts(persisted, frames[1..], NextCursor(fate, cursor));
    }
  }

  /** Soundness, snapshots included: a pass comes with witnesses. */
  lemma PassIsWitnessed(persisted: seq<Frame>, frames: seq<Frame>)
    requires NoneMissing(Fates(persisted, frames, 0))
    ensures Witnessed(persisted, frames, Fates(persisted, frames, 0))
  {
    GreedyAccounts(persisted, frames, 0);
    AccountIsWitnessed(persisted, frames, Fates(persisted, frames, 0));
  }

  // ----- what the report says of a capture -----

  lemma NoneReported(live: seq<Frame>, persisted: seq<Frame>, hidden: Hidden)
    ensures ReportOf(live, persisted, hidden).missing == []
      <==> NoneMissing(Fates(persisted, RelevantFrames(live, hidden), 0))
  {
    assert live[0..] == live;
    FatesFromAreFates(persisted, live, hidden, 0, 0);
    ReportedCount(persisted, live, hidden, 0, 0);
    NoneMissingCount(Fates(persisted, RelevantFrames(live, hidden), 0));
  }

  lemma {:induction false} ReportedCount(
    persisted: seq<Frame>, live: seq<Frame>, hidden: Hidden, index: nat, cursor: nat)
    requires index <= |live| && cursor <= |persisted|
    ensures |MissingFrom(persisted, live, hidden, index, cursor)|
      == CountMissing(FatesFrom(persisted, live, hidden, index, cursor))
    decreases |live| - index
  {
    if index < |live| {
      var next := CursorPast(persisted, live[index], hidden, cursor);
      MissingUnfolds(persisted, live, hidden, index, cursor);
      ReportedCount(persisted, live, hidden, index + 1, next);
      if Relevant(live[index], hidden) {
        var fate := FateOf(persisted, live[index], cursor);
        var rest := FatesFrom(persisted, live, hidden, index + 1, next);
        assert ([fate] + rest)[1..] == rest;
      }
    }
  }

  /** A pass means that every frame that is neither a connection seed nor hidden was persisted. */
  lemma PassMeansPersisted(live: seq<Frame>, persisted: seq<Frame>, hidden: Hidden, i: nat)
    requires ReportOf(live, persisted, hidden).passed && i < |live| && !hidden(live[i])
    requires live[i].kind !in {"conversation_history", "conversation_state", "terminal_snapshot"}
    ensures live[i] in persisted
  {
    var frames := RelevantFrames(live, hidden);
    FilterMembers(live, (f: Frame) => Relevant(f, hidden), live[i]);
    var k :| 0 <= k < |frames| && frames[k] == live[i];
    NoneReported(live, persisted, hidden);
    PassIsWitnessed(persisted, frames);
    var fates := Fates(persisted, frames, 0);
    if fates[k].Reconciled? {
      var j, q :| 0 <= j < k && SeenBefore(persisted, frames[k], fates[j], q);
    }
  }

  /** What is counted as checked: the live positions of frames that are neither a connection seed nor hidden. */
  lemma CheckedAreCounted(live: seq<Frame>, persisted: seq<Frame>, hidden: Hidden, positions: set<nat>)
    requires forall i: nat :: i in positions <==>
      (i < |live| && !hidden(live[i])
       && live[i].kind !in {"conversation_history", "conversation_state", "terminal_snapshot"})
    ensures ReportOf(live, persisted, hidden).checked == |positions|
  {
    FilterCount(live, (f: Frame) => Relevant(f, hidden), positions);
  }

  /** And no capture passes in which nothing was checked. */
  lemma NothingCheckedFails(live: seq<Frame>, persisted: seq<Frame>, hidden: Hidden)
    requires forall f :: f in live ==>
      hidden(f) || f.kind in {"conversation_history", "conversation_state", "terminal_snapshot"}
    ensures !ReportOf(live, persisted, hidden).passed
  {
    FilterNone(live, (f: Frame) => Relevant(f, hidden));
  }

  /** A connection seed or a hidden frame, wherever it stands in the capture, changes nothing in the report. */
  lemma SeedsDoNotCount(
    front: seq<Frame>, seed: Frame, rest: seq<Frame>, persisted: seq<Frame>, hidden: Hidden)
    requires hidden(seed) || seed.kind in {"conversation_history", "conversation_state", "terminal_snapshot"}
    ensures var with_, without :=
        ReportOf(front + [seed] + rest, persisted, hidden), ReportOf(front + rest, persisted, hidden);
      && with_.passed == without.passed && with_.checked == without.checked
      && with_.reconciled == without.reconciled && |with_.missing| == |without.missing|
  {
    var kept := (f: Frame) => Relevant(f, hidden);
    FilterConcat(front + [seed], rest, kept);
    FilterConcat(front, [seed], kept);
    FilterConcat(front, rest, kept);
    FilterNone([seed], kept);
    assert RelevantFrames(front, hidden) + [] == RelevantFrames(front, hidden);
    SameFates(front + [seed] + rest, front + rest, persisted, hidden);
  }

  lemma SameFates(a: seq<Frame>, b: seq<Frame>, persisted: seq<Frame>, hidden: Hidden)
    requires RelevantFrames(a, hidden) == RelevantFrames(b, hidden)
    ensures |ReportOf(a, persisted, hidden).missing| == |ReportOf(b, persisted, hidden).missing|
  {
    assert a[0..] == a && b[0..] == b;
    FatesFromAreFates(persisted, a, hidden, 0, 0);
    FatesFromAreFates(persisted, b, hidden, 0, 0);
    ReportedCount(persisted, a, hidden, 0, 0);
    ReportedCount(persisted, b, hidden, 0, 0);
  }

  /** The fate of one frame, by what is persisted from the cursor on and before it. */
  lemma FateMeans(persisted: seq<Frame>, frame: Frame, cursor: nat)
    requires cursor <= |persisted|
    ensures var fate := FateOf(persisted, frame, cursor);
      && (fate.Matched? <==> frame in persisted[cursor..])
      && (fate.Reconciled? <==>
            && frame !in persisted[cursor..] && frame in persisted[..cursor]
            && frame.kind in {"available_commands", "plan", "agent_update"})
      && (fate.Matched? ==>
            && cursor <= fate.at < |persisted| && persisted[fate.at] == frame
            && frame !in persisted[cursor..fate.at])
  {
    var found := FindFrom(persisted, frame, cursor);
    if found.Some? {
      assert persisted[cursor..][found.value - cursor] == frame;
    }
  }

  /** Every checked frame was matched, reconciled or is missing, and each is counted in one place. */
  lemma ChecksAddUp(
    live: seq<Frame>, persisted: seq<Frame>, hidden: Hidden, matched: set<nat>, reconciled: set<nat>, lost: set<nat>)
    requires var fates := Fates(persisted, RelevantFrames(live, hidden), 0);
      && (forall k: nat :: k in matched <==> k < |fates| && fates[k].Matched?)
      && (forall k: nat :: k in reconciled <==> k < |fates| && fates[k].Reconciled?)
      && (forall k: nat :: k in lost <==> k < |fates| && fates[k].Missing?)
    ensures var r := ReportOf(live, persisted, hidden);
      && r.reconciled == |reconciled| && |r.missing| == |lost|
      && r.checked == |matched| + |reconciled| + |lost|
  {
    assert live[0..] == live;
    var fates := Fates(persisted, RelevantFrames(live, hidden), 0);
    FatesFromAreFates(persisted, live, hidden, 0, 0);
    ReportedCount(persisted, live, hidden, 0, 0);
    FilterCount(fates, (f: Fate) => f.Reconciled?, reconciled);
    FilterCount(fates, (f: Fate) => f.Missing?, lost);
    FilterCount(fates, (f: Fate) => f.Matched?, matched);
    ThreeKinds(fates);
  }

  lemma {:induction false} ThreeKinds(fates: seq<Fate>)
    ensures |fates| == CountReconciled(fates) + CountMissing(fates) + |Filter(fates, (f: Fate) => f.Matched?)|
  {
    if fates != [] {
      ThreeKinds(fates[1..]);
    }
  }

  // ----- greedy matching loses nothing -----

  /** `positions` place `xs` in `ys`, in order and at or after `from`. */
  ghost predicate Embeds(positions: seq<nat>, xs: seq<Frame>, ys: seq<Frame>, from: nat) {
    && |positions| == |xs|
    && (forall i :: 0 <= i < |xs| ==> from <= positions[i] < |ys| && ys[positions[i]] == xs[i])
    && (forall i, j :: 0 <= i < j < |xs| ==> positions[i] < positions[j])
  }

  ghost predicate OrderedSubsequence(xs: seq<Frame>, ys: seq<Frame>) {
    exists positions :: Embeds(positions, xs, ys, 0)
  }

  lemma {:induction false} GreedyFindsEmbedding(
    persisted: seq<Frame>, frames: seq<Frame>, positions: seq<nat>, cursor: nat)
    requires cursor <= |persisted| && Embeds(positions, frames, persisted, cursor)
    ensures NoneMissing(Fates(persisted, frames, cursor))
    decreases |frames|
  {
    if frames != [] {
      var first := positions[0];
      assert persisted[cursor..][first - cursor] == frames[0];
      var at := FindFrom(persisted, frames[0], cursor).value;
      assert at <= first;
      GreedyFindsEmbedding(persisted, frames[1..], positions[1..], at + 1);
    }
  }

  lemma PassWithoutSnapshotsEmbeds(persisted: seq<Frame>, frames: seq<Frame>)
    requires forall i :: 0 <= i < |frames| ==> !Snapshot(frames[i])
    requires NoneMissing(Fates(persisted, frames, 0))
    ensures OrderedSubsequence(frames, persisted)
  {
    var fates := Fates(persisted, frames, 0);
    PassIsWitnessed(persisted, frames);
    var positions := seq(|fates|, i requires 0 <= i < |fates| => fates[i].at);
    assert Embeds(positions, frames, persisted, 0);
  }

  /** Without snapshot types the check is exact: it finds nothing missing iff the frames are an ordered subsequence. */
  lemma ExactWithoutSnapshots(persisted: seq<Frame>, frames: seq<Frame>)
    requires forall i :: 0 <= i < |frames| ==> !Snapshot(frames[i])
    ensures NoneMissing(Fates(persisted, frames, 0)) <==> OrderedSubsequence(frames, persisted)
  {
    if OrderedSubsequence(frames, persisted) {
      var positions :| Embeds(positions, frames, persisted, 0);
      GreedyFindsEmbedding(persisted, frames, positions, 0);
    } else if NoneMissing(Fates(persisted, frames, 0)) {
      PassWithoutSnapshotsEmbeds(persisted, frames);
    }
  }

  // ----- with snapshots: exactly when greedy matching is still complete -----

  ghost predicate Accountable(persisted: seq<Frame>, frames: seq<Frame>) {
    exists fates :: Accounts(persisted, frames, fates, 0)
  }

  /** From the second relevant frame on, snapshots come only at the end. */
  ghost predicate SnapshotsTrail(frames: seq<Frame>) {
    forall j, k :: 1 <= j < k < |frames| && Snapshot(frames[j]) ==> Snapshot(frames[k])
  }

  lemma {:induction false} AccountOccurs(
    persisted: seq<Frame>, frames: seq<Frame>, fates: seq<Fate>, cursor: nat, i: nat)
    requires cursor <= |persisted| && Accounts(persisted, frames, fates, cursor) && i < |frames|
    ensures frames[i] in persisted
  {
    AccountStep(persisted, frames, fates, cursor, i);
  }

  lemma {:induction false} GreedyKeepsTrailing(persisted: seq<Frame>, frames: seq<Frame>, cursor: nat)
    requires cursor <= |persisted|
    requires forall i :: 0 <= i < |frames| ==> Snapshot(frames[i]) && frames[i] in persisted
    ensures NoneMissing(Fates(persisted, frames, cursor))
    decreases |frames|
  {
    if frames != [] {
      var fate := FateOf(persisted, frames[0], cursor);
      assert persisted == persisted[..cursor] + persisted[cursor..];
      assert !fate.Missing?;
      GreedyKeepsTrailing(persisted, frames[1..], NextCursor(fate, cursor));
    }
  }

  lemma {:induction false} GreedyStaysAhead(
    persisted: seq<Frame>, frames: seq<Frame>, fates: seq<Fate>, cursor: nat, behind: nat)
    requires cursor <= behind <= |persisted| && Accounts(persisted, frames, fates, behind)
    requires forall j, k :: 0 <= j < k < |frames| && Snapshot(frames[j]) ==> Snapshot(frames[k])
    ensures NoneMissing(Fates(persisted, frames, cursor))
    decreases |frames|
  {
    if frames != [] {
      if Snapshot(frames[0]) {
        forall i | 0 <= i < |frames| ensures Snapshot(frames[i]) && frames[i] in persisted {
          AccountOccurs(persisted, frames, fates, behind, i);
        }
        GreedyKeepsTrailing(persisted, frames, cursor);
      } else {
        var at := fates[0].at;
        assert persisted[cursor..][at - cursor] == frames[0];
        var found := FindFrom(persisted, frames[0], cursor).value;
        assert found <= at;
        GreedyStaysAhead(persisted, frames[1..], fates[1..], found + 1, at + 1);
      }
    }
  }

  lemma TrailingIsComplete(persisted: seq<Frame>, frames: seq<Frame>, fates: seq<Fate>)
    requires SnapshotsTrail(frames) && Accounts(persisted, frames, fates, 0)
    ensures NoneMissing(Fates(persisted, frames, 0))
  {
    if frames != [] {
      var at := fates[0].at;
      assert persisted[0..][at] == frames[0];
      var found := FindFrom(persisted, frames[0], 0).value;
      forall j, k | 0 <= j < k < |frames[1..]| && Snapshot(frames[1..][j]) ensures Snapshot(frames[1..][k]) {
        assert frames[1..][j] == frames[j + 1] && frames[1..][k] == frames[k + 1];
      }
      GreedyStaysAhead(persisted, frames[1..], fates[1..], found + 1, at + 1);
    }
  }

  /** How many frames can never be reconciled. */
  ghost function CountFirm(frames: seq<Frame>): nat {
    |Filter(frames, (f: Frame) => !Snapshot(f))|
  }

  lemma CountFirmConcat(xs: seq<Frame>, ys: seq<Frame>)
    ensures CountFirm(xs + ys) == CountFirm(xs) + CountFirm(ys)
  {
    FilterConcat(xs, ys, (f: Frame) => !Snapshot(f));
  }

  lemma FirmSplit(frames: seq<Frame>, from: nat, at: nat)
    requires from <= at < |frames|
    ensures CountFirm(frames[from..])
      == CountFirm(frames[from..at]) + (if Snapshot(frames[at]) then 0 else 1) + CountFirm(frames[at + 1..])
    ensures frames[0..] == frames && frames[0..0] == []
  {
    assert frames[from..] == frames[from..at] + ([frames[at]] + frames[at + 1..]);
    CountFirmConcat(frames[from..at], [frames[at]] + frames[at + 1..]);
    CountFirmConcat([frames[at]], frames[at + 1..]);
  }

  /** Frames that are all accounted for need as many firm ones left in the log. */
  lemma {:induction false} FirmFramesFit(persisted: seq<Frame>, frames: seq<Frame>, cursor: nat)
    requires cursor <= |persisted| && NoneMissing(Fates(persisted, frames, cursor))
    ensures CountFirm(frames) <= CountFirm(persisted[cursor..])
    decreases |frames|
  {
    if frames != [] {
      var fates := Fates(persisted, frames, cursor);
      var fate := FateOf(persisted, frames[0], cursor);
      assert fates[0] == fate;
      NoneMissingTail(fates);
      FirmFramesFit(persisted, frames[1..], NextCursor(fate, cursor));
      FirmSplit(frames, 0, 0);
      if fate.Matched? {
        FirmSplit(persisted, cursor, fate.at);
      }
    }
  }

  /** Frames laid out one after the other are matched one after the other. */
  lemma {:induction false} GreedyWalks(persisted: seq<Frame>, frames: seq<Frame>, rest: seq<Frame>, cursor: nat)
    requires cursor + |frames| <= |persisted| && persisted[cursor..cursor + |frames|] == frames
    ensures NoneMissing(Fates(persisted, frames + rest, cursor))
      ==> NoneMissing(Fates(persisted, rest, cursor + |frames|))
    decreases |frames|
  {
    if frames == [] {
      assert frames + rest == rest;
    } else {
      assert persisted[cursor] == frames[0];
      assert (frames + rest)[1..] == frames[1..] + rest;
      var fates := Fates(persisted, frames + rest, cursor);
      assert fates == [Matched(cursor)] + Fates(persisted, frames[1..] + rest, cursor + 1);
      GreedyWalks(persisted, frames[1..], rest, cursor + 1);
      if NoneMissing(fates) {
        NoneMissingTail(fates);
        assert fates[1..] == Fates(persisted, frames[1..] + rest, cursor + 1);
      }
    }
  }

  /** `n` matches in a row, the first at `from`. */
  ghost function MatchedRun(from: nat, n: nat): (fates: seq<Fate>)
    ensures |fates| == n
    decreases n
  {
    if n == 0 then [] else [Matched(from)] + MatchedRun(from + 1, n - 1)
  }

  lemma {:induction false} WalkAccounts(
    persisted: seq<Frame>, frames: seq<Frame>, rest: seq<Frame>, fates: seq<Fate>, cursor: nat)
    requires cursor + |frames| <= |persisted| && persisted[cursor..cursor + |frames|] == frames
    requires Accounts(persisted, rest, fates, cursor + |frames|)
    ensures Accounts(persisted, frames + rest, MatchedRun(cursor, |frames|) + fates, cursor)
    decreases |frames|
  {
    var run := MatchedRun(cursor, |frames|);
    if frames == [] {
      assert frames + rest == rest && run + fates == fates;
    } else {
      assert persisted[cursor] == frames[0];
      assert (frames + rest)[1..] == frames[1..] + rest;
      assert (run + fates)[1..] == MatchedRun(cursor + 1, |frames| - 1) + fates;
      WalkAccounts(persisted, frames[1..], rest, fates, cursor + 1);
    }
  }

  /** A log on which `front`, a reconciled `snap` and `rest` are all accounted for. */
  ghost function TrapLog(front: seq<Frame>, snap: Frame, rest: seq<Frame>): seq<Frame> {
    (if snap in front then [] else [snap]) + front + rest + [snap]
  }

  lemma TrapAccountable(front: seq<Frame>, snap: Frame, rest: seq<Frame>)
    requires front != [] && Snapshot(snap)
    ensures Accountable(TrapLog(front, snap, rest), front + ([snap] + rest))
  {
    var log := TrapLog(front, snap, rest);
    var start := if snap in front then 0 else 1;
    var mid := start + |front|;
    assert log[start..mid] == front;
    assert log[mid..mid + |rest|] == rest;
    assert snap in log[..mid] by {
      if snap in front {
        assert log[..mid] == front;
      } else {
        assert log[..mid][0] == snap;
      }
    }
    assert Accounts(log, [], [], mid + |rest|);
    WalkAccounts(log, rest, [], [], mid);
    var tail := MatchedRun(mid, |rest|);
    assert rest + [] == rest && tail + [] == tail;
    assert ([snap] + rest)[1..] == rest && ([Reconciled] + tail)[1..] == tail;
    assert Accounts(log, [snap] + rest, [Reconciled] + tail, mid);
    WalkAccounts(log, front, [snap] + rest, [Reconciled] + tail, start);
    StartEarlier(log, front + ([snap] + rest), MatchedRun(start, |front|) + ([Reconciled] + tail), start);
  }

  lemma StartEarlier(persisted: seq<Frame>, frames: seq<Frame>, fates: seq<Fate>, cursor: nat)
    requires cursor <= |persisted| && Accounts(persisted, frames, fates, cursor)
    requires frames != [] && fates != [] && fates[0].Matched?
    ensures Accountable(persisted, frames)
  {
    assert Accounts(persisted, frames, fates, 0);
  }

  lemma TrapGreedyStart(front: seq<Frame>, snap: Frame, rest: seq<Frame>)
    requires front != []
    ensures var log := TrapLog(front, snap, rest);
      var frames := front + ([snap] + rest);
      Fates(log, frames, 0) == Fates(log, frames, if snap in front then 0 else 1)
  {
    var log := TrapLog(front, snap, rest);
    if snap !in front {
      assert front[0] in front;
      assert log[0] == snap && log[1] == front[0];
      assert FindFrom(log, front[0], 0) == FindFrom(log, front[0], 1) == Some(1);
    }
  }

  /** Jumping over the first firm frame leaves fewer firm frames than are still needed. */
  lemma SkippedFirmFrame(log: seq<Frame>, rest: seq<Frame>, snap: Frame, mid: nat, at: nat)
    requires mid < at < |log| && log[mid..] == rest + [snap]
    requires rest != [] && Snapshot(snap) && !Snapshot(rest[0])
    ensures CountFirm(log[at + 1..]) < CountFirm(rest)
  {
    CountFirmConcat(rest, [snap]);
    assert log[mid] == log[mid..][0] == rest[0];
    assert log[mid..] == [rest[0]] + (log[mid + 1..at + 1] + log[at + 1..]);
    CountFirmConcat([rest[0]], log[mid + 1..at + 1] + log[at + 1..]);
    CountFirmConcat(log[mid + 1..at + 1], log[at + 1..]);
  }

  lemma SnapFoundLater(log: seq<Frame>, snap: Frame, rest: seq<Frame>, mid: nat) returns (at: nat)
    requires mid < |log| && log[mid..] == rest + [snap] && rest != [] && snap != rest[0]
    ensures FindFrom(log, snap, mid) == Some(at) && mid < at < |log|
  {
    assert log[mid] == log[mid..][0] == rest[0];
    assert log[mid..][|rest|] == snap;
    at := FindFrom(log, snap, mid).value;
  }

  lemma NextFate(log: seq<Frame>, frame: Frame, rest: seq<Frame>, cursor: nat, at: nat)
    requires cursor <= |log| && FindFrom(log, frame, cursor) == Some(at)
    requires NoneMissing(Fates(log, [frame] + rest, cursor))
    ensures NoneMissing(Fates(log, rest, at + 1))
  {
    assert ([frame] + rest)[1..] == rest;
    NoneMissingTail(Fates(log, [frame] + rest, cursor));
  }

  lemma TooFewFirmFrames(log: seq<Frame>, frames: seq<Frame>, cursor: nat)
    requires cursor <= |log| && CountFirm(log[cursor..]) < CountFirm(frames)
    ensures !NoneMissing(Fates(log, frames, cursor))
  {
    if NoneMissing(Fates(log, frames, cursor)) {
      FirmFramesFit(log, frames, cursor);
    }
  }

  lemma JumpLeavesTooFew(log: seq<Frame>, snap: Frame, rest: seq<Frame>, mid: nat, at: nat)
    requires mid <= at < |log| && FindFrom(log, snap, mid) == Some(at)
    requires CountFirm(log[at + 1..]) < CountFirm(rest)
    ensures !NoneMissing(Fates(log, [snap] + rest, mid))
  {
    TooFewFirmFrames(log, rest, at + 1);
    if NoneMissing(Fates(log, [snap] + rest, mid)) {
      NextFate(log, snap, rest, mid, at);
    }
  }

  lemma GreedyJumps(log: seq<Frame>, snap: Frame, rest: seq<Frame>, mid: nat)
    requires mid < |log| && log[mid..] == rest + [snap]
    requires rest != [] && Snapshot(snap) && !Snapshot(rest[0])
    ensures !NoneMissing(Fates(log, [snap] + rest, mid))
  {
    var at := SnapFoundLater(log, snap, rest, mid);
    SkippedFirmFrame(log, rest, snap, mid, at);
    JumpLeavesTooFew(log, snap, rest, mid, at);
  }

  lemma TrapParts(front: seq<Frame>, snap: Frame, rest: seq<Frame>)
    ensures var log := TrapLog(front, snap, rest);
      var start := if snap in front then 0 else 1;
      var mid := start + |front|;
      mid <= |log| && log[start..mid] == front && log[mid..] == rest + [snap]
  {
    var lead := if snap in front then [] else [snap];
    assert TrapLog(front, snap, rest) == lead + front + rest + [snap];
  }

  lemma TrapGreedyMisses(front: seq<Frame>, snap: Frame, rest: seq<Frame>)
    requires front != [] && rest != [] && Snapshot(snap) && !Snapshot(rest[0])
    ensures !NoneMissing(Fates(TrapLog(front, snap, rest), front + ([snap] + rest), 0))
  {
    var log := TrapLog(front, snap, rest);
    var start := if snap in front then 0 else 1;
    var mid := start + |front|;
    TrapGreedyStart(front, snap, rest);
    TrapParts(front, snap, rest);
    GreedyJumps(log, snap, rest, mid);
    GreedyWalks(log, front, [snap] + rest, start);
  }

  lemma {:induction false} MiddleSnapshotDefeatsGreedy(frames: seq<Frame>, j: nat, k: nat)
    returns (persisted: seq<Frame>)
    requires 1 <= j < k < |frames| && Snapshot(frames[j]) && !Snapshot(frames[k])
    ensures Accountable(persisted, frames) && !NoneMissing(Fates(persisted, frames, 0))
    decreases k
  {
    if Snapshot(frames[k - 1]) {
      var front, snap, rest := frames[..k - 1], frames[k - 1], frames[k..];
      persisted := TrapLog(front, snap, rest);
      TrapAccountable(front, snap, rest);
      TrapGreedyMisses(front, snap, rest);
      assert frames == front + ([snap] + rest);
    } else {
      persisted := MiddleSnapshotDefeatsGreedy(frames, j, k - 1);
    }
  }

  /**
   Greedy matching with reconciliation accepts every accountable log exactly for those captures
   whose snapshots, the first frame aside, all come last.
   */
  lemma GreedyIsCompleteIff(frames: seq<Frame>)
    ensures (forall persisted :: Accountable(persisted, frames) ==> NoneMissing(Fates(persisted, frames, 0)))
      <==> SnapshotsTrail(frames)
  {
    if SnapshotsTrail(frames) {
      forall persisted | Accountable(persisted, frames) ensures NoneMissing(Fates(persisted, frames, 0)) {
        var fates :| Accounts(persisted, frames, fates, 0);
        TrailingIsComplete(persisted, frames, fates);
      }
    } else {
      var j, k :| 1 <= j < k < |frames| && Snapshot(frames[j]) && !Snapshot(frames[k]);
      var persisted := MiddleSnapshotDefeatsGreedy(frames, j, k);
    }
  }
}
