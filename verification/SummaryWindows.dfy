/** What the daily summary's saved state makes of log bytes, time windows and counters over many runs. */
module SummaryWindows {
  import opened Sequences

  // ----- bytes of a log without timestamps -----

  /** Where to start reading a growing log, and the new offset; a shrunk log is read from its start. */
  function NewLogBytes(size: nat, offset: Option<nat>): (nat, nat) {
    if offset.None? || offset.value > size then (if offset.None? then size else 0, size)
    else (offset.value, size)
  }

  /** From the offset on when the log still reaches it, from its start when it does not, and nothing without one. */
  lemma NewBytesAre(size: nat, offset: Option<nat>)
    ensures NewLogBytes(size, offset).1 == size
    ensures offset.None? ==> NewLogBytes(size, offset).0 == size
    ensures offset.Some? ==> NewLogBytes(size, offset).0 == if offset.value <= size then offset.value else 0
  {
  }

  /** The saved part of one host's entry, and the time of the last delivered summary. */
  datatype Saved = Saved(offset: Option<nat>, countedFrom: Option<int>, at: Option<int>)

  /** A log's bytes; `log[i]` marks a byte that ends an error line. */
  type Log = seq<bool>

  /**
   One run of the job: what each outside step does, the log at that time, and the logs that were
   rotated away since the run before, as they finally were.
   */
  datatype Run = Run(when: int, log: Log, ended: seq<Log>, sizeRead: bool, counted: bool, sent: bool)

  /** The byte range and the time window one count covers, and the errors it found. */
  datatype Count = Count(start: nat, end: nat, began: int, until: int, errors: nat)

  datatype Counting = Counted(count: Count) | FirstSeen | Unread

  function Errors(log: Log, start: nat, end: nat): nat
    requires start <= end <= |log|
    decreases end - start
  {
    if start == end then 0 else Errors(log, start, end - 1) + (if log[end - 1] then 1 else 0)
  }

  function Since(s: Saved, when: int, firstWindow: int): int {
    if s.at.Some? then s.at.value else when - firstWindow
  }

  /** `_server_errors` for such a log: the counting, and the entry as it leaves it. */
  function ServerErrors(s: Saved, run: Run, firstWindow: int): (Counting, Saved) {
    if !run.sizeRead then (Unread, s)
    else if s.offset.None? then (FirstSeen, s.(offset := Some(|run.log|), countedFrom := Some(run.when)))
    else if !run.counted then (Unread, s)
    else
      var (start, end) := NewLogBytes(|run.log|, s.offset);
      var began := if s.countedFrom.Some? then s.countedFrom.value else Since(s, run.when, firstWindow);
      (Counted(Count(start, end, began, run.when, Errors(run.log, start, end))),
       s.(offset := Some(end), countedFrom := Some(run.when)))
  }

  /** A run gathers on a copy and saves it only when the message was sent. */
  function AfterRun(s: Saved, run: Run, firstWindow: int): Saved {
    if run.sent then ServerErrors(s, run, firstWindow).1.(at := Some(run.when)) else s
  }

  class DailyJob {
    var saved: Saved
    const firstWindow: int

    constructor (firstWindow: int)
      ensures saved == Saved(None, None, None) && this.firstWindow == firstWindow
    {
      this.firstWindow := firstWindow;
      this.saved := Saved(None, None, None);
    }

    /** One run: gather, send, and only then save. */
    method Deliver(run: Run) returns (delivered: bool, counting: Counting)
      modifies this`saved
      ensures saved == AfterRun(old(saved), run, firstWindow)
      ensures delivered == run.sent && counting == ServerErrors(old(saved), run, firstWindow).0
    {
      var state := saved;
      if !run.sizeRead {
        counting := Unread;
      } else if state.offset.None? {
        state := state.(offset := Some(|run.log|), countedFrom := Some(run.when));
        counting := FirstSeen;
      } else if !run.counted {
        counting := Unread;
      } else {
        var (start, end) := NewLogBytes(|run.log|, state.offset);
        var began := if state.countedFrom.Some? then state.countedFrom.value else Since(state, run.when, firstWindow);
        counting := Counted(Count(start, end, began, run.when, Errors(run.log, start, end)));
        state := state.(offset := Some(end), countedFrom := Some(run.when));
      }
      if !run.sent {
        return false, counting;
      }
      saved := state.(at := Some(run.when));
      return true, counting;
    }
  }

  function AfterRuns(s: Saved, runs: seq<Run>, firstWindow: int): Saved
    decreases |runs|
  {
    if runs == [] then s else AfterRuns(AfterRun(s, runs[0], firstWindow), runs[1..], firstWindow)
  }

  /** What the delivered summaries counted, oldest first. */
  function Delivered(s: Saved, runs: seq<Run>, firstWindow: int): seq<Count>
    decreases |runs|
  {
    if runs == [] then []
    else
      var counting := ServerErrors(s, runs[0], firstWindow).0;
      var now := if runs[0].sent && counting.Counted? then [counting.count] else [];
      now + Delivered(AfterRun(s, runs[0], firstWindow), runs[1..], firstWindow)
  }

  /** The ranges follow one another without gap or overlap, and so do their time windows. */
  ghost predicate Tile(counts: seq<Count>, start: nat, end: nat, began: int, until: int) {
    if counts == [] then start == end && began == until
    else
      && counts[0].start == start && start <= counts[0].end && counts[0].began == began
      && Tile(counts[1..], counts[0].end, end, counts[0].until, until)
  }

  function TotalErrors(counts: seq<Count>): nat {
    if counts == [] then 0 else counts[0].errors + TotalErrors(counts[1..])
  }

  /** The log only grows from run to run, starting from `base`. */
  ghost predicate Grows(base: Log, runs: seq<Run>)
    decreases |runs|
  {
    runs != [] ==> base <= runs[0].log && Grows(runs[0].log, runs[1..])
  }

  lemma {:induction false} ErrorsSplit(log: Log, start: nat, mid: nat, end: nat)
    requires start <= mid <= end <= |log|
    ensures Errors(log, start, end) == Errors(log, start, mid) + Errors(log, mid, end)
    decreases end - mid
  {
    if mid < end {
      ErrorsSplit(log, start, mid, end - 1);
    }
  }

  lemma {:induction false} ErrorsPrefix(log: Log, grown: Log, start: nat, end: nat)
    requires start <= end <= |log| && log <= grown
    ensures Errors(log, start, end) == Errors(grown, start, end)
    decreases end - start
  {
    if start < end {
      ErrorsPrefix(log, grown, start, end - 1);
    }
  }

  /** The delivered counts are those of the first run, if any, and then the rest. */
  lemma DeliveredStep(s: Saved, runs: seq<Run>, firstWindow: int)
    requires runs != []
    ensures var rest := Delivered(AfterRun(s, runs[0], firstWindow), runs[1..], firstWindow);
      var counting := ServerErrors(s, runs[0], firstWindow).0;
      var all := Delivered(s, runs, firstWindow);
      if runs[0].sent && counting.Counted? then all != [] && all[0] == counting.count && all[1..] == rest
      else all == rest
  {
  }

  function OffsetOf(s: Saved): nat { if s.offset.Some? then s.offset.value else 0 }

  predicate Counts(s: Saved, run: Run, firstWindow: int) {
    run.sent && ServerErrors(s, run, firstWindow).0.Counted?
  }

  /** At no delivered count is the log shorter than it was at the one before. */
  predicate NeverShrinks(s: Saved, runs: seq<Run>, firstWindow: int)
    decreases |runs|
  {
    runs == [] || (
      && (Counts(s, runs[0], firstWindow) ==> OffsetOf(s) <= |runs[0].log|)
      && NeverShrinks(AfterRun(s, runs[0], firstWindow), runs[1..], firstWindow))
  }

  /**
   Over any runs with failed sizes, counts and sends: the delivered byte ranges tile from the primed
   offset to the saved one, and their time windows from the priming on, iff no count finds the log shrunk.
   */
  lemma {:induction false} DeliveredTileIff(s: Saved, runs: seq<Run>, firstWindow: int)
    requires s.offset.Some? && s.countedFrom.Some?
    ensures var e := AfterRuns(s, runs, firstWindow);
      && e.offset.Some? && e.countedFrom.Some?
      && (NeverShrinks(s, runs, firstWindow) <==>
            Tile(
              Delivered(s, runs, firstWindow), s.offset.value, e.offset.value, s.countedFrom.value,
              e.countedFrom.value))
    decreases |runs|
  {
    if runs != [] {
      DeliveredStep(s, runs, firstWindow);
      DeliveredTileIff(AfterRun(s, runs[0], firstWindow), runs[1..], firstWindow);
    }
  }

  /** A log that only grows is never found shrunk. */
  lemma {:induction false} GrowingLogTiles(s: Saved, runs: seq<Run>, firstWindow: int, base: Log)
    requires s.offset.Some? && s.offset.value <= |base| && Grows(base, runs)
    ensures NeverShrinks(s, runs, firstWindow)
    decreases |runs|
  {
    if runs != [] {
      GrowingLogTiles(AfterRun(s, runs[0], firstWindow), runs[1..], firstWindow, runs[0].log);
    }
  }

  /** No error is counted twice or missed: the delivered counts add up to the errors in exactly the covered bytes. */
  lemma {:induction false} DeliveredErrors(s: Saved, runs: seq<Run>, firstWindow: int, base: Log, whole: Log)
    requires s.offset.Some? && s.offset.value <= |base| && base <= whole && Grows(base, runs)
    requires forall i :: 0 <= i < |runs| ==> runs[i].log <= whole
    ensures var e := AfterRuns(s, runs, firstWindow);
      && e.offset.Some? && s.offset.value <= e.offset.value <= |whole|
      && TotalErrors(Delivered(s, runs, firstWindow)) == Errors(whole, s.offset.value, e.offset.value)
    decreases |runs|
  {
    if runs != [] {
      var next := AfterRun(s, runs[0], firstWindow);
      DeliveredStep(s, runs, firstWindow);
      DeliveredErrors(next, runs[1..], firstWindow, runs[0].log, whole);
      var e := AfterRuns(s, runs, firstWindow);
      ErrorsSplit(whole, s.offset.value, next.offset.value, e.offset.value);
      ErrorsPrefix(runs[0].log, whole, s.offset.value, next.offset.value);
    }
  }

  /** What is counted as errors: the bytes of the range that end an error line. */
  lemma {:induction false} ErrorsAreCounted(log: Log, start: nat, end: nat, positions: set<nat>)
    requires start <= end <= |log|
    requires forall i: nat :: i in positions <==> start <= i < end && log[i]
    ensures Errors(log, start, end) == |positions|
    decreases end - start
  {
    if start == end {
      assert positions == {};
    } else {
      ErrorsAreCounted(log, start, end - 1, positions - {end - 1});
    }
  }

  /**
   A log seen for the first time is primed at its present size and time: nothing is reported for it, and
   the next count, whatever failed in between, covers exactly what was written from then on.
   */
  lemma FirstSightPrimes(s: Saved, first: Run, failed: seq<Run>, next: Run, firstWindow: int)
    requires s.offset.None? && first.sizeRead && first.sent
    requires forall i :: 0 <= i < |failed| ==> !failed[i].sizeRead || !failed[i].counted || !failed[i].sent
    requires next.sizeRead && next.counted && next.sent && first.log <= next.log
    ensures Delivered(s, [first] + failed + [next], firstWindow)
      == [Count(|first.log|, |next.log|, first.when, next.when, Errors(next.log, |first.log|, |next.log|))]
  {
    var runs := [first] + failed + [next];
    var primed := AfterRun(s, first, firstWindow);
    DeliveredStep(s, runs, firstWindow);
    assert runs[1..] == failed + [next];
    FailedRunsKeep(primed, failed, next, firstWindow);
  }

  /** Runs that do not get a count delivered leave offset and start of the window as they were. */
  lemma {:induction false} FailedRunsKeep(s: Saved, failed: seq<Run>, next: Run, firstWindow: int)
    requires s.offset.Some? && s.countedFrom.Some? && s.offset.value <= |next.log|
    requires forall i :: 0 <= i < |failed| ==> !failed[i].sizeRead || !failed[i].counted || !failed[i].sent
    requires next.sizeRead && next.counted && next.sent
    ensures Delivered(s, failed + [next], firstWindow)
      == [Count(
           s.offset.value, |next.log|, s.countedFrom.value, next.when,
           Errors(next.log, s.offset.value, |next.log|))]
    decreases |failed|
  {
    var runs := failed + [next];
    DeliveredStep(s, runs, firstWindow);
    if failed == [] {
      assert runs[1..] == [];
    } else {
      assert runs[0] == failed[0] && runs[1..] == failed[1..] + [next];
      FailedRunsKeep(AfterRun(s, failed[0], firstWindow), failed[1..], next, firstWindow);
    }
  }

  // ----- rotated logs -----

  /** As `Tile`, but a range starts at zero when the log has become shorter than the last offset. */
  ghost predicate Chain(counts: seq<Count>, start: nat, end: nat, began: int, until: int) {
    if counts == [] then start == end && began == until
    else
      && counts[0].start == (if start <= counts[0].end then start else 0) && counts[0].began == began
      && Chain(counts[1..], counts[0].end, end, counts[0].until, until)
  }

  /** Whatever happens to the log: each range starts where the last one ended, or at zero when that is past its end. */
  lemma {:induction false} DeliveredChain(s: Saved, runs: seq<Run>, firstWindow: int)
    requires s.offset.Some? && s.countedFrom.Some?
    ensures var e := AfterRuns(s, runs, firstWindow);
      && e.offset.Some? && e.countedFrom.Some?
      && Chain(
        Delivered(s, runs, firstWindow), s.offset.value, e.offset.value, s.countedFrom.value, e.countedFrom.value)
    decreases |runs|
  {
    if runs != [] {
      DeliveredStep(s, runs, firstWindow);
      DeliveredChain(AfterRun(s, runs[0], firstWindow), runs[1..], firstWindow);
    }
  }

  /** Each run finds the last log longer, or finds its longer final form among the rotated ones. */
  ghost predicate Follows(base: Log, runs: seq<Run>)
    decreases |runs|
  {
    runs != [] ==>
      && base <= (if runs[0].ended == [] then runs[0].log else runs[0].ended[0])
      && Follows(runs[0].log, runs[1..])
  }

  function ErrorsFrom(log: Log, start: nat): nat {
    if start <= |log| then Errors(log, start, |log|) else 0
  }

  /** Errors in ended logs: in the first from `start` on, in each later one from its beginning. */
  function EndedErrors(start: nat, lives: seq<Log>): nat
    decreases |lives|
  {
    if lives == [] then 0 else ErrorsFrom(lives[0], start) + EndedErrors(0, lives[1..])
  }

  /** The errors written since the saved offset: in the rotated logs, and in the present one. */
  function Written(start: nat, lives: seq<Log>, log: Log): nat {
    EndedErrors(start, lives) + ErrorsFrom(log, if lives == [] then start else 0)
  }

  /** The errors of a log that was not rotated, of one that was, and of any number that came and went in between. */
  lemma WrittenIsAllOfIt(start: nat, gone: Log, between: seq<Log>, log: Log)
    requires start <= |gone|
    ensures start <= |log| ==> Written(start, [], log) == Errors(log, start, |log|)
    ensures Written(start, [gone] + between, log)
      == Errors(gone, start, |gone|) + EndedErrors(0, between) + Errors(log, 0, |log|)
    ensures between != [] ==>
      EndedErrors(0, between) == Errors(between[0], 0, |between[0]|) + EndedErrors(0, between[1..])
    ensures EndedErrors(0, []) == 0
  {
    var lives := [gone] + between;
    assert lives[0] == gone && lives[1..] == between;
  }

  /** What a count after a rotation leaves out: the rest of the old logs, and the new one up to the old offset. */
  function Lost(start: nat, lives: seq<Log>, log: Log): nat {
    if lives == [] then 0
    else EndedErrors(start, lives) + (if start <= |log| then Errors(log, 0, start) else 0)
  }

  /** The errors written up to the last delivered count; `pending` were rotated away since the one before. */
  function TotalWritten(s: Saved, pending: seq<Log>, runs: seq<Run>, firstWindow: int): nat
    decreases |runs|
  {
    if runs == [] then 0
    else
      var lives, next := pending + runs[0].ended, AfterRun(s, runs[0], firstWindow);
      if Counts(s, runs[0], firstWindow) then
        Written(OffsetOf(s), lives, runs[0].log) + TotalWritten(next, [], runs[1..], firstWindow)
      else TotalWritten(next, lives, runs[1..], firstWindow)
  }

  function TotalLost(s: Saved, pending: seq<Log>, runs: seq<Run>, firstWindow: int): nat
    decreases |runs|
  {
    if runs == [] then 0
    else
      var lives, next := pending + runs[0].ended, AfterRun(s, runs[0], firstWindow);
      if Counts(s, runs[0], firstWindow) then
        Lost(OffsetOf(s), lives, runs[0].log) + TotalLost(next, [], runs[1..], firstWindow)
      else TotalLost(next, lives, runs[1..], firstWindow)
  }

  lemma OneCount(s: Saved, lives: seq<Log>, run: Run, firstWindow: int)
    requires s.offset.Some? && Counts(s, run, firstWindow)
    requires lives == [] ==> s.offset.value <= |run.log|
    ensures ServerErrors(s, run, firstWindow).0.count.errors + Lost(s.offset.value, lives, run.log)
      == Written(s.offset.value, lives, run.log)
  {
    var offset := s.offset.value;
    if offset <= |run.log| {
      ErrorsSplit(run.log, 0, offset, |run.log|);
    }
  }

  /** The saved offset lies within the log it was taken in, as that log is now known. */
  ghost predicate Within(s: Saved, pending: seq<Log>, base: Log) {
    s.offset.Some? && s.offset.value <= |if pending == [] then base else pending[0]|
  }

  lemma WithinNext(s: Saved, pending: seq<Log>, runs: seq<Run>, base: Log)
    requires runs != [] && Within(s, pending, base) && Follows(base, runs)
    ensures Within(s, pending + runs[0].ended, runs[0].log)
  {
    var lives := pending + runs[0].ended;
    if pending != [] {
      assert lives[0] == pending[0];
    } else {
      assert lives == runs[0].ended;
    }
  }

  /** Over any runs and rotations, delivered counts and lost errors add up to what was written. */
  lemma {:induction false} DeliveredPlusLost(
    s: Saved, pending: seq<Log>, runs: seq<Run>, firstWindow: int, base: Log)
    requires Within(s, pending, base) && Follows(base, runs)
    ensures TotalErrors(Delivered(s, runs, firstWindow)) + TotalLost(s, pending, runs, firstWindow)
      == TotalWritten(s, pending, runs, firstWindow)
    decreases |runs|
  {
    if runs != [] {
      var lives, next := pending + runs[0].ended, AfterRun(s, runs[0], firstWindow);
      DeliveredStep(s, runs, firstWindow);
      WithinNext(s, pending, runs, base);
      if Counts(s, runs[0], firstWindow) {
        OneCount(s, lives, runs[0], firstWindow);
        DeliveredPlusLost(next, [], runs[1..], firstWindow, runs[0].log);
      } else {
        assert next.offset == s.offset;
        DeliveredPlusLost(next, lives, runs[1..], firstWindow, runs[0].log);
      }
    }
  }

  // ----- the summaries' own windows -----

  datatype Window = Window(since: int, until: int)

  /** The windows of the delivered summaries. */
  function Windows(s: Saved, runs: seq<Run>, firstWindow: int): seq<Window>
    decreases |runs|
  {
    if runs == [] then []
    else
      var now := if runs[0].sent then [Window(Since(s, runs[0].when, firstWindow), runs[0].when)] else [];
      now + Windows(AfterRun(s, runs[0], firstWindow), runs[1..], firstWindow)
  }

  /** A window is never sent twice or skipped: each one starts where the one before it ended. */
  lemma {:induction false} WindowsTile(s: Saved, runs: seq<Run>, firstWindow: int)
    ensures var ws := Windows(s, runs, firstWindow);
      && (forall i :: 0 < i < |ws| ==> ws[i].since == ws[i - 1].until)
      && (ws != [] ==> ws[0].since == if s.at.Some? then s.at.value else ws[0].until - firstWindow)
      && (ws != [] ==> AfterRuns(s, runs, firstWindow).at == Some(ws[|ws| - 1].until))
      && (ws == [] ==> AfterRuns(s, runs, firstWindow).at == s.at)
    decreases |runs|
  {
    if runs != [] {
      WindowsTile(AfterRun(s, runs[0], firstWindow), runs[1..], firstWindow);
    }
  }

  // ----- counters that a gateway restart resets -----

  const PUSH_COUNTERS := {
    "alerts_sent", "alerts_failed", "alerts_suppressed", "live_activity_updates", "live_activity_starts",
    "widget_reloads", "background_wakes", "apns_rejections", "tokens_pruned", "node_failures", "loop_errors"}

  type Stats = map<string, int>

  function Get(stats: Stats, key: string): int {
    if key in stats then stats[key] else 0
  }

  function CounterMoves(now: Stats, before: Option<Stats>, restarted: bool): Stats {
    if before.None? || restarted then map key | key in PUSH_COUNTERS :: Get(now, key)
    else map key | key in PUSH_COUNTERS :: Get(now, key) - Get(before.value, key)
  }

  /** Each of the gateway's counters is reported, as what it reads less what it read before, if that still counts. */
  lemma EveryCounterIsReported(now: Stats, before: Option<Stats>, restarted: bool, key: string)
    ensures key in CounterMoves(now, before, restarted) <==> key in {
      "alerts_sent", "alerts_failed", "alerts_suppressed", "live_activity_updates", "live_activity_starts",
      "widget_reloads", "background_wakes", "apns_rejections", "tokens_pruned", "node_failures", "loop_errors"}
    ensures key in CounterMoves(now, before, restarted) ==>
      var newer := if key in now then now[key] else 0;
      var older := if before.Some? && key in before.value then before.value[key] else 0;
      CounterMoves(now, before, restarted)[key] == if restarted then newer else newer - older
  {
  }

  /**
   One delivered summary: the push status if it could be read, whether the gateway's log could be,
   and the counters each gateway life that ended in the window had reached when it ended.
   */
  datatype Observed = Observed(stats: Option<Stats>, logRead: bool, ended: seq<Stats>)

  predicate SeesRestart(o: Observed) { o.logRead && o.ended != [] }

  /** The saved push status after a summary: only a readable one replaces it. */
  function NextStats(before: Option<Stats>, o: Observed): Option<Stats> {
    if o.stats.Some? then o.stats else before
  }

  /** The moves of `key` one summary reports. */
  function Moved(before: Option<Stats>, o: Observed, key: string): int {
    if o.stats.Some? then Get(CounterMoves(o.stats.value, before, SeesRestart(o)), key) else 0
  }

  /** The moves of `key` reported over a history of summaries. */
  function Reported(before: Option<Stats>, history: seq<Observed>, key: string): int
    decreases |history|
  {
    if history == [] then 0
    else Moved(before, history[0], key) + Reported(NextStats(before, history[0]), history[1..], key)
  }

  /** The last values read of each gateway life that a seen restart ended. */
  function EndedLives(before: Option<Stats>, history: seq<Observed>, key: string): int
    decreases |history|
  {
    if history == [] then 0
    else
      var o := history[0];
      var ended := if o.stats.Some? && SeesRestart(o) && before.Some? then Get(before.value, key) else 0;
      ended + EndedLives(NextStats(before, o), history[1..], key)
  }

  function LastStats(before: Option<Stats>, history: seq<Observed>): Option<Stats>
    decreases |history|
  {
    if history == [] then before else LastStats(NextStats(before, history[0]), history[1..])
  }

  function ValueOf(stats: Option<Stats>, key: string): int {
    if stats.Some? then Get(stats.value, key) else 0
  }

  /** The reported moves telescope: last value read, plus what each ended life was last read at, minus the first. */
  lemma {:induction false} MovesTelescope(before: Option<Stats>, history: seq<Observed>, key: string)
    requires key in PUSH_COUNTERS
    ensures Reported(before, history, key)
      == ValueOf(LastStats(before, history), key) + EndedLives(before, history, key) - ValueOf(before, key)
    decreases |history|
  {
    if history != [] {
      MovesTelescope(NextStats(before, history[0]), history[1..], key);
    }
  }

  /** Between restarts the moves are last minus first. */
  lemma {:induction false} MovesBetweenRestarts(before: Stats, history: seq<Observed>, key: string)
    requires key in PUSH_COUNTERS && forall i :: 0 <= i < |history| ==> history[i].ended == []
    ensures Reported(Some(before), history, key)
      == ValueOf(LastStats(Some(before), history), key) - Get(before, key)
  {
    MovesTelescope(Some(before), history, key);
    NoLifeEnds(Some(before), history, key);
  }

  lemma {:induction false} NoLifeEnds(before: Option<Stats>, history: seq<Observed>, key: string)
    requires forall i :: 0 <= i < |history| ==> history[i].ended == []
    ensures EndedLives(before, history, key) == 0
    decreases |history|
  {
    if history != [] {
      NoLifeEnds(NextStats(before, history[0]), history[1..], key);
    }
  }

  // ----- what the gateway really did -----

  /** What ended lives counted: the first from `start` on, each later one from zero. */
  function EndedGrowth(start: int, lives: seq<Stats>, key: string): int
    decreases |lives|
  {
    if lives == [] then 0 else Get(lives[0], key) - start + EndedGrowth(0, lives[1..], key)
  }

  /** What was counted from a reading of `start` to a reading of `now`, with `lives` ending in between. */
  function Growth(start: int, lives: seq<Stats>, now: int, key: string): int {
    EndedGrowth(start, lives, key) + now - (if lives == [] then start else 0)
  }

  /**
   The gateway's own growth up to the last readable status; `pending` are the lives that ended since
   the last one.
   */
  function TotalGrown(before: Option<Stats>, pending: seq<Stats>, history: seq<Observed>, key: string): int
    decreases |history|
  {
    if history == [] then 0
    else
      var o, lives := history[0], pending + history[0].ended;
      if o.stats.None? then TotalGrown(before, lives, history[1..], key)
      else
        Growth(ValueOf(before, key), lives, Get(o.stats.value, key), key) + TotalGrown(o.stats, [], history[1..], key)
  }

  /**
   What one readable summary leaves out. When it starts from zero (its own log shows a restart, or
   it is the first): what the ended lives counted after the last reading. When it subtracts the last
   reading although a life ended: everything those lives ever counted, the last reading included.
   */
  function Missed(before: Option<Stats>, lives: seq<Stats>, o: Observed, key: string): int {
    if lives == [] then 0
    else if before.None? || SeesRestart(o) then EndedGrowth(ValueOf(before, key), lives, key)
    else EndedGrowth(0, lives, key)
  }

  function TotalMissed(before: Option<Stats>, pending: seq<Stats>, history: seq<Observed>, key: string): int
    decreases |history|
  {
    if history == [] then 0
    else
      var o, lives := history[0], pending + history[0].ended;
      if o.stats.None? then TotalMissed(before, lives, history[1..], key)
      else Missed(before, lives, o, key) + TotalMissed(o.stats, [], history[1..], key)
  }

  lemma GrowthFromElsewhere(a: int, b: int, lives: seq<Stats>, key: string)
    requires lives != []
    ensures EndedGrowth(a, lives, key) == EndedGrowth(b, lives, key) + b - a
  {
  }

  lemma OneSummary(before: Option<Stats>, pending: seq<Stats>, o: Observed, key: string)
    requires key in PUSH_COUNTERS && o.stats.Some?
    ensures var lives := pending + o.ended;
      Moved(before, o, key)
      == Growth(ValueOf(before, key), lives, Get(o.stats.value, key), key) - Missed(before, lives, o, key)
  {
    var lives := pending + o.ended;
    if lives == [] {
      assert o.ended == [];
    } else {
      GrowthFromElsewhere(ValueOf(before, key), 0, lives, key);
    }
  }

  /** Over any history: the reported moves are the gateway's growth, less what each summary leaves out. */
  lemma {:induction false} ReportedIsGrowthLessMissed(
    before: Option<Stats>, pending: seq<Stats>, history: seq<Observed>, key: string)
    requires key in PUSH_COUNTERS
    ensures Reported(before, history, key)
      == TotalGrown(before, pending, history, key) - TotalMissed(before, pending, history, key)
    decreases |history|
  {
    if history != [] {
      var o, lives := history[0], pending + history[0].ended;
      if o.stats.None? {
        ReportedIsGrowthLessMissed(before, lives, history[1..], key);
      } else {
        OneSummary(before, pending, o, key);
        ReportedIsGrowthLessMissed(o.stats, [], history[1..], key);
      }
    }
  }

  /** Counters start at zero and only grow: what ended lives reached lies at or above their last reading. */
  predicate CountsUp(start: int, lives: seq<Stats>, key: string) {
    0 <= start && forall i | 0 <= i < |lives| :: (if i == 0 then start else 0) <= Get(lives[i], key)
  }

  ghost predicate CountsUpThroughout(before: Option<Stats>, pending: seq<Stats>, history: seq<Observed>, key: string)
    decreases |history|
  {
    && CountsUp(ValueOf(before, key), pending, key)
    && (history != [] ==>
          var o, lives := history[0], pending + history[0].ended;
          && CountsUp(ValueOf(before, key), lives, key)
          && CountsUpThroughout(NextStats(before, o), if o.stats.Some? then [] else lives, history[1..], key))
  }

  /** No life that ended had counted anything since its last reading, as far as this summary can tell. */
  predicate EndedIdle(before: Option<Stats>, lives: seq<Stats>, o: Observed, key: string) {
    forall i | 0 <= i < |lives| ::
      Get(lives[i], key) == if i == 0 && SeesRestart(o) then ValueOf(before, key) else 0
  }

  ghost predicate AllIdle(before: Option<Stats>, pending: seq<Stats>, history: seq<Observed>, key: string)
    decreases |history|
  {
    history != [] ==>
      var o, lives := history[0], pending + history[0].ended;
      && (o.stats.Some? ==> EndedIdle(before, lives, o, key))
      && AllIdle(NextStats(before, o), if o.stats.Some? then [] else lives, history[1..], key)
  }

  lemma {:induction false} GrowthIsNothingIff(start: int, lives: seq<Stats>, key: string)
    requires CountsUp(start, lives, key)
    ensures EndedGrowth(start, lives, key) >= 0
    ensures EndedGrowth(start, lives, key) == 0
      <==> forall i :: 0 <= i < |lives| ==> Get(lives[i], key) == if i == 0 then start else 0
    decreases |lives|
  {
    if lives != [] {
      var rest := lives[1..];
      assert forall i :: 0 <= i < |rest| ==> rest[i] == lives[i + 1];
      GrowthIsNothingIff(0, rest, key);
      assert (forall i :: 0 <= i < |rest| ==> Get(rest[i], key) == 0)
        <==> (forall i :: 1 <= i < |lives| ==> Get(lives[i], key) == 0) by {
        assert forall i :: 1 <= i < |lives| ==> lives[i] == rest[i - 1];
      }
    }
  }

  lemma MissedNothingIff(before: Option<Stats>, lives: seq<Stats>, o: Observed, key: string)
    requires CountsUp(ValueOf(before, key), lives, key)
    ensures Missed(before, lives, o, key) >= 0
    ensures Missed(before, lives, o, key) == 0 <==> EndedIdle(before, lives, o, key)
  {
    GrowthIsNothingIff(ValueOf(before, key), lives, key);
    GrowthIsNothingIff(0, lives, key);
  }

  /**
   The exact condition: summaries never report more than the gateway did, and they report all of it
   iff every life that ended between two readings had counted nothing after the first of them (when
   the restart was seen), or nothing at all (when it was not).
   */
  lemma {:induction false} ReportedIsTrueIff(
    before: Option<Stats>, pending: seq<Stats>, history: seq<Observed>, key: string)
    requires key in PUSH_COUNTERS && CountsUpThroughout(before, pending, history, key)
    ensures Reported(before, history, key) <= TotalGrown(before, pending, history, key)
    ensures Reported(before, history, key) == TotalGrown(before, pending, history, key)
      <==> AllIdle(before, pending, history, key)
    decreases |history|
  {
    if history != [] {
      var o, lives := history[0], pending + history[0].ended;
      if o.stats.None? {
        ReportedIsTrueIff(before, lives, history[1..], key);
      } else {
        OneSummary(before, pending, o, key);
        MissedNothingIff(before, lives, o, key);
        ReportedIsTrueIff(o.stats, [], history[1..], key);
      }
    }
  }

  lemma OneLife(start: int, life: Stats, key: string)
    ensures EndedGrowth(start, [life], key) == Get(life, key) - start
  {
    assert [life][1..] == [];
  }

  /** A restart that is seen: 10 read, 17 reached, 5 after it. 12 alerts were sent and 5 are reported. */
  lemma SeenRestartLosesTail()
    ensures var before := map["alerts_sent" := 10];
      var history := [Observed(Some(map["alerts_sent" := 5]), true, [map["alerts_sent" := 17]])];
      && Reported(Some(before), history, "alerts_sent") == 5
      && TotalGrown(Some(before), [], history, "alerts_sent") == 12
  {
    var before: Stats := map["alerts_sent" := 10];
    var last := Observed(Some(map["alerts_sent" := 5]), true, [map["alerts_sent" := 17]]);
    assert [last][1..] == [] && [] + last.ended == last.ended;
    OneLife(10, last.ended[0], "alerts_sent");
    assert TotalMissed(Some(before), [], [last], "alerts_sent") == 7;
    ReportedIsGrowthLessMissed(Some(before), [], [last], "alerts_sent");
  }

  /** A restart in a window whose status could not be read is missed by the next one: 12 alerts come out as minus 5. */
  lemma UnreadRestartMisreports()
    ensures var before := map["alerts_sent" := 10];
      var history := [
        Observed(None, true, [map["alerts_sent" := 17]]), Observed(Some(map["alerts_sent" := 5]), true, [])];
      && Reported(Some(before), history, "alerts_sent") == -5
      && TotalGrown(Some(before), [], history, "alerts_sent") == 12
  {
    var before: Stats := map["alerts_sent" := 10];
    var ended: Stats := map["alerts_sent" := 17];
    var last := Observed(Some(map["alerts_sent" := 5]), true, []);
    var history := [Observed(None, true, [ended]), last];
    assert history[1..] == [last] && [last][1..] == [] && [] + [ended] == [ended] && [ended] + [] == [ended];
    assert [ended] + last.ended == [ended];
    assert Reported(Some(before), [last], "alerts_sent") == -5;
    OneLife(10, ended, "alerts_sent");
    assert Growth(10, [ended], 5, "alerts_sent") == 12;
    assert TotalGrown(last.stats, [], [], "alerts_sent") == 0;
    assert TotalGrown(Some(before), [ended], [last], "alerts_sent") == 12;
  }
}
