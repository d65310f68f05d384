/**
 The durable session log as its HTTP endpoint serves it, and the client loop that drains a
 frozen horizon of it. The server cuts a page of raw rows first and filters it afterwards, so a
 page can come back short or empty in the middle of the log.
 */
module LogDrain {
  import opened Sequences

  const PAGE_SIZE: nat := 500

  /** `pos` is the row's `seq` number. */
  datatype Row<P> = Row(pos: int, kind: string, payload: P)

  /** The check the client makes on one page: neighbours strictly increase. */
  ghost predicate Increasing<P>(rows: seq<Row<P>>) {
    forall i :: 0 < i < |rows| ==> rows[i - 1].pos < rows[i].pos
  }

  ghost predicate ValidLog<P>(log: seq<Row<P>>) {
    Increasing(log) && (forall i :: 0 <= i < |log| ==> log[i].pos > 0)
  }

  lemma {:induction false} IncreasingPairs<P>(rows: seq<Row<P>>, i: nat, j: nat)
    requires Increasing(rows) && i < j < |rows|
    ensures rows[i].pos + (j - i) <= rows[j].pos
    decreases j
  {
    if i + 1 < j {
      IncreasingPairs(rows, i, j - 1);
    }
  }

  // ----- the server -----

  /** How many leading rows lie at or below `cursor`. */
  function CountUpTo<P>(log: seq<Row<P>>, cursor: int): (n: nat)
    ensures n <= |log|
  {
    if log == [] || log[0].pos > cursor then 0 else 1 + CountUpTo(log[1..], cursor)
  }

  /** The first `limit` raw rows after `cursor`. */
  function RawPage<P>(log: seq<Row<P>>, cursor: int, limit: nat): seq<Row<P>> {
    var start := CountUpTo(log, cursor);
    log[start..Min(start + limit, |log|)]
  }

  /** Paging first, filtering afterwards. */
  function ServePage<P>(log: seq<Row<P>>, visible: Row<P> -> bool, cursor: int, limit: nat): seq<Row<P>> {
    Filter(RawPage(log, cursor, limit), visible)
  }

  // ----- the client -----

  /** The reply to the n-th request, made at the given cursor. */
  type Server<!P> = (nat, int) -> seq<Row<P>>

  datatype Drained<P> = Rows(rows: seq<Row<P>>) | CursorStuck

  function UpTo<P>(page: seq<Row<P>>, head: int): seq<Row<P>> {
    Filter(page, (r: Row<P>) => r.pos <= head)
  }

  predicate Monotonic<P>(page: seq<Row<P>>, cursor: int)
    requires page != []
  {
    page[0].pos > cursor && forall i | 0 < i < |page| :: page[i - 1].pos < page[i].pos
  }

  function After<P>(front: seq<Row<P>>, rest: Drained<P>): Drained<P> {
    match rest
    case Rows(rows) => Rows(front + rows)
    case CursorStuck => CursorStuck
  }

  lemma AfterTwice<P>(a: seq<Row<P>>, b: seq<Row<P>>, rest: Drained<P>)
    ensures After(a, After(b, rest)) == After(a + b, rest)
  {
    if rest.Rows? {
      assert a + (b + rest.rows) == (a + b) + rest.rows;
    }
  }

  lemma MonotonicAdvances<P>(page: seq<Row<P>>, cursor: int)
    requires page != [] && Monotonic(page, cursor)
    ensures page[|page| - 1].pos > cursor
  {
    if |page| > 1 {
      IncreasingPairs(page, 0, |page| - 1);
    }
  }

  /** What the loop returns when `n` requests were made and the cursor stands at `cursor`. */
  function Drain<P>(server: Server<P>, n: nat, cursor: int, head: int): Drained<P>
    decreases head - cursor
  {
    if cursor >= head then Rows([])
    else
      var page := server(n, cursor);
      if page == [] then Drain(server, n + 1, cursor + PAGE_SIZE, head)
      else if !Monotonic(page, cursor) then CursorStuck
      else
        MonotonicAdvances(page, cursor);
        After(UpTo(page, head), Drain(server, n + 1, page[|page| - 1].pos, head))
  }

  /** `Platform.rows`: the loop itself, for any server whatsoever. */
  method DrainRows<P>(server: Server<P>, head: int, after: int) returns (result: Drained<P>)
    ensures result == Drain(server, 0, after, head)
  {
    var rows: seq<Row<P>> := [];
    var cursor := after;
    var n := 0;
    while cursor < head
      invariant Drain(server, 0, after, head) == After(rows, Drain(server, n, cursor, head))
      decreases head - cursor
    {
      var page := server(n, cursor);
      if page == [] {
        cursor := cursor + PAGE_SIZE;
        n := n + 1;
        continue;
      }
      if !Monotonic(page, cursor) {
        return CursorStuck;
      }
      MonotonicAdvances(page, cursor);
      AfterTwice(rows, UpTo(page, head), Drain(server, n + 1, page[|page| - 1].pos, head));
      rows := rows + UpTo(page, head);
      cursor := page[|page| - 1].pos;
      n := n + 1;
    }
    return Rows(rows);
  }

  // ----- any server: what the client accepts is ordered and inside the horizon -----

  ghost predicate InWindow<P>(rows: seq<Row<P>>, after: int, head: int) {
    Increasing(rows) && forall i :: 0 <= i < |rows| ==> after < rows[i].pos <= head
  }

  lemma TailInWindow<P>(rows: seq<Row<P>>, low: int, high: int)
    requires rows != [] && InWindow(rows, low, high)
    ensures InWindow(rows[1..], rows[0].pos, high)
  {
    forall i | 0 <= i < |rows[1..]| ensures rows[0].pos < rows[1..][i].pos {
      IncreasingPairs(rows, 0, i + 1);
    }
  }

  lemma ConsInWindow<P>(row: Row<P>, rows: seq<Row<P>>, low: int, high: int)
    requires low < row.pos <= high && InWindow(rows, row.pos, high)
    ensures InWindow([row] + rows, low, high) && InWindow(rows, low, high)
  {
    var all := [row] + rows;
    assert forall i :: 1 <= i < |all| ==> all[i] == rows[i - 1];
  }

  lemma {:induction false} FilterInWindow<P>(rows: seq<Row<P>>, keep: Row<P> -> bool, low: int, high: int)
    requires InWindow(rows, low, high)
    ensures InWindow(Filter(rows, keep), low, high)
    decreases |rows|
  {
    if rows != [] {
      TailInWindow(rows, low, high);
      FilterInWindow(rows[1..], keep, rows[0].pos, high);
      ConsInWindow(rows[0], Filter(rows[1..], keep), low, high);
    }
  }

  lemma MonotonicWindow<P>(page: seq<Row<P>>, cursor: int)
    requires page != [] && Monotonic(page, cursor)
    ensures InWindow(page, cursor, page[|page| - 1].pos)
  {
    forall i | 0 <= i < |page| ensures cursor < page[i].pos <= page[|page| - 1].pos {
      if i > 0 { IncreasingPairs(page, 0, i); }
      if i < |page| - 1 { IncreasingPairs(page, i, |page| - 1); }
    }
  }

  lemma UpToWindow<P>(page: seq<Row<P>>, cursor: int, head: int)
    requires page != [] && Monotonic(page, cursor)
    ensures InWindow(UpTo(page, head), cursor, Min(head, page[|page| - 1].pos))
  {
    var low := (r: Row<P>) => r.pos <= head;
    MonotonicWindow(page, cursor);
    FilterInWindow(page, low, cursor, page[|page| - 1].pos);
    var rows := UpTo(page, head);
    forall i | 0 <= i < |rows| ensures rows[i].pos <= head {
      FilterMembers(page, low, rows[i]);
    }
  }

  /** Whatever the server answers, rows handed back strictly increase and lie in (after, head]. */
  lemma {:induction false} AcceptedRowsAreOrdered<P>(server: Server<P>, n: nat, cursor: int, head: int)
    ensures var d := Drain(server, n, cursor, head); d.Rows? ==> InWindow(d.rows, cursor, head)
    decreases head - cursor
  {
    if cursor < head {
      var page := server(n, cursor);
      if page == [] {
        AcceptedRowsAreOrdered(server, n + 1, cursor + PAGE_SIZE, head);
      } else if Monotonic(page, cursor) {
        MonotonicAdvances(page, cursor);
        AcceptedRowsAreOrdered(server, n + 1, page[|page| - 1].pos, head);
        UpToWindow(page, cursor, head);
      }
    }
  }

  // ----- the honest server, on a log that keeps growing -----

  /** `grown` is `log` with rows appended, all of them past the frozen horizon. */
  ghost predicate GrowsPast<P>(log: seq<Row<P>>, grown: seq<Row<P>>, head: int) {
    && log <= grown
    && forall i :: |log| <= i < |grown| ==> grown[i].pos > head
  }

  /** The log as it stands at each request. */
  type Schedule<!P> = nat -> seq<Row<P>>

  ghost predicate ValidSchedule<P>(logs: Schedule<P>, head: int) {
    && (forall n: nat :: ValidLog(logs(n)))
    && (forall n: nat :: GrowsPast(logs(n), logs(n + 1), head))
  }

  function HonestServer<P>(logs: Schedule<P>, visible: Row<P> -> bool): Server<P> {
    (n: nat, cursor: int) => ServePage(logs(n), visible, cursor, PAGE_SIZE)
  }

  /** Pages are of 500 raw rows, and that is how far the client's cursor moves past an empty one. */
  lemma PagesOf500<P>(logs: Schedule<P>, visible: Row<P> -> bool, server: Server<P>, n: nat, cursor: int, head: int)
    ensures HonestServer(logs, visible)(n, cursor) == Filter(RawPage(logs(n), cursor, 500), visible)
    ensures |RawPage(logs(n), cursor, 500)| == Min(500, |logs(n)| - CountUpTo(logs(n), cursor))
    ensures server(n, cursor) == [] && cursor < head ==>
      Drain(server, n, cursor, head) == Drain(server, n + 1, cursor + 500, head)
  {
  }

  /** The visible rows of one log in (after, head], taken in one piece. */
  ghost function Wanted<P>(log: seq<Row<P>>, visible: Row<P> -> bool, after: int, head: int): seq<Row<P>> {
    var i, j := CountUpTo(log, after), CountUpTo(log, head);
    if i <= j then Filter(log[i..j], visible) else []
  }

  lemma {:induction false} CountSplits<P>(log: seq<Row<P>>, cursor: int)
    requires Increasing(log)
    ensures var n := CountUpTo(log, cursor);
      (forall i :: 0 <= i < n ==> log[i].pos <= cursor) && (forall i :: n <= i < |log| ==> log[i].pos > cursor)
  {
    if log != [] {
      if log[0].pos > cursor {
        forall i | 0 <= i < |log| ensures log[i].pos > cursor {
          if i > 0 { IncreasingPairs(log, 0, i); }
        }
      } else {
        CountSplits(log[1..], cursor);
        forall i | CountUpTo(log, cursor) <= i < |log| ensures log[i].pos > cursor {
          assert log[i] == log[1..][i - 1];
        }
        forall i | 0 <= i < CountUpTo(log, cursor) ensures log[i].pos <= cursor {
          if i > 0 { assert log[i] == log[1..][i - 1]; }
        }
      }
    }
  }

  /** The split point is determined by what lies on its two sides. */
  lemma CountIs<P>(log: seq<Row<P>>, cursor: int, n: nat)
    requires Increasing(log) && n <= |log|
    requires n > 0 ==> log[n - 1].pos <= cursor
    requires n < |log| ==> log[n].pos > cursor
    ensures CountUpTo(log, cursor) == n
  {
    CountSplits(log, cursor);
  }

  /** Rows appended past the horizon change nothing that is wanted. */
  lemma GrowthUnseen<P>(log: seq<Row<P>>, grown: seq<Row<P>>, visible: Row<P> -> bool, after: int, head: int)
    requires ValidLog(log) && ValidLog(grown) && GrowsPast(log, grown, head)
    ensures Wanted(grown, visible, after, head) == Wanted(log, visible, after, head)
  {
    var i, j := CountUpTo(log, after), CountUpTo(log, head);
    CountSplits(log, head);
    CountIs(grown, head, j);
    if i < |log| {
      CountSplits(log, after);
      CountIs(grown, after, i);
      assert i <= j ==> log[i..j] == grown[i..j];
    } else {
      GrownCountsMore(log, grown, after);
      assert i <= j ==> log[i..j] == [];
      var g := CountUpTo(grown, after);
      assert g <= j ==> grown[g..j] == [];
    }
  }

  /** A log wholly at or below the cursor counts in full, however it grows. */
  lemma GrownCountsMore<P>(log: seq<Row<P>>, grown: seq<Row<P>>, after: int)
    requires Increasing(log) && Increasing(grown) && log <= grown && CountUpTo(log, after) == |log|
    ensures CountUpTo(grown, after) >= |log|
  {
    CountSplits(log, after);
    CountSplits(grown, after);
    if log != [] {
      assert grown[|log| - 1] == log[|log| - 1];
    }
  }

  // ----- what one page tells the client -----

  /** Fetching from `cursor` in a valid log: where the raw page starts and ends. */
  ghost predicate PageBounds<P>(log: seq<Row<P>>, cursor: int, i: nat, j: nat) {
    i == CountUpTo(log, cursor) && j == Min(i + PAGE_SIZE, |log|) && i <= j
  }

  /**
   The pigeonhole step: a raw page holds every row of the next PAGE_SIZE sequence numbers,
   because its rows are distinct integers above the cursor.
   */
  lemma PageCoversNextNumbers<P>(log: seq<Row<P>>, cursor: int, i: nat, j: nat)
    requires ValidLog(log) && PageBounds(log, cursor, i, j)
    ensures CountUpTo(log, cursor + PAGE_SIZE) <= j
  {
    CountSplits(log, cursor);
    CountSplits(log, cursor + PAGE_SIZE);
    if j < |log| {
      IncreasingPairs(log, i, j);
    }
  }

  /** A stretch with nothing visible can be left out in front. */
  lemma HiddenStretch<P>(log: seq<Row<P>>, visible: Row<P> -> bool, i: nat, k: nat, j: nat, h: nat)
    requires i <= k <= j <= |log| && k <= h <= |log|
    requires Filter(log[i..j], visible) == []
    ensures Filter(log[i..h], visible) == Filter(log[k..h], visible)
  {
    FilterSlice(log, visible, i, k, j);
    FilterSlice(log, visible, i, k, h);
  }

  /** An empty visible page: skipping PAGE_SIZE numbers loses nothing. */
  lemma EmptyPageSkipsNothing<P>(log: seq<Row<P>>, visible: Row<P> -> bool, cursor: int, head: int)
    requires ValidLog(log) && cursor < head
    requires ServePage(log, visible, cursor, PAGE_SIZE) == []
    ensures Wanted(log, visible, cursor, head) == Wanted(log, visible, cursor + PAGE_SIZE, head)
  {
    var next := cursor + PAGE_SIZE;
    var i, m, h := CountUpTo(log, cursor), CountUpTo(log, next), CountUpTo(log, head);
    var j := Min(i + PAGE_SIZE, |log|);
    PageCoversNextNumbers(log, cursor, i, j);
    CountsOrdered(log, cursor, head);
    CountsOrdered(log, cursor, next);
    if next <= head {
      CountsOrdered(log, next, head);
      HiddenStretch(log, visible, i, m, j, h);
    } else {
      CountsOrdered(log, head, next);
      HiddenStretch(log, visible, i, h, j, h);
      assert log[h..h] == [];
    }
  }

  lemma CountsOrdered<P>(log: seq<Row<P>>, low: int, high: int)
    requires ValidLog(log) && low <= high
    ensures CountUpTo(log, low) <= CountUpTo(log, high)
  {
    CountSplits(log, low);
    CountSplits(log, high);
  }

  /** Rows of a slice at or below `head` are the rows before the horizon. */
  lemma UpToOfSlice<P>(log: seq<Row<P>>, visible: Row<P> -> bool, i: nat, j: nat, head: int)
    requires ValidLog(log) && i <= j <= |log| && i <= CountUpTo(log, head)
    ensures var h := Min(CountUpTo(log, head), j);
      UpTo(Filter(log[i..j], visible), head) == Filter(log[i..h], visible)
  {
    var h := Min(CountUpTo(log, head), j);
    CountSplits(log, head);
    FilterSlice(log, visible, i, h, j);
    FilterKeepsSide(log[i..h], visible, head, true);
    FilterKeepsSide(log[h..j], visible, head, false);
    UpToConcat(Filter(log[i..h], visible), Filter(log[h..j], visible), head);
  }

  lemma FilterKeepsSide<P>(rows: seq<Row<P>>, visible: Row<P> -> bool, head: int, below: bool)
    requires forall i :: 0 <= i < |rows| ==> (rows[i].pos <= head <==> below)
    ensures var r := Filter(rows, visible); forall i :: 0 <= i < |r| ==> (r[i].pos <= head <==> below)
  {
    var r := Filter(rows, visible);
    forall i | 0 <= i < |r| ensures r[i].pos <= head <==> below {
      FilterMembers(rows, visible, r[i]);
    }
  }

  lemma UpToConcat<P>(front: seq<Row<P>>, back: seq<Row<P>>, head: int)
    requires forall i :: 0 <= i < |front| ==> front[i].pos <= head
    requires forall i :: 0 <= i < |back| ==> back[i].pos > head
    ensures UpTo(front + back, head) == front
  {
    var low := (r: Row<P>) => r.pos <= head;
    FilterConcat(front, back, low);
    FilterAll(front, low);
    FilterNone(back, low);
  }

  lemma SliceWindow<P>(log: seq<Row<P>>, cursor: int, i: nat, j: nat)
    requires ValidLog(log) && PageBounds(log, cursor, i, j) && i < j
    ensures InWindow(log[i..j], cursor, log[j - 1].pos)
  {
    CountSplits(log, cursor);
    forall k | i <= k < j ensures log[k].pos <= log[j - 1].pos {
      if k < j - 1 { IncreasingPairs(log, k, j - 1); }
    }
  }

  /** The last visible row of a page sits at log index `l - 1`; the page's remainder is hidden. */
  lemma LastOfPage<P>(log: seq<Row<P>>, visible: Row<P> -> bool, i: nat, j: nat) returns (l: nat)
    requires i <= j <= |log| && Filter(log[i..j], visible) != []
    ensures i < l <= j
    ensures var page := Filter(log[i..j], visible); page[|page| - 1] == log[l - 1]
    ensures forall m :: l <= m < j ==> !visible(log[m])
  {
    var raw := log[i..j];
    var k := FilterLast(raw, visible);
    l := i + k + 1;
    forall m | l <= m < j ensures !visible(log[m]) {
      assert log[m] == raw[m - i];
    }
  }

  lemma PageIsMonotonic<P>(log: seq<Row<P>>, visible: Row<P> -> bool, cursor: int)
    requires ValidLog(log)
    requires ServePage(log, visible, cursor, PAGE_SIZE) != []
    ensures Monotonic(ServePage(log, visible, cursor, PAGE_SIZE), cursor)
  {
    var i := CountUpTo(log, cursor);
    var j := Min(i + PAGE_SIZE, |log|);
    SliceWindow(log, cursor, i, j);
    FilterInWindow(log[i..j], visible, cursor, log[j - 1].pos);
  }

  /** A non-empty visible page: its rows up to the horizon, then everything after its last row. */
  lemma PageThenRest<P>(log: seq<Row<P>>, visible: Row<P> -> bool, cursor: int, head: int)
    requires ValidLog(log) && cursor < head
    requires ServePage(log, visible, cursor, PAGE_SIZE) != []
    ensures var page := ServePage(log, visible, cursor, PAGE_SIZE);
      Wanted(log, visible, cursor, head) == UpTo(page, head) + Wanted(log, visible, page[|page| - 1].pos, head)
  {
    var i := CountUpTo(log, cursor);
    var j := Min(i + PAGE_SIZE, |log|);
    var l := LastOfPage(log, visible, i, j);
    CountsOrdered(log, cursor, head);
    UpToOfSlice(log, visible, i, j, head);
    RestAfterPage(log, visible, i, l, j, head);
  }

  lemma LastVisible<P>(log: seq<Row<P>>, l: nat, j: nat)
    requires ValidLog(log) && 0 < l <= j <= |log|
    ensures CountUpTo(log, log[l - 1].pos) == l
  {
    if l < |log| {
      IncreasingPairs(log, l - 1, l);
    }
    CountIs(log, log[l - 1].pos, l);
  }

  lemma RestAfterPage<P>(log: seq<Row<P>>, visible: Row<P> -> bool, i: nat, l: nat, j: nat, head: int)
    requires ValidLog(log) && i < l <= j <= |log| && i <= CountUpTo(log, head)
    requires forall m :: l <= m < j ==> !visible(log[m])
    ensures var h := CountUpTo(log, head);
      Filter(log[i..h], visible)
      == Filter(log[i..Min(h, j)], visible) + Wanted(log, visible, log[l - 1].pos, head)
  {
    var h := CountUpTo(log, head);
    var e := Min(h, j);
    LastVisible(log, l, j);
    if l <= h {
      FilterSlice(log, visible, i, e, h);
      FilterSlice(log, visible, l, e, h);
      FilterNone(log[l..e], visible);
    }
  }

  // ----- the drain is exact -----

  lemma {:induction false} DrainIsWanted<P>(logs: Schedule<P>, visible: Row<P> -> bool, n: nat, cursor: int, head: int)
    requires ValidSchedule(logs, head)
    ensures Drain(HonestServer(logs, visible), n, cursor, head) == Rows(Wanted(logs(n), visible, cursor, head))
    decreases head - cursor
  {
    var server := HonestServer(logs, visible);
    var log := logs(n);
    if cursor >= head {
      CountsOrdered(log, head, cursor);
    } else {
      var page := server(n, cursor);
      assert page == ServePage(log, visible, cursor, PAGE_SIZE);
      if page == [] {
        DrainIsWanted(logs, visible, n + 1, cursor + PAGE_SIZE, head);
        EmptyPageSkipsNothing(log, visible, cursor, head);
        GrowthUnseen(log, logs(n + 1), visible, cursor + PAGE_SIZE, head);
      } else {
        PageIsMonotonic(log, visible, cursor);
        MonotonicAdvances(page, cursor);
        var last := page[|page| - 1].pos;
        DrainIsWanted(logs, visible, n + 1, last, head);
        PageThenRest(log, visible, cursor, head);
        GrowthUnseen(log, logs(n + 1), visible, last, head);
      }
    }
  }

  /** Exactly the visible rows of `log` in (after, head], once each and in order. */
  ghost predicate IsExactDrain<P(!new)>(
    rows: seq<Row<P>>, log: seq<Row<P>>, visible: Row<P> -> bool, after: int, head: int)
  {
    && Increasing(rows)
    && forall r :: r in rows <==> r in log && visible(r) && after < r.pos <= head
  }

  lemma WantedMembers<P>(log: seq<Row<P>>, visible: Row<P> -> bool, after: int, head: int, r: Row<P>)
    requires ValidLog(log)
    ensures r in Wanted(log, visible, after, head) <==> r in log && visible(r) && after < r.pos <= head
  {
    var i, j := CountUpTo(log, after), CountUpTo(log, head);
    CountSplits(log, after);
    CountSplits(log, head);
    if i <= j {
      FilterMembers(log[i..j], visible, r);
      if r in log && after < r.pos <= head {
        var k :| 0 <= k < |log| && log[k] == r;
        assert log[i..j][k - i] == r;
      }
    }
  }

  lemma WantedInWindow<P>(log: seq<Row<P>>, visible: Row<P> -> bool, after: int, head: int)
    requires ValidLog(log)
    ensures Increasing(Wanted(log, visible, after, head))
  {
    var i, j := CountUpTo(log, after), CountUpTo(log, head);
    CountSplits(log, after);
    CountSplits(log, head);
    if i < j {
      FilterInWindow(log[i..j], visible, after, head);
    }
  }

  lemma WantedIsExact<P(!new)>(log: seq<Row<P>>, visible: Row<P> -> bool, after: int, head: int)
    requires ValidLog(log)
    ensures IsExactDrain(Wanted(log, visible, after, head), log, visible, after, head)
  {
    WantedInWindow(log, visible, after, head);
    forall r ensures r in Wanted(log, visible, after, head) <==> r in log && visible(r) && after < r.pos <= head {
      WantedMembers(log, visible, after, head, r);
    }
  }

  /**
   The drain over a growing, filtered, paged log: it never gives up, and it returns exactly the
   visible rows of the log as it stood at the first request.
   */
  lemma DrainIsExact<P(!new)>(logs: Schedule<P>, visible: Row<P> -> bool, after: int, head: int)
    requires ValidSchedule(logs, head)
    ensures var d := Drain(HonestServer(logs, visible), 0, after, head);
      d.Rows? && IsExactDrain(d.rows, logs(0), visible, after, head)
  {
    DrainIsWanted(logs, visible, 0, after, head);
    WantedIsExact(logs(0), visible, after, head);
  }

  lemma TailIsExact<P(!new)>(
    rows: seq<Row<P>>, log: seq<Row<P>>, visible: Row<P> -> bool, after: int, head: int)
    requires IsExactDrain(rows, log, visible, after, head) && rows != []
    ensures IsExactDrain(rows[1..], log, visible, rows[0].pos, head)
    ensures forall r :: r in rows ==> r == rows[0] || rows[0].pos < r.pos
  {
    assert rows[0] in rows;
    forall i | 0 < i < |rows| ensures rows[0].pos < rows[i].pos {
      IncreasingPairs(rows, 0, i);
    }
    forall r ensures r in rows[1..] <==> r in rows && rows[0].pos < r.pos {
      if r in rows[1..] {
        var i :| 0 <= i < |rows[1..]| && rows[1..][i] == r;
        assert rows[i + 1] == r;
      }
    }
  }

  /** The description leaves no freedom: two exact drains of the same window are the same sequence. */
  lemma {:induction false} ExactDrainIsUnique<P(!new)>(
    a: seq<Row<P>>, b: seq<Row<P>>, log: seq<Row<P>>, visible: Row<P> -> bool, after: int, head: int)
    requires IsExactDrain(a, log, visible, after, head) && IsExactDrain(b, log, visible, after, head)
    ensures a == b
    decreases |a|
  {
    if a != [] {
      assert a[0] in a;
    }
    if b != [] {
      assert b[0] in b;
    }
    if a != [] && b != [] {
      TailIsExact(a, log, visible, after, head);
      TailIsExact(b, log, visible, after, head);
      assert a[0] in a && b[0] in b;
      assert a[0] in b && b[0] in a;
      ExactDrainIsUnique(a[1..], b[1..], log, visible, a[0].pos, head);
      assert a == [a[0]] + a[1..] && b == [b[0]] + b[1..];
    }
  }
}
