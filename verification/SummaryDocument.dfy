/**
 The dated document the daily summary appends to, through a git worktree in which any step can
 fail: a section that did not land is carried into the next commit.
 */
module SummaryDocument {

  /** The document's text at the remote branch, in the local commit, and in the working file. */
  datatype Texts = Texts(origin: string, head: string, working: string)

  /** Where one run's work on the document ends. */
  datatype Fate =
    | Refused              // the worktree has other changes: nothing is touched
    | GitFailedEarly       // status, fetch, show or reset fails: nothing is touched
    | CheckoutFailed       // the hard reset has happened, the checkout has not
    | KilledAfterReset
    | KilledAfterCheckout
    | Torn(kept: nat)      // killed while the file is being written
    | CommitFailed         // the file is written; add or commit fails
    | PushRefused
    | PushMisreported      // the remote takes the push; git reports a failure
    | LandedUnconfirmed    // the push went through; reading back the commit's name fails
    | Landed

  datatype Outcome = Recorded | NotRecorded(promisesCarry: bool) | NoReport

  /** What the local copy appended beyond the landed one. */
  function Unlanded(landed: string, local: string): string {
    if landed <= local then local[|landed|..] else ""
  }

  function Section(text: string): string { "\n" + text }

  /** The failures reported as "not recorded; the next run carries this section". */
  predicate SomeGitStepFailed(fate: Fate) {
    fate.GitFailedEarly? || fate.CheckoutFailed? || fate.CommitFailed? || fate.LandedUnconfirmed?
  }

  predicate Pushed(fate: Fate) { fate.PushMisreported? || fate.LandedUnconfirmed? || fate.Landed? }

  function Composed(t: Texts, text: string): string {
    t.origin + Unlanded(t.origin, t.working) + Section(text)
  }

  /** The three texts after one run. */
  function AfterRun(t: Texts, text: string, fate: Fate): Texts {
    match fate
    case Refused => t
    case GitFailedEarly => t
    case CheckoutFailed => t.(working := t.head)
    case KilledAfterReset => t.(working := t.head)
    case KilledAfterCheckout => t.(head := t.origin, working := t.origin)
    case Torn(kept) =>
      var doc := Composed(t, text);
      t.(head := t.origin, working := if kept <= |doc| then doc[..kept] else doc)
    case CommitFailed => t.(head := t.origin, working := Composed(t, text))
    case PushRefused => t.(head := Composed(t, text), working := Composed(t, text))
    case PushMisreported => Texts(Composed(t, text), Composed(t, text), Composed(t, text))
    case LandedUnconfirmed => Texts(Composed(t, text), Composed(t, text), Composed(t, text))
    case Landed => Texts(Composed(t, text), Composed(t, text), Composed(t, text))
  }

  class Worktree {
    var origin: string
    var head: string
    var working: string

    function Now(): Texts
      reads this
    {
      Texts(origin, head, working)
    }

    constructor (doc: string)
      ensures Now() == Texts(doc, doc, doc)
    {
      origin, head, working := doc, doc, doc;
    }

    /** `record` around `append_to_doc`: the steps in order, and what the run then says about itself. */
    method AppendToDoc(text: string, fate: Fate) returns (outcome: Outcome)
      modifies this
      ensures Now() == AfterRun(old(Now()), text, fate)
      ensures outcome == match fate
        case Landed => Recorded
        case GitFailedEarly | CheckoutFailed | CommitFailed | LandedUnconfirmed => NotRecorded(true)
        case Refused | PushRefused | PushMisreported => NotRecorded(false)
        case KilledAfterReset | KilledAfterCheckout | Torn(_) => NoReport
    {
      if fate.Refused? {
        return NotRecorded(false);
      }
      if fate.GitFailedEarly? {
        return NotRecorded(true);
      }
      var landed := origin;
      var carried := Unlanded(landed, working);
      working := head;
      if fate.CheckoutFailed? {
        return NotRecorded(true);
      }
      if fate.KilledAfterReset? {
        return NoReport;
      }
      head := origin;
      working := origin;
      if fate.KilledAfterCheckout? {
        return NoReport;
      }
      var doc := landed + carried + Section(text);
      if fate.Torn? {
        working := if fate.kept <= |doc| then doc[..fate.kept] else doc;
        return NoReport;
      }
      working := doc;
      if fate.CommitFailed? {
        return NotRecorded(true);
      }
      head := doc;
      if fate.PushRefused? {
        return NotRecorded(false);
      }
      origin := doc;
      if fate.PushMisreported? {
        return NotRecorded(false);
      }
      return if fate.LandedUnconfirmed? then NotRecorded(true) else Recorded;
    }
  }

  // ----- runs that fail only at the guards, at commit or at push -----

  datatype Run = Run(text: string, fate: Fate)

  predicate Clean(fate: Fate) {
    fate.Refused? || fate.GitFailedEarly? || Written(fate)
  }

  predicate Written(fate: Fate) {
    fate.CommitFailed? || fate.PushRefused? || Pushed(fate)
  }

  function AfterRuns(t: Texts, runs: seq<Run>): Texts {
    if runs == [] then t
    else
      var last := runs[|runs| - 1];
      AfterRun(AfterRuns(t, runs[..|runs| - 1]), last.text, last.fate)
  }

  /** Every section written so far, each once and in order. */
  function Sections(runs: seq<Run>): string {
    if runs == [] then ""
    else
      var last := runs[|runs| - 1];
      var earlier := Sections(runs[..|runs| - 1]);
      if Written(last.fate) then earlier + Section(last.text) else earlier
  }

  /** The landed text begins the committed one, which begins the working file. */
  ghost predicate Consistent(t: Texts) {
    t.origin <= t.head <= t.working
  }

  lemma CleanRunAppends(t: Texts, text: string, fate: Fate)
    requires Consistent(t) && Clean(fate)
    ensures var after := AfterRun(t, text, fate);
      && Consistent(after)
      && after.working == (if Written(fate) then t.working + Section(text) else t.working)
      && (Pushed(fate) ==> after.origin == after.working)
  {
    assert t.origin + Unlanded(t.origin, t.working) == t.working;
  }

  /** In strings: a run that gets as far as writing leaves everything there was, a newline and its own text. */
  lemma WrittenRunAppends(t: Texts, text: string, fate: Fate)
    requires t.origin <= t.head <= t.working
    requires fate in {CommitFailed, PushRefused, PushMisreported, LandedUnconfirmed, Landed}
    ensures var after := AfterRun(t, text, fate);
      && after.working == t.working + "\n" + text
      && after.head == (if fate == CommitFailed then t.origin else t.working + "\n" + text)
      && after.origin == (if fate in {CommitFailed, PushRefused} then t.origin else t.working + "\n" + text)
  {
    CleanRunAppends(t, text, fate);
    Regroup(t.working, "\n", text);
  }

  lemma Regroup(a: string, b: string, c: string)
    ensures a + (b + c) == (a + b) + c
  {
  }

  /** Over any such runs, the landed text is a prefix of the local one, which holds everything written. */
  lemma {:induction false} LocalHoldsEverySection(doc: string, runs: seq<Run>)
    requires forall i :: 0 <= i < |runs| ==> Clean(runs[i].fate)
    ensures var t := AfterRuns(Texts(doc, doc, doc), runs);
      Consistent(t) && t.working == doc + Sections(runs)
    decreases |runs|
  {
    if runs == [] {
      assert doc + "" == doc;
    } else {
      var n := |runs| - 1;
      var front, last := runs[..n], runs[n];
      assert forall i :: 0 <= i < n ==> runs[i] == front[i];
      LocalHoldsEverySection(doc, front);
      CleanRunAppends(AfterRuns(Texts(doc, doc, doc), front), last.text, last.fate);
      Regroup(doc, Sections(front), Section(last.text));
    }
  }

  /** After a successful push the landed document is the initial one followed by every section written so far. */
  lemma PushLandsEverySection(doc: string, runs: seq<Run>)
    requires forall i :: 0 <= i < |runs| ==> Clean(runs[i].fate)
    requires runs != [] && Pushed(runs[|runs| - 1].fate)
    ensures AfterRuns(Texts(doc, doc, doc), runs).origin == doc + Sections(runs)
  {
    LocalHoldsEverySection(doc, runs);
    var n := |runs| - 1;
    LocalHoldsEverySection(doc, runs[..n]);
    CleanRunAppends(AfterRuns(Texts(doc, doc, doc), runs[..n]), runs[n].text, runs[n].fate);
  }

  // ----- runs that end anywhere -----

  /**
   What the runs amount to, without git: the text landed after the initial document, the local text not
   landed yet, and whether that text is in the local commit.
   */
  datatype Ledger = Ledger(landed: string, pending: string, committed: bool)

  /** `base` is the initial document's length: a write that is cut short keeps `kept` characters of the whole. */
  function AfterEntry(base: nat, l: Ledger, text: string, fate: Fate): Ledger {
    var full := l.pending + Section(text);
    match fate
    case Refused => l
    case GitFailedEarly => l
    case CheckoutFailed => if l.committed then l else Ledger(l.landed, "", true)
    case KilledAfterReset => if l.committed then l else Ledger(l.landed, "", true)
    case KilledAfterCheckout => Ledger(l.landed, "", true)
    case Torn(kept) =>
      var start := base + |l.landed|;
      if kept <= start then Ledger(l.landed, "", true)
      else Ledger(l.landed, if kept - start <= |full| then full[..kept - start] else full, false)
    case CommitFailed => Ledger(l.landed, full, false)
    case PushRefused => Ledger(l.landed, full, true)
    case PushMisreported => Ledger(l.landed + full, "", true)
    case LandedUnconfirmed => Ledger(l.landed + full, "", true)
    case Landed => Ledger(l.landed + full, "", true)
  }

  function LedgerAfter(base: nat, runs: seq<Run>): Ledger
    decreases |runs|
  {
    if runs == [] then Ledger("", "", true)
    else
      var last := runs[|runs| - 1];
      AfterEntry(base, LedgerAfter(base, runs[..|runs| - 1]), last.text, last.fate)
  }

  /** The three texts say what the ledger says; a torn write may leave less than the landed document in the file. */
  ghost predicate Matches(t: Texts, doc: string, l: Ledger) {
    && t.origin == doc + l.landed
    && t.head == (if l.committed then t.origin + l.pending else t.origin)
    && (t.working == t.origin + l.pending || (l.pending == "" && t.working <= t.origin))
  }

  lemma CarriesPending(t: Texts, doc: string, l: Ledger)
    requires Matches(t, doc, l)
    ensures Unlanded(t.origin, t.working) == l.pending
  {
    if t.working <= t.origin && t.origin <= t.working {
      assert |t.working| == |t.origin|;
    }
  }

  lemma EntryMatches(t: Texts, doc: string, l: Ledger, text: string, fate: Fate)
    requires Matches(t, doc, l)
    ensures Matches(AfterRun(t, text, fate), doc, AfterEntry(|doc|, l, text, fate))
  {
    CarriesPending(t, doc, l);
    var full := l.pending + Section(text);
    Regroup(t.origin, l.pending, Section(text));
    assert Composed(t, text) == t.origin + full;
    Regroup(doc, l.landed, full);
    match fate
    case Torn(kept) => TornMatches(t, doc, l, text, kept);
    case _ =>
  }

  lemma TornMatches(t: Texts, doc: string, l: Ledger, text: string, kept: nat)
    requires Matches(t, doc, l)
    ensures Matches(AfterRun(t, text, Torn(kept)), doc, AfterEntry(|doc|, l, text, Torn(kept)))
  {
    CarriesPending(t, doc, l);
    var full := l.pending + Section(text);
    Regroup(t.origin, l.pending, Section(text));
    var whole := t.origin + full;
    assert Composed(t, text) == whole;
    var n := |t.origin|;
    if kept <= n {
      assert whole[..kept] <= t.origin;
    } else if kept <= |whole| {
      assert whole[..kept] == t.origin + full[..kept - n];
    }
  }

  /** Over runs that end anywhere, the three texts are what the ledger says. */
  lemma {:induction false} AnyRunsMatch(doc: string, runs: seq<Run>)
    ensures Matches(AfterRuns(Texts(doc, doc, doc), runs), doc, LedgerAfter(|doc|, runs))
    decreases |runs|
  {
    if runs == [] {
      assert doc + "" == doc;
    } else {
      var n := |runs| - 1;
      AnyRunsMatch(doc, runs[..n]);
      EntryMatches(
        AfterRuns(Texts(doc, doc, doc), runs[..n]), doc, LedgerAfter(|doc|, runs[..n]), runs[n].text, runs[n].fate);
    }
  }

  /** The run got as far as writing its section. */
  predicate Attempted(fate: Fate) { fate.Torn? || Written(fate) }

  function AttemptedSections(runs: seq<Run>): string {
    if runs == [] then ""
    else
      var last := runs[|runs| - 1];
      AttemptedSections(runs[..|runs| - 1]) + (if Attempted(last.fate) then Section(last.text) else "")
  }

  /**
   The run loses text: unlanded text that is not committed, at a reset; any unlanded text, after the
   checkout; the rest of a torn write.
   */
  predicate Loses(base: nat, l: Ledger, text: string, fate: Fate) {
    match fate
    case CheckoutFailed => !l.committed && l.pending != ""
    case KilledAfterReset => !l.committed && l.pending != ""
    case KilledAfterCheckout => l.pending != ""
    case Torn(kept) => kept < base + |l.landed| + |l.pending| + |Section(text)|
    case _ => false
  }

  /** One run adds its section behind everything there is, unless it loses text; then less is left. */
  lemma EntryAdds(base: nat, l: Ledger, text: string, fate: Fate)
    ensures var after := AfterEntry(base, l, text, fate);
      var added := if Attempted(fate) then Section(text) else "";
      if Loses(base, l, text, fate) then
        |after.landed| + |after.pending| < |l.landed| + |l.pending| + |added|
      else after.landed + after.pending == (l.landed + l.pending) + added
  {
    var after := AfterEntry(base, l, text, fate);
    Regroup(l.landed, l.pending, Section(text));
    match fate
    case Torn(kept) =>
      var full := l.pending + Section(text);
      if !Loses(base, l, text, fate) {
        assert after.pending == full;
      }
    case _ =>
  }

  /** No run loses text. */
  predicate NoneLoses(base: nat, runs: seq<Run>)
    decreases |runs|
  {
    runs == [] ||
    (var n := |runs| - 1;
      && NoneLoses(base, runs[..n])
      && !Loses(base, LedgerAfter(base, runs[..n]), runs[n].text, runs[n].fate))
  }

  /** Local and landed text together are every section attempted iff no run lost any; otherwise they are shorter. */
  lemma {:induction false} LedgerHoldsIff(base: nat, runs: seq<Run>)
    ensures var l := LedgerAfter(base, runs);
      if NoneLoses(base, runs) then l.landed + l.pending == AttemptedSections(runs)
      else |l.landed| + |l.pending| < |AttemptedSections(runs)|
    decreases |runs|
  {
    if runs != [] {
      var n := |runs| - 1;
      LedgerHoldsIff(base, runs[..n]);
      EntryAdds(base, LedgerAfter(base, runs[..n]), runs[n].text, runs[n].fate);
    }
  }

  lemma SameBack(front: string, a: string, b: string)
    ensures front + a == front + b <==> a == b
  {
    assert (front + a)[|front|..] == a && (front + b)[|front|..] == b;
  }

  /** After a push, over runs that end anywhere: every section written has landed, in order, iff no run lost text. */
  lemma LandsEverythingIff(doc: string, runs: seq<Run>)
    requires runs != [] && Pushed(runs[|runs| - 1].fate)
    ensures AfterRuns(Texts(doc, doc, doc), runs).origin == doc + AttemptedSections(runs)
      <==> NoneLoses(|doc|, runs)
  {
    AnyRunsMatch(doc, runs);
    LedgerHoldsIff(|doc|, runs);
    var l := LedgerAfter(|doc|, runs);
    assert l.pending == "" && l.landed + "" == l.landed;
    SameBack(doc, l.landed, AttemptedSections(runs));
  }

  // ----- each text in its place -----

  /** The run wrote its text, in whole or in part. */
  ghost predicate Wrote(run: Run) {
    run.fate.Torn? || run.fate in {CommitFailed, PushRefused, PushMisreported, LandedUnconfirmed, Landed}
  }

  /** The piece of a run that wrote is a newline and that run's own text; any other run's piece is empty. */
  ghost predicate Piece(text: string, starts: seq<nat>, i: nat, run: Run)
    requires i + 1 < |starts|
  {
    && starts[i] <= starts[i + 1] <= |text|
    && text[starts[i]..starts[i + 1]] == if Wrote(run) then "\n" + run.text else ""
  }

  /** `starts` cuts `text` up, from `first` to its end, into one piece for each run. */
  ghost predicate Cuts(text: string, runs: seq<Run>, first: nat, starts: seq<nat>) {
    && |starts| == |runs| + 1 && starts[0] == first && starts[|runs|] == |text|
    && forall i: nat | i < |runs| :: Piece(text, starts, i, runs[i])
  }

  lemma CutsLonger(text: string, runs: seq<Run>, first: nat, starts: seq<nat>, run: Run, more: string)
    requires Cuts(text, runs, first, starts) && more == (if Wrote(run) then "\n" + run.text else "")
    ensures Cuts(text + more, runs + [run], first, starts + [|text + more|])
  {
    var all, cuts, whole := runs + [run], starts + [|text + more|], text + more;
    forall i: nat | i < |all| ensures Piece(whole, cuts, i, all[i]) {
      if i < |runs| {
        assert Piece(text, starts, i, runs[i]);
        assert cuts[i] == starts[i] && cuts[i + 1] == starts[i + 1];
        assert whole[starts[i]..starts[i + 1]] == text[starts[i]..starts[i + 1]];
      } else {
        assert cuts[i] == |text| && cuts[i + 1] == |whole| && whole[|text|..|whole|] == more;
      }
    }
  }

  lemma {:induction false} SectionsCut(doc: string, runs: seq<Run>) returns (starts: seq<nat>)
    ensures Cuts(doc + AttemptedSections(runs), runs, |doc|, starts)
    decreases |runs|
  {
    if runs == [] {
      assert doc + "" == doc;
      starts := [|doc|];
    } else {
      var n := |runs| - 1;
      var front, last := runs[..n], runs[n];
      var earlier := SectionsCut(doc, front);
      var more := if Wrote(last) then "\n" + last.text else "";
      var before := AttemptedSections(front);
      CutsLonger(doc + before, front, |doc|, earlier, last, more);
      starts := earlier + [|(doc + before) + more|];
      OneMoreSection(runs, more);
      Regroup(doc, before, more);
      assert front + [last] == runs;
    }
  }

  lemma OneMoreSection(runs: seq<Run>, more: string)
    requires runs != [] && var last := runs[|runs| - 1]; more == if Wrote(last) then "\n" + last.text else ""
    ensures AttemptedSections(runs) == AttemptedSections(runs[..|runs| - 1]) + more
  {
  }

  /** After a push, when no run lost text: every text ever written stands in the landed document, once and in order. */
  lemma EveryTextLands(doc: string, runs: seq<Run>) returns (starts: seq<nat>)
    requires runs != [] && runs[|runs| - 1].fate in {PushMisreported, LandedUnconfirmed, Landed}
    requires NoneLoses(|doc|, runs)
    ensures var landed := AfterRuns(Texts(doc, doc, doc), runs).origin;
      doc <= landed && Cuts(landed, runs, |doc|, starts)
  {
    LandsEverythingIff(doc, runs);
    starts := SectionsCut(doc, runs);
  }

  /** Runs that fail only at the guards, at commit or at push lose nothing, so this holds for them outright. */
  lemma {:induction false} CleanRunsLoseNothing(base: nat, runs: seq<Run>)
    requires forall run :: run in runs ==>
      run.fate in {Refused, GitFailedEarly, CommitFailed, PushRefused, PushMisreported, LandedUnconfirmed, Landed}
    ensures NoneLoses(base, runs)
    decreases |runs|
  {
    if runs != [] {
      CleanRunsLoseNothing(base, runs[..|runs| - 1]);
    }
  }

  /** What a run can lose is in no commit and in no landed document, or is cut off from a torn write. */
  lemma LossMeans(base: nat, l: Ledger, text: string, fate: Fate)
    ensures Loses(base, l, text, fate) <==>
      || (fate in {CheckoutFailed, KilledAfterReset} && !l.committed && l.pending != "")
      || (fate == KilledAfterCheckout && l.pending != "")
      || (fate.Torn? && fate.kept < base + |l.landed| + |l.pending| + 1 + |text|)
  {
  }

  // ----- the window in which a carried section can be lost -----

  /** Everything the local copy held is still there, in front of whatever the run added. */
  ghost predicate NothingLost(t: Texts, text: string, fate: Fate) {
    t.working <= AfterRun(t, text, fate).working
  }

  /**
   In every reachable state: a run loses local text iff it ends between the hard reset and the end of the
   write, and the part not reached again was not safe elsewhere: in the local commit before the checkout,
   in the landed document before the write, in the written bytes during it.
   */
  lemma NothingLostIff(t: Texts, doc: string, l: Ledger, text: string, fate: Fate)
    requires Matches(t, doc, l)
    ensures NothingLost(t, text, fate) <==>
      match fate
      case CheckoutFailed => l.committed || l.pending == ""
      case KilledAfterReset => l.committed || l.pending == ""
      case KilledAfterCheckout => l.pending == ""
      case Torn(kept) => |t.working| <= kept
      case _ => true
  {
    CarriesPending(t, doc, l);
    Regroup(t.origin, l.pending, Section(text));
    var whole := Composed(t, text);
    assert whole == (t.origin + l.pending) + Section(text) && t.working <= whole;
    match fate
    case Torn(kept) =>
      if |t.working| <= kept <= |whole| {
        assert t.working <= whole[..kept];
      }
    case KilledAfterCheckout =>
      if t.working <= t.origin {
        assert l.pending != "" ==> |t.working| > |t.origin|;
      }
    case _ =>
  }

  /** In every reachable state: the promise that the next run carries this section is kept iff the commit failed. */
  lemma CarryPromiseIff(t: Texts, doc: string, l: Ledger, text: string, fate: Fate)
    requires Matches(t, doc, l) && SomeGitStepFailed(fate)
    ensures var after := AfterRun(t, text, fate);
      Unlanded(after.origin, after.working) == Unlanded(t.origin, t.working) + Section(text) <==> fate.CommitFailed?
  {
    EntryMatches(t, doc, l, text, fate);
    CarriesPending(t, doc, l);
    CarriesPending(AfterRun(t, text, fate), doc, AfterEntry(|doc|, l, text, fate));
    assert |l.pending + Section(text)| > |l.pending|;
  }

  lemma SameFront(a: string, b: string, tail: string)
    requires a + tail == b + tail
    ensures a == b
  {
    assert |a| == |b|;
    assert (a + tail)[..|a|] == a && (b + tail)[..|a|] == b;
  }

  /** When someone else changed the landed document, the carried sections survive iff it still begins the local copy. */
  lemma ForeignWriterIff(t: Texts, foreign: string, text: string)
    ensures AfterRun(t.(origin := foreign), text, Landed).origin == t.working + Section(text) <==> foreign <= t.working
  {
    var result := AfterRun(t.(origin := foreign), text, Landed).origin;
    if foreign <= t.working {
      assert foreign + t.working[|foreign|..] == t.working;
    } else {
      assert result == foreign + Section(text) by { assert foreign + "" == foreign; }
      if result == t.working + Section(text) {
        SameFront(foreign, t.working, Section(text));
      }
    }
  }
}
