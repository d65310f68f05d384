/** Which lanes of a host are busy: what runs below a lane's pane, and what runs outside every pane. */
module LaneBusy {
  import opened Sequences
  import opened Sorting
  import opened ProcessTree

  /** The two command patterns, as opaque tests. */
  datatype Patterns = Patterns(train: string -> bool, toolShell: string -> bool, ownScript: string -> bool)

  datatype Reason = Activity(state: string) | Train(pid: string) | ToolCommand(pid: string)

  function CommandOf(procs: seq<Process>, pid: string): string {
    match Find(procs, pid)
    case Some(p) => p.command
    case None => ""
  }

  function ParentOf(procs: seq<Process>, pid: string): string {
    match Find(procs, pid)
    case Some(p) => p.parent
    case None => ""
  }

  /** A running process of the train, not a shell that only names one. */
  predicate IsTrain(procs: seq<Process>, pats: Patterns, pid: string) {
    pats.train(CommandOf(procs, pid)) && !pats.toolShell(CommandOf(procs, pid))
  }

  predicate IsShell(procs: seq<Process>, pats: Patterns, pid: string) {
    pats.toolShell(CommandOf(procs, pid))
  }

  /** A tool shell that is the pane's own child, or whose parent is no tool shell. */
  predicate TopmostShell(procs: seq<Process>, pats: Patterns, child: string, pid: string) {
    IsShell(procs, pats, pid) && (pid == child || !IsShell(procs, pats, ParentOf(procs, pid)))
  }

  predicate Idle(state: Option<string>) { state == Some("idle") }

  /** A tool shell directly under the pane, or under something that is no tool shell. */
  ghost predicate ReportedShell(procs: seq<Process>, pats: Patterns, pane: string, pid: string) {
    IsShell(procs, pats, pid) && (ParentOf(procs, pid) == pane || !IsShell(procs, pats, ParentOf(procs, pid)))
  }

  /** The pids strictly below the pane; none when there is no pane. */
  ghost predicate InLane(procs: seq<Process>, pane: string, pid: string) {
    pane != "" && Below(procs, pid, pane)
  }

  function StateReasons(state: Option<string>): set<Reason> {
    if Idle(state) then {} else {Activity(if state.Some? then state.value else "None")}
  }

  /** One reason for every train and for every reported shell among `pids`. */
  ghost function BlockingReasons(procs: seq<Process>, pats: Patterns, pane: string, pids: set<string>): set<Reason> {
    Trains(procs, pats, pids) + set p | p in pids && ReportedShell(procs, pats, pane, p) :: ToolCommand(p)
  }

  function Trains(procs: seq<Process>, pats: Patterns, pids: set<string>): set<Reason> {
    set p | p in pids && IsTrain(procs, pats, p) :: Train(p)
  }

  function Tools(procs: seq<Process>, pats: Patterns, child: string, pids: set<string>): set<Reason> {
    set p | p in pids && TopmostShell(procs, pats, child, p) :: ToolCommand(p)
  }

  /** The processes that are one of `kids` or below one of them. */
  ghost function Under(procs: seq<Process>, kids: seq<string>): set<string> {
    set q | q in Pids(procs) && UnderOne(procs, kids, q)
  }

  // ----- walking one branch -----

  function Lookup(kids: map<string, seq<string>>, pid: string): seq<string> {
    if pid in kids then kids[pid] else []
  }

  ghost predicate Tabulates(kids: map<string, seq<string>>, procs: seq<Process>) {
    forall pid :: Lookup(kids, pid) == KidsOf(procs, pid)
  }

  /** The `kids` dictionary of `lane_reasons`. */
  method KidsTable(procs: seq<Process>) returns (kids: map<string, seq<string>>)
    ensures Tabulates(kids, procs)
  {
    kids := map[];
    for i := 0 to |procs|
      invariant Tabulates(kids, procs[..i])
    {
      var p := procs[i];
      TabulateStep(kids, procs[..i], p);
      assert procs[..i + 1] == procs[..i] + [p];
      kids := kids[p.parent := Lookup(kids, p.parent) + [p.pid]];
    }
    assert procs[..|procs|] == procs;
  }

  lemma TabulateStep(kids: map<string, seq<string>>, procs: seq<Process>, p: Process)
    requires Tabulates(kids, procs)
    ensures Tabulates(kids[p.parent := Lookup(kids, p.parent) + [p.pid]], procs + [p])
  {
    var longer := kids[p.parent := Lookup(kids, p.parent) + [p.pid]];
    forall pid ensures Lookup(longer, pid) == KidsOf(procs + [p], pid) {
      KidsAppend(procs, p, pid);
      assert Lookup(kids, pid) == KidsOf(procs, pid);
    }
  }

  lemma {:induction false} KidsAppend(procs: seq<Process>, p: Process, pid: string)
    ensures KidsOf(procs + [p], pid) == KidsOf(procs, pid) + (if p.parent == pid then [p.pid] else [])
  {
    if procs == [] {
      assert procs + [p] == [p] && [p][1..] == [];
    } else {
      assert (procs + [p])[1..] == procs[1..] + [p];
      KidsAppend(procs[1..], p, pid);
    }
  }

  method TrainPass(procs: seq<Process>, pats: Patterns, pids: seq<string>) returns (found: seq<Reason>)
    requires NoDuplicates(pids)
    ensures ElementSet(found) == Trains(procs, pats, ElementSet(pids)) && NoDuplicates(found)
  {
    found := [];
    for i := 0 to |pids|
      invariant ElementSet(found) == Trains(procs, pats, ElementSet(pids[..i])) && NoDuplicates(found)
    {
      PrefixGrows(pids, i);
      if IsTrain(procs, pats, pids[i]) {
        JoinReasons(found, [Train(pids[i])]);
        found := found + [Train(pids[i])];
      }
    }
    assert pids[..|pids|] == pids;
  }

  method ToolPass(procs: seq<Process>, pats: Patterns, child: string, pids: seq<string>) returns (found: seq<Reason>)
    requires NoDuplicates(pids)
    ensures ElementSet(found) == Tools(procs, pats, child, ElementSet(pids)) && NoDuplicates(found)
  {
    found := [];
    for i := 0 to |pids|
      invariant ElementSet(found) == Tools(procs, pats, child, ElementSet(pids[..i])) && NoDuplicates(found)
    {
      PrefixGrows(pids, i);
      if TopmostShell(procs, pats, child, pids[i]) {
        JoinReasons(found, [ToolCommand(pids[i])]);
        found := found + [ToolCommand(pids[i])];
      }
    }
    assert pids[..|pids|] == pids;
  }

  lemma PrefixGrows(pids: seq<string>, i: nat)
    requires NoDuplicates(pids) && i < |pids|
    ensures ElementSet(pids[..i + 1]) == ElementSet(pids[..i]) + {pids[i]} && pids[i] !in ElementSet(pids[..i])
  {
    assert pids[..i + 1] == pids[..i] + [pids[i]];
  }

  lemma PaneStep(procs: seq<Process>, pane: string, child: string)
    requires DistinctPids(procs) && Acyclic(procs, pane) && child in KidsOf(procs, pane)
    ensures OnPath(procs, pane, pane, {}) && OnPath(procs, pane, child, {child})
  {
    assert Up(procs, pane, 0) == Some(pane);
    StepDown(procs, pane, pane, {}, child);
    assert {} + {child} == {child};
  }

  /** A child of the pane and everything below it, each once. */
  method WalkBranch(procs: seq<Process>, ghost pane: string, child: string) returns (sub: seq<string>)
    requires DistinctPids(procs) && Acyclic(procs, pane) && child in KidsOf(procs, pane)
    ensures ElementSet(sub) == Under(procs, [child]) && NoDuplicates(sub)
  {
    PaneStep(procs, pane, child);
    var tree := TreeOf(procs, pane, child, KidsOf(procs, child), {child});
    sub := [child] + tree;
    forall q ensures q in sub <==> UnderOne(procs, [child], q) {
      TreeMembers(procs, pane, child, KidsOf(procs, child), {child}, q);
      UnderHead(procs, [child], q);
      assert [child][1..] == [];
    }
    UnderArePids(procs, pane, [child]);
    KidsDistinct(procs, child);
    TreeDistinct(procs, pane, child, KidsOf(procs, child), {child});
    TreeMembers(procs, pane, child, KidsOf(procs, child), {child}, child);
    NotBelowItself(procs, pane, pane, child, {});
    assert sub == [child] + tree + [];
    JoinDistinct(child, tree, []);
  }

  lemma UnderArePids(procs: seq<Process>, pane: string, kids: seq<string>)
    requires DistinctPids(procs) && forall i :: 0 <= i < |kids| ==> kids[i] in KidsOf(procs, pane)
    ensures forall q :: UnderOne(procs, kids, q) ==> q in Pids(procs)
  {
    forall q | UnderOne(procs, kids, q) ensures q in Pids(procs) {
      var i, j: nat :| 0 <= i < |kids| && Up(procs, q, j) == Some(kids[i]);
      if j == 0 {
        UpOne(procs, kids[i], pane, 0);
      }
    }
  }

  lemma OnlyChildHangsOffPane(procs: seq<Process>, pane: string, child: string, pid: string)
    requires DistinctPids(procs) && Acyclic(procs, pane) && child in KidsOf(procs, pane)
    requires UnderOne(procs, [child], pid)
    ensures pid == child <==> ParentOf(procs, pid) == pane && pid in KidsOf(procs, pane)
    ensures pid == child <==> ParentOf(procs, pid) == pane
  {
    PaneStep(procs, pane, child);
    KidsMembers(procs, pane, child);
    KidsMembers(procs, pane, pid);
    var i, j: nat :| 0 <= i < |[child]| && Up(procs, pid, j) == Some([child][i]);
    assert j > 0 ==> Find(procs, pid).Some?;
    if pid in KidsOf(procs, pane) {
      assert Up(procs, pane, 0) == Some(pane) && Up(procs, pid, 0) == Some(pid);
      SiblingsApart(procs, pane, pane, pid, child, pid, 0, j);
    }
  }

  /** Within one branch, hanging off the pane means being the child the branch starts with. */
  lemma BranchTools(procs: seq<Process>, pats: Patterns, pane: string, child: string)
    requires DistinctPids(procs) && Acyclic(procs, pane) && child in KidsOf(procs, pane)
    ensures var pids := Under(procs, [child]);
      Trains(procs, pats, pids) + Tools(procs, pats, child, pids) == BlockingReasons(procs, pats, pane, pids)
  {
    var pids := Under(procs, [child]);
    forall p | p in pids ensures TopmostShell(procs, pats, child, p) <==> ReportedShell(procs, pats, pane, p) {
      OnlyChildHangsOffPane(procs, pane, child, p);
    }
  }

  /** One child of the pane: its branch, walked once for trains and once for tool commands. */
  method JudgeBranch(procs: seq<Process>, pats: Patterns, ghost pane: string, child: string)
    returns (found: seq<Reason>, pids: set<string>)
    requires DistinctPids(procs) && Acyclic(procs, pane) && child in KidsOf(procs, pane)
    ensures pids == Under(procs, [child])
    ensures ElementSet(found) == BlockingReasons(procs, pats, pane, pids) && NoDuplicates(found)
  {
    var sub := WalkBranch(procs, pane, child);
    pids := ElementSet(sub);
    var trains := TrainPass(procs, pats, sub);
    var tools := ToolPass(procs, pats, child, sub);
    BranchTools(procs, pats, pane, child);
    JoinReasons(trains, tools);
    found := trains + tools;
  }

  lemma JoinReasons(xs: seq<Reason>, ys: seq<Reason>)
    requires NoDuplicates(xs) && NoDuplicates(ys) && ElementSet(xs) !! ElementSet(ys)
    ensures NoDuplicates(xs + ys) && ElementSet(xs + ys) == ElementSet(xs) + ElementSet(ys)
  {
    assert forall i :: 0 <= i < |xs| ==> xs[i] in ElementSet(xs);
    assert forall i :: 0 <= i < |ys| ==> ys[i] in ElementSet(ys);
  }

  // ----- one lane -----

  lemma UnderSplit(procs: seq<Process>, kids: seq<string>, last: string, pid: string)
    ensures UnderOne(procs, kids + [last], pid) <==> UnderOne(procs, kids, pid) || UnderOne(procs, [last], pid)
  {
    var all := kids + [last];
    if UnderOne(procs, all, pid) {
      var i, j: nat :| 0 <= i < |all| && Up(procs, pid, j) == Some(all[i]);
      if i < |kids| { assert all[i] == kids[i]; } else { assert [last][0] == all[i]; }
    }
    if UnderOne(procs, kids, pid) {
      var i, j: nat :| 0 <= i < |kids| && Up(procs, pid, j) == Some(kids[i]);
      assert all[i] == kids[i];
    }
    if UnderOne(procs, [last], pid) {
      var i, j: nat :| 0 <= i < |[last]| && Up(procs, pid, j) == Some([last][i]);
      assert all[|kids|] == last;
    }
  }

  /** Below the pane is below, or equal to, one of its children. */
  lemma UnderKidsIsBelow(procs: seq<Process>, pane: string, pid: string)
    requires DistinctPids(procs)
    ensures UnderOne(procs, KidsOf(procs, pane), pid) <==> Below(procs, pid, pane)
  {
    var kids := KidsOf(procs, pane);
    if UnderOne(procs, kids, pid) {
      var i, j: nat :| 0 <= i < |kids| && Up(procs, pid, j) == Some(kids[i]);
      UpOne(procs, kids[i], pane, 0);
      UpAdd(procs, pid, j, 1);
      assert Up(procs, pid, j + 1) == Some(pane);
    }
    if Below(procs, pid, pane) {
      var k: nat :| k > 0 && Up(procs, pid, k) == Some(pane);
      UpAdd(procs, pid, k - 1, 1);
      var kid := Up(procs, pid, k - 1).value;
      KidsMembers(procs, pane, kid);
      var n :| 0 <= n < |kids| && kids[n] == kid;
    }
  }

  /** The first `n + 1` children: the first `n`, and one more branch that shares nothing with theirs. */
  lemma UnderGrows(procs: seq<Process>, pane: string, kids: seq<string>, n: nat)
    requires DistinctPids(procs) && Acyclic(procs, pane) && kids == KidsOf(procs, pane) && n < |kids|
    ensures Under(procs, kids[..n + 1]) == Under(procs, kids[..n]) + Under(procs, [kids[n]])
    ensures Under(procs, kids[..n]) !! Under(procs, [kids[n]])
  {
    var front, last := kids[..n], kids[n];
    assert kids[..n + 1] == front + [last];
    forall q ensures UnderOne(procs, front + [last], q) <==> UnderOne(procs, front, q) || UnderOne(procs, [last], q) {
      UnderSplit(procs, front, last, q);
    }
    forall q | UnderOne(procs, [last], q) ensures !UnderOne(procs, front, q) {
      BranchesApart(procs, pane, kids, n, q);
    }
  }

  lemma BranchesApart(procs: seq<Process>, pane: string, kids: seq<string>, n: nat, q: string)
    requires DistinctPids(procs) && Acyclic(procs, pane) && kids == KidsOf(procs, pane) && n < |kids|
    requires UnderOne(procs, [kids[n]], q)
    ensures !UnderOne(procs, kids[..n], q)
  {
    KidsDistinct(procs, pane);
    var h, j: nat :| 0 <= h < |[kids[n]]| && Up(procs, q, j) == Some([kids[n]][h]);
    assert Up(procs, pane, 0) == Some(pane);
    forall i, l: nat | 0 <= i < n ensures Up(procs, q, l) != Some(kids[..n][i]) {
      if Up(procs, q, l) == Some(kids[i]) {
        if j <= l {
          SiblingsApart(procs, pane, pane, kids[n], kids[i], q, j, l);
        } else {
          SiblingsApart(procs, pane, pane, kids[i], kids[n], q, l, j);
        }
      }
    }
  }

  lemma ReasonsUnion(procs: seq<Process>, pats: Patterns, pane: string, a: set<string>, b: set<string>)
    ensures BlockingReasons(procs, pats, pane, a + b)
      == BlockingReasons(procs, pats, pane, a) + BlockingReasons(procs, pats, pane, b)
    ensures a !! b ==> BlockingReasons(procs, pats, pane, a) !! BlockingReasons(procs, pats, pane, b)
  {
  }

  method BranchLoop(procs: seq<Process>, pats: Patterns, pane: string) returns (reasons: seq<Reason>, pids: set<string>)
    requires DistinctPids(procs) && Acyclic(procs, pane)
    ensures pids == Under(procs, KidsOf(procs, pane))
    ensures ElementSet(reasons) == BlockingReasons(procs, pats, pane, pids) && NoDuplicates(reasons)
  {
    var table := KidsTable(procs);
    var kids := Lookup(table, pane);
    assert kids == KidsOf(procs, pane);
    reasons, pids := [], {};
    for i := 0 to |kids|
      invariant pids == Under(procs, kids[..i])
      invariant ElementSet(reasons) == BlockingReasons(procs, pats, pane, pids) && NoDuplicates(reasons)
    {
      var found, more := JudgeBranch(procs, pats, pane, kids[i]);
      UnderGrows(procs, pane, kids, i);
      ReasonsUnion(procs, pats, pane, pids, more);
      JoinReasons(reasons, found);
      pids := pids + more;
      reasons := reasons + found;
    }
    assert kids[..|kids|] == kids;
  }

  /**
   `lane_reasons`; an empty pane stands for a lane without one. The pids are the strict descendants
   of the pane; the reasons are the lane's activity unless it is idle, and one for each train and
   each topmost tool shell below the pane.
   */
  method LaneReasons(state: Option<string>, pane: string, procs: seq<Process>, pats: Patterns)
    returns (reasons: seq<Reason>, pids: set<string>)
    requires DistinctPids(procs) && (pane != "" ==> Acyclic(procs, pane))
    ensures forall pid :: pid in pids <==> InLane(procs, pane, pid)
    ensures ElementSet(reasons) == StateReasons(state) + BlockingReasons(procs, pats, pane, pids)
    ensures NoDuplicates(reasons)
  {
    reasons := if Idle(state) then [] else [Activity(if state.Some? then state.value else "None")];
    pids := {};
    assert ElementSet(reasons) == StateReasons(state);
    if pane == "" {
      return;
    }
    var found;
    found, pids := BranchLoop(procs, pats, pane);
    JoinReasons(reasons, found);
    reasons := reasons + found;
    forall pid ensures pid in pids <==> Below(procs, pid, pane) {
      UnderKidsIsBelow(procs, pane, pid);
      UnderArePids(procs, pane, KidsOf(procs, pane));
    }
  }

  lemma {:induction false} CommandIs(procs: seq<Process>, i: nat)
    requires DistinctPids(procs) && i < |procs|
    ensures CommandOf(procs, procs[i].pid) == procs[i].command && ParentOf(procs, procs[i].pid) == procs[i].parent
    decreases i
  {
    if i > 0 {
      assert procs[0].pid != procs[i].pid && procs[1..][i - 1] == procs[i];
      CommandIs(procs[1..], i - 1);
    }
  }

  /**
   Process by process: a train reason for one whose command is a train's and no tool shell's; a tool
   reason for a tool shell directly under the pane, or under a process that is no tool shell.
   */
  lemma ReasonsAre(procs: seq<Process>, pats: Patterns, pane: string, pids: set<string>, i: nat, j: nat)
    requires DistinctPids(procs) && i < |procs| && j < |procs| && procs[i].parent == procs[j].pid
    ensures var reasons := BlockingReasons(procs, pats, pane, pids);
      var p := procs[i];
      && (Train(p.pid) in reasons <==> p.pid in pids && pats.train(p.command) && !pats.toolShell(p.command))
      && (ToolCommand(p.pid) in reasons <==>
            && p.pid in pids && pats.toolShell(p.command)
            && (p.parent == pane || !pats.toolShell(procs[j].command)))
  {
    CommandIs(procs, i);
    CommandIs(procs, j);
  }

  /** A tool shell nested in others always has a reported one at or above it. */
  lemma {:induction false} NestedShellIsReported(procs: seq<Process>, pats: Patterns, pane: string, pid: string, k: nat)
    returns (top: string)
    requires k > 0 && Up(procs, pid, k) == Some(pane) && IsShell(procs, pats, pid)
    ensures Below(procs, top, pane) && ReportedShell(procs, pats, pane, top)
    decreases k
  {
    var parent := ParentOf(procs, pid);
    if parent == pane || !IsShell(procs, pats, parent) {
      top := pid;
    } else {
      assert k > 1;
      top := NestedShellIsReported(procs, pats, pane, parent, k - 1);
    }
  }

  ghost predicate RunsNothing(procs: seq<Process>, pats: Patterns, pane: string) {
    forall pid :: Below(procs, pid, pane) ==> !IsShell(procs, pats, pid) && !IsTrain(procs, pats, pid)
  }

  /** Nothing that blocks runs below the pane: no command there matches either pattern. */
  lemma RunsNothingIff(procs: seq<Process>, pats: Patterns, pane: string)
    requires DistinctPids(procs)
    ensures RunsNothing(procs, pats, pane) <==>
      forall i :: 0 <= i < |procs| && Below(procs, procs[i].pid, pane) ==>
        !pats.toolShell(procs[i].command) && !pats.train(procs[i].command)
  {
    forall i | 0 <= i < |procs| ensures CommandOf(procs, procs[i].pid) == procs[i].command {
      CommandIs(procs, i);
    }
    forall pid | Below(procs, pid, pane) ensures exists i :: 0 <= i < |procs| && procs[i].pid == pid {
      var k: nat :| k > 0 && Up(procs, pid, k) == Some(pane);
      assert Find(procs, pid).Some?;
    }
  }

  /** A lane may be restarted iff Forge calls it idle and no tool shell and no train runs below its pane. */
  lemma RestartableIff(procs: seq<Process>, pats: Patterns, state: Option<string>, pane: string, pids: set<string>)
    requires forall pid :: pid in pids <==> InLane(procs, pane, pid)
    ensures StateReasons(state) + BlockingReasons(procs, pats, pane, pids) == {}
      <==> state == Some("idle") && (pane != "" ==> RunsNothing(procs, pats, pane))
    ensures StateReasons(state) == (match state
      case None => {Activity("None")}
      case Some(s) => if s == "idle" then {} else {Activity(s)})
  {
    if pane != "" && BlockingReasons(procs, pats, pane, pids) == {} {
      forall pid | Below(procs, pid, pane) ensures !IsShell(procs, pats, pid) && !IsTrain(procs, pats, pid) {
        if IsShell(procs, pats, pid) || IsTrain(procs, pats, pid) {
          DescendantBlocks(procs, pats, pane, pids, pid);
        }
      }
    }
    if Idle(state) && (pane != "" ==> RunsNothing(procs, pats, pane)) {
      assert forall p :: p in pids ==> !ReportedShell(procs, pats, pane, p) && !IsTrain(procs, pats, p);
    }
  }

  lemma DescendantBlocks(procs: seq<Process>, pats: Patterns, pane: string, pids: set<string>, pid: string)
    requires pane != "" && forall p :: p in pids <==> InLane(procs, pane, p)
    requires Below(procs, pid, pane) && (IsShell(procs, pats, pid) || IsTrain(procs, pats, pid))
    ensures BlockingReasons(procs, pats, pane, pids) != {}
  {
    assert InLane(procs, pane, pid);
    if IsShell(procs, pats, pid) {
      var k: nat :| k > 0 && Up(procs, pid, k) == Some(pane);
      var top := NestedShellIsReported(procs, pats, pane, pid, k);
      assert InLane(procs, pane, top);
      assert ToolCommand(top) in BlockingReasons(procs, pats, pane, pids);
    } else {
      assert Train(pid) in BlockingReasons(procs, pats, pane, pids);
    }
  }

  // ----- the whole host -----

  function HostTrains(procs: seq<Process>, pats: Patterns, lanePids: set<string>): seq<string> {
    if procs == [] then []
    else
      var p := procs[0];
      var here := pats.train(p.command) && p.pid !in lanePids && !pats.ownScript(p.command);
      (if here then [p.pid] else []) + HostTrains(procs[1..], pats, lanePids)
  }

  /** A train by its command, and not this script itself. */
  predicate RunsTrain(pats: Patterns, p: Process) { pats.train(p.command) && !pats.ownScript(p.command) }

  /** A pid is listed iff it is the pid of a train outside the lanes. */
  lemma {:induction false} HostTrainsIff(procs: seq<Process>, pats: Patterns, lanePids: set<string>, pid: string)
    ensures pid in HostTrains(procs, pats, lanePids) <==>
      pid !in lanePids && exists i :: 0 <= i < |procs| && procs[i].pid == pid && RunsTrain(pats, procs[i])
  {
    if procs != [] {
      var rest := procs[1..];
      HostTrainsIff(rest, pats, lanePids, pid);
      if i :| 0 <= i < |rest| && rest[i].pid == pid && RunsTrain(pats, rest[i]) {
        assert procs[i + 1] == rest[i];
      }
      if i :| 0 <= i < |procs| && procs[i].pid == pid && RunsTrain(pats, procs[i]) {
        if i > 0 { assert rest[i - 1] == procs[i]; }
      }
    }
  }

  lemma TrainsOutside(procs: seq<Process>, pats: Patterns, lanePids: set<string>)
    ensures forall pid :: pid in HostTrains(procs, pats, lanePids) <==>
      pid !in lanePids && exists i :: 0 <= i < |procs| && procs[i].pid == pid && RunsTrain(pats, procs[i])
  {
    forall pid
      ensures pid in HostTrains(procs, pats, lanePids) <==>
        pid !in lanePids && exists i :: 0 <= i < |procs| && procs[i].pid == pid && RunsTrain(pats, procs[i])
    {
      HostTrainsIff(procs, pats, lanePids, pid);
    }
  }

  lemma NoneOrSome(reasons: seq<Reason>)
    ensures reasons == [] <==> ElementSet(reasons) == {}
  {
    if reasons != [] {
      assert reasons[0] in ElementSet(reasons);
    }
  }

  datatype Lane = Lane(state: Option<string>, pane: string)

  ghost predicate JudgedBusy(procs: seq<Process>, pats: Patterns, lane: Lane) {
    lane.state != Some("idle") || (lane.pane != "" && !RunsNothing(procs, pats, lane.pane))
  }

  /** `main`: every lane judged, and the trains that belong to none. */
  method JudgeHost(lanes: seq<Lane>, procs: seq<Process>, pats: Patterns)
    returns (busy: seq<nat>, hostTrains: seq<string>, exitCode: int)
    requires DistinctPids(procs)
    requires forall i :: 0 <= i < |lanes| && lanes[i].pane != "" ==> Acyclic(procs, lanes[i].pane)
    ensures forall i: nat :: i in busy <==> i < |lanes| && JudgedBusy(procs, pats, lanes[i])
    ensures forall i, j :: 0 <= i < j < |busy| ==> busy[i] < busy[j]
    ensures exitCode == if busy == [] then 0 else 1
    ensures forall pid :: pid in hostTrains <==>
      && (exists i :: 0 <= i < |procs| && procs[i].pid == pid && RunsTrain(pats, procs[i]))
      && (forall i :: 0 <= i < |lanes| ==> !InLane(procs, lanes[i].pane, pid))
  {
    busy := [];
    var lanePids: set<string> := {};
    for n := 0 to |lanes|
      invariant forall i: nat :: i in busy <==> i < n && JudgedBusy(procs, pats, lanes[i])
      invariant forall i :: 0 <= i < |busy| ==> busy[i] < n
      invariant forall i, j :: 0 <= i < j < |busy| ==> busy[i] < busy[j]
      invariant forall pid :: pid in lanePids <==> exists i :: 0 <= i < n && InLane(procs, lanes[i].pane, pid)
    {
      var reasons, pids := LaneReasons(lanes[n].state, lanes[n].pane, procs, pats);
      RestartableIff(procs, pats, lanes[n].state, lanes[n].pane, pids);
      NoneOrSome(reasons);
      lanePids := lanePids + pids;
      if reasons != [] {
        busy := busy + [n];
      }
    }
    hostTrains := HostTrains(procs, pats, lanePids);
    TrainsOutside(procs, pats, lanePids);
    exitCode := if busy == [] then 0 else 1;
  }
}
