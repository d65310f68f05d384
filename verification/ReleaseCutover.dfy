/**
 The fail-closed release cutover: every guard before the first change, and a rollback after any
 failure that follows it. Every outside step may fail at any point.
 */
module ReleaseCutover {
  import opened Sequences

  // ----- snapshots and their comparison -----

  datatype Process = Process(pid: int, startTicks: string, boot: string, argv: string)

  datatype UnitState = UnitState(process: Process, files: map<string, string>)

  /** What must survive the release; the inventories are keyed by their ids. */
  datatype Snapshot = Snapshot(
    unit: UnitState, processes: map<string, Process>, liveGateways: map<string, string>,
    sessions: map<string, string>, replay: map<string, string>, checks: seq<string>, stableFiles: map<string, string>)

  datatype GuardError =
    | ProtectedProcessChanged | PreservationMismatch | UnitFileChanged | NotRestarted | InventoryChanged
    | DropInChanged | UnitChanged | RuntimeAppeared

  /** The inventories other than the processes and the unit. */
  predicate SameInventories(before: Snapshot, after: Snapshot) {
    && before.liveGateways == after.liveGateways && before.sessions == after.sessions
    && before.replay == after.replay && before.checks == after.checks && before.stableFiles == after.stableFiles
  }

  predicate KeepsAll<V(==)>(before: map<string, V>, after: map<string, V>) {
    forall k | k in before :: k in after && after[k] == before[k]
  }

  method FirstChanged<V(==)>(before: map<string, V>, after: map<string, V>) returns (same: bool)
    ensures same <==> KeepsAll(before, after)
  {
    var todo := before.Keys;
    while todo != {}
      invariant todo <= before.Keys
      invariant forall k :: k in before && k !in todo ==> k in after && after[k] == before[k]
      decreases todo
    {
      var k :| k in todo;
      if k !in after || after[k] != before[k] {
        return false;
      }
      todo := todo - {k};
    }
    return true;
  }

  /** The comparison passes. */
  predicate Preserved(before: Snapshot, after: Snapshot, overridePath: string, restarted: bool) {
    && KeepsAll(before.processes, after.processes)
    && SameInventories(before, after)
    && KeepsAll(before.unit.files, after.unit.files)
    && before.processes == after.processes
    && (if restarted then
          && before.unit.process != after.unit.process
          && after.unit.files.Keys == before.unit.files.Keys + {overridePath}
        else before.unit == after.unit)
  }

  method Compare(before: Snapshot, after: Snapshot, overridePath: string, restarted: bool)
    returns (error: Option<GuardError>)
    ensures error.None? <==> Preserved(before, after, overridePath, restarted)
  {
    var same := FirstChanged(before.processes, after.processes);
    if !same { return Some(ProtectedProcessChanged); }
    if !SameInventories(before, after) { return Some(PreservationMismatch); }
    same := FirstChanged(before.unit.files, after.unit.files);
    if !same { return Some(UnitFileChanged); }
    if restarted {
      if before.unit.process == after.unit.process { return Some(NotRestarted); }
      if before.processes != after.processes { return Some(InventoryChanged); }
      if after.unit.files.Keys != before.unit.files.Keys + {overridePath} { return Some(DropInChanged); }
      return None;
    }
    if before.unit != after.unit { return Some(UnitChanged); }
    if before.processes != after.processes { return Some(RuntimeAppeared); }
    return None;
  }

  /** Before the cutover nothing at all may differ. */
  lemma PreservedBeforeIff(before: Snapshot, after: Snapshot, overridePath: string)
    ensures Preserved(before, after, overridePath, false) <==> before == after
  {
  }

  /** After it, everything is as before but for a new API process and the owned override among the unit files. */
  lemma PreservedAfterIff(before: Snapshot, after: Snapshot, overridePath: string)
    ensures Preserved(before, after, overridePath, true) <==>
      && overridePath in after.unit.files
      && (overridePath in before.unit.files ==>
            after.unit.files[overridePath] == before.unit.files[overridePath])
      && after.unit.process != before.unit.process
      && after == before.(unit := UnitState(
           after.unit.process, before.unit.files[overridePath := after.unit.files[overridePath]]))
  {
    if Preserved(before, after, overridePath, true) {
      assert overridePath in after.unit.files.Keys;
      assert after.unit.files == before.unit.files[overridePath := after.unit.files[overridePath]];
    } else if overridePath in after.unit.files
      && after == before.(unit := UnitState(
           after.unit.process, before.unit.files[overridePath := after.unit.files[overridePath]])) {
      var files := before.unit.files[overridePath := after.unit.files[overridePath]];
      assert after.unit.files == files;
      assert files.Keys == before.unit.files.Keys + {overridePath};
    }
  }

  // ----- waiting for the API -----

  /** One health request: fine, a failure worth retrying, or any other exception. */
  datatype Health = Healthy | Retry | Fatal

  /** The replies to the health requests, and the time read after each; sleeping makes it advance. */
  datatype Polling = Polling(health: nat -> Health, clock: nat -> int, deadline: int)

  ghost predicate Advances(p: Polling) { forall i: nat :: p.clock(i) < p.clock(i + 1) }

  datatype Readiness = Ready(polls: nat) | DeadlineExceeded(polls: nat) | Broken(polls: nat)

  /** The n-th request is answered well, and each before it failed, and failed before the deadline. */
  ghost predicate HealthyAfter(p: Polling, n: nat) {
    p.health(n).Healthy? && FailsInTime(p, n)
  }

  /** Each of the first `n` requests fails in a way worth retrying, before the deadline. */
  ghost predicate FailsInTime(p: Polling, n: nat) {
    forall i: nat :: i < n ==> p.health(i).Retry? && p.clock(i) < p.deadline
  }

  /** Some request is answered well, and every one before it failed before the deadline. */
  ghost predicate BecomesReady(p: Polling) { exists n: nat :: HealthyAfter(p, n) }

  method WaitReady(p: Polling) returns (r: Readiness)
    requires Advances(p)
    ensures forall i: nat :: i < r.polls ==> p.health(i).Retry? && p.clock(i) < p.deadline
    ensures match r
      case Ready(n) => p.health(n).Healthy?
      case DeadlineExceeded(n) => p.health(n).Retry? && p.clock(n) >= p.deadline
      case Broken(n) => p.health(n).Fatal?
    ensures r.Ready? <==> BecomesReady(p)
  {
    var n := 0;
    while true
      invariant FailsInTime(p, n)
      decreases p.deadline - p.clock(n)
    {
      match p.health(n)
      case Healthy =>
        assert HealthyAfter(p, n);
        return Ready(n);
      case Fatal =>
        EndsWithout(p, n);
        return Broken(n);
      case Retry =>
        if p.clock(n) >= p.deadline {
          EndsWithout(p, n);
          return DeadlineExceeded(n);
        }
        n := n + 1;
    }
  }

  /** When poll `n` ends the wait badly, no later one is made. */
  lemma EndsWithout(p: Polling, n: nat)
    requires FailsInTime(p, n)
    requires !p.health(n).Healthy? && !(p.health(n).Retry? && p.clock(n) < p.deadline)
    ensures !BecomesReady(p)
  {
    forall m: nat ensures !HealthyAfter(p, m) {
      if m < n {
        assert p.health(m).Retry?;
      }
    }
  }

  // ----- the host -----

  datatype Release = Candidate | Rollback

  /** What a file, the loaded configuration or the running process comes from; nothing, when no process runs. */
  datatype Source = Original | From(release: Release) | Foreign | Nothing

  datatype Host = Host(override: Source, loaded: Source, running: Source, restarts: nat)

  /** Everything a snapshot takes in besides the owned override file. */
  datatype Seen = Seen(
    process: Process, files: map<string, string>, processes: map<string, Process>, liveGateways: map<string, string>,
    sessions: map<string, string>, replay: map<string, string>, checks: seq<string>, stableFiles: map<string, string>)

  /** Stand-ins for the digests of the two override files, which differ. */
  function ContentDigest(release: Release): string {
    if release.Candidate? then "digest of the candidate override" else "digest of the rollback override"
  }

  /** A snapshot of this host: the override file shows in the unit with its content. */
  function Snap(host: Host, seen: Seen, overridePath: string): Snapshot {
    var others := seen.files - {overridePath};
    var files := if host.override.From? then others[overridePath := ContentDigest(host.override.release)] else others;
    Snapshot(
      UnitState(seen.process, files), seen.processes, seen.liveGateways, seen.sessions, seen.replay, seen.checks,
      seen.stableFiles)
  }

  datatype InstallFate = WriteFails | ReloadFails | ShowFails | NotSelected | Installed

  /** A restart may raise before it did anything, with the old process stopped and no new one, or once it is done. */
  datatype RestartFate = FailsBefore | StopsOnly | FailsAfter | Restarted

  /**
   How the steps of one switch to a release go; `seen` is nothing if taking the snapshot raises, and
   `interrupted` says that something raises once all of them are done.
   */
  datatype Fates = Fates(
    install: InstallFate, restart: RestartFate, polling: Polling, seen: Option<Seen>, interrupted: bool)

  function AfterInstall(host: Host, release: Release, fate: InstallFate): Host {
    match fate
    case WriteFails => host
    case ReloadFails => host.(override := From(release))
    case ShowFails => host.(override := From(release), loaded := From(release))
    case NotSelected => host.(override := From(release), loaded := Foreign)
    case Installed => host.(override := From(release), loaded := From(release))
  }

  function AfterRestart(host: Host, fate: RestartFate): Host {
    match fate
    case FailsBefore => host
    case StopsOnly => host.(running := Nothing)
    case _ => host.(running := host.loaded, restarts := host.restarts + 1)
  }

  /** How far a switch got: it failed before or after the API was healthy, or everything was preserved. */
  datatype Reached = Failed(healthy: bool) | Kept(after: Snapshot)

  function AfterSwitch(host: Host, release: Release, f: Fates): Host {
    var installed := AfterInstall(host, release, f.install);
    if f.install.Installed? then AfterRestart(installed, f.restart) else installed
  }

  ghost function SwitchReached(
    host: Host, release: Release, f: Fates, before: Snapshot, overridePath: string): Reached
  {
    var after := AfterSwitch(host, release, f);
    if !f.install.Installed? || !f.restart.Restarted? || !BecomesReady(f.polling) then Failed(false)
    else if f.seen.None? || !Preserved(before, Snap(after, f.seen.value, overridePath), overridePath, true) then
      Failed(true)
    else Kept(Snap(after, f.seen.value, overridePath))
  }

  class LocalRelease {
    var host: Host
    const overridePath: string

    constructor (overridePath: string)
      ensures host == Host(Original, Original, Original, 0) && this.overridePath == overridePath
    {
      this.overridePath := overridePath;
      this.host := Host(Original, Original, Original, 0);
    }

    method Install(release: Release, fate: InstallFate) returns (ok: bool)
      modifies this`host
      ensures host == AfterInstall(old(host), release, fate) && ok == fate.Installed?
    {
      if fate.WriteFails? { return false; }
      host := host.(override := From(release));
      if fate.ReloadFails? { return false; }
      host := host.(loaded := if fate.NotSelected? then Foreign else From(release));
      return fate.Installed?;
    }

    method Restart(fate: RestartFate) returns (ok: bool)
      modifies this`host
      ensures host == AfterRestart(old(host), fate) && ok == fate.Restarted?
    {
      if fate.FailsBefore? { return false; }
      if fate.StopsOnly? {
        host := host.(running := Nothing);
        return false;
      }
      host := host.(running := host.loaded, restarts := host.restarts + 1);
      return fate.Restarted?;
    }

    /** Install, restart, wait, snapshot, compare: the first step that raises ends it. */
    method Switch(release: Release, f: Fates, before: Snapshot) returns (reached: Reached)
      requires Advances(f.polling)
      modifies this`host
      ensures host == AfterSwitch(old(host), release, f)
      ensures reached == SwitchReached(old(host), release, f, before, overridePath)
    {
      var ok := Install(release, f.install);
      if !ok { return Failed(false); }
      ok := Restart(f.restart);
      if !ok { return Failed(false); }
      var readiness := WaitReady(f.polling);
      if !readiness.Ready? { return Failed(false); }
      if f.seen.None? { return Failed(true); }
      var after := Snap(host, f.seen.value, overridePath);
      var error := Compare(before, after, overridePath, true);
      if error.Some? { return Failed(true); }
      return Kept(after);
    }

    /** `apply`: guards, then the candidate, then the rollback if anything raised. */
    method Apply(prepared: Prepared, guards: Guards, candidate: Fates, rollback: Fates)
      returns (record: Record, raised: bool)
      requires Advances(candidate.polling) && Advances(rollback.polling)
      modifies this`host
      ensures host == ApplyHost(old(host), prepared, guards, candidate, rollback, overridePath)
      ensures record == ApplyRecord(old(host), prepared, guards, candidate, rollback, overridePath)
      ensures raised == ApplyRaises(old(host), prepared, guards, candidate, overridePath)
    {
      record := NO_RECORD;
      if prepared.manifestDigest != guards.manifestDigest { return record, true; }
      if !WindowOpen(guards.window, guards.now, Reserve(guards.timings)) { return record, true; }
      if !Positive(guards.timings) || !guards.overrideOwned || !host.override.Original? { return record, true; }
      if !guards.healthy || !guards.candidateAudit || !guards.rollbackAudit { return record, true; }
      if guards.seen.None? { return record, true; }
      var before := Snap(host, guards.seen.value, overridePath);
      var error := Compare(prepared.before, before, overridePath, false);
      if error.Some? { return record, true; }
      if !WindowOpen(guards.window, guards.later, Reserve(guards.timings)) { return record, true; }
      var reached := Switch(Candidate, candidate, before);
      if reached.Kept? || reached.healthy {
        record := record.(candidateHealth := true);
      }
      if reached.Kept? {
        record := record.(passed := true, after := Some(reached.after));
        if !candidate.interrupted {
          return record, false;
        }
      }
      var undone := Switch(Rollback, rollback, before);
      if undone.Kept? || undone.healthy {
        record := record.(rollbackHealth := true);
      }
      if undone.Kept? {
        record := record.(rollbackPreserved := true);
      }
      if undone.Failed? || rollback.interrupted {
        record := record.(rollbackError := true);
      }
      return record, true;
    }
  }

  // ----- the whole attempt, as a function of its inputs -----

  datatype Window = Window(start: int, end: int)

  datatype Timings = Timings(command: int, http: int, ready: int, poll: int)

  predicate Positive(t: Timings) { t.command > 0 && t.http > 0 && t.ready > 0 && t.poll > 0 }

  /** Time for two switches, each of commands and a wait for readiness. */
  function Reserve(t: Timings): int { 2 * (t.command + t.ready) }

  /** An explicit window that is open and leaves time for the cutover and for the recovery. */
  predicate WindowOpen(window: Option<Window>, now: int, reserve: int) {
    window.Some? && window.value.start <= now < window.value.end && window.value.end - now >= reserve
  }

  datatype Prepared = Prepared(manifestDigest: string, before: Snapshot)

  /** What the guards see; `seen` is nothing if taking the fresh snapshot raises. */
  datatype Guards = Guards(
    manifestDigest: string, window: Option<Window>, now: int, later: int, timings: Timings, overrideOwned: bool,
    healthy: bool, candidateAudit: bool, rollbackAudit: bool, seen: Option<Seen>)

  datatype Record = Record(
    passed: bool, candidateHealth: bool, after: Option<Snapshot>, rollbackHealth: bool, rollbackPreserved: bool,
    rollbackError: bool)

  const NO_RECORD := Record(false, false, None, false, false, false)

  predicate GuardsPass(host: Host, prepared: Prepared, g: Guards, overridePath: string) {
    && prepared.manifestDigest == g.manifestDigest
    && WindowOpen(g.window, g.now, Reserve(g.timings))
    && Positive(g.timings) && g.overrideOwned && host.override.Original?
    && g.healthy && g.candidateAudit && g.rollbackAudit && g.seen.Some?
    && Preserved(prepared.before, Snap(host, g.seen.value, overridePath), overridePath, false)
    && WindowOpen(g.window, g.later, Reserve(g.timings))
  }

  ghost predicate ApplyRaises(host: Host, prepared: Prepared, g: Guards, candidate: Fates, overridePath: string) {
    !GuardsPass(host, prepared, g, overridePath)
    || SwitchReached(host, Candidate, candidate, Snap(host, g.seen.value, overridePath), overridePath).Failed?
    || candidate.interrupted
  }

  ghost function ApplyHost(
    host: Host, prepared: Prepared, g: Guards, candidate: Fates, rollback: Fates, overridePath: string): Host
  {
    if !GuardsPass(host, prepared, g, overridePath) then host
    else
      var switched := AfterSwitch(host, Candidate, candidate);
      if ApplyRaises(host, prepared, g, candidate, overridePath) then AfterSwitch(switched, Rollback, rollback)
      else switched
  }

  ghost function ApplyRecord(
    host: Host, prepared: Prepared, g: Guards, candidate: Fates, rollback: Fates, overridePath: string): Record
  {
    if !GuardsPass(host, prepared, g, overridePath) then NO_RECORD
    else
      var before := Snap(host, g.seen.value, overridePath);
      var tried := match SwitchReached(host, Candidate, candidate, before, overridePath)
        case Failed(healthy) => NO_RECORD.(candidateHealth := healthy)
        case Kept(after) => NO_RECORD.(candidateHealth := true, passed := true, after := Some(after));
      if !ApplyRaises(host, prepared, g, candidate, overridePath) then tried
      else
        match SwitchReached(AfterSwitch(host, Candidate, candidate), Rollback, rollback, before, overridePath)
        case Failed(healthy) => tried.(rollbackHealth := healthy, rollbackError := true)
        case Kept(_) =>
          tried.(rollbackHealth := true, rollbackPreserved := true, rollbackError := rollback.interrupted)
  }

  // ----- what holds in every run -----

  /** At time `t` the window is open and what is left of it covers the cutover and the recovery. */
  ghost predicate InTime(window: Option<Window>, t: int, timings: Timings) {
    && window.Some? && window.value.start <= t && t < window.value.end
    && window.value.end - t >= 2 * (timings.command + timings.ready)
  }

  /** Every guard, before the first change and again in front of it. */
  ghost predicate MayStart(host: Host, prepared: Prepared, g: Guards, overridePath: string) {
    && prepared.manifestDigest == g.manifestDigest
    && InTime(g.window, g.now, g.timings) && InTime(g.window, g.later, g.timings)
    && g.timings.command > 0 && g.timings.http > 0 && g.timings.ready > 0 && g.timings.poll > 0
    && g.overrideOwned && host.override == Original
    && g.healthy && g.candidateAudit && g.rollbackAudit
    && g.seen.Some? && Snap(host, g.seen.value, overridePath) == prepared.before
  }

  lemma GuardsIff(host: Host, prepared: Prepared, g: Guards, overridePath: string)
    ensures GuardsPass(host, prepared, g, overridePath) <==> MayStart(host, prepared, g, overridePath)
  {
    if g.seen.Some? {
      PreservedBeforeIff(prepared.before, Snap(host, g.seen.value, overridePath), overridePath);
    }
  }

  /**
   The host is touched iff every guard held and one of the two override files could be written; when a
   guard fails the run raises and records nothing.
   */
  lemma FailedGuardTouchesNothing(
    host: Host, prepared: Prepared, g: Guards, candidate: Fates, rollback: Fates, overridePath: string)
    ensures ApplyHost(host, prepared, g, candidate, rollback, overridePath) != host <==>
      && MayStart(host, prepared, g, overridePath)
      && !(candidate.install.WriteFails? && rollback.install.WriteFails?)
    ensures !MayStart(host, prepared, g, overridePath) ==>
      && ApplyRaises(host, prepared, g, candidate, overridePath)
      && ApplyRecord(host, prepared, g, candidate, rollback, overridePath) == NO_RECORD
  {
    GuardsIff(host, prepared, g, overridePath);
  }

  /** Spelled out for the window: what is touched is touched inside it, with time left for the recovery. */
  lemma TouchedInTime(
    host: Host, prepared: Prepared, g: Guards, candidate: Fates, rollback: Fates, overridePath: string, t: int)
    requires ApplyHost(host, prepared, g, candidate, rollback, overridePath) != host && t in {g.now, g.later}
    ensures g.window.Some? && g.window.value.start <= t && t < g.window.value.end
    ensures g.window.value.end - t >= 2 * (g.timings.command + g.timings.ready)
  {
    FailedGuardTouchesNothing(host, prepared, g, candidate, rollback, overridePath);
  }

  /** And conversely: outside the window, or with too little of it left, at either time. */
  lemma ClosedWindowRaises(
    host: Host, prepared: Prepared, g: Guards, candidate: Fates, rollback: Fates, overridePath: string, t: int)
    requires t in {g.now, g.later}
    requires g.window.None? || t < g.window.value.start || t >= g.window.value.end
      || g.window.value.end - t < 2 * (g.timings.command + g.timings.ready)
    ensures ApplyHost(host, prepared, g, candidate, rollback, overridePath) == host
    ensures ApplyRaises(host, prepared, g, candidate, overridePath)
    ensures ApplyRecord(host, prepared, g, candidate, rollback, overridePath) == NO_RECORD
  {
    FailedGuardTouchesNothing(host, prepared, g, candidate, rollback, overridePath);
  }

  /** A health entry in the record means that release was installed and restarted and answered well in time. */
  lemma RecordedHealthIff(
    host: Host, prepared: Prepared, g: Guards, candidate: Fates, rollback: Fates, overridePath: string)
    ensures var r := ApplyRecord(host, prepared, g, candidate, rollback, overridePath);
      && (r.candidateHealth <==>
            MayStart(host, prepared, g, overridePath) && candidate.install == Installed
            && candidate.restart == Restarted && BecomesReady(candidate.polling))
      && (r.rollbackHealth <==>
            MayStart(host, prepared, g, overridePath) && ApplyRaises(host, prepared, g, candidate, overridePath)
            && rollback.install == Installed && rollback.restart == Restarted && BecomesReady(rollback.polling))
  {
    GuardsIff(host, prepared, g, overridePath);
  }

  /** What one switch leaves: the file is written first, then loaded, then what is loaded is run, once. */
  lemma SwitchLeaves(host: Host, release: Release, f: Fates)
    ensures var after := AfterSwitch(host, release, f);
      && after.override == (if f.install == WriteFails then host.override else From(release))
      && (f.install in {WriteFails, ReloadFails} ==> after.loaded == host.loaded)
      && (f.install in {ShowFails, Installed} ==> after.loaded == From(release))
      && (f.install == NotSelected ==> after.loaded == Foreign)
      && (f.install != Installed || f.restart == FailsBefore ==>
            after.running == host.running && after.restarts == host.restarts)
      && (f.install == Installed && f.restart == StopsOnly ==>
            after.running == Nothing && after.restarts == host.restarts)
      && (f.install == Installed && f.restart in {FailsAfter, Restarted} ==>
            after.running == From(release) && after.restarts == host.restarts + 1)
  {
  }

  /** The release is in the file, in systemd and in the running process. */
  predicate Serves(host: Host, release: Release) {
    host.override == host.loaded == host.running == From(release)
  }

  /** `after` equals the prepared snapshot, a new API process and this release's override aside. */
  ghost predicate OnlyOverrideChanged(before: Snapshot, after: Snapshot, release: Release, overridePath: string) {
    && after.processes == before.processes && after.sessions == before.sessions && after.replay == before.replay
    && after.liveGateways == before.liveGateways && after.stableFiles == before.stableFiles
    && after.checks == before.checks
    && after.unit.process != before.unit.process
    && overridePath !in before.unit.files
    && after.unit.files == before.unit.files[overridePath := ContentDigest(release)]
  }

  /** A release fully took over: it serves, became healthy in time, and a snapshot shows only its override changed. */
  ghost predicate TookOver(
    before: Snapshot, host: Host, release: Release, f: Fates, after: Snapshot, overridePath: string)
  {
    && Serves(host, release) && BecomesReady(f.polling)
    && f.seen.Some? && after == Snap(host, f.seen.value, overridePath)
    && OnlyOverrideChanged(before, after, release, overridePath)
  }

  /** A switch that keeps everything is a full takeover, from whatever host it starts. */
  lemma KeptMeansTookOver(host: Host, release: Release, f: Fates, before: Snapshot, overridePath: string)
    requires overridePath !in before.unit.files
    requires SwitchReached(host, release, f, before, overridePath).Kept?
    ensures TookOver(
      before, AfterSwitch(host, release, f), release, f,
      SwitchReached(host, release, f, before, overridePath).after, overridePath)
  {
    PreservedAfterIff(before, SwitchReached(host, release, f, before, overridePath).after, overridePath);
  }

  /** And a switch keeps everything iff each step went well and the snapshot shows nothing else new. */
  lemma KeptIff(host: Host, release: Release, f: Fates, before: Snapshot, overridePath: string)
    requires overridePath !in before.unit.files
    ensures SwitchReached(host, release, f, before, overridePath).Kept? <==>
      && f.install == Installed && f.restart == Restarted && BecomesReady(f.polling) && f.seen.Some?
      && var seen := f.seen.value;
         && seen.process != before.unit.process && seen.files - {overridePath} == before.unit.files
         && seen.processes == before.processes && seen.liveGateways == before.liveGateways
         && seen.sessions == before.sessions && seen.replay == before.replay
         && seen.checks == before.checks && seen.stableFiles == before.stableFiles
  {
    if f.install == Installed && f.restart == Restarted && f.seen.Some? {
      var after := Snap(AfterSwitch(host, release, f), f.seen.value, overridePath);
      var others := f.seen.value.files - {overridePath};
      PreservedAfterIff(before, after, overridePath);
      assert after.unit.files == others[overridePath := ContentDigest(release)];
      assert after.unit.files - {overridePath} == others;
      assert before.unit.files[overridePath := ContentDigest(release)] - {overridePath} == before.unit.files;
    }
  }

  /** The two releases leave different files. */
  lemma ReleasesDiffer(host: Host, f: Fates, before: Snapshot, overridePath: string)
    requires overridePath !in before.unit.files
    requires SwitchReached(host, Candidate, f, before, overridePath).Kept?
    requires SwitchReached(host, Rollback, f, before, overridePath).Kept?
    ensures SwitchReached(host, Candidate, f, before, overridePath)
      != SwitchReached(host, Rollback, f, before, overridePath)
  {
    KeptMeansTookOver(host, Candidate, f, before, overridePath);
    KeptMeansTookOver(host, Rollback, f, before, overridePath);
    var one := SwitchReached(host, Candidate, f, before, overridePath).after;
    assert one.unit.files[overridePath] == ContentDigest(Candidate) != ContentDigest(Rollback);
  }

  lemma GuardsGiveSnapshot(host: Host, prepared: Prepared, g: Guards, overridePath: string)
    requires GuardsPass(host, prepared, g, overridePath)
    ensures Snap(host, g.seen.value, overridePath) == prepared.before && overridePath !in prepared.before.unit.files
  {
    PreservedBeforeIff(prepared.before, Snap(host, g.seen.value, overridePath), overridePath);
  }

  /** A run that ends without raising has passed, and the candidate fully took over from the prepared state. */
  lemma PassedMeansPreserved(
    host: Host, prepared: Prepared, g: Guards, candidate: Fates, rollback: Fates, overridePath: string)
    requires !ApplyRaises(host, prepared, g, candidate, overridePath)
    ensures var r := ApplyRecord(host, prepared, g, candidate, rollback, overridePath);
      && r.passed && r.after.Some?
      && TookOver(
        prepared.before, ApplyHost(host, prepared, g, candidate, rollback, overridePath), Candidate, candidate,
        r.after.value, overridePath)
  {
    GuardsGiveSnapshot(host, prepared, g, overridePath);
    KeptMeansTookOver(host, Candidate, candidate, prepared.before, overridePath);
  }

  /** The rollback fully took over, with the prepared state preserved. */
  ghost predicate RolledBack(before: Snapshot, host: Host, rollback: Fates, overridePath: string) {
    && rollback.seen.Some?
    && TookOver(before, host, Rollback, rollback, Snap(host, rollback.seen.value, overridePath), overridePath)
  }

  /** After the first install every failure ends with the rollback in charge, all preserved, or a recorded error. */
  lemma FailureRollsBackOrSaysSo(
    host: Host, prepared: Prepared, g: Guards, candidate: Fates, rollback: Fates, overridePath: string)
    requires GuardsPass(host, prepared, g, overridePath)
    requires ApplyRaises(host, prepared, g, candidate, overridePath)
    ensures var r := ApplyRecord(host, prepared, g, candidate, rollback, overridePath);
      var h := ApplyHost(host, prepared, g, candidate, rollback, overridePath);
      && (r.rollbackError || r.rollbackPreserved)
      && (r.rollbackPreserved ==> RolledBack(prepared.before, h, rollback, overridePath))
  {
    GuardsGiveSnapshot(host, prepared, g, overridePath);
    var switched := AfterSwitch(host, Candidate, candidate);
    if SwitchReached(switched, Rollback, rollback, prepared.before, overridePath).Kept? {
      KeptMeansTookOver(switched, Rollback, rollback, prepared.before, overridePath);
    }
  }

  /** The candidate is never left in the file, loaded or running without a pass or a recorded rollback error. */
  lemma NoSilentCandidate(
    host: Host, prepared: Prepared, g: Guards, candidate: Fates, rollback: Fates, overridePath: string)
    requires From(Candidate) !in {host.override, host.loaded, host.running}
    ensures var r := ApplyRecord(host, prepared, g, candidate, rollback, overridePath);
      var h := ApplyHost(host, prepared, g, candidate, rollback, overridePath);
      From(Candidate) in {h.override, h.loaded, h.running} ==>
        r.rollbackError || (r.passed && !ApplyRaises(host, prepared, g, candidate, overridePath))
  {
    if GuardsPass(host, prepared, g, overridePath) {
      if ApplyRaises(host, prepared, g, candidate, overridePath) {
        FailureRollsBackOrSaysSo(host, prepared, g, candidate, rollback, overridePath);
      } else {
        PassedMeansPreserved(host, prepared, g, candidate, rollback, overridePath);
      }
    }
  }

  /**
   A recorded pass alone is not the verdict. It stands beside a failure iff something raised after it was
   written, and then the host is on the rollback, or an error of the rollback is recorded.
   */
  lemma PassedYetRaisedIff(
    host: Host, prepared: Prepared, g: Guards, candidate: Fates, rollback: Fates, overridePath: string)
    requires ApplyRecord(host, prepared, g, candidate, rollback, overridePath).passed
    ensures ApplyRaises(host, prepared, g, candidate, overridePath) <==> candidate.interrupted
    ensures var r := ApplyRecord(host, prepared, g, candidate, rollback, overridePath);
      var h := ApplyHost(host, prepared, g, candidate, rollback, overridePath);
      if candidate.interrupted then r.rollbackError || RolledBack(prepared.before, h, rollback, overridePath)
      else Serves(h, Candidate)
  {
    if candidate.interrupted {
      FailureRollsBackOrSaysSo(host, prepared, g, candidate, rollback, overridePath);
    } else {
      PassedMeansPreserved(host, prepared, g, candidate, rollback, overridePath);
    }
  }
}
