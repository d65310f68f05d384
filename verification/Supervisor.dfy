/** The service supervisor: reconciling what runs with what is configured, and restarting what exits. */
module Supervisor {
  import opened Sequences

  datatype ServiceSpec = ServiceSpec(
    name: string, command: string, port: int, cwd: string, env: string, restartPolicy: string, maxRestarts: int)

  /** `exit` is the exit code once the process has ended. */
  datatype ServiceState = ServiceState(spec: ServiceSpec, exit: Option<int>, restartCount: int)

  type Services = map<string, ServiceState>

  /** The configured services; each entry carries its own name. */
  type Desired = map<string, ServiceSpec>

  datatype Action = Launched(name: string) | Stopped(name: string)

  ghost predicate ValidServices(services: Services) {
    forall n :: n in services ==> services[n].spec.name == n
  }

  ghost predicate ValidDesired(desired: Desired) {
    forall n :: n in desired ==> desired[n].name == n
  }

  function FreshState(spec: ServiceSpec): ServiceState { ServiceState(spec, None, 0) }

  /** Only the command and the port are compared. */
  predicate UpToDate(services: Services, desired: Desired, name: string)
    requires name in desired
  {
    && name in services
    && services[name].spec.command == desired[name].command
    && services[name].spec.port == desired[name].port
  }

  function Reconciled(services: Services, desired: Desired): Services {
    map n | n in desired :: if UpToDate(services, desired, n) then services[n] else FreshState(desired[n])
  }

  /** How often an action stands in the journal. */
  function Times(journal: seq<Action>, a: Action): nat { multiset(journal)[a] }

  /** The journal grew by one launch of each of `launched` and one stop of each of `stopped`. */
  ghost predicate Grew(before: seq<Action>, after: seq<Action>, launched: set<string>, stopped: set<string>) {
    && (forall n :: Times(after, Launched(n)) == Times(before, Launched(n)) + (if n in launched then 1 else 0))
    && (forall n :: Times(after, Stopped(n)) == Times(before, Stopped(n)) + (if n in stopped then 1 else 0))
  }

  lemma GrewByLaunch(before: seq<Action>, after: seq<Action>, launched: set<string>, stopped: set<string>, n: string)
    requires Grew(before, after, launched, stopped) && n !in launched
    ensures Grew(before, after + [Launched(n)], launched + {n}, stopped)
  {
  }

  lemma GrewByStop(before: seq<Action>, after: seq<Action>, launched: set<string>, stopped: set<string>, n: string)
    requires Grew(before, after, launched, stopped) && n !in stopped
    ensures Grew(before, after + [Stopped(n)], launched, stopped + {n})
  {
  }

  lemma GrewByRestart(before: seq<Action>, after: seq<Action>, names: set<string>, n: string)
    requires Grew(before, after, names, names) && n !in names
    ensures Grew(before, after + [Stopped(n), Launched(n)], names + {n}, names + {n})
  {
    assert after + [Stopped(n), Launched(n)] == (after + [Stopped(n)]) + [Launched(n)];
    GrewByStop(before, after, names, names, n);
    GrewByLaunch(before, after + [Stopped(n)], names, names + {n}, n);
  }

  lemma GrewTwice(
    a: seq<Action>, b: seq<Action>, c: seq<Action>, launched: set<string>, stopped: set<string>, launched': set<string>,
    stopped': set<string>)
    requires Grew(a, b, launched, stopped) && Grew(b, c, launched', stopped')
    requires launched !! launched' && stopped !! stopped'
    ensures Grew(a, c, launched + launched', stopped + stopped')
  {
  }

  /** The names whose service must be replaced, of those that both run and are configured. */
  function Outdated(services: Services, desired: Desired, names: set<string>): set<string>
    requires names <= desired.Keys
  {
    set n | n in names && !UpToDate(services, desired, n)
  }

  /** The names a monitor pass restarts. */
  function Due(services: Services, names: set<string>): set<string>
    requires names <= services.Keys
  {
    set n | n in names && RestartDue(services[n])
  }

  predicate RestartDue(s: ServiceState) {
    s.exit.Some? && s.spec.restartPolicy != "never" && s.restartCount < s.spec.maxRestarts
  }

  function Monitored(s: ServiceState): ServiceState {
    if RestartDue(s) then ServiceState(s.spec, None, s.restartCount + 1) else s
  }

  function AfterPass(services: Services): Services {
    map n | n in services :: Monitored(services[n])
  }

  class Devrunner {
    var services: Services
    var journal: seq<Action>

    constructor ()
      ensures services == map[] && journal == []
    {
      services, journal := map[], [];
    }

    method StartService(spec: ServiceSpec)
      modifies this
      ensures services == old(services)[spec.name := FreshState(spec)]
      ensures journal == old(journal) + [Launched(spec.name)]
    {
      services := services[spec.name := ServiceState(spec, None, 0)];
      journal := journal + [Launched(spec.name)];
    }

    method StopService(name: string)
      modifies this
      ensures services == old(services) - {name}
      ensures journal == if name in old(services) then old(journal) + [Stopped(name)] else old(journal)
    {
      if name !in services {
        return;
      }
      services := services - {name};
      journal := journal + [Stopped(name)];
    }

    /** First loop of `_reconcile`: services that are no longer configured. */
    method StopRemoved(names: set<string>)
      requires names <= services.Keys
      modifies this
      ensures services == old(services) - names
      ensures Grew(old(journal), journal, {}, names)
    {
      var todo := names;
      while todo != {}
        invariant todo <= names
        invariant services == old(services) - (names - todo)
        invariant Grew(old(journal), journal, {}, names - todo)
        decreases todo
      {
        var name :| name in todo;
        GrewByStop(old(journal), journal, {}, names - todo, name);
        StopService(name);
        assert names - (todo - {name}) == (names - todo) + {name};
        todo := todo - {name};
      }
      assert names - todo == names;
    }

    /** Second loop: configured services that do not run yet. */
    method StartNew(desired: Desired, names: set<string>)
      requires ValidDesired(desired) && names <= desired.Keys && names !! services.Keys
      modifies this
      ensures services == Started(old(services), desired, names)
      ensures Grew(old(journal), journal, names, {})
    {
      var todo := names;
      ghost var done: set<string> := {};
      ghost var was, start := services, journal;
      while todo != {}
        invariant todo + done == names && todo !! done
        invariant services == Started(was, desired, done)
        invariant Grew(start, journal, done, {})
        decreases todo
      {
        var name :| name in todo;
        GrewByLaunch(start, journal, done, {}, name);
        StartedStep(was, desired, done, name);
        StartService(desired[name]);
        todo := todo - {name};
        done := done + {name};
      }
      assert done == names;
    }

    /** Stop and start again; the new incarnation starts with the given restart count. */
    method Replace(name: string, spec: ServiceSpec, restartCount: int)
      requires name in services && spec.name == name
      modifies this
      ensures services == old(services)[name := ServiceState(spec, None, restartCount)]
      ensures journal == old(journal) + [Stopped(name), Launched(name)]
    {
      StopService(name);
      StartService(spec);
      services := services[name := services[name].(restartCount := restartCount)];
    }

    /** Third loop: running services whose command or port changed. */
    method RestartChanged(desired: Desired, names: set<string>)
      requires ValidDesired(desired) && names <= desired.Keys && names <= services.Keys
      modifies this
      ensures var changed := Outdated(old(services), desired, names);
        && services == Refreshed(old(services), desired, changed)
        && Grew(old(journal), journal, changed, changed)
    {
      var todo := names;
      ghost var changed: set<string> := {};
      while todo != {}
        invariant todo <= names && changed == Outdated(old(services), desired, names - todo)
        invariant services == Refreshed(old(services), desired, changed)
        invariant Grew(old(journal), journal, changed, changed)
        decreases todo
      {
        var name :| name in todo;
        RefreshStep(old(services), desired, names, todo, name);
        todo := todo - {name};
        if services[name].spec.command != desired[name].command || services[name].spec.port != desired[name].port {
          GrewByRestart(old(journal), journal, changed, name);
          Replace(name, desired[name], 0);
          changed := changed + {name};
        }
      }
      assert names - todo == names;
    }

    /** `_reconcile`, uninterrupted: what it leaves behind, and what it started and stopped on the way. */
    method Reconcile(desired: Desired)
      requires ValidServices(services) && ValidDesired(desired)
      modifies this
      ensures ValidServices(services)
      ensures services == Reconciled(old(services), desired)
      ensures var both := old(services).Keys * desired.Keys;
        var changed := Outdated(old(services), desired, both);
        Grew(old(journal), journal, (desired.Keys - both) + changed, (old(services).Keys - both) + changed)
    {
      var running := services.Keys;
      ghost var was, start := services, journal;
      StopRemoved(running - desired.Keys);
      ghost var mid := journal;
      StartNew(desired, desired.Keys - running);
      ghost var before, late := services, journal;
      RestartChanged(desired, desired.Keys * running);
      StoppedThenStarted(was, desired);
      ReconcileResult(was, before, desired);
      ReconcileJournal(was, desired, start, mid, late, journal);
    }

    /** One service of a round: restarted unless it still runs, must not be restarted, or has been too often. */
    method MonitorOne(name: string, state: ServiceState) returns (restarted: bool)
      requires name in services && services[name] == state && state.spec.name == name
      modifies this
      ensures services == if RestartDue(state) then old(services)[name := Monitored(state)] else old(services)
      ensures journal == if restarted then old(journal) + [Stopped(name), Launched(name)] else old(journal)
      ensures restarted == RestartDue(state)
    {
      if state.exit.None? || state.spec.restartPolicy == "never" || state.restartCount >= state.spec.maxRestarts {
        return false;
      }
      Replace(name, state.spec, state.restartCount + 1);
      return true;
    }

    /** One round of `_monitor_services` over a snapshot of the services. */
    method MonitorPass()
      requires ValidServices(services)
      modifies this
      ensures ValidServices(services)
      ensures services == AfterPass(old(services))
      ensures var due := Due(old(services), old(services).Keys); Grew(old(journal), journal, due, due)
    {
      var snapshot := services;
      var todo := snapshot.Keys;
      ghost var seen: set<string>, due: set<string> := {}, {};
      ghost var start := journal;
      while todo != {}
        invariant todo + seen == snapshot.Keys && todo !! seen && due == Due(snapshot, seen)
        invariant services == Restarted(snapshot, due)
        invariant Grew(start, journal, due, due)
        decreases todo
      {
        var name :| name in todo;
        RestartStep(snapshot, seen, name);
        todo := todo - {name};
        seen := seen + {name};
        ghost var logged := journal;
        var restarted := MonitorOne(name, snapshot[name]);
        if restarted {
          GrewByRestart(start, logged, due, name);
          due := due + {name};
        }
      }
      assert seen == snapshot.Keys;
      PassResult(snapshot);
    }
  }

  lemma PassResult(services: Services)
    requires ValidServices(services)
    ensures Restarted(services, Due(services, services.Keys)) == AfterPass(services)
    ensures ValidServices(AfterPass(services))
  {
  }

  function Started(services: Services, desired: Desired, names: set<string>): Services
    requires names <= desired.Keys
  {
    services + map n | n in names :: FreshState(desired[n])
  }

  lemma StartedStep(services: Services, desired: Desired, names: set<string>, name: string)
    requires names <= desired.Keys && name in desired
    ensures Started(services, desired, names + {name})
      == Started(services, desired, names)[name := FreshState(desired[name])]
  {
  }

  function Refreshed(services: Services, desired: Desired, changed: set<string>): Services
    requires changed <= desired.Keys
  {
    map n | n in services :: if n in changed then FreshState(desired[n]) else services[n]
  }

  function Restarted(services: Services, names: set<string>): Services {
    map n | n in services :: if n in names then Monitored(services[n]) else services[n]
  }

  /** One name of the third loop: still untouched, and replaced exactly when it is outdated. */
  lemma RefreshStep(services: Services, desired: Desired, names: set<string>, todo: set<string>, name: string)
    requires ValidDesired(desired) && names <= desired.Keys && names <= services.Keys && todo <= names && name in todo
    ensures var changed := Outdated(services, desired, names - todo);
      && name !in changed
      && Outdated(services, desired, names - (todo - {name}))
         == (if UpToDate(services, desired, name) then changed else changed + {name})
      && Refreshed(services, desired, changed)[name] == services[name]
      && Refreshed(services, desired, changed + {name})
         == Refreshed(services, desired, changed)[name := FreshState(desired[name])]
  {
    assert names - (todo - {name}) == (names - todo) + {name};
  }

  lemma RestartStep(services: Services, seen: set<string>, name: string)
    requires ValidServices(services) && seen <= services.Keys && name in services && name !in seen
    ensures var due := Due(services, seen);
      && name !in due
      && Due(services, seen + {name}) == (if RestartDue(services[name]) then due + {name} else due)
      && name in Restarted(services, due)
      && Restarted(services, due + {name}) == Restarted(services, due)[name := Monitored(services[name])]
  {
  }

  /** What the first two loops leave. */
  lemma StoppedThenStarted(was: Services, desired: Desired)
    ensures var before := Started(was - (was.Keys - desired.Keys), desired, desired.Keys - was.Keys);
      && before.Keys == desired.Keys
      && forall n :: n in desired ==> before[n] == if n in was then was[n] else FreshState(desired[n])
  {
  }

  lemma ReconcileResult(was: Services, before: Services, desired: Desired)
    requires before.Keys == desired.Keys
    requires forall n :: n in desired ==> before[n] == if n in was then was[n] else FreshState(desired[n])
    ensures var both := desired.Keys * was.Keys;
      && Outdated(before, desired, both) == Outdated(was, desired, both)
      && Refreshed(before, desired, Outdated(before, desired, both)) == Reconciled(was, desired)
  {
  }

  lemma ReconcileJournal(
    was: Services, desired: Desired, start: seq<Action>, mid: seq<Action>, late: seq<Action>, end: seq<Action>)
    requires Grew(start, mid, {}, was.Keys - desired.Keys)
    requires Grew(mid, late, desired.Keys - was.Keys, {})
    requires var changed := Outdated(was, desired, desired.Keys * was.Keys); Grew(late, end, changed, changed)
    ensures var both := was.Keys * desired.Keys;
      var changed := Outdated(was, desired, both);
      Grew(start, end, (desired.Keys - both) + changed, (was.Keys - both) + changed)
  {
    var both := was.Keys * desired.Keys;
    assert both == desired.Keys * was.Keys;
    var changed := Outdated(was, desired, both);
    GrewTwice(start, mid, late, {}, was.Keys - desired.Keys, desired.Keys - was.Keys, {});
    assert {} + (desired.Keys - was.Keys) == desired.Keys - both;
    assert (was.Keys - desired.Keys) + {} == was.Keys - both;
    GrewTwice(start, late, end, desired.Keys - both, was.Keys - both, changed, changed);
  }

  // ----- reconciling -----

  /** Exactly the configured services run, with the configured command and port. */
  ghost predicate Settled(services: Services, desired: Desired) {
    services.Keys == desired.Keys && forall n :: n in desired ==> UpToDate(services, desired, n)
  }

  /**
   One reconcile settles, whatever ran before; a settled state is left as it is, so a second one starts
   and stops nothing.
   */
  lemma ReconcileSettles(services: Services, desired: Desired)
    ensures Settled(Reconciled(services, desired), desired)
    ensures Settled(services, desired) ==>
      && Reconciled(services, desired) == services
      && desired.Keys - services.Keys * desired.Keys == {} == services.Keys - services.Keys * desired.Keys
      && Outdated(services, desired, services.Keys * desired.Keys) == {}
  {
    if Settled(services, desired) {
      assert services.Keys * desired.Keys == desired.Keys;
    }
  }

  // ----- runs -----

  /** A process ending is the only thing that happens by itself. */
  datatype Event = Reconcile(desired: Desired) | Pass | Exits(name: string, code: int)

  function AfterEvent(services: Services, event: Event): Services {
    match event
    case Reconcile(desired) => Reconciled(services, desired)
    case Pass => AfterPass(services)
    case Exits(name, code) =>
      if name in services && services[name].exit.None? then
        services[name := services[name].(exit := Some(code))]
      else services
  }

  function AfterEvents(services: Services, events: seq<Event>): Services
    decreases |events|
  {
    if events == [] then services else AfterEvents(AfterEvent(services, events[0]), events[1..])
  }

  ghost predicate WithinLimits(services: Services) {
    forall n :: n in services ==> 0 <= services[n].restartCount <= services[n].spec.maxRestarts
  }

  ghost predicate SaneConfigs(events: seq<Event>) {
    forall i :: 0 <= i < |events| && events[i].Reconcile? ==>
      forall n :: n in events[i].desired ==> events[i].desired[n].maxRestarts >= 0
  }

  /** In every reachable state no service has been restarted more often than it may. */
  lemma {:induction false} RestartsStayWithinLimits(services: Services, events: seq<Event>)
    requires WithinLimits(services) && SaneConfigs(events)
    ensures WithinLimits(AfterEvents(services, events))
    decreases |events|
  {
    if events != [] {
      assert SaneConfigs(events[1..]) by {
        forall i | 0 <= i < |events[1..]| && events[1..][i].Reconcile?
          ensures forall n :: n in events[1..][i].desired ==> events[1..][i].desired[n].maxRestarts >= 0
        {
          assert events[i + 1] == events[1..][i];
        }
      }
      RestartsStayWithinLimits(AfterEvent(services, events[0]), events[1..]);
    }
  }

  /** The event leaves the current incarnation of `name` in place, or restarts it by the monitor. */
  ghost predicate KeepsIncarnation(services: Services, event: Event, name: string) {
    event.Reconcile? ==> name in event.desired && UpToDate(services, event.desired, name)
  }

  ghost predicate SameIncarnation(services: Services, events: seq<Event>, name: string)
    decreases |events|
  {
    events != [] ==>
      && KeepsIncarnation(services, events[0], name)
      && SameIncarnation(AfterEvent(services, events[0]), events[1..], name)
  }

  /** How often the monitor launches `name` during the events. */
  function MonitorLaunches(services: Services, events: seq<Event>, name: string): nat
    decreases |events|
  {
    if events == [] then 0
    else
      (if events[0].Pass? && name in services && RestartDue(services[name]) then 1 else 0)
      + MonitorLaunches(AfterEvent(services, events[0]), events[1..], name)
  }

  /** A pass restarts a service iff it has exited, its policy allows it and its limit is not reached. */
  lemma PassRestartsIff(services: Services, name: string)
    requires name in services
    ensures var s, after := services[name], AfterEvent(services, Pass);
      name in after &&
      if s.exit.Some? && s.spec.restartPolicy != "never" && s.restartCount < s.spec.maxRestarts then
        after[name] == ServiceState(s.spec, None, s.restartCount + 1)
      else after[name] == s
  {
  }

  /** A service that exits `k` times, with a pass after each exit. */
  function CrashLoop(name: string, code: int, k: nat): seq<Event> {
    if k == 0 then [] else [Exits(name, code), Pass] + CrashLoop(name, code, k - 1)
  }

  /**
   A running service that keeps exiting is restarted after every exit until its limit is reached, and
   never after that; one with policy `never` is not restarted at all.
   */
  lemma {:induction false} CrashLoopLaunches(services: Services, name: string, code: int, k: nat)
    requires name in services && services[name].restartCount <= services[name].spec.maxRestarts
    ensures var s := services[name];
      var left := s.spec.maxRestarts - s.restartCount;
      MonitorLaunches(services, CrashLoop(name, code, k), name)
      == if s.spec.restartPolicy == "never" then 0 else Min(k, left)
    decreases k
  {
    if k > 0 {
      var exited := AfterEvent(services, Exits(name, code));
      var passed := AfterEvent(exited, Pass);
      var rest := CrashLoop(name, code, k - 1);
      assert CrashLoop(name, code, k)[1..] == [Pass] + rest && ([Pass] + rest)[1..] == rest;
      CrashLoopLaunches(passed, name, code, k - 1);
    }
  }

  /** The count survives the stop and start of each restart: it is the number of launches of this incarnation. */
  lemma {:induction false} CountIsLaunches(services: Services, events: seq<Event>, name: string)
    requires name in services && SameIncarnation(services, events, name)
    ensures var after := AfterEvents(services, events);
      && name in after && after[name].spec == services[name].spec
      && after[name].restartCount == services[name].restartCount + MonitorLaunches(services, events, name)
    decreases |events|
  {
    if events != [] {
      CountIsLaunches(AfterEvent(services, events[0]), events[1..], name);
    }
  }

  lemma {:induction false} LimitsHoldFor(services: Services, events: seq<Event>, name: string)
    requires name in services && services[name].restartCount <= services[name].spec.maxRestarts
    requires SameIncarnation(services, events, name)
    ensures var after := AfterEvents(services, events);
      name in after && after[name].restartCount <= services[name].spec.maxRestarts
    decreases |events|
  {
    if events != [] {
      LimitsHoldFor(AfterEvent(services, events[0]), events[1..], name);
    }
  }

  /** Per configured incarnation the monitor launches at most max_restarts more processes. */
  lemma LaunchesAreBounded(services: Services, events: seq<Event>, name: string)
    requires name in services && SameIncarnation(services, events, name)
    requires services[name] == FreshState(services[name].spec) && services[name].spec.maxRestarts >= 0
    ensures MonitorLaunches(services, events, name) <= services[name].spec.maxRestarts
  {
    CountIsLaunches(services, events, name);
    LimitsHoldFor(services, events, name);
  }

  /**
   A new configuration of a service is in force after a reconcile iff it was already, or its command or
   port differ: any other change, of the restart limit for example, never takes effect.
   */
  lemma SpecIsPickedUpIff(services: Services, events: seq<Event>, desired: Desired, name: string)
    requires name in services && name in desired && SameIncarnation(services, events, name)
    ensures var after := AfterEvent(AfterEvents(services, events), Reconcile(desired));
      && name in after
      && (after[name].spec == desired[name] <==>
            || services[name].spec == desired[name]
            || services[name].spec.command != desired[name].command
            || services[name].spec.port != desired[name].port)
  {
    CountIsLaunches(services, events, name);
  }

  /** The same event, exit codes aside. */
  predicate SameButCode(a: Event, b: Event) {
    a == b || (a.Exits? && b.Exits? && a.name == b.name)
  }

  /** The same services, exit codes aside. */
  ghost predicate SameButCodes(a: Services, b: Services) {
    && a.Keys == b.Keys
    && forall n :: n in a ==>
         a[n].spec == b[n].spec && a[n].restartCount == b[n].restartCount && (a[n].exit.Some? <==> b[n].exit.Some?)
  }

  lemma CodesStepAlike(a: Services, b: Services, e: Event, f: Event)
    requires SameButCodes(a, b) && SameButCode(e, f)
    ensures SameButCodes(AfterEvent(a, e), AfterEvent(b, f))
  {
    match e
    case Reconcile(desired) =>
      forall n | n in desired ensures UpToDate(a, desired, n) <==> UpToDate(b, desired, n) {}
    case Pass =>
    case Exits(name, code) =>
  }

  /** Whole runs do not depend on exit codes: a service that ends with 0 is restarted as often as one that fails. */
  lemma {:induction false} ExitCodesAreIgnored(
    a: Services, b: Services, es: seq<Event>, fs: seq<Event>, name: string)
    requires SameButCodes(a, b) && |es| == |fs| && forall i :: 0 <= i < |es| ==> SameButCode(es[i], fs[i])
    ensures SameButCodes(AfterEvents(a, es), AfterEvents(b, fs))
    ensures MonitorLaunches(a, es, name) == MonitorLaunches(b, fs, name)
    decreases |es|
  {
    if es != [] {
      CodesStepAlike(a, b, es[0], fs[0]);
      ExitCodesAreIgnored(AfterEvent(a, es[0]), AfterEvent(b, fs[0]), es[1..], fs[1..], name);
    }
  }
}
