/** The import worklist: fetch the seed protos and everything they import, each file once. */
module ImportClosure {
  import opened Sequences
  import opened Sorting

  // ----- where a path comes from -----

  datatype Source = Remote(repository: string, path: string) | WellKnown | Installed | NoSource

  predicate StartsWith(path: string, prefix: string) { prefix <= path }

  function SourceFor(path: string): Source {
    if StartsWith(path, "envoy/") then Remote("envoyproxy/envoy", "api/" + path)
    else if StartsWith(path, "udpa/") || StartsWith(path, "xds/") then Remote("cncf/xds", path)
    else if StartsWith(path, "validate/") then Remote("bufbuild/protoc-gen-validate", path)
    else if StartsWith(path, "google/protobuf/") then WellKnown
    else if StartsWith(path, "google/rpc/") then Installed
    else NoSource
  }

  /** The imports found in each file that can be read; other files fail to fetch, or are not installed. */
  type Files = map<string, seq<string>>

  /** A path the worklist can deal with. */
  predicate Available(files: Files, path: string) {
    match SourceFor(path)
    case Remote(_, _) => path in files
    case WellKnown => true
    case Installed => path in files
    case NoSource => false
  }

  /** What a visited path adds to the queue: well-known types are not expanded. */
  function Expand(files: Files, path: string): seq<string> {
    if SourceFor(path).WellKnown? || path !in files then [] else files[path]
  }

  predicate IsTarget(path: string) {
    !SourceFor(path).WellKnown? && !StartsWith(path, "google/rpc/")
  }

  /** No two of the known prefixes begin the same path. */
  lemma PrefixesApart(path: string, one: string, other: string, i: nat)
    requires i < |one| && i < |other| && one[i] != other[i] && one <= path
    ensures !(other <= path)
  {
    assert path[i] == one[i];
  }

  /** Where each kind of path is fetched from. */
  lemma SourcesAre(path: string)
    ensures "envoy/" <= path ==> SourceFor(path) == Remote("envoyproxy/envoy", "api/" + path)
    ensures "udpa/" <= path || "xds/" <= path ==> SourceFor(path) == Remote("cncf/xds", path)
    ensures "validate/" <= path ==> SourceFor(path) == Remote("bufbuild/protoc-gen-validate", path)
    ensures "google/protobuf/" <= path ==> SourceFor(path) == WellKnown
    ensures "google/rpc/" <= path ==> SourceFor(path) == Installed
  {
    if "udpa/" <= path { PrefixesApart(path, "udpa/", "envoy/", 0); }
    if "xds/" <= path { PrefixesApart(path, "xds/", "envoy/", 0); }
    if "validate/" <= path {
      PrefixesApart(path, "validate/", "envoy/", 0);
      PrefixesApart(path, "validate/", "udpa/", 0);
      PrefixesApart(path, "validate/", "xds/", 0);
    }
    if "google/protobuf/" <= path || "google/rpc/" <= path {
      var google := if "google/rpc/" <= path then "google/rpc/" else "google/protobuf/";
      PrefixesApart(path, google, "envoy/", 0);
      PrefixesApart(path, google, "udpa/", 0);
      PrefixesApart(path, google, "xds/", 0);
      PrefixesApart(path, google, "validate/", 0);
      if google == "google/rpc/" { PrefixesApart(path, google, "google/protobuf/", 7); }
    }
  }

  /** And nothing else is fetched. */
  lemma NoOtherSource(path: string)
    requires !("envoy/" <= path) && !("udpa/" <= path) && !("xds/" <= path) && !("validate/" <= path)
    requires !("google/protobuf/" <= path) && !("google/rpc/" <= path)
    ensures SourceFor(path) == NoSource
  {
  }

  /** The worklist stops at a path without a source and at a file it cannot read, and expands all it reads. */
  lemma WhatStops(files: Files, path: string)
    ensures SourceFor(path) == NoSource ==> !Available(files, path)
    ensures "google/protobuf/" <= path ==> Available(files, path) && Expand(files, path) == []
    ensures SourceFor(path) != NoSource && !("google/protobuf/" <= path) ==>
      && (Available(files, path) <==> path in files)
      && (path in files ==> Expand(files, path) == files[path])
  {
    SourcesAre(path);
  }

  /** Of the paths with a source, those of the Google packages are not compiled, and all others are. */
  lemma TargetIff(path: string)
    requires SourceFor(path) != NoSource
    ensures IsTarget(path) <==>
      "envoy/" <= path || "udpa/" <= path || "xds/" <= path || "validate/" <= path
  {
    SourcesAre(path);
    if "envoy/" <= path { PrefixesApart(path, "envoy/", "google/rpc/", 0); }
    if "udpa/" <= path { PrefixesApart(path, "udpa/", "google/rpc/", 0); }
    if "xds/" <= path { PrefixesApart(path, "xds/", "google/rpc/", 0); }
    if "validate/" <= path { PrefixesApart(path, "validate/", "google/rpc/", 0); }
  }

  // ----- reachability -----

  /** `path` is reached from a seed along `route`, each step an import of an expanded file. */
  ghost predicate Route(files: Files, seeds: seq<string>, route: seq<string>) {
    && route != [] && route[0] in seeds
    && forall i :: 0 < i < |route| ==> route[i] in Expand(files, route[i - 1])
  }

  ghost predicate Reachable(files: Files, seeds: seq<string>, path: string) {
    exists route :: Route(files, seeds, route) && route[|route| - 1] == path
  }

  lemma SeedReachable(files: Files, seeds: seq<string>, path: string)
    requires path in seeds
    ensures Reachable(files, seeds, path)
  {
    assert Route(files, seeds, [path]) && [path][|[path]| - 1] == path;
  }

  lemma ImportReachable(files: Files, seeds: seq<string>, path: string, imported: string)
    requires Reachable(files, seeds, path) && imported in Expand(files, path)
    ensures Reachable(files, seeds, imported)
  {
    var route :| Route(files, seeds, route) && route[|route| - 1] == path;
    var longer := route + [imported];
    assert Route(files, seeds, longer);
    assert longer[|longer| - 1] == imported;
  }

  /** A set that holds the seeds and the imports of its members holds everything reachable. */
  ghost predicate Closed(files: Files, seeds: seq<string>, visited: set<string>) {
    && (forall p :: p in seeds ==> p in visited)
    && (forall p, q :: p in visited && q in Expand(files, p) ==> q in visited)
  }

  lemma {:induction false} ClosedHoldsRoute(files: Files, seeds: seq<string>, visited: set<string>, route: seq<string>)
    requires Closed(files, seeds, visited) && Route(files, seeds, route)
    ensures route[|route| - 1] in visited
    decreases |route|
  {
    if |route| > 1 {
      var front := route[..|route| - 1];
      assert forall i :: 0 <= i < |front| ==> front[i] == route[i];
      ClosedHoldsRoute(files, seeds, visited, front);
    }
  }

  // ----- the loop -----

  datatype Outcome = Targets(paths: seq<string>) | CannotFetch(path: string)

  /** Everything waiting is reachable; everything visited is, and its imports are visited or waiting. */
  ghost predicate Sound(files: Files, seeds: seq<string>, visited: set<string>, queue: seq<string>) {
    && (forall p :: p in visited ==> Reachable(files, seeds, p) && Available(files, p))
    && (forall p :: p in queue ==> Reachable(files, seeds, p))
  }

  ghost predicate Covered(files: Files, seeds: seq<string>, visited: set<string>, queue: seq<string>) {
    && (forall p :: p in seeds ==> p in visited || p in queue)
    && (forall p, q :: p in visited && q in Expand(files, p) ==> q in visited || q in queue)
  }

  /** The fetched paths and the compile targets are those visited paths, once each. */
  ghost predicate Booked(visited: set<string>, fetched: seq<string>, targets: seq<string>) {
    && NoDuplicates(fetched) && NoDuplicates(targets)
    && (forall p :: p in fetched <==> p in visited && !SourceFor(p).WellKnown?)
    && (forall p :: p in targets <==> p in visited && IsTarget(p))
  }

  /** The imports of one file that are not visited yet join the queue. */
  method Enqueue(imports: seq<string>, visited: set<string>, queue: seq<string>) returns (longer: seq<string>)
    ensures |longer| <= |queue| + |imports|
    ensures forall p :: p in longer <==> p in queue || (p in imports && p !in visited)
  {
    longer := queue;
    for i := 0 to |imports|
      invariant |longer| <= |queue| + i
      invariant forall p :: p in longer <==> p in queue || (p in imports[..i] && p !in visited)
    {
      assert imports[..i + 1] == imports[..i] + [imports[i]];
      if imports[i] !in visited {
        longer := longer + [imports[i]];
      }
    }
    assert imports[..|imports|] == imports;
  }

  lemma PopKeeps(files: Files, seeds: seq<string>, visited: set<string>, queue: seq<string>)
    requires queue != [] && Sound(files, seeds, visited, queue) && Covered(files, seeds, visited, queue)
    ensures var path, rest := queue[|queue| - 1], queue[..|queue| - 1];
      && Reachable(files, seeds, path)
      && Sound(files, seeds, visited, rest)
      && (path in visited ==> Covered(files, seeds, visited, rest))
  {
    var n := |queue| - 1;
    assert queue == queue[..n] + [queue[n]];
    assert forall p :: p in queue <==> p in queue[..n] || p == queue[n];
  }

  lemma VisitKeeps(
    files: Files, seeds: seq<string>, visited: set<string>, queue: seq<string>, path: string, longer: seq<string>)
    requires queue != [] && path == queue[|queue| - 1] && Available(files, path)
    requires Sound(files, seeds, visited, queue) && Covered(files, seeds, visited, queue)
    requires forall p :: p in longer <==>
      p in queue[..|queue| - 1] || (p in Expand(files, path) && p !in visited + {path})
    ensures Sound(files, seeds, visited + {path}, longer)
    ensures Covered(files, seeds, visited + {path}, longer)
  {
    var n := |queue| - 1;
    assert queue == queue[..n] + [queue[n]];
    assert forall p :: p in queue <==> p in queue[..n] || p == path;
    forall p | p in longer ensures Reachable(files, seeds, p) {
      if p !in queue[..n] {
        ImportReachable(files, seeds, path, p);
      }
    }
  }

  lemma BookVisit(visited: set<string>, fetched: seq<string>, targets: seq<string>, path: string)
    requires Booked(visited, fetched, targets) && path !in visited
    ensures Booked(
      visited + {path},
      if SourceFor(path).WellKnown? then fetched else fetched + [path],
      if IsTarget(path) then targets + [path] else targets)
  {
  }

  /** What the loop keeps. */
  ghost predicate Progress(
    files: Files, seeds: seq<string>, visited: set<string>, queue: seq<string>, fetched: seq<string>,
    targets: seq<string>)
  {
    && Sound(files, seeds, visited, queue) && Covered(files, seeds, visited, queue)
    && Booked(visited, fetched, targets)
  }

  lemma Visit(
    files: Files, seeds: seq<string>, visited: set<string>, queue: seq<string>, fetched: seq<string>,
    targets: seq<string>, path: string, longer: seq<string>)
    requires Progress(files, seeds, visited, queue, fetched, targets)
    requires queue != [] && path == queue[|queue| - 1] && path !in visited && Available(files, path)
    requires forall p :: p in longer <==>
      p in queue[..|queue| - 1] || (p in Expand(files, path) && p !in visited + {path})
    ensures Progress(
      files, seeds, visited + {path}, longer,
      if SourceFor(path).WellKnown? then fetched else fetched + [path],
      if IsTarget(path) then targets + [path] else targets)
  {
    VisitKeeps(files, seeds, visited, queue, path, longer);
    BookVisit(visited, fetched, targets, path);
  }

  /** The while loop; it stops early at the first path that cannot be fetched. */
  method Walk(files: Files, seeds: seq<string>)
    returns (failed: Option<string>, fetched: seq<string>, targets: seq<string>, ghost visited: set<string>)
    ensures failed.Some? ==> Reachable(files, seeds, failed.value) && !Available(files, failed.value)
    ensures failed.None? ==> Progress(files, seeds, visited, [], fetched, targets)
    ensures NoDuplicates(fetched)
  {
    var seen: set<string> := {};
    var queue := seeds;
    fetched, targets, failed, visited := [], [], None, {};
    forall p | p in seeds ensures Reachable(files, seeds, p) {
      SeedReachable(files, seeds, p);
    }
    while queue != []
      invariant visited == seen && Progress(files, seeds, seen, queue, fetched, targets)
      decreases |files.Keys - seen|, |queue|
    {
      var path := queue[|queue| - 1];
      PopKeeps(files, seeds, seen, queue);
      if path in seen {
        queue := queue[..|queue| - 1];
        continue;
      }
      if !Available(files, path) {
        failed := Some(path);
        return;
      }
      var imports := Expand(files, path);
      var longer := Enqueue(imports, seen + {path}, queue[..|queue| - 1]);
      Visit(files, seeds, seen, queue, fetched, targets, path, longer);
      VisitShrinks(files.Keys, seen, path);
      if !SourceFor(path).WellKnown? {
        fetched := fetched + [path];
        if !StartsWith(path, "google/rpc/") {
          targets := targets + [path];
        }
      }
      seen := seen + {path};
      visited := seen;
      queue := longer;
    }
  }

  lemma ReachableIsVisited(files: Files, seeds: seq<string>, visited: set<string>, path: string)
    requires Closed(files, seeds, visited) && Reachable(files, seeds, path)
    ensures path in visited
  {
    var route :| Route(files, seeds, route) && route[|route| - 1] == path;
    ClosedHoldsRoute(files, seeds, visited, route);
  }

  lemma Exhausted(files: Files, seeds: seq<string>, visited: set<string>)
    requires Sound(files, seeds, visited, []) && Covered(files, seeds, visited, [])
    ensures forall p :: Reachable(files, seeds, p) <==> p in visited
  {
    forall p, q | p in visited && q in Expand(files, p) ensures q in visited {
      assert q in visited || q in [];
    }
    assert Closed(files, seeds, visited);
    forall p ensures Reachable(files, seeds, p) <==> p in visited {
      if Reachable(files, seeds, p) {
        ReachableIsVisited(files, seeds, visited, p);
      }
    }
  }

  lemma SortedTargets(targets: seq<string>)
    requires NoDuplicates(targets)
    ensures var ordered := StableSort(targets, StringLe);
      && NoDuplicates(ordered) && Sorted(ordered, StringLe) && forall p :: p in ordered <==> p in targets
  {
    var ordered := StableSort(targets, StringLe);
    StringOrder();
    StableSortSorts(targets, StringLe);
    SortKeepsDistinct(targets, StringLe);
    forall p ensures p in ordered <==> p in targets {
      SameElements(ordered, targets, p);
    }
  }

  /**
   `_collect_proto_sources`, on any finite and possibly cyclic import graph: either a reachable file
   that cannot be fetched is named, or every reachable file was, once, and the reachable compile
   targets come back sorted.
   */
  method CollectProtoSources(files: Files, seeds: seq<string>) returns (outcome: Outcome, fetched: seq<string>)
    ensures outcome.CannotFetch? ==> Reachable(files, seeds, outcome.path) && !Available(files, outcome.path)
    ensures outcome.Targets? ==> forall p :: Reachable(files, seeds, p) ==> Available(files, p)
    ensures outcome.Targets? ==>
      && NoDuplicates(outcome.paths) && Sorted(outcome.paths, StringLe)
      && forall p :: p in outcome.paths <==> Reachable(files, seeds, p) && IsTarget(p)
    ensures NoDuplicates(fetched)
    ensures outcome.Targets? ==> forall p :: p in fetched <==> Reachable(files, seeds, p) && !SourceFor(p).WellKnown?
  {
    var failed, fetches, targets, visited := Walk(files, seeds);
    fetched := fetches;
    if failed.Some? {
      return CannotFetch(failed.value), fetched;
    }
    Exhausted(files, seeds, visited);
    SortedTargets(targets);
    return Targets(StableSort(targets, StringLe)), fetched;
  }

  lemma VisitShrinks(keys: set<string>, visited: set<string>, path: string)
    requires path !in visited
    ensures |keys - (visited + {path})| <= |keys - visited|
    ensures path in keys ==> |keys - (visited + {path})| < |keys - visited|
  {
    if path in keys {
      assert keys - visited == (keys - (visited + {path})) + {path};
    } else {
      assert keys - visited == keys - (visited + {path});
    }
  }
}
