/** The process table, and the tree of processes below one of them. */
module ProcessTree {
  import opened Sequences
  import opened Sorting

  datatype Process = Process(pid: string, parent: string, command: string)

  /** Pids are the keys of the table. */
  ghost predicate DistinctPids(procs: seq<Process>) {
    forall i, j :: 0 <= i < j < |procs| ==> procs[i].pid != procs[j].pid
  }

  function Find(procs: seq<Process>, pid: string): (r: Option<Process>)
    ensures r.Some? ==> r.value in procs && r.value.pid == pid
    ensures r.None? ==> forall i :: 0 <= i < |procs| ==> procs[i].pid != pid
  {
    if procs == [] then None else if procs[0].pid == pid then Some(procs[0]) else Find(procs[1..], pid)
  }

  function Pids(procs: seq<Process>): set<string> {
    set p | p in procs :: p.pid
  }

  /** The direct children, in table order. */
  function KidsOf(procs: seq<Process>, pid: string): seq<string> {
    if procs == [] then []
    else (if procs[0].parent == pid then [procs[0].pid] else []) + KidsOf(procs[1..], pid)
  }

  lemma {:induction false} KidsMembers(procs: seq<Process>, pid: string, kid: string)
    requires DistinctPids(procs)
    ensures kid in KidsOf(procs, pid) <==> Find(procs, kid).Some? && Find(procs, kid).value.parent == pid
  {
    if procs != [] {
      KidsMembers(procs[1..], pid, kid);
      if kid == procs[0].pid {
        assert Find(procs[1..], kid).None? by {
          forall i | 0 <= i < |procs[1..]| ensures procs[1..][i].pid != kid {
            assert procs[1..][i] == procs[i + 1];
          }
        }
      }
    }
  }

  lemma {:induction false} KidsDistinct(procs: seq<Process>, pid: string)
    requires DistinctPids(procs)
    ensures NoDuplicates(KidsOf(procs, pid))
  {
    if procs != [] {
      KidsDistinct(procs[1..], pid);
      var rest := KidsOf(procs[1..], pid);
      forall i | 0 <= i < |rest| ensures rest[i] != procs[0].pid {
        KidsMembers(procs[1..], pid, rest[i]);
        var e := Find(procs[1..], rest[i]).value;
        var j :| 0 <= j < |procs[1..]| && procs[1..][j] == e;
        assert procs[j + 1] == e;
      }
    }
  }

  // ----- walking up -----

  /** The ancestor `k` levels up, if the table still knows every process on the way. */
  function Up(procs: seq<Process>, pid: string, k: nat): Option<string>
    decreases k
  {
    if k == 0 then Some(pid)
    else if Find(procs, pid).None? then None
    else Up(procs, Find(procs, pid).value.parent, k - 1)
  }

  lemma {:induction false} UpAdd(procs: seq<Process>, pid: string, a: nat, b: nat)
    ensures Up(procs, pid, a + b) == if Up(procs, pid, a).None? then None else Up(procs, Up(procs, pid, a).value, b)
    decreases a
  {
    if a > 0 && Find(procs, pid).Some? {
      UpAdd(procs, Find(procs, pid).value.parent, a - 1, b);
    }
  }

  /** `pid` lies strictly below `top`. */
  ghost predicate Below(procs: seq<Process>, pid: string, top: string) {
    exists k: nat :: k > 0 && Up(procs, pid, k) == Some(top)
  }

  /** No way up from `top` leads back to it. */
  ghost predicate Acyclic(procs: seq<Process>, top: string) {
    !Below(procs, top, top)
  }

  /** Parent pointers are single-valued, so a cycle anywhere below `top` runs through `top` itself. */
  lemma CycleRunsThroughTop(procs: seq<Process>, pid: string, top: string, length: nat, m: nat)
    requires length > 0 && Up(procs, pid, length) == Some(pid)
    requires Up(procs, pid, m) == Some(top)
    ensures Below(procs, top, top)
  {
    UpAdd(procs, pid, m, length);
    UpAdd(procs, pid, length, m);
    assert m + length == length + m;
    assert Up(procs, top, length) == Some(top);
  }

  lemma NoCycleBelow(procs: seq<Process>, pid: string, top: string, length: nat, m: nat)
    requires Acyclic(procs, top) && Up(procs, pid, m) == Some(top) && length > 0
    ensures Up(procs, pid, length) != Some(pid)
  {
    if Up(procs, pid, length) == Some(pid) {
      CycleRunsThroughTop(procs, pid, top, length, m);
    }
  }

  lemma UpOne(procs: seq<Process>, kid: string, node: string, k: nat)
    requires DistinctPids(procs) && kid in KidsOf(procs, node)
    ensures Find(procs, kid).Some? && kid in Pids(procs)
    ensures Up(procs, kid, 1) == Some(node) && Up(procs, kid, k + 1) == Up(procs, node, k)
  {
    KidsMembers(procs, node, kid);
    UpAdd(procs, kid, 1, k);
  }

  // ----- the tree -----

  /** `node` is `top` or below it, and `path` holds only processes met on the way down to it. */
  ghost predicate OnPath(procs: seq<Process>, top: string, node: string, path: set<string>) {
    && path <= Pids(procs)
    && (exists m: nat :: Up(procs, node, m) == Some(top))
    && forall x :: x in path ==> exists k: nat :: Up(procs, node, k) == Some(x)
  }

  lemma StepDown(procs: seq<Process>, top: string, node: string, path: set<string>, kid: string)
    requires DistinctPids(procs) && Acyclic(procs, top) && OnPath(procs, top, node, path)
    requires kid in KidsOf(procs, node)
    ensures kid !in path && OnPath(procs, top, kid, path + {kid})
  {
    var m: nat :| Up(procs, node, m) == Some(top);
    UpOne(procs, kid, node, m);
    forall x | x in path ensures exists k: nat :: Up(procs, kid, k) == Some(x) {
      var k: nat :| Up(procs, node, k) == Some(x);
      UpOne(procs, kid, node, k);
      assert Up(procs, kid, k + 1) == Some(x);
    }
    if kid in path {
      var k: nat :| Up(procs, node, k) == Some(kid);
      UpOne(procs, kid, node, k);
      NoCycleBelow(procs, kid, top, k + 1, m + 1);
    }
    assert Up(procs, kid, 0) == Some(kid);
    assert Up(procs, kid, m + 1) == Some(top);
  }

  /** Each kid followed by everything below it, depth first. */
  function TreeOf(
    procs: seq<Process>, ghost top: string, ghost node: string, kids: seq<string>, ghost path: set<string>): seq<string>
    requires DistinctPids(procs) && Acyclic(procs, top) && OnPath(procs, top, node, path)
    requires forall i :: 0 <= i < |kids| ==> kids[i] in KidsOf(procs, node)
    decreases |Pids(procs) - path|, |kids|
  {
    if kids == [] then []
    else
      StepDown(procs, top, node, path, kids[0]);
      Shrinks(procs, path, kids[0]);
      [kids[0]]
      + TreeOf(procs, top, kids[0], KidsOf(procs, kids[0]), path + {kids[0]})
      + TreeOf(procs, top, node, kids[1..], path)
  }

  lemma Shrinks(procs: seq<Process>, path: set<string>, kid: string)
    requires kid in Pids(procs) && kid !in path
    ensures |Pids(procs) - (path + {kid})| < |Pids(procs) - path|
  {
    var rest := Pids(procs) - (path + {kid});
    assert Pids(procs) - path == rest + {kid};
  }

  /** `q` is one of `kids` or below one of them. */
  ghost predicate UnderOne(procs: seq<Process>, kids: seq<string>, q: string) {
    exists i, j: nat :: 0 <= i < |kids| && Up(procs, q, j) == Some(kids[i])
  }

  lemma UnderHead(procs: seq<Process>, kids: seq<string>, q: string)
    requires DistinctPids(procs) && kids != []
    ensures UnderOne(procs, kids, q) <==>
      q == kids[0] || UnderOne(procs, KidsOf(procs, kids[0]), q) || UnderOne(procs, kids[1..], q)
  {
    var grand := KidsOf(procs, kids[0]);
    if UnderOne(procs, kids, q) {
      var i, j: nat :| 0 <= i < |kids| && Up(procs, q, j) == Some(kids[i]);
      if i > 0 {
        assert kids[1..][i - 1] == kids[i];
      } else if j > 0 {
        UpAdd(procs, q, j - 1, 1);
        var g := Up(procs, q, j - 1).value;
        KidsMembers(procs, kids[0], g);
        var n :| 0 <= n < |grand| && grand[n] == g;
      }
    }
    if q == kids[0] {
      assert Up(procs, q, 0) == Some(kids[0]);
    }
    if UnderOne(procs, grand, q) {
      var i, j: nat :| 0 <= i < |grand| && Up(procs, q, j) == Some(grand[i]);
      UpAdd(procs, q, j, 1);
      UpOne(procs, grand[i], kids[0], 0);
      assert Up(procs, q, j + 1) == Some(kids[0]);
    }
    if UnderOne(procs, kids[1..], q) {
      var i, j: nat :| 0 <= i < |kids[1..]| && Up(procs, q, j) == Some(kids[1..][i]);
      assert kids[i + 1] == kids[1..][i];
    }
  }

  lemma {:induction false} TreeMembers(
    procs: seq<Process>, top: string, node: string, kids: seq<string>, path: set<string>, q: string)
    requires DistinctPids(procs) && Acyclic(procs, top) && OnPath(procs, top, node, path)
    requires forall i :: 0 <= i < |kids| ==> kids[i] in KidsOf(procs, node)
    ensures q in TreeOf(procs, top, node, kids, path) <==> UnderOne(procs, kids, q)
    decreases |Pids(procs) - path|, |kids|
  {
    if kids != [] {
      StepDown(procs, top, node, path, kids[0]);
      Shrinks(procs, path, kids[0]);
      TreeMembers(procs, top, kids[0], KidsOf(procs, kids[0]), path + {kids[0]}, q);
      TreeMembers(procs, top, node, kids[1..], path, q);
      UnderHead(procs, kids, q);
    }
  }

  /** Two different children of one node have nothing below them in common. */
  lemma SiblingsApart(procs: seq<Process>, top: string, node: string, a: string, b: string, q: string, i: nat, j: nat)
    requires DistinctPids(procs) && Acyclic(procs, top) && i <= j
    requires (exists m: nat :: Up(procs, node, m) == Some(top))
    requires a in KidsOf(procs, node) && b in KidsOf(procs, node)
    requires Up(procs, q, i) == Some(a) && Up(procs, q, j) == Some(b)
    ensures a == b
  {
    UpAdd(procs, q, i, j - i);
    if i < j {
      UpOne(procs, a, node, j - i - 1);
      UpAdd(procs, node, j - i - 1, 1);
      UpOne(procs, b, node, 0);
      var m: nat :| Up(procs, node, m) == Some(top);
      NoCycleBelow(procs, node, top, j - i, m);
    }
  }

  lemma SubtreesApart(procs: seq<Process>, top: string, node: string, kids: seq<string>, path: set<string>, q: string)
    requires DistinctPids(procs) && Acyclic(procs, top) && OnPath(procs, top, node, path)
    requires forall i :: 0 <= i < |kids| ==> kids[i] in KidsOf(procs, node)
    requires kids != [] && NoDuplicates(kids)
    requires q == kids[0] || UnderOne(procs, KidsOf(procs, kids[0]), q)
    ensures !UnderOne(procs, kids[1..], q)
  {
    UnderHead(procs, [kids[0]], q);
    var i, j: nat :| 0 <= i < |[kids[0]]| && Up(procs, q, j) == Some([kids[0]][i]);
    forall n, l: nat | 0 <= n < |kids[1..]| ensures Up(procs, q, l) != Some(kids[1..][n]) {
      var other := kids[1..][n];
      assert other == kids[n + 1];
      if Up(procs, q, l) == Some(other) {
        if j <= l {
          SiblingsApart(procs, top, node, kids[0], other, q, j, l);
        } else {
          SiblingsApart(procs, top, node, other, kids[0], q, l, j);
        }
      }
    }
  }

  /** No process is listed twice. */
  lemma {:induction false} TreeDistinct(
    procs: seq<Process>, top: string, node: string, kids: seq<string>, path: set<string>)
    requires DistinctPids(procs) && Acyclic(procs, top) && OnPath(procs, top, node, path)
    requires forall i :: 0 <= i < |kids| ==> kids[i] in KidsOf(procs, node)
    requires NoDuplicates(kids)
    ensures NoDuplicates(TreeOf(procs, top, node, kids, path))
    decreases |Pids(procs) - path|, |kids|
  {
    if kids != [] {
      var kid := kids[0];
      StepDown(procs, top, node, path, kid);
      Shrinks(procs, path, kid);
      var grand := KidsOf(procs, kid);
      KidsDistinct(procs, kid);
      TreeDistinct(procs, top, kid, grand, path + {kid});
      TreeDistinct(procs, top, node, kids[1..], path);
      var sub, rest := TreeOf(procs, top, kid, grand, path + {kid}), TreeOf(procs, top, node, kids[1..], path);
      forall i | 0 <= i < |sub| ensures sub[i] != kid && sub[i] !in rest {
        TreeMembers(procs, top, kid, grand, path + {kid}, sub[i]);
        TreeMembers(procs, top, node, kids[1..], path, sub[i]);
        SubtreesApart(procs, top, node, kids, path, sub[i]);
        NotBelowItself(procs, top, node, kid, path);
      }
      TreeMembers(procs, top, node, kids[1..], path, kid);
      SubtreesApart(procs, top, node, kids, path, kid);
      JoinDistinct(kid, sub, rest);
    }
  }

  lemma NotBelowItself(procs: seq<Process>, top: string, node: string, kid: string, path: set<string>)
    requires DistinctPids(procs) && Acyclic(procs, top) && OnPath(procs, top, node, path)
    requires kid in KidsOf(procs, node)
    ensures !UnderOne(procs, KidsOf(procs, kid), kid)
  {
    var grand := KidsOf(procs, kid);
    var m: nat :| Up(procs, node, m) == Some(top);
    UpOne(procs, kid, node, m);
    forall i, j: nat | 0 <= i < |grand| ensures Up(procs, kid, j) != Some(grand[i]) {
      UpOne(procs, grand[i], kid, 0);
      UpAdd(procs, kid, j, 1);
      NoCycleBelow(procs, kid, top, j + 1, m + 1);
    }
  }

  lemma JoinDistinct(head: string, xs: seq<string>, ys: seq<string>)
    requires NoDuplicates(xs) && NoDuplicates(ys) && head !in ys
    requires forall i :: 0 <= i < |xs| ==> xs[i] != head && xs[i] !in ys
    ensures NoDuplicates([head] + xs + ys)
  {
    var all := [head] + xs + ys;
    forall i, j | 0 <= i < j < |all| ensures all[i] != all[j] {
      if j > |xs| {
        assert all[j] == ys[j - 1 - |xs|];
        if i > |xs| { assert all[i] == ys[i - 1 - |xs|]; }
      }
    }
  }

  lemma {:induction false} RoundAgain(procs: seq<Process>, top: string, length: nat, rounds: nat)
    requires Up(procs, top, length) == Some(top)
    ensures Up(procs, top, rounds * length) == Some(top)
  {
    if rounds > 0 {
      RoundAgain(procs, top, length, rounds - 1);
      UpAdd(procs, top, length, (rounds - 1) * length);
      assert rounds * length == length + (rounds - 1) * length;
    }
  }

  /** When `top` does lie below itself, the walk down has no bottom: every depth is reached. */
  lemma CycleHasEveryDepth(procs: seq<Process>, top: string, depth: nat) returns (pid: string)
    requires Below(procs, top, top)
    ensures Up(procs, pid, depth) == Some(top)
  {
    var length: nat :| length > 0 && Up(procs, top, length) == Some(top);
    RoundAgain(procs, top, length, depth);
    var total := depth * length;
    assert total >= depth by { Grow(depth, length); }
    UpAdd(procs, top, total - depth, depth);
    pid := Up(procs, top, total - depth).value;
  }

  lemma Grow(a: nat, b: nat)
    requires b > 0
    ensures a * b >= a
  {
  }
}
