/** Filtering and joining of sequences, shared by the models. */
module Sequences {

  datatype Option<+T> = None | Some(value: T)

  function Min(a: int, b: int): int { if a <= b then a else b }

  function Max(a: int, b: int): int { if a >= b then a else b }

  function ElementSet<T>(xs: seq<T>): set<T> {
    set x | x in xs
  }

  function Filter<T>(xs: seq<T>, keep: T -> bool): (r: seq<T>)
    ensures |r| <= |xs|
  {
    if xs == [] then []
    else (if keep(xs[0]) then [xs[0]] else []) + Filter(xs[1..], keep)
  }

  lemma {:induction false} FilterConcat<T>(xs: seq<T>, ys: seq<T>, keep: T -> bool)
    ensures Filter(xs + ys, keep) == Filter(xs, keep) + Filter(ys, keep)
  {
    if xs == [] {
      assert xs + ys == ys;
    } else {
      FilterConcat(xs[1..], ys, keep);
      var first := if keep(xs[0]) then [xs[0]] else [];
      calc {
        Filter(xs + ys, keep);
        { assert (xs + ys)[0] == xs[0] && (xs + ys)[1..] == xs[1..] + ys; }
        first + Filter(xs[1..] + ys, keep);
        first + (Filter(xs[1..], keep) + Filter(ys, keep));
        (first + Filter(xs[1..], keep)) + Filter(ys, keep);
      }
    }
  }

  lemma FilterSlice<T>(xs: seq<T>, keep: T -> bool, i: nat, k: nat, j: nat)
    requires i <= k <= j <= |xs|
    ensures Filter(xs[i..j], keep) == Filter(xs[i..k], keep) + Filter(xs[k..j], keep)
  {
    assert xs[i..j] == xs[i..k] + xs[k..j];
    FilterConcat(xs[i..k], xs[k..j], keep);
  }

  lemma {:induction false} FilterMembers<T>(xs: seq<T>, keep: T -> bool, x: T)
    ensures x in Filter(xs, keep) <==> x in xs && keep(x)
  {
    if xs != [] {
      FilterMembers(xs[1..], keep, x);
      assert x in xs <==> x == xs[0] || x in xs[1..];
    }
  }

  /** Filtering keeps as many elements as there are positions that hold a wanted one. */
  lemma {:induction false} FilterCount<T>(xs: seq<T>, keep: T -> bool, positions: set<nat>)
    requires forall i: nat :: i in positions <==> i < |xs| && keep(xs[i])
    ensures |Filter(xs, keep)| == |positions|
    decreases |xs|
  {
    if xs == [] {
      assert positions == {};
    } else {
      var n := |xs| - 1;
      var front := xs[..n];
      FilterCount(front, keep, positions - {n});
      assert xs == front + [xs[n]];
      FilterConcat(front, [xs[n]], keep);
    }
  }

  lemma {:induction false} FilterAlike<T>(xs: seq<T>, f: T -> bool, g: T -> bool)
    requires forall x :: x in xs ==> f(x) == g(x)
    ensures Filter(xs, f) == Filter(xs, g)
  {
    if xs != [] {
      FilterAlike(xs[1..], f, g);
    }
  }

  lemma {:induction false} FilterAll<T>(xs: seq<T>, keep: T -> bool)
    requires forall i :: 0 <= i < |xs| ==> keep(xs[i])
    ensures Filter(xs, keep) == xs
  {
    if xs != [] {
      FilterAll(xs[1..], keep);
      assert xs == [xs[0]] + xs[1..];
    }
  }

  lemma {:induction false} FilterNone<T>(xs: seq<T>, keep: T -> bool)
    requires forall i :: 0 <= i < |xs| ==> !keep(xs[i])
    ensures Filter(xs, keep) == []
  {
    if xs != [] {
      FilterNone(xs[1..], keep);
    }
  }

  lemma {:induction false} FilterEmpty<T>(xs: seq<T>, keep: T -> bool, i: nat)
    requires Filter(xs, keep) == [] && i < |xs|
    ensures !keep(xs[i])
  {
    FilterMembers(xs, keep, xs[i]);
  }

  /** One kept element of a non-empty result is the last one, and nothing after it is kept. */
  lemma {:induction false} FilterLast<T>(xs: seq<T>, keep: T -> bool) returns (k: nat)
    requires Filter(xs, keep) != []
    ensures k < |xs| && keep(xs[k])
    ensures var r := Filter(xs, keep); r[|r| - 1] == xs[k]
    ensures forall i :: k < i < |xs| ==> !keep(xs[i])
  {
    var rest := Filter(xs[1..], keep);
    if rest == [] {
      k := 0;
      forall i | 0 < i < |xs| ensures !keep(xs[i]) {
        FilterEmpty(xs[1..], keep, i - 1);
      }
    } else {
      var j := FilterLast(xs[1..], keep);
      k := j + 1;
      forall i | k < i < |xs| ensures !keep(xs[i]) {
        assert xs[i] == xs[1..][i - 1];
      }
    }
  }

  /** The concatenation of all pieces, in order. */
  function Flatten<T>(xss: seq<seq<T>>): seq<T> {
    if xss == [] then [] else xss[0] + Flatten(xss[1..])
  }

  lemma {:induction false} FlattenConcat<T>(xss: seq<seq<T>>, yss: seq<seq<T>>)
    ensures Flatten(xss + yss) == Flatten(xss) + Flatten(yss)
  {
    if xss == [] {
      assert xss + yss == yss;
    } else {
      assert (xss + yss)[1..] == xss[1..] + yss;
      FlattenConcat(xss[1..], yss);
    }
  }
}
