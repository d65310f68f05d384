/** Stable sorting, as Python's `sorted` promises it, and the order Python gives strings. */
module Sorting {

  ghost predicate TotalPreorder<T(!new)>(le: (T, T) -> bool) {
    && (forall a, b :: le(a, b) || le(b, a))
    && (forall a, b, c :: le(a, b) && le(b, c) ==> le(a, c))
  }

  ghost predicate Sorted<T>(xs: seq<T>, le: (T, T) -> bool) {
    forall i, j :: 0 <= i < j < |xs| ==> le(xs[i], xs[j])
  }

  ghost predicate NoDuplicates<T>(xs: seq<T>) {
    forall i, j :: 0 <= i < j < |xs| ==> xs[i] != xs[j]
  }

  /** `a` stands at an earlier position of `xs` than `b`. */
  ghost predicate Before<T(!new)>(xs: seq<T>, a: T, b: T) {
    exists i, j :: 0 <= i < j < |xs| && xs[i] == a && xs[j] == b
  }

  /** Puts `x` in front of everything it is not strictly greater than. */
  function Insert<T>(x: T, ys: seq<T>, le: (T, T) -> bool): (r: seq<T>)
    ensures multiset(r) == multiset([x]) + multiset(ys)
    ensures |r| == |ys| + 1
  {
    if ys == [] then [x]
    else if le(x, ys[0]) then [x] + ys
    else
      var r := [ys[0]] + Insert(x, ys[1..], le);
      assert ys == [ys[0]] + ys[1..];
      r
  }

  function StableSort<T>(xs: seq<T>, le: (T, T) -> bool): (r: seq<T>)
    ensures multiset(r) == multiset(xs)
    ensures |r| == |xs|
  {
    if xs == [] then []
    else
      assert xs == [xs[0]] + xs[1..];
      Insert(xs[0], StableSort(xs[1..], le), le)
  }

  lemma SameElements<T>(xs: seq<T>, ys: seq<T>, x: T)
    requires multiset(xs) == multiset(ys)
    ensures x in xs <==> x in ys
  {
    assert x in multiset(xs) <==> x in multiset(ys);
  }

  lemma {:induction false} InsertKeepsSorted<T(!new)>(x: T, ys: seq<T>, le: (T, T) -> bool)
    requires TotalPreorder(le) && Sorted(ys, le)
    ensures Sorted(Insert(x, ys, le), le)
  {
    if ys != [] && !le(x, ys[0]) {
      var rest := Insert(x, ys[1..], le);
      InsertKeepsSorted(x, ys[1..], le);
      forall y | y in rest ensures le(ys[0], y) {
        SameElements(rest, [x] + ys[1..], y);
      }
    }
  }

  lemma {:induction false} StableSortSorts<T(!new)>(xs: seq<T>, le: (T, T) -> bool)
    requires TotalPreorder(le)
    ensures Sorted(StableSort(xs, le), le)
  {
    if xs != [] {
      StableSortSorts(xs[1..], le);
      InsertKeepsSorted(xs[0], StableSort(xs[1..], le), le);
    }
  }

  lemma {:induction false} InsertKeepsOrder<T(!new)>(x: T, ys: seq<T>, le: (T, T) -> bool, a: T, b: T)
    requires Before(ys, a, b)
    ensures Before(Insert(x, ys, le), a, b)
  {
    var i, j :| 0 <= i < j < |ys| && ys[i] == a && ys[j] == b;
    var r := Insert(x, ys, le);
    if le(x, ys[0]) {
      assert r[i + 1] == a && r[j + 1] == b;
    } else if i == 0 {
      var rest := Insert(x, ys[1..], le);
      assert b in ys[1..] by { assert ys[1..][j - 1] == b; }
      SameElements(rest, [x] + ys[1..], b);
      var k :| 0 <= k < |rest| && rest[k] == b;
      assert r[0] == a && r[k + 1] == b;
    } else {
      assert ys[1..][i - 1] == a && ys[1..][j - 1] == b;
      InsertKeepsOrder(x, ys[1..], le, a, b);
      var k, l :| 0 <= k < l < |Insert(x, ys[1..], le)|
        && Insert(x, ys[1..], le)[k] == a && Insert(x, ys[1..], le)[l] == b;
      assert r[k + 1] == a && r[l + 1] == b;
    }
  }

  lemma {:induction false} InsertLeads<T(!new)>(x: T, ys: seq<T>, le: (T, T) -> bool, b: T)
    requires TotalPreorder(le) && Sorted(ys, le) && b in ys && le(x, b)
    ensures Before(Insert(x, ys, le), x, b)
  {
    var r := Insert(x, ys, le);
    var j :| 0 <= j < |ys| && ys[j] == b;
    if le(x, ys[0]) {
      assert r[0] == x && r[j + 1] == b;
    } else {
      assert j != 0;
      assert ys[1..][j - 1] == b;
      InsertLeads(x, ys[1..], le, b);
      var rest := Insert(x, ys[1..], le);
      var k, l :| 0 <= k < l < |rest| && rest[k] == x && rest[l] == b;
      assert r[k + 1] == x && r[l + 1] == b;
    }
  }

  /** An element that is not greater than a later one stays in front of it. */
  lemma {:induction false} StableSortIsStable<T(!new)>(xs: seq<T>, le: (T, T) -> bool, i: nat, j: nat)
    requires TotalPreorder(le) && i < j < |xs| && le(xs[i], xs[j])
    ensures Before(StableSort(xs, le), xs[i], xs[j])
  {
    var rest := StableSort(xs[1..], le);
    if i == 0 {
      StableSortSorts(xs[1..], le);
      assert xs[1..][j - 1] == xs[j];
      SameElements(rest, xs[1..], xs[j]);
      InsertLeads(xs[0], rest, le, xs[j]);
    } else {
      assert xs[1..][i - 1] == xs[i] && xs[1..][j - 1] == xs[j];
      StableSortIsStable(xs[1..], le, i - 1, j - 1);
      InsertKeepsOrder(xs[0], rest, le, xs[i], xs[j]);
    }
  }

  /** An element strictly smaller than another precedes it, wherever the two stood. */
  lemma {:induction false} StableSortPrecedes<T(!new)>(xs: seq<T>, le: (T, T) -> bool, a: T, b: T)
    requires TotalPreorder(le) && a in xs && b in xs && !le(b, a)
    ensures Before(StableSort(xs, le), a, b)
  {
    var r := StableSort(xs, le);
    StableSortSorts(xs, le);
    SameElements(r, xs, a);
    SameElements(r, xs, b);
    var i :| 0 <= i < |r| && r[i] == a;
    var j :| 0 <= j < |r| && r[j] == b;
    assert le(a, a);
  }

  lemma {:induction false} CountOfDistinct<T>(xs: seq<T>, x: T)
    requires NoDuplicates(xs)
    ensures multiset(xs)[x] <= 1
  {
    if xs != [] {
      assert xs == [xs[0]] + xs[1..];
      CountOfDistinct(xs[1..], x);
      assert multiset(xs[1..])[x] > 0 <==> x in xs[1..];
    }
  }

  lemma CountOfRepeated<T>(xs: seq<T>, i: nat, j: nat)
    requires i < j < |xs| && xs[i] == xs[j]
    ensures multiset(xs)[xs[i]] >= 2
  {
    assert xs == xs[..j] + xs[j..];
    assert xs[..j][i] == xs[i] && xs[j..][0] == xs[i];
    assert xs[i] in multiset(xs[..j]) && xs[i] in multiset(xs[j..]);
  }

  lemma SortKeepsDistinct<T>(xs: seq<T>, le: (T, T) -> bool)
    requires NoDuplicates(xs)
    ensures NoDuplicates(StableSort(xs, le))
  {
    var r := StableSort(xs, le);
    forall i, j | 0 <= i < j < |r| ensures r[i] != r[j] {
      CountOfDistinct(xs, r[i]);
      if r[i] == r[j] {
        CountOfRepeated(r, i, j);
      }
    }
  }

  /** Python compares strings code point by code point; a proper prefix comes first. */
  predicate StringLe(a: string, b: string) {
    if a == "" then true
    else if b == "" then false
    else a[0] < b[0] || (a[0] == b[0] && StringLe(a[1..], b[1..]))
  }

  /** A string is at or below another iff it begins it, or has the smaller character where they first differ. */
  lemma {:induction false} StringLeMeans(a: string, b: string)
    ensures StringLe(a, b) <==> a <= b || exists i: nat :: FirstSmaller(a, b, i)
  {
    if a != "" && b != "" {
      StringLeMeans(a[1..], b[1..]);
      if i: nat :| FirstSmaller(a, b, i) {
        if i > 0 { assert FirstSmaller(a[1..], b[1..], i - 1); }
      }
      if a[0] == b[0] {
        if i: nat :| FirstSmaller(a[1..], b[1..], i) {
          assert a[..i + 1] == [a[0]] + a[1..][..i] && b[..i + 1] == [b[0]] + b[1..][..i];
          assert FirstSmaller(a, b, i + 1);
        }
        if a[1..] <= b[1..] { assert a == [a[0]] + a[1..] && b == [b[0]] + b[1..]; }
      } else if a[0] < b[0] {
        assert FirstSmaller(a, b, 0);
      }
    }
  }

  ghost predicate FirstSmaller(a: string, b: string, i: nat) {
    i < |a| && i < |b| && a[..i] == b[..i] && a[i] < b[i]
  }

  lemma {:induction false} StringLeTotal(a: string, b: string)
    ensures StringLe(a, b) || StringLe(b, a)
  {
    if a != "" && b != "" {
      StringLeTotal(a[1..], b[1..]);
    }
  }

  lemma {:induction false} StringLeTransitive(a: string, b: string, c: string)
    requires StringLe(a, b) && StringLe(b, c)
    ensures StringLe(a, c)
  {
    if a != "" && b != "" && c != "" && a[0] == b[0] && b[0] == c[0] {
      StringLeTransitive(a[1..], b[1..], c[1..]);
    }
  }

  lemma StringOrder()
    ensures TotalPreorder(StringLe)
  {
    forall a, b ensures StringLe(a, b) || StringLe(b, a) { StringLeTotal(a, b); }
    forall a, b, c | StringLe(a, b) && StringLe(b, c) ensures StringLe(a, c) { StringLeTransitive(a, b, c); }
  }
}
