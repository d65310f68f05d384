/** Materialised tenant paths: dotted prefixes, and the SQL pattern the repository finds ancestors with. */
module TenantPaths {
  predicate DotFree(id: string) { '.' !in id }

  function ChildPath(parent: string, id: string): string { parent + "." + id }

  /** `upper` is `path` itself or one of its dotted prefixes. */
  predicate SegmentPrefix(upper: string, path: string) {
    upper == path || upper + "." <= path
  }

  lemma DotFollows(upper: string, path: string)
    requires upper + "." <= path
    ensures |upper| < |path| && path[|upper|] == '.' && path[..|upper|] == upper
  {
    assert path[|upper|] == (upper + ".")[|upper|];
    assert path[..|upper|] == (upper + ".")[..|upper|] == upper;
  }

  lemma LastSegmentIsDotFree(parent: string, id: string, n: int)
    requires DotFree(id) && |parent| < n < |ChildPath(parent, id)|
    ensures ChildPath(parent, id)[n] != '.'
  {
    assert ChildPath(parent, id)[n] == id[n - |parent| - 1];
    assert id[n - |parent| - 1] in id;
  }

  lemma PrefixOfChildIsPrefixOfParent(upper: string, parent: string, id: string)
    requires DotFree(id) && upper + "." <= ChildPath(parent, id)
    ensures SegmentPrefix(upper, parent)
  {
    var path := ChildPath(parent, id);
    var n := |upper|;
    DotFollows(upper, path);
    if n > |parent| {
      LastSegmentIsDotFree(parent, id, n);
    } else if n == |parent| {
      assert path[..n] == parent;
    } else {
      assert parent[..n + 1] == path[..n + 1] == upper + ".";
    }
  }

  lemma PrefixOfParentIsPrefixOfChild(upper: string, parent: string, id: string)
    requires SegmentPrefix(upper, parent)
    ensures upper + "." <= ChildPath(parent, id)
  {
    if upper == parent {
      assert ChildPath(parent, id) == (upper + ".") + id;
    } else {
      assert ChildPath(parent, id) == parent + ("." + id);
    }
  }

  /** The dotted prefixes of a child's path are exactly its parent's, and the parent itself. */
  lemma DottedPrefixOfChild(upper: string, parent: string, id: string)
    requires DotFree(id)
    ensures upper + "." <= ChildPath(parent, id) <==> SegmentPrefix(upper, parent)
  {
    if upper + "." <= ChildPath(parent, id) {
      PrefixOfChildIsPrefixOfParent(upper, parent, id);
    }
    if SegmentPrefix(upper, parent) {
      PrefixOfParentIsPrefixOfChild(upper, parent, id);
    }
  }

  lemma DottedPathHasDot(upper: string, path: string)
    requires upper + "." <= path
    ensures !DotFree(path)
  {
    DotFollows(upper, path);
    assert path[|upper|] in path;
  }

  // ----- SQL LIKE -----

  /** PostgreSQL `text LIKE pattern` with the default escape; a pattern ending in the escape matches nothing. */
  predicate Like(text: string, pattern: string)
    decreases |text| + |pattern|
  {
    if pattern == "" then text == ""
    else if pattern[0] == '%' then Like(text, pattern[1..]) || (text != "" && Like(text[1..], pattern))
    else if pattern[0] == '_' then text != "" && Like(text[1..], pattern[1..])
    else if pattern[0] == '\\' then
      |pattern| > 1 && text != "" && text[0] == pattern[1] && Like(text[1..], pattern[2..])
    else text != "" && text[0] == pattern[0] && Like(text[1..], pattern[1..])
  }

  /** A percent sign stands for any stretch of text. */
  lemma {:induction false} LikePercent(text: string, pattern: string)
    ensures Like(text, "%" + pattern) <==> exists i: nat :: i <= |text| && Like(text[i..], pattern)
    decreases |text|
  {
    var whole := "%" + pattern;
    assert whole[0] == '%' && whole[1..] == pattern && text[0..] == text;
    if text != "" {
      LikePercent(text[1..], pattern);
      if i: nat :| i <= |text| && Like(text[i..], pattern) {
        if i > 0 { assert text[1..][i - 1..] == text[i..]; }
      }
      if i: nat :| i <= |text[1..]| && Like(text[1..][i..], pattern) {
        assert text[1..][i..] == text[i + 1..];
      }
    }
  }

  /** An escaped character stands for itself, and the rest is matched as ever. */
  lemma LikeEscaped(text: string, c: char, pattern: string)
    ensures Like(text, ['\\', c] + pattern) <==> text != "" && text[0] == c && Like(text[1..], pattern)
    ensures !Like(text, ['\\'])
  {
    var whole := ['\\', c] + pattern;
    assert whole[0] == '\\' && whole[1] == c && whole[2..] == pattern;
  }

  /** The repository's pattern for "everything that starts with this path". */
  predicate MatchesBelow(path: string, upper: string) { Like(path, upper + "%") }

  lemma {:induction false} PercentMatchesAll(text: string)
    ensures Like(text, "%")
  {
    if text != "" {
      PercentMatchesAll(text[1..]);
    } else {
      assert "%"[1..] == "";
    }
  }

  predicate Plain(path: string) { '%' !in path && '_' !in path && '\\' !in path }

  /** The pattern finds every string prefix, unless a prefix holds the escape character. */
  lemma {:induction false} PrefixMatches(path: string, upper: string)
    requires '\\' !in upper && upper <= path
    ensures MatchesBelow(path, upper)
    decreases |upper|
  {
    var pattern := upper + "%";
    if upper == "" {
      assert pattern == "%";
      PercentMatchesAll(path);
    } else {
      assert pattern[0] == upper[0] && pattern[1..] == upper[1..] + "%";
      assert upper[0] in upper && forall c :: c in upper[1..] ==> c in upper;
      assert path[0] == upper[0] && upper[1..] <= path[1..];
      PrefixMatches(path[1..], upper[1..]);
      if upper[0] == '%' {
        StarSkips(path, pattern);
      }
    }
  }

  lemma StarSkips(text: string, pattern: string)
    requires text != "" && pattern != "" && pattern[0] == '%' && Like(text[1..], pattern[1..])
    ensures Like(text, pattern)
  {
    assert Like(text[1..], pattern);
  }

  /** Without wildcards the pattern finds string prefixes and nothing else. */
  lemma {:induction false} PlainMatchesIff(path: string, upper: string)
    requires Plain(upper)
    ensures MatchesBelow(path, upper) <==> upper <= path
    decreases |upper|
  {
    var pattern := upper + "%";
    if upper == "" {
      PrefixMatches(path, upper);
    } else {
      assert pattern[0] == upper[0] && pattern[1..] == upper[1..] + "%";
      assert upper[0] in upper && forall c :: c in upper[1..] ==> c in upper;
      if path != "" && path[0] == upper[0] {
        PlainMatchesIff(path[1..], upper[1..]);
        assert upper <= path <==> upper[1..] <= path[1..] by {
          assert upper == [upper[0]] + upper[1..] && path == [path[0]] + path[1..];
        }
      }
    }
  }

  /** `upper` is a prefix of `path` if its underscores may stand for any character. */
  predicate WildcardPrefix(upper: string, path: string) {
    |upper| <= |path| && forall i | 0 <= i < |upper| :: upper[i] == '_' || upper[i] == path[i]
  }

  lemma WildcardTail(upper: string, path: string)
    requires upper != "" && path != ""
    ensures WildcardPrefix(upper, path)
      <==> (upper[0] == '_' || upper[0] == path[0]) && WildcardPrefix(upper[1..], path[1..])
  {
    var u, p := upper[1..], path[1..];
    assert forall i :: 0 <= i < |u| ==> u[i] == upper[i + 1];
    assert forall i :: 0 <= i < |p| ==> p[i] == path[i + 1];
    if WildcardPrefix(u, p) && (upper[0] == '_' || upper[0] == path[0]) {
      forall i | 0 <= i < |upper| ensures upper[i] == '_' || upper[i] == path[i] {
        if i > 0 { assert upper[i] == u[i - 1] && path[i] == p[i - 1]; }
      }
    }
  }

  /** An underscore in a path is read as a wildcard: the pattern finds wildcard prefixes and nothing else. */
  lemma {:induction false} UnderscoreMatchesIff(path: string, upper: string)
    requires '%' !in upper && '\\' !in upper
    ensures MatchesBelow(path, upper) <==> WildcardPrefix(upper, path)
    decreases |upper|
  {
    var pattern := upper + "%";
    if upper == "" {
      PrefixMatches(path, upper);
    } else {
      assert pattern[0] == upper[0] && pattern[1..] == upper[1..] + "%";
      assert upper[0] in upper && forall c :: c in upper[1..] ==> c in upper;
      if path != "" {
        UnderscoreMatchesIff(path[1..], upper[1..]);
        WildcardTail(upper, path);
      }
    }
  }

  /**
   A backslash in a path is read as an escape: unless the next character is one as well, the pattern
   misses every path that starts with this one, its own included.
   */
  lemma {:induction false} EscapeMisses(path: string, front: string, rest: string)
    requires Plain(front) && (rest == "" || rest[0] != '\\')
    requires front + "\\" + rest <= path
    ensures !MatchesBelow(path, front + "\\" + rest)
    decreases |front|
  {
    var upper := front + "\\" + rest;
    var pattern := upper + "%";
    assert path[0] == upper[0] == pattern[0];
    if front == "" {
      assert pattern[1] == (if rest == "" then '%' else rest[0]);
    } else {
      assert pattern[0] == front[0] && front[0] in front && forall c :: c in front[1..] ==> c in front;
      assert upper[1..] == front[1..] + "\\" + rest && pattern[1..] == upper[1..] + "%";
      EscapeMisses(path[1..], front[1..], rest);
    }
  }
}
