/** Label escaping and label strings of the Prometheus text exposition format, version 0.0.4. */
module MetricsText {
  import opened Sequences

  /** `str.replace` with a one-character pattern. */
  function Replace(s: string, c: char, by_: string): string {
    if s == "" then "" else (if s[0] == c then by_ else [s[0]]) + Replace(s[1..], c, by_)
  }

  /** `_escape`: the three replacements one after the other. */
  function Escape(s: string): string {
    Replace(Replace(Replace(s, '\\', "\\\\"), '"', "\\\""), '\n', "\\n")
  }

  /** The escape of one character. */
  function EscapeChar(c: char): string {
    if c == '\\' then "\\\\" else if c == '"' then "\\\"" else if c == '\n' then "\\n" else [c]
  }

  function EscapeOnce(s: string): string {
    if s == "" then "" else EscapeChar(s[0]) + EscapeOnce(s[1..])
  }

  lemma {:induction false} ReplaceConcat(s: string, t: string, c: char, by_: string)
    ensures Replace(s + t, c, by_) == Replace(s, c, by_) + Replace(t, c, by_)
  {
    if s == "" {
      assert s + t == t;
    } else {
      assert (s + t)[1..] == s[1..] + t;
      ReplaceConcat(s[1..], t, c, by_);
    }
  }

  lemma ReplaceOne(c: char, d: char, by_: string)
    ensures Replace([c], d, by_) == if c == d then by_ else [c]
  {
    assert [c][1..] == "";
  }

  lemma ReplaceTwo(c: char, d: char, e: char, by_: string)
    requires c != e && d != e
    ensures Replace([c, d], e, by_) == [c, d]
  {
    assert [c, d][1..] == [d];
    ReplaceOne(d, e, by_);
  }

  lemma EscapeOfChar(c: char)
    ensures Escape([c]) == EscapeChar(c)
  {
    ReplaceOne(c, '\\', "\\\\");
    if c == '\\' {
      ReplaceTwo('\\', '\\', '"', "\\\"");
      ReplaceTwo('\\', '\\', '\n', "\\n");
    } else {
      ReplaceOne(c, '"', "\\\"");
      if c == '"' {
        ReplaceTwo('\\', '"', '\n', "\\n");
      } else {
        ReplaceOne(c, '\n', "\\n");
      }
    }
  }

  /** A backslash, a quote and a newline are escaped, and no other character. */
  lemma EscapesAre(c: char)
    ensures Escape("\\") == "\\\\" && Escape("\"") == "\\\"" && Escape("\n") == "\\n"
    ensures c != '\\' && c != '"' && c != '\n' ==> Escape([c]) == [c]
  {
    EscapeOfChar('\\');
    EscapeOfChar('"');
    EscapeOfChar('\n');
    EscapeOfChar(c);
  }

  /** The order of the replacements does not double an escape: together they are one pass over the input. */
  lemma {:induction false} EscapeIsOnePass(s: string)
    ensures Escape(s) == EscapeOnce(s)
  {
    if s != "" {
      var head, tail := [s[0]], s[1..];
      assert s == head + tail;
      EscapeIsOnePass(tail);
      EscapeOfChar(s[0]);
      EscapeConcat(head, tail);
    }
  }

  lemma EscapeConcat(s: string, t: string)
    ensures Escape(s + t) == Escape(s) + Escape(t)
  {
    ReplaceConcat(s, t, '\\', "\\\\");
    var s1, t1 := Replace(s, '\\', "\\\\"), Replace(t, '\\', "\\\\");
    ReplaceConcat(s1, t1, '"', "\\\"");
    ReplaceConcat(Replace(s1, '"', "\\\""), Replace(t1, '"', "\\\""), '\n', "\\n");
  }

  // ----- reading a quoted value back -----

  /** A scraper's view: the value up to the first unescaped quote, and what follows that quote. */
  function ReadQuoted(s: string): (r: Option<(string, string)>)
    ensures r.Some? ==> |r.value.1| < |s|
  {
    if s == "" then None
    else if s[0] == '"' then Some(("", s[1..]))
    else if s[0] == '\\' then
      if |s| < 2 then None
      else
        match ReadQuoted(s[2..])
        case None => None
        case Some((v, rest)) => Some(([if s[1] == 'n' then '\n' else s[1]] + v, rest))
    else
      match ReadQuoted(s[1..])
      case None => None
      case Some((v, rest)) => Some(([s[0]] + v, rest))
  }

  /** Reading one escaped character yields that character. */
  lemma ReadChar(c: char, s: string)
    ensures ReadQuoted(EscapeChar(c) + s) ==
      match ReadQuoted(s) { case None => None case Some((v, rest)) => Some(([c] + v, rest)) }
  {
    var e := EscapeChar(c);
    if |e| == 2 {
      assert (e + s)[0] == '\\' && (e + s)[1] == e[1] && (e + s)[2..] == s;
    } else {
      assert (e + s)[0] == c && (e + s)[1..] == s;
    }
  }

  lemma EscapeHead(v: string, tail: string)
    requires v != ""
    ensures EscapeOnce(v) + tail == EscapeChar(v[0]) + (EscapeOnce(v[1..]) + tail)
  {
  }

  /** A written value is read back exactly, and reading stops exactly at the quote that ends it. */
  lemma {:induction false} ReadBack(v: string, tail: string)
    requires tail != "" && tail[0] == '"'
    ensures ReadQuoted(EscapeOnce(v) + tail) == Some((v, tail[1..]))
  {
    if v == "" {
      assert "" + tail == tail;
    } else {
      ReadBack(v[1..], tail);
      ReadChar(v[0], EscapeOnce(v[1..]) + tail);
      EscapeHead(v, tail);
      assert v == [v[0]] + v[1..];
    }
  }

  // ----- label strings -----

  /** `name="value"`. */
  function Pair(name: string, value: string): string {
    (name + "=\"") + (Escape(value) + "\"")
  }

  /** Pairs separated by commas. */
  function Pairs(names: seq<string>, values: seq<string>): string
    requires |names| == |values|
  {
    if names == [] then ""
    else
      var more := if |names| == 1 then "" else "," + Pairs(names[1..], values[1..]);
      Pair(names[0], values[0]) + more
  }

  /** `_label_str`; a wrong number of values raises. */
  function LabelStr(names: seq<string>, values: seq<string>): Option<string> {
    if names == [] then Some("")
    else if |names| != |values| then None
    else Some("{" + Pairs(names, values) + "}")
  }

  /** What follows the first pair when the pairs are followed by `x`. */
  function AfterFirst(names: seq<string>, values: seq<string>, x: string): string
    requires |names| == |values| && names != []
  {
    if |names| == 1 then x else "," + (Pairs(names[1..], values[1..]) + x)
  }

  lemma Regroup(a: string, b: string, c: string, d: string, x: string)
    ensures ((a + (b + c)) + d) + x == a + (b + (c + (d + x)))
  {
  }

  /** Pairs followed by `x`, cut open after the first value. */
  lemma PairsShape(names: seq<string>, values: seq<string>, x: string) returns (tail: string)
    requires |names| == |values| && names != []
    ensures tail != "" && tail[0] == '"'
    ensures Pairs(names, values) + x == (names[0] + "=\"") + (EscapeOnce(values[0]) + tail)
    ensures tail[1..] == AfterFirst(names, values, x)
  {
    EscapeIsOnePass(values[0]);
    var after := if |names| == 1 then "" else "," + Pairs(names[1..], values[1..]);
    tail := "\"" + (after + x);
    Regroup(names[0] + "=\"", Escape(values[0]), "\"", after, x);
    if |names| > 1 {
      assert after + x == "," + (Pairs(names[1..], values[1..]) + x);
    } else {
      assert after + x == x;
    }
  }

  lemma FirstDetermined(names: seq<string>, a: seq<string>, b: seq<string>, x: string, y: string)
    requires |names| == |a| == |b| && names != [] && Pairs(names, a) + x == Pairs(names, b) + y
    ensures a[0] == b[0] && AfterFirst(names, a, x) == AfterFirst(names, b, y)
  {
    var tailA := PairsShape(names, a, x);
    var tailB := PairsShape(names, b, y);
    CancelFront(names[0] + "=\"", EscapeOnce(a[0]) + tailA, EscapeOnce(b[0]) + tailB);
    ReadBack(a[0], tailA);
    ReadBack(b[0], tailB);
  }

  /** The pairs determine the values, whatever text follows them. */
  lemma {:induction false} PairsInjective(names: seq<string>, a: seq<string>, b: seq<string>, x: string, y: string)
    requires |names| == |a| == |b| && Pairs(names, a) + x == Pairs(names, b) + y
    ensures a == b
  {
    if names != [] {
      FirstDetermined(names, a, b, x, y);
      if |names| > 1 {
        var pa, pb := Pairs(names[1..], a[1..]) + x, Pairs(names[1..], b[1..]) + y;
        CancelFront(",", pa, pb);
        PairsInjective(names[1..], a[1..], b[1..], x, y);
      }
      assert a == [a[0]] + a[1..] && b == [b[0]] + b[1..];
    }
  }

  lemma CancelFront(lead: string, x: string, y: string)
    requires lead + x == lead + y
    ensures x == y
  {
    assert (lead + x)[|lead|..] == x && (lead + y)[|lead|..] == y;
  }

  /** Two label tuples of one metric never print alike. */
  lemma LabelsPrintApart(names: seq<string>, a: seq<string>, b: seq<string>)
    requires |names| == |a| == |b|
    ensures LabelStr(names, a) == LabelStr(names, b) <==> a == b
  {
    if names != [] && LabelStr(names, a) == LabelStr(names, b) {
      var pa, pb := Pairs(names, a), Pairs(names, b);
      assert "{" + pa + "}" == "{" + (pa + "}") && "{" + pb + "}" == "{" + (pb + "}");
      CancelFront("{", pa + "}", pb + "}");
      PairsInjective(names, a, b, "}", "}");
    }
  }

  /** A histogram's bucket label string: the closing brace is cut off and the bound appended. */
  function BucketLabels(base: string, le: string): string {
    if base == "" then "{le=\"" + le + "\"}"
    else base[..|base| - 1] + (",le=\"" + le + "\"}")
  }

  /** It is the label string of the metric with `le` as one more label. */
  lemma BucketLabelsAreLabels(names: seq<string>, values: seq<string>, le: string)
    requires |names| == |values| && Escape(le) == le
    ensures Some(BucketLabels(LabelStr(names, values).value, le)) == LabelStr(names + ["le"], values + [le])
  {
    if names == [] {
      assert names + ["le"] == ["le"] && values + [le] == [le];
      assert Pairs(["le"], [le]) == Pair("le", le);
      assert "{" + ("le" + "=\"") == "{le=\"";
      assert "{le=\"" + le + "\"}" == "{" + Pair("le", le) + "}";
    } else {
      PairsAppend(names, values, "le", le);
      InsideBraces(Pairs(names, values), "," + Pair("le", le));
      BoundSuffix(le);
    }
  }

  lemma InsideBraces(pairs: string, more: string)
    ensures var base := "{" + pairs + "}"; base[..|base| - 1] + (more + "}") == "{" + (pairs + more) + "}"
  {
    var base := "{" + pairs + "}";
    assert base[..|base| - 1] == "{" + pairs;
  }

  lemma BoundSuffix(le: string)
    requires Escape(le) == le
    ensures ("," + Pair("le", le)) + "}" == ",le=\"" + le + "\"}"
  {
    assert "," + ("le" + "=\"") == ",le=\"";
  }

  lemma {:induction false} PairsAppend(names: seq<string>, values: seq<string>, name: string, value: string)
    requires |names| == |values| && names != []
    ensures Pairs(names + [name], values + [value]) == Pairs(names, values) + ("," + Pair(name, value))
  {
    assert (names + [name])[1..] == names[1..] + [name] && (values + [value])[1..] == values[1..] + [value];
    if |names| == 1 {
      assert names[1..] + [name] == [name] && values[1..] + [value] == [value];
      assert Pairs([name], [value]) == Pair(name, value);
    } else {
      PairsAppend(names[1..], values[1..], name, value);
    }
  }
}
