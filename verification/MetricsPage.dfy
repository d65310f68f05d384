/** The whole metrics page: how it is written, metric by metric, and how a scraper reads it back. */
module MetricsPage {
  import opened Sequences
  import opened Metrics
  import opened MetricsText

  /** One sample line's content; `value` is the printed number. */
  datatype Sample = Sample(name: string, names: seq<string>, values: seq<string>, value: string)

  datatype Line = Comment(text: string) | Of(sample: Sample) | Blank

  predicate WellFormed(s: Sample) {
    && |s.names| == |s.values|
    && s.name != "" && s.name[0] != '#' && '{' !in s.name && ' ' !in s.name && '\n' !in s.name
    && (forall i | 0 <= i < |s.names| :: '=' !in s.names[i])
    && '\n' !in s.value
  }

  predicate WellFormedLine(line: Line) {
    match line
    case Comment(text) => '\n' !in text
    case Of(sample) => WellFormed(sample)
    case Blank => true
  }

  /** The braces and what is in them; nothing when the numbers differ, which the writer refuses. */
  function LabelText(names: seq<string>, values: seq<string>): string {
    match LabelStr(names, values)
    case Some(text) => text
    case None => ""
  }

  function PrintSample(s: Sample): string {
    s.name + LabelText(s.names, s.values) + " " + s.value + "\n"
  }

  function Print(line: Line): string {
    match line
    case Comment(text) => "# " + text + "\n"
    case Of(sample) => PrintSample(sample)
    case Blank => "\n"
  }

  /** How a line is printed. */
  type Printer = Line -> string

  function PrintAll(print_: Printer, lines: seq<Line>): string {
    if lines == [] then "" else print_(lines[0]) + PrintAll(print_, lines[1..])
  }

  /** The page's own way of printing. */
  ghost predicate Standard(print_: Printer) {
    forall line {:trigger Print(line)} :: print_(line) == Print(line)
  }

  function Samples(lines: seq<Line>): seq<Sample> {
    if lines == [] then []
    else (if lines[0].Of? then [lines[0].sample] else []) + Samples(lines[1..])
  }

  // ----- a scraper -----

  /** The text before the first of the stop characters, and the rest from it on. */
  function Until(s: string, stops: set<char>): (r: (string, string))
    ensures s == r.0 + r.1
  {
    if s == "" || s[0] in stops then ("", s)
    else
      var (front, rest) := Until(s[1..], stops);
      ([s[0]] + front, rest)
  }

  datatype Labels = Labels(names: seq<string>, values: seq<string>, rest: string)

  /** `name="value"` pairs up to the closing brace. */
  function ReadLabels(s: string): (r: Option<Labels>)
    ensures r.Some? ==> |r.value.rest| < |s|
    decreases |s|
  {
    var (name, rest) := Until(s, {'='});
    if |rest| < 2 || rest[1] != '"' then None
    else
      match ReadQuoted(rest[2..])
      case None => None
      case Some((value, after)) =>
        if after == "" then None
        else if after[0] == '}' then Some(Labels([name], [value], after[1..]))
        else if after[0] != ',' then None
        else
          match ReadLabels(after[1..])
          case None => None
          case Some(more) => Some(Labels([name] + more.names, [value] + more.values, more.rest))
  }

  /** A blank, the value, and the end of the line. */
  function ReadValue(s: string): (r: Option<(string, string)>)
    ensures r.Some? ==> |r.value.1| < |s|
  {
    if s == "" || s[0] != ' ' then None
    else
      var (value, rest) := Until(s[1..], {'\n'});
      if rest == "" then None else Some((value, rest[1..]))
  }

  function ReadSample(s: string): (r: Option<(Sample, string)>)
    ensures r.Some? ==> |r.value.1| < |s|
  {
    var (name, rest) := Until(s, {'{', ' '});
    if rest == "" then None
    else
      var labels := if rest[0] == '{' then ReadLabels(rest[1..]) else Some(Labels([], [], rest));
      if labels.None? then None
      else
        match ReadValue(labels.value.rest)
        case None => None
        case Some((value, after)) => Some((Sample(name, labels.value.names, labels.value.values, value), after))
  }

  function ReadPage(s: string): Option<seq<Sample>>
    decreases |s|
  {
    if s == "" then Some([])
    else if s[0] == '\n' then ReadPage(s[1..])
    else if s[0] == '#' then
      var (_, rest) := Until(s, {'\n'});
      if rest == "" then None else ReadPage(rest[1..])
    else
      match ReadSample(s)
      case None => None
      case Some((sample, rest)) =>
        match ReadPage(rest)
        case None => None
        case Some(more) => Some([sample] + more)
  }

  // ----- reading back what was printed -----

  lemma {:induction false} UntilStop(front: string, rest: string, stops: set<char>)
    requires rest != "" && rest[0] in stops && forall c :: c in front ==> c !in stops
    ensures Until(front + rest, stops) == (front, rest)
    decreases |front|
  {
    if front == "" {
      assert front + rest == rest;
    } else {
      assert front[0] in front && forall c :: c in front[1..] ==> c in front;
      assert (front + rest)[0] == front[0] && (front + rest)[1..] == front[1..] + rest;
      UntilStop(front[1..], rest, stops);
      assert [front[0]] + front[1..] == front;
    }
  }

  /** The head of a pair list: up to the quote that opens the first value. */
  lemma ReadHead(name: string, body: string)
    requires '=' !in name
    ensures Until((name + "=\"") + body, {'='}) == (name, "=\"" + body)
  {
    assert (name + "=\"") + body == name + ("=\"" + body);
    UntilStop(name, "=\"" + body, {'='});
  }

  /** What reading makes of the pair it finds first, given the text behind the value's closing quote. */
  function Continue(name: string, value: string, after: string): (r: Option<Labels>)
  {
    if after == "" then None
    else if after[0] == '}' then Some(Labels([name], [value], after[1..]))
    else if after[0] != ',' then None
    else
      match ReadLabels(after[1..])
      case None => None
      case Some(more) => Some(Labels([name] + more.names, [value] + more.values, more.rest))
  }

  lemma FirstPairBack(name: string, value: string, tail: string)
    requires '=' !in name && tail != "" && tail[0] == '"'
    ensures ReadLabels((name + "=\"") + (EscapeOnce(value) + tail)) == Continue(name, value, tail[1..])
  {
    var body := EscapeOnce(value) + tail;
    ReadHead(name, body);
    assert ("=\"" + body)[2..] == body;
    ReadBack(value, tail);
  }

  lemma PairsBack(names: seq<string>, values: seq<string>, x: string)
    requires |names| == |values| && names != [] && '=' !in names[0]
    ensures ReadLabels(Pairs(names, values) + x) == Continue(names[0], values[0], AfterFirst(names, values, x))
  {
    var tail := PairsShape(names, values, x);
    FirstPairBack(names[0], values[0], tail);
  }

  lemma LastLabelBack(name: string, value: string, after: string)
    ensures Continue(name, value, "}" + after) == Some(Labels([name], [value], after))
  {
    assert ("}" + after)[1..] == after;
  }

  lemma NextLabelBack(name: string, value: string, more: string, names: seq<string>, values: seq<string>, after: string)
    requires ReadLabels(more) == Some(Labels(names, values, after))
    ensures Continue(name, value, "," + more) == Some(Labels([name] + names, [value] + values, after))
  {
    assert ("," + more)[1..] == more;
  }

  lemma HeadAndTail(xs: seq<string>)
    requires xs != []
    ensures [xs[0]] + xs[1..] == xs && (|xs| == 1 ==> xs == [xs[0]])
  {
  }

  lemma {:induction false} LabelsBack(names: seq<string>, values: seq<string>, after: string)
    requires |names| == |values| && names != [] && forall i :: 0 <= i < |names| ==> '=' !in names[i]
    ensures ReadLabels(Pairs(names, values) + ("}" + after)) == Some(Labels(names, values, after))
    decreases |names|
  {
    var name, value := names[0], values[0];
    PairsBack(names, values, "}" + after);
    if |names| == 1 {
      LastLabelBack(name, value, after);
      HeadAndTail(names);
      HeadAndTail(values);
    } else {
      LabelsBack(names[1..], values[1..], after);
      NextLabelBack(name, value, Pairs(names[1..], values[1..]) + ("}" + after), names[1..], values[1..], after);
      HeadAndTail(names);
      HeadAndTail(values);
    }
  }

  lemma ValueBack(value: string, after: string)
    requires '\n' !in value
    ensures ReadValue(" " + (value + ("\n" + after))) == Some((value, after))
  {
    var rest := "\n" + after;
    assert (" " + (value + rest))[1..] == value + rest;
    UntilStop(value, rest, {'\n'});
    assert rest[1..] == after;
  }

  lemma Assoc(a: string, b: string, c: string, d: string, e: string, f: string)
    ensures (a + b + c + d + e) + f == a + (b + (c + (d + (e + f))))
  {
  }

  /** A sample line is read back exactly, and reading stops at its end. */
  lemma SampleBack(s: Sample, after: string)
    requires WellFormed(s)
    ensures ReadSample(PrintSample(s) + after) == Some((s, after))
  {
    var line := " " + (s.value + ("\n" + after));
    var labels := LabelText(s.names, s.values);
    Assoc(s.name, labels, " ", s.value, "\n", after);
    var rest := labels + line;
    assert PrintSample(s) + after == s.name + rest;
    ValueBack(s.value, after);
    if s.names == [] {
      assert rest == line && s.values == [];
      UntilStop(s.name, rest, {'{', ' '});
    } else {
      var pairs := Pairs(s.names, s.values);
      assert rest == "{" + (pairs + ("}" + line));
      UntilStop(s.name, rest, {'{', ' '});
      assert rest[1..] == pairs + ("}" + line);
      LabelsBack(s.names, s.values, line);
    }
  }

  lemma CommentBack(comment: string, after: string)
    requires '\n' !in comment
    ensures ReadPage(Print(Comment(comment)) + after) == ReadPage(after)
  {
    var front, rest := "# " + comment, "\n" + after;
    assert Print(Comment(comment)) + after == front + rest;
    UntilStop(front, rest, {'\n'});
    assert rest[1..] == after && (front + rest)[0] == '#';
  }

  lemma BlankBack(after: string)
    ensures ReadPage(Print(Blank) + after) == ReadPage(after)
  {
    assert (Print(Blank) + after)[0] == '\n' && (Print(Blank) + after)[1..] == after;
  }

  lemma SampleThenPage(s: Sample, after: string)
    requires WellFormed(s) && ReadPage(after).Some?
    ensures ReadPage(PrintSample(s) + after) == Some([s] + ReadPage(after).value)
  {
    SampleBack(s, after);
    assert (PrintSample(s) + after)[0] == s.name[0];
  }

  /** One line in front: a sample is added, anything else is skipped. */
  lemma LineBack(line: Line, after: string)
    requires WellFormedLine(line) && ReadPage(after).Some?
    ensures ReadPage(Print(line) + after)
      == Some((if line.Of? then [line.sample] else []) + ReadPage(after).value)
  {
    assert [] + ReadPage(after).value == ReadPage(after).value;
    match line
    case Comment(comment) => CommentBack(comment, after);
    case Of(sample) => SampleThenPage(sample, after);
    case Blank => BlankBack(after);
  }

  /** Printing goes line by line. */
  lemma {:induction false} PrintJoin(print_: Printer, xs: seq<Line>, ys: seq<Line>)
    ensures PrintAll(print_, xs + ys) == PrintAll(print_, xs) + PrintAll(print_, ys)
  {
    if xs == [] {
      assert xs + ys == ys;
    } else {
      assert (xs + ys)[0] == xs[0] && (xs + ys)[1..] == xs[1..] + ys;
      PrintJoin(print_, xs[1..], ys);
      Grouped(print_(xs[0]), PrintAll(print_, xs[1..]), PrintAll(print_, ys));
    }
  }

  lemma Grouped(a: string, b: string, c: string)
    ensures (a + b) + c == a + (b + c)
  {
  }

  lemma PrintNext(print_: Printer, done: seq<Line>, line: Line)
    ensures PrintAll(print_, done + [line]) == PrintAll(print_, done) + print_(line)
  {
    PrintJoin(print_, done, [line]);
    assert [line][1..] == [];
    assert PrintAll(print_, [line]) == print_(line) + "";
  }

  /** A page of well-formed lines is read back as its samples, all of them and in order. */
  lemma {:induction false} PageBack(print_: Printer, lines: seq<Line>)
    requires Standard(print_) && forall i :: 0 <= i < |lines| ==> WellFormedLine(lines[i])
    ensures ReadPage(PrintAll(print_, lines)) == Some(Samples(lines))
    decreases |lines|
  {
    if lines != [] {
      PageBack(print_, lines[1..]);
      LineBack(lines[0], PrintAll(print_, lines[1..]));
    }
  }

  // ----- the writer -----

  predicate Fits(names: seq<string>, values: seq<string>) { names == [] || |names| == |values| }

  /** A metric without label names shows no values. */
  function Shown(names: seq<string>, values: seq<string>): seq<string> { if names == [] then [] else values }

  /** One label tuple of a counter, with its printed total. */
  datatype Total = Total(values: seq<string>, value: string)

  /** One label tuple of a histogram, with its printed bucket counts, +Inf last, and its printed sum and count. */
  datatype Cells = Cells(values: seq<string>, buckets: seq<string>, sum: string, count: string)

  function Header(name: string, help: string, kind: string): seq<Line> {
    [Comment("HELP " + name + " " + help), Comment("TYPE " + name + " " + kind)]
  }

  function SampleOf(name: string, names: seq<string>, values: seq<string>, value: string): Line {
    Of(Sample(name, names, Shown(names, values), value))
  }

  function BucketOf(name: string, names: seq<string>, values: seq<string>, le: string, value: string): Line {
    Of(Sample(name + "_bucket", names + ["le"], Shown(names, values) + [le], value))
  }

  /** The first `n` label tuples of a counter. */
  function CounterLines(name: string, names: seq<string>, totals: seq<Total>, n: nat): seq<Line>
    requires n <= |totals|
  {
    if n == 0 then []
    else
      CounterLines(name, names, totals, n - 1) + [SampleOf(name, names, totals[n - 1].values, totals[n - 1].value)]
  }

  /** The first `n` buckets of one label tuple. */
  function BucketLines(name: string, names: seq<string>, les: seq<string>, cells: Cells, n: nat): seq<Line>
    requires n <= |les| && n <= |cells.buckets|
  {
    if n == 0 then []
    else
      BucketLines(name, names, les, cells, n - 1)
      + [BucketOf(name, names, cells.values, les[n - 1], cells.buckets[n - 1])]
  }

  /** All buckets of one label tuple. */
  function AllBuckets(name: string, names: seq<string>, bounds: seq<string>, cells: Cells): seq<Line>
    requires |cells.buckets| == |bounds| + 1
  {
    BucketLines(name, names, bounds, cells, |bounds|)
    + [BucketOf(name, names, cells.values, "+Inf", cells.buckets[|bounds|])]
  }

  function SeriesLines(name: string, names: seq<string>, bounds: seq<string>, cells: Cells): seq<Line>
    requires |cells.buckets| == |bounds| + 1
  {
    AllBuckets(name, names, bounds, cells)
    + [SampleOf(name + "_sum", names, cells.values, cells.sum)]
    + [SampleOf(name + "_count", names, cells.values, cells.count)]
  }

  predicate Sized(bounds: seq<string>, series: seq<Cells>) {
    forall i | 0 <= i < |series| :: |series[i].buckets| == |bounds| + 1
  }

  /** The first `n` label tuples of a histogram. */
  function HistogramLines(name: string, names: seq<string>, bounds: seq<string>, series: seq<Cells>, n: nat): seq<Line>
    requires Sized(bounds, series) && n <= |series|
  {
    if n == 0 then []
    else HistogramLines(name, names, bounds, series, n - 1) + SeriesLines(name, names, bounds, series[n - 1])
  }

  /** A sample line; `labels` is its label string. */
  method WriteLine(ghost print_: Printer, ghost s: Sample, name: string, labels: string, value: string)
    returns (line: string)
    requires Standard(print_)
    requires name == s.name && labels == LabelText(s.names, s.values) && value == s.value
    ensures line == print_(Of(s))
  {
    assert Print(Of(s)) == name + labels + " " + value + "\n";
    line := name + labels + " " + value + "\n";
  }

  method WriteComment(ghost print_: Printer, text: string) returns (line: string)
    requires Standard(print_)
    ensures line == print_(Comment(text))
  {
    assert Print(Comment(text)) == "# " + text + "\n";
    line := "# " + text + "\n";
  }

  /** The two comment lines of a metric. */
  method WriteHeader(ghost print_: Printer, name: string, help: string, kind: string) returns (out: string)
    requires Standard(print_)
    ensures out == PrintAll(print_, Header(name, help, kind))
  {
    var first := WriteComment(print_, "HELP " + name + " " + help);
    var second := WriteComment(print_, "TYPE " + name + " " + kind);
    ghost var lines := Header(name, help, kind);
    TwoLines(print_, lines[0], lines[1]);
    out := first + second;
  }

  lemma TwoLines(print_: Printer, a: Line, b: Line)
    ensures PrintAll(print_, [a, b]) == print_(a) + print_(b)
  {
    PrintNext(print_, [], a);
    PrintNext(print_, [a], b);
    assert [] + [a] == [a] && [a] + [b] == [a, b] && "" + print_(a) == print_(a);
  }

  /** Header, sample lines and a blank line. */
  function MetricLines(name: string, help: string, kind: string, body: seq<Line>): seq<Line> {
    Header(name, help, kind) + body + [Blank]
  }

  lemma MetricText(print_: Printer, name: string, help: string, kind: string, body: seq<Line>)
    requires Standard(print_)
    ensures PrintAll(print_, MetricLines(name, help, kind, body))
      == PrintAll(print_, Header(name, help, kind)) + PrintAll(print_, body) + "\n"
  {
    PrintJoin(print_, Header(name, help, kind), body);
    PrintNext(print_, Header(name, help, kind) + body, Blank);
    assert Print(Blank) == "\n";
  }

  /** One label tuple of a counter; one of the wrong length raises. */
  method WriteTotal(ghost print_: Printer, name: string, names: seq<string>, total: Total)
    returns (line: Option<string>)
    requires Standard(print_)
    ensures line.Some? <==> Fits(names, total.values)
    ensures line.Some? ==> line.value == print_(SampleOf(name, names, total.values, total.value))
  {
    var labels := LabelStr(names, total.values);
    if labels.None? {
      return None;
    }
    var text := WriteLine(
      print_, SampleOf(name, names, total.values, total.value).sample, name, labels.value, total.value);
    return Some(text);
  }

  /** The sample lines of a counter. */
  method WriteTotals(ghost print_: Printer, name: string, names: seq<string>, totals: seq<Total>)
    returns (text: Option<string>)
    requires Standard(print_)
    ensures text.Some? <==> forall i :: 0 <= i < |totals| ==> Fits(names, totals[i].values)
    ensures text.Some? ==> text.value == PrintAll(print_, CounterLines(name, names, totals, |totals|))
  {
    var out := "";
    for i := 0 to |totals|
      invariant forall k :: 0 <= k < i ==> Fits(names, totals[k].values)
      invariant out == PrintAll(print_, CounterLines(name, names, totals, i))
    {
      var line := WriteTotal(print_, name, names, totals[i]);
      if line.None? {
        return None;
      }
      PrintNext(
        print_, CounterLines(name, names, totals, i), SampleOf(name, names, totals[i].values, totals[i].value));
      out := out + line.value;
    }
    return Some(out);
  }

  /** `_write_metric` for a counter. */
  method WriteCounter(ghost print_: Printer, name: string, help: string, names: seq<string>, totals: seq<Total>)
    returns (text: Option<string>)
    requires Standard(print_)
    ensures text.Some? <==> forall i :: 0 <= i < |totals| ==> Fits(names, totals[i].values)
    ensures text.Some? ==>
      text.value
      == PrintAll(print_, MetricLines(name, help, "counter", CounterLines(name, names, totals, |totals|)))
  {
    var header := WriteHeader(print_, name, help, "counter");
    var body := WriteTotals(print_, name, names, totals);
    if body.None? {
      return None;
    }
    MetricText(print_, name, help, "counter", CounterLines(name, names, totals, |totals|));
    return Some(header + body.value + "\n");
  }

  /** Bounds as they are printed need no escaping. */
  predicate PlainBounds(bounds: seq<string>) {
    forall i | 0 <= i < |bounds| :: Escape(bounds[i]) == bounds[i]
  }

  lemma InfIsPlain()
    ensures Escape("+Inf") == "+Inf"
  {
    EscapeIsOnePass("+Inf");
  }

  /** `base` is the label string of these values. */
  ghost predicate IsBase(base: string, names: seq<string>, values: seq<string>) {
    Fits(names, values) && Some(base) == LabelStr(names, values)
  }

  /** One bucket line, its labels made by cutting the closing brace. */
  method WriteBucket(
    ghost print_: Printer, name: string, base: string, ghost names: seq<string>, ghost values: seq<string>, le: string,
    value: string)
    returns (line: string)
    requires Standard(print_) && IsBase(base, names, values) && Escape(le) == le
    ensures line == print_(BucketOf(name, names, values, le, value))
  {
    BucketLabelsAreLabels(names, Shown(names, values), le);
    line := WriteLine(
      print_, BucketOf(name, names, values, le, value).sample, name + "_bucket", BucketLabels(base, le), value);
  }

  /** The bucket lines of one label tuple. */
  method WriteBuckets(
    ghost print_: Printer, name: string, base: string, ghost names: seq<string>, bounds: seq<string>, cells: Cells)
    returns (out: string)
    requires Standard(print_) && IsBase(base, names, cells.values)
    requires PlainBounds(bounds) && |cells.buckets| == |bounds| + 1
    ensures out == PrintAll(print_, AllBuckets(name, names, bounds, cells))
  {
    out := "";
    var line;
    for i := 0 to |bounds|
      invariant out == PrintAll(print_, BucketLines(name, names, bounds, cells, i))
    {
      line := WriteBucket(print_, name, base, names, cells.values, bounds[i], cells.buckets[i]);
      PrintNext(
        print_, BucketLines(name, names, bounds, cells, i),
        BucketOf(name, names, cells.values, bounds[i], cells.buckets[i]));
      out := out + line;
    }
    InfIsPlain();
    line := WriteBucket(print_, name, base, names, cells.values, "+Inf", cells.buckets[|bounds|]);
    PrintNext(
      print_, BucketLines(name, names, bounds, cells, |bounds|),
      BucketOf(name, names, cells.values, "+Inf", cells.buckets[|bounds|]));
    out := out + line;
  }

  /** The lines of one label tuple. */
  method WriteSeries(
    ghost print_: Printer, name: string, names: seq<string>, bounds: seq<string>, cells: Cells)
    returns (text: Option<string>)
    requires Standard(print_) && PlainBounds(bounds) && |cells.buckets| == |bounds| + 1
    ensures text.Some? <==> Fits(names, cells.values)
    ensures text.Some? ==> text.value == PrintAll(print_, SeriesLines(name, names, bounds, cells))
  {
    var base := LabelStr(names, cells.values);
    if base.None? {
      return None;
    }
    var buckets := WriteBuckets(print_, name, base.value, names, bounds, cells);
    ghost var lines := AllBuckets(name, names, bounds, cells);
    ghost var sum := SampleOf(name + "_sum", names, cells.values, cells.sum);
    ghost var count := SampleOf(name + "_count", names, cells.values, cells.count);
    var sumLine := WriteLine(print_, sum.sample, name + "_sum", base.value, cells.sum);
    var countLine := WriteLine(print_, count.sample, name + "_count", base.value, cells.count);
    PrintNext(print_, lines, sum);
    PrintNext(print_, lines + [sum], count);
    return Some(buckets + sumLine + countLine);
  }

  /** The sample lines of a histogram. */
  method WriteCells(
    ghost print_: Printer, name: string, names: seq<string>, bounds: seq<string>, series: seq<Cells>)
    returns (text: Option<string>)
    requires Standard(print_) && PlainBounds(bounds) && Sized(bounds, series)
    ensures text.Some? <==> forall i :: 0 <= i < |series| ==> Fits(names, series[i].values)
    ensures text.Some? ==>
      text.value == PrintAll(print_, HistogramLines(name, names, bounds, series, |series|))
  {
    var out := "";
    for i := 0 to |series|
      invariant forall k :: 0 <= k < i ==> Fits(names, series[k].values)
      invariant out == PrintAll(print_, HistogramLines(name, names, bounds, series, i))
    {
      var lines := WriteSeries(print_, name, names, bounds, series[i]);
      if lines.None? {
        return None;
      }
      PrintJoin(
        print_, HistogramLines(name, names, bounds, series, i), SeriesLines(name, names, bounds, series[i]));
      out := out + lines.value;
    }
    return Some(out);
  }

  /** `_write_metric` for a histogram. */
  method WriteHistogram(
    ghost print_: Printer, name: string, help: string, names: seq<string>, bounds: seq<string>, series: seq<Cells>)
    returns (text: Option<string>)
    requires Standard(print_) && PlainBounds(bounds) && Sized(bounds, series)
    ensures text.Some? <==> forall i :: 0 <= i < |series| ==> Fits(names, series[i].values)
    ensures text.Some? ==>
      text.value
      == PrintAll(
        print_, MetricLines(name, help, "histogram", HistogramLines(name, names, bounds, series, |series|)))
  {
    var header := WriteHeader(print_, name, help, "histogram");
    var body := WriteCells(print_, name, names, bounds, series);
    if body.None? {
      return None;
    }
    MetricText(print_, name, help, "histogram", HistogramLines(name, names, bounds, series, |series|));
    return Some(header + body.value + "\n");
  }

  // ----- the whole page -----

  /** A registered metric with what it has collected. */
  datatype Metric =
    | CounterMetric(name: string, help: string, names: seq<string>, totals: seq<Total>)
    | HistogramMetric(name: string, help: string, names: seq<string>, bounds: seq<string>, series: seq<Cells>)

  predicate MetricFits(m: Metric) {
    match m
    case CounterMetric(_, _, names, totals) => forall i | 0 <= i < |totals| :: Fits(names, totals[i].values)
    case HistogramMetric(_, _, names, _, series) => forall i | 0 <= i < |series| :: Fits(names, series[i].values)
  }

  /** Histograms hold one more bucket than bounds, and bounds are printed as numbers. */
  predicate MetricSized(m: Metric) {
    m.HistogramMetric? ==> Sized(m.bounds, m.series) && PlainBounds(m.bounds)
  }

  /** The sample lines of a metric. */
  function BodyOf(m: Metric): seq<Line>
    requires MetricSized(m)
  {
    match m
    case CounterMetric(name, _, names, totals) => CounterLines(name, names, totals, |totals|)
    case HistogramMetric(name, _, names, bounds, series) => HistogramLines(name, names, bounds, series, |series|)
  }

  function LinesOf(m: Metric): seq<Line>
    requires MetricSized(m)
  {
    MetricLines(m.name, m.help, if m.CounterMetric? then "counter" else "histogram", BodyOf(m))
  }

  predicate AllSized(metrics: seq<Metric>) { forall i | 0 <= i < |metrics| :: MetricSized(metrics[i]) }

  /** The lines a metric is printed as. */
  type Layout = Metric -> seq<Line>

  /** The page's own layout. */
  ghost predicate StandardLayout(layout: Layout) {
    forall m {:trigger LinesOf(m)} | MetricSized(m) :: layout(m) == LinesOf(m)
  }

  /** The lines of the first `n` metrics, in order. */
  function PageLines(layout: Layout, metrics: seq<Metric>, n: nat): seq<Line>
    requires n <= |metrics|
  {
    if n == 0 then [] else PageLines(layout, metrics, n - 1) + layout(metrics[n - 1])
  }

  /** `_write_metric`. */
  method WriteMetric(ghost print_: Printer, m: Metric) returns (text: Option<string>)
    requires Standard(print_) && MetricSized(m)
    ensures text.Some? <==> MetricFits(m)
    ensures text.Some? ==> text.value == PrintAll(print_, LinesOf(m))
  {
    match m
    case CounterMetric(name, help, names, totals) =>
      text := WriteCounter(print_, name, help, names, totals);
    case HistogramMetric(name, help, names, bounds, series) =>
      text := WriteHistogram(print_, name, help, names, bounds, series);
  }

  /** One more metric behind what the buffer holds. */
  method AppendMetric(ghost print_: Printer, ghost layout: Layout, ghost done: seq<Line>, buf: string, m: Metric)
    returns (text: Option<string>)
    requires Standard(print_) && StandardLayout(layout) && MetricSized(m) && buf == PrintAll(print_, done)
    ensures text.Some? <==> MetricFits(m)
    ensures text.Some? ==> text.value == PrintAll(print_, done + layout(m))
  {
    var one := WriteMetric(print_, m);
    if one.None? {
      return None;
    }
    PrintJoin(print_, done, layout(m));
    return Some(buf + one.value);
  }

  /** `generate_text`: every metric in registration order; a label tuple of the wrong length raises. */
  method GenerateText(ghost print_: Printer, ghost layout: Layout, metrics: seq<Metric>)
    returns (text: Option<string>)
    requires Standard(print_) && StandardLayout(layout) && AllSized(metrics)
    ensures text.Some? <==> forall i :: 0 <= i < |metrics| ==> MetricFits(metrics[i])
    ensures text.Some? ==> text.value == PrintAll(print_, PageLines(layout, metrics, |metrics|))
  {
    text := Some("");
    for i := 0 to |metrics|
      invariant text.Some? && text.value == PrintAll(print_, PageLines(layout, metrics, i))
      invariant forall k :: 0 <= k < i ==> MetricFits(metrics[k])
    {
      text := AppendMetric(print_, layout, PageLines(layout, metrics, i), text.value, metrics[i]);
      if text.None? {
        return;
      }
    }
  }

  /** Names, help text and printed numbers are what the format expects of them. */
  predicate GoodMetric(m: Metric) {
    && MetricSized(m) && MetricFits(m)
    && m.name != "" && m.name[0] != '#' && '{' !in m.name && ' ' !in m.name && '\n' !in m.name && '\n' !in m.help
    && (forall i | 0 <= i < |m.names| :: '=' !in m.names[i])
    && match m
       case CounterMetric(_, _, _, totals) => forall i | 0 <= i < |totals| :: '\n' !in totals[i].value
       case HistogramMetric(_, _, _, _, series) => forall i | 0 <= i < |series| :: GoodCells(series[i])
  }

  predicate GoodCells(cells: Cells) {
    && '\n' !in cells.sum && '\n' !in cells.count && forall i | 0 <= i < |cells.buckets| :: '\n' !in cells.buckets[i]
  }

  predicate AllGood(lines: seq<Line>) { forall i | 0 <= i < |lines| :: WellFormedLine(lines[i]) }

  lemma GoodJoin(xs: seq<Line>, ys: seq<Line>)
    requires AllGood(xs) && AllGood(ys)
    ensures AllGood(xs + ys)
  {
  }

  lemma GoodSample(name: string, names: seq<string>, values: seq<string>, value: string)
    requires Fits(names, values) && '\n' !in value && forall i :: 0 <= i < |names| ==> '=' !in names[i]
    requires name != "" && name[0] != '#' && '{' !in name && ' ' !in name && '\n' !in name
    ensures AllGood([SampleOf(name, names, values, value)])
  {
  }

  lemma GoodBucket(name: string, names: seq<string>, values: seq<string>, le: string, value: string)
    requires Fits(names, values) && '\n' !in value && forall i :: 0 <= i < |names| ==> '=' !in names[i]
    requires name != "" && name[0] != '#' && '{' !in name && ' ' !in name && '\n' !in name
    ensures AllGood([BucketOf(name, names, values, le, value)])
  {
    var all := names + ["le"];
    forall i | 0 <= i < |all| ensures '=' !in all[i] {
      if i < |names| { assert all[i] == names[i]; } else { assert all[i] == "le"; }
    }
    assert (name + "_bucket")[0] == name[0];
  }

  lemma {:induction false} GoodTotals(m: Metric, n: nat)
    requires m.CounterMetric? && GoodMetric(m) && n <= |m.totals|
    ensures AllGood(CounterLines(m.name, m.names, m.totals, n))
  {
    if n > 0 {
      GoodTotals(m, n - 1);
      GoodSample(m.name, m.names, m.totals[n - 1].values, m.totals[n - 1].value);
    }
  }

  lemma {:induction false} GoodBuckets(m: Metric, cells: Cells, n: nat)
    requires m.HistogramMetric? && GoodMetric(m) && Fits(m.names, cells.values) && GoodCells(cells)
    requires n <= |m.bounds| && n <= |cells.buckets|
    ensures AllGood(BucketLines(m.name, m.names, m.bounds, cells, n))
  {
    if n > 0 {
      GoodBuckets(m, cells, n - 1);
      GoodBucket(m.name, m.names, cells.values, m.bounds[n - 1], cells.buckets[n - 1]);
    }
  }

  lemma GoodSeries(m: Metric, cells: Cells)
    requires m.HistogramMetric? && GoodMetric(m) && Fits(m.names, cells.values) && GoodCells(cells)
    requires |cells.buckets| == |m.bounds| + 1
    ensures AllGood(SeriesLines(m.name, m.names, m.bounds, cells))
  {
    GoodBuckets(m, cells, |m.bounds|);
    GoodBucket(m.name, m.names, cells.values, "+Inf", cells.buckets[|m.bounds|]);
    assert (m.name + "_sum")[0] == m.name[0] && (m.name + "_count")[0] == m.name[0];
    GoodSample(m.name + "_sum", m.names, cells.values, cells.sum);
    GoodSample(m.name + "_count", m.names, cells.values, cells.count);
  }

  lemma {:induction false} GoodHistogram(m: Metric, n: nat)
    requires m.HistogramMetric? && GoodMetric(m) && n <= |m.series|
    ensures AllGood(HistogramLines(m.name, m.names, m.bounds, m.series, n))
  {
    if n > 0 {
      GoodHistogram(m, n - 1);
      GoodSeries(m, m.series[n - 1]);
    }
  }

  lemma GoodBody(m: Metric)
    requires GoodMetric(m)
    ensures AllGood(BodyOf(m))
  {
    match m
    case CounterMetric(_, _, _, totals) => GoodTotals(m, |totals|);
    case HistogramMetric(_, _, _, _, series) => GoodHistogram(m, |series|);
  }

  lemma GoodWrapped(name: string, help: string, kind: string, body: seq<Line>)
    requires '\n' !in name && '\n' !in help && '\n' !in kind && AllGood(body)
    ensures AllGood(MetricLines(name, help, kind, body))
  {
    var header := Header(name, help, kind);
    assert AllGood(header) && AllGood([Blank]);
    GoodJoin(header, body);
    GoodJoin(header + body, [Blank]);
  }

  lemma GoodLines(m: Metric)
    requires GoodMetric(m)
    ensures AllGood(LinesOf(m))
  {
    GoodBody(m);
    GoodWrapped(m.name, m.help, if m.CounterMetric? then "counter" else "histogram", BodyOf(m));
  }

  lemma {:induction false} GoodPage(layout: Layout, metrics: seq<Metric>, n: nat)
    requires n <= |metrics| && forall i :: 0 <= i < n ==> AllGood(layout(metrics[i]))
    ensures AllGood(PageLines(layout, metrics, n))
  {
    if n > 0 {
      GoodPage(layout, metrics, n - 1);
      GoodJoin(PageLines(layout, metrics, n - 1), layout(metrics[n - 1]));
    }
  }

  lemma {:induction false} SamplesJoin(xs: seq<Line>, ys: seq<Line>)
    ensures Samples(xs + ys) == Samples(xs) + Samples(ys)
  {
    if xs == [] {
      assert xs + ys == ys;
    } else {
      assert (xs + ys)[0] == xs[0] && (xs + ys)[1..] == xs[1..] + ys;
      SamplesJoin(xs[1..], ys);
    }
  }

  lemma NoSample(line: Line)
    requires !line.Of?
    ensures Samples([line]) == []
  {
    assert [line][1..] == [];
  }

  /** Header and blank line hold no sample: a metric's samples are those of its body. */
  lemma SamplesOfMetric(name: string, help: string, kind: string, body: seq<Line>)
    ensures Samples(MetricLines(name, help, kind, body)) == Samples(body)
  {
    var header := Header(name, help, kind);
    NoSample(header[0]);
    NoSample(header[1]);
    NoSample(Blank);
    assert header == [header[0]] + [header[1]];
    SamplesJoin([header[0]], [header[1]]);
    SamplesJoin(header, body);
    SamplesJoin(header + body, [Blank]);
  }

  /** The samples of the first `n` metrics, in order. */
  function PageSamples(layout: Layout, metrics: seq<Metric>, n: nat): seq<Sample>
    requires n <= |metrics|
  {
    if n == 0 then [] else PageSamples(layout, metrics, n - 1) + Samples(layout(metrics[n - 1]))
  }

  lemma {:induction false} SamplesOfPage(layout: Layout, metrics: seq<Metric>, n: nat)
    requires n <= |metrics|
    ensures Samples(PageLines(layout, metrics, n)) == PageSamples(layout, metrics, n)
  {
    if n > 0 {
      SamplesOfPage(layout, metrics, n - 1);
      SamplesJoin(PageLines(layout, metrics, n - 1), layout(metrics[n - 1]));
    }
  }

  /** A metric is laid out well, and its samples are those of its body. */
  lemma LinesOfMetric(layout: Layout, m: Metric)
    requires StandardLayout(layout) && GoodMetric(m)
    ensures AllGood(layout(m)) && Samples(layout(m)) == Samples(BodyOf(m))
  {
    assert layout(m) == LinesOf(m);
    GoodLines(m);
    SamplesOfMetric(m.name, m.help, if m.CounterMetric? then "counter" else "histogram", BodyOf(m));
  }

  /** A scraper reads from the page every sample of every metric, exactly and in order. */
  lemma PageReadsBack(print_: Printer, layout: Layout, metrics: seq<Metric>)
    requires Standard(print_) && StandardLayout(layout) && AllSized(metrics)
    requires forall i :: 0 <= i < |metrics| ==> GoodMetric(metrics[i])
    ensures ReadPage(PrintAll(print_, PageLines(layout, metrics, |metrics|)))
      == Some(PageSamples(layout, metrics, |metrics|))
    ensures forall i :: 0 <= i < |metrics| ==> Samples(layout(metrics[i])) == Samples(BodyOf(metrics[i]))
  {
    forall i | 0 <= i < |metrics|
      ensures AllGood(layout(metrics[i])) && Samples(layout(metrics[i])) == Samples(BodyOf(metrics[i]))
    {
      LinesOfMetric(layout, metrics[i]);
    }
    GoodPage(layout, metrics, |metrics|);
    PageBack(print_, PageLines(layout, metrics, |metrics|));
    SamplesOfPage(layout, metrics, |metrics|);
  }

  // ----- the text itself -----

  lemma HeaderText(print_: Printer, name: string, help: string, kind: string)
    requires Standard(print_)
    ensures PrintAll(print_, Header(name, help, kind))
      == ("# " + ("HELP " + name + " " + help) + "\n") + ("# " + ("TYPE " + name + " " + kind) + "\n")
  {
    TwoLines(print_, Comment("HELP " + name + " " + help), Comment("TYPE " + name + " " + kind));
    assert Print(Comment("HELP " + name + " " + help)) == "# " + ("HELP " + name + " " + help) + "\n";
    assert Print(Comment("TYPE " + name + " " + kind)) == "# " + ("TYPE " + name + " " + kind) + "\n";
  }

  /** A metric begins with its name and help text, and says which of the two kinds it is; a blank line ends it. */
  lemma MetricFrame(m: Metric)
    requires MetricSized(m)
    ensures var lines := LinesOf(m);
      && |lines| == |BodyOf(m)| + 3
      && lines[0] == Comment("HELP " + m.name + " " + m.help)
      && lines[1] == Comment("TYPE " + m.name + " " + (if m.CounterMetric? then "counter" else "histogram"))
      && lines[2..|lines| - 1] == BodyOf(m) && lines[|lines| - 1] == Blank
  {
  }

  /** A sample without labels, and one with a single label. */
  lemma SampleText(name: string, key: string, value: string, number: string)
    ensures PrintSample(Sample(name, [], [], number)) == name + "" + " " + number + "\n"
    ensures PrintSample(Sample(name, [key], [value], number))
      == name + ("{" + (key + "=\"" + EscapeOnce(value) + "\"") + "}") + " " + number + "\n"
  {
    EscapeIsOnePass(value);
    assert Pairs([key], [value]) == key + "=\"" + EscapeOnce(value) + "\"";
  }

  // ----- what a scraped bucket says -----

  /** A histogram's collected cells as printed by `show`. */
  function CellsOf(labels: Metrics.Labels, s: Series, show: real -> string): Cells {
    Cells(
      labels, seq(|s.buckets|, i requires 0 <= i < |s.buckets| => show(s.buckets[i] as real)), show(s.sum),
      show(s.count as real))
  }

  lemma {:induction false} BucketAt(name: string, names: seq<string>, les: seq<string>, cells: Cells, n: nat, i: nat)
    requires i < n <= |les| && n <= |cells.buckets|
    ensures |BucketLines(name, names, les, cells, n)| == n
    ensures BucketLines(name, names, les, cells, n)[i]
      == BucketOf(name, names, cells.values, les[i], cells.buckets[i])
    decreases n
  {
    if n > 1 {
      BucketAt(name, names, les, cells, n - 1, if i < n - 1 then i else 0);
    }
  }

  /** After any history the i-th bucket line shows how many observations of the label tuple lie at or below bound i. */
  lemma BucketLineIsCount(
    name: string, names: seq<string>, bounds: seq<real>, les: seq<string>, history: seq<Observation>,
    labels: Metrics.Labels, show: real -> string, i: nat)
    requires labels in AfterHistory(bounds, history) && |les| == |bounds| && i < |bounds|
    ensures var cells := CellsOf(labels, AfterHistory(bounds, history)[labels], show);
      && |cells.buckets| == |les| + 1
      && |BucketLines(name, names, les, cells, |les|)| == |les|
      && BucketLines(name, names, les, cells, |les|)[i]
         == Of(Sample(
              name + "_bucket", names + ["le"], (if names == [] then [] else labels) + [les[i]],
              show(Falling(bounds, i, ValuesOf(history, labels)) as real)))
  {
    HistogramIsFaithful(bounds, history, labels);
    BucketAt(name, names, les, CellsOf(labels, AfterHistory(bounds, history)[labels], show), |les|, i);
  }

  /** Behind the bounds: the +Inf bucket, the sum and the count, each under its own name. */
  lemma LastLines(name: string, names: seq<string>, bounds: seq<string>, cells: Cells)
    requires |cells.buckets| == |bounds| + 1
    ensures var lines, n := SeriesLines(name, names, bounds, cells), |bounds|;
      var shown := if names == [] then [] else cells.values;
      && |lines| == n + 3
      && lines[..n] == BucketLines(name, names, bounds, cells, n)
      && lines[n] == Of(Sample(name + "_bucket", names + ["le"], shown + ["+Inf"], cells.buckets[n]))
      && lines[n + 1] == Of(Sample(name + "_sum", names, shown, cells.sum))
      && lines[n + 2] == Of(Sample(name + "_count", names, shown, cells.count))
  {
    LineCount(name, names, bounds, cells, |bounds|);
  }

  lemma {:induction false} LineCount(name: string, names: seq<string>, les: seq<string>, cells: Cells, n: nat)
    requires n <= |les| && n <= |cells.buckets|
    ensures |BucketLines(name, names, les, cells, n)| == n
  {
    if n > 0 {
      LineCount(name, names, les, cells, n - 1);
    }
  }

  /** After any history the sum line shows the sum of the values, and the count and +Inf lines their number. */
  lemma SumAndCountShown(
    name: string, names: seq<string>, bounds: seq<real>, les: seq<string>, history: seq<Observation>,
    labels: Metrics.Labels, show: real -> string)
    requires labels in AfterHistory(bounds, history) && |les| == |bounds|
    ensures var cells := CellsOf(labels, AfterHistory(bounds, history)[labels], show);
      var values := ValuesOf(history, labels);
      var number := show(|values| as real);
      var shown := if names == [] then [] else labels;
      && |cells.buckets| == |les| + 1
      && var lines := SeriesLines(name, names, les, cells);
         && |lines| == |les| + 3
         && lines[|les|] == Of(Sample(name + "_bucket", names + ["le"], shown + ["+Inf"], number))
         && lines[|les| + 1] == Of(Sample(name + "_sum", names, shown, show(SumOf(values))))
         && lines[|les| + 2] == Of(Sample(name + "_count", names, shown, number))
  {
    HistogramIsFaithful(bounds, history, labels);
    var values := ValuesOf(history, labels);
    FilterAll(values, (v: real) => Falls(bounds, |bounds|, v));
    LastLines(name, names, les, CellsOf(labels, AfterHistory(bounds, history)[labels], show));
  }
}
