/** The metrics registry's counters and histograms, against whole observation histories. */
module Metrics {
  import opened Sequences

  type Labels = seq<string>

  // ----- counters -----

  datatype Increment = Increment(labels: Labels, amount: real)

  class Counter {
    var values: map<Labels, real>

    constructor ()
      ensures values == map[]
    {
      values := map[];
    }

    method Inc(labels: Labels, amount: real)
      modifies this
      ensures values == AfterInc(old(values), Increment(labels, amount))
    {
      values := values[labels := (if labels in values then values[labels] else 0.0) + amount];
    }
  }

  function AfterInc(values: map<Labels, real>, inc: Increment): map<Labels, real> {
    values[inc.labels := (if inc.labels in values then values[inc.labels] else 0.0) + inc.amount]
  }

  function AfterIncs(history: seq<Increment>): map<Labels, real> {
    if history == [] then map[] else AfterInc(AfterIncs(history[..|history| - 1]), history[|history| - 1])
  }

  function TotalOf(history: seq<Increment>, labels: Labels): real {
    if history == [] then 0.0
    else
      var last := history[|history| - 1];
      TotalOf(history[..|history| - 1], labels) + (if last.labels == labels then last.amount else 0.0)
  }

  /** A counter shows each label tuple that was ever incremented, with the total of its increments. */
  lemma {:induction false} CounterIsTotal(history: seq<Increment>, labels: Labels)
    ensures labels in AfterIncs(history) <==> exists i :: 0 <= i < |history| && history[i].labels == labels
    ensures labels in AfterIncs(history) ==> AfterIncs(history)[labels] == TotalOf(history, labels)
    ensures labels !in AfterIncs(history) ==> TotalOf(history, labels) == 0.0
    decreases |history|
  {
    if history != [] {
      var n := |history| - 1;
      CounterIsTotal(history[..n], labels);
      if exists i :: 0 <= i < |history[..n]| && history[..n][i].labels == labels {
        var i :| 0 <= i < |history[..n]| && history[..n][i].labels == labels;
        assert history[i].labels == labels;
      }
      if exists i :: 0 <= i < |history| && history[i].labels == labels {
        var i :| 0 <= i < |history| && history[i].labels == labels;
        if i < n { assert history[..n][i].labels == labels; }
      }
    }
  }

  // ----- histograms -----

  /** One label tuple's cells: a bucket per bound and a last one for +Inf, the sum and the count. */
  datatype Series = Series(buckets: seq<nat>, sum: real, count: nat)

  function Fresh(bounds: seq<real>): Series {
    Series(seq(|bounds| + 1, _ => 0), 0.0, 0)
  }

  /** Bucket `i` takes a value at or below its bound; the one past the bounds takes everything. */
  predicate Falls(bounds: seq<real>, i: nat, value: real) {
    i < |bounds| ==> value <= bounds[i]
  }

  function Observed(bounds: seq<real>, s: Series, value: real): Series
    requires |s.buckets| == |bounds| + 1
  {
    Series(
      seq(|bounds| + 1, i requires 0 <= i < |bounds| + 1 => s.buckets[i] + (if Falls(bounds, i, value) then 1 else 0)),
      s.sum + value, s.count + 1)
  }

  datatype Observation = Observation(labels: Labels, value: real)

  type Table = map<Labels, Series>

  ghost predicate ValidTable(bounds: seq<real>, table: Table) {
    forall l :: l in table ==> |table[l].buckets| == |bounds| + 1
  }

  function AfterObservation(bounds: seq<real>, table: Table, o: Observation): Table
    requires ValidTable(bounds, table)
  {
    table[o.labels := Observed(bounds, if o.labels in table then table[o.labels] else Fresh(bounds), o.value)]
  }

  /** The three dictionaries read together. */
  function Bundle(buckets: map<Labels, seq<nat>>, sums: map<Labels, real>, counts: map<Labels, nat>): Table
    requires buckets.Keys == sums.Keys == counts.Keys
  {
    map l | l in buckets :: Series(buckets[l], sums[l], counts[l])
  }

  lemma BundleUpdate(
    buckets: map<Labels, seq<nat>>, sums: map<Labels, real>, counts: map<Labels, nat>, labels: Labels, s: Series)
    requires buckets.Keys == sums.Keys == counts.Keys
    ensures Bundle(buckets[labels := s.buckets], sums[labels := s.sum], counts[labels := s.count])
      == Bundle(buckets, sums, counts)[labels := s]
  {
  }

  class Histogram {
    const bounds: seq<real>
    var buckets: map<Labels, seq<nat>>
    var sums: map<Labels, real>
    var counts: map<Labels, nat>

    ghost predicate Valid()
      reads this
    {
      && buckets.Keys == sums.Keys == counts.Keys
      && forall l :: l in buckets ==> |buckets[l]| == |bounds| + 1
    }

    /** `collect`: the three dictionaries read together. */
    function Collect(): (table: Table)
      requires Valid()
      reads this
      ensures ValidTable(bounds, table)
    {
      Bundle(buckets, sums, counts)
    }

    constructor (bounds: seq<real>)
      ensures Valid() && this.bounds == bounds && Collect() == map[]
    {
      this.bounds := bounds;
      this.buckets := map[];
      this.sums := map[];
      this.counts := map[];
    }

    /** The first observation of a label tuple starts its cells at zero. */
    method Start(labels: Labels)
      requires Valid()
      modifies this
      ensures Valid() && labels in buckets
      ensures Collect() == if labels in old(Collect()) then old(Collect()) else old(Collect())[labels := Fresh(bounds)]
    {
      if labels !in buckets {
        var zero := Fresh(bounds);
        BundleUpdate(buckets, sums, counts, labels, zero);
        buckets, sums, counts :=
          buckets[labels := zero.buckets], sums[labels := zero.sum], counts[labels := zero.count];
      }
    }

    method Fill(labels: Labels, value: real)
      requires Valid() && labels in buckets
      modifies this
      ensures Valid()
      ensures Collect() == old(Collect())[labels := Observed(bounds, old(Collect())[labels], value)]
    {
      var cells := FillBuckets(bounds, buckets[labels], value);
      ghost var now := Series(cells, sums[labels] + value, counts[labels] + 1);
      assert now == Observed(bounds, Collect()[labels], value);
      BundleUpdate(buckets, sums, counts, labels, now);
      buckets := buckets[labels := cells];
      sums := sums[labels := sums[labels] + value];
      counts := counts[labels := counts[labels] + 1];
    }

    method Observe(labels: Labels, value: real)
      requires Valid()
      modifies this
      ensures Valid()
      ensures Collect() == AfterObservation(bounds, old(Collect()), Observation(labels, value))
    {
      Start(labels);
      Fill(labels, value);
    }
  }

  /** The loop over the bounds, and the +Inf bucket that is always incremented. */
  method FillBuckets(bounds: seq<real>, before: seq<nat>, value: real) returns (cells: seq<nat>)
    requires |before| == |bounds| + 1
    ensures |cells| == |before|
    ensures forall i :: 0 <= i < |bounds| ==> cells[i] == before[i] + (if value <= bounds[i] then 1 else 0)
    ensures cells[|bounds|] == before[|bounds|] + 1
    ensures cells == Observed(bounds, Series(before, 0.0, 0), value).buckets
  {
    cells := before;
    for i := 0 to |bounds|
      invariant |cells| == |bounds| + 1
      invariant forall j :: 0 <= j < i ==> cells[j] == before[j] + (if value <= bounds[j] then 1 else 0)
      invariant forall j :: i <= j <= |bounds| ==> cells[j] == before[j]
    {
      if value <= bounds[i] {
        cells := cells[i := cells[i] + 1];
      }
    }
    cells := cells[|bounds| := cells[|bounds|] + 1];
  }

  function AfterHistory(bounds: seq<real>, history: seq<Observation>): (table: Table)
    ensures ValidTable(bounds, table)
  {
    if history == [] then map[]
    else AfterObservation(bounds, AfterHistory(bounds, history[..|history| - 1]), history[|history| - 1])
  }

  /** The observed values of one label tuple, oldest first. */
  function ValuesOf(history: seq<Observation>, labels: Labels): seq<real> {
    if history == [] then []
    else
      var last := history[|history| - 1];
      var earlier := ValuesOf(history[..|history| - 1], labels);
      if last.labels == labels then earlier + [last.value] else earlier
  }

  /** How many values fall into bucket `i`. */
  function Falling(bounds: seq<real>, i: nat, values: seq<real>): nat {
    |Filter(values, (v: real) => Falls(bounds, i, v))|
  }

  function SumOf(values: seq<real>): real {
    if values == [] then 0.0 else SumOf(values[..|values| - 1]) + values[|values| - 1]
  }

  /** The cells of a series say exactly what was observed. */
  ghost predicate Faithful(bounds: seq<real>, s: Series, values: seq<real>) {
    && |s.buckets| == |bounds| + 1
    && (forall i :: 0 <= i <= |bounds| ==> s.buckets[i] == Falling(bounds, i, values))
    && s.sum == SumOf(values)
    && s.count == |values|
  }

  lemma FallingAppend(bounds: seq<real>, i: nat, values: seq<real>, v: real)
    ensures Falling(bounds, i, values + [v]) == Falling(bounds, i, values) + (if Falls(bounds, i, v) then 1 else 0)
  {
    FilterConcat(values, [v], (x: real) => Falls(bounds, i, x));
  }

  lemma ObservedIsFaithful(bounds: seq<real>, s: Series, values: seq<real>, v: real)
    requires Faithful(bounds, s, values)
    ensures Faithful(bounds, Observed(bounds, s, v), values + [v])
  {
    forall i | 0 <= i <= |bounds| ensures Observed(bounds, s, v).buckets[i] == Falling(bounds, i, values + [v]) {
      FallingAppend(bounds, i, values, v);
    }
    assert (values + [v])[..|values|] == values;
  }

  lemma FreshIsFaithful(bounds: seq<real>)
    ensures Faithful(bounds, Fresh(bounds), [])
  {
  }

  lemma ObservationKeepsFaithful(
    bounds: seq<real>, table: Table, o: Observation, labels: Labels, values: seq<real>)
    requires ValidTable(bounds, table) && (labels in table <==> values != [])
    requires labels in table ==> Faithful(bounds, table[labels], values)
    ensures var after := AfterObservation(bounds, table, o);
      var now := if o.labels == labels then values + [o.value] else values;
      && (labels in after <==> now != [])
      && (labels in after ==> Faithful(bounds, after[labels], now))
  {
    if o.labels == labels {
      FreshIsFaithful(bounds);
      ObservedIsFaithful(bounds, if labels in table then table[labels] else Fresh(bounds), values, o.value);
    }
  }

  /** After any history, a label tuple is shown iff it was observed, with faithful cells. */
  lemma {:induction false} HistogramIsFaithful(bounds: seq<real>, history: seq<Observation>, labels: Labels)
    ensures var table := AfterHistory(bounds, history);
      && (labels in table <==> ValuesOf(history, labels) != [])
      && (labels in table ==> Faithful(bounds, table[labels], ValuesOf(history, labels)))
    decreases |history|
  {
    if history != [] {
      var n := |history| - 1;
      HistogramIsFaithful(bounds, history[..n], labels);
      ObservationKeepsFaithful(
        bounds, AfterHistory(bounds, history[..n]), history[n], labels, ValuesOf(history[..n], labels));
    }
  }

  /** Bucket by bucket: how many observed values are at or below the bound, and, in the last one, how many there are. */
  lemma BucketsAreCounted(
    bounds: seq<real>, history: seq<Observation>, labels: Labels, i: nat, positions: set<nat>)
    requires labels in AfterHistory(bounds, history) && i <= |bounds|
    requires var values := ValuesOf(history, labels);
      forall k: nat :: k in positions <==> k < |values| && (i < |bounds| ==> values[k] <= bounds[i])
    ensures AfterHistory(bounds, history)[labels].buckets[i] == |positions|
    ensures i == |bounds| ==> |positions| == |ValuesOf(history, labels)|
  {
    HistogramIsFaithful(bounds, history, labels);
    var values := ValuesOf(history, labels);
    FilterCount(values, (v: real) => Falls(bounds, i, v), positions);
    FilterAll(values, (v: real) => Falls(bounds, |bounds|, v));
  }

  /** Cumulative buckets: with ascending bounds they never decrease, and the +Inf bucket equals the count. */
  lemma BucketsAreCumulative(bounds: seq<real>, s: Series, values: seq<real>, i: nat, j: nat)
    requires Faithful(bounds, s, values) && i <= j <= |bounds|
    requires forall a, b :: 0 <= a < b < |bounds| ==> bounds[a] <= bounds[b]
    ensures s.buckets[i] <= s.buckets[j] <= s.buckets[|bounds|] == s.count
  {
    FallingGrows(bounds, i, j, values);
    FallingGrows(bounds, j, |bounds|, values);
    FilterAll(values, (v: real) => Falls(bounds, |bounds|, v));
  }

  lemma {:induction false} FallingGrows(bounds: seq<real>, i: nat, j: nat, values: seq<real>)
    requires i <= j <= |bounds|
    requires forall a, b :: 0 <= a < b < |bounds| ==> bounds[a] <= bounds[b]
    ensures Falling(bounds, i, values) <= Falling(bounds, j, values)
  {
    if values != [] {
      FallingGrows(bounds, i, j, values[1..]);
      assert Falls(bounds, i, values[0]) ==> Falls(bounds, j, values[0]);
    }
  }
}
