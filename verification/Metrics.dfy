/**
  Cross-process counters (raven/metrics.py): shared counters that forked workers increment, and the
  flusher that adds their growth to the metric_counters table every few seconds.
*/
module Metrics {
  import opened Wrappers

  /** A metric name and its rendered label set: the key of a metric_counters row. */
  type Key = (string, string)

  /** Counter slots are c_uint64. */
  const WORD := 0x1_0000_0000_0000_0000

  // --- join_labels ---

  /** join_labels for two label sets: the empty ones are left out. */
  function JoinLabels(own: string, service: string): string {
    if own == "" then service else if service == "" then own else own + "," + service
  }

  /** With the service's labels fixed, no two label sets render alike. */
  lemma JoinIsInjective(a: string, b: string, service: string)
    requires JoinLabels(a, service) == JoinLabels(b, service)
    ensures a == b
  {
    if a != "" && b != "" && service != "" {
      assert |a| == |b|;
      assert (a + "," + service)[..|a|] == a;
      assert (b + "," + service)[..|b|] == b;
    }
  }

  ghost predicate Distinct(keys: seq<Key>) {
    forall i, j | 0 <= i < j < |keys| :: keys[i] != keys[j]
  }

  function Rendered(series: seq<Key>, service: string): (keys: seq<Key>)
    ensures |keys| == |series|
    ensures forall i | 0 <= i < |series| :: keys[i] == (series[i].0, JoinLabels(series[i].1, service))
  {
    seq(|series|, i requires 0 <= i < |series| => (series[i].0, JoinLabels(series[i].1, service)))
  }

  lemma RenderedKeysAreDistinct(series: seq<Key>, service: string)
    requires Distinct(series)
    ensures Distinct(Rendered(series, service))
  {
    forall i, j | 0 <= i < j < |series|
      ensures Rendered(series, service)[i] != Rendered(series, service)[j]
    {
      if JoinLabels(series[i].1, service) == JoinLabels(series[j].1, service) {
        JoinIsInjective(series[i].1, series[j].1, service);
      }
    }
  }

  // --- the table ---

  function Get(table: map<Key, int>, key: Key): int {
    if key in table then table[key] else 0
  }

  /** The growth of each counter since what was flushed, by rendered key; counters that did not grow are left out. */
  function Growth(keys: seq<Key>, flushed: seq<int>, values: seq<int>): (deltas: map<Key, int>)
    requires |keys| == |flushed| == |values|
    ensures forall key | key in deltas :: key in keys && deltas[key] > 0
  {
    if keys == [] then map[]
    else
      var n := |keys| - 1;
      var rest := Growth(keys[..n], flushed[..n], values[..n]);
      if values[n] > flushed[n] then rest[keys[n] := values[n] - flushed[n]] else rest
  }

  /** A transaction of value = value + delta upserts. */
  function Added(table: map<Key, int>, deltas: map<Key, int>): map<Key, int> {
    map key | key in table.Keys + deltas.Keys :: Get(table, key) + Get(deltas, key)
  }

  /** The count of the counter with this key, 0 if there is none. */
  function At(keys: seq<Key>, counts: seq<int>, key: Key): int
    requires |keys| == |counts|
  {
    if keys == [] then 0
    else if keys[|keys| - 1] == key then counts[|keys| - 1]
    else At(keys[..|keys| - 1], counts[..|keys| - 1], key)
  }

  lemma {:induction false} AtIndex(keys: seq<Key>, counts: seq<int>, i: nat)
    requires |keys| == |counts| && i < |keys| && Distinct(keys)
    ensures At(keys, counts, keys[i]) == counts[i]
  {
    var n := |keys| - 1;
    if i < n {
      AtIndex(keys[..n], counts[..n], i);
    }
  }

  lemma {:induction false} AtElsewhere(keys: seq<Key>, counts: seq<int>, key: Key)
    requires |keys| == |counts| && key !in keys
    ensures At(keys, counts, key) == 0
  {
    if keys != [] {
      AtElsewhere(keys[..|keys| - 1], counts[..|keys| - 1], key);
    }
  }

  /** What a flush does not see: how far each counter stands below what was flushed of it. */
  function Lost(flushed: seq<int>, values: seq<int>): (lost: seq<int>)
    requires |flushed| == |values|
    ensures |lost| == |values|
    ensures forall i | 0 <= i < |values| :: lost[i] == if values[i] < flushed[i] then flushed[i] - values[i] else 0
  {
    seq(|values|, i requires 0 <= i < |values| => if values[i] < flushed[i] then flushed[i] - values[i] else 0)
  }

  /** The growth of a counter is what it stands at less what was flushed of it, or nothing if it stands below that. */
  lemma {:induction false} GrowthIsExact(keys: seq<Key>, flushed: seq<int>, values: seq<int>, key: Key)
    requires |keys| == |flushed| == |values| && Distinct(keys)
    ensures Get(Growth(keys, flushed, values), key)
            == At(keys, values, key) - At(keys, flushed, key) + At(keys, Lost(flushed, values), key)
  {
    if keys != [] {
      var n := |keys| - 1;
      GrowthIsExact(keys[..n], flushed[..n], values[..n], key);
      assert Lost(flushed, values)[..n] == Lost(flushed[..n], values[..n]);
      if key == keys[n] {
        assert key !in keys[..n];
        AtElsewhere(keys[..n], flushed[..n], key);
        AtElsewhere(keys[..n], values[..n], key);
        AtElsewhere(keys[..n], Lost(flushed[..n], values[..n]), key);
      }
    }
  }

  class MetricCounters {
    var rows: map<Key, int>

    constructor (rows: map<Key, int>)
      ensures this.rows == rows
    {
      this.rows := rows;
    }

    /** write: the deltas in one transaction, one upsert for each that is positive. */
    method Write(deltas: map<Key, int>)
      modifies this
      ensures rows == Added(old(rows), Positive(deltas))
    {
      var todo := deltas.Keys;
      assert Positive(deltas - todo) == map[];
      assert Added(rows, map[]) == rows;
      while todo != {}
        invariant todo <= deltas.Keys
        invariant rows == Added(old(rows), Positive(deltas - todo))
        decreases |todo|
      {
        var key :| key in todo;
        AddedOneMore(old(rows), deltas, todo, key);
        rows := Upserted(rows, key, deltas[key]);
        todo := todo - {key};
      }
      assert deltas - todo == deltas;
    }
  }

  /** One upsert, left out for a delta that is not positive. */
  function Upserted(table: map<Key, int>, key: Key, delta: int): map<Key, int> {
    if delta > 0 then table[key := Get(table, key) + delta] else table
  }

  function Positive(deltas: map<Key, int>): map<Key, int> {
    map key | key in deltas && deltas[key] > 0 :: deltas[key]
  }

  lemma AddedOneMore(table: map<Key, int>, deltas: map<Key, int>, todo: set<Key>, key: Key)
    requires key in todo && todo <= deltas.Keys
    ensures var sofar := Added(table, Positive(deltas - todo));
            Added(table, Positive(deltas - (todo - {key}))) == Upserted(sofar, key, deltas[key])
  {
  }

  class SharedCounters {
    const series: seq<Key>
    const values: array<int>

    constructor (series: seq<Key>)
      ensures this.series == series && values.Length == |series| && fresh(values)
      ensures forall i | 0 <= i < |series| :: values[i] == 0
    {
      this.series := series;
      this.values := new int[|series|](_ => 0);
    }

    ghost predicate Valid()
      reads this, values
    {
      && Distinct(series) && values.Length == |series|
      && forall i | 0 <= i < values.Length :: 0 <= values[i] < WORD
    }

    /** inc: unknown series and amounts that are not positive are ignored, and so is one that cannot get the lock. */
    method Inc(key: Key, amount: int, locked: bool)
      requires Valid()
      modifies values
      ensures Valid()
      ensures forall i | 0 <= i < |series| ::
                values[i] == if locked && series[i] == key && amount > 0 then (old(values[i]) + amount) % WORD else old(values[i])
    {
      if amount <= 0 || !locked {
        return;
      }
      for i := 0 to |series|
        invariant forall j | 0 <= j < |series| :: values[j] == old(values[j])
        invariant forall j | 0 <= j < i :: series[j] != key
      {
        if series[i] == key {
          values[i] := (values[i] + amount) % WORD;
          return;
        }
      }
    }
  }

  class MetricsFlusher {
    const counters: SharedCounters
    const labels: string
    var flushed: seq<int>

    constructor (counters: SharedCounters, labels: string)
      ensures this.counters == counters && this.labels == labels && |flushed| == |counters.series|
      ensures forall i | 0 <= i < |flushed| :: flushed[i] == 0
    {
      this.counters, this.labels := counters, labels;
      this.flushed := seq(|counters.series|, _ => 0);
    }

    /** The growth of every counter since the last successful flush. */
    method Deltas(values: seq<int>) returns (deltas: map<Key, int>)
      requires |values| == |flushed| == |counters.series|
      ensures deltas == Growth(Rendered(counters.series, labels), flushed, values)
    {
      deltas := map[];
      ghost var keys := Rendered(counters.series, labels);
      for i := 0 to |counters.series|
        invariant deltas == Growth(keys[..i], flushed[..i], values[..i])
      {
        var delta := values[i] - flushed[i];
        assert keys[..i + 1][..i] == keys[..i] && flushed[..i + 1][..i] == flushed[..i] && values[..i + 1][..i] == values[..i];
        if delta > 0 {
          deltas := deltas[(counters.series[i].0, JoinLabels(counters.series[i].1, labels)) := delta];
        }
      }
      assert keys[..|keys|] == keys && flushed[..|keys|] == flushed && values[..|keys|] == values;
    }

    /** flush: on a failed write nothing changes, and the next flush retries the same growth. */
    method Flush(db: MetricCounters, fails: bool) returns (ok: bool)
      requires counters.Valid() && |flushed| == |counters.series|
      modifies this, db
      ensures ok == !fails
      ensures ok ==> flushed == counters.values[..]
                     && db.rows == Added(old(db.rows), Growth(Rendered(counters.series, labels), old(flushed), flushed))
      ensures !ok ==> flushed == old(flushed) && db.rows == old(db.rows)
    {
      var values := counters.values[..];
      var deltas := Deltas(values);
      if fails {
        return false;
      }
      GrowthIsPositive(Rendered(counters.series, labels), flushed, values);
      db.Write(deltas);
      flushed := values;
      return true;
    }
  }

  lemma GrowthIsPositive(keys: seq<Key>, flushed: seq<int>, values: seq<int>)
    requires |keys| == |flushed| == |values|
    ensures Positive(Growth(keys, flushed, values)) == Growth(keys, flushed, values)
  {
  }
}
