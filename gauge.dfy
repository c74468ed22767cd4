/**
 * prometheus/gauge.go: a table of instantaneous values, one entry per
 * label set, keyed by the label set's signature.
 */
module Gauges {
  import opened GoStrings
  import opened LabelSets
  import PromSignature
  import Fnv

  /** The table key: the label set's signature. */
  datatype Key = Key(signature: Fnv.uint64)

  /** A Go `map[string]string`, shared by reference between the caller and the table. */
  class Labels {
    var entries: LabelSet

    constructor (entries: LabelSet)
      ensures this.entries == entries
    {
      this.entries := entries;
    }

    /** Deletes every name from the map, one at a time. */
    method Clear()
      modifies this
      ensures entries == map[]
    {
      while entries != map[]
        decreases entries.Keys
      {
        var name :| name in entries;
        entries := entries - {name};
      }
    }
  }

  /** One table entry: the label map it was created with and the current value. */
  class GaugeVector {
    const labels: Labels
    var value: real

    constructor (labels: Labels, value: real)
      ensures this.labels == labels && this.value == value
    {
      this.labels := labels;
      this.value := value;
    }
  }

  class Gauge {
    var values: map<Key, GaugeVector>
    /** What fmt makes of label names holding `%` verbs (see PromSignature). */
    const verbs: PromSignature.Formatter

    /** The entry objects the table has created. */
    ghost var Repr: set<GaugeVector>

    /** Every entry is one the table created, and no two keys share one. */
    ghost predicate Valid()
      reads this
    {
      (forall k | k in values :: values[k] in Repr) &&
      (forall k1, k2 | k1 in values && k2 in values && k1 != k2 :: values[k1] != values[k2])
    }

    /** The key a label set is filed under: its signature. */
    ghost function KeyFor(entries: LabelSet): Key
    {
      Key(PromSignature.Signature(entries, verbs))
    }

    /** NewGauge: an empty table. */
    constructor (verbs: PromSignature.Formatter)
      ensures Valid() && values == map[] && Repr == {} && this.verbs == verbs
    {
      values := map[];
      this.verbs := verbs;
      Repr := {};
    }

    /** What Go's nil-to-empty rule leaves of the labels argument. */
    ghost function EntriesOf(labels: Labels?): LabelSet
      reads labels
    {
      if labels == null then map[] else labels.entries
    }

    /** After filing under `key`: the table holds the same entry objects as
        `before`, plus one under `key` if there was none, and the entry
        under `key` holds `value`. */
    ghost predicate Filed(before: map<Key, GaugeVector>, key: Key, value: real)
      reads this, values.Values
    {
      key in values && values[key].value == value &&
      values.Keys == before.Keys + {key} &&
      (forall k | k in before :: values[k] == before[k])
    }

    /**
     * Records `value` for the label set and returns it. An entry already
     * filed under the same signature keeps its label map and only has its
     * value overwritten; otherwise one new entry is added, holding the
     * caller's map (a fresh empty one for nil). Other entries are untouched.
     */
    method Set(labels: Labels?, value: real) returns (r: real)
      requires Valid()
      modifies this, Repr
      ensures Valid() && r == value && fresh(Repr - old(Repr))
      ensures var key := KeyFor(old(EntriesOf(labels)));
        Filed(old(values), key, value) &&
        (forall k | k in old(values) && k != key :: values[k].value == old(values[k].value)) &&
        (key !in old(values) ==>
          fresh(values[key]) &&
          (labels != null ==> values[key].labels == labels) &&
          (labels == null ==> fresh(values[key].labels) && values[key].labels.entries == map[]))
    {
      var filed := labels;
      if filed == null {
        filed := new Labels(map[]);
      }
      var signature := PromSignature.LabelsToSignature(filed.entries, verbs);
      Store(Key(signature), filed, value);
      r := value;
    }

    /** The map update of Set, once the key is known. */
    method Store(key: Key, labels: Labels, value: real)
      requires Valid()
      modifies this, Repr
      ensures Valid() && Filed(old(values), key, value) && fresh(Repr - old(Repr))
      ensures forall k | k in old(values) && k != key :: values[k].value == old(values[k].value)
      ensures key !in old(values) ==> fresh(values[key]) && values[key].labels == labels
    {
      if key in values {
        var original := values[key];
        original.value := value;
      } else {
        var vector := new GaugeVector(labels, value);
        values := values[key := vector];
        Repr := Repr + {vector};
      }
    }

    /** Empties every stored label map, then removes every entry. */
    method ResetAll()
      modifies this, set k | k in values :: values[k].labels
      ensures Valid() && values == map[]
      ensures forall k | k in old(values) :: old(values)[k].labels.entries == map[]
    {
      while values.Keys != {}
        invariant values.Keys <= old(values).Keys
        invariant forall k | k in values :: values[k] == old(values)[k]
        invariant forall k | k in old(values).Keys - values.Keys :: old(values)[k].labels.entries == map[]
        decreases values.Keys
      {
        var key :| key in values.Keys;
        values[key].labels.Clear();
        values := values - {key};
      }
    }
  }

  /**
   * Setting the same label set twice through two distinct maps leaves one
   * entry, holding the second value and the first map.
   */
  method SetTwice(entries: LabelSet, verbs: PromSignature.Formatter, first: real, second: real)
    returns (size: nat, stored: real, firstMapKept: bool)
    ensures size == 1 && stored == second && firstMapKept
  {
    var gauge := new Gauge(verbs);
    var a := new Labels(entries);
    var b := new Labels(entries);
    assert gauge.EntriesOf(a) == entries;
    var r1 := gauge.Set(a, first);
    assert gauge.EntriesOf(b) == entries;
    var r2 := gauge.Set(b, second);
    var key :| key in gauge.values;
    size := |gauge.values|;
    stored := gauge.values[key].value;
    firstMapKept := gauge.values[key].labels == a;
  }

  /** ResetAll also empties the map the caller handed to Set, since the table kept a reference to it. */
  method ResetAllEmptiesCallerMap(entries: LabelSet, verbs: PromSignature.Formatter, value: real)
    returns (before: LabelSet, after: LabelSet, size: nat)
    ensures before == entries && after == map[] && size == 0
  {
    var gauge := new Gauge(verbs);
    var labels := new Labels(entries);
    var r := gauge.Set(labels, value);
    before := labels.entries;
    gauge.ResetAll();
    after := labels.entries;
    size := |gauge.values|;
  }
}
