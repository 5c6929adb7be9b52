/**
  The generic document values that unrecognised configuration keys are kept as.

  A TOML table maps each key to at most one value and keeps its entries in a
  fixed order (sorted by key, or in insertion order when order preservation is
  enabled). It is modelled as a sequence of entries whose keys are pairwise
  distinct; its length is the number of entries.
*/
module Toml {

  /** A raw TOML value. Floats and datetimes keep their textual form: nothing here inspects them. */
  datatype Value =
    | String(text: string)
    | Integer(i: int)
    | Float(literal: string)
    | Boolean(b: bool)
    | Datetime(literal: string)
    | Array(items: seq<Value>)
    | TableValue(entries: seq<(string, Value)>)

  /** No key occurs in two entries. */
  predicate UniqueKeys(entries: seq<(string, Value)>) {
    forall i, j :: 0 <= i < j < |entries| ==> entries[i].0 != entries[j].0
  }

  /** An ordered table of distinct keys. */
  type Table = entries: seq<(string, Value)> | UniqueKeys(entries) witness []

  /** The empty table (`Default::default()`). */
  function EmptyTable(): (t: Table)
    ensures Keys(t) == {}
  {
    []
  }

  /** The number of entries (`len()`). */
  function Len(t: Table): nat {
    |t|
  }

  /** Whether the table has no entries (`is_empty()`). */
  predicate IsEmpty(t: Table) {
    |t| == 0
  }

  /** The keys of the entries. */
  function Keys(entries: seq<(string, Value)>): set<string> {
    if entries == [] then {} else {entries[0].0} + Keys(entries[1..])
  }

  /** A key is in Keys exactly when some entry carries it. */
  lemma {:induction false} KeysMember(entries: seq<(string, Value)>, k: string)
    ensures k in Keys(entries) <==> exists i :: 0 <= i < |entries| && entries[i].0 == k
  {
    if entries != [] {
      KeysMember(entries[1..], k);
      if k in Keys(entries[1..]) {
        var i :| 0 <= i < |entries[1..]| && entries[1..][i].0 == k;
        assert entries[i + 1].0 == k;
      }
      if exists i :: 0 <= i < |entries| && entries[i].0 == k {
        var i :| 0 <= i < |entries| && entries[i].0 == k;
        if i > 0 {
          assert entries[1..][i - 1].0 == k;
        }
      }
    }
  }

  /** Because keys are distinct, the table's length is the number of distinct keys it holds. */
  lemma {:induction false} KeyCount(t: Table)
    ensures |Keys(t)| == Len(t)
  {
    if t != [] {
      var tail: Table := t[1..];
      KeyCount(tail);
      KeysMember(tail, t[0].0);
      assert t[0].0 !in Keys(tail);
    }
  }
}
