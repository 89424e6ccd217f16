/**
 * The record normalisers: the identity, plain flattening, and the
 * audit-trail normaliser, which lifts a record's `Details` to the top level
 * and keeps its `Timestamps` out of the flattening. The flattening function
 * itself is a parameter.
 */
module Normalizers {
  import opened Wrappers
  import opened Dicts
  import opened JsonValues

  /** `IdentityNormalizer.normalize`: the record, unchanged. */
  function IdentityNormalize(data: Dict<Json>): (r: Dict<Json>)
    ensures r == data
  {
    data
  }

  /** `FlatteningNormalizer.normalize`: exactly the delegated flattening. */
  function FlatteningNormalize(data: Dict<Json>, flatten: Dict<Json> -> Dict<Json>): (r: Dict<Json>)
    ensures r == flatten(data)
  {
    flatten(data)
  }

  /** A dict owned by the caller, which the audit-trail normaliser changes in place. */
  class JsonDict {
    var entries: Dict<Json>

    constructor (entries: Dict<Json>)
      ensures this.entries == entries
    {
      this.entries := entries;
    }
  }

  /** The key a `Details` entry is stored under: its own, or `"Details_" + key` when that is taken. */
  function DetailField(data: Dict<Json>, key: string): (r: string)
    ensures key !in Keys(data) ==> r == key
    ensures key in Keys(data) ==> r == "Details_" + key
  {
    if key in Keys(data) then "Details_" + key else key
  }

  /** The loop over `details.items()`: each entry assigned into the record, one after the other. */
  function MergeDetails(data: Dict<Json>, details: Dict<Json>): Dict<Json>
    decreases |details|
  {
    if details == [] then data
    else MergeDetails(Set(data, DetailField(data, details[0].0), details[0].1), details[1..])
  }

  /** `data.pop("Details", {})`, and whether it is a non-empty dict. */
  function Details(data: Dict<Json>): Json
  {
    Pop(data, "Details", JObj([])).0
  }

  predicate HasDetails(data: Dict<Json>)
  {
    Details(data).JObj? && Details(data).fields != []
  }

  /** What `normalize` returns, and what the caller's dict holds afterwards. */
  datatype Outcome = Outcome(result: Dict<Json>, record: Dict<Json>)

  /**
   * `AuditTrailNormalizer.normalize`. `Details` is popped; unless it is a
   * non-empty dict the record, without it, is the result. Otherwise its
   * entries are merged in, `Timestamps` is popped, the rest is flattened
   * and `Timestamps` (or `{}`) is put back unflattened.
   */
  function AuditTrailOutcome(data: Dict<Json>, flatten: Dict<Json> -> Dict<Json>): (o: Outcome)
    ensures !HasDetails(data) ==> o.result == o.record == Remove(data, "Details")
    ensures HasDetails(data) ==> "Timestamps" !in Keys(o.record)
    ensures HasDetails(data) ==> Get(o.result, "Timestamps").Some?
    ensures HasDetails(data) ==> forall k | k != "Timestamps" :: Get(o.result, k) == Get(flatten(o.record), k)
  {
    var (details, rest) := Pop(data, "Details", JObj([]));
    if !details.JObj? || details.fields == [] then Outcome(rest, rest)
    else
      var merged := MergeDetails(rest, details.fields);
      var (timestamps, record) := Pop(merged, "Timestamps", JObj([]));
      Outcome(Set(flatten(record), "Timestamps", timestamps), record)
  }

  /** The object whose `normalize` is the audit-trail one. */
  class AuditTrailNormalizer {
    constructor ()
    {
    }

    /** `normalize(data)`: returns the result and leaves the caller's `data` as the Python code does. */
    method Normalize(data: JsonDict, flatten: Dict<Json> -> Dict<Json>) returns (r: Dict<Json>)
      modifies data
      ensures r == AuditTrailOutcome(old(data.entries), flatten).result
      ensures data.entries == AuditTrailOutcome(old(data.entries), flatten).record
    {
      var popped := Pop(data.entries, "Details", JObj([]));
      var details := popped.0;
      data.entries := popped.1;
      if !details.JObj? || details.fields == [] {
        return data.entries;
      }
      var items := details.fields;
      var i := 0;
      while i < |items|
        invariant 0 <= i <= |items|
        invariant MergeDetails(data.entries, items[i..]) == MergeDetails(popped.1, items)
      {
        assert items[i..][0] == items[i] && items[i..][1..] == items[i + 1..];
        var key := items[i].0;
        var field := if key !in Keys(data.entries) then key else "Details_" + key;
        data.entries := Set(data.entries, field, items[i].1);
        i := i + 1;
      }
      var timestamps := Pop(data.entries, "Timestamps", JObj([]));
      data.entries := timestamps.1;
      var flattenJson := flatten(data.entries);
      r := Set(flattenJson, "Timestamps", timestamps.0);
    }
  }

  /**
   * No renaming can clash: no `"Details_" + key` of a detail is already a
   * key of the record or the key of another detail. Without this, the
   * order of the assignments decides which value a key ends up with.
   */
  predicate NoRenamedClash(data: Dict<Json>, details: Dict<Json>)
  {
    forall k | k in Keys(details) :: "Details_" + k !in Keys(data) && "Details_" + k !in Keys(details)
  }

  /**
   * Merging keeps every key of the record with its value, stores each
   * detail under its own key or, when the record has that key, under
   * `"Details_" + key`, and adds no other key.
   */
  lemma MergeDetailsSpec(data: Dict<Json>, details: Dict<Json>)
    requires DistinctKeys(details)
    requires NoRenamedClash(data, details)
    ensures forall k | k in Keys(data) :: Get(MergeDetails(data, details), k) == Get(data, k)
    ensures forall i | 0 <= i < |details| :: Get(MergeDetails(data, details), DetailField(data, details[i].0)) == Some(details[i].1)
    ensures forall k :: k in Keys(MergeDetails(data, details)) <==>
      (k in Keys(data) || exists i | 0 <= i < |details| :: k == DetailField(data, details[i].0))
  {
    MergeKeeps(data, details);
    MergeStores(data, details);
    MergeKeysSound(data, details);
  }

  lemma {:induction false} MergeKeeps(data: Dict<Json>, details: Dict<Json>)
    requires DistinctKeys(details)
    requires NoRenamedClash(data, details)
    decreases |details|
    ensures forall k | k in Keys(data) :: Get(MergeDetails(data, details), k) == Get(data, k)
  {
    if details != [] {
      var f0 := DetailField(data, details[0].0);
      var next := Set(data, f0, details[0].1);
      MergeStep(data, details);
      MergeKeeps(next, details[1..]);
      forall k | k in Keys(data)
        ensures Get(MergeDetails(data, details), k) == Get(data, k)
      {
        assert k in Keys(next);
      }
    }
  }

  lemma {:induction false} MergeStores(data: Dict<Json>, details: Dict<Json>)
    requires DistinctKeys(details)
    requires NoRenamedClash(data, details)
    decreases |details|
    ensures forall i | 0 <= i < |details| :: Get(MergeDetails(data, details), DetailField(data, details[i].0)) == Some(details[i].1)
  {
    if details != [] {
      var f0 := DetailField(data, details[0].0);
      var next := Set(data, f0, details[0].1);
      var tail := details[1..];
      var merged := MergeDetails(next, tail);
      assert MergeDetails(data, details) == merged;
      MergeStep(data, details);
      MergeKeeps(next, tail);
      MergeStores(next, tail);
      assert f0 in Keys(next);
      assert Get(merged, f0) == Some(details[0].1);
      forall i | 0 < i < |details|
        ensures Get(merged, DetailField(data, details[i].0)) == Some(details[i].1)
      {
        assert details[i] == tail[i - 1];
        assert Get(merged, DetailField(next, tail[i - 1].0)) == Some(tail[i - 1].1);
      }
    }
  }

  lemma {:induction false} MergeKeysSound(data: Dict<Json>, details: Dict<Json>)
    requires DistinctKeys(details)
    requires NoRenamedClash(data, details)
    decreases |details|
    ensures forall k | k in Keys(MergeDetails(data, details)) ::
      k in Keys(data) || exists i | 0 <= i < |details| :: k == DetailField(data, details[i].0)
  {
    if details != [] {
      var f0 := DetailField(data, details[0].0);
      var next := Set(data, f0, details[0].1);
      var tail := details[1..];
      MergeStep(data, details);
      MergeKeysSound(next, tail);
      forall k | k in Keys(MergeDetails(next, tail)) && k !in Keys(data) && k != f0
        ensures exists i | 0 <= i < |details| :: k == DetailField(data, details[i].0)
      {
        var i :| 0 <= i < |tail| && k == DetailField(next, tail[i].0);
        assert k == DetailField(data, details[i + 1].0);
      }
    }
  }

  /**
   * One assignment of the merge: its key was not in the record, the rest
   * of the details still cannot clash, and each of them is stored under
   * the same key as before.
   */
  lemma MergeStep(data: Dict<Json>, details: Dict<Json>)
    requires details != []
    requires DistinctKeys(details)
    requires NoRenamedClash(data, details)
    ensures var f0 := DetailField(data, details[0].0);
      var next := Set(data, f0, details[0].1);
      && f0 !in Keys(data)
      && DistinctKeys(details[1..])
      && NoRenamedClash(next, details[1..])
      && forall i | 0 <= i < |details[1..]| :: DetailField(next, details[1..][i].0) == DetailField(data, details[1..][i].0)
  {
    var f0 := DetailField(data, details[0].0);
    var next := Set(data, f0, details[0].1);
    var tail := details[1..];
    assert f0 !in Keys(data) by {
      assert "Details_" + details[0].0 !in Keys(data);
    }
    DistinctTail(details);
    MergeStepClash(data, details);
    MergeStepFields(data, details);
  }

  lemma MergeStepClash(data: Dict<Json>, details: Dict<Json>)
    requires details != []
    requires DistinctKeys(details)
    requires NoRenamedClash(data, details)
    ensures NoRenamedClash(Set(data, DetailField(data, details[0].0), details[0].1), details[1..])
  {
    var next := Set(data, DetailField(data, details[0].0), details[0].1);
    var tail := details[1..];
    KeysTail(details);
    forall k | k in Keys(tail)
      ensures "Details_" + k !in Keys(next) && "Details_" + k !in Keys(tail)
    {
      MergeStepKey(data, details, k);
    }
  }

  lemma MergeStepFields(data: Dict<Json>, details: Dict<Json>)
    requires details != []
    requires DistinctKeys(details)
    requires NoRenamedClash(data, details)
    ensures var next := Set(data, DetailField(data, details[0].0), details[0].1);
      forall i | 0 <= i < |details[1..]| :: DetailField(next, details[1..][i].0) == DetailField(data, details[1..][i].0)
  {
    var tail := details[1..];
    forall i | 0 <= i < |tail|
      ensures DetailField(Set(data, DetailField(data, details[0].0), details[0].1), tail[i].0)
        == DetailField(data, tail[i].0)
    {
      assert tail[i].0 == Keys(tail)[i];
      MergeStepKey(data, details, tail[i].0);
    }
  }

  /** The facts of `MergeStep` for a key `k` of the remaining details. */
  lemma MergeStepKey(data: Dict<Json>, details: Dict<Json>, k: string)
    requires details != []
    requires k in Keys(details[1..])
    requires DistinctKeys(details)
    requires NoRenamedClash(data, details)
    ensures var f0 := DetailField(data, details[0].0);
      var next := Set(data, f0, details[0].1);
      && DetailField(next, k) == DetailField(data, k)
      && "Details_" + k !in Keys(next)
  {
    var h := details[0].0;
    var f0 := DetailField(data, h);
    DistinctTail(details);
    KeysTail(details);
    assert k != h;
    assert h in Keys(details) && k in Keys(details);
    assert h != "Details_" + k;
    assert k != "Details_" + h;
    RenameInjective(k, h);
    assert "Details_" + k != f0 && k != f0;
  }

  lemma RenameInjective(a: string, b: string)
    ensures "Details_" + a == "Details_" + b ==> a == b
  {
    assert ("Details_" + a)[8..] == a && ("Details_" + b)[8..] == b;
  }

  /** The record after the merge, before `Timestamps` is popped. */
  function Merged(data: Dict<Json>): Dict<Json>
    requires HasDetails(data)
  {
    MergeDetails(Remove(data, "Details"), Details(data).fields)
  }

  /**
   * With a non-empty `Details` dict and no clashing renamings: every
   * other field of the record is kept, every detail is stored under its
   * own key or `"Details_" + key`, and `Timestamps` is put back
   * unflattened, `{}` when neither the record nor its details had one.
   * The flattening sees the merged record without `Details` (unless a
   * detail is itself called so) and without `Timestamps`.
   */
  lemma AuditTrailMerged(data: Dict<Json>, flatten: Dict<Json> -> Dict<Json>)
    requires HasDetails(data)
    requires DistinctKeys(Details(data).fields)
    requires NoRenamedClash(Remove(data, "Details"), Details(data).fields)
    ensures var o := AuditTrailOutcome(data, flatten);
      var rest := Remove(data, "Details");
      var details := Details(data).fields;
      && (forall k | k in Keys(rest) && k != "Timestamps" :: Get(o.record, k) == Get(data, k))
      && (forall i | 0 <= i < |details| && DetailField(rest, details[i].0) != "Timestamps" ::
            Get(o.record, DetailField(rest, details[i].0)) == Some(details[i].1))
      && (forall k :: k in Keys(o.record) <==>
            (k != "Timestamps" && (k in Keys(rest) || exists i | 0 <= i < |details| :: k == DetailField(rest, details[i].0))))
      && ("Timestamps" in Keys(rest) ==> Get(o.result, "Timestamps") == Get(data, "Timestamps"))
      && (forall i | 0 <= i < |details| && DetailField(rest, details[i].0) == "Timestamps" ::
            Get(o.result, "Timestamps") == Some(details[i].1))
      && ("Timestamps" !in Keys(Merged(data)) ==> Get(o.result, "Timestamps") == Some(JObj([])))
  {
    var rest := Remove(data, "Details");
    var details := Details(data).fields;
    MergeDetailsSpec(rest, details);
  }
}
