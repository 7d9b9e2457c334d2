/** JSON-like option values and `mergeOptions`: a structural merge in which two
    objects merge key by key and every other update replaces the old value whole. */
module Values {

  /** The values an option can hold; numbers are integers here. */
  datatype Value =
    | Null
    | Bool(b: bool)
    | Number(n: int)
    | Str(s: string)
    | Regex(source: string)
    | Array(items: seq<Value>)
    | Object(fields: map<string, Value>)

  /** Merges one value into another: two objects merge, anything else is replaced. */
  function MergeValue(target: Value, update: Value): (r: Value)
    ensures !(target.Object? && update.Object?) ==> r == update
    ensures r.Object? <==> update.Object?
    decreases update, 1
  {
    if target.Object? && update.Object? then Object(MergeOptions(target.fields, update.fields))
    else update
  }

  /** `mergeOptions(target, update)`: every key of either side is kept; a key the
      update does not name keeps its old value; a key it names takes the update's
      value, merged key by key only when both sides hold objects. */
  function MergeOptions(target: map<string, Value>, update: map<string, Value>): (r: map<string, Value>)
    ensures r.Keys == target.Keys + update.Keys
    ensures forall k :: k in target && k !in update ==> r[k] == target[k]
    ensures forall k :: k in update && !(k in target && target[k].Object? && update[k].Object?) ==> r[k] == update[k]
    decreases Object(update), 0
  {
    map k | k in target.Keys + update.Keys ::
      if k in update then (if k in target then MergeValue(target[k], update[k]) else update[k])
      else target[k]
  }

  /** `a` already holds everything `b` states: the same value, or, where `b` holds
      an object, an object that holds everything that one states. */
  predicate ValueSubsumes(a: Value, b: Value)
    decreases b, 1
  {
    if b.Object? then a.Object? && Subsumes(a.fields, b.fields) else a == b
  }

  /** `r` holds every key of `u` with a value that subsumes `u`'s. */
  predicate Subsumes(r: map<string, Value>, u: map<string, Value>)
    decreases Object(u), 0
  {
    forall k :: k in u ==> k in r && ValueSubsumes(r[k], u[k])
  }

  /** `r` keeps what a merge of `u` into `t` must keep of `t`: every key of `t`; its
      value where `u` does not name the key; and, where both sides hold objects, an
      object that keeps the target's fields in the same way, at every depth. */
  predicate Keeps(r: map<string, Value>, t: map<string, Value>, u: map<string, Value>)
    decreases Object(t)
  {
    forall k :: k in t ==>
      k in r &&
      (k !in u ==> r[k] == t[k]) &&
      (k in u && t[k].Object? && u[k].Object? ==>
         r[k].Object? && Keeps(r[k].fields, t[k].fields, u[k].fields))
  }

  /** Every options object holds what it states. */
  lemma {:induction false} SubsumesReflexive(m: map<string, Value>)
    ensures Subsumes(m, m)
    decreases Object(m)
  {
    forall k | k in m
      ensures ValueSubsumes(m[k], m[k])
    {
      if m[k].Object? {
        SubsumesReflexive(m[k].fields);
      }
    }
  }

  /** After a merge the result reads as the update wherever the update says something. */
  lemma {:induction false} MergeSubsumesUpdate(target: map<string, Value>, update: map<string, Value>)
    ensures Subsumes(MergeOptions(target, update), update)
    decreases Object(update)
  {
    var r := MergeOptions(target, update);
    forall k | k in update
      ensures ValueSubsumes(r[k], update[k])
    {
      if k in target && target[k].Object? && update[k].Object? {
        assert r[k] == MergeValue(target[k], update[k]) == Object(MergeOptions(target[k].fields, update[k].fields));
        MergeSubsumesUpdate(target[k].fields, update[k].fields);
      } else if update[k].Object? {
        SubsumesReflexive(update[k].fields);
      }
    }
  }

  /** A merge keeps the target's options that the update does not replace, at any depth. */
  lemma {:induction false} MergeKeepsTarget(target: map<string, Value>, update: map<string, Value>)
    ensures Keeps(MergeOptions(target, update), target, update)
    decreases Object(update)
  {
    var r := MergeOptions(target, update);
    forall k | k in target && k in update && target[k].Object? && update[k].Object?
      ensures r[k].Object? && Keeps(r[k].fields, target[k].fields, update[k].fields)
    {
      assert r[k] == MergeValue(target[k], update[k]) == Object(MergeOptions(target[k].fields, update[k].fields));
      MergeKeepsTarget(target[k].fields, update[k].fields);
    }
  }

  /** A nested option the update does not name survives the merge beside the update's own. */
  lemma NestedMergeKeeps(a: Value, b: Value)
    requires !b.Object?
    ensures MergeOptions(map["o" := Object(map["x" := a])], map["o" := Object(map["y" := b])]) ==
      map["o" := Object(map["x" := a, "y" := b])]
  {
    var inner := MergeOptions(map["x" := a], map["y" := b]);
    assert inner == map["x" := a, "y" := b];
  }

  /** Merging an update that the target already holds changes nothing. */
  lemma {:induction false} MergeSubsumed(target: map<string, Value>, update: map<string, Value>)
    requires Subsumes(target, update)
    ensures MergeOptions(target, update) == target
    decreases Object(update)
  {
    var r := MergeOptions(target, update);
    forall k | k in update
      ensures r[k] == target[k]
    {
      if update[k].Object? {
        MergeSubsumed(target[k].fields, update[k].fields);
      }
    }
  }

  /** Merging the same update twice is merging it once. */
  lemma MergeIdempotent(target: map<string, Value>, update: map<string, Value>)
    ensures MergeOptions(MergeOptions(target, update), update) == MergeOptions(target, update)
  {
    MergeSubsumesUpdate(target, update);
    MergeSubsumed(MergeOptions(target, update), update);
  }

  /** Merging an options object into itself gives it back. */
  lemma MergeSelf(m: map<string, Value>)
    ensures MergeOptions(m, m) == m
  {
    SubsumesReflexive(m);
    MergeSubsumed(m, m);
  }

  /** An update that names every option of the target, and no object where the
      target has one, replaces the target outright. */
  lemma MergeReplaces(target: map<string, Value>, update: map<string, Value>)
    requires target.Keys <= update.Keys
    requires forall k :: k in target && target[k].Object? ==> !update[k].Object?
    ensures MergeOptions(target, update) == update
  {
    var r := MergeOptions(target, update);
    assert r.Keys == update.Keys;
  }
}
