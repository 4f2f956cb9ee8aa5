/**
 * The keyed merge of two prediction files: every with-context entry whose
 * `image_id` also occurs in the no-context file gains the two no-context
 * predictions of that entry, under `generated_baseline_no_context` and
 * `generated_finetuned_no_context` (`""` where the no-context entry has none).
 *
 * The no-context file is first indexed by `image_id`, a later entry
 * replacing an earlier one with the same id.  The with-context entries are
 * then updated in place, one after another; the list keeps its length and
 * order.  Subscripting `entry["image_id"]` raises when an entry is not a
 * dict or has no `image_id`, and using a list or dict as the id raises
 * `TypeError`: the script then stops and writes nothing.
 */
module Merge {
  import opened Wrappers
  import opened Json

  const IdKey := "image_id"
  const BaselineKey := "generated_baseline"
  const FinetunedKey := "generated_finetuned"
  const BaselineNoContextKey := "generated_baseline_no_context"
  const FinetunedNoContextKey := "generated_finetuned_no_context"

  /** `entry["image_id"]` as a dict key; `None` when subscripting or hashing it raises. */
  function IdOf(entry: Json): (r: Option<Json>)
    ensures r.Some? ==> entry.JObject? && HasKey(entry.fields, IdKey)
  {
    if entry.JObject? && HasKey(entry.fields, IdKey) && Hashable(Lookup(entry.fields, IdKey, JNull))
    then Some(KeyOf(Lookup(entry.fields, IdKey, JNull)))
    else None
  }

  /**
   * `{entry["image_id"]: entry for entry in no_context}`; `None` when it
   * raises.  Every entry is indexed under its own id.
   */
  function Index(noContext: seq<Json>): (r: Option<map<Json, Dict>>)
    ensures r.Some? ==> forall k :: 0 <= k < |noContext| ==> IdOf(noContext[k]).Some? && IdOf(noContext[k]).value in r.value
  {
    if noContext == [] then Some(map[])
    else
      var init := noContext[..|noContext| - 1];
      var done := Index(init);
      var last := noContext[|noContext| - 1];
      var id := IdOf(last);
      assert forall k :: 0 <= k < |init| ==> init[k] == noContext[k];
      if done.Some? && id.Some? then Some(done.value[id.value := last.fields]) else None
  }

  /**
   * One pass of the merge loop's body over `entry`; `None` when it raises,
   * as it does exactly when the entry is not a dict, has no `image_id` or
   * has an unhashable one.  An entry without a match is unchanged; a
   * matched entry gains the two no-context fields, `""` where the match
   * lacks the prediction, and keeps every other field and the order of its
   * keys.
   */
  function MergeEntry(entry: Json, index: map<Json, Dict>): (r: Option<Json>)
    ensures r.None? <==> !entry.JObject? || !HasKey(entry.fields, IdKey) || !Hashable(Lookup(entry.fields, IdKey, JNull))
    ensures IdOf(entry).Some? && IdOf(entry).value !in index ==> r == Some(entry)
    ensures IdOf(entry).Some? && IdOf(entry).value in index ==>
              var match_ := index[IdOf(entry).value];
              && r.Some? && r.value.JObject?
              && Get(r.value.fields, BaselineNoContextKey) == Some(Lookup(match_, BaselineKey, JStr("")))
              && Get(r.value.fields, FinetunedNoContextKey) == Some(Lookup(match_, FinetunedKey, JStr("")))
              && (forall k :: k != BaselineNoContextKey && k != FinetunedNoContextKey ==> Get(r.value.fields, k) == Get(entry.fields, k))
              && Keys(entry.fields) <= Keys(r.value.fields)
  {
    var id := IdOf(entry);
    if id.None? then None
    else if id.value !in index then Some(entry)
    else
      var match_ := index[id.value];
      var fields := Set(entry.fields, BaselineNoContextKey, Lookup(match_, BaselineKey, JStr("")));
      var merged := Set(fields, FinetunedNoContextKey, Lookup(match_, FinetunedKey, JStr("")));
      assert Keys(entry.fields) <= Keys(fields);
      assert Keys(fields) <= Keys(merged);
      Some(JObject(merged))
  }

  /** The position of the first entry whose loop body raises, or `|entries|`. */
  function FirstFailure(entries: seq<Json>, index: map<Json, Dict>): (r: nat)
    ensures r <= |entries|
    ensures forall k :: 0 <= k < r ==> MergeEntry(entries[k], index).Some?
    ensures r < |entries| ==> MergeEntry(entries[r], index).None?
  {
    if entries == [] then 0
    else if MergeEntry(entries[0], index).None? then 0
    else
      var rest := FirstFailure(entries[1..], index);
      assert forall k :: 1 <= k < 1 + rest ==> entries[k] == entries[1..][k - 1];
      1 + rest
  }

  /**
   * The whole script on the loaded lines: `a` is `with_context`, updated in
   * place; `ok` is false when the script raises, and the entries before the
   * one that raised have then already been updated.
   */
  method MergeNoContext(a: array<Json>, noContext: seq<Json>) returns (ok: bool)
    modifies a
    ensures Index(noContext).None? ==> !ok && a[..] == old(a[..])
    ensures Index(noContext).Some? ==>
              var stop := FirstFailure(old(a[..]), Index(noContext).value);
              && (ok <==> stop == a.Length)
              && forall k :: 0 <= k < a.Length ==>
                   a[k] == if k < stop then MergeEntry(old(a[k]), Index(noContext).value).value else old(a[k])
  {
    var index := Index(noContext);
    if index.None? {
      return false;
    }
    var byId := index.value;
    ghost var input := a[..];
    for i := 0 to a.Length
      invariant MergedUpTo(input, a[..], byId, i)
    {
      var merged := MergeOne(a[i], byId);
      MergeAdvance(input, a[..], byId, i, merged);
      if merged.None? {
        return false;
      }
      a[i] := merged.value;
    }
    MergeAdvance(input, a[..], byId, a.Length, None);
    return true;
  }

  /** After `i` passes: the first `i` entries are merged, the others are as loaded. */
  ghost predicate MergedUpTo(input: seq<Json>, out: seq<Json>, byId: map<Json, Dict>, i: nat)
  {
    && i <= |input| == |out|
    && (forall k :: 0 <= k < i ==> MergeEntry(input[k], byId).Some? && out[k] == MergeEntry(input[k], byId).value)
    && (forall k :: i <= k < |out| ==> out[k] == input[k])
  }

  /**
   * One pass of the loop over entry `i`: the entry is still as loaded; when
   * it raises the run stops at it, otherwise the merged entry takes its slot.
   */
  lemma MergeAdvance(input: seq<Json>, out: seq<Json>, byId: map<Json, Dict>, i: nat, merged: Option<Json>)
    requires MergedUpTo(input, out, byId, i)
    requires i < |input| ==> merged == MergeEntry(out[i], byId)
    requires i == |input| ==> merged.None?
    ensures i < |input| ==> out[i] == input[i]
    ensures merged.None? ==> FirstFailure(input, byId) == i
    ensures merged.Some? ==> i < |input| && MergedUpTo(input, out[i := merged.value], byId, i + 1)
  {
    if merged.None? {
      FirstFailureAt(input, byId, i);
    }
  }

  /**
   * The loop body on one entry: read `image_id` (raising when the entry is
   * not a dict, lacks the key, or the id cannot be hashed) and, when the
   * index has that id, copy the two no-context outputs into the entry.
   */
  method MergeOne(entry: Json, byId: map<Json, Dict>) returns (merged: Option<Json>)
    ensures merged == MergeEntry(entry, byId)
  {
    if !entry.JObject? || !HasKey(entry.fields, IdKey) {
      return None;
    }
    var id := Lookup(entry.fields, IdKey, JNull);
    if !Hashable(id) {
      return None;
    }
    if KeyOf(id) in byId {
      var noEntry := byId[KeyOf(id)];
      var fields := Set(entry.fields, BaselineNoContextKey, Lookup(noEntry, BaselineKey, JStr("")));
      fields := Set(fields, FinetunedNoContextKey, Lookup(noEntry, FinetunedKey, JStr("")));
      MergedHere(entry, byId, id, JObject(fields));
      merged := Some(JObject(fields));
    } else {
      MergedHere(entry, byId, id, entry);
      merged := Some(entry);
    }
  }

  /** What one pass of the loop body leaves in the slot is the merged entry. */
  lemma MergedHere(entry: Json, byId: map<Json, Dict>, id: Json, r: Json)
    requires entry.JObject? && HasKey(entry.fields, IdKey) && id == Lookup(entry.fields, IdKey, JNull) && Hashable(id)
    requires KeyOf(id) !in byId ==> r == entry
    requires KeyOf(id) in byId ==>
               r == JObject(Set(Set(entry.fields, BaselineNoContextKey, Lookup(byId[KeyOf(id)], BaselineKey, JStr(""))),
                                FinetunedNoContextKey, Lookup(byId[KeyOf(id)], FinetunedKey, JStr(""))))
    ensures MergeEntry(entry, byId) == Some(r)
  {
  }

  /** `FirstFailure` is the position where the loop body first raises. */
  lemma FirstFailureAt(entries: seq<Json>, index: map<Json, Dict>, i: nat)
    requires i <= |entries|
    requires forall k :: 0 <= k < i ==> MergeEntry(entries[k], index).Some?
    requires i < |entries| ==> MergeEntry(entries[i], index).None?
    ensures FirstFailure(entries, index) == i
  {
  }

  // Properties

  /** Building the index raises exactly when some no-context entry has no usable id. */
  lemma {:induction false} IndexFails(noContext: seq<Json>)
    ensures Index(noContext).None? <==> exists j :: 0 <= j < |noContext| && IdOf(noContext[j]).None?
  {
    if noContext != [] {
      var n := |noContext| - 1;
      var init := noContext[..n];
      IndexFails(init);
      if Index(init).None? {
        var j :| 0 <= j < n && IdOf(init[j]).None?;
        assert IdOf(noContext[j]).None?;
      } else if IdOf(noContext[n]).Some? {
        assert forall j :: 0 <= j < n ==> init[j] == noContext[j];
      }
    }
  }

  /** The position of the last no-context entry with id `id`, or -1 when there is none. */
  function LastWith(noContext: seq<Json>, id: Json): (r: int)
    ensures -1 <= r < |noContext|
    ensures r >= 0 ==> IdOf(noContext[r]) == Some(id)
    ensures forall l :: r < l < |noContext| ==> IdOf(noContext[l]) != Some(id)
  {
    if noContext == [] then -1
    else if IdOf(noContext[|noContext| - 1]) == Some(id) then |noContext| - 1
    else
      var init := noContext[..|noContext| - 1];
      assert forall l :: 0 <= l < |init| ==> init[l] == noContext[l];
      LastWith(init, id)
  }

  /**
   * The index holds exactly the ids of the no-context entries, and under
   * each id the last entry carrying it.
   */
  lemma {:induction false} IndexLastWins(noContext: seq<Json>, id: Json)
    requires Index(noContext).Some?
    ensures id in Index(noContext).value <==> LastWith(noContext, id) >= 0
    ensures id in Index(noContext).value ==> Index(noContext).value[id] == noContext[LastWith(noContext, id)].fields
  {
    if noContext != [] {
      var n := |noContext| - 1;
      var init := noContext[..n];
      IndexLastWins(init, id);
      assert Index(noContext).value == Index(init).value[IdOf(noContext[n]).value := noContext[n].fields];
      if IdOf(noContext[n]) != Some(id) {
        assert LastWith(noContext, id) == LastWith(init, id);
        if LastWith(init, id) >= 0 {
          assert init[LastWith(init, id)] == noContext[LastWith(init, id)];
        }
      }
    }
  }
}
