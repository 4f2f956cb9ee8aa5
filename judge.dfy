/**
 * The judging run: every dict record is copied, and for each of the four
 * alt-text variants the copy gains a `judging_<variant>` field holding the
 * judge model's parsed verdict, or `None` when there was no text to judge or
 * the call failed.  The results so far are saved after every 25th input
 * position, and once more at the end.
 *
 * The model is an oracle: `replies[i][v]` is the parsed reply for the record
 * at 0-based position `i` and the variant at index `v` of the table, `None`
 * when the call or the parse raised.  It is only consulted when a call is made.
 */
module Judge {
  import opened Wrappers
  import opened Json

  const ImageUrlKey := "image_url_clean"
  const EntityNamingKey := "entity_naming"
  const CheckpointEvery := 25

  /** A row of the `variants` table: the field holding a generated alt text, and its name in the log. */
  datatype Variant = Variant(key: string, name: string)

  const Variants: seq<Variant> := [
    Variant("generated_baseline", "Baseline mit Kontext"),
    Variant("generated_baseline_no_context", "Baseline ohne Kontext"),
    Variant("generated_finetuned", "Fine-Tuned mit Kontext"),
    Variant("generated_finetuned_no_context", "Fine-Tuned ohne Kontext")
  ]

  /** The field a variant's verdict is stored under. */
  function JudgingKey(key: string): string
  {
    "judging_" + key
  }

  /** The judging fields of the first `n` variants, in table order. */
  function JudgingKeys(n: nat): (r: seq<string>)
    requires n <= |Variants|
    ensures |r| == n
    ensures forall v :: 0 <= v < n ==> r[v] == JudgingKey(Variants[v].key)
  {
    if n == 0 then [] else JudgingKeys(n - 1) + [JudgingKey(Variants[n - 1].key)]
  }

  /** The four judging fields are different from one another. */
  lemma JudgingKeysDistinct(v: nat, w: nat)
    requires v < w < |Variants|
    ensures JudgingKey(Variants[v].key) != JudgingKey(Variants[w].key)
  {
    assert |JudgingKey(Variants[v].key)| != |JudgingKey(Variants[w].key)|;
  }

  /** The judging field of variant `n` is not among those of the variants before it. */
  lemma JudgingKeyIsNew(n: nat)
    requires n < |Variants|
    ensures JudgingKey(Variants[n].key) !in JudgingKeys(n)
  {
    var ks := JudgingKeys(n);
    forall v | 0 <= v < n
      ensures ks[v] != JudgingKey(Variants[n].key)
    {
      JudgingKeysDistinct(v, n);
    }
  }

  /** A model call: the record at 0-based `position`, judged on the text in field `key`. */
  datatype Call = Judge(position: nat, key: string, entry: Dict)

  /** The request reads these fields with `entry[...]`, which raises `KeyError` when one is missing. */
  predicate HasRequestFields(entry: Dict)
  {
    HasKey(entry, ImageUrlKey) && HasKey(entry, "headline") && HasKey(entry, "abstract") && HasKey(entry, "caption")
  }

  /** What `judge_alt_text` does for one variant. */
  datatype Judgement =
    | NoText                        // the variant's text is missing or falsy: `None`, no call
    | MissingField                  // building the request raised `KeyError`, before the call
    | Asked(reply: Option<Json>)    // the call was made; `None` when it or the parse raised

  /** `judge_alt_text(entry, key, label)`, with `reply` the model's parsed answer. */
  function JudgeAltText(entry: Dict, key: string, reply: Option<Json>): (r: Judgement)
    ensures r.NoText? <==> !TruthyAt(entry, key)
    ensures r.MissingField? <==> TruthyAt(entry, key) && !HasRequestFields(entry)
    ensures r.Asked? ==> r.reply == reply
  {
    if !TruthyAt(entry, key) then NoText
    else if !HasRequestFields(entry) then MissingField
    else Asked(reply)
  }

  /** The value `judge_alt_text` returns, Python's `None` being JSON `null`. */
  function Returned(j: Judgement): (r: Json)
    requires !j.MissingField?
    ensures j.NoText? ==> r == JNull
    ensures j.Asked? && j.reply.None? ==> r == JNull
    ensures j.Asked? && j.reply.Some? ==> r == j.reply.value
  {
    match j
    case NoText => JNull
    case Asked(reply) => reply.GetOr(JNull)
  }

  /**
   * The log line `result['entity_naming'] if result else 'Failed'` raises
   * for a truthy result that is not an object holding `entity_naming`.
   */
  predicate LogFails(result: Json)
  {
    Truthy(result) && !(result.JObject? && HasKey(result.fields, EntityNamingKey))
  }

  /** The judgement raises, in `judge_alt_text` or in the log line after it. */
  predicate Raises(j: Judgement)
  {
    j.MissingField? || (j.Asked? && LogFails(Returned(j)))
  }

  /** Whether the record has raised once the first `n` variants are judged. */
  function RaisedAfter(entry: Dict, rs: seq<Option<Json>>, n: nat): bool
    requires n <= |Variants| == |rs|
  {
    n > 0 && (RaisedAfter(entry, rs, n - 1) || Raises(JudgeAltText(entry, Variants[n - 1].key, rs[n - 1])))
  }

  /** The calls made for the first `n` variants; none after the record has raised. */
  function CallsAfter(entry: Dict, i: nat, rs: seq<Option<Json>>, n: nat): seq<Call>
    requires n <= |Variants| == |rs|
  {
    if n == 0 then []
    else
      var calls := CallsAfter(entry, i, rs, n - 1);
      if !RaisedAfter(entry, rs, n - 1) && JudgeAltText(entry, Variants[n - 1].key, rs[n - 1]).Asked?
      then calls + [Judge(i, Variants[n - 1].key, entry)]
      else calls
  }

  /** `result_entry` after the first `n` variants: each one's judging field set to what `judge_alt_text` returned. */
  function CopyAfter(entry: Dict, rs: seq<Option<Json>>, n: nat): Dict
    requires n <= |Variants| == |rs|
  {
    if n == 0 then entry
    else
      var copy := CopyAfter(entry, rs, n - 1);
      var j := JudgeAltText(entry, Variants[n - 1].key, rs[n - 1]);
      if RaisedAfter(entry, rs, n - 1) || j.MissingField? then copy
      else Set(copy, JudgingKey(Variants[n - 1].key), Returned(j))
  }

  /**
   * The inner loop over `variants.items()`: copies `entry` and sets one
   * judging field per variant; returns the copy, the calls made, and whether
   * the record raised.
   */
  method JudgeEntry(entry: Dict, i: nat, rs: seq<Option<Json>>)
    returns (resultEntry: Dict, made: seq<Call>, raised: bool)
    requires |rs| == |Variants|
    ensures resultEntry == CopyAfter(entry, rs, |Variants|)
    ensures made == CallsAfter(entry, i, rs, |Variants|)
    ensures raised == RaisedAfter(entry, rs, |Variants|)
  {
    resultEntry, made, raised := entry, [], false;
    for v := 0 to |Variants|
      invariant resultEntry == CopyAfter(entry, rs, v)
      invariant made == CallsAfter(entry, i, rs, v)
      invariant !RaisedAfter(entry, rs, v)
    {
      var key := Variants[v].key;
      var j := JudgeAltText(entry, key, rs[v]);
      VariantStepTaken(entry, i, rs, v, j);
      if j.MissingField? {
        raised := true;
      } else {
        if j.Asked? {
          made := made + [Judge(i, key, entry)];
        }
        var result := Returned(j);
        resultEntry := Set(resultEntry, JudgingKey(key), result);
        raised := LogFails(result);
      }
      if raised {
        RaisedStays(entry, i, rs, v + 1, |Variants|);
        return;
      }
    }
  }

  /** One pass of the inner loop, for variant `v` of a record that has not raised. */
  lemma VariantStepTaken(entry: Dict, i: nat, rs: seq<Option<Json>>, v: nat, j: Judgement)
    requires v < |Variants| == |rs| && !RaisedAfter(entry, rs, v)
    requires j == JudgeAltText(entry, Variants[v].key, rs[v])
    ensures RaisedAfter(entry, rs, v + 1) == (j.MissingField? || LogFails(Returned(j)))
    ensures CallsAfter(entry, i, rs, v + 1) ==
              CallsAfter(entry, i, rs, v) + if j.Asked? then [Judge(i, Variants[v].key, entry)] else []
    ensures CopyAfter(entry, rs, v + 1) ==
              if j.MissingField? then CopyAfter(entry, rs, v)
              else Set(CopyAfter(entry, rs, v), JudgingKey(Variants[v].key), Returned(j))
  {
    if !j.Asked? {
      assert CallsAfter(entry, i, rs, v) + [] == CallsAfter(entry, i, rs, v);
    }
  }

  /** Once a record has raised, later variants change nothing. */
  lemma {:induction false} RaisedStays(entry: Dict, i: nat, rs: seq<Option<Json>>, m: nat, n: nat)
    requires m <= n <= |Variants| == |rs|
    requires RaisedAfter(entry, rs, m)
    ensures RaisedAfter(entry, rs, n)
    ensures CopyAfter(entry, rs, n) == CopyAfter(entry, rs, m)
    ensures CallsAfter(entry, i, rs, n) == CallsAfter(entry, i, rs, m)
  {
    if m < n {
      RaisedStays(entry, i, rs, m, n - 1);
    }
  }

  /** The record has none of the judging fields yet. */
  predicate NoJudgingKeys(entry: Dict)
  {
    forall v :: 0 <= v < |Variants| ==> !HasKey(entry, JudgingKey(Variants[v].key))
  }

  /** After variant `n - 1` is judged without raising, the copy is the previous copy with that variant's field set. */
  lemma JudgedStep(entry: Dict, rs: seq<Option<Json>>, n: nat)
    requires 0 < n <= |Variants| == |rs|
    requires !RaisedAfter(entry, rs, n)
    ensures !RaisedAfter(entry, rs, n - 1)
    ensures !JudgeAltText(entry, Variants[n - 1].key, rs[n - 1]).MissingField?
    ensures CopyAfter(entry, rs, n)
         == Set(CopyAfter(entry, rs, n - 1), JudgingKey(Variants[n - 1].key),
                Returned(JudgeAltText(entry, Variants[n - 1].key, rs[n - 1])))
  {
  }

  /**
   * A record that did not raise holds, for each of the first `n` variants,
   * the value `judge_alt_text` returned for it under `judging_<variant>`.
   */
  lemma JudgedValues(entry: Dict, rs: seq<Option<Json>>, n: nat)
    requires n <= |Variants| == |rs|
    requires !RaisedAfter(entry, rs, n)
    ensures forall v :: 0 <= v < n ==>
              !JudgeAltText(entry, Variants[v].key, rs[v]).MissingField? &&
              Get(CopyAfter(entry, rs, n), JudgingKey(Variants[v].key))
                == Some(Returned(JudgeAltText(entry, Variants[v].key, rs[v])))
  {
    forall v | 0 <= v < n
      ensures !JudgeAltText(entry, Variants[v].key, rs[v]).MissingField? &&
              Get(CopyAfter(entry, rs, n), JudgingKey(Variants[v].key))
                == Some(Returned(JudgeAltText(entry, Variants[v].key, rs[v])))
    {
      JudgedValue(entry, rs, n, v);
    }
  }

  lemma {:induction false} JudgedValue(entry: Dict, rs: seq<Option<Json>>, n: nat, v: nat)
    requires v < n <= |Variants| == |rs|
    requires !RaisedAfter(entry, rs, n)
    ensures !JudgeAltText(entry, Variants[v].key, rs[v]).MissingField?
    ensures Get(CopyAfter(entry, rs, n), JudgingKey(Variants[v].key))
              == Some(Returned(JudgeAltText(entry, Variants[v].key, rs[v])))
  {
    JudgedStep(entry, rs, n);
    if v < n - 1 {
      JudgedValue(entry, rs, n - 1, v);
      JudgingKeysDistinct(v, n - 1);
      var key := JudgingKey(Variants[v].key);
      assert Get(CopyAfter(entry, rs, n), key) == Get(CopyAfter(entry, rs, n - 1), key);
    }
  }

  /** Every field other than the judging fields of the first `n` variants is that of the input. */
  lemma {:induction false} JudgedOtherFields(entry: Dict, rs: seq<Option<Json>>, n: nat, k: string)
    requires n <= |Variants| == |rs|
    requires !RaisedAfter(entry, rs, n)
    requires k !in JudgingKeys(n)
    ensures Get(CopyAfter(entry, rs, n), k) == Get(entry, k)
  {
    if n > 0 {
      JudgedStep(entry, rs, n);
      assert JudgingKeys(n) == JudgingKeys(n - 1) + [JudgingKey(Variants[n - 1].key)];
      JudgedOtherFields(entry, rs, n - 1, k);
    }
  }

  /** When the input has no judging fields, the copy's fields are the input's, then the judging fields in table order. */
  lemma {:induction false} JudgedKeyOrder(entry: Dict, rs: seq<Option<Json>>, n: nat)
    requires n <= |Variants| == |rs|
    requires !RaisedAfter(entry, rs, n)
    requires NoJudgingKeys(entry)
    ensures Keys(CopyAfter(entry, rs, n)) == Keys(entry) + JudgingKeys(n)
  {
    if n > 0 {
      JudgedStep(entry, rs, n);
      JudgedKeyOrder(entry, rs, n - 1);
      var key := JudgingKey(Variants[n - 1].key);
      var prev := CopyAfter(entry, rs, n - 1);
      JudgingKeyIsNew(n - 1);
      assert key !in Keys(entry);
      AppendNew(key, Keys(entry), JudgingKeys(n - 1));
      assert !HasKey(prev, key);
      assert Keys(CopyAfter(entry, rs, n)) == Keys(prev) + [key];
      assert JudgingKeys(n) == JudgingKeys(n - 1) + [key];
      AppendAssoc(Keys(entry), JudgingKeys(n - 1), [key]);
    }
  }

  lemma AppendNew(x: string, a: seq<string>, b: seq<string>)
    requires x !in a && x !in b
    ensures x !in a + b
  {
  }

  lemma AppendAssoc(a: seq<string>, b: seq<string>, c: seq<string>)
    ensures a + b + c == a + (b + c)
  {
  }

  /** The alt-text fields of the first `n` variants, in table order. */
  function VariantKeys(n: nat): (r: seq<string>)
    requires n <= |Variants|
    ensures |r| == n
    ensures forall v :: 0 <= v < n ==> r[v] == Variants[v].key
  {
    if n == 0 then [] else VariantKeys(n - 1) + [Variants[n - 1].key]
  }

  lemma VariantKeyIsNew(n: nat)
    requires n < |Variants|
    ensures Variants[n].key !in VariantKeys(n)
  {
    var ks := VariantKeys(n);
    forall v | 0 <= v < n
      ensures ks[v] != Variants[n].key
    {
      JudgingKeysDistinct(v, n);
    }
  }

  /**
   * In a record that did not raise, the judge was called for variant `v`
   * exactly when the variant's text was present and the request could be
   * built; every call is about this record and one of its variants.
   */
  lemma {:induction false} JudgedCalls(entry: Dict, i: nat, rs: seq<Option<Json>>, n: nat)
    requires n <= |Variants| == |rs|
    requires !RaisedAfter(entry, rs, n)
    ensures forall c :: c in CallsAfter(entry, i, rs, n) ==>
              c.position == i && c.entry == entry && c.key in VariantKeys(n)
    ensures forall v :: 0 <= v < n ==>
              (Judge(i, Variants[v].key, entry) in CallsAfter(entry, i, rs, n) <==>
               JudgeAltText(entry, Variants[v].key, rs[v]).Asked?)
  {
    if n > 0 {
      JudgedCalls(entry, i, rs, n - 1);
      var key := Variants[n - 1].key;
      var before := CallsAfter(entry, i, rs, n - 1);
      var after := CallsAfter(entry, i, rs, n);
      var made := if JudgeAltText(entry, key, rs[n - 1]).Asked? then [Judge(i, key, entry)] else [];
      assert after == before + made;
      assert VariantKeys(n) == VariantKeys(n - 1) + [key];
      forall c | c in after
        ensures c.position == i && c.entry == entry && c.key in VariantKeys(n)
      {
        if c in before {
          assert c.key in VariantKeys(n - 1);
        } else {
          assert c in made;
        }
      }
      VariantKeyIsNew(n - 1);
      assert Judge(i, key, entry) !in before;
      forall v | 0 <= v < n - 1
        ensures Judge(i, Variants[v].key, entry) in after <==> Judge(i, Variants[v].key, entry) in before
      {
        JudgingKeysDistinct(v, n - 1);
      }
    }
  }

  /**
   * A record raises exactly when one of its variants does: a request that
   * cannot be built, or a truthy verdict without `entity_naming`.  A failed
   * call (`None`) therefore never stops the other variants.
   */
  lemma {:induction false} RaisesIff(entry: Dict, rs: seq<Option<Json>>, n: nat)
    requires n <= |Variants| == |rs|
    ensures RaisedAfter(entry, rs, n) <==>
              exists v :: 0 <= v < n && Raises(JudgeAltText(entry, Variants[v].key, rs[v]))
  {
    if n > 0 {
      RaisesIff(entry, rs, n - 1);
      if RaisedAfter(entry, rs, n - 1) {
        var v :| 0 <= v < n - 1 && Raises(JudgeAltText(entry, Variants[v].key, rs[v]));
        assert 0 <= v < n && Raises(JudgeAltText(entry, Variants[v].key, rs[v]));
      } else if Raises(JudgeAltText(entry, Variants[n - 1].key, rs[n - 1])) {
        assert 0 <= n - 1 < n && Raises(JudgeAltText(entry, Variants[n - 1].key, rs[n - 1]));
      }
    }
  }

  /** A failed call yields `None` for its variant and does not make the record raise. */
  lemma FailedCallIsNone(entry: Dict, key: string)
    requires TruthyAt(entry, key) && HasRequestFields(entry)
    ensures JudgeAltText(entry, key, None) == Asked(None)
    ensures Returned(Asked(None)) == JNull && !Raises(Asked(None))
  {
  }

  /**
   * The log line raises exactly on a truthy verdict that is not a dict
   * holding `entity_naming`: a non-empty dict without it, or any truthy
   * non-dict value (a list, a string, a number, `true`).
   */
  lemma VerdictWithoutEntityNamingRaises(r: Json)
    ensures LogFails(r) <==>
              (r.JObject? && r.fields != [] && !HasKey(r.fields, EntityNamingKey)) || (!r.JObject? && Truthy(r))
  {
    if r.JObject? && r.fields != [] && HasKey(r.fields, EntityNamingKey) {
      assert !LogFails(r);
    }
  }

  // The run over the input list

  /** What happens to one input record. */
  datatype Outcome =
    | NotDict                                  // skipped with a warning, before the checkpoint test
    | Raised(calls: seq<Call>)                 // the exception ends the run, without a final save
    | Judged(entry: Dict, calls: seq<Call>)    // the judged copy is appended to the results

  /** The loop body for the record `item` at position `i`. */
  function Process(item: Json, i: nat, rs: seq<Option<Json>>): (o: Outcome)
    requires |rs| == |Variants|
    ensures o.NotDict? <==> !item.JObject?
    ensures o.Raised? <==> item.JObject? && RaisedAfter(item.fields, rs, |Variants|)
  {
    if !item.JObject? then NotDict
    else if RaisedAfter(item.fields, rs, |Variants|) then Raised(CallsAfter(item.fields, i, rs, |Variants|))
    else Judged(CopyAfter(item.fields, rs, |Variants|), CallsAfter(item.fields, i, rs, |Variants|))
  }

  /** Every record has one reply slot per variant. */
  predicate WellShaped(replies: seq<seq<Option<Json>>>)
  {
    forall i :: 0 <= i < |replies| ==> |replies[i]| == |Variants|
  }

  function Outcomes(data: seq<Json>, replies: seq<seq<Option<Json>>>): (r: seq<Outcome>)
    requires |data| == |replies| && WellShaped(replies)
    ensures |r| == |data|
  {
    OutcomesUpTo(data, replies, |data|)
  }

  /** The outcomes of the first `n` records. */
  function OutcomesUpTo(data: seq<Json>, replies: seq<seq<Option<Json>>>, n: nat): (r: seq<Outcome>)
    requires n <= |data| == |replies| && WellShaped(replies)
    ensures |r| == n
  {
    if n == 0 then [] else OutcomesUpTo(data, replies, n - 1) + [Process(data[n - 1], n - 1, replies[n - 1])]
  }

  /** The outcome of record `i` is that of `process_entry` on it alone. */
  lemma OutcomeAt(data: seq<Json>, replies: seq<seq<Option<Json>>>, i: nat)
    requires |data| == |replies| && WellShaped(replies) && i < |data|
    ensures Outcomes(data, replies)[i] == Process(data[i], i, replies[i])
  {
    OutcomesUpToAt(data, replies, |data|, i);
  }

  lemma {:induction false} OutcomesUpToAt(data: seq<Json>, replies: seq<seq<Option<Json>>>, n: nat, i: nat)
    requires i < n <= |data| == |replies| && WellShaped(replies)
    ensures OutcomesUpTo(data, replies, n)[i] == Process(data[i], i, replies[i])
  {
    var before := OutcomesUpTo(data, replies, n - 1);
    assert OutcomesUpTo(data, replies, n) == before + [Process(data[n - 1], n - 1, replies[n - 1])];
    if i < n - 1 {
      OutcomesUpToAt(data, replies, n - 1, i);
    }
  }

  /** The position of the first record that raises, or the length when none does. */
  function Stop(outs: seq<Outcome>): (r: nat)
    ensures r <= |outs|
    ensures forall j :: 0 <= j < r ==> !outs[j].Raised?
    ensures r < |outs| ==> outs[r].Raised?
  {
    if outs == [] then 0
    else if outs[0].Raised? then 0
    else 1 + Stop(outs[1..])
  }

  lemma StopAt(outs: seq<Outcome>, i: nat)
    requires i <= Stop(outs) && i < |outs|
    ensures outs[i].Raised? <==> i == Stop(outs)
  {
  }

  /** The `results` list after the first `n` records. */
  function Results(outs: seq<Outcome>, n: nat): (r: seq<Dict>)
    requires n <= |outs|
    ensures |r| <= n
  {
    if n == 0 then []
    else Results(outs, n - 1) + if outs[n - 1].Judged? then [outs[n - 1].entry] else []
  }

  /** The number of records among the first `n` that were judged. */
  function JudgedCount(outs: seq<Outcome>, n: nat): nat
    requires n <= |outs|
  {
    if n == 0 then 0 else JudgedCount(outs, n - 1) + if outs[n - 1].Judged? then 1 else 0
  }

  /** The calls made for the first `n` records. */
  function CallTrace(outs: seq<Outcome>, n: nat): seq<Call>
    requires n <= |outs|
  {
    if n == 0 then [] else CallTrace(outs, n - 1) + CallsOf(outs[n - 1])
  }

  function CallsOf(o: Outcome): seq<Call>
  {
    if o.NotDict? then [] else o.calls
  }

  /** A save follows position `i` when `i + 1` is a multiple of 25 and the record there was judged. */
  predicate CheckpointAt(outs: seq<Outcome>, i: nat)
    requires i < |outs|
  {
    (i + 1) % CheckpointEvery == 0 && outs[i].Judged?
  }

  function Checkpoints(outs: seq<Outcome>, n: nat): seq<seq<Dict>>
    requires n <= |outs|
  {
    if n == 0 then []
    else Checkpoints(outs, n - 1) + if CheckpointAt(outs, n - 1) then [Results(outs, n)] else []
  }

  function CheckpointPositions(outs: seq<Outcome>, n: nat): seq<nat>
    requires n <= |outs|
  {
    if n == 0 then [] else CheckpointPositions(outs, n - 1) + if CheckpointAt(outs, n - 1) then [n] else []
  }

  /** The state of `main` after the first `n` records: the results list, the calls made, the lists saved. */
  ghost predicate RunState(outs: seq<Outcome>, n: nat, results: seq<Dict>, calls: seq<Call>, saves: seq<seq<Dict>>)
    requires n <= |outs|
  {
    results == Results(outs, n) && calls == CallTrace(outs, n) && saves == Checkpoints(outs, n)
  }

  /** One pass of the loop body over a record that does not raise. */
  lemma Advance(outs: seq<Outcome>, i: nat, results: seq<Dict>, calls: seq<Call>, saves: seq<seq<Dict>>,
                results': seq<Dict>, calls': seq<Call>, saves': seq<seq<Dict>>)
    requires i < |outs| && !outs[i].Raised?
    requires RunState(outs, i, results, calls, saves)
    requires results' == results + if outs[i].Judged? then [outs[i].entry] else []
    requires calls' == calls + CallsOf(outs[i])
    requires saves' == saves + if CheckpointAt(outs, i) then [results'] else []
    ensures RunState(outs, i + 1, results', calls', saves')
  {
  }

  /** The outcome the run records for a non-dict entry. */
  lemma NotDictOutcome(data: seq<Json>, replies: seq<seq<Option<Json>>>, i: nat)
    requires |data| == |replies| && WellShaped(replies)
    requires i < |data| && !data[i].JObject?
    ensures Outcomes(data, replies)[i] == NotDict
  {
    OutcomeAt(data, replies, i);
  }

  /** The outcome the run records for a dict entry, given what the inner loop computed. */
  lemma RecordOutcome(data: seq<Json>, replies: seq<seq<Option<Json>>>, i: nat,
                      resultEntry: Dict, made: seq<Call>, raised: bool)
    requires |data| == |replies| && WellShaped(replies)
    requires i < |data| && data[i].JObject? && |replies[i]| == |Variants|
    requires resultEntry == CopyAfter(data[i].fields, replies[i], |Variants|)
    requires made == CallsAfter(data[i].fields, i, replies[i], |Variants|)
    requires raised == RaisedAfter(data[i].fields, replies[i], |Variants|)
    ensures Outcomes(data, replies)[i] == if raised then Raised(made) else Judged(resultEntry, made)
  {
    OutcomeAt(data, replies, i);
  }

  /**
   * `main`: judges the dict records in order and returns the results list,
   * the calls made, the lists saved (checkpoints, then the final save), and
   * whether the run ended normally.  A record that raises ends the run:
   * its calls were made, but it is not in the results and there is no final
   * save.
   */
  method Run(data: seq<Json>, replies: seq<seq<Option<Json>>>)
    returns (results: seq<Dict>, calls: seq<Call>, saves: seq<seq<Dict>>, completed: bool)
    requires |data| == |replies| && WellShaped(replies)
    ensures var outs := Outcomes(data, replies);
      var n := Stop(outs);
      && (completed <==> n == |data|)
      && results == Results(outs, n)
      && calls == CallTrace(outs, n) + (if completed then [] else outs[n].calls)
      && saves == Checkpoints(outs, n) + (if completed then [results] else [])
  {
    ghost var outs := Outcomes(data, replies);
    results, calls, saves := [], [], [];
    for i := 0 to |data|
      invariant i <= Stop(outs)
      invariant RunState(outs, i, results, calls, saves)
    {
      StopAt(outs, i);
      if !data[i].JObject? {
        NotDictOutcome(data, replies, i);
        Advance(outs, i, results, calls, saves, results, calls + [], saves + []);
        assert calls + [] == calls && saves + [] == saves;
        continue;
      }
      var resultEntry, made, raised := JudgeEntry(data[i].fields, i, replies[i]);
      RecordOutcome(data, replies, i, resultEntry, made, raised);
      if raised {
        return results, calls + made, saves, false;
      }
      ghost var results0, calls0, saves0 := results, calls, saves;
      calls := calls + made;
      results := results + [resultEntry];
      if (i + 1) % CheckpointEvery == 0 {
        saves := saves + [results];
      } else {
        assert saves == saves0 + [];
      }
      Advance(outs, i, results0, calls0, saves0, results, calls, saves);
    }
    assert |outs| == |data|;
    saves := saves + [results];
    completed := true;
  }

  // Properties of the run

  /**
   * Non-dict records are dropped and the others keep their order: the
   * results after `n` records are the judged copies, the one of record `j`
   * at the index that counts the judged records before it.
   */
  lemma {:induction false} ResultsInOrder(outs: seq<Outcome>, n: nat, j: nat)
    requires j < n <= |outs|
    ensures |Results(outs, n)| == JudgedCount(outs, n)
    ensures outs[j].Judged? ==> JudgedCount(outs, j) < |Results(outs, n)| &&
                                Results(outs, n)[JudgedCount(outs, j)] == outs[j].entry
  {
    ResultsLength(outs, n);
    if j < n - 1 {
      ResultsInOrder(outs, n - 1, j);
      ResultsLength(outs, n - 1);
      if outs[j].Judged? {
        assert Results(outs, n)[..|Results(outs, n - 1)|] == Results(outs, n - 1);
      }
    } else {
      ResultsLength(outs, j);
    }
  }

  lemma {:induction false} ResultsLength(outs: seq<Outcome>, n: nat)
    requires n <= |outs|
    ensures |Results(outs, n)| == JudgedCount(outs, n)
  {
    if n > 0 {
      ResultsLength(outs, n - 1);
    }
  }

  /** The results after `n` records hold at most `n` copies, and exactly `n` only when all `n` were judged. */
  lemma {:induction false} JudgedCountBound(outs: seq<Outcome>, n: nat)
    requires n <= |outs|
    ensures JudgedCount(outs, n) <= n
    ensures JudgedCount(outs, n) == n <==> forall j :: 0 <= j < n ==> outs[j].Judged?
  {
    if n > 0 {
      JudgedCountBound(outs, n - 1);
    }
  }

  /**
   * The copy of a dict record reached by the run holds the verdict of every
   * variant under its judging field and the record's own value under every
   * other field; when the record had no judging fields, they are appended
   * in table order.  The record's calls are one per variant with a text to
   * judge.
   */
  lemma JudgedRecord(data: seq<Json>, replies: seq<seq<Option<Json>>>, j: nat)
    requires |data| == |replies| && WellShaped(replies)
    requires j < Stop(Outcomes(data, replies)) && data[j].JObject?
    ensures var o := Outcomes(data, replies)[j];
      var fields := data[j].fields;
      && o.Judged?
      && (forall v :: 0 <= v < |Variants| ==>
            !JudgeAltText(fields, Variants[v].key, replies[j][v]).MissingField? &&
            Get(o.entry, JudgingKey(Variants[v].key)) == Some(Returned(JudgeAltText(fields, Variants[v].key, replies[j][v]))))
      && (forall k :: k !in JudgingKeys(|Variants|) ==> Get(o.entry, k) == Get(fields, k))
      && (NoJudgingKeys(fields) ==> Keys(o.entry) == Keys(fields) + JudgingKeys(|Variants|))
      && (forall v :: 0 <= v < |Variants| ==>
            (Judge(j, Variants[v].key, fields) in o.calls <==> JudgeAltText(fields, Variants[v].key, replies[j][v]).Asked?))
  {
    var outs := Outcomes(data, replies);
    var fields := data[j].fields;
    OutcomeAt(data, replies, j);
    assert !RaisedAfter(fields, replies[j], |Variants|);
    JudgedValues(fields, replies[j], |Variants|);
    forall k | k !in JudgingKeys(|Variants|)
      ensures Get(outs[j].entry, k) == Get(fields, k)
    {
      JudgedOtherFields(fields, replies[j], |Variants|, k);
    }
    if NoJudgingKeys(fields) {
      JudgedKeyOrder(fields, replies[j], |Variants|);
    }
    JudgedCalls(fields, j, replies[j], |Variants|);
  }

  /**
   * The run stops at a record only when it is a dict and one of its
   * variants raises; no record before it has such a variant.
   */
  lemma StopsAtRaise(data: seq<Json>, replies: seq<seq<Option<Json>>>)
    requires |data| == |replies| && WellShaped(replies)
    ensures var n := Stop(Outcomes(data, replies));
      && (n < |data| ==>
            data[n].JObject? &&
            exists v :: 0 <= v < |Variants| && Raises(JudgeAltText(data[n].fields, Variants[v].key, replies[n][v])))
      && (forall j, v :: 0 <= j < n && data[j].JObject? && 0 <= v < |Variants| ==>
            !Raises(JudgeAltText(data[j].fields, Variants[v].key, replies[j][v])))
  {
    var outs := Outcomes(data, replies);
    var n := Stop(outs);
    if n < |data| {
      OutcomeAt(data, replies, n);
      RaisesIff(data[n].fields, replies[n], |Variants|);
    }
    forall j, v | 0 <= j < n && data[j].JObject? && 0 <= v < |Variants|
      ensures !Raises(JudgeAltText(data[j].fields, Variants[v].key, replies[j][v]))
    {
      OutcomeAt(data, replies, j);
      RaisesIff(data[j].fields, replies[j], |Variants|);
    }
  }

  /**
   * Saves: one after 1-based input position `p` exactly when `p` is a
   * multiple of 25 and the record there is a dict that was judged.
   */
  lemma {:induction false} CheckpointPositionsExact(outs: seq<Outcome>, n: nat, p: nat)
    requires n <= |outs|
    ensures p in CheckpointPositions(outs, n) <==> 1 <= p <= n && p % CheckpointEvery == 0 && outs[p - 1].Judged?
  {
    if n > 0 {
      CheckpointPositionsExact(outs, n - 1, p);
    }
  }

  /**
   * The save after position `p` holds the first results of the run, one per
   * judged record up to `p`: fewer than `p` when records before it were not
   * dicts.
   */
  lemma {:induction false} CheckpointsArePrefixes(outs: seq<Outcome>, n: nat)
    requires n <= Stop(outs)
    ensures |Checkpoints(outs, n)| == |CheckpointPositions(outs, n)|
    ensures forall k :: 0 <= k < |Checkpoints(outs, n)| ==>
              CheckpointPositions(outs, n)[k] <= n &&
              |Checkpoints(outs, n)[k]| == JudgedCount(outs, CheckpointPositions(outs, n)[k]) &&
              Checkpoints(outs, n)[k] <= Results(outs, Stop(outs))
  {
    if n > 0 {
      CheckpointsArePrefixes(outs, n - 1);
      if CheckpointAt(outs, n - 1) {
        ResultsLength(outs, n);
        ResultsPrefix(outs, n, Stop(outs));
      }
    }
  }

  lemma {:induction false} ResultsPrefix(outs: seq<Outcome>, p: nat, n: nat)
    requires p <= n <= |outs|
    ensures |Results(outs, p)| <= |Results(outs, n)|
    ensures Results(outs, n)[..|Results(outs, p)|] == Results(outs, p)
  {
    if p < n {
      ResultsPrefix(outs, p, n - 1);
      assert Results(outs, n)[..|Results(outs, n - 1)|] == Results(outs, n - 1);
    }
  }
}
