/**
 * The alt-text enrichment run over the sampled records: for each record that
 * has an image, ask the vision model for an alt text, ask it again to refine
 * that text (keeping the first text when refinement fails), write both into
 * the record in place, and save the processed prefix at every 25th position.
 *
 * The model is an oracle: `replies[i]` holds the raw replies to the
 * generation and refinement calls for the record at 0-based position `i`,
 * `None` when the call raised.  Saved files are returned as the list of
 * record lists written, in order.
 */
module Enrich {
  import opened Wrappers
  import opened Json
  import Text

  const ImageUrlKey := "image_url_clean"
  const InitialKey := "openai_alt_text_initial"
  const RefinedKey := "openai_alt_text_refined"
  const CheckpointEvery := 25

  /** One chat request: the prompt file's text, the user text, and the image reference. */
  datatype Message = Message(system: string, text: string, imageUrl: Json)

  /** The model's replies for one record: to the generation call, and to the refinement call. */
  datatype Replies = Replies(generated: Option<string>, refinement: Option<string>)

  /**
   * A model call made by the run, tagged with the 0-based record position: the
   * record whose fields its request is built from (`ContextOf`, then
   * `GenerationMessage` or `RefinementMessage`) and, for a refinement, the alt
   * text to refine.
   */
  datatype Call = Generate(position: nat, record: Json) | Refine(position: nat, record: Json, altText: string)

  /** The request a traced call sends: the generation or the refinement message built from its record. */
  function Request(call: Call, genPrompt: string, refPrompt: string): Message
    requires call.record.JObject?
  {
    match call
    case Generate(_, record) => GenerationMessage(genPrompt, ContextOf(record.fields))
    case Refine(_, record, altText) => RefinementMessage(refPrompt, ContextOf(record.fields), altText)
  }

  /** The record fields a request is built from, each read with `item.get(key, "")`. */
  datatype Context = Context(headline: Json, abstractText: Json, caption: Json, imageUrl: Json)

  function ContextOf(item: Dict): Context
  {
    Context(Lookup(item, "headline", JStr("")), Lookup(item, "abstract", JStr("")),
            Lookup(item, "caption", JStr("")), Lookup(item, ImageUrlKey, JStr("")))
  }

  function ContextText(c: Context): string
  {
    "Headline: " + Show(c.headline) + "\nAbstract: " + Show(c.abstractText) + "\nCaption: " + Show(c.caption)
  }

  /** The request of `generate_alt_text`. */
  function GenerationMessage(prompt: string, c: Context): Message
  {
    Message(prompt, ContextText(c) + "\n\nPlease describe this image following the guidelines above.", c.imageUrl)
  }

  /** The request of `refine_alt_text`, which also carries the initial alt text. */
  function RefinementMessage(prompt: string, c: Context, altText: string): Message
  {
    Message(prompt, ContextText(c) + "\n\nInitial Alt-Text: " + altText
                    + "\n\nPlease refine this alt text according to the rules above.", c.imageUrl)
  }

  /** Regrouping the nine pieces of a refinement request to the right. */
  lemma Regroup(x1: string, x2: string, x3: string, x4: string, x5: string,
                x6: string, x7: string, x8: string, x9: string)
    ensures x1 + x2 + x3 + x4 + x5 + x6 + x7 + x8 + x9 == x1 + x2 + (x3 + x4 + (x5 + x6 + (x7 + x8 + x9)))
  {
    assert x1 + x2 + x3 + x4 + x5 + x6 + x7 + x8 + x9 == x1 + x2 + (x3 + x4 + x5 + x6 + x7 + x8 + x9);
    assert x3 + x4 + x5 + x6 + x7 + x8 + x9 == x3 + x4 + (x5 + x6 + x7 + x8 + x9);
    assert x5 + x6 + x7 + x8 + x9 == x5 + x6 + (x7 + x8 + x9);
  }

  /** The refinement request names the headline, abstract, caption and initial alt text, in that order. */
  lemma RefinementMentionsInOrder(prompt: string, c: Context, altText: string)
    ensures Text.InOrder(RefinementMessage(prompt, c, altText).text,
                    [Show(c.headline), Show(c.abstractText), Show(c.caption), altText])
    ensures RefinementMessage(prompt, c, altText).imageUrl == c.imageUrl
  {
    var h, a, cap := Show(c.headline), Show(c.abstractText), Show(c.caption);
    var pre := "\n\nInitial Alt-Text: ";
    var tail := "\n\nPlease refine this alt text according to the rules above.";
    var r3 := pre + altText + tail;
    var r2 := "\nCaption: " + cap + r3;
    var r1 := "\nAbstract: " + a + r2;
    assert Text.InOrder(tail, []);
    Text.InOrderCons(pre, altText, tail, []);
    assert [altText] + [] == [altText];
    Text.InOrderCons("\nCaption: ", cap, r3, [altText]);
    assert [cap] + [altText] == [cap, altText];
    Text.InOrderCons("\nAbstract: ", a, r2, [cap, altText]);
    assert [a] + [cap, altText] == [a, cap, altText];
    Text.InOrderCons("Headline: ", h, r1, [a, cap, altText]);
    assert [h] + [a, cap, altText] == [h, a, cap, altText];
    Regroup("Headline: ", h, "\nAbstract: ", a, "\nCaption: ", cap, pre, altText, tail);
  }

  /** `generate_alt_text`: the stripped reply, or `None` when the call raised. */
  function GenerateAltText(reply: Option<string>): (r: Option<string>)
    ensures r.None? <==> reply.None?
    ensures r.Some? ==> r.value == Text.Strip(reply.value) && Text.StrippedFrom(reply.value, r.value)
    ensures r.Some? ==> Text.NoEdgeSpace(r.value) && (r.value == "" <==> Text.AllSpace(reply.value))
  {
    match reply
    case None => None
    case Some(content) => Text.StripEdges(content); Text.StripIsStripped(content); Some(Text.Strip(content))
  }

  /** `refine_alt_text`: the stripped reply, or the unrefined text when the call raised. */
  function RefineAltText(altText: string, reply: Option<string>): (r: string)
    ensures reply.None? ==> r == altText
    ensures reply.Some? ==> r == Text.Strip(reply.value) && Text.StrippedFrom(reply.value, r)
    ensures reply.Some? ==> Text.NoEdgeSpace(r)
  {
    match reply
    case None => altText
    case Some(content) => Text.StripEdges(content); Text.StripIsStripped(content); Text.Strip(content)
  }

  /** What happens to one record. */
  datatype Outcome =
    | Skipped                               // no image URL: `continue` before any call
    | Crashed                               // `item.get` on a non-dict, or the log line slices a headline that is not a string or list
    | GenerationFailed                      // generation raised or returned an empty text
    | Written(initial: string, refined: string)

  /** `headline[:60]` only works on strings and lists; other values raise `TypeError`. */
  predicate Sliceable(j: Json)
  {
    j.JStr? || j.JArray?
  }

  /**
   * The record makes `main` raise: it is not a dict (`item.get` raises), or it
   * has an image and its headline cannot be sliced.
   */
  predicate CrashesOn(item: Json)
  {
    !item.JObject? || (Truthy(ContextOf(item.fields).imageUrl) && !Sliceable(ContextOf(item.fields).headline))
  }

  /** The per-record state machine of the loop body. */
  function Process(item: Json, generated: Option<string>, refinement: Option<string>): (o: Outcome)
    ensures o.Skipped? <==> item.JObject? && !Truthy(ContextOf(item.fields).imageUrl)
    ensures o.Crashed? <==> CrashesOn(item)
    ensures (o.GenerationFailed? || o.Written?) ==> item.JObject?
  {
    if !item.JObject? then Crashed
    else
    var c := ContextOf(item.fields);
    if !Truthy(c.imageUrl) then Skipped
    else if !Sliceable(c.headline) then Crashed
    else match GenerateAltText(generated)
      case None => GenerationFailed
      case Some(initial) =>
        if initial == "" then GenerationFailed else Written(initial, RefineAltText(initial, refinement))
  }

  /** The record after its outcome: both fields written on success, untouched otherwise. */
  function Apply(item: Json, o: Outcome): Json
  {
    if o.Written? && item.JObject? then JObject(WriteBoth(item.fields, o.initial, o.refined)) else item
  }

  /** `item["openai_alt_text_initial"] = initial; item["openai_alt_text_refined"] = refined`. */
  function WriteBoth(item: Dict, initial: string, refined: string): Dict
  {
    Set(Set(item, InitialKey, JStr(initial)), RefinedKey, JStr(refined))
  }

  /** The model calls the loop body makes for the record at position `i`. */
  function CallsFor(item: Json, i: nat, o: Outcome): seq<Call>
  {
    match o
    case Skipped => []
    case Crashed => []
    case GenerationFailed => [Generate(i, item)]
    case Written(initial, _) => [Generate(i, item), Refine(i, item, initial)]
  }

  /** The outcome of every record, from the records and the model's replies. */
  function Outcomes(data: seq<Json>, replies: seq<Replies>): (r: seq<Outcome>)
    requires |data| == |replies|
    ensures |r| == |data|
  {
    seq(|data|, i requires 0 <= i < |data| => Process(data[i], replies[i].generated, replies[i].refinement))
  }

  /** The outcome of record `i` depends on that record and its replies alone. */
  lemma OutcomeAt(data: seq<Json>, replies: seq<Replies>, i: nat)
    requires i < |data| == |replies|
    ensures Outcomes(data, replies)[i] == Process(data[i], replies[i].generated, replies[i].refinement)
  {
  }

  // The run is described over the per-record outcomes `outs`, one for each record.

  /** The position of the first record that makes `main` raise, or the length when none does. */
  function Stop(outs: seq<Outcome>): (r: nat)
    ensures r <= |outs|
    ensures forall j :: 0 <= j < r ==> !outs[j].Crashed?
    ensures r < |outs| ==> outs[r].Crashed?
  {
    if outs == [] then 0
    else if outs[0].Crashed? then 0
    else 1 + Stop(outs[1..])
  }

  /** Up to the stop, the record at `i` is the stop exactly when it crashes. */
  lemma StopAt(outs: seq<Outcome>, i: nat)
    requires i <= Stop(outs) && i < |outs|
    ensures outs[i].Crashed? <==> i == Stop(outs)
  {
  }

  /** Every record after its outcome, position by position. */
  function Applied(data: seq<Json>, outs: seq<Outcome>): (r: seq<Json>)
    requires |data| == |outs|
    ensures |r| == |data|
  {
    seq(|data|, k requires 0 <= k < |data| => Apply(data[k], outs[k]))
  }

  /** The first `n` records after processing. */
  function Processed(data: seq<Json>, outs: seq<Outcome>, n: nat): (r: seq<Json>)
    requires n <= |data| == |outs|
    ensures |r| == n
  {
    Applied(data, outs)[..n]
  }

  /** The record list after the first `n` records are processed. */
  function Partial(data: seq<Json>, outs: seq<Outcome>, n: nat): (r: seq<Json>)
    requires n <= |data| == |outs|
    ensures |r| == |data|
  {
    Processed(data, outs, n) + data[n..]
  }

  /** A checkpoint follows position `i` when `i + 1` is a multiple of 25 and the record was written. */
  predicate CheckpointAt(outs: seq<Outcome>, i: nat)
    requires i < |outs|
  {
    (i + 1) % CheckpointEvery == 0 && outs[i].Written?
  }

  /** The checkpoints written while the first `n` records are processed. */
  function Checkpoints(data: seq<Json>, outs: seq<Outcome>, n: nat): seq<seq<Json>>
    requires n <= |data| == |outs|
  {
    if n == 0 then []
    else Checkpoints(data, outs, n - 1) + if CheckpointAt(outs, n - 1) then [Processed(data, outs, n)] else []
  }

  /** The 1-based positions after which those checkpoints are written. */
  function CheckpointPositions(outs: seq<Outcome>, n: nat): seq<nat>
    requires n <= |outs|
  {
    if n == 0 then [] else CheckpointPositions(outs, n - 1) + if CheckpointAt(outs, n - 1) then [n] else []
  }

  /** The calls the loop body makes for each of the first `n` records. */
  function Blocks(data: seq<Json>, outs: seq<Outcome>, n: nat): (r: seq<seq<Call>>)
    requires n <= |data| == |outs|
    ensures |r| == n
  {
    seq(n, k requires 0 <= k < n => CallsFor(data[k], k, outs[k]))
  }

  /** The blocks one after another. */
  function Flatten(bs: seq<seq<Call>>): seq<Call>
  {
    if bs == [] then [] else Flatten(bs[..|bs| - 1]) + bs[|bs| - 1]
  }

  /** The model calls made while the first `n` records are processed, in order. */
  function CallTrace(data: seq<Json>, outs: seq<Outcome>, n: nat): seq<Call>
    requires n <= |data| == |outs|
  {
    Flatten(Blocks(data, outs, n))
  }

  /** The calls of `calls` made for the record at position `i`. */
  function CallsAt(calls: seq<Call>, i: nat): seq<Call>
  {
    if calls == [] then []
    else (if calls[0].position == i then [calls[0]] else []) + CallsAt(calls[1..], i)
  }

  /**
   * The record list when `main` ends, normally or at the first crashing
   * record: the input's length and order, each record the loop reached
   * replaced by the record after its outcome, the rest unchanged.
   */
  function Enriched(data: seq<Json>, replies: seq<Replies>): (r: seq<Json>)
    requires |data| == |replies|
    ensures |r| == |data|
    ensures var outs := Outcomes(data, replies);
      forall j :: 0 <= j < |data| ==>
        && (j < Stop(outs) ==> r[j] == Apply(data[j], outs[j]))
        && (j >= Stop(outs) ==> r[j] == data[j])
  {
    var outs := Outcomes(data, replies);
    Partial(data, outs, Stop(outs))
  }

  /** The state of `main` after the first `n` records: the record list, the calls made, the files saved. */
  ghost predicate RunState(data: seq<Json>, outs: seq<Outcome>, n: nat,
                           current: seq<Json>, calls: seq<Call>, saves: seq<seq<Json>>)
    requires n <= |data| == |outs|
  {
    current == Partial(data, outs, n)
    && calls == CallTrace(data, outs, n)
    && saves == Checkpoints(data, outs, n)
  }

  /** One pass of the loop body takes the state after `i` records to the state after `i + 1`. */
  lemma Advance(data: seq<Json>, outs: seq<Outcome>, i: nat,
                current: seq<Json>, calls: seq<Call>, saves: seq<seq<Json>>,
                made: seq<Call>, saved: seq<seq<Json>>, next: seq<Json>)
    requires i < |data| == |outs|
    requires RunState(data, outs, i, current, calls, saves)
    requires made == CallsFor(current[i], i, outs[i])
    requires next == current[i := Apply(current[i], outs[i])]
    requires saved == if CheckpointAt(outs, i) then [next[..i + 1]] else []
    ensures current[i] == data[i]
    ensures RunState(data, outs, i + 1, next, calls + made, saves + saved)
  {
    PartialStep(data, outs, i);
    CallTraceStep(data, outs, i);
    CheckpointStep(data, outs, i, next, saved);
  }

  lemma PartialStep(data: seq<Json>, outs: seq<Outcome>, i: nat)
    requires i < |data| == |outs|
    ensures Partial(data, outs, i)[i] == data[i]
    ensures Partial(data, outs, i)[i := Apply(data[i], outs[i])] == Partial(data, outs, i + 1)
  {
    var all := Applied(data, outs);
    SliceSnoc(all, i);
    SliceCons(data, i);
    UpdateMiddle(Partial(data, outs, i), Partial(data, outs, i + 1), all[..i], data[i], all[i], data[i + 1..]);
  }

  lemma SliceSnoc<T>(s: seq<T>, i: nat)
    requires i < |s|
    ensures s[..i + 1] == s[..i] + [s[i]]
  {
  }

  lemma SliceCons<T>(s: seq<T>, i: nat)
    requires i < |s|
    ensures s[i..] == [s[i]] + s[i + 1..]
  {
  }

  /** Replacing the element between `a` and `b`. */
  lemma UpdateMiddle<T>(p: seq<T>, q: seq<T>, a: seq<T>, x: T, y: T, b: seq<T>)
    requires p == a + ([x] + b) && q == a + [y] + b
    ensures p[|a|] == x && p[|a| := y] == q
  {
  }

  lemma CheckpointStep(data: seq<Json>, outs: seq<Outcome>, i: nat, next: seq<Json>, saved: seq<seq<Json>>)
    requires i < |data| == |outs|
    requires next == Partial(data, outs, i + 1)
    requires saved == if CheckpointAt(outs, i) then [next[..i + 1]] else []
    ensures Checkpoints(data, outs, i) + saved == Checkpoints(data, outs, i + 1)
  {
    assert next[..i + 1] == Processed(data, outs, i + 1);
  }

  /** The record the loop reaches at position `i` is still the input record, and its outcome is `outs[i]`. */
  lemma Reached(input: seq<Json>, replies: seq<Replies>, outs: seq<Outcome>, i: nat,
                current: seq<Json>, calls: seq<Call>, saves: seq<seq<Json>>)
    requires |input| == |replies| && outs == Outcomes(input, replies)
    requires i < |input| && i <= Stop(outs)
    requires RunState(input, outs, i, current, calls, saves)
    ensures current[i] == input[i]
    ensures outs[i] == Process(current[i], replies[i].generated, replies[i].refinement)
    ensures outs[i].Crashed? <==> i == Stop(outs)
  {
    PartialStep(input, outs, i);
    OutcomeAt(input, replies, i);
    StopAt(outs, i);
  }

  lemma Unchanged(s: seq<Json>, i: nat, t: seq<Json>)
    requires i < |s| && t == s[i := s[i]]
    ensures t == s
  {
  }

  /**
   * One pass of the loop body over the record at position `i`: the record is
   * replaced by its outcome; returns the calls made and the checkpoint
   * written, if one is due.
   */
  method Step(data: array<Json>, i: nat, generated: Option<string>, refinement: Option<string>)
    returns (o: Outcome, made: seq<Call>, saved: seq<seq<Json>>)
    requires i < data.Length
    modifies data
    ensures o == Process(old(data[i]), generated, refinement)
    ensures made == CallsFor(old(data[i]), i, o)
    ensures data[..] == old(data[..])[i := Apply(old(data[i]), o)]
    ensures saved == if o.Written? && (i + 1) % CheckpointEvery == 0 then [data[..i + 1]] else []
  {
    var item := data[i];
    o := Process(item, generated, refinement);
    made := CallsFor(item, i, o);
    saved := [];
    if o.Written? {
      data[i] := Apply(item, o);
      if (i + 1) % CheckpointEvery == 0 {
        saved := [data[..i + 1]];
      }
    }
  }

  /**
   * `main`: the loop over the records, updating `data` in place.  Returns the
   * model calls made, the record lists saved (checkpoints, then the final
   * save), and whether the loop ran to the end; a crashing record ends the run
   * without the final save.
   */
  method Run(data: array<Json>, replies: seq<Replies>)
    returns (calls: seq<Call>, saves: seq<seq<Json>>, completed: bool)
    requires |replies| == data.Length
    modifies data
    ensures var outs := Outcomes(old(data[..]), replies);
      && (completed <==> Stop(outs) == data.Length)
      && data[..] == Partial(old(data[..]), outs, Stop(outs))
      && calls == CallTrace(old(data[..]), outs, Stop(outs))
      && saves == Checkpoints(old(data[..]), outs, Stop(outs)) + if completed then [data[..]] else []
  {
    ghost var input := data[..];
    ghost var outs := Outcomes(input, replies);
    calls, saves := [], [];
    var i := 0;
    while i < data.Length
      invariant i <= Stop(outs)
      invariant RunState(input, outs, i, data[..], calls, saves)
    {
      ghost var current := data[..];
      Reached(input, replies, outs, i, current, calls, saves);
      var o, made, saved := Step(data, i, replies[i].generated, replies[i].refinement);
      if o.Crashed? {
        Unchanged(current, i, data[..]);
        return calls, saves, false;
      }
      Advance(input, outs, i, current, calls, saves, made, saved, data[..]);
      calls, saves := calls + made, saves + saved;
      i := i + 1;
    }
    assert |outs| == data.Length;
    assert i == Stop(outs);
    saves := saves + [data[..]];
    completed := true;
  }

  // Properties of the run

  lemma ProcessedAt(data: seq<Json>, outs: seq<Outcome>, n: nat, j: nat)
    requires j < n <= |data| == |outs|
    ensures Processed(data, outs, n)[j] == Apply(data[j], outs[j])
  {
  }

  lemma ProcessedPrefix(data: seq<Json>, outs: seq<Outcome>, p: nat, n: nat)
    requires p <= n <= |data| == |outs|
    ensures Processed(data, outs, n)[..p] == Processed(data, outs, p)
  {
  }

  /** Writing the outcome touches only the two alt-text keys; the record's own keys keep their order. */
  lemma ApplyKeepsOtherFields(item: Json, o: Outcome)
    ensures Apply(item, o).JObject? == item.JObject?
    ensures !item.JObject? ==> Apply(item, o) == item
    ensures item.JObject? ==>
              && (forall k :: k != InitialKey && k != RefinedKey ==> Get(Apply(item, o).fields, k) == Get(item.fields, k))
              && Keys(item.fields) <= Keys(Apply(item, o).fields)
  {
    if o.Written? && item.JObject? {
      var d := item.fields;
      var once := Set(d, InitialKey, JStr(o.initial));
      var twice := Set(once, RefinedKey, JStr(o.refined));
      KeysGrow(d, InitialKey, JStr(o.initial));
      KeysGrow(once, RefinedKey, JStr(o.refined));
      PrefixTrans(Keys(d), Keys(once), Keys(twice));
    }
  }

  /** Setting a key never drops or reorders the keys already there. */
  lemma KeysGrow(d: Dict, k: string, v: Json)
    ensures Keys(d) <= Keys(Set(d, k, v))
  {
    if !HasKey(d, k) {
      PrefixOfAppend(Keys(d), [k], |Keys(d)|);
    }
  }

  lemma PrefixTrans<T>(a: seq<T>, b: seq<T>, c: seq<T>)
    requires a <= b && b <= c
    ensures a <= c
  {
    assert c[..|b|][..|a|] == c[..|a|];
  }

  /** Only `openai_alt_text_initial` and `openai_alt_text_refined` are written; every other field is as it was. */
  lemma OnlyAltTextFieldsWritten(data: seq<Json>, replies: seq<Replies>, j: nat, k: string)
    requires j < |data| == |replies|
    requires k != InitialKey && k != RefinedKey
    ensures |Enriched(data, replies)| == |data|
    ensures Enriched(data, replies)[j].JObject? == data[j].JObject?
    ensures !data[j].JObject? ==> Enriched(data, replies)[j] == data[j]
    ensures data[j].JObject? ==>
              && Get(Enriched(data, replies)[j].fields, k) == Get(data[j].fields, k)
              && Keys(data[j].fields) <= Keys(Enriched(data, replies)[j].fields)
  {
    ApplyKeepsOtherFields(data[j], Outcomes(data, replies)[j]);
  }

  lemma {:induction false} CallsAtAppend(a: seq<Call>, b: seq<Call>, j: nat)
    ensures CallsAt(a + b, j) == CallsAt(a, j) + CallsAt(b, j)
  {
    if a == [] {
      assert a + b == b;
    } else {
      var h := if a[0].position == j then [a[0]] else [];
      assert (a + b)[0] == a[0] && (a + b)[1..] == a[1..] + b;
      assert CallsAt(a + b, j) == h + CallsAt(a[1..] + b, j);
      CallsAtAppend(a[1..], b, j);
      assert CallsAt(a, j) == h + CallsAt(a[1..], j);
    }
  }

  lemma CallsForAt(item: Json, i: nat, o: Outcome, j: nat)
    ensures CallsAt(CallsFor(item, i, o), j) == if i == j then CallsFor(item, i, o) else []
  {
    var calls := CallsFor(item, i, o);
    if calls != [] {
      assert CallsAt(calls[1..], j) == if i == j then calls[1..] else [] by {
        if |calls| == 2 {
          assert calls[1..][1..] == [];
        }
      }
      assert calls == [calls[0]] + calls[1..];
    }
  }

  /** The calls for position `j` in the trace of the first `n` records are those the loop body made for record `j`. */
  lemma CallTraceAt(data: seq<Json>, outs: seq<Outcome>, n: nat, j: nat)
    requires n <= |data| == |outs|
    ensures CallsAt(CallTrace(data, outs, n), j) == if j < n then CallsFor(data[j], j, outs[j]) else []
  {
    var bs := Blocks(data, outs, n);
    forall k | 0 <= k < |bs|
      ensures CallsAt(bs[k], j) == if k == j then bs[k] else []
    {
      CallsForAt(data[k], k, outs[k], j);
    }
    FlattenAt(bs, j);
  }

  /** Each block's calls are its own position's, so the calls for `j` in the whole trace are block `j`. */
  lemma {:induction false} FlattenAt(bs: seq<seq<Call>>, j: nat)
    requires forall k :: 0 <= k < |bs| ==> CallsAt(bs[k], j) == if k == j then bs[k] else []
    ensures CallsAt(Flatten(bs), j) == if j < |bs| then bs[j] else []
  {
    if bs != [] {
      var n := |bs| - 1;
      var init := bs[..n];
      assert forall k :: 0 <= k < |init| ==> init[k] == bs[k];
      FlattenAt(init, j);
      assert Flatten(bs) == Flatten(init) + bs[n];
      CallsAtAppend(Flatten(init), bs[n], j);
      assert CallsAt(bs[n], j) == if n == j then bs[n] else [];
      if j < n {
        assert CallsAt(Flatten(bs), j) == bs[j] + [];
      } else if j == n {
        assert CallsAt(Flatten(bs), j) == [] + bs[j];
      } else {
        assert CallsAt(Flatten(bs), j) == [] + [];
      }
    }
  }

  /** One more record adds its own calls at the end of the trace. */
  lemma CallTraceStep(data: seq<Json>, outs: seq<Outcome>, n: nat)
    requires n < |data| == |outs|
    ensures CallTrace(data, outs, n + 1) == CallTrace(data, outs, n) + CallsFor(data[n], n, outs[n])
  {
    var bs := Blocks(data, outs, n + 1);
    assert bs[..n] == Blocks(data, outs, n);
  }

  /** The calls `main` makes for the record at position `j`. */
  function CallsMadeFor(data: seq<Json>, replies: seq<Replies>, j: nat): seq<Call>
    requires |data| == |replies|
  {
    var outs := Outcomes(data, replies);
    CallsAt(CallTrace(data, outs, Stop(outs)), j)
  }

  /** A record without `image_url_clean` (missing, `null` or empty) is left as it was, and no model call is made for it. */
  lemma SkippedRecordUntouched(data: seq<Json>, replies: seq<Replies>, j: nat)
    requires j < |data| == |replies|
    requires data[j].JObject? && !Truthy(Lookup(data[j].fields, ImageUrlKey, JStr("")))
    ensures Enriched(data, replies)[j] == data[j]
    ensures CallsMadeFor(data, replies, j) == []
  {
    var outs := Outcomes(data, replies);
    OutcomeAt(data, replies, j);
    CallTraceAt(data, outs, Stop(outs), j);
  }

  /**
   * When generation raises or returns only whitespace, the record gains
   * neither alt-text field, and the refinement call is never made.
   */
  lemma GenerationFailureLeavesRecord(data: seq<Json>, replies: seq<Replies>, j: nat)
    requires j < |data| == |replies| && j < Stop(Outcomes(data, replies))
    requires data[j].JObject? && Truthy(Lookup(data[j].fields, ImageUrlKey, JStr("")))
    requires replies[j].generated.None? || Text.AllSpace(replies[j].generated.value)
    ensures Enriched(data, replies)[j] == data[j]
    ensures CallsMadeFor(data, replies, j) == [Generate(j, data[j])]
  {
    var outs := Outcomes(data, replies);
    OutcomeAt(data, replies, j);
    CallTraceAt(data, outs, Stop(outs), j);
  }

  /**
   * When generation returns some text, the record gains both fields: the
   * initial text is the stripped reply, and the refined text is the stripped
   * refinement reply, or exactly the initial text when refinement raised.
   */
  lemma WrittenRecord(data: seq<Json>, replies: seq<Replies>, j: nat, reply: string)
    requires j < |data| == |replies| && j < Stop(Outcomes(data, replies))
    requires data[j].JObject? && Truthy(Lookup(data[j].fields, ImageUrlKey, JStr("")))
    requires replies[j].generated == Some(reply) && !Text.AllSpace(reply)
    ensures Enriched(data, replies)[j].JObject?
    ensures Get(Enriched(data, replies)[j].fields, InitialKey) == Some(JStr(Text.Strip(reply)))
    ensures replies[j].refinement.None? ==>
              Get(Enriched(data, replies)[j].fields, RefinedKey) == Get(Enriched(data, replies)[j].fields, InitialKey)
    ensures replies[j].refinement.Some? ==>
              Get(Enriched(data, replies)[j].fields, RefinedKey) == Some(JStr(Text.Strip(replies[j].refinement.value)))
    ensures CallsMadeFor(data, replies, j)
         == [Generate(j, data[j]), Refine(j, data[j], Text.Strip(reply))]
  {
    var outs := Outcomes(data, replies);
    OutcomeAt(data, replies, j);
    CallTraceAt(data, outs, Stop(outs), j);
    var o := outs[j];
    assert o.Written? && o.initial == Text.Strip(reply);
    var once := Set(data[j].fields, InitialKey, JStr(o.initial));
    var twice := Set(once, RefinedKey, JStr(o.refined));
    assert Enriched(data, replies)[j] == Apply(data[j], o) == JObject(twice);
    assert Get(once, InitialKey) == Some(JStr(o.initial));
    assert Get(twice, InitialKey) == Get(once, InitialKey);
  }

  /**
   * The run stops at a record only when that record is not a dict, or has an
   * image and a headline that cannot be sliced.
   */
  lemma StopsAtCrash(data: seq<Json>, replies: seq<Replies>)
    requires |data| == |replies|
    ensures var r := Stop(Outcomes(data, replies));
      && (forall j :: 0 <= j < r ==> !CrashesOn(data[j]))
      && (r < |data| ==> CrashesOn(data[r]))
  {
    var outs := Outcomes(data, replies);
    var r := Stop(outs);
    forall j | 0 <= j < r
      ensures !CrashesOn(data[j])
    {
      OutcomeAt(data, replies, j);
    }
    if r < |data| {
      OutcomeAt(data, replies, r);
    }
  }

  /**
   * Checkpoints: one after 1-based position `p` exactly when `p` is a multiple
   * of 25 and record `p` was written (not skipped, generation succeeded).
   */
  lemma {:induction false} CheckpointPositionsExact(outs: seq<Outcome>, n: nat, p: nat)
    requires n <= |outs|
    ensures p in CheckpointPositions(outs, n) <==> 1 <= p <= n && p % CheckpointEvery == 0 && outs[p - 1].Written?
  {
    if n > 0 {
      CheckpointPositionsExact(outs, n - 1, p);
    }
  }

  /** The checkpoint after position `p` holds exactly the first `p` records of the final list. */
  lemma CheckpointsArePrefixes(data: seq<Json>, outs: seq<Outcome>, n: nat)
    requires n <= Stop(outs) && |data| == |outs|
    ensures |Checkpoints(data, outs, n)| == |CheckpointPositions(outs, n)|
    ensures forall k :: 0 <= k < |Checkpoints(data, outs, n)| ==>
              CheckpointPositions(outs, n)[k] <= n &&
              Checkpoints(data, outs, n)[k] == Partial(data, outs, Stop(outs))[..CheckpointPositions(outs, n)[k]]
  {
    CheckpointsLength(data, outs, n);
    forall k | 0 <= k < |Checkpoints(data, outs, n)|
      ensures CheckpointPositions(outs, n)[k] <= n &&
              Checkpoints(data, outs, n)[k] == Partial(data, outs, Stop(outs))[..CheckpointPositions(outs, n)[k]]
    {
      CheckpointIsPrefix(data, outs, n, k);
    }
  }

  lemma PrefixOfAppend<T>(a: seq<T>, b: seq<T>, p: nat)
    requires p <= |a|
    ensures (a + b)[..p] == a[..p]
  {
  }

  lemma {:induction false} CheckpointsLength(data: seq<Json>, outs: seq<Outcome>, n: nat)
    requires n <= |data| == |outs|
    ensures |Checkpoints(data, outs, n)| == |CheckpointPositions(outs, n)|
  {
    if n > 0 {
      CheckpointsLength(data, outs, n - 1);
    }
  }

  lemma {:induction false} CheckpointIsPrefix(data: seq<Json>, outs: seq<Outcome>, n: nat, k: nat)
    requires n <= Stop(outs) && |data| == |outs|
    requires k < |CheckpointPositions(outs, n)|
    ensures k < |Checkpoints(data, outs, n)|
    ensures CheckpointPositions(outs, n)[k] <= n
    ensures Checkpoints(data, outs, n)[k] == Partial(data, outs, Stop(outs))[..CheckpointPositions(outs, n)[k]]
  {
    CheckpointsLength(data, outs, n);
    var cs, ps := Checkpoints(data, outs, n - 1), CheckpointPositions(outs, n - 1);
    CheckpointsLength(data, outs, n - 1);
    if CheckpointAt(outs, n - 1) && k == |ps| {
      assert Checkpoints(data, outs, n) == cs + [Processed(data, outs, n)];
      assert CheckpointPositions(outs, n) == ps + [n];
      ProcessedIsPrefix(data, outs, n);
    } else {
      var c := if CheckpointAt(outs, n - 1) then [Processed(data, outs, n)] else [];
      var p := if CheckpointAt(outs, n - 1) then [n] else [];
      assert Checkpoints(data, outs, n) == cs + c;
      assert CheckpointPositions(outs, n) == ps + p;
      assert Checkpoints(data, outs, n)[k] == cs[k] && CheckpointPositions(outs, n)[k] == ps[k];
      CheckpointIsPrefix(data, outs, n - 1, k);
    }
  }

  /** The records processed up to a position before the stop are a prefix of the final list. */
  lemma ProcessedIsPrefix(data: seq<Json>, outs: seq<Outcome>, n: nat)
    requires n <= Stop(outs) && |data| == |outs|
    ensures Processed(data, outs, n) == Partial(data, outs, Stop(outs))[..n]
  {
    ProcessedPrefix(data, outs, n, Stop(outs));
    PrefixOfAppend(Processed(data, outs, Stop(outs)), data[Stop(outs)..], n);
  }

  /**
   * The refinement call the run makes for a written record sends that
   * record's headline, abstract and caption and the stripped initial alt
   * text, in that order, with the record's image.
   */
  lemma RefineRequestInOrder(data: seq<Json>, replies: seq<Replies>, j: nat, reply: string,
                             genPrompt: string, refPrompt: string)
    requires j < |data| == |replies| && j < Stop(Outcomes(data, replies))
    requires data[j].JObject? && Truthy(Lookup(data[j].fields, ImageUrlKey, JStr("")))
    requires replies[j].generated == Some(reply) && !Text.AllSpace(reply)
    ensures var calls := CallsMadeFor(data, replies, j);
      && |calls| == 2 && calls[1].Refine? && calls[1].record == data[j]
      && var c := ContextOf(data[j].fields);
      && Text.InOrder(Request(calls[1], genPrompt, refPrompt).text,
                      [Show(c.headline), Show(c.abstractText), Show(c.caption), Text.Strip(reply)])
      && Request(calls[1], genPrompt, refPrompt).imageUrl == c.imageUrl
  {
    WrittenRecord(data, replies, j, reply);
    RefinementMentionsInOrder(refPrompt, ContextOf(data[j].fields), Text.Strip(reply));
  }
}
