/**
 * The preparation of the manual evaluation set: four records are drawn at
 * random from every section (in first-appearance order of the sections),
 * projected to nine columns and written as the sample table; then every
 * sampled row is turned into a `baseline` row and a `finetuned` row whose
 * `alt_text` is the matching prediction, the two halves are concatenated,
 * sorted by `(image_id, model_variant)` and projected to eight columns.
 *
 * The random draw is an oracle: `draws[c]` holds the positions, within the
 * rows of the `c`-th section, that `section_df.sample(n=4)` returns.
 *
 * A table cell is `Some(value)`, or `None` for a value the record lacks
 * (pandas fills it with NaN).  The script raises when a record has no usable
 * section (NaN, `None`, a list or a dict: no row compares equal to it, so its
 * sample is drawn from zero rows), when a section has fewer than four rows,
 * or when one of the nine columns occurs in no record.
 */
module Pairwise {
  import opened Wrappers
  import opened Json
  import Text
  import Sampling

  const SamplesPerSection := 4
  const SectionKey := "section"
  const Baseline := "baseline"
  const Finetuned := "finetuned"

  /** The columns of the sample table, in order. */
  const SampleColumns: seq<string> := [
    "image_id", "image_url_clean", "headline", "abstract", "caption",
    "openai_alt_text_refined", "generated_baseline", "generated_finetuned", "section"
  ]

  /** A row of the sample table: the nine columns, `None` where the record lacks the field. */
  datatype SampleRow = SampleRow(
    imageId: Option<Json>, imageUrlClean: Option<Json>, headline: Option<Json>,
    abstractText: Option<Json>, caption: Option<Json>, refined: Option<Json>,
    baseline: Option<Json>, finetuned: Option<Json>, section: Option<Json>)

  /** A row of the pairwise table: the eight final columns. */
  datatype EvalRow = EvalRow(
    imageId: string, imageUrlClean: Option<Json>, headline: Option<Json>,
    abstractText: Option<Json>, caption: Option<Json>, altText: Option<Json>,
    variant: string, section: Option<Json>)

  /** The section a record is compared under; `None` when no row can equal it. */
  function SectionOf(d: Dict): Option<Json>
  {
    var s := Lookup(d, SectionKey, JNull);
    if s.JNull? || !Hashable(s) then None else Some(KeyOf(s))
  }

  predicate AllSectioned(data: seq<Dict>)
  {
    forall i :: 0 <= i < |data| ==> SectionOf(data[i]).Some?
  }

  /** `df["section"].unique()`: each section once, in first-appearance order. */
  function Sections(data: seq<Dict>): (r: seq<Json>)
    requires AllSectioned(data)
  {
    if data == [] then []
    else
      var init := data[..|data| - 1];
      assert forall i :: 0 <= i < |init| ==> init[i] == data[i];
      var done := Sections(init);
      var s := SectionOf(data[|data| - 1]).value;
      if s in done then done else done + [s]
  }

  /** `df[df["section"] == s]`: the records of section `s`, in input order. */
  function Rows(data: seq<Dict>, s: Json): (r: seq<Dict>)
    ensures forall k :: 0 <= k < |r| ==> SectionOf(r[k]) == Some(s)
  {
    if data == [] then []
    else
      var done := Rows(data[..|data| - 1], s);
      if SectionOf(data[|data| - 1]) == Some(s) then done + [data[|data| - 1]] else done
  }

  /** The oracle has one draw per section, valid wherever the section is large enough to sample. */
  predicate ValidDraws(data: seq<Dict>, draws: seq<seq<nat>>)
  {
    AllSectioned(data) ==>
      var sections := Sections(data);
      |draws| == |sections|
      && forall c :: 0 <= c < |sections| && SamplesPerSection <= |Rows(data, sections[c])| ==>
           Sampling.ValidDraw(draws[c], |Rows(data, sections[c])|, SamplesPerSection)
  }

  /** The sample of section `c`; `None` when the section is too small to sample. */
  function SectionSample(data: seq<Dict>, draws: seq<seq<nat>>, c: nat): Option<seq<Dict>>
    requires AllSectioned(data) && ValidDraws(data, draws) && c < |draws|
  {
    var rows := Rows(data, Sections(data)[c]);
    if |rows| < SamplesPerSection then None else Some(Sampling.Pick(rows, draws[c]))
  }

  /** The samples of the first `m` sections, in order. */
  function Samples(data: seq<Dict>, draws: seq<seq<nat>>, m: nat): (r: seq<Option<seq<Dict>>>)
    requires AllSectioned(data) && ValidDraws(data, draws) && m <= |draws|
    ensures |r| == m
  {
    seq(m, c requires 0 <= c < m => SectionSample(data, draws, c))
  }

  lemma SamplesAt(data: seq<Dict>, draws: seq<seq<nat>>, m: nat, c: nat)
    requires AllSectioned(data) && ValidDraws(data, draws) && c < m <= |draws|
    ensures Samples(data, draws, m)[c] == SectionSample(data, draws, c)
  {
  }

  /** `selected_entries` after the loop; `None` when the loop raises. */
  function Selection(data: seq<Dict>, draws: seq<seq<nat>>): Option<seq<Dict>>
    requires ValidDraws(data, draws)
  {
    if AllSectioned(data) then Sampling.Concat(Samples(data, draws, |draws|), |draws|) else None
  }

  /** The per-section sampling loop. */
  method SelectEntries(data: seq<Dict>, draws: seq<seq<nat>>) returns (selected: Option<seq<Dict>>)
    requires ValidDraws(data, draws)
    ensures selected == Selection(data, draws)
  {
    if !AllSectioned(data) {
      return None;
    }
    var sections := Sections(data);
    ghost var samples := Samples(data, draws, |draws|);
    var entries: seq<Dict> := [];
    for c := 0 to |sections|
      invariant Sampling.Concat(samples, c) == Some(entries)
    {
      var picked := SampleSection(data, draws, sections, c);
      SamplesAt(data, draws, |draws|, c);
      ConcatStep(samples, c, entries, picked);
      if picked.None? {
        return None;
      }
      entries := entries + picked.value;
    }
    return Some(entries);
  }

  /** One pass of the sampling loop: a missing block makes the whole concatenation fail. */
  lemma ConcatStep(blocks: seq<Option<seq<Dict>>>, c: nat, entries: seq<Dict>, b: Option<seq<Dict>>)
    requires c < |blocks| && blocks[c] == b
    requires Sampling.Concat(blocks, c) == Some(entries)
    ensures b.None? ==> Sampling.Concat(blocks, |blocks|).None?
    ensures b.Some? ==> Sampling.Concat(blocks, c + 1) == Some(entries + b.value)
  {
    if b.None? {
      Sampling.ConcatFail(blocks, c + 1, |blocks|);
    }
  }

  /** The loop body: `section_df.sample(n=4)` on the rows of section `c`; `None` when it raises. */
  method SampleSection(data: seq<Dict>, draws: seq<seq<nat>>, sections: seq<Json>, c: nat) returns (picked: Option<seq<Dict>>)
    requires AllSectioned(data) && ValidDraws(data, draws) && sections == Sections(data) && c < |draws|
    ensures picked == SectionSample(data, draws, c)
  {
    var sectionRows := Rows(data, sections[c]);
    if |sectionRows| < SamplesPerSection {
      return None;
    }
    SectionDraw(data, draws, c, sectionRows);
    return Some(Sampling.Pick(sectionRows, draws[c]));
  }

  /** The draw for section `c` is valid wherever that section can be sampled. */
  lemma SectionDraw(data: seq<Dict>, draws: seq<seq<nat>>, c: nat, rows: seq<Dict>)
    requires AllSectioned(data) && ValidDraws(data, draws) && c < |draws|
    requires rows == Rows(data, Sections(data)[c])
    ensures SamplesPerSection <= |rows| ==> Sampling.ValidDraw(draws[c], |rows|, SamplesPerSection)
  {
  }

  /** Some column of the sample table occurs in no record: selecting it raises `KeyError`. */
  predicate MissingColumn(data: seq<Dict>)
  {
    exists col :: col in SampleColumns && forall i :: 0 <= i < |data| ==> !HasKey(data[i], col)
  }

  /** A record projected to the nine sample columns. */
  function Project(d: Dict): SampleRow
  {
    SampleRow(Get(d, "image_id"), Get(d, "image_url_clean"), Get(d, "headline"),
              Get(d, "abstract"), Get(d, "caption"), Get(d, "openai_alt_text_refined"),
              Get(d, "generated_baseline"), Get(d, "generated_finetuned"), Get(d, SectionKey))
  }

  function ProjectAll(ds: seq<Dict>): (r: seq<SampleRow>)
    ensures |r| == |ds|
    ensures forall k :: 0 <= k < |ds| ==> r[k] == Project(ds[k])
  {
    if ds == [] then [] else ProjectAll(ds[..|ds| - 1]) + [Project(ds[|ds| - 1])]
  }

  /** One copy of a sample row for `variant`, its `alt_text` taken from that variant's prediction. */
  function WithVariant(r: SampleRow, id: string, variant: string): EvalRow
  {
    EvalRow(id, r.imageUrlClean, r.headline, r.abstractText, r.caption,
            if variant == Baseline then r.baseline else r.finetuned, variant, r.section)
  }

  predicate StringIds(rows: seq<SampleRow>)
  {
    forall k :: 0 <= k < |rows| ==> rows[k].imageId.Some? && rows[k].imageId.value.JStr?
  }

  /** All rows copied for one variant, in order. */
  function Copies(rows: seq<SampleRow>, variant: string): (r: seq<EvalRow>)
    requires StringIds(rows)
    ensures |r| == |rows|
    ensures forall k :: 0 <= k < |rows| ==> r[k] == WithVariant(rows[k], rows[k].imageId.value.s, variant)
  {
    if rows == [] then []
    else
      var n := |rows| - 1;
      Copies(rows[..n], variant) + [WithVariant(rows[n], rows[n].imageId.value.s, variant)]
  }

  /**
   * `pd.concat([baseline_df, finetuned_df])`: twice the sample's rows, a
   * `baseline` copy of each row with the baseline prediction, then a
   * `finetuned` copy with the fine-tuned one; both copies agree with the
   * sample row on every other column.
   */
  function Expanded(rows: seq<SampleRow>): (r: seq<EvalRow>)
    requires StringIds(rows)
    ensures |r| == 2 * |rows|
    ensures forall k :: 0 <= k < |rows| ==>
      var b, f := r[k], r[|rows| + k];
      && b.variant == Baseline && b.altText == rows[k].baseline
      && f.variant == Finetuned && f.altText == rows[k].finetuned
      && Some(JStr(b.imageId)) == rows[k].imageId && f.imageId == b.imageId
      && f.imageUrlClean == b.imageUrlClean == rows[k].imageUrlClean
      && f.headline == b.headline == rows[k].headline
      && f.abstractText == b.abstractText == rows[k].abstractText
      && f.caption == b.caption == rows[k].caption
      && f.section == b.section == rows[k].section
  {
    Copies(rows, Baseline) + Copies(rows, Finetuned)
  }

  /** The sort order of `sort_values(by=["image_id", "model_variant"])`. */
  predicate KeyLess(a: EvalRow, b: EvalRow)
  {
    Text.Less(a.imageId, b.imageId) || (a.imageId == b.imageId && Text.Less(a.variant, b.variant))
  }

  predicate Sorted(rows: seq<EvalRow>)
  {
    forall i, j :: 0 <= i < j < |rows| ==> !KeyLess(rows[j], rows[i])
  }

  /** Inserts `x` after every row that does not sort after it, so equal keys keep their order. */
  function Insert(rows: seq<EvalRow>, x: EvalRow): (r: seq<EvalRow>)
    ensures multiset(r) == multiset(rows) + multiset{x}
  {
    if rows == [] then [x]
    else
      var n := |rows| - 1;
      if KeyLess(x, rows[n]) then
        assert rows == rows[..n] + [rows[n]];
        Insert(rows[..n], x) + [rows[n]]
      else rows + [x]
  }

  /** A stable sort of `rows` by `(image_id, model_variant)`: a sorted permutation of its input. */
  function Sort(rows: seq<EvalRow>): (r: seq<EvalRow>)
    ensures Sorted(r)
    ensures multiset(r) == multiset(rows)
  {
    if rows == [] then []
    else
      var n := |rows| - 1;
      assert rows == rows[..n] + [rows[n]];
      var done := Sort(rows[..n]);
      InsertSorted(done, rows[n]);
      Insert(done, rows[n])
  }

  /** What the script writes: the sample table, then the pairwise table. */
  datatype Written = Written(sample: Option<seq<SampleRow>>, pairwise: Option<seq<EvalRow>>)

  /**
   * The whole script on the loaded records.  The sample table is written
   * exactly when the selection succeeds and every column exists, and holds
   * the nine columns of each selected record in selection order.  It is
   * written before the pairwise table is built, so it survives a failure
   * there; image ids that are not strings are reported as such a failure.
   * The pairwise table, when written, is sorted by `(image_id,
   * model_variant)` and holds exactly the baseline and fine-tuned copies of
   * the sample rows: twice as many rows as the sample.
   */
  function Prepare(data: seq<Dict>, draws: seq<seq<nat>>): (w: Written)
    requires ValidDraws(data, draws)
    ensures w.sample.Some? <==> Selection(data, draws).Some? && !MissingColumn(data)
    ensures w.sample.Some? ==>
              var sel := Selection(data, draws).value;
              |w.sample.value| == |sel| && forall k :: 0 <= k < |sel| ==> w.sample.value[k] == Project(sel[k])
    ensures w.pairwise.Some? <==> w.sample.Some? && StringIds(w.sample.value)
    ensures w.pairwise.Some? ==>
              && Sorted(w.pairwise.value)
              && multiset(w.pairwise.value) == multiset(Expanded(w.sample.value))
              && |w.pairwise.value| == 2 * |w.sample.value|
  {
    var selected := Selection(data, draws);
    if selected.None? || MissingColumn(data) then Written(None, None)
    else
      var sample := ProjectAll(selected.value);
      if StringIds(sample) then
        var table := Sort(Expanded(sample));
        assert |multiset(table)| == |multiset(Expanded(sample))|;
        Written(Some(sample), Some(table))
      else Written(Some(sample), None)
  }

  // Properties

  /** A section's sample, when it exists, is four rows of that section at distinct drawn positions. */
  lemma SampleRows(data: seq<Dict>, draws: seq<seq<nat>>, c: nat)
    requires AllSectioned(data) && ValidDraws(data, draws) && c < |draws|
    requires SectionSample(data, draws, c).Some?
    ensures var rows := Rows(data, Sections(data)[c]);
      var sample := SectionSample(data, draws, c).value;
      && |rows| >= SamplesPerSection
      && |sample| == SamplesPerSection
      && (forall k :: 0 <= k < SamplesPerSection ==>
            draws[c][k] < |rows| && sample[k] == rows[draws[c][k]] && SectionOf(sample[k]) == Some(Sections(data)[c]))
      && forall k, l :: 0 <= k < l < SamplesPerSection ==> draws[c][k] != draws[c][l]
  {
  }

  /** Concatenated blocks of `size` records each have `size * m` records in all. */
  lemma {:induction false} ConcatLength(blocks: seq<Option<seq<Dict>>>, m: nat, size: nat)
    requires m <= |blocks| && Sampling.Concat(blocks, m).Some?
    requires forall c :: 0 <= c < m && blocks[c].Some? ==> |blocks[c].value| == size
    ensures |Sampling.Concat(blocks, m).value| == size * m
  {
    if m > 0 {
      ConcatLength(blocks, m - 1, size);
    }
  }

  lemma BlockBound(size: nat, c: nat, k: nat, m: nat)
    requires c < m && k < size
    ensures size * c + k < size * m
  {
    assert size * c + size <= size * m by { assert size * (c + 1) <= size * m; }
  }

  /** Record `k` of block `c` sits at `size * c + k` of the concatenation. */
  lemma {:induction false} ConcatAt(blocks: seq<Option<seq<Dict>>>, m: nat, size: nat, c: nat, k: nat)
    requires m <= |blocks| && Sampling.Concat(blocks, m).Some?
    requires forall c :: 0 <= c < m && blocks[c].Some? ==> |blocks[c].value| == size
    requires c < m && k < size
    ensures blocks[c].Some? && |Sampling.Concat(blocks, m).value| == size * m
    ensures Sampling.Concat(blocks, m).value[size * c + k] == blocks[c].value[k]
  {
    ConcatLength(blocks, m, size);
    ConcatLength(blocks, m - 1, size);
    var done := Sampling.Concat(blocks, m - 1).value;
    assert Sampling.Concat(blocks, m).value == done + blocks[m - 1].value;
    if c < m - 1 {
      ConcatAt(blocks, m - 1, size, c, k);
      assert size * c + k < size * (m - 1) by { BlockBound(size, c, k, m - 1); }
    } else {
      assert size * c + k == |done| + k;
    }
  }

  /**
   * The selection fails exactly when a record has no usable section or a
   * section has fewer than four rows.
   */
  lemma SelectionFails(data: seq<Dict>, draws: seq<seq<nat>>)
    requires ValidDraws(data, draws)
    ensures Selection(data, draws).None? <==>
              !AllSectioned(data) || exists c :: 0 <= c < |draws| && |Rows(data, Sections(data)[c])| < SamplesPerSection
  {
    if AllSectioned(data) {
      var samples := Samples(data, draws, |draws|);
      Sampling.ConcatParts(samples, |draws|);
      assert Selection(data, draws) == Sampling.Concat(samples, |draws|);
      if Selection(data, draws).None? {
        var c :| 0 <= c < |draws| && samples[c].None?;
        SamplesAt(data, draws, |draws|, c);
        assert SectionSample(data, draws, c).None?;
        assert |Rows(data, Sections(data)[c])| < SamplesPerSection;
      }
      if exists c :: 0 <= c < |draws| && |Rows(data, Sections(data)[c])| < SamplesPerSection {
        var c :| 0 <= c < |draws| && |Rows(data, Sections(data)[c])| < SamplesPerSection;
        SamplesAt(data, draws, |draws|, c);
        assert samples[c].None?;
        assert Selection(data, draws).None?;
      }
    }
  }

  /**
   * When it succeeds, the selection holds four rows of every section,
   * section after section: record `4 * c + k` is the row at the `k`-th
   * drawn position among section `c`'s rows, so it belongs to that section,
   * and a section's four draws are distinct.
   */
  lemma SelectionAt(data: seq<Dict>, draws: seq<seq<nat>>, c: nat, k: nat)
    requires ValidDraws(data, draws) && Selection(data, draws).Some?
    requires c < |draws| && k < SamplesPerSection
    ensures AllSectioned(data) && |Selection(data, draws).value| == SamplesPerSection * |Sections(data)|
    ensures |draws[c]| == SamplesPerSection
    ensures var rows := Rows(data, Sections(data)[c]);
      && draws[c][k] < |rows|
      && Selection(data, draws).value[SamplesPerSection * c + k] == rows[draws[c][k]]
      && SectionOf(Selection(data, draws).value[SamplesPerSection * c + k]) == Some(Sections(data)[c])
      && forall l :: 0 <= l < SamplesPerSection && l != k ==> draws[c][k] != draws[c][l]
  {
    var samples := Samples(data, draws, |draws|);
    Sampling.ConcatParts(samples, |draws|);
    forall b | 0 <= b < |draws| && samples[b].Some?
      ensures |samples[b].value| == SamplesPerSection
    {
      SamplesAt(data, draws, |draws|, b);
      SampleRows(data, draws, b);
    }
    ConcatAt(samples, |draws|, SamplesPerSection, c, k);
    SamplesAt(data, draws, |draws|, c);
    SampleRows(data, draws, c);
  }

  /** `<=` on sort keys is transitive. */
  lemma KeyLeTransitive(a: EvalRow, b: EvalRow, c: EvalRow)
    requires !KeyLess(b, a) && !KeyLess(c, b)
    ensures !KeyLess(c, a)
  {
    Text.LessTotal(a.imageId, b.imageId);
    Text.LessTotal(b.imageId, c.imageId);
    if Text.Less(c.imageId, a.imageId) {
      if Text.Less(a.imageId, b.imageId) {
        Text.LessTransitive(c.imageId, a.imageId, b.imageId);
        if Text.Less(b.imageId, c.imageId) {
          Text.LessTransitive(b.imageId, c.imageId, a.imageId);
          Text.LessAsymmetric(a.imageId, b.imageId);
        }
      }
      if a.imageId == b.imageId {
        Text.LessAsymmetric(c.imageId, b.imageId);
      }
    } else if c.imageId == a.imageId && Text.Less(c.variant, a.variant) {
      Text.LessTotal(a.variant, b.variant);
      Text.LessTotal(b.variant, c.variant);
      if a.imageId != b.imageId {
        Text.LessAsymmetric(a.imageId, b.imageId);
      } else if Text.Less(a.variant, b.variant) {
        Text.LessTransitive(c.variant, a.variant, b.variant);
        Text.LessAsymmetric(c.variant, b.variant);
      } else if Text.Less(b.variant, c.variant) {
        Text.LessTransitive(b.variant, c.variant, a.variant);
        Text.LessAsymmetric(b.variant, a.variant);
      }
    }
  }

  /** Strict order on keys is asymmetric. */
  lemma KeyLessAsymmetric(a: EvalRow, b: EvalRow)
    requires KeyLess(a, b)
    ensures !KeyLess(b, a)
  {
    if Text.Less(a.imageId, b.imageId) {
      Text.LessAsymmetric(a.imageId, b.imageId);
    } else {
      Text.LessAsymmetric(a.variant, b.variant);
      Text.LessIrreflexive(a.imageId);
    }
  }

  /** Inserting into a sorted table keeps it sorted. */
  lemma {:induction false} InsertSorted(rows: seq<EvalRow>, x: EvalRow)
    requires Sorted(rows)
    ensures Sorted(Insert(rows, x))
  {
    if rows != [] {
      var n := |rows| - 1;
      var last := rows[n];
      var init := rows[..n];
      assert Sorted(init);
      if KeyLess(x, last) {
        InsertSorted(init, x);
        var ins := Insert(init, x);
        KeyLessAsymmetric(x, last);
        forall i | 0 <= i < |ins|
          ensures !KeyLess(last, ins[i])
        {
          assert ins[i] in multiset(ins);
          assert ins[i] == x || ins[i] in multiset(init);
          if ins[i] != x {
            assert ins[i] in init;
          }
        }
        assert Insert(rows, x) == ins + [last];
        SortedSnoc(ins, last);
      } else {
        forall i | 0 <= i < |rows|
          ensures !KeyLess(x, rows[i])
        {
          if i < n {
            KeyLeTransitive(rows[i], last, x);
          }
        }
        assert Insert(rows, x) == rows + [x];
        SortedSnoc(rows, x);
      }
    }
  }

  /** A row no smaller than every row of a sorted table may follow it. */
  lemma SortedSnoc(rows: seq<EvalRow>, x: EvalRow)
    requires Sorted(rows)
    requires forall i :: 0 <= i < |rows| ==> !KeyLess(x, rows[i])
    ensures Sorted(rows + [x])
  {
    var r := rows + [x];
    forall i, j | 0 <= i < j < |r|
      ensures !KeyLess(r[j], r[i])
    {
      if j < |rows| {
        assert r[i] == rows[i] && r[j] == rows[j];
      }
    }
  }

  /**
   * In the final table an image's `baseline` row comes before its
   * `finetuned` row, since `"baseline" < "finetuned"`.
   */
  lemma BaselineFirst(rows: seq<EvalRow>, i: nat, j: nat)
    requires Sorted(rows) && i < |rows| && j < |rows|
    requires rows[i].imageId == rows[j].imageId
    requires rows[i].variant == Baseline && rows[j].variant == Finetuned
    ensures i < j
  {
    assert Text.Less(Baseline, Finetuned);
  }
}
