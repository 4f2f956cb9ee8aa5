# Alt-text pipeline for news images, modelled in Dafny

This project models the batch scripts of an alt-text pipeline for news images, together with proofs about them:

- **Enrichment** asks a vision model for an alt text for every article image, then for a refinement of it. It writes both texts into the records in place and saves checkpoints as it goes.
- **Judging** asks a judge model to score four generated alt-text variants per record. It stores each verdict in a copied record.
- **Category sampling** groups the raw records by section, caps each group, and adds a cleaned image URL.
- **Merge** joins the no-context predictions into the with-context records on `image_id`.
- **Pairwise preparation** draws four records per section and turns each into a `baseline` row and a `finetuned` row. It sorts those rows for a manual rating app.
- **HTML preview** builds a review page with one navigation link and one block of cards per section.
- **Analysis** loads the judged records from a JSON array or a JSON-lines file. It computes the mean score per variant and criterion, the same per section, and the flat per-section score rows.

Records are JSON objects whose keys keep insertion order, modelled as a sequence of key/value pairs.

- `d.get`, `d[k] = v`, Python truthiness, hashability and the dict-key identity of `True`, `1` and `1.0` are written out in module `Json`.
- The Python string operations the scripts use are defined in `Text`: `strip`, `split("?", 1)[0]`, `replace`, `lower`, `capitalize`, `sorted(set(...))` and string order.

Everything outside the program is an oracle given as a parameter:

- every model reply, as `None` for a call that raised or `Some(reply)`;
- every random draw, as the positions the draw returns, required to be distinct and in range;
- `json.loads`, as a function from text to an optional JSON value.

An operation that raises returns `None`, or a flag that the run stopped. The files the scripts write are returned as sequences of saved record lists.

The scripts that update state step by step are modelled imperatively:

- The enrichment loop updates an `array` of records in place.
- The merge loop updates the with-context `array` in place.
- The judging loop, the grouping and sampling loops, the preview's string building and the analysis loops are methods with loops.

Each of these methods is proved equal to a specification function. The properties are then proved about that function.

Behaviour of the code worth noting:

- Skipped text: the judging script sets `judging_<variant>` to `None` when a variant's text is absent. It does not leave the key unset.
- Aborting: a run that aborts does not make a final save. The judging script re-raises, and the enrichment script has no handler.
- Failures escaping: a truthy judge verdict that is not a dict holding `entity_naming` makes the log line raise outside the `try`. So a per-call result can still end the run.
- Checkpoint positions: checkpoints are taken at input positions that are multiples of 25, and only when the record there was not skipped. They are not taken every 25 processed records.
- Writes: files are written with a plain `open(..., "w")`, with no write-then-rename.

## Model

| member | source | states |
|---|---|---|
| Enrich.GenerateAltText | data-preperation/scripts/enrich_alttext_openai.py:67-76 | generation gives no text exactly when the call raised; otherwise exactly the reply stripped: the reply less whitespace runs at both edges, with no whitespace left at either edge, and empty only when the reply was all whitespace |
| Enrich.RefineAltText | data-preperation/scripts/enrich_alttext_openai.py:103-112 | a refinement that raised falls back to the unrefined text; otherwise the result is exactly the reply stripped, with no whitespace left at either edge |
| Enrich.RefinementMentionsInOrder | data-preperation/scripts/enrich_alttext_openai.py:78-102 | the refinement request names headline, abstract, caption and the initial alt text in that order, and carries the record's image URL |
| Enrich.RefineRequestInOrder | data-preperation/scripts/enrich_alttext_openai.py:78-138 | for a written record the second call of the run is the refinement of that record, and its request names headline, abstract, caption and the stripped initial text in that order, with the record's image URL |
| Enrich.Process | data-preperation/scripts/enrich_alttext_openai.py:122-138 | a record is skipped exactly when it is a dict with a falsy `image_url_clean`, and crashes the run exactly when it is not a dict (`item.get` raises) or has an image and a headline that `[:60]` cannot slice |
| Enrich.Stop | data-preperation/scripts/enrich_alttext_openai.py:122-132 | the run ends at the first crashing record: none before it crashes |
| Enrich.Step | data-preperation/scripts/enrich_alttext_openai.py:123-149 | one loop pass replaces record `i` in place by its outcome, reports the model calls it made, and saves `data[:i+1]` exactly when `i+1` is a multiple of 25 and the record was written |
| Enrich.Run | data-preperation/scripts/enrich_alttext_openai.py:114-152 | the main loop leaves every record reached updated by its outcome and the rest untouched; it reports all calls, saves the checkpoints, and makes the final save only when no record crashed |
| Enrich.Enriched | data-preperation/scripts/enrich_alttext_openai.py:122-151 | the final list has the input's length and order; record `j` is the input record after its outcome when the loop reached it, and unchanged otherwise |
| Enrich.ApplyKeepsOtherFields | data-preperation/scripts/enrich_alttext_openai.py:141-142 | writing an outcome leaves a non-dict as it is, and on a dict touches only the two alt-text keys and keeps the record's keys in order |
| Enrich.OnlyAltTextFieldsWritten | data-preperation/scripts/enrich_alttext_openai.py:141-142 | every field other than `openai_alt_text_initial`/`openai_alt_text_refined` of every output record is the input's |
| Enrich.CallTraceAt | data-preperation/scripts/enrich_alttext_openai.py:134-138 | the calls for position `j` in the run's trace are exactly those the loop body made for record `j`, and none for records not reached |
| Enrich.SkippedRecordUntouched | data-preperation/scripts/enrich_alttext_openai.py:126-130 | a record with a missing, null or empty image URL is left unchanged and no model call is made for it |
| Enrich.GenerationFailureLeavesRecord | data-preperation/scripts/enrich_alttext_openai.py:134-136 | when generation raises or returns only whitespace, the record gains neither alt-text field and only the generation call is made |
| Enrich.WrittenRecord | data-preperation/scripts/enrich_alttext_openai.py:134-142 | when generation returns text, the initial field is the stripped reply; the refined field is the stripped refinement, or exactly the initial field when refinement raised; generate then refine were called |
| Enrich.StopsAtCrash | data-preperation/scripts/enrich_alttext_openai.py:122-132 | the run stops at a record only when that record is not a dict, or has an image and an unsliceable headline |
| Enrich.CheckpointPositionsExact | data-preperation/scripts/enrich_alttext_openai.py:128-149 | a checkpoint follows 1-based position `p` if and only if `p` is a multiple of 25 and record `p` was written |
| Enrich.CheckpointsArePrefixes | data-preperation/scripts/enrich_alttext_openai.py:147-149 | the checkpoint after position `p` holds exactly the first `p` records of the final list |
| Judge.JudgingKeysDistinct | evaluation/scripts/vlm_judge.py:21-26 | the four variants' `judging_<key>` fields are pairwise different |
| Judge.JudgeAltText | evaluation/scripts/vlm_judge.py:47-118 | no call when the variant's text is falsy; a raise when the request fields `image_url_clean`, `headline`, `abstract`, `caption` are missing; otherwise the model's parsed reply |
| Judge.Returned | evaluation/scripts/vlm_judge.py:49-118 | the value returned is `None` for an absent text or a failed call, and the parsed verdict otherwise |
| Judge.JudgeEntry | evaluation/scripts/vlm_judge.py:136-140 | the inner loop over the variants computes the copied record, the calls and the raise flag of the specification |
| Judge.JudgedValues | evaluation/scripts/vlm_judge.py:137-139 | a record that did not raise holds, under each variant's judging field, what `judge_alt_text` returned for it |
| Judge.JudgedOtherFields | evaluation/scripts/vlm_judge.py:136-139 | every field other than the judging fields is the input record's |
| Judge.JudgedKeyOrder | evaluation/scripts/vlm_judge.py:136-139 | without prior judging fields, the copy's keys are the input's keys followed by the four judging keys in table order |
| Judge.JudgedCalls | evaluation/scripts/vlm_judge.py:137-138 | the judge is called for a variant if and only if its text is present and the request can be built; every call is about this record |
| Judge.RaisesIff | evaluation/scripts/vlm_judge.py:137-140 | a record raises if and only if one of its variants cannot build its request or returns a truthy verdict without `entity_naming` |
| Judge.FailedCallIsNone | evaluation/scripts/vlm_judge.py:116-118 | a failed call yields `None` for that variant and does not stop the other variants |
| Judge.VerdictWithoutEntityNamingRaises | evaluation/scripts/vlm_judge.py:140 | the log line raises if and only if the verdict is truthy and not a dict holding `entity_naming`: a non-empty dict without it, or any truthy non-dict value |
| Judge.Process | evaluation/scripts/vlm_judge.py:127-142 | a record is dropped exactly when it is not a dict, and raises exactly when one of its variants does |
| Judge.Stop | evaluation/scripts/vlm_judge.py:127-154 | the run ends at the first record that raises: none before it does |
| Judge.Run | evaluation/scripts/vlm_judge.py:120-154 | the main loop returns the judged copies in input order, every call made (including those of a raising record), the periodic saves, and the final save only when no record raised |
| Judge.ResultsInOrder | evaluation/scripts/vlm_judge.py:127-142 | non-dict records are dropped and the rest keep input order: record `j`'s copy sits at the count of judged records before it |
| Judge.JudgedCountBound | evaluation/scripts/vlm_judge.py:127-130 | the results hold at most as many records as were read, and as many only when every record was a dict |
| Judge.JudgedRecord | evaluation/scripts/vlm_judge.py:136-142 | a dict record reached by the run is judged: each variant's verdict under its judging field, its other fields kept, judging keys appended in order, one call per variant with text |
| Judge.StopsAtRaise | evaluation/scripts/vlm_judge.py:137-154 | the run stops at a record only when it is a dict with a raising variant, and no earlier dict record has one |
| Judge.CheckpointPositionsExact | evaluation/scripts/vlm_judge.py:127-147 | a save follows input position `p` if and only if `p` is a multiple of 25 and the record there was a judged dict |
| Judge.CheckpointsArePrefixes | evaluation/scripts/vlm_judge.py:144-147 | the save after position `p` holds one copy per judged record up to `p`, fewer than `p` when some were skipped, and is a prefix of the final results |
| Judge.ResultsPrefix | evaluation/scripts/vlm_judge.py:142 | results only grow: the results after `p` records are a prefix of the results after any later count |
| Sampling.SampleByCategory | data-preperation/scripts/sample_by_category.py:6-60 | the sampling function computes the specification's output, or `None` when it raises, as it does on a record that is not a dict |
| Sampling.GroupRecords | data-preperation/scripts/sample_by_category.py:39-42 | grouping succeeds if and only if every record is a dict with a hashable category, and then yields the categories in first-appearance order with each category's records in input order |
| Sampling.SampleGroup | data-preperation/scripts/sample_by_category.py:48-55 | one category's block is its selection, each record copied and cleaned, or `None` when that raises |
| Sampling.CleanEach | data-preperation/scripts/sample_by_category.py:50-55 | the inner loop cleans every selected record in order, failing at the first that raises |
| Sampling.CategoriesDistinct | data-preperation/scripts/sample_by_category.py:39-47 | each category key appears once among the categories |
| Sampling.MissingCategoryIsUnknown | data-preperation/scripts/sample_by_category.py:41 | a record without the category field is filed under `"UNKNOWN"`; one with it under its stored value |
| Sampling.CleanEntry | data-preperation/scripts/sample_by_category.py:51-54 | `image_url_clean` is the image URL up to its first `?`: no `?` in it, the whole URL without one, `""` without an image; all other fields and the key order are kept; only a non-string image raises |
| Sampling.CleanAllAt | data-preperation/scripts/sample_by_category.py:50-55 | cleaning a selection raises exactly when cleaning one of its records does, and otherwise cleans each record in place |
| Sampling.BlockContents | data-preperation/scripts/sample_by_category.py:47-55 | each category contributes `min(len(items), max_per_category)` records: the whole group in input order when small enough, else the records at distinct drawn positions |
| Sampling.SampledShape | data-preperation/scripts/sample_by_category.py:39-60 | the output exists if and only if every category is hashable and every block exists; its length is the sum of the blocks, each of `min(len(items), max_per_category)` records |
| Sampling.GroupMembers | data-preperation/scripts/sample_by_category.py:39-42 | a record is in the group of a key if and only if it is in the data and its own key is that key |
| Sampling.CategoriesCover | data-preperation/scripts/sample_by_category.py:39-42 | a key is a category if and only if some record has it |
| Sampling.FirstAppearanceOrder | data-preperation/scripts/sample_by_category.py:39-47 | a category listed before another first occurs earlier in the input |
| Merge.MergeNoContext | evaluation/scripts/merge_data.py:11-19 | the merge updates the with-context list in place: a failing index changes nothing; otherwise every entry before the first failing one is merged and the rest are untouched; same count and order |
| Merge.MergeOne | evaluation/scripts/merge_data.py:15-19 | one loop pass computes the entry's merge: it raises without a usable `image_id`, leaves an unmatched entry as it is, and gives a matched one both no-context fields |
| Merge.Index | evaluation/scripts/merge_data.py:11 | a successful index holds every no-context entry's id |
| Merge.IndexFails | evaluation/scripts/merge_data.py:11 | building the id index raises if and only if some no-context entry is not a dict, lacks `image_id` or has an unhashable one |
| Merge.IndexLastWins | evaluation/scripts/merge_data.py:11 | the index holds exactly the ids of the no-context entries, and under each id the last entry carrying it |
| Merge.MergeEntry | evaluation/scripts/merge_data.py:14-19 | an entry raises exactly when it lacks a usable `image_id`; an unmatched entry is unchanged; a matched one gains both no-context fields (`""` when the match lacks the prediction) and keeps every other field and its key order |
| Pairwise.SelectEntries | evaluation/manual_eval_app/prepare_manual_eval_set.py:17-22 | the per-section loop computes the specification's selection, or `None` when it raises |
| Pairwise.SampleSection | evaluation/manual_eval_app/prepare_manual_eval_set.py:20-22 | one loop pass samples four rows of its section, or raises |
| Pairwise.SampleRows | evaluation/manual_eval_app/prepare_manual_eval_set.py:19-22 | a section's sample is four rows of that section at distinct drawn positions |
| Pairwise.SelectionFails | evaluation/manual_eval_app/prepare_manual_eval_set.py:19-22 | the selection raises if and only if a record has no usable section or some section has fewer than four rows |
| Pairwise.SelectionAt | evaluation/manual_eval_app/prepare_manual_eval_set.py:16-22 | a successful selection holds exactly four rows per section, section after section, each belonging to its section, at distinct positions |
| Pairwise.Expanded | evaluation/manual_eval_app/prepare_manual_eval_set.py:44-53 | the concatenated table has twice the sample's rows: a `baseline` copy of each row with the baseline prediction, then a `finetuned` copy with the fine-tuned one, both agreeing with the sample row on every other column |
| Pairwise.Sort | evaluation/manual_eval_app/prepare_manual_eval_set.py:54 | the sort returns a permutation of its input ordered by `(image_id, model_variant)` |
| Pairwise.BaselineFirst | evaluation/manual_eval_app/prepare_manual_eval_set.py:52-54 | in the sorted table an image's `baseline` row precedes its `finetuned` row |
| Pairwise.Prepare | evaluation/manual_eval_app/prepare_manual_eval_set.py:16-66 | the sample table is written if and only if the selection succeeds and every column exists, holding the nine columns of each selected record in order; the pairwise table only after it, exactly when every image id is a string, sorted, a permutation of the two copies of the sample, twice its rows |
| Preview.GenerateHtml | data-preperation/scripts/generate_html_preview.py:14-133 | building the page by appending computes the specification's page, or `None` when it raises, as it does on an entry that is not a dict |
| Preview.RenderNav | data-preperation/scripts/generate_html_preview.py:74-76 | the navigation loop emits one link per section, in order |
| Preview.GroupEntries | data-preperation/scripts/generate_html_preview.py:85-88 | the grouping loop files every entry under its section, in input order; an unfiled section reads as empty |
| Preview.RenderBody | data-preperation/scripts/generate_html_preview.py:90-126 | the section loop emits each section's block in navigation order |
| Preview.RenderSection | data-preperation/scripts/generate_html_preview.py:91-126 | one section's block is its header, one card per entry in order, and the closing tags, or `None` when a card raises |
| Preview.UnknownSectionDefault | data-preperation/scripts/generate_html_preview.py:87 | an entry without `section` belongs to `"Unknown Section"`; one with it to its stored value |
| Preview.NavListsSections | data-preperation/scripts/generate_html_preview.py:73-76 | the navigation lists each distinct section exactly once, strictly sorted |
| Preview.Slug | data-preperation/scripts/generate_html_preview.py:75 | the slug has the name's length, maps space to `-` and lower-cases each character, and contains no space |
| Preview.SlugShared | data-preperation/scripts/generate_html_preview.py:75-92 | the navigation link and the section block carry the same slug |
| Preview.CardClass | data-preperation/scripts/generate_html_preview.py:103-110 | the class is `short`/`long` if and only if the lower-cased `sample_type` is that word and empty otherwise; a missing type is `random`; only a non-string type raises |
| Preview.CardDefaults | data-preperation/scripts/generate_html_preview.py:96-102 | missing alt texts show as a dash, a missing title as "No Title", a missing URL as `#`; present values are shown as they are |
| Preview.CardOf | data-preperation/scripts/generate_html_preview.py:96-110 | a card raises exactly when `sample_type` is present and not a string |
| Preview.CardShowsValues | data-preperation/scripts/generate_html_preview.py:112-124 | a card contains its class and values verbatim, unescaped, in page order |
| Preview.EveryEntryOnce | data-preperation/scripts/generate_html_preview.py:85-95 | the sections' entry lists, taken in navigation order, are a rearrangement of the data: every entry is rendered exactly once |
| Analysis.Load | evaluation/scripts/analyze_llm_judging.py:35-44 | the loader computes the specification's records from the text as read in text mode: one JSON array when the first character is `[`, otherwise the non-blank lines |
| Analysis.Universal | evaluation/scripts/analyze_llm_judging.py:35 | reading in text mode leaves no carriage return, changes a text without one not at all, and keeps the first character unless it is a carriage return |
| Analysis.UniversalEndings | evaluation/scripts/analyze_llm_judging.py:35 | in text mode a lone carriage return and a `\r\n` pair each read as one `\n`, and every other character reads as itself |
| Analysis.UniversalAppend | evaluation/scripts/analyze_llm_judging.py:35 | text mode translates a text piece by piece, wherever it is cut except inside a `\r\n` pair, so together with `Analysis.UniversalEndings` it fixes the reading of every text |
| Analysis.LoneReturnEndsLine | evaluation/scripts/analyze_llm_judging.py:35-41 | a lone carriage return ends a line: `"a\rb"` is read as the two lines `a` and `b` |
| Analysis.ReadLines | evaluation/scripts/analyze_llm_judging.py:41-44 | the line loop appends the decoded stripped non-blank lines, failing at the first that does not decode |
| Analysis.ReadStep | evaluation/scripts/analyze_llm_judging.py:41-44 | one more line: a blank line adds nothing, a line that decodes adds its record, and one that does not makes the whole file fail |
| Analysis.LinesRoundTrip | evaluation/scripts/analyze_llm_judging.py:41 | cutting the file at its line breaks and joining again gives the file back, and no piece holds a break |
| Analysis.UnlinesRoundTrip | evaluation/scripts/analyze_llm_judging.py:41 | joining break-free lines and cutting again gives the lines back |
| Analysis.RecordsAreLines | evaluation/scripts/analyze_llm_judging.py:41-44 | the line path decodes exactly the non-blank stripped lines, in order |
| Analysis.RecordsDecode | evaluation/scripts/analyze_llm_judging.py:41-44 | the line path succeeds if and only if every non-blank stripped line decodes, giving one record per such line |
| Analysis.LoadedLines | evaluation/scripts/analyze_llm_judging.py:35-44 | a file not starting with `[` loads if and only if every non-blank stripped line of its text-mode reading decodes, one record per line |
| Analysis.Mean | evaluation/scripts/analyze_llm_judging.py:58 | the mean exists if and only if something was collected |
| Analysis.MeanBounds | evaluation/scripts/analyze_llm_judging.py:58 | a mean lies between any bounds of the values averaged |
| Analysis.ValuesFail | evaluation/scripts/analyze_llm_judging.py:51-57 | collecting raises if and only if some record is not a dict or has a truthy verdict that is not a dict |
| Analysis.ValuesAppend | evaluation/scripts/analyze_llm_judging.py:51-57 | collecting over two runs of records is collecting over each and joining the lists |
| Analysis.SkippedRecord | evaluation/scripts/analyze_llm_judging.py:52-53 | a record whose verdict is missing or falsy contributes nothing, wherever it stands |
| Analysis.AddedNothing | evaluation/scripts/analyze_llm_judging.py:53 | a skipped verdict leaves every criterion's list as it was |
| Analysis.MetricsAreValues | evaluation/scripts/analyze_llm_judging.py:50-57 | the dict of lists holds, under each criterion, that criterion's numeric values collected on its own |
| Analysis.MetricsFailIff | evaluation/scripts/analyze_llm_judging.py:51-57 | a variant's loop raises if and only if some record makes its `.get` raise |
| Analysis.ModelMeans | evaluation/scripts/analyze_llm_judging.py:47-61 | the model means raise if and only if some record makes a variant's loop raise; otherwise one row per variant in table order, labelled, with each criterion's exact mean or `None` |
| Analysis.CollectVariant | evaluation/scripts/analyze_llm_judging.py:50-57 | the record loop for one variant fills the lists of the specification |
| Analysis.AddScores | evaluation/scripts/analyze_llm_judging.py:54-57 | the criterion loop appends each numeric score to its criterion's list |
| Analysis.SectionMeans | evaluation/scripts/analyze_llm_judging.py:64-85 | the per-section means compute the specification's table, variant after variant |
| Analysis.CollectSections | evaluation/scripts/analyze_llm_judging.py:67-77 | the record loop for one variant fills the per-section lists of the specification |
| Analysis.Deposit | evaluation/scripts/analyze_llm_judging.py:72-77 | a truthy verdict opens its section's lists when new, then adds its scores |
| Analysis.EmitSections | evaluation/scripts/analyze_llm_judging.py:79-83 | one row per section in insertion order, with that section's means |
| Analysis.ListsForDeposited | evaluation/scripts/analyze_llm_judging.py:72-77 | adding a verdict changes only its own section's lists, by that verdict's scores |
| Analysis.BucketsAreGroups | evaluation/scripts/analyze_llm_judging.py:68-77 | each section's lists are exactly what the model-means loop collects on that section's records alone |
| Analysis.BucketsDistinct | evaluation/scripts/analyze_llm_judging.py:72-73 | no two sections in the table are the same dict key |
| Analysis.BucketsCover | evaluation/scripts/analyze_llm_judging.py:69-73 | a section has lists if and only if some record in it has a truthy verdict |
| Analysis.SectionRowReports | evaluation/scripts/analyze_llm_judging.py:79-83 | each per-section row reports its variant's means over that section's records |
| Analysis.BuildSectionData | evaluation/scripts/analyze_llm_judging.py:91-100 | the row-builder loop computes the specification's rows, or `None` when it raises |
| Analysis.EntryRows | evaluation/scripts/analyze_llm_judging.py:93-100 | one record's rows: one per variant with a truthy verdict |
| Analysis.PickScores | evaluation/scripts/analyze_llm_judging.py:98-99 | a row holds `judge.get(crit)` for every criterion, in order |
| Analysis.RowsOfFails | evaluation/scripts/analyze_llm_judging.py:94-96 | a record's rows raise if and only if it is not a dict or one of its truthy verdicts is not a dict |
| Analysis.RowsOfShape | evaluation/scripts/analyze_llm_judging.py:93-100 | one row per counted variant in variant order, under the record's section (default `"Unknown"`), with the model name and every criterion's value |
| Analysis.SectionDataFails | evaluation/scripts/analyze_llm_judging.py:91-100 | building the rows raises if and only if the model means raise |
| Analysis.SectionDataCount | evaluation/scripts/analyze_llm_judging.py:91-100 | there is exactly one row per (record, variant) pair with a truthy verdict |
| Text.StripEdges | data-preperation/scripts/enrich_alttext_openai.py:73 | `strip` leaves no whitespace at either edge, and gives `""` only for an all-whitespace string |
| Text.StripOf | data-preperation/scripts/enrich_alttext_openai.py:73 | `strip` of whitespace, a core without edge whitespace, and whitespace is that core |
| Text.StripIff | data-preperation/scripts/enrich_alttext_openai.py:73 | `strip` gives `t` exactly when `t` has no whitespace at either edge and the string is `t` with whitespace runs added at both ends |
| Text.BeforeFirst | data-preperation/scripts/sample_by_category.py:53 | `split("?", 1)[0]` is the prefix before the first `?`, without `?`, and the whole string when there is none |
| Text.SortedSet | data-preperation/scripts/generate_html_preview.py:73 | `sorted(set(xs))` is strictly sorted and holds exactly the elements of `xs` |
| Text.StrictlySortedUnique | data-preperation/scripts/generate_html_preview.py:73 | a strictly sorted list is determined by its elements |
| Text.Capitalize | data-preperation/scripts/generate_html_preview.py:122 | the first letter is upper-cased and the rest lower-cased, length kept |
| Json.Set | data-preperation/scripts/enrich_alttext_openai.py:141-142 | `d[k] = v` stores `v` under `k`, keeps every other key's value, and keeps an existing key's position or appends a new key |
| Json.Lookup | data-preperation/scripts/sample_by_category.py:41 | `d.get(k, default)` returns the stored value, even `null`, and the default only when the key is missing |

## Left out

- File I/O, `json.dump`, logging, `dotenv`, the OpenAI client and the prompts' file loading are not modelled. The saves are returned as the record lists written. A `print` or log line is modelled only where evaluating it can raise (`headline[:60]`, `result['entity_naming']`).
- The model calls are oracles. Prompt wording, token limits and temperature are not modelled.
  - The enrichment request text is built from the record's fields, so the order of fields in it can be stated. The fixed prompt text is a parameter.
  - The judge's rubric text is not modelled; the request is identified by record and variant.
- Randomness is not modelled: `random.sample` and `df.sample(random_state=42)` are draws of distinct positions supplied from outside. The seeded generator is not modelled.
- JSON decoding is an oracle (`parse`). Float values are exact reals, and float rendering, NaN and rounding are not modelled.
  - `Json.Show`: an f-string of a float, a list or a dict gives a fixed stand-in text, not Python's `repr`.
  - Analysis.Mean: the exact rational mean, not `statistics.mean`'s float result.
- `Text.Lower`, `Text.Capitalize`: only ASCII letters change case. Python's Unicode case mapping is not modelled.
- The judging loader goes through the `datasets` library, which is not modelled. The judging run takes the loaded records as JSON values.
- The merge script's line-by-line `json.loads` is not modelled; `MergeNoContext` takes the decoded lines. The JSON-lines output it writes is the updated list.
- Pairwise preparation works on decoded records, not a DataFrame.
  - A missing column cell is `None` in the row, where pandas writes NaN.
  - Pairwise.Prepare: an `image_id` that is not a string is reported as a failure to build the pairwise table. pandas would sort mixed-type ids or raise, depending on the types.
  - The CSV writing and its column order are the `SampleColumns` and `EvalRow` fields.
- Preview: the page's style rules (the body of its `<style>` element) are left out, as they carry no values. The rest of the fixed text and the card markup are as in the source.
- Preview.RenderSection: the section's header, cards and closing tags are joined after the card loop, not appended to the page string one by one. The resulting text is the same.
- Analysis: the file is read in text mode, as `Analysis.Universal`: each `"\r\n"` and each lone `'\r'` becomes `'\n'`, and both the array path and the line path see that text. The lines are then cut at `'\n'`. Python's `for line in f` keeps the line ending, but `strip()` removes it and blank lines are skipped, so the records are the same.
- Analysis: the pandas pivot, the re-ordering of its columns, and the CSV and markdown output are not modelled (evaluation/scripts/analyze_llm_judging.py:103-138). `section_data` itself is modelled.
- Analysis.SectionMeans: `calculate_section_means` is never called by the script. It is modelled because it is part of the module.
- Analysis: a `bool` score counts as a number, since `isinstance(True, int)` holds; it is collected as 1 or 0.
- The Streamlit rating apps (`app.py`, `app_detail.py`) are not part of this model. Nor are the rating metrics (`manual_eval_metrics.py`), the dataset statistics (`final_dataset_analyzis.py`), the dataset split and the dataset upload scripts. They are UI, SQL, plotting or library calls.
