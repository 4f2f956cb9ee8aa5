/**
 * Aggregation of the judge's verdicts.  The judged records are loaded from
 * a file that holds either one JSON array or one record per line.  For each
 * of four model variants, every numeric criterion score is collected from
 * the records whose judging field for that variant is truthy.  The exact
 * arithmetic mean is then reported per criterion, overall and per section,
 * with `None` for a criterion that collected nothing.  A flat table of
 * (section, variant, raw scores) rows is also built, one row per record and
 * judged variant.
 *
 * `parse` stands for `json.loads`; its `None` is a decoding error.  Every
 * `None` result is an exception that ends the script: a record that is not
 * a dict, a truthy judging value that is not a dict, or (for the section
 * means) a section that cannot be a dict key.
 */
module Analysis {
  import opened Wrappers
  import opened Json
  import Text

  /** One model variant: the name it is reported under and the record field holding its verdict. */
  datatype Variant = Variant(name: string, field: string)

  const Variants: seq<Variant> := [
    Variant("Baseline_no_context", "judging_generated_baseline_no_context"),
    Variant("Baseline_with_context", "judging_generated_baseline"),
    Variant("Finetuned_no_context", "judging_generated_finetuned_no_context"),
    Variant("Finetuned_with_context", "judging_generated_finetuned")
  ]

  const Criteria: seq<string> := [
    "visibility_principle", "context_relevance", "entity_naming", "informativeness",
    "redundancy_avoidance", "style_readability", "total"
  ]

  const SectionKey := "section"
  const UnknownSection := JStr("Unknown")

  // Loading

  /**
   * The text as a file opened in text mode reads it: each `\r\n` pair and
   * each lone `\r` becomes one `\n` (universal newlines).
   */
  function Universal(t: string): (r: string)
    ensures '\r' !in r
    ensures '\r' !in t ==> r == t
    ensures |r| <= |t|
    ensures |t| > 0 ==> |r| > 0 && r[0] == if t[0] == '\r' then '\n' else t[0]
  {
    if t == [] then []
    else if t[0] == '\r' then "\n" + Universal(if |t| > 1 && t[1] == '\n' then t[2..] else t[1..])
    else [t[0]] + Universal(t[1..])
  }

  /** Text mode turns each line ending into one `\n` and leaves every other character as it is. */
  lemma UniversalEndings()
    ensures Universal("\r") == "\n" && Universal("\r\n") == "\n"
    ensures forall c :: c != '\r' ==> Universal([c]) == [c]
  {
  }

  /**
   * Text mode translates a text piece by piece, wherever it is cut except
   * between the two characters of a `\r\n` pair.  With the endings above,
   * this determines the translation of every text.
   */
  lemma {:induction false} UniversalAppend(a: string, b: string)
    requires a == [] || b == [] || a[|a| - 1] != '\r' || b[0] != '\n'
    ensures Universal(a + b) == Universal(a) + Universal(b)
    decreases |a|
  {
    var ab := a + b;
    if a == [] {
      assert ab == b;
    } else {
      assert ab[0] == a[0];
      var k := if a[0] == '\r' && |a| > 1 && a[1] == '\n' then 2 else 1;
      var head := if a[0] == '\r' then "\n" else [a[0]];
      assert ab[1..] == a[1..] + b;
      if k == 2 {
        assert ab[2..] == a[2..] + b;
      } else if a[0] == '\r' && |a| == 1 && b != [] {
        assert ab[1] == b[0];
      }
      assert Universal(ab) == head + Universal(ab[k..]);
      assert Universal(a) == head + Universal(a[k..]);
      assert ab[k..] == a[k..] + b;
      UniversalAppend(a[k..], b);
      Text.Assoc(head, Universal(a[k..]), Universal(b));
    }
  }

  /** A lone `\r` ends a line as `\n` does: `"a\rb"` is read as two lines. */
  lemma LoneReturnEndsLine()
    ensures Lines(Universal("a\rb")) == ["a", "b"]
  {
    UniversalAppend("a", "\rb");
    UniversalAppend("\r", "b");
    UniversalEndings();
    assert "a" + "\rb" == "a\rb" && "\r" + "b" == "\rb";
    assert Universal("a\rb") == "a\nb";
    assert Lines("b") == ["b"];
    assert Lines("\nb") == [""] + Lines("b");
  }

  /** The text cut at its line breaks, the breaks removed: `n` breaks give `n + 1` pieces. */
  function Lines(t: string): (r: seq<string>)
    ensures |r| >= 1
  {
    if t == [] then [""]
    else
      var rest := Lines(t[1..]);
      if t[0] == '\n' then [""] + rest else [[t[0]] + rest[0]] + rest[1..]
  }

  /** The pieces joined again with line breaks. */
  function Unlines(ls: seq<string>): string
    requires |ls| >= 1
  {
    if |ls| == 1 then ls[0] else ls[0] + "\n" + Unlines(ls[1..])
  }

  /** The stripped lines that are not blank, in file order. */
  function NonBlank(lines: seq<string>): (r: seq<string>)
    ensures |r| <= |lines|
    ensures forall k :: 0 <= k < |r| ==> r[k] != []
  {
    if lines == [] then []
    else
      var line := Text.Strip(lines[|lines| - 1]);
      NonBlank(lines[..|lines| - 1]) + (if line == [] then [] else [line])
  }

  /**
   * The records of the file, read in text mode: the whole text is one JSON
   * array when its first character is `[`, and otherwise each non-blank
   * line, stripped, is one record.  A text starting with `[` can only
   * decode to an array.
   */
  function Loaded(t: string, parse: string -> Option<Json>): Option<seq<Json>>
  {
    var u := Universal(t);
    if |u| > 0 && u[0] == '[' then
      match parse(u)
      case Some(JArray(items)) => Some(items)
      case _ => None
    else Records(Lines(u), parse)
  }

  /** The records of the lines read so far; `None` when `json.loads` raises on one. */
  function Records(lines: seq<string>, parse: string -> Option<Json>): Option<seq<Json>>
  {
    if lines == [] then Some([])
    else RecordStep(Records(lines[..|lines| - 1], parse), Text.Strip(lines[|lines| - 1]), parse)
  }

  /** One pass of the line loop over the stripped `line`: a blank line adds nothing. */
  function RecordStep(done: Option<seq<Json>>, line: string, parse: string -> Option<Json>): Option<seq<Json>>
  {
    if done.None? then None
    else if line == [] then done
    else match parse(line)
      case Some(j) => Some(done.value + [j])
      case None => None
  }

  /** The loader: the records are appended line by line. */
  method Load(t: string, parse: string -> Option<Json>) returns (data: Option<seq<Json>>)
    ensures data == Loaded(t, parse)
  {
    var u := Universal(t);
    if |u| > 0 && u[0] == '[' {
      var doc := parse(u);
      if doc.Some? && doc.value.JArray? {
        return Some(doc.value.items);
      }
      return None;
    }
    data := ReadLines(Lines(u), parse);
  }

  /** The loop over the lines of a line-per-record file. */
  method ReadLines(lines: seq<string>, parse: string -> Option<Json>) returns (data: Option<seq<Json>>)
    ensures data == Records(lines, parse)
  {
    var records := [];
    for i := 0 to |lines|
      invariant Records(lines[..i], parse) == Some(records)
    {
      ReadStep(lines, parse, i, records);
      var line := Text.Strip(lines[i]);
      if line != [] {
        var j := parse(line);
        if j.None? {
          return None;
        }
        records := records + [j.value];
      }
    }
    assert lines[..|lines|] == lines;
    return Some(records);
  }

  /**
   * One more line: a blank one adds nothing, one that decodes adds its
   * record, and one that does not makes the whole file fail.
   */
  lemma ReadStep(lines: seq<string>, parse: string -> Option<Json>, i: nat, records: seq<Json>)
    requires i < |lines| && Records(lines[..i], parse) == Some(records)
    ensures var line := Text.Strip(lines[i]);
            && (line == [] ==> Records(lines[..i + 1], parse) == Some(records))
            && (line != [] && parse(line).None? ==> Records(lines, parse).None?)
            && (line != [] && parse(line).Some? ==> Records(lines[..i + 1], parse) == Some(records + [parse(line).value]))
  {
    assert lines[..i + 1][..i] == lines[..i];
    assert Records(lines[..i + 1], parse) == RecordStep(Some(records), Text.Strip(lines[i]), parse);
    if Records(lines[..i + 1], parse).None? {
      RecordsFail(lines, parse, i + 1);
    }
  }

  /** Once a line fails to decode, the whole file does. */
  lemma {:induction false} RecordsFail(lines: seq<string>, parse: string -> Option<Json>, s: nat)
    requires 0 < s <= |lines| && Records(lines[..s], parse).None?
    ensures Records(lines, parse).None?
    decreases |lines| - s
  {
    if s < |lines| {
      assert lines[..s + 1][..s] == lines[..s];
      assert Records(lines[..s + 1], parse) == RecordStep(Records(lines[..s], parse), Text.Strip(lines[s]), parse);
      RecordsFail(lines, parse, s + 1);
    } else {
      assert lines[..s] == lines;
    }
  }

  // Properties of loading

  /** Cutting at line breaks and joining again gives the text back, and no piece holds a break. */
  lemma {:induction false} LinesRoundTrip(t: string)
    ensures Unlines(Lines(t)) == t
    ensures forall k :: 0 <= k < |Lines(t)| ==> '\n' !in Lines(t)[k]
  {
    LinesNoBreak(t);
    if t != [] {
      LinesRoundTrip(t[1..]);
      var rest := Lines(t[1..]);
      if t[0] == '\n' {
        var ls := [""] + rest;
        assert Lines(t) == ls;
        assert ls[0] == "" && ls[1..] == rest;
        assert Unlines(ls) == "" + "\n" + Unlines(rest);
      } else {
        assert Lines(t) == [[t[0]] + rest[0]] + rest[1..];
        UnlinesCons(t[0], rest);
        assert t == [t[0]] + t[1..];
      }
    }
  }

  lemma {:induction false} LinesNoBreak(t: string)
    ensures forall k :: 0 <= k < |Lines(t)| ==> '\n' !in Lines(t)[k]
  {
    if t != [] {
      LinesNoBreak(t[1..]);
      var rest := Lines(t[1..]);
      if t[0] == '\n' {
        assert Lines(t) == [""] + rest;
      } else {
        var first := [t[0]] + rest[0];
        assert Lines(t) == [first] + rest[1..];
        assert '\n' !in rest[0];
      }
    }
  }

  /** Joining break-free pieces and cutting again gives the pieces back. */
  lemma {:induction false} UnlinesRoundTrip(ls: seq<string>)
    requires |ls| >= 1
    requires forall k :: 0 <= k < |ls| ==> '\n' !in ls[k]
    ensures Lines(Unlines(ls)) == ls
    decreases |ls|, |ls[0]|
  {
    if ls[0] == [] {
      if |ls| > 1 {
        UnlinesRoundTrip(ls[1..]);
        assert Unlines(ls) == "\n" + Unlines(ls[1..]);
        assert Unlines(ls)[1..] == Unlines(ls[1..]);
      }
    } else {
      var c := ls[0][0];
      var ls' := [ls[0][1..]] + ls[1..];
      assert forall k :: 1 <= k < |ls'| ==> ls'[k] == ls[k];
      UnlinesRoundTrip(ls');
      assert ls[0] == [c] + ls'[0];
      assert [[c] + ls'[0]] + ls'[1..] == ls;
      UnlinesCons(c, ls');
      var u := Unlines(ls);
      assert u[0] == c && u[1..] == Unlines(ls');
    }
  }

  /** A character in front of the first piece is a character in front of the joined text. */
  lemma {:induction false} UnlinesCons(c: char, ls: seq<string>)
    requires |ls| >= 1
    ensures Unlines([[c] + ls[0]] + ls[1..]) == [c] + Unlines(ls)
  {
    var ms := [[c] + ls[0]] + ls[1..];
    assert |ms| == |ls| && ms[0] == [c] + ls[0];
    if |ls| > 1 {
      assert ms[1..] == ls[1..];
      var tail := "\n" + Unlines(ls[1..]);
      assert Unlines(ms) == ms[0] + tail;
      assert Unlines(ls) == ls[0] + tail;
      assert [c] + ls[0] + tail == [c] + (ls[0] + tail);
    }
  }

  /** The line-per-record path decodes exactly the non-blank stripped lines, in order. */
  lemma {:induction false} RecordsAreLines(lines: seq<string>, parse: string -> Option<Json>)
    ensures Records(lines, parse) == MapAll(parse, NonBlank(lines))
  {
    if lines != [] {
      var n := |lines| - 1;
      var init := lines[..n];
      RecordsAreLines(init, parse);
      var line := Text.Strip(lines[n]);
      var ys := NonBlank(init);
      if line != [] {
        assert NonBlank(lines) == ys + [line];
        MapAllSnoc(parse, ys, line);
      } else {
        assert NonBlank(lines) == ys + [];
        assert ys + [] == ys;
      }
    }
  }

  /** The line-per-record path succeeds exactly when every non-blank stripped line decodes, one record per line. */
  lemma RecordsDecode(lines: seq<string>, parse: string -> Option<Json>)
    ensures var xs := NonBlank(lines);
            && (Records(lines, parse).Some? <==> forall k :: 0 <= k < |xs| ==> parse(xs[k]).Some?)
            && (Records(lines, parse).Some? ==>
                  && |Records(lines, parse).value| == |xs|
                  && forall k :: 0 <= k < |xs| ==> parse(xs[k]) == Some(Records(lines, parse).value[k]))
  {
    var xs := NonBlank(lines);
    RecordsAreLines(lines, parse);
    if Records(lines, parse).Some? {
      forall k | 0 <= k < |xs|
        ensures parse(xs[k]) == Some(Records(lines, parse).value[k])
      {
        MapAllAt(parse, xs, k);
      }
    } else if forall k :: 0 <= k < |xs| ==> parse(xs[k]).Some? {
      MapAllSucceeds(parse, xs);
    }
  }

  /**
   * Loading a line-per-record file succeeds exactly when every non-blank
   * stripped line decodes, and then gives one record per such line.
   */
  lemma LoadedLines(t: string, parse: string -> Option<Json>)
    requires !(|t| > 0 && t[0] == '[')
    ensures var xs := NonBlank(Lines(Universal(t)));
            && (Loaded(t, parse).Some? <==> forall k :: 0 <= k < |xs| ==> parse(xs[k]).Some?)
            && (Loaded(t, parse).Some? ==>
                  && |Loaded(t, parse).value| == |xs|
                  && forall k :: 0 <= k < |xs| ==> parse(xs[k]) == Some(Loaded(t, parse).value[k]))
  {
    assert Loaded(t, parse) == Records(Lines(Universal(t)), parse);
    RecordsDecode(Lines(Universal(t)), parse);
  }

  // Collecting scores

  /**
   * `judge = entry.get(field)` with the test `if judge:` and the later
   * `judge.get(crit)`: `Some(None)` when the verdict is falsy and skipped,
   * `Some(Some(d))` for a verdict dict, `None` when `.get` raises.
   */
  function JudgeOf(entry: Json, field: string): (r: Option<Option<Dict>>)
  {
    if !entry.JObject? then None
    else
      var judge := Lookup(entry.fields, field, JNull);
      if !Truthy(judge) then Some(None)
      else if judge.JObject? then Some(Some(judge.fields))
      else None
  }

  /** `isinstance(val, (int, float))`, with the value as an exact number; a `bool` is an `int`. */
  function Numeric(v: Json): Option<real>
  {
    match v
    case JInt(i) => Some(i as real)
    case JFloat(x) => Some(x)
    case JBool(b) => Some(if b then 1.0 else 0.0)
    case _ => None
  }

  /** What one verdict adds to the list of criterion `crit`. */
  function Contribution(judge: Option<Dict>, crit: string): (r: seq<real>)
    ensures |r| <= 1
  {
    if judge.None? then []
    else match Numeric(Lookup(judge.value, crit, JNull))
      case Some(x) => [x]
      case None => []
  }

  /** What one record adds to the list of criterion `crit`; `None` when the loop body raises on it. */
  function Scores(field: string, crit: string): Json -> Option<seq<real>>
  {
    e => match JudgeOf(e, field)
         case None => None
         case Some(judge) => Some(Contribution(judge, crit))
  }

  /** The pieces `f` gives for each element, joined in order; `None` once `f` gives `None`. */
  function Gather<T, U>(f: T -> Option<seq<U>>, xs: seq<T>): Option<seq<U>>
  {
    if xs == [] then Some([])
    else
      var done := Gather(f, xs[..|xs| - 1]);
      var piece := f(xs[|xs| - 1]);
      if done.Some? && piece.Some? then Some(done.value + piece.value) else None
  }

  /** Reference: the list collected for one criterion on its own; `None` when the loop raises. */
  function Values(data: seq<Json>, field: string, crit: string): Option<seq<real>>
  {
    Gather(Scores(field, crit), data)
  }

  /** The lists `lists`, one per criterion of `cs`, after one more verdict. */
  function Added(lists: seq<seq<real>>, judge: Option<Dict>, cs: seq<string>): (r: seq<seq<real>>)
    requires |lists| == |cs|
    ensures |r| == |cs|
    ensures forall k :: 0 <= k < |cs| ==> r[k] == lists[k] + Contribution(judge, cs[k])
  {
    if cs == [] then []
    else [lists[0] + Contribution(judge, cs[0])] + Added(lists[1..], judge, cs[1..])
  }

  const NoValues: seq<seq<real>> := [[], [], [], [], [], [], []]

  /** The dict of lists `{crit: [...]}` after the loop over `data`, in `criteria` order. */
  function Metrics(data: seq<Json>, field: string): (r: Option<seq<seq<real>>>)
    ensures r.Some? ==> |r.value| == |Criteria|
  {
    if data == [] then Some(NoValues)
    else
      var done := Metrics(data[..|data| - 1], field);
      var judge := JudgeOf(data[|data| - 1], field);
      if done.Some? && judge.Some? then Some(Added(done.value, judge.value, Criteria)) else None
  }

  function Sum(xs: seq<real>): real
  {
    if xs == [] then 0.0 else Sum(xs[..|xs| - 1]) + xs[|xs| - 1]
  }

  /** `mean(vals) if vals else None`, exactly. */
  function Mean(xs: seq<real>): (r: Option<real>)
    ensures r.Some? <==> xs != []
  {
    if xs == [] then None else Some(Sum(xs) / |xs| as real)
  }

  /** The mean of every list, in order. */
  function MeansOf(lists: seq<seq<real>>): (r: seq<Option<real>>)
    ensures |r| == |lists|
    ensures forall k :: 0 <= k < |lists| ==> r[k] == Mean(lists[k])
  {
    if lists == [] then [] else [Mean(lists[0])] + MeansOf(lists[1..])
  }

  // Properties of collecting

  lemma {:induction false} GatherFail<T, U>(f: T -> Option<seq<U>>, xs: seq<T>)
    ensures Gather(f, xs).None? <==> exists j :: 0 <= j < |xs| && f(xs[j]).None?
  {
    if xs != [] {
      var n := |xs| - 1;
      var init := xs[..n];
      GatherFail(f, init);
      if Gather(f, init).None? {
        var j :| 0 <= j < n && f(init[j]).None?;
        assert f(xs[j]).None?;
      } else if f(xs[n]).Some? {
        assert forall j :: 0 <= j < n ==> init[j] == xs[j];
      }
    }
  }

  lemma {:induction false} GatherAppend<T, U>(f: T -> Option<seq<U>>, a: seq<T>, b: seq<T>)
    ensures Gather(f, a + b) ==
              if Gather(f, a).Some? && Gather(f, b).Some? then Some(Gather(f, a).value + Gather(f, b).value) else None
  {
    if b == [] {
      assert a + b == a;
      if Gather(f, a).Some? {
        assert Gather(f, a).value + [] == Gather(f, a).value;
      }
    } else {
      var n := |b| - 1;
      var init := b[..n];
      GatherAppend(f, a, init);
      var ab := a + b;
      assert ab[..|ab| - 1] == a + init;
      assert ab[|ab| - 1] == b[n];
      var ga, gi, piece := Gather(f, a), Gather(f, init), f(b[n]);
      if ga.Some? && gi.Some? && piece.Some? {
        assert ga.value + gi.value + piece.value == ga.value + (gi.value + piece.value);
      }
    }
  }

  /** The loop raises exactly when some record is not a dict or has a truthy verdict that is not a dict. */
  lemma ValuesFail(data: seq<Json>, field: string, crit: string)
    ensures Values(data, field, crit).None? <==> exists j :: 0 <= j < |data| && JudgeOf(data[j], field).None?
  {
    GatherFail(Scores(field, crit), data);
  }

  /** Collecting over two runs of records is collecting over each and joining the lists. */
  lemma ValuesAppend(a: seq<Json>, b: seq<Json>, field: string, crit: string)
    ensures Values(a + b, field, crit) ==
              if Values(a, field, crit).Some? && Values(b, field, crit).Some?
              then Some(Values(a, field, crit).value + Values(b, field, crit).value)
              else None
  {
    GatherAppend(Scores(field, crit), a, b);
  }

  /** A record whose verdict is falsy adds nothing, wherever it stands. */
  lemma SkippedRecord(a: seq<Json>, e: Json, b: seq<Json>, field: string, crit: string)
    requires JudgeOf(e, field) == Some(None)
    ensures Values(a + [e] + b, field, crit) == Values(a + b, field, crit)
  {
    var f := Scores(field, crit);
    assert f(e) == Some([]);
    GatherAppend(f, a, [e]);
    assert [e][..0] == [] && [e][0] == e;
    assert Gather(f, [e]) == Some([] + []);
    var ga := Gather(f, a);
    if ga.Some? {
      assert ga.value + [] == ga.value;
    }
    assert Gather(f, a + [e]) == ga;
    GatherAppend(f, a + [e], b);
    GatherAppend(f, a, b);
  }

  /** The dict of lists holds, under each criterion, that criterion's list on its own. */
  lemma {:induction false} MetricsAreValues(data: seq<Json>, field: string, k: nat)
    requires k < |Criteria|
    ensures Metrics(data, field).Some? <==> Values(data, field, Criteria[k]).Some?
    ensures Metrics(data, field).Some? ==> Metrics(data, field).value[k] == Values(data, field, Criteria[k]).value
  {
    if data != [] {
      MetricsAreValues(data[..|data| - 1], field, k);
    }
  }

  lemma {:induction false} SumBounds(xs: seq<real>, lo: real, hi: real)
    requires forall k :: 0 <= k < |xs| ==> lo <= xs[k] <= hi
    ensures |xs| as real * lo <= Sum(xs) <= |xs| as real * hi
  {
    if xs != [] {
      SumBounds(xs[..|xs| - 1], lo, hi);
    }
  }

  /** A mean lies between any bounds of the values averaged. */
  lemma MeanBounds(xs: seq<real>, lo: real, hi: real)
    requires xs != []
    requires forall k :: 0 <= k < |xs| ==> lo <= xs[k] <= hi
    ensures lo <= Mean(xs).value <= hi
  {
    SumBounds(xs, lo, hi);
    QuotientBounds(Sum(xs), |xs| as real, lo, hi);
  }

  lemma QuotientBounds(s: real, n: real, lo: real, hi: real)
    requires n > 0.0 && n * lo <= s <= n * hi
    ensures lo <= s / n <= hi
  {
    var q := s / n;
    assert q - lo == (s - n * lo) / n;
    assert hi - q == (n * hi - s) / n;
  }

  // Means per model variant

  /** One row of the overall table: a variant and the mean of each criterion, in `criteria` order. */
  datatype MeanRow = MeanRow(variant: string, means: seq<Option<real>>)

  /** Some record makes the loop over some variant raise. */
  predicate Raises(data: seq<Json>)
  {
    exists j, v :: 0 <= j < |data| && 0 <= v < |Variants| && JudgeOf(data[j], Variants[v].field).None?
  }

  /** `row` reports variant `variant`: under its name, the mean of every criterion's own list. */
  predicate Reports(data: seq<Json>, variant: Variant, row: MeanRow)
  {
    && row.variant == variant.name
    && |row.means| == |Criteria|
    && forall k :: 0 <= k < |Criteria| ==>
         Values(data, variant.field, Criteria[k]).Some? && row.means[k] == Mean(Values(data, variant.field, Criteria[k]).value)
  }

  /**
   * `calculate_model_means`: one row per variant, in `variant_fields` order,
   * or `None` when a record makes it raise.
   */
  method ModelMeans(data: seq<Json>) returns (results: Option<seq<MeanRow>>)
    ensures results.None? <==> Raises(data)
    ensures results.Some? ==>
              && |results.value| == |Variants|
              && forall v :: 0 <= v < |Variants| ==> Reports(data, Variants[v], results.value[v])
  {
    var rows := [];
    for v := 0 to |Variants|
      invariant |rows| == v
      invariant forall w :: 0 <= w < v ==> Metrics(data, Variants[w].field).Some? && Reports(data, Variants[w], rows[w])
    {
      var metrics := CollectVariant(data, Variants[v].field);
      if metrics.None? {
        RaisesIff(data);
        return None;
      }
      ReportsOf(data, Variants[v], metrics.value);
      rows := rows + [MeanRow(Variants[v].name, MeansOf(metrics.value))];
    }
    RaisesIff(data);
    return Some(rows);
  }

  /** The loop over the records for one variant, filling the lists of every criterion. */
  method CollectVariant(data: seq<Json>, field: string) returns (metrics: Option<seq<seq<real>>>)
    ensures metrics == Metrics(data, field)
  {
    var lists := NoValues;
    for i := 0 to |data|
      invariant Metrics(data[..i], field) == Some(lists)
    {
      MetricsPrefix(data, field, i);
      var entry := data[i];
      if !entry.JObject? {
        MetricsFail(data, field, i + 1);
        return None;
      }
      var judge := Lookup(entry.fields, field, JNull);
      if Truthy(judge) {
        if !judge.JObject? {
          MetricsFail(data, field, i + 1);
          return None;
        }
        lists := AddScores(lists, judge.fields);
      } else {
        AddedNothing(lists, Criteria);
      }
    }
    assert data[..|data|] == data;
    return Some(lists);
  }

  /** The loop over the criteria for one verdict: each numeric score is appended to its list. */
  method AddScores(lists: seq<seq<real>>, judge: Dict) returns (r: seq<seq<real>>)
    requires |lists| == |Criteria|
    ensures r == Added(lists, Some(judge), Criteria)
  {
    r := lists;
    for k := 0 to |Criteria|
      invariant |r| == |Criteria|
      invariant forall j :: 0 <= j < k ==> r[j] == lists[j] + Contribution(Some(judge), Criteria[j])
      invariant forall j :: k <= j < |Criteria| ==> r[j] == lists[j]
    {
      var score := Numeric(Lookup(judge, Criteria[k], JNull));
      if score.Some? {
        r := r[k := r[k] + [score.value]];
      }
    }
    assert forall j :: 0 <= j < |Criteria| ==> r[j] == Added(lists, Some(judge), Criteria)[j];
  }

  /** A skipped verdict leaves the lists as they are. */
  lemma {:induction false} AddedNothing(lists: seq<seq<real>>, cs: seq<string>)
    requires |lists| == |cs|
    ensures Added(lists, None, cs) == lists
  {
    var r := Added(lists, None, cs);
    forall k | 0 <= k < |cs|
      ensures r[k] == lists[k]
    {
      assert Contribution(None, cs[k]) == [];
      assert lists[k] + [] == lists[k];
    }
  }

  /** The lists after `i + 1` records are those after `i` records and one more pass. */
  lemma MetricsPrefix(data: seq<Json>, field: string, i: nat)
    requires i < |data|
    ensures var done, judge := Metrics(data[..i], field), JudgeOf(data[i], field);
            Metrics(data[..i + 1], field) ==
              if done.Some? && judge.Some? then Some(Added(done.value, judge.value, Criteria)) else None
  {
    assert data[..i + 1][..i] == data[..i];
  }

  /** Once a record raises, the loop over the records does. */
  lemma {:induction false} MetricsFail(data: seq<Json>, field: string, s: nat)
    requires 0 < s <= |data|
    requires Metrics(data[..s - 1], field).None? || JudgeOf(data[s - 1], field).None?
    ensures Metrics(data, field).None?
    decreases |data| - s
  {
    assert data[..s][..s - 1] == data[..s - 1];
    if s < |data| {
      MetricsFail(data, field, s + 1);
    } else {
      assert data[..s] == data;
    }
  }

  /** A variant's loop succeeds exactly when no record makes it raise. */
  lemma MetricsFailIff(data: seq<Json>, field: string)
    ensures Metrics(data, field).None? <==> exists j :: 0 <= j < |data| && JudgeOf(data[j], field).None?
  {
    MetricsAreValues(data, field, 0);
    ValuesFail(data, field, Criteria[0]);
  }

  lemma RaisesIff(data: seq<Json>)
    ensures Raises(data) <==> exists v :: 0 <= v < |Variants| && Metrics(data, Variants[v].field).None?
  {
    forall v | 0 <= v < |Variants| {
      MetricsFailIff(data, Variants[v].field);
    }
  }

  /** The row built from a variant's lists reports that variant. */
  lemma ReportsOf(data: seq<Json>, variant: Variant, lists: seq<seq<real>>)
    requires Metrics(data, variant.field) == Some(lists)
    ensures Reports(data, variant, MeanRow(variant.name, MeansOf(lists)))
  {
    forall k | 0 <= k < |Criteria|
      ensures Values(data, variant.field, Criteria[k]).Some? && MeansOf(lists)[k] == Mean(Values(data, variant.field, Criteria[k]).value)
    {
      MetricsAreValues(data, variant.field, k);
    }
  }

  // Means per section

  /** `entry.get("section", "Unknown")`. */
  function SectionOf(entry: Dict): Json
  {
    Lookup(entry, SectionKey, UnknownSection)
  }

  /** One entry of `section_metrics`: the section as first stored, and its lists in `criteria` order. */
  datatype Bucket = Bucket(section: Json, lists: seq<seq<real>>)

  predicate WellSized(buckets: seq<Bucket>)
  {
    forall i :: 0 <= i < |buckets| ==> |buckets[i].lists| == |Criteria|
  }

  /** The position of the first bucket whose section equals `key` as a dict key, or -1. */
  function BucketIndex(buckets: seq<Bucket>, key: Json): (r: int)
    ensures -1 <= r < |buckets|
    ensures r >= 0 ==> KeyOf(buckets[r].section) == key
    ensures forall i :: 0 <= i < |buckets| && (r < 0 || i < r) ==> KeyOf(buckets[i].section) != key
  {
    if buckets == [] then -1
    else if KeyOf(buckets[0].section) == key then 0
    else
      var r := BucketIndex(buckets[1..], key);
      assert forall i :: 1 <= i < |buckets| ==> buckets[i] == buckets[1..][i - 1];
      if r < 0 then -1 else r + 1
  }

  /** The lists stored under `key`, or empty lists when there is no bucket for it. */
  function ListsFor(buckets: seq<Bucket>, key: Json): seq<seq<real>>
  {
    var i := BucketIndex(buckets, key);
    if i < 0 then NoValues else buckets[i].lists
  }

  /** One verdict `judge` of a record in section `section` added to the buckets. */
  function Deposited(buckets: seq<Bucket>, section: Json, judge: Dict): (r: seq<Bucket>)
    requires WellSized(buckets)
    ensures WellSized(r)
  {
    var i := BucketIndex(buckets, KeyOf(section));
    if i < 0 then buckets + [Bucket(section, Added(NoValues, Some(judge), Criteria))]
    else buckets[i := Bucket(buckets[i].section, Added(buckets[i].lists, Some(judge), Criteria))]
  }

  /** `section_metrics` after the loop over `data` for one variant; `None` when it raises. */
  function Buckets(data: seq<Json>, field: string): (r: Option<seq<Bucket>>)
    ensures r.Some? ==> WellSized(r.value)
  {
    if data == [] then Some([])
    else BucketStep(Buckets(data[..|data| - 1], field), data[|data| - 1], field)
  }

  /** One pass of the loop over the records: a truthy verdict is deposited in the record's section. */
  function BucketStep(done: Option<seq<Bucket>>, entry: Json, field: string): (r: Option<seq<Bucket>>)
    requires done.Some? ==> WellSized(done.value)
    ensures r.Some? ==> WellSized(r.value)
  {
    if done.None? then None
    else match JudgeOf(entry, field)
      case None => None
      case Some(None) => done
      case Some(Some(judge)) =>
        var section := SectionOf(entry.fields);
        if Hashable(section) then Some(Deposited(done.value, section, judge)) else None
  }

  /** The buckets after `i + 1` records are those after `i` records and one more pass. */
  lemma BucketsPrefix(data: seq<Json>, field: string, i: nat)
    requires i < |data|
    ensures Buckets(data[..i + 1], field) == BucketStep(Buckets(data[..i], field), data[i], field)
  {
    assert data[..i + 1][..i] == data[..i];
  }

  /** One row of the per-section table. */
  datatype SectionMean = SectionMean(section: Json, variant: string, means: seq<Option<real>>)

  /** The rows of one variant, one per bucket in insertion order. */
  function SectionRows(buckets: seq<Bucket>, name: string): (r: seq<SectionMean>)
    ensures |r| == |buckets|
  {
    if buckets == [] then []
    else
      var n := |buckets| - 1;
      SectionRows(buckets[..n], name) + [SectionMean(buckets[n].section, name, MeansOf(buckets[n].lists))]
  }

  /** The rows of the variants `vs`, variant after variant; `None` when one of the loops raises. */
  function SectionTable(data: seq<Json>, vs: seq<Variant>): Option<seq<SectionMean>>
  {
    if vs == [] then Some([])
    else
      var done := SectionTable(data, vs[..|vs| - 1]);
      var buckets := Buckets(data, vs[|vs| - 1].field);
      if done.Some? && buckets.Some? then Some(done.value + SectionRows(buckets.value, vs[|vs| - 1].name)) else None
  }

  /** `calculate_section_means`. */
  method SectionMeans(data: seq<Json>) returns (results: Option<seq<SectionMean>>)
    ensures results == SectionTable(data, Variants)
  {
    var rows := [];
    for v := 0 to |Variants|
      invariant SectionTable(data, Variants[..v]) == Some(rows)
    {
      var buckets := CollectSections(data, Variants[v].field);
      SectionTableStep(data, Variants, v, rows, buckets);
      if buckets.None? {
        SectionTableFail(data, Variants, v + 1);
        return None;
      }
      var block := EmitSections(buckets.value, Variants[v].name);
      rows := rows + block;
    }
    assert Variants[..|Variants|] == Variants;
    return Some(rows);
  }

  /** The loop over the records for one variant, filling `section_metrics`. */
  method CollectSections(data: seq<Json>, field: string) returns (buckets: Option<seq<Bucket>>)
    ensures buckets == Buckets(data, field)
  {
    var done: seq<Bucket> := [];
    for i := 0 to |data|
      invariant Buckets(data[..i], field) == Some(done)
    {
      BucketsPrefix(data, field, i);
      var entry := data[i];
      if !entry.JObject? {
        BucketsFail(data, field, i + 1);
        return None;
      }
      var section := SectionOf(entry.fields);
      var judge := Lookup(entry.fields, field, JNull);
      if Truthy(judge) {
        if !Hashable(section) || !judge.JObject? {
          BucketsFail(data, field, i + 1);
          return None;
        }
        done := Deposit(done, section, judge.fields);
      }
    }
    assert data[..|data|] == data;
    return Some(done);
  }

  /** The body of the record loop for a truthy verdict: find or open the section's entry, then add the scores. */
  method Deposit(buckets: seq<Bucket>, section: Json, judge: Dict) returns (r: seq<Bucket>)
    requires WellSized(buckets)
    ensures r == Deposited(buckets, section, judge)
  {
    var i := BucketIndex(buckets, KeyOf(section));
    r := buckets;
    if i < 0 {
      r := r + [Bucket(section, NoValues)];
      i := |buckets|;
    }
    var lists := AddScores(r[i].lists, judge);
    r := r[i := Bucket(r[i].section, lists)];
  }

  /** The loop over `section_metrics.items()`: one row per section. */
  method EmitSections(buckets: seq<Bucket>, name: string) returns (rows: seq<SectionMean>)
    ensures rows == SectionRows(buckets, name)
  {
    rows := [];
    for i := 0 to |buckets|
      invariant rows == SectionRows(buckets[..i], name)
    {
      assert buckets[..i + 1][..i] == buckets[..i];
      rows := rows + [SectionMean(buckets[i].section, name, MeansOf(buckets[i].lists))];
    }
    assert buckets[..|buckets|] == buckets;
  }

  /** Once a record raises, the loop over the records does. */
  lemma {:induction false} BucketsFail(data: seq<Json>, field: string, s: nat)
    requires 0 < s <= |data| && Buckets(data[..s], field).None?
    ensures Buckets(data, field).None?
    decreases |data| - s
  {
    if s < |data| {
      assert data[..s + 1][..s] == data[..s];
      BucketsFail(data, field, s + 1);
    } else {
      assert data[..s] == data;
    }
  }

  /** The table after one more variant. */
  lemma SectionTableStep(data: seq<Json>, vs: seq<Variant>, v: nat, rows: seq<SectionMean>, buckets: Option<seq<Bucket>>)
    requires v < |vs| && SectionTable(data, vs[..v]) == Some(rows) && buckets == Buckets(data, vs[v].field)
    ensures SectionTable(data, vs[..v + 1]) ==
              if buckets.Some? then Some(rows + SectionRows(buckets.value, vs[v].name)) else None
  {
    assert vs[..v + 1][..v] == vs[..v];
  }

  /** Once a variant's loop raises, the whole table does. */
  lemma {:induction false} SectionTableFail(data: seq<Json>, vs: seq<Variant>, s: nat)
    requires 0 < s <= |vs| && SectionTable(data, vs[..s]).None?
    ensures SectionTable(data, vs).None?
    decreases |vs| - s
  {
    if s < |vs| {
      assert vs[..s + 1][..s] == vs[..s];
      SectionTableFail(data, vs, s + 1);
    } else {
      assert vs[..s] == vs;
    }
  }

  // Properties of the section means

  /** The records of `data` that are dicts whose section equals `key` as a dict key. */
  function InSection(data: seq<Json>, key: Json): (r: seq<Json>)
    ensures |r| <= |data|
  {
    if data == [] then []
    else
      var e := data[|data| - 1];
      InSection(data[..|data| - 1], key) + (if InSectionHere(e, key) then [e] else [])
  }

  /** Adding a verdict keeps every bucket's section and opens a bucket only for a new section. */
  lemma DepositedIndex(buckets: seq<Bucket>, section: Json, judge: Dict, key: Json)
    requires WellSized(buckets)
    ensures var n := BucketIndex(buckets, key);
            BucketIndex(Deposited(buckets, section, judge), key) ==
              if n >= 0 then n else if key == KeyOf(section) then |buckets| else -1
  {
    SameSections(buckets, Deposited(buckets, section, judge), key);
  }

  lemma SameSections(a: seq<Bucket>, b: seq<Bucket>, key: Json)
    requires |a| <= |b| <= |a| + 1
    requires forall j :: 0 <= j < |a| ==> b[j].section == a[j].section
    ensures BucketIndex(a, key) >= 0 ==> BucketIndex(b, key) == BucketIndex(a, key)
    ensures BucketIndex(a, key) < 0 ==>
              BucketIndex(b, key) == if |b| > |a| && KeyOf(b[|a|].section) == key then |a| else -1
  {
  }

  /** Adding a verdict changes the lists of its own section only, by that verdict. */
  lemma ListsForDeposited(buckets: seq<Bucket>, section: Json, judge: Dict, key: Json)
    requires WellSized(buckets)
    ensures ListsFor(Deposited(buckets, section, judge), key) ==
              if key == KeyOf(section) then Added(ListsFor(buckets, key), Some(judge), Criteria) else ListsFor(buckets, key)
  {
    DepositedIndex(buckets, section, judge, key);
  }

  /**
   * Each section's lists are what the loop for the whole table collects on
   * the records of that section alone; a section without a bucket collected
   * nothing.
   */
  lemma {:induction false} BucketsAreGroups(data: seq<Json>, field: string, key: Json)
    requires Buckets(data, field).Some?
    ensures Metrics(InSection(data, key), field) == Some(ListsFor(Buckets(data, field).value, key))
  {
    if data != [] {
      var n := |data| - 1;
      var init, e := data[..n], data[n];
      BucketsAreGroups(init, field, key);
      var old_ := Buckets(init, field).value;
      assert Buckets(data, field) == BucketStep(Some(old_), e, field);
      var sub := InSection(init, key);
      assert InSection(data, key) == if InSectionHere(e, key) then sub + [e] else sub + [];
      assert sub + [] == sub;
      GroupStep(sub, e, field, key, old_);
    }
  }

  /** The record counts toward section `key`: a dict whose section equals `key` as a dict key. */
  predicate InSectionHere(e: Json, key: Json)
  {
    e.JObject? && Hashable(SectionOf(e.fields)) && KeyOf(SectionOf(e.fields)) == key
  }

  /** One record more: the section's lists follow the collection over its own records. */
  lemma GroupStep(sub: seq<Json>, e: Json, field: string, key: Json, old_: seq<Bucket>)
    requires WellSized(old_) && Metrics(sub, field) == Some(ListsFor(old_, key))
    requires BucketStep(Some(old_), e, field).Some?
    ensures Metrics(if InSectionHere(e, key) then sub + [e] else sub, field)
         == Some(ListsFor(BucketStep(Some(old_), e, field).value, key))
  {
    var b := BucketStep(Some(old_), e, field).value;
    var judge := JudgeOf(e, field).value;
    if InSectionHere(e, key) {
      var whole := sub + [e];
      assert whole[..|whole| - 1] == sub && whole[|whole| - 1] == e;
      assert Metrics(whole, field) == Some(Added(ListsFor(old_, key), judge, Criteria));
      if judge.None? {
        AddedNothing(ListsFor(old_, key), Criteria);
      } else {
        ListsForDeposited(old_, SectionOf(e.fields), judge.value, key);
      }
    } else if judge.Some? {
      ListsForDeposited(old_, SectionOf(e.fields), judge.value, key);
    }
  }

  /** No two buckets hold the same section. */
  lemma {:induction false} BucketsDistinct(data: seq<Json>, field: string)
    requires Buckets(data, field).Some?
    ensures Distinct(Buckets(data, field).value)
  {
    if data != [] {
      var n := |data| - 1;
      BucketsDistinct(data[..n], field);
      var old_ := Buckets(data[..n], field).value;
      assert Buckets(data, field) == BucketStep(Some(old_), data[n], field);
      DistinctStep(old_, data[n], field);
    }
  }

  /** No two buckets share a section as a dict key. */
  predicate Distinct(b: seq<Bucket>)
  {
    forall i, j :: 0 <= i < j < |b| ==> KeyOf(b[i].section) != KeyOf(b[j].section)
  }

  lemma DistinctStep(old_: seq<Bucket>, e: Json, field: string)
    requires WellSized(old_) && Distinct(old_) && BucketStep(Some(old_), e, field).Some?
    ensures Distinct(BucketStep(Some(old_), e, field).value)
  {
    var judge := JudgeOf(e, field);
    if judge.value.Some? {
      DistinctDeposited(old_, SectionOf(e.fields), judge.value.value);
    }
  }

  lemma DistinctDeposited(buckets: seq<Bucket>, section: Json, judge: Dict)
    requires WellSized(buckets) && Distinct(buckets)
    ensures Distinct(Deposited(buckets, section, judge))
  {
    var b := Deposited(buckets, section, judge);
    var i := BucketIndex(buckets, KeyOf(section));
    if i < 0 {
      assert forall k :: 0 <= k < |buckets| ==> b[k] == buckets[k];
      assert KeyOf(b[|buckets|].section) == KeyOf(section);
    } else {
      assert forall k :: 0 <= k < |buckets| ==> b[k].section == buckets[k].section;
    }
  }

  /** The record counts toward a variant: it is a dict with a truthy verdict dict. */
  predicate Judged(e: Json, field: string)
  {
    JudgeOf(e, field).Some? && JudgeOf(e, field).value.Some?
  }

  /** A judged record of section `key`. */
  predicate Covers(e: Json, field: string, key: Json)
  {
    Judged(e, field) && KeyOf(SectionOf(e.fields)) == key
  }

  /** There is a bucket for a section exactly when some judged record lies in it. */
  lemma {:induction false} BucketsCover(data: seq<Json>, field: string, key: Json)
    requires Buckets(data, field).Some?
    ensures BucketIndex(Buckets(data, field).value, key) >= 0 <==> exists j :: 0 <= j < |data| && Covers(data[j], field, key)
  {
    if data != [] {
      var n := |data| - 1;
      var init := data[..n];
      BucketsCover(init, field, key);
      var old_ := Buckets(init, field).value;
      assert Buckets(data, field) == BucketStep(Some(old_), data[n], field);
      CoverStep(old_, data[n], field, key);
      ExistsInPrefix(data, init, field, key);
    }
  }

  lemma ExistsInPrefix(data: seq<Json>, init: seq<Json>, field: string, key: Json)
    requires data != [] && init == data[..|data| - 1]
    ensures (exists j :: 0 <= j < |data| && Covers(data[j], field, key)) <==>
            (exists j :: 0 <= j < |init| && Covers(init[j], field, key)) || Covers(data[|data| - 1], field, key)
  {
    if exists j :: 0 <= j < |data| && Covers(data[j], field, key) {
      var j :| 0 <= j < |data| && Covers(data[j], field, key);
      if j < |data| - 1 {
        assert Covers(init[j], field, key);
      }
    }
    if exists j :: 0 <= j < |init| && Covers(init[j], field, key) {
      var j :| 0 <= j < |init| && Covers(init[j], field, key);
      assert Covers(data[j], field, key);
    }
  }

  /** One record more opens a bucket for its section exactly when it is judged. */
  lemma CoverStep(old_: seq<Bucket>, e: Json, field: string, key: Json)
    requires WellSized(old_) && BucketStep(Some(old_), e, field).Some?
    ensures BucketIndex(BucketStep(Some(old_), e, field).value, key) >= 0 <==>
              BucketIndex(old_, key) >= 0 || Covers(e, field, key)
  {
    if Judged(e, field) {
      DepositedIndex(old_, SectionOf(e.fields), JudgeOf(e, field).value.value, key);
    }
  }

  /**
   * A row of the per-section table reports its variant on the records of its
   * section: the mean of each criterion's list collected from those records.
   */
  lemma SectionRowReports(data: seq<Json>, variant: Variant, i: nat)
    requires Buckets(data, variant.field).Some? && i < |Buckets(data, variant.field).value|
    ensures var b := Buckets(data, variant.field).value;
            var row := SectionRows(b, variant.name)[i];
            && row.section == b[i].section
            && Reports(InSection(data, KeyOf(b[i].section)), variant, MeanRow(row.variant, row.means))
  {
    var b := Buckets(data, variant.field).value;
    SectionRowsAt(b, variant.name, i);
    var key := KeyOf(b[i].section);
    BucketsAreGroups(data, variant.field, key);
    assert ListsFor(b, key) == b[i].lists by {
      BucketsDistinct(data, variant.field);
    }
    ReportsOf(InSection(data, key), variant, b[i].lists);
  }

  lemma {:induction false} SectionRowsAt(buckets: seq<Bucket>, name: string, i: nat)
    requires i < |buckets|
    ensures SectionRows(buckets, name)[i] == SectionMean(buckets[i].section, name, MeansOf(buckets[i].lists))
  {
    var n := |buckets| - 1;
    if i < n {
      SectionRowsAt(buckets[..n], name, i);
    }
  }

  // The flat section table

  /** One row of `section_data`: the record's section, the variant's name and each criterion's raw value. */
  datatype ScoreRow = ScoreRow(section: Json, model: string, scores: seq<Json>)

  /** `judge.get(crit)` for each criterion of `cs`, in order. */
  function Picked(judge: Dict, cs: seq<string>): (r: seq<Json>)
    ensures |r| == |cs|
    ensures forall k :: 0 <= k < |cs| ==> r[k] == Lookup(judge, cs[k], JNull)
  {
    if cs == [] then [] else Picked(judge, cs[..|cs| - 1]) + [Lookup(judge, cs[|cs| - 1], JNull)]
  }

  /** The rows of one record for the variants `vs`, in order; `None` when building them raises. */
  function RowsOf(entry: Json, vs: seq<Variant>): Option<seq<ScoreRow>>
  {
    if !entry.JObject? then None
    else if vs == [] then Some([])
    else
      var done := RowsOf(entry, vs[..|vs| - 1]);
      var v := vs[|vs| - 1];
      var judge := Lookup(entry.fields, v.field, JNull);
      if done.None? then None
      else if !Truthy(judge) then done
      else if !judge.JObject? then None
      else Some(done.value + [ScoreRow(SectionOf(entry.fields), v.name, Picked(judge.fields, Criteria))])
  }

  function RowsFor(vs: seq<Variant>): Json -> Option<seq<ScoreRow>>
  {
    e => RowsOf(e, vs)
  }

  /** `section_data`: the rows of every record in turn; `None` when building it raises. */
  function SectionData(data: seq<Json>): Option<seq<ScoreRow>>
  {
    Gather(RowsFor(Variants), data)
  }

  /** The loop that builds `section_data`. */
  method BuildSectionData(data: seq<Json>) returns (rows: Option<seq<ScoreRow>>)
    ensures rows == SectionData(data)
  {
    var acc := [];
    for i := 0 to |data|
      invariant Gather(RowsFor(Variants), data[..i]) == Some(acc)
    {
      assert data[..i + 1][..i] == data[..i];
      var entryRows := EntryRows(data[i]);
      if entryRows.None? {
        GatherFail(RowsFor(Variants), data);
        return None;
      }
      acc := acc + entryRows.value;
    }
    assert data[..|data|] == data;
    return Some(acc);
  }

  /** The body of that loop for one record: a row per variant with a truthy verdict. */
  method EntryRows(entry: Json) returns (rows: Option<seq<ScoreRow>>)
    ensures rows == RowsOf(entry, Variants)
  {
    if !entry.JObject? {
      return None;
    }
    var section := SectionOf(entry.fields);
    var acc := [];
    for v := 0 to |Variants|
      invariant RowsOf(entry, Variants[..v]) == Some(acc)
    {
      RowsOfPrefix(entry, Variants, v);
      var judge := Lookup(entry.fields, Variants[v].field, JNull);
      if Truthy(judge) {
        if !judge.JObject? {
          RowsOfFail(entry, Variants, v + 1);
          return None;
        }
        var scores := PickScores(judge.fields);
        acc := acc + [ScoreRow(section, Variants[v].name, scores)];
      }
    }
    assert Variants[..|Variants|] == Variants;
    return Some(acc);
  }

  /** The loop `row[crit] = judge.get(crit)`. */
  method PickScores(judge: Dict) returns (scores: seq<Json>)
    ensures scores == Picked(judge, Criteria)
  {
    scores := [];
    for k := 0 to |Criteria|
      invariant scores == Picked(judge, Criteria[..k])
    {
      PickedPrefix(judge, Criteria, k);
      scores := scores + [Lookup(judge, Criteria[k], JNull)];
    }
    assert Criteria[..|Criteria|] == Criteria;
  }

  /** The rows for `v + 1` variants are those for `v` variants and one more pass. */
  lemma RowsOfPrefix(entry: Json, vs: seq<Variant>, v: nat)
    requires entry.JObject? && v < |vs|
    ensures var done, judge := RowsOf(entry, vs[..v]), Lookup(entry.fields, vs[v].field, JNull);
            RowsOf(entry, vs[..v + 1]) ==
              if done.None? then None
              else if !Truthy(judge) then done
              else if !judge.JObject? then None
              else Some(done.value + [ScoreRow(SectionOf(entry.fields), vs[v].name, Picked(judge.fields, Criteria))])
  {
    assert vs[..v + 1][..v] == vs[..v];
  }

  lemma PickedPrefix(judge: Dict, cs: seq<string>, k: nat)
    requires k < |cs|
    ensures Picked(judge, cs[..k + 1]) == Picked(judge, cs[..k]) + [Lookup(judge, cs[k], JNull)]
  {
    assert cs[..k + 1][..k] == cs[..k];
  }

  /** Once a variant's verdict raises, the record's rows do. */
  lemma {:induction false} RowsOfFail(entry: Json, vs: seq<Variant>, s: nat)
    requires 0 < s <= |vs| && RowsOf(entry, vs[..s]).None?
    ensures RowsOf(entry, vs).None?
    decreases |vs| - s
  {
    if s < |vs| {
      assert vs[..s + 1][..s] == vs[..s];
      RowsOfFail(entry, vs, s + 1);
    } else {
      assert vs[..s] == vs;
    }
  }

  // Properties of the flat section table

  /** The variants of `vs` whose verdict in `e` counts. */
  function JudgedIn(e: Json, vs: seq<Variant>): (r: seq<Variant>)
    ensures |r| <= |vs|
    ensures forall i :: 0 <= i < |r| ==> Judged(e, r[i].field)
  {
    if vs == [] then []
    else
      var v := vs[|vs| - 1];
      JudgedIn(e, vs[..|vs| - 1]) + (if Judged(e, v.field) then [v] else [])
  }

  /** A record's rows raise exactly when it is not a dict or one of its truthy verdicts is not a dict. */
  lemma {:induction false} RowsOfFails(e: Json, vs: seq<Variant>)
    requires vs != []
    ensures RowsOf(e, vs).None? <==> exists v :: 0 <= v < |vs| && JudgeOf(e, vs[v].field).None?
  {
    var n := |vs| - 1;
    if n > 0 {
      RowsOfFails(e, vs[..n]);
      assert forall v :: 0 <= v < n ==> vs[..n][v] == vs[v];
    }
    if !e.JObject? {
      assert JudgeOf(e, vs[0].field).None?;
    }
  }

  /**
   * A record's rows: one per variant whose verdict counts, in variant order,
   * each under the record's section (`"Unknown"` when it has none) and
   * holding that verdict's value for every criterion.
   */
  lemma {:induction false} RowsOfShape(e: Json, vs: seq<Variant>)
    requires RowsOf(e, vs).Some?
    ensures var rs := RowsOf(e, vs).value;
            var js := JudgedIn(e, vs);
            && |rs| == |js|
            && forall i :: 0 <= i < |rs| ==>
                 && rs[i].section == SectionOf(e.fields)
                 && rs[i].model == js[i].name
                 && rs[i].scores == Picked(JudgeOf(e, js[i].field).value.value, Criteria)
  {
    if vs != [] {
      var n := |vs| - 1;
      RowsOfShape(e, vs[..n]);
    }
  }

  /** Building `section_data` raises exactly when the model means do. */
  lemma SectionDataFails(data: seq<Json>)
    ensures SectionData(data).None? <==> Raises(data)
  {
    GatherFail(RowsFor(Variants), data);
    forall j | 0 <= j < |data|
      ensures RowsOf(data[j], Variants).None? <==> exists v :: 0 <= v < |Variants| && JudgeOf(data[j], Variants[v].field).None?
    {
      RowsOfFails(data[j], Variants);
    }
  }

  /** The number of (record, variant) pairs whose verdict counts. */
  function JudgedCount(data: seq<Json>): nat
  {
    if data == [] then 0
    else JudgedCount(data[..|data| - 1]) + |JudgedIn(data[|data| - 1], Variants)|
  }

  /** `section_data` has one row per record and variant whose verdict counts. */
  lemma {:induction false} SectionDataCount(data: seq<Json>)
    requires SectionData(data).Some?
    ensures |SectionData(data).value| == JudgedCount(data)
  {
    if data != [] {
      var n := |data| - 1;
      SectionDataCount(data[..n]);
      RowsOfShape(data[n], Variants);
    }
  }
}
