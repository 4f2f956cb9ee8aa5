/**
 * The HTML preview page: a navigation list with one link per distinct
 * section, in sorted order, then one block per section holding a card for
 * each of its entries, in input order.  A section's anchor id is its name
 * with spaces turned into `-`, then lower-cased; an entry without a
 * section belongs to "Unknown Section".  A card's border class is `short`
 * or `long` when the lower-cased `sample_type` is that word, and empty
 * otherwise; a missing `sample_type` reads as `random`.  Field values are
 * inserted as they are, without HTML escaping.
 *
 * The page is built by appending to a string.  `None` stands for a raise:
 * a section value that is not a string (`sorted` or `str.replace` fails)
 * or a `sample_type` that is not a string (`str.lower` fails).
 */
module Preview {
  import opened Wrappers
  import opened Json
  import Text

  const UnknownSection := "Unknown Section"
  const NoText := "\U{2014}"

  /** The fixed text before the navigation items, with the style rules left out. */
  const PageStart := "\n<!DOCTYPE html>\n<html lang=\"en\">\n<head>\n    <meta charset=\"UTF-8\">\n    <title>Alt-Text Review</title>\n    <style>\n    </style>\n</head>\n<body>\n    <nav>\n        <h2>Navigation</h2>\n        <ul>\n    "
  /** The fixed text between the navigation and the sections. */
  const NavEnd := "\n        </ul>\n    </nav>\n    <main>\n        <h1>Alt-Text Review</h1>\n    "
  const SectionClose := "</div></div>"
  const PageEnd := "\n    </main>\n</body>\n</html>\n    "

  /** `entry.get("section", "Unknown Section")`. */
  function SectionValue(e: Dict): Json
  {
    Lookup(e, "section", JStr(UnknownSection))
  }

  /** Every entry's section is a string. */
  predicate Named(data: seq<Dict>)
  {
    forall i :: 0 <= i < |data| ==> SectionValue(data[i]).JStr?
  }

  /** The section of every entry, in input order. */
  function Names(data: seq<Dict>): (r: seq<string>)
    requires Named(data)
    ensures |r| == |data|
    ensures forall i :: 0 <= i < |data| ==> r[i] == SectionValue(data[i]).s
  {
    if data == [] then []
    else
      var n := |data| - 1;
      assert forall i :: 0 <= i < n ==> data[..n][i] == data[i];
      Names(data[..n]) + [SectionValue(data[n]).s]
  }

  /** `sorted(set(entry.get("section", "Unknown Section") for entry in data))`. */
  function SectionList(data: seq<Dict>): seq<string>
    requires Named(data)
  {
    Text.SortedSet(Names(data))
  }

  /**
   * `section.replace(" ", "-").lower()`: the name's length, each space a
   * `-` and each character lower-cased, so no space is left.
   */
  function Slug(s: string): (r: string)
    ensures |r| == |s|
    ensures forall i :: 0 <= i < |s| ==> r[i] == Text.LowerChar(if s[i] == ' ' then '-' else s[i])
    ensures ' ' !in r
  {
    var r := Text.Lower(Text.ReplaceChar(s, ' ', '-'));
    assert forall i | 0 <= i < |r| :: r[i] != ' ';
    r
  }

  function NavItem(s: string): string
  {
    "<li><a href=\"#" + Slug(s) + "\">" + s + "</a></li>"
  }

  /** The navigation items of `ss`, in order. */
  function Nav(ss: seq<string>): string
  {
    if ss == [] then "" else Nav(ss[..|ss| - 1]) + NavItem(ss[|ss| - 1])
  }

  /** `section_entries[s]`: the entries of section `s`, in input order. */
  function Group(data: seq<Dict>, s: string): (r: seq<Dict>)
    ensures forall k :: 0 <= k < |r| ==> SectionValue(r[k]) == JStr(s)
  {
    Filter(data, SectionValue, JStr(s))
  }

  /** The elements of `xs` whose key is `k`, in order. */
  function Filter<T>(xs: seq<T>, key: T -> Json, k: Json): (r: seq<T>)
    ensures forall i :: 0 <= i < |r| ==> key(r[i]) == k
  {
    if xs == [] then []
    else
      var done := Filter(xs[..|xs| - 1], key, k);
      if key(xs[|xs| - 1]) == k then done + [xs[|xs| - 1]] else done
  }

  /** The rendered values of one card. */
  datatype Card = Card(image: string, url: string, headline: string, abstractText: string, caption: string,
                       altInitial: string, altRefined: string, sampleType: string, cssClass: string)

  /** The border class for a lower-cased sample type. */
  function CssClass(sampleType: string): (r: string)
    ensures r == "short" <==> sampleType == "short"
    ensures r == "long" <==> sampleType == "long"
    ensures r == "" <==> sampleType != "short" && sampleType != "long"
  {
    if sampleType == "short" then "short" else if sampleType == "long" then "long" else ""
  }

  /** The values a card shows; only a `sample_type` that is present and not a string raises. */
  function CardOf(e: Dict): (r: Option<Card>)
    ensures r.None? <==> HasKey(e, "sample_type") && !Lookup(e, "sample_type", JNull).JStr?
  {
    var t := Lookup(e, "sample_type", JStr("random"));
    LookupEither(e, "sample_type", JStr("random"));
    if !t.JStr? then None
    else
      var lowered := Text.Lower(t.s);
      Some(Card(Show(Lookup(e, "image_url_clean", JStr(""))), Show(Lookup(e, "article_url", JStr("#"))),
                Show(Lookup(e, "headline", JStr("No Title"))), Show(Lookup(e, "abstract", JStr(""))),
                Show(Lookup(e, "caption", JStr(""))), Show(Lookup(e, "openai_alt_text_initial", JStr(NoText))),
                Show(Lookup(e, "openai_alt_text_refined", JStr(NoText))), lowered, CssClass(lowered)))
  }

  /** The fixed text of a card around its nine values. */
  const CardTemplate: seq<string> := [
    "\n            <div class=\"card ",
    "\">\n                <img src=\"",
    "\" alt=\"Article Image\">\n                <h3><a href=\"",
    "\" target=\"_blank\">",
    "</a></h3>\n                <p><strong>Abstract:</strong> ",
    "</p>\n                <p><strong>Caption:</strong> ",
    "</p>\n                <p><strong>Initial Alt-Text:</strong></p>\n                <div class=\"alt-text\">",
    "</div>\n                <p><strong>Refined Alt-Text:</strong></p>\n                <div class=\"alt-text\">",
    "</div>\n                <p class=\"sample-type\">Sample Type: ",
    "</p>\n            </div>\n            "
  ]

  /** The values a card shows, in page order. */
  function CardValues(c: Card): seq<string>
  {
    [c.cssClass, c.image, c.url, c.headline, c.abstractText, c.caption, c.altInitial, c.altRefined, Text.Capitalize(c.sampleType)]
  }

  /** `ps[0] + vs[0] + ps[1] + vs[1] + ... + ps[|vs|]`: fixed pieces with values between them. */
  function Weave(ps: seq<string>, vs: seq<string>): string
    requires |ps| == |vs| + 1
  {
    if vs == [] then ps[0] else ps[0] + (vs[0] + Weave(ps[1..], vs[1..]))
  }

  /** The HTML of one card. */
  function CardHtml(c: Card): string
  {
    Weave(CardTemplate, CardValues(c))
  }

  /** The cards of `es`, one after another; `None` when one of them raises. */
  function Cards(es: seq<Dict>): Option<string>
  {
    if es == [] then Some("")
    else CardStep(Cards(es[..|es| - 1]), es[|es| - 1])
  }

  /** The cards so far followed by the card of `e`, or `None` once a card raised. */
  function CardStep(done: Option<string>, e: Dict): Option<string>
  {
    var card := CardOf(e);
    if done.Some? && card.Some? then Some(done.value + CardHtml(card.value)) else None
  }

  function SectionOpen(s: string): string
  {
    "<div class=\"section\" id=\"" + Slug(s) + "\"><h2>" + s + "</h2><div class=\"grid\">"
  }

  /** The block of section `s`. */
  function SectionHtml(data: seq<Dict>, s: string): Option<string>
  {
    var cards := Cards(Group(data, s));
    if cards.None? then None else Some(SectionOpen(s) + cards.value + SectionClose)
  }

  /** The blocks of `ss`, one after another; `None` when one of them raises. */
  function Body(data: seq<Dict>, ss: seq<string>): Option<string>
  {
    if ss == [] then Some("")
    else
      var done := Body(data, ss[..|ss| - 1]);
      var block := SectionHtml(data, ss[|ss| - 1]);
      if done.Some? && block.Some? then Some(done.value + block.value) else None
  }

  /**
   * What `generate_html` returns for the loaded list; `None` when it raises,
   * as `entry.get` does on an entry that is not a dict.
   */
  function Page(data: seq<Json>): Option<string>
  {
    if AllObjects(data) then Html(FieldsOf(data)) else None
  }

  /** What `generate_html` returns for a list of dicts; `None` when it raises. */
  function Html(data: seq<Dict>): Option<string>
  {
    if !Named(data) then None
    else
      var ss := SectionList(data);
      var body := Body(data, ss);
      if body.None? then None else Some(PageStart + Nav(ss) + NavEnd + body.value + PageEnd)
  }

  /** `generate_html`: the page is built by appending, section by section and card by card. */
  method GenerateHtml(loaded: seq<Json>) returns (html: Option<string>)
    ensures html == Page(loaded)
  {
    if !AllObjects(loaded) {
      return None;
    }
    var data := FieldsOf(loaded);
    if !Named(data) {
      return None;
    }
    var sections := SectionList(data);
    var nav := RenderNav(sections);
    var groups := GroupEntries(data);
    var body := RenderBody(data, sections, groups);
    if body.None? {
      return None;
    }
    return Some(PageStart + nav + NavEnd + body.value + PageEnd);
  }

  /** The navigation loop: one link per section. */
  method RenderNav(sections: seq<string>) returns (nav: string)
    ensures nav == Nav(sections)
  {
    nav := "";
    for k := 0 to |sections|
      invariant nav == Nav(sections[..k])
    {
      assert sections[..k + 1][..k] == sections[..k];
      nav := nav + NavItem(sections[k]);
    }
    assert sections[..|sections|] == sections;
  }

  /** The grouping loop: `section_entries[section].append(entry)` over the entries. */
  method GroupEntries(data: seq<Dict>) returns (groups: map<string, seq<Dict>>)
    requires Named(data)
    ensures forall s :: Group(data, s) == if s in groups then groups[s] else []
  {
    groups := map[];
    for i := 0 to |data|
      invariant forall s :: Group(data[..i], s) == if s in groups then groups[s] else []
    {
      var s := SectionValue(data[i]).s;
      var entries := if s in groups then groups[s] else [];
      groups := groups[s := entries + [data[i]]];
      assert data[..i + 1][..i] == data[..i];
    }
    assert data[..|data|] == data;
  }

  /** The section loop; a section never filed reads as an empty list, as in a `defaultdict`. */
  method RenderBody(data: seq<Dict>, sections: seq<string>, groups: map<string, seq<Dict>>) returns (body: Option<string>)
    requires forall s :: Group(data, s) == if s in groups then groups[s] else []
    ensures body == Body(data, sections)
  {
    var text := "";
    for c := 0 to |sections|
      invariant Body(data, sections[..c]) == Some(text)
    {
      var s := sections[c];
      var entries := if s in groups then groups[s] else [];
      assert entries == Group(data, s);
      var block := RenderSection(s, entries);
      BodyStep(data, sections, c);
      if block.None? {
        BodyFail(data, sections, c + 1);
        return None;
      }
      text := text + block.value;
    }
    assert sections[..|sections|] == sections;
    return Some(text);
  }

  /** The body of the section loop: the section header, one card per entry, and the closing tags. */
  method RenderSection(s: string, entries: seq<Dict>) returns (block: Option<string>)
    ensures block == if Cards(entries).None? then None else Some(SectionOpen(s) + Cards(entries).value + SectionClose)
  {
    var cards := "";
    for j := 0 to |entries|
      invariant Cards(entries[..j]) == Some(cards)
    {
      var card := CardOf(entries[j]);
      CardsStep(entries, j);
      if card.None? {
        CardsFail(entries, j + 1);
        return None;
      }
      cards := cards + CardHtml(card.value);
    }
    assert entries[..|entries|] == entries;
    return Some(SectionOpen(s) + cards + SectionClose);
  }

  /** The cards of one more entry. */
  lemma CardsStep(es: seq<Dict>, j: nat)
    requires j < |es|
    ensures Cards(es[..j + 1]) == CardStep(Cards(es[..j]), es[j])
  {
    assert es[..j + 1][..j] == es[..j];
  }

  lemma BodyStep(data: seq<Dict>, ss: seq<string>, c: nat)
    requires c < |ss|
    ensures Body(data, ss[..c + 1]) ==
      (var done := Body(data, ss[..c]);
       var block := SectionHtml(data, ss[c]);
       if done.Some? && block.Some? then Some(done.value + block.value) else None)
  {
    assert ss[..c + 1][..c] == ss[..c];
  }

  /** Once a card raises, the whole list of cards does. */
  lemma {:induction false} CardsFail(es: seq<Dict>, j: nat)
    requires 0 < j <= |es| && Cards(es[..j]).None?
    ensures Cards(es).None?
    decreases |es| - j
  {
    if j < |es| {
      assert es[..j + 1][..j] == es[..j];
      CardsFail(es, j + 1);
    } else {
      assert es[..j] == es;
    }
  }

  /** Once a section raises, the whole page does. */
  lemma {:induction false} BodyFail(data: seq<Dict>, ss: seq<string>, c: nat)
    requires 0 < c <= |ss| && Body(data, ss[..c]).None?
    ensures Body(data, ss).None?
    decreases |ss| - c
  {
    if c < |ss| {
      assert ss[..c + 1][..c] == ss[..c];
      BodyFail(data, ss, c + 1);
    } else {
      assert ss[..c] == ss;
    }
  }

  // Properties

  /** An entry without a section is listed under "Unknown Section". */
  lemma UnknownSectionDefault(e: Dict)
    ensures !HasKey(e, "section") ==> SectionValue(e) == JStr(UnknownSection)
    ensures HasKey(e, "section") ==> Pair("section", SectionValue(e)) in e
  {
  }

  /** The navigation lists each section of the data exactly once, in sorted order. */
  lemma NavListsSections(data: seq<Dict>)
    requires Named(data)
    ensures Text.StrictlySorted(SectionList(data))
    ensures forall s :: s in SectionList(data) <==> exists i :: 0 <= i < |data| && SectionValue(data[i]) == JStr(s)
  {
    var names := Names(data);
    forall s
      ensures s in names <==> exists i :: 0 <= i < |data| && SectionValue(data[i]) == JStr(s)
    {
      if s in names {
        var i :| 0 <= i < |names| && names[i] == s;
        assert SectionValue(data[i]) == JStr(s);
      }
    }
  }

  /** The navigation link and the section block carry the same slug. */
  lemma SlugShared(s: string)
    ensures Text.OccursAt(NavItem(s), Slug(s), 14) && Text.OccursAt(SectionOpen(s), Slug(s), 25)
  {
    var t := Slug(s);
    var a, b := "<li><a href=\"#", "<div class=\"section\" id=\"";
    assert |a| == 14 && |b| == 25;
    assert (a + t + "\">" + s + "</a></li>")[14..14 + |t|] == t;
    assert (b + t + "\"><h2>" + s + "</h2><div class=\"grid\">")[25..25 + |t|] == t;
  }

  /**
   * A card's class is `short` or `long` exactly when the lower-cased
   * `sample_type` is that word, and empty otherwise; a missing type shows as
   * `random` with no class.
   */
  lemma CardClass(e: Dict)
    requires CardOf(e).Some?
    ensures var c := CardOf(e).value;
              && (c.cssClass == "short" <==> c.sampleType == "short")
              && (c.cssClass == "long" <==> c.sampleType == "long")
              && (c.cssClass == "" <==> c.sampleType != "short" && c.sampleType != "long")
              && (HasKey(e, "sample_type") ==> c.sampleType == Text.Lower(Lookup(e, "sample_type", JNull).s))
              && (!HasKey(e, "sample_type") ==> c.sampleType == "random" && c.cssClass == "")
  {
    var t := Lookup(e, "sample_type", JStr("random"));
    var c := CardOf(e).value;
    assert c.sampleType == Text.Lower(t.s) && c.cssClass == CssClass(c.sampleType);
    if HasKey(e, "sample_type") {
      LookupEither(e, "sample_type", JStr("random"));
    } else {
      RandomIsLower();
    }
  }

  lemma RandomIsLower()
    ensures Text.Lower("random") == "random"
  {
    Text.LowerIdle("random");
  }

  /** Missing alt texts show as a dash, missing titles as "No Title"; present values are shown as they are. */
  lemma CardDefaults(e: Dict)
    requires CardOf(e).Some?
    ensures var c := CardOf(e).value;
      && c.altInitial == (if HasKey(e, "openai_alt_text_initial") then Show(Lookup(e, "openai_alt_text_initial", JNull)) else NoText)
      && c.altRefined == (if HasKey(e, "openai_alt_text_refined") then Show(Lookup(e, "openai_alt_text_refined", JNull)) else NoText)
      && c.headline == (if HasKey(e, "headline") then Show(Lookup(e, "headline", JNull)) else "No Title")
      && c.url == (if HasKey(e, "article_url") then Show(Lookup(e, "article_url", JNull)) else "#")
  {
  }

  /** Woven text contains the values in order. */
  lemma {:induction false} WeaveInOrder(ps: seq<string>, vs: seq<string>)
    requires |ps| == |vs| + 1
    ensures Text.InOrder(Weave(ps, vs), vs)
  {
    if vs != [] {
      var rest := Weave(ps[1..], vs[1..]);
      WeaveInOrder(ps[1..], vs[1..]);
      Text.InOrderCons(ps[0], vs[0], rest, vs[1..]);
      assert ps[0] + vs[0] + rest == ps[0] + (vs[0] + rest);
      assert [vs[0]] + vs[1..] == vs;
    }
  }

  /** A card contains its values verbatim, in page order, with nothing escaped. */
  lemma CardShowsValues(c: Card)
    ensures Text.InOrder(CardHtml(c), [c.cssClass, c.image, c.url, c.headline, c.abstractText, c.caption,
                                       c.altInitial, c.altRefined, Text.Capitalize(c.sampleType)])
  {
    WeaveInOrder(CardTemplate, CardValues(c));
  }

  predicate Distinct(ks: seq<Json>)
  {
    forall i, j :: 0 <= i < j < |ks| ==> ks[i] != ks[j]
  }

  /** The elements of `xs` with key `ks[0]`, then those with key `ks[1]`, and so on. */
  function GroupedBy<T>(xs: seq<T>, key: T -> Json, ks: seq<Json>): seq<T>
  {
    if ks == [] then [] else GroupedBy(xs, key, ks[..|ks| - 1]) + Filter(xs, key, ks[|ks| - 1])
  }

  /** One more element adds itself to the grouping once when its key is listed. */
  lemma {:induction false} GroupedStep<T>(xs: seq<T>, key: T -> Json, ks: seq<Json>, x: T)
    requires Distinct(ks)
    ensures multiset(GroupedBy(xs + [x], key, ks)) ==
              multiset(GroupedBy(xs, key, ks)) + (if key(x) in ks then multiset{x} else multiset{})
  {
    if ks != [] {
      var m := |ks| - 1;
      var init := ks[..m];
      assert Distinct(init);
      GroupedStep(xs, key, init, x);
      FilterSnoc(xs, key, ks[m], x);
      assert GroupedBy(xs + [x], key, ks) == GroupedBy(xs + [x], key, init) + Filter(xs + [x], key, ks[m]);
      assert GroupedBy(xs, key, ks) == GroupedBy(xs, key, init) + Filter(xs, key, ks[m]);
      LastKey(ks, key(x));
    }
  }

  /** Filtering `xs + [x]` is filtering `xs`, then `x` when its key matches. */
  lemma FilterSnoc<T>(xs: seq<T>, key: T -> Json, k: Json, x: T)
    ensures Filter(xs + [x], key, k) == Filter(xs, key, k) + (if key(x) == k then [x] else [])
  {
    assert (xs + [x])[..|xs|] == xs;
  }

  /** A key lies in distinct `ks` iff it lies in all but the last, or is the last and only there. */
  lemma LastKey(ks: seq<Json>, k: Json)
    requires ks != [] && Distinct(ks)
    ensures k in ks <==> k in ks[..|ks| - 1] || k == ks[|ks| - 1]
    ensures k == ks[|ks| - 1] ==> k !in ks[..|ks| - 1]
  {
    assert ks == ks[..|ks| - 1] + [ks[|ks| - 1]];
  }

  lemma {:induction false} GroupedEmpty<T>(key: T -> Json, ks: seq<Json>)
    ensures GroupedBy([], key, ks) == []
  {
    if ks != [] {
      GroupedEmpty(key, ks[..|ks| - 1]);
    }
  }

  /** Grouping under distinct keys that cover every element is a rearrangement. */
  lemma {:induction false} GroupedPermutes<T>(xs: seq<T>, key: T -> Json, ks: seq<Json>)
    requires Distinct(ks)
    requires forall i :: 0 <= i < |xs| ==> key(xs[i]) in ks
    ensures multiset(GroupedBy(xs, key, ks)) == multiset(xs)
  {
    if xs == [] {
      GroupedEmpty(key, ks);
    } else {
      var n := |xs| - 1;
      var init := xs[..n];
      assert forall i :: 0 <= i < n ==> init[i] == xs[i];
      GroupedPermutes(init, key, ks);
      assert xs == init + [xs[n]];
      GroupedStep(init, key, ks, xs[n]);
    }
  }

  /** The section names as JSON strings. */
  function Seqs(ss: seq<string>): (r: seq<Json>)
    ensures |r| == |ss|
    ensures forall i :: 0 <= i < |ss| ==> r[i] == JStr(ss[i])
  {
    if ss == [] then [] else Seqs(ss[..|ss| - 1]) + [JStr(ss[|ss| - 1])]
  }

  /** The entries of the sections `ss`, section after section. */
  function Grouped(data: seq<Dict>, ss: seq<string>): seq<Dict>
  {
    GroupedBy(data, SectionValue, Seqs(ss))
  }

  /**
   * The page renders every entry exactly once, under its own section: the
   * sections' entry lists, taken in navigation order, are a rearrangement
   * of the data, and each holds only entries of its section, in input order.
   */
  lemma EveryEntryOnce(data: seq<Dict>)
    requires Named(data)
    ensures multiset(Grouped(data, SectionList(data))) == multiset(data)
  {
    var ss := SectionList(data);
    NavListsSections(data);
    forall i, j | 0 <= i < j < |ss| ensures Seqs(ss)[i] != Seqs(ss)[j] {
      Text.LessIrreflexive(ss[i]);
    }
    forall i | 0 <= i < |data| ensures SectionValue(data[i]) in Seqs(ss) {
      var s := SectionValue(data[i]).s;
      assert s in ss;
      var k :| 0 <= k < |ss| && ss[k] == s;
      assert Seqs(ss)[k] == JStr(s);
    }
    GroupedPermutes(data, SectionValue, Seqs(ss));
  }
}
