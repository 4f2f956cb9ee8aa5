/**
 * Category sampling: the records are grouped by a category field (missing
 * means "UNKNOWN"), each group is cut down to at most `maxPerCategory`
 * records by a random pick, and every kept record is copied with an extra
 * field `image_url_clean`, its image URL without the query string.
 *
 * The random pick is an oracle: `draws[c]` is what `random.sample` returns
 * for the `c`-th category in first-appearance order, as positions into that
 * category's records, in pick order.  Any distinct positions of the right
 * number are allowed.
 *
 * The script raises, and writes nothing, when a category value cannot be a
 * dict key (a list or an object), when the cap is negative, or when a kept
 * record's `image` is not a string.  `None` stands for that outcome.
 */
module Sampling {
  import opened Wrappers
  import opened Json
  import Text

  const CleanKey := "image_url_clean"
  const ImageKey := "image"
  const Unknown := JStr("UNKNOWN")

  /** `item.get(category_key, "UNKNOWN")`. */
  function CategoryOf(item: Dict, categoryKey: string): Json
  {
    Lookup(item, categoryKey, Unknown)
  }

  /** The grouping key of `item`. */
  function GroupOf(item: Dict, categoryKey: string): Json
  {
    KeyOf(CategoryOf(item, categoryKey))
  }

  /** The keys of `categories` after the records of `data` are filed: each key once, in first-appearance order. */
  function Categories(data: seq<Dict>, categoryKey: string): (r: seq<Json>)
  {
    if data == [] then []
    else
      var cats := Categories(data[..|data| - 1], categoryKey);
      var g := GroupOf(data[|data| - 1], categoryKey);
      if g in cats then cats else cats + [g]
  }

  /** `categories[c]`: the records of `data` filed under key `c`, in input order. */
  function Group(data: seq<Dict>, categoryKey: string, c: Json): (r: seq<Dict>)
    ensures |r| <= |data|
  {
    if data == [] then []
    else
      Group(data[..|data| - 1], categoryKey, c)
      + if GroupOf(data[|data| - 1], categoryKey) == c then [data[|data| - 1]] else []
  }

  /** `random.sample(items, k)` may return the items at positions `d`: `k` distinct positions. */
  predicate ValidDraw(d: seq<nat>, size: nat, k: nat)
  {
    |d| == k
    && (forall i :: 0 <= i < |d| ==> d[i] < size)
    && (forall i, j :: 0 <= i < j < |d| ==> d[i] != d[j])
  }

  /** The oracle has one draw per category, valid wherever a category is capped. */
  predicate ValidDraws(data: seq<Dict>, categoryKey: string, maxPerCategory: int, draws: seq<seq<nat>>)
  {
    var cats := Categories(data, categoryKey);
    |draws| == |cats|
    && forall c :: 0 <= c < |cats| && 0 <= maxPerCategory < |Group(data, categoryKey, cats[c])| ==>
         ValidDraw(draws[c], |Group(data, categoryKey, cats[c])|, maxPerCategory)
  }

  /** The items at positions `d`, in the order of `d`. */
  function Pick(items: seq<Dict>, d: seq<nat>): (r: seq<Dict>)
    requires forall i :: 0 <= i < |d| ==> d[i] < |items|
    ensures |r| == |d|
    ensures forall i :: 0 <= i < |d| ==> r[i] == items[d[i]]
  {
    if d == [] then [] else Pick(items, d[..|d| - 1]) + [items[d[|d| - 1]]]
  }

  /** `items if len(items) <= max_per_category else random.sample(items, max_per_category)`; `None` when that raises. */
  function Select(items: seq<Dict>, maxPerCategory: int, d: seq<nat>): (r: Option<seq<Dict>>)
    requires 0 <= maxPerCategory < |items| ==> ValidDraw(d, |items|, maxPerCategory)
  {
    if |items| <= maxPerCategory then Some(items)
    else if maxPerCategory < 0 then None
    else Some(Pick(items, d))
  }

  /**
   * The copy of `item` with `image_url_clean` set to `image.split("?", 1)[0]`:
   * the image URL up to its first `?`, the whole URL when it has none, and
   * `""` without an image.  Every other field and the key order are kept;
   * only an image that is not a string raises.
   */
  function CleanEntry(item: Dict): (r: Option<Dict>)
    ensures r.None? <==> HasKey(item, ImageKey) && !Lookup(item, ImageKey, JNull).JStr?
    ensures r.Some? ==>
      var e := r.value;
      var raw := Lookup(item, ImageKey, JStr(""));
      && Get(e, CleanKey).Some? && Get(e, CleanKey).value.JStr?
      && var u := Get(e, CleanKey).value.s;
      && '?' !in u && u <= raw.s
      && ('?' in raw.s ==> raw.s[|u|] == '?')
      && ('?' !in raw.s ==> u == raw.s)
      && (!HasKey(item, ImageKey) ==> u == "")
      && (forall k :: k != CleanKey ==> Get(e, k) == Get(item, k))
      && Keys(item) <= Keys(e)
  {
    var raw := Lookup(item, ImageKey, JStr(""));
    if raw.JStr? then
      var e := Set(item, CleanKey, JStr(Text.BeforeFirst(raw.s, '?')));
      assert Keys(item) <= Keys(e) by {
        if HasKey(item, CleanKey) {
          assert Keys(e) == Keys(item);
        } else {
          assert Keys(e)[..|Keys(item)|] == Keys(item);
        }
      }
      Some(e)
    else None
  }

  /** The cleaned copies of `items`, in order; `None` at the first that raises. */
  function CleanAll(items: seq<Dict>): Option<seq<Dict>>
  {
    MapAll(CleanEntry, items)
  }

  /** The block of output records for category `c`. */
  function Block(data: seq<Dict>, categoryKey: string, maxPerCategory: int, draws: seq<seq<nat>>, c: nat): Option<seq<Dict>>
    requires ValidDraws(data, categoryKey, maxPerCategory, draws) && c < |draws|
  {
    var cats := Categories(data, categoryKey);
    match Select(Group(data, categoryKey, cats[c]), maxPerCategory, draws[c])
    case None => None
    case Some(selected) => CleanAll(selected)
  }

  /** The blocks of all categories, in first-appearance order. */
  function AllBlocks(data: seq<Dict>, categoryKey: string, maxPerCategory: int, draws: seq<seq<nat>>, m: nat): (r: seq<Option<seq<Dict>>>)
    requires ValidDraws(data, categoryKey, maxPerCategory, draws) && m <= |draws|
    ensures |r| == m
    ensures forall c :: 0 <= c < m ==> r[c] == Block(data, categoryKey, maxPerCategory, draws, c)
  {
    if m == 0 then [] else AllBlocks(data, categoryKey, maxPerCategory, draws, m - 1) + [Block(data, categoryKey, maxPerCategory, draws, m - 1)]
  }

  /** The first `m` blocks one after another; `None` when one of them is. */
  function Concat(blocks: seq<Option<seq<Dict>>>, m: nat): Option<seq<Dict>>
    requires m <= |blocks|
  {
    if m == 0 then Some([])
    else
      var done := Concat(blocks, m - 1);
      if done.Some? && blocks[m - 1].Some? then Some(done.value + blocks[m - 1].value) else None
  }

  /** Every record's category can be a dictionary key. */
  predicate AllHashable(data: seq<Dict>, categoryKey: string)
  {
    forall i :: 0 <= i < |data| ==> Hashable(CategoryOf(data[i], categoryKey))
  }

  /**
   * What `sample_by_category_with_clean_image_url` writes for the loaded
   * list, or `None` when it raises: `item.get` raises on a record that is not
   * a dict.
   */
  function SampleOf(data: seq<Json>, categoryKey: string, maxPerCategory: int, draws: seq<seq<nat>>): Option<seq<Dict>>
    requires ValidDraws(FieldsOf(data), categoryKey, maxPerCategory, draws)
  {
    if AllObjects(data) then Sampled(FieldsOf(data), categoryKey, maxPerCategory, draws) else None
  }

  /** What `sample_by_category_with_clean_image_url` writes for a list of dicts, or `None` when it raises. */
  function Sampled(data: seq<Dict>, categoryKey: string, maxPerCategory: int, draws: seq<seq<nat>>): Option<seq<Dict>>
    requires ValidDraws(data, categoryKey, maxPerCategory, draws)
  {
    if AllHashable(data, categoryKey)
    then Concat(AllBlocks(data, categoryKey, maxPerCategory, draws, |draws|), |draws|)
    else None
  }

  /** The position of `k` in `keys`, or `|keys|` when it is not there. */
  function IndexOf(keys: seq<Json>, k: Json): (r: nat)
    ensures r <= |keys|
    ensures r < |keys| ==> keys[r] == k
    ensures r == |keys| <==> k !in keys
  {
    if keys == [] then 0
    else if keys[|keys| - 1] == k then |keys| - 1
    else if k in keys[..|keys| - 1] then IndexOf(keys[..|keys| - 1], k)
    else |keys|
  }

  /** The grouping loop has filed the first `n` records. */
  ghost predicate Grouped(data: seq<Dict>, categoryKey: string, n: nat, cats: seq<Json>, groups: seq<seq<Dict>>)
    requires n <= |data|
  {
    cats == Categories(data[..n], categoryKey)
    && |groups| == |cats|
    && (forall c :: 0 <= c < |cats| ==> groups[c] == Group(data[..n], categoryKey, cats[c]))
  }

  /** Filing record `n` appends it to its own group and to no other; a new key opens a group. */
  lemma FileStep(data: seq<Dict>, categoryKey: string, n: nat, cats: seq<Json>, groups: seq<seq<Dict>>,
                 cats': seq<Json>, groups': seq<seq<Dict>>)
    requires n < |data|
    requires Grouped(data, categoryKey, n, cats, groups)
    requires var g := GroupOf(data[n], categoryKey);
      var c := IndexOf(cats, g);
      if c == |cats| then cats' == cats + [g] && groups' == groups + [[data[n]]]
      else cats' == cats && groups' == groups[c := groups[c] + [data[n]]]
    ensures Grouped(data, categoryKey, n + 1, cats', groups')
  {
    var g := GroupOf(data[n], categoryKey);
    CategoriesStep(data, categoryKey, n);
    GroupStep(data, categoryKey, n);
    CategoriesDistinct(data[..n], categoryKey);
    assert Distinct(cats);
    var idx := IndexOf(cats, g);
    forall c | 0 <= c < |cats'|
      ensures groups'[c] == Group(data[..n + 1], categoryKey, cats'[c])
    {
      if c == |cats| {
        GroupEmpty(data[..n], categoryKey, g);
      } else if c != idx {
        assert cats[c] != g;
      }
    }
  }

  /** The categories of `data[..n + 1]` in terms of those of `data[..n]`. */
  lemma CategoriesStep(data: seq<Dict>, categoryKey: string, n: nat)
    requires n < |data|
    ensures var g := GroupOf(data[n], categoryKey);
      var cats := Categories(data[..n], categoryKey);
      Categories(data[..n + 1], categoryKey) == if g in cats then cats else cats + [g]
  {
    var prefix := data[..n + 1];
    assert prefix[..n] == data[..n];
    assert prefix[n] == data[n];
  }

  /** The groups of `data[..n + 1]` in terms of those of `data[..n]`. */
  lemma GroupStep(data: seq<Dict>, categoryKey: string, n: nat)
    requires n < |data|
    ensures forall c {:trigger Group(data[..n + 1], categoryKey, c)} ::
      Group(data[..n + 1], categoryKey, c)
        == Group(data[..n], categoryKey, c) + if GroupOf(data[n], categoryKey) == c then [data[n]] else []
  {
    var prefix := data[..n + 1];
    assert prefix[..n] == data[..n];
    assert prefix[n] == data[n];
  }

  predicate Distinct(keys: seq<Json>)
  {
    forall i, j :: 0 <= i < j < |keys| ==> keys[i] != keys[j]
  }

  /** Each key appears once among the categories. */
  lemma {:induction false} CategoriesDistinct(data: seq<Dict>, categoryKey: string)
    ensures Distinct(Categories(data, categoryKey))
  {
    if data != [] {
      var cats := Categories(data[..|data| - 1], categoryKey);
      var g := GroupOf(data[|data| - 1], categoryKey);
      CategoriesDistinct(data[..|data| - 1], categoryKey);
      if g !in cats {
        var cats' := cats + [g];
        forall i, j | 0 <= i < j < |cats'|
          ensures cats'[i] != cats'[j]
        {
          assert cats'[i] == cats[i];
          if j < |cats| {
            assert cats'[j] == cats[j];
          }
        }
        assert Distinct(cats');
      }
    }
  }

  /** A key that is not among the categories has no records. */
  lemma {:induction false} GroupEmpty(data: seq<Dict>, categoryKey: string, c: Json)
    requires c !in Categories(data, categoryKey)
    ensures Group(data, categoryKey, c) == []
  {
    if data != [] {
      GroupEmpty(data[..|data| - 1], categoryKey, c);
    }
  }

  /**
   * `sample_by_category_with_clean_image_url` without the file I/O: groups
   * `data` by `categoryKey`, keeps at most `maxPerCategory` records per
   * category (those `draws` names when there are more), and copies each kept
   * record with `image_url_clean` added.
   */
  method SampleByCategory(data: seq<Json>, categoryKey: string, maxPerCategory: int, draws: seq<seq<nat>>)
    returns (sampled: Option<seq<Dict>>)
    requires ValidDraws(FieldsOf(data), categoryKey, maxPerCategory, draws)
    ensures sampled == SampleOf(data, categoryKey, maxPerCategory, draws)
  {
    var ok, cats, groups := GroupRecords(data, categoryKey);
    if !ok {
      return None;
    }
    ghost var records := FieldsOf(data);
    ghost var blocks := AllBlocks(records, categoryKey, maxPerCategory, draws, |draws|);
    var out: seq<Dict> := [];
    for c := 0 to |groups|
      invariant Concat(blocks, c) == Some(out)
    {
      DrawOf(records, categoryKey, maxPerCategory, draws, c, groups[c]);
      var block := SampleGroup(groups[c], maxPerCategory, draws[c]);
      BlockIs(records, categoryKey, maxPerCategory, draws, c, groups[c], block);
      if block.None? {
        ConcatFail(blocks, c + 1, |blocks|);
        return None;
      }
      out := out + block.value;
    }
    return Some(out);
  }

  /** The draw for group `c` is valid wherever that group is capped. */
  lemma DrawOf(data: seq<Dict>, categoryKey: string, maxPerCategory: int, draws: seq<seq<nat>>, c: nat, items: seq<Dict>)
    requires ValidDraws(data, categoryKey, maxPerCategory, draws) && c < |draws|
    requires items == Group(data, categoryKey, Categories(data, categoryKey)[c])
    ensures 0 <= maxPerCategory < |items| ==> ValidDraw(draws[c], |items|, maxPerCategory)
  {
  }

  /** What the inner loop computes for group `c` is block `c`. */
  lemma BlockIs(data: seq<Dict>, categoryKey: string, maxPerCategory: int, draws: seq<seq<nat>>, c: nat,
                items: seq<Dict>, block: Option<seq<Dict>>)
    requires ValidDraws(data, categoryKey, maxPerCategory, draws) && c < |draws|
    requires items == Group(data, categoryKey, Categories(data, categoryKey)[c])
    requires Select(items, maxPerCategory, draws[c]).None? ==> block.None?
    requires Select(items, maxPerCategory, draws[c]).Some? ==> block == CleanAll(Select(items, maxPerCategory, draws[c]).value)
    ensures block == AllBlocks(data, categoryKey, maxPerCategory, draws, |draws|)[c]
  {
  }

  /**
   * The grouping loop: files each record under its category in a
   * `defaultdict(list)`; `ok` is false when a category cannot be a key.
   */
  method GroupRecords(data: seq<Json>, categoryKey: string)
    returns (ok: bool, cats: seq<Json>, groups: seq<seq<Dict>>)
    ensures ok <==> AllObjects(data) && AllHashable(FieldsOf(data), categoryKey)
    ensures ok ==> cats == Categories(FieldsOf(data), categoryKey) && |groups| == |cats|
    ensures ok ==> forall c :: 0 <= c < |cats| ==> groups[c] == Group(FieldsOf(data), categoryKey, cats[c])
  {
    ghost var records := FieldsOf(data);
    cats, groups := [], [];
    for n := 0 to |data|
      invariant Grouped(records, categoryKey, n, cats, groups)
      invariant forall i :: 0 <= i < n ==> data[i].JObject? && Hashable(CategoryOf(records[i], categoryKey))
    {
      if !data[n].JObject? {
        return false, cats, groups;
      }
      var item := data[n].fields;
      var cat := CategoryOf(item, categoryKey);
      if !Hashable(cat) {
        return false, cats, groups;
      }
      var g := KeyOf(cat);
      var c := IndexOf(cats, g);
      ghost var cats0, groups0 := cats, groups;
      if c == |cats| {
        cats, groups := cats + [g], groups + [[item]];
      } else {
        groups := groups[c := groups[c] + [item]];
      }
      FileStep(records, categoryKey, n, cats0, groups0, cats, groups);
    }
    assert records[..|data|] == records;
    return true, cats, groups;
  }

  /** One category's records: the selection, copied and cleaned; `None` when either raises. */
  method SampleGroup(items: seq<Dict>, maxPerCategory: int, d: seq<nat>) returns (block: Option<seq<Dict>>)
    requires 0 <= maxPerCategory < |items| ==> ValidDraw(d, |items|, maxPerCategory)
    ensures Select(items, maxPerCategory, d).None? ==> block.None?
    ensures Select(items, maxPerCategory, d).Some? ==> block == CleanAll(Select(items, maxPerCategory, d).value)
  {
    var selected: seq<Dict>;
    if |items| <= maxPerCategory {
      selected := items;
    } else if maxPerCategory < 0 {
      return None;
    } else {
      selected := Pick(items, d);
    }
    block := CleanEach(selected);
  }

  /** The inner loop: copies and cleans each selected record in turn. */
  method CleanEach(selected: seq<Dict>) returns (r: Option<seq<Dict>>)
    ensures r == CleanAll(selected)
  {
    var done: seq<Dict> := [];
    for s := 0 to |selected|
      invariant CleanAll(selected[..s]) == Some(done)
    {
      assert selected[..s + 1][..s] == selected[..s];
      var raw := Lookup(selected[s], ImageKey, JStr(""));
      if !raw.JStr? {
        MapAllFail(CleanEntry, selected, s + 1);
        return None;
      }
      done := done + [Set(selected[s], CleanKey, JStr(Text.BeforeFirst(raw.s, '?')))];
    }
    assert selected[..|selected|] == selected;
    return Some(done);
  }

  /** Once the concatenation fails, later blocks do not mend it. */
  lemma {:induction false} ConcatFail(blocks: seq<Option<seq<Dict>>>, m: nat, n: nat)
    requires m <= n <= |blocks|
    requires Concat(blocks, m).None?
    ensures Concat(blocks, n).None?
  {
    if m < n {
      ConcatFail(blocks, m, n - 1);
    }
  }

  // Properties

  /** A record without the category field is filed under "UNKNOWN". */
  lemma MissingCategoryIsUnknown(item: Dict, categoryKey: string)
    ensures !HasKey(item, categoryKey) ==> GroupOf(item, categoryKey) == Unknown
    ensures HasKey(item, categoryKey) ==> Pair(categoryKey, CategoryOf(item, categoryKey)) in item
  {
  }

  /**
   * Cleaning a list raises exactly when cleaning one of its records does,
   * and otherwise cleans each record in place.
   */
  lemma CleanAllAt(items: seq<Dict>)
    ensures CleanAll(items).Some? <==> forall k :: 0 <= k < |items| ==> CleanEntry(items[k]).Some?
    ensures CleanAll(items).Some? ==>
              forall k :: 0 <= k < |items| ==> CleanEntry(items[k]) == Some(CleanAll(items).value[k])
  {
    if forall k :: 0 <= k < |items| ==> CleanEntry(items[k]).Some? {
      MapAllSucceeds(CleanEntry, items);
    }
    if CleanAll(items).Some? {
      forall k | 0 <= k < |items|
        ensures CleanEntry(items[k]) == Some(CleanAll(items).value[k])
      {
        MapAllAt(CleanEntry, items, k);
      }
    }
  }

  function Min(a: int, b: int): int
  {
    if a <= b then a else b
  }

  /**
   * The block of category `c` has `min(len(items), max_per_category)`
   * records: the whole group in input order when it is small enough, and
   * otherwise the records at the drawn positions, all different.
   */
  lemma BlockContents(data: seq<Dict>, categoryKey: string, maxPerCategory: int, draws: seq<seq<nat>>, c: nat)
    requires ValidDraws(data, categoryKey, maxPerCategory, draws) && c < |draws|
    requires Block(data, categoryKey, maxPerCategory, draws, c).Some?
    ensures var items := Group(data, categoryKey, Categories(data, categoryKey)[c]);
      var b := Block(data, categoryKey, maxPerCategory, draws, c).value;
      && |b| == Min(|items|, maxPerCategory)
      && (|items| <= maxPerCategory ==>
            forall k :: 0 <= k < |b| ==> CleanEntry(items[k]).Some? && b[k] == CleanEntry(items[k]).value)
      && (|items| > maxPerCategory ==>
            (forall k :: 0 <= k < |b| ==>
               draws[c][k] < |items| && CleanEntry(items[draws[c][k]]).Some? &&
               b[k] == CleanEntry(items[draws[c][k]]).value)
            && (forall k, l :: 0 <= k < l < |b| ==> draws[c][k] != draws[c][l]))
  {
    var items := Group(data, categoryKey, Categories(data, categoryKey)[c]);
    var sel := Select(items, maxPerCategory, draws[c]);
    CleanAllAt(sel.value);
  }

  /** No block is `None`. */
  predicate AllSome(blocks: seq<Option<seq<Dict>>>)
  {
    forall c :: 0 <= c < |blocks| ==> blocks[c].Some?
  }

  /** The total of the first `m` block lengths. */
  function TotalLength(blocks: seq<Option<seq<Dict>>>, m: nat): nat
    requires m <= |blocks|
  {
    if m == 0 then 0 else TotalLength(blocks, m - 1) + if blocks[m - 1].Some? then |blocks[m - 1].value| else 0
  }

  /** The concatenation succeeds exactly when every block does, and then has their total length. */
  lemma {:induction false} ConcatParts(blocks: seq<Option<seq<Dict>>>, m: nat)
    requires m <= |blocks|
    ensures Concat(blocks, m).Some? <==> forall c :: 0 <= c < m ==> blocks[c].Some?
    ensures Concat(blocks, m).Some? ==> |Concat(blocks, m).value| == TotalLength(blocks, m)
  {
    if m > 0 {
      ConcatParts(blocks, m - 1);
    }
  }

  /**
   * The output exists when no category is unhashable and every block
   * exists; it then holds the blocks of the categories in order, each of
   * `min(len(items), max_per_category)` records.
   */
  lemma SampledShape(data: seq<Dict>, categoryKey: string, maxPerCategory: int, draws: seq<seq<nat>>)
    requires ValidDraws(data, categoryKey, maxPerCategory, draws)
    ensures Sampled(data, categoryKey, maxPerCategory, draws).Some? <==>
      AllHashable(data, categoryKey) && AllSome(AllBlocks(data, categoryKey, maxPerCategory, draws, |draws|))
    ensures var blocks := AllBlocks(data, categoryKey, maxPerCategory, draws, |draws|);
      var cats := Categories(data, categoryKey);
      Sampled(data, categoryKey, maxPerCategory, draws).Some? ==>
        && |Sampled(data, categoryKey, maxPerCategory, draws).value| == TotalLength(blocks, |draws|)
        && forall c :: 0 <= c < |draws| ==> |blocks[c].value| == Min(|Group(data, categoryKey, cats[c])|, maxPerCategory)
  {
    var blocks := AllBlocks(data, categoryKey, maxPerCategory, draws, |draws|);
    ConcatParts(blocks, |draws|);
    if AllHashable(data, categoryKey) {
      assert Sampled(data, categoryKey, maxPerCategory, draws) == Concat(blocks, |draws|);
    } else {
      assert Sampled(data, categoryKey, maxPerCategory, draws).None?;
    }
    forall c | 0 <= c < |draws| && blocks[c].Some?
      ensures |blocks[c].value| == Min(|Group(data, categoryKey, Categories(data, categoryKey)[c])|, maxPerCategory)
    {
      BlockContents(data, categoryKey, maxPerCategory, draws, c);
    }
  }

  /** A record is in the group of a key exactly when its own key is that key. */
  lemma {:induction false} GroupMembers(data: seq<Dict>, categoryKey: string, c: Json, x: Dict)
    ensures x in Group(data, categoryKey, c) <==> x in data && GroupOf(x, categoryKey) == c
  {
    if data != [] {
      var init := data[..|data| - 1];
      GroupMembers(init, categoryKey, c, x);
      assert data == init + [data[|data| - 1]];
    }
  }

  /** A key is a category exactly when some record has it. */
  lemma {:induction false} CategoriesCover(data: seq<Dict>, categoryKey: string, g: Json)
    ensures g in Categories(data, categoryKey) <==> exists i :: 0 <= i < |data| && GroupOf(data[i], categoryKey) == g
  {
    if data != [] {
      var init := data[..|data| - 1];
      var last := GroupOf(data[|data| - 1], categoryKey);
      var cats := Categories(init, categoryKey);
      assert Categories(data, categoryKey) == if last in cats then cats else cats + [last];
      CategoriesCover(init, categoryKey, g);
      FiledInPrefix(data, init, categoryKey, g);
    }
  }

  /** Some record of `data` is filed under `g` iff one of `init` is, or the last one is. */
  lemma FiledInPrefix(data: seq<Dict>, init: seq<Dict>, categoryKey: string, g: Json)
    requires data != [] && init == data[..|data| - 1]
    ensures (exists i :: 0 <= i < |data| && GroupOf(data[i], categoryKey) == g) <==>
            (exists i :: 0 <= i < |init| && GroupOf(init[i], categoryKey) == g) || GroupOf(data[|data| - 1], categoryKey) == g
  {
    if exists i :: 0 <= i < |data| && GroupOf(data[i], categoryKey) == g {
      var i :| 0 <= i < |data| && GroupOf(data[i], categoryKey) == g;
      if i < |init| {
        assert init[i] == data[i];
      }
    }
    if exists i :: 0 <= i < |init| && GroupOf(init[i], categoryKey) == g {
      var i :| 0 <= i < |init| && GroupOf(init[i], categoryKey) == g;
      assert data[i] == init[i];
    }
  }

  /** The categories of a prefix are a prefix of the categories. */
  lemma {:induction false} CategoriesGrow(data: seq<Dict>, categoryKey: string, m: nat, n: nat)
    requires m <= n <= |data|
    ensures Categories(data[..m], categoryKey) <= Categories(data[..n], categoryKey)
  {
    assert data[..n][..m] == data[..m];
    CategoriesOfPrefix(data[..n], categoryKey, m);
  }

  lemma {:induction false} CategoriesOfPrefix(data: seq<Dict>, categoryKey: string, m: nat)
    requires m <= |data|
    ensures Categories(data[..m], categoryKey) <= Categories(data, categoryKey)
  {
    if m < |data| {
      var init := data[..|data| - 1];
      assert init[..m] == data[..m];
      CategoriesOfPrefix(init, categoryKey, m);
      PrefixExtend(Categories(data[..m], categoryKey), Categories(init, categoryKey), Categories(data, categoryKey), GroupOf(data[|data| - 1], categoryKey));
    } else {
      assert data[..m] == data;
    }
  }

  lemma PrefixExtend<T>(a: seq<T>, b: seq<T>, c: seq<T>, x: T)
    requires a <= b && (c == b || c == b + [x])
    ensures a <= c
  {
    if c != b {
      assert c[..|b|] == b;
    }
  }

  /** Position `i` is where key `g` first occurs. */
  predicate FirstAt(data: seq<Dict>, categoryKey: string, g: Json, i: nat)
  {
    i < |data| && GroupOf(data[i], categoryKey) == g
    && forall k :: 0 <= k < i ==> GroupOf(data[k], categoryKey) != g
  }

  /** A key's place among the categories is the number of keys seen before its first occurrence. */
  lemma CategoryIndex(data: seq<Dict>, categoryKey: string, b: nat, j: nat)
    requires b < |Categories(data, categoryKey)|
    requires FirstAt(data, categoryKey, Categories(data, categoryKey)[b], j)
    ensures |Categories(data[..j], categoryKey)| == b
  {
    var cats := Categories(data, categoryKey);
    var g := cats[b];
    var before := Categories(data[..j], categoryKey);
    CategoriesCover(data[..j], categoryKey, g);
    assert g !in before by {
      assert forall i :: 0 <= i < j ==> data[..j][i] == data[i];
    }
    CategoriesStep(data, categoryKey, j);
    var after := Categories(data[..j + 1], categoryKey);
    assert after == before + [g];
    CategoriesGrow(data, categoryKey, j + 1, |data|);
    assert data[..|data|] == data;
    assert cats[|before|] == after[|before|] == g;
    CategoriesDistinct(data, categoryKey);
  }

  /**
   * The categories come in first-appearance order: a category listed
   * before another first occurs earlier in the input.
   */
  lemma FirstAppearanceOrder(data: seq<Dict>, categoryKey: string, a: nat, b: nat, i: nat, j: nat)
    requires a < b < |Categories(data, categoryKey)|
    requires FirstAt(data, categoryKey, Categories(data, categoryKey)[a], i)
    requires FirstAt(data, categoryKey, Categories(data, categoryKey)[b], j)
    ensures i < j
  {
    CategoryIndex(data, categoryKey, a, i);
    CategoryIndex(data, categoryKey, b, j);
    if j <= i {
      CategoriesGrow(data, categoryKey, j, i);
    }
  }
}
