/**
 * `collect_recipes`: turning the recipe files of a directory into one list
 * of index entries per language, each sorted newest first. The directory
 * listing, the file reads and the modification times are inputs (a
 * sequence of `Record`s, in the `sorted(glob("*.md"))` order); YAML loading
 * and `strptime` are parameters.
 */
module Catalog {
  import opened Wrappers
  import opened Strings
  import opened Metadata
  import opened FrontMatter
  import opened Dates
  import opened FileNames
  import opened Ordering

  /** A `*.md` file of the recipes directory: its name, its text, its modification time. */
  datatype Record = Record(name: string, text: string, mtime: Date)

  /** The dict `collect_recipes` builds per recipe. */
  datatype Item = Item(
    title: string,
    cover: Option<string>,
    portions: Value,
    timePrep: Value,
    timeCook: Value,
    difficulty: Value,
    date: Date,
    link: string,
    path: string)

  /** The sort key `(x["date"], x["title"].lower())`. */
  function ItemKey(it: Item): (r: SortKey)
  {
    SortKey(it.date, Lower(it.title))
  }

  /** `d.get(key)` on a dict. */
  function Lookup(m: map<string, Value>, key: string): (r: Value)
    ensures key !in m ==> r == Null
  {
    if key in m then m[key] else Null
  }

  /**
   * The item for a recipe whose metadata `meta` and `time` dicts are known
   * and whose date is resolved: the title falls back to the file's stem,
   * the cover is kept only when truthy, the link is the language-neutral name.
   */
  function ItemOf(rec: Record, meta: map<string, Value>, time: map<string, Value>, date: Date): (r: Item)
  {
    var title := Lookup(meta, "title");
    var cover := Lookup(meta, "cover");
    Item(
      title := if Truthy(title) then Str(title) else Stem(rec.name),
      cover := if Truthy(cover) then Some(Str(cover)) else None,
      portions := Lookup(meta, "portions"),
      timePrep := Lookup(time, "prep"),
      timeCook := Lookup(time, "cook"),
      difficulty := Lookup(meta, "difficulty"),
      date := date,
      link := BaseStem(rec.name),
      path := rec.name)
  }

  /**
   * What the loop body of `collect_recipes` makes of one recipe file: the
   * item, or the exception that ends the run (bad YAML, metadata or its
   * `time` entry not a dict). The date is the metadata's when it parses,
   * else the modification time.
   */
  function MakeItem(rec: Record, yamlLoad: string -> Option<Value>, strptime: Strptime): (r: Result<Item, Error>)
    ensures r.Ok? ==> r.value.path == rec.name && r.value.link == BaseStem(rec.name)
  {
    match ReadFrontmatter(rec.text, yamlLoad)
    case Err(e) => Err(e)
    case Ok((meta, _)) =>
      if !meta.Mapping? then Err(NotAMapping("meta"))
      else
        var time := OrEmpty(Lookup(meta.entries, "time"));
        if !time.Mapping? then Err(NotAMapping("time"))
        else
          var date := match DateOf(Lookup(meta.entries, "date"), strptime)
            case Some(d) => d
            case None => rec.mtime;
          Ok(ItemOf(rec, meta.entries, time.entries, date))
  }

  /**
   * What reading one recipe gives, case by case. The run ends exactly when
   * the YAML does not load, when the metadata is a truthy non-dictionary, or
   * when its `time` entry is. Otherwise the title is `str(title)` when truthy,
   * else the file's stem; the cover is kept, as `str(cover)`, exactly when
   * truthy; the times are read from `time or {}`; the date is the first
   * format that parses the metadata's `date`, else the modification time.
   */
  lemma MakeItemCases(rec: Record, yamlLoad: string -> Option<Value>, strptime: Strptime)
    ensures var fm := ReadFrontmatter(rec.text, yamlLoad);
      MakeItem(rec, yamlLoad, strptime).Err? <==>
        fm.Err? ||
        (fm.Ok? && !fm.value.0.Mapping? && Truthy(fm.value.0)) ||
        (fm.Ok? && fm.value.0.Mapping? &&
         Truthy(Lookup(fm.value.0.entries, "time")) && !Lookup(fm.value.0.entries, "time").Mapping?)
    ensures var fm := ReadFrontmatter(rec.text, yamlLoad);
      fm.Err? ==> MakeItem(rec, yamlLoad, strptime) == Err(MalformedYaml)
    ensures var fm := ReadFrontmatter(rec.text, yamlLoad);
      fm.Ok? && !fm.value.0.Mapping? ==> MakeItem(rec, yamlLoad, strptime) == Err(NotAMapping("meta"))
    ensures var fm := ReadFrontmatter(rec.text, yamlLoad);
      fm.Ok? && fm.value.0.Mapping? && MakeItem(rec, yamlLoad, strptime).Err? ==>
        MakeItem(rec, yamlLoad, strptime) == Err(NotAMapping("time"))
    ensures var fm := ReadFrontmatter(rec.text, yamlLoad);
      var r := MakeItem(rec, yamlLoad, strptime);
      r.Ok? ==>
        fm.Ok? && fm.value.0.Mapping? &&
        (var meta := fm.value.0.entries;
        var title := Lookup(meta, "title");
        var cover := Lookup(meta, "cover");
        var time := OrEmpty(Lookup(meta, "time"));
        var date := DateOf(Lookup(meta, "date"), strptime);
        && r.value.title == (if Truthy(title) then Str(title) else Stem(rec.name))
        && (r.value.cover.Some? <==> Truthy(cover))
        && (r.value.cover.Some? ==> r.value.cover.value == Str(cover))
        && r.value.portions == Lookup(meta, "portions")
        && r.value.difficulty == Lookup(meta, "difficulty")
        && time.Mapping?
        && r.value.timePrep == Lookup(time.entries, "prep")
        && r.value.timeCook == Lookup(time.entries, "cook")
        && (date.Some? ==> r.value.date == date.value)
        && (date.None? ==> r.value.date == rec.mtime))
  {
  }

  /** The recipe contributes to the index: its name does not start with `index.`. */
  predicate IsRecipe(rec: Record)
  {
    !IsIndexFile(rec.name)
  }

  /** The recipe aborts the run. */
  predicate Fails(rec: Record, yamlLoad: string -> Option<Value>, strptime: Strptime)
  {
    IsRecipe(rec) && MakeItem(rec, yamlLoad, strptime).Err?
  }

  /** No recipe among `recs` aborts the run. */
  predicate NoneFails(recs: seq<Record>, yamlLoad: string -> Option<Value>, strptime: Strptime)
  {
    forall i :: 0 <= i < |recs| ==> !Fails(recs[i], yamlLoad, strptime)
  }

  lemma NoneFailsSnoc(recs: seq<Record>, i: nat, yamlLoad: string -> Option<Value>, strptime: Strptime)
    requires i < |recs| && NoneFails(recs[..i], yamlLoad, strptime) && !Fails(recs[i], yamlLoad, strptime)
    ensures NoneFails(recs[..i + 1], yamlLoad, strptime)
  {
    assert recs[..i + 1] == recs[..i] + [recs[i]];
    AllSnoc(recs[..i], recs[i], recs[..i + 1], rec => !Fails(rec, yamlLoad, strptime));
  }

  /** A property of every element of a sequence and of one more element holds of the longer sequence. */
  lemma AllSnoc<T>(s: seq<T>, x: T, t: seq<T>, ok: T -> bool)
    requires t == s + [x] && (forall j :: 0 <= j < |s| ==> ok(s[j])) && ok(x)
    ensures forall j :: 0 <= j < |t| ==> ok(t[j])
  {
    assert forall j :: 0 <= j < |s| ==> t[j] == s[j];
  }

  /** What visiting `rec` appends to the list of `lang`: its item, when it is a recipe of that language that reads. */
  function Entry(rec: Record, lang: string, yamlLoad: string -> Option<Value>, strptime: Strptime): (r: seq<Item>)
  {
    var r := MakeItem(rec, yamlLoad, strptime);
    if IsRecipe(rec) && LangFor(rec.name) == lang && r.Ok? then [r.value] else []
  }

  /** What a visit of the files, in order, appends: `entry(rec)` for each file `rec`. */
  function Appended<T>(recs: seq<Record>, entry: Record -> seq<T>): (r: seq<T>)
  {
    if recs == [] then []
    else Appended(recs[..|recs| - 1], entry) + entry(recs[|recs| - 1])
  }

  /** The items appended to `per_lang[lang]`, in the order the files are visited. */
  function Items(recs: seq<Record>, lang: string, yamlLoad: string -> Option<Value>, strptime: Strptime): (r: seq<Item>)
  {
    Appended(recs, rec => Entry(rec, lang, yamlLoad, strptime))
  }

  /** The number of recipe files (those not named `index.*`). */
  function RecipeCount(recs: seq<Record>): (r: nat)
  {
    if recs == [] then 0
    else RecipeCount(recs[..|recs| - 1]) + (if IsRecipe(recs[|recs| - 1]) then 1 else 0)
  }

  /** Visiting one more file appends its entry. */
  lemma AppendedSnoc<T>(recs: seq<Record>, x: Record, entry: Record -> seq<T>)
    ensures Appended(recs + [x], entry) == Appended(recs, entry) + entry(x)
  {
    assert (recs + [x])[..|recs|] == recs;
  }

  /** Appending one more file to the visited ones. */
  lemma ItemsSnoc(recs: seq<Record>, i: nat, lang: string, yamlLoad: string -> Option<Value>, strptime: Strptime)
    requires i < |recs|
    ensures Items(recs[..i + 1], lang, yamlLoad, strptime) ==
      Items(recs[..i], lang, yamlLoad, strptime) + Entry(recs[i], lang, yamlLoad, strptime)
  {
    assert recs[..i + 1] == recs[..i] + [recs[i]];
    AppendedSnoc(recs[..i], recs[i], rec => Entry(rec, lang, yamlLoad, strptime));
  }

  /** A non-empty listing is its front and its last file. */
  lemma ItemsLast(recs: seq<Record>, lang: string, yamlLoad: string -> Option<Value>, strptime: Strptime)
    requires recs != []
    ensures Items(recs, lang, yamlLoad, strptime) ==
      Items(recs[..|recs| - 1], lang, yamlLoad, strptime) + Entry(recs[|recs| - 1], lang, yamlLoad, strptime)
  {
  }

  /** The loop body of `collect_recipes` up to the item dict, for one recipe file. */
  method ReadItem(rec: Record, yamlLoad: string -> Option<Value>, strptime: Strptime) returns (r: Result<Item, Error>)
    ensures r == MakeItem(rec, yamlLoad, strptime)
  {
    var fm := ReadFrontmatter(rec.text, yamlLoad);
    if fm.Err? {
      return Err(fm.error);
    }
    var meta := fm.value.0;
    if !meta.Mapping? {
      return Err(NotAMapping("meta"));
    }
    var time := OrEmpty(Lookup(meta.entries, "time"));
    if !time.Mapping? {
      return Err(NotAMapping("time"));
    }
    var parsed := ParseDate(Lookup(meta.entries, "date"), strptime);
    var date := if parsed.Some? then parsed.value else rec.mtime;
    return Ok(ItemOf(rec, meta.entries, time.entries, date));
  }

  /**
   * `collect_recipes`: a dict with a list for every language; every recipe
   * file appended to the list of its language (`de` when untagged); then each
   * list sorted by `(date, lower-cased title)`, largest first. The first
   * recipe whose metadata cannot be read aborts the whole run.
   */
  method Collect(records: seq<Record>, yamlLoad: string -> Option<Value>, strptime: Strptime)
    returns (r: Result<map<string, seq<Item>>, Error>)
    ensures r.Ok? <==> forall i :: 0 <= i < |records| ==> !Fails(records[i], yamlLoad, strptime)
    ensures r.Err? ==> exists i :: 0 <= i < |records| && Fails(records[i], yamlLoad, strptime) &&
                                   r.error == MakeItem(records[i], yamlLoad, strptime).error &&
                                   forall j :: 0 <= j < i ==> !Fails(records[j], yamlLoad, strptime)
    ensures r.Ok? ==> r.value.Keys == set lang | lang in Langs
    ensures r.Ok? ==> forall lang :: lang in Langs ==>
      r.value[lang] == SortDesc(Items(records, lang, yamlLoad, strptime), ItemKey)
  {
    var perLang: map<string, seq<Item>> := map[Langs[0] := [], Langs[1] := []];
    for i := 0 to |records|
      invariant perLang.Keys == set lang | lang in Langs
      invariant forall lang :: lang in Langs ==> perLang[lang] == Items(records[..i], lang, yamlLoad, strptime)
      invariant NoneFails(records[..i], yamlLoad, strptime)
    {
      var next := Visit(perLang, records, i, yamlLoad, strptime);
      if next.Err? {
        return Err(next.error);
      }
      perLang := next.value;
    }
    assert records[..|records|] == records;
    perLang := SortEach(perLang);
    return Ok(perLang);
  }

  /**
   * One pass of the loop of `collect_recipes`, over the file at `i`: an
   * index file is skipped; a recipe's item is appended to the list of its
   * language, or its error ends the run.
   */
  method Visit(perLang: map<string, seq<Item>>, records: seq<Record>, i: nat,
               yamlLoad: string -> Option<Value>, strptime: Strptime)
    returns (r: Result<map<string, seq<Item>>, Error>)
    requires i < |records| && perLang.Keys == set lang | lang in Langs
    requires forall lang :: lang in Langs ==> perLang[lang] == Items(records[..i], lang, yamlLoad, strptime)
    requires NoneFails(records[..i], yamlLoad, strptime)
    ensures r.Err? <==> Fails(records[i], yamlLoad, strptime)
    ensures r.Err? ==> r.error == MakeItem(records[i], yamlLoad, strptime).error
    ensures r.Err? ==> !NoneFails(records, yamlLoad, strptime) && forall j :: 0 <= j < i ==> !Fails(records[j], yamlLoad, strptime)
    ensures r.Ok? ==> r.value.Keys == perLang.Keys && NoneFails(records[..i + 1], yamlLoad, strptime)
    ensures r.Ok? ==> forall lang :: lang in Langs ==> r.value[lang] == Items(records[..i + 1], lang, yamlLoad, strptime)
  {
    var rec := records[i];
    ItemsSnoc(records, i, Langs[0], yamlLoad, strptime);
    ItemsSnoc(records, i, Langs[1], yamlLoad, strptime);
    if IsIndexFile(rec.name) {
      NoneFailsSnoc(records, i, yamlLoad, strptime);
      return Ok(perLang);
    }
    var lang := LangOfFile(rec.name);
    var l := if lang.None? then DefaultLang else lang.value;
    var item := ReadItem(rec, yamlLoad, strptime);
    if item.Err? {
      FirstFailure(records, i, yamlLoad, strptime);
      return Err(item.error);
    }
    NoneFailsSnoc(records, i, yamlLoad, strptime);
    return Ok(perLang[l := perLang[l] + [item.value]]);
  }

  /** The first recipe that fails decides the outcome: none before it failed. */
  lemma FirstFailure(records: seq<Record>, i: nat, yamlLoad: string -> Option<Value>, strptime: Strptime)
    requires i < |records| && NoneFails(records[..i], yamlLoad, strptime) && Fails(records[i], yamlLoad, strptime)
    ensures !NoneFails(records, yamlLoad, strptime)
    ensures forall j :: 0 <= j < i ==> !Fails(records[j], yamlLoad, strptime)
  {
    assert forall j :: 0 <= j < i ==> records[..i][j] == records[j];
  }

  /** `for lang, items in per_lang.items(): items.sort(...)`, newest first. */
  method SortEach(perLang: map<string, seq<Item>>) returns (sorted: map<string, seq<Item>>)
    requires perLang.Keys == set lang | lang in Langs
    ensures sorted.Keys == perLang.Keys
    ensures forall lang :: lang in Langs ==> sorted[lang] == SortDesc(perLang[lang], ItemKey)
  {
    sorted := perLang;
    for k := 0 to |Langs|
      invariant sorted.Keys == perLang.Keys
      invariant forall j :: 0 <= j < k ==> sorted[Langs[j]] == SortDesc(perLang[Langs[j]], ItemKey)
      invariant forall j :: k <= j < |Langs| ==> sorted[Langs[j]] == perLang[Langs[j]]
    {
      sorted := sorted[Langs[k] := SortDesc(sorted[Langs[k]], ItemKey)];
    }
  }

  /** Something was appended exactly when visiting some file appended it. */
  lemma {:induction false} AppendedMembership<T>(recs: seq<Record>, entry: Record -> seq<T>, x: T)
    ensures x in Appended(recs, entry) <==> exists i :: 0 <= i < |recs| && x in entry(recs[i])
  {
    if recs != [] {
      var n := |recs| - 1;
      var init := recs[..n];
      AppendedMembership(init, entry, x);
      assert Appended(recs, entry) == Appended(init, entry) + entry(recs[n]);
      if x in Appended(recs, entry) {
        if x in Appended(init, entry) {
          var i :| 0 <= i < |init| && x in entry(init[i]);
          assert recs[i] == init[i];
        } else {
          assert x in entry(recs[n]);
        }
      } else {
        forall i | 0 <= i < |recs| ensures x !in entry(recs[i]) {
          if i < n {
            assert recs[i] == init[i];
          }
        }
      }
    }
  }

  /**
   * An item is in a language's list exactly when some recipe file (not an
   * index) filed under that language produced it.
   */
  lemma ItemsMembership(recs: seq<Record>, lang: string, yamlLoad: string -> Option<Value>,
                        strptime: Strptime, x: Item)
    ensures x in Items(recs, lang, yamlLoad, strptime) <==>
      exists i :: 0 <= i < |recs| && IsRecipe(recs[i]) && LangFor(recs[i].name) == lang &&
                  MakeItem(recs[i], yamlLoad, strptime) == Ok(x)
  {
    var entry := rec => Entry(rec, lang, yamlLoad, strptime);
    AppendedMembership(recs, entry, x);
    forall i | 0 <= i < |recs|
      ensures x in entry(recs[i]) <==>
        IsRecipe(recs[i]) && LangFor(recs[i].name) == lang && MakeItem(recs[i], yamlLoad, strptime) == Ok(x)
    {
    }
  }

  /** Generated indexes (`index.*`) never appear in any language's list. */
  lemma IndexFilesNeverListed(recs: seq<Record>, lang: string, yamlLoad: string -> Option<Value>, strptime: Strptime)
    ensures forall x :: x in Items(recs, lang, yamlLoad, strptime) ==> !IsIndexFile(x.path)
  {
    forall x | x in Items(recs, lang, yamlLoad, strptime) ensures !IsIndexFile(x.path) {
      ItemsMembership(recs, lang, yamlLoad, strptime, x);
    }
  }

  /** A recipe file without a recognised language tag is filed under `de`. */
  lemma UntaggedGoesToDefault(recs: seq<Record>, i: nat, yamlLoad: string -> Option<Value>, strptime: Strptime)
    requires i < |recs| && IsRecipe(recs[i]) && LangOfFile(recs[i].name).None?
    requires MakeItem(recs[i], yamlLoad, strptime).Ok?
    ensures MakeItem(recs[i], yamlLoad, strptime).value in Items(recs, "de", yamlLoad, strptime)
  {
    ItemsMembership(recs, "de", yamlLoad, strptime, MakeItem(recs[i], yamlLoad, strptime).value);
  }

  /**
   * When no recipe fails, every recipe file lands in exactly one list: the
   * lists' lengths add up to the number of recipe files.
   */
  lemma {:induction false} EveryRecipeListedOnce(recs: seq<Record>, yamlLoad: string -> Option<Value>, strptime: Strptime)
    requires forall i :: 0 <= i < |recs| ==> !Fails(recs[i], yamlLoad, strptime)
    ensures |Items(recs, "de", yamlLoad, strptime)| + |Items(recs, "en", yamlLoad, strptime)| == RecipeCount(recs)
  {
    if recs != [] {
      var n := |recs| - 1;
      var init := recs[..n];
      assert forall i :: 0 <= i < |init| ==> init[i] == recs[i];
      EveryRecipeListedOnce(init, yamlLoad, strptime);
      ItemsLast(recs, "de", yamlLoad, strptime);
      ItemsLast(recs, "en", yamlLoad, strptime);
      assert !Fails(recs[n], yamlLoad, strptime);
      assert LangFor(recs[n].name) in ["de", "en"];
    }
  }

  /**
   * Each language's list after `collect_recipes` holds exactly that
   * language's items, newest first; on equal dates the lower-cased titles
   * descend too, because `reverse=True` turns the whole key round; items
   * with equal keys stay in file order; no generated index is listed.
   */
  lemma CatalogListProperties(recs: seq<Record>, lang: string, yamlLoad: string -> Option<Value>, strptime: Strptime)
    ensures var items := Items(recs, lang, yamlLoad, strptime);
      var sorted := SortDesc(items, ItemKey);
      && multiset(sorted) == multiset(items)
      && SortedDesc(sorted, ItemKey)
      && (forall i, j :: 0 <= i < j < |sorted| ==> sorted[j].date <= sorted[i].date)
      && (forall i, j :: 0 <= i < j < |sorted| && sorted[i].date == sorted[j].date ==>
            StrLe(Lower(sorted[j].title), Lower(sorted[i].title)))
      && (forall k :: WithKey(sorted, ItemKey, k) == WithKey(items, ItemKey, k))
      && (forall x :: x in sorted ==> !IsIndexFile(x.path))
  {
    var items := Items(recs, lang, yamlLoad, strptime);
    var sorted := SortDesc(items, ItemKey);
    SortDescPermutation(items, ItemKey);
    SortDescSorted(items, ItemKey);
    forall k ensures WithKey(sorted, ItemKey, k) == WithKey(items, ItemKey, k) {
      SortDescStable(items, ItemKey, k);
    }
    IndexFilesNeverListed(recs, lang, yamlLoad, strptime);
    forall x | x in sorted ensures !IsIndexFile(x.path) {
      assert x in multiset(sorted);
    }
  }

  /**
   * A file without front matter still gets an entry: its stem as title, no
   * cover, no facets, and its modification time as date.
   */
  lemma NoFrontmatterDefaults(rec: Record, yamlLoad: string -> Option<Value>, strptime: Strptime)
    requires !StartsWith(rec.text, "---")
    ensures var r := MakeItem(rec, yamlLoad, strptime);
      && r.Ok?
      && r.value.title == Stem(rec.name)
      && r.value.cover.None?
      && r.value.portions == r.value.timePrep == r.value.timeCook == r.value.difficulty == Null
      && r.value.date == rec.mtime
  {
    NoMarkerNoFrontmatter(rec.text, yamlLoad);
  }
}
