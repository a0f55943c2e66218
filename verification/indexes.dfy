/**
 * `main`: collect the recipes once, then write `index.<lang>.md` for every
 * language, rendered from that language's sorted list. The files written are
 * returned as a map from file name to text; nothing is written when the
 * collection aborts.
 */
module Indexes {
  import opened Wrappers
  import opened Strings
  import opened Metadata
  import opened Dates
  import opened FileNames
  import opened Ordering
  import opened Catalog
  import opened Render

  /** Every language an index is generated for has its texts in the table. */
  lemma LangsHaveTexts()
    ensures forall lang :: lang in Langs ==> lang in UiTable
  {
    assert Langs == ["de", "en"];
  }

  /** The text of `index.<lang>.md` for a directory whose recipes all read. */
  function IndexText(records: seq<Record>, lang: string, yamlLoad: string -> Option<Value>, strptime: Strptime): (r: string)
    requires lang in UiTable
  {
    Join(IndexLines(UiTable[lang], SortDesc(Items(records, lang, yamlLoad, strptime), ItemKey)), "\n")
  }

  /**
   * `main` without the argument parsing and the file writes: one index per
   * language, or the error of the first recipe that cannot be read, in which
   * case no index at all is produced.
   */
  method WriteIndexes(records: seq<Record>, yamlLoad: string -> Option<Value>, strptime: Strptime)
    returns (r: Result<map<string, string>, Error>)
    ensures r.Ok? <==> NoneFails(records, yamlLoad, strptime)
    ensures r.Err? ==> exists i :: 0 <= i < |records| && Fails(records[i], yamlLoad, strptime) &&
                                   r.error == MakeItem(records[i], yamlLoad, strptime).error &&
                                   forall j :: 0 <= j < i ==> !Fails(records[j], yamlLoad, strptime)
    ensures r.Ok? ==> r.value.Keys == set lang | lang in Langs :: IndexFileName(lang)
    ensures r.Ok? ==> forall lang :: lang in Langs ==>
      lang in UiTable && r.value[IndexFileName(lang)] == IndexText(records, lang, yamlLoad, strptime)
  {
    LangsHaveTexts();
    var perLang := Collect(records, yamlLoad, strptime);
    if perLang.Err? {
      return Err(perLang.error);
    }
    var out := RenderAll(perLang.value);
    return Ok(out);
  }

  /** `per_lang.get(lang, [])`. */
  function ListOf(perLang: map<string, seq<Item>>, lang: string): (r: seq<Item>)
    ensures lang !in perLang ==> r == []
  {
    if lang in perLang then perLang[lang] else []
  }

  /** `main`'s loop: the index of every language, rendered from that language's list. */
  method RenderAll(perLang: map<string, seq<Item>>) returns (out: map<string, string>)
    ensures out.Keys == set lang | lang in Langs :: IndexFileName(lang)
    ensures forall lang :: lang in Langs ==>
      lang in UiTable && out[IndexFileName(lang)] == Join(IndexLines(UiTable[lang], ListOf(perLang, lang)), "\n")
  {
    LangsHaveTexts();
    out := map[];
    for k := 0 to |Langs|
      invariant out.Keys == set j | 0 <= j < k :: IndexFileName(Langs[j])
      invariant forall j :: 0 <= j < k ==>
        out[IndexFileName(Langs[j])] == Join(IndexLines(UiTable[Langs[j]], ListOf(perLang, Langs[j])), "\n")
    {
      var lang := Langs[k];
      var content := RenderIndex(lang, ListOf(perLang, lang));
      forall j | 0 <= j < k {
        IndexFileNamesDistinct(Langs[j], lang);
      }
      out := out[IndexFileName(lang) := content];
    }
    assert (set j | 0 <= j < |Langs| :: IndexFileName(Langs[j])) == set lang | lang in Langs :: IndexFileName(lang);
  }

  /** The indexes of different languages go to different files. */
  lemma IndexFileNamesDistinct(a: string, b: string)
    requires a in Langs && b in Langs && a != b
    ensures IndexFileName(a) != IndexFileName(b)
  {
    assert IndexFileName(a)[6..8] == a && IndexFileName(b)[6..8] == b;
  }

  /** The files of a listing that `collect_recipes` reads, in order. */
  function Recipes(recs: seq<Record>): (r: seq<Record>)
  {
    if recs == [] then []
    else Recipes(recs[..|recs| - 1]) + (if IsRecipe(recs[|recs| - 1]) then [recs[|recs| - 1]] else [])
  }

  /** A file is read exactly when it is in the listing and not named `index.*`. */
  lemma {:induction false} RecipesMembership(recs: seq<Record>, x: Record)
    ensures x in Recipes(recs) <==> x in recs && IsRecipe(x)
  {
    if recs != [] {
      var n := |recs| - 1;
      RecipesMembership(recs[..n], x);
      assert recs == recs[..n] + [recs[n]];
    }
  }

  lemma NoneFailsSnocIff(recs: seq<Record>, x: Record, yamlLoad: string -> Option<Value>, strptime: Strptime)
    ensures NoneFails(recs + [x], yamlLoad, strptime) <==>
      NoneFails(recs, yamlLoad, strptime) && !Fails(x, yamlLoad, strptime)
  {
    assert forall i :: 0 <= i < |recs| ==> (recs + [x])[i] == recs[i];
    assert (recs + [x])[|recs|] == x;
  }

  /** A non-empty listing is its front and its last file. */
  lemma NoneFailsLast(recs: seq<Record>, yamlLoad: string -> Option<Value>, strptime: Strptime)
    requires recs != []
    ensures NoneFails(recs, yamlLoad, strptime) <==>
      NoneFails(recs[..|recs| - 1], yamlLoad, strptime) && !Fails(recs[|recs| - 1], yamlLoad, strptime)
  {
    var n := |recs| - 1;
    assert recs == recs[..n] + [recs[n]];
    NoneFailsSnocIff(recs[..n], recs[n], yamlLoad, strptime);
  }

  /**
   * The `index.*` files of a listing change nothing: the lists depend only
   * on the recipe files, so the indexes written by one run do not alter the
   * next one.
   */
  lemma {:induction false} ItemsIgnoreIndexFiles(recs: seq<Record>, lang: string,
                                                yamlLoad: string -> Option<Value>, strptime: Strptime)
    ensures Items(recs, lang, yamlLoad, strptime) == Items(Recipes(recs), lang, yamlLoad, strptime)
  {
    if recs != [] {
      var n := |recs| - 1;
      ItemsIgnoreIndexFiles(recs[..n], lang, yamlLoad, strptime);
      ItemsLast(recs, lang, yamlLoad, strptime);
      var front := Recipes(recs[..n]);
      if IsRecipe(recs[n]) {
        assert Recipes(recs) == front + [recs[n]];
        AppendedSnoc(front, recs[n], rec => Entry(rec, lang, yamlLoad, strptime));
      } else {
        assert Recipes(recs) == front;
      }
    }
  }

  /** Whether the run aborts depends only on the recipe files as well. */
  lemma {:induction false} FailuresIgnoreIndexFiles(recs: seq<Record>, yamlLoad: string -> Option<Value>,
                                                   strptime: Strptime)
    ensures NoneFails(recs, yamlLoad, strptime) <==> NoneFails(Recipes(recs), yamlLoad, strptime)
  {
    if recs != [] {
      var n := |recs| - 1;
      FailuresIgnoreIndexFiles(recs[..n], yamlLoad, strptime);
      NoneFailsLast(recs, yamlLoad, strptime);
      var front := Recipes(recs[..n]);
      if IsRecipe(recs[n]) {
        assert Recipes(recs) == front + [recs[n]];
        NoneFailsSnocIff(front, recs[n], yamlLoad, strptime);
      } else {
        assert Recipes(recs) == front;
      }
    }
  }

  /**
   * Two listings with the same recipe files, whatever `index.*` files they
   * hold besides, give the same indexes.
   */
  lemma RegenerationStable(recs1: seq<Record>, recs2: seq<Record>, lang: string,
                           yamlLoad: string -> Option<Value>, strptime: Strptime)
    requires Recipes(recs1) == Recipes(recs2) && lang in UiTable
    ensures NoneFails(recs1, yamlLoad, strptime) <==> NoneFails(recs2, yamlLoad, strptime)
    ensures IndexText(recs1, lang, yamlLoad, strptime) == IndexText(recs2, lang, yamlLoad, strptime)
  {
    ItemsIgnoreIndexFiles(recs1, lang, yamlLoad, strptime);
    ItemsIgnoreIndexFiles(recs2, lang, yamlLoad, strptime);
    FailuresIgnoreIndexFiles(recs1, yamlLoad, strptime);
    FailuresIgnoreIndexFiles(recs2, yamlLoad, strptime);
  }
}
