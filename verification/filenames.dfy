/**
 * What the index script reads off a recipe's file name: its language tag
 * (`lang_of_file`), its language-neutral link (`base_stem`), its stem
 * (`Path.stem`, the title of last resort) and whether it is a generated
 * index (`index.*`).
 */
module FileNames {
  import opened Wrappers
  import opened Strings

  /** The languages an index is generated for (`LANGS`). */
  const Langs: seq<string> := ["de", "en"]

  /** The language of a file whose name carries no recognised tag. */
  const DefaultLang: string := "de"

  /** `name.split(".")`. */
  function Parts(name: string): (r: seq<string>)
    ensures |r| >= 1
  {
    Split(name, '.')
  }

  /**
   * `lang_of_file`: the lower-cased next-to-last dot-separated part, when the
   * name has at least three parts and that part is one of `Langs`.
   */
  function LangOfFile(name: string): (r: Option<string>)
    ensures r.Some? ==> r.value in Langs
    ensures r.Some? <==> |Parts(name)| >= 3 && Lower(Parts(name)[|Parts(name)| - 2]) in Langs
    ensures r.Some? ==> r.value == Lower(Parts(name)[|Parts(name)| - 2])
  {
    var parts := Parts(name);
    if |parts| < 3 then None
    else
      var lang := Lower(parts[|parts| - 2]);
      if lang in Langs then Some(lang) else None
  }

  /** The language `collect_recipes` files a recipe under: its tag, or `de` when it has none. */
  function LangFor(name: string): (r: string)
    ensures r in Langs
    ensures LangOfFile(name).None? ==> r == DefaultLang
    ensures LangOfFile(name).Some? ==> r == LangOfFile(name).value
  {
    match LangOfFile(name)
    case None => DefaultLang
    case Some(lang) => lang
  }

  /** `base_stem` strips the tag: three or more parts, the next-to-last exactly a language, the last `md`. */
  predicate StripsLang(name: string)
  {
    var parts := Parts(name);
    |parts| >= 3 && parts[|parts| - 2] in Langs && parts[|parts| - 1] == "md"
  }

  /** `base_stem`: `foo.de.md` becomes `foo.md`; every other name is left alone. */
  function BaseStem(name: string): (r: string)
    ensures !StripsLang(name) ==> r == name
  {
    var parts := Parts(name);
    if |parts| >= 3 && parts[|parts| - 2] in Langs && parts[|parts| - 1] == "md" then
      Join(parts[..|parts| - 2], ".") + ".md"
    else name
  }

  /**
   * When `base_stem` strips, it removes exactly the tag and one dot, and
   * re-inserting the tag before `.md` gives the original name back.
   */
  lemma BaseStemRemovesTag(name: string)
    requires StripsLang(name)
    ensures var parts := Parts(name);
      var lang := parts[|parts| - 2];
      var r := BaseStem(name);
      && |r| >= 3 && r[|r| - 3..] == ".md"
      && |r| == |name| - |lang| - 1
      && name == r[..|r| - 3] + "." + lang + ".md"
  {
    var parts := Parts(name);
    var n := |parts|;
    var prefix := parts[..n - 2];
    var lang := parts[n - 2];
    SplitJoin(name, '.');
    assert parts == prefix + [lang] + ["md"];
    JoinSnoc(prefix, lang, ".");
    JoinSnoc(prefix + [lang], "md", ".");
    assert name == Join(prefix, ".") + "." + lang + ".md";
    var r := BaseStem(name);
    assert r == Join(prefix, ".") + ".md";
    assert r[..|r| - 3] == Join(prefix, ".");
  }

  /** `base_stem` changes a name exactly when it carries a recognised tag before `.md`. */
  lemma BaseStemChangesIff(name: string)
    ensures BaseStem(name) != name <==> StripsLang(name)
  {
    if StripsLang(name) {
      BaseStemRemovesTag(name);
      var parts := Parts(name);
      assert |parts[|parts| - 2]| == 2;
    }
  }

  /** A tag `base_stem` strips is also the language `lang_of_file` reports. */
  lemma StrippedTagIsLanguage(name: string)
    requires StripsLang(name)
    ensures var parts := Parts(name);
      LangOfFile(name) == Some(parts[|parts| - 2])
  {
    var parts := Parts(name);
    LowerOfLower(parts[|parts| - 2]);
  }

  /** `base_stem` turns `<stem>.<lang>.md` into `<stem>.md`, whatever dots `<stem>` holds. */
  lemma BaseStemOfTagged(stem: string, lang: string)
    requires lang in Langs
    ensures BaseStem(stem + "." + lang + ".md") == stem + ".md"
  {
    var name := stem + "." + lang + ".md";
    assert name == stem + ['.'] + (lang + ['.'] + "md");
    SplitConcat(stem, '.', lang + ['.'] + "md");
    SplitConcat(lang, '.', "md");
    SplitNoSep(lang, '.');
    SplitNoSep("md", '.');
    var parts := Parts(name);
    assert parts == Split(stem, '.') + [lang] + ["md"];
    assert parts[..|parts| - 2] == Split(stem, '.');
    SplitJoin(stem, '.');
  }

  /** `base_stem` is not idempotent: a doubled tag loses one copy per application. */
  lemma BaseStemNotIdempotent()
    ensures BaseStem("a.de.de.md") == "a.de.md"
    ensures BaseStem(BaseStem("a.de.de.md")) == "a.md"
  {
    BaseStemOfTagged("a.de", "de");
    assert "a.de" + "." + "de" + ".md" == "a.de.de.md";
    assert "a.de" + ".md" == "a.de.md";
    BaseStemOfTagged("a", "de");
    assert "a" + "." + "de" + ".md" == "a.de.md";
    assert "a" + ".md" == "a.md";
  }

  /**
   * The two functions disagree on case: an upper-case tag files the recipe
   * under its language, yet the link keeps the tag.
   */
  lemma UpperCaseTagKeptInLink()
    ensures LangOfFile("a.DE.md") == Some("de")
    ensures BaseStem("a.DE.md") == "a.DE.md"
  {
    ThreeParts("a", "DE", "md");
    assert "a" + "." + "DE" + "." + "md" == "a.DE.md";
    assert Lower("DE") == "de";
    assert "DE" !in Langs;
  }

  /** A name made of three dot-free parts splits into exactly those parts. */
  lemma ThreeParts(a: string, b: string, c: string)
    requires '.' !in a && '.' !in b && '.' !in c
    ensures Parts(a + "." + b + "." + c) == [a, b, c]
  {
    assert a + "." + b + "." + c == a + ['.'] + (b + ['.'] + c);
    SplitConcat(a, '.', b + ['.'] + c);
    SplitConcat(b, '.', c);
    SplitNoSep(a, '.');
    SplitNoSep(b, '.');
    SplitNoSep(c, '.');
  }

  /** Index of the last `c` in `s`, or -1 (Python's `s.rfind(c)`). */
  function RFind(s: string, c: char): (r: int)
    ensures -1 <= r < |s|
    ensures r >= 0 ==> s[r] == c
    ensures forall j :: r < j < |s| ==> s[j] != c
  {
    if s == [] then -1
    else if s[|s| - 1] == c then |s| - 1
    else RFind(s[..|s| - 1], c)
  }

  /** `Path.stem`: the name without its last suffix, when it has one. */
  function Stem(name: string): (r: string)
  {
    var i := RFind(name, '.');
    if 0 < i < |name| - 1 then name[..i] else name
  }

  /** The stem of `x.md` is `x` whenever `x` is non-empty: `foo.de.md` has stem `foo.de`. */
  lemma StemOfMarkdown(x: string)
    requires x != []
    ensures Stem(x + ".md") == x
  {
    var name := x + ".md";
    assert name[|x|] == '.' && name[|x| + 1..] == "md";
    assert RFind(name, '.') == |x|;
  }

  /** `name.startswith("index.")`: the generated indexes, never read as recipes. */
  predicate IsIndexFile(name: string)
  {
    StartsWith(name, "index.")
  }

  /** The file the index for `lang` is written to. */
  function IndexFileName(lang: string): (r: string)
    ensures IsIndexFile(r)
  {
    "index." + lang + ".md"
  }
}
