# Recipe index generator: a Dafny model

`scripts/make_recipes_index.py` builds the recipe overview pages of an MkDocs
cookbook. It reads every `*.md` file of the recipes directory except the
generated `index.*` pages. A tag before the extension gives a file's language
(`foo.de.md`, `foo.en.md`), and untagged files count as German. The script reads
each file's YAML front matter (title, cover, portions, `time.prep`, `time.cook`,
difficulty, date) and collects one list of entries per language. Each list is
sorted newest first. The script then writes `index.de.md` and `index.en.md`:
a heading, a subtitle and a grid of cards. Each card shows a cover image or a
"no image" text, the title, a line of up to four facets, and a link to the
language-neutral page name (`foo.md`).

The model follows the script function by function:

| module | file | models |
|---|---|---|
| `Strings` | strings.dfy | `str.split`, `str.join`, `str.lower` (ASCII), `startswith`/`endswith`, code-point order of strings |
| `Metadata` | metadata.dfy | the loaded YAML values, as far as the script looks at them: truthiness, `str()`, `dict.get` |
| `FrontMatter` | frontmatter.dfy | `FRONTMATTER_RE` as Python's backtracking matcher resolves it, and `read_frontmatter` |
| `Dates` | dates.dfy | `parse_date`: the first of `%Y-%m-%d`, `%Y-%m`, `%Y` that parses |
| `FileNames` | filenames.dfy | `lang_of_file`, `base_stem`, `Path.stem`, the `index.` prefix |
| `Ordering` | ordering.dfy | `list.sort(key=(date, title.lower()), reverse=True)` as a stable sort into non-increasing key order |
| `Catalog` | catalog.dfy | `collect_recipes`: its loop over the files, the per-language lists, the in-place sorts |
| `Render` | render.dfy | `UI` and `render_index`: its loop appending lines, and the page as a function of the items |
| `Indexes` | indexes.dfy | `main`'s loop writing one index per language |

Some things the script takes from outside become inputs:
- The directory listing, file contents and modification times are a sequence of `Catalog.Record`s, in the sorted order of `glob`.
- `yaml.safe_load` is a parameter `yamlLoad`, where `None` stands for a `YAMLError`.
- `datetime.strptime` for one format is a parameter `strptime`.
- A date is an integer: only its order matters to the index.

The exceptions that end a run are modelled as `Err` results:
- the YAML error;
- the `AttributeError` from `.get` on metadata that is not a dictionary;
- the same error on a `time` entry that is not a dictionary.

Two consequences of the code:
- With `reverse=True` the whole key `(date, title.lower())` is reversed, so entries with equal dates appear in descending lower-cased title order. See `Catalog.CatalogListProperties`.
- A malformed front matter stops the run, and nothing is written. The exception that ends the run does not name the file, so `Metadata.Error` carries no file name.

## Model

| member | source | states |
|---|---|---|
| FileNames.LangOfFile | scripts/make_recipes_index.py:91-97 | the result is `None` or a member of `LANGS`; it is present exactly when the name has at least three dot-separated parts and the lower-cased next-to-last part is in `LANGS`, and then it is that part |
| FileNames.LangFor | scripts/make_recipes_index.py:112-115 | the language a file is filed under is always in `LANGS`: its tag, or `de` when `lang_of_file` finds none |
| FileNames.BaseStem | scripts/make_recipes_index.py:99-104 | a name whose parts do not end in exactly `<lang>`, `md` is returned unchanged |
| FileNames.BaseStemRemovesTag | scripts/make_recipes_index.py:101-103 | when `base_stem` strips, the result still ends in `.md`, is shorter by the tag's length plus one, and putting `.<lang>` back before `.md` gives the original name |
| FileNames.BaseStemChangesIff | scripts/make_recipes_index.py:99-104 | `base_stem` changes a name if and only if the name has three or more parts, the next-to-last exactly in `LANGS` and the last `md` |
| FileNames.BaseStemOfTagged | scripts/make_recipes_index.py:99-104 | `<stem>.<lang>.md` becomes `<stem>.md` for every stem, dotted ones included |
| FileNames.BaseStemNotIdempotent | scripts/make_recipes_index.py:101-103 | `a.de.de.md` becomes `a.de.md`, and that becomes `a.md`: applying `base_stem` twice is not the same as once |
| FileNames.StrippedTagIsLanguage | scripts/make_recipes_index.py:91-104 | a tag that `base_stem` strips is the language that `lang_of_file` reports |
| FileNames.UpperCaseTagKeptInLink | scripts/make_recipes_index.py:91-104 | `a.DE.md` is filed under `de`, but its link keeps the tag, because `lang_of_file` lower-cases and `base_stem` does not |
| FileNames.StemOfMarkdown | scripts/make_recipes_index.py:118 | the fallback title `md.stem` of `x.md` is `x`; for example `foo.de.md` gives `foo.de` |
| FileNames.IndexFileName | scripts/make_recipes_index.py:186 | every written index starts with `index.`, the prefix that the collection skips |
| FrontMatter.SkipSpace | scripts/make_recipes_index.py:30 | a greedy `\s*` consumes only white space and stops at the first non-space character or at the end |
| FrontMatter.FindClose | scripts/make_recipes_index.py:30 | the non-greedy group ends at the first `\n---` at or after its start, and there is none when no `\n---` follows |
| FrontMatter.OpenAt | scripts/make_recipes_index.py:30 | the group starts right after a newline of the opening run, and a closing delimiter follows it; no later newline up to `p` is followed by one, so the latest such newline wins; when there is no match, no newline of that run is followed by a closing delimiter |
| FrontMatter.ReadFrontmatter | scripts/make_recipes_index.py:69-77 | without a match the result is `({}, text)`; with a match it is an error exactly when the YAML text does not load, and otherwise it is `(loaded or {}, rest)`; the only error is a YAML error; the metadata returned is truthy or `{}` |
| FrontMatter.NoMarkerNoFrontmatter | scripts/make_recipes_index.py:71-73 | a text that does not start with `---` gives empty metadata and the whole text as the body |
| FrontMatter.MatchBounds | scripts/make_recipes_index.py:30 | a match starts with `---`, white space and a newline, and its group runs up to the first closing delimiter, after which white space is consumed up to a non-space or the end. No newline of the white space after `---` that lies after the chosen one is followed by a closing delimiter. There is no match exactly when the text does not start with `---` or no newline of that white space is followed by one |
| FrontMatter.MatchShape | scripts/make_recipes_index.py:30 | a match splits the text into the opening line, the YAML text (which has no `\n---` inside it), `\n---`, white space, and a body that does not start with white space; no newline in the white space that follows the opening line is followed by a closing delimiter, which pins the opening line to the longest one the regex can use |
| FrontMatter.ComposeThenMatch | scripts/make_recipes_index.py:30 | `---\n<fm>\n---\n<body>` matches with exactly `fm` and `body` when neither starts with white space and `fm` has no `\n---` |
| FrontMatter.FindCloseFirst | scripts/make_recipes_index.py:30 | the closing delimiter found is the first one after the group's start |
| Metadata.OrEmpty | scripts/make_recipes_index.py:75 | `v or {}` is `v` when `v` is truthy and `{}` otherwise |
| Dates.FirstParse | scripts/make_recipes_index.py:84-89 | the result is the parse of the first format that accepts the string; it is `None` exactly when every format rejects it |
| Dates.ParseDate | scripts/make_recipes_index.py:79-89 | a falsy value gives `None`; otherwise the result is the first format, in the order `%Y-%m-%d`, `%Y-%m`, `%Y`, that parses `str(val)`, or `None` when all of them fail |
| Ordering.KeyLeTotal | scripts/make_recipes_index.py:144 | any two keys `(date, lower-cased title)` are comparable |
| Ordering.KeyLeTrans | scripts/make_recipes_index.py:144 | the key order is transitive |
| Ordering.KeyLeAntisym | scripts/make_recipes_index.py:144 | keys that are each `<=` the other are equal |
| Ordering.SortDescPermutation | scripts/make_recipes_index.py:142-144 | the sort keeps every entry, each as often as before |
| Ordering.SortDescSorted | scripts/make_recipes_index.py:142-144 | after the sort, no entry's key is smaller than a later entry's key |
| Ordering.SortDescStable | scripts/make_recipes_index.py:142-144 | entries with the same key keep their relative order |
| Catalog.Lookup | scripts/make_recipes_index.py:118-125 | `meta.get(key)` is `None` for a missing key |
| Catalog.MakeItem | scripts/make_recipes_index.py:116-138 | an entry, when one is produced, has the file as its path and `base_stem` of the file name as its link |
| Catalog.MakeItemCases | scripts/make_recipes_index.py:116-134 | reading a recipe fails exactly when its YAML does not load, or its metadata is a truthy non-dictionary, or its `time` entry is; each case gives its own error. Otherwise the title is `str(title)` when truthy, else the file's stem; the cover is present exactly when truthy, and is then `str(cover)`; portions and difficulty are the metadata's; the times come from `time or {}`; the date is the parsed `date` when one format accepts it, else the modification time |
| Catalog.ReadItem | scripts/make_recipes_index.py:116-138 | the loop body's steps (read the front matter, check the metadata and `time`, parse the date or fall back to the modification time) compute the result whose cases `Catalog.MakeItemCases` states |
| Catalog.Visit | scripts/make_recipes_index.py:109-139 | one pass of the loop: an `index.*` file changes nothing; a recipe that fails gives its own error, and then no earlier file failed; otherwise each language's list grows by exactly that file's entry, and the languages stay the same |
| Catalog.Collect | scripts/make_recipes_index.py:106-145 | the result is an error exactly when some recipe fails, and then it is the first failing recipe's error. Otherwise there is a list for every language in `LANGS`, and each list is that language's entries, in file order, sorted |
| Catalog.SortEach | scripts/make_recipes_index.py:142-144 | every language's list is sorted in place, and the set of languages does not change |
| Catalog.ItemsMembership | scripts/make_recipes_index.py:108-139 | an entry is in a language's list if and only if some file not named `index.*`, filed under that language, produced it |
| Catalog.IndexFilesNeverListed | scripts/make_recipes_index.py:110-111 | no generated `index.*` page ever appears in a list |
| Catalog.UntaggedGoesToDefault | scripts/make_recipes_index.py:112-115 | a recipe without a recognised language tag is listed under `de` |
| Catalog.EveryRecipeListedOnce | scripts/make_recipes_index.py:109-139 | when no recipe fails, the lengths of the `de` and `en` lists add up to the number of recipe files |
| Catalog.CatalogListProperties | scripts/make_recipes_index.py:142-144 | each sorted list is a permutation of its entries and non-increasing in `(date, lower-cased title)`. Dates go newest first; with equal dates the titles go in descending order; equal keys keep file order; no index page is listed |
| Catalog.NoFrontmatterDefaults | scripts/make_recipes_index.py:118-128 | a file without front matter still yields an entry: its stem as title, no cover, no facets, and its modification time as date |
| Render.Chip | scripts/make_recipes_index.py:160-166 | a facet starts with `**`, and its next character is the first character of its label, which is how the four facets are told apart |
| Render.RenderCard | scripts/make_recipes_index.py:155-173 | the loop body appends the truthy facets one by one and builds the card `Card` describes |
| Render.RenderLines | scripts/make_recipes_index.py:150-174 | the list `lines` is heading, subtitle and grid opening, then for each entry in input order its card and an empty line, then the grid closing |
| Render.RenderIndex | scripts/make_recipes_index.py:147-175 | the page is the newline join of heading, subtitle, grid opening, one card plus an empty line per entry, and the grid closing. It starts with `# <title>`, a blank line, the subtitle, a blank line and the `<div>`, and it ends with `\n</div>\n` |
| Render.JoinFrame | scripts/make_recipes_index.py:150-175 | whatever the cards, the joined page starts with heading, subtitle and grid opening, and ends with the grid closing |
| Render.SpacedLayout | scripts/make_recipes_index.py:154-173 | the text of the i-th entry is at line 2i, with an empty line after it |
| Render.IndexLayout | scripts/make_recipes_index.py:150-174 | for the texts of any language, the page has 2n+4 lines. The first three are heading, subtitle and grid opening; the card of entry i is at line 3+2i, followed by an empty line; the last line closes the grid |
| Render.EmptyIndex | scripts/make_recipes_index.py:147-175 | a language without recipes gets heading, subtitle and an empty grid |
| Render.CardShape | scripts/make_recipes_index.py:169-173 | a card ends with the language's `open` label linking to the entry's link. It starts with the cover image when the cover is non-empty, and with the `no_cover` text when there is no cover |
| Render.FacetLineEmptyIff | scripts/make_recipes_index.py:158-167 | the facet line is empty if and only if none of portions, prep, cook and difficulty is truthy |
| Render.FacetChipPresentIff | scripts/make_recipes_index.py:158-166 | when the four labels begin with different letters, a facet is on the card exactly when its value is truthy, and there are as many facets as truthy values |
| Render.TableLabelsDistinct | scripts/make_recipes_index.py:35-60 | in both entries of `UI` the four facet labels are non-empty and begin with different letters, so the previous row holds for both languages |
| Render.FacetLineOrder | scripts/make_recipes_index.py:158-167 | with all four facets present, the line reads servings, prep, cook, level, joined by ` · ` |
| Indexes.LangsHaveTexts | scripts/make_recipes_index.py:32-60 | every language in `LANGS` has its texts in `UI` |
| Indexes.WriteIndexes | scripts/make_recipes_index.py:177-190 | either no recipe fails and every language gets `index.<lang>.md`, rendered from its sorted list, or the first failing recipe's error is returned and no index is produced |
| Indexes.RenderAll | scripts/make_recipes_index.py:185-188 | one file per language, named `index.<lang>.md`, holding the page rendered from `per_lang.get(lang, [])` |
| Indexes.ListOf | scripts/make_recipes_index.py:187 | a language missing from the dictionary gets an empty list |
| Indexes.IndexFileNamesDistinct | scripts/make_recipes_index.py:186 | different languages write different files |
| Indexes.RecipesMembership | scripts/make_recipes_index.py:109-111 | the files the collection reads are exactly the ones not named `index.*` |
| Indexes.ItemsIgnoreIndexFiles | scripts/make_recipes_index.py:110-111 | the lists are the same whether or not the listing holds `index.*` files |
| Indexes.FailuresIgnoreIndexFiles | scripts/make_recipes_index.py:110-111 | whether the run aborts does not depend on `index.*` files |
| Indexes.RegenerationStable | scripts/make_recipes_index.py:182-188 | two listings with the same recipe files give the same indexes, so the pages written by one run do not change the next one |

## Left out

- File-system access is not modelled: `glob`, `read_text`, `stat`, `write_text`, resolving the directories, and the `assert` that the directory exists. The listing, texts and modification times are inputs, and the written files are the returned map.
- Write failures are not modelled. The script writes `index.de.md` before `index.en.md`, so a failing second write would leave only the first one; `Indexes.WriteIndexes` returns both pages or none.
- Unreadable or undecodable files are not modelled, because reading is not part of the model.
- The YAML parser is a parameter. The loaded values are seen only through truthiness, `str()` and `get`.
- The parsing of the three date formats and `datetime.fromtimestamp` are parameters and inputs. A date is an integer.
- Argument parsing and the verbose output are left out; they do not influence the pages.
- Strings.Lower: only ASCII letters are lower-cased. Python's `str.lower` maps every Unicode letter. No other character lower-cases to `d`, `e` or `n`, so `lang_of_file` is modelled exactly. The title part of the sort key is exact only for titles without non-ASCII capitals.
- Metadata.Str: `str()` of a value is carried by the value, and its truthiness too. How Python derives both from the YAML types is not modelled.
- FileNames.Stem: this follows `Path.stem` as it splits at the last dot, when the dot is neither the first nor the last character. Rules of other Python versions for names ending in a dot are not modelled.
