/**
 * `read_frontmatter`: splitting a document into its leading YAML block and
 * the rest, following the pattern `^---\s*\n(.*?)\n---\s*\n?` (DOTALL) the
 * way Python's backtracking matcher resolves it. Loading the YAML text is a
 * parameter (`yamlLoad`), `None` standing for a `yaml.YAMLError`.
 */
module FrontMatter {
  import opened Wrappers
  import opened Strings
  import opened Metadata

  /** The characters `\s` matches in a `str` pattern (those for which `str.isspace()` holds). */
  predicate IsSpace(c: char)
  {
    c == ' ' || ('\t' <= c <= '\r') || ('\U{1C}' <= c <= '\U{1F}') ||
    c == '\U{85}' || c == '\U{A0}' || c == '\U{1680}' || ('\U{2000}' <= c <= '\U{200A}') ||
    c == '\U{2028}' || c == '\U{2029}' || c == '\U{202F}' || c == '\U{205F}' || c == '\U{3000}'
  }

  /** Where a greedy `\s*` that starts at `i` stops. */
  function SkipSpace(text: string, i: nat): (j: nat)
    requires i <= |text|
    ensures i <= j <= |text|
    ensures forall m :: i <= m < j ==> IsSpace(text[m])
    ensures j == |text| || !IsSpace(text[j])
    decreases |text| - i
  {
    if i == |text| || !IsSpace(text[i]) then i else SkipSpace(text, i + 1)
  }

  /** The closing delimiter `\n---` starts at `k`. */
  predicate ClosesAt(s: string, k: int)
  {
    0 <= k && k + 4 <= |s| && s[k..k + 4] == "\n---"
  }

  /**
   * The non-greedy group `(.*?)` starting at `g`: the first `k >= g` at which
   * the closing delimiter starts (what follows it, `\s*\n?`, always matches).
   */
  function FindClose(text: string, g: nat): (r: Option<nat>)
    requires g <= |text|
    ensures r.Some? ==> g <= r.value && ClosesAt(text, r.value)
    ensures r.Some? ==> forall j :: g <= j < r.value ==> !ClosesAt(text, j)
    ensures r.None? ==> forall j :: g <= j ==> !ClosesAt(text, j)
    decreases |text| - g
  {
    if g + 4 > |text| then None
    else if text[g..g + 4] == "\n---" then Some(g)
    else FindClose(text, g + 1)
  }

  /** A newline at `q` after which a closing delimiter follows. */
  predicate OpensAt(text: string, q: int)
  {
    0 <= q < |text| && text[q] == '\n' && FindClose(text, q + 1).Some?
  }

  /**
   * The opening `---\s*\n`: the greedy `\s*` backs off one newline at a time,
   * so the group may start after the newline at `p`, `p - 1`, ... down to 3;
   * the first of these for which a closing delimiter follows wins.
   * The result is the group's start and the closing delimiter's start.
   */
  function OpenAt(text: string, p: int): (r: Option<(nat, nat)>)
    requires p < |text|
    ensures r.Some? ==> 3 <= r.value.0 - 1 <= p && text[r.value.0 - 1] == '\n'
    ensures r.Some? ==> FindClose(text, r.value.0) == Some(r.value.1)
    ensures r.Some? ==> forall q :: r.value.0 <= q <= p ==> !OpensAt(text, q)
    ensures r.None? ==> forall q :: 3 <= q <= p ==> !OpensAt(text, q)
    decreases p
  {
    if p < 3 then None
    else if text[p] == '\n' && FindClose(text, p + 1).Some? then Some((p + 1, FindClose(text, p + 1).value))
    else OpenAt(text, p - 1)
  }

  /**
   * Where the front-matter pattern matches, if it does: the start of the
   * group, the start of the closing delimiter and the end of the match.
   */
  function MatchBounds(text: string): (r: Option<(nat, nat, nat)>)
    ensures r.Some? ==> 4 <= r.value.0 <= r.value.1 && r.value.1 + 4 <= r.value.2 <= |text|
    ensures r.Some? ==> text[..3] == "---" && text[r.value.0 - 1] == '\n'
    ensures r.Some? ==> forall m :: 3 <= m < r.value.0 ==> IsSpace(text[m])
    ensures r.Some? ==> FindClose(text, r.value.0) == Some(r.value.1) && ClosesAt(text, r.value.1)
    ensures r.Some? ==> forall m :: r.value.1 + 4 <= m < r.value.2 ==> IsSpace(text[m])
    ensures r.Some? ==> r.value.2 == |text| || !IsSpace(text[r.value.2])
    ensures r.Some? ==> 3 <= |text| && forall q :: r.value.0 <= q < SkipSpace(text, 3) ==> !OpensAt(text, q)
    ensures r.None? ==> !StartsWith(text, "---") || forall q :: 3 <= q < SkipSpace(text, 3) ==> !OpensAt(text, q)
  {
    if !StartsWith(text, "---") then None
    else
      var open := OpenAt(text, SkipSpace(text, 3) - 1);
      if open.None? then None
      else Some((open.value.0, open.value.1, SkipSpace(text, open.value.1 + 4)))
  }

  /** The match of the front-matter pattern, if any: the YAML text and what follows the match. */
  function MatchFrontmatter(text: string): (r: Option<(string, string)>)
  {
    var b := MatchBounds(text);
    if b.None? then None else Some((text[b.value.0..b.value.1], text[b.value.2..]))
  }

  /**
   * `read_frontmatter(text)`: `({}, text)` when the pattern does not match;
   * otherwise the loaded YAML (or `{}` when it loads to something falsy)
   * and the text after the match.
   */
  function ReadFrontmatter(text: string, yamlLoad: string -> Option<Value>): (r: Result<(Value, string), Error>)
    ensures MatchFrontmatter(text).None? ==> r == Ok((EmptyMapping, text))
    ensures MatchFrontmatter(text).Some? ==>
      var (fm, rest) := MatchFrontmatter(text).value;
      (r.Ok? <==> yamlLoad(fm).Some?) && (r.Ok? ==> r.value == (OrEmpty(yamlLoad(fm).value), rest))
    ensures r.Err? ==> r.error == MalformedYaml
    ensures r.Ok? ==> Truthy(r.value.0) || r.value.0 == EmptyMapping
  {
    match MatchFrontmatter(text)
    case None => Ok((EmptyMapping, text))
    case Some((fm, body)) =>
      match yamlLoad(fm)
      case None => Err(MalformedYaml)
      case Some(v) => Ok((OrEmpty(v), body))
  }

  /** A text that does not begin with `---` has no front matter. */
  lemma NoMarkerNoFrontmatter(text: string, yamlLoad: string -> Option<Value>)
    requires !StartsWith(text, "---")
    ensures ReadFrontmatter(text, yamlLoad) == Ok((EmptyMapping, text))
  {
  }

  /**
   * Anatomy of a match: the text is the opening line (`---`, white space, a
   * newline), the YAML text, which holds no closing delimiter, the closing
   * `---`, white space, and the rest, which does not begin with white space.
   */
  lemma MatchShape(text: string, fm: string, rest: string) returns (open: string, gap: string)
    requires MatchFrontmatter(text) == Some((fm, rest))
    ensures text == open + fm + "\n---" + gap + rest
    ensures |open| >= 4 && open[..3] == "---" && open[|open| - 1] == '\n'
    ensures forall m :: 3 <= m < |open| ==> IsSpace(open[m])
    ensures forall j :: !ClosesAt(fm, j)
    ensures forall m :: 0 <= m < |gap| ==> IsSpace(gap[m])
    ensures rest == [] || !IsSpace(rest[0])
    ensures forall q :: |open| <= q < |text| && (forall m :: |open| <= m <= q ==> IsSpace(text[m])) ==> !OpensAt(text, q)
  {
    var b := MatchBounds(text).value;
    var g, k, e := b.0, b.1, b.2;
    assert fm == text[g..k] && rest == text[e..];
    open, gap := text[..g], text[k + 4..e];
    assert open[|open| - 1] == text[g - 1] == '\n' && open[..3] == text[..3] == "---";
    forall m | 3 <= m < |open| ensures IsSpace(open[m]) {
      assert open[m] == text[m];
    }
    forall m | 0 <= m < |gap| ensures IsSpace(gap[m]) {
      assert gap[m] == text[k + 4 + m];
    }
    NothingClosesBefore(text, g, k);
    Decompose(text, g, k, e);
    LongestOpening(text, g);
  }

  /** No newline in the white space that follows the chosen opening line is followed by a closing delimiter. */
  lemma LongestOpening(text: string, g: nat)
    requires MatchBounds(text).Some? && MatchBounds(text).value.0 == g
    ensures forall q :: g <= q < |text| && (forall m :: g <= m <= q ==> IsSpace(text[m])) ==> !OpensAt(text, q)
  {
  }

  lemma Decompose(text: string, g: nat, k: nat, e: nat)
    requires g <= k && k + 4 <= e <= |text| && ClosesAt(text, k)
    ensures text == text[..g] + text[g..k] + "\n---" + text[k + 4..e] + text[e..]
  {
    assert text[k..k + 4] == "\n---";
    calc {
      text;
      text[..g] + text[g..];
      text[..g] + (text[g..k] + text[k..]);
      text[..g] + (text[g..k] + ("\n---" + text[k + 4..]));
      text[..g] + (text[g..k] + ("\n---" + (text[k + 4..e] + text[e..])));
      text[..g] + text[g..k] + "\n---" + text[k + 4..e] + text[e..];
    }
  }

  lemma NothingClosesBefore(text: string, g: nat, k: nat)
    requires g <= |text| && FindClose(text, g) == Some(k)
    ensures forall j :: !ClosesAt(text[g..k], j)
  {
    var fm := text[g..k];
    forall j ensures !ClosesAt(fm, j) {
      if ClosesAt(fm, j) {
        assert text[g + j..g + j + 4] == fm[j..j + 4];
        assert ClosesAt(text, g + j);
      }
    }
  }

  /**
   * Writing a document as `---`, a YAML text, `---` and a body, and reading
   * it back, gives the YAML text and the body, provided neither begins with
   * white space (which the pattern would swallow) and the YAML text holds no
   * closing delimiter of its own.
   */
  lemma {:induction false} ComposeThenMatch(fm: string, body: string)
    requires fm != [] && !IsSpace(fm[0])
    requires forall j :: !ClosesAt(fm, j)
    requires body == [] || !IsSpace(body[0])
    ensures MatchFrontmatter("---\n" + fm + "\n---\n" + body) == Some((fm, body))
  {
    var text := "---\n" + fm + "\n---\n" + body;
    var c := 4 + |fm|;
    assert StartsWith(text, "---");
    assert text[4] == fm[0];
    assert SkipSpace(text, 4) == 4;
    assert SkipSpace(text, 3) == 4;
    ComposedClose(fm, body);
    assert OpenAt(text, 3) == Some((4, c));
    assert text[c + 4] == '\n';
    if body == [] {
      assert SkipSpace(text, c + 5) == c + 5;
    } else {
      assert text[c + 5] == body[0];
      assert SkipSpace(text, c + 5) == c + 5;
    }
    assert SkipSpace(text, c + 4) == c + 5;
    assert text[4..c] == fm;
    assert text[c + 5..] == body;
  }

  /** In a composed document the group ends at the `---` line that was written. */
  lemma ComposedClose(fm: string, body: string)
    requires forall j :: !ClosesAt(fm, j)
    ensures FindClose("---\n" + fm + "\n---\n" + body, 4) == Some(4 + |fm|)
  {
    var text := "---\n" + fm + "\n---\n" + body;
    var c := 4 + |fm|;
    assert ClosesAt(text, c) by { assert text[c..c + 4] == "\n---"; }
    forall j | 4 <= j < c ensures !ClosesAt(text, j) {
      if j + 4 <= c {
        assert text[j..j + 4] == fm[j - 4..j];
        assert !ClosesAt(fm, j - 4);
      } else {
        assert text[c] == '\n';
        assert text[j..j + 4][c - j] == '\n';
      }
    }
    FindCloseFirst(text, 4, c);
  }

  /** The search for the closing delimiter finds the first one. */
  lemma {:induction false} FindCloseFirst(text: string, g: nat, c: nat)
    requires g <= c && ClosesAt(text, c)
    requires forall j :: g <= j < c ==> !ClosesAt(text, j)
    ensures FindClose(text, g) == Some(c)
    decreases c - g
  {
    if g < c {
      assert !ClosesAt(text, g);
      FindCloseFirst(text, g + 1, c);
    }
  }
}
