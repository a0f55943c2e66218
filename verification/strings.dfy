/**
 * String helpers the index script relies on from Python's `str`:
 * `split`, `join`, `lower`, `startswith` and the code-point ordering
 * used when tuples of strings are compared.
 */
module Strings {

  /** Python's `sep.join(parts)`. */
  function Join(parts: seq<string>, sep: string): (r: string)
  {
    if |parts| == 0 then ""
    else if |parts| == 1 then parts[0]
    else parts[0] + sep + Join(parts[1..], sep)
  }

  /** Python's `s.split(c)` for a one-character separator. */
  function Split(s: string, c: char): (r: seq<string>)
    ensures |r| >= 1
  {
    if s == [] then [[]]
    else
      var rest := Split(s[1..], c);
      if s[0] == c then [[]] + rest
      else [[s[0]] + rest[0]] + rest[1..]
  }

  /** Joining the pieces of a split with the separator gives the string back. */
  lemma {:induction false} SplitJoin(s: string, c: char)
    ensures Join(Split(s, c), [c]) == s
  {
    if s != [] {
      var rest := Split(s[1..], c);
      SplitJoin(s[1..], c);
      if s[0] == c {
        assert Split(s, c) == [[]] + rest;
        assert ([[]] + rest)[1..] == rest;
      } else {
        var r := Split(s, c);
        assert r == [[s[0]] + rest[0]] + rest[1..];
        if |rest| > 1 {
          assert r[1..] == rest[1..];
          assert Join(rest, [c]) == rest[0] + [c] + Join(rest[1..], [c]);
        }
      }
    }
  }

  /** A string without the separator splits into itself. */
  lemma {:induction false} SplitNoSep(p: string, c: char)
    requires c !in p
    ensures Split(p, c) == [p]
  {
    if p != [] {
      SplitNoSep(p[1..], c);
      assert [p[0]] + p[1..] == p;
    }
  }

  /** Splitting around one separator splits each side on its own. */
  lemma {:induction false} SplitConcat(s: string, c: char, t: string)
    ensures Split(s + [c] + t, c) == Split(s, c) + Split(t, c)
  {
    if s == [] {
      assert s + [c] + t == [c] + t;
      SplitCons(c, t, c);
    } else {
      SplitConcat(s[1..], c, t);
      SplitConcatStep(s[0], s[1..], c, t);
      assert s == [s[0]] + s[1..];
    }
  }

  lemma SplitConcatStep(x: char, tail: string, c: char, t: string)
    requires Split(tail + [c] + t, c) == Split(tail, c) + Split(t, c)
    ensures Split([x] + tail + [c] + t, c) == Split([x] + tail, c) + Split(t, c)
  {
    assert [x] + tail + [c] + t == [x] + (tail + [c] + t);
    SplitCons(x, tail + [c] + t, c);
    SplitCons(x, tail, c);
    if x == c {
      PiecesAssoc([], Split(tail, c), Split(t, c));
    } else {
      FirstPieceExtend([x], Split(tail, c), Split(t, c));
    }
  }

  lemma PiecesAssoc(head: string, front: seq<string>, back: seq<string>)
    ensures [head] + (front + back) == ([head] + front) + back
  {
  }

  /** Extending the first piece commutes with appending more pieces. */
  lemma FirstPieceExtend(p: string, front: seq<string>, back: seq<string>)
    requires |front| > 0
    ensures [p + (front + back)[0]] + (front + back)[1..] == ([p + front[0]] + front[1..]) + back
  {
    assert (front + back)[0] == front[0];
    assert (front + back)[1..] == front[1..] + back;
  }

  /** One step of the split: the first character either ends a piece or joins the first piece. */
  lemma SplitCons(x: char, r: string, c: char)
    ensures Split([x] + r, c) ==
      if x == c then [[]] + Split(r, c) else [[x] + Split(r, c)[0]] + Split(r, c)[1..]
  {
    assert ([x] + r)[0] == x && ([x] + r)[1..] == r;
  }

  /** Appending one part at the end of a non-empty join. */
  lemma {:induction false} JoinSnoc(parts: seq<string>, x: string, sep: string)
    requires |parts| > 0
    ensures Join(parts + [x], sep) == Join(parts, sep) + sep + x
  {
    if |parts| > 1 {
      JoinSnoc(parts[1..], x, sep);
      assert (parts + [x])[1..] == parts[1..] + [x];
    } else {
      assert (parts + [x])[1..] == [x];
    }
  }

  /** Two leading parts of a join, spelled out. */
  lemma JoinCons(a: string, parts: seq<string>, sep: string)
    requires |parts| > 0
    ensures Join([a] + parts, sep) == a + sep + Join(parts, sep)
  {
    assert ([a] + parts)[1..] == parts;
  }

  /** A join of three parts, any middle parts and a last part begins with the three and ends with the last. */
  lemma JoinEnds(a: string, b: string, c: string, mid: seq<string>, z: string, sep: string)
    ensures StartsWith(Join([a, b, c] + mid + [z], sep), a + sep + b + sep + c)
    ensures EndsWith(Join([a, b, c] + mid + [z], sep), sep + z)
  {
    JoinStart(a, b, c, mid, z, sep);
    JoinEnd([a, b, c] + mid, z, sep);
  }

  lemma JoinStart(a: string, b: string, c: string, mid: seq<string>, z: string, sep: string)
    ensures StartsWith(Join([a, b, c] + mid + [z], sep), a + sep + b + sep + c)
  {
    assert [a, b, c] + mid + [z] == [a, b, c] + (mid + [z]);
    JoinThree(a, b, c, mid + [z], sep);
    ConcatAffixes(a + sep + b + sep + c, sep + Join(mid + [z], sep));
  }

  /** A join of several parts ends with the separator and the last part. */
  lemma JoinEnd(parts: seq<string>, z: string, sep: string)
    requires |parts| > 0
    ensures EndsWith(Join(parts + [z], sep), sep + z)
  {
    JoinSnoc(parts, z, sep);
    ConcatAffixes(Join(parts, sep), sep + z);
    ConcatAssoc(Join(parts, sep), sep, z);
  }

  lemma ConcatAssoc(x: string, y: string, z: string)
    ensures x + y + z == x + (y + z)
  {
  }

  /** Three leading parts of a join, spelled out. */
  lemma JoinThree(a: string, b: string, c: string, tail: seq<string>, sep: string)
    requires |tail| > 0
    ensures Join([a, b, c] + tail, sep) == (a + sep + b + sep + c) + (sep + Join(tail, sep))
  {
    assert [a, b, c] + tail == [a] + ([b] + ([c] + tail));
    JoinCons(c, tail, sep);
    JoinCons(b, [c] + tail, sep);
    JoinCons(a, [b] + ([c] + tail), sep);
  }

  predicate IsUpper(c: char)
  {
    'A' <= c <= 'Z'
  }

  /** Lower-casing of one character (ASCII letters only). */
  function LowerChar(c: char): (r: char)
    ensures !IsUpper(r)
    ensures !IsUpper(c) ==> r == c
  {
    if IsUpper(c) then (c as int + 32) as char else c
  }

  /** Python's `s.lower()`, restricted to ASCII letters. */
  function Lower(s: string): (r: string)
    ensures |r| == |s|
    ensures forall i :: 0 <= i < |s| ==> r[i] == LowerChar(s[i])
  {
    seq(|s|, i requires 0 <= i < |s| => LowerChar(s[i]))
  }

  /** A string without upper-case letters is its own lower-case form. */
  lemma LowerOfLower(s: string)
    requires forall i :: 0 <= i < |s| ==> !IsUpper(s[i])
    ensures Lower(s) == s
  {
  }

  /** Python's `s.startswith(p)`. */
  predicate StartsWith(s: string, p: string)
  {
    |p| <= |s| && s[..|p|] == p
  }

  /** Python's `s.endswith(p)`. */
  predicate EndsWith(s: string, p: string)
  {
    |p| <= |s| && s[|s| - |p|..] == p
  }

  /** A concatenation begins with its left part and ends with its right part. */
  lemma ConcatAffixes(a: string, b: string)
    ensures StartsWith(a + b, a) && EndsWith(a + b, b)
  {
    assert (a + b)[..|a|] == a;
    assert (a + b)[|a|..] == b;
  }

  /** A concatenation of four parts begins with the first and ends with the last. */
  lemma ConcatEnds(a: string, b: string, c: string, d: string)
    ensures StartsWith(a + b + c + d, a) && EndsWith(a + b + c + d, d)
  {
    ConcatAffixes(a + b + c, d);
    ConcatAffixes(a + b, c);
    ConcatAffixes(a, b);
    StartsWithTrans(a + b + c, a + b, a);
    StartsWithTrans(a + b + c + d, a + b + c, a);
  }

  /** A prefix of a prefix is a prefix. */
  lemma StartsWithTrans(s: string, t: string, p: string)
    requires StartsWith(s, t) && StartsWith(t, p)
    ensures StartsWith(s, p)
  {
    assert s[..|p|] == s[..|t|][..|p|];
  }

  /** Python's `a <= b` on strings: lexicographic by code point. */
  predicate StrLe(a: string, b: string)
  {
    if a == [] then true
    else if b == [] then false
    else a[0] < b[0] || (a[0] == b[0] && StrLe(a[1..], b[1..]))
  }

  lemma {:induction false} StrLeRefl(a: string)
    ensures StrLe(a, a)
  {
    if a != [] {
      StrLeRefl(a[1..]);
    }
  }

  lemma {:induction false} StrLeTotal(a: string, b: string)
    ensures StrLe(a, b) || StrLe(b, a)
  {
    if a != [] && b != [] && a[0] == b[0] {
      StrLeTotal(a[1..], b[1..]);
    }
  }

  lemma {:induction false} StrLeAntisym(a: string, b: string)
    requires StrLe(a, b) && StrLe(b, a)
    ensures a == b
  {
    if a != [] && b != [] {
      StrLeAntisym(a[1..], b[1..]);
      assert a == [a[0]] + a[1..] && b == [b[0]] + b[1..];
    }
  }

  lemma {:induction false} StrLeTrans(a: string, b: string, c: string)
    requires StrLe(a, b) && StrLe(b, c)
    ensures StrLe(a, c)
  {
    if a != [] && b != [] && c != [] && a[0] == b[0] && b[0] == c[0] {
      StrLeTrans(a[1..], b[1..], c[1..]);
    }
  }
}
