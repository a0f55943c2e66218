/**
 * `parse_date`: flexible dates in the formats `%Y-%m-%d`, `%Y-%m` and `%Y`,
 * tried in that order. What one format accepts (`datetime.strptime`) is a
 * parameter; a date is an opaque, totally ordered point in time.
 */
module Dates {
  import opened Wrappers
  import opened Metadata

  /** A point in time; only its order matters to the index. */
  type Date = int

  /** The three accepted layouts: `%Y-%m-%d`, `%Y-%m`, `%Y`. */
  datatype Format = YearMonthDay | YearMonth | Year

  const Formats: seq<Format> := [YearMonthDay, YearMonth, Year]

  /** `datetime.strptime(s, fmt)`, `None` where it raises ValueError. */
  type Strptime = (string, Format) -> Option<Date>

  /** The result of the first format in `fmts` that accepts `s`. */
  function FirstParse(s: string, fmts: seq<Format>, strptime: Strptime): (r: Option<Date>)
    ensures r.Some? ==> exists i :: 0 <= i < |fmts| && strptime(s, fmts[i]) == r &&
                                    forall j :: 0 <= j < i ==> strptime(s, fmts[j]).None?
    ensures r.None? ==> forall i :: 0 <= i < |fmts| ==> strptime(s, fmts[i]).None?
  {
    if fmts == [] then None
    else if strptime(s, fmts[0]).Some? then strptime(s, fmts[0])
    else
      var r := FirstParse(s, fmts[1..], strptime);
      if r.Some? then
        var i :| 0 < i + 1 <= |fmts[1..]| && strptime(s, fmts[1..][i]) == r &&
                 forall j :: 0 <= j < i ==> strptime(s, fmts[1..][j]).None?;
        assert strptime(s, fmts[i + 1]) == r;
        r
      else r
  }

  /** The date `parse_date(val)` yields: none for a falsy value, else the first format that parses `str(val)`. */
  function DateOf(val: Value, strptime: Strptime): (r: Option<Date>)
  {
    if !Truthy(val) then None else FirstParse(Str(val), Formats, strptime)
  }

  /** `parse_date(val)`: its loop over the formats, returning at the first that parses. */
  method ParseDate(val: Value, strptime: Strptime) returns (r: Option<Date>)
    ensures r == DateOf(val, strptime)
    ensures !Truthy(val) ==> r.None?
    ensures Truthy(val) && r.Some? ==>
      exists i :: 0 <= i < |Formats| && strptime(Str(val), Formats[i]) == r &&
                  forall j :: 0 <= j < i ==> strptime(Str(val), Formats[j]).None?
    ensures Truthy(val) && r.None? ==> forall f :: f in Formats ==> strptime(Str(val), f).None?
  {
    if !Truthy(val) {
      return None;
    }
    var s := Str(val);
    for i := 0 to |Formats|
      invariant forall j :: 0 <= j < i ==> strptime(s, Formats[j]).None?
      invariant FirstParse(s, Formats[i..], strptime) == FirstParse(s, Formats, strptime)
    {
      var d := strptime(s, Formats[i]);
      if d.Some? {
        return d;
      }
      assert Formats[i..][1..] == Formats[i + 1..];
    }
    return None;
  }
}
