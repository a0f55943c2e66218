/**
 * The values a YAML front-matter block loads to, seen only through what
 * the index script does with them: Python truthiness (`if x`, `x or y`),
 * `str(x)` (f-strings and `str(...)`) and `.get(key)` on a dictionary.
 */
module Metadata {
  import opened Wrappers

  /**
   * `Null` is Python's `None`. Every other non-dictionary value (string,
   * number, date, list, ...) is a `Scalar` carrying its `str()` text and its
   * truthiness. A dictionary carries its entries and its `str()` text.
   */
  datatype Value =
    | Null
    | Scalar(text: string, truthy: bool)
    | Mapping(entries: map<string, Value>, text: string)

  /** The ways reading one recipe's metadata can abort the run. */
  datatype Error =
    | MalformedYaml           // `yaml.safe_load` raised
    | NotAMapping(of: string) // `.get` on something that is not a dict: AttributeError

  /** Python's `bool(v)`. */
  predicate Truthy(v: Value)
  {
    match v
    case Null => false
    case Scalar(_, t) => t
    case Mapping(m, _) => |m| > 0
  }

  /** Python's `str(v)`. */
  function Str(v: Value): (r: string)
  {
    match v
    case Null => "None"
    case Scalar(s, _) => s
    case Mapping(_, s) => s
  }

  /** The literal `{}`. */
  const EmptyMapping: Value := Mapping(map[], "{}")

  /** Python's `v or EmptyMapping`. */
  function OrEmpty(v: Value): (r: Value)
    ensures Truthy(v) ==> r == v
    ensures !Truthy(v) ==> r == EmptyMapping
  {
    if Truthy(v) then v else EmptyMapping
  }
}
