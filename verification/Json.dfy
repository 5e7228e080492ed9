/** JSON values as the audit log stores them, and the two text functions the
    hash chain is built on. */
module Json {

  datatype Option<+T> = None | Some(value: T)

  datatype Result<+T, +E> = Ok(value: T) | Err(error: E)

  datatype Value =
    | Null
    | Bool(b: bool)
    | Int(n: int)
    | Float(r: real)
    | Text(s: string)
    | Array(items: seq<Value>)
    | Object(members: map<string, Value>)
  {
    /** Python truth value of a decoded JSON value. */
    predicate Truthy() {
      match this
      case Null => false
      case Bool(b) => b
      case Int(n) => n != 0
      case Float(r) => r != 0.0
      case Text(s) => s != ""
      case Array(items) => items != []
      case Object(members) => members != map[]
    }
  }

  type Dict = map<string, Value>

  /** `dict.get(key)` */
  function Get(d: Dict, key: string): Option<Value> {
    if key in d then Some(d[key]) else None
  }

  /** The library functions the log relies on, kept abstract:
      canonical - `canonical_json`, sorted keys and fixed separators;
      sha       - `sha256_hex` over text;
      show      - `str(v)` of a decoded value that is not a string;
      isDigit   - `str.isdigit` of one character.
      Nothing is assumed of any of them. */
  datatype Codec = Codec(
    canonical: Dict -> string,
    sha: string -> string,
    show: Value -> string,
    isDigit: char -> bool)
  {
    function Digest(body: Dict): string {
      sha(canonical(body))
    }

    /** `str(v)` */
    function Str(v: Value): string {
      if v.Text? then v.s else show(v)
    }

    /** `str(v or "")` for the result of a `get` */
    function StrOrEmpty(v: Option<Value>): string {
      if v.Some? && v.value.Truthy() then Str(v.value) else ""
    }
  }
}
