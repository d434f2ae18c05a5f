/** The Python values that flow through the library as arguments, keys,
    defaults and results: a small JSON-like universe with Python's
    truthiness and `str()`. */
module PyValues {
  import opened Base
  import opened Text

  /** A Python value. A `dict` is a finite map; its insertion order is not
      kept, so nothing here depends on the order of a dict's keys. */
  datatype Value =
    | PyNone
    | Bool(b: bool)
    | Int(i: int)
    | Str(s: string)
    | List(items: seq<Value>)
    | Tuple(items: seq<Value>)
    | Dict(entries: map<Value, Value>)

  /** The arguments of one Python call: positional values and keyword
      arguments. */
  datatype Call = Call(args: seq<Value>, kwargs: map<Value, Value>)

  /** Python's `bool(v)`: `None`, `False`, `0`, `''` and empty containers are
      false, everything else is true. */
  predicate Truthy(v: Value) {
    match v
    case PyNone => false
    case Bool(b) => b
    case Int(i) => i != 0
    case Str(s) => s != ""
    case List(xs) => xs != []
    case Tuple(xs) => xs != []
    case Dict(m) => m != map[]
  }

  /** Whether `hash(v)` succeeds: lists and dicts are unhashable, and so is a
      tuple holding one. */
  predicate Hashable(v: Value) {
    match v
    case List(_) => false
    case Dict(_) => false
    case Tuple(xs) => forall i :: 0 <= i < |xs| ==> Hashable(xs[i])
    case _ => true
  }

  predicate HasDict(v: Value) {
    match v
    case Dict(_) => true
    case List(xs) => exists i :: 0 <= i < |xs| && HasDict(xs[i])
    case Tuple(xs) => exists i :: 0 <= i < |xs| && HasDict(xs[i])
    case _ => false
  }

  function HexDigit(d: nat): char
    requires d < 16
  {
    "0123456789abcdef"[d]
  }

  /** One character of a string's `repr`, escaped as Python escapes it when
      `quote` is the enclosing quote. */
  function EscapeChar(c: char, quote: char): string {
    if c == '\\' then "\\\\"
    else if c == quote then ['\\', quote]
    else if c == '\n' then "\\n"
    else if c == '\r' then "\\r"
    else if c == '\t' then "\\t"
    else if c < ' ' || c as int == 0x7f then
      ['\\', 'x', HexDigit(c as int / 16), HexDigit(c as int % 16)]
    else [c]
  }

  function EscapeAll(s: string, quote: char): string {
    if s == [] then "" else EscapeChar(s[0], quote) + EscapeAll(s[1..], quote)
  }

  /** Python's `repr` of a string: double quotes only when the text holds a
      single quote and no double quote. */
  function StrRepr(s: string): (r: string)
    ensures |r| >= 2
  {
    var quote := if '\'' in s && '"' !in s then '"' else '\'';
    [quote] + EscapeAll(s, quote) + [quote]
  }

  /** Python's `str(v)`, or `None` where `v` holds a dict (whose rendering
      depends on the key order this model does not keep). Inside a container
      elements are rendered with `repr`. */
  function PyStr(v: Value): (r: Option<string>)
    ensures r.None? <==> HasDict(v)
    ensures v.Str? ==> r == Some(v.s)
    ensures v == PyNone ==> r == Some("None")
    ensures v.Bool? ==> r == Some(if v.b then "True" else "False")
    ensures v.Int? ==> r == Some(IntToStr(v.i))
    ensures v.List? && r.Some? ==> |r.value| >= 2 && r.value[0] == '[' && r.value[|r.value| - 1] == ']'
    ensures v.Tuple? && r.Some? ==> |r.value| >= 2 && r.value[0] == '(' && r.value[|r.value| - 1] == ')'
  {
    match v
    case Str(s) => Some(s)
    case _ => Repr(v)
  }

  function Repr(v: Value): (r: Option<string>)
    ensures r.None? <==> HasDict(v)
    decreases v, 1
  {
    match v
    case PyNone => Some("None")
    case Bool(b) => Some(if b then "True" else "False")
    case Int(i) => Some(IntToStr(i))
    case Str(s) => Some(StrRepr(s))
    case Dict(_) => None
    case List(xs) =>
      if HasDict(v) then None
      else Some("[" + Join(ReprAll(xs), ", ") + "]")
    case Tuple(xs) =>
      if HasDict(v) then None
      else Some("(" + Join(ReprAll(xs), ", ") + (if |xs| == 1 then "," else "") + ")")
  }

  /** The `repr` of each element of a container that holds no dict. */
  function ReprAll(xs: seq<Value>): (r: seq<string>)
    requires forall i :: 0 <= i < |xs| ==> !HasDict(xs[i])
    ensures |r| == |xs|
    decreases xs, 0
  {
    seq(|xs|, i requires 0 <= i < |xs| => Repr(xs[i]).value)
  }
}
