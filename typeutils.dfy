/** `modutils/typeutils.py` (repeated in `modutils/__init__.py`): the value
    class `sha256`, a string that starts with 64 hexadecimal digits and
    compares case-insensitively, and `nget`, a nested dictionary lookup with
    a default. */
module TypeUtils {
  import opened Base
  import opened PyValues
  import opened Text

  predicate IsHexChar(c: char) {
    '0' <= c <= '9' || 'a' <= c <= 'f' || 'A' <= c <= 'F'
  }

  /** `sha256_pattern.match(s)` for the pattern `[A-Fa-f0-9]{64}`: `match`
      anchors at the start but not at the end, so only the first 64
      characters are checked. */
  predicate HexPrefix(s: string) {
    |s| >= 64 && forall i :: 0 <= i < 64 ==> IsHexChar(s[i])
  }

  /** A `sha256` object: `__value__` is the whole string it was made from. */
  datatype Sha256 = Sha256(stored: string)

  /** What `sha256(...)` and `__eq__` may be given: any value, or another
      `sha256` object. */
  datatype Operand = Plain(v: Value) | Hash(h: Sha256)

  /** `str(x)`. A value holding a dict has no modelled `str` (its key order
      is not kept); its text starts with a bracket, so it never matches. */
  function StrOf(x: Operand): Option<string> {
    match x
    case Plain(v) => PyStr(v)
    case Hash(h) => Some(HashStr(h))
  }

  /** `__str__`: the stored string in lower case. */
  function HashStr(h: Sha256): string {
    Lower(h.stored)
  }

  /** `sha256.__init__`: the whole of `str(x)` is kept when it starts with 64
      hexadecimal digits; otherwise TypeError. */
  function Create(x: Operand): (r: Result<Sha256>)
    ensures r.Ok? ==> StrOf(x).Some? && r.value.stored == StrOf(x).value
    ensures r.Err? ==> r.error == TypeError
  {
    match StrOf(x)
    case None => Err(TypeError)
    case Some(s) => if HexPrefix(s) then Ok(Sha256(s)) else Err(TypeError)
  }

  /** `sha256.__eq__`: the operand is turned into a `sha256` first (raising
      TypeError when it is not one), then the lower-cased strings are
      compared. */
  function Equals(a: Sha256, x: Operand): Result<bool> {
    match Create(x)
    case Err(e) => Err(e)
    case Ok(b) => Ok(HashStr(a) == HashStr(b))
  }

  /** Construction succeeds exactly on text that starts with 64 hex
      digits, and keeps all of it. */
  lemma CreateSpec(x: Operand)
    ensures Create(x).Ok? <==> StrOf(x).Some? && HexPrefix(StrOf(x).value)
  {
  }

  /** Nothing is checked after the 64th character: anything may follow
      valid digits. */
  lemma CreateUnanchored(digits: string, rest: string)
    requires HexPrefix(digits)
    ensures Create(Plain(Str(digits + rest))) == Ok(Sha256(digits + rest))
  {
    assert forall i :: 0 <= i < 64 ==> (digits + rest)[i] == digits[i];
  }

  /** Lower-casing keeps the 64 hex digits in front. */
  lemma LowerHexPrefix(s: string)
    requires HexPrefix(s)
    ensures HexPrefix(Lower(s))
  {
  }

  /** `str()` of a valid hash is its stored string lower-cased: as long, in
      lower case, still a valid hash, and a hash made from it equals the
      original. */
  lemma HashStrSpec(h: Sha256)
    requires HexPrefix(h.stored)
    ensures |HashStr(h)| == |h.stored| && Lower(HashStr(h)) == HashStr(h)
    ensures forall i :: 0 <= i < |HashStr(h)| ==> !('A' <= HashStr(h)[i] <= 'Z')
    ensures Create(Hash(h)) == Ok(Sha256(HashStr(h)))
    ensures Equals(h, Hash(h)) == Ok(true)
  {
    LowerIdempotent(h.stored);
    LowerHexPrefix(h.stored);
  }

  /** Equality raises exactly when the operand is not a valid hash, and
      otherwise compares the texts ignoring case. */
  lemma EqualsSpec(a: Sha256, x: Operand)
    ensures Equals(a, x).Err? <==> !(StrOf(x).Some? && HexPrefix(StrOf(x).value))
    ensures Equals(a, x).Err? ==> Equals(a, x).error == TypeError
    ensures Equals(a, x).Ok? ==> Equals(a, x).value == (Lower(a.stored) == Lower(StrOf(x).value))
  {
  }

  /** Between valid hashes equality is symmetric and transitive. */
  lemma EqualsEquivalence(a: Sha256, b: Sha256, c: Sha256)
    requires HexPrefix(a.stored) && HexPrefix(b.stored) && HexPrefix(c.stored)
    ensures Equals(a, Hash(b)) == Equals(b, Hash(a))
    ensures Equals(a, Hash(b)) == Ok(true) && Equals(b, Hash(c)) == Ok(true) ==> Equals(a, Hash(c)) == Ok(true)
  {
    HashStrSpec(a);
    HashStrSpec(b);
    HashStrSpec(c);
  }

  /** A hash equals a string in any mix of cases that spells it. */
  lemma EqualsIgnoresCase(a: Sha256, s: string)
    requires HexPrefix(s) && Lower(s) == HashStr(a)
    ensures Equals(a, Plain(Str(s))) == Ok(true)
    ensures Equals(a, Plain(Str(Lower(s)))) == Ok(true)
  {
    LowerHexPrefix(s);
    LowerIdempotent(s);
  }

  /** Comparing with something that is not a hash raises instead of being
      unequal. */
  lemma EqualsRaises(a: Sha256)
    ensures Equals(a, Plain(Int(5))) == Err(TypeError)
    ensures Equals(a, Plain(PyNone)) == Err(TypeError)
  {
  }

  /** Python's `==` on the values `nget` compares: `bool` compares as the
      int it is, containers element by element. */
  predicate PyEq(a: Value, b: Value)
    decreases a
  {
    match (a, b)
    case (Int(i), Bool(c)) => i == (if c then 1 else 0)
    case (Bool(c), Int(i)) => i == (if c then 1 else 0)
    case (List(xs), List(ys)) => |xs| == |ys| && forall i :: 0 <= i < |xs| ==> PyEq(xs[i], ys[i])
    case (Tuple(xs), Tuple(ys)) => |xs| == |ys| && forall i :: 0 <= i < |xs| ==> PyEq(xs[i], ys[i])
    case _ => a == b
  }

  lemma {:induction false} PyEqReflexive(a: Value)
    ensures PyEq(a, a)
    decreases a
  {
    match a
    case List(xs) =>
      forall i | 0 <= i < |xs|
        ensures PyEq(xs[i], xs[i])
      {
        PyEqReflexive(xs[i]);
      }
    case Tuple(xs) =>
      forall i | 0 <= i < |xs|
        ensures PyEq(xs[i], xs[i])
      {
        PyEqReflexive(xs[i]);
      }
    case _ =>
  }

  /** The key path: the first argument when it is a list or the only
      argument, otherwise the tuple of all but the last. */
  function KeysArg(args: seq<Value>): Value
    requires |args| > 0
  {
    if args[0].List? || |args| == 1 then args[0] else Tuple(args[..|args| - 1])
  }

  /** The default: the last argument when there are two or more, else
      `None`. */
  function DefaultArg(args: seq<Value>): Value
    requires |args| > 0
  {
    if |args| > 1 then args[|args| - 1] else PyNone
  }

  /** The keys a path value stands for: a string is a one-key path, a list
      or tuple its elements, anything else no path. */
  function Path(keys: Value): Option<seq<Value>> {
    match keys
    case Str(_) => Some([keys])
    case List(ks) => Some(ks)
    case Tuple(ks) => Some(ks)
    case _ => None
  }

  /** The walk of `nget`'s loop from `d` along `ks`: `d.get(k, default)` at
      each step (AttributeError on a non-dict, TypeError on an unhashable
      key), the default as soon as a step yields a value equal to it, and
      at the end the value reached when truthy, else the default. */
  function Walk(d: Value, ks: seq<Value>, default: Value): Result<Value>
    decreases |ks|
  {
    if ks == [] then Ok(if Truthy(d) then d else default)
    else if !d.Dict? then Err(AttributeError)
    else if !Hashable(ks[0]) then Err(TypeError)
    else
      var next := if ks[0] in d.entries then d.entries[ks[0]] else default;
      if PyEq(next, default) then Ok(default) else Walk(next, ks[1..], default)
  }

  /** `nget(d, *args)`. */
  function NestedGet(d: Value, args: seq<Value>): Result<Value> {
    if |args| == 0 then Err(ValueError)
    else if !d.Dict? then Err(TypeError)
    else match Path(KeysArg(args))
      case None => Err(TypeError)
      case Some(ks) => Walk(d, ks, DefaultArg(args))
  }

  /** `nget` step by step: the `for` loop reassigning `d`, with its early
      returns. */
  method NGet(d: Value, args: seq<Value>) returns (r: Result<Value>)
    ensures r == NestedGet(d, args)
  {
    if |args| == 0 {
      return Err(ValueError);
    }
    var keys := if args[0].List? || |args| == 1 then args[0] else Tuple(args[..|args| - 1]);
    var default := if |args| > 1 then args[|args| - 1] else PyNone;
    if !d.Dict? {
      return Err(TypeError);
    }
    if keys.Str? {
      keys := List([keys]);
    }
    if !(keys.List? || keys.Tuple?) {
      return Err(TypeError);
    }
    var ks := keys.items;
    var cur := d;
    assert ks[0..] == ks;
    for i := 0 to |ks|
      invariant Walk(cur, ks[i..], default) == Walk(d, ks, default)
    {
      if !cur.Dict? {
        return Err(AttributeError);
      }
      if !Hashable(ks[i]) {
        return Err(TypeError);
      }
      cur := if ks[i] in cur.entries then cur.entries[ks[i]] else default;
      if PyEq(cur, default) {
        return Ok(default);
      }
      assert ks[i..][1..] == ks[i + 1..];
    }
    if Truthy(cur) {
      return Ok(cur);
    }
    return Ok(default);
  }

  /** `nget` raises ValueError exactly when no key argument is given, and
      TypeError for a non-dict or a key argument that is no path. */
  lemma NestedGetErrors(d: Value, args: seq<Value>)
    ensures NestedGet(d, args) == Err(ValueError) <==> args == []
    ensures args != [] && !d.Dict? ==> NestedGet(d, args) == Err(TypeError)
    ensures args != [] && d.Dict? && KeysArg(args).Int? ==> NestedGet(d, args) == Err(TypeError)
    ensures args != [] && d.Dict? && KeysArg(args).Dict? ==> NestedGet(d, args) == Err(TypeError)
  {
    if args != [] && d.Dict? && Path(KeysArg(args)).Some? {
      WalkErrors(d, Path(KeysArg(args)).value, DefaultArg(args));
    }
  }

  /** The walk never raises ValueError. */
  lemma {:induction false} WalkErrors(d: Value, ks: seq<Value>, default: Value)
    ensures Walk(d, ks, default).Err? ==> Walk(d, ks, default).error in {AttributeError, TypeError}
    decreases |ks|
  {
    if ks != [] && d.Dict? && Hashable(ks[0]) {
      var next := if ks[0] in d.entries then d.entries[ks[0]] else default;
      WalkErrors(next, ks[1..], default);
    }
  }

  /** The two calling styles agree: `nget(d, [k1, k2, ...], default)` is
      `nget(d, k1, k2, ..., default)` when `k1` is not a list. */
  lemma CallingStyles(d: Value, ks: seq<Value>, default: Value)
    requires |ks| >= 1 && !ks[0].List?
    ensures NestedGet(d, [List(ks), default]) == NestedGet(d, ks + [default])
  {
    var args := ks + [default];
    assert args[..|args| - 1] == ks;
  }

  /** One key: the value under it when present, not equal to the default
      and truthy; the default otherwise. Without a default argument, the
      default is `None`. */
  lemma OneKey(d: Value, k: Value, default: Value)
    requires d.Dict? && Hashable(k) && !k.List?
    ensures NestedGet(d, [k, default]) ==
            Ok(if k in d.entries && !PyEq(d.entries[k], default) && Truthy(d.entries[k]) then d.entries[k] else default)
    ensures k.Str? ==> NestedGet(d, [k]) == NestedGet(d, [k, PyNone])
  {
    var args := [k, default];
    assert args[..|args| - 1] == [k];
    assert [k][1..] == [];
    PyEqReflexive(default);
    var next := if k in d.entries then d.entries[k] else default;
    assert Walk(next, [], default) == Ok(if Truthy(next) then next else default);
    assert NestedGet(d, args) == Walk(d, [k], default);
    if k.Str? {
      var none := [k, PyNone];
      assert none[..|none| - 1] == [k];
      assert NestedGet(d, [k]) == Walk(d, [k], PyNone);
    }
  }

  /** The plain nested lookup `d[k1][k2]...`, when every key is there. */
  function Lookup(d: Value, ks: seq<Value>): Option<Value>
    decreases |ks|
  {
    if ks == [] then Some(d)
    else if d.Dict? && ks[0] in d.entries then Lookup(d.entries[ks[0]], ks[1..])
    else None
  }

  /** No value met along the path is equal to the default. */
  predicate Avoids(d: Value, ks: seq<Value>, default: Value)
    decreases |ks|
  {
    ks == [] ||
    (d.Dict? && ks[0] in d.entries && !PyEq(d.entries[ks[0]], default) && Avoids(d.entries[ks[0]], ks[1..], default))
  }

  predicate AllHashable(ks: seq<Value>) {
    forall i :: 0 <= i < |ks| ==> Hashable(ks[i])
  }

  /** What the walk returns is the default or the truthy value the plain
      lookup reaches. */
  lemma {:induction false} WalkSound(d: Value, ks: seq<Value>, default: Value)
    ensures Walk(d, ks, default).Ok? ==>
              Walk(d, ks, default).value == default ||
              (Truthy(Walk(d, ks, default).value) && Lookup(d, ks) == Some(Walk(d, ks, default).value))
    decreases |ks|
  {
    if ks != [] && d.Dict? && Hashable(ks[0]) {
      var next := if ks[0] in d.entries then d.entries[ks[0]] else default;
      if !PyEq(next, default) {
        WalkSound(next, ks[1..], default);
        if ks[0] !in d.entries {
          PyEqReflexive(default);
        }
      }
    }
  }

  /** When every key is present and no value on the way equals the
      default, the walk yields the value reached, or the default when that
      value is falsy. */
  lemma {:induction false} WalkFound(d: Value, ks: seq<Value>, default: Value)
    requires AllHashable(ks) && Lookup(d, ks).Some? && Avoids(d, ks, default)
    ensures Walk(d, ks, default) == Ok(if Truthy(Lookup(d, ks).value) then Lookup(d, ks).value else default)
    decreases |ks|
  {
    if ks != [] {
      WalkFound(d.entries[ks[0]], ks[1..], default);
    }
  }

  /** A key missing partway yields the default, once the keys before it
      led through dicts. */
  lemma {:induction false} WalkMissing(d: Value, ks: seq<Value>, default: Value, j: nat)
    requires j < |ks| && AllHashable(ks) && Lookup(d, ks[..j]).Some? && Avoids(d, ks[..j], default)
    requires Lookup(d, ks[..j]).value.Dict? && ks[j] !in Lookup(d, ks[..j]).value.entries
    ensures Walk(d, ks, default) == Ok(default)
    decreases j
  {
    if j == 0 {
      PyEqReflexive(default);
    } else {
      assert ks[..j][1..] == ks[1..][..j - 1];
      WalkMissing(d.entries[ks[0]], ks[1..], default, j - 1);
    }
  }
}
