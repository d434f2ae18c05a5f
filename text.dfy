/** The string operations of Python's `str` that the modelled code uses:
    substring search (`in`), `split`, `join`, `replace` of one character,
    ASCII `lower` and the decimal rendering of an `int`. */
module Text {
  import opened Base

  predicate OccursAt(s: string, sub: string, i: nat) {
    i + |sub| <= |s| && s[i..i + |sub|] == sub
  }

  /** Python's `sub in s`. */
  predicate Contains(s: string, sub: string) {
    exists i :: 0 <= i <= |s| && OccursAt(s, sub, i)
  }

  predicate StartsWith(s: string, prefix: string) {
    |prefix| <= |s| && s[..|prefix|] == prefix
  }

  lemma ContainsChar(s: string, c: char)
    ensures Contains(s, [c]) <==> c in s
  {
    if c in s {
      var i :| 0 <= i < |s| && s[i] == c;
      assert s[i..i + 1] == [c];
      assert OccursAt(s, [c], i);
    }
    if Contains(s, [c]) {
      var i :| 0 <= i <= |s| && OccursAt(s, [c], i);
      assert s[i] == s[i..i + 1][0];
    }
  }

  lemma OccursChar(s: string, c: char, k: nat)
    requires k < |s|
    ensures OccursAt(s, [c], k) <==> s[k] == c
  {
    assert s[k..k + 1] == [s[k]];
  }

  /** The first index at or after `from` where `sep` occurs in `s`. */
  function FindFrom(s: string, sep: string, from: nat): (r: Option<nat>)
    ensures r.Some? ==> from <= r.value && OccursAt(s, sep, r.value)
    ensures r.Some? ==> forall k: nat :: from <= k < r.value ==> !OccursAt(s, sep, k)
    ensures r.None? ==> forall k: nat :: from <= k ==> !OccursAt(s, sep, k)
    decreases |s| - from
  {
    if from + |sep| > |s| then None
    else if OccursAt(s, sep, from) then Some(from)
    else FindFrom(s, sep, from + 1)
  }

  /** Python's `s.split(sep)` for a non-empty separator. */
  function Split(s: string, sep: string): (parts: seq<string>)
    requires |sep| > 0
    ensures |parts| >= 1
    decreases |s|
  {
    match FindFrom(s, sep, 0)
    case None => [s]
    case Some(j) => [s[..j]] + Split(s[j + |sep|..], sep)
  }

  /** Python's `sep.join(parts)`. */
  function Join(parts: seq<string>, sep: string): string {
    if |parts| == 0 then ""
    else if |parts| == 1 then parts[0]
    else parts[0] + sep + Join(parts[1..], sep)
  }

  /** The fields after the first separator are the split of the rest. */
  lemma SplitStep(s: string, sep: string, j: nat)
    requires |sep| > 0 && FindFrom(s, sep, 0) == Some(j)
    ensures j + |sep| <= |s|
    ensures Split(s, sep) == [s[..j]] + Split(s[j + |sep|..], sep)
  {
  }

  /** Splitting and joining with the same separator gives the string back. */
  lemma {:induction false} SplitJoin(s: string, sep: string)
    requires |sep| > 0
    ensures Join(Split(s, sep), sep) == s
    decreases |s|
  {
    match FindFrom(s, sep, 0)
    case None =>
    case Some(j) =>
      var rest := s[j + |sep|..];
      SplitJoin(rest, sep);
      var tail := Split(rest, sep);
      var parts := [s[..j]] + tail;
      SplitStep(s, sep, j);
      assert |parts| >= 2 && parts[0] == s[..j] && parts[1..] == tail;
      assert Join(parts, sep) == s[..j] + sep + rest;
      assert s == s[..j] + s[j..j + |sep|] + rest;
  }

  /** No field of a split contains the separator. */
  lemma {:induction false} SplitFieldsFree(s: string, sep: string)
    requires |sep| > 0
    ensures forall p :: p in Split(s, sep) ==> !Contains(p, sep)
    decreases |s|
  {
    match FindFrom(s, sep, 0)
    case None =>
    case Some(j) =>
      SplitFieldsFree(s[j + |sep|..], sep);
      var head := s[..j];
      forall k: nat | OccursAt(head, sep, k) ensures OccursAt(s, sep, k) {
        assert head[k..k + |sep|] == s[k..k + |sep|];
      }
  }

  /** The first field of `s.split(sep)` is the text before the first `sep`;
      when `sep` occurs, `s` is that field followed by `sep`. */
  lemma FirstField(s: string, sep: string)
    requires |sep| > 0
    ensures StartsWith(s, Split(s, sep)[0])
    ensures !Contains(Split(s, sep)[0], sep)
    ensures Contains(s, sep) ==> StartsWith(s, Split(s, sep)[0] + sep)
  {
    SplitFieldsFree(s, sep);
    match FindFrom(s, sep, 0)
    case None =>
    case Some(j) =>
      assert Split(s, sep)[0] == s[..j];
      assert s[..j + |sep|] == s[..j] + sep;
  }

  /** A string without `c` splits at `c` into itself. */
  lemma SplitAbsent(s: string, c: char)
    requires c !in s
    ensures Split(s, [c]) == [s]
  {
    match FindFrom(s, [c], 0)
    case None =>
    case Some(j) =>
      OccursChar(s, c, j);
  }

  /** The first `c` in `p + [c] + rest`, when `p` has none, ends `p`. */
  lemma FindAfterField(p: string, c: char, rest: string)
    requires c !in p
    ensures FindFrom(p + [c] + rest, [c], 0) == Some(|p|)
  {
    var s := p + [c] + rest;
    OccursChar(s, c, |p|);
    match FindFrom(s, [c], 0)
    case None =>
    case Some(j) =>
      if j < |p| {
        OccursChar(s, c, j);
      }
  }

  /** Joining fields free of a one-character separator and splitting again
      gives the fields back. */
  lemma {:induction false} JoinSplit(parts: seq<string>, c: char)
    requires |parts| >= 1 && forall i :: 0 <= i < |parts| ==> c !in parts[i]
    ensures Split(Join(parts, [c]), [c]) == parts
    decreases |parts|
  {
    if |parts| == 1 {
      SplitAbsent(parts[0], c);
    } else {
      var rest := Join(parts[1..], [c]);
      FindAfterField(parts[0], c, rest);
      var s := parts[0] + [c] + rest;
      SplitStep(s, [c], |parts[0]|);
      assert s[..|parts[0]|] == parts[0] && s[|parts[0]| + 1..] == rest;
      JoinSplit(parts[1..], c);
      assert parts == [parts[0]] + parts[1..];
    }
  }

  /** Python's `s.replace(c, '')` for one character `c`. */
  function DeleteChar(s: string, c: char): (r: string)
    ensures c !in r
    ensures |r| <= |s|
  {
    if s == [] then ""
    else (if s[0] == c then "" else [s[0]]) + DeleteChar(s[1..], c)
  }

  lemma DeleteCharAbsent(s: string, c: char)
    requires c !in s
    ensures DeleteChar(s, c) == s
  {
    if s != [] { DeleteCharAbsent(s[1..], c); }
  }

  /** Python's `s.replace(a, b)` for single characters `a` and `b`. */
  function ReplaceChar(s: string, a: char, b: char): (r: string)
    ensures |r| == |s|
    ensures forall i :: 0 <= i < |s| ==> r[i] == if s[i] == a then b else s[i]
  {
    seq(|s|, i requires 0 <= i < |s| => if s[i] == a then b else s[i])
  }

  function LowerChar(c: char): char {
    if 'A' <= c <= 'Z' then (c as int + 32) as char else c
  }

  /** Python's `s.lower()` on ASCII letters. */
  function Lower(s: string): (r: string)
    ensures |r| == |s|
    ensures forall i :: 0 <= i < |s| ==> r[i] == LowerChar(s[i])
  {
    seq(|s|, i requires 0 <= i < |s| => LowerChar(s[i]))
  }

  lemma LowerIdempotent(s: string)
    ensures Lower(Lower(s)) == Lower(s)
  {
  }

  function DigitChar(d: nat): char
    requires d < 10
  {
    "0123456789"[d]
  }

  predicate IsDecimalDigit(c: char) {
    '0' <= c <= '9'
  }

  /** The decimal digits of a natural number, as `str(n)` renders them. */
  function NatToStr(n: nat): (r: string)
    ensures |r| >= 1
    ensures forall i :: 0 <= i < |r| ==> IsDecimalDigit(r[i])
  {
    if n < 10 then [DigitChar(n)] else NatToStr(n / 10) + [DigitChar(n % 10)]
  }

  /** `str(i)` for a Python `int`. */
  function IntToStr(i: int): string {
    if i < 0 then "-" + NatToStr(-i) else NatToStr(i)
  }
}
