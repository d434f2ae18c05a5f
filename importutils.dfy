/** `modutils/importutils.py` (repeated in `modutils/__init__.py`):
    `globpath`, which turns a file path into a dotted module path. */
module ImportUtils {
  import opened Base
  import opened Text

  /** `filepath.replace('/', '.').replace('\\', '.')`. */
  function Mapped(filepath: string): (r: string)
    ensures |r| == |filepath|
    ensures forall i :: 0 <= i < |r| ==> r[i] == if filepath[i] == '/' || filepath[i] == '\\' then '.' else filepath[i]
  {
    ReplaceChar(ReplaceChar(filepath, '/', '.'), '\\', '.')
  }

  /** The length of the run of dots `s` starts with. */
  function LeadingDots(s: string): (n: nat)
    ensures n <= |s|
    ensures forall i :: 0 <= i < n ==> s[i] == '.'
    ensures n < |s| ==> s[n] != '.'
  {
    if s != [] && s[0] == '.' then 1 + LeadingDots(s[1..]) else 0
  }

  /** `globpath`: the mapped path without its leading dots; IndexError
      (`glob[0]` of an empty string) when nothing else is left. */
  function Glob(filepath: string): Result<string> {
    var g := Mapped(filepath);
    var n := LeadingDots(g);
    if n == |g| then Err(IndexError) else Ok(g[n..])
  }

  /** `globpath` as written: the `while` loop dropping one leading dot at a
      time. */
  method GlobPath(filepath: string) returns (r: Result<string>)
    ensures r == Glob(filepath)
  {
    var glob := ReplaceChar(ReplaceChar(filepath, '/', '.'), '\\', '.');
    ghost var dropped: nat := 0;
    while |glob| > 0 && glob[0] == '.'
      invariant dropped <= LeadingDots(Mapped(filepath))
      invariant glob == Mapped(filepath)[dropped..]
      decreases |glob|
    {
      assert glob[1..] == Mapped(filepath)[dropped + 1..];
      glob := glob[1..];
      dropped := dropped + 1;
    }
    if |glob| == 0 {
      return Err(IndexError);
    }
    return Ok(glob);
  }

  predicate SeparatorOrDot(c: char) {
    c == '/' || c == '\\' || c == '.'
  }

  /** `globpath` fails, with IndexError, exactly on paths made only of
      separators and dots, the empty one included. */
  lemma GlobFails(filepath: string)
    ensures Glob(filepath).Err? <==> forall i :: 0 <= i < |filepath| ==> SeparatorOrDot(filepath[i])
    ensures Glob(filepath).Err? ==> Glob(filepath).error == IndexError
  {
    var m := Mapped(filepath);
    var n := LeadingDots(m);
    if n == |m| {
      forall i | 0 <= i < |filepath|
        ensures SeparatorOrDot(filepath[i])
      {
        assert m[i] == '.';
      }
    } else {
      assert !SeparatorOrDot(filepath[n]);
    }
  }

  /** Every separator becomes a dot and every other character stays in
      place; the result is the mapped path with exactly its leading run of
      dots removed, so it is a non-empty suffix of it with no separator and
      no leading dot. */
  lemma GlobResult(filepath: string)
    requires Glob(filepath).Ok?
    ensures var g := Glob(filepath).value;
            var m := Mapped(filepath);
            g != "" && g[0] != '.' && '/' !in g && '\\' !in g &&
            |g| <= |m| && m == m[..|m| - |g|] + g &&
            forall i :: 0 <= i < |m| - |g| ==> m[i] == '.'
  {
    var m := Mapped(filepath);
    var n := LeadingDots(m);
    var g := m[n..];
    assert forall i :: 0 <= i < |m| ==> m[i] != '/' && m[i] != '\\';
    assert forall i :: 0 <= i < |g| ==> g[i] == m[n + i];
    assert g[0] == m[n];
    assert m == m[..n] + g;
  }

  /** A path with no separator maps to itself. */
  lemma MappedPlain(s: string)
    requires '/' !in s && '\\' !in s
    ensures Mapped(s) == s
  {
  }

  /** `globpath` is idempotent where it succeeds. */
  lemma GlobIdempotent(filepath: string)
    requires Glob(filepath).Ok?
    ensures Glob(Glob(filepath).value) == Glob(filepath)
  {
    GlobResult(filepath);
    var g := Glob(filepath).value;
    MappedPlain(g);
  }
}
