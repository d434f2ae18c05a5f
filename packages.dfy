/** `modutils/packageutils.py` (repeated in `modutils/__init__.py`): the
    `pip3` command `install_package` and `update_package` run, the parsing
    of `pip3 freeze` output in `list_packages`, and `has_package`. */
module PackageUtils {
  import opened Base
  import opened PyValues
  import opened Text

  /** A truthy optional string argument: given and not empty. */
  predicate Given(arg: Option<string>) {
    arg.Some? && arg.value != ""
  }

  /** The option pair an argument adds, when it is truthy. */
  function OptionPair(flag: string, arg: Option<string>): seq<string> {
    if Given(arg) then [flag, arg.value] else []
  }

  /** The command of `install_package`. */
  function InstallCmd(name: string, force: bool, extraIndex: Option<string>, trustedHost: Option<string>): seq<string> {
    ["pip3", "install", name] + OptionPair("--extra-index-url", extraIndex) +
    OptionPair("--trusted-host", trustedHost) + (if force then ["--upgrade"] else [])
  }

  /** `install_package` builds `cmd` with `extend` and `append`; running it
      is not modelled. */
  method InstallCommand(name: string, force: bool, extraIndex: Option<string>, trustedHost: Option<string>)
    returns (cmd: seq<string>)
    ensures cmd == InstallCmd(name, force, extraIndex, trustedHost)
  {
    cmd := ["pip3", "install", name];
    if extraIndex.Some? && extraIndex.value != "" {
      cmd := cmd + ["--extra-index-url", extraIndex.value];
    }
    if trustedHost.Some? && trustedHost.value != "" {
      cmd := cmd + ["--trusted-host", trustedHost.value];
    }
    if force {
      cmd := cmd + ["--upgrade"];
    }
  }

  /** `update_package` is `install_package` with `force=True`. */
  method UpdateCommand(name: string, extraIndex: Option<string>, trustedHost: Option<string>) returns (cmd: seq<string>)
    ensures cmd == InstallCmd(name, true, extraIndex, trustedHost)
  {
    cmd := InstallCommand(name, true, extraIndex, trustedHost);
  }

  /** The command starts `pip3 install name`; the index pair comes first
      and the host pair after it, each exactly when its argument is
      truthy; `--upgrade` is last exactly when forced, and nothing else is
      added. */
  lemma InstallCmdSpec(name: string, force: bool, extraIndex: Option<string>, trustedHost: Option<string>)
    ensures var cmd := InstallCmd(name, force, extraIndex, trustedHost);
            var e := if Given(extraIndex) then 2 else 0;
            var h := if Given(trustedHost) then 2 else 0;
            |cmd| == 3 + e + h + (if force then 1 else 0) &&
            cmd[..3] == ["pip3", "install", name] &&
            (Given(extraIndex) ==> cmd[3] == "--extra-index-url" && cmd[4] == extraIndex.value) &&
            (Given(trustedHost) ==> cmd[3 + e] == "--trusted-host" && cmd[4 + e] == trustedHost.value) &&
            (force ==> cmd[|cmd| - 1] == "--upgrade")
  {
  }

  /** `update_package(n, e, t)` is `install_package(n, True, e, t)`, which
      is the unforced command with `--upgrade` added. */
  lemma UpdateIsForcedInstall(name: string, extraIndex: Option<string>, trustedHost: Option<string>)
    ensures InstallCmd(name, true, extraIndex, trustedHost) == InstallCmd(name, false, extraIndex, trustedHost) + ["--upgrade"]
  {
  }

  /** The non-empty strings, in order. */
  function NonEmpty(parts: seq<string>): (r: seq<string>)
    ensures |r| <= |parts|
    ensures forall i :: 0 <= i < |r| ==> r[i] != "" && r[i] in parts
  {
    if parts == [] then []
    else (if parts[0] == "" then [] else [parts[0]]) + NonEmpty(parts[1..])
  }

  /** `list_packages`' parsing of the `pip3 freeze` output. */
  function ParsePackages(out: string): seq<string> {
    NonEmpty(Split(DeleteChar(out, '\r'), "\n"))
  }

  /** A character absent from `s` is absent from every field of its
      split. */
  lemma {:induction false} SplitFieldsKeep(s: string, sep: string, c: char)
    requires |sep| > 0 && c !in s
    ensures forall p :: p in Split(s, sep) ==> c !in p
    decreases |s|
  {
    match FindFrom(s, sep, 0)
    case None =>
    case Some(j) =>
      SplitStep(s, sep, j);
      SplitFieldsKeep(s[j + |sep|..], sep, c);
      assert forall k :: 0 <= k < j ==> s[..j][k] == s[k];
  }

  /** Every package line is non-empty and holds neither `\r` nor `\n`. */
  lemma ParsePackagesClean(out: string)
    ensures forall p :: p in ParsePackages(out) ==> p != "" && '\r' !in p && '\n' !in p
  {
    var s := DeleteChar(out, '\r');
    SplitFieldsFree(s, "\n");
    SplitFieldsKeep(s, "\n", '\r');
    forall p | p in Split(s, "\n")
      ensures '\n' !in p
    {
      ContainsChar(p, '\n');
    }
  }

  lemma {:induction false} NonEmptyKeeps(parts: seq<string>)
    requires forall i :: 0 <= i < |parts| ==> parts[i] != ""
    ensures NonEmpty(parts) == parts
    decreases |parts|
  {
    if parts != [] {
      NonEmptyKeeps(parts[1..]);
    }
  }

  lemma {:induction false} NonEmptyAppendEmpty(parts: seq<string>)
    ensures NonEmpty(parts + [""]) == NonEmpty(parts)
    decreases |parts|
  {
    if parts == [] {
      assert NonEmpty([""]) == [] + NonEmpty([]);
    } else {
      assert (parts + [""])[1..] == parts[1..] + [""];
      NonEmptyAppendEmpty(parts[1..]);
    }
  }

  /** Parsing inverts `pip3 freeze`'s format: lines without line breaks,
      each ended by a newline, parse back into those lines. */
  lemma ParseFreeze(lines: seq<string>)
    requires forall i :: 0 <= i < |lines| ==> lines[i] != "" && '\n' !in lines[i] && '\r' !in lines[i]
    ensures ParsePackages(Join(lines + [""], "\n")) == lines
  {
    var parts := lines + [""];
    forall i | 0 <= i < |parts|
      ensures '\r' !in parts[i] && '\n' !in parts[i]
    {
    }
    JoinNoChar(parts, "\n", '\r');
    DeleteCharAbsent(Join(parts, "\n"), '\r');
    JoinSplit(parts, '\n');
    NonEmptyAppendEmpty(lines);
    NonEmptyKeeps(lines);
  }

  /** Joining strings without `c` by a separator without `c` gives a
      string without `c`. */
  lemma {:induction false} JoinNoChar(parts: seq<string>, sep: string, c: char)
    requires c !in sep && forall i :: 0 <= i < |parts| ==> c !in parts[i]
    ensures c !in Join(parts, sep)
    decreases |parts|
  {
    if |parts| > 1 {
      JoinNoChar(parts[1..], sep, c);
    }
  }

  /** Text `has_package` searches for: `name==version` for a truthy
      version, else the name alone. */
  function Wanted(name: string, version: Value): string
    requires !HasDict(version)
  {
    if Truthy(version) then name + "==" + PyStr(version).value else name
  }

  /** `has_package`, over the `pip3 freeze` output `out`. */
  predicate HasPackage(name: string, version: Value, out: string)
    requires !HasDict(version)
  {
    AnyContains(ParsePackages(out), Wanted(name, version))
  }

  /** `any(pattern in line for line in lines)`. */
  predicate AnyContains(lines: seq<string>, pattern: string) {
    exists i :: 0 <= i < |lines| && Contains(lines[i], pattern)
  }

  lemma ContainsPrefix(s: string, a: string, b: string)
    requires Contains(s, a + b)
    ensures Contains(s, a)
  {
    var i :| 0 <= i <= |s| && OccursAt(s, a + b, i);
    assert s[i..i + |a|] == (a + b)[..|a|];
    assert OccursAt(s, a, i);
  }

  /** A falsy version (`None`, `0`, `''`, `False`) is ignored, and a
      specific version is found only where the package is. */
  lemma HasPackageVersion(name: string, version: Value, out: string)
    requires !HasDict(version)
    ensures !Truthy(version) ==> HasPackage(name, version, out) == HasPackage(name, PyNone, out)
    ensures HasPackage(name, version, out) ==> HasPackage(name, PyNone, out)
  {
    if Truthy(version) {
      var tail := "==" + PyStr(version).value;
      assert Wanted(name, version) == name + tail;
      var ps := ParsePackages(out);
      if AnyContains(ps, name + tail) {
        var i :| 0 <= i < |ps| && Contains(ps[i], name + tail);
        ContainsPrefix(ps[i], name, tail);
      }
    }
  }

  /** Over freeze output made of the given lines, `has_package` holds
      exactly when one of those lines contains the text searched for. */
  lemma HasPackageLines(name: string, version: Value, lines: seq<string>)
    requires !HasDict(version)
    requires forall i :: 0 <= i < |lines| ==> lines[i] != "" && '\n' !in lines[i] && '\r' !in lines[i]
    ensures HasPackage(name, version, Join(lines + [""], "\n")) <==> AnyContains(lines, Wanted(name, version))
  {
    ParseFreeze(lines);
  }
}
