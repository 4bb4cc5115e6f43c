/**
 * The parts of Rust's `std::path` the modelled code uses: `Path::join`,
 * `Path::file_name`, `Path::extension`. A flag says whether the paths are
 * Windows paths, where '\\' separates components as well as '/'.
 */
module Paths {
  import opened Wrappers
  import opened Strings

  /** `Path::join`: an absolute component replaces the base; otherwise one '/' separates them. */
  function JoinPath(base: string, component: string): (r: string)
    ensures StartsWith(component, "/") ==> r == component
    ensures !StartsWith(component, "/") ==> EndsWith(r, component)
  {
    if StartsWith(component, "/") then component
    else if base == [] then component
    else if EndsWith(base, "/") then base + component
    else base + "/" + component
  }

  /** Joining a relative component to a base gives a path under that base. */
  lemma {:induction false} JoinPathUnder(base: string, component: string)
    requires !StartsWith(component, "/") && base != []
    ensures StartsWith(JoinPath(base, component), base)
  {
  }

  /** Whether `c` separates path components: '/' everywhere, and '\\' as well on Windows. */
  predicate IsPathSeparator(c: char, windows: bool)
  {
    c == '/' || (windows && c == '\\')
  }

  /** `s` holds no separator of the platform. */
  predicate NoPathSeparator(s: string, windows: bool)
  {
    '/' !in s && (windows ==> '\\' !in s)
  }

  /** The last separator in `s`, if any. */
  function LastSeparator(s: string, windows: bool): (r: Option<nat>)
    ensures r.Some? ==> r.value < |s| && IsPathSeparator(s[r.value], windows) && NoPathSeparator(s[r.value + 1..], windows)
    ensures r.None? ==> NoPathSeparator(s, windows)
    decreases |s|
  {
    if s == [] then None
    else if IsPathSeparator(s[|s| - 1], windows) then Some(|s| - 1)
    else
      var r := LastSeparator(s[..|s| - 1], windows);
      assert r.Some? ==> s[r.value + 1..] == s[..|s| - 1][r.value + 1..] + [s[|s| - 1]];
      assert s == s[..|s| - 1] + [s[|s| - 1]];
      r
  }

  /**
   * `Path::file_name`: the last component, ignoring trailing separators and
   * "." components; none for an empty path, a root, or a path ending in "..".
   * On Windows a '\\' separates components as a '/' does.
   */
  function FileName(path: string, windows: bool): (r: Option<string>)
    ensures r.Some? ==> r.value != [] && NoPathSeparator(r.value, windows)
    decreases |path|
  {
    if path == [] then None
    else if IsPathSeparator(path[|path| - 1], windows) then FileName(path[..|path| - 1], windows)
    else
      var last := match LastSeparator(path, windows) case Some(i) => path[i + 1..] case None => path;
      if last == "." then
        (match LastSeparator(path, windows) case Some(i) => FileName(path[..i], windows) case None => None)
      else if last == ".." then None
      else Some(last)
  }

  /** A path with no '\\' has the same file name on every platform. */
  lemma {:induction false} FileNameWithoutBackslash(path: string)
    requires '\\' !in path
    ensures FileName(path, true) == FileName(path, false)
    decreases |path|
  {
    if path != [] {
      LastSeparatorWithoutBackslash(path);
      if path[|path| - 1] == '/' {
        FileNameWithoutBackslash(path[..|path| - 1]);
      } else if LastSeparator(path, false).Some? {
        var i := LastSeparator(path, false).value;
        FileNameWithoutBackslash(path[..i]);
      }
    }
  }

  /** With no '\\' in `s` its last separator does not depend on the platform. */
  lemma {:induction false} LastSeparatorWithoutBackslash(s: string)
    requires '\\' !in s
    ensures LastSeparator(s, true) == LastSeparator(s, false)
    decreases |s|
  {
    if s != [] && s[|s| - 1] != '/' {
      LastSeparatorWithoutBackslash(s[..|s| - 1]);
    }
  }

  /** The last '.' in `s`, if any. */
  function LastDot(s: string): (r: Option<nat>)
    ensures r.Some? ==> r.value < |s| && s[r.value] == '.' && '.' !in s[r.value + 1..]
    ensures r.None? ==> '.' !in s
    decreases |s|
  {
    if s == [] then None
    else if s[|s| - 1] == '.' then Some(|s| - 1)
    else LastDot(s[..|s| - 1])
  }

  /**
   * `Path::extension` of a file name: the text after the last '.', unless
   * there is no '.' or the only one leads the name (".json" has none).
   */
  function Extension(fileName: string): (r: Option<string>)
    ensures r.Some? ==> '.' !in r.value && EndsWith(fileName, "." + r.value)
    ensures r.Some? ==> |r.value| + 1 < |fileName|
  {
    if fileName == ".." then None
    else match LastDot(fileName)
      case None => None
      case Some(i) =>
        if i == 0 then None
        else
          assert fileName[|fileName| - |"." + fileName[i + 1..]|..] == "." + fileName[i + 1..];
          Some(fileName[i + 1..])
  }

  lemma {:induction false} ExtensionExamples()
    ensures Extension("token.json") == Some("json")
    ensures Extension(".json") == None
    ensures Extension("json") == None
    ensures Extension("a.b.json") == Some("json")
  {
    assert LastDot("token.json") == Some(5);
    assert LastDot(".json") == Some(0);
    assert LastDot("a.b.json") == Some(3);
  }
}
