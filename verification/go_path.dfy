/**
 * The parts of Go's `path/filepath` package the installer relies on, as they
 * behave for a target operating system (`runtime.GOOS`).  Lexical cleaning
 * (`filepath.Clean`) and Windows volume names are not modelled.
 */
module GoPath {
  import opened GoText

  /** `filepath.Separator`. */
  function Separator(goos: string): char {
    if goos == "windows" then '\\' else '/'
  }

  /** `os.IsPathSeparator`: Windows accepts both slashes. */
  predicate IsSeparator(goos: string, c: char) {
    c == '/' || (goos == "windows" && c == '\\')
  }

  predicate NoSeparator(goos: string, p: string) {
    forall i | 0 <= i < |p| :: !IsSeparator(goos, p[i])
  }

  /**
   * `filepath.Join`: the non-empty elements joined by the separator; empty
   * only when every element is.
   */
  function JoinPath(goos: string, parts: seq<string>): (r: string)
    ensures r == "" <==> forall i | 0 <= i < |parts| :: parts[i] == ""
    ensures |parts| > 0 && parts[|parts| - 1] != "" ==> r != ""
  {
    if parts == [] then ""
    else if parts[0] == "" then JoinPath(goos, parts[1..])
    else
      var rest := JoinPath(goos, parts[1..]);
      if rest == "" then parts[0] else parts[0] + [Separator(goos)] + rest
  }

  /** Index of the last separator of `p`, or -1 when there is none. */
  function LastSeparator(goos: string, p: string): (i: int)
    ensures -1 <= i < |p|
    ensures i >= 0 ==> IsSeparator(goos, p[i])
    ensures forall j | i < j < |p| :: !IsSeparator(goos, p[j])
  {
    if p == [] then -1
    else if IsSeparator(goos, p[|p| - 1]) then |p| - 1
    else LastSeparator(goos, p[..|p| - 1])
  }

  /**
   * `filepath.Dir`: everything before the last separator; "." when there is no
   * separator, the root when the only separator is the first character.
   */
  function Dir(goos: string, p: string): (r: string)
    ensures r == "." || r == [Separator(goos)] || (|r| < |p| && r == p[..|r|])
  {
    var i := LastSeparator(goos, p);
    if i < 0 then "." else if i == 0 then [Separator(goos)] else p[..i]
  }

  /** `filepath.ToSlash`: only Windows has a separator other than '/'. */
  function ToSlash(goos: string, p: string): (r: string)
    ensures |r| == |p|
    ensures goos == "windows" ==> '\\' !in r && forall i | 0 <= i < |p| && p[i] != '\\' :: r[i] == p[i]
    ensures goos != "windows" ==> r == p
  {
    if goos == "windows" then ReplaceChar(p, '\\', '/') else p
  }

  lemma {:induction false} LastSeparatorAfter(goos: string, a: string, b: string)
    requires NoSeparator(goos, b)
    requires IsSeparator(goos, Separator(goos))
    ensures LastSeparator(goos, a + [Separator(goos)] + b) == |a|
    decreases |b|
  {
    var p := a + [Separator(goos)] + b;
    if b != [] {
      assert p[..|p| - 1] == a + [Separator(goos)] + b[..|b| - 1];
      assert p[|p| - 1] == b[|b| - 1];
      LastSeparatorAfter(goos, a, b[..|b| - 1]);
    }
  }

  /** The directory of `a` joined with a plain file name is `a` itself. */
  lemma DirOfJoin(goos: string, a: string, b: string)
    requires a != "" && b != "" && NoSeparator(goos, b)
    ensures JoinPath(goos, [a, b]) == a + [Separator(goos)] + b
    ensures Dir(goos, JoinPath(goos, [a, b])) == a
  {
    assert [a, b][1..] == [b];
    assert JoinPath(goos, [b]) == b by { assert [b][1..] == []; }
    LastSeparatorAfter(goos, a, b);
    assert (a + [Separator(goos)] + b)[..|a|] == a;
  }

  /** A character that is neither '.' nor a separator only appears in `Dir(p)` if it is in `p`. */
  lemma DirKeepsOut(goos: string, p: string, x: char)
    requires x !in p && x != '.' && x != '/' && x != '\\'
    ensures x !in Dir(goos, p)
  {
    var r := Dir(goos, p);
    if r != "." && r != [Separator(goos)] {
      assert forall k | 0 <= k < |r| :: r[k] == p[k];
    }
  }
}
