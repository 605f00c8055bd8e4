/**
 * The parts of Go's `strings` package the installer relies on, over Dafny
 * strings (sequences of Unicode scalar values, i.e. valid UTF-8 text).
 */
module GoText {

  /** `unicode.IsSpace`: the characters with the Unicode White_Space property. */
  predicate IsSpace(c: char) {
    ('\t' <= c <= '\r') || c == ' ' || c == '\U{0085}' || c == '\U{00A0}' ||
    c == '\U{1680}' || ('\U{2000}' <= c <= '\U{200A}') ||
    c == '\U{2028}' || c == '\U{2029}' || c == '\U{202F}' || c == '\U{205F}' || c == '\U{3000}'
  }

  /** The first index at or after `k` that does not hold white space, or |s|. */
  function SkipSpace(s: string, k: nat): (n: nat)
    requires k <= |s|
    ensures k <= n <= |s|
    ensures forall i | k <= i < n :: IsSpace(s[i])
    ensures n < |s| ==> !IsSpace(s[n])
    decreases |s| - k
  {
    if k == |s| || !IsSpace(s[k]) then k else SkipSpace(s, k + 1)
  }

  /** Going back from `k` but not below `lo`: the index just after the last character that is not white space, or `lo`. */
  function SkipSpaceBack(s: string, lo: nat, k: nat): (n: nat)
    requires lo <= k <= |s|
    ensures lo <= n <= k
    ensures forall i | n <= i < k :: IsSpace(s[i])
    ensures n > lo ==> !IsSpace(s[n - 1])
    decreases k
  {
    if k == lo || !IsSpace(s[k - 1]) then k else SkipSpaceBack(s, lo, k - 1)
  }

  /** `s[lo..hi]` is what is left of `s` once its leading and trailing white space is gone. */
  predicate Trimmed(s: string, lo: nat, hi: nat) {
    && lo <= hi <= |s|
    && (forall i | 0 <= i < lo :: IsSpace(s[i]))
    && (forall i | hi <= i < |s| :: IsSpace(s[i]))
    && (lo < hi ==> !IsSpace(s[lo]) && !IsSpace(s[hi - 1]))
  }

  /**
   * `strings.TrimSpace`: the infix of `s` left after removing all leading and
   * trailing white space; it neither starts nor ends with white space.
   */
  function TrimSpace(s: string): (r: string)
    ensures r == [] || (!IsSpace(r[0]) && !IsSpace(r[|r| - 1]))
    ensures var lo := SkipSpace(s, 0); lo + |r| <= |s| && Trimmed(s, lo, lo + |r|) && r == s[lo..lo + |r|]
  {
    var lo := SkipSpace(s, 0);
    var hi := SkipSpaceBack(s, lo, |s|);
    s[lo..hi]
  }

  /** The trimmed text is unique: any two ways of cutting off white space leave the same text. */
  lemma TrimmedUnique(s: string, lo1: nat, hi1: nat, lo2: nat, hi2: nat)
    requires Trimmed(s, lo1, hi1) && Trimmed(s, lo2, hi2)
    ensures s[lo1..hi1] == s[lo2..hi2]
  {
    if lo1 < hi1 && lo2 < hi2 {
      assert lo1 == lo2 && hi1 == hi2;
    }
  }

  /** The trimmed text occurs in the text it was trimmed from. */
  lemma TrimSpaceInfix(s: string)
    ensures Contains(s, TrimSpace(s))
  {
    assert OccursAt(s, TrimSpace(s), SkipSpace(s, 0));
  }

  /** A text with no white space at either end is its own trimmed text. */
  lemma TrimSpaceOfTrimmed(s: string)
    requires s == [] || (!IsSpace(s[0]) && !IsSpace(s[|s| - 1]))
    ensures TrimSpace(s) == s
  {
    assert s[0..|s|] == s;
    TrimmedUnique(s, 0, |s|, SkipSpace(s, 0), SkipSpace(s, 0) + |TrimSpace(s)|);
  }

  /** Trimming ignores one more white-space character at the end. */
  lemma TrimSpaceDropsTrailingSpace(s: string, c: char)
    requires IsSpace(c)
    ensures TrimSpace(s + [c]) == TrimSpace(s)
  {
    var lo := SkipSpace(s, 0);
    var hi := lo + |TrimSpace(s)|;
    TrimmedExtend(s, c, lo, hi);
    var lo' := SkipSpace(s + [c], 0);
    TrimmedUnique(s + [c], lo, hi, lo', lo' + |TrimSpace(s + [c])|);
  }

  lemma TrimmedExtend(s: string, c: char, lo: nat, hi: nat)
    requires IsSpace(c) && Trimmed(s, lo, hi)
    ensures Trimmed(s + [c], lo, hi) && (s + [c])[lo..hi] == s[lo..hi]
  {
    var t := s + [c];
    forall i | 0 <= i < |t| ensures t[i] == if i < |s| then s[i] else c {
    }
  }

  /** `sub` occurs in `s` starting at index `i`. */
  predicate OccursAt(s: string, sub: string, i: int) {
    0 <= i && i + |sub| <= |s| && s[i..i + |sub|] == sub
  }

  /** `strings.Contains`. */
  predicate Contains(s: string, sub: string) {
    exists i :: 0 <= i <= |s| - |sub| && OccursAt(s, sub, i)
  }

  lemma ContainsInfix(a: string, x: string, b: string)
    ensures Contains(a + x + b, x)
  {
    assert (a + x + b)[|a|..|a| + |x|] == x;
    assert OccursAt(a + x + b, x, |a|);
  }

  lemma ContainsSelf(s: string)
    ensures Contains(s, s)
  {
    assert s[0..|s|] == s;
    assert OccursAt(s, s, 0);
  }

  /** Containment is transitive. */
  lemma ContainsTransitive(s: string, mid: string, sub: string)
    requires Contains(s, mid) && Contains(mid, sub)
    ensures Contains(s, sub)
  {
    var i :| 0 <= i <= |s| - |mid| && OccursAt(s, mid, i);
    var j :| 0 <= j <= |mid| - |sub| && OccursAt(mid, sub, j);
    forall k | 0 <= k < |sub| ensures s[i + j..i + j + |sub|][k] == sub[k] {
      CharOfOccurrence(mid, sub, j, k);
      CharOfOccurrence(s, mid, i, j + k);
    }
    assert OccursAt(s, sub, i + j);
  }

  /** A text holds `sub` only if it holds the first character of `sub`. */
  lemma ContainsFirstChar(s: string, sub: string)
    requires |sub| > 0 && sub[0] !in s
    ensures !Contains(s, sub)
  {
    forall i | 0 <= i <= |s| - |sub| ensures !OccursAt(s, sub, i) {
      assert s[i..i + |sub|][0] == s[i];
    }
  }

  /** An occurrence of a newline-free `sub` does not straddle a line break. */
  lemma ContainsAcrossNewline(a: string, b: string, sub: string)
    requires '\n' !in sub
    requires Contains(a + "\n" + b, sub)
    ensures Contains(a, sub) || Contains(b, sub)
  {
    var s := a + "\n" + b;
    var i :| 0 <= i <= |s| - |sub| && OccursAt(s, sub, i);
    if i + |sub| <= |a| {
      assert s[i..i + |sub|] == a[i..i + |sub|];
      assert OccursAt(a, sub, i);
    } else if i > |a| {
      var j := i - |a| - 1;
      assert s[i..i + |sub|] == b[j..j + |sub|];
      assert OccursAt(b, sub, j);
    } else {
      CharOfOccurrence(s, sub, i, |a| - i);
      assert false;
    }
  }

  lemma CharOfOccurrence(s: string, sub: string, i: int, k: int)
    requires OccursAt(s, sub, i) && 0 <= k < |sub|
    ensures sub[k] == s[i + k]
  {
    assert s[i..i + |sub|][k] == s[i + k];
  }

  /** `strings.Split(s, "\n")`: the pieces between line breaks (at least one). */
  function Split(s: string): (r: seq<string>)
    ensures |r| >= 1
    ensures forall l <- r :: '\n' !in l
    decreases |s|
  {
    if s == [] then [""]
    else
      var rest := Split(s[1..]);
      if s[0] == '\n' then [""] + rest
      else [[s[0]] + rest[0]] + rest[1..]
  }

  /** `strings.Join(ls, "\n")`. */
  function Join(ls: seq<string>): string {
    if |ls| == 0 then ""
    else if |ls| == 1 then ls[0]
    else ls[0] + "\n" + Join(ls[1..])
  }

  lemma {:induction false} JoinPrepend(x: string, y: string, rest: seq<string>)
    ensures Join([x + y] + rest) == x + Join([y] + rest)
  {
    if |rest| > 0 {
      assert ([x + y] + rest)[1..] == rest;
      assert ([y] + rest)[1..] == rest;
    }
  }

  /** Joining the pieces of a split gives the text back. */
  lemma {:induction false} JoinSplit(s: string)
    ensures Join(Split(s)) == s
    decreases |s|
  {
    if s != [] {
      var rest := Split(s[1..]);
      JoinSplit(s[1..]);
      if s[0] == '\n' {
        assert ([""] + rest)[1..] == rest;
      } else {
        JoinPrepend([s[0]], rest[0], rest[1..]);
        assert [rest[0]] + rest[1..] == rest;
      }
    }
  }

  /** Splitting at a line break splits both sides independently. */
  lemma {:induction false} SplitConcat(a: string, b: string)
    ensures Split(a + "\n" + b) == Split(a) + Split(b)
    decreases |a|
  {
    var s := a + "\n" + b;
    if a == [] {
      assert s[1..] == b;
    } else {
      assert s[1..] == a[1..] + "\n" + b;
      SplitConcat(a[1..], b);
    }
  }

  lemma {:induction false} SplitLine(x: string)
    requires '\n' !in x
    ensures Split(x) == [x]
    decreases |x|
  {
    if x != [] {
      SplitLine(x[1..]);
      assert [x[0]] + x[1..] == x;
    }
  }

  /** Splitting newline-free lines joined by line breaks gives the lines back. */
  lemma {:induction false} SplitJoin(ls: seq<string>)
    requires |ls| >= 1
    requires forall l <- ls :: '\n' !in l
    ensures Split(Join(ls)) == ls
  {
    if |ls| == 1 {
      SplitLine(ls[0]);
    } else {
      SplitConcat(ls[0], Join(ls[1..]));
      SplitLine(ls[0]);
      SplitJoin(ls[1..]);
    }
  }

  /** Every joined line is contained in the joined text. */
  lemma {:induction false} JoinContainsLine(ls: seq<string>, x: string)
    requires x in ls
    ensures Contains(Join(ls), x)
  {
    if |ls| == 1 {
      assert Join(ls) == "" + x + "";
      ContainsInfix("", x, "");
    } else if ls[0] == x {
      assert Join(ls) == "" + x + ("\n" + Join(ls[1..]));
      ContainsInfix("", x, "\n" + Join(ls[1..]));
    } else {
      JoinContainsLine(ls[1..], x);
      var i :| 0 <= i <= |Join(ls[1..])| - |x| && OccursAt(Join(ls[1..]), x, i);
      var j := |ls[0]| + 1 + i;
      assert Join(ls)[j..j + |x|] == Join(ls[1..])[i..i + |x|];
      assert OccursAt(Join(ls), x, j);
    }
  }

  lemma {:induction false} JoinAppendEmpty(ls: seq<string>)
    requires |ls| >= 1
    ensures Join(ls + [""]) == Join(ls) + "\n"
  {
    if |ls| == 1 {
      assert (ls + [""])[1..] == [""];
    } else {
      assert (ls + [""])[1..] == ls[1..] + [""];
      JoinAppendEmpty(ls[1..]);
    }
  }

  /** Lines framed by an empty line on each side: a line break before and after them. */
  lemma {:induction false} JoinFramed(ls: seq<string>)
    requires |ls| >= 1
    ensures Join([""] + ls + [""]) == "\n" + Join(ls) + "\n"
  {
    var framed := [""] + ls + [""];
    assert framed[1..] == ls + [""];
    var tail := Join(ls + [""]);
    assert Join(framed) == "" + "\n" + tail;
    JoinAppendEmpty(ls);
    assert "" + "\n" + (Join(ls) + "\n") == "\n" + Join(ls) + "\n";
  }

  /** Every joined line is in the text, whatever lines surround it. */
  lemma {:induction false} JoinContainsLines(ls: seq<string>, outer: seq<string>)
    requires forall l <- ls :: l in outer
    ensures forall l <- ls :: Contains(Join(outer), l)
  {
    forall l | l in ls ensures Contains(Join(outer), l) {
      JoinContainsLine(outer, l);
    }
  }

  /** A newline-free `sub` that no line contains is not in the text at all. */
  lemma {:induction false} NoLineContains(ls: seq<string>, sub: string)
    requires |ls| >= 1 && '\n' !in sub
    requires forall l <- ls :: !Contains(l, sub)
    ensures !Contains(Join(ls), sub)
  {
    if |ls| > 1 {
      NoLineContains(ls[1..], sub);
      if Contains(Join(ls), sub) {
        ContainsAcrossNewline(ls[0], Join(ls[1..]), sub);
      }
    }
  }

  /** `strings.ReplaceAll(s, [from], [to])` for one-character patterns. */
  function ReplaceChar(s: string, from: char, to: char): (r: string)
    ensures |r| == |s|
    ensures forall i | 0 <= i < |s| :: r[i] == (if s[i] == from then to else s[i])
  {
    seq(|s|, i requires 0 <= i < |s| => if s[i] == from then to else s[i])
  }

  /** `strings.ToLower` on one ASCII character. */
  function ToLowerAscii(c: char): char {
    if 'A' <= c <= 'Z' then (c as int - 'A' as int + 'a' as int) as char else c
  }
}
