/**
 * The marker-delimited block that `install` appends to a shell profile and
 * `uninstall` removes again, as transformations of the profile's text.
 */
module ProfileBlock {
  import opened GoText

  const StartMarker := "### ERR-SOUND-START ###"
  const EndMarker := "### ERR-SOUND-END ###"

  /** Neither marker occurs in the line. */
  predicate Unmarked(line: string) {
    !Contains(line, StartMarker) && !Contains(line, EndMarker)
  }

  /**
   * What `install` appends: a line break, the start marker, the hook, the end
   * marker and a final line break.  Its lines are an empty one (ending the
   * profile's last line), the start marker, the hook's lines, the end marker
   * and an empty one.
   */
  function Payload(hook: string): (r: string)
    ensures Split(r) == ["", StartMarker] + Split(hook) + [EndMarker, ""]
  {
    MarkersAreLines();
    SplitAroundLines("", StartMarker, hook, EndMarker);
    assert "" + Block(StartMarker, hook, EndMarker) == Block(StartMarker, hook, EndMarker);
    Block(StartMarker, hook, EndMarker)
  }

  /** `body` framed by the lines `start` and `end`, each preceded by a line break, plus a final line break. */
  function Block(start: string, body: string, end: string): string {
    "\n" + start + "\n" + body + "\n" + end + "\n"
  }

  /**
   * The profile text after `install`: unchanged when the start marker already
   * occurs anywhere in it, otherwise the payload appended.  Either way the old
   * text is kept as a prefix and the result holds the start marker.
   */
  function InstallText(content: string, hook: string): (r: string)
    ensures content <= r
    ensures Contains(r, StartMarker)
    ensures r == content <==> Contains(content, StartMarker)
    ensures !Contains(content, StartMarker) ==> r[|content|..] == Payload(hook)
  {
    if Contains(content, StartMarker) then content
    else
      var r := content + Payload(hook);
      assert r == (content + "\n") + StartMarker + ("\n" + hook + "\n" + EndMarker + "\n") by {
        assert Payload(hook) == "\n" + StartMarker + "\n" + hook + "\n" + EndMarker + "\n";
      }
      ContainsInfix(content + "\n", StartMarker, "\n" + hook + "\n" + EndMarker + "\n");
      r
  }

  /** Installing a second time changes nothing. */
  lemma InstallIdempotent(content: string, hook: string)
    ensures InstallText(InstallText(content, hook), hook) == InstallText(content, hook)
  {
  }

  /**
   * The lines the uninstall loop keeps, starting in state `skipping`: a line
   * holding the start marker switches skipping on, a line holding the end
   * marker switches it off, both are dropped, and any other line is kept
   * exactly when not skipping.  No kept line holds a marker.
   */
  function KeptLines(lines: seq<string>, skipping: bool): (r: seq<string>)
    ensures |r| <= |lines|
    ensures forall l <- r :: Unmarked(l)
  {
    if lines == [] then []
    else if Contains(lines[0], StartMarker) then KeptLines(lines[1..], true)
    else if Contains(lines[0], EndMarker) then KeptLines(lines[1..], false)
    else if skipping then KeptLines(lines[1..], true)
    else [lines[0]] + KeptLines(lines[1..], false)
  }

  /** `a` is `b` with some elements left out, order kept. */
  predicate IsSubsequence(a: seq<string>, b: seq<string>)
    decreases |b|
  {
    if a == [] then true
    else if b == [] then false
    else (a[0] == b[0] && IsSubsequence(a[1..], b[1..])) || IsSubsequence(a, b[1..])
  }

  /** The kept lines are an order-preserving selection of the input lines. */
  lemma {:induction false} KeptIsSubsequence(lines: seq<string>, skipping: bool)
    ensures IsSubsequence(KeptLines(lines, skipping), lines)
    decreases |lines|
  {
    if lines != [] {
      var l := lines[0];
      var kept := KeptLines(lines, skipping);
      if Contains(l, StartMarker) {
        KeptIsSubsequence(lines[1..], true);
      } else if Contains(l, EndMarker) {
        KeptIsSubsequence(lines[1..], false);
      } else if skipping {
        KeptIsSubsequence(lines[1..], true);
      } else {
        KeptIsSubsequence(lines[1..], false);
        assert kept[0] == l && kept[1..] == KeptLines(lines[1..], false);
      }
    }
  }

  /** Unmarked lines outside a block are all kept, in order. */
  lemma {:induction false} KeptUnmarkedPrefix(pre: seq<string>, rest: seq<string>)
    requires forall l <- pre :: Unmarked(l)
    ensures KeptLines(pre + rest, false) == pre + KeptLines(rest, false)
    decreases |pre|
  {
    if pre != [] {
      assert pre[0] in pre;
      assert forall l <- pre[1..] :: l in pre;
      assert (pre + rest)[0] == pre[0];
      assert (pre + rest)[1..] == pre[1..] + rest;
      KeptUnmarkedPrefix(pre[1..], rest);
      assert pre + KeptLines(rest, false) == [pre[0]] + (pre[1..] + KeptLines(rest, false));
      assert Unmarked(pre[0]);
    } else {
      assert pre + rest == rest && pre + KeptLines(rest, false) == KeptLines(rest, false);
    }
  }

  /** While skipping, lines without the end marker are dropped. */
  lemma {:induction false} SkipUntilEnd(mid: seq<string>, rest: seq<string>)
    requires forall l <- mid :: !Contains(l, EndMarker)
    ensures KeptLines(mid + rest, true) == KeptLines(rest, true)
    decreases |mid|
  {
    if mid != [] {
      assert mid[0] in mid;
      assert forall l <- mid[1..] :: l in mid;
      assert (mid + rest)[0] == mid[0];
      assert (mid + rest)[1..] == mid[1..] + rest;
      SkipUntilEnd(mid[1..], rest);
    } else {
      assert mid + rest == rest;
    }
  }

  /**
   * A block (a start-marker line, lines without the end marker, an end-marker
   * line) is dropped entirely, and the lines after it are filtered as if the
   * block had not been there.
   */
  lemma DropsMarkedBlock(start: string, mid: seq<string>, end: string, rest: seq<string>, skipping: bool)
    requires Contains(start, StartMarker)
    requires forall l <- mid :: !Contains(l, EndMarker)
    requires Contains(end, EndMarker) && !Contains(end, StartMarker)
    ensures KeptLines([start] + mid + [end] + rest, skipping) == KeptLines(rest, false)
  {
    var lines := [start] + mid + [end] + rest;
    assert lines[1..] == mid + ([end] + rest);
    SkipUntilEnd(mid, [end] + rest);
    assert ([end] + rest)[1..] == rest;
  }

  /** A start marker with no end marker after it drops everything to the end. */
  lemma DropsUnterminatedBlock(start: string, mid: seq<string>, skipping: bool)
    requires Contains(start, StartMarker)
    requires forall l <- mid :: !Contains(l, EndMarker)
    ensures KeptLines([start] + mid, skipping) == []
  {
    assert ([start] + mid)[1..] == mid + [];
    SkipUntilEnd(mid, []);
  }

  /**
   * The line filter of `uninstall`: walks the lines once, keeping those outside
   * marker-bounded blocks; the result is an order-preserving selection of the
   * input with no marker line in it.
   */
  method RemoveMarkedBlocks(lines: seq<string>) returns (newLines: seq<string>)
    ensures newLines == KeptLines(lines, false)
    ensures IsSubsequence(newLines, lines)
    ensures forall l <- newLines :: Unmarked(l)
  {
    newLines := [];
    var skipping := false;
    for i := 0 to |lines|
      invariant newLines + KeptLines(lines[i..], skipping) == KeptLines(lines, false)
    {
      var line := lines[i];
      assert lines[i..][0] == line && lines[i..][1..] == lines[i + 1..];
      if Contains(line, StartMarker) {
        skipping := true;
        continue;
      }
      if Contains(line, EndMarker) {
        skipping := false;
        continue;
      }
      if !skipping {
        newLines := newLines + [line];
      }
    }
    assert lines[|lines|..] == [];
    KeptIsSubsequence(lines, false);
  }

  /**
   * The profile text after `uninstall`: blocks removed, then trimmed.  No
   * marker is left anywhere in it, and it neither starts nor ends with white
   * space.
   */
  function UninstallText(content: string): (r: string)
    ensures !Contains(r, StartMarker) && !Contains(r, EndMarker)
    ensures r == [] || (!IsSpace(r[0]) && !IsSpace(r[|r| - 1]))
  {
    var joined := Join(KeptLines(Split(content), false));
    UnmarkedLines(KeptLines(Split(content), false));
    TrimSpaceInfix(joined);
    UnmarkedInfix(joined, TrimSpace(joined));
    TrimSpace(joined)
  }

  /** A piece of a marker-free text is marker-free. */
  lemma UnmarkedInfix(s: string, sub: string)
    requires !Contains(s, StartMarker) && !Contains(s, EndMarker)
    requires Contains(s, sub)
    ensures !Contains(sub, StartMarker) && !Contains(sub, EndMarker)
  {
    if Contains(sub, StartMarker) {
      ContainsTransitive(s, sub, StartMarker);
    }
    if Contains(sub, EndMarker) {
      ContainsTransitive(s, sub, EndMarker);
    }
  }

  /** Lines without markers, joined by line breaks, hold no marker. */
  lemma UnmarkedLines(ls: seq<string>)
    requires forall l <- ls :: Unmarked(l)
    ensures !Contains(Join(ls), StartMarker) && !Contains(Join(ls), EndMarker)
  {
    MarkersAreLines();
    if ls == [] {
      ContainsFirstChar("", StartMarker);
      ContainsFirstChar("", EndMarker);
    } else {
      NoLineContains(ls, StartMarker);
      NoLineContains(ls, EndMarker);
    }
  }

  /** Uninstalling a second time changes nothing. */
  lemma UninstallIdempotent(content: string)
    ensures UninstallText(UninstallText(content)) == UninstallText(content)
  {
    var r := UninstallText(content);
    JoinSplit(r);
    forall l <- Split(r) ensures Unmarked(l) {
      JoinContainsLine(Split(r), l);
      UnmarkedInfix(r, l);
    }
    UninstallUnmarked(r);
    TrimSpaceOfTrimmed(r);
  }

  /** A profile without marker lines only loses its surrounding white space. */
  lemma UninstallUnmarked(content: string)
    requires forall l <- Split(content) :: Unmarked(l)
    ensures UninstallText(content) == TrimSpace(content)
  {
    KeptUnmarkedPrefix(Split(content), []);
    assert Split(content) + [] == Split(content);
    JoinSplit(content);
  }

  /**
   * Uninstalling after installing gives back the original profile, trimmed,
   * provided no original line holds a marker and no hook line holds the end
   * marker.
   */
  lemma InstallUninstallRoundTrip(content: string, hook: string)
    requires forall l <- Split(content) :: Unmarked(l)
    requires forall l <- Split(hook) :: !Contains(l, EndMarker)
    ensures UninstallText(InstallText(content, hook)) == TrimSpace(content)
  {
    var lines := Split(content);
    KeptAfterInstall(content, hook);
    assert Join(lines + [""]) == content + "\n" by {
      JoinSplit(content);
      JoinAppendEmpty(lines);
    }
    TrimSpaceDropsTrailingSpace(content, '\n');
  }

  /** After installing, the uninstall filter keeps exactly the original lines and the empty last line. */
  lemma KeptAfterInstall(content: string, hook: string)
    requires forall l <- Split(content) :: Unmarked(l)
    requires forall l <- Split(hook) :: !Contains(l, EndMarker)
    ensures KeptLines(Split(InstallText(content, hook)), false) == Split(content) + [""]
  {
    var lines := Split(content);
    UnmarkedText(content);
    MarkersAreLines();
    SplitAroundLines(content, StartMarker, hook, EndMarker);
    KeptAroundBlock(lines, StartMarker, Split(hook), EndMarker);
  }

  /** A text none of whose lines holds a marker holds no marker at all. */
  lemma UnmarkedText(content: string)
    requires forall l <- Split(content) :: Unmarked(l)
    ensures !Contains(content, StartMarker) && !Contains(content, EndMarker)
  {
    JoinSplit(content);
    UnmarkedLines(Split(content));
  }

  /** Facts about the two marker literals the round trip relies on. */
  lemma MarkersAreLines()
    ensures '\n' !in StartMarker && '\n' !in EndMarker
    ensures Contains(StartMarker, StartMarker) && Contains(EndMarker, EndMarker)
    ensures !Contains(EndMarker, StartMarker)
  {
    ContainsSelf(StartMarker);
    ContainsSelf(EndMarker);
  }

  lemma SplitAroundLines(c: string, s: string, h: string, e: string)
    requires '\n' !in s && '\n' !in e
    ensures Split(c + Block(s, h, e)) == Split(c) + ([s] + Split(h) + [e, ""])
  {
    assert c + Block(s, h, e) == c + "\n" + (s + "\n" + (h + "\n" + (e + "\n" + "")));
    SplitConcat(c, s + "\n" + (h + "\n" + (e + "\n" + "")));
    SplitConcat(s, h + "\n" + (e + "\n" + ""));
    SplitConcat(h, e + "\n" + "");
    SplitConcat(e, "");
    SplitLine(s);
    SplitLine(e);
  }

  lemma KeptAroundBlock(lines: seq<string>, s: string, hl: seq<string>, e: string)
    requires forall l <- lines :: Unmarked(l)
    requires Contains(s, StartMarker)
    requires forall l <- hl :: !Contains(l, EndMarker)
    requires Contains(e, EndMarker) && !Contains(e, StartMarker)
    ensures KeptLines(lines + ([s] + hl + [e, ""]), false) == lines + [""]
  {
    KeptUnmarkedPrefix(lines, [s] + hl + [e, ""]);
    assert [s] + hl + [e, ""] == [s] + hl + [e] + [""];
    DropsMarkedBlock(s, hl, e, [""], false);
    assert !Contains("", StartMarker) && !Contains("", EndMarker);
    assert KeptLines([""], false) == [""];
  }
}
