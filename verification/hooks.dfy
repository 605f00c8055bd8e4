/**
 * `getHookForShell`: for the name of the shell that launched the program, the
 * profile file to patch and the snippet of shell code to put into it.
 */
module Hooks {
  import opened Wrappers
  import opened GoText
  import opened GoPath
  import opened BashDir
  import ProfileBlock

  /** The shell families with a hook: Git Bash on Windows, bash, zsh and Windows PowerShell. */
  datatype Shell = WindowsBash | Bash | Zsh | PowerShell

  /** Dispatch on the exact executable name; anything else is unsupported. */
  function ParseShell(name: string): (r: Option<Shell>)
    ensures r.Some? <==> name in {"bash", "bash.exe", "git-bash.exe", "zsh", "powershell.exe"}
  {
    if name == "bash.exe" || name == "git-bash.exe" then Some(WindowsBash)
    else if name == "bash" then Some(Bash)
    else if name == "zsh" then Some(Zsh)
    else if name == "powershell.exe" then Some(PowerShell)
    else None
  }

  const PsProfileName := "Microsoft.PowerShell_profile.ps1"

  /** Windows PowerShell's profile, whose directory decides the fallback. */
  function WindowsPsProfile(goos: string, home: string): string {
    JoinPath(goos, [home, "Documents", "WindowsPowerShell", PsProfileName])
  }

  /** The profile of PowerShell 6 and later, used when Windows PowerShell's directory is missing. */
  function CorePsProfile(goos: string, home: string): string {
    JoinPath(goos, [home, "Documents", "PowerShell", PsProfileName])
  }

  /**
   * The profile to patch: never empty; for bash and zsh a file directly in
   * the home directory.
   */
  function ProfilePath(shell: Shell, goos: string, home: string, psDirMissing: bool): (r: string)
    ensures r != ""
    ensures shell != PowerShell && home != "" ==> Dir(goos, r) == home
  {
    RcInHome(goos, home);
    match shell
    case WindowsBash => JoinPath(goos, [home, ".bashrc"])
    case Bash => JoinPath(goos, [home, ".bashrc"])
    case Zsh => JoinPath(goos, [home, ".zshrc"])
    case PowerShell => if psDirMissing then CorePsProfile(goos, home) else WindowsPsProfile(goos, home)
  }

  /** The bash and zsh profiles lie directly in a non-empty home directory. */
  lemma RcInHome(goos: string, home: string)
    ensures home != "" ==> Dir(goos, JoinPath(goos, [home, ".bashrc"])) == home
    ensures home != "" ==> Dir(goos, JoinPath(goos, [home, ".zshrc"])) == home
  {
    forall i | 0 <= i < |".bashrc"| ensures !IsSeparator(goos, ".bashrc"[i]) {
    }
    forall i | 0 <= i < |".zshrc"| ensures !IsSeparator(goos, ".zshrc"[i]) {
    }
    if home != "" {
      DirOfJoin(goos, home, ".bashrc");
      DirOfJoin(goos, home, ".zshrc");
    }
  }

  function ExportLine(dir: string): string {
    "export PATH=\"" + dir + ":$PATH\""
  }

  function PsPathLine(dir: string): string {
    "$env:PATH = \"" + dir + ";\" + $env:PATH"
  }

  const AliasLine := "alias fahhhh=fahhhh.exe"
  const PromptCommandLine := PromptCommandHead + PromptCommandTail
  const PromptCommandHead := "PROMPT_COMMAND=\"_err_sound_hook;"
  const PromptCommandTail := " $PROMPT_COMMAND\""
  const PrecmdLine := "precmd_functions+=(_err_sound_hook)"

  /** The word that makes the hook run the player: `fahhhh play`. */
  const PlayWord := "play"

  /** The bash function that plays the sound, detached, after a failing command. */
  const BashFunction := [
    "_err_sound_hook() {",
    "  local status=$?",
    "  if [ $status -ne 0 ]; then",
    BashPlayer,
    "  fi",
    "}"]
  const BashPlayer := "    ( fahhhh " + PlayWord + BashPlayerTail
  const BashPlayerTail := " > /dev/null 2>&1 & disown)"

  /** The zsh function: the same check, indented with tabs, without `disown`. */
  const ZshFunction := [
    "_err_sound_hook() {",
    "\tlocal code=$?",
    "\tif [ $code -ne 0 ]; then",
    ZshPlayer,
    "\tfi",
    "}"]
  const ZshPlayer := "\t\t(fahhhh " + PlayWord + ZshPlayerTail
  const ZshPlayerTail := " > /dev/null 2>&1 & )"

  /** The PowerShell prompt function: starts a hidden player when the last command failed. */
  const PsPrompt := [
    "function Prompt {",
    "\t$lastCommandSucceeded = $?",
    "    if (-not $lastCommandSucceeded) {",
    PsPlayer,
    "    }",
    PsReturn,
    "}"]
  const PsPlayer := PsStart + PsArgs + PlayWord + PsHidden
  const PsStart := "        Start-Process \"fahhhh\""
  const PsArgs := " -ArgumentList \""
  const PsHidden := "\" -WindowStyle Hidden"
  const PsReturn := PsReturnHead + PsReturnTail
  const PsReturnHead := "    return \"PS $($ExecutionContext."
  const PsReturnTail := "SessionState.Path.CurrentLocation)> \""

  /**
   * The lines of the snippet; `dir` is the binary's directory in the shell's
   * own syntax.  The first line puts `dir` in front of PATH; every other line
   * is fixed and holds neither a line break nor '#'; the bash and zsh
   * snippets end by registering the hook.
   */
  function HookLines(shell: Shell, dir: string): (r: seq<string>)
    ensures |r| >= 2
    ensures r[0] == if shell == PowerShell then PsPathLine(dir) else ExportLine(dir)
    ensures forall i | 1 <= i < |r| :: Plain(r[i])
    ensures shell != PowerShell ==> r[|r| - 1] == if shell == Zsh then PrecmdLine else PromptCommandLine
  {
    FixedLinesPlain();
    match shell
    case WindowsBash => [ExportLine(dir), AliasLine] + BashFunction + [PromptCommandLine]
    case Bash => [ExportLine(dir)] + BashFunction + [PromptCommandLine]
    case Zsh => [ExportLine(dir)] + ZshFunction + [PrecmdLine]
    case PowerShell => [PsPathLine(dir)] + PsPrompt
  }

  /**
   * The directory written into the snippet: native for PowerShell; for bash
   * and zsh the same length in POSIX form, with no backslash and no drive
   * prefix, which is the native directory itself when that already has
   * neither.
   */
  function SnippetDir(shell: Shell, goos: string, exec: string): (r: string)
    ensures shell == PowerShell ==> r == Dir(goos, exec)
    ensures shell != PowerShell ==> |r| == |Dir(goos, exec)| && '\\' !in r && !HasDrivePrefix(r)
    ensures shell != PowerShell && '\\' !in Dir(goos, exec) && !HasDrivePrefix(Dir(goos, exec)) ==> r == Dir(goos, exec)
  {
    var d := Dir(goos, exec);
    assert '\\' !in d ==> ToSlash(goos, d) == d && Slashed(d) == d;
    if shell == PowerShell then Dir(goos, exec) else ToBashDir(ToSlash(goos, Dir(goos, exec)))
  }

  /** The snippet text: its lines with a line break before, between and after them. */
  function HookText(shell: Shell, dir: string): (r: string)
    ensures r == "\n" + Join(HookLines(shell, dir)) + "\n"
    ensures forall l <- HookLines(shell, dir) :: Contains(r, l)
  {
    JoinFramed(HookLines(shell, dir));
    JoinContainsLines(HookLines(shell, dir), [""] + HookLines(shell, dir) + [""]);
    Join([""] + HookLines(shell, dir) + [""])
  }

  /**
   * (profile path, snippet) for the shell named `name`, the installed binary
   * `exec`, the home directory `home`, and whether the Windows PowerShell
   * profile directory is missing.  Both are empty exactly when the name is not
   * one of the supported executables; otherwise both are non-empty.
   */
  function GetHookForShell(goos: string, name: string, exec: string, home: string, psDirMissing: bool)
    : (r: (string, string))
    ensures (r.0 == "" && r.1 == "") <==> ParseShell(name).None?
    ensures ParseShell(name).Some? ==> r.0 != "" && r.1 != ""
    ensures name in {"bash", "bash.exe", "git-bash.exe"} ==> r.0 == JoinPath(goos, [home, ".bashrc"])
    ensures name == "zsh" ==> r.0 == JoinPath(goos, [home, ".zshrc"])
    ensures name == "powershell.exe" ==>
      r.0 == JoinPath(goos, [home, "Documents", if psDirMissing then "PowerShell" else "WindowsPowerShell", PsProfileName])
  {
    match ParseShell(name)
    case None => ("", "")
    case Some(shell) =>
      var hook := HookText(shell, SnippetDir(shell, goos, exec));
      assert hook == "" + "\n" + Join(HookLines(shell, SnippetDir(shell, goos, exec)) + [""]) by {
        assert ([""] + HookLines(shell, SnippetDir(shell, goos, exec)) + [""])[1..]
            == HookLines(shell, SnippetDir(shell, goos, exec)) + [""];
      }
      (ProfilePath(shell, goos, home, psDirMissing), hook)
  }

  /** A line of the snippet does not contain the character `x` unless the binary's path does. */
  lemma SnippetDirKeepsOut(shell: Shell, goos: string, exec: string, x: char)
    requires x !in exec && x != '.' && x != '/' && x != '\\' && !IsAsciiLetter(x)
    ensures x !in SnippetDir(shell, goos, exec)
  {
    var d := Dir(goos, exec);
    DirKeepsOut(goos, exec, x);
    var slashed := ToSlash(goos, d);
    assert x !in slashed by {
      if goos == "windows" {
        forall i | 0 <= i < |slashed| ensures slashed[i] != x {
          assert slashed[i] == '/' || slashed[i] == d[i];
        }
      }
    }
    ToBashDirKeepsOut(slashed, x);
  }

  /** Neither a line break nor '#': such a line cannot split or hold a profile marker. */
  predicate Plain(l: string) {
    '\n' !in l && '#' !in l
  }

  /** The fixed lines of every snippet are plain. */
  lemma FixedLinesPlain()
    ensures forall l <- BashFunction :: Plain(l)
    ensures forall l <- ZshFunction :: Plain(l)
    ensures forall l <- PsPrompt :: Plain(l)
    ensures Plain(AliasLine) && Plain(PromptCommandLine) && Plain(PrecmdLine)
  {
    PiecesPlain();
    PsPiecesPlain();
    BashFunctionPlain();
    ZshFunctionPlain();
    PsPromptPlain();
  }

  /** The literal pieces of the fixed lines are plain, one literal at a time. */
  lemma PiecesPlain()
    ensures Plain(PlayWord) && Plain(AliasLine) && Plain(PrecmdLine)
    ensures Plain(PromptCommandHead) && Plain(PromptCommandTail)
    ensures Plain(BashPlayerTail) && Plain(ZshPlayerTail)
  {
    PlayWordPlain();
    AliasLinePlain();
    PrecmdLinePlain();
    PromptCommandHeadPlain();
    PromptCommandTailPlain();
    BashPlayerTailPlain();
    ZshPlayerTailPlain();
  }

  lemma PsPiecesPlain()
    ensures Plain(PsStart) && Plain(PsArgs) && Plain(PsHidden)
    ensures Plain(PsReturnHead) && Plain(PsReturnTail)
  {
    PsStartPlain();
    PsArgsPlain();
    PsHiddenPlain();
    PsReturnHeadPlain();
    PsReturnTailPlain();
  }

  lemma PlayWordPlain() ensures Plain(PlayWord) { }
  lemma AliasLinePlain() ensures Plain(AliasLine) { }
  lemma PrecmdLinePlain() ensures Plain(PrecmdLine) { }
  lemma PromptCommandHeadPlain() ensures Plain(PromptCommandHead) { }
  lemma PromptCommandTailPlain() ensures Plain(PromptCommandTail) { }
  lemma BashPlayerTailPlain() ensures Plain(BashPlayerTail) { }
  lemma ZshPlayerTailPlain() ensures Plain(ZshPlayerTail) { }
  lemma PsStartPlain() ensures Plain(PsStart) { }
  lemma PsArgsPlain() ensures Plain(PsArgs) { }
  lemma PsHiddenPlain() ensures Plain(PsHidden) { }
  lemma PsReturnHeadPlain() ensures Plain(PsReturnHead) { }
  lemma PsReturnTailPlain() ensures Plain(PsReturnTail) { }

  lemma BashFunctionPlain()
    requires Plain(PlayWord) && Plain(BashPlayerTail)
    ensures forall l <- BashFunction :: Plain(l)
  {
  }

  lemma ZshFunctionPlain()
    requires Plain(PlayWord) && Plain(ZshPlayerTail)
    ensures forall l <- ZshFunction :: Plain(l)
  {
  }

  lemma PsPromptPlain()
    requires Plain(PsStart) && Plain(PsArgs) && Plain(PlayWord) && Plain(PsHidden)
    requires Plain(PsReturnHead) && Plain(PsReturnTail)
    ensures forall l <- PsPrompt :: Plain(l)
  {
  }

  /** A line break or '#' is in a snippet line only if it is in the directory written into it. */
  lemma HookLinesAvoid(shell: Shell, dir: string, x: char)
    requires (x == '\n' || x == '#') && x !in dir
    ensures forall l <- HookLines(shell, dir) :: x !in l
  {
    FixedLinesPlain();
    assert x !in ExportLine(dir) && x !in PsPathLine(dir);
    assert forall l <- BashFunction + ZshFunction + PsPrompt :: Plain(l);
  }

  /** For a newline-free binary path, splitting the snippet at line breaks gives its lines back. */
  lemma SnippetLines(shell: Shell, goos: string, exec: string)
    requires '\n' !in exec
    ensures Split(HookText(shell, SnippetDir(shell, goos, exec)))
         == [""] + HookLines(shell, SnippetDir(shell, goos, exec)) + [""]
  {
    var d := SnippetDir(shell, goos, exec);
    SnippetDirKeepsOut(shell, goos, exec, '\n');
    HookLinesAvoid(shell, d, '\n');
    var ls := [""] + HookLines(shell, d) + [""];
    assert forall l <- ls :: l == "" || l in HookLines(shell, d);
    SplitJoin(ls);
  }

  /** The snippet's lines for a supported shell, the empty line alone otherwise. */
  lemma HookSplit(goos: string, name: string, exec: string, home: string, psDirMissing: bool)
    requires '\n' !in exec
    ensures var hook := GetHookForShell(goos, name, exec, home, psDirMissing).1;
      Split(hook) == match ParseShell(name)
        case None => [""]
        case Some(shell) => [""] + HookLines(shell, SnippetDir(shell, goos, exec)) + [""]
  {
    match ParseShell(name)
    case None =>
    case Some(shell) => SnippetLines(shell, goos, exec);
  }

  /**
   * The bash and zsh snippets put the binary's directory, slash-normalised and
   * drive-rewritten, in front of PATH; the PowerShell snippet puts the native
   * directory followed by `;` in front of it.
   */
  lemma ExportsBinaryDir(goos: string, name: string, exec: string, home: string, psDirMissing: bool)
    requires '\n' !in exec
    ensures var lines := Split(GetHookForShell(goos, name, exec, home, psDirMissing).1);
      && (name in {"bash", "bash.exe", "git-bash.exe", "zsh"} ==>
            ExportLine(ToBashDir(ToSlash(goos, Dir(goos, exec)))) in lines)
      && (name == "powershell.exe" ==> PsPathLine(Dir(goos, exec)) in lines)
  {
    HookSplit(goos, name, exec, home, psDirMissing);
  }

  /**
   * zsh on Linux with the binary installed under `/home/u/.local/share`: the
   * profile is `/home/u/.zshrc`, and the snippet registers the hook in
   * precmd_functions and puts the binary's directory in front of PATH.
   */
  lemma ZshExample(psDirMissing: bool)
    ensures var (config, hook) := GetHookForShell("linux", "zsh", "/home/u/.local/share/fahhhh/fahhhh", "/home/u", psDirMissing);
      && config == "/home/u/.zshrc"
      && PrecmdLine in Split(hook)
      && ExportLine("/home/u/.local/share/fahhhh") in Split(hook)
  {
    var exec := "/home/u/.local/share/fahhhh/fahhhh";
    var dir := "/home/u/.local/share/fahhhh";
    assert JoinPath("linux", ["/home/u", ".zshrc"]) == "/home/u/.zshrc" by {
      DirOfJoin("linux", "/home/u", ".zshrc");
    }
    assert Dir("linux", exec) == dir by {
      assert NoSeparator("linux", "fahhhh");
      DirOfJoin("linux", dir, "fahhhh");
      assert JoinPath("linux", [dir, "fahhhh"]) == exec;
    }
    assert ToBashDir(dir) == dir by {
      assert !HasDrivePrefix(Slashed(dir));
      assert Slashed(dir) == dir;
    }
    PrecmdOnlyForZsh("linux", "zsh", exec, "/home/u", psDirMissing);
    ExportsBinaryDir("linux", "zsh", exec, "/home/u", psDirMissing);
  }

  /** No line of `ls` starts with `ch`. */
  predicate NoLineStartsWith(ls: seq<string>, ch: char) {
    forall i | 0 <= i < |ls| :: ls[i] == "" || ls[i][0] != ch
  }

  lemma ConcatNoLineStartsWith(a: seq<string>, b: seq<string>, ch: char)
    requires NoLineStartsWith(a, ch) && NoLineStartsWith(b, ch)
    ensures NoLineStartsWith(a + b, ch)
  {
    forall i | 0 <= i < |a + b| ensures (a + b)[i] == "" || (a + b)[i][0] != ch {
      if i >= |a| {
        assert (a + b)[i] == b[i - |a|];
      }
    }
  }

  /** The fixed function lines start with none of 'a', 'P' and 'p'. */
  lemma FunctionLineStarts(ch: char)
    requires ch == 'a' || ch == 'P' || ch == 'p'
    ensures NoLineStartsWith(BashFunction, ch)
    ensures NoLineStartsWith(ZshFunction, ch)
    ensures NoLineStartsWith(PsPrompt, ch)
  {
    assert BashPlayer[0] == ' ';
    assert ZshPlayer[0] == '\t';
    assert PsPlayer[0] == ' ' && PsReturn[0] == ' ';
  }

  lemma SpecialLineStarts()
    ensures AliasLine[0] == 'a' && PromptCommandLine[0] == 'P' && PrecmdLine[0] == 'p'
  {
    assert PromptCommandLine[0] == PromptCommandHead[0];
  }

  /**
   * In a snippet, no line starts with 'a' except the Git Bash alias, none
   * with 'P' except the bash PROMPT_COMMAND line, and none with 'p' except
   * the zsh precmd line.
   */
  lemma LineStarts(shell: Shell, d: string, ch: char)
    requires ch == 'a' || ch == 'P' || ch == 'p'
    requires ch == 'a' ==> shell != WindowsBash
    requires ch == 'P' ==> shell != WindowsBash && shell != Bash
    requires ch == 'p' ==> shell != Zsh
    ensures NoLineStartsWith([""] + HookLines(shell, d) + [""], ch)
  {
    FunctionLineStarts(ch);
    SpecialLineStarts();
    assert ExportLine(d)[0] == 'e' && PsPathLine(d)[0] == '$';
    var lines := HookLines(shell, d);
    match shell {
      case WindowsBash =>
        ConcatNoLineStartsWith([ExportLine(d), AliasLine], BashFunction, ch);
        ConcatNoLineStartsWith([ExportLine(d), AliasLine] + BashFunction, [PromptCommandLine], ch);
      case Bash =>
        ConcatNoLineStartsWith([ExportLine(d)], BashFunction, ch);
        ConcatNoLineStartsWith([ExportLine(d)] + BashFunction, [PromptCommandLine], ch);
      case Zsh =>
        ConcatNoLineStartsWith([ExportLine(d)], ZshFunction, ch);
        ConcatNoLineStartsWith([ExportLine(d)] + ZshFunction, [PrecmdLine], ch);
      case PowerShell =>
        ConcatNoLineStartsWith([PsPathLine(d)], PsPrompt, ch);
    }
    ConcatNoLineStartsWith([""], lines, ch);
    ConcatNoLineStartsWith([""] + lines, [""], ch);
  }

  /** A non-empty line whose first character starts no line of `ls` is not among them. */
  lemma FirstCharNotIn(x: string, ls: seq<string>)
    requires x != "" && NoLineStartsWith(ls, x[0])
    ensures x !in ls
  {
  }

  /** Only the Git Bash snippet defines the `fahhhh.exe` alias. */
  lemma AliasOnlyForWindowsBash(goos: string, name: string, exec: string, home: string, psDirMissing: bool)
    requires '\n' !in exec
    ensures AliasLine in Split(GetHookForShell(goos, name, exec, home, psDirMissing).1)
        <==> name == "bash.exe" || name == "git-bash.exe"
  {
    HookSplit(goos, name, exec, home, psDirMissing);
    match ParseShell(name)
    case None =>
    case Some(shell) =>
      var d := SnippetDir(shell, goos, exec);
      var ls := [""] + HookLines(shell, d) + [""];
      if shell == WindowsBash {
        assert AliasLine in ls;
      } else {
        SpecialLineStarts();
        LineStarts(shell, d, 'a');
        FirstCharNotIn(AliasLine, ls);
      }
  }

  /** Only the bash snippets chain the hook into PROMPT_COMMAND. */
  lemma PromptCommandOnlyForBash(goos: string, name: string, exec: string, home: string, psDirMissing: bool)
    requires '\n' !in exec
    ensures PromptCommandLine in Split(GetHookForShell(goos, name, exec, home, psDirMissing).1)
        <==> name in {"bash", "bash.exe", "git-bash.exe"}
  {
    HookSplit(goos, name, exec, home, psDirMissing);
    match ParseShell(name)
    case None =>
    case Some(shell) =>
      var d := SnippetDir(shell, goos, exec);
      var ls := [""] + HookLines(shell, d) + [""];
      if shell == WindowsBash || shell == Bash {
        assert PromptCommandLine in ls;
      } else {
        SpecialLineStarts();
        LineStarts(shell, d, 'P');
        FirstCharNotIn(PromptCommandLine, ls);
      }
  }

  /** Only the zsh snippet registers the hook in precmd_functions. */
  lemma PrecmdOnlyForZsh(goos: string, name: string, exec: string, home: string, psDirMissing: bool)
    requires '\n' !in exec
    ensures PrecmdLine in Split(GetHookForShell(goos, name, exec, home, psDirMissing).1) <==> name == "zsh"
  {
    HookSplit(goos, name, exec, home, psDirMissing);
    match ParseShell(name)
    case None =>
    case Some(shell) =>
      var d := SnippetDir(shell, goos, exec);
      var ls := [""] + HookLines(shell, d) + [""];
      if shell == Zsh {
        assert PrecmdLine in ls;
      } else {
        SpecialLineStarts();
        LineStarts(shell, d, 'p');
        FirstCharNotIn(PrecmdLine, ls);
      }
  }

  /** A snippet starts the player (`fahhhh play`) exactly when the shell is supported. */
  lemma HookPlaysSound(goos: string, name: string, exec: string, home: string, psDirMissing: bool)
    ensures Contains(GetHookForShell(goos, name, exec, home, psDirMissing).1, PlayWord) <==> ParseShell(name).Some?
    ensures '\n' !in exec && ParseShell(name).Some? ==>
      PlayerLine(ParseShell(name).value) in Split(GetHookForShell(goos, name, exec, home, psDirMissing).1)
  {
    match ParseShell(name)
    case None =>
    case Some(shell) =>
      var d := SnippetDir(shell, goos, exec);
      var ls := [""] + HookLines(shell, d) + [""];
      var player := PlayerLine(shell);
      assert player in ls;
      if '\n' !in exec {
        SnippetLines(shell, goos, exec);
      }
      JoinContainsLine(ls, player);
      ContainsTransitive(Join(ls), player, PlayWord);
  }

  /** The snippet line that launches the player. */
  function PlayerLine(shell: Shell): (line: string)
    ensures forall d :: line in HookLines(shell, d)
    ensures Contains(line, PlayWord)
  {
    match shell
    case WindowsBash | Bash =>
      ContainsInfix("    ( fahhhh ", PlayWord, BashPlayerTail);
      BashPlayer
    case Zsh =>
      ContainsInfix("\t\t(fahhhh ", PlayWord, ZshPlayerTail);
      ZshPlayer
    case PowerShell =>
      ContainsInfix(PsStart + PsArgs, PlayWord, PsHidden);
      PsPlayer
  }

  /**
   * For a binary path without '#' or line breaks, no snippet line holds either
   * profile marker, so the snippet cannot end the installed block early.
   */
  lemma HookLinesUnmarked(goos: string, name: string, exec: string, home: string, psDirMissing: bool)
    requires '\n' !in exec && '#' !in exec
    ensures forall l <- Split(GetHookForShell(goos, name, exec, home, psDirMissing).1) :: ProfileBlock.Unmarked(l)
  {
    HookSplit(goos, name, exec, home, psDirMissing);
    var lines := Split(GetHookForShell(goos, name, exec, home, psDirMissing).1);
    match ParseShell(name)
    case None =>
      NoHashUnmarked("");
    case Some(shell) =>
      var d := SnippetDir(shell, goos, exec);
      SnippetDirKeepsOut(shell, goos, exec, '#');
      HookLinesAvoid(shell, d, '#');
      forall l <- lines ensures ProfileBlock.Unmarked(l) {
        assert l == "" || l in HookLines(shell, d);
        NoHashUnmarked(l);
      }
  }

  lemma NoHashUnmarked(l: string)
    requires '#' !in l
    ensures ProfileBlock.Unmarked(l)
  {
    ContainsFirstChar(l, ProfileBlock.StartMarker);
    ContainsFirstChar(l, ProfileBlock.EndMarker);
  }
}
