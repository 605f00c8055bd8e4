/**
 * `install` and `uninstall` as transformations of the part of the file system
 * they touch: the binary copied into the install directory and the shell
 * profile patched with the marker-delimited hook.  Errors the program ignores
 * (`_ =`, `_ :=`) leave the state as it was; errors it checks end the run.
 */
module Installer {
  import opened Wrappers
  import opened GoText
  import opened GoPath
  import opened DataDir
  import opened Hooks
  import opened ProfileBlock

  /** Regular files with their contents, and directories, by path. */
  datatype Host = Host(files: map<string, string>, dirs: set<string>)

  /** Why a run ended; the program prints a message for most of these. */
  datatype Outcome =
    | NoAppData         // "Cannot retrieve appdata directory."
    | NoExecutable      // `os.Executable` failed: silent return
    | Unsupported       // the shell has no hook
    | AlreadyInstalled  // the profile already holds the start marker
    | Installed
    | NoProfile         // the profile cannot be read: silent return
    | Uninstalled

  datatype Run = Run(host: Host, outcome: Outcome)

  predicate Exists(h: Host, p: string) {
    p in h.files || p in h.dirs
  }

  /** `os.ReadFile`: fails for the empty path and where no regular file is; otherwise the file's contents. */
  function ReadFile(h: Host, p: string): (r: Option<string>)
    ensures r.Some? <==> p != "" && p in h.files
    ensures r.Some? ==> r.value == h.files[p]
  {
    if p != "" && p in h.files then Some(h.files[p]) else None
  }

  /**
   * `os.Mkdir`: creates `p` when nothing is there yet and its parent is a
   * directory; files and every other directory stay as they were.
   */
  function Mkdir(h: Host, goos: string, p: string): (r: Host)
    ensures r.files == h.files
    ensures p in r.dirs <==> p in h.dirs || (!Exists(h, p) && Dir(goos, p) in h.dirs)
    ensures forall q | q != p :: q in r.dirs <==> q in h.dirs
  {
    if !Exists(h, p) && Dir(goos, p) in h.dirs then h.(dirs := h.dirs + {p}) else h
  }

  /** Opening `p` for writing with `O_CREATE` succeeds on an existing file or in an existing directory. */
  predicate CanWrite(h: Host, goos: string, p: string) {
    p != "" && p !in h.dirs && (p in h.files || Dir(goos, p) in h.dirs)
  }

  /**
   * `os.WriteFile`: where `p` can be written, reading it back gives `data`;
   * otherwise nothing changes.  No other file or directory is touched.
   */
  function WriteFile(h: Host, goos: string, p: string, data: string): (r: Host)
    ensures ReadFile(r, p) == if CanWrite(h, goos, p) then Some(data) else ReadFile(h, p)
    ensures !CanWrite(h, goos, p) ==> r == h
    ensures r.dirs == h.dirs
    ensures forall q | q != p :: (q in r.files <==> q in h.files) && (q in r.files ==> r.files[q] == h.files[q])
  {
    if CanWrite(h, goos, p) then h.(files := h.files[p := data]) else h
  }

  /**
   * `os.OpenFile` with `O_APPEND|O_WRONLY|O_CREATE`, then one write: where
   * `p` can be written, reading it back gives its old contents (empty for a
   * new file) followed by `data`; otherwise nothing changes.  No other file or
   * directory is touched.
   */
  function AppendFile(h: Host, goos: string, p: string, data: string): (r: Host)
    ensures ReadFile(r, p) == if CanWrite(h, goos, p) then Some(ReadFile(h, p).GetOr("") + data) else ReadFile(h, p)
    ensures !CanWrite(h, goos, p) ==> r == h
    ensures r.dirs == h.dirs
    ensures forall q | q != p :: (q in r.files <==> q in h.files) && (q in r.files ==> r.files[q] == h.files[q])
  {
    if CanWrite(h, goos, p) then h.(files := h.files[p := ReadFile(h, p).GetOr("") + data]) else h
  }

  /** `q` is `p` or lies below it. */
  predicate Removed(goos: string, q: string, p: string) {
    q == p || (|p| < |q| && q[..|p|] == p && IsSeparator(goos, q[|p|]))
  }

  /** `os.RemoveAll`: `p` and everything below it disappear; an empty path removes nothing. */
  function RemoveAll(h: Host, goos: string, p: string): (r: Host)
    ensures p != "" ==> forall q :: Removed(goos, q, p) ==> !Exists(r, q)
    ensures forall q | !Removed(goos, q, p) :: (q in r.files <==> q in h.files) && (q in r.dirs <==> q in h.dirs)
    ensures forall q | q in r.files :: q in h.files && r.files[q] == h.files[q]
  {
    if p == "" then h
    else Host(map q | q in h.files && !Removed(goos, q, p) :: h.files[q],
              set q | q in h.dirs && !Removed(goos, q, p))
  }

  /** Windows PowerShell's profile directory, whose absence selects the other profile. */
  function PsDir(env: Env): string {
    Dir(env.goos, WindowsPsProfile(env.goos, env.home))
  }

  /** `os.Stat` reports that Windows PowerShell's profile directory does not exist. */
  predicate PsDirMissing(h: Host, env: Env) {
    !Exists(h, PsDir(env))
  }

  /**
   * PowerShell's profile as `getHookForShell` picks it on a host: Windows
   * PowerShell's profile while its directory exists, the other one otherwise.
   */
  lemma PowerShellProfileOn(h: Host, env: Env, exec: string)
    ensures HookOn(h, env, "powershell.exe", exec).0 ==
      if Exists(h, PsDir(env)) then WindowsPsProfile(env.goos, env.home) else CorePsProfile(env.goos, env.home)
  {
  }

  /** `getHookForShell` run against the host's current state. */
  function HookOn(h: Host, env: Env, name: string, exec: string): (string, string) {
    GetHookForShell(env.goos, name, exec, env.home, PsDirMissing(h, env))
  }

  /**
   * The host after making the install directory and copying the running
   * binary (`self`) to the target: the directory is made as `os.Mkdir` makes
   * it, the target then holds what `self` held (empty when it could not be
   * read) if it can be written, and no other file changes.
   */
  function Copied(h: Host, env: Env, t: Target, self: string): (r: Host)
    ensures r.dirs == Mkdir(h, env.goos, t.dir).dirs
    ensures CanWrite(Mkdir(h, env.goos, t.dir), env.goos, t.path) ==>
      t.path in r.files && r.files[t.path] == ReadFile(h, self).GetOr("")
    ensures !CanWrite(Mkdir(h, env.goos, t.dir), env.goos, t.path) ==> r.files == h.files
    ensures forall q | q != t.path :: (q in r.files <==> q in h.files) && (q in r.files ==> r.files[q] == h.files[q])
  {
    var h1 := Mkdir(h, env.goos, t.dir);
    WriteFile(h1, env.goos, t.path, ReadFile(h1, self).GetOr(""))
  }

  /**
   * `install` for the shell named `name`; `self` is what `os.Executable`
   * returned.  It stops without a data directory, stops after making the
   * directory when the executable is unknown, copies the binary before it
   * looks at the shell, and appends the payload to the profile only when the
   * start marker is not already in it.
   */
  function Install(h: Host, env: Env, name: string, self: Option<string>): (r: Run)
    ensures r.outcome == NoAppData <==> InstallTarget(env).None?
    ensures r.outcome == NoAppData ==> r.host == h
    ensures r.outcome == NoExecutable <==> InstallTarget(env).Some? && self.None?
    ensures r.outcome == Unsupported <==> InstallTarget(env).Some? && self.Some? && ParseShell(name).None?
    ensures InstallTarget(env).Some? && self.Some? && ParseShell(name).Some? ==>
      r.outcome == AlreadyInstalled || r.outcome == Installed
    ensures r.outcome == NoExecutable ==> r.host == Mkdir(h, env.goos, InstallTarget(env).value.dir)
    ensures r.outcome == Unsupported ==> r.host == Copied(h, env, InstallTarget(env).value, self.value)
    ensures r.outcome == AlreadyInstalled || r.outcome == Installed ==>
      var h2 := Copied(h, env, InstallTarget(env).value, self.value);
      var (config, hook) := HookOn(h2, env, name, InstallTarget(env).value.path);
      var content := ReadFile(h2, config).GetOr("");
      && ParseShell(name).Some?
      && (r.outcome == AlreadyInstalled <==> Contains(content, StartMarker))
      && (r.outcome == AlreadyInstalled || !CanWrite(h2, env.goos, config) ==> r.host == h2)
      && (r.outcome == Installed && CanWrite(h2, env.goos, config) ==>
            r.host == h2.(files := h2.files[config := content + Payload(hook)]))
  {
    match InstallTarget(env)
    case None => Run(h, NoAppData)
    case Some(t) =>
      if self.None? then Run(Mkdir(h, env.goos, t.dir), NoExecutable)
      else
        var h2 := Copied(h, env, t, self.value);
        var (config, hook) := HookOn(h2, env, name, t.path);
        if config == "" && hook == "" then Run(h2, Unsupported)
        else
          var content := ReadFile(h2, config).GetOr("");
          if Contains(content, StartMarker) then Run(h2, AlreadyInstalled)
          else Run(AppendFile(h2, env.goos, config, Payload(hook)), Installed)
  }

  /**
   * `uninstall` with its `target` already resolved: stops without one
   * (no data directory), and when the profile cannot be read; otherwise rewrites the
   * profile without its marked blocks and removes the install directory
   * `appData/fahhhh`, leaving every other file and directory as it was.
   */
  function UninstallFrom(h: Host, env: Env, name: string, target: Option<Target>): (r: Run)
    ensures r.outcome == NoAppData <==> target.None?
    ensures r.outcome == NoProfile <==> target.Some? && ReadFile(h, HookOn(h, env, name, target.value.path).0).None?
    ensures r.outcome == NoAppData || r.outcome == NoProfile ==> r.host == h
    ensures r.outcome == Uninstalled || r.outcome == NoAppData || r.outcome == NoProfile
    ensures r.outcome == Uninstalled && target.value.dir != "" ==>
      forall q :: Removed(env.goos, q, target.value.dir) ==> !Exists(r.host, q)
    ensures r.outcome == Uninstalled ==>
      var config := HookOn(h, env, name, target.value.path).0;
      !Removed(env.goos, config, target.value.dir) ==>
        && config in r.host.files
        && r.host.files[config] == if CanWrite(h, env.goos, config) then UninstallText(h.files[config]) else h.files[config]
    ensures r.outcome == Uninstalled ==>
      var config := HookOn(h, env, name, target.value.path).0;
      forall q | q != config && !Removed(env.goos, q, target.value.dir) ::
        && (q in r.host.files <==> q in h.files)
        && (q in r.host.files ==> r.host.files[q] == h.files[q])
        && (q in r.host.dirs <==> q in h.dirs)
  {
    match target
    case None => Run(h, NoAppData)
    case Some(t) =>
      var config := HookOn(h, env, name, t.path).0;
      match ReadFile(h, config)
      case None => Run(h, NoProfile)
      case Some(content) =>
        var h1 := WriteFile(h, env.goos, config, UninstallText(content));
        Run(RemoveAll(h1, env.goos, t.dir), Uninstalled)
  }

  /** `uninstall` as the program runs it, with the data directory resolved as it is written. */
  function UninstallAsWritten(h: Host, env: Env, name: string): (r: Run)
    ensures env.goos == "linux" ==> r == Run(h, NoAppData)
    ensures env.goos != "linux" ==> r == Uninstall(h, env, name)
  {
    UninstallLinuxShadowed(env);
    UninstallFrom(h, env, name, UninstallTarget(env))
  }

  /** `uninstall` with the data directory resolved as `install` resolves it. */
  function Uninstall(h: Host, env: Env, name: string): (r: Run)
    ensures env.goos == "linux" ==> r.outcome != NoAppData
  {
    UninstallFrom(h, env, name, InstallTarget(env))
  }

  /**
   * The profile lies outside the install directory (so it is neither the
   * directory nor the copied binary), is not the running binary, and is not
   * Windows PowerShell's profile directory.
   */
  predicate ProfileApart(env: Env, t: Target, self: string, config: string) {
    !Removed(env.goos, config, t.dir) && config != self && config != PsDir(env)
  }

  /** Making the directory and copying the binary a second time changes nothing. */
  lemma CopiedStable(h: Host, env: Env, t: Target, self: string)
    ensures Copied(Copied(h, env, t, self), env, t, self) == Copied(h, env, t, self)
  {
    var h1 := Mkdir(h, env.goos, t.dir);
    var h2 := Copied(h, env, t, self);
    assert Mkdir(h2, env.goos, t.dir) == h2;
    var x := ReadFile(h1, self).GetOr("");
    if CanWrite(h1, env.goos, t.path) {
      assert h2.files[t.path] == x;
      assert ReadFile(h2, self).GetOr("") == x;
      assert h2.files[t.path := x] == h2.files;
    }
  }

  /** Changing only the profile's contents keeps a copied host copied. */
  lemma CopiedStableAfterProfile(h2: Host, env: Env, t: Target, self: string, config: string, c: string)
    requires Copied(h2, env, t, self) == h2
    requires config != t.dir && config != t.path && config != self
    ensures var h3 := h2.(files := h2.files[config := c]);
      Copied(h3, env, t, self) == h3
  {
    var h3 := h2.(files := h2.files[config := c]);
    assert Mkdir(h2, env.goos, t.dir) == h2;
    assert Mkdir(h3, env.goos, t.dir) == h3;
    assert ReadFile(h3, self) == ReadFile(h2, self);
    var x := ReadFile(h2, self).GetOr("");
    if CanWrite(h2, env.goos, t.path) {
      assert h2.files[t.path] == x;
      assert h3.files[t.path := x] == h3.files;
    }
  }

  /** The copied binary lies inside the install directory. */
  lemma PathInsideDir(env: Env)
    requires InstallTarget(env).Some?
    ensures var t := InstallTarget(env).value;
      t.dir != "" && Removed(env.goos, t.path, t.dir) && t.path != t.dir
  {
    var t := InstallTarget(env).value;
    assert t.path == t.dir + [Separator(env.goos)] + BinaryName(env.goos);
    assert t.path[..|t.dir|] == t.dir;
  }

  /**
   * For a supported shell whose profile can be written after the copy,
   * `install` leaves the profile holding exactly the installed text: the old
   * contents (empty for a missing profile) with the payload appended unless
   * the start marker was already there.
   */
  lemma InstallPatchesProfile(h: Host, env: Env, name: string, self: string)
    requires InstallTarget(env).Some? && ParseShell(name).Some?
    requires var t := InstallTarget(env).value;
      var h2 := Copied(h, env, t, self);
      CanWrite(h2, env.goos, HookOn(h2, env, name, t.path).0)
    ensures var t := InstallTarget(env).value;
      var h2 := Copied(h, env, t, self);
      var (config, hook) := HookOn(h2, env, name, t.path);
      var content := ReadFile(h2, config).GetOr("");
      var r := Install(h, env, name, Some(self));
      && r.outcome == (if Contains(content, StartMarker) then AlreadyInstalled else Installed)
      && ReadFile(r.host, config) == Some(InstallText(content, hook))
  {
  }

  /**
   * Installing twice leaves the host as installing once: the directory and
   * the binary are already in place and the profile already holds the start
   * marker, or the step that failed the first time fails again.
   */
  lemma InstallTwice(h: Host, env: Env, name: string, self: Option<string>)
    requires InstallTarget(env).Some? && self.Some? ==>
      var t := InstallTarget(env).value;
      ProfileApart(env, t, self.value, HookOn(Copied(h, env, t, self.value), env, name, t.path).0)
    ensures var r := Install(h, env, name, self);
      Install(r.host, env, name, self).host == r.host
  {
    var r := Install(h, env, name, self);
    match InstallTarget(env)
    case None =>
    case Some(t) =>
      if self.None? {
        assert Mkdir(Mkdir(h, env.goos, t.dir), env.goos, t.dir) == Mkdir(h, env.goos, t.dir);
      } else {
        var h2 := Copied(h, env, t, self.value);
        CopiedStable(h, env, t, self.value);
        PathInsideDir(env);
        var (config, hook) := HookOn(h2, env, name, t.path);
        if !(config == "" && hook == "") {
          var content := ReadFile(h2, config).GetOr("");
          if !Contains(content, StartMarker) && CanWrite(h2, env.goos, config) {
            var h3 := AppendFile(h2, env.goos, config, Payload(hook));
            assert h3 == h2.(files := h2.files[config := content + Payload(hook)]);
            CopiedStableAfterProfile(h2, env, t, self.value, config, content + Payload(hook));
            assert PsDirMissing(h3, env) == PsDirMissing(h2, env);
            assert ReadFile(h3, config) == Some(InstallText(content, hook));
          }
        }
      }
  }

  /**
   * Uninstalling after a successful install gives the profile back with its
   * surrounding white space trimmed, and removes the install directory with the
   * copied binary.  This holds when the profile's lines hold no marker, the
   * binary's path has no '#' or line break, the profile can be written after
   * the copy, and the profile lies apart from the install directory.
   */
  lemma UninstallAfterInstall(h: Host, env: Env, name: string, self: string)
    requires InstallTarget(env).Some? && ParseShell(name).Some?
    requires var t := InstallTarget(env).value;
      var h2 := Copied(h, env, t, self);
      var config := HookOn(h2, env, name, t.path).0;
      && ProfileApart(env, t, self, config)
      && CanWrite(h2, env.goos, config)
      && (forall l <- Split(ReadFile(h2, config).GetOr("")) :: Unmarked(l))
      && '\n' !in t.path && '#' !in t.path
    ensures var t := InstallTarget(env).value;
      var h2 := Copied(h, env, t, self);
      var config := HookOn(h2, env, name, t.path).0;
      var r := Uninstall(Install(h, env, name, Some(self)).host, env, name);
      && r.outcome == Uninstalled
      && config in r.host.files && r.host.files[config] == TrimSpace(ReadFile(h2, config).GetOr(""))
      && forall q :: Removed(env.goos, q, t.dir) ==> !Exists(r.host, q)
  {
    var t := InstallTarget(env).value;
    var h2 := Copied(h, env, t, self);
    var (config, hook) := HookOn(h2, env, name, t.path);
    var content := ReadFile(h2, config).GetOr("");
    PathInsideDir(env);
    UnmarkedText(content);
    var h3 := AppendFile(h2, env.goos, config, Payload(hook));
    assert Install(h, env, name, Some(self)).host == h3;
    assert h3 == h2.(files := h2.files[config := content + Payload(hook)]);
    assert PsDirMissing(h3, env) == PsDirMissing(h2, env);
    assert HookOn(h3, env, name, t.path).0 == config;
    assert ReadFile(h3, config) == Some(InstallText(content, hook));
    HookLinesUnmarked(env.goos, name, t.path, env.home, PsDirMissing(h2, env));
    InstallUninstallRoundTrip(content, hook);
    var h4 := WriteFile(h3, env.goos, config, TrimSpace(content));
    assert h4.files[config] == TrimSpace(content);
  }
}
