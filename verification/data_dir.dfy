/**
 * Where `install` copies the binary and `uninstall` looks for it: the
 * per-user data directory of the target operating system, a `fahhhh`
 * directory inside it, and the binary's file name.
 */
module DataDir {
  import opened Wrappers
  import opened GoPath

  /** What the resolution reads from the process: `runtime.GOOS`, the environment and `os.UserHomeDir`. */
  datatype Env = Env(goos: string, vars: map<string, string>, home: string)

  /** `os.Getenv`: an unset variable reads as the empty string. */
  function Getenv(env: Env, key: string): string {
    if key in env.vars then env.vars[key] else ""
  }

  const AppDir := "fahhhh"

  /** The installed binary's file name; only Windows and Linux have one. */
  function BinaryName(goos: string): string {
    if goos == "windows" then "fahhhh.exe" else if goos == "linux" then "fahhhh" else ""
  }

  /** The directory made for the binary and the binary's path inside it. */
  datatype Target = Target(dir: string, path: string)

  /**
   * The data directory as `install` resolves it: `APPDATA` on Windows;
   * `XDG_DATA_HOME` on Linux, or `home/.local/share` when that is empty, so
   * never empty on Linux; nothing on any other system.
   */
  function AppData(env: Env): (r: string)
    ensures env.goos == "windows" ==> r == Getenv(env, "APPDATA")
    ensures env.goos == "linux" ==> r != ""
    ensures env.goos == "linux" && Getenv(env, "XDG_DATA_HOME") != "" ==> r == Getenv(env, "XDG_DATA_HOME")
    ensures env.goos == "linux" && Getenv(env, "XDG_DATA_HOME") == "" ==>
      r == JoinPath(env.goos, [env.home, ".local", "share"])
    ensures env.goos != "windows" && env.goos != "linux" ==> r == ""
  {
    if env.goos == "windows" then Getenv(env, "APPDATA")
    else if env.goos == "linux" then
      var xdg := Getenv(env, "XDG_DATA_HOME");
      if xdg == "" then JoinPath(env.goos, [env.home, ".local", "share"]) else xdg
    else ""
  }

  /**
   * The data directory as `uninstall` computes it.  Its Linux branch declares
   * a new `appData` that shadows the outer one, so the value it computes is
   * dropped and the outer variable keeps its initial empty string.
   */
  function UninstallAppData(env: Env): (r: string)
    ensures env.goos == "windows" ==> r == Getenv(env, "APPDATA")
    ensures env.goos != "windows" ==> r == ""
  {
    if env.goos == "windows" then Getenv(env, "APPDATA")
    else if env.goos == "linux" then
      var appData := Getenv(env, "XDG_DATA_HOME");
      var shadowed := if appData == "" then JoinPath(env.goos, [env.home, ".local", "share"]) else appData;
      ""
    else ""
  }

  lemma BinaryNamePlain(goos: string)
    ensures NoSeparator(goos, BinaryName(goos))
    ensures NoSeparator(goos, AppDir)
  {
    var b := BinaryName(goos);
    forall i | 0 <= i < |b| ensures !IsSeparator(goos, b[i]) {
      if goos == "windows" {
        assert b == "fahhhh.exe";
      } else if goos == "linux" {
        assert b == "fahhhh";
      }
    }
    forall i | 0 <= i < |AppDir| ensures !IsSeparator(goos, AppDir[i]) {
    }
  }

  /**
   * From a data directory to the target: none when the data directory is
   * empty (the program stops there); otherwise the directory `appData/fahhhh`
   * and, inside it, the binary's file name.
   */
  function ResolveTarget(goos: string, appData: string): (r: Option<Target>)
    ensures r.None? <==> appData == ""
    ensures r.Some? ==> r.value.dir == appData + [Separator(goos)] + AppDir
    ensures r.Some? && (goos == "windows" || goos == "linux") ==>
      r.value.path == r.value.dir + [Separator(goos)] + BinaryName(goos) && Dir(goos, r.value.path) == r.value.dir
  {
    if appData == "" then None
    else
      var dir := JoinPath(goos, [appData, AppDir]);
      BinaryNamePlain(goos);
      DirOfJoin(goos, appData, AppDir);
      var path :=
        if goos == "windows" || goos == "linux" then
          DirOfJoin(goos, dir, BinaryName(goos));
          JoinPath(goos, [dir, BinaryName(goos)])
        else "";
      Some(Target(dir, path))
  }

  /** The target of `install`: found on Linux always, on Windows exactly when `APPDATA` is set. */
  function InstallTarget(env: Env): (r: Option<Target>)
    ensures env.goos == "linux" ==> r.Some?
    ensures env.goos == "windows" ==> (r.Some? <==> Getenv(env, "APPDATA") != "")
    ensures env.goos != "windows" && env.goos != "linux" ==> r.None?
  {
    ResolveTarget(env.goos, AppData(env))
  }

  /**
   * The target of `uninstall` as the program computes it: install's target on
   * Windows, none on any other system.
   */
  function UninstallTarget(env: Env): (r: Option<Target>)
    ensures env.goos == "windows" ==> r == InstallTarget(env)
    ensures env.goos != "windows" ==> r.None?
  {
    ResolveTarget(env.goos, UninstallAppData(env))
  }

  /**
   * On Linux `uninstall` never finds its target although `install` always
   * finds one; on every other system the two agree.
   */
  lemma UninstallLinuxShadowed(env: Env)
    ensures env.goos == "linux" ==> UninstallTarget(env).None? && InstallTarget(env).Some?
    ensures env.goos != "linux" ==> UninstallTarget(env) == InstallTarget(env)
  {
  }

  /** A concrete Linux environment where `install` targets `~/.local/share/fahhhh` but `uninstall` stops. */
  lemma UninstallLinuxExample()
    ensures var env := Env("linux", map[], "/home/u");
      && InstallTarget(env) == Some(Target("/home/u/.local/share/fahhhh", "/home/u/.local/share/fahhhh/fahhhh"))
      && UninstallTarget(env) == None
  {
    var env := Env("linux", map[], "/home/u");
    assert JoinPath("linux", ["share"]) == "share" by { assert ["share"][1..] == []; }
    assert JoinPath("linux", [".local", "share"]) == ".local/share" by { assert [".local", "share"][1..] == ["share"]; }
    assert AppData(env) == "/home/u/.local/share" by {
      assert ["/home/u", ".local", "share"][1..] == [".local", "share"];
    }
    var dir := "/home/u/.local/share/fahhhh";
    assert AppData(env) + "/" + AppDir == dir;
    assert dir + "/" + BinaryName("linux") == "/home/u/.local/share/fahhhh/fahhhh";
  }
}
