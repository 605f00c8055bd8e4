# fahhhh installer, modelled in Dafny

`fahhhh` plays a sound whenever a shell command fails.  `fahhhh install` copies
the running binary into the install directory, `fahhhh` inside the per-user
data directory. It then appends a hook snippet, framed by the lines
`### ERR-SOUND-START ###` and `### ERR-SOUND-END ###`, to the profile of the shell that launched it (bash,
Git Bash, zsh or Windows PowerShell).  `fahhhh uninstall` filters that block
back out of the profile, trims the result and deletes the install directory.

This project models the text and path logic of the installer and proves the
properties it is meant to have:

- `go_text.dfy` (`GoText`): the parts of Go's `strings` package that are used
  (`Contains`, `Split`/`Join` on `"\n"`, `TrimSpace`, one-character
  `ReplaceAll`), with the round trips between them.
- `go_path.dfy` (`GoPath`): `filepath.Join`, `Dir` and `ToSlash`, for a given
  `GOOS`.
- `bash_dir.dfy` (`BashDir`): `toBashDir`.
- `hooks.dfy` (`Hooks`): `getHookForShell`. It is a pure function of the GOOS,
  the shell name, the binary's path, the home directory and whether Windows
  PowerShell's profile directory is missing.
- `profile_block.dfy` (`ProfileBlock`): the markers, the install payload and
  the uninstall line filter. The filter is a method with a loop, proved equal to
  a recursive specification function.
- `data_dir.dfy` (`DataDir`): data-directory and target-path resolution, as
  `install` does it and as `uninstall` does it.
- `installer.dfy` (`Installer`): `install` and `uninstall` as functions from a
  file-system state (files with contents, directories) to the new state and the
  way the run ended.

`uninstall` is evidently meant to resolve the data directory as `install` does
(main.go:127-137); on Linux it does not (see Findings). The model follows the
code in `DataDir.UninstallAppData` and `Installer.UninstallAsWritten`.

## Model

| member | source | states |
|---|---|---|
| GoText.TrimSpace | main.go:230 | the result is the infix of the input left after removing all leading and trailing Unicode white space; it neither starts nor ends with white space |
| GoText.TrimmedUnique | main.go:230 | any two ways of cutting white space off both ends that leave no white space at either edge leave the same text |
| GoText.TrimSpaceDropsTrailingSpace | main.go:230 | one more white-space character at the end does not change the trimmed text |
| GoText.Split | main.go:211 | splitting on line breaks gives at least one piece and no piece holds a line break |
| GoText.JoinSplit | main.go:211-230 | joining the pieces of a split with line breaks gives the original text back |
| GoText.SplitJoin | main.go:211-230 | splitting newline-free lines joined by line breaks gives the lines back |
| GoText.NoLineContains | main.go:168 | a newline-free pattern that no line contains is not in the joined text |
| GoPath.JoinPath | main.go:142-148 | the joined path is empty exactly when every element is, and non-empty when the last element is |
| GoPath.Dir | main.go:39 | the directory is ".", the root, or a proper prefix of the path |
| GoPath.DirOfJoin | main.go:142-148 | joining a directory with a plain file name puts one separator between them, and `Dir` of the result is the directory again |
| GoPath.ToSlash | main.go:44 | on Windows no backslash remains and every other character is kept; elsewhere the path is unchanged |
| BashDir.ToBashDir | main.go:113-124 | the length is kept, no backslash and no drive prefix remain, characters from the fourth on are the slash-normalised input, a leading `X:/` becomes `/x/`, and any other slash-normalised path is unchanged |
| BashDir.ToBashDirIdempotent | main.go:113-124 | normalising twice equals normalising once |
| BashDir.ToBashDirKeepsOut | main.go:113-124 | a character other than a slash or a letter is in the result only if it was in the input |
| BashDir.DriveExample | main.go:115-121 | `C:\Users\x` becomes `/c/Users/x` |
| Hooks.GetHookForShell | main.go:37-111 | both results are empty exactly for an unsupported name, and both are non-empty otherwise; the bash names give `home/.bashrc`, `zsh` gives `home/.zshrc`, and `powershell.exe` gives `home/Documents/WindowsPowerShell/...` or, when that directory is missing, `home/Documents/PowerShell/...` |
| Hooks.ParseShell | main.go:41-108 | a shell name is supported exactly when it is `bash`, `bash.exe`, `git-bash.exe`, `zsh` or `powershell.exe`, matched exactly |
| Hooks.ProfilePath | main.go:43-94 | the profile path is never empty, and for bash and zsh it lies directly in the home directory when that is non-empty |
| Hooks.SnippetDir | main.go:39-105 | PowerShell's snippet gets the binary's native directory; the bash and zsh snippets get it in POSIX form, of the same length, with no backslash and no drive prefix, and unchanged when it already had neither |
| Hooks.HookLines | main.go:45-105 | the first template line puts the directory in front of PATH (`export PATH=...` or `$env:PATH = ...`); every other line is fixed and holds no line break or `#`; the bash templates end with the `PROMPT_COMMAND` line and the zsh template with the `precmd_functions` line |
| Hooks.HookText | main.go:45-105 | the snippet is the template's lines joined by line breaks, with a line break before and after them, and it holds each of those lines |
| Hooks.SnippetLines | main.go:45-105 | for a binary path without line breaks, the snippet's lines are exactly the template's lines, with an empty line before and after |
| Hooks.HookSplit | main.go:41-110 | the snippet splits into the empty line alone for an unsupported name and into its template lines otherwise |
| Hooks.ExportsBinaryDir | main.go:41-97 | the bash and zsh snippets hold `export PATH="<toBashDir(ToSlash(dir))>:$PATH"`; the PowerShell snippet holds `$env:PATH = "<dir>;" + $env:PATH` with the native directory |
| Hooks.AliasOnlyForWindowsBash | main.go:42-47 | the `alias fahhhh=fahhhh.exe` line is in the snippet exactly for `bash.exe` and `git-bash.exe` |
| Hooks.PromptCommandOnlyForBash | main.go:41-70 | the `PROMPT_COMMAND=...` line is in the snippet exactly for the three bash names |
| Hooks.PrecmdOnlyForZsh | main.go:84 | the `precmd_functions+=(_err_sound_hook)` line is in the snippet exactly for `zsh` |
| Hooks.HookPlaysSound | main.go:45-105 | the snippet invokes the player (`play`) exactly when the shell is supported; for a binary path without line breaks, the shell's player line is one of the snippet's lines |
| Hooks.ZshExample | main.go:73-86 | for `zsh` and the binary `/home/u/.local/share/fahhhh/fahhhh`, the profile is `/home/u/.zshrc` and the snippet has the lines `precmd_functions+=(_err_sound_hook)` and `export PATH="/home/u/.local/share/fahhhh:$PATH"` |
| Hooks.PlayerLine | main.go:45-105 | each supported shell's template has a line that launches `fahhhh play` |
| Hooks.HookLinesUnmarked | main.go:37-111 | when the binary's path holds no `#` or line break, no line of the snippet holds either profile marker |
| Hooks.FixedLinesPlain | main.go:45-105 | no fixed template line holds a line break or `#` |
| ProfileBlock.InstallText | main.go:167-176 | the old text stays a prefix and the result holds the start marker; the text is unchanged exactly when it already held the start marker; otherwise exactly the payload `"\n"+start+"\n"+hook+"\n"+end+"\n"` is appended |
| ProfileBlock.Payload | main.go:175 | the payload's lines are an empty line (ending the profile's last line), the start marker, the hook's lines, the end marker and a final empty line |
| ProfileBlock.InstallIdempotent | main.go:167-176 | installing into the profile text twice equals installing once |
| ProfileBlock.KeptLines | main.go:213-228 | the filter keeps at most as many lines as it gets, and no kept line holds a marker |
| ProfileBlock.KeptIsSubsequence | main.go:213-228 | the kept lines are an order-preserving selection of the input lines |
| ProfileBlock.RemoveMarkedBlocks | main.go:213-228 | the loop with the `skipping` flag computes the filter's lines: an order-preserving selection with no marker line |
| ProfileBlock.KeptUnmarkedPrefix | main.go:216-228 | lines without markers outside a block are kept, in order |
| ProfileBlock.DropsMarkedBlock | main.go:216-225 | a start-marker line, the lines after it and the next end-marker line are all dropped, and filtering then goes on as if the block had not been there |
| ProfileBlock.DropsUnterminatedBlock | main.go:216-228 | a start marker with no end marker after it drops everything to the end of the file |
| ProfileBlock.UninstallUnmarked | main.go:211-230 | a profile without marker lines only loses its surrounding white space |
| ProfileBlock.UninstallText | main.go:211-230 | the rewritten profile holds neither marker anywhere and neither starts nor ends with white space |
| ProfileBlock.UninstallIdempotent | main.go:211-230 | rewriting the profile a second time changes nothing |
| ProfileBlock.InstallUninstallRoundTrip | main.go:175-230 | if no line of the profile holds a marker and no hook line holds the end marker, uninstalling after installing gives back the trimmed profile |
| ProfileBlock.UnmarkedText | main.go:168 | a text none of whose lines holds a marker holds no marker at all, so install appends to it |
| DataDir.AppData | main.go:127-140 | the data directory is `APPDATA` on Windows; on Linux it is `XDG_DATA_HOME`, or `home/.local/share` when that is empty, so never empty; on other systems it is empty |
| DataDir.UninstallAppData | main.go:181-195 | uninstall's data directory is `APPDATA` on Windows and empty everywhere else, Linux included |
| DataDir.ResolveTarget | main.go:138-149 | no target for an empty data directory; otherwise the target directory is `appData/fahhhh` and the binary is `fahhhh.exe` (Windows) or `fahhhh` (Linux) directly inside it |
| DataDir.InstallTarget | main.go:127-149 | install finds a target always on Linux, on Windows exactly when `APPDATA` is set, and never elsewhere |
| DataDir.UninstallTarget | main.go:181-203 | uninstall's target is install's target on Windows and missing on every other system |
| DataDir.UninstallLinuxShadowed | main.go:181-203 | on Linux uninstall never finds a target although install always does; on other systems the two agree |
| DataDir.UninstallLinuxExample | main.go:185-195 | with no `XDG_DATA_HOME` and home `/home/u`, install targets `/home/u/.local/share/fahhhh/fahhhh` while uninstall finds nothing |
| Installer.RemoveAll | main.go:231 | the directory and everything below it is gone; everything else is kept with its contents |
| Installer.ReadFile | main.go:207 | reading fails for the empty path and where no regular file is; otherwise it gives the file's contents |
| Installer.Mkdir | main.go:151 | the directory is made exactly when nothing was at the path and its parent is a directory; files and every other directory are kept |
| Installer.WriteFile | main.go:159 | where the path can be written (a file, or a new file in an existing directory), reading it back gives the written data; otherwise nothing changes; no other file or directory is touched |
| Installer.AppendFile | main.go:172-176 | where the profile can be written, reading it back gives its old contents (empty for a new file) followed by the data; otherwise nothing changes; no other file or directory is touched |
| Installer.PowerShellProfileOn | main.go:90-94 | PowerShell's profile is Windows PowerShell's while that profile's directory exists, and PowerShell 6's otherwise |
| Installer.Copied | main.go:151-159 | the install directory is made as `os.Mkdir` makes it; a writable target then holds what the running binary held (empty when unreadable); no other file changes |
| Installer.Install | main.go:126-178 | the run stops with the host unchanged exactly when there is no data directory; when the executable is unknown it stops with only the install directory made; for an unsupported shell it stops after copying the binary, with the profile untouched; a supported shell always ends in "already installed" or "installed": it reports "already installed" exactly when the profile, read after the copy, holds the start marker, and then leaves the host as after the copy; otherwise it appends the payload to a writable profile and changes nothing else |
| Installer.InstallPatchesProfile | main.go:162-176 | for a supported shell whose profile is writable, the profile then holds the installed text of its old contents (empty when missing), and the run reports "already installed" exactly when the start marker was there |
| Installer.CopiedStable | main.go:151-159 | making the directory and copying the binary a second time changes nothing |
| Installer.InstallTwice | main.go:126-178 | when the profile lies apart from the install directory, the running binary and PowerShell's profile directory, installing twice leaves the host as installing once |
| Installer.UninstallFrom | main.go:192-233 | the run stops with the host unchanged when there is no target or the profile cannot be read; otherwise the install directory and everything below it is removed, a profile outside it holds the uninstalled text of its old contents (unchanged when it cannot be written), and every other file and directory keeps its presence and contents |
| Installer.UninstallAsWritten | main.go:180-233 | on Linux uninstall changes nothing and stops for lack of a data directory; elsewhere it behaves as the corrected uninstall |
| Installer.Uninstall | main.go:180-233 | with install's data-directory resolution, uninstall never stops for lack of a data directory on Linux |
| Installer.UninstallAfterInstall | main.go:126-233 | after a successful install, the corrected uninstall leaves the profile as its original contents trimmed and removes the install directory with the binary; this holds on Windows and Linux alike |

## Left out

- `playSound` (main.go:235-254): MP3 decoding, speaker output and a channel wait are foreign calls and concurrency.
- `detectShell` (main.go:28-35): the parent-process lookup is a system call. The shell's executable name is a parameter.
- `main` (main.go:256-293): flag dispatch, usage text and exit codes are I/O glue.
- Printed messages are not modelled. `Installer.Outcome` records which of them a run ends with.
- `os.UserHomeDir`, `os.Getenv` and `runtime.GOOS` are parameters (`DataDir.Env`). A home-directory error reads as the empty home, as the program's ignored error gives.
- `os.Executable` is a parameter, an optional path. The binary's contents are text in the file map; permissions (`0755`, `0644`) are not modelled.
- `os.Stat` in `getHookForShell` is reduced to "nothing exists at Windows PowerShell's profile directory". Errors other than non-existence are not modelled.
- GoPath.JoinPath: does not model `filepath.Clean` (dropping `.`/`..` elements and doubled or trailing separators) or Windows volume names. A data directory with a trailing separator therefore gets two separators in the model.
- GoPath.Dir: does not model the cleaning of the result or Windows volume names.
- GoText.TrimSpace: works on Unicode scalar values. Profiles that are not valid UTF-8 are not modelled.
- Installer.InstallTwice: needs the profile to lie outside the install directory and to be neither the running binary nor PowerShell's profile directory. Otherwise the binary copy or the PowerShell fallback would observe the patched profile.
- Installer.UninstallAfterInstall: needs what `InstallTwice` needs, plus a writable profile, no marker in the original lines, and no `#` or line break in the binary's path. Without these, install's append fails or the snippet's own lines could end the block early.
- Installer.Install: "Installed" is reported even when opening the profile failed, as the program does. The failed write leaves the profile unchanged.
- Hooks.HookLinesUnmarked: requires a binary path without `#` and line breaks. A directory holding the end marker would let uninstall stop skipping inside the hook.

## Findings

| source | as written | input that shows it | evidently intended | confidence | as-written member | corrected member |
|---|---|---|---|---|---|---|
| main.go:186 | the Linux branch of `uninstall` declares `appData :=` inside the `case`. The new variable shadows the outer `appData`, which stays `""`, so uninstall prints "Cannot retrieve appdata directory." and returns | GOOS `linux`, no `XDG_DATA_HOME`, home `/home/u`: install targets `/home/u/.local/share/fahhhh/fahhhh`, uninstall finds no target (`DataDir.UninstallLinuxExample`) | assign the outer variable (`appData = ...`), as `install` does at main.go:132, so that uninstall finds the directory install populated | high; not executed | DataDir.UninstallAppData, with DataDir.UninstallLinuxShadowed and Installer.UninstallAsWritten | Installer.Uninstall, with Installer.UninstallAfterInstall proving the round trip on Linux too |
