/**
 * `toBashDir`: turns a native directory into the form POSIX-style shells on
 * Windows (Git Bash, MSYS) expect, `C:\Users\x` becoming `/c/Users/x`.
 */
module BashDir {
  import opened GoText

  predicate IsAsciiLetter(c: char) {
    ('a' <= c <= 'z') || ('A' <= c <= 'Z')
  }

  /** The text matches the regular expression `^[a-zA-Z]:/`. */
  predicate HasDrivePrefix(p: string) {
    |p| >= 3 && IsAsciiLetter(p[0]) && p[1] == ':' && p[2] == '/'
  }

  /** Every backslash turned into a slash (`strings.ReplaceAll(dir, "\\", "/")`). */
  function Slashed(dir: string): string {
    ReplaceChar(dir, '\\', '/')
  }

  /**
   * Backslashes become slashes, then a leading `X:/` becomes `/x/`.  The
   * rewrite is length-preserving (one character for one, three for three),
   * leaves no backslash and no drive prefix behind, touches nothing after the
   * third character, and leaves a slash-normalised path without a drive prefix
   * as it is.
   */
  function ToBashDir(dir: string): (r: string)
    ensures |r| == |dir|
    ensures '\\' !in r
    ensures !HasDrivePrefix(r)
    ensures forall i | 3 <= i < |dir| :: r[i] == (if dir[i] == '\\' then '/' else dir[i])
    ensures HasDrivePrefix(Slashed(dir)) ==> r[..3] == ['/', ToLowerAscii(dir[0]), '/']
    ensures !HasDrivePrefix(Slashed(dir)) ==> r == Slashed(dir)
  {
    var path := Slashed(dir);
    if HasDrivePrefix(path) then ['/', ToLowerAscii(path[0]), '/'] + path[3..] else path
  }

  /** Normalising an already normalised path changes nothing. */
  lemma ToBashDirIdempotent(dir: string)
    ensures ToBashDir(ToBashDir(dir)) == ToBashDir(dir)
  {
    var r := ToBashDir(dir);
    assert Slashed(r) == r;
  }

  /**
   * Apart from slashes and letters (which the drive rewrite may introduce), a
   * character is in the result only if it was in the input.
   */
  lemma ToBashDirKeepsOut(dir: string, x: char)
    requires x !in dir && x != '/' && !IsAsciiLetter(x)
    ensures x !in ToBashDir(dir)
  {
    var r := ToBashDir(dir);
    forall i | 0 <= i < |r| ensures r[i] != x {
      if i >= 3 || !HasDrivePrefix(Slashed(dir)) {
        assert r[i] == '/' || r[i] == dir[i];
      } else {
        assert r[i] == r[..3][i];
      }
    }
  }

  /** The Windows drive example: `C:\Users\x` becomes `/c/Users/x`. */
  lemma DriveExample()
    ensures ToBashDir("C:\\Users\\x") == "/c/Users/x"
  {
    assert Slashed("C:\\Users\\x") == "C:/Users/x";
  }

  /** A POSIX path comes back unchanged. */
  lemma PosixExample()
    ensures ToBashDir("/already/posix") == "/already/posix"
  {
    assert Slashed("/already/posix") == "/already/posix";
  }
}
