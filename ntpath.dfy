/**
 * The part of Python's `os.path` for Windows (`ntpath`, as of Python 3.12) that
 * the pipeline script uses: `basename`, `dirname` and `join` of a directory with
 * a plain file name. Drive letters (`C:`) and a leading root separator are
 * modelled; UNC shares (`\\server\share`) are not.
 */
module NtPath {

  /** `\` and `/` both separate path components on Windows. */
  predicate IsSep(c: char) {
    c == '\\' || c == '/'
  }

  predicate HasNoSep(s: string) {
    forall i :: 0 <= i < |s| ==> !IsSep(s[i])
  }

  /** Length of the drive part of `p` (`X:` unless `p` starts with a separator). */
  function DriveLength(p: string): (n: nat)
    ensures n <= |p|
    ensures n == 0 || n == 2
  {
    if |p| >= 2 && !IsSep(p[0]) && p[1] == ':' then 2 else 0
  }

  /** Length of the drive and the root separator that may follow it. */
  function AnchorLength(p: string): (n: nat)
    ensures DriveLength(p) <= n <= |p|
    ensures n == DriveLength(p) + 1 ==> IsSep(p[DriveLength(p)])
  {
    var d := DriveLength(p);
    if d < |p| && IsSep(p[d]) then d + 1 else d
  }

  /** A file name as `os.listdir` returns it: no separator and no drive. */
  predicate IsPlainName(name: string) {
    HasNoSep(name) && DriveLength(name) == 0
  }

  /** The index just after the last separator of `p`, or 0 when there is none. */
  function LastSepEnd(p: string): (k: nat)
    ensures k <= |p|
    ensures k > 0 ==> IsSep(p[k - 1])
    ensures forall i :: k <= i < |p| ==> !IsSep(p[i])
    decreases |p|
  {
    if |p| == 0 then 0
    else if IsSep(p[|p| - 1]) then |p|
    else LastSepEnd(p[..|p| - 1])
  }

  /** Where the last component of `p` begins: after the anchor and after every separator. */
  function TailStart(p: string): (k: nat)
    ensures AnchorLength(p) <= k <= |p|
    ensures forall i :: k <= i < |p| ==> !IsSep(p[i])
    ensures k > AnchorLength(p) ==> IsSep(p[k - 1])
  {
    var a := AnchorLength(p);
    var e := LastSepEnd(p);
    if e < a then a else e
  }

  /** `p.rstrip('\\/')`. */
  function RStripSeps(s: string): (r: string)
    ensures |r| <= |s| && r == s[..|r|]
    ensures r == [] || !IsSep(r[|r| - 1])
    ensures forall i :: |r| <= i < |s| ==> IsSep(s[i])
    decreases |s|
  {
    if |s| > 0 && IsSep(s[|s| - 1]) then RStripSeps(s[..|s| - 1]) else s
  }

  /**
   * `os.path.basename(p)`: the longest suffix of `p` that holds no separator
   * and does not reach into the drive and root.
   */
  function BaseName(p: string): (r: string)
    ensures HasNoSep(r)
    ensures |r| <= |p| && r == p[|p| - |r|..]
    ensures AnchorLength(p) <= |p| - |r|
    ensures |p| - |r| > AnchorLength(p) ==> IsSep(p[|p| - |r| - 1])
  {
    var k := TailStart(p);
    assert HasNoSep(p[k..]) by {
      forall i | 0 <= i < |p| - k
        ensures !IsSep(p[k..][i])
      {
        assert p[k..][i] == p[k + i];
      }
    }
    p[k..]
  }

  /**
   * `os.path.dirname(p)`: drive and root, then everything up to the last
   * component with its trailing separators removed.
   */
  function DirName(p: string): (r: string)
    ensures |r| <= |p| && r == p[..|r|]
    ensures AnchorLength(p) <= |r| <= TailStart(p)
    ensures forall i :: |r| <= i < TailStart(p) ==> IsSep(p[i])
    ensures |r| > AnchorLength(p) ==> !IsSep(r[|r| - 1])
  {
    var a := AnchorLength(p);
    var k := TailStart(p);
    var middle := p[a..k];
    var head := RStripSeps(middle);
    assert p[..a] + head == p[..a + |head|];
    assert forall i :: a + |head| <= i < k ==> IsSep(p[i]) by {
      forall i | a + |head| <= i < k
        ensures IsSep(p[i])
      {
        assert p[i] == middle[i - a];
      }
    }
    p[..a] + head
  }

  /** Whether `join` puts a separator between `folder` and the next name. */
  predicate NeedsSep(folder: string) {
    AnchorLength(folder) < |folder| && !IsSep(folder[|folder| - 1])
  }

  /** What `join` puts between `folder` and the next name. */
  function Separator(folder: string): string {
    if NeedsSep(folder) then "\\" else ""
  }

  /**
   * `os.path.join(folder, name)` for a plain file name: `basename` gives the
   * name back whole, and `dirname` gives the folder back whenever `join`
   * had to add a separator.
   */
  function Join(folder: string, name: string): (r: string)
    requires IsPlainName(name)
    ensures |folder| <= |r| && r[..|folder|] == folder
    ensures BaseName(r) == name
    ensures NeedsSep(folder) ==> DirName(r) == folder
  {
    var lead := folder + Separator(folder);
    var r := lead + name;
    JoinedTailStart(folder, name);
    assert r[|lead|..] == name;
    assert r[..|folder|] == folder;
    assert NeedsSep(folder) ==> DirName(r) == folder by {
      if NeedsSep(folder) {
        var n := |folder|;
        var d := DirName(r);
        assert r[n] == '\\';
        assert r[n - 1] == folder[n - 1];
        if n == 1 {
          assert DriveLength(r) == 0 && DriveLength(folder) == 0;
        } else {
          assert r[0] == folder[0] && r[1] == folder[1];
        }
        assert AnchorLength(r) == AnchorLength(folder) by {
          var dl := DriveLength(folder);
          assert r[dl] == folder[dl];
        }
        assert |d| == n;
      }
    }
    r
  }

  lemma {:induction false} LastSepEndOfSepFree(a: string, b: string)
    requires HasNoSep(b)
    ensures LastSepEnd(a + b) == LastSepEnd(a)
    decreases |b|
  {
    if |b| > 0 {
      var ab := a + b;
      assert ab[..|ab| - 1] == a + b[..|b| - 1];
      LastSepEndOfSepFree(a, b[..|b| - 1]);
    } else {
      assert a + b == a;
    }
  }

  /** The last component of a joined path starts just after the folder and its separator. */
  lemma JoinedTailStart(folder: string, name: string)
    requires IsPlainName(name)
    ensures TailStart(folder + Separator(folder) + name) == |folder + Separator(folder)|
  {
    var lead := folder + Separator(folder);
    var p := lead + name;
    LastSepEndOfSepFree(lead, name);
    if |lead| > 0 && IsSep(lead[|lead| - 1]) {
      assert LastSepEnd(lead) == |lead|;
      assert p[|lead| - 1] == lead[|lead| - 1];
      if |lead| == 1 {
        assert DriveLength(p) == 0;
      }
    } else {
      // no separator is added and folder ends without one: folder is "" or a bare drive
      assert !NeedsSep(folder);
      assert lead == folder;
      if |folder| == 0 {
        assert p == name;
      } else {
        assert AnchorLength(folder) == |folder|;
        assert DriveLength(folder) == 2 && |folder| == 2;
        assert p[0] == folder[0] && p[1] == folder[1];
        assert !IsSep(folder[0]) && !IsSep(folder[1]);
        assert LastSepEnd(folder[..1]) == 0;
        assert LastSepEnd(folder) == 0;
      }
    }
  }
}
