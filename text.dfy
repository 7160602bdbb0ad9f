/**
 * The Python string operations the pipeline script relies on, as functions on
 * `string` (= `seq<char>`): `str.replace`, `str.endswith`, `str.strip()` and
 * `str.split(sep)`, with the laws that characterise each of them.
 */
module Text {

  // ---------------------------------------------------------------------------
  // str.replace(old, new)
  // ---------------------------------------------------------------------------

  /** `s.replace(pat, rep)`: every non-overlapping occurrence of `pat`, scanning left to right. */
  function ReplaceAll(s: string, pat: string, rep: string): string
    requires |pat| > 0
    decreases |s|
  {
    if |s| < |pat| then s
    else if s[..|pat|] == pat then rep + ReplaceAll(s[|pat|..], pat, rep)
    else [s[0]] + ReplaceAll(s[1..], pat, rep)
  }

  /** `s` contains the two-character substring `[a, b]`. */
  predicate ContainsPair(s: string, a: char, b: char) {
    exists i :: 0 <= i < |s| - 1 && s[i] == a && s[i + 1] == b
  }

  /** Replacing a single character is a pointwise map over the string. */
  lemma {:induction false} ReplaceCharPointwise(s: string, c: char, d: char)
    ensures |ReplaceAll(s, [c], [d])| == |s|
    ensures forall i :: 0 <= i < |s| ==>
      ReplaceAll(s, [c], [d])[i] == if s[i] == c then d else s[i]
    decreases |s|
  {
    if |s| >= 1 {
      ReplaceCharPointwise(s[1..], c, d);
      assert s[..1] == [s[0]];
      var r := ReplaceAll(s, [c], [d]);
      var t := ReplaceAll(s[1..], [c], [d]);
      assert r == [if s[0] == c then d else s[0]] + t;
      forall i | 1 <= i < |s|
        ensures r[i] == if s[i] == c then d else s[i]
      {
        assert r[i] == t[i - 1];
        assert s[1..][i - 1] == s[i];
      }
    }
  }

  /** A character that is neither in `pat` nor in `rep` survives the replacement exactly where it was. */
  lemma {:induction false} ReplaceKeepsOtherChar(s: string, pat: string, rep: string, c: char)
    requires |pat| > 0 && c !in pat && c !in rep
    ensures c in ReplaceAll(s, pat, rep) <==> c in s
    decreases |s|
  {
    if |s| >= |pat| {
      if s[..|pat|] == pat {
        ReplaceKeepsOtherChar(s[|pat|..], pat, rep, c);
        assert s == pat + s[|pat|..];
      } else {
        ReplaceKeepsOtherChar(s[1..], pat, rep, c);
        assert s == [s[0]] + s[1..];
      }
    }
  }

  /** A character absent from `s` and from `rep` is absent from the result. */
  lemma {:induction false} ReplaceIntroducesNoChar(s: string, pat: string, rep: string, c: char)
    requires |pat| > 0 && c !in s && c !in rep
    ensures c !in ReplaceAll(s, pat, rep)
    decreases |s|
  {
    if |s| >= |pat| {
      if s[..|pat|] == pat {
        assert forall k :: |pat| <= k < |s| ==> s[|pat|..][k - |pat|] == s[k];
        ReplaceIntroducesNoChar(s[|pat|..], pat, rep, c);
      } else {
        ReplaceIntroducesNoChar(s[1..], pat, rep, c);
      }
    }
  }

  /** The first character of a replacement result is either the first character of `rep` or of `s`. */
  lemma ReplaceHead(s: string, pat: string, rep: string)
    requires |pat| > 0 && |rep| > 0 && |s| > 0
    ensures |ReplaceAll(s, pat, rep)| > 0
    ensures ReplaceAll(s, pat, rep)[0] == if |s| >= |pat| && s[..|pat|] == pat then rep[0] else s[0]
  {
  }

  /**
   * Replacing a two-character pattern by a non-empty text containing neither of
   * its characters leaves no occurrence of the pattern.
   */
  lemma {:induction false} ReplaceLeavesNoPair(s: string, a: char, b: char, rep: string)
    requires |rep| > 0 && a !in rep && b !in rep
    ensures !ContainsPair(ReplaceAll(s, [a, b], rep), a, b)
    decreases |s|
  {
    var r := ReplaceAll(s, [a, b], rep);
    if |s| < 2 {
    } else if s[..2] == [a, b] {
      var x := ReplaceAll(s[2..], [a, b], rep);
      ReplaceLeavesNoPair(s[2..], a, b, rep);
      assert r == rep + x;
      forall i | 0 <= i < |r| - 1
        ensures !(r[i] == a && r[i + 1] == b)
      {
        if i < |rep| {
          assert r[i] == rep[i];
        } else {
          assert r[i] == x[i - |rep|] && r[i + 1] == x[i - |rep| + 1];
        }
      }
    } else {
      var t := s[1..];
      var x := ReplaceAll(t, [a, b], rep);
      ReplaceLeavesNoPair(t, a, b, rep);
      assert r == [s[0]] + x;
      forall i | 0 <= i < |r| - 1
        ensures !(r[i] == a && r[i + 1] == b)
      {
        if i == 0 {
          ReplaceHead(t, [a, b], rep);
          assert r[0] == s[0] && r[1] == x[0];
          assert s[..2][0] == s[0] && s[..2][1] == s[1];
          assert t[0] == s[1];
        } else {
          assert r[i] == x[i - 1] && r[i + 1] == x[i];
        }
      }
    }
  }

  /** Without an occurrence of the two-character pattern the replacement is the identity. */
  lemma {:induction false} ReplacePairAbsent(s: string, a: char, b: char, rep: string)
    requires !ContainsPair(s, a, b)
    ensures ReplaceAll(s, [a, b], rep) == s
    decreases |s|
  {
    if |s| >= 2 {
      assert s[..2][0] == s[0] && s[..2][1] == s[1];
      assert !ContainsPair(s[1..], a, b) by {
        forall i | 0 <= i < |s[1..]| - 1
          ensures !(s[1..][i] == a && s[1..][i + 1] == b)
        {
          assert s[1..][i] == s[i + 1] && s[1..][i + 1] == s[i + 2];
        }
      }
      ReplacePairAbsent(s[1..], a, b, rep);
      assert s == [s[0]] + s[1..];
    }
  }

  /** A pointwise map that sends `c` to `d` creates no `[a, b]` pair when neither `a` nor `b` is `d`. */
  lemma ReplaceCharKeepsNoPair(s: string, c: char, d: char, a: char, b: char)
    requires a != d && b != d && !ContainsPair(s, a, b)
    ensures !ContainsPair(ReplaceAll(s, [c], [d]), a, b)
  {
    ReplaceCharPointwise(s, c, d);
    var r := ReplaceAll(s, [c], [d]);
    forall i | 0 <= i < |r| - 1
      ensures !(r[i] == a && r[i + 1] == b)
    {
      assert r[i] == a ==> s[i] == a;
      assert r[i + 1] == b ==> s[i + 1] == b;
    }
  }

  // ---------------------------------------------------------------------------
  // str.endswith(suffix)
  // ---------------------------------------------------------------------------

  predicate EndsWith(s: string, suffix: string) {
    |suffix| <= |s| && s[|s| - |suffix|..] == suffix
  }

  /** `s.endswith((x, y, ...))`: a tuple of suffixes matches when any one of them does. */
  predicate EndsWithAny(s: string, suffixes: seq<string>) {
    exists k :: 0 <= k < |suffixes| && EndsWith(s, suffixes[k])
  }

  // ---------------------------------------------------------------------------
  // str.strip()
  // ---------------------------------------------------------------------------

  /** The characters for which Python's `str.isspace()` holds. */
  predicate IsSpace(c: char) {
    || c == ' '
    || ('\t' <= c <= '\r')
    || ('\U{1C}' <= c <= '\U{1F}')
    || c == '\U{85}' || c == '\U{A0}' || c == '\U{1680}'
    || ('\U{2000}' <= c <= '\U{200A}')
    || c == '\U{2028}' || c == '\U{2029}' || c == '\U{202F}' || c == '\U{205F}' || c == '\U{3000}'
  }

  /** Where the run of white space that starts at index `i` of `s` ends. */
  function SkipSpaces(s: string, i: nat): (n: nat)
    requires i <= |s|
    ensures i <= n <= |s|
    ensures n < |s| ==> !IsSpace(s[n])
    ensures forall k :: i <= k < n ==> IsSpace(s[k])
    decreases |s| - i
  {
    if i < |s| && IsSpace(s[i]) then SkipSpaces(s, i + 1) else i
  }

  /** Where the run of white space that ends at index `j` of `s` starts, not going below `lo`. */
  function SkipSpacesBack(s: string, lo: nat, j: nat): (n: nat)
    requires lo <= j <= |s|
    ensures lo <= n <= j
    ensures n > lo ==> !IsSpace(s[n - 1])
    ensures forall k :: n <= k < j ==> IsSpace(s[k])
    decreases j
  {
    if j > lo && IsSpace(s[j - 1]) then SkipSpacesBack(s, lo, j - 1) else j
  }

  /** Only white space lies outside `s[lo..hi]`. */
  predicate Trimmed(s: string, lo: nat, hi: nat) {
    && lo <= hi <= |s|
    && (forall i :: 0 <= i < lo ==> IsSpace(s[i]))
    && (forall i :: hi <= i < |s| ==> IsSpace(s[i]))
  }

  /** `s.strip()`: a contiguous slice of `s` with no white space at either end. */
  function Strip(s: string): (r: string)
    ensures exists lo: nat, hi: nat :: Trimmed(s, lo, hi) && r == s[lo..hi]
    ensures r == [] || (!IsSpace(r[0]) && !IsSpace(r[|r| - 1]))
  {
    var lo := SkipSpaces(s, 0);
    var hi := SkipSpacesBack(s, lo, |s|);
    assert Trimmed(s, lo, hi);
    s[lo..hi]
  }

  /** Stripping twice strips nothing more. */
  lemma StripIdempotent(s: string)
    ensures Strip(Strip(s)) == Strip(s)
  {
    var t := Strip(s);
    assert SkipSpaces(t, 0) == 0;
    assert SkipSpacesBack(t, 0, |t|) == |t|;
    assert t[0..|t|] == t;
  }

  /** A string with no white space at either end comes back from `strip()` with one trailing newline removed. */
  lemma StripTrailingNewline(s: string)
    requires s == [] || (!IsSpace(s[0]) && !IsSpace(s[|s| - 1]))
    ensures Strip(s + "\n") == s
  {
    var t := s + "\n";
    if s == [] {
      assert SkipSpaces(t, 0) == 1;
      assert SkipSpacesBack(t, 1, 1) == 1;
    } else {
      assert SkipSpaces(t, 0) == 0;
      assert SkipSpacesBack(t, 0, |t|) == SkipSpacesBack(t, 0, |s|) == |s|;
      assert t[0..|s|] == s;
    }
  }

  // ---------------------------------------------------------------------------
  // str.split(sep) and its inverse sep.join(parts)
  // ---------------------------------------------------------------------------

  /** `s.split(sep)` for a one-character separator: never empty, no piece holds `sep`. */
  function Split(s: string, sep: char): (parts: seq<string>)
    ensures |parts| >= 1
    ensures forall k :: 0 <= k < |parts| ==> sep !in parts[k]
    decreases |s|
  {
    if |s| == 0 then [""]
    else
      var tail := Split(s[1..], sep);
      if s[0] == sep then [""] + tail
      else [[s[0]] + tail[0]] + tail[1..]
  }

  /** `sep.join(parts)`. */
  function JoinWith(parts: seq<string>, sep: char): string
    decreases |parts|
  {
    if |parts| == 0 then ""
    else if |parts| == 1 then parts[0]
    else parts[0] + [sep] + JoinWith(parts[1..], sep)
  }

  /** Joining a leading piece in front of more pieces puts one separator between them. */
  lemma JoinCons(first: string, rest: seq<string>, sep: char)
    requires |rest| > 0
    ensures JoinWith([first] + rest, sep) == first + [sep] + JoinWith(rest, sep)
  {
    assert ([first] + rest)[1..] == rest;
  }

  /** A leading piece that holds the separator joins like the two pieces it is made of. */
  lemma JoinPiece(a: string, b: string, rest: seq<string>, sep: char)
    ensures JoinWith([a + [sep] + b] + rest, sep) == JoinWith([a, b] + rest, sep)
  {
    assert [a, b] + rest == [a] + ([b] + rest);
    JoinCons(a, [b] + rest, sep);
    if |rest| > 0 {
      JoinCons(a + [sep] + b, rest, sep);
      JoinCons(b, rest, sep);
    } else {
      assert [a + [sep] + b] + rest == [a + [sep] + b];
      assert [b] + rest == [b];
    }
  }

  /** Joining the pieces of a split with the same separator gives the string back. */
  lemma {:induction false} JoinSplit(s: string, sep: char)
    ensures JoinWith(Split(s, sep), sep) == s
    decreases |s|
  {
    if |s| > 0 {
      var tail := Split(s[1..], sep);
      JoinSplit(s[1..], sep);
      if s[0] == sep {
        assert Split(s, sep) == [""] + tail;
        assert ([""] + tail)[1..] == tail;
        assert s == [sep] + s[1..];
      } else {
        var parts := [[s[0]] + tail[0]] + tail[1..];
        assert Split(s, sep) == parts;
        if |tail| == 1 {
          assert JoinWith(parts, sep) == [s[0]] + tail[0];
        } else {
          assert parts[1..] == tail[1..];
          assert JoinWith(tail, sep) == tail[0] + [sep] + JoinWith(tail[1..], sep);
        }
        assert s == [s[0]] + s[1..];
      }
    }
  }

  /** Splitting a join of separator-free pieces gives the pieces back. */
  lemma {:induction false} SplitJoin(parts: seq<string>, sep: char)
    requires |parts| >= 1
    requires forall k :: 0 <= k < |parts| ==> sep !in parts[k]
    ensures Split(JoinWith(parts, sep), sep) == parts
    decreases |parts|, |parts[0]|
  {
    var p := parts[0];
    if |p| > 0 {
      // peel the first character of the first piece
      var rest := [p[1..]] + parts[1..];
      assert rest[1..] == parts[1..];
      assert JoinWith(parts, sep) == [p[0]] + JoinWith(rest, sep) by {
        if |parts| > 1 {
          assert p == [p[0]] + p[1..];
        }
      }
      assert sep !in p[1..] by {
        assert forall c :: c in p[1..] ==> c in p;
      }
      SplitJoin(rest, sep);
      assert p[0] != sep;
      var s := JoinWith(parts, sep);
      assert s[1..] == JoinWith(rest, sep);
      assert [p[0]] + p[1..] == p;
      assert parts == [p] + parts[1..];
    } else if |parts| > 1 {
      var s := JoinWith(parts, sep);
      assert s == [sep] + JoinWith(parts[1..], sep);
      assert s[1..] == JoinWith(parts[1..], sep);
      SplitJoin(parts[1..], sep);
      assert parts == [""] + parts[1..];
    }
  }
}
