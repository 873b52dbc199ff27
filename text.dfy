/**
 * Python string primitives used by the summarizer, stated on `seq<char>`
 * (a Python `str` is a sequence of code points, and so is a Dafny `string`).
 *
 *  - `SplitLines`   : `s.split('\n')`
 *  - `Strip`        : `s.strip()` with Python's whitespace set
 *  - `Lower`        : `s.lower()`, restricted to the ASCII letters
 *  - `LStripChars`  : `s.lstrip(chars)`
 *  - `Contains`     : `w in s`
 *  - `StartsWithAny`: `s.startswith((p1, p2, ...))`
 */
module Text {

  /** Python's `str.isspace()` for one code point. */
  predicate IsSpace(c: char) {
    || c == ' '
    || ('\t' <= c <= '\r')                  // \t \n \x0b \x0c \r
    || ('\U{1C}' <= c <= '\U{1F}')          // file, group, record, unit separators
    || c == '\U{85}' || c == '\U{A0}' || c == '\U{1680}'
    || ('\U{2000}' <= c <= '\U{200A}')
    || c == '\U{2028}' || c == '\U{2029}' || c == '\U{202F}' || c == '\U{205F}'
    || c == '\U{3000}'
  }

  predicate AllSpace(s: string) {
    forall k :: 0 <= k < |s| ==> IsSpace(s[k])
  }

  // ---------------------------------------------------------------------------
  // s.split('\n')
  // ---------------------------------------------------------------------------

  /** The pieces of `s` between newline characters; always at least one piece. */
  function SplitLines(s: string): (r: seq<string>)
    ensures |r| >= 1
    ensures forall k :: 0 <= k < |r| ==> '\n' !in r[k]
    decreases |s|
  {
    if |s| == 0 then [""]
    else
      var rest := SplitLines(s[1..]);
      if s[0] == '\n' then [""] + rest
      else [[s[0]] + rest[0]] + rest[1..]
  }

  /** `"\n".join(pieces)` */
  function JoinLines(pieces: seq<string>): string
    decreases |pieces|
  {
    if |pieces| == 0 then ""
    else if |pieces| == 1 then pieces[0]
    else pieces[0] + "\n" + JoinLines(pieces[1..])
  }

  /** Joining the pieces with newlines gives back the text. */
  lemma {:induction false} JoinSplitLines(s: string)
    ensures JoinLines(SplitLines(s)) == s
    decreases |s|
  {
    if |s| > 0 {
      var rest := SplitLines(s[1..]);
      JoinSplitLines(s[1..]);
      if s[0] == '\n' {
        assert s == [s[0]] + s[1..];
      } else {
        var head := [s[0]] + rest[0];
        if |rest| == 1 {
          assert s == [s[0]] + s[1..];
        } else {
          assert SplitLines(s)[1..] == rest[1..];
          assert JoinLines(rest) == rest[0] + "\n" + JoinLines(rest[1..]);
          assert s == [s[0]] + s[1..];
        }
      }
    }
  }

  /** Splitting newline-free pieces joined by newlines gives back the pieces. */
  lemma {:induction false} SplitJoinLines(pieces: seq<string>)
    requires |pieces| >= 1
    requires forall k :: 0 <= k < |pieces| ==> '\n' !in pieces[k]
    ensures SplitLines(JoinLines(pieces)) == pieces
    decreases |pieces|
  {
    if |pieces| == 1 {
      NoNewlineSplit(pieces[0]);
    } else {
      SplitJoinLines(pieces[1..]);
      SplitAfterPiece(pieces[0], JoinLines(pieces[1..]));
    }
  }

  lemma {:induction false} NoNewlineSplit(s: string)
    requires '\n' !in s
    ensures SplitLines(s) == [s]
    decreases |s|
  {
    if |s| > 0 {
      NoNewlineSplit(s[1..]);
      assert s == [s[0]] + s[1..];
    }
  }

  /** Splitting `a + "\n" + b` where `a` has no newline. */
  lemma {:induction false} SplitAfterPiece(a: string, b: string)
    requires '\n' !in a
    ensures SplitLines(a + "\n" + b) == [a] + SplitLines(b)
    decreases |a|
  {
    if |a| == 0 {
      assert a + "\n" + b == "\n" + b;
      assert ("\n" + b)[1..] == b;
    } else {
      SplitAfterPiece(a[1..], b);
      assert (a + "\n" + b)[1..] == a[1..] + "\n" + b;
      assert a == [a[0]] + a[1..];
    }
  }

  /** Every piece of an all-whitespace text is all whitespace. */
  lemma {:induction false} SplitAllSpace(s: string)
    requires AllSpace(s)
    ensures forall k :: 0 <= k < |SplitLines(s)| ==> AllSpace(SplitLines(s)[k])
    decreases |s|
  {
    if |s| > 0 {
      SplitAllSpace(s[1..]);
      var rest := SplitLines(s[1..]);
      if s[0] != '\n' {
        var head := [s[0]] + rest[0];
        assert AllSpace(rest[0]);
        assert AllSpace(head) by {
          forall k | 0 <= k < |head| ensures IsSpace(head[k]) {
            if k > 0 { assert head[k] == rest[0][k - 1]; }
          }
        }
        assert forall k :: 1 <= k < |SplitLines(s)| ==> SplitLines(s)[k] == rest[k];
      } else {
        assert forall k :: 1 <= k < |SplitLines(s)| ==> SplitLines(s)[k] == rest[k - 1];
      }
    }
  }

  // ---------------------------------------------------------------------------
  // s.strip()
  // ---------------------------------------------------------------------------

  /** `s.lstrip()`: drops the leading whitespace. */
  function TrimStart(s: string): (r: string)
    ensures |r| <= |s| && r == s[|s| - |r|..]
    ensures r == "" || !IsSpace(r[0])
    ensures AllSpace(s[..|s| - |r|])
    decreases |s|
  {
    if |s| > 0 && IsSpace(s[0]) then
      var r := TrimStart(s[1..]);
      assert s[..|s| - |r|] == [s[0]] + s[1..][..|s| - 1 - |r|];
      r
    else s
  }

  /** `s.rstrip()`: drops the trailing whitespace. */
  function TrimEnd(s: string): (r: string)
    ensures |r| <= |s| && r == s[..|r|]
    ensures r == "" || !IsSpace(r[|r| - 1])
    ensures AllSpace(s[|r|..])
    decreases |s|
  {
    if |s| > 0 && IsSpace(s[|s| - 1]) then
      var r := TrimEnd(s[..|s| - 1]);
      assert s[|r|..] == s[..|s| - 1][|r|..] + [s[|s| - 1]];
      r
    else s
  }

  /** `s.strip()`: the text without leading and trailing whitespace; empty
      exactly when the text is all whitespace. */
  function Strip(s: string): (r: string)
    ensures r == "" <==> AllSpace(s)
    ensures r != "" ==> !IsSpace(r[0]) && !IsSpace(r[|r| - 1])
    ensures |r| <= |s|
  {
    var t := TrimStart(s);
    var r := TrimEnd(t);
    StripBounds(s, t, r);
    r
  }

  lemma StripBounds(s: string, t: string, r: string)
    requires t == TrimStart(s) && r == TrimEnd(t)
    ensures r == "" <==> AllSpace(s)
    ensures r != "" ==> !IsSpace(r[0])
  {
    if r == "" {
      assert t[|r|..] == t;
      assert |t| == 0;
      assert s[..|s| - |t|] == s;
    } else {
      assert r[0] == t[0];
    }
  }

  /** The stripped text is the lstripped text cut before its trailing
      whitespace; with `TrimStart`'s contract and `MiddleSlice` this makes
      it the middle of `s` with only whitespace on either side. */
  lemma StripSlice(s: string)
    ensures |Strip(s)| <= |TrimStart(s)|
    ensures Strip(s) == TrimStart(s)[..|Strip(s)|]
    ensures AllSpace(TrimStart(s)[|Strip(s)|..])
  {
    assert Strip(s) == TrimEnd(TrimStart(s));
  }

  /** A prefix `r` of a suffix `t` of `s`, followed in `t` only by
      whitespace, is a slice of `s` followed only by whitespace. */
  lemma MiddleSlice(s: string, t: string, r: string)
    requires |t| <= |s| && t == s[|s| - |t|..]
    requires |r| <= |t| && r == t[..|r|]
    requires AllSpace(t[|r|..])
    ensures r == s[|s| - |t|..|s| - |t| + |r|]
    ensures AllSpace(s[|s| - |t| + |r|..])
  {
    SliceOfSuffix(s, |s| - |t|, |r|);
  }

  /** `s.strip()` is a middle slice of `s` with only whitespace on either
      side of it. */
  lemma StripMiddle(s: string)
    ensures exists i, j :: 0 <= i <= j <= |s| && Strip(s) == s[i..j] && AllSpace(s[..i]) && AllSpace(s[j..])
  {
    StripSlice(s);
    MiddleSlice(s, TrimStart(s), Strip(s));
    var i := |s| - |TrimStart(s)|;
    var j := i + |Strip(s)|;
    assert 0 <= i <= j <= |s| && Strip(s) == s[i..j] && AllSpace(s[..i]) && AllSpace(s[j..]);
  }

  lemma SliceOfSuffix(s: string, i: nat, n: nat)
    requires i + n <= |s|
    ensures s[i..][..n] == s[i..i + n] && s[i..][n..] == s[i + n..]
  {
  }

  /** Stripping twice is stripping once. */
  lemma StripIdempotent(s: string)
    ensures Strip(Strip(s)) == Strip(s)
  {
    var r := Strip(s);
    if r != "" {
      assert TrimStart(r) == r;
      assert TrimEnd(r) == r;
    }
  }

  /** A text with no whitespace at either end is its own stripped form. */
  lemma StripTrimmed(s: string)
    requires s != "" && !IsSpace(s[0]) && !IsSpace(s[|s| - 1])
    ensures Strip(s) == s
  {
    assert TrimStart(s) == s;
    assert TrimEnd(s) == s;
  }

  // ---------------------------------------------------------------------------
  // s.lower(), w in s, s.startswith(...), s.lstrip(chars)
  // ---------------------------------------------------------------------------

  function LowerChar(c: char): char {
    if 'A' <= c <= 'Z' then (c as int + 32) as char else c
  }

  /** `s.lower()` on the ASCII letters; other code points are kept. */
  function Lower(s: string): (r: string)
    ensures |r| == |s|
    ensures forall k :: 0 <= k < |s| ==> r[k] == LowerChar(s[k])
  {
    seq(|s|, k requires 0 <= k < |s| => LowerChar(s[k]))
  }

  /** A text without upper-case ASCII letters is its own lower-cased form. */
  lemma LowerUnchanged(s: string)
    requires forall k :: 0 <= k < |s| ==> !('A' <= s[k] <= 'Z')
    ensures Lower(s) == s
  {
  }

  /** A word with a character that is not a lower-case ASCII letter and does
      not occur in `s` does not occur in `s.lower()`. */
  lemma LowerLacks(s: string, w: string, c: char)
    requires c in w && c !in s && !('a' <= c <= 'z')
    ensures !Contains(Lower(s), w)
  {
    var j :| 0 <= j < |w| && w[j] == c;
    forall i | 0 <= i <= |s| - |w| ensures !OccursAt(Lower(s), w, i) {
      assert Lower(s)[i..i + |w|][j] == LowerChar(s[i + j]);
      assert s[i + j] in s;
    }
  }

  /** `w` occurs in `s` starting at index `i`. */
  predicate OccursAt(s: string, w: string, i: int) {
    0 <= i && i + |w| <= |s| && s[i..i + |w|] == w
  }

  /** `w in s`: `w` occurs in `s` as a contiguous substring. */
  predicate Contains(s: string, w: string) {
    exists i | 0 <= i <= |s| - |w| :: OccursAt(s, w, i)
  }

  /** An occurrence inside a part of `s` is an occurrence in `s`. */
  lemma OccursAtShift(s: string, part: string, offset: nat, w: string, j: nat)
    requires offset + |part| <= |s| && s[offset..offset + |part|] == part
    requires OccursAt(part, w, j)
    ensures OccursAt(s, w, offset + j)
  {
    forall i | 0 <= i < |w| ensures s[offset + j + i] == w[i] {
      assert s[offset..offset + |part|][j + i] == part[j + i];
      assert part[j..j + |w|][i] == part[j + i];
    }
  }

  /** Whatever a suffix of `s` contains, `s` contains. */
  lemma ContainsInSuffix(s: string, k: nat, w: string)
    requires k <= |s|
    requires Contains(s[k..], w)
    ensures Contains(s, w)
  {
    var i :| 0 <= i <= |s[k..]| - |w| && OccursAt(s[k..], w, i);
    assert s[k..][i..i + |w|] == s[k + i..k + i + |w|];
    assert OccursAt(s, w, k + i);
  }

  /** `any(w in s for w in words)` */
  predicate ContainsAny(s: string, words: seq<string>)
    decreases |words|
  {
    |words| > 0 && (Contains(s, words[0]) || ContainsAny(s, words[1..]))
  }

  lemma {:induction false} ContainsAnyInSuffix(s: string, k: nat, words: seq<string>)
    requires k <= |s|
    requires ContainsAny(s[k..], words)
    ensures ContainsAny(s, words)
    decreases |words|
  {
    if Contains(s[k..], words[0]) {
      ContainsInSuffix(s, k, words[0]);
    } else {
      ContainsAnyInSuffix(s, k, words[1..]);
    }
  }

  /** `s.startswith(tuple(prefixes))` */
  predicate StartsWithAny(s: string, prefixes: seq<string>)
    decreases |prefixes|
  {
    |prefixes| > 0 && (prefixes[0] <= s || StartsWithAny(s, prefixes[1..]))
  }

  /** `s.lstrip(chars)`: drops the longest prefix made of characters in `chars`. */
  function LStripChars(s: string, chars: string): (r: string)
    ensures |r| <= |s| && r == s[|s| - |r|..]
    ensures r == "" || r[0] !in chars
    ensures forall k :: 0 <= k < |s| - |r| ==> s[k] in chars
    decreases |s|
  {
    if |s| > 0 && s[0] in chars then LStripChars(s[1..], chars) else s
  }

  /** `s.lstrip(chars)` drops exactly the first `n` characters when they are
      all in `chars` and the next one is not. */
  lemma {:induction false} LStripCharsAt(s: string, chars: string, n: nat)
    requires n <= |s|
    requires forall k :: 0 <= k < n ==> s[k] in chars
    requires n == |s| || s[n] !in chars
    ensures LStripChars(s, chars) == s[n..]
  {
    if n > 0 {
      LStripCharsAt(s[1..], chars, n - 1);
      assert s[1..][n - 1..] == s[n..];
    }
  }
}
