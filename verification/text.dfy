/** The JavaScript string operations the screens rely on, over `seq<char>`.
    Case mapping is restricted to ASCII letters: every fixture is ASCII. */
module Text {

  /** `toLowerCase` on one character (ASCII letters only). */
  function LowerChar(c: char): char {
    if 'A' <= c <= 'Z' then (c as int + 32) as char else c
  }

  /** `toUpperCase` on one character (ASCII letters only). */
  function UpperChar(c: char): char {
    if 'a' <= c <= 'z' then (c as int - 32) as char else c
  }

  function Lower(s: string): (r: string)
    ensures |r| == |s|
    ensures forall i | 0 <= i < |s| :: r[i] == LowerChar(s[i])
  {
    if |s| == 0 then [] else [LowerChar(s[0])] + Lower(s[1..])
  }

  function Upper(s: string): (r: string)
    ensures |r| == |s|
    ensures forall i | 0 <= i < |s| :: r[i] == UpperChar(s[i])
  {
    if |s| == 0 then [] else [UpperChar(s[0])] + Upper(s[1..])
  }

  /** Lower-casing twice is lower-casing once. */
  lemma LowerIdempotent(s: string)
    ensures Lower(Lower(s)) == Lower(s)
  {
  }

  /** Upper-casing forgets the original letter case: two spellings that
      differ only in ASCII case upper-case to the same string. */
  lemma UpperIgnoresCase(s: string)
    ensures Upper(Lower(s)) == Upper(s)
  {
  }

  /** `s.startsWith(p)`. */
  predicate StartsWith(s: string, p: string) {
    |p| <= |s| && s[..|p|] == p
  }

  /** `s.includes(p)`: `p` occurs in `s` at some offset. */
  predicate Includes(s: string, p: string) {
    exists i | 0 <= i <= |s| - |p| :: StartsWith(s[i..], p)
  }

  /** Every string includes the empty string and itself. */
  lemma IncludesTrivial(s: string)
    ensures Includes(s, "")
    ensures Includes(s, s)
  {
    assert StartsWith(s[0..], "");
    assert StartsWith(s[0..], s);
  }

  /** `s.split(sep)` for a one-character separator: the maximal runs between
      separators, so `k` separators give `k + 1` pieces (some may be empty). */
  function Split(s: string, sep: char): (r: seq<string>)
    ensures |r| >= 1
    ensures forall k | 0 <= k < |r| :: sep !in r[k]
    decreases |s|
  {
    if |s| == 0 then [""]
    else
      var rest := Split(s[1..], sep);
      if s[0] == sep then [""] + rest
      else [[s[0]] + rest[0]] + rest[1..]
  }

  /** `words.join(sep)`: the inverse of `Split`. */
  function Join(words: seq<string>, sep: char): string
    decreases |words|
  {
    if |words| == 0 then ""
    else if |words| == 1 then words[0]
    else words[0] + [sep] + Join(words[1..], sep)
  }

  /** Splitting and re-joining on the same separator gives back the string. */
  lemma {:induction false} JoinSplit(s: string, sep: char)
    ensures Join(Split(s, sep), sep) == s
    decreases |s|
  {
    if |s| > 0 {
      var rest := Split(s[1..], sep);
      JoinSplit(s[1..], sep);
      if s[0] == sep {
        assert Split(s, sep)[1..] == rest;
        assert s == [sep] + s[1..];
      } else {
        var w := Split(s, sep);
        assert w[0] == [s[0]] + rest[0];
        if |rest| == 1 {
          assert s == [s[0]] + rest[0];
        } else {
          assert w[1..] == rest[1..];
          assert Join(rest, sep) == rest[0] + [sep] + Join(rest[1..], sep);
          assert s == [s[0]] + s[1..];
        }
      }
    }
  }

  /** `s.split(' ').some(word => word.startsWith(p))`. */
  predicate SomeWordStartsWith(s: string, p: string) {
    var words := Split(s, ' ');
    exists k | 0 <= k < |words| :: StartsWith(words[k], p)
  }

  /** Positions where a word begins: the start, and just after a separator. */
  predicate WordStart(s: string, i: int, sep: char) {
    0 <= i <= |s| && (i == 0 || s[i - 1] == sep)
  }

  /** A word of `s` starts with `p` exactly when `p` has no space and `p`
      occurs in `s` at a word boundary. */
  lemma SomeWordStartsWithIff(s: string, p: string)
    ensures SomeWordStartsWith(s, p) <==>
            ' ' !in p && exists i | WordStart(s, i, ' ') :: StartsWith(s[i..], p)
  {
    var words := Split(s, ' ');
    FirstWordStartsWith(s, p, ' ');
    LaterWordStartsWithIff(s, p, ' ');
    if SomeWordStartsWith(s, p) {
      var k :| 0 <= k < |words| && StartsWith(words[k], p);
      if k == 0 {
        assert WordStart(s, 0, ' ') && StartsWith(s[0..], p);
      } else {
        var i :| 1 <= i <= |s| && s[i - 1] == ' ' && ' ' !in p && StartsWith(s[i..], p);
        assert WordStart(s, i, ' ');
      }
    }
    if ' ' !in p && exists i | WordStart(s, i, ' ') :: StartsWith(s[i..], p) {
      var i :| WordStart(s, i, ' ') && StartsWith(s[i..], p);
      if i == 0 {
        assert s[0..] == s;
        assert StartsWith(words[0], p);
      } else {
        assert 1 <= i <= |s| && s[i - 1] == ' ' && ' ' !in p && StartsWith(s[i..], p);
      }
    }
  }

  /** The first piece of a split starts with `p` exactly when `s` does and
      `p` holds no separator. */
  lemma {:induction false} FirstWordStartsWith(s: string, p: string, sep: char)
    ensures StartsWith(Split(s, sep)[0], p) <==> sep !in p && StartsWith(s, p)
    decreases |s|
  {
    if |s| > 0 && s[0] != sep {
      var rest := Split(s[1..], sep);
      if |p| > 0 {
        FirstWordStartsWith(s[1..], p[1..], sep);
        assert p == [p[0]] + p[1..];
        var w := Split(s, sep)[0];
        assert w == [s[0]] + rest[0];
        assert StartsWith(w, p) <==> p[0] == s[0] && StartsWith(rest[0], p[1..]);
        assert StartsWith(s, p) <==> p[0] == s[0] && StartsWith(s[1..], p[1..]);
      }
    }
  }

  /** Some piece after the first starts with `p`. */
  predicate LaterWordStartsWith(s: string, p: string, sep: char) {
    var words := Split(s, sep);
    exists k | 1 <= k < |words| :: StartsWith(words[k], p)
  }

  /** `p` holds no separator and occurs right after a separator in `s`. */
  predicate StartsAfterSeparator(s: string, p: string, sep: char) {
    sep !in p && exists i | 1 <= i <= |s| && s[i - 1] == sep :: StartsWith(s[i..], p)
  }

  lemma {:induction false} LaterWordStartsWithIff(s: string, p: string, sep: char)
    ensures LaterWordStartsWith(s, p, sep) <==> StartsAfterSeparator(s, p, sep)
    decreases |s|
  {
    if |s| > 0 {
      var t := s[1..];
      LaterWordStartsWithIff(t, p, sep);
      FirstWordStartsWith(t, p, sep);
      LaterWordsUnfold(s, p, sep);
      AfterSeparatorUnfold(s, p, sep);
    }
  }

  /** How the later pieces of `s` relate to the pieces of `s[1..]`. */
  lemma LaterWordsUnfold(s: string, p: string, sep: char)
    requires |s| > 0
    ensures LaterWordStartsWith(s, p, sep) <==>
            (if s[0] == sep then StartsWith(Split(s[1..], sep)[0], p) || LaterWordStartsWith(s[1..], p, sep)
             else LaterWordStartsWith(s[1..], p, sep))
  {
    var rest := Split(s[1..], sep);
    var words := Split(s, sep);
    if s[0] == sep {
      assert words[1..] == rest;
      if LaterWordStartsWith(s[1..], p, sep) {
        var k :| 1 <= k < |rest| && StartsWith(rest[k], p);
        assert StartsWith(words[k + 1], p);
      }
      if LaterWordStartsWith(s, p, sep) {
        var k :| 1 <= k < |words| && StartsWith(words[k], p);
        assert StartsWith(rest[k - 1], p);
      }
    } else {
      assert words[1..] == rest[1..];
      if LaterWordStartsWith(s[1..], p, sep) {
        var k :| 1 <= k < |rest| && StartsWith(rest[k], p);
        assert StartsWith(words[k], p);
      }
    }
  }

  /** How separator positions in `s` relate to those in `s[1..]`. */
  lemma AfterSeparatorUnfold(s: string, p: string, sep: char)
    requires |s| > 0
    ensures StartsAfterSeparator(s, p, sep) <==>
            (s[0] == sep && sep !in p && StartsWith(s[1..], p)) || StartsAfterSeparator(s[1..], p, sep)
  {
    var t := s[1..];
    if StartsAfterSeparator(s, p, sep) {
      var i :| 1 <= i <= |s| && s[i - 1] == sep && StartsWith(s[i..], p);
      if i > 1 {
        assert t[i - 1..] == s[i..];
      }
    }
    if StartsAfterSeparator(t, p, sep) {
      var j :| 1 <= j <= |t| && t[j - 1] == sep && StartsWith(t[j..], p);
      assert s[j + 1..] == t[j..];
    }
  }

  // ---------------------------------------------------------------------
  // Decimal rendering of natural numbers (template literals, `padStart`).

  predicate IsDigit(c: char) {
    '0' <= c <= '9'
  }

  predicate AllDigits(s: string) {
    forall i | 0 <= i < |s| :: IsDigit(s[i])
  }

  function DigitChar(d: nat): char
    requires d < 10
  {
    ('0' as int + d) as char
  }

  /** `${n}` for a natural number: its decimal digits, without leading zeros. */
  function ShowNat(n: nat): (r: string)
    ensures |r| >= 1 && AllDigits(r)
    ensures n < 10 <==> |r| == 1
    decreases n
  {
    if n < 10 then [DigitChar(n)] else ShowNat(n / 10) + [DigitChar(n % 10)]
  }

  /** The value of a string of decimal digits (the empty string reads as 0). */
  function ReadDigits(s: string): nat
    requires AllDigits(s)
    decreases |s|
  {
    if |s| == 0 then 0
    else 10 * ReadDigits(s[..|s| - 1]) + (s[|s| - 1] as int - '0' as int)
  }

  /** Rendering a number and reading it back gives the number. */
  lemma {:induction false} ReadShowNat(n: nat)
    ensures ReadDigits(ShowNat(n)) == n
    decreases n
  {
    if n >= 10 {
      ReadShowNat(n / 10);
      var s := ShowNat(n);
      assert s[..|s| - 1] == ShowNat(n / 10);
    }
  }

  /** `s.padStart(width, fill)` for a one-character fill. */
  function PadStart(s: string, width: nat, fill: char): (r: string)
    ensures |r| == if |s| < width then width else |s|
    ensures r[|r| - |s|..] == s
    ensures forall i | 0 <= i < |r| - |s| :: r[i] == fill
  {
    if |s| >= width then s else seq(width - |s|, _ => fill) + s
  }

  /** Leading zeros do not change the value read. */
  lemma {:induction false} ReadDigitsLeadingZeros(z: string, s: string)
    requires forall i | 0 <= i < |z| :: z[i] == '0'
    requires AllDigits(s)
    ensures AllDigits(z + s) && ReadDigits(z + s) == ReadDigits(s)
    decreases |s|
  {
    if |s| == 0 {
      assert z + s == z;
      ReadZeros(z);
    } else {
      var s' := s[..|s| - 1];
      assert (z + s)[..|z + s| - 1] == z + s';
      ReadDigitsLeadingZeros(z, s');
    }
  }

  lemma {:induction false} ReadZeros(z: string)
    requires forall i | 0 <= i < |z| :: z[i] == '0'
    ensures AllDigits(z) && ReadDigits(z) == 0
    decreases |z|
  {
    if |z| > 0 {
      ReadZeros(z[..|z| - 1]);
    }
  }

  /** How many decimal digits `s` starts with. */
  function DigitPrefixLength(s: string): (r: nat)
    ensures r <= |s| && AllDigits(s[..r])
    ensures r < |s| ==> !IsDigit(s[r])
    decreases |s|
  {
    if |s| == 0 || !IsDigit(s[0]) then 0
    else
      var k := DigitPrefixLength(s[1..]);
      assert s[..k + 1] == [s[0]] + s[1..][..k];
      k + 1
  }

  /** Reads the number a string starts with; returns it and the rest. */
  function ReadNumber(s: string): (nat, string) {
    var k := DigitPrefixLength(s);
    (ReadDigits(s[..k]), s[k..])
  }

  /** Reading back a rendered number stops at the first non-digit. */
  lemma {:induction false} DigitPrefixOfDigits(a: string, b: string)
    requires AllDigits(a)
    requires |b| == 0 || !IsDigit(b[0])
    ensures DigitPrefixLength(a + b) == |a|
    decreases |a|
  {
    if |a| > 0 {
      assert (a + b)[1..] == a[1..] + b;
      DigitPrefixOfDigits(a[1..], b);
    } else {
      assert a + b == b;
    }
  }

  /** A number rendered by `ShowNat` and followed by a non-digit reads back. */
  lemma ReadNumberShowNat(n: nat, rest: string)
    requires |rest| == 0 || !IsDigit(rest[0])
    ensures ReadNumber(ShowNat(n) + rest) == (n, rest)
  {
    var s := ShowNat(n);
    DigitPrefixOfDigits(s, rest);
    assert (s + rest)[..|s|] == s;
    assert (s + rest)[|s|..] == rest;
    ReadShowNat(n);
  }
}
