/**
 * The Python `str` operations the services rely on, over code points
 * (`string` is `seq<char>`): whitespace stripping, prefix and substring
 * search, `split`, `zfill`, ASCII `upper` and decimal rendering of integers.
 */
module PyStr {
  import opened Wrappers

  /** `str.isspace()` of one character; the regular-expression class `\s` matches the same set. */
  predicate IsSpace(c: char) {
    || c == ' '
    || ('\t' <= c <= '\r')
    || ('\U{1C}' <= c <= '\U{1F}')
    || c == '\U{85}' || c == '\U{A0}' || c == '\U{1680}'
    || ('\U{2000}' <= c <= '\U{200A}')
    || c == '\U{2028}' || c == '\U{2029}' || c == '\U{202F}' || c == '\U{205F}' || c == '\U{3000}'
  }

  predicate AllSpace(s: string) {
    forall k :: 0 <= k < |s| ==> IsSpace(s[k])
  }

  /** `s.lstrip()`: drops the longest all-whitespace prefix. */
  function LStrip(s: string): (r: string)
    ensures |r| <= |s| && r == s[|s| - |r|..]
  {
    if s != [] && IsSpace(s[0]) then LStrip(s[1..]) else s
  }

  /** What `lstrip` drops is whitespace. */
  lemma {:induction false} LStripDropsSpace(s: string)
    ensures AllSpace(s[..|s| - |LStrip(s)|])
  {
    if s != [] && IsSpace(s[0]) {
      var t := s[1..];
      LStripDropsSpace(t);
      var m := |s| - |LStrip(s)|;
      forall k | 0 <= k < m ensures IsSpace(s[..m][k]) {
        if k == 0 {
          assert s[..m][0] == s[0];
        } else {
          assert s[..m][k] == t[..m - 1][k - 1];
        }
      }
    }
  }

  /** What `lstrip` keeps starts with a non-space. */
  lemma {:induction false} LStripHead(s: string)
    ensures LStrip(s) != [] ==> !IsSpace(LStrip(s)[0])
  {
    if s != [] && IsSpace(s[0]) {
      LStripHead(s[1..]);
    }
  }

  /** `s.rstrip()`: drops the longest all-whitespace suffix. */
  function RStrip(s: string): (r: string)
    ensures |r| <= |s| && r == s[..|r|]
  {
    if s != [] && IsSpace(s[|s| - 1]) then RStrip(s[..|s| - 1]) else s
  }

  /** What `rstrip` drops is whitespace. */
  lemma {:induction false} RStripDropsSpace(s: string)
    ensures AllSpace(s[|RStrip(s)|..])
  {
    if s != [] && IsSpace(s[|s| - 1]) {
      var t := s[..|s| - 1];
      RStripDropsSpace(t);
      var m := |RStrip(s)|;
      forall k | 0 <= k < |s| - m ensures IsSpace(s[m..][k]) {
        if k < |t| - m {
          assert s[m..][k] == t[m..][k];
        }
      }
    }
  }

  /** What `rstrip` keeps ends with a non-space, and a text that starts with a non-space keeps something. */
  lemma {:induction false} RStripLast(s: string)
    ensures RStrip(s) != [] ==> !IsSpace(RStrip(s)[|RStrip(s)| - 1])
    ensures s != [] && !IsSpace(s[0]) ==> RStrip(s) != []
  {
    if s != [] && IsSpace(s[|s| - 1]) {
      var t := s[..|s| - 1];
      RStripLast(t);
      if !IsSpace(s[0]) {
        assert t[0] == s[0];
      }
    }
  }

  /** `s.strip()`. */
  function Strip(s: string): string {
    RStrip(LStrip(s))
  }

  /** The stripped text is empty exactly when the text is all whitespace; otherwise it is a slice of the text with no whitespace at either end. */
  lemma StripShape(s: string)
    ensures Strip(s) == [] <==> AllSpace(s)
    ensures Strip(s) != [] ==> !IsSpace(Strip(s)[0]) && !IsSpace(Strip(s)[|Strip(s)| - 1])
    ensures exists i, j :: 0 <= i <= j <= |s| && Strip(s) == s[i..j] && AllSpace(s[..i]) && AllSpace(s[j..])
  {
    var i, j := StripSlice(s);
    StripEnds(s);
    StripEmpty(s);
    if Strip(s) == [] {
      assert s[..i] == s;
    } else {
      assert Strip(s)[0] == s[i];
    }
  }

  /** Where the stripped text sits in the text: after what `lstrip` drops. */
  lemma StripSlice(s: string) returns (i: nat, j: nat)
    ensures i <= j <= |s| && Strip(s) == s[i..j] && AllSpace(s[..i]) && AllSpace(s[j..])
    ensures i == |s| - |LStrip(s)|
  {
    var l := LStrip(s);
    i := |s| - |l|;
    var r := RStrip(l);
    j := i + |r|;
    LStripDropsSpace(s);
    RStripDropsSpace(l);
    assert Strip(s) == r;
    assert r == s[i..j];
    assert s[j..] == l[|r|..];
  }

  /** Stripping leaves nothing only when `lstrip` already left nothing. */
  lemma StripEmpty(s: string)
    ensures Strip(s) == [] ==> LStrip(s) == []
  {
    LStripHead(s);
    RStripLast(LStrip(s));
  }

  /** The stripped text neither starts nor ends with whitespace. */
  lemma StripEnds(s: string)
    ensures Strip(s) != [] ==> !IsSpace(Strip(s)[0]) && !IsSpace(Strip(s)[|Strip(s)| - 1])
  {
    var l := LStrip(s);
    var r := RStrip(l);
    assert Strip(s) == r;
    LStripHead(s);
    RStripLast(l);
    if r != [] {
      assert r[0] == l[0];
    }
  }

  /** `s.rstrip(c)` for one character `c`. */
  function RStripChar(s: string, c: char): (r: string)
    ensures |r| <= |s| && r == s[..|r|]
    ensures forall k :: |r| <= k < |s| ==> s[k] == c
    ensures r != [] ==> r[|r| - 1] != c
  {
    if s != [] && s[|s| - 1] == c then RStripChar(s[..|s| - 1], c) else s
  }

  predicate StartsWith(s: string, prefix: string) {
    |prefix| <= |s| && s[..|prefix|] == prefix
  }

  /** `sub` occurs in `s` starting at index `k`. */
  predicate OccursAt(s: string, sub: string, k: int) {
    0 <= k && k + |sub| <= |s| && s[k..k + |sub|] == sub
  }

  /** `sub in s`. */
  predicate Contains(s: string, sub: string) {
    exists k :: 0 <= k <= |s| && OccursAt(s, sub, k)
  }

  /** `s.find(sub, i)`: the leftmost occurrence of `sub` at or after `i`. */
  function FindFrom(s: string, sub: string, i: nat): (r: Option<nat>)
    requires i <= |s|
    ensures r.Some? ==> i <= r.value && OccursAt(s, sub, r.value)
    ensures r.Some? ==> forall k :: i <= k < r.value ==> !OccursAt(s, sub, k)
    ensures r.None? ==> forall k :: i <= k ==> !OccursAt(s, sub, k)
    decreases |s| - i
  {
    if OccursAt(s, sub, i) then Some(i)
    else if i == |s| then None
    else FindFrom(s, sub, i + 1)
  }

  /** `s.split(sep)[-1]`: what follows the last separator found by a left-to-right, non-overlapping scan. */
  function LastPiece(s: string, sep: string): (r: string)
    requires sep != []
    ensures |r| <= |s| && r == s[|s| - |r|..]
    ensures !Contains(r, sep)
    decreases |s|
  {
    match FindFrom(s, sep, 0)
    case None => s
    case Some(i) => LastPiece(s[i + |sep|..], sep)
  }

  /** A piece with no separator in it is its own last piece. */
  lemma LastPieceNoSeparator(s: string, sep: string)
    requires sep != [] && !Contains(s, sep)
    ensures LastPiece(s, sep) == s
  {
  }

  /** The index of the first `c` in `s`. */
  function IndexOf(s: string, c: char): (i: nat)
    requires c in s
    ensures i < |s| && s[i] == c && c !in s[..i]
  {
    if s[0] == c then 0 else 1 + IndexOf(s[1..], c)
  }

  /** `sep.join(parts)` for a one-character separator. */
  function Join(parts: seq<string>, sep: char): string
    requires |parts| >= 1
  {
    if |parts| == 1 then parts[0] else parts[0] + [sep] + Join(parts[1..], sep)
  }

  /** `s.split(c)` for a one-character separator: the pieces between the separators, never empty as a list. */
  function Split(s: string, c: char): (parts: seq<string>)
    ensures |parts| >= 1
    ensures forall i :: 0 <= i < |parts| ==> c !in parts[i]
    ensures |parts| == 1 <==> c !in s
    decreases |s|
  {
    if c !in s then [s]
    else
      var i := IndexOf(s, c);
      [s[..i]] + Split(s[i + 1..], c)
  }

  /** Joining the pieces with the separator gives the original text back. */
  lemma {:induction false} SplitJoin(s: string, c: char)
    ensures Join(Split(s, c), c) == s
    decreases |s|
  {
    if c in s {
      var i := IndexOf(s, c);
      var rest := Split(s[i + 1..], c);
      SplitJoin(s[i + 1..], c);
      var parts := [s[..i]] + rest;
      assert Split(s, c) == parts && |parts| > 1;
      assert parts[0] == s[..i] && parts[1..] == rest;
      assert Join(parts, c) == s[..i] + [c] + Join(rest, c);
      AroundIndex(s, i);
    }
  }

  /** A text is what comes before position `i`, the character at `i` and what follows it. */
  lemma AroundIndex(s: string, i: nat)
    requires i < |s|
    ensures s == s[..i] + [s[i]] + s[i + 1..]
  {
  }

  function Repeat(c: char, n: nat): (r: string)
    ensures |r| == n && forall k :: 0 <= k < n ==> r[k] == c
  {
    if n == 0 then [] else [c] + Repeat(c, n - 1)
  }

  /** `s.zfill(width)`: left-pads with `'0'` to `width`, keeping a leading sign in front. */
  function ZFill(s: string, width: nat): (r: string)
    ensures |s| >= width ==> r == s
    ensures |s| < width ==> |r| == width
  {
    if |s| >= width then s
    else
      var pad := Repeat('0', width - |s|);
      if |s| > 0 && (s[0] == '+' || s[0] == '-') then [s[0]] + pad + s[1..] else pad + s
  }

  predicate IsAsciiDigit(c: char) {
    '0' <= c <= '9'
  }

  predicate AllDigits(s: string) {
    forall k :: 0 <= k < |s| ==> IsAsciiDigit(s[k])
  }

  /** `int(s)` for a string of ASCII digits. */
  function DigitsValue(s: string): nat
    requires AllDigits(s)
  {
    if s == [] then 0 else DigitsValue(s[..|s| - 1]) * 10 + (s[|s| - 1] as int - '0' as int)
  }

  /** Zero padding keeps the value of a digit string and makes it exactly `width` long when it was shorter. */
  lemma {:induction false} ZFillDigits(s: string, width: nat)
    requires AllDigits(s) && s != []
    ensures AllDigits(ZFill(s, width))
    ensures |ZFill(s, width)| == if |s| >= width then |s| else width
    ensures DigitsValue(ZFill(s, width)) == DigitsValue(s)
  {
    if |s| < width {
      assert IsAsciiDigit(s[0]);
      assert ZFill(s, width) == Repeat('0', width - |s|) + s;
      LeadingZeros(width - |s|, s);
    }
  }

  /** Zeros in front do not change the value of a digit string. */
  lemma {:induction false} LeadingZeros(n: nat, s: string)
    requires AllDigits(s)
    ensures AllDigits(Repeat('0', n) + s)
    ensures DigitsValue(Repeat('0', n) + s) == DigitsValue(s)
    decreases |s|
  {
    var z := Repeat('0', n);
    if s == [] {
      assert z + s == z;
      ZerosValue(n);
    } else {
      var init := s[..|s| - 1];
      LeadingZeros(n, init);
      assert (z + s)[..|z + s| - 1] == z + init;
    }
  }

  lemma {:induction false} ZerosValue(n: nat)
    ensures AllDigits(Repeat('0', n)) && DigitsValue(Repeat('0', n)) == 0
  {
    if n > 0 {
      ZerosValue(n - 1);
      var z := Repeat('0', n);
      assert z[..n - 1] == Repeat('0', n - 1);
    }
  }

  function DigitChar(d: nat): (c: char)
    requires d < 10
    ensures IsAsciiDigit(c) && c as int - '0' as int == d
  {
    (d + '0' as int) as char
  }

  /** `str(n)` for a natural number. */
  function NatToDecimal(n: nat): (r: string)
    ensures r != [] && AllDigits(r)
    ensures DigitsValue(r) == n
  {
    if n < 10 then [DigitChar(n)]
    else
      var r := NatToDecimal(n / 10) + [DigitChar(n % 10)];
      assert r[..|r| - 1] == NatToDecimal(n / 10);
      r
  }

  /** `str(n)` for any integer. */
  function IntToDecimal(n: int): string {
    if n < 0 then "-" + NatToDecimal(-n) else NatToDecimal(n)
  }

  /** `str.upper()` on ASCII letters; every other character is kept. */
  function UpperChar(c: char): (u: char)
    ensures 'a' <= c <= 'z' ==> 'A' <= u <= 'Z' && u as int == c as int - 32
    ensures !('a' <= c <= 'z') ==> u == c
  {
    if 'a' <= c <= 'z' then (c as int - 32) as char else c
  }

  function Upper(s: string): (r: string)
    ensures |r| == |s| && forall k :: 0 <= k < |s| ==> r[k] == UpperChar(s[k])
  {
    if s == [] then [] else [UpperChar(s[0])] + Upper(s[1..])
  }
}
