/** String helpers shared by the parser, the validators and the error
    classifiers: Python's whitespace class, ASCII case folding, substring
    search and decimal digit runs. */
module Text {
  import opened Wrappers

  /** The characters Python's `str.isspace` (and so `\s` and `str.strip`) treat as whitespace. */
  predicate IsSpace(c: char) {
    c == ' ' || ('\t' <= c <= '\r') || ('\U{1C}' <= c <= '\U{1F}')
    || c == '\U{85}' || c == '\U{A0}' || c == '\U{1680}'
    || ('\U{2000}' <= c <= '\U{200A}') || c == '\U{2028}' || c == '\U{2029}'
    || c == '\U{202F}' || c == '\U{205F}' || c == '\U{3000}'
  }

  predicate IsDigit(c: char) { '0' <= c <= '9' }

  predicate IsHexDigit(c: char) {
    IsDigit(c) || ('a' <= c <= 'f') || ('A' <= c <= 'F')
  }

  function HexDigitValue(c: char): (v: nat)
    requires IsHexDigit(c)
    ensures v < 16
  {
    if IsDigit(c) then c as nat - '0' as nat
    else if 'a' <= c <= 'f' then c as nat - 'a' as nat + 10
    else c as nat - 'A' as nat + 10
  }

  /** Upper-case hexadecimal digit for 0..15, as Python's `:X` format writes it. */
  function HexDigitChar(v: nat): (c: char)
    requires v < 16
    ensures IsHexDigit(c) && HexDigitValue(c) == v
    ensures !('a' <= c <= 'f')
  {
    if v < 10 then ('0' as nat + v) as char else ('A' as nat + v - 10) as char
  }

  /** ASCII lower-casing of one character. */
  function LowerChar(c: char): char {
    if 'A' <= c <= 'Z' then (c as int + 32) as char else c
  }

  function Lower(s: string): (r: string)
    ensures |r| == |s|
    ensures forall i :: 0 <= i < |s| ==> r[i] == LowerChar(s[i])
  {
    seq(|s|, i requires 0 <= i < |s| => LowerChar(s[i]))
  }

  predicate StartsWith(s: string, p: string) {
    |p| <= |s| && s[..|p|] == p
  }

  predicate EndsWith(s: string, p: string) {
    |p| <= |s| && s[|s| - |p|..] == p
  }

  predicate ContainsAt(s: string, p: string, i: nat) {
    i + |p| <= |s| && s[i..i + |p|] == p
  }

  /** Python's `p in s`. */
  predicate Contains(s: string, p: string) {
    exists i :: 0 <= i <= |s| - |p| && ContainsAt(s, p, i)
  }

  /** The first index at or after `from` where `p` occurs in `s`. */
  function FindFrom(s: string, p: string, from: nat): (r: Option<nat>)
    decreases |s| - from
    ensures r.Some? ==> from <= r.value && ContainsAt(s, p, r.value)
    ensures r.Some? ==> forall j :: from <= j < r.value ==> !ContainsAt(s, p, j)
    ensures r.None? ==> forall j :: from <= j ==> !ContainsAt(s, p, j)
  {
    if from + |p| > |s| then None
    else if s[from..from + |p|] == p then Some(from)
    else FindFrom(s, p, from + 1)
  }

  lemma FindFromContains(s: string, p: string)
    ensures FindFrom(s, p, 0).Some? <==> Contains(s, p)
  {
    if Contains(s, p) {
      var i :| 0 <= i <= |s| - |p| && ContainsAt(s, p, i);
    }
  }

  /** Characters stripped from the left by `str.lstrip()` with no argument. */
  function TrimLeft(s: string): (r: string)
    ensures |r| <= |s| && r == s[|s| - |r|..]
    ensures r == [] || !IsSpace(r[0])
    ensures forall i :: 0 <= i < |s| - |r| ==> IsSpace(s[i])
  {
    if |s| > 0 && IsSpace(s[0]) then
      var r := TrimLeft(s[1..]);
      assert s[1..][|s| - 1 - |r|..] == s[|s| - |r|..];
      assert forall i :: 1 <= i < |s| - |r| ==> s[1..][i - 1] == s[i];
      r
    else s
  }

  function TrimRight(s: string): (r: string)
    ensures |r| <= |s| && r == s[..|r|]
    ensures r == [] || !IsSpace(r[|r| - 1])
    ensures forall i :: |r| <= i < |s| ==> IsSpace(s[i])
  {
    if |s| > 0 && IsSpace(s[|s| - 1]) then
      var r := TrimRight(s[..|s| - 1]);
      assert s[..|s| - 1][..|r|] == s[..|r|];
      r
    else s
  }

  /** Every character of `s[lo..hi]` is whitespace. */
  predicate SpacesBetween(s: string, lo: nat, hi: nat)
    requires lo <= hi <= |s|
  {
    forall i :: lo <= i < hi ==> IsSpace(s[i])
  }

  /** `r` is a slice of `s` whose left and right neighbourhoods in `s` are all whitespace. */
  predicate SliceBetweenSpaces(s: string, r: string) {
    exists a: nat, b: nat :: a <= b <= |s| && r == s[a..b] && SpacesBetween(s, 0, a) && SpacesBetween(s, b, |s|)
  }

  /** Python's `str.strip()`: both ends trimmed of whitespace. The result is
      the slice of `s` left between a leading and a trailing run of whitespace. */
  function Strip(s: string): (r: string)
    ensures r == [] || (!IsSpace(r[0]) && !IsSpace(r[|r| - 1]))
    ensures r == [] <==> SpacesBetween(s, 0, |s|)
    ensures SliceBetweenSpaces(s, r)
  {
    StripEnds(s);
    StripEmpty(s);
    StripSlice(s);
    TrimLeft(TrimRight(s))
  }

  /** Trimming the right end and then the left leaves a slice between two
      runs of whitespace. */
  lemma TrimmedSlice(s: string)
    ensures var t := TrimRight(s); var r := TrimLeft(t);
      && |r| <= |t| <= |s| && r == s[|t| - |r|..|t|]
      && SpacesBetween(s, 0, |t| - |r|) && SpacesBetween(s, |t|, |s|)
  {
    TrimmedSliceIs(s);
    TrimmedAfterLeading(s);
  }

  /** What is left after stripping the right end and then the left is a slice of the text. */
  lemma TrimmedSliceIs(s: string)
    ensures var t := TrimRight(s); var r := TrimLeft(t);
      |r| <= |t| <= |s| && r == s[|t| - |r|..|t|]
  {
    var t := TrimRight(s);
    var r := TrimLeft(t);
    assert s[..|t|][|t| - |r|..] == s[|t| - |r|..|t|];
  }

  /** The characters the left trim removes after the right trim are whitespace in the text. */
  lemma TrimmedAfterLeading(s: string)
    ensures var t := TrimRight(s); var r := TrimLeft(t);
      |r| <= |t| <= |s| && SpacesBetween(s, 0, |t| - |r|) && SpacesBetween(s, |t|, |s|)
  {
    var t := TrimRight(s);
    var r := TrimLeft(t);
    forall i | 0 <= i < |t| - |r| ensures IsSpace(s[i]) { assert t[i] == s[i]; }
  }

  /** Neither end of the stripped text is whitespace. */
  lemma StripEnds(s: string)
    ensures var r := TrimLeft(TrimRight(s)); r == [] || (!IsSpace(r[0]) && !IsSpace(r[|r| - 1]))
  {
    var t := TrimRight(s);
    var r := TrimLeft(t);
    if r != [] {
      assert r[|r| - 1] == t[|t| - 1];
    }
  }

  /** The stripped text is empty exactly when all of `s` is whitespace. */
  lemma StripEmpty(s: string)
    ensures TrimLeft(TrimRight(s)) == [] <==> SpacesBetween(s, 0, |s|)
  {
    var t := TrimRight(s);
    var r := TrimLeft(t);
    TrimmedSlice(s);
    if r != [] {
      assert r[0] == s[|t| - |r|];
    }
  }

  /** The stripped text is the slice of `s` between its leading and trailing whitespace. */
  lemma StripSlice(s: string)
    ensures SliceBetweenSpaces(s, TrimLeft(TrimRight(s)))
  {
    var t := TrimRight(s);
    var r := TrimLeft(t);
    TrimmedSlice(s);
    var a: nat, b: nat := |t| - |r|, |t|;
    assert a <= b <= |s| && r == s[a..b] && SpacesBetween(s, 0, a) && SpacesBetween(s, b, |s|);
  }

  predicate AllDigits(s: string) {
    forall i :: 0 <= i < |s| ==> IsDigit(s[i])
  }

  /** The value of a string of decimal digits, as Python's `int` reads it. */
  function DecimalValue(s: string): nat
    requires AllDigits(s)
  {
    if s == [] then 0 else 10 * DecimalValue(s[..|s| - 1]) + (s[|s| - 1] as nat - '0' as nat)
  }

  /** The end of the maximal run of characters satisfying `IsDigit` that starts at `i`. */
  function DigitRunEnd(s: string, i: nat): (e: nat)
    requires i <= |s|
    decreases |s| - i
    ensures i <= e <= |s|
    ensures AllDigits(s[i..e])
    ensures e == |s| || !IsDigit(s[e])
  {
    if i < |s| && IsDigit(s[i]) then DigitRunEnd(s, i + 1) else i
  }

  /** The end of the maximal whitespace run starting at `i` (what a greedy `\s*` consumes). */
  function SpaceRunEnd(s: string, i: nat): (e: nat)
    requires i <= |s|
    decreases |s| - i
    ensures i <= e <= |s|
    ensures forall k :: i <= k < e ==> IsSpace(s[k])
    ensures e == |s| || !IsSpace(s[e])
  {
    if i < |s| && IsSpace(s[i]) then SpaceRunEnd(s, i + 1) else i
  }

  /** Decimal rendering of a natural number, as Python's `str(int)`. */
  function NatToString(n: nat): (r: string)
    ensures |r| > 0 && AllDigits(r)
    ensures DecimalValue(r) == n
  {
    var d := ((n % 10) + '0' as nat) as char;
    if n < 10 then [d]
    else
      var r := NatToString(n / 10) + [d];
      assert r[..|r| - 1] == NatToString(n / 10);
      r
  }
}
