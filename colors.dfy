/** Colour deduplication (`Aggregator._deduplicate_colors` and its nested
    helpers in src/aggregation/aggregator.py). The colours of all images are
    grouped — a colour joins the first group whose first member has the same
    lower-cased name or a hex code within RGB distance 50 — then each group
    is merged (name of its highest-coverage member, averaged hex code, summed
    coverage capped at 100), and the three best-covered merged colours are
    kept. A hex code that does not parse is only skipped by the grouping
    test; the averaging step has no such guard, so it makes the whole
    deduplication fail with the conversion error. */
module Colors {
  import opened Wrappers
  import opened Text
  import opened Schema

  // ---------------------------------------------------------------------
  // hex_to_rgb, rgb_distance, average_hex

  datatype Rgb = Rgb(r: int, g: int, b: int) {
    predicate Valid() { 0 <= r < 256 && 0 <= g < 256 && 0 <= b < 256 }
  }

  /** `lstrip('#')`: every leading '#' goes. */
  function StripHashes(s: string): (r: string)
    ensures |r| <= |s| && r == s[|s| - |r|..]
    ensures r == [] || r[0] != '#'
    ensures forall i :: 0 <= i < |s| - |r| ==> s[i] == '#'
  {
    if s != [] && s[0] == '#' then StripHashes(s[1..]) else s
  }

  /** A single leading '#' is stripped from a code that has no second one. */
  lemma StripsOneHash(t: string)
    requires t == [] || t[0] != '#'
    ensures StripHashes("#" + t) == t
  {
    assert ("#" + t)[1..] == t;
  }

  /** Python's `s[i:j]`, whose bounds are cut back to the length of `s`. */
  function Slice(s: string, i: nat, j: nat): string
    requires i <= j
  {
    if |s| <= i then [] else if |s| <= j then s[i..] else s[i..j]
  }

  lemma SliceAt(s: string, i: nat, j: nat)
    requires i <= j
    ensures |Slice(s, i, j)| == (if |s| <= i then 0 else if |s| <= j then |s| - i else j - i)
    ensures forall k :: 0 <= k < |Slice(s, i, j)| ==> Slice(s, i, j)[k] == s[i + k]
  {
  }

  predicate AllHex(s: string) {
    forall i :: 0 <= i < |s| ==> IsHexDigit(s[i])
  }

  function HexValue(s: string): (v: nat)
    requires AllHex(s)
    ensures |s| <= 1 ==> v < 16
    ensures |s| <= 2 ==> v < 256
  {
    if s == [] then 0 else HexValue(s[..|s| - 1]) * 16 + HexDigitValue(s[|s| - 1])
  }

  /** The message of the ValueError that `int(s, 16)` raises. */
  function HexParseError(s: string): string {
    "invalid literal for int() with base 16: '" + s + "'"
  }

  /** `int(s, 16)` on a slice of a colour code: one or more hexadecimal digits. */
  function ParseHexByte(s: string): (r: Result<nat>)
    ensures r.Success? <==> 1 <= |s| && AllHex(s)
    ensures r.Success? ==> r.value == HexValue(s)
    ensures r.Failure? ==> r.error == HexParseError(s)
  {
    if 1 <= |s| && AllHex(s) then Success(HexValue(s)) else Failure(HexParseError(s))
  }

  /** `hex_to_rgb`: the three two-character slices after the leading '#'s, each read in base 16. */
  function HexToRgb(hex: string): (r: Result<Rgb>)
    ensures r.Success? ==> r.value.Valid()
  {
    var t := StripHashes(hex);
    var r := ParseHexByte(Slice(t, 0, 2));
    var g := ParseHexByte(Slice(t, 2, 4));
    var b := ParseHexByte(Slice(t, 4, 6));
    if r.Failure? then Failure(r.error)
    else if g.Failure? then Failure(g.error)
    else if b.Failure? then Failure(b.error)
    else Success(Rgb(r.value, g.value, b.value))
  }

  function Min(a: int, b: int): int { if a <= b then a else b }

  /** All three slices of the stripped code are non-empty runs of hexadecimal digits. */
  predicate SlicesParse(t: string) {
    && 1 <= |Slice(t, 0, 2)| && AllHex(Slice(t, 0, 2))
    && 1 <= |Slice(t, 2, 4)| && AllHex(Slice(t, 2, 4))
    && 1 <= |Slice(t, 4, 6)| && AllHex(Slice(t, 4, 6))
  }

  lemma SlicesParseIff(t: string)
    ensures SlicesParse(t) <==> 5 <= |t| && forall k :: 0 <= k < Min(6, |t|) ==> IsHexDigit(t[k])
  {
    SliceAt(t, 0, 2);
    SliceAt(t, 2, 4);
    SliceAt(t, 4, 6);
    if 5 <= |t| && !SlicesParse(t) {
      var k :| 0 <= k < Min(6, |t|) && !IsHexDigit(t[k]) by {
        if !AllHex(Slice(t, 0, 2)) {
          var j :| 0 <= j < |Slice(t, 0, 2)| && !IsHexDigit(Slice(t, 0, 2)[j]);
          assert t[j] == Slice(t, 0, 2)[j];
        } else if !AllHex(Slice(t, 2, 4)) {
          var j :| 0 <= j < |Slice(t, 2, 4)| && !IsHexDigit(Slice(t, 2, 4)[j]);
          assert t[2 + j] == Slice(t, 2, 4)[j];
        } else {
          var j :| 0 <= j < |Slice(t, 4, 6)| && !IsHexDigit(Slice(t, 4, 6)[j]);
          assert t[4 + j] == Slice(t, 4, 6)[j];
        }
      }
    }
  }

  /** A code parses exactly when five or more characters follow the '#'s and the first
      six of them (or all, if fewer) are hexadecimal digits; anything after the sixth is ignored. */
  lemma HexToRgbSucceeds(hex: string)
    ensures var t := StripHashes(hex);
      HexToRgb(hex).Success? <==> 5 <= |t| && forall k :: 0 <= k < Min(6, |t|) ==> IsHexDigit(t[k])
  {
    assert HexToRgb(hex).Success? <==> SlicesParse(StripHashes(hex));
    SlicesParseIff(StripHashes(hex));
  }

  /** Three-digit shorthand is not expanded: "#FFF" fails, and so does an empty code. */
  lemma ShortCodesFail()
    ensures HexToRgb("#FFF").Failure?
    ensures HexToRgb("").Failure?
  {
    StripsOneHash("FFF");
    assert "#FFF" == "#" + "FFF";
    assert Slice("FFF", 4, 6) == [];
    assert Slice("", 0, 2) == [];
  }

  /** The square of `rgb_distance`; `rgb_distance(a, b) < 50` holds exactly when this is below 2500. */
  function SquaredDistance(a: Rgb, b: Rgb): (d: int)
    ensures d >= 0
  {
    (a.r - b.r) * (a.r - b.r) + (a.g - b.g) * (a.g - b.g) + (a.b - b.b) * (a.b - b.b)
  }

  /** Two digits of the `:02X` format, upper case. */
  function HexByte(v: int): (s: string)
    requires 0 <= v < 256
    ensures |s| == 2 && AllHex(s) && HexValue(s) == v
  {
    var s := [HexDigitChar(v / 16), HexDigitChar(v % 16)];
    assert s[..1] == [s[0]];
    assert [s[0]][..0] == [];
    s
  }

  /** `f"#{r:02X}{g:02X}{b:02X}"`. */
  function FormatHex(c: Rgb): (s: string)
    requires c.Valid()
    ensures |s| == 7 && s[0] == '#'
  {
    "#" + HexByte(c.r) + HexByte(c.g) + HexByte(c.b)
  }

  /** The six digits of a formatted code are upper-case hexadecimal digits. */
  lemma FormatHexDigits(c: Rgb)
    requires c.Valid()
    ensures forall i :: 1 <= i < 7 ==> IsHexDigit(FormatHex(c)[i]) && !('a' <= FormatHex(c)[i] <= 'f')
  {
    var s := FormatHex(c);
    assert s[1..3] == HexByte(c.r) && s[3..5] == HexByte(c.g) && s[5..7] == HexByte(c.b);
    assert forall i :: 1 <= i < 3 ==> s[i] == HexByte(c.r)[i - 1];
    assert forall i :: 3 <= i < 5 ==> s[i] == HexByte(c.g)[i - 3];
    assert forall i :: 5 <= i < 7 ==> s[i] == HexByte(c.b)[i - 5];
  }

  lemma ThreeSlices(x: string, y: string, z: string)
    requires |x| == 2 && |y| == 2 && |z| == 2
    ensures Slice(x + y + z, 0, 2) == x && Slice(x + y + z, 2, 4) == y && Slice(x + y + z, 4, 6) == z
  {
    var t := x + y + z;
    assert t[0..2] == x;
    assert t[2..4] == y;
    assert t[4..6] == z;
  }

  /** Formatting a colour and reading it back gives the colour. */
  lemma FormatHexRoundTrip(c: Rgb)
    requires c.Valid()
    ensures HexToRgb(FormatHex(c)) == Success(c)
  {
    var x, y, z := HexByte(c.r), HexByte(c.g), HexByte(c.b);
    assert FormatHex(c) == "#" + (x + y + z);
    assert IsHexDigit(x[0]);
    StripsOneHash(x + y + z);
    ThreeSlices(x, y, z);
  }

  /** `hex_to_rgb` applied to every code of a list, the first failure propagating. */
  function ParseAll(hexes: seq<string>): (r: Result<seq<Rgb>>)
    ensures r.Success? ==> |r.value| == |hexes|
  {
    MapResults(HexToRgb, hexes)
  }

  /** Every colour `ParseAll` yields is in range. */
  lemma ParseAllValid(hexes: seq<string>)
    ensures ParseAll(hexes).Success? ==> AllValid(ParseAll(hexes).value)
  {
    if ParseAll(hexes).Success? {
      MapResultsSuccess(HexToRgb, hexes);
    }
  }

  function SumR(cs: seq<Rgb>): int { if cs == [] then 0 else SumR(cs[..|cs| - 1]) + cs[|cs| - 1].r }
  function SumG(cs: seq<Rgb>): int { if cs == [] then 0 else SumG(cs[..|cs| - 1]) + cs[|cs| - 1].g }
  function SumB(cs: seq<Rgb>): int { if cs == [] then 0 else SumB(cs[..|cs| - 1]) + cs[|cs| - 1].b }

  predicate AllValid(cs: seq<Rgb>) { forall i :: 0 <= i < |cs| ==> cs[i].Valid() }

  lemma {:induction false} SumBounds(cs: seq<Rgb>)
    requires AllValid(cs)
    ensures 0 <= SumR(cs) <= 255 * |cs| && 0 <= SumG(cs) <= 255 * |cs| && 0 <= SumB(cs) <= 255 * |cs|
  {
    if cs != [] { SumBounds(cs[..|cs| - 1]); }
  }

  lemma DivBound(s: int, n: int)
    requires n > 0 && 0 <= s <= 255 * n
    ensures 0 <= s / n <= 255
  {
    var q := s / n;
    assert s == q * n + s % n;
  }

  /** The channel-wise mean, truncated as `int(sum / len)` truncates a non-negative quotient. */
  function AverageRgb(cs: seq<Rgb>): (a: Rgb)
    requires |cs| > 0 && AllValid(cs)
    ensures a.Valid()
  {
    SumBounds(cs);
    DivBound(SumR(cs), |cs|);
    DivBound(SumG(cs), |cs|);
    DivBound(SumB(cs), |cs|);
    Rgb(SumR(cs) / |cs|, SumG(cs) / |cs|, SumB(cs) / |cs|)
  }

  /** `average_hex`: fails with the first code that does not parse. */
  function AverageHex(hexes: seq<string>): (r: Result<string>)
    requires |hexes| > 0
  {
    match ParseAll(hexes)
    case Failure(e) => Failure(e)
    case Success(cs) =>
      ParseAllValid(hexes);
      Success(FormatHex(AverageRgb(cs)))
  }

  /** `average_hex` succeeds exactly when every code parses; its result is a
      canonical seven-character code that parses again; a failure carries the
      error of the first code that does not parse. */
  lemma AverageHexResult(hexes: seq<string>)
    requires |hexes| > 0
    ensures AverageHex(hexes).Success? <==> forall i :: 0 <= i < |hexes| ==> HexToRgb(hexes[i]).Success?
    ensures AverageHex(hexes).Success? ==> |AverageHex(hexes).value| == 7 && HexToRgb(AverageHex(hexes).value).Success?
    ensures AverageHex(hexes).Failure? ==>
      exists k :: 0 <= k < |hexes| && HexToRgb(hexes[k]) == Failure(AverageHex(hexes).error)
              && forall i :: 0 <= i < k ==> HexToRgb(hexes[i]).Success?
  {
    MapResultsSuccess(HexToRgb, hexes);
    if AverageHex(hexes).Success? {
      ParseAllValid(hexes);
      FormatHexRoundTrip(AverageRgb(ParseAll(hexes).value));
    } else {
      MapResultsFailed(HexToRgb, hexes);
    }
  }

  lemma {:induction false} SumsOfCopies(c: Rgb, cs: seq<Rgb>)
    requires forall i :: 0 <= i < |cs| ==> cs[i] == c
    ensures SumR(cs) == |cs| * c.r && SumG(cs) == |cs| * c.g && SumB(cs) == |cs| * c.b
  {
    if cs != [] { SumsOfCopies(c, cs[..|cs| - 1]); }
  }

  /** Averaging copies of one colour normalises its code to "#RRGGBB" and changes nothing else. */
  lemma AverageOfOneColour(hexes: seq<string>, c: Rgb)
    requires c.Valid()
    requires |hexes| > 0 && forall i :: 0 <= i < |hexes| ==> HexToRgb(hexes[i]) == Success(c)
    ensures AverageHex(hexes) == Success(FormatHex(c))
  {
    MapResultsSuccess(HexToRgb, hexes);
    ParseAllValid(hexes);
    var cs := ParseAll(hexes).value;
    assert forall i :: 0 <= i < |cs| ==> cs[i] == c;
    SumsOfCopies(c, cs);
    MulDivCancel(|cs|, c.r);
    MulDivCancel(|cs|, c.g);
    MulDivCancel(|cs|, c.b);
    assert AverageRgb(cs) == c;
  }

  lemma MulDivCancel(n: int, x: int)
    requires n > 0
    ensures (n * x) / n == x
  {
    var q := (n * x) / n;
    var r := (n * x) % n;
    assert n * x == n * q + r;
    assert n * (x - q) == r;
    if x - q >= 1 {
      MulAtLeast(n, x - q);
    } else if x - q <= -1 {
      MulAtLeast(n, q - x);
    }
  }

  lemma MulAtLeast(n: int, d: int)
    requires n > 0 && d >= 1
    ensures n * d >= n
  {
    assert n * d == n + n * (d - 1);
  }

  // ---------------------------------------------------------------------
  // Grouping

  /** The grouping test of `c` against a group whose first member is `head`: equal
      lower-cased names, or codes that both parse and lie within distance 50. */
  predicate Matches(c: DominantColor, head: DominantColor) {
    Lower(c.color) == Lower(head.color)
    || (HexToRgb(c.hexApproximation).Success? && HexToRgb(head.hexApproximation).Success?
        && SquaredDistance(HexToRgb(c.hexApproximation).value, HexToRgb(head.hexApproximation).value) < 2500)
  }

  predicate NonEmptyGroups(groups: seq<seq<DominantColor>>) {
    forall g :: 0 <= g < |groups| ==> |groups[g]| > 0
  }

  /** The first group, at or after `from`, whose first member `c` matches. */
  function FirstMatchFrom(groups: seq<seq<DominantColor>>, c: DominantColor, from: nat): (r: Option<nat>)
    requires NonEmptyGroups(groups)
    decreases |groups| - from
    ensures r.Some? ==> from <= r.value < |groups| && Matches(c, groups[r.value][0])
    ensures r.Some? ==> forall g :: from <= g < r.value ==> !Matches(c, groups[g][0])
    ensures r.None? ==> forall g :: from <= g < |groups| ==> !Matches(c, groups[g][0])
  {
    if from >= |groups| then None
    else if Matches(c, groups[from][0]) then Some(from)
    else FirstMatchFrom(groups, c, from + 1)
  }

  /** One step of the outer grouping loop: `c` joins the first matching group or opens a new one. */
  function AddToGroups(groups: seq<seq<DominantColor>>, c: DominantColor): (r: seq<seq<DominantColor>>)
    requires NonEmptyGroups(groups)
    ensures NonEmptyGroups(r)
  {
    match FirstMatchFrom(groups, c, 0)
    case Some(g) => groups[g := groups[g] + [c]]
    case None => groups + [[c]]
  }

  /** The groups the grouping loop builds from `colors`. */
  function Grouped(colors: seq<DominantColor>): (groups: seq<seq<DominantColor>>)
    ensures NonEmptyGroups(groups)
  {
    if colors == [] then [] else AddToGroups(Grouped(colors[..|colors| - 1]), colors[|colors| - 1])
  }

  function Flatten(groups: seq<seq<DominantColor>>): seq<DominantColor> {
    if groups == [] then [] else groups[0] + Flatten(groups[1..])
  }

  /** What the grouping guarantees: every member matches its group's first member, and
      no member matches the first member of an earlier group. */
  predicate WellGrouped(groups: seq<seq<DominantColor>>) {
    && NonEmptyGroups(groups)
    && (forall g, k :: 0 <= g < |groups| && 0 <= k < |groups[g]| ==> Matches(groups[g][k], groups[g][0]))
    && (forall g, k, h :: 0 <= h < g < |groups| && 0 <= k < |groups[g]| ==> !Matches(groups[g][k], groups[h][0]))
  }

  lemma {:induction false} FlattenAppend(groups: seq<seq<DominantColor>>, last: seq<DominantColor>)
    ensures Flatten(groups + [last]) == Flatten(groups) + last
  {
    if groups != [] {
      assert (groups + [last])[1..] == groups[1..] + [last];
      FlattenAppend(groups[1..], last);
    }
  }

  lemma {:induction false} FlattenUpdate(groups: seq<seq<DominantColor>>, g: nat, c: DominantColor)
    requires g < |groups|
    ensures multiset(Flatten(groups[g := groups[g] + [c]])) == multiset(Flatten(groups)) + multiset{c}
  {
    if g > 0 {
      assert groups[g := groups[g] + [c]][1..] == groups[1..][g - 1 := groups[1..][g - 1] + [c]];
      FlattenUpdate(groups[1..], g - 1, c);
    }
  }

  lemma {:induction false} FlattenLength(groups: seq<seq<DominantColor>>)
    requires NonEmptyGroups(groups)
    ensures |groups| <= |Flatten(groups)|
  {
    if groups != [] { FlattenLength(groups[1..]); }
  }

  /** Joining the first matching group keeps the grouping well formed. */
  lemma JoinKeepsWellGrouped(gs: seq<seq<DominantColor>>, g: nat, c: DominantColor)
    requires WellGrouped(gs)
    requires FirstMatchFrom(gs, c, 0) == Some(g)
    ensures WellGrouped(gs[g := gs[g] + [c]])
  {
    JoinKeepsMembersMatching(gs, g, c);
    JoinKeepsLaterGroupsApart(gs, g, c);
  }

  lemma JoinKeepsMembersMatching(gs: seq<seq<DominantColor>>, g: nat, c: DominantColor)
    requires NonEmptyGroups(gs) && g < |gs| && Matches(c, gs[g][0])
    requires forall h, k :: 0 <= h < |gs| && 0 <= k < |gs[h]| ==> Matches(gs[h][k], gs[h][0])
    ensures var r := gs[g := gs[g] + [c]];
      forall h, k :: 0 <= h < |r| && 0 <= k < |r[h]| ==> Matches(r[h][k], r[h][0])
  {
    var r := gs[g := gs[g] + [c]];
    forall h, k | 0 <= h < |r| && 0 <= k < |r[h]| ensures Matches(r[h][k], r[h][0]) {
      assert r[h][0] == gs[h][0];
      if h == g && k == |gs[g]| { assert r[h][k] == c; } else { assert r[h][k] == gs[h][k]; }
    }
  }

  lemma JoinKeepsLaterGroupsApart(gs: seq<seq<DominantColor>>, g: nat, c: DominantColor)
    requires NonEmptyGroups(gs) && g < |gs|
    requires forall h :: 0 <= h < g ==> !Matches(c, gs[h][0])
    requires forall h, k, h' :: 0 <= h' < h < |gs| && 0 <= k < |gs[h]| ==> !Matches(gs[h][k], gs[h'][0])
    ensures var r := gs[g := gs[g] + [c]];
      forall h, k, h' :: 0 <= h' < h < |r| && 0 <= k < |r[h]| ==> !Matches(r[h][k], r[h'][0])
  {
    var r := gs[g := gs[g] + [c]];
    forall h, k, h' | 0 <= h' < h < |r| && 0 <= k < |r[h]| ensures !Matches(r[h][k], r[h'][0]) {
      assert r[h'][0] == gs[h'][0];
      if h == g && k == |gs[g]| { assert r[h][k] == c; } else { assert r[h][k] == gs[h][k]; }
    }
  }

  /** Opening a new group for an unmatched colour keeps the grouping well formed. */
  lemma OpenKeepsWellGrouped(gs: seq<seq<DominantColor>>, c: DominantColor)
    requires WellGrouped(gs)
    requires FirstMatchFrom(gs, c, 0).None?
    ensures WellGrouped(gs + [[c]])
  {
    var r := gs + [[c]];
    forall h, k | 0 <= h < |r| && 0 <= k < |r[h]| ensures Matches(r[h][k], r[h][0]) {
      if h < |gs| { assert r[h] == gs[h]; }
    }
    forall h, k, h' | 0 <= h' < h < |r| && 0 <= k < |r[h]| ensures !Matches(r[h][k], r[h'][0]) {
      assert r[h'] == gs[h'];
      if h < |gs| { assert r[h] == gs[h]; }
    }
  }

  /** The grouping is well formed, loses and invents no colour, and makes no more groups than colours. */
  lemma {:induction false} GroupedIsWellGrouped(colors: seq<DominantColor>)
    ensures WellGrouped(Grouped(colors))
    ensures multiset(Flatten(Grouped(colors))) == multiset(colors)
    ensures |Grouped(colors)| <= |colors|
  {
    if colors != [] {
      var init := colors[..|colors| - 1];
      var c := colors[|colors| - 1];
      var gs := Grouped(init);
      GroupedIsWellGrouped(init);
      assert colors == init + [c];
      match FirstMatchFrom(gs, c, 0)
      case Some(g) =>
        FlattenUpdate(gs, g, c);
        JoinKeepsWellGrouped(gs, g, c);
      case None =>
        FlattenAppend(gs, [c]);
        OpenKeepsWellGrouped(gs, c);
    }
  }

  /** Colours that all share one lower-cased name form a single group, in input order. */
  lemma {:induction false} SameNameOneGroup(colors: seq<DominantColor>)
    requires |colors| > 0
    requires forall i :: 0 <= i < |colors| ==> Lower(colors[i].color) == Lower(colors[0].color)
    ensures Grouped(colors) == [colors]
  {
    if |colors| > 1 {
      var init := colors[..|colors| - 1];
      SameNameOneGroup(init);
      assert Matches(colors[|colors| - 1], init[0]);
      assert init + [colors[|colors| - 1]] == colors;
    } else {
      assert colors[..0] == [];
      assert colors == [colors[0]];
      assert Grouped(colors) == [] + [[colors[0]]];
    }
  }

  function Singletons(colors: seq<DominantColor>): (r: seq<seq<DominantColor>>)
    ensures |r| == |colors| && forall i :: 0 <= i < |colors| ==> r[i] == [colors[i]]
  {
    seq(|colors|, i requires 0 <= i < |colors| => [colors[i]])
  }

  /** Colours no two of which match stay in groups of one, in input order. */
  lemma {:induction false} DistinctColoursStaySeparate(colors: seq<DominantColor>)
    requires forall i, j :: 0 <= j < i < |colors| ==> !Matches(colors[i], colors[j])
    ensures Grouped(colors) == Singletons(colors)
  {
    if colors != [] {
      var init := colors[..|colors| - 1];
      var c := colors[|colors| - 1];
      DistinctColoursStaySeparate(init);
      var gs := Grouped(init);
      assert gs == Singletons(init);
      assert FirstMatchFrom(gs, c, 0).None?;
      assert Grouped(colors) == gs + [[c]];
      assert gs + [[c]] == Singletons(colors);
    }
  }

  /** The inner grouping loop for one colour: the scan over the groups, joining the first
      whose first member matches, and the new group when none does. */
  method PlaceColour(groups: seq<seq<DominantColor>>, c: DominantColor) returns (result: seq<seq<DominantColor>>)
    requires NonEmptyGroups(groups)
    ensures result == AddToGroups(groups, c)
  {
    result := groups;
    var merged := false;
    var j := 0;
    while j < |result| && !merged
      invariant 0 <= j <= |groups|
      invariant !merged ==> result == groups && forall h :: 0 <= h < j ==> !Matches(c, groups[h][0])
      invariant merged ==> result == AddToGroups(groups, c)
      decreases |groups| - j, if merged then 0 else 1
    {
      var head := result[j][0];
      if Lower(c.color) == Lower(head.color) {
        result := result[j := result[j] + [c]];
        merged := true;
      } else {
        var cr := HexToRgb(c.hexApproximation);
        var hr := HexToRgb(head.hexApproximation);
        if cr.Success? && hr.Success? && SquaredDistance(cr.value, hr.value) < 2500 {
          result := result[j := result[j] + [c]];
          merged := true;
        } else {
          j := j + 1;
        }
      }
    }
    if !merged {
      result := result + [[c]];
    }
  }

  /** The grouping loops of `_deduplicate_colors`. */
  method GroupColors(colors: seq<DominantColor>) returns (groups: seq<seq<DominantColor>>)
    ensures groups == Grouped(colors)
  {
    groups := [];
    var i := 0;
    while i < |colors|
      invariant 0 <= i <= |colors|
      invariant groups == Grouped(colors[..i])
    {
      groups := PlaceColour(groups, colors[i]);
      assert colors[..i + 1][..i] == colors[..i];
      i := i + 1;
    }
    assert colors[..i] == colors;
  }

  // ---------------------------------------------------------------------
  // Sorting by coverage (Python's stable `sort(key=coverage, reverse=True)`)

  predicate SortedByCoverage(s: seq<DominantColor>) {
    forall i, j :: 0 <= i < j < |s| ==> s[i].coveragePercentage >= s[j].coveragePercentage
  }

  /** Puts `c` in front of the first element whose coverage does not exceed its own. */
  function InsertByCoverage(c: DominantColor, s: seq<DominantColor>): (r: seq<DominantColor>)
    ensures multiset(r) == multiset(s) + multiset{c}
    ensures |r| == |s| + 1
  {
    if s == [] || s[0].coveragePercentage <= c.coveragePercentage then [c] + s
    else
      assert s == [s[0]] + s[1..];
      [s[0]] + InsertByCoverage(c, s[1..])
  }

  /** The descending, stable sort by coverage; each element goes in front of the
      later ones of equal coverage. */
  function SortByCoverage(s: seq<DominantColor>): (r: seq<DominantColor>)
    ensures multiset(r) == multiset(s)
    ensures |r| == |s|
  {
    if s == [] then []
    else
      assert s == [s[0]] + s[1..];
      InsertByCoverage(s[0], SortByCoverage(s[1..]))
  }

  /** Every element of an insertion is the inserted colour or one of `s`. */
  lemma {:induction false} InsertMembers(c: DominantColor, s: seq<DominantColor>)
    ensures forall k :: 0 <= k < |InsertByCoverage(c, s)| ==> InsertByCoverage(c, s)[k] == c || InsertByCoverage(c, s)[k] in s
  {
    if !(s == [] || s[0].coveragePercentage <= c.coveragePercentage) {
      InsertMembers(c, s[1..]);
    }
  }

  lemma {:induction false} InsertKeepsSorted(c: DominantColor, s: seq<DominantColor>)
    requires SortedByCoverage(s)
    ensures SortedByCoverage(InsertByCoverage(c, s))
  {
    if s != [] && s[0].coveragePercentage > c.coveragePercentage {
      InsertKeepsSorted(c, s[1..]);
      var r := InsertByCoverage(c, s[1..]);
      InsertMembers(c, s[1..]);
      forall k | 0 <= k < |r| ensures s[0].coveragePercentage >= r[k].coveragePercentage {
        if r[k] != c {
          var m :| 0 <= m < |s[1..]| && s[1..][m] == r[k];
          assert s[1 + m] == r[k];
        }
      }
      assert InsertByCoverage(c, s) == [s[0]] + r;
    }
  }

  /** The result of the sort is ordered by decreasing coverage. */
  lemma {:induction false} SortIsSorted(s: seq<DominantColor>)
    ensures SortedByCoverage(SortByCoverage(s))
  {
    if s != [] {
      SortIsSorted(s[1..]);
      InsertKeepsSorted(s[0], SortByCoverage(s[1..]));
    }
  }

  /** The elements of coverage `k`, in order. */
  function WithCoverage(s: seq<DominantColor>, k: real): seq<DominantColor> {
    if s == [] then []
    else if s[0].coveragePercentage == k then [s[0]] + WithCoverage(s[1..], k)
    else WithCoverage(s[1..], k)
  }

  lemma {:induction false} InsertStable(c: DominantColor, s: seq<DominantColor>, k: real)
    requires SortedByCoverage(s)
    ensures WithCoverage(InsertByCoverage(c, s), k)
         == if c.coveragePercentage == k then [c] + WithCoverage(s, k) else WithCoverage(s, k)
  {
    if s == [] || s[0].coveragePercentage <= c.coveragePercentage {
      if c.coveragePercentage == k {
        assert ([c] + s)[1..] == s;
      } else {
        assert ([c] + s)[1..] == s;
      }
    } else {
      assert SortedByCoverage(s[1..]);
      InsertStable(c, s[1..], k);
      assert ([s[0]] + InsertByCoverage(c, s[1..]))[1..] == InsertByCoverage(c, s[1..]);
      if c.coveragePercentage == k && s[0].coveragePercentage == k {
        assert false;
      }
    }
  }

  /** The sort is stable: the elements of any one coverage keep their input order. */
  lemma {:induction false} SortIsStable(s: seq<DominantColor>, k: real)
    ensures WithCoverage(SortByCoverage(s), k) == WithCoverage(s, k)
  {
    if s != [] {
      SortIsStable(s[1..], k);
      SortIsSorted(s[1..]);
      InsertStable(s[0], SortByCoverage(s[1..]), k);
    }
  }

  /** The first member of greatest coverage. */
  function FirstMaxIndex(s: seq<DominantColor>): (i: nat)
    requires |s| > 0
    ensures i < |s|
    ensures forall j :: 0 <= j < |s| ==> s[j].coveragePercentage <= s[i].coveragePercentage
    ensures forall j :: 0 <= j < i ==> s[j].coveragePercentage < s[i].coveragePercentage
  {
    if |s| == 1 then 0
    else
      var m := FirstMaxIndex(s[1..]);
      if s[0].coveragePercentage >= s[1 + m].coveragePercentage then 0 else 1 + m
  }

  lemma {:induction false} InsertHead(c: DominantColor, s: seq<DominantColor>)
    requires s != []
    ensures InsertByCoverage(c, s)[0] == if s[0].coveragePercentage <= c.coveragePercentage then c else s[0]
  {
  }

  /** `sorted(group, key=coverage, reverse=True)[0]` is the first member of greatest coverage. */
  lemma {:induction false} SortHeadIsFirstMax(s: seq<DominantColor>)
    requires |s| > 0
    ensures SortByCoverage(s)[0] == s[FirstMaxIndex(s)]
  {
    if |s| > 1 {
      SortHeadIsFirstMax(s[1..]);
      InsertHead(s[0], SortByCoverage(s[1..]));
    }
  }

  // ---------------------------------------------------------------------
  // Merging

  function SumCoverage(s: seq<DominantColor>): real {
    if s == [] then 0.0 else SumCoverage(s[..|s| - 1]) + s[|s| - 1].coveragePercentage
  }

  function MinReal(a: real, b: real): real { if a <= b then a else b }

  predicate AllColoursValid(s: seq<DominantColor>) {
    forall i :: 0 <= i < |s| ==> s[i].Valid()
  }

  lemma {:induction false} SumCoverageNonNegative(s: seq<DominantColor>)
    requires AllColoursValid(s)
    ensures SumCoverage(s) >= 0.0
  {
    if s != [] { SumCoverageNonNegative(s[..|s| - 1]); }
  }

  function Hexes(s: seq<DominantColor>): (r: seq<string>)
    ensures |r| == |s| && forall i :: 0 <= i < |s| ==> r[i] == s[i].hexApproximation
  {
    seq(|s|, i requires 0 <= i < |s| => s[i].hexApproximation)
  }

  /** Every code of `s` parses. */
  predicate HexesParse(s: seq<DominantColor>) {
    s == [] || (HexToRgb(s[0].hexApproximation).Success? && HexesParse(s[1..]))
  }

  lemma {:induction false} HexesParseIff(s: seq<DominantColor>)
    ensures HexesParse(s) <==> forall i :: 0 <= i < |s| ==> HexToRgb(s[i].hexApproximation).Success?
  {
    if s != [] {
      var rest := s[1..];
      HexesParseIff(rest);
      assert HexesParse(s) <==> HexToRgb(s[0].hexApproximation).Success? && HexesParse(rest);
      forall i | 1 <= i < |s| ensures rest[i - 1] == s[i] { }
    }
  }

  /** One group merged into one colour. */
  function MergeGroup(group: seq<DominantColor>): (r: Result<DominantColor>)
    requires |group| > 0 && AllColoursValid(group)
    ensures r.Success? ==> r.value.Valid()
  {
    SumCoverageNonNegative(group);
    var name := SortByCoverage(group)[0].color;
    match AverageHex(Hexes(group))
    case Failure(e) => Failure(e)
    case Success(h) => Success(DominantColor(name, h, MinReal(100.0, SumCoverage(group))))
  }

  /** The merged colour takes the name of the group's first member of greatest coverage,
      the capped sum of the coverages and a six-digit averaged code; a failure carries the
      error of a code in the group. */
  lemma MergeGroupResult(group: seq<DominantColor>)
    requires |group| > 0 && AllColoursValid(group)
    ensures MergeGroup(group).Success? <==> HexesParse(group)
    ensures var r := MergeGroup(group);
      && (r.Success? ==> r.value.color == group[FirstMaxIndex(group)].color)
      && (r.Success? ==> r.value.coveragePercentage == MinReal(100.0, SumCoverage(group)))
      && (r.Success? ==> |r.value.hexApproximation| == 7 && HexToRgb(r.value.hexApproximation).Success?)
      && (r.Failure? ==> exists i :: 0 <= i < |group| && HexToRgb(group[i].hexApproximation) == Failure(r.error))
  {
    HexesParseIff(group);
    AverageHexResult(Hexes(group));
    SortHeadIsFirstMax(group);
  }

  predicate AllGroupsValid(groups: seq<seq<DominantColor>>) {
    NonEmptyGroups(groups) && forall g :: 0 <= g < |groups| ==> AllColoursValid(groups[g])
  }

  /** The merge loop: the groups merged in order, the first failing group ending it. */
  function Merged(groups: seq<seq<DominantColor>>): (r: Result<seq<DominantColor>>)
    requires AllGroupsValid(groups)
    ensures r.Success? ==> |r.value| == |groups|
  {
    MapResults(MergeGroup, groups)
  }

  /** The merge succeeds exactly when every code of every group parses, and each merged
      colour is then the merge of the group in its position. */
  lemma MergedSuccess(groups: seq<seq<DominantColor>>)
    requires AllGroupsValid(groups)
    ensures Merged(groups).Success? <==> forall g :: 0 <= g < |groups| ==> HexesParse(groups[g])
    ensures Merged(groups).Success? ==> forall g :: 0 <= g < |groups| ==> MergeGroup(groups[g]) == Success(Merged(groups).value[g])
  {
    MapResultsSuccess(MergeGroup, groups);
    forall g | 0 <= g < |groups| ensures MergeGroup(groups[g]).Success? <==> HexesParse(groups[g]) {
      MergeGroupResult(groups[g]);
    }
  }


  /** The result of `_deduplicate_colors`; a failure carries the conversion error of the
      code that broke the averaging. */
  function Deduplicated(all: seq<DominantColor>): Result<seq<DominantColor>>
    requires AllColoursValid(all)
  {
    if all == [] then Success([])
    else
      GroupedAreValid(all);
      match Merged(Grouped(all))
      case Failure(e) => Failure(e)
      case Success(ms) => Success(TopThree(ms))
  }

  /** `merged_colors.sort(key=coverage, reverse=True)` followed by `[:3]`. */
  function TopThree(ms: seq<DominantColor>): (r: seq<DominantColor>)
    ensures |r| == Min(3, |ms|)
  {
    var sorted := SortByCoverage(ms);
    sorted[..Min(3, |sorted|)]
  }

  /** The kept colours are the three of greatest coverage in decreasing order, each one of the merged colours. */
  lemma TopThreeShape(ms: seq<DominantColor>)
    ensures SortedByCoverage(TopThree(ms))
    ensures forall i :: 0 <= i < |TopThree(ms)| ==> TopThree(ms)[i] in ms
  {
    var sorted := SortByCoverage(ms);
    SortIsSorted(ms);
    var r := TopThree(ms);
    forall i | 0 <= i < |r| ensures r[i] in ms {
      assert r[i] == sorted[i];
      assert sorted[i] in multiset(sorted);
    }
  }

  /** The kept colours are drawn from the merged ones with their
      multiplicities, and no colour left out covers more than the last one kept. */
  lemma TopThreeLeavesLess(ms: seq<DominantColor>)
    ensures multiset(TopThree(ms)) <= multiset(ms)
    ensures TopThree(ms) != [] ==>
      forall m :: m in ms && m !in TopThree(ms) ==>
        m.coveragePercentage <= TopThree(ms)[|TopThree(ms)| - 1].coveragePercentage
  {
    var sorted := SortByCoverage(ms);
    var r := TopThree(ms);
    var rest := sorted[|r|..];
    assert sorted == r + rest;
    assert multiset(sorted) == multiset(r) + multiset(rest);
    if r != [] {
      SortIsSorted(ms);
      MultisetMembers(ms, sorted);
      forall m | m in ms && m !in r
        ensures m.coveragePercentage <= r[|r| - 1].coveragePercentage
      {
        var j :| 0 <= j < |sorted| && sorted[j] == m;
        CoverageBelowPrefix(sorted, |r|, j);
      }
    }
  }

  /** In a list sorted by coverage, nothing after the first n covers more than the n-th. */
  lemma CoverageBelowPrefix(sorted: seq<DominantColor>, n: nat, j: nat)
    requires SortedByCoverage(sorted) && 0 < n <= j < |sorted|
    ensures sorted[j].coveragePercentage <= sorted[n - 1].coveragePercentage
  {
  }

  lemma MultisetMembers(a: seq<DominantColor>, b: seq<DominantColor>)
    requires multiset(a) == multiset(b)
    ensures forall x :: x in a <==> x in b
  {
    forall x ensures x in a <==> x in b {
      assert x in a <==> x in multiset(a);
      assert x in b <==> x in multiset(b);
    }
  }

  lemma {:induction false} InFlatten(groups: seq<seq<DominantColor>>, g: nat, k: nat)
    requires g < |groups| && k < |groups[g]|
    ensures groups[g][k] in Flatten(groups)
  {
    if g > 0 { InFlatten(groups[1..], g - 1, k); }
    else { assert Flatten(groups)[k] == groups[0][k]; }
  }

  lemma {:induction false} FlattenMember(groups: seq<seq<DominantColor>>, x: DominantColor)
    requires x in Flatten(groups)
    ensures exists g, k :: 0 <= g < |groups| && 0 <= k < |groups[g]| && groups[g][k] == x
  {
    if x in groups[0] {
      var k :| 0 <= k < |groups[0]| && groups[0][k] == x;
      assert groups[0][k] == x;
    } else {
      FlattenMember(groups[1..], x);
      var g, k :| 0 <= g < |groups[1..]| && 0 <= k < |groups[1..][g]| && groups[1..][g][k] == x;
      assert groups[g + 1][k] == x;
    }
  }

  lemma GroupedAreValid(all: seq<DominantColor>)
    requires AllColoursValid(all)
    ensures AllGroupsValid(Grouped(all))
  {
    var gs := Grouped(all);
    GroupedIsWellGrouped(all);
    MultisetMembers(Flatten(gs), all);
    forall g, k | 0 <= g < |gs| && 0 <= k < |gs[g]| ensures gs[g][k].Valid() {
      InFlatten(gs, g, k);
      var i :| 0 <= i < |all| && all[i] == gs[g][k];
    }
  }

  /** No colours give none; otherwise deduplication fails exactly when some colour's code does not parse. */
  lemma DeduplicatedFailsOnBadHex(all: seq<DominantColor>)
    requires AllColoursValid(all)
    ensures all == [] ==> Deduplicated(all) == Success([])
    ensures Deduplicated(all).Failure? <==> !HexesParse(all)
  {
    if all != [] {
      var gs := Grouped(all);
      GroupedAreValid(all);
      GroupedIsWellGrouped(all);
      MultisetMembers(Flatten(gs), all);
      MergedSuccess(gs);
      HexesParseIff(all);
      if HexesParse(all) {
        forall g | 0 <= g < |gs| ensures HexesParse(gs[g]) {
          forall k | 0 <= k < |gs[g]| ensures HexToRgb(gs[g][k].hexApproximation).Success? {
            InFlatten(gs, g, k);
            var i :| 0 <= i < |all| && all[i] == gs[g][k];
          }
          HexesParseIff(gs[g]);
        }
      } else {
        var i :| 0 <= i < |all| && HexToRgb(all[i].hexApproximation).Failure?;
        assert all[i] in Flatten(gs);
        FlattenMember(gs, all[i]);
        var g, k :| 0 <= g < |gs| && 0 <= k < |gs[g]| && gs[g][k] == all[i];
        HexesParseIff(gs[g]);
        assert !HexesParse(gs[g]);
      }
    }
  }

  /** Every merged colour is valid and carries a seven-character code that parses. */
  lemma MergedColoursWellFormed(groups: seq<seq<DominantColor>>)
    requires AllGroupsValid(groups) && Merged(groups).Success?
    ensures var ms := Merged(groups).value;
      forall i :: 0 <= i < |ms| ==> ms[i].Valid() && |ms[i].hexApproximation| == 7 && HexToRgb(ms[i].hexApproximation).Success?
  {
    MergedSuccess(groups);
    forall g | 0 <= g < |groups| {
      MergeGroupResult(groups[g]);
    }
  }

  /** A successful deduplication keeps at most three colours, at most one per input colour,
      ordered by decreasing coverage, each valid and carrying a six-digit code. */
  lemma DeduplicatedShape(all: seq<DominantColor>)
    requires AllColoursValid(all)
    requires Deduplicated(all).Success?
    ensures var r := Deduplicated(all).value;
      && |r| <= 3 && |r| <= |all|
      && SortedByCoverage(r)
      && AllColoursValid(r)
      && forall i :: 0 <= i < |r| ==> |r[i].hexApproximation| == 7 && HexToRgb(r[i].hexApproximation).Success?
  {
    if all != [] {
      GroupedAreValid(all);
      GroupedIsWellGrouped(all);
      var ms := Merged(Grouped(all)).value;
      MergedColoursWellFormed(Grouped(all));
      assert forall i :: 0 <= i < |ms| ==> WellFormedColour(ms[i]);
      TopThreeWellFormed(ms);
      assert Deduplicated(all).value == TopThree(ms);
    }
  }

  /** A valid colour with a six-digit code that parses. */
  ghost predicate WellFormedColour(c: DominantColor) {
    c.Valid() && |c.hexApproximation| == 7 && HexToRgb(c.hexApproximation).Success?
  }

  /** The kept colours of well-formed merged colours are well-formed and in decreasing coverage. */
  lemma TopThreeWellFormed(ms: seq<DominantColor>)
    requires forall i :: 0 <= i < |ms| ==> WellFormedColour(ms[i])
    ensures var r := TopThree(ms);
      && SortedByCoverage(r) && AllColoursValid(r)
      && forall i :: 0 <= i < |r| ==> |r[i].hexApproximation| == 7 && HexToRgb(r[i].hexApproximation).Success?
  {
    TopThreeShape(ms);
    var r := TopThree(ms);
    forall i | 0 <= i < |r| ensures WellFormedColour(r[i]) {
      var g :| 0 <= g < |ms| && ms[g] == r[i];
      assert WellFormedColour(ms[g]);
    }
  }

  lemma MergeSingleColour(c: DominantColor, rgb: Rgb)
    requires c.Valid() && HexToRgb(c.hexApproximation) == Success(rgb)
    ensures MergeGroup([c]) == Success(DominantColor(c.color, FormatHex(rgb), c.coveragePercentage))
  {
    assert [c][..0] == [];
    assert SumCoverage([c]) == c.coveragePercentage;
    AverageOfOneColour(Hexes([c]), rgb);
    SortHeadIsFirstMax([c]);
  }

  lemma MergedSingleColour(c: DominantColor, rgb: Rgb)
    requires c.Valid() && HexToRgb(c.hexApproximation) == Success(rgb)
    ensures Merged([[c]]) == Success([DominantColor(c.color, FormatHex(rgb), c.coveragePercentage)])
  {
    assert AllColoursValid([c]);
    assert AllGroupsValid([[c]]);
    MergeSingleColour(c, rgb);
    MapResultsSingle(MergeGroup, [c]);
  }

  /** A single colour comes back with its code normalised to "#RRGGBB". */
  lemma DeduplicatedSingleColour(c: DominantColor, rgb: Rgb)
    requires c.Valid() && HexToRgb(c.hexApproximation) == Success(rgb)
    ensures Deduplicated([c]) == Success([DominantColor(c.color, FormatHex(rgb), c.coveragePercentage)])
  {
    var m := DominantColor(c.color, FormatHex(rgb), c.coveragePercentage);
    assert [c][..0] == [];
    assert Grouped([c]) == [[c]];
    MergedSingleColour(c, rgb);
    assert SortByCoverage([m]) == [m];
    assert TopThree([m]) == [m];
  }

  /** `_deduplicate_colors` itself: group, merge, sort, keep three. */
  method DeduplicateColors(all: seq<DominantColor>) returns (r: Result<seq<DominantColor>>)
    requires AllColoursValid(all)
    ensures r == Deduplicated(all)
  {
    if all == [] {
      return Success([]);
    }
    var groups := GroupColors(all);
    GroupedAreValid(all);
    var merged := CollectResults(MergeGroup, groups);
    if merged.Failure? {
      return Failure(merged.error);
    }
    var sorted := SortByCoverage(merged.value);
    return Success(sorted[..Min(3, |sorted|)]);
  }
}
