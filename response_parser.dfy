/** The vision response parser (src/vision/response_parser.py): extraction of
    the JSON object from the model's raw text, then strict construction of a
    `ParsedImageAnalysis` from the decoded object. Every failure (no braces,
    a decode error, a missing key, a wrong type, a validator rejection) gives
    `None`; nothing is defaulted, truncated or recovered. */
module ResponseParser {
  import opened Wrappers
  import opened Text
  import opened Enums
  import opened Schema
  import opened JsonValue

  datatype ParsedImageAnalysis = ParsedImageAnalysis(
    visualDimensions: VisualDimensions,
    observableAttributes: ObservableAttributes,
    visualMetadata: VisualMetadata)
  {
    /** What pydantic guarantees of every constructed analysis. */
    predicate Valid() { visualDimensions.Valid() && observableAttributes.Valid() }
  }

  // ---------------------------------------------------------------------
  // clean_json_string

  const FenceOpen: string := "```json"
  const FenceClose: string := "```"

  /** The tail `\}\s*```` of the fenced pattern matches with its brace at `e`. */
  predicate ClosesFence(s: string, e: nat) {
    e < |s| && s[e] == '}' && ContainsAt(s, FenceClose, SpaceRunEnd(s, e + 1))
  }

  /** The lazy `.*?`: the first brace at or after `from` that closes the fence. */
  function FirstFenceClose(s: string, from: nat): (r: Option<nat>)
    decreases |s| - from
    ensures r.Some? ==> from <= r.value && ClosesFence(s, r.value)
    ensures r.Some? ==> forall e :: from <= e < r.value ==> !ClosesFence(s, e)
    ensures r.None? ==> forall e :: from <= e ==> !ClosesFence(s, e)
  {
    if from >= |s| then None
    else if ClosesFence(s, from) then Some(from)
    else FirstFenceClose(s, from + 1)
  }

  /** Where the body `{` of a fence opened at `i` stands. */
  function FenceBodyStart(s: string, i: nat): nat
    requires ContainsAt(s, FenceOpen, i)
  {
    SpaceRunEnd(s, i + |FenceOpen|)
  }

  /** The group `(\{.*?\})` of "```json\s*(\{.*?\})\s*```" for a match starting at `i`, if there is one. */
  function FenceBodyAt(s: string, i: nat): (r: Option<string>)
    ensures r.Some? ==> |r.value| >= 2 && r.value[0] == '{' && r.value[|r.value| - 1] == '}'
    ensures r.Some? ==> exists a, b :: 0 <= a < b < |s| && s[a] == '{' && s[b] == '}'
  {
    if !ContainsAt(s, FenceOpen, i) then None
    else
      var q := FenceBodyStart(s, i);
      if q < |s| && s[q] == '{' then
        match FirstFenceClose(s, q + 1)
        case Some(e) => Some(s[q..e + 1])
        case None => None
      else None
  }

  /** The leftmost start at or after `from` where the fenced pattern matches. */
  function FirstFenceStart(s: string, from: nat): (r: Option<nat>)
    decreases |s| + 1 - from
    ensures r.Some? ==> from <= r.value && FenceBodyAt(s, r.value).Some?
    ensures r.Some? ==> forall i :: from <= i < r.value ==> FenceBodyAt(s, i).None?
    ensures r.None? ==> forall i :: from <= i ==> FenceBodyAt(s, i).None?
  {
    if from > |s| then None
    else if FenceBodyAt(s, from).Some? then Some(from)
    else FirstFenceStart(s, from + 1)
  }

  function IndexOfChar(s: string, c: char, from: nat): (r: Option<nat>)
    decreases |s| - from
    ensures r.Some? ==> from <= r.value < |s| && s[r.value] == c
    ensures r.Some? ==> forall k :: from <= k < r.value ==> s[k] != c
    ensures r.None? ==> forall k :: from <= k < |s| ==> s[k] != c
  {
    if from >= |s| then None
    else if s[from] == c then Some(from)
    else IndexOfChar(s, c, from + 1)
  }

  function LastIndexOfChar(s: string, c: char, upto: nat): (r: Option<nat>)
    requires upto <= |s|
    ensures r.Some? ==> r.value < upto && s[r.value] == c
    ensures r.Some? ==> forall k :: r.value < k < upto ==> s[k] != c
    ensures r.None? ==> forall k :: 0 <= k < upto ==> s[k] != c
  {
    if upto == 0 then None
    else if s[upto - 1] == c then Some(upto - 1)
    else LastIndexOfChar(s, c, upto - 1)
  }

  /** The greedy "\{.*\}" search: from the first `{` to the last `}`, if the latter follows the former. */
  function BraceSpan(s: string): (r: Option<string>)
    ensures r.Some? <==> exists a, b :: 0 <= a < b < |s| && s[a] == '{' && s[b] == '}'
    ensures r.Some? ==> |r.value| >= 2 && r.value[0] == '{' && r.value[|r.value| - 1] == '}'
  {
    match (IndexOfChar(s, '{', 0), LastIndexOfChar(s, '}', |s|))
    case (Some(a), Some(b)) =>
      if a < b then Some(s[a..b + 1]) else None
    case _ => None
  }

  /** `clean_json_string`: a "```json" fence is preferred; otherwise the brace span;
      `None` stands for the ValueError raised when neither matches. */
  function CleanJsonString(raw: string): (r: Option<string>)
    ensures r.Some? ==> |r.value| >= 2 && r.value[0] == '{' && r.value[|r.value| - 1] == '}'
    ensures r.None? <==> !exists a, b :: 0 <= a < b < |raw| && raw[a] == '{' && raw[b] == '}'
  {
    match FirstFenceStart(raw, 0)
    case Some(i) => FenceBodyAt(raw, i)
    case None => BraceSpan(raw)
  }

  /** When a fence matches, the text extracted is the braced body of the leftmost
      fence match, closed at the first `}` that whitespace and "```" follow. */
  lemma CleanPrefersFence(raw: string, i: nat, e: nat)
    requires ContainsAt(raw, FenceOpen, i)
    requires forall j :: 0 <= j < i ==> FenceBodyAt(raw, j).None?
    requires FenceBodyStart(raw, i) < |raw| && raw[FenceBodyStart(raw, i)] == '{'
    requires FenceBodyStart(raw, i) < e && ClosesFence(raw, e)
    requires forall k :: FenceBodyStart(raw, i) < k < e ==> !ClosesFence(raw, k)
    ensures CleanJsonString(raw) == Some(raw[FenceBodyStart(raw, i)..e + 1])
  {
    var q := FenceBodyStart(raw, i);
    FirstFenceCloseIs(raw, q + 1, e);
    assert FenceBodyAt(raw, i) == Some(raw[q..e + 1]);
    FirstFenceStartIs(raw, i);
  }

  lemma FirstFenceCloseIs(s: string, from: nat, e: nat)
    requires from <= e && ClosesFence(s, e)
    requires forall k :: from <= k < e ==> !ClosesFence(s, k)
    ensures FirstFenceClose(s, from) == Some(e)
  {
  }

  lemma FirstFenceStartIs(s: string, i: nat)
    requires FenceBodyAt(s, i).Some?
    requires forall j :: 0 <= j < i ==> FenceBodyAt(s, j).None?
    ensures FirstFenceStart(s, 0) == Some(i)
  {
  }

  /** With no fence match anywhere, the text extracted runs from the first `{` to the last `}`. */
  lemma CleanFallsBackToBraceSpan(raw: string, a: nat, b: nat)
    requires forall i :: 0 <= i ==> FenceBodyAt(raw, i).None?
    requires a < b < |raw| && raw[a] == '{' && raw[b] == '}'
    requires forall k :: 0 <= k < a ==> raw[k] != '{'
    requires forall k :: b < k < |raw| ==> raw[k] != '}'
    ensures CleanJsonString(raw) == Some(raw[a..b + 1])
  {
    assert FirstFenceStart(raw, 0).None?;
    assert IndexOfChar(raw, '{', 0) == Some(a);
    assert LastIndexOfChar(raw, '}', |raw|) == Some(b);
  }

  predicate AllSpace(s: string) {
    forall i :: 0 <= i < |s| ==> IsSpace(s[i])
  }

  /** The whitespace run starting at `i` ends where the first non-space character stands. */
  lemma SpaceRunEndIs(s: string, i: nat, e: nat)
    requires i <= e < |s| && !IsSpace(s[e])
    requires forall k :: i <= k < e ==> IsSpace(s[k])
    ensures SpaceRunEnd(s, i) == e
  {
  }

  /** A JSON object text with no "```" inside extracts to itself when bare. */
  lemma BareObjectExtracts(body: string)
    requires |body| >= 2 && body[0] == '{' && body[|body| - 1] == '}'
    requires !Contains(body, FenceClose)
    ensures CleanJsonString(body) == Some(body)
  {
    forall i | 0 <= i
      ensures FenceBodyAt(body, i).None?
    {
      if ContainsAt(body, FenceOpen, i) {
        assert body[i..i + 3] == body[i..i + |FenceOpen|][..3];
        assert ContainsAt(body, FenceClose, i);
      }
    }
    CleanFallsBackToBraceSpan(body, 0, |body| - 1);
    assert body[0..|body|] == body;
  }

  /** A "```" that starts at or before a `}` ends before it. */
  lemma FenceCloseBefore(s: string, m: nat, e: nat)
    requires m <= e < |s| && s[e] == '}'
    ensures ContainsAt(s, FenceClose, m) ==> m + 3 <= e
  {
    if m + 3 <= |s| && e < m + 3 {
      assert s[m..m + 3][e - m] == '}';
    }
  }

  /** An occurrence lying inside a copy of `body` is an occurrence in `body`. */
  lemma FenceCloseInside(s: string, q: nat, body: string, m: nat)
    requires q <= m && q + |body| <= |s| && s[q..q + |body|] == body
    ensures ContainsAt(s, FenceClose, m) && m + 3 <= q + |body| ==> ContainsAt(body, FenceClose, m - q)
  {
    if ContainsAt(s, FenceClose, m) && m + 3 <= q + |body| {
      assert forall j :: 0 <= j < |body| ==> body[j] == s[q + j];
      assert body[m - q..m - q + 3] == s[m..m + 3];
    }
  }

  /** Inside the fenced text, no brace before the body's last one closes the fence. */
  lemma NoEarlierClose(s: string, q: nat, body: string)
    requires q + |body| < |s| && s[q..q + |body|] == body
    requires |body| >= 2 && body[|body| - 1] == '}'
    requires !Contains(body, FenceClose)
    ensures forall k :: q < k < q + |body| - 1 ==> !ClosesFence(s, k)
  {
    var e := q + |body| - 1;
    assert s[e] == body[|body| - 1];
    forall k | q < k < e
      ensures !ClosesFence(s, k)
    {
      var m := SpaceRunEnd(s, k + 1);
      FenceCloseBefore(s, m, e);
      FenceCloseInside(s, q, body, m);
    }
  }

  lemma FenceBodyStartIs(s: string, q: nat)
    requires ContainsAt(s, FenceOpen, 0) && |FenceOpen| <= q < |s| && !IsSpace(s[q])
    requires forall k :: |FenceOpen| <= k < q ==> IsSpace(s[k])
    ensures FenceBodyStart(s, 0) == q
  {
    SpaceRunEndIs(s, |FenceOpen|, q);
  }

  lemma ClosesFenceAt(s: string, e: nat, t: nat)
    requires ContainsAt(s, FenceClose, t) && e < t && s[e] == '}'
    requires forall k :: e + 1 <= k < t ==> IsSpace(s[k])
    ensures ClosesFence(s, e)
  {
    assert s[t] == s[t..t + 3][0];
    SpaceRunEndIs(s, e + 1, t);
  }

  /** The shape a fenced object text has, position by position. */
  predicate FencedText(s: string, q: nat, body: string, t: nat) {
    && ContainsAt(s, FenceOpen, 0) && |FenceOpen| <= q
    && q + |body| <= t && ContainsAt(s, FenceClose, t)
    && s[q..q + |body|] == body
    && |body| >= 2 && body[0] == '{' && body[|body| - 1] == '}'
    && (forall k :: |FenceOpen| <= k < q ==> IsSpace(s[k]))
    && (forall k :: q + |body| <= k < t ==> IsSpace(s[k]))
  }

  /** In such a text the fence body opens at `q` and the brace closing `body` closes the fence. */
  lemma FencedTextBounds(s: string, q: nat, body: string, t: nat)
    requires FencedText(s, q, body, t)
    ensures FenceBodyStart(s, 0) == q && s[q] == '{'
    ensures ClosesFence(s, q + |body| - 1)
  {
    assert s[q + |body| - 1] == body[|body| - 1] && s[q] == body[0];
    FenceBodyStartIs(s, q);
    ClosesFenceAt(s, q + |body| - 1, t);
  }

  /** A text that opens with "```json", then whitespace, a braced body free of "```",
      whitespace and "```", extracts to that body. */
  lemma FencedTextExtracts(s: string, q: nat, body: string, t: nat)
    requires FencedText(s, q, body, t)
    requires !Contains(body, FenceClose)
    ensures CleanJsonString(s) == Some(body)
  {
    var e := q + |body| - 1;
    FencedTextBounds(s, q, body, t);
    NoEarlierClose(s, q, body);
    CleanPrefersFence(s, 0, e);
  }

  /** A JSON object text with no "```" inside extracts to itself when fenced. */
  lemma FencedObjectExtracts(body: string, lead: string, trail: string)
    requires |body| >= 2 && body[0] == '{' && body[|body| - 1] == '}'
    requires !Contains(body, FenceClose)
    requires AllSpace(lead) && AllSpace(trail)
    ensures CleanJsonString(FenceOpen + lead + body + trail + FenceClose) == Some(body)
  {
    var s := FenceOpen + lead + body + trail + FenceClose;
    var q := |FenceOpen| + |lead|;
    var t := q + |body| + |trail|;
    assert s[..|FenceOpen|] == FenceOpen;
    assert s[q..q + |body|] == body;
    assert forall k :: |FenceOpen| <= k < q ==> s[k] == lead[k - |FenceOpen|];
    assert forall k :: q + |body| <= k < t ==> s[k] == trail[k - q - |body|];
    assert s[t..t + 3] == FenceClose;
    assert FencedText(s, q, body, t);
    FencedTextExtracts(s, q, body, t);
  }

  // ---------------------------------------------------------------------
  // parse_vision_response

  /** The fifteen top-level keys the parser reads, every one of them mandatory. */
  const RequiredKeys: set<string> := {
    "gender_expression", "visual_weight", "embellishment", "unconventionality", "formality",
    "wirecore_visible", "frame_geometry", "transparency", "dominant_colors", "surface_texture",
    "suitable_for_kids", "frame_material_apparent", "lens_tint", "temple_style", "has_nose_pads"}

  /** `raw[key] if isinstance(raw, dict) else raw`; `None` stands for the KeyError. */
  function Unwrap(j: Json, key: string): Option<Json> {
    match j
    case Object(f) => if key in f then Some(f[key]) else None
    case _ => Some(j)
  }

  /** `j` is `v` itself or a dictionary holding `v` under `key`. */
  predicate BareOrWrapped(j: Json, key: string, v: Json) {
    j == v || (j.Object? && key in j.fields && j.fields[key] == v)
  }

  function BoolFromJson(j: Json): Option<bool> {
    if j.Bool? then Some(j.b) else None
  }

  function StringFromJson(j: Json): Option<string> {
    if j.String? then Some(j.s) else None
  }

  /** A `VisualDimension` built from a dictionary with numeric `score` and `confidence`. */
  function DimensionFromJson(j: Json): Option<VisualDimension> {
    if j.Object? && "score" in j.fields && "confidence" in j.fields
       && j.fields["score"].Number? && j.fields["confidence"].Number?
    then MakeVisualDimension(j.fields["score"].n, j.fields["confidence"].n)
    else None
  }

  /** `DominantColor(**color)`: a dictionary with the three fields (others ignored). */
  function ColorFromJson(j: Json): (r: Option<DominantColor>)
    ensures r.Some? ==> r.value.Valid()
  {
    if j.Object? && "color" in j.fields && "hex_approximation" in j.fields && "coverage_percentage" in j.fields
       && j.fields["color"].String? && j.fields["hex_approximation"].String?
       && j.fields["coverage_percentage"].Number?
    then MakeDominantColor(j.fields["color"].s, j.fields["hex_approximation"].s, j.fields["coverage_percentage"].n)
    else None
  }

  function ColorsFromItems(items: seq<Json>): (r: Option<seq<DominantColor>>)
    ensures r.Some? ==> |r.value| == |items|
    ensures r.Some? ==> forall i :: 0 <= i < |items| ==> ColorFromJson(items[i]) == Some(r.value[i])
  {
    if items == [] then Some([])
    else
      match (ColorFromJson(items[0]), ColorsFromItems(items[1..]))
      case (Some(c), Some(rest)) => Some([c] + rest)
      case _ => None
  }

  /** The list comprehension over `data["dominant_colors"]`: iterating an array gives its
      items; an empty dictionary or an empty string iterates to nothing; anything else raises. */
  function ColorsFromJson(j: Json): (r: Option<seq<DominantColor>>)
    ensures r.Some? ==> forall i :: 0 <= i < |r.value| ==> r.value[i].Valid()
    ensures r.Some? && j.Array? ==> |r.value| == |j.items|
  {
    match j
    case Array(items) => ColorsFromItems(items)
    case Object(f) => if |f| == 0 then Some([]) else None
    case String(s) => if s == "" then Some([]) else None
    case _ => None
  }

  function BoolField(m: map<string, Json>, key: string, wrapKey: string): Option<bool>
    requires key in m
  {
    match Unwrap(m[key], wrapKey)
    case Some(v) => BoolFromJson(v)
    case None => None
  }

  function EnumField<E>(m: map<string, Json>, key: string, parse: string -> Option<E>): Option<E>
    requires key in m
  {
    match Unwrap(m[key], "value")
    case Some(String(s)) => parse(s)
    case _ => None
  }

  function DimensionsFromFields(m: map<string, Json>): (r: Option<VisualDimensions>)
    requires RequiredKeys <= m.Keys
    ensures r.Some? ==> r.value.Valid()
    ensures r.Some? <==> forall d: Dimension :: DimensionFromJson(m[d.Key()]).Some?
    ensures r.Some? ==> forall d: Dimension :: DimensionFromJson(m[d.Key()]) == Some(r.value.Get(d))
  {
    if forall d: Dimension :: DimensionFromJson(m[d.Key()]).Some? then
      Some(VisualDimensions(
        DimensionFromJson(m[GenderExpression.Key()]).value,
        DimensionFromJson(m[VisualWeight.Key()]).value,
        DimensionFromJson(m[Embellishment.Key()]).value,
        DimensionFromJson(m[Unconventionality.Key()]).value,
        DimensionFromJson(m[Formality.Key()]).value))
    else
      None
  }

  function AttributesFromFields(m: map<string, Json>): (r: Option<ObservableAttributes>)
    requires RequiredKeys <= m.Keys
    ensures r.Some? ==> r.value.Valid()
  {
    var wire := BoolField(m, "wirecore_visible", "detected");
    var geometry := EnumField(m, "frame_geometry", ParseFrameGeometry);
    var transparency := EnumField(m, "transparency", ParseTransparency);
    var texture := EnumField(m, "surface_texture", ParseSurfaceTexture);
    var kids := BoolField(m, "suitable_for_kids", "assessment");
    var colors := ColorsFromJson(m["dominant_colors"]);
    if wire.Some? && geometry.Some? && transparency.Some? && texture.Some? && kids.Some? && colors.Some? then
      match ValidateDominantColors(colors.value)
      case Some(cs) =>
        Some(ObservableAttributes(wire.value, geometry.value, transparency.value, cs, texture.value, kids.value))
      case None => None
    else None
  }

  function MetadataFromFields(m: map<string, Json>): Option<VisualMetadata>
    requires RequiredKeys <= m.Keys
  {
    var material := EnumField(m, "frame_material_apparent", ParseFrameMaterialApparent);
    var tint := EnumField(m, "lens_tint", ParseLensTint);
    var temple := EnumField(m, "temple_style", ParseTempleStyle);
    var pads := BoolField(m, "has_nose_pads", "detected");
    if material.Some? && tint.Some? && temple.Some? && pads.Some? then
      Some(VisualMetadata(material.value, tint.value, pads.value, temple.value))
    else None
  }

  /** The body of `parse_vision_response` after decoding, for a decoded dictionary `m`. */
  function AnalysisFromFields(m: map<string, Json>): (r: Option<ParsedImageAnalysis>)
    ensures r.Some? ==> RequiredKeys <= m.Keys && r.value.Valid()
  {
    if !(RequiredKeys <= m.Keys) then None
    else
      match (DimensionsFromFields(m), AttributesFromFields(m), MetadataFromFields(m))
      case (Some(d), Some(a), Some(v)) => Some(ParsedImageAnalysis(d, a, v))
      case _ => None
  }

  /** `parse_vision_response`: never raises; every failure path gives `None`. */
  function ParseVisionResponse(raw: string, decode: string -> Option<Json>): (r: Option<ParsedImageAnalysis>)
    ensures r.Some? ==> r.value.Valid()
    ensures r.Some? ==>
      && CleanJsonString(raw).Some?
      && decode(CleanJsonString(raw).value).Some?
      && decode(CleanJsonString(raw).value).value.Object?
      && RequiredKeys <= decode(CleanJsonString(raw).value).value.fields.Keys
  {
    match CleanJsonString(raw)
    case None => None
    case Some(cleaned) =>
      match decode(cleaned)
      case Some(Object(m)) => AnalysisFromFields(m)
      case _ => None
  }

  /** A response parses the same whether the JSON object is bare or in a ```json fence. */
  lemma FencedAndBareParseAlike(body: string, lead: string, trail: string, decode: string -> Option<Json>)
    requires |body| >= 2 && body[0] == '{' && body[|body| - 1] == '}'
    requires !Contains(body, FenceClose)
    requires AllSpace(lead) && AllSpace(trail)
    ensures ParseVisionResponse(FenceOpen + lead + body + trail + FenceClose, decode) == ParseVisionResponse(body, decode)
  {
    BareObjectExtracts(body);
    FencedObjectExtracts(body, lead, trail);
  }

  /** How each unwrapped field is read from a successfully parsed dictionary. */
  lemma UnwrapRules(m: map<string, Json>)
    requires AnalysisFromFields(m).Some?
    ensures var a := AnalysisFromFields(m).value;
      && BareOrWrapped(m["wirecore_visible"], "detected", Bool(a.observableAttributes.wirecoreVisible))
      && BareOrWrapped(m["has_nose_pads"], "detected", Bool(a.visualMetadata.hasNosePads))
      && BareOrWrapped(m["suitable_for_kids"], "assessment", Bool(a.observableAttributes.suitableForKids))
      && BareOrWrapped(m["frame_geometry"], "value", String(a.observableAttributes.frameGeometry.Tag()))
      && BareOrWrapped(m["transparency"], "value", String(a.observableAttributes.transparency.Tag()))
      && BareOrWrapped(m["surface_texture"], "value", String(a.observableAttributes.surfaceTexture.Tag()))
      && BareOrWrapped(m["frame_material_apparent"], "value", String(a.visualMetadata.frameMaterialApparent.Tag()))
      && BareOrWrapped(m["lens_tint"], "value", String(a.visualMetadata.lensTint.Tag()))
      && BareOrWrapped(m["temple_style"], "value", String(a.visualMetadata.templeStyle.Tag()))
  {
  }

  /** Scores are clamped on the way in, while the confidence must already lie in [0, 1]. */
  lemma ScoresClampedConfidencesKept(m: map<string, Json>, d: Dimension)
    requires AnalysisFromFields(m).Some?
    ensures var j := m[d.Key()];
      && j.Object? && "score" in j.fields && j.fields["score"].Number?
      && "confidence" in j.fields && j.fields["confidence"].Number?
      && AnalysisFromFields(m).value.visualDimensions.Get(d).score == ClampScore(j.fields["score"].n)
      && AnalysisFromFields(m).value.visualDimensions.Get(d).confidence == j.fields["confidence"].n
      && 0.0 <= j.fields["confidence"].n <= 1.0
  {
  }

  /** A confidence outside [0, 1] in any dimension rejects the whole response. */
  lemma OutOfRangeConfidenceRejected(m: map<string, Json>, d: Dimension, c: real)
    requires d.Key() in m && m[d.Key()].Object?
    requires "confidence" in m[d.Key()].fields && m[d.Key()].fields["confidence"] == Number(c)
    requires c < 0.0 || c > 1.0
    ensures AnalysisFromFields(m).None?
  {
    if AnalysisFromFields(m).Some? {
      ScoresClampedConfidencesKept(m, d);
    }
  }

  /** Any one of the fifteen keys missing rejects the response. */
  lemma MissingKeyRejected(m: map<string, Json>, k: string)
    requires k in RequiredKeys && k !in m
    ensures AnalysisFromFields(m).None?
  {
  }

  /** More than three colours reject the response rather than being truncated. */
  lemma TooManyColorsRejected(m: map<string, Json>, items: seq<Json>)
    requires "dominant_colors" in m && m["dominant_colors"] == Array(items) && |items| > 3
    ensures AnalysisFromFields(m).None?
  {
    if RequiredKeys <= m.Keys {
      var cs := ColorsFromJson(m["dominant_colors"]);
      assert cs.Some? ==> |cs.value| > 3;
    }
  }

  /** One colour whose coverage lies outside [0, 100] rejects the response. */
  lemma OutOfRangeCoverageRejected(m: map<string, Json>, items: seq<Json>, i: nat, v: real)
    requires "dominant_colors" in m && m["dominant_colors"] == Array(items)
    requires i < |items| && items[i].Object? && "coverage_percentage" in items[i].fields
    requires items[i].fields["coverage_percentage"] == Number(v)
    requires v < 0.0 || v > 100.0
    ensures AnalysisFromFields(m).None?
  {
    if RequiredKeys <= m.Keys {
      var cs := ColorsFromJson(m["dominant_colors"]);
      assert cs.None? by {
        if cs.Some? { assert ColorFromJson(items[i]) == Some(cs.value[i]); }
      }
    }
  }

  /** A frame geometry outside the closed tag set (such as "square") rejects the response;
      there is no fall-back to "unknown". */
  lemma UnknownFrameGeometryRejected(m: map<string, Json>, tag: string)
    requires "frame_geometry" in m && BareOrWrapped(m["frame_geometry"], "value", String(tag))
    requires ParseFrameGeometry(tag).None?
    ensures AnalysisFromFields(m).None?
  {
  }

  // ---------------------------------------------------------------------
  // The JSON the prompt asks for, and the round trip through the parser.

  function DimensionToJson(v: VisualDimension): Json {
    Object(map["score" := Number(v.score), "confidence" := Number(v.confidence)])
  }

  function ColorToJson(c: DominantColor): Json {
    Object(map["color" := String(c.color), "hex_approximation" := String(c.hexApproximation),
               "coverage_percentage" := Number(c.coveragePercentage)])
  }

  function ColorsToJson(cs: seq<DominantColor>): (r: seq<Json>)
    ensures |r| == |cs|
    ensures forall i :: 0 <= i < |cs| ==> r[i] == ColorToJson(cs[i])
  {
    if cs == [] then [] else [ColorToJson(cs[0])] + ColorsToJson(cs[1..])
  }

  /** `v` as the response carries it: bare, or in a one-key dictionary under `key`. */
  function Wrap(v: Json, key: string, wrapped: bool): Json {
    if wrapped then Object(map[key := v]) else v
  }

  /** The value the response object holds under `key`, its boolean and tag fields bare or wrapped. */
  function FieldToJson(a: ParsedImageAnalysis, wrapped: bool, key: string): Json {
    var d := a.visualDimensions;
    var o := a.observableAttributes;
    var v := a.visualMetadata;
    match key
    case "gender_expression" => DimensionToJson(d.genderExpression)
    case "visual_weight" => DimensionToJson(d.visualWeight)
    case "embellishment" => DimensionToJson(d.embellishment)
    case "unconventionality" => DimensionToJson(d.unconventionality)
    case "formality" => DimensionToJson(d.formality)
    case "wirecore_visible" => Wrap(Bool(o.wirecoreVisible), "detected", wrapped)
    case "frame_geometry" => Wrap(String(o.frameGeometry.Tag()), "value", wrapped)
    case "transparency" => Wrap(String(o.transparency.Tag()), "value", wrapped)
    case "dominant_colors" => Array(ColorsToJson(o.dominantColors))
    case "surface_texture" => Wrap(String(o.surfaceTexture.Tag()), "value", wrapped)
    case "suitable_for_kids" => Wrap(Bool(o.suitableForKids), "assessment", wrapped)
    case "frame_material_apparent" => Wrap(String(v.frameMaterialApparent.Tag()), "value", wrapped)
    case "lens_tint" => Wrap(String(v.lensTint.Tag()), "value", wrapped)
    case "temple_style" => Wrap(String(v.templeStyle.Tag()), "value", wrapped)
    case _ => Wrap(Bool(v.hasNosePads), "detected", wrapped)
  }

  /** The response object the prompt asks the model for, describing `a`. */
  function AnalysisToFields(a: ParsedImageAnalysis, wrapped: bool): (m: map<string, Json>)
    ensures m.Keys == RequiredKeys
  {
    map k | k in RequiredKeys :: FieldToJson(a, wrapped, k)
  }

  lemma {:induction false} ColorsRoundTrip(cs: seq<DominantColor>)
    requires forall i :: 0 <= i < |cs| ==> cs[i].Valid()
    ensures ColorsFromItems(ColorsToJson(cs)) == Some(cs)
  {
    if cs != [] {
      ColorsRoundTrip(cs[1..]);
      assert ColorsToJson(cs)[1..] == ColorsToJson(cs[1..]);
      assert [cs[0]] + cs[1..] == cs;
    }
  }

  lemma DimensionsRoundTrip(a: ParsedImageAnalysis, wrapped: bool)
    requires a.Valid()
    ensures DimensionsFromFields(AnalysisToFields(a, wrapped)) == Some(a.visualDimensions)
  {
    var m := AnalysisToFields(a, wrapped);
    forall d: Dimension
      ensures DimensionFromJson(m[d.Key()]) == Some(a.visualDimensions.Get(d))
    {
      assert a.visualDimensions.Get(d).Valid();
      assert m[d.Key()] == DimensionToJson(a.visualDimensions.Get(d)) by {
        match d
        case GenderExpression =>
        case VisualWeight =>
        case Embellishment =>
        case Unconventionality =>
        case Formality =>
      }
    }
  }

  lemma WrapUnwrap(v: Json, key: string, wrapped: bool)
    requires !v.Object?
    ensures Unwrap(Wrap(v, key, wrapped), key) == Some(v)
  {
  }

  lemma ColorFieldRoundTrip(a: ParsedImageAnalysis, wrapped: bool)
    requires a.Valid()
    ensures ColorsFromJson(AnalysisToFields(a, wrapped)["dominant_colors"]) == Some(a.observableAttributes.dominantColors)
  {
    ColorsRoundTrip(a.observableAttributes.dominantColors);
    assert AnalysisToFields(a, wrapped)["dominant_colors"] == Array(ColorsToJson(a.observableAttributes.dominantColors));
  }

  /** A tag written under `key`, bare or wrapped, reads back as the member it names. */
  lemma TagFieldRoundTrip<E>(m: map<string, Json>, key: string, parse: string -> Option<E>, tag: string, e: E, wrapped: bool)
    requires key in m && m[key] == Wrap(String(tag), "value", wrapped) && parse(tag) == Some(e)
    ensures EnumField(m, key, parse) == Some(e)
  {
    WrapUnwrap(String(tag), "value", wrapped);
  }

  /** A boolean written under `key`, bare or wrapped under `wrapKey`, reads back unchanged. */
  lemma BoolFieldRoundTrip(m: map<string, Json>, key: string, wrapKey: string, b: bool, wrapped: bool)
    requires key in m && m[key] == Wrap(Bool(b), wrapKey, wrapped)
    ensures BoolField(m, key, wrapKey) == Some(b)
  {
    WrapUnwrap(Bool(b), wrapKey, wrapped);
  }

  lemma FrameGeometryRoundTrip(a: ParsedImageAnalysis, wrapped: bool)
    ensures EnumField(AnalysisToFields(a, wrapped), "frame_geometry", ParseFrameGeometry) == Some(a.observableAttributes.frameGeometry)
  {
    var m := AnalysisToFields(a, wrapped);
    assert m["frame_geometry"] == Wrap(String(a.observableAttributes.frameGeometry.Tag()), "value", wrapped);
    TagFieldRoundTrip(m, "frame_geometry", ParseFrameGeometry, a.observableAttributes.frameGeometry.Tag(), a.observableAttributes.frameGeometry, wrapped);
  }

  lemma TransparencyRoundTrip(a: ParsedImageAnalysis, wrapped: bool)
    ensures EnumField(AnalysisToFields(a, wrapped), "transparency", ParseTransparency) == Some(a.observableAttributes.transparency)
  {
    var m := AnalysisToFields(a, wrapped);
    assert m["transparency"] == Wrap(String(a.observableAttributes.transparency.Tag()), "value", wrapped);
    TagFieldRoundTrip(m, "transparency", ParseTransparency, a.observableAttributes.transparency.Tag(), a.observableAttributes.transparency, wrapped);
  }

  lemma SurfaceTextureRoundTrip(a: ParsedImageAnalysis, wrapped: bool)
    ensures EnumField(AnalysisToFields(a, wrapped), "surface_texture", ParseSurfaceTexture) == Some(a.observableAttributes.surfaceTexture)
  {
    var m := AnalysisToFields(a, wrapped);
    assert m["surface_texture"] == Wrap(String(a.observableAttributes.surfaceTexture.Tag()), "value", wrapped);
    TagFieldRoundTrip(m, "surface_texture", ParseSurfaceTexture, a.observableAttributes.surfaceTexture.Tag(), a.observableAttributes.surfaceTexture, wrapped);
  }

  lemma FrameMaterialRoundTrip(a: ParsedImageAnalysis, wrapped: bool)
    ensures EnumField(AnalysisToFields(a, wrapped), "frame_material_apparent", ParseFrameMaterialApparent) == Some(a.visualMetadata.frameMaterialApparent)
  {
    var m := AnalysisToFields(a, wrapped);
    assert m["frame_material_apparent"] == Wrap(String(a.visualMetadata.frameMaterialApparent.Tag()), "value", wrapped);
    TagFieldRoundTrip(m, "frame_material_apparent", ParseFrameMaterialApparent, a.visualMetadata.frameMaterialApparent.Tag(), a.visualMetadata.frameMaterialApparent, wrapped);
  }

  lemma LensTintRoundTrip(a: ParsedImageAnalysis, wrapped: bool)
    ensures EnumField(AnalysisToFields(a, wrapped), "lens_tint", ParseLensTint) == Some(a.visualMetadata.lensTint)
  {
    var m := AnalysisToFields(a, wrapped);
    assert m["lens_tint"] == Wrap(String(a.visualMetadata.lensTint.Tag()), "value", wrapped);
    TagFieldRoundTrip(m, "lens_tint", ParseLensTint, a.visualMetadata.lensTint.Tag(), a.visualMetadata.lensTint, wrapped);
  }

  lemma TempleStyleRoundTrip(a: ParsedImageAnalysis, wrapped: bool)
    ensures EnumField(AnalysisToFields(a, wrapped), "temple_style", ParseTempleStyle) == Some(a.visualMetadata.templeStyle)
  {
    var m := AnalysisToFields(a, wrapped);
    assert m["temple_style"] == Wrap(String(a.visualMetadata.templeStyle.Tag()), "value", wrapped);
    TagFieldRoundTrip(m, "temple_style", ParseTempleStyle, a.visualMetadata.templeStyle.Tag(), a.visualMetadata.templeStyle, wrapped);
  }

  lemma WirecoreRoundTrip(a: ParsedImageAnalysis, wrapped: bool)
    ensures BoolField(AnalysisToFields(a, wrapped), "wirecore_visible", "detected") == Some(a.observableAttributes.wirecoreVisible)
  {
    var m := AnalysisToFields(a, wrapped);
    assert m["wirecore_visible"] == Wrap(Bool(a.observableAttributes.wirecoreVisible), "detected", wrapped);
    BoolFieldRoundTrip(m, "wirecore_visible", "detected", a.observableAttributes.wirecoreVisible, wrapped);
  }

  lemma SuitableForKidsRoundTrip(a: ParsedImageAnalysis, wrapped: bool)
    ensures BoolField(AnalysisToFields(a, wrapped), "suitable_for_kids", "assessment") == Some(a.observableAttributes.suitableForKids)
  {
    var m := AnalysisToFields(a, wrapped);
    assert m["suitable_for_kids"] == Wrap(Bool(a.observableAttributes.suitableForKids), "assessment", wrapped);
    BoolFieldRoundTrip(m, "suitable_for_kids", "assessment", a.observableAttributes.suitableForKids, wrapped);
  }

  lemma NosePadsRoundTrip(a: ParsedImageAnalysis, wrapped: bool)
    ensures BoolField(AnalysisToFields(a, wrapped), "has_nose_pads", "detected") == Some(a.visualMetadata.hasNosePads)
  {
    var m := AnalysisToFields(a, wrapped);
    assert m["has_nose_pads"] == Wrap(Bool(a.visualMetadata.hasNosePads), "detected", wrapped);
    BoolFieldRoundTrip(m, "has_nose_pads", "detected", a.visualMetadata.hasNosePads, wrapped);
  }

  lemma AttributesRoundTrip(a: ParsedImageAnalysis, wrapped: bool)
    requires a.Valid()
    ensures AttributesFromFields(AnalysisToFields(a, wrapped)) == Some(a.observableAttributes)
  {
    ColorFieldRoundTrip(a, wrapped);
    WirecoreRoundTrip(a, wrapped);
    SuitableForKidsRoundTrip(a, wrapped);
    FrameGeometryRoundTrip(a, wrapped);
    TransparencyRoundTrip(a, wrapped);
    SurfaceTextureRoundTrip(a, wrapped);
  }

  lemma MetadataRoundTrip(a: ParsedImageAnalysis, wrapped: bool)
    ensures MetadataFromFields(AnalysisToFields(a, wrapped)) == Some(a.visualMetadata)
  {
    FrameMaterialRoundTrip(a, wrapped);
    LensTintRoundTrip(a, wrapped);
    TempleStyleRoundTrip(a, wrapped);
    NosePadsRoundTrip(a, wrapped);
  }

  /** Every valid analysis survives being written out as the response object and parsed
      back, whether its boolean and tag fields are bare or wrapped. */
  lemma AnalysisRoundTrip(a: ParsedImageAnalysis, wrapped: bool)
    requires a.Valid()
    ensures AnalysisFromFields(AnalysisToFields(a, wrapped)) == Some(a)
  {
    DimensionsRoundTrip(a, wrapped);
    AttributesRoundTrip(a, wrapped);
    MetadataRoundTrip(a, wrapped);
  }
}
