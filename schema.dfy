/** The output records (src/schema/output_schema.py) and the validators that
    run when one of them is built: scores are clamped, while confidences,
    coverages, colour-list lengths and the aggregate confidence are checked
    and make the construction fail. A construction that can fail returns an
    `Option`; `None` stands for pydantic's ValidationError. */
module Schema {
  import opened Wrappers
  import opened Enums

  /** The five continuous style axes, in the order the source lists them. */
  datatype Dimension = GenderExpression | VisualWeight | Embellishment | Unconventionality | Formality {
    function Key(): string {
      match this
      case GenderExpression => "gender_expression"
      case VisualWeight => "visual_weight"
      case Embellishment => "embellishment"
      case Unconventionality => "unconventionality"
      case Formality => "formality"
    }
  }

  const AllDimensions: seq<Dimension> := [GenderExpression, VisualWeight, Embellishment, Unconventionality, Formality]

  lemma AllDimensionsListed(d: Dimension)
    ensures d in AllDimensions
  {
    match d
    case GenderExpression => assert AllDimensions[0] == d;
    case VisualWeight => assert AllDimensions[1] == d;
    case Embellishment => assert AllDimensions[2] == d;
    case Unconventionality => assert AllDimensions[3] == d;
    case Formality => assert AllDimensions[4] == d;
  }

  datatype VisualDimension = VisualDimension(score: real, confidence: real) {
    /** What a constructed VisualDimension always satisfies. */
    predicate Valid() { -5.0 <= score <= 5.0 && 0.0 <= confidence <= 1.0 }
  }

  datatype VisualDimensions = VisualDimensions(
    genderExpression: VisualDimension,
    visualWeight: VisualDimension,
    embellishment: VisualDimension,
    unconventionality: VisualDimension,
    formality: VisualDimension)
  {
    function Get(d: Dimension): VisualDimension {
      match d
      case GenderExpression => genderExpression
      case VisualWeight => visualWeight
      case Embellishment => embellishment
      case Unconventionality => unconventionality
      case Formality => formality
    }

    predicate Valid() { forall d: Dimension :: Get(d).Valid() }
  }

  /** Builds the record whose `Get` is `f`. */
  function DimensionsOf(f: Dimension -> VisualDimension): (vd: VisualDimensions)
    ensures forall d: Dimension :: vd.Get(d) == f(d)
  {
    VisualDimensions(f(GenderExpression), f(VisualWeight), f(Embellishment), f(Unconventionality), f(Formality))
  }

  /** The `score` validator: the value is forced into [-5, 5]. */
  function ClampScore(v: real): (r: real)
    ensures -5.0 <= r <= 5.0
    ensures -5.0 <= v <= 5.0 ==> r == v
    ensures v > 5.0 ==> r == 5.0
    ensures v < -5.0 ==> r == -5.0
  {
    if 5.0 < v then 5.0 else if v < -5.0 then -5.0 else v
  }

  /** Clamping twice is clamping once. */
  lemma ClampScoreIdempotent(v: real)
    ensures ClampScore(ClampScore(v)) == ClampScore(v)
  {
  }

  /** The `confidence` validator: values outside [0, 1] are rejected, others kept. */
  function ValidateConfidence(v: real): (r: Option<real>)
    ensures r.Some? <==> 0.0 <= v <= 1.0
    ensures r.Some? ==> r.value == v
  {
    if 0.0 <= v <= 1.0 then Some(v) else None
  }

  /** `VisualDimension(score=s, confidence=c)`: clamps the score, checks the confidence. */
  function MakeVisualDimension(score: real, confidence: real): (r: Option<VisualDimension>)
    ensures r.Some? <==> 0.0 <= confidence <= 1.0
    ensures r.Some? ==> r.value.Valid() && r.value.score == ClampScore(score) && r.value.confidence == confidence
  {
    match ValidateConfidence(confidence)
    case None => None
    case Some(c) => Some(VisualDimension(ClampScore(score), c))
  }

  datatype DominantColor = DominantColor(color: string, hexApproximation: string, coveragePercentage: real) {
    predicate Valid() { 0.0 <= coveragePercentage <= 100.0 }
  }

  /** The `coverage_percentage` validator: values outside [0, 100] are rejected. */
  function ValidateCoverage(v: real): (r: Option<real>)
    ensures r.Some? <==> 0.0 <= v <= 100.0
    ensures r.Some? ==> r.value == v
  {
    if 0.0 <= v <= 100.0 then Some(v) else None
  }

  function MakeDominantColor(color: string, hex: string, coverage: real): (r: Option<DominantColor>)
    ensures r.Some? <==> 0.0 <= coverage <= 100.0
    ensures r.Some? ==> r.value == DominantColor(color, hex, coverage) && r.value.Valid()
  {
    match ValidateCoverage(coverage)
    case None => None
    case Some(c) => Some(DominantColor(color, hex, c))
  }

  /** The `dominant_colors` validator: more than three entries are rejected, never truncated. */
  function ValidateDominantColors(v: seq<DominantColor>): (r: Option<seq<DominantColor>>)
    ensures r.Some? <==> |v| <= 3
    ensures r.Some? ==> r.value == v
  {
    if |v| > 3 then None else Some(v)
  }

  datatype ObservableAttributes = ObservableAttributes(
    wirecoreVisible: bool,
    frameGeometry: FrameGeometry,
    transparency: Transparency,
    dominantColors: seq<DominantColor>,
    surfaceTexture: SurfaceTexture,
    suitableForKids: bool)
  {
    predicate Valid() {
      |dominantColors| <= 3 && forall i :: 0 <= i < |dominantColors| ==> dominantColors[i].Valid()
    }
  }

  datatype VisualMetadata = VisualMetadata(
    frameMaterialApparent: FrameMaterialApparent,
    lensTint: LensTint,
    hasNosePads: bool,
    templeStyle: TempleStyle)

  datatype QualityFlags = QualityFlags(
    lowConfidence: bool,
    highVariance: bool,
    singleImageOnly: bool,
    partialAnalysis: bool)

  datatype InvalidUrl = InvalidUrl(url: string, errorType: string, errorMessage: string)

  datatype ImageValidation = ImageValidation(
    totalProvided: int,
    validCount: int,
    invalidCount: int,
    invalidUrls: seq<InvalidUrl>)

  datatype PerImageAnalysis = PerImageAnalysis(imageUrl: string, visualDimensions: VisualDimensions, processingTimeMs: int)

  /** Per-dimension spread of the scores across images. */
  datatype VarianceMetrics = VarianceMetrics(
    genderExpression: real,
    visualWeight: real,
    embellishment: real,
    unconventionality: real,
    formality: real)
  {
    function Get(d: Dimension): real {
      match d
      case GenderExpression => genderExpression
      case VisualWeight => visualWeight
      case Embellishment => embellishment
      case Unconventionality => unconventionality
      case Formality => formality
    }
  }

  /** `VarianceMetrics()`: every field takes its default, zero. */
  function DefaultVarianceMetrics(): (v: VarianceMetrics)
    ensures forall d: Dimension :: v.Get(d) == 0.0
  {
    VarianceMetrics(0.0, 0.0, 0.0, 0.0, 0.0)
  }

  datatype TimingBreakdown = TimingBreakdown(
    urlValidationMs: int,
    imageFetchMs: int,
    geminiApiMs: int,
    aggregationMs: int,
    totalMs: int)

  /** `TimingBreakdown()`: every field takes its default, zero. */
  function DefaultTimingBreakdown(): (t: TimingBreakdown)
    ensures t.urlValidationMs == 0 && t.imageFetchMs == 0 && t.geminiApiMs == 0
    ensures t.aggregationMs == 0 && t.totalMs == 0
  {
    TimingBreakdown(0, 0, 0, 0, 0)
  }

  /** The `rate_limit_info` dictionary attached to a rate-limited failure. */
  datatype RateLimitInfo = RateLimitInfo(limit: string, resetTime: string, suggestions: seq<string>)

  /** The `error_type` tags of a failed measurement. */
  datatype ErrorType =
    | AllUrlsInvalid | ImageDownloadFailed | InvalidImageFormat | RateLimited
    | VisionModelError | ParseError | UnknownError
  {
    function Tag(): string {
      match this
      case AllUrlsInvalid => "all_urls_invalid"
      case ImageDownloadFailed => "image_download_failed"
      case InvalidImageFormat => "invalid_image_format"
      case RateLimited => "rate_limited"
      case VisionModelError => "vision_model_error"
      case ParseError => "parse_error"
      case UnknownError => "unknown_error"
    }
  }

  datatype ProductMeasurement = ProductMeasurement(
    productId: string,
    processingStatus: ProcessingStatus,
    visualDimensions: VisualDimensions,
    observableAttributes: ObservableAttributes,
    visualMetadata: VisualMetadata,
    aggregateConfidence: real,
    schemaVersion: string,
    apiVersion: string,
    errorType: Option<ErrorType>,
    errorMessage: Option<string>,
    retryAfterSeconds: Option<int>,
    rateLimitInfo: Option<RateLimitInfo>,
    imagesCapped: bool,
    totalImagesProvided: int,
    imagesSuccessfullyAnalyzed: int,
    processingTimeMs: int,
    perImageTimeMs: seq<int>,
    qualityFlags: QualityFlags,
    imageValidation: Option<ImageValidation>,
    perImageAnalysis: seq<PerImageAnalysis>,
    varianceMetrics: Option<VarianceMetrics>,
    aggregationMethod: string,
    timingBreakdown: Option<TimingBreakdown>,
    qualityScore: Option<real>,
    retryCount: int,
    modelUsed: Option<string>,
    modelsAttempted: Option<seq<string>>)

  /** The `aggregate_confidence` validator: values outside [0, 1] are rejected. */
  function ValidateAggregateConfidence(v: real): (r: Option<real>)
    ensures r.Some? <==> 0.0 <= v <= 1.0
    ensures r.Some? ==> r.value == v
  {
    if 0.0 <= v <= 1.0 then Some(v) else None
  }

  /** `ProductMeasurement(...)` given only the required fields: every other field
      takes its declared default, and the aggregate confidence is validated. */
  function NewMeasurement(
    productId: string,
    status: ProcessingStatus,
    dims: VisualDimensions,
    attrs: ObservableAttributes,
    meta: VisualMetadata,
    aggregateConfidence: real,
    flags: QualityFlags): (r: Option<ProductMeasurement>)
    ensures r.Some? <==> 0.0 <= aggregateConfidence <= 1.0
    ensures r.Some? ==>
      var m := r.value;
      && m.productId == productId && m.processingStatus == status
      && m.visualDimensions == dims && m.observableAttributes == attrs && m.visualMetadata == meta
      && m.aggregateConfidence == aggregateConfidence && m.qualityFlags == flags
      && m.schemaVersion == "1.0" && m.apiVersion == "1.0"
      && m.aggregationMethod == "confidence_weighted_average" && m.retryCount == 0
      && m.errorType.None? && m.errorMessage.None? && m.retryAfterSeconds.None? && m.rateLimitInfo.None?
      && !m.imagesCapped && m.totalImagesProvided == 0 && m.imagesSuccessfullyAnalyzed == 0
      && m.processingTimeMs == 0 && m.perImageTimeMs == [] && m.perImageAnalysis == []
      && m.imageValidation.None? && m.varianceMetrics.None? && m.timingBreakdown.None?
      && m.qualityScore.None? && m.modelUsed.None? && m.modelsAttempted == Some([])
  {
    match ValidateAggregateConfidence(aggregateConfidence)
    case None => None
    case Some(a) =>
      Some(ProductMeasurement(
        productId, status, dims, attrs, meta, a,
        "1.0", "1.0", None, None, None, None,
        false, 0, 0, 0, [], flags, None, [], None,
        "confidence_weighted_average", None, None, 0, None, Some([])))
  }
}
