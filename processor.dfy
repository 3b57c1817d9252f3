/** The per-product state machine (`ProductProcessor` in
    src/pipeline/processor.py): validate the URLs, cap them, fetch the
    images, analyse each with the vision client, parse and filter the
    answers, aggregate, then decorate the record with variance, flags,
    quality score and timings. Every stage that fails ends the product with a
    failed record tagged with its error type. The collaborators (the HEAD
    probe, the image fetch, the vision call, `json.loads`, `urlparse`, the
    square root) are parameters, and the clock readings are inputs. */
module Processor {
  import opened Wrappers
  import opened Text
  import opened Schema
  import opened JsonValue
  import opened ResponseParser
  import Enums
  import Settings
  import Aggregator
  import UrlValidator
  import GeminiClient
  import Loader
  import Retry
  import opened RealArith

  // ---------------------------------------------------------------------
  // _parse_retry_delay

  /** `retry in (\d+)` matches at `p` (case-insensitively). */
  predicate RetrySecondsAt(s: string, p: nat) {
    ContainsAt(Lower(s), RetryIn, p) && p + |RetryIn| < |s| && IsDigit(s[p + |RetryIn|])
  }

  const RetryIn: string := "retry in "

  /** Seconds assumed when the message names none. */
  const DefaultRetrySeconds: nat := 60

  /** `re.search`: the leftmost match at or after `from`. */
  function FirstRetrySeconds(s: string, from: nat): (r: Option<nat>)
    decreases |s| - from
    ensures r.Some? ==> from <= r.value && RetrySecondsAt(s, r.value)
    ensures r.Some? ==> forall p :: from <= p < r.value ==> !RetrySecondsAt(s, p)
    ensures r.None? ==> forall p :: from <= p ==> !RetrySecondsAt(s, p)
  {
    if from >= |s| then None
    else if RetrySecondsAt(s, from) then Some(from)
    else FirstRetrySeconds(s, from + 1)
  }

  /** `_parse_retry_delay`: the whole seconds after the first "retry in", else 60. */
  function ParseRetrySeconds(message: string): nat {
    match FirstRetrySeconds(message, 0)
    case None => DefaultRetrySeconds
    case Some(p) =>
      var start := p + |RetryIn|;
      DecimalValue(message[start..DigitRunEnd(message, start)])
  }

  /** A run of digits starting at `i` and ending at `e` is what the greedy `\d+` takes. */
  lemma {:induction false} DigitRunEndIs(s: string, i: nat, e: nat)
    requires i <= e <= |s| && AllDigits(s[i..e]) && (e == |s| || !IsDigit(s[e]))
    decreases e - i
    ensures DigitRunEnd(s, i) == e
  {
    if i < e {
      assert IsDigit(s[i..e][0]);
      assert s[i + 1..e] == s[i..e][1..];
      DigitRunEndIs(s, i + 1, e);
    }
  }

  /** Lower-casing a text leaves it in place wherever it is already lower case. */
  lemma LowerKeepsLowered(s: string, t: string, p: nat)
    requires ContainsAt(s, t, p) && Lower(t) == t
    ensures ContainsAt(Lower(s), t, p)
  {
    var l := Lower(s);
    forall k | 0 <= k < |t| ensures l[p..p + |t|][k] == t[k] {
      assert s[p + k] == t[k];
      assert Lower(t)[k] == LowerChar(t[k]);
    }
  }

  lemma RetryInLower()
    ensures Lower(RetryIn) == RetryIn
  {
  }

  /** A message that starts with "retry in n" reads back n, whatever follows the digits. */
  lemma RetrySecondsReadBack(n: nat, rest: string)
    requires rest == [] || !IsDigit(rest[0])
    ensures ParseRetrySeconds(RetryIn + NatToString(n) + rest) == n
  {
    var digits := NatToString(n);
    var m := RetryIn + digits + rest;
    var start := |RetryIn|;
    assert m[..start] == RetryIn;
    RetryInLower();
    LowerKeepsLowered(m, RetryIn, 0);
    assert m[start] == digits[0];
    assert RetrySecondsAt(m, 0);
    assert FirstRetrySeconds(m, 0) == Some(0);
    assert m[start..start + |digits|] == digits;
    DigitRunEndIs(m, start, start + |digits|);
  }

  /** Without a "retry in" followed by a digit the delay is 60 seconds. */
  lemma NoClauseSixty(message: string)
    requires forall p: nat :: !RetrySecondsAt(message, p)
    ensures ParseRetrySeconds(message) == DefaultRetrySeconds
  {
    assert FirstRetrySeconds(message, 0).None?;
  }

  /** The first clause decides, whatever later clauses say. */
  lemma FirstClauseDecides(message: string, p: nat)
    requires RetrySecondsAt(message, p)
    requires forall q :: 0 <= q < p ==> !RetrySecondsAt(message, q)
    ensures ParseRetrySeconds(message) ==
      DecimalValue(message[p + |RetryIn|..DigitRunEnd(message, p + |RetryIn|)])
  {
    var r := FirstRetrySeconds(message, 0);
    assert r.Some? && r.value == p;
  }

  // ---------------------------------------------------------------------
  // The two textual classifications of an exception

  /** The outer handler's test: "429", "quota" or "rate" in the lower-cased text. */
  predicate MentionsQuota(message: string) {
    var l := Lower(message);
    Contains(l, "429") || Contains(l, "quota") || Contains(l, "rate")
  }

  /** The vision loop's test: "rate", "quota" or "limit" in the lower-cased text. */
  predicate MentionsLimit(message: string) {
    var l := Lower(message);
    Contains(l, "rate") || Contains(l, "quota") || Contains(l, "limit")
  }

  /** The error type the vision loop reports for an exception of the client. */
  function VisionErrorOf(message: string): (e: ErrorType)
    ensures e == RateLimited <==> MentionsLimit(message)
    ensures e == RateLimited || e == VisionModelError
  {
    if MentionsLimit(message) then RateLimited else VisionModelError
  }

  lemma LowerKeepsDigit(c: char, d: char)
    requires IsDigit(d)
    ensures LowerChar(c) == d <==> c == d
  {
  }

  /** Lower-casing neither creates nor destroys an occurrence of a digit string. */
  lemma LowerFindsDigits(m: string, t: string, i: nat)
    requires AllDigits(t)
    ensures ContainsAt(Lower(m), t, i) <==> ContainsAt(m, t, i)
  {
    var l := Lower(m);
    if i + |t| <= |m| {
      forall k | 0 <= k < |t| ensures l[i + k] == t[k] <==> m[i + k] == t[k] {
        LowerKeepsDigit(m[i + k], t[k]);
      }
      if ContainsAt(l, t, i) {
        assert forall k :: 0 <= k < |t| ==> l[i..i + |t|][k] == t[k];
        assert forall k :: 0 <= k < |t| ==> m[i..i + |t|][k] == t[k];
      }
      if ContainsAt(m, t, i) {
        assert forall k :: 0 <= k < |t| ==> m[i..i + |t|][k] == t[k];
        assert forall k :: 0 <= k < |t| ==> l[i..i + |t|][k] == t[k];
      }
    }
  }

  /** The outer handler's test is the retry helper's rate-limit test: "429"
      is found in the lower-cased text exactly when it is in the text. */
  lemma MentionsQuotaIsRateLimitError(message: string)
    ensures MentionsQuota(message) <==> Retry.IsRateLimitError(message)
  {
    var l := Lower(message);
    forall i ensures ContainsAt(l, "429", i) <==> ContainsAt(message, "429", i) {
      if i >= 0 { LowerFindsDigits(message, "429", i); }
    }
  }

  /** A client that ran out of models makes the vision stage report `rate_limited`. */
  lemma ExhaustedClientIsRateLimited(lastError: Option<string>)
    ensures VisionErrorOf(GeminiClient.AllRateLimitedMessage(lastError)) == RateLimited
  {
    GeminiClient.ExhaustionMessageIsRateLimited(lastError);
  }

  // ---------------------------------------------------------------------
  // _apply_product_rate_limit

  /** How long the processor sleeps before a product that starts at `now`,
      the previous one having started at `lastStart` (0 before the first). */
  function PacingDelay(lastStart: real, now: real): real {
    var elapsed := now - lastStart;
    if lastStart > 0.0 && elapsed < Settings.ApiCallDelaySeconds then Settings.ApiCallDelaySeconds - elapsed else 0.0
  }

  /** The pause is never negative and is only taken after a product that
      started less than the delay ago; once it is over, at least the delay has
      passed since the previous start. */
  lemma PacingSpacesProducts(lastStart: real, now: real, resumed: real)
    requires resumed >= now + PacingDelay(lastStart, now)
    ensures PacingDelay(lastStart, now) >= 0.0
    ensures PacingDelay(lastStart, now) > 0.0 <==> lastStart > 0.0 && now - lastStart < Settings.ApiCallDelaySeconds
    ensures lastStart <= now ==> PacingDelay(lastStart, now) <= Settings.ApiCallDelaySeconds
    ensures lastStart > 0.0 ==> resumed - lastStart >= Settings.ApiCallDelaySeconds || now - lastStart >= Settings.ApiCallDelaySeconds
  {
  }

  // ---------------------------------------------------------------------
  // _create_failed_measurement

  /** The guidance attached to a rate-limited failure. */
  const FreeTierInfo: RateLimitInfo := RateLimitInfo(
    "20 requests/day (free tier)",
    "Daily at midnight UTC",
    ["Wait for the specified retry delay",
     "Create a new Gemini API key for fresh quota",
     "Upgrade to paid tier for higher limits (1500 RPM)"])

  /** The failed record: zero dimensions, the default tags, no colours,
      aggregate confidence 0, the low-confidence flag, and the partial flag
      whenever images were provided; the rest is what the stage passes on. */
  function FailedMeasurement(
    productId: string,
    errorType: ErrorType,
    errorMessage: Option<string>,
    totalImages: int,
    imagesCapped: bool,
    processingTimeMs: int,
    perImageTimes: seq<int>,
    imageValidation: Option<ImageValidation>,
    retryAfterSeconds: Option<int>,
    rateLimitInfo: Option<RateLimitInfo>,
    timingBreakdown: Option<TimingBreakdown>): ProductMeasurement
  {
    var zero := VisualDimension(0.0, 0.0);
    var m := NewMeasurement(
      productId, Enums.ProcessingStatus.Failed,
      VisualDimensions(zero, zero, zero, zero, zero),
      ObservableAttributes(false, Enums.FrameGeometry.Unknown, Enums.Transparency.Opaque, [], Enums.SurfaceTexture.Smooth, false),
      VisualMetadata(Enums.FrameMaterialApparent.Indeterminate, Enums.LensTint.Indeterminate, false, Enums.TempleStyle.Indeterminate),
      0.0,
      QualityFlags(true, false, false, totalImages > 0)).value;
    m.(errorType := Some(errorType), errorMessage := errorMessage,
       retryAfterSeconds := retryAfterSeconds, rateLimitInfo := rateLimitInfo,
       imagesCapped := imagesCapped, totalImagesProvided := totalImages,
       processingTimeMs := processingTimeMs, perImageTimeMs := perImageTimes,
       imageValidation := imageValidation, timingBreakdown := timingBreakdown)
  }

  /** A failed record says "failed" and carries its tag; it analysed nothing,
      and its analysis fields are exactly those of the aggregator's sentinel
      for no analyses, so its aggregate confidence is 0 and its
      low-confidence flag is raised. */
  lemma FailedSentinel(
    productId: string, errorType: ErrorType, errorMessage: Option<string>, totalImages: int,
    imagesCapped: bool, processingTimeMs: int, perImageTimes: seq<int>, imageValidation: Option<ImageValidation>,
    retryAfterSeconds: Option<int>, rateLimitInfo: Option<RateLimitInfo>, timingBreakdown: Option<TimingBreakdown>)
    ensures var m := FailedMeasurement(productId, errorType, errorMessage, totalImages, imagesCapped, processingTimeMs,
                                       perImageTimes, imageValidation, retryAfterSeconds, rateLimitInfo, timingBreakdown);
      var empty := Aggregator.EmptyMeasurement(productId);
      && m.productId == productId
      && m.processingStatus == Enums.ProcessingStatus.Failed && m.errorType == Some(errorType)
      && m.visualDimensions == empty.visualDimensions
      && m.observableAttributes == empty.observableAttributes
      && m.visualMetadata == empty.visualMetadata
      && m.aggregateConfidence == empty.aggregateConfidence == 0.0
      && Aggregator.AggregateConfidence(m.visualDimensions) == 0.0
      && m.imagesSuccessfullyAnalyzed == 0 && m.perImageAnalysis == []
      && m.qualityFlags.lowConfidence && !m.qualityFlags.highVariance && !m.qualityFlags.singleImageOnly
      && (m.qualityFlags.partialAnalysis <==> totalImages > 0)
      && m.totalImagesProvided == totalImages && m.imagesCapped == imagesCapped
      && m.errorMessage == errorMessage && m.retryAfterSeconds == retryAfterSeconds && m.rateLimitInfo == rateLimitInfo
      && m.perImageTimeMs == perImageTimes && m.imageValidation == imageValidation && m.timingBreakdown == timingBreakdown
      && m.varianceMetrics.None? && m.qualityScore.None? && m.modelUsed.None?
  {
    var zero := VisualDimension(0.0, 0.0);
    Aggregator.MeanBetween(Aggregator.FusedConfidences(VisualDimensions(zero, zero, zero, zero, zero)), 0.0, 0.0);
  }

  // ---------------------------------------------------------------------
  // The outer exception handler

  /** The message of a rate-limited failure. */
  function QuotaMessage(seconds: nat): string {
    "API quota exceeded. Please retry in " + NatToString(seconds) + " seconds or use a fresh API key."
  }

  /** What the handler of an unexpected exception returns: a rate-limit text
      gives `rate_limited` with the parsed delay, the static guidance and the
      URL validation already done; any other text gives `unknown_error`. */
  function HandledFailure(productId: string, message: string, totalImages: int, processingTimeMs: int,
                          validation: Option<ImageValidation>): ProductMeasurement
  {
    if MentionsQuota(message) then
      var seconds := ParseRetrySeconds(message);
      FailedMeasurement(productId, RateLimited, Some(QuotaMessage(seconds)), totalImages, false, processingTimeMs,
                        [], validation, Some(seconds), Some(FreeTierInfo), None)
    else
      FailedMeasurement(productId, UnknownError, Some("Processing failed: " + message), totalImages, false,
                        processingTimeMs, [], None, None, None, None)
  }

  /** The handler classifies by the same test as the retry helper, and only the
      rate-limited branch keeps the validation results and the delay. */
  lemma HandledFailureShape(productId: string, message: string, totalImages: int, processingTimeMs: int,
                            validation: Option<ImageValidation>)
    ensures var m := HandledFailure(productId, message, totalImages, processingTimeMs, validation);
      && m.processingStatus == Enums.ProcessingStatus.Failed
      && (m.errorType == Some(RateLimited) <==> Retry.IsRateLimitError(message))
      && (m.errorType == Some(UnknownError) <==> !Retry.IsRateLimitError(message))
      && (Retry.IsRateLimitError(message) ==>
            && m.retryAfterSeconds == Some(ParseRetrySeconds(message) as int)
            && m.rateLimitInfo == Some(FreeTierInfo) && m.imageValidation == validation)
      && (!Retry.IsRateLimitError(message) ==>
            m.retryAfterSeconds.None? && m.rateLimitInfo.None? && m.imageValidation.None?)
      && !m.imagesCapped && m.timingBreakdown.None? && m.totalImagesProvided == totalImages
  {
    MentionsQuotaIsRateLimitError(message);
  }

  /** A message with "retry in n" up front gives a delay of n seconds. */
  lemma QuotaDelayReadBack(productId: string, n: nat, rest: string, totalImages: int, processingTimeMs: int,
                           validation: Option<ImageValidation>)
    requires rest == [] || !IsDigit(rest[0])
    requires MentionsQuota(RetryIn + NatToString(n) + rest)
    ensures HandledFailure(productId, RetryIn + NatToString(n) + rest, totalImages, processingTimeMs, validation).retryAfterSeconds == Some(n)
  {
    RetrySecondsReadBack(n, rest);
  }

  // ---------------------------------------------------------------------
  // URL validation and the cap

  /** The validation result of every URL, each against its own probe. */
  function ValidationResults(urls: seq<string>, urlparse: string -> Option<UrlValidator.ParsedUrl>,
                             probe: string -> UrlValidator.Probe): (rs: seq<UrlValidator.ValidationResult>)
    ensures |rs| == |urls|
  {
    seq(|urls|, i requires 0 <= i < |urls| => UrlValidator.ValidateImageUrl(urls[i], urlparse, Settings.UrlValidationTimeout, probe(urls[i])))
  }

  function TextOf(o: Option<string>): string {
    match o case None => "" case Some(t) => t
  }

  function InvalidUrlOf(e: UrlValidator.InvalidEntry): InvalidUrl {
    InvalidUrl(e.url, TextOf(e.errorType), TextOf(e.errorMessage))
  }

  /** The `ImageValidation` record built from the report. */
  function ValidationOf(report: UrlValidator.UrlReport): (v: ImageValidation)
    ensures |v.invalidUrls| == |report.invalidUrls|
  {
    ImageValidation(report.total, report.validCount, report.invalidCount,
      seq(|report.invalidUrls|, i requires 0 <= i < |report.invalidUrls| => InvalidUrlOf(report.invalidUrls[i])))
  }

  /** Every invalid URL of the report carries its error tag and message, so
      the `InvalidUrl` records hold the validator's texts (never a missing one). */
  lemma ValidationCarriesErrors(urls: seq<string>, urlparse: string -> Option<UrlValidator.ParsedUrl>,
                                probe: string -> UrlValidator.Probe)
    ensures var report := UrlValidator.Report(ValidationResults(urls, urlparse, probe));
      var v := ValidationOf(report);
      && v.totalProvided == |urls| && v.validCount + v.invalidCount == |urls|
      && forall k :: 0 <= k < |report.invalidUrls| ==>
           && report.invalidUrls[k].errorType.Some? && report.invalidUrls[k].errorMessage.Some?
           && v.invalidUrls[k] == InvalidUrl(report.invalidUrls[k].url, report.invalidUrls[k].errorType.value,
                                             report.invalidUrls[k].errorMessage.value)
  {
    var results := ValidationResults(urls, urlparse, probe);
    UrlValidator.InvalidEntriesFromInvalidResults(results);
    var report := UrlValidator.Report(results);
    forall k | 0 <= k < |report.invalidUrls|
      ensures report.invalidUrls[k].errorType.Some? && report.invalidUrls[k].errorMessage.Some?
    {
      assert report.invalidUrls[k] in UrlValidator.InvalidEntries(results);
    }
  }

  /** `valid_urls[:MAX_IMAGES_PER_PRODUCT]`. */
  function Capped(valid: seq<string>): (capped: seq<string>)
    ensures |capped| <= Settings.MaxImagesPerProduct
    ensures |capped| == if |valid| > Settings.MaxImagesPerProduct then Settings.MaxImagesPerProduct else |valid|
    ensures capped == valid[..|capped|]
  {
    if |valid| > Settings.MaxImagesPerProduct then valid[..Settings.MaxImagesPerProduct] else valid
  }

  // ---------------------------------------------------------------------
  // _load_images_with_tracking

  /** What `ImageLoader.load` does for one URL: the bytes, `None` (a non-200
      answer or a swallowed error), or an exception gathered as a value. */
  datatype FetchOutcome = Fetched(data: seq<bv8>) | NoImage | Raised(message: string)

  /** `asyncio.gather` over the URLs: one outcome per URL, in URL order. */
  function Gathered(urls: seq<string>, fetch: string -> FetchOutcome): (os: seq<FetchOutcome>)
    ensures |os| == |urls|
  {
    seq(|urls|, i requires 0 <= i < |urls| => fetch(urls[i]))
  }

  predicate AnyRaised(outcomes: seq<FetchOutcome>) {
    exists i :: 0 <= i < |outcomes| && outcomes[i].Raised?
  }

  /** `[img for img in image_results if img is not None]`. */
  function LoadedImages(outcomes: seq<FetchOutcome>): (images: seq<seq<bv8>>)
    ensures |images| <= |outcomes|
  {
    if outcomes == [] then []
    else
      var last := outcomes[|outcomes| - 1];
      LoadedImages(outcomes[..|outcomes| - 1]) + (if last.Fetched? then [last.data] else [])
  }

  /** The images kept are the fetched ones, in order: all of them exactly
      when every URL gave bytes, none exactly when none did. */
  lemma {:induction false} LoadedImagesMeaning(outcomes: seq<FetchOutcome>)
    ensures |LoadedImages(outcomes)| == |outcomes| <==> forall i :: 0 <= i < |outcomes| ==> outcomes[i].Fetched?
    ensures LoadedImages(outcomes) == [] <==> forall i :: 0 <= i < |outcomes| ==> !outcomes[i].Fetched?
    ensures forall b :: b in LoadedImages(outcomes) <==> Fetched(b) in outcomes
  {
    if outcomes != [] {
      var init := outcomes[..|outcomes| - 1];
      LoadedImagesMeaning(init);
      assert forall i :: 0 <= i < |init| ==> init[i] == outcomes[i];
      assert outcomes == init + [outcomes[|outcomes| - 1]];
    }
  }

  /** `_load_images_with_tracking`: any exception among the gathered outcomes
      fails the whole batch with `image_download_failed` and no images. */
  method LoadImagesWithTracking(urls: seq<string>, fetch: string -> FetchOutcome)
    returns (results: seq<FetchOutcome>, loadError: Option<ErrorType>)
    ensures loadError.Some? <==> AnyRaised(Gathered(urls, fetch))
    ensures loadError.Some? ==> loadError == Some(ImageDownloadFailed) && results == []
    ensures loadError.None? ==> results == Gathered(urls, fetch)
  {
    var gathered := Gathered(urls, fetch);
    var i := 0;
    while i < |gathered|
      invariant 0 <= i <= |gathered|
      invariant forall j :: 0 <= j < i ==> !gathered[j].Raised?
    {
      if gathered[i].Raised? {
        return [], Some(ImageDownloadFailed);
      }
      i := i + 1;
    }
    return gathered, None;
  }

  // ---------------------------------------------------------------------
  // _analyze_images_with_tracking

  /** What the loop over the images returns: the answers and their times so
      far, the error type that stopped it, and the pauses it took. */
  datatype VisionRun = VisionRun(responses: seq<string>, timings: seq<int>, error: Option<ErrorType>, sleeps: seq<real>)

  /** The loop from image i on. `vision(i)` is what the client's call on the
      i-th image returns or raises; `imageMs(i)` the time that call took. */
  function VisionFrom(count: nat, vision: nat -> Result<string>, imageMs: nat -> int, i: nat): (run: VisionRun)
    requires i <= count
    decreases count - i
    ensures |run.responses| == |run.timings| <= count - i
  {
    if i == count then VisionRun([], [], None, [])
    else
      var pause := if i > 0 then [Settings.ApiCallDelaySeconds] else [];
      match vision(i)
      case Failure(e) => VisionRun([], [], Some(VisionErrorOf(e)), pause)
      case Success(text) =>
        var rest := VisionFrom(count, vision, imageMs, i + 1);
        VisionRun([text] + rest.responses, [imageMs(i)] + rest.timings, rest.error, pause + rest.sleeps)
  }

  /** How many calls a run from image i made. */
  function Attempted(run: VisionRun): nat {
    |run.responses| + if run.error.Some? then 1 else 0
  }

  /** The loop answers images in order until the first exception: the answers
      are the calls' texts, the times theirs; it stops with that exception's
      classification, or runs to the end without an error; before every call
      but the very first it pauses for the inter-call delay. */
  lemma {:induction false} VisionFromShape(count: nat, vision: nat -> Result<string>, imageMs: nat -> int, i: nat)
    requires i <= count
    decreases count - i
    ensures var run := VisionFrom(count, vision, imageMs, i);
      && (forall k :: 0 <= k < |run.responses| ==> vision(i + k) == Success(run.responses[k]) && run.timings[k] == imageMs(i + k))
      && (run.error.None? ==> |run.responses| == count - i)
      && (run.error.Some? ==> (
            && i + |run.responses| < count && vision(i + |run.responses|).Failure?
            && run.error == Some(VisionErrorOf(vision(i + |run.responses|).error))))
      && (forall k :: 0 <= k < |run.sleeps| ==> run.sleeps[k] == Settings.ApiCallDelaySeconds)
      && |run.sleeps| + (if i == 0 && Attempted(run) > 0 then 1 else 0) == Attempted(run)
  {
    if i < count {
      if vision(i).Success? {
        VisionFromShape(count, vision, imageMs, i + 1);
      }
    }
  }

  /** Two stretches of the loop one after the other. */
  function Then(done: VisionRun, rest: VisionRun): VisionRun {
    VisionRun(done.responses + rest.responses, done.timings + rest.timings, rest.error, done.sleeps + rest.sleeps)
  }

  /** `_analyze_images_with_tracking`. The sleeps are returned instead of taken. */
  method AnalyzeImagesWithTracking(images: seq<seq<bv8>>, vision: nat -> Result<string>, imageMs: nat -> int)
    returns (results: seq<string>, timings: seq<int>, error: Option<ErrorType>, sleeps: seq<real>)
    ensures VisionRun(results, timings, error, sleeps) == VisionFrom(|images|, vision, imageMs, 0)
  {
    results, timings, sleeps := [], [], [];
    var i := 0;
    while i < |images|
      invariant 0 <= i <= |images|
      invariant Then(VisionRun(results, timings, None, sleeps), VisionFrom(|images|, vision, imageMs, i))
                == VisionFrom(|images|, vision, imageMs, 0)
      decreases |images| - i
    {
      var pause := if i > 0 then [Settings.ApiCallDelaySeconds] else [];
      sleeps := sleeps + pause;
      var outcome := vision(i);
      if outcome.Failure? {
        return results, timings, Some(VisionErrorOf(outcome.error)), sleeps;
      }
      var rest := VisionFrom(|images|, vision, imageMs, i + 1);
      assert results + ([outcome.value] + rest.responses) == (results + [outcome.value]) + rest.responses;
      assert timings + ([imageMs(i)] + rest.timings) == (timings + [imageMs(i)]) + rest.timings;
      results := results + [outcome.value];
      timings := timings + [imageMs(i)];
      i := i + 1;
    }
    error := None;
    assert results + [] == results && timings + [] == timings && sleeps + [] == sleeps;
  }

  // ---------------------------------------------------------------------
  // Parsing the answers, with the confidence filter

  /** A parse of every answer, in order. */
  function ParsesWith(raws: seq<string>, parse: string -> Option<ParsedImageAnalysis>): (ps: seq<Option<ParsedImageAnalysis>>)
    ensures |ps| == |raws|
  {
    seq(|raws|, i requires 0 <= i < |raws| => parse(raws[i]))
  }

  /** `parse_vision_response` on every answer; every parse is valid. */
  function Parses(raws: seq<string>, decode: string -> Option<Json>): (ps: seq<Option<ParsedImageAnalysis>>)
    ensures |ps| == |raws|
    ensures forall i :: 0 <= i < |ps| && ps[i].Some? ==> ps[i].value.Valid()
  {
    ParsesWith(raws, ParserOf(decode))
  }

  /** `parse_vision_response`, over the given `json.loads`. */
  function ParserOf(decode: string -> Option<Json>): string -> Option<ParsedImageAnalysis> {
    raw => ParseVisionResponse(raw, decode)
  }

  /** The mean of an image's five confidences (the filter's `sum(...) / 5`). */
  function ImageConfidence(a: ParsedImageAnalysis): real {
    Aggregator.AggregateConfidence(a.visualDimensions)
  }

  /** The label of the i-th answer: its URL, or `image_i` past the end of the list. */
  function ImageLabel(urls: seq<string>, i: nat): string {
    if i < |urls| then urls[i] else "image_" + NatToString(i)
  }

  /** The time of the i-th answer, 0 past the end of the list. */
  function TimeAt(times: seq<int>, i: nat): int {
    if i < |times| then times[i] else 0
  }

  /** The kept analyses, their per-image records, and how many were dropped for low confidence. */
  datatype ParseOutcome = ParseOutcome(parsed: seq<ParsedImageAnalysis>, perImage: seq<PerImageAnalysis>, rejected: nat)

  /** The parsing loop over the answers' parses, in order. */
  function ParsedFrom(parses: seq<Option<ParsedImageAnalysis>>, urls: seq<string>, times: seq<int>): (p: ParseOutcome)
    ensures |p.perImage| == |p.parsed|
    ensures |p.parsed| + p.rejected <= |parses|
  {
    if parses == [] then ParseOutcome([], [], 0)
    else
      var i := |parses| - 1;
      var before := ParsedFrom(parses[..i], urls, times);
      match parses[i]
      case None => before
      case Some(a) =>
        if ImageConfidence(a) < Settings.MinConfidenceThreshold then before.(rejected := before.rejected + 1)
        else ParseOutcome(before.parsed + [a],
                          before.perImage + [PerImageAnalysis(ImageLabel(urls, i), a.visualDimensions, TimeAt(times, i))],
                          before.rejected)
  }

  /** A parse that the confidence filter lets through. */
  predicate Passes(o: Option<ParsedImageAnalysis>) {
    o.Some? && ImageConfidence(o.value) >= Settings.MinConfidenceThreshold
  }

  /** The positions of the answers whose parse passes the filter, in order. */
  function KeptIndices(parses: seq<Option<ParsedImageAnalysis>>): (idx: seq<nat>)
    ensures forall k :: 0 <= k < |idx| ==> idx[k] < |parses|
  {
    if parses == [] then []
    else
      var n := |parses| - 1;
      KeptIndices(parses[..n]) + if Passes(parses[n]) then [n] else []
  }

  /** The k-th kept analysis is the parse of the answer at the k-th kept
      position, and its per-image record carries that answer's URL and time. */
  lemma {:induction false} KeptAreParses(parses: seq<Option<ParsedImageAnalysis>>, urls: seq<string>, times: seq<int>)
    ensures var p := ParsedFrom(parses, urls, times);
      var idx := KeptIndices(parses);
      && |p.parsed| == |idx|
      && forall k :: 0 <= k < |idx| ==>
           && parses[idx[k]] == Some(p.parsed[k])
           && p.perImage[k] == PerImageAnalysis(ImageLabel(urls, idx[k]), p.parsed[k].visualDimensions, TimeAt(times, idx[k]))
  {
    if parses != [] {
      var n := |parses| - 1;
      var init := parses[..n];
      KeptAreParses(init, urls, times);
      assert forall i :: 0 <= i < n ==> init[i] == parses[i];
    }
  }

  /** The kept positions are exactly the answers whose parse passes, each once and in answer order. */
  lemma {:induction false} KeptIndicesMeaning(parses: seq<Option<ParsedImageAnalysis>>)
    ensures var idx := KeptIndices(parses);
      && (forall i :: i in idx <==> 0 <= i < |parses| && Passes(parses[i]))
      && (forall k, l :: 0 <= k < l < |idx| ==> idx[k] < idx[l])
  {
    if parses != [] {
      var n := |parses| - 1;
      var init := parses[..n];
      KeptIndicesMeaning(init);
      assert forall i :: 0 <= i < n ==> init[i] == parses[i];
    }
  }

  /** The rejected count is the number of parsed answers the filter drops. */
  function Dropped(parses: seq<Option<ParsedImageAnalysis>>): nat {
    if parses == [] then 0
    else
      var n := |parses| - 1;
      Dropped(parses[..n]) + if parses[n].Some? && !Passes(parses[n]) then 1 else 0
  }

  /** Every parsed answer is either kept or counted as rejected; the failed
      parses are neither. */
  lemma {:induction false} KeptPlusRejected(parses: seq<Option<ParsedImageAnalysis>>, urls: seq<string>, times: seq<int>)
    ensures ParsedFrom(parses, urls, times).rejected == Dropped(parses)
    ensures |KeptIndices(parses)| + Dropped(parses) == |set i | 0 <= i < |parses| && parses[i].Some?|
  {
    if parses != [] {
      var n := |parses| - 1;
      var init := parses[..n];
      KeptPlusRejected(init, urls, times);
      KeptAreParses(parses, urls, times);
      KeptAreParses(init, urls, times);
      var before := set i | 0 <= i < n && init[i].Some?;
      var after := set i | 0 <= i < |parses| && parses[i].Some?;
      assert forall i :: 0 <= i < n ==> init[i] == parses[i];
      if parses[n].Some? {
        assert after == before + {n};
      } else {
        assert after == before;
      }
    }
  }

  /** The kept analyses are valid when the parses are, as the aggregator requires. */
  lemma {:induction false} ParsedFromValid(parses: seq<Option<ParsedImageAnalysis>>, urls: seq<string>, times: seq<int>)
    requires forall i :: 0 <= i < |parses| && parses[i].Some? ==> parses[i].value.Valid()
    ensures Aggregator.AnalysesValid(ParsedFrom(parses, urls, times).parsed)
  {
    if parses != [] {
      var n := |parses| - 1;
      ParsedFromValid(parses[..n], urls, times);
    }
  }

  /** The parsing loop of `process_product`, with `parse` for `parse_vision_response`. */
  method ParseResponses(raws: seq<string>, parse: string -> Option<ParsedImageAnalysis>, urls: seq<string>, times: seq<int>)
    returns (parsed: seq<ParsedImageAnalysis>, perImage: seq<PerImageAnalysis>, rejected: nat)
    ensures ParseOutcome(parsed, perImage, rejected) == ParsedFrom(ParsesWith(raws, parse), urls, times)
  {
    ghost var parses := ParsesWith(raws, parse);
    parsed, perImage, rejected := [], [], 0;
    var i := 0;
    while i < |raws|
      invariant 0 <= i <= |raws|
      invariant ParseOutcome(parsed, perImage, rejected) == ParsedFrom(parses[..i], urls, times)
    {
      assert parses[..i + 1][..i] == parses[..i];
      var a := parse(raws[i]);
      assert parses[..i + 1][i] == a;
      if a.Some? {
        if ImageConfidence(a.value) < Settings.MinConfidenceThreshold {
          rejected := rejected + 1;
        } else {
          parsed := parsed + [a.value];
          perImage := perImage + [PerImageAnalysis(ImageLabel(urls, i), a.value.visualDimensions, TimeAt(times, i))];
        }
      }
      i := i + 1;
    }
    assert parses[..i] == parses;
  }

  // ---------------------------------------------------------------------
  // _calculate_variance_metrics

  function Square(x: real): real {
    Product(x, x)
  }

  /** The sum of the squared distances of the values from `mean`. */
  function SquaredDeviations(xs: seq<real>, mean: real): (r: real)
    ensures r >= 0.0
  {
    if xs == [] then 0.0
    else
      var d := xs[|xs| - 1] - mean;
      SquareNonNegative(d);
      SquaredDeviations(xs[..|xs| - 1], mean) + Square(d)
  }

  /** The sample variance that `statistics.stdev` takes the root of. */
  function SampleVariance(xs: seq<real>): real
    requires |xs| >= 2
  {
    SquaredDeviations(xs, Aggregator.Mean(xs)) / (|xs| - 1) as real
  }

  lemma QuotientNonNegative(a: real, b: real)
    requires a >= 0.0 && b > 0.0
    ensures a / b >= 0.0
  {
  }

  /** A square is positive unless its root is 0. */
  lemma NonzeroSquare(d: real)
    requires d != 0.0
    ensures Square(d) > 0.0
  {
    if d > 0.0 {
      ProductOfPositives(d, d);
    } else {
      ProductOfNegatives(d, d);
    }
  }

  lemma SquareNonNegative(d: real)
    ensures Square(d) >= 0.0
  {
    if d == 0.0 {
      ProductWithZero(d, d);
    } else {
      NonzeroSquare(d);
    }
  }

  /** Values all at the mean deviate by nothing. */
  lemma {:induction false} SquaredDeviationsVanish(xs: seq<real>, mean: real)
    requires forall i :: 0 <= i < |xs| ==> xs[i] == mean
    ensures SquaredDeviations(xs, mean) == 0.0
  {
    if xs != [] {
      var n := |xs| - 1;
      SquaredDeviationsVanish(xs[..n], mean);
      ProductWithZero(xs[n] - mean, xs[n] - mean);
    }
  }

  /** One value away from the mean makes the squared deviations positive. */
  lemma {:induction false} SquaredDeviationsPositive(xs: seq<real>, mean: real, i: nat)
    requires i < |xs| && xs[i] != mean
    ensures SquaredDeviations(xs, mean) > 0.0
  {
    var n := |xs| - 1;
    var d := xs[n] - mean;
    assert SquaredDeviations(xs, mean) == SquaredDeviations(xs[..n], mean) + Square(d);
    if i == n {
      NonzeroSquare(d);
    } else {
      assert xs[..n][i] == xs[i];
      SquaredDeviationsPositive(xs[..n], mean, i);
      SquareNonNegative(d);
    }
  }

  lemma QuotientPositive(a: real, b: real)
    requires a > 0.0 && b > 0.0
    ensures a / b > 0.0
  {
  }

  /** The sample variance is never negative; it is 0 when all values are
      equal and positive as soon as two differ. */
  lemma SampleVarianceMeaning(xs: seq<real>)
    requires |xs| >= 2
    ensures SampleVariance(xs) >= 0.0
    ensures (forall i :: 0 <= i < |xs| ==> xs[i] == xs[0]) ==> SampleVariance(xs) == 0.0
    ensures (exists i :: 0 <= i < |xs| && xs[i] != xs[0]) ==> SampleVariance(xs) > 0.0
  {
    var m := Aggregator.Mean(xs);
    var s := SquaredDeviations(xs, m);
    var n := (|xs| - 1) as real;
    QuotientNonNegative(s, n);
    if forall i :: 0 <= i < |xs| ==> xs[i] == xs[0] {
      Aggregator.MeanBetween(xs, xs[0], xs[0]);
      SquaredDeviationsVanish(xs, m);
    }
    if exists i :: 0 <= i < |xs| && xs[i] != xs[0] {
      var i :| 0 <= i < |xs| && xs[i] != xs[0];
      if xs[0] != m {
        SquaredDeviationsPositive(xs, m, 0);
      } else {
        SquaredDeviationsPositive(xs, m, i);
      }
      QuotientPositive(s, n);
    }
  }

  /** `_calculate_variance_metrics`: the standard deviation of each
      dimension's scores across the images, or all zeros below two images. */
  function VarianceMetricsOf(parsed: seq<ParsedImageAnalysis>, sqrt: real -> real): VarianceMetrics {
    if |parsed| < 2 then DefaultVarianceMetrics()
    else
      var sd := (d: Dimension) => sqrt(SampleVariance(Aggregator.ScoresOf(parsed, d)));
      VarianceMetrics(sd(GenderExpression), sd(VisualWeight), sd(Embellishment), sd(Unconventionality), sd(Formality))
  }

  /** Every dimension's metric is the root of its scores' sample variance
      (zeros below two images); a dimension on which all images agree gets
      sqrt(0), and no metric is negative when the root is not. */
  lemma VarianceMetricsMeaning(parsed: seq<ParsedImageAnalysis>, sqrt: real -> real, d: Dimension)
    ensures |parsed| < 2 ==> VarianceMetricsOf(parsed, sqrt).Get(d) == 0.0
    ensures |parsed| >= 2 ==> VarianceMetricsOf(parsed, sqrt).Get(d) == sqrt(SampleVariance(Aggregator.ScoresOf(parsed, d)))
    ensures |parsed| >= 2 && (forall i :: 0 <= i < |parsed| ==> parsed[i].visualDimensions.Get(d).score == parsed[0].visualDimensions.Get(d).score)
      ==> VarianceMetricsOf(parsed, sqrt).Get(d) == sqrt(0.0)
    ensures (forall x :: x >= 0.0 ==> sqrt(x) >= 0.0) ==> VarianceMetricsOf(parsed, sqrt).Get(d) >= 0.0
  {
    if |parsed| >= 2 {
      var ss := Aggregator.ScoresOf(parsed, d);
      SampleVarianceMeaning(ss);
    }
  }

  // ---------------------------------------------------------------------
  // _calculate_quality_flags

  /** The five scores of one analysis, in the source's order. */
  function FiveScores(a: ParsedImageAnalysis): (ss: seq<real>)
    ensures |ss| == 5
  {
    var vd := a.visualDimensions;
    [vd.genderExpression.score, vd.visualWeight.score, vd.embellishment.score, vd.unconventionality.score, vd.formality.score]
  }

  /** `all_scores`: every score of every image, pooled. */
  function AllScores(parsed: seq<ParsedImageAnalysis>): (ss: seq<real>)
    ensures |ss| == 5 * |parsed|
  {
    if parsed == [] then []
    else AllScores(parsed[..|parsed| - 1]) + FiveScores(parsed[|parsed| - 1])
  }

  lemma FiveScoresMembers(a: ParsedImageAnalysis, x: real)
    ensures x in FiveScores(a) <==> exists d: Dimension :: a.visualDimensions.Get(d).score == x
  {
    if x in FiveScores(a) {
      var k :| 0 <= k < 5 && FiveScores(a)[k] == x;
      var d := Schema.AllDimensions[k];
      assert a.visualDimensions.Get(d).score == x;
    }
  }

  /** The pool holds exactly the scores of the images, on every dimension. */
  lemma {:induction false} AllScoresMembers(parsed: seq<ParsedImageAnalysis>, x: real)
    ensures x in AllScores(parsed) <==> exists k, d: Dimension :: 0 <= k < |parsed| && parsed[k].visualDimensions.Get(d).score == x
  {
    if parsed != [] {
      var n := |parsed| - 1;
      var init := parsed[..n];
      AllScoresMembers(init, x);
      FiveScoresMembers(parsed[n], x);
      assert forall k :: 0 <= k < n ==> init[k] == parsed[k];
      if exists k, d: Dimension :: 0 <= k < |parsed| && parsed[k].visualDimensions.Get(d).score == x {
        var k, d: Dimension :| 0 <= k < |parsed| && parsed[k].visualDimensions.Get(d).score == x;
        if k < n {
          assert init[k].visualDimensions.Get(d).score == x;
        }
      }
    }
  }

  /** `_calculate_quality_flags`. `successful` counts the images that were
      fetched and `total` the URLs the product came with. */
  function ProcessorQualityFlags(aggregateConfidence: real, parsed: seq<ParsedImageAnalysis>, successful: nat, total: nat): QualityFlags {
    QualityFlags(
      aggregateConfidence < 0.5,
      |parsed| > 1 && Aggregator.SpreadExceeds(AllScores(parsed)),
      successful == 1,
      successful < total)
  }

  /** Two scores more than 2 apart, on any dimensions of any two images. */
  ghost predicate PooledFarApart(parsed: seq<ParsedImageAnalysis>) {
    exists k1, k2, d1: Dimension, d2: Dimension :: 0 <= k1 < |parsed| && 0 <= k2 < |parsed|
      && parsed[k1].visualDimensions.Get(d1).score - parsed[k2].visualDimensions.Get(d2).score > 2.0
  }

  /** The high-variance flag pools all scores: it is raised exactly when
      there are several images and some two scores, of any images on any
      dimensions, are more than 2 apart. */
  lemma PooledHighVariance(aggregateConfidence: real, parsed: seq<ParsedImageAnalysis>, successful: nat, total: nat)
    ensures ProcessorQualityFlags(aggregateConfidence, parsed, successful, total).highVariance <==>
      |parsed| > 1 && PooledFarApart(parsed)
  {
    if |parsed| > 1 {
      var all := AllScores(parsed);
      Aggregator.SpreadIff(all);
      if Aggregator.SpreadExceeds(all) {
        var i, j :| 0 <= i < |all| && 0 <= j < |all| && all[i] - all[j] > 2.0;
        AllScoresMembers(parsed, all[i]);
        AllScoresMembers(parsed, all[j]);
      }
      if PooledFarApart(parsed) {
        var k1, k2, d1: Dimension, d2: Dimension :| 0 <= k1 < |parsed| && 0 <= k2 < |parsed|
          && parsed[k1].visualDimensions.Get(d1).score - parsed[k2].visualDimensions.Get(d2).score > 2.0;
        var x, y := parsed[k1].visualDimensions.Get(d1).score, parsed[k2].visualDimensions.Get(d2).score;
        AllScoresMembers(parsed, x);
        AllScoresMembers(parsed, y);
        var i :| 0 <= i < |all| && all[i] == x;
        var j :| 0 <= j < |all| && all[j] == y;
      }
    }
  }

  /** The other flags: low confidence below 0.5, a single image when exactly
      one was fetched, partial when fewer were fetched than provided. */
  lemma ProcessorFlagsMeaning(aggregateConfidence: real, parsed: seq<ParsedImageAnalysis>, successful: nat, total: nat)
    ensures var f := ProcessorQualityFlags(aggregateConfidence, parsed, successful, total);
      && (f.lowConfidence <==> aggregateConfidence < 0.5)
      && (f.singleImageOnly <==> successful == 1)
      && (f.partialAnalysis <==> successful < total)
  {
  }

  /** The processor's high-variance flag is raised whenever the aggregator's
      per-dimension one is: the pooled range covers each dimension's range. */
  lemma PerDimensionSpreadIsPooled(parsed: seq<ParsedImageAnalysis>, aggregateConfidence: real, vd: VisualDimensions, successful: nat, total: nat)
    requires Aggregator.QualityFlagsOf(parsed, aggregateConfidence, vd).highVariance
    ensures ProcessorQualityFlags(aggregateConfidence, parsed, successful, total).highVariance
  {
    Aggregator.QualityFlagsMeaning(parsed, aggregateConfidence, vd);
    var d: Dimension :| Aggregator.ScoresFarApart(parsed, d);
    var i, j :| 0 <= i < |parsed| && 0 <= j < |parsed|
      && parsed[i].visualDimensions.Get(d).score - parsed[j].visualDimensions.Get(d).score > 2.0;
    assert PooledFarApart(parsed);
    PooledHighVariance(aggregateConfidence, parsed, successful, total);
  }

  // ---------------------------------------------------------------------
  // The quality score

  /** The largest of the five metrics. */
  function MaxVariance(vm: VarianceMetrics): real {
    Aggregator.MaxOf([vm.genderExpression, vm.visualWeight, vm.embellishment, vm.unconventionality, vm.formality])
  }

  /** `min(max_variance / HIGH_VARIANCE_THRESHOLD, 1.0)`. */
  function VariancePenalty(vm: VarianceMetrics): real {
    var p := MaxVariance(vm) / Settings.HighVarianceThreshold;
    if p < 1.0 then p else 1.0
  }

  /** The aggregate confidence, reduced by up to 30% as the variance grows. */
  function QualityScore(aggregateConfidence: real, vm: VarianceMetrics): real {
    Product(aggregateConfidence, 1.0 - 0.3 * VariancePenalty(vm))
  }

  ghost predicate MetricsNonNegative(vm: VarianceMetrics) {
    forall d: Dimension :: vm.Get(d) >= 0.0
  }

  lemma PenaltyBounds(vm: VarianceMetrics)
    requires MetricsNonNegative(vm)
    ensures 0.0 <= VariancePenalty(vm) <= 1.0
    ensures MaxVariance(vm) == 0.0 ==> VariancePenalty(vm) == 0.0
    ensures MaxVariance(vm) >= Settings.HighVarianceThreshold ==> VariancePenalty(vm) == 1.0
  {
    assert vm.Get(GenderExpression) >= 0.0;
    var xs := [vm.genderExpression, vm.visualWeight, vm.embellishment, vm.unconventionality, vm.formality];
    assert xs[0] >= 0.0 && xs[0] <= Aggregator.MaxOf(xs);
  }

  /** Scaling by a factor in [0.7, 1] keeps a non-negative value between 70% of itself and itself. */
  lemma ScaledBetween(c: real, q: real)
    requires 0.0 <= c && 0.7 <= q <= 1.0
    ensures 0.7 * c <= Product(c, q) <= c
  {
    ProductOfNonNegatives(c, q - 0.7);
    ProductOfNonNegatives(c, 1.0 - q);
    ProductSubtracts(c, q, 0.7);
    ProductSubtracts(c, 1.0, q);
    ProductByOne(c);
  }

  /** With non-negative metrics and a confidence in [0, 1], the score lies
      between 70% of the confidence and the confidence itself: equal to it
      without variance, at 70% once the largest deviation reaches 1.5. */
  lemma QualityScoreBounds(aggregateConfidence: real, vm: VarianceMetrics)
    requires 0.0 <= aggregateConfidence <= 1.0 && MetricsNonNegative(vm)
    ensures 0.7 * aggregateConfidence <= QualityScore(aggregateConfidence, vm) <= aggregateConfidence
    ensures 0.0 <= QualityScore(aggregateConfidence, vm) <= 1.0
    ensures MaxVariance(vm) == 0.0 ==> QualityScore(aggregateConfidence, vm) == aggregateConfidence
    ensures MaxVariance(vm) >= Settings.HighVarianceThreshold ==> QualityScore(aggregateConfidence, vm) == 0.7 * aggregateConfidence
  {
    PenaltyBounds(vm);
    ScaledBetween(aggregateConfidence, 1.0 - 0.3 * VariancePenalty(vm));
  }

  // ---------------------------------------------------------------------
  // Which URL an answer belongs to

  /** The positions of the URLs whose fetch gave bytes, in order: the k-th
      loaded image came from the URL at the k-th of them. */
  function FetchedIndices(outcomes: seq<FetchOutcome>): (idx: seq<nat>)
    ensures forall k :: 0 <= k < |idx| ==> idx[k] < |outcomes|
  {
    if outcomes == [] then []
    else
      var n := |outcomes| - 1;
      FetchedIndices(outcomes[..n]) + if outcomes[n].Fetched? then [n] else []
  }

  /** The k-th loaded image is the bytes fetched from the k-th fetched
      position, and those positions run in URL order. */
  lemma {:induction false} FetchedIndicesMeaning(outcomes: seq<FetchOutcome>)
    ensures var idx := FetchedIndices(outcomes);
      var images := LoadedImages(outcomes);
      && |idx| == |images|
      && (forall k :: 0 <= k < |idx| ==> outcomes[idx[k]] == Fetched(images[k]))
      && (forall k, l :: 0 <= k < l < |idx| ==> idx[k] < idx[l])
  {
    if outcomes != [] {
      var n := |outcomes| - 1;
      var init := outcomes[..n];
      FetchedIndicesMeaning(init);
      assert forall i :: 0 <= i < n ==> init[i] == outcomes[i];
    }
  }

  /** The URLs of the loaded images, in the order the images are analysed. */
  function FetchedUrls(urls: seq<string>, outcomes: seq<FetchOutcome>): (fetched: seq<string>)
    requires |urls| == |outcomes|
    ensures |fetched| == |FetchedIndices(outcomes)|
  {
    var idx := FetchedIndices(outcomes);
    seq(|idx|, k requires 0 <= k < |idx| => urls[idx[k]])
  }

  /** Labelled by these URLs, the k-th answer carries the URL its image was fetched from. */
  lemma FetchedUrlsMeaning(urls: seq<string>, outcomes: seq<FetchOutcome>)
    requires |urls| == |outcomes|
    ensures var images := LoadedImages(outcomes);
      && |FetchedUrls(urls, outcomes)| == |images|
      && forall k :: 0 <= k < |images| ==>
           exists i :: 0 <= i < |urls| && ImageLabel(FetchedUrls(urls, outcomes), k) == urls[i] && outcomes[i] == Fetched(images[k])
  {
    FetchedIndicesMeaning(outcomes);
    var idx := FetchedIndices(outcomes);
    var images := LoadedImages(outcomes);
    forall k | 0 <= k < |images|
      ensures exists i :: 0 <= i < |urls| && ImageLabel(FetchedUrls(urls, outcomes), k) == urls[i] && outcomes[i] == Fetched(images[k])
    {
      var i := idx[k];
      assert ImageLabel(FetchedUrls(urls, outcomes), k) == urls[i] && outcomes[i] == Fetched(images[k]);
    }
  }

  /** Labelled by the capped URLs, as the source labels them, an answer is
      named after the wrong URL once an earlier URL gave no image: with the
      first of two URLs answered without bytes, the one image analysed comes
      from the second URL but is labelled with the first. */
  lemma MislabelAfterMissingImage(first: string, second: string, bytes: seq<bv8>)
    requires first != second
    ensures var outcomes := [NoImage, Fetched(bytes)];
      && LoadedImages(outcomes) == [bytes]
      && ImageLabel([first, second], 0) == first
      && ImageLabel(FetchedUrls([first, second], outcomes), 0) == second
      && ImageLabel([first, second], 0) != ImageLabel(FetchedUrls([first, second], outcomes), 0)
  {
    var outcomes := [NoImage, Fetched(bytes)];
    assert outcomes[..1] == [NoImage];
    assert [NoImage][..0] == [];
    assert FetchedIndices([NoImage]) == [];
    assert FetchedIndices(outcomes) == [1];
    assert LoadedImages([NoImage]) == [];
  }

  // ---------------------------------------------------------------------
  // process_product

  /** The collaborators of a run: `urlparse` and the HEAD probe of the URL
      validator, `ImageLoader.load`, the vision client's call on the i-th
      loaded image, `json.loads`, the square root of `statistics.stdev`, and
      the client's `current_model_name` when it has one. */
  datatype Services = Services(
    urlparse: string -> Option<UrlValidator.ParsedUrl>,
    probe: string -> UrlValidator.Probe,
    fetch: string -> FetchOutcome,
    vision: nat -> Result<string>,
    decode: string -> Option<Json>,
    sqrt: real -> real,
    modelName: Option<string>)

  /** The clock readings of a run, in whole milliseconds: the duration of each
      stage, of each vision call, and from the start to the return. */
  datatype Clock = Clock(validationMs: int, fetchMs: int, geminiMs: int, imageMs: nat -> int, aggregationMs: int, totalMs: int)

  /** The URL validation of a product. */
  function ReportOf(product: Loader.ProductInput, s: Services): UrlValidator.UrlReport {
    UrlValidator.Report(ValidationResults(product.imageUrls, s.urlparse, s.probe))
  }

  /** The record a run returns. Each stage that fails ends it with a failed
      record carrying that stage's error type and the timings taken so far. */
  function Processed(product: Loader.ProductInput, s: Services, c: Clock): ProductMeasurement {
    var report := ReportOf(product, s);
    var validation := ValidationOf(report);
    var total := |product.imageUrls|;
    if report.validUrls == [] then
      FailedMeasurement(product.productId, AllUrlsInvalid, None, total, false, c.totalMs, [], Some(validation),
                        None, None, Some(TimingBreakdown(c.validationMs, 0, 0, 0, 0)))
    else FetchStage(product.productId, total, validation, report.validUrls, s, c)
  }

  /** From the cap on: fetch the capped URLs and keep the images that came
      back. The answers are labelled by the capped URLs position by
      position, as the record is built, whichever of them gave no image. */
  function FetchStage(productId: string, total: nat, validation: ImageValidation, valid: seq<string>,
                      s: Services, c: Clock): ProductMeasurement
  {
    var capped := Capped(valid);
    LoadedStage(productId, total, validation, |valid| > Settings.MaxImagesPerProduct, Gathered(capped, s.fetch), capped, s, c)
  }

  /** The loading stage as evidently intended: each answer is labelled by the
      URL its image was fetched from. */
  function FetchStageIntended(productId: string, total: nat, validation: ImageValidation, valid: seq<string>,
                              s: Services, c: Clock): ProductMeasurement
  {
    var capped := Capped(valid);
    var outcomes := Gathered(capped, s.fetch);
    LoadedStage(productId, total, validation, |valid| > Settings.MaxImagesPerProduct, outcomes, FetchedUrls(capped, outcomes), s, c)
  }

  /** After the fetches `outcomes`: a raised fetch or no image at all ends the
      run, otherwise the loaded images go to the vision loop, labelled by `labels`. */
  function LoadedStage(productId: string, total: nat, validation: ImageValidation, isCapped: bool,
                       outcomes: seq<FetchOutcome>, labels: seq<string>, s: Services, c: Clock): ProductMeasurement
  {
    var timing := Some(TimingBreakdown(c.validationMs, c.fetchMs, 0, 0, 0));
    if AnyRaised(outcomes) then
      FailedMeasurement(productId, ImageDownloadFailed, None, total, isCapped, c.totalMs, [], None, None, None, timing)
    else if LoadedImages(outcomes) == [] then
      FailedMeasurement(productId, InvalidImageFormat, None, total, isCapped, c.totalMs, [], None, None, None, timing)
    else VisionStage(productId, total, validation, labels, isCapped, |LoadedImages(outcomes)|, s, c)
  }

  /** From the vision loop on, over `count` loaded images labelled by `labels`. */
  function VisionStage(productId: string, total: nat, validation: ImageValidation, labels: seq<string>, isCapped: bool,
                       count: nat, s: Services, c: Clock): ProductMeasurement
  {
    AnswersStage(productId, total, validation, labels, isCapped, count, VisionFrom(count, s.vision, c.imageMs, 0), s, c)
  }

  /** After the vision loop `run`: its error ends the run, otherwise every answer is parsed. */
  function AnswersStage(productId: string, total: nat, validation: ImageValidation, labels: seq<string>, isCapped: bool,
                        count: nat, run: VisionRun, s: Services, c: Clock): ProductMeasurement
  {
    var timing := Some(TimingBreakdown(c.validationMs, c.fetchMs, c.geminiMs, 0, 0));
    match run.error
    case Some(e) => FailedMeasurement(productId, e, None, total, isCapped, c.totalMs, run.timings, None, None, None, timing)
    case None =>
      var parses := Parses(run.responses, s.decode);
      ParsedFromValid(parses, labels, run.timings);
      KeptStage(productId, total, validation, isCapped, count, ParsedFrom(parses, labels, run.timings), run.timings, s, c)
  }

  /** After parsing and the confidence filter: nothing kept is a parse error,
      otherwise the kept analyses are aggregated. */
  function KeptStage(productId: string, total: nat, validation: ImageValidation, isCapped: bool, count: nat,
                     outcome: ParseOutcome, timings: seq<int>, s: Services, c: Clock): ProductMeasurement
    requires Aggregator.AnalysesValid(outcome.parsed)
  {
    if outcome.parsed == [] then
      FailedMeasurement(productId, ParseError, None, total, isCapped, c.totalMs, timings, None, None, None,
                        Some(TimingBreakdown(c.validationMs, c.fetchMs, c.geminiMs, 0, 0)))
    else AggregatedStage(productId, total, validation, isCapped, count, outcome, timings,
                         Aggregator.Aggregated(productId, outcome.parsed), s, c)
  }

  /** After aggregation: an exception goes to the outer handler, a record is completed. */
  function AggregatedStage(productId: string, total: nat, validation: ImageValidation, isCapped: bool, count: nat,
                           outcome: ParseOutcome, timings: seq<int>, agg: Result<ProductMeasurement>,
                           s: Services, c: Clock): ProductMeasurement
  {
    match agg
    case Failure(e) => HandledFailure(productId, e, total, c.totalMs, Some(validation))
    case Success(m) => Completed(m, outcome, total, validation, isCapped, count, timings, s, c)
  }

  /** The aggregate's record with the run's metadata filled in. */
  function Completed(m: ProductMeasurement, outcome: ParseOutcome, total: nat, validation: ImageValidation, isCapped: bool,
                     count: nat, timings: seq<int>, s: Services, c: Clock): ProductMeasurement
  {
    var vm := VarianceMetricsOf(outcome.parsed, s.sqrt);
    m.(schemaVersion := "1.0", apiVersion := "1.0",
       imagesCapped := isCapped, totalImagesProvided := total,
       imagesSuccessfullyAnalyzed := |outcome.parsed|, processingTimeMs := c.totalMs,
       perImageTimeMs := timings,
       qualityFlags := ProcessorQualityFlags(m.aggregateConfidence, outcome.parsed, count, total),
       errorType := None, imageValidation := Some(validation), perImageAnalysis := outcome.perImage,
       varianceMetrics := Some(vm), aggregationMethod := "confidence_weighted_average",
       timingBreakdown := Some(TimingBreakdown(c.validationMs, c.fetchMs, c.geminiMs, c.aggregationMs, c.totalMs)),
       qualityScore := Some(QualityScore(m.aggregateConfidence, vm)), retryCount := 0,
       modelUsed := Some(match s.modelName case Some(n) => n case None => "unknown"))
  }

  // ---------------------------------------------------------------------
  // What a run returns

  /** A record says "success" exactly when it carries no error type, and
      `partial` is never returned. */
  ghost predicate StatusMatchesError(m: ProductMeasurement) {
    && m.processingStatus != Enums.ProcessingStatus.Partial
    && (m.processingStatus == Enums.ProcessingStatus.Success <==> m.errorType.None?)
  }

  /** A completed record: a success for the product with the kept analyses,
      their per-image records and times, the validation, the full timing
      breakdown, an aggregate confidence in [0, 1], the flags' meanings over
      the `count` fetched images, and the variance-adjusted quality score. */
  ghost predicate CompletedRecord(m: ProductMeasurement, productId: string, total: nat, validation: ImageValidation,
                                  isCapped: bool, count: nat, outcome: ParseOutcome, timings: seq<int>, s: Services, c: Clock)
  {
    && m.processingStatus == Enums.ProcessingStatus.Success && m.errorType.None? && m.productId == productId
    && 1 <= m.imagesSuccessfullyAnalyzed == |outcome.parsed|
    && m.perImageAnalysis == outcome.perImage && m.perImageTimeMs == timings
    && m.totalImagesProvided == total && m.imagesCapped == isCapped && m.imageValidation == Some(validation)
    && m.processingTimeMs == c.totalMs
    && m.timingBreakdown == Some(TimingBreakdown(c.validationMs, c.fetchMs, c.geminiMs, c.aggregationMs, c.totalMs))
    && 0.0 <= m.aggregateConfidence <= 1.0
    && (m.qualityFlags.lowConfidence <==> m.aggregateConfidence < 0.5)
    && (m.qualityFlags.singleImageOnly <==> count == 1)
    && (m.qualityFlags.partialAnalysis <==> count < total)
    && (m.qualityFlags.highVariance <==> |outcome.parsed| > 1 && PooledFarApart(outcome.parsed))
    && m.qualityScore == Some(QualityScore(m.aggregateConfidence, VarianceMetricsOf(outcome.parsed, s.sqrt)))
  }

  /** An aggregation error goes to the handler, which reports `rate_limited`
      exactly for a rate-limit text and `unknown_error` otherwise; an
      aggregated record is completed. */
  lemma AggregatedStageShape(productId: string, total: nat, validation: ImageValidation, isCapped: bool, count: nat,
                             outcome: ParseOutcome, timings: seq<int>, agg: Result<ProductMeasurement>, s: Services, c: Clock)
    requires outcome.parsed != []
    requires agg.Success? ==> && agg.value.productId == productId
                              && agg.value.processingStatus == Enums.ProcessingStatus.Success
                              && 0.0 <= agg.value.aggregateConfidence <= 1.0
    ensures var m := AggregatedStage(productId, total, validation, isCapped, count, outcome, timings, agg, s, c);
      && StatusMatchesError(m) && m.productId == productId && m.totalImagesProvided == total
      && (m.errorType.None? <==> agg.Success?)
      && (agg.Failure? ==> (m.errorType == Some(RateLimited) <==> Retry.IsRateLimitError(agg.error)))
      && (agg.Failure? ==> (m.errorType == Some(UnknownError) <==> !Retry.IsRateLimitError(agg.error)))
      && (m.errorType.None? ==> CompletedRecord(m, productId, total, validation, isCapped, count, outcome, timings, s, c))
  {
    match agg
    case Failure(e) =>
      HandledFailureShape(productId, e, total, c.totalMs, Some(validation));
    case Success(a) =>
      PooledHighVariance(a.aggregateConfidence, outcome.parsed, count, total);
  }

  /** Nothing kept is a parse error; otherwise the record is the aggregation's. */
  lemma KeptStageShape(productId: string, total: nat, validation: ImageValidation, isCapped: bool, count: nat,
                       outcome: ParseOutcome, timings: seq<int>, s: Services, c: Clock)
    requires Aggregator.AnalysesValid(outcome.parsed)
    ensures var m := KeptStage(productId, total, validation, isCapped, count, outcome, timings, s, c);
      && StatusMatchesError(m) && m.productId == productId && m.totalImagesProvided == total
      && (m.errorType == Some(ParseError) <==> outcome.parsed == [])
      && (m.errorType.Some? ==> m.errorType == Some(ParseError) || m.errorType == Some(RateLimited) || m.errorType == Some(UnknownError))
      && (outcome.parsed == [] ==> m.perImageTimeMs == timings)
      && (m.errorType.None? ==> CompletedRecord(m, productId, total, validation, isCapped, count, outcome, timings, s, c))
  {
    var timing := Some(TimingBreakdown(c.validationMs, c.fetchMs, c.geminiMs, 0, 0));
    if outcome.parsed == [] {
      FailedSentinel(productId, ParseError, None, total, isCapped, c.totalMs, timings, None, None, None, timing);
    } else {
      Aggregator.AggregatedResult(productId, outcome.parsed);
      var agg := Aggregator.Aggregated(productId, outcome.parsed);
      AggregatedStageShape(productId, total, validation, isCapped, count, outcome, timings, agg, s, c);
      if agg.Failure? {
        MentionsQuotaIsRateLimitError(agg.error);
      }
    }
  }

  /** After the vision loop: its error is reported as classified, with the
      times measured so far; `parse_error` exactly when it ran through but no
      answer survived; an error of an earlier stage never. */
  lemma AnswersStageShape(productId: string, total: nat, validation: ImageValidation, labels: seq<string>, isCapped: bool,
                          count: nat, run: VisionRun, s: Services, c: Clock)
    requires run.error.Some? ==> run.error == Some(RateLimited) || run.error == Some(VisionModelError)
    ensures var m := AnswersStage(productId, total, validation, labels, isCapped, count, run, s, c);
      var outcome := ParsedFrom(Parses(run.responses, s.decode), labels, run.timings);
      && StatusMatchesError(m) && m.productId == productId && m.totalImagesProvided == total
      && m.errorType != Some(AllUrlsInvalid) && m.errorType != Some(ImageDownloadFailed)
      && m.errorType != Some(InvalidImageFormat)
      && (m.errorType == Some(VisionModelError) <==> run.error == Some(VisionModelError))
      && (m.errorType == Some(ParseError) <==> run.error.None? && outcome.parsed == [])
      && (run.error.Some? ==> m.errorType == run.error && m.perImageTimeMs == run.timings)
      && (m.errorType.None? ==>
            && run.error.None? && m.imagesSuccessfullyAnalyzed == |m.perImageAnalysis| <= |run.responses|
            && CompletedRecord(m, productId, total, validation, isCapped, count, outcome, run.timings, s, c))
  {
    var timing := Some(TimingBreakdown(c.validationMs, c.fetchMs, c.geminiMs, 0, 0));
    if run.error.Some? {
      FailedSentinel(productId, run.error.value, None, total, isCapped, c.totalMs, run.timings, None, None, None, timing);
    } else {
      var parses := Parses(run.responses, s.decode);
      ParsedFromValid(parses, labels, run.timings);
      KeptStageShape(productId, total, validation, isCapped, count, ParsedFrom(parses, labels, run.timings), run.timings, s, c);
    }
  }

  /** From the vision loop on: as above, and a completed record answered every loaded image. */
  lemma VisionStageShape(productId: string, total: nat, validation: ImageValidation, labels: seq<string>, isCapped: bool,
                         count: nat, s: Services, c: Clock)
    ensures var m := VisionStage(productId, total, validation, labels, isCapped, count, s, c);
      var run := VisionFrom(count, s.vision, c.imageMs, 0);
      var outcome := ParsedFrom(Parses(run.responses, s.decode), labels, run.timings);
      && StatusMatchesError(m) && m.productId == productId && m.totalImagesProvided == total
      && m.errorType != Some(AllUrlsInvalid) && m.errorType != Some(ImageDownloadFailed)
      && m.errorType != Some(InvalidImageFormat)
      && (m.errorType == Some(VisionModelError) <==> run.error == Some(VisionModelError))
      && (m.errorType == Some(ParseError) <==> run.error.None? && outcome.parsed == [])
      && (m.errorType.None? ==>
            && run.error.None? && |run.responses| == |run.timings| == count
            && m.imagesSuccessfullyAnalyzed == |m.perImageAnalysis| <= count
            && CompletedRecord(m, productId, total, validation, isCapped, count, outcome, run.timings, s, c))
  {
    var run := VisionFrom(count, s.vision, c.imageMs, 0);
    VisionFromShape(count, s.vision, c.imageMs, 0);
    AnswersStageShape(productId, total, validation, labels, isCapped, count, run, s, c);
  }

  /** The loading stage fails with `image_download_failed` exactly when some
      fetch raised, and with `invalid_image_format` exactly when none raised
      and none gave bytes; later stages never report either. */
  lemma FetchStageErrors(productId: string, total: nat, validation: ImageValidation, valid: seq<string>, s: Services, c: Clock)
    ensures var m := FetchStage(productId, total, validation, valid, s, c);
      var outcomes := Gathered(Capped(valid), s.fetch);
      && StatusMatchesError(m)
      && m.productId == productId && m.totalImagesProvided == total
      && m.errorType != Some(AllUrlsInvalid)
      && (m.errorType == Some(ImageDownloadFailed) <==> AnyRaised(outcomes))
      && (m.errorType == Some(InvalidImageFormat) <==> !AnyRaised(outcomes) && LoadedImages(outcomes) == [])
  {
    var capped := Capped(valid);
    var outcomes := Gathered(capped, s.fetch);
    if !AnyRaised(outcomes) && LoadedImages(outcomes) != [] {
      VisionStageShape(productId, total, validation, capped, |valid| > Settings.MaxImagesPerProduct,
                       |LoadedImages(outcomes)|, s, c);
    }
  }

  /** A successful record analysed between one and three fetched images; its
      flags count the fetched images against the URLs provided. */
  lemma FetchStageSuccess(productId: string, total: nat, validation: ImageValidation, valid: seq<string>, s: Services, c: Clock)
    ensures var m := FetchStage(productId, total, validation, valid, s, c);
      var outcomes := Gathered(Capped(valid), s.fetch);
      var images := LoadedImages(outcomes);
      m.errorType.None? ==>
        && !AnyRaised(outcomes)
        && 1 <= m.imagesSuccessfullyAnalyzed == |m.perImageAnalysis| <= |images| <= Settings.MaxImagesPerProduct
        && (m.imagesCapped <==> |valid| > Settings.MaxImagesPerProduct)
        && (m.qualityFlags.singleImageOnly <==> |images| == 1)
        && (m.qualityFlags.partialAnalysis <==> |images| < total)
        && m.imageValidation == Some(validation)
  {
    var capped := Capped(valid);
    var outcomes := Gathered(capped, s.fetch);
    var images := LoadedImages(outcomes);
    if !AnyRaised(outcomes) && images != [] {
      VisionStageShape(productId, total, validation, capped, |valid| > Settings.MaxImagesPerProduct,
                       |images|, s, c);
    }
  }

  /** Every per-image record names one of the URLs whose fetch gave bytes. */
  ghost predicate NamesFetchedUrls(records: seq<PerImageAnalysis>, urls: seq<string>, outcomes: seq<FetchOutcome>) {
    forall k :: 0 <= k < |records| ==>
      exists i :: 0 <= i < |urls| && i < |outcomes| && records[k].imageUrl == urls[i] && outcomes[i].Fetched?
  }

  /** In a successful record of the intended loading stage, each per-image
      record names a capped URL whose fetch gave bytes. */
  lemma FetchStagePerImageUrls(productId: string, total: nat, validation: ImageValidation, valid: seq<string>, s: Services, c: Clock)
    ensures var m := FetchStageIntended(productId, total, validation, valid, s, c);
      var capped := Capped(valid);
      m.errorType.None? ==> NamesFetchedUrls(m.perImageAnalysis, capped, Gathered(capped, s.fetch))
  {
    var capped := Capped(valid);
    var outcomes := Gathered(capped, s.fetch);
    var images := LoadedImages(outcomes);
    if !AnyRaised(outcomes) && images != [] {
      var labels := FetchedUrls(capped, outcomes);
      var run := VisionFrom(|images|, s.vision, c.imageMs, 0);
      VisionStageShape(productId, total, validation, labels, |valid| > Settings.MaxImagesPerProduct, |images|, s, c);
      if FetchStageIntended(productId, total, validation, valid, s, c).errorType.None? {
        PerImageUrlsFetched(labels, capped, outcomes, run, s.decode);
      }
    }
  }

  /** Each kept answer's label is the URL its image was fetched from. */
  lemma PerImageUrlsFetched(labels: seq<string>, capped: seq<string>, outcomes: seq<FetchOutcome>, run: VisionRun,
                            decode: string -> Option<Json>)
    requires |capped| == |outcomes| && labels == FetchedUrls(capped, outcomes)
    requires |run.responses| == |LoadedImages(outcomes)|
    ensures NamesFetchedUrls(ParsedFrom(Parses(run.responses, decode), labels, run.timings).perImage, capped, outcomes)
  {
    KeptLabelsFetched(Parses(run.responses, decode), labels, run.timings, capped, outcomes);
  }

  lemma KeptLabelsFetched(parses: seq<Option<ParsedImageAnalysis>>, labels: seq<string>, times: seq<int>,
                          capped: seq<string>, outcomes: seq<FetchOutcome>)
    requires |capped| == |outcomes| && labels == FetchedUrls(capped, outcomes)
    requires |parses| == |LoadedImages(outcomes)|
    ensures NamesFetchedUrls(ParsedFrom(parses, labels, times).perImage, capped, outcomes)
  {
    var outcome := ParsedFrom(parses, labels, times);
    KeptAreParses(parses, labels, times);
    FetchedIndicesMeaning(outcomes);
    var idx := KeptIndices(parses);
    var fetched := FetchedIndices(outcomes);
    var records := outcome.perImage;
    forall k | 0 <= k < |records|
      ensures exists i :: 0 <= i < |capped| && i < |outcomes| && records[k].imageUrl == capped[i] && outcomes[i].Fetched?
    {
      var w := fetched[idx[k]];
      assert records[k].imageUrl == labels[idx[k]] == capped[w];
      assert outcomes[w].Fetched?;
    }
    assert forall k :: 0 <= k < |records| ==>
      exists i :: 0 <= i < |capped| && i < |outcomes| && records[k].imageUrl == capped[i] && outcomes[i].Fetched?;
    assert NamesFetchedUrls(records, capped, outcomes);
  }

  /** Two lists of per-image records that differ at most in their URLs. */
  ghost predicate SameButUrls(a: seq<PerImageAnalysis>, b: seq<PerImageAnalysis>) {
    && |a| == |b|
    && forall k :: 0 <= k < |a| ==> a[k] == b[k].(imageUrl := a[k].imageUrl)
  }

  /** Two records that differ at most in their per-image records' URLs. */
  ghost predicate Relabelled(m: ProductMeasurement, n: ProductMeasurement) {
    n == m.(perImageAnalysis := n.perImageAnalysis) && SameButUrls(m.perImageAnalysis, n.perImageAnalysis)
  }

  /** The labels name the per-image records and nothing else: the kept
      analyses, the rejections and the records' other fields do not depend on them. */
  lemma {:induction false} LabelsOnlyName(parses: seq<Option<ParsedImageAnalysis>>, labels: seq<string>,
                                          others: seq<string>, times: seq<int>)
    ensures var p := ParsedFrom(parses, labels, times);
      var q := ParsedFrom(parses, others, times);
      p.parsed == q.parsed && p.rejected == q.rejected && SameButUrls(p.perImage, q.perImage)
  {
    if parses != [] {
      LabelsOnlyName(parses[..|parses| - 1], labels, others, times);
    }
  }

  /** The intended loading stage returns the as-written record with only the
      per-image records' URLs changed. */
  lemma FetchStageIntendedRelabels(productId: string, total: nat, validation: ImageValidation, valid: seq<string>,
                                   s: Services, c: Clock)
    ensures Relabelled(FetchStage(productId, total, validation, valid, s, c),
                       FetchStageIntended(productId, total, validation, valid, s, c))
  {
    var capped := Capped(valid);
    var outcomes := Gathered(capped, s.fetch);
    if !AnyRaised(outcomes) && LoadedImages(outcomes) != [] {
      FetchStageLoaded(productId, total, validation, valid, s, c);
      VisionStageRelabels(productId, total, validation, capped, FetchedUrls(capped, outcomes),
                          |valid| > Settings.MaxImagesPerProduct, |LoadedImages(outcomes)|, s, c);
    }
  }

  /** Relabelling the answers relabels the record and changes nothing else. */
  lemma VisionStageRelabels(productId: string, total: nat, validation: ImageValidation, labels: seq<string>,
                            others: seq<string>, isCapped: bool, count: nat, s: Services, c: Clock)
    ensures Relabelled(VisionStage(productId, total, validation, labels, isCapped, count, s, c),
                       VisionStage(productId, total, validation, others, isCapped, count, s, c))
  {
    var run := VisionFrom(count, s.vision, c.imageMs, 0);
    if run.error.None? {
      var parses := Parses(run.responses, s.decode);
      AnsweredKept(productId, total, validation, labels, isCapped, count, run, s, c);
      AnsweredKept(productId, total, validation, others, isCapped, count, run, s, c);
      LabelsOnlyName(parses, labels, others, run.timings);
      KeptStageRelabels(productId, total, validation, isCapped, count, ParsedFrom(parses, labels, run.timings),
                        ParsedFrom(parses, others, run.timings), run.timings, s, c);
    }
  }

  /** Outcomes that keep the same analyses give records that differ at most in their URLs. */
  lemma KeptStageRelabels(productId: string, total: nat, validation: ImageValidation, isCapped: bool, count: nat,
                          p: ParseOutcome, q: ParseOutcome, timings: seq<int>, s: Services, c: Clock)
    requires Aggregator.AnalysesValid(p.parsed)
    requires p.parsed == q.parsed && SameButUrls(p.perImage, q.perImage)
    ensures Relabelled(KeptStage(productId, total, validation, isCapped, count, p, timings, s, c),
                       KeptStage(productId, total, validation, isCapped, count, q, timings, s, c))
  {
  }

  /** The counterexample in the pipeline: two URLs, the first answered
      without bytes and the second with an image whose answer parses, passes
      the filter and aggregates. The as-written record names its one
      analysed image after the first URL, which gave no image; the intended
      stage names it after the second, which did. */
  lemma FetchStageMislabels(productId: string, total: nat, validation: ImageValidation, first: string, second: string,
                            bytes: seq<bv8>, s: Services, c: Clock)
    requires first != second
    requires s.fetch(first) == NoImage && s.fetch(second) == Fetched(bytes)
    requires s.vision(0).Success? && Passes(ParseVisionResponse(s.vision(0).value, s.decode))
    requires Aggregator.Aggregated(productId, [ParseVisionResponse(s.vision(0).value, s.decode).value]).Success?
    ensures var m := FetchStage(productId, total, validation, [first, second], s, c);
      && Gathered(Capped([first, second]), s.fetch) == [NoImage, Fetched(bytes)]
      && m.errorType.None? && |m.perImageAnalysis| == 1
      && m.perImageAnalysis[0].imageUrl == first
    ensures var n := FetchStageIntended(productId, total, validation, [first, second], s, c);
      && n.errorType.None? && |n.perImageAnalysis| == 1
      && n.perImageAnalysis[0].imageUrl == second
  {
    var capped := Capped([first, second]);
    var outcomes := Gathered(capped, s.fetch);
    TwoUrlsLoadSecond(first, second, bytes, s.fetch);
    FetchStageLoaded(productId, total, validation, [first, second], s, c);
    OneImageCompletes(productId, total, validation, capped, false, s, c);
    OneImageCompletes(productId, total, validation, FetchedUrls(capped, outcomes), false, s, c);
  }

  /** Of two URLs, the first answered without bytes and the second with an
      image: nothing raised, the one image is the second's, and only the
      second URL is among the fetched ones. */
  lemma TwoUrlsLoadSecond(first: string, second: string, bytes: seq<bv8>, fetch: string -> FetchOutcome)
    requires first != second
    requires fetch(first) == NoImage && fetch(second) == Fetched(bytes)
    ensures var capped := Capped([first, second]);
      var outcomes := Gathered(capped, fetch);
      && capped == [first, second]
      && outcomes == [NoImage, Fetched(bytes)]
      && !AnyRaised(outcomes) && LoadedImages(outcomes) == [bytes]
      && FetchedUrls(capped, outcomes) == [second]
  {
    var capped := Capped([first, second]);
    assert capped == [first, second];
    var outcomes := Gathered(capped, fetch);
    assert outcomes == [NoImage, Fetched(bytes)];
    MislabelAfterMissingImage(first, second, bytes);
    assert !outcomes[0].Raised? && !outcomes[1].Raised?;
  }

  /** When nothing raised and some image loaded, both loading stages hand
      the loaded images to the vision loop, under their own labels. */
  lemma FetchStageLoaded(productId: string, total: nat, validation: ImageValidation, valid: seq<string>, s: Services, c: Clock)
    requires !AnyRaised(Gathered(Capped(valid), s.fetch)) && LoadedImages(Gathered(Capped(valid), s.fetch)) != []
    ensures var capped := Capped(valid);
      var outcomes := Gathered(capped, s.fetch);
      var isCapped := |valid| > Settings.MaxImagesPerProduct;
      && FetchStage(productId, total, validation, valid, s, c)
         == VisionStage(productId, total, validation, capped, isCapped, |LoadedImages(outcomes)|, s, c)
      && FetchStageIntended(productId, total, validation, valid, s, c)
         == VisionStage(productId, total, validation, FetchedUrls(capped, outcomes), isCapped, |LoadedImages(outcomes)|, s, c)
  {
  }

  /** With one loaded image whose answer parses, passes the filter and
      aggregates, the run succeeds with one per-image record, labelled by the
      first label. */
  lemma OneImageCompletes(productId: string, total: nat, validation: ImageValidation, labels: seq<string>, isCapped: bool,
                          s: Services, c: Clock)
    requires labels != []
    requires s.vision(0).Success? && Passes(ParseVisionResponse(s.vision(0).value, s.decode))
    requires Aggregator.Aggregated(productId, [ParseVisionResponse(s.vision(0).value, s.decode).value]).Success?
    ensures var m := VisionStage(productId, total, validation, labels, isCapped, 1, s, c);
      && m.errorType.None? && |m.perImageAnalysis| == 1
      && m.perImageAnalysis[0].imageUrl == labels[0]
  {
    var run := VisionFrom(1, s.vision, c.imageMs, 0);
    OneAnswerParsed(s.vision, c.imageMs, s.decode, labels);
    AnsweredKept(productId, total, validation, labels, isCapped, 1, run, s, c);
    KeptCompletes(productId, total, validation, isCapped, 1, ParsedFrom(Parses(run.responses, s.decode), labels, run.timings),
                  run.timings, s, c);
  }

  /** One image whose call answers with a parse that passes the filter: the
      loop runs through and the parse is kept, labelled by the first label. */
  lemma OneAnswerParsed(vision: nat -> Result<string>, imageMs: nat -> int, decode: string -> Option<Json>, labels: seq<string>)
    requires labels != []
    requires vision(0).Success? && Passes(ParseVisionResponse(vision(0).value, decode))
    ensures var run := VisionFrom(1, vision, imageMs, 0);
      var o := ParseVisionResponse(vision(0).value, decode);
      && run.error.None?
      && ParsedFrom(Parses(run.responses, decode), labels, run.timings)
         == ParseOutcome([o.value], [PerImageAnalysis(labels[0], o.value.visualDimensions, imageMs(0))], 0)
  {
    var run := VisionFrom(1, vision, imageMs, 0);
    OneAnswer(vision, imageMs);
    var o := ParseVisionResponse(vision(0).value, decode);
    OneParse(o, labels, run.timings);
    assert Parses(run.responses, decode) == [o];
  }

  /** A loop that ran through goes on to the confidence filter with its answers' parses. */
  lemma AnsweredKept(productId: string, total: nat, validation: ImageValidation, labels: seq<string>, isCapped: bool,
                     count: nat, run: VisionRun, s: Services, c: Clock)
    requires run.error.None?
    ensures var parses := Parses(run.responses, s.decode);
      var p := ParsedFrom(parses, labels, run.timings);
      && Aggregator.AnalysesValid(p.parsed)
      && AnswersStage(productId, total, validation, labels, isCapped, count, run, s, c)
         == KeptStage(productId, total, validation, isCapped, count, p, run.timings, s, c)
  {
    ParsedFromValid(Parses(run.responses, s.decode), labels, run.timings);
  }

  /** Kept analyses that aggregate give a completed record with their per-image records. */
  lemma KeptCompletes(productId: string, total: nat, validation: ImageValidation, isCapped: bool, count: nat,
                      outcome: ParseOutcome, timings: seq<int>, s: Services, c: Clock)
    requires outcome.parsed != [] && Aggregator.AnalysesValid(outcome.parsed)
    requires Aggregator.Aggregated(productId, outcome.parsed).Success?
    ensures var m := KeptStage(productId, total, validation, isCapped, count, outcome, timings, s, c);
      m.errorType.None? && m.perImageAnalysis == outcome.perImage
  {
    var agg := Aggregator.Aggregated(productId, outcome.parsed);
    Aggregator.AggregatedResult(productId, outcome.parsed);
    AggregatedStageShape(productId, total, validation, isCapped, count, outcome, timings, agg, s, c);
  }

  /** A loop over one image whose call answers runs through with that answer. */
  lemma OneAnswer(vision: nat -> Result<string>, imageMs: nat -> int)
    requires vision(0).Success?
    ensures VisionFrom(1, vision, imageMs, 0) == VisionRun([vision(0).value], [imageMs(0)], None, [])
  {
    assert VisionFrom(1, vision, imageMs, 1) == VisionRun([], [], None, []);
  }

  /** One parse that passes the filter is kept, labelled by the first label. */
  lemma OneParse(o: Option<ParsedImageAnalysis>, labels: seq<string>, times: seq<int>)
    requires labels != [] && times != [] && Passes(o)
    ensures ParsedFrom([o], labels, times) == ParseOutcome([o.value], [PerImageAnalysis(labels[0], o.value.visualDimensions, times[0])], 0)
  {
    assert [o][..0] == [];
  }

  /** A run's record: its status agrees with its error type; it fails with
      `all_urls_invalid` exactly when validation leaves no URL; and a
      successful record analysed between one and three images, says whether
      the valid URLs were capped, and carries the validation. */
  lemma ProcessedOutcome(product: Loader.ProductInput, s: Services, c: Clock)
    ensures var m := Processed(product, s, c);
      var report := ReportOf(product, s);
      && StatusMatchesError(m)
      && m.productId == product.productId && m.totalImagesProvided == |product.imageUrls|
      && (m.errorType == Some(AllUrlsInvalid) <==> report.validUrls == [])
      && (m.errorType.None? ==>
            && 1 <= m.imagesSuccessfullyAnalyzed == |m.perImageAnalysis| <= Settings.MaxImagesPerProduct
            && (m.imagesCapped <==> |report.validUrls| > Settings.MaxImagesPerProduct)
            && m.imageValidation == Some(ValidationOf(report)))
  {
    var report := ReportOf(product, s);
    var validation := ValidationOf(report);
    var total := |product.imageUrls|;
    if report.validUrls == [] {
      FailedSentinel(product.productId, AllUrlsInvalid, None, total, false, c.totalMs, [], Some(validation),
                     None, None, Some(TimingBreakdown(c.validationMs, 0, 0, 0, 0)));
    } else {
      FetchStageErrors(product.productId, total, validation, report.validUrls, s, c);
      FetchStageSuccess(product.productId, total, validation, report.validUrls, s, c);
    }
  }

  /** With no valid URL, nothing is fetched or sent to the model: the record
      is the same whatever the loader, the vision client and the decoder do. */
  lemma NoValidUrlStopsEarly(product: Loader.ProductInput, s: Services, c: Clock,
                             fetch: string -> FetchOutcome, vision: nat -> Result<string>, decode: string -> Option<Json>)
    requires ReportOf(product, s).validUrls == []
    ensures Processed(product, s, c) == Processed(product, s.(fetch := fetch, vision := vision, decode := decode), c)
  {
    assert ReportOf(product, s) == ReportOf(product, s.(fetch := fetch, vision := vision, decode := decode));
  }

  /** A download that raises ends the run before the vision client is called:
      the record is the same whatever the vision client and the decoder do. */
  lemma DownloadFailureSkipsVision(productId: string, total: nat, validation: ImageValidation, valid: seq<string>,
                                   s: Services, c: Clock, vision: nat -> Result<string>, decode: string -> Option<Json>)
    requires AnyRaised(Gathered(Capped(valid), s.fetch))
    ensures FetchStage(productId, total, validation, valid, s, c)
         == FetchStage(productId, total, validation, valid, s.(vision := vision, decode := decode), c)
  {
  }

  /** `ProductProcessor`, which remembers when the previous product started
      (0 before the first) to space products apart. */
  class ProductProcessor {
    var lastProductTime: real

    constructor ()
      ensures lastProductTime == 0.0
    {
      lastProductTime := 0.0;
    }

    /** `_apply_product_rate_limit`: the pause before a product starting at `now`. */
    method ApplyProductRateLimit(now: real) returns (pause: real)
      ensures pause == PacingDelay(lastProductTime, now)
    {
      pause := 0.0;
      if lastProductTime > 0.0 {
        var elapsed := now - lastProductTime;
        if elapsed < Settings.ApiCallDelaySeconds {
          pause := Settings.ApiCallDelaySeconds - elapsed;
        }
      }
    }

    /** `process_product`: the product starts at `now`, resumes at `resumed`
        after the pacing pause, and the readings of `c` are the elapsed times
        the run measures. The stages run in order, the first failing one
        ending the run with its failed record. */
    method ProcessProduct(product: Loader.ProductInput, s: Services, c: Clock, now: real, resumed: real)
      returns (m: ProductMeasurement, pause: real)
      modifies this
      ensures pause == PacingDelay(old(lastProductTime), now)
      ensures lastProductTime == resumed
      ensures m == Processed(product, s, c)
    {
      pause := ApplyProductRateLimit(now);
      lastProductTime := resumed;
      var timing := DefaultTimingBreakdown();

      var report := UrlValidator.ValidateImageUrls(product.imageUrls, s.urlparse, Settings.UrlValidationTimeout, s.probe);
      assert report == ReportOf(product, s);
      timing := timing.(urlValidationMs := c.validationMs);
      var validation := ValidationOf(report);
      var total := |product.imageUrls|;
      if report.validUrls == [] {
        m := FailedMeasurement(product.productId, AllUrlsInvalid, None, total, false, c.totalMs, [], Some(validation),
                               None, None, Some(timing));
        return;
      }

      m := RunFetchStage(product.productId, total, validation, report.validUrls, s, c, timing);
    }
  }

  /** The stages of `process_product` from the cap on; `timing` holds the
      durations measured so far. */
  method RunFetchStage(productId: string, total: nat, validation: ImageValidation, valid: seq<string>,
                       s: Services, c: Clock, timing: TimingBreakdown) returns (m: ProductMeasurement)
    requires timing == TimingBreakdown(c.validationMs, 0, 0, 0, 0)
    ensures m == FetchStage(productId, total, validation, valid, s, c)
  {
    var capped := Capped(valid);
    var isCapped := |valid| > Settings.MaxImagesPerProduct;
    var results, loadError := LoadImagesWithTracking(capped, s.fetch);
    var timing := timing.(imageFetchMs := c.fetchMs);
    if loadError.Some? {
      m := FailedMeasurement(productId, ImageDownloadFailed, None, total, isCapped, c.totalMs, [], None,
                             None, None, Some(timing));
      return;
    }
    var images := LoadedImages(results);
    if images == [] {
      m := FailedMeasurement(productId, InvalidImageFormat, None, total, isCapped, c.totalMs, [], None,
                             None, None, Some(timing));
      return;
    }
    m := RunVisionStage(productId, total, validation, capped, isCapped, images, s, c, timing);
  }

  /** The stages from the vision loop on, over the loaded images. */
  method RunVisionStage(productId: string, total: nat, validation: ImageValidation, labels: seq<string>, isCapped: bool,
                        images: seq<seq<bv8>>, s: Services, c: Clock, timing: TimingBreakdown) returns (m: ProductMeasurement)
    requires timing == TimingBreakdown(c.validationMs, c.fetchMs, 0, 0, 0)
    ensures m == VisionStage(productId, total, validation, labels, isCapped, |images|, s, c)
  {
    var responses, times, visionError, sleeps := AnalyzeImagesWithTracking(images, s.vision, c.imageMs);
    var timing := timing.(geminiApiMs := c.geminiMs);
    if visionError.Some? {
      m := FailedMeasurement(productId, visionError.value, None, total, isCapped, c.totalMs, times, None,
                             None, None, Some(timing));
      return;
    }

    var parsed, perImage, rejected := ParseResponses(responses, ParserOf(s.decode), labels, times);
    if parsed == [] {
      m := FailedMeasurement(productId, ParseError, None, total, isCapped, c.totalMs, times, None,
                             None, None, Some(timing));
      return;
    }
    ParsedFromValid(Parses(responses, s.decode), labels, times);
    var aggregated := Aggregator.Aggregate(productId, parsed);
    if aggregated.Failure? {
      m := HandledFailure(productId, aggregated.error, total, c.totalMs, Some(validation));
      return;
    }
    timing := timing.(aggregationMs := c.aggregationMs);

    var variance := VarianceMetricsOf(parsed, s.sqrt);
    m := aggregated.value;
    var flags := ProcessorQualityFlags(m.aggregateConfidence, parsed, |images|, total);
    var score := QualityScore(m.aggregateConfidence, variance);
    timing := timing.(totalMs := c.totalMs);
    m := m.(schemaVersion := "1.0", apiVersion := "1.0");
    m := m.(imagesCapped := isCapped, totalImagesProvided := total, imagesSuccessfullyAnalyzed := |parsed|);
    m := m.(processingTimeMs := timing.totalMs, perImageTimeMs := times, qualityFlags := flags);
    m := m.(errorType := None, imageValidation := Some(validation), perImageAnalysis := perImage);
    m := m.(varianceMetrics := Some(variance), aggregationMethod := "confidence_weighted_average");
    m := m.(timingBreakdown := Some(timing), qualityScore := Some(score), retryCount := 0);
    m := m.(modelUsed := Some(match s.modelName case Some(n) => n case None => "unknown"));
  }
}
