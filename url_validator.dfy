/** Image URL checks (src/utils/url_validator.py): the offline format
    check, the classification of a HEAD probe's outcome, and the split of
    many results into valid and invalid URLs. `urlparse` and the HEAD request
    are parameters. */
module UrlValidator {
  import opened Wrappers
  import opened Text

  // ---------------------------------------------------------------------
  // is_valid_image_url

  /** What `urlparse` splits out of a URL; `None` stands for it raising. */
  datatype ParsedUrl = ParsedUrl(scheme: string, netloc: string, path: string)

  /** The `(is_valid, error_message)` pair. */
  datatype FormatVerdict = FormatVerdict(valid: bool, message: string)

  const MinUrlLength: nat := 20
  const MinPathLength: nat := 5
  const MinLastSegment: nat := 3

  const ImageExtensions: seq<string> := [".jpg", ".jpeg", ".png", ".gif", ".webp", ".bmp", ".svg"]
  const ImageKeywords: seq<string> := ["image", "img", "photo", "thumbnail", "media", "catalog", "product"]

  predicate HasImageExtension(lowered: string) {
    exists e :: e in ImageExtensions && EndsWith(lowered, e)
  }

  predicate HasImageKeyword(lowered: string) {
    exists k :: k in ImageKeywords && Contains(lowered, k)
  }

  /** `path.split('/')[-1]`: what follows the last '/', or all of `path`. */
  function LastSegment(path: string): (r: string)
    ensures |r| <= |path| && r == path[|path| - |r|..]
    ensures forall i :: 0 <= i < |r| ==> r[i] != '/'
    ensures |r| < |path| ==> path[|path| - |r| - 1] == '/'
  {
    if path == [] then []
    else if path[|path| - 1] == '/' then []
    else LastSegment(path[..|path| - 1]) + [path[|path| - 1]]
  }

  /** The eight checks in order; the first that fails gives the message. */
  function IsValidImageUrl(url: string, urlparse: string -> Option<ParsedUrl>): (v: FormatVerdict)
    ensures v.valid <==> v.message == ""
  {
    var u := Strip(url);
    if u == [] then FormatVerdict(false, "URL is empty")
    else if |u| < MinUrlLength then FormatVerdict(false, "URL too short - appears incomplete")
    else match urlparse(u)
      case None => FormatVerdict(false, "Could not parse URL")
      case Some(p) =>
        if p.scheme == [] || p.netloc == [] then FormatVerdict(false, "Invalid URL format")
        else if p.scheme != "http" && p.scheme != "https" then FormatVerdict(false, "Invalid scheme: " + p.scheme)
        else if '.' !in p.netloc then FormatVerdict(false, "Invalid domain")
        else if |p.path| < MinPathLength then FormatVerdict(false, "URL path too short - likely incomplete")
        else if !HasImageExtension(Lower(u)) && !HasImageKeyword(Lower(u)) then
          FormatVerdict(false, "URL does not appear to be an image")
        else if EndsWith(p.path, "/") || |LastSegment(p.path)| < MinLastSegment then
          FormatVerdict(false, "URL appears incomplete - ends with folder path")
        else FormatVerdict(true, "")
  }

  /** Every requirement a well-formed image URL meets, stated independently of their order. */
  ghost predicate WellFormedImageUrl(url: string, urlparse: string -> Option<ParsedUrl>) {
    var u := Strip(url);
    && MinUrlLength <= |u|
    && urlparse(u).Some?
    && urlparse(u).value.scheme in {"http", "https"}
    && (exists i :: 0 <= i < |urlparse(u).value.netloc| && urlparse(u).value.netloc[i] == '.')
    && MinPathLength <= |urlparse(u).value.path|
    && (HasImageExtension(Lower(u)) || HasImageKeyword(Lower(u)))
    && LastPart(urlparse(u).value.path)
  }

  /** The path's last segment, after its last '/', has at least three
      characters: the path is that long and ends in three characters that are not '/'. */
  ghost predicate LastPart(path: string) {
    MinLastSegment <= |path| && forall i :: |path| - MinLastSegment <= i < |path| ==> path[i] != '/'
  }

  lemma LastPartIff(path: string)
    ensures LastPart(path) <==> !EndsWith(path, "/") && |LastSegment(path)| >= MinLastSegment
  {
    var r := LastSegment(path);
    var k := |path| - |r|;
    if |r| >= MinLastSegment {
      assert forall i :: k <= i < |path| ==> path[i] == r[i - k];
    }
    if LastPart(path) {
      assert path[|path| - 1] != '/';
    }
  }

  /** The checks after parsing, on the stripped URL and its parts. */
  ghost predicate PartsPass(u: string, p: ParsedUrl) {
    && p.scheme in {"http", "https"}
    && '.' in p.netloc
    && MinPathLength <= |p.path|
    && (HasImageExtension(Lower(u)) || HasImageKeyword(Lower(u)))
    && !EndsWith(p.path, "/") && |LastSegment(p.path)| >= MinLastSegment
  }

  lemma ParsedVerdict(url: string, urlparse: string -> Option<ParsedUrl>)
    requires MinUrlLength <= |Strip(url)| && urlparse(Strip(url)).Some?
    ensures IsValidImageUrl(url, urlparse).valid <==> PartsPass(Strip(url), urlparse(Strip(url)).value)
  {
    var u := Strip(url);
    var p := urlparse(u).value;
    var v := IsValidImageUrl(url, urlparse);
    if p.scheme == [] || p.netloc == [] {
      assert !v.valid;
      assert p.scheme !in {"http", "https"} || '.' !in p.netloc;
    } else if p.scheme != "http" && p.scheme != "https" {
      assert !v.valid;
    } else if '.' !in p.netloc {
      assert !v.valid;
    } else if |p.path| < MinPathLength {
      assert !v.valid;
    } else if !HasImageExtension(Lower(u)) && !HasImageKeyword(Lower(u)) {
      assert !v.valid;
    } else {
      assert v.valid <==> !EndsWith(p.path, "/") && |LastSegment(p.path)| >= MinLastSegment;
    }
  }

  lemma PartsPassIff(url: string, urlparse: string -> Option<ParsedUrl>)
    requires MinUrlLength <= |Strip(url)| && urlparse(Strip(url)).Some?
    ensures PartsPass(Strip(url), urlparse(Strip(url)).value) <==> WellFormedImageUrl(url, urlparse)
  {
    var p := urlparse(Strip(url)).value;
    LastPartIff(p.path);
    assert '.' in p.netloc <==> exists i :: 0 <= i < |p.netloc| && p.netloc[i] == '.' by {
      if '.' in p.netloc {
        var i :| 0 <= i < |p.netloc| && p.netloc[i] == '.';
      }
    }
  }

  /** A URL passes exactly when it meets every requirement. */
  lemma ValidIff(url: string, urlparse: string -> Option<ParsedUrl>)
    ensures IsValidImageUrl(url, urlparse).valid <==> WellFormedImageUrl(url, urlparse)
  {
    var u := Strip(url);
    if MinUrlLength <= |u| && urlparse(u).Some? {
      ParsedVerdict(url, urlparse);
      PartsPassIff(url, urlparse);
    }
  }

  /** The length check comes before parsing: an empty or short URL is refused whatever `urlparse` does. */
  lemma ShortUrlRefusedBeforeParsing(url: string, p1: string -> Option<ParsedUrl>, p2: string -> Option<ParsedUrl>)
    requires |Strip(url)| < MinUrlLength
    ensures !IsValidImageUrl(url, p1).valid
    ensures IsValidImageUrl(url, p1) == IsValidImageUrl(url, p2)
    ensures IsValidImageUrl(url, p1).message ==
      if Strip(url) == [] then "URL is empty" else "URL too short - appears incomplete"
  {
  }

  /** A blank URL is refused as empty. */
  lemma BlankUrlIsEmpty(url: string, urlparse: string -> Option<ParsedUrl>)
    requires forall i :: 0 <= i < |url| ==> IsSpace(url[i])
    ensures IsValidImageUrl(url, urlparse) == FormatVerdict(false, "URL is empty")
  {
  }

  /** A typical product image URL passes. */
  lemma ProductImageAccepted(urlparse: string -> Option<ParsedUrl>)
    requires urlparse("https://cdn.example.com/p/frame.jpg") == Some(ParsedUrl("https", "cdn.example.com", "/p/frame.jpg"))
    ensures IsValidImageUrl("https://cdn.example.com/p/frame.jpg", urlparse) == FormatVerdict(true, "")
  {
    ProductImageWellFormed(urlparse);
    ValidIff("https://cdn.example.com/p/frame.jpg", urlparse);
  }

  lemma ProductImageWellFormed(urlparse: string -> Option<ParsedUrl>)
    requires urlparse("https://cdn.example.com/p/frame.jpg") == Some(ParsedUrl("https", "cdn.example.com", "/p/frame.jpg"))
    ensures WellFormedImageUrl("https://cdn.example.com/p/frame.jpg", urlparse)
  {
    ProductImageStripped();
    ProductImageIsJpg();
    ProductImageDomain();
    ProductImagePath();
  }

  lemma ProductImageDomain()
    ensures exists i :: 0 <= i < |"cdn.example.com"| && "cdn.example.com"[i] == '.'
  {
    assert "cdn.example.com"[3] == '.';
  }

  lemma ProductImagePath()
    ensures LastPart("/p/frame.jpg")
  {
    var path := "/p/frame.jpg";
    assert |path| == 12;
    assert path[9] == 'j' && path[10] == 'p' && path[11] == 'g';
  }

  lemma ProductImageStripped()
    ensures Strip("https://cdn.example.com/p/frame.jpg") == "https://cdn.example.com/p/frame.jpg"
  {
    StripOfTrimmed("https://cdn.example.com/p/frame.jpg");
  }

  lemma ProductImageIsJpg()
    ensures HasImageExtension(Lower("https://cdn.example.com/p/frame.jpg"))
  {
    JpgIsImage("https://cdn.example.com/p/frame.jpg");
  }

  lemma JpgIsImage(u: string)
    requires EndsWith(u, ".jpg")
    ensures HasImageExtension(Lower(u))
  {
    var l := Lower(u);
    assert l[|u| - 4..] == ".jpg" by {
      assert l[|u| - 4] == '.' && l[|u| - 3] == 'j' && l[|u| - 2] == 'p' && l[|u| - 1] == 'g';
    }
    assert ".jpg" in ImageExtensions;
  }

  /** A URL with no surrounding whitespace is its own strip. */
  lemma StripOfTrimmed(s: string)
    requires s != [] && !IsSpace(s[0]) && !IsSpace(s[|s| - 1])
    ensures Strip(s) == s
  {
  }

  // ---------------------------------------------------------------------
  // validate_image_url

  /** What the HEAD request gives: a response (its status and its
      `content-type` header, "" when absent) or one of the exceptions. */
  datatype Probe = Response(status: nat, contentType: string) | Timeout | ConnectError | OtherError(message: string)

  datatype ValidationResult = ValidationResult(url: string, isValid: bool, errorType: Option<string>, errorMessage: Option<string>)

  function Invalid(url: string, errorType: string, message: string): ValidationResult {
    ValidationResult(url, false, Some(errorType), Some(message))
  }

  predicate NamesNonImage(contentType: string) {
    exists t :: t in ["text", "html", "json", "xml"] && Contains(contentType, t)
  }

  /** The lowered content type passes: absent, `image/…`, or not naming a text-like type. */
  predicate ContentTypeAccepted(lowered: string) {
    lowered == [] || StartsWith(lowered, "image/") || !NamesNonImage(lowered)
  }

  /** The classification once the format verdict is known: a bad format
      is reported as is, otherwise the probe's outcome decides. */
  function Classify(url: string, format: FormatVerdict, timeout: nat, probe: Probe): (r: ValidationResult)
    ensures r.url == url
    ensures r.isValid <==> r.errorType.None?
    ensures r.isValid <==> r.errorMessage.None?
  {
    if !format.valid then Invalid(url, "invalid_format", format.message)
    else match probe
      case Timeout => Invalid(url, "timeout", "Request timed out after " + NatToString(timeout) + " seconds")
      case ConnectError =>
        Invalid(url, "connection_error", "Could not connect to URL (DNS resolution failed or host unreachable)")
      case OtherError(e) => Invalid(url, "unknown_error", "Validation failed: " + e)
      case Response(status, header) =>
        if status == 404 then Invalid(url, "not_found", "URL returned 404 Not Found")
        else if status == 403 then Invalid(url, "forbidden", "URL returned 403 Forbidden (access denied)")
        else if status >= 400 then Invalid(url, "http_error", "URL returned HTTP " + NatToString(status))
        else
          var contentType := Lower(header);
          if ContentTypeAccepted(contentType) then ValidationResult(url, true, None, None)
          else Invalid(url, "not_an_image", "Content-Type is '" + contentType + "', not an image")
  }

  /** `validate_image_url`: the format check, then the probe. */
  function ValidateImageUrl(url: string, urlparse: string -> Option<ParsedUrl>, timeout: nat, probe: Probe): (r: ValidationResult)
    ensures r.url == url
    ensures r.isValid ==> IsValidImageUrl(url, urlparse).valid
    ensures r.isValid <==> r.errorType.None?
    ensures r.isValid <==> r.errorMessage.None?
  {
    Classify(url, IsValidImageUrl(url, urlparse), timeout, probe)
  }

  /** A URL is valid exactly when its format passes, the probe answers below 400, and the content type is accepted. */
  lemma ValidationIff(url: string, format: FormatVerdict, timeout: nat, probe: Probe)
    ensures Classify(url, format, timeout, probe).isValid <==>
      (&& format.valid
       && probe.Response? && probe.status < 400
       && ContentTypeAccepted(Lower(probe.contentType)))
  {
  }

  /** A bad format is reported without looking at the probe. */
  lemma FormatFailureSkipsProbe(url: string, format: FormatVerdict, timeout: nat, p1: Probe, p2: Probe)
    requires !format.valid
    ensures Classify(url, format, timeout, p1) == Classify(url, format, timeout, p2)
    ensures Classify(url, format, timeout, p1).errorType == Some("invalid_format")
    ensures Classify(url, format, timeout, p1).errorMessage == Some(format.message)
  {
  }

  /** The status classes of a well-formed URL's response. */
  lemma StatusClassification(url: string, format: FormatVerdict, timeout: nat, status: nat, header: string)
    requires format.valid
    ensures var r := Classify(url, format, timeout, Response(status, header));
      && (status == 404 ==> r.errorType == Some("not_found"))
      && (status == 403 ==> r.errorType == Some("forbidden"))
      && (status >= 400 && status != 403 && status != 404 ==> r.errorType == Some("http_error"))
      && (status < 400 && !ContentTypeAccepted(Lower(header)) ==> r.errorType == Some("not_an_image"))
      && (status < 400 && ContentTypeAccepted(Lower(header)) ==> r.isValid)
  {
  }

  /** A response whose content type is `text/…` is reported as not an image. */
  lemma TextIsNotAnImage(url: string, format: FormatVerdict, timeout: nat, status: nat, header: string)
    requires format.valid && status < 400 && StartsWith(Lower(header), "text/")
    ensures Classify(url, format, timeout, Response(status, header)).errorType == Some("not_an_image")
  {
    var ct := Lower(header);
    assert ContainsAt(ct, "text", 0);
    assert "text" in ["text", "html", "json", "xml"];
    assert !StartsWith(ct, "image/") by { assert ct[0] == 't'; }
  }

  // ---------------------------------------------------------------------
  // validate_image_urls

  datatype InvalidEntry = InvalidEntry(url: string, errorType: Option<string>, errorMessage: Option<string>)

  datatype UrlReport = UrlReport(validUrls: seq<string>, invalidUrls: seq<InvalidEntry>, total: nat, validCount: nat, invalidCount: nat)

  /** The valid results' URLs, in input order. */
  function ValidUrls(results: seq<ValidationResult>): (r: seq<string>)
    ensures |r| <= |results|
  {
    if results == [] then []
    else
      var last := results[|results| - 1];
      ValidUrls(results[..|results| - 1]) + (if last.isValid then [last.url] else [])
  }

  /** The invalid results, in input order. */
  function InvalidEntries(results: seq<ValidationResult>): (r: seq<InvalidEntry>)
    ensures |r| <= |results|
  {
    if results == [] then []
    else
      var last := results[|results| - 1];
      InvalidEntries(results[..|results| - 1])
        + (if last.isValid then [] else [InvalidEntry(last.url, last.errorType, last.errorMessage)])
  }

  /** Every result lands on exactly one side. */
  lemma {:induction false} PartitionCounts(results: seq<ValidationResult>)
    ensures |ValidUrls(results)| + |InvalidEntries(results)| == |results|
  {
    if results != [] {
      PartitionCounts(results[..|results| - 1]);
    }
  }

  /** Partitioning a concatenation partitions each part and keeps them in order. */
  lemma {:induction false} PartitionAppend(xs: seq<ValidationResult>, ys: seq<ValidationResult>)
    ensures ValidUrls(xs + ys) == ValidUrls(xs) + ValidUrls(ys)
    ensures InvalidEntries(xs + ys) == InvalidEntries(xs) + InvalidEntries(ys)
  {
    if ys != [] {
      assert (xs + ys)[..|xs + ys| - 1] == xs + ys[..|ys| - 1];
      PartitionAppend(xs, ys[..|ys| - 1]);
    } else {
      assert xs + ys == xs;
    }
  }

  /** A single result goes to its side. */
  lemma PartitionOne(r: ValidationResult)
    ensures ValidUrls([r]) == (if r.isValid then [r.url] else [])
    ensures InvalidEntries([r]) == (if r.isValid then [] else [InvalidEntry(r.url, r.errorType, r.errorMessage)])
  {
    assert [r][..0] == [];
  }

  /** Every valid URL listed comes from a valid result. */
  lemma {:induction false} ValidUrlsFromValidResults(results: seq<ValidationResult>)
    ensures forall u :: u in ValidUrls(results) ==> exists i :: 0 <= i < |results| && results[i].isValid && results[i].url == u
  {
    if results != [] {
      var init := results[..|results| - 1];
      ValidUrlsFromValidResults(init);
      forall u | u in ValidUrls(results)
        ensures exists i :: 0 <= i < |results| && results[i].isValid && results[i].url == u
      {
        if u in ValidUrls(init) {
          var i :| 0 <= i < |init| && init[i].isValid && init[i].url == u;
          assert results[i] == init[i];
        } else {
          assert results[|results| - 1].isValid && results[|results| - 1].url == u;
        }
      }
    }
  }

  /** Every invalid entry listed comes from an invalid result, with its error tag and message. */
  lemma {:induction false} InvalidEntriesFromInvalidResults(results: seq<ValidationResult>)
    ensures forall e :: e in InvalidEntries(results) ==>
      exists i :: 0 <= i < |results| && !results[i].isValid && e == InvalidEntry(results[i].url, results[i].errorType, results[i].errorMessage)
  {
    if results != [] {
      var init := results[..|results| - 1];
      InvalidEntriesFromInvalidResults(init);
      assert forall i :: 0 <= i < |init| ==> init[i] == results[i];
    }
  }

  /** The report of a list of results, as the collecting loop builds it. */
  function Report(results: seq<ValidationResult>): (r: UrlReport)
    ensures r.validCount + r.invalidCount == r.total == |results|
  {
    PartitionCounts(results);
    var valid, invalid := ValidUrls(results), InvalidEntries(results);
    UrlReport(valid, invalid, |results|, |valid|, |invalid|)
  }

  /** The collecting loop of `validate_image_urls`. */
  method CollectReport(results: seq<ValidationResult>) returns (report: UrlReport)
    ensures report == Report(results)
  {
    var validUrls: seq<string> := [];
    var invalidUrls: seq<InvalidEntry> := [];
    var i := 0;
    while i < |results|
      invariant 0 <= i <= |results|
      invariant validUrls == ValidUrls(results[..i])
      invariant invalidUrls == InvalidEntries(results[..i])
    {
      var result := results[i];
      assert results[..i + 1][..i] == results[..i];
      if result.isValid {
        validUrls := validUrls + [result.url];
      } else {
        invalidUrls := invalidUrls + [InvalidEntry(result.url, result.errorType, result.errorMessage)];
      }
      i := i + 1;
    }
    assert results[..i] == results;
    report := UrlReport(validUrls, invalidUrls, |results|, |validUrls|, |invalidUrls|);
  }

  /** `validate_image_urls`: each URL is validated against its own probe outcome, then the results are collected. */
  method ValidateImageUrls(urls: seq<string>, urlparse: string -> Option<ParsedUrl>, timeout: nat, probe: string -> Probe)
    returns (report: UrlReport)
    ensures report == Report(seq(|urls|, i requires 0 <= i < |urls| => ValidateImageUrl(urls[i], urlparse, timeout, probe(urls[i]))))
    ensures report.total == |urls| && report.validCount + report.invalidCount == |urls|
  {
    var results := seq(|urls|, i requires 0 <= i < |urls| => ValidateImageUrl(urls[i], urlparse, timeout, probe(urls[i])));
    report := CollectReport(results);
  }
}
