/** The model-fallback loop of the Gemini vision client
    (src/vision/gemini_client.py). The API call `analyze_image` is a
    parameter: `analyze(k)` is what it returns or raises on the attempt with
    the k-th model of the fallback list. */
module GeminiClient {
  import opened Wrappers
  import opened Text
  import Retry

  /** The `genai.GenerativeModel` the client holds, known by its model path. */
  datatype GenerativeModel = GenerativeModel(path: string)

  function ModelPath(name: string): string {
    "models/" + name
  }

  /** The text of the exception raised once every model was rate-limited;
      Python renders a missing last error as "None". */
  function AllRateLimitedMessage(lastError: Option<string>): string {
    "All models rate limited. Last error: " + (match lastError case None => "None" case Some(e) => e)
  }

  /** The outcome of one call: what it returns or raises, and how many models it tried. */
  datatype FallbackRun = FallbackRun(result: Result<string>, attempts: nat)

  /** The loop from the k-th model on, `lastError` being the last rate-limit error seen. */
  function FallbackFrom(models: seq<string>, analyze: nat -> Result<string>, k: nat, lastError: Option<string>): (run: FallbackRun)
    requires k <= |models|
    decreases |models| - k
    ensures k <= run.attempts <= |models|
  {
    if k == |models| then FallbackRun(Failure(AllRateLimitedMessage(lastError)), k)
    else match analyze(k)
      case Success(text) => FallbackRun(Success(text), k + 1)
      case Failure(e) =>
        if Retry.IsRateLimitError(e) then FallbackFrom(models, analyze, k + 1, Some(e))
        else FallbackRun(Failure(e), k + 1)
  }

  /** Every call starts again from the head of the list. */
  function Fallback(models: seq<string>, analyze: nat -> Result<string>): FallbackRun {
    FallbackFrom(models, analyze, 0, None)
  }

  /** The first n attempts all raised a rate-limit error. */
  ghost predicate RateLimitedUpTo(analyze: nat -> Result<string>, n: nat) {
    forall j :: 0 <= j < n ==> analyze(j).Failure? && Retry.IsRateLimitError(analyze(j).error)
  }

  /** The model name after n attempts that started from `current`. */
  function ModelAfter(current: string, models: seq<string>, n: nat): string
    requires n <= |models|
  {
    if n == 0 then current else models[n - 1]
  }

  /** What a run from the k-th model does: it stops at the first success or
      non-rate-limit error, and otherwise tries each remaining model once. */
  lemma {:induction false} FallbackFromShape(models: seq<string>, analyze: nat -> Result<string>, k: nat, lastError: Option<string>)
    requires k <= |models|
    requires lastError.Some? ==> Retry.IsRateLimitError(lastError.value)
    decreases |models| - k
    ensures var run := FallbackFrom(models, analyze, k, lastError);
      && (forall j :: k <= j < run.attempts - 1 ==> analyze(j).Failure? && Retry.IsRateLimitError(analyze(j).error))
      && (run.result.Success? ==> k < run.attempts && analyze(run.attempts - 1) == run.result)
      && (run.attempts == k ==> k == |models| && run.result == Failure(AllRateLimitedMessage(lastError)))
      && (run.attempts > k ==> (
            || analyze(run.attempts - 1) == run.result
            || (run.attempts == |models| && analyze(run.attempts - 1).Failure?
                && Retry.IsRateLimitError(analyze(run.attempts - 1).error)
                && run.result == Failure(AllRateLimitedMessage(Some(analyze(run.attempts - 1).error))))))
      && (k < run.attempts && run.result.Failure? && analyze(run.attempts - 1) == run.result ==>
            !Retry.IsRateLimitError(run.result.error))
  {
    if k < |models| {
      match analyze(k)
      case Success(_) =>
      case Failure(e) =>
        if Retry.IsRateLimitError(e) {
          FallbackFromShape(models, analyze, k + 1, Some(e));
        }
    }
  }

  /** The exhaustion message is itself a rate-limit message, so it cannot be mistaken for a re-raised error. */
  lemma ExhaustionMessageIsRateLimited(lastError: Option<string>)
    ensures Contains(Lower(AllRateLimitedMessage(lastError)), "rate")
    ensures Retry.IsRateLimitError(AllRateLimitedMessage(lastError))
  {
    var prefix := "All models rate limited. Last error: ";
    var tail := match lastError case None => "None" case Some(e) => e;
    var m := AllRateLimitedMessage(lastError);
    assert m == prefix + tail;
    PrefixSaysRate();
    assert m[11] == prefix[11] && m[12] == prefix[12] && m[13] == prefix[13] && m[14] == prefix[14];
    RateAt(m, 11);
  }

  lemma PrefixSaysRate()
    ensures var p := "All models rate limited. Last error: ";
      |p| == 37 && p[11] == 'r' && p[12] == 'a' && p[13] == 't' && p[14] == 'e'
  {
  }

  /** Lower-case "rate" at `i` is found by the case-insensitive test. */
  lemma RateAt(m: string, i: nat)
    requires i + 4 <= |m| && m[i] == 'r' && m[i + 1] == 'a' && m[i + 2] == 't' && m[i + 3] == 'e'
    ensures Contains(Lower(m), "rate")
  {
    var l := Lower(m);
    assert l[i..i + 4] == "rate" by {
      assert l[i] == 'r' && l[i + 1] == 'a' && l[i + 2] == 't' && l[i + 3] == 'e';
    }
    assert ContainsAt(l, "rate", i);
  }

  /** A call tries the models in list order: it returns the first success,
      re-raises the first error that is not a rate limit, and never tries a
      model after either. */
  lemma FallbackShape(models: seq<string>, analyze: nat -> Result<string>)
    ensures var run := Fallback(models, analyze);
      && run.attempts <= |models|
      && (models == [] ==> run == FallbackRun(Failure(AllRateLimitedMessage(None)), 0))
      && (models != [] ==> (
            && 1 <= run.attempts
            && RateLimitedUpTo(analyze, run.attempts - 1)
            && (run.result.Success? || run.attempts < |models| ==> analyze(run.attempts - 1) == run.result)))
  {
    FallbackFromShape(models, analyze, 0, None);
  }

  /** When every model is rate-limited, the call raises "All models rate
      limited…" with the last model's error, after one attempt per entry;
      conversely, a call that fails with a rate-limit error has tried them all. */
  lemma ExhaustionIff(models: seq<string>, analyze: nat -> Result<string>)
    ensures var run := Fallback(models, analyze);
      RateLimitedUpTo(analyze, |models|) ==>
        run == FallbackRun(Failure(AllRateLimitedMessage(if models == [] then None else Some(analyze(|models| - 1).error))), |models|)
    ensures var run := Fallback(models, analyze);
      run.result.Failure? && Retry.IsRateLimitError(run.result.error) ==>
        RateLimitedUpTo(analyze, |models|) && run.attempts == |models|
  {
    FallbackFromShape(models, analyze, 0, None);
  }

  /** An error that is not a rate limit on the first model is raised at once. */
  lemma OtherErrorRaisedAtOnce(models: seq<string>, analyze: nat -> Result<string>)
    requires models != [] && analyze(0).Failure? && !Retry.IsRateLimitError(analyze(0).error)
    ensures Fallback(models, analyze) == FallbackRun(analyze(0), 1)
  {
  }

  /** `GeminiVisionClient`: the current model and its name, and the fallback list. */
  class GeminiVisionClient {
    var currentModelName: string
    var model: GenerativeModel
    const fallbackModels: seq<string>

    /** The model held is the one the current name denotes. */
    ghost predicate Valid()
      reads this
    {
      model == GenerativeModel(ModelPath(currentModelName))
    }

    /** A client on the primary model with the given fallback list (the
        settings `GEMINI_MODEL` and `FALLBACK_MODELS`). */
    constructor (primary: string, fallbacks: seq<string>)
      ensures Valid()
      ensures currentModelName == primary && fallbackModels == fallbacks
    {
      currentModelName := primary;
      model := GenerativeModel(ModelPath(primary));
      fallbackModels := fallbacks;
    }

    /** `analyze_image_with_fallback`: switches to each list entry in turn
        (rebuilding the model only when the name differs) and tries it. */
    method AnalyzeImageWithFallback(analyze: nat -> Result<string>) returns (r: Result<string>)
      requires Valid()
      modifies this
      ensures Valid()
      ensures r == Fallback(fallbackModels, analyze).result
      ensures currentModelName == ModelAfter(old(currentModelName), fallbackModels, Fallback(fallbackModels, analyze).attempts)
    {
      var k := 0;
      var lastError: Option<string> := None;
      while k < |fallbackModels|
        invariant 0 <= k <= |fallbackModels|
        invariant Valid()
        invariant currentModelName == ModelAfter(old(currentModelName), fallbackModels, k)
        invariant FallbackFrom(fallbackModels, analyze, k, lastError) == Fallback(fallbackModels, analyze)
        decreases |fallbackModels| - k
      {
        var name := fallbackModels[k];
        if name != currentModelName {
          model := GenerativeModel(ModelPath(name));
          currentModelName := name;
        }
        var outcome := analyze(k);
        if outcome.Success? {
          r := outcome;
          return;
        }
        if !Retry.IsRateLimitError(outcome.error) {
          r := outcome;
          return;
        }
        lastError := Some(outcome.error);
        k := k + 1;
      }
      r := Failure(AllRateLimitedMessage(lastError));
    }
  }
}
