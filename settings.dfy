/** The configuration values the pipeline reads, at their defaults
    (src/config/settings.py; the environment overrides are not modelled). */
module Settings {

  /** Seconds between product starts and between two vision calls. */
  const ApiCallDelaySeconds: real := 15.0

  /** Seconds a HEAD probe may take during URL validation. */
  const UrlValidationTimeout: nat := 3

  /** Mean per-image confidence below which a parsed image is dropped. */
  const MinConfidenceThreshold: real := 0.5

  /** Standard deviation at which the quality-score penalty reaches its maximum. */
  const HighVarianceThreshold: real := 1.5

  /** How many valid URLs of one product are fetched and analysed. */
  const MaxImagesPerProduct: nat := 3

  /** The model a fresh vision client starts with. */
  const GeminiModel: string := "gemini-2.5-flash"

  /** The models tried, in order, for every image. */
  const FallbackModels: seq<string> := ["gemini-2.5-flash", "gemini-2.5-flash-lite", "gemini-3-flash-preview"]
}
