# Eyewear visual-analysis pipeline, modelled in Dafny

The pipeline rates an eyewear product from its catalogue images. It
validates each image URL (format check, then a HEAD request), caps the valid
URLs at three, and fetches the images. Each fetched image goes to a Gemini
vision model, which falls back through a list of models when rate-limited.
Each answer is parsed into a strict per-image analysis, and analyses with
low confidence are dropped. The rest are fused into one product measurement:

- confidence-weighted scores on five style axes;
- majority votes on eight categorical and boolean attributes;
- deduplicated dominant colours;
- quality flags.

The processor then adds variance metrics, its own flags, a quality score and
timings. Any stage that fails ends the product with a failed record tagged
with that stage's error type. A spreadsheet loader turns rows into products,
and a retry helper retries rate-limited calls with exponential backoff.

One Dafny module per source file:

| module | file | form |
|---|---|---|
| `Aggregator` | `aggregator.dfy` | voting, dimension fusion and flags; vote counting and fusion as loops proved against functions |
| `Colors` | `colors.dfy` | colour grouping as a loop over a growing group list, merging, and a stable sort with a cut to three |
| `ResponseParser` | `response_parser.dfy` | extraction of the JSON text and strict construction of the analysis |
| `Schema`, `Enums` | `schema.dfy`, `enums.dfy` | output records, their validators and defaults, and the closed tag sets |
| `Processor` | `processor.dfy` | the stage machine as layered functions, the class with the pacing field, and the loops of the stages |
| `GeminiClient` | `gemini_client.dfy` | the client class whose fallback loop reassigns the current model |
| `Retry` | `retry.dfy` | delay parsing, and the attempt loop with its sleeps returned as a trace |
| `UrlValidator` | `url_validator.dfy` | the format check, the classification of the probe's outcome, and the partition loop |
| `Loader` | `loader.dfy` | extension dispatch and the row and column loops |
| `Settings` | `settings.dfy` | the configuration defaults |

The remaining files are shared helpers:

- `Text`: Python's whitespace class, ASCII case folding, substring search, digit runs.
- `Wrappers`: `Option`, `Result`, and a loop that stops at the first exception.
- `JsonValue`: the decoded JSON value.
- `RealArith`: products of reals.

Every collaborator is a parameter:

- `urlparse`;
- the HEAD probe, as its outcome for each URL;
- `ImageLoader.load`, as its outcome for each URL;
- the vision call, as its outcome for the i-th image or model;
- `json.loads`;
- the square root in `statistics.stdev`;
- the clock readings.

Sleeps are returned as values and are not taken.

## Model

| member | source | states |
|---|---|---|
| Aggregator.Count | src/aggregation/aggregator.py:285-288 | the vote count of a value is at most the number of votes and positive exactly when the value was cast |
| Aggregator.FirstSeen | src/aggregation/aggregator.py:285-288 | the keys of the `votes` dictionary are exactly the values cast |
| Aggregator.FirstMax | src/aggregation/aggregator.py:293 | `max` over the dictionary items returns one of the keys |
| Aggregator.FirstSeenOrder | src/aggregation/aggregator.py:285-288 | every key first occurs at a position before which only earlier keys occur, so the dictionary keeps first-appearance order |
| Aggregator.FirstMaxIsFirstBest | src/aggregation/aggregator.py:293 | `max` picks a key with the most votes, and every key before it has strictly fewer |
| Aggregator.MajorityIsFirstMostFrequent | src/aggregation/aggregator.py:284-294 | the winner of a non-empty vote is the most frequent value, ties going to the value seen first |
| Aggregator.MajorityHasMostVotes | src/aggregation/aggregator.py:284-294 | no value has more votes than the winner |
| Aggregator.MajorityFirstOccurrence | src/aggregation/aggregator.py:284-294 | the winner occurs at a position before which every value has strictly fewer votes |
| Aggregator.FirstMostFrequentUnique | src/aggregation/aggregator.py:293 | at most one value is the most frequent one seen first, so that property fixes the winner |
| Aggregator.MajorityOfOne | src/aggregation/aggregator.py:284-294 | a single vote wins |
| Aggregator.CountOneMore | src/aggregation/aggregator.py:286-288 | one more value adds one vote for it and appends it to the key order when it is new |
| Aggregator.CountVotes | src/aggregation/aggregator.py:285-288 | the counting loop yields a dictionary holding exactly the cast values, each with its count, and its keys in first-appearance order |
| Aggregator.Tally | src/aggregation/aggregator.py:284-337 | each vote helper returns the vote winner, or its default when nobody voted |
| Aggregator.MaxOf | src/aggregation/aggregator.py:108 | `max(scores)` is a member of the list and bounds it above |
| Aggregator.MinOf | src/aggregation/aggregator.py:108 | `min(scores)` is a member of the list and bounds it below |
| Aggregator.ScoresOf | src/aggregation/aggregator.py:141-143 | one score per image |
| Aggregator.ConfidencesOf | src/aggregation/aggregator.py:141-144 | one confidence per image |
| Aggregator.MeanBetween | src/aggregation/aggregator.py:152 | a mean lies between any bounds of its terms |
| Aggregator.SumProductsBetween | src/aggregation/aggregator.py:148 | with non-negative weights, the weighted sum lies between the bounds times the sum of the weights |
| Aggregator.WeightedScoreBetween | src/aggregation/aggregator.py:146-150 | with non-negative confidences the weighted score lies between the smallest and largest score, and is 0 when the confidences sum to 0 |
| Aggregator.WeightedScoreWithin | src/aggregation/aggregator.py:146-150 | a positive confidence sum keeps the weighted score within any bounds of the scores |
| Aggregator.SumNonNegative | src/aggregation/aggregator.py:146 | the confidence sum is never negative |
| Aggregator.FusedScoreBounds | src/aggregation/aggregator.py:137-157 | the fused score is Σ(s·c)/Σc between the images' smallest and largest score, and 0.0 when Σc is 0 |
| Aggregator.FusedConfidenceBounds | src/aggregation/aggregator.py:152 | the fused confidence lies between the images' smallest and largest confidence |
| Aggregator.FusedDimensionValidated | src/aggregation/aggregator.py:154-157 | building the `VisualDimension` never fails validation, and the fused dimension is valid |
| Aggregator.SingleImageUnchanged | src/aggregation/aggregator.py:137-157 | one image with a positive confidence comes back unchanged |
| Aggregator.FusedAreValid | src/aggregation/aggregator.py:137-159 | every fused dimension is valid |
| Aggregator.FusedDimensions | src/aggregation/aggregator.py:127-159 | the fused record is valid and holds each dimension's fused score and confidence |
| Aggregator.AggregateVisualDimensions | src/aggregation/aggregator.py:127-159 | the collection loops return `FusedDimensions`: per dimension the confidence-weighted mean score and the plain mean confidence |
| Aggregator.FusedConfidences | src/aggregation/aggregator.py:64-70 | the five fused confidences |
| Aggregator.AggregateConfidenceInRange | src/aggregation/aggregator.py:64-71 | the aggregate confidence lies between the smallest and largest fused confidence, so it is in [0, 1] for a valid record |
| Aggregator.SpreadIff | src/aggregation/aggregator.py:107-109 | max − min > 2 exactly when two scores are more than 2 apart |
| Aggregator.AnySpreadIff | src/aggregation/aggregator.py:105-111 | the loop over the dimension names finds a spread exactly when some listed dimension has one |
| Aggregator.SpreadOfDimension | src/aggregation/aggregator.py:107-109 | one dimension's spread exceeds 2 exactly when two images score more than 2 apart on it |
| Aggregator.QualityFlagsMeaning | src/aggregation/aggregator.py:90-125 | low confidence iff the aggregate is below 0.5; high variance iff several images and two of them more than 2 apart on one dimension; single image iff exactly one; never partial |
| Aggregator.HighVarianceIff | src/aggregation/aggregator.py:102-111 | the high-variance loop fires exactly when some dimension has two scores more than 2 apart |
| Aggregator.HighVarianceNamesDimension | src/aggregation/aggregator.py:102-111 | when the loop fires, some dimension has two scores more than 2 apart |
| Aggregator.FarApartIsHighVariance | src/aggregation/aggregator.py:102-111 | any dimension with two scores more than 2 apart makes the loop fire |
| Aggregator.FieldValues | src/aggregation/aggregator.py:286-287 | one field value per image |
| Aggregator.AllColoursMembers | src/aggregation/aggregator.py:169-171 | the pooled colours are exactly the images' colours |
| Aggregator.PooledColoursValid | src/aggregation/aggregator.py:169-171 | pooled colours from validated analyses are valid colours |
| Aggregator.AttributesFailIff | src/aggregation/aggregator.py:161-183 | the attributes fail exactly when some pooled colour code does not parse (`average_hex` is not guarded) |
| Aggregator.AttributesValidated | src/aggregation/aggregator.py:176-183 | successful attributes pass the colour-list validator and are valid |
| Aggregator.AttributesVotes | src/aggregation/aggregator.py:161-166 | each of the five categorical attribute fields is its most frequent value, ties going to the value seen first |
| Aggregator.VoteOfOne | src/aggregation/aggregator.py:284-337 | a single image's value wins its vote |
| Aggregator.MetadataVotes | src/aggregation/aggregator.py:271-282 | each of the four metadata fields is its most frequent value, ties going to the value seen first |
| Aggregator.PoolColours | src/aggregation/aggregator.py:169-171 | the extending loop pools every image's colours in image order |
| Aggregator.AggregateObservableAttributes | src/aggregation/aggregator.py:161-183 | the result equals `AttributesOf`: five votes over the images, the pooled colours deduplicated, or the deduplication's failure |
| Aggregator.AggregateVisualMetadata | src/aggregation/aggregator.py:271-282 | the result equals `MetadataOf`: the four metadata votes |
| Aggregator.EmptyInputSentinel | src/aggregation/aggregator.py:26-58 | no analyses give the failed sentinel: zero dimensions, no colours, the tags unknown/opaque/smooth/indeterminate, aggregate 0 and only low confidence flagged |
| Aggregator.AggregatedResult | src/aggregation/aggregator.py:60-88 | with analyses the result succeeds exactly when every colour code parses; a success holds the fused dimensions, voted fields, the mean confidence in [0, 1] and the derived flags |
| Aggregator.SingleAnalysisAggregate | src/aggregation/aggregator.py:60-88 | one analysis with positive confidences comes back with its own dimensions and categorical fields, flagged single-image and not high-variance |
| Aggregator.SingleAnalysisDimensions | src/aggregation/aggregator.py:127-159 | one analysis with positive confidences keeps its dimensions |
| Aggregator.SingleAnalysisMetadata | src/aggregation/aggregator.py:271-282 | one analysis keeps its metadata |
| Aggregator.SingleAnalysisAttributes | src/aggregation/aggregator.py:161-183 | one analysis keeps its categorical attribute fields |
| Aggregator.Aggregate | src/aggregation/aggregator.py:21-88 | the result equals `Aggregated`: the empty sentinel for no analyses, otherwise the fused record or the colour failure |
| Colors.StripHashes | src/aggregation/aggregator.py:199 | `lstrip('#')` removes exactly the leading run of '#', leaving a suffix that does not start with '#' |
| Colors.StripsOneHash | src/aggregation/aggregator.py:199 | a single leading '#' is removed from a code without a second one |
| Colors.ParseHexByte | src/aggregation/aggregator.py:200 | `int(s, 16)` succeeds exactly on a non-empty run of hexadecimal digits, giving its value, and otherwise raises ValueError |
| Colors.HexToRgb | src/aggregation/aggregator.py:198-200 | a parsed code gives three channels in [0, 255] |
| Colors.SlicesParseIff | src/aggregation/aggregator.py:200 | the three slices `[0:2]`, `[2:4]`, `[4:6]` all parse exactly when at least five characters remain and the first six of them are hexadecimal digits |
| Colors.HexToRgbSucceeds | src/aggregation/aggregator.py:198-200 | a code parses exactly when five or more characters follow the '#'s and the first six (or all, if fewer) are hexadecimal digits |
| Colors.ShortCodesFail | src/aggregation/aggregator.py:198-200 | "#FFF" and "" do not parse: shorthand is not expanded |
| Colors.SquaredDistance | src/aggregation/aggregator.py:203-206 | the squared RGB distance is never negative; distance < 50 is squared distance < 2500 |
| Colors.HexByte | src/aggregation/aggregator.py:214 | `:02X` gives two hexadecimal digits denoting the value |
| Colors.FormatHex | src/aggregation/aggregator.py:214 | the formatted code is '#' and six characters |
| Colors.FormatHexDigits | src/aggregation/aggregator.py:214 | the six characters are upper-case hexadecimal digits |
| Colors.FormatHexRoundTrip | src/aggregation/aggregator.py:198-200 | reading a formatted colour back gives the colour |
| Colors.ParseAll | src/aggregation/aggregator.py:210 | parsing a list gives one colour per code |
| Colors.ParseAllValid | src/aggregation/aggregator.py:210 | every parsed colour is in range |
| Colors.AverageRgb | src/aggregation/aggregator.py:211-213 | the truncated channel means are in range |
| Colors.AverageHexResult | src/aggregation/aggregator.py:209-214 | `average_hex` succeeds exactly when every code parses, giving a seven-character code that parses again, and otherwise raises the error of the first code that does not parse |
| Colors.AverageOfOneColour | src/aggregation/aggregator.py:209-214 | averaging copies of one colour gives that colour as "#RRGGBB" |
| Colors.FirstMatchFrom | src/aggregation/aggregator.py:223-241 | the scan finds the first group whose first member matches by lower-cased name or by distance below 50, and none before it matches |
| Colors.AddToGroups | src/aggregation/aggregator.py:219-245 | after placing a colour every group is still non-empty |
| Colors.Grouped | src/aggregation/aggregator.py:217-245 | the grouping loop makes non-empty groups |
| Colors.FlattenUpdate | src/aggregation/aggregator.py:226 | appending to one group adds exactly that colour to the pooled members |
| Colors.JoinKeepsWellGrouped | src/aggregation/aggregator.py:223-238 | joining the first matching group keeps every member matching its head and apart from earlier heads |
| Colors.JoinKeepsMembersMatching | src/aggregation/aggregator.py:225-237 | a colour joined to a group matches that group's first member |
| Colors.JoinKeepsLaterGroupsApart | src/aggregation/aggregator.py:223-238 | a colour joins only after every earlier head failed to match it |
| Colors.OpenKeepsWellGrouped | src/aggregation/aggregator.py:244-245 | a new group for an unmatched colour keeps the grouping well formed |
| Colors.GroupedIsWellGrouped | src/aggregation/aggregator.py:217-245 | each member matches its group's first member and no earlier group's; the groups hold exactly the input colours; there are no more groups than colours |
| Colors.SameNameOneGroup | src/aggregation/aggregator.py:225-228 | colours sharing one lower-cased name form one group in input order |
| Colors.DistinctColoursStaySeparate | src/aggregation/aggregator.py:243-245 | colours no two of which match stay in singleton groups in input order |
| Colors.PlaceColour | src/aggregation/aggregator.py:221-245 | the inner loop appends the colour to the first matching group or opens a new group |
| Colors.GroupColors | src/aggregation/aggregator.py:217-245 | the loops over a growing group list build the groups `Grouped` describes, each colour joining the first matching group |
| Colors.InsertByCoverage | src/aggregation/aggregator.py:268 | inserting keeps every element and adds one |
| Colors.SortByCoverage | src/aggregation/aggregator.py:268 | the sort is a permutation of its input |
| Colors.InsertKeepsSorted | src/aggregation/aggregator.py:268 | insertion into a descending list keeps it descending |
| Colors.SortIsSorted | src/aggregation/aggregator.py:268 | the sorted list is ordered by decreasing coverage |
| Colors.InsertStable | src/aggregation/aggregator.py:268 | insertion puts the new colour before the existing ones of equal coverage |
| Colors.SortIsStable | src/aggregation/aggregator.py:268 | the colours of any one coverage keep their input order |
| Colors.FirstMaxIndex | src/aggregation/aggregator.py:251-252 | the first member of greatest coverage |
| Colors.SortHeadIsFirstMax | src/aggregation/aggregator.py:251-252 | `sorted(group, reverse=True)[0]` is the first member of greatest coverage |
| Colors.HexesParseIff | src/aggregation/aggregator.py:255-256 | every code of a list parses exactly when each colour's code does |
| Colors.MergeGroup | src/aggregation/aggregator.py:249-265 | a merged colour is valid |
| Colors.MergeGroupResult | src/aggregation/aggregator.py:249-265 | merging succeeds exactly when every code parses, taking the name of the first member of greatest coverage, min(100, Σ coverage) and a six-digit averaged code; a failure is a member's conversion error |
| Colors.Merged | src/aggregation/aggregator.py:248-265 | the merge loop gives one colour per group |
| Colors.MergedSuccess | src/aggregation/aggregator.py:248-265 | the merge loop succeeds exactly when every group parses, each result being its group's merge |
| Colors.TopThree | src/aggregation/aggregator.py:268-269 | at most three colours are kept |
| Colors.TopThreeShape | src/aggregation/aggregator.py:268-269 | the kept colours are in decreasing coverage and each is a merged colour |
| Colors.TopThreeLeavesLess | src/aggregation/aggregator.py:268-269 | the kept colours are drawn from the merged ones with their multiplicities, and no colour left out covers more than the last one kept |
| Colors.TopThreeWellFormed | src/aggregation/aggregator.py:268-269 | the kept colours of well-formed merged colours are valid, carry parsing six-digit codes, and run in decreasing coverage |
| Colors.GroupedAreValid | src/aggregation/aggregator.py:217-245 | groups of valid colours hold valid colours |
| Colors.DeduplicatedFailsOnBadHex | src/aggregation/aggregator.py:185-269 | an empty list gives []; the deduplication raises exactly when some colour's code does not parse |
| Colors.MergedColoursWellFormed | src/aggregation/aggregator.py:248-265 | every merged colour is valid with a seven-character code that parses |
| Colors.DeduplicatedShape | src/aggregation/aggregator.py:185-269 | a successful deduplication keeps at most three colours and no more than it was given, in decreasing coverage, each valid with a six-digit code |
| Colors.MergeSingleColour | src/aggregation/aggregator.py:249-265 | a one-colour group merges to that colour with its code normalised |
| Colors.MergedSingleColour | src/aggregation/aggregator.py:248-265 | the merge of one singleton group is that colour normalised |
| Colors.DeduplicatedSingleColour | src/aggregation/aggregator.py:185-269 | a single colour comes back with its code normalised to "#RRGGBB" |
| Colors.DeduplicateColors | src/aggregation/aggregator.py:185-269 | the result equals `Deduplicated`: grouping, merging, the stable sort by coverage and the cut to three |
| Enums.ParseProcessingStatus | src/schema/enums.py:4-7 | a text is a status exactly when it is "success", "partial" or "failed", and each status is recognised by its own tag |
| Enums.ParseFrameGeometry | src/schema/enums.py:10-18 | a text is accepted exactly when it is the tag of a frame geometry, which it then denotes |
| Enums.ParseTransparency | src/schema/enums.py:21-25 | a text is accepted exactly when it is the tag of a transparency, which it then denotes |
| Enums.ParseSurfaceTexture | src/schema/enums.py:28-34 | a text is accepted exactly when it is the tag of a surface texture, which it then denotes |
| Enums.ParseFrameMaterialApparent | src/schema/enums.py:37-44 | a text is accepted exactly when it is the tag of a frame material, which it then denotes |
| Enums.ParseLensTint | src/schema/enums.py:47-57 | a text is accepted exactly when it is the tag of a lens tint, which it then denotes |
| Enums.ParseTempleStyle | src/schema/enums.py:60-65 | a text is accepted exactly when it is the tag of a temple style, which it then denotes |
| Enums.FrameGeometryTags | src/schema/enums.py:10-18 | eight distinct frame geometries, including "unknown" and the hyphenated "cat-eye" ("cat_eye" is not a tag) |
| Enums.TransparencyTags | src/schema/enums.py:21-25 | four transparencies, none of them "unknown"; the sentinel default "opaque" is one |
| Enums.SurfaceTextureTags | src/schema/enums.py:28-34 | six surface textures; the sentinel default "smooth" is one and "unknown" is not |
| Enums.IndeterminateIsMember | src/schema/enums.py:37-65 | frame material, lens tint and temple style each accept the sentinel "indeterminate" and none accepts "unknown" |
| Schema.AllDimensionsListed | src/aggregation/aggregator.py:128-134 | the list of dimension names covers all five dimensions |
| Schema.DimensionsOf | src/schema/output_schema.py:33-38 | the record built from a per-dimension choice holds that choice for every dimension |
| Schema.ClampScore | src/schema/output_schema.py:20-23 | the clamped score lies in [-5, 5], is the value itself inside that range, and the nearer bound outside it |
| Schema.ClampScoreIdempotent | src/schema/output_schema.py:20-23 | clamping twice is clamping once |
| Schema.ValidateConfidence | src/schema/output_schema.py:25-30 | a confidence is accepted, unchanged, exactly when it lies in [0, 1] |
| Schema.MakeVisualDimension | src/schema/output_schema.py:16-30 | a dimension is built exactly when the confidence is in [0, 1]; it then holds the clamped score and is valid |
| Schema.ValidateCoverage | src/schema/output_schema.py:46-51 | a coverage is accepted, unchanged, exactly when it lies in [0, 100] |
| Schema.MakeDominantColor | src/schema/output_schema.py:41-51 | a colour is built exactly when its coverage is in [0, 100], and is then valid |
| Schema.ValidateDominantColors | src/schema/output_schema.py:62-67 | a colour list is accepted, never truncated, exactly when it has at most three entries |
| Schema.DefaultVarianceMetrics | src/schema/output_schema.py:107-113 | every variance field defaults to zero |
| Schema.DefaultTimingBreakdown | src/schema/output_schema.py:116-122 | every timing field defaults to zero |
| Schema.ValidateAggregateConfidence | src/schema/output_schema.py:175-180 | an aggregate confidence is accepted, unchanged, exactly when it lies in [0, 1] |
| Schema.NewMeasurement | src/schema/output_schema.py:125-180 | a record is built exactly when the aggregate confidence is in [0, 1]; it holds the given fields and every other field at its declared default ("1.0" versions, "confidence_weighted_average", zero counts, no error) |
| ResponseParser.FirstFenceClose | src/vision/response_parser.py:28 | the lazy `.*?` stops at the first `}` followed by whitespace and "```", and no earlier brace closes the fence |
| ResponseParser.FenceBodyAt | src/vision/response_parser.py:28-31 | a fence match at a position yields a braced group |
| ResponseParser.FirstFenceStart | src/vision/response_parser.py:29 | `re.search` takes the leftmost position where the fenced pattern matches |
| ResponseParser.IndexOfChar | src/vision/response_parser.py:33-34 | the first occurrence of a character, none before it |
| ResponseParser.LastIndexOfChar | src/vision/response_parser.py:33-34 | the last occurrence of a character, none after it |
| ResponseParser.BraceSpan | src/vision/response_parser.py:33-36 | the greedy pattern matches exactly when a `{` precedes a `}`, yielding a braced span |
| ResponseParser.CleanJsonString | src/vision/response_parser.py:27-38 | the result is braced, and there is none (the ValueError) exactly when no `{` precedes a `}` |
| ResponseParser.CleanPrefersFence | src/vision/response_parser.py:28-31 | when a fence matches, the body of the leftmost fence, closed at its first closing brace, is extracted |
| ResponseParser.FirstFenceCloseIs | src/vision/response_parser.py:28 | the first closing brace is the one the lazy match stops at |
| ResponseParser.FirstFenceStartIs | src/vision/response_parser.py:29 | the leftmost matching start is the one the search returns |
| ResponseParser.CleanFallsBackToBraceSpan | src/vision/response_parser.py:33-36 | without a fence match the span from the first `{` to the last `}` is extracted |
| ResponseParser.BareObjectExtracts | src/vision/response_parser.py:27-36 | a JSON object text without "```" extracts to itself |
| ResponseParser.FencedTextBounds | src/vision/response_parser.py:28 | in a fenced text the body opens after the whitespace and the body's last brace closes the fence |
| ResponseParser.FencedTextExtracts | src/vision/response_parser.py:28-31 | "```json", whitespace, a body without "```", whitespace and "```" extract to that body |
| ResponseParser.FencedObjectExtracts | src/vision/response_parser.py:28-31 | a JSON object text without "```" extracts to itself when fenced |
| ResponseParser.ColorFromJson | src/vision/response_parser.py:88 | a colour built from the response is valid |
| ResponseParser.ColorsFromItems | src/vision/response_parser.py:88 | every item builds its colour, one per item, in order |
| ResponseParser.ColorsFromJson | src/vision/response_parser.py:88 | the comprehension gives valid colours, one per array item |
| ResponseParser.DimensionsFromFields | src/vision/response_parser.py:46-52 | the dimensions are built exactly when all five entries build, each holding its own entry's dimension, and they are valid |
| ResponseParser.AttributesFromFields | src/vision/response_parser.py:54-91 | built attributes are valid |
| ResponseParser.AnalysisFromFields | src/vision/response_parser.py:46-128 | a parsed analysis needs all fifteen keys and is valid |
| ResponseParser.ParseVisionResponse | src/vision/response_parser.py:41-132 | every failure gives `None`; a parse needs an extracted text that decodes to an object with all fifteen keys, and is valid |
| ResponseParser.FencedAndBareParseAlike | src/vision/response_parser.py:27-44 | a response parses the same bare or inside a ```json fence |
| ResponseParser.UnwrapRules | src/vision/response_parser.py:54-115 | the booleans are bare or under "detected" / "assessment", the six tags bare or under "value" |
| ResponseParser.ScoresClampedConfidencesKept | src/vision/response_parser.py:46-52 | each score is the clamped response score and each confidence the response's own, which lies in [0, 1] |
| ResponseParser.OutOfRangeConfidenceRejected | src/vision/response_parser.py:46-52 | a confidence outside [0, 1] rejects the whole response |
| ResponseParser.MissingKeyRejected | src/vision/response_parser.py:46-115 | any of the fifteen keys missing rejects the response |
| ResponseParser.TooManyColorsRejected | src/vision/response_parser.py:84-91 | more than three colours reject the response instead of being truncated |
| ResponseParser.OutOfRangeCoverageRejected | src/vision/response_parser.py:88 | one coverage outside [0, 100] rejects the response |
| ResponseParser.UnknownFrameGeometryRejected | src/vision/response_parser.py:60-64 | a frame geometry outside the tag set rejects the response, with no fall-back to "unknown" |
| ResponseParser.ColorsToJson | src/vision/response_parser.py:88 | one item per colour |
| ResponseParser.AnalysisToFields | src/vision/response_parser.py:46-115 | the response object written for an analysis has exactly the fifteen keys |
| ResponseParser.ColorsRoundTrip | src/vision/response_parser.py:88 | valid colours written out read back unchanged |
| ResponseParser.DimensionsRoundTrip | src/vision/response_parser.py:46-52 | valid dimensions written out read back unchanged |
| ResponseParser.WrapUnwrap | src/vision/response_parser.py:54-58 | a value bare or wrapped under its key unwraps to itself |
| ResponseParser.ColorFieldRoundTrip | src/vision/response_parser.py:88 | the colour field of a valid analysis reads back unchanged |
| ResponseParser.TagFieldRoundTrip | src/vision/response_parser.py:60-64 | a tag written bare or wrapped reads back as the member it names |
| ResponseParser.BoolFieldRoundTrip | src/vision/response_parser.py:54-58 | a boolean written bare or wrapped reads back unchanged |
| ResponseParser.FrameGeometryRoundTrip | src/vision/response_parser.py:60-64 | the frame geometry reads back unchanged |
| ResponseParser.TransparencyRoundTrip | src/vision/response_parser.py:66-70 | the transparency reads back unchanged |
| ResponseParser.SurfaceTextureRoundTrip | src/vision/response_parser.py:72-76 | the surface texture reads back unchanged |
| ResponseParser.FrameMaterialRoundTrip | src/vision/response_parser.py:93-97 | the frame material reads back unchanged |
| ResponseParser.LensTintRoundTrip | src/vision/response_parser.py:99-103 | the lens tint reads back unchanged |
| ResponseParser.TempleStyleRoundTrip | src/vision/response_parser.py:105-109 | the temple style reads back unchanged |
| ResponseParser.WirecoreRoundTrip | src/vision/response_parser.py:54-58 | the wirecore flag reads back unchanged |
| ResponseParser.SuitableForKidsRoundTrip | src/vision/response_parser.py:78-82 | the suitability flag reads back unchanged |
| ResponseParser.NosePadsRoundTrip | src/vision/response_parser.py:111-115 | the nose-pad flag reads back unchanged |
| ResponseParser.AttributesRoundTrip | src/vision/response_parser.py:54-91 | valid attributes read back unchanged |
| ResponseParser.MetadataRoundTrip | src/vision/response_parser.py:93-122 | the metadata reads back unchanged |
| ResponseParser.AnalysisRoundTrip | src/vision/response_parser.py:46-128 | every valid analysis written out as the response object, bare or wrapped, parses back to itself |
| Processor.FirstRetrySeconds | src/pipeline/processor.py:336 | `re.search` finds the leftmost case-insensitive "retry in" followed by a digit, and none before it |
| Processor.DigitRunEndIs | src/pipeline/processor.py:336 | the greedy `\d+` takes exactly the run of digits |
| Processor.RetrySecondsReadBack | src/pipeline/processor.py:336-338 | a message starting "retry in n" gives n seconds, whatever follows the digits, so "retry in 37.39s" gives 37 |
| Processor.NoClauseSixty | src/pipeline/processor.py:340-341 | without a "retry in" followed by a digit the delay is 60 seconds |
| Processor.FirstClauseDecides | src/pipeline/processor.py:336-338 | the first clause's digits decide, whatever later clauses say |
| Processor.VisionErrorOf | src/pipeline/processor.py:391-398 | an error is `rate_limited` exactly when its lower-cased text mentions "rate", "quota" or "limit", and `vision_model_error` otherwise |
| Processor.LowerFindsDigits | src/pipeline/processor.py:296-297 | lower-casing neither creates nor destroys an occurrence of "429" |
| Processor.MentionsQuotaIsRateLimitError | src/pipeline/processor.py:296-297 | the outer handler's test is the retry helper's rate-limit test |
| Processor.ExhaustedClientIsRateLimited | src/pipeline/processor.py:391-395 | a client that ran out of models makes the vision stage report `rate_limited` |
| Processor.PacingSpacesProducts | src/pipeline/processor.py:343-348 | the pause is never negative, is taken only after a product that started less than the delay ago, is at most the delay, and afterwards at least the delay has passed since the previous start |
| Processor.FailedSentinel | src/pipeline/processor.py:476-535 | a failed record says "failed" with its tag, analysed nothing, has the aggregator's empty-analysis fields, aggregate confidence 0, the low-confidence flag, and the partial flag exactly when images were provided |
| Processor.HandledFailureShape | src/pipeline/processor.py:292-328 | the handler reports `rate_limited` exactly for a text with "429", "quota" or "rate", and only then keeps the parsed delay, the quota guidance and the validation; otherwise `unknown_error` |
| Processor.QuotaDelayReadBack | src/pipeline/processor.py:297-308 | a rate-limit text starting "retry in n" gives a retry delay of n |
| Processor.ValidationResults | src/pipeline/processor.py:70-73 | one validation result per URL |
| Processor.ValidationOf | src/pipeline/processor.py:77-88 | one `InvalidUrl` per invalid entry of the report |
| Processor.ValidationCarriesErrors | src/pipeline/processor.py:77-88 | the validation counts add up to the URLs provided, and each `InvalidUrl` carries the validator's URL, tag and message, never a missing one |
| Processor.Capped | src/pipeline/processor.py:113-115 | the first `MAX_IMAGES_PER_PRODUCT` valid URLs, in order: all of them when there are no more than that |
| Processor.Gathered | src/pipeline/processor.py:356-357 | one fetch outcome per URL, in URL order |
| Processor.LoadedImages | src/pipeline/processor.py:140 | no more images than outcomes |
| Processor.LoadedImagesMeaning | src/pipeline/processor.py:140 | the images kept are the fetched ones: all of them exactly when every URL gave bytes, none exactly when none did |
| Processor.LoadImagesWithTracking | src/pipeline/processor.py:350-368 | any exception among the gathered outcomes fails the batch with `image_download_failed` and no images; otherwise every outcome is returned in order |
| Processor.VisionFrom | src/pipeline/processor.py:378-400 | one time per answer, at most one answer per remaining image |
| Processor.VisionFromShape | src/pipeline/processor.py:378-400 | images are answered in order until the first exception: the answers and times are the calls' own, the error is that exception's classification, a run without error answers every image, and every call but the first follows one pause of the inter-call delay |
| Processor.AnalyzeImagesWithTracking | src/pipeline/processor.py:370-400 | the loop returns the run `VisionFrom` describes from the first image |
| Processor.ParsesWith | src/pipeline/processor.py:180-182 | one parse per answer |
| Processor.Parses | src/pipeline/processor.py:180-182 | every parse that succeeds is a valid analysis |
| Processor.ParsedFrom | src/pipeline/processor.py:175-213 | one per-image record per kept analysis; kept and rejected together never exceed the answers |
| Processor.KeptIndices | src/pipeline/processor.py:183-200 | the kept positions index the answers |
| Processor.KeptAreParses | src/pipeline/processor.py:200-208 | the k-th kept analysis is the parse of the answer at the k-th kept position, and its record carries that position's label and time |
| Processor.KeptIndicesMeaning | src/pipeline/processor.py:183-200 | the kept positions are exactly the answers whose parse has a mean confidence of at least `MIN_CONFIDENCE_THRESHOLD`, each once, in answer order |
| Processor.KeptPlusRejected | src/pipeline/processor.py:183-212 | the rejected count is the parsed answers the filter drops, so kept plus rejected is the number of answers that parse |
| Processor.ParsedFromValid | src/pipeline/processor.py:200 | the kept analyses are valid input for the aggregator |
| Processor.ParseResponses | src/pipeline/processor.py:175-213 | the loop returns the outcome `ParsedFrom` gives for the answers' parses |
| Processor.SquaredDeviations | src/pipeline/processor.py:429 | the squared deviations never sum to a negative value |
| Processor.SquaredDeviationsVanish | src/pipeline/processor.py:429 | values all at the mean deviate by nothing |
| Processor.SquaredDeviationsPositive | src/pipeline/processor.py:429 | one value away from the mean makes the sum positive |
| Processor.SampleVarianceMeaning | src/pipeline/processor.py:429 | the sample variance is never negative, 0 when all scores are equal, and positive as soon as two differ |
| Processor.VarianceMetricsMeaning | src/pipeline/processor.py:402-433 | below two images every metric is 0; otherwise each is the root of its dimension's sample variance, the root of 0 when all images agree, and never negative when the root of a non-negative number is not |
| Processor.FiveScores | src/pipeline/processor.py:452-458 | five scores per analysis |
| Processor.AllScores | src/pipeline/processor.py:450-458 | five pooled scores per image |
| Processor.AllScoresMembers | src/pipeline/processor.py:450-458 | the pool holds exactly the scores of the images, on every dimension |
| Processor.PooledHighVariance | src/pipeline/processor.py:447-461 | the high-variance flag is raised exactly when there are several images and some two pooled scores, of any images on any dimensions, are more than 2 apart |
| Processor.ProcessorFlagsMeaning | src/pipeline/processor.py:444-474 | low confidence below 0.5, a single image when exactly one was fetched, partial when fewer were fetched than provided |
| Processor.PerDimensionSpreadIsPooled | src/pipeline/processor.py:447-461 | whenever the aggregator's per-dimension variance flag is raised, so is the processor's pooled one |
| Processor.PenaltyBounds | src/pipeline/processor.py:245-253 | the variance penalty lies in [0, 1], is 0 without variance and 1 once the largest metric reaches the threshold |
| Processor.QualityScoreBounds | src/pipeline/processor.py:244-254 | the quality score lies between 70% of the aggregate confidence and the confidence itself, equal to it without variance and 70% of it at full penalty |
| Processor.FetchedIndices | src/pipeline/processor.py:140 | the positions of the URLs that gave bytes index the outcomes |
| Processor.FetchedIndicesMeaning | src/pipeline/processor.py:140 | the k-th loaded image is the bytes fetched at the k-th of those positions, which run in URL order |
| Processor.FetchedUrls | src/pipeline/processor.py:140-205 | the intended labels (the Findings row on line 205): one URL per loaded image |
| Processor.FetchedUrlsMeaning | src/pipeline/processor.py:140-205 | the intended labelling (the Findings row on line 205): labelled by these URLs, the k-th answer carries the URL its image came from |
| Processor.MislabelAfterMissingImage | src/pipeline/processor.py:140-205 | with the first of two URLs giving no image, the one image loaded comes from the second URL, yet position 0 of the capped URLs, the label line 205 gives it, is the first |
| Processor.FetchStageMislabels | src/pipeline/processor.py:112-225 | on two URLs, the first answered without bytes and the second with an image that parses, passes the filter and aggregates, the as-written record succeeds with one per-image record named after the first URL, while the intended stage names it after the second |
| Processor.TwoUrlsLoadSecond | src/pipeline/processor.py:124-140 | on those two URLs nothing raised, the one image loaded is the second's, and only the second URL was fetched |
| Processor.OneImageCompletes | src/pipeline/processor.py:155-290 | one loaded image whose answer parses, passes the filter and aggregates gives a success with one per-image record, named by the first label |
| Processor.OneAnswerParsed | src/pipeline/processor.py:155-213 | one answered image runs the loop through and its passing parse is kept under the first label |
| Processor.AnsweredKept | src/pipeline/processor.py:175-215 | a loop that ran through hands its answers' parses to the confidence filter |
| Processor.KeptCompletes | src/pipeline/processor.py:215-290 | kept analyses that aggregate give a success carrying their per-image records |
| Processor.AggregatedStageShape | src/pipeline/processor.py:228-328 | an aggregation error goes to the handler (`rate_limited` exactly for a rate-limit text, else `unknown_error`); an aggregated record is completed with its metadata, flags and quality score |
| Processor.KeptStageShape | src/pipeline/processor.py:215-225 | nothing kept is a `parse_error` with the times measured; otherwise the record is the aggregation's |
| Processor.AnswersStageShape | src/pipeline/processor.py:160-225 | a vision error is reported as classified with the times so far; `parse_error` exactly when the loop ran through but nothing was kept; no error of an earlier stage is ever reported |
| Processor.VisionStageShape | src/pipeline/processor.py:155-225 | as above, and a completed record answered every loaded image |
| Processor.FetchStageErrors | src/pipeline/processor.py:124-152 | `image_download_failed` exactly when some fetch raised, `invalid_image_format` exactly when none raised and none gave bytes |
| Processor.FetchStageSuccess | src/pipeline/processor.py:112-290 | a successful record analysed between one and three fetched images, is capped exactly when there were more valid URLs than three, its flags count the fetched images against the URLs provided, and it carries the validation |
| Processor.FetchStagePerImageUrls | src/pipeline/processor.py:204-208 | the corrected half of the Findings row on line 205: in a successful record of the intended stage `FetchStageIntended`, each per-image record names a capped URL whose fetch gave bytes |
| Processor.FetchStageIntendedRelabels | src/pipeline/processor.py:204-208 | the intended stage returns the as-written record with only the per-image records' URLs changed |
| Processor.VisionStageRelabels | src/pipeline/processor.py:155-290 | labelling the answers differently changes the record's per-image URLs and nothing else |
| Processor.LabelsOnlyName | src/pipeline/processor.py:175-213 | the labels affect only the per-image records' URLs: the kept analyses, the rejection count and the records' other fields do not depend on them |
| Processor.PerImageUrlsFetched | src/pipeline/processor.py:204-208 | the corrected half of the Findings row on line 205: labelled by `FetchedUrls`, each kept answer's label is the URL its image was fetched from |
| Processor.KeptLabelsFetched | src/pipeline/processor.py:204-208 | the corrected half of the Findings row on line 205: the same for any parses of the answers |
| Processor.ProcessedOutcome | src/pipeline/processor.py:42-290 | the status agrees with the error type; `all_urls_invalid` exactly when validation leaves no URL; a successful record analysed between one and three images, says whether the valid URLs were capped, and carries the validation |
| Processor.NoValidUrlStopsEarly | src/pipeline/processor.py:98-109 | with no valid URL nothing is fetched or sent to the model: the record does not depend on the loader, the client or the decoder |
| Processor.DownloadFailureSkipsVision | src/pipeline/processor.py:129-137 | a download that raises ends the run before the vision client is called |
| Processor.ProductProcessor.constructor | src/pipeline/processor.py:30-40 | no product has started yet |
| Processor.ProductProcessor.ApplyProductRateLimit | src/pipeline/processor.py:343-348 | the pause before a product is the pacing delay since the previous start |
| Processor.ProductProcessor.ProcessProduct | src/pipeline/processor.py:42-328 | the pause is the pacing delay since the previous start, the field then holds the resumed time, and the record equals `Processed`, the stages in order, whose per-image records are labelled by the capped URLs position by position as line 205 labels them |
| Processor.RunFetchStage | src/pipeline/processor.py:112-152 | the record equals `FetchStage`, whose errors and successes the stage lemmas describe, with the answers labelled by the capped URLs as line 205 labels them |
| Processor.RunVisionStage | src/pipeline/processor.py:155-290 | the record equals `VisionStage`, the vision, parsing and aggregation stages |
| Retry.NumberRunEnd | src/utils/retry.py:72 | the greedy `[\d.]+` run: every character up to the end is a digit or a point, and the next is neither |
| Retry.FirstRetryIn | src/utils/retry.py:72 | `re.search` finds the leftmost case-insensitive "retry in" followed by a number |
| Retry.FirstRetryAfter | src/utils/retry.py:77 | `re.search` finds the leftmost case-insensitive "retry after <number> second" |
| Retry.DotIndex | src/utils/retry.py:74 | the first point of the number, none before it |
| Retry.ParseFloat | src/utils/retry.py:74 | `float` of a `[\d.]+` text is never negative |
| Retry.Fraction | src/utils/retry.py:74 | the digits after the point are worth less than one |
| Retry.ParseFloatWhole | src/utils/retry.py:74 | a whole number reads back as itself |
| Retry.ParseFloatPoint | src/utils/retry.py:74 | "w.f" reads as w plus the fraction f |
| Retry.ParseFloatJoin | src/utils/retry.py:74 | digits, a point and digits read as the whole part plus the fraction |
| Retry.ParseFloatRefuses | src/utils/retry.py:74 | "." and "1.2.3" raise ValueError |
| Retry.RetryInFirst | src/utils/retry.py:72-74 | the first "retry in" clause decides the delay, whatever "retry after" clause there is |
| Retry.NoClauseGivesDefault | src/utils/retry.py:81-83 | with neither clause the default is returned |
| Retry.RetryAfterSixty | src/utils/retry.py:61 | "retry after 60 seconds" gives 60 |
| Retry.ParseFloatIntegerText | src/utils/retry.py:74 | a run of digits reads as its decimal value |
| Retry.BackoffDelay | src/utils/retry.py:38-39 | the sleep before a retry never exceeds `max_delay` |
| Retry.OnError | src/utils/retry.py:33-52 | a sleep is chosen only before a later attempt remains, and is at most `max_delay` |
| Retry.RetryFromShape | src/utils/retry.py:30-52 | from any attempt the run makes between 1 and the remaining number of calls, one sleep between consecutive calls answering the error before it, and stops at a success or a re-raised error |
| Retry.RetriedShape | src/utils/retry.py:30-52 | at most `max_retries + 1` calls; each sleep follows a rate-limited call and is its capped delay, at most `max_delay`; a success is the last call's own result |
| Retry.OtherErrorNotRetried | src/utils/retry.py:50-52 | a first error that is not a rate limit is re-raised after one call without sleeping |
| Retry.AllRateLimitedExhausts | src/utils/retry.py:41-49 | when every call is rate-limited, all `max_retries + 1` calls are made, `max_retries` sleeps taken and the last error re-raised |
| Retry.SleepThenRest | src/utils/retry.py:41-46 | a sleep before a remaining attempt continues the run from the next attempt |
| Retry.RetryLoop | src/utils/retry.py:30-52 | the attempt loop returns the run `RetryFrom` describes, whatever reaction to an error is chosen |
| Retry.RetryWithBackoff | src/utils/retry.py:8-52 | the result, sleeps and call count equal `Retried`, whose shape `RetriedShape` states |
| GeminiClient.FallbackFrom | src/vision/gemini_client.py:53-90 | the loop tries at most one model per list entry |
| GeminiClient.FallbackFromShape | src/vision/gemini_client.py:53-90 | from any entry the loop stops at the first success or non-rate-limit error, after rate limits on every earlier attempt, or raises "All models rate limited" after the last entry |
| GeminiClient.ExhaustionMessageIsRateLimited | src/vision/gemini_client.py:90 | the exhaustion message itself counts as a rate-limit error |
| GeminiClient.FallbackShape | src/vision/gemini_client.py:51-90 | each call starts at the head of the list, returns the first success, re-raises the first other error and tries nothing after either |
| GeminiClient.ExhaustionIff | src/vision/gemini_client.py:77-90 | when every model is rate-limited the call raises the exhaustion message with the last error after one attempt per entry, and a rate-limit failure means every entry was tried |
| GeminiClient.OtherErrorRaisedAtOnce | src/vision/gemini_client.py:83-86 | an error that is not a rate limit on the first model is raised at once |
| GeminiClient.GeminiVisionClient.constructor | src/vision/gemini_client.py:18-33 | the client starts on the primary model with the configured fallback list |
| GeminiClient.GeminiVisionClient.AnalyzeImageWithFallback | src/vision/gemini_client.py:38-90 | the result is `Fallback`'s, the client ends on the model of its last attempt, and the model always matches the current name |
| UrlValidator.LastSegment | src/utils/url_validator.py:85 | `path.split('/')[-1]` is the suffix of the path after its last '/', holding no '/' |
| UrlValidator.IsValidImageUrl | src/utils/url_validator.py:34-88 | the URL passes exactly when the message is empty |
| UrlValidator.LastPartIff | src/utils/url_validator.py:85-86 | the folder-path check passes exactly when the path does not end in '/' and its last segment has at least three characters |
| UrlValidator.ParsedVerdict | src/utils/url_validator.py:54-88 | once the stripped URL is long enough and parses, the verdict is decided by the checks on its parts alone |
| UrlValidator.PartsPassIff | src/utils/url_validator.py:62-86 | the ordered part checks pass exactly when every requirement on scheme, domain, path, extension or keyword, and last segment holds |
| UrlValidator.ValidIff | src/utils/url_validator.py:34-88 | a URL passes exactly when, once stripped, it is at least 20 characters, parses with scheme and netloc, is http or https, has a dotted domain, a path of at least 5 characters, an image extension or keyword, and a last segment of at least 3 characters |
| UrlValidator.ShortUrlRefusedBeforeParsing | src/utils/url_validator.py:43-51 | an empty or shorter than 20 character URL is refused, as "URL is empty" or "URL too short", whatever `urlparse` does |
| UrlValidator.BlankUrlIsEmpty | src/utils/url_validator.py:44-45 | an all-whitespace URL is refused as empty |
| UrlValidator.ProductImageAccepted | src/utils/url_validator.py:34-88 | a typical CDN product image URL passes with an empty message |
| UrlValidator.ProductImageWellFormed | src/utils/url_validator.py:34-88 | the same URL meets every requirement |
| UrlValidator.JpgIsImage | src/utils/url_validator.py:74-75 | a URL ending in ".jpg" has an image extension |
| UrlValidator.StripOfTrimmed | src/utils/url_validator.py:47 | a URL with no surrounding whitespace is left as is by `strip` |
| UrlValidator.Classify | src/utils/url_validator.py:106-193 | the result names its URL and is valid exactly when it carries neither an error type nor a message |
| UrlValidator.ValidateImageUrl | src/utils/url_validator.py:91-193 | a valid result implies the format check passed; validity and the absence of an error agree |
| UrlValidator.ValidationIff | src/utils/url_validator.py:106-168 | a URL is valid exactly when its format passes, the HEAD request answers below 400 and the content type is absent, `image/…`, or names no text-like type |
| UrlValidator.FormatFailureSkipsProbe | src/utils/url_validator.py:107-114 | a bad format is reported as "invalid_format" with its message, whatever the request would have answered |
| UrlValidator.StatusClassification | src/utils/url_validator.py:123-168 | 404 is "not_found", 403 "forbidden", any other status from 400 "http_error", a rejected content type below 400 "not_an_image", and an accepted one valid |
| UrlValidator.TextIsNotAnImage | src/utils/url_validator.py:151-160 | a `text/…` content type is reported as not an image |
| UrlValidator.ValidUrls | src/utils/url_validator.py:230-232 | no more valid URLs than results |
| UrlValidator.InvalidEntries | src/utils/url_validator.py:233-238 | no more invalid entries than results |
| UrlValidator.PartitionCounts | src/utils/url_validator.py:227-245 | every result lands on exactly one side, so the two counts add up to the total |
| UrlValidator.PartitionAppend | src/utils/url_validator.py:230-238 | the partition of a concatenation is the concatenation of the partitions, order kept |
| UrlValidator.PartitionOne | src/utils/url_validator.py:231-238 | a single result goes to the side its validity names, with its error tag and message |
| UrlValidator.ValidUrlsFromValidResults | src/utils/url_validator.py:231-232 | every listed valid URL comes from a valid result |
| UrlValidator.InvalidEntriesFromInvalidResults | src/utils/url_validator.py:233-238 | every invalid entry comes from an invalid result with its tag and message |
| UrlValidator.Report | src/utils/url_validator.py:240-246 | valid and invalid counts add up to the total, which is the number of results |
| UrlValidator.CollectReport | src/utils/url_validator.py:227-246 | the loop builds `Report` of the results |
| UrlValidator.ValidateImageUrls | src/utils/url_validator.py:196-246 | each URL is checked against its own request outcome, in input order, and the counts add up to the number of URLs |
| Loader.FileKindOf | src/loader/dataset_loader.py:11-16 | ".csv" goes to the CSV reader, otherwise ".xlsx" or ".xls" to the Excel reader, and any other ending raises |
| Loader.CollectUrls | src/loader/dataset_loader.py:23-28 | no more URLs than columns |
| Loader.CollectUrlsMembers | src/loader/dataset_loader.py:24-28 | a URL is collected exactly when it is non-empty and is the cleaned cell of some "Image…" column |
| Loader.RowUrlsMembers | src/loader/dataset_loader.py:24-28 | a URL is collected exactly when some image cell, stripped, is that non-empty URL |
| Loader.ColumnIndex | src/loader/dataset_loader.py:21 | the first column named "Product Id", or none when no column has that name |
| Loader.ProductsWith | src/loader/dataset_loader.py:20-34 | at most one product per row |
| Loader.ProductsWithAppend | src/loader/dataset_loader.py:20 | the rows are walked in order: the products of concatenated rows are the concatenated products |
| Loader.ProductsWithOne | src/loader/dataset_loader.py:30-34 | one row yields its product exactly when it has a URL |
| Loader.ProductsOfRowsAppend | src/loader/dataset_loader.py:20-34 | one more row appends its product, with that row's id and URLs, when it has a URL |
| Loader.ProductsFromRows | src/loader/dataset_loader.py:20-34 | every product has URLs and is some row's id and URLs |
| Loader.RowsGiveProducts | src/loader/dataset_loader.py:30-34 | every row with a URL gives its product |
| Loader.ProductsOf | src/loader/dataset_loader.py:18-34 | the table fails exactly when it has rows but no "Product Id" column |
| Loader.LoadedProducts | src/loader/dataset_loader.py:10-34 | an unsupported ending raises its ValueError before anything is read |
| Loader.CollectRowUrls | src/loader/dataset_loader.py:23-28 | the column loop builds `CollectUrls` of the row |
| Loader.CollectProducts | src/loader/dataset_loader.py:20-34 | the row loop builds `ProductsOfRows` of the table |
| Loader.LoadProducts | src/loader/dataset_loader.py:10-34 | the result equals `LoadedProducts`: the extension error, the reader's error, the missing-column KeyError, or the rows' products |
| Wrappers.MapResultsSuccess | src/aggregation/aggregator.py:210 | a comprehension or loop that stops at the first exception succeeds exactly when every step does, collecting their values in order |
| Wrappers.MapResultsFailure | src/aggregation/aggregator.py:210 | it raises the exception of the first failing step |
| Wrappers.MapResultsFailed | src/aggregation/aggregator.py:210 | a failed loop failed at some step after only successes |
| Wrappers.CollectResults | src/aggregation/aggregator.py:248-265 | the loop returns `MapResults`: all values in order, or the first exception |
| Text.Strip | src/loader/dataset_loader.py:26 | `str.strip` removes exactly the whitespace at both ends: the result is a slice of the text with only whitespace before and after it, empty exactly when the text is all whitespace, and otherwise starting and ending with a non-space |
| Text.TrimmedSlice | src/loader/dataset_loader.py:26 | stripping the right end and then the left leaves the slice between a leading and a trailing run of whitespace |
| Text.TrimmedSliceIs | src/loader/dataset_loader.py:26 | what stripping the right end and then the left leaves is a slice of the text |
| Text.TrimmedAfterLeading | src/loader/dataset_loader.py:26 | every character stripped from either end is whitespace |
| Text.StripEnds | src/loader/dataset_loader.py:26 | neither end of the stripped text is whitespace |
| Text.StripEmpty | src/loader/dataset_loader.py:26 | the stripped text is empty exactly when the whole text is whitespace |
| Text.StripSlice | src/loader/dataset_loader.py:26 | the stripped text is a slice of the text with only whitespace around it |

## Left out

- Network I/O: `ImageLoader.load` (src/loader/image_loader.py) is a parameter, the fetch outcome of each URL. That outcome is bytes, no image, or an exception.
- The httpx HEAD request is a parameter, the probe outcome of each URL. That outcome is a status with a content type, a timeout, a connection error, or another exception.
- The Gemini model construction and `analyze_image` are a parameter, the outcome of each attempt.
- The vision outcome inside the processor depends on the image's position and not on its bytes.
- `asyncio.gather` is modelled as an ordered map over the URLs: the fan-out's concurrency is not modelled.
- `asyncio.sleep` is not taken: the sleeps are returned as a trace.
- `time.perf_counter` is not read: its readings are the `Clock` input, already converted to whole milliseconds.
- Floating point is modelled as `real`, so IEEE rounding is not modelled.
- The square root of `statistics.stdev` is the parameter `sqrt`. The sample variance under the root is stated exactly.
- `rgb_distance < 50` is modelled as a squared integer distance below 2500.
- Python's `str.lower` and regex `IGNORECASE` are modelled on ASCII letters only.
- `Processor.RetrySecondsAt`: regex `\d` and Python's `int()`/`float()` are modelled on the ASCII digits 0-9 only. Python's str patterns and conversions also accept the other Unicode decimal digits, so a text such as "retry in \u0663\u0667" (Arabic-Indic 37) reads as 37 in Python but finds no number here.
- `Processor.FirstRetrySeconds`: regex `\d` and Python's `int()`/`float()` are modelled on the ASCII digits 0-9 only. Python's str patterns and conversions also accept the other Unicode decimal digits, so a text such as "retry in \u0663\u0667" (Arabic-Indic 37) reads as 37 in Python but finds no number here.
- `Processor.DigitRunEndIs`: regex `\d` and Python's `int()`/`float()` are modelled on the ASCII digits 0-9 only. Python's str patterns and conversions also accept the other Unicode decimal digits, so a text such as "retry in \u0663\u0667" (Arabic-Indic 37) reads as 37 in Python but finds no number here.
- `Retry.IsNumberChar`: regex `\d` and Python's `int()`/`float()` are modelled on the ASCII digits 0-9 only. Python's str patterns and conversions also accept the other Unicode decimal digits, so a text such as "retry in \u0663\u0667" (Arabic-Indic 37) reads as 37 in Python but finds no number here.
- `Retry.NumberRunEnd`: regex `\d` and Python's `int()`/`float()` are modelled on the ASCII digits 0-9 only. Python's str patterns and conversions also accept the other Unicode decimal digits, so a text such as "retry in \u0663\u0667" (Arabic-Indic 37) reads as 37 in Python but finds no number here.
- `Retry.FirstRetryIn`: regex `\d` and Python's `int()`/`float()` are modelled on the ASCII digits 0-9 only. Python's str patterns and conversions also accept the other Unicode decimal digits, so a text such as "retry in \u0663\u0667" (Arabic-Indic 37) reads as 37 in Python but finds no number here.
- `Retry.FirstRetryAfter`: regex `\d` and Python's `int()`/`float()` are modelled on the ASCII digits 0-9 only. Python's str patterns and conversions also accept the other Unicode decimal digits, so a text such as "retry in \u0663\u0667" (Arabic-Indic 37) reads as 37 in Python but finds no number here.
- `Retry.ParseFloat`: regex `\d` and Python's `int()`/`float()` are modelled on the ASCII digits 0-9 only. Python's str patterns and conversions also accept the other Unicode decimal digits, so a text such as "retry in \u0663\u0667" (Arabic-Indic 37) reads as 37 in Python but finds no number here.
- `Text.IsDigit`: regex `\d` and Python's `int()`/`float()` are modelled on the ASCII digits 0-9 only. Python's str patterns and conversions also accept the other Unicode decimal digits, so a text such as "retry in \u0663\u0667" (Arabic-Indic 37) reads as 37 in Python but finds no number here.
- `Text.DecimalValue`: regex `\d` and Python's `int()`/`float()` are modelled on the ASCII digits 0-9 only. Python's str patterns and conversions also accept the other Unicode decimal digits, so a text such as "retry in \u0663\u0667" (Arabic-Indic 37) reads as 37 in Python but finds no number here.
- `Colors.HexParseError`: the message quotes the text with plain single quotes. Python's `repr` would switch to double quotes for a text holding a single quote and would escape backslashes and non-printable characters; that escaping is not modelled.
- `json.loads` is a parameter, a partial function to a JSON value.
- `urlparse` is a parameter, a partial split into scheme, network location and path.
- pydantic's lax coercions (numeric strings to numbers, "yes" to true) are not modelled: fields must have their exact JSON types.
- `int(s, 16)` in `hex_to_rgb` accepts only hexadecimal digit runs. Signs, surrounding whitespace and underscores are treated as a parse failure. Unicode decimal digits other than 0-9, which Python's `int` also accepts, are a parse failure too.
- Logging is not modelled.
- Configuration overrides from the environment (src/config/settings.py) are not modelled: the settings are constants at their defaults.
- `Loader.LoadProducts`: pandas' file readers and their rendering of cells as text are not modelled. The table is a parameter whose cells are already strings.
- `Loader.LoadProducts`: the generator's yields are modelled as one list. A missing "Product Id" column raises before the first yield, so a consumer sees nothing either way.
- src/server.py, src/main.py, src/vision/client.py and src/vision/prompts.py are not part of this model. They are HTTP endpoints, command-line glue, an abstract interface and prompt text.
- `Retry.ParseFloat`: the text matched by `[\d.]+` is read exactly. The docstring's example rounding of 37.395680969 to 37.4 is not performed, because the code does not round either.
- `Retry.RetryWithBackoff`: `max_retries` is a natural number. A negative value, for which `range(max_retries + 1)` is empty and the wrapper returns `None` without calling the function, is not modelled.
- `Retry.OnError`: the same, for the attempt count it compares against.
- `Processor.FetchedUrlsMeaning`: states the intended labelling of the Findings row, each record named by the URL its image came from, which line 205 of src/pipeline/processor.py does not do. `FetchStage`, `Processed` and `ProductProcessor.ProcessProduct` keep the labelling line 205 uses.
- `Processor.FetchStagePerImageUrls`: states the intended labelling of the Findings row, each record named by the URL its image came from, which line 205 of src/pipeline/processor.py does not do. `FetchStage`, `Processed` and `ProductProcessor.ProcessProduct` keep the labelling line 205 uses.
- `Processor.PerImageUrlsFetched`: states the intended labelling of the Findings row, each record named by the URL its image came from, which line 205 of src/pipeline/processor.py does not do. `FetchStage`, `Processed` and `ProductProcessor.ProcessProduct` keep the labelling line 205 uses.
- `Processor.KeptLabelsFetched`: states the intended labelling of the Findings row, each record named by the URL its image came from, which line 205 of src/pipeline/processor.py does not do. `FetchStage`, `Processed` and `ProductProcessor.ProcessProduct` keep the labelling line 205 uses.

## Findings

| source | as written | input that shows it | evidently intended | confidence | as-written member | corrected member |
|---|---|---|---|---|---|---|
| src/pipeline/processor.py:205 | Each per-image record is labelled `capped_urls[i]`, where `i` indexes the fetched images. Fetches that returned no image are dropped before the loop, so a missing image shifts every later label. | Two valid URLs, where the first fetch returns no image and the second returns bytes. The one image analysed comes from the second URL, but its record names the first. | Each record names the URL its image was fetched from. | not executed | Processor.FetchStageMislabels | Processor.FetchStagePerImageUrls |
