# roleplay-analyzer, modelled in Dafny

roleplay-analyzer scores sales and support role-play transcripts with a
language model. It stores each result and reports analytics over the stored
results. This project models the server's core logic and proves properties
about it. The model covers five pieces.

- **The result validator** (`validator.dfy`, module `Validator`). It is the
  Zod schema every model answer must pass:
  - `overallScore` and three sub-scores, each a number in [0, 10];
  - a non-empty `feedback.summary`;
  - two optional string arrays that default to `[]`.

  `Validate` is a total function from a JSON value to either the parsed
  `ScoreResult` or the list of issues. It is checked against an independent
  predicate `Conforms`. A round trip through `ToJson` shows it is an inverse
  of the encoding.
- **The prompt builder** (`prompt.dfy`, module `ScoringPrompt`). It is a
  fixed prefix, the transcript verbatim, and a fixed suffix.
  `ExtractTranscript` inverts it. The fixed text quotes every key the
  validator checks.
- **The stored record and the averaging** (`records.dfy`, modules `Records`
  and `Averages`). A record carries a loosely typed `result`. Both GET routes
  average the four scores the same way: one loop, `Aggregate`, is proved
  equal to the specification `Summarize`.
- **The analytics route** (`analytics.dfy`, module `Analytics`). It covers:
  - the page-size clamp and the `groupBy` choice;
  - the oldest-first time series;
  - the hour or day buckets. `GroupIntoBuckets` is the loop that fills
    `bucketsMap`, proved equal to a per-key specification. The sorted
    emission is `BucketSeries`.
- **The evaluate route** (`evaluate.dfy`, module `Evaluate`).
  - POST is the method `Post` over a `Store` class. It is proved against the
    pure specification `Respond`: which reply each outcome of the outside
    world produces, and that exactly one record is written, only on success.
  - GET is `ListEvaluations`, a page summary plus the projected rows.
- **The transcript view** (`transcript.dfy`, module `Transcript`). This is the
  string logic of the replay panel's `renderTranscript`: lines, trimming,
  speaker labels, and the message after the first colon.

`wrappers.dfy` holds `Option` and `Result`. `json.dfy` holds the JSON value
type and the JavaScript idioms the routes rely on: property access that
yields `undefined`, truthiness, `?? null` and `|| null`.

Modelling choices:

- JavaScript numbers are reals.
- Timestamps are integer epoch milliseconds.
- Hours and days are taken in UTC:
  - the hour key is `t - t % 3600000`;
  - the day key is `t - t % 86400000`.

  Dafny's `%` never returns a negative value, so both keys round down, also
  before 1970.
- Everything that leaves the process is a parameter of the model, in an
  `Env` value or as the page of records the store returned. This covers the
  request body, the store connection, the model call, `JSON.parse`, the
  store write and the clock.

The averages divide each field's sum by the number of ALL
records on the page (`count`), not by the number of records that have that
field. A record without a score therefore pulls that average towards 0
(`Averages.MissingScoreCountsAsZero`).

## Model

| member | source | states |
|---|---|---|
| Validator.ParseScore | services/validateOutput.js:8-13 | succeeds exactly for a number in [0, 10] and then returns it; otherwise reports a non-empty list of issues under the field's path |
| Validator.ParseSummary | services/validateOutput.js:17 | succeeds exactly for a string of length at least 1 and returns it; otherwise reports issues under the path |
| Validator.ParseStringList | services/validateOutput.js:18-19 | succeeds exactly when the value is absent or an array of strings; absent gives `[]`, present gives the same strings in order; `null` and non-string elements are issues |
| Validator.ParseScores | services/validateOutput.js:10-14 | succeeds exactly for an object whose three sub-scores are numbers in [0, 10], with the same values; a missing object or sub-score fails |
| Validator.ParseFeedback | services/validateOutput.js:16-20 | succeeds exactly for an object with a valid summary and valid or absent lists, with the same contents |
| Validator.Validate | services/validateOutput.js:7-29 | accepts exactly the values satisfying the reference predicate `Conforms`; an accepted result is well formed and agrees field by field with the input; a rejection carries at least one issue, never a partial result |
| Validator.ValidateToJson | services/validateOutput.js:7-21 | every well-formed result survives encoding to JSON and validating again unchanged |
| Validator.ValidateIdempotent | services/validateOutput.js:27-29 | validating the encoding of a validated result gives the same result |
| Validator.AbsentListsDefaultToEmpty | services/validateOutput.js:18-19 | an absent `strengths` or `areasForImprovement` becomes `[]` in the result |
| Validator.RejectsOverallOutOfRange | services/validateOutput.js:8 | a numeric `overallScore` below 0 or above 10 is rejected with a too-small or too-big issue at `overallScore` |
| Validator.RejectsEmptySummary | services/validateOutput.js:17 | an empty summary is rejected with a too-small issue at `feedback.summary` |
| Validator.UnknownKeysIgnored | services/validateOutput.js:7-21 | adding an undeclared top-level key changes neither acceptance nor the result (unknown keys are stripped) |
| ScoringPrompt.BuildScoringPrompt | services/scoringPrompt.js:4-51 | the prompt is the fixed prefix, then the transcript verbatim, then the fixed suffix; its length is their sum |
| ScoringPrompt.ExtractBuild | services/scoringPrompt.js:47-49 | the transcript can be read back unchanged from between the delimiters |
| ScoringPrompt.BuildExtract | services/scoringPrompt.js:6-50 | every string with the template's prefix and suffix is the prompt of the transcript it carries |
| ScoringPrompt.BuildInjective | services/scoringPrompt.js:4-51 | different transcripts give different prompts |
| ScoringPrompt.PromptContainsTranscript | services/scoringPrompt.js:48 | the transcript occurs in the prompt as one contiguous piece |
| ScoringPrompt.PromptNamesSchemaKeys | services/scoringPrompt.js:32-44 | each of the nine keys the validator checks appears, quoted, in the fixed text |
| JsonData.Get | app/api/evaluate/route.js:25 | property access gives a value exactly for an object holding the key, and then that key's value |
| JsonData.OrNull | app/api/analytics/route.js:36 | `?? null` is null exactly when the value is undefined or null, and the value otherwise |
| JsonData.TruthyOrNull | app/api/evaluate/route.js:83 | the or-null idiom keeps the value exactly when it is truthy, and is null otherwise |
| Records.ScoreOf | app/api/analytics/route.js:48-53 | a reader finds a number only inside an object; `ConformingScores`, `ScoresOfStoredResult` and `MissingScoreCountsAsZero` say when it finds one |
| Records.OverallOrNull | app/api/analytics/route.js:36 | null exactly when `overallScore` is missing or null; a numeric score is passed through as that number |
| Records.ScoresOrNull | app/api/evaluate/route.js:174 | null exactly when `scores` is missing or null, and the stored value otherwise |
| Records.ConformingScores | app/api/analytics/route.js:47-53 | in a result that passed the schema, each reader finds all four scores as numbers in [0, 10] |
| Records.ScoresOfStoredResult | app/api/evaluate/route.js:82-87 | reading the stored encoding of a result gives back exactly its four scores |
| Averages.Mean | app/api/analytics/route.js:106-109 | null exactly for zero records; otherwise the mean times the count is the sum |
| Averages.Summarize | app/api/analytics/route.js:57-72 | `count` is the number of records; all four averages are null exactly when there are none, and on a non-empty page each average times `count` is that field's sum |
| Averages.Aggregate | app/api/analytics/route.js:41-72 | the loop's four sums and count give exactly `Summarize` of the page |
| Averages.SumBounds | app/api/analytics/route.js:47-55 | over validated results, each field's sum lies between 0 and 10 per record |
| Averages.AveragesInRange | app/api/analytics/route.js:66-72 | over a non-empty page of validated results every average lies in [0, 10] |
| Averages.MissingScoreCountsAsZero | app/api/analytics/route.js:50-54 | a record without a number for a field leaves that sum unchanged but still adds one to `count` |
| Averages.ExampleMeanOfThree | app/api/analytics/route.js:66-72 | overall scores 8, 6 and 10 average to 8 |
| Analytics.EffectiveLimit | app/api/analytics/route.js:17 | the page size is the requested one capped at 200, and 50 when none is given |
| Analytics.ParseGroupBy | app/api/analytics/route.js:18 | hourly grouping exactly when the parameter is `hour`; every other or missing value means daily |
| Analytics.BucketKey | app/api/analytics/route.js:79-87 | the key is a multiple of the hour (or day) length and the instant lies in [key, key + length) |
| Analytics.SameBucket | app/api/analytics/route.js:79-87 | two instants share a bucket exactly when they lie in the same hour (or day) counted from the epoch |
| Analytics.BucketKeyIdempotent | app/api/analytics/route.js:82-85 | a bucket's start lies in its own bucket |
| Analytics.KeyOf | app/api/analytics/route.js:77-87 | a record's key is the start of the hour or day that contains its creation time |
| Analytics.PointOf | app/api/analytics/route.js:34-37 | a point carries the record's time and id, and its overall score as the number the readers find |
| Analytics.TimeSeries | app/api/analytics/route.js:31-38 | the series has one point per record, the i-th from the end of the newest-first page |
| Analytics.TimeSeriesAscending | app/api/analytics/route.js:25-33 | from a newest-first page the series is ascending in time |
| Analytics.TimeSeriesNullWhenAbsent | app/api/analytics/route.js:36 | a record without `overallScore` gives a point with null |
| Analytics.KeysInOrderProperties | app/api/analytics/route.js:88-90 | the map's keys in insertion order have no repeats and include every record's key |
| Analytics.GroupIntoBuckets | app/api/analytics/route.js:75-99 | after the loop the key order is the first-seen order and each bucket holds the sums and count of exactly its records |
| Analytics.AddRecord | app/api/analytics/route.js:91-98 | adding a record adds each numeric score to its sum and one to the count |
| Analytics.BucketsAgreeStep | app/api/analytics/route.js:88-98 | one iteration keeps the loop invariant: a new key starts an empty bucket, and only the record's own bucket changes |
| Analytics.SortAscendingSorted | app/api/analytics/route.js:101-102 | the key sort orders its input, strictly when the keys are distinct, and keeps the same keys |
| Analytics.Emit | app/api/analytics/route.js:103-110 | one output bucket per sorted key, with that key's count and averages |
| Analytics.EmitBuckets | app/api/analytics/route.js:101-110 | one bucket per key of the order, each the bucket of one of those keys with that key's accumulator; `SortAscendingSorted` gives the order |
| Analytics.BucketSeries | app/api/analytics/route.js:75-110 | no buckets exactly for an empty page; `BucketSeriesAscending`, `BucketIsSummaryOfItsRecords`, `InBucketMembers`, `EveryRecordHasABucket` and `BucketCountsTotal` state the rest |
| Analytics.BucketSeriesAscending | app/api/analytics/route.js:101-102 | the emitted buckets are strictly ascending by start, so no hour or day appears twice |
| Analytics.BucketIsSummaryOfItsRecords | app/api/analytics/route.js:101-110 | each bucket starts an hour (or day), has count at least 1, and reports exactly the aggregates of its own records |
| Analytics.InBucketMembers | app/api/analytics/route.js:88-98 | a record is in bucket k exactly when it is on the page and its key is k, so in one bucket only |
| Analytics.EveryRecordHasABucket | app/api/analytics/route.js:76-99 | every record's key is the start of some emitted bucket |
| Analytics.BucketCountsTotal | app/api/analytics/route.js:76-110 | the bucket counts add up to the number of records |
| Analytics.ExampleSameHour | app/api/analytics/route.js:80-83 | records at 14:10 and 14:50 of one day give one hourly bucket at 14:00 with count 2 |
| Analytics.ExampleMidnight | app/api/analytics/route.js:84-86 | records at 23:59 and at 00:01 the next day give two daily buckets, earlier day first |
| Analytics.SeriesOfTwo | app/api/analytics/route.js:84-107 | two records in different buckets, the newer first, give two buckets of one record each, the older bucket first |
| Analytics.Snapshot | app/api/analytics/route.js:15-119 | the response is the time series, the aggregates and the buckets of the page; an empty page gives count 0, null averages and no points or buckets |
| Evaluate.RoleplayTextOf | app/api/evaluate/route.js:25-27 | the transcript is accepted exactly when `roleplayText` is a truthy string, and is that string |
| Evaluate.Truncate | app/api/evaluate/route.js:34-37 | the first min(length, 8000) characters: a prefix of the input |
| Evaluate.ShortTranscriptKept | app/api/evaluate/route.js:34-37 | a transcript of at most 8000 characters is kept whole |
| Evaluate.Store.Create | app/api/evaluate/route.js:82-87 | appends one record under the next identifier and keeps identifiers unique and results valid |
| Evaluate.UserIdOf | app/api/evaluate/route.js:83 | the stored user id is the body's `userId` when that is truthy, and null otherwise |
| Evaluate.Respond | app/api/evaluate/route.js:22-108 | a record is stored exactly on a 200 reply, under the id the reply returns, and a prompt exists only after the text was accepted; `WritesExactlyOnSuccess`, `BadInputIs400`, `ModelFailuresAre500` and `StoredRecordOnSuccess` state each path |
| Evaluate.Post | app/api/evaluate/route.js:22-108 | the handler's reply and prompt are those of `Respond`; the store gains exactly the one record `Respond` writes, or nothing |
| Evaluate.WritesExactlyOnSuccess | app/api/evaluate/route.js:82-107 | a record is written exactly when the reply is a 200 success carrying the result and the new id; every other reply is an error with a message and writes nothing; the status is 200, 400 or 500 |
| Evaluate.BadInputIs400 | app/api/evaluate/route.js:27-32 | status 400 exactly for a JSON body without a truthy string `roleplayText`, with its message, before any prompt is built |
| Evaluate.ModelFailuresAre500 | app/api/evaluate/route.js:52-79 | an answer that is not JSON, or that fails the schema, gives 500 with its own message and no write |
| Evaluate.StoredRecordOnSuccess | app/api/evaluate/route.js:82-96 | on success the record holds the truncated transcript, the validated result, the model's name, `userId` or null, and the store's time; the prompt was built from that same text |
| Evaluate.ListLimit | app/api/evaluate/route.js:117 | the page size is the requested one, and 20 when none is given |
| Evaluate.ItemOf | app/api/evaluate/route.js:168-175 | a listed item keeps the record's id and time, has a null scenario type, and shows the numeric overall score the readers find |
| Evaluate.ListItems | app/api/evaluate/route.js:168-175 | one row per record in the store's order, projecting its id, `userId` or null, time, and `overallScore` and `scores` or null |
| Evaluate.ListEvaluations | app/api/evaluate/route.js:130-175 | the summary is `Summarize` of the page and the rows are its projection |
| Evaluate.ListedAfterPost | app/api/evaluate/route.js:168-175 | a record written by POST is listed with the overall score and sub-scores it was stored with |
| Evaluate.StoredAveragesInRange | app/api/evaluate/route.js:158-166 | every page taken from a valid store, whose records all passed the schema before the write, reports averages in [0, 10] |
| Transcript.Trim | app/components/ReplayPanel.jsx:46 | the trimmed line neither starts nor ends with JavaScript white space |
| Transcript.TrimSlice | app/components/ReplayPanel.jsx:46 | trimming removes white space only, and only at the two ends |
| Transcript.TrimStartRemovesWhitespace | app/components/ReplayPanel.jsx:46 | what trimming removes from the front of a line is white space |
| Transcript.TrimAllWhitespace | app/components/ReplayPanel.jsx:46 | a line of white space alone trims to the empty string |
| Transcript.TrimIdempotent | app/components/ReplayPanel.jsx:46 | trimming twice is trimming once |
| Transcript.JoinSplit | app/components/ReplayPanel.jsx:51 | joining the pieces of a split with the same separator gives the string back |
| Transcript.SplitPiecesFree | app/components/ReplayPanel.jsx:42 | no piece of a split contains the separator |
| Transcript.SplitAtFirst | app/components/ReplayPanel.jsx:51 | the first piece runs up to the first separator; the other pieces are those of the rest |
| Transcript.NonEmpty | app/components/ReplayPanel.jsx:42 | a string is kept exactly when it is one of the pieces and is non-empty; no result is empty and none is added |
| Transcript.NonEmptySingle | app/components/ReplayPanel.jsx:42 | a single piece is kept exactly when it is non-empty |
| Transcript.NonEmptyAppend | app/components/ReplayPanel.jsx:42 | filtering a concatenation is filtering each part and concatenating, so the kept pieces stay in their order |
| Transcript.Lines | app/components/ReplayPanel.jsx:42 | every shown line is non-empty and free of line feeds; `LinesProperties`, `NonEmptyAppend` and `LinesAroundBlank` fix which lines appear and in which order |
| Transcript.LinesProperties | app/components/ReplayPanel.jsx:42 | the shown lines are non-empty, contain no line feed, and together are the whole text minus its line feeds, in order |
| Transcript.LinesAroundBlank | app/components/ReplayPanel.jsx:42 | an empty line between two lines is dropped: only the two lines are shown |
| Transcript.LowerAscii | app/components/ReplayPanel.jsx:47 | lower-casing works character by character and keeps the length |
| Transcript.SpeakerOf | app/components/ReplayPanel.jsx:47-50 | Agent exactly when the lower-cased line starts with `agent:`; Customer exactly when it does not and starts with `customer:` or `client:`; Other otherwise |
| Transcript.MessageOf | app/components/ReplayPanel.jsx:51 | a trimmed line without a colon is shown whole; `MessageAfterFirstColon` and `LabelledMessage` give the case with a colon |
| Transcript.RowOf | app/components/ReplayPanel.jsx:45-51 | the row's speaker is that of the trimmed line, and a trimmed line without a colon is its own message; `BlankLineShownEmpty` covers white-space lines |
| Transcript.RenderTranscript | app/components/ReplayPanel.jsx:40-51 | the placeholder exactly for an empty text, otherwise one row per shown line, in order; `EmptyTexts` and `ExampleExchange` are worked cases |
| Transcript.MessageAfterFirstColon | app/components/ReplayPanel.jsx:51 | for any line with a colon, the message is the text after its first colon, trimmed, so later colons are kept |
| Transcript.LabelledMessage | app/components/ReplayPanel.jsx:47-51 | a trimmed line whose lower-cased text starts with `agent:`, `customer:` or `client:` shows what follows that tag, trimmed |
| Transcript.BlankLineShownEmpty | app/components/ReplayPanel.jsx:42-51 | a line of white space alone is kept and shown as an empty message from Other |
| Transcript.RowsOf | app/components/ReplayPanel.jsx:45-51 | one row per line, in order |
| Transcript.EmptyTexts | app/components/ReplayPanel.jsx:41-42 | the placeholder appears for an empty text; a text of line feeds alone gives an empty list |
| Transcript.ExampleExchange | app/components/ReplayPanel.jsx:40-51 | `Agent: Hello`, a blank line and `CUSTOMER:Hi: there ` render as Agent "Hello" and Customer "Hi: there" |

## Left out

- The rounding of every average to two decimals (`toFixed(2)`) is not modelled. Averages are exact real quotients, and JavaScript floating point is not modelled either.
- The server's local time zone is not modelled. `setMinutes(0, 0, 0)` and `startOfDay` are taken in UTC, and bucket keys are epoch numbers rather than ISO strings (`formatISO`).
- A record without `createdAt` uses the wall clock (`new Date()`) for its bucket. That fallback is left out: every record has an integer `createdAt`.
- The store query (`find`, `sort`, `limit`, `lean`) and its filters (`userId`, `scenarioType`) are not modelled. The routes are modelled from the page the store returned. `Records.NewestFirst` states the sort order where a property needs it, and `EffectiveLimit` and `ListLimit` give the page size asked for.
- `parseInt` on a non-numeric limit (NaN), and how the store treats a zero or negative limit, are not modelled. The limits are integers.
- Mongoose's casting of `userId` to a string is not modelled; the stored value is the JSON value itself. A failing cast is one of the ways the store write can fail (`Env.writeOk`).
- Store identifiers are natural numbers handed out in order, not ObjectIds. The store write is atomic.
- The connection cache in services/db.js is not part of this model; `connectDB` succeeds or fails as `Env.connectOk` says. app/api/replay/route.js is not part of this model either.
- The language-model call (`generateText` with the Groq provider) and `JSON.parse` are not modelled. They are functions in `Env` that return a value or fail. Error logging (`console.error`) is left out.
- The text of Zod's error messages is not modelled. An issue keeps its path and its kind: wrong type, too small or too big.
- Transcript.LowerAscii: lower-cases only A to Z, not the full Unicode mapping of `toLowerCase`. Only the ASCII prefixes `agent:`, `customer:` and `client:` are tested against it.
- Strings are sequences of Unicode scalar values, not UTF-16 code units. This matters for the 8000-character truncation of text outside the Basic Multilingual Plane.
- The React rendering, `fetchReplay`, and the other components are not modelled; only the string logic of `renderTranscript` is.
- ScoringPrompt.PromptNamesSchemaKeys: shows that every validator key appears in the fixed text. It does not show that no other quoted key appears.
