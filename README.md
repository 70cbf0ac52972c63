# Polis conversation details, modelled in Dafny

This project models the core of `get-polis-convo-deets.sh`, a small tool
that takes a Polis conversation or report reference and prints a summary of
the conversation. The reference can be a URL, a report URL, a
`report_id=` link or a bare id. The core is the pipeline behind that
summary. The repository holds it twice: a newer copy in
`lib/polis-utils.js` and an older copy in `polis-utils.js`.

- `parsePolisInput` (module `PolisInput`, `polis_input.dfy`) turns the
  free-form input into the host, its `https://<host>/` base URL, and either
  a report id or a conversation id. Its three unanchored regular
  expressions are modelled as leftmost-match searches (`FindFrom`, `Run`,
  `Capture`). `split("/").pop()` is modelled as `Tail`.
- `getCommentLangs` (module `CommentLanguages`, `comment_languages.dfy`) is
  in the newer copy only. It tallies the comments' languages, skipping
  moderated-out (`mod === -1`) and untagged comments, and falls back to
  `unknown`. It then stable-sorts by descending count and joins with
  `", "`. The tally is a loop over the comments that updates a map, as in
  the source. `CommentLangs` is proved against the specification function
  `LanguageList`, and the permutation, ordering and stability lemmas are
  proved about that function.
- `getPolisDetails` (module `PolisDetails`, `polis_details.dfy`, for the
  newer copy; module `LegacyPolisDetails`, `legacy_details.dfy`, for the
  older one):
  - It resolves a report id to its conversation.
  - It fetches the conversation metadata, the math payload and (newer copy,
    not in minimal mode) the comment languages.
  - It assembles the summary record.

  Each copy is an imperative method, proved equal to a function of its
  inputs (`Resolve`, `LegacyResolve`). The function also returns the
  requests issued, as a trace of `Endpoint`s. `Resolve(input, ...)` is
  `ResolveParsed(Parse(input), ...)`. Most lemmas about the pipeline are
  stated for every parsed record `p`, so each holds for every input.

The JavaScript values the code reads are modelled by `Json` (module
`JsValues`, `js_values.dfy`), with JavaScript truthiness, `||`, `??`,
property reads and `String(v)`. `String(v)` is defined only where it
returns (`Printable`): a decoded object with its own `toString` property,
or an array holding one, makes it throw a TypeError. The injected `fetchFn` becomes a
`Transport`: a map from URL to `Ok(body)` or `Err(message)` (module
`PolisApi`, `polis_api.dfy`). A call ends in one of three outcomes:
- `Success(summary)`;
- one of the two `{ error, cause }` records, `Failure`;
- a rejected promise, `Rejected`. This happens in four cases:
  - `new Date` cannot convert the conversation's `created` to a primitive.
    The newer copy computes that date right after the math request, so it
    then rejects before its comments request.
  - Rendering the creation date throws.
  - `convoUrl` or `reportUrl` interpolates an id that `String` cannot
    convert.
  - A JSON `null` math payload is read.

Ties in the language ranking are kept in first-seen order. For a fixed
multiset of comments, the result therefore depends on the order of the
comments: `[en, fr]` gives `"en, fr"` and `[fr, en]` gives `"fr, en"`
(`TiesFollowCommentOrder`).

## Model

| member | source | states |
|---|---|---|
| PolisInput.Parse | lib/polis-utils.js:10-28 | The base URL is `https://` + domain + `/` and the domain is never empty. A report id is set exactly when one of the two report patterns matches, and is a non-empty alphanumeric string. A conversation id is set exactly when there is no report id and the text after the last `/` is non-empty and alphanumeric; it is then that text. Never are both set. The parser at polis-utils.js:10-28 is the same text, so this holds for both copies. |
| PolisInput.Run | lib/polis-utils.js:11 | The greedy capture run: a slice of the input made only of class characters, ending at the end of the input or before a non-class character. |
| PolisInput.FindFrom | lib/polis-utils.js:18-21 | Leftmost match: the position found matches, no earlier position matches, and None means no position matches. |
| PolisInput.Search | lib/polis-utils.js:11-12 | `s.match(re)` is null exactly when the pattern matches nowhere. |
| PolisInput.Tail | lib/polis-utils.js:23 | `split("/").pop()` is a suffix with no `/`, preceded by a `/` unless it is the whole input. |
| PolisInput.DefaultHost | lib/polis-utils.js:11-13 | With no `http(s)://` followed by a host character, the domain is `pol.is` and the base URL is `https://pol.is/`. |
| PolisInput.LeftmostHost | lib/polis-utils.js:11-12 | The domain is the non-empty, `/`-free run after the leftmost scheme. It ends at a `/` or at the end of the input. |
| PolisInput.ReportPathFirst | lib/polis-utils.js:18-19 | The leftmost `report/<alnum>` gives the report id and no conversation id, whatever else the input holds. |
| PolisInput.ReportParamSecond | lib/polis-utils.js:20-21 | Without a `report/<alnum>`, the leftmost `report_id=<alnum>` gives the report id. |
| PolisInput.TrailingSlashHasNoConversation | lib/polis-utils.js:23-24 | An input ending in `/` gives no conversation id. |
| PolisInput.PunctuatedTailRejected | lib/polis-utils.js:24 | A tail holding any non-alphanumeric character (`?`, `.`, `-`, ...) gives no conversation id. |
| PolisInput.BareIdentifier | lib/polis-utils.js:10-28 | A bare alphanumeric id parses as that conversation on `pol.is`, with no report id. |
| PolisInput.AlnumLacksLiteral | lib/polis-utils.js:18-20 | A literal holding a non-alphanumeric character occurs nowhere in an alphanumeric string. |
| PolisInput.TailOfSlashFree | lib/polis-utils.js:23 | The tail of a string with no `/` is the whole string. |
| JsValues.NatToDecimal | lib/polis-utils.js:54 | `String(n)` of a natural number is a non-empty digit string with no leading zero, which reads back as `n`. |
| JsValues.Printable | lib/polis-utils.js:54 | Primitive values always convert with `String`. An object with its own `toString` property never does. |
| JsValues.Stringify | lib/polis-utils.js:54 | `String(v)` of a string is the string itself. A non-negative number converts to the canonical index key of that number, so it reads the same array element. A negative number starts with `-` and is no index. |
| CommentLanguages.Counted | lib/polis-utils.js:54 | A counted comment has a truthy `lang`, and a comment with `mod === -1` is never counted. |
| CommentLanguages.Tally | lib/polis-utils.js:52-60 | `Object.entries(langCounts)` has one entry per first-seen language, in that order, and no entry has a zero count. |
| CommentLanguages.InsertByCount | lib/polis-utils.js:61 | One insertion step adds exactly one entry. |
| CommentLanguages.SortByCount | lib/polis-utils.js:61 | The sort keeps the number of entries. |
| CommentLanguages.Ranking | lib/polis-utils.js:58-62 | The ranking has one language per tallied language, or the single fallback when nothing was tallied. The fallback step of line 58 is the helper `WithFallback`. |
| CommentLanguages.LanguageList | lib/polis-utils.js:47-63 | `getCommentLangs` returns exactly when the payload is an array and every element passes the callback: it is not null, and its counted `lang` converts with `String`. |
| CommentLanguages.CommentLangs | lib/polis-utils.js:47-64 | The result is the language list the specification function `FetchedLanguages` gives for the comments response (the fetch of lines 51-53), or None where the source throws: a failed fetch, a payload that is not an array, or a comment the callback throws on. |
| CommentLanguages.TallyComments | lib/polis-utils.js:51-55 | The `forEach` loop gets through the comments exactly when none is null and every counted `lang` converts with `String`. Its key order is then the first-seen order and its map holds exactly those keys, each with the number of counted comments in that language. |
| CommentLanguages.TallyStep | lib/polis-utils.js:52-55 | Unfolding helper for the loop and the examples. One more comment appends its language to the keys if it is counted and new, and raises only its own language's count, by one. |
| CommentLanguages.FirstSeenIffCounted | lib/polis-utils.js:52-55 | A language is a key of the tally exactly when some counted comment carries it. |
| CommentLanguages.FirstSeenOnce | lib/polis-utils.js:52-55 | Each language is a key at most once. |
| CommentLanguages.FirstSeenCounted | lib/polis-utils.js:52-55 | Every key of the tally has a positive count. |
| CommentLanguages.UncountedCommentIgnored | lib/polis-utils.js:52-55 | Inserting a comment with `mod === -1` or a falsy `lang` anywhere changes neither the keys nor any count. |
| CommentLanguages.UncountedCommentIgnoredInResult | lib/polis-utils.js:52-63 | Such a comment leaves the returned list unchanged. |
| CommentLanguages.UnconvertibleLanguageThrows | lib/polis-utils.js:52-54 | A counted comment whose `lang` `String` cannot convert, anywhere in the list, makes the language step throw. |
| CommentLanguages.NothingCountedIsUnknown | lib/polis-utils.js:58-63 | With no counted comment, including an empty list, the result is exactly `unknown`. |
| CommentLanguages.NothingCountedNothingSeen | lib/polis-utils.js:52-58 | With no counted comment, the tally is empty. |
| CommentLanguages.InsertPermutes | lib/polis-utils.js:61 | One insertion step adds exactly the inserted entry. |
| CommentLanguages.InsertKeepsLanguages | lib/polis-utils.js:61-62 | One insertion step adds exactly the inserted entry's language. |
| CommentLanguages.SortPermutes | lib/polis-utils.js:61 | The sort is a permutation of the entries. |
| CommentLanguages.SortKeepsLanguages | lib/polis-utils.js:61-62 | The sorted languages are a permutation of the unsorted ones. |
| CommentLanguages.InsertKeepsSorted | lib/polis-utils.js:61 | Inserting into a list sorted by non-increasing count keeps it sorted. |
| CommentLanguages.InsertBounded | lib/polis-utils.js:61 | Inserting keeps every count under a bound that all counts, and the inserted one, respect. |
| CommentLanguages.SortIsSorted | lib/polis-utils.js:61 | The sort orders by non-increasing count. |
| CommentLanguages.InsertIsStable | lib/polis-utils.js:61 | One insertion step keeps the relative order of equal counts. |
| CommentLanguages.SortIsStable | lib/polis-utils.js:61 | Restricted to any one count, the sorted list is the input list in its original order. |
| CommentLanguages.LangsOfTally | lib/polis-utils.js:60-62 | The languages of `Object.entries` are the keys in first-seen order, each paired with its count. |
| CommentLanguages.LangsOfSeq | lib/polis-utils.js:62 | The `.map(([lang]) => lang)` of entries whose languages are `keys` is `keys`. |
| CommentLanguages.RankingListsEachLanguageOnce | lib/polis-utils.js:60-63 | When something is counted, every counted language appears exactly once and nothing else appears. |
| CommentLanguages.SomeCountedIsSeen | lib/polis-utils.js:52-58 | A counted comment makes the tally non-empty, so there is no fallback. |
| CommentLanguages.SortedTallyCounts | lib/polis-utils.js:60-61 | Each sorted entry carries its language's count. |
| CommentLanguages.LangsLength | lib/polis-utils.js:62 | Mapping entries to languages keeps the length. |
| CommentLanguages.LangsIndex | lib/polis-utils.js:62 | Mapping entries to languages keeps each position. |
| CommentLanguages.RankingByCount | lib/polis-utils.js:60-63 | An earlier language in the result has a count at least that of any later one. |
| CommentLanguages.LangsWithCountOfEntries | lib/polis-utils.js:61-62 | Restricting to one count commutes with mapping to languages. |
| CommentLanguages.LangsOfConcat | lib/polis-utils.js:62 | Mapping to languages distributes over concatenation. |
| CommentLanguages.TiesInFirstSeenOrder | lib/polis-utils.js:60-63 | Languages with equal counts appear in the order their first counted comment appears. |
| CommentLanguages.TwoLanguagesInCommentOrder | lib/polis-utils.js:52-63 | Two comments in two different languages give `a, b` in comment order. |
| CommentLanguages.JoinPair | lib/polis-utils.js:63 | `.join(sep)` of two strings is `a + sep + b`. |
| CommentLanguages.LangsOfPair | lib/polis-utils.js:62 | The languages of two entries, in order. |
| CommentLanguages.TiesFollowCommentOrder | lib/polis-utils.js:60-63 | `[en, fr]` gives `en, fr` and `[fr, en]` gives `fr, en`. The result depends on comment order. |
| CommentLanguages.PairInOrder | lib/polis-utils.js:52-63 | Two comments tagged with two-letter codes that differ give the text `xx, yy` in comment order. |
| CommentLanguages.TallyOfPair | lib/polis-utils.js:52-60 | Comments `[a, b]` tally to `a: 1` then `b: 1`. |
| CommentLanguages.TallyOfTwoKeys | lib/polis-utils.js:60 | A tally whose keys are two languages has their two entries, each with its count, in key order. |
| CommentLanguages.TaggedCounted | lib/polis-utils.js:54 | A comment with a non-empty `lang` string and no `mod` is counted under that string. |
| CommentLanguages.TallyOfLaterPair | lib/polis-utils.js:52-60 | Comments `[b, a, a]` tally to `b: 1` then `a: 2`, in first-seen order. |
| CommentLanguages.MoreFrequentFirst | lib/polis-utils.js:60-63 | A language seen twice is listed before one seen once, even though it first appears later. |
| PolisDetails.LookupReport | lib/polis-utils.js:78-83 | The report step stops exactly when the fetch throws or the payload is null. It then stops with `Report lookup failed` and a cause. An empty report list resolves to no id. |
| PolisDetails.LangFor | lib/polis-utils.js:107-117 | `lang` is never null or undefined. In minimal mode it is `convo.lang ?? "---"`, the helper `DeclaredLang` of line 108. |
| PolisDetails.ReportUrl | lib/polis-utils.js:125 | `reportUrl` throws exactly when there is no parsed report id and `convo.report_id` is truthy but cannot be converted. Otherwise it is `---` or a link under the base URL's `report/`. A parsed report id always gives a link. |
| PolisDetails.Assemble | lib/polis-utils.js:103-132 | The record is never an `{ error }` record. A `created` that `new Date` cannot convert (the predicate `NewDateThrows`, lines 103-105) rejects with the conversion TypeError. A record is built exactly when the date converts and renders, the id and `report_id` convert, and the math payload is not null. It then links the conversation under the base URL and carries the given `lang`. |
| PolisDetails.ResolveParsed | lib/polis-utils.js:74-133 | The report request comes first and at most three requests follow. A failure issues nothing after the report request. A call with no request at all is the missing-id failure. |
| PolisDetails.Resolve | lib/polis-utils.js:71-133 | A call issues no request exactly when the input has no report id and the call fails with `No conversation ID resolved`. |
| LegacyPolisDetails.LegacyResolveParsed | polis-utils.js:49-96 | The report request comes first and at most two requests follow. Comments are never requested, and a failure issues nothing after the report request. |
| LegacyPolisDetails.LegacyResolve | polis-utils.js:46-96 | A call issues no request exactly when the input has no report id and the call fails with `No conversation ID resolved`. |
| PolisDetails.ResolveConversation | lib/polis-utils.js:77-86 | Proceeding means a truthy conversation id; stopping is always one of the failure records. |
| PolisDetails.NormalizeConversation | lib/polis-utils.js:94 | The normalization throws exactly for a null payload or an array whose first element is missing or null; otherwise the record is non-null. |
| PolisDetails.ConversationOf | lib/polis-utils.js:92-101 | `convo` is never null: a thrown fetch or normalization leaves `{}`. The math step of lines 99-101 is the helper `MathOf`: the payload, or `{}` where the fetch threw. |
| PolisDetails.ConvoFor | lib/polis-utils.js:88-96 | The record the summary reads is never null, in either mode. |
| PolisDetails.ProceedRun | lib/polis-utils.js:88-133 | Unfolding helper for the other lemmas. A resolved call whose id converts to a string returns the record assembled from the fetched payloads. Its requests are the report request followed by the enrichment requests. The exception is a `created` that `new Date` cannot convert: outside minimal mode, the requests then stop after metadata and math. |
| PolisDetails.AssembleLang | lib/polis-utils.js:119-132 | The record depends on `lang` only through its `lang` field: two languages give the same failure, or the same record up to `lang`. |
| PolisDetails.AssembleGroups | lib/polis-utils.js:127 | In a built record, `groups` is the clusters' length, else `group_count`, else `---`. |
| PolisDetails.AssembleWithoutMetadata | lib/polis-utils.js:119-132 | With the empty conversation `{}`, the record is built exactly when the id converts to a string and the math payload is not null; an id that does not convert rejects with the conversion TypeError. It has no date, title or owner, is neither visible nor closed, links only a parsed report, and takes its counts from the math payload alone. |
| PolisDetails.GetPolisDetails | lib/polis-utils.js:71-73 | The method parses the input and returns exactly the outcome and issues exactly the requests of `Resolve`. |
| PolisDetails.DetailsFor | lib/polis-utils.js:74-133 | The step-by-step method after parsing returns exactly the outcome and issues exactly the requests of `ResolveParsed`. This includes the early rejection for an id `String` cannot convert and the rejection at `new Date` before the comments request. |
| PolisDetails.ReportFailureStops | lib/polis-utils.js:77-84 | A failed or null report response returns `Report lookup failed` with the thrown message and issues only the report request. |
| PolisDetails.NoIdentifierFails | lib/polis-utils.js:86 | An input with no id returns `No conversation ID resolved` without any request. |
| PolisDetails.UnresolvedReportFails | lib/polis-utils.js:80-86 | A report with no truthy `conversation_id` returns `No conversation ID resolved` after the one lookup. |
| PolisDetails.FailuresAreHardExits | lib/polis-utils.js:77-86 | Failures are exactly the two hard exits. After one, only the report was requested. Every other run requests the math payload, unless the resolved id cannot be converted to a string: then nothing more is requested and the call rejects with the conversion TypeError. |
| PolisDetails.ToStringIdRejects | lib/polis-utils.js:80-122 | A report response `[{"conversation_id": {"toString": 1}}]` rejects with the conversion TypeError after the report request alone. |
| PolisDetails.FailureIgnoresEnrichment | lib/polis-utils.js:77-117 | Whether and how a call fails depends only on the input and the report response, not on mode, metadata, math, comments or dates. |
| PolisDetails.RequestsAreDistinct | lib/polis-utils.js:79-111 | No request is issued twice in one call. |
| PolisDetails.TraceEntriesDistinct | lib/polis-utils.js:79-111 | The report request and the enrichment requests are pairwise distinct. |
| PolisDetails.StoppedTraceDistinct | lib/polis-utils.js:79-100 | The report, metadata and math requests of a call stopped at `new Date` are pairwise distinct. |
| PolisDetails.MinimalSkipsEnrichment | lib/polis-utils.js:91-117 | Minimal mode never requests conversations or comments. Its summary has `lang` `---`, no date, title or owner, and is neither visible nor closed. |
| PolisDetails.FullModeRequests | lib/polis-utils.js:91-111 | Outside minimal mode, a resolved id that converts to a string is followed by the metadata, math and comments requests, in that order. If `new Date` cannot convert the conversation's `created`, the comments request is skipped and the call rejects with the conversion TypeError. An id that does not convert is followed by no request. |
| PolisDetails.BareIdentifierRequests | lib/polis-utils.js:73-111 | A bare alphanumeric id, outside minimal mode, issues no report request. It requests that conversation's metadata, math and comments, in that order. If `new Date` cannot convert the conversation's `created`, it stops after math and rejects. |
| PolisDetails.UnconvertibleCreatedRejects | lib/polis-utils.js:88-105 | A bare id whose conversation is `{"created": {"toString": 1}}` requests metadata and math, then rejects with the conversion TypeError without requesting comments. |
| PolisDetails.ConversationShapesAgree | lib/polis-utils.js:94 | The bare, wrapped, array and array-of-wrapped payloads give the same record. |
| PolisDetails.SuccessResolves | lib/polis-utils.js:86-122 | A successful call resolved an id, and that id converts to a string. |
| PolisDetails.SummaryPrecedence | lib/polis-utils.js:103-132 | In a successful summary, `date` is `---` for a falsy `created`; otherwise the date rendered and `date` is its day. `closed` is yes iff `is_active === false` and `visible` is yes iff `vis_type === 1`. `title` and `owner` fall through falsy values. `voters` falls through only a missing value. `comments` is `n-cmts`, else `convo.comment_count`, else `---`, each falling through only a missing value. `meta` is the length of `meta-tids`, else `---`. The resolved id converts to a string. `reportUrl` prefers the parsed report id, then `convo.report_id` (which then converts to a string), then `---`. `convoUrl` is the base URL plus the id. |
| PolisDetails.GroupsPrecedence | lib/polis-utils.js:127 | `groups` is the number of group clusters, else `group_count`, else `---`. |
| PolisDetails.MetadataFailureDegrades | lib/polis-utils.js:91-101 | A metadata fetch that throws is swallowed, and so is a payload that does not normalize (`null`, `[]`, `[null]`). The requests are still the report, metadata, math and comments ones, in that order; the metadata fields take their defaults, and the counts come from the math payload alone. |
| PolisDetails.LanguageFallback | lib/polis-utils.js:107-117 | `lang` is the comment language list when that step succeeds, else `convo.lang ?? "---"`. |
| LegacyPolisDetails.LegacyGetPolisDetails | polis-utils.js:46-48 | The older method parses the input and returns exactly the outcome and issues exactly the requests of `LegacyResolve`. |
| LegacyPolisDetails.LegacyDetailsFor | polis-utils.js:49-96 | The older step-by-step method after parsing returns exactly the outcome and issues exactly the requests of `LegacyResolveParsed`. |
| LegacyPolisDetails.LegacyProceedRun | polis-utils.js:63-95 | Unfolding helper for the other lemmas. A resolved call of the older copy whose id converts to a string returns the record assembled with the declared language. Its requests are the report request followed by metadata (outside minimal mode) and math. |
| LegacyPolisDetails.LegacyRequestsAreLibWithoutComments | polis-utils.js:52-76 | The older copy issues the newer copy's requests without the comments one, in the same order. This holds also when the newer copy stops at `new Date` before its comments request. It never requests comments. |
| LegacyPolisDetails.ResolvedWithoutComments | polis-utils.js:63-76 | After a resolved id, the newer copy's requests minus comments are the older copy's, whether or not the newer copy stopped at `new Date`. |
| LegacyPolisDetails.EnrichmentWithoutComments | polis-utils.js:66-76 | After resolution, the older copy requests metadata (not in minimal mode) and then math. |
| LegacyPolisDetails.WithoutCommentsConcat | polis-utils.js:52-76 | Dropping comments requests distributes over concatenated traces. |
| LegacyPolisDetails.LegacyDiffersOnlyInLang | polis-utils.js:82-95 | Where the newer copy fails or rejects, the older one returns the same. Where it succeeds, the older one returns the same record with `lang` replaced by the declared language. |
| LegacyPolisDetails.LegacyAgreesWithoutLanguages | polis-utils.js:93 | In minimal mode, or where the comment language step fails, both copies give the same outcome. |
| LegacyPolisDetails.LegacyRecordPrecedence | polis-utils.js:78-94 | `date` is `---` for a falsy `created`; otherwise the date rendered and `date` is its day. `lang` is `convo.lang ?? "---"`, `title` is `topic \|\| title \|\| "---"` and `owner` is `ownername \|\| owner \|\| "---"`. |
| LegacyPolisDetails.LegacyFailuresAreHardExits | polis-utils.js:52-85 | The only failures are the report lookup failure and the missing id. After either, only the report was requested. Otherwise math is requested, unless the id cannot be converted to a string: then nothing more is requested and the call rejects. |
| LegacyPolisDetails.LegacyMetadataFailureDegrades | polis-utils.js:66-92 | A metadata fetch that throws is swallowed, and so is a payload that does not normalize (`null`, `[]`, `[null]`). Math is still requested. Voters, comments, groups and meta come from the math payload alone, else `---`; date, title, owner and lang are `---`. |

## Left out

- `fetchJson` (a GET through `fetchFn` followed by `res.json()`) is not modelled. Each URL's response is an input, `Ok(body)` or `Err(message)`. The `User-Agent` header is not modelled.
- Date rendering (`parseInt`, `new Date`, `toISOString().split("T")[0]`) of a `created` value that converts to a primitive is the parameter `renderDate`. It returns either the day or the message of the `RangeError` that `toISOString` throws for an invalid date. The record then rejects with that message. JavaScript date arithmetic is not modelled. A `created` that `new Date` cannot convert is modelled (`NewDateThrows`), and so is where it throws.
- Every thrown value is modelled as an error carrying a string `message` (`Err(message)`). A `fetchFn` that rejects with `null` or `undefined` would make the `err.message` read in the report step's `catch` throw. That read is at lib/polis-utils.js:81-82 and polis-utils.js:56-57, and the promise would then reject; in the language step's `catch` (lib/polis-utils.js:112-114), the log would throw in the same way. A rejection with a string or other non-error value gives `cause: undefined`. Neither case is modelled.
- The `console.error` log of a failed language step is not modelled. It has no effect on the result.
- The command-line script `get-polis-convo-deets.js` is not part of this model. It parses arguments, prints and exits. It passes its fetch wrapper where the options object is expected, so the wrapper is ignored and the global `fetch` is used.
- Async sequencing is modelled as a sequential pipeline; there is no concurrency in the source.
- JSON numbers are integers. Fractional numbers, and the formatting of very large numbers by `String(v)`, are not modelled.
- `undefined` and `null` are one value, `JNull`. The source never distinguishes them except through `===` comparisons that both fail alike.
- Language keys are kept in first-insertion order. JavaScript instead lists integer-like keys (a `lang` of `"1"`, say) first, in ascending order. Keys that name `Object.prototype` members (`__proto__`, `constructor`, ...) are also not modelled.
- Strings are sequences of code points. JavaScript indexes UTF-16 code units, which differs only for characters outside the Basic Multilingual Plane.
- The exact text of engine TypeError messages is modelled on V8's wording.
