# Civic issue reports: a Dafny model of the report-management core

This project models the server-side logic of a civic issue reporting app. Citizens file
reports of local problems (potholes, drainage, street lights, garbage) with photos, a
location, a category and the municipal corporation ("nagar nigam") responsible. The
model covers these parts:

- the duplicate guard that refuses a new report near an active one of the same kind;
- the search for similar reports, with vote counts;
- one vote per citizen per report;
- per-status statistics;
- the fixed table of municipal logins and the 24-hour municipal session kept in the browser;
- the normalisation of an AI-suggested category;
- the naming of uploaded media and the decoding of a photo's data URL.

The database tables are in-memory values. `reports` is a sequence of `Report` rows;
`report_votes` is a set of `Vote` pairs. The query-builder calls keep their meaning:
`eq`, `in`, `gte` and `lte` filter (`Tables.Where`), ordering by `created_at` descending
sorts (`Tables.SortNewestFirst`), `limit` truncates (`Tables.Take`) and an exact count is a
length or a set size. A failed query or network call is a boolean or datatype input to the
handler that sees it; the few failures that have no such input are listed under
"## Left out". The same holds for the signed-in user
(`Http.Session`), the clock (`now`), database-assigned ids and timestamps, and the mock
provider's random draws. Each reply is either a payload or an HTTP status with an error
message (`Http.Reply`).

Where the code follows a step-by-step update, the model does too:

- the vote store, the reports table and the browser's session storage are classes whose
  methods change their fields;
- the per-report vote counts are filled into a map by a loop;
- decoded characters are copied into an array by a countdown loop.

Filters, counts, the credential check and the classification are functions.

Modules, one per source file, plus three shared ones:

| module | file | models |
|---|---|---|
| `Http` | http.dfy | optional values, JavaScript truthiness of a string, replies, the session |
| `Text` | text.dfy | ASCII case mapping, `includes`, first/last index of a character, decimal numerals |
| `Tables` | tables.dfy | report and vote rows, filter/sort/limit, the bounding box, vote counts |
| `VoteRoute` | vote_route.dfy | app/api/reports/vote/route.ts |
| `ReportsRoute` | reports_route.dfy | app/api/reports/route.ts |
| `SimilarRoute` | similar_route.dfy | app/api/reports/similar/route.ts |
| `MunicipalRoute` | municipal_route.dfy | app/api/municipal/route.ts |
| `StatisticsRoute` | statistics_route.dfy | app/api/statistics/route.ts |
| `MunicipalLogin` | municipal_login.dfy | app/api/auth/municipal/route.ts |
| `ClassifyRoute` | classify_route.dfy | app/api/ai/classify/route.ts |
| `MunicipalAuth` | municipal_auth.dfy | lib/municipalAuth.ts |
| `Storage` | storage.dfy | lib/storage.ts |

Some facts about the code that the model keeps:

- The server accepts a report with any non-zero number of images. Only the browser stops
  at five.
- The create-time duplicate guard asks for one matching row without ordering. Only whether
  a row exists matters, so the model does not sort there.
- The statistics count a status `under_review` as in progress, although the report type
  allows only `submitted`, `in_progress` and `completed`. Statuses are kept as strings so
  that this count can be stated.

## Model

| member | source | states |
|---|---|---|
| VoteRoute.VoteStore.CastVote | app/api/reports/vote/route.ts:6-66 | 401 without a session email, 400 without a report id, 404 for an unknown report or a failed lookup, 400 "Voting closed" for a completed report, in each case with the vote set unchanged; an existing (report, voter) pair adds nothing; otherwise exactly that pair is added, or 500 "Failed to record vote" with nothing added; the returned count is the number of votes for the report (0 when the count is missing); at most one vote is added, other reports' counts do not change, and votes keep referring to stored reports |
| VoteRoute.VoteTwice | app/api/reports/vote/route.ts:35-66 | voting twice for an open report leaves the vote set as voting once does and answers the same count both times |
| Tables.VoteCountAdd | app/api/reports/vote/route.ts:46-64 | a new vote raises its report's count by one and leaves every other report's count unchanged |
| ReportsRoute.ReportsTable.Create | app/api/reports/route.ts:6-102 | 401 without a session email and 400 "Missing required fields" when images are missing or empty or location, category or jurisdiction is missing, with the table unchanged; 409 with code DUPLICATE_EXISTS and the table unchanged exactly when the guard ran and an active duplicate exists; a failing guard lets the report through; 500 "Failed to submit report" on an insert error; otherwise exactly one row is appended, with status submitted, the session email as user_email and user_id, user_name "" when absent, null description and voice note when falsy, and the requested jurisdiction |
| ReportsRoute.DuplicateQueryFinds | app/api/reports/route.ts:43-61 | the guard query (same category and jurisdiction, active status, inside the inclusive box of the fixed 250 m radius) returns a row if and only if an active duplicate is stored |
| ReportsRoute.InactiveRowNeverBlocks | app/api/reports/route.ts:52-54 | a stored report that is completed, or of another category or jurisdiction, never changes the guard's answer |
| ReportsRoute.ListReports | app/api/reports/route.ts:112-143 | 401 without a session email, 500 on a query error; otherwise the rows newest first, only the caller's rows (each as often as stored) when the requested email equals the session email, and every row otherwise |
| Tables.BoxSymmetric | app/api/reports/route.ts:43-47 | the box around a point is symmetric about it and contains it when the deltas are not negative |
| Tables.WhereMultiset | app/api/reports/route.ts:128-131 | a filter keeps each passing row as often as the table holds it and drops each failing one |
| Tables.WhereAppend | app/api/reports/route.ts:49-59 | filtering a table with one more row gives the old answer plus that row when it passes |
| Tables.SortNewestFirst | app/api/reports/route.ts:123-126 | ordering by created_at descending yields a newest-first permutation of the rows |
| Tables.InsertByDate | app/api/reports/route.ts:123-126 | inserting a row into a newest-first list keeps it newest first and adds exactly that row |
| Tables.Take | app/api/reports/similar/route.ts:55 | a limit returns the first n rows of a longer list and the whole list otherwise |
| Tables.NewestMatchesSound | app/api/reports/similar/route.ts:43-55 | a filtered, ordered, limited query returns stored rows that pass the filter, newest first |
| Tables.NewestMatchesComplete | app/api/reports/similar/route.ts:54-55 | a passing row is left out only when the limit is reached by rows no older than it |
| SimilarRoute.CandidatesSpec | app/api/reports/similar/route.ts:43-59 | at most 10 candidates, newest first, each a stored report of the category, active, inside the inclusive box and of the jurisdiction when one is given; a matching report is missing only behind 10 no-older ones |
| SimilarRoute.Enrich | app/api/reports/similar/route.ts:72-110 | enrichment keeps length, order and the selected columns; vote_count is the number of votes for the report, 0 when the aggregation fails; has_voted holds exactly when the caller has a vote for the report and the lookup succeeded |
| SimilarRoute.SimilarReports | app/api/reports/similar/route.ts:16-111 | 401 without a session email; 400 "Missing category or location" when the category is missing or a coordinate does not parse; radius 250 when absent; 500 on a query error; an empty list when the query gives no error and no rows; otherwise the enriched candidates, each of the category, active, inside the box, of the jurisdiction when given, and at most 10 |
| MunicipalRoute.MunicipalReports | app/api/municipal/route.ts:4-42 | 400 without a jurisdiction, 500 on a query error; otherwise exactly the jurisdiction's reports newest first, with total equal to their number, submitted, in_progress and completed each the number of those reports with exactly that status, their sum at most the total, and equal to it when every report of the jurisdiction has one of the three statuses |
| MunicipalRoute.StatsAddUp | app/api/municipal/route.ts:32-37 | submitted + in_progress + completed is at most the total, and equal to it when every status is one of the three |
| Tables.CountDisjointTriple | app/api/municipal/route.ts:34-36 | three disjoint status filters select at most the table's rows, exactly all of them when every row passes one |
| StatisticsRoute.GetStatistics | app/api/statistics/route.ts:4-51 | the first failing count decides the 500 reply ("total", then "resolved", then "in-progress" reports) with no partial result; a query that gives no count reports 0 for its field; a counted total is the number of reports, and resolved + in progress is then at most the total |
| StatisticsRoute.StatisticsCount | app/api/statistics/route.ts:19-37 | resolved counts the completed reports, in progress counts those submitted, in_progress or under_review, and no report is in both |
| Tables.CountDisjointPair | app/api/statistics/route.ts:20-37 | two disjoint filters select at most the table's rows |
| MunicipalLogin.JurisdictionsDistinct | app/api/auth/municipal/route.ts:4-30 | the table has five accounts and no two of them share a jurisdiction |
| MunicipalLogin.Login | app/api/auth/municipal/route.ts:32-64 | 400 when id or password is missing, 401 "Invalid Municipal ID" for an id not in the table, 401 "Invalid password" for a wrong password; success if and only if the id is in the table and the password matches, echoing the id with that account's jurisdiction and name |
| MunicipalLogin.LoginAsWritten | app/api/auth/municipal/route.ts:43-57 | the lookup as written succeeds only where the corrected login does |
| MunicipalLogin.AsWrittenAgreesElsewhere | app/api/auth/municipal/route.ts:43-51 | the lookup as written agrees with the corrected login on every id that is not an inherited property name |
| MunicipalLogin.InheritedKeyMisreported | app/api/auth/municipal/route.ts:43-57 | the id "constructor" is answered "Invalid password" as written, "Invalid Municipal ID" when corrected |
| ClassifyRoute.CaptionCascade | app/api/ai/classify/route.ts:186-220 | on the lower-cased caption the first matching keyword group wins in the order potholes, drainage, street light, garbage, and no match gives "none"; "pothole" and "streetlight" add nothing to "hole" and "light" |
| ClassifyRoute.CaptionLabelsFixed | app/api/ai/classify/route.ts:181-220 | the caption path answers one of the four built-in labels or "none" |
| ClassifyRoute.FindIgnoringCase | app/api/ai/classify/route.ts:247-249 | the first known category equal to the answer up to case, or none when no known category is |
| ClassifyRoute.Classify | app/api/ai/classify/route.ts:10-251 | provider defaults to mock and is lower-cased; deepseek and huggingface use their own keys and every other provider the OpenAI key; a non-mock provider without a key gets 500 with that provider's "Missing …" error before the body is read; 400 "Missing image data URL"; the mock provider always succeeds with its drawn label, or "none" when it draws none; the caption path answers the keyword cascade's result; a network error gives 500 "AI network error" and an HTTP error "AI API error" with its status; a chat answer gives 500 "Invalid AI response" exactly when its category is empty; NONE in any case becomes "none" with the answer's reason; any other category becomes the first known category (the request's non-empty list, else the four built-in ones) equal to it up to case, or stays as given |
| ClassifyRoute.NormaliseCategory | app/api/ai/classify/route.ts:247-250 | the answer is the first known category equal to the category up to case, and the category itself when none is |
| ClassifyRoute.MissingKeyNeverHintsMock | app/api/ai/classify/route.ts:19-39 | a missing-key reply never carries the hint written for the mock provider |
| MunicipalAuth.ExpiredInHours | lib/municipalAuth.ts:18-22 | "more than 24 hours" measured in hours is the same test as more than 86 400 000 ms |
| MunicipalAuth.ReadSpec | lib/municipalAuth.ts:8-33 | a returned session is the stored one and at most 24 hours old; a session exactly 24 hours old is still returned; a second read at the same instant gives the same answer and changes nothing more |
| MunicipalAuth.SessionStorage.GetMunicipalSession | lib/municipalAuth.ts:8-33 | without a window: null, storage untouched; nothing or an empty string stored: null, storage untouched; unparseable: null, entry removed; older than 24 hours: null, entry removed; otherwise the stored session, storage untouched |
| MunicipalAuth.SessionStorage.ClearMunicipalSession | lib/municipalAuth.ts:35-38 | afterwards no session is stored (storage untouched without a window) |
| MunicipalAuth.SessionStorage.IsMunicipalAuthenticated | lib/municipalAuth.ts:40-42 | true if and only if reading the session yields one, with the read's effect on storage |
| Storage.FileExtension | lib/storage.ts:8 | the text after the last '.', which contains no '.'; the whole name when it has no '.' |
| Storage.ImagePathParts | lib/storage.ts:9 | the image path is the report id, "/image_", the index in decimal, "." and the extension, and the index and extension can be read back from it |
| Storage.ImagePathsDistinct | lib/storage.ts:9 | two different image indices of one report never share a path |
| Storage.VoicePathIsNoImagePath | lib/storage.ts:28 | the voice-note path, fixed as report id + "/voice_note.wav", is never an image path |
| Storage.Header | lib/storage.ts:45 | the header is the data URL's prefix up to its first comma, the whole URL when it has none |
| Storage.Payload | lib/storage.ts:45-47 | the payload is the segment from just after the first comma up to the second comma or the end, absent without a comma |
| Storage.MimeType | lib/storage.ts:46 | the MIME type is never empty and contains no ';'; anything but "image/jpeg" is the regular expression's capture in the header |
| Storage.MimeBetweenColonAndSemicolon | lib/storage.ts:46 | on a single-line header, the MIME type is the text between the first ':' and the next ';', "image/jpeg" when that text is empty |
| Storage.FileType | lib/storage.ts:53 | the `File` records its type lower-cased, or blank when it holds a character outside U+0020 to U+007E |
| Storage.TypedDataUrl | lib/storage.ts:45-53 | a URL of the shape data:<type>;base64,<payload> yields exactly that type, and the file records it lower-cased or blank |
| Storage.UpperCaseTypeLowered | lib/storage.ts:53 | an illustration of `FileType` and `TypedDataUrl` on one input: "Image/PNG" is recorded as "image/png" |
| Storage.MimeDefaults | lib/storage.ts:46 | without a ':' in the header, or without a ';' after it, the MIME type is "image/jpeg" |
| Storage.CopyCodeUnits | lib/storage.ts:48-52 | the countdown loop yields an array as long as the decoded string whose byte i is the low eight bits of character i's code |
| Storage.ConvertBase64ToFile | lib/storage.ts:44-53 | without a comma, or when decoding fails, the conversion throws; otherwise the file holds the decoded bytes, one per decoded character, the given name, and the extracted MIME type as the `File` records it (lower-cased, or blank when not printable ASCII) |

## Left out

- Database client, next-auth session lookup, `NextResponse` and the catch-all 500 "Internal server error" replies: the tables, the session and the replies are plain values, and each request is atomic.
- `metersToLatLngDelta` (app/api/reports/route.ts:35-42, app/api/reports/similar/route.ts:7-14): floating-point trigonometry. The handlers take the conversion as a function parameter `delta(meters, latitude)`; the radius passed to it (250, or the request's) is modelled.
- The box filters compare the text of `location->>latitude` with stringified numbers; the model compares numbers.
- SimilarRoute.SimilarQuery: the parsing of `lat`, `lng` and `radius` (`parseFloat`, `parseInt`) is an input; a radius that does not parse is not modelled.
- VoteRoute.VoteStore.CastVote: an error from the existing-vote query is only logged; the model always knows whether the vote exists.
- ReportsRoute.ListReports and MunicipalRoute.MunicipalReports: a query that returns no error and no data is not modelled.
- SimilarRoute.Enrich: the per-report count queries cannot fail one at a time, only the aggregation as a whole.
- ClassifyRoute.Classify: the upstream exchange (request payloads, `JSON.parse` of the answer, the `detail`, `statusText` and `requestId` of error replies) is an input; confidence values are left out. `toLowerCase`/`toUpperCase` are modelled on ASCII letters only.
- ClassifyRoute.Classify: the mock provider's random draws are inputs (`MockDraw`).
- MunicipalAuth: dates are integer milliseconds; a `loginTime` that does not parse as a date (whose difference is NaN and so never expires) is not modelled, and `JSON.parse` failures are the `Unparseable` stored value.
- Storage.ConvertBase64ToFile: `atob` is a function parameter. The uploads and public-URL lookups in `uploadImage` and `uploadVoiceNote` are left out.
- The `updated_at` and `admin_notes` columns: no modelled handler reads or writes them.
- The status-update handler and a jurisdiction authorization check: their source is not part of this model.
- The React pages and components, including the browser-side cap of five photos.

## Findings

| source | as written | input that shows it | evidently intended | confidence | as-written member | corrected member |
|---|---|---|---|---|---|---|
| app/api/auth/municipal/route.ts:43-51 | the id is looked up as a property of a plain object, so names inherited from `Object.prototype` find a truthy value | municipalId "constructor" with any password | 401 "Invalid Municipal ID" for every id that is not one of the five accounts | high, not executed | MunicipalLogin.LoginAsWritten, MunicipalLogin.InheritedKeyMisreported | MunicipalLogin.Login |
