# Safety incident reporting: a Dafny model of the server's decision logic

The server accepts safety incident reports from three places:

- a web form (`POST /api/incidents`);
- an SMS webhook;
- a voice-transcription endpoint.

Each report is classified into one of five categories. A zero-shot classifier does this, and a keyword scan takes over when the classifier fails. For SMS, the report's coordinates are read from the message text. The server keeps the reports in a list. Incidents can be listed by time of day, deleted by id and summarised into counts. A statistics panel in the web client recounts the incidents it was given and orders the time-of-day buckets by count.

The project models that logic. The modules are:

- `Text`: the JavaScript string primitives the code uses (`\s`, `\d`, `toLowerCase`, `includes`, `trim`).
- `Seqs`: `filter`, `slice(-n)` and `reverse`.
- `Tally`: a JavaScript object used as a counter. It is an insertion-ordered list of key/count pairs.
- `Categorizer`: `categorizeIncident`.
- `Location`: `parseLocation` and the coordinate strip of the SMS webhook. It uses a scanner for the coordinate pattern, proved equal to the pattern's leftmost match.
- `Incidents`: the incident record, request validation and the three record builders.
- `TimePeriods`: `getTimePeriod`, `filterByTimePeriod` and the list route.
- `Store`: the incident list as a class, whose routes push onto it or replace it with a filtered copy.
- `ServerStats`: the `/api/stats` loop, as a method with loop invariants.
- `ClientStatistics`: the client's counting folds and its sort by descending count.

Inputs the server gets from outside are parameters:

- the classifier's top label (`None` when the call or its response fails);
- the current time;
- the new id;
- the local hour of a timestamp, as the server reads it (`Timestamp.hour`) and as the browser reads it (`clientHour`).

## Model

| member | source | states |
|---|---|---|
| Text.Trim | backend/server.js:314 | the result is a slice of the input, with only white space cut from either end, and it neither starts nor ends with white space |
| Text.ToLower | backend/server.js:120-141 | same length; each character is lower-cased (ASCII letters only) |
| Categorizer.CategoryNameInjective | backend/server.js:123-154 | the five stored category names are pairwise distinct and contain no `_` |
| Categorizer.CategorizeIncident | backend/server.js:95-156 | when the classifier answers, the category is the first label rule that matches the lower-cased top label; when it fails, the first keyword rule that matches the lower-cased description; Other when no rule matches |
| Categorizer.LabelMatchesTable | backend/server.js:120-135 | the label if-chain is the label rule table read in order |
| Categorizer.FallbackMatchesTable | backend/server.js:141-154 | the fallback if-chain is the keyword rule table read in order |
| Categorizer.LabelPrecedence | backend/server.js:123-135 | each category is chosen iff one of its label words occurs and no word of an earlier category does; Other iff no word occurs |
| Categorizer.FallbackPrecedence | backend/server.js:141-154 | each category is chosen iff one of its stems occurs in the lower-cased description and no stem of an earlier category does; Other iff none occurs |
| Categorizer.LabelLightingWhen | backend/server.js:123-131 | a lower-case label with "lighting" and no Harassment or Assault word maps to Lighting Issue |
| Categorizer.LabelSuspiciousWhen | backend/server.js:123-134 | a lower-case label with "suspicious" and no earlier word maps to Suspicious Behavior |
| Categorizer.LabelOtherWhen | backend/server.js:123-135 | a lower-case label without any label word maps to Other |
| Categorizer.HarassmentLabel | backend/server.js:105-125 | "harassment or intimidation" maps to Harassment |
| Categorizer.AssaultLabel | backend/server.js:106-128 | "assault or violence" maps to Assault |
| Categorizer.LightingLabelWords | backend/server.js:107-128 | "poor lighting or visibility issue" holds no Harassment or Assault word |
| Categorizer.LightingLabel | backend/server.js:107-131 | "poor lighting or visibility issue" maps to Lighting Issue |
| Categorizer.SuspiciousLabelWords | backend/server.js:108-131 | "suspicious behavior or activity" holds no Harassment, Assault or Lighting word |
| Categorizer.SuspiciousLabel | backend/server.js:108-134 | "suspicious behavior or activity" maps to Suspicious Behavior |
| Categorizer.OtherLabelWords | backend/server.js:109-134 | "other safety concern" holds no word of the first four rules |
| Categorizer.OtherLabel | backend/server.js:109-135 | "other safety concern" maps to Other |
| Categorizer.CandidateLabelsMapToOwnCategory | backend/server.js:104-135 | each of the five candidate labels maps to its own category |
| Categorizer.FallbackThreatenedIsHarassment | backend/server.js:141-144 | the fallback files "threatened me at gunpoint" under Harassment |
| Categorizer.FallbackWhiteCarIsAssault | backend/server.js:141-147 | the fallback files "white car" under Assault, because of "hit" in "white" |
| Categorizer.FallbackFlightIsLightingIssue | backend/server.js:141-150 | the fallback files "flight" under Lighting Issue, because "fight" does not occur but "light" does |
| Categorizer.FallbackEmptyIsOther | backend/server.js:141-154 | the fallback files the empty description under Other |
| Location.NumberEnd | backend/server.js:278 | a number scanned from `i` ends after `i` and inside the text |
| Location.MatchAt | backend/server.js:278 | a match tried at `st` starts there and has its parts in order inside the text |
| Location.FindMatch | backend/server.js:279 | a reported match has its parts in order inside the text |
| Location.NumberEndCorrect | backend/server.js:278 | the scanned number is a lexeme of `-?\d+\.?\d*`, and every such lexeme at that point is a prefix of it that stops on a digit or the decimal point |
| Location.LabelEndUnique | backend/server.js:278 | a `lat`/`lng` label followed by a number ends where the label scanner stops |
| Location.MatchAtSound | backend/server.js:278 | a match the scanner reports decomposes into the pattern's five parts |
| Location.FirstHalfForced | backend/server.js:278 | in any decomposition, the label and the first number end where the scanners stop |
| Location.SecondHalfForced | backend/server.js:278 | in any decomposition, the separator and the `lng` label end where the scanners stop |
| Location.MatchAtComplete | backend/server.js:278 | whenever the pattern can match at `st`, the scanner matches there with the same first four parts and the longest last number |
| Location.MatchAtIff | backend/server.js:278 | the scanner matches at `st` iff the pattern can match at `st` |
| Location.FindMatchSound | backend/server.js:279 | a reported match is a decomposition and is the scanner's match at its own start |
| Location.FindMatchLeftmost | backend/server.js:279 | the pattern cannot match at any start left of the reported one, nor anywhere when nothing is reported |
| Location.NoDigitNoMatch | backend/server.js:278-279 | text without a digit has no match |
| Location.ParseLocation | backend/server.js:276-293 | the two number lexemes of the leftmost match, or (40.7128, -74.0060) when there is none |
| Location.StripCoordinates | backend/server.js:314 | without a match the text is unchanged; otherwise exactly the match's span is removed |
| Location.ParsedCoordinatesAreStripped | backend/server.js:311-314 | the parsed numbers are number lexemes inside the very span that the strip removes |
| Location.NoDigitDefault | backend/server.js:289-292 | text without a digit gets the default location and loses nothing in the strip |
| Incidents.TimestampOr | backend/server.js:200 | the request timestamp when it is a non-empty string, otherwise the current time |
| Incidents.ManualReport | backend/server.js:184-202 | rejected iff the description is empty or a coordinate is absent, "" or 0; otherwise the record carries the request's fields, the description's category, and the request timestamp or the current time |
| Incidents.VoiceReport | backend/server.js:360-379 | rejected iff the transcription is empty or a coordinate is falsy; otherwise the record carries the transcription and its category, the coordinates, the current time and source Voice |
| Incidents.SmsText | backend/server.js:314 | the text the classifier sees is no longer than the message |
| Incidents.SmsDescription | backend/server.js:322 | the stripped text when it is non-empty, otherwise the raw message |
| Incidents.SmsReport | backend/server.js:303-329 | nothing is created iff the message is empty; otherwise the description is never empty, the category is that of the stripped text (even when empty), the location is the parsed one, and source and sender are recorded |
| Incidents.SmsWithoutCoordinates | backend/server.js:311-322 | a digit-free message gets the default location and is categorised and stored trimmed, or stored raw when blank |
| Incidents.SmsWithCoordinates | backend/server.js:311-326 | a message with coordinates is categorised without the matched span, and the stored location is the two numbers inside it |
| Incidents.RemoveById | backend/server.js:223 | no survivor has the id; survivors keep their order and every other incident survives as often as it occurred; the length is unchanged iff no incident had the id, and then the list is unchanged |
| TimePeriods.PeriodNameInjective | backend/server.js:69-72 | the four bucket names are distinct and contain no `_` |
| TimePeriods.HourPeriod | backend/server.js:65-73 | morning iff 6 ≤ h < 12, afternoon iff 12 ≤ h < 17, evening iff 17 ≤ h < 21, night otherwise (also for an invalid date) |
| TimePeriods.FilterByTimePeriod | backend/server.js:76-83 | an absent, empty or "all" period returns the input; any other period returns an order-preserving subsequence whose incidents all have that bucket name |
| TimePeriods.FilterKeepsBucket | backend/server.js:79-82 | filtering by a bucket's name keeps exactly that bucket's incidents, each as often as it occurs |
| TimePeriods.UnknownPeriodIsEmpty | backend/server.js:76-83 | a period naming no bucket (and neither empty nor "all") yields the empty list |
| TimePeriods.ListIncidents | backend/server.js:163-169 | the route's `if (timePeriod)` guard gives the same answer as calling the filter unconditionally |
| Tally.BumpGet | backend/server.js:257 | an increment adds one to its key's count and changes no other count |
| Tally.BumpTotal | backend/server.js:257 | an increment adds one to the sum of the counts |
| Tally.BumpKeys | backend/server.js:257 | an increment keeps the keys in order and appends a new key last |
| Tally.BumpDistinct | backend/server.js:257 | an increment keeps keys distinct |
| Tally.TallyGet | frontend/src/components/Statistics.js:4-7 | each key's count in a fold is its starting count plus the number of elements with that key |
| Tally.TallyTotal | frontend/src/components/Statistics.js:4-9 | a fold adds the number of elements to the sum of the counts |
| Tally.TallyKeys | frontend/src/components/Statistics.js:12-24 | a fold's keys are the starting keys plus exactly the keys that occur, all distinct |
| Tally.TallyFromEmpty | frontend/src/components/Statistics.js:4-7 | a fold from `{}` has a key iff it occurs, counts occurrences, sums to the length, and is empty for an empty list |
| Tally.TallyFixedKeys | backend/server.js:245-261 | when every key is pre-set, a fold keeps exactly the pre-set keys in their order |
| ServerStats.ComputeStats | backend/server.js:238-266 | the loop's counters are the folds of the incidents; `total` is the incident count; each counter sums to `total`; `byTimePeriod` keeps exactly its four keys; `recent` is the last min(10, n) incidents, newest first |
| ServerStats.StatsTotals | backend/server.js:242-266 | each of the three counters sums to the number of incidents, and the bucket counter's keys stay morning, afternoon, evening, night |
| ServerStats.PresetKeys | backend/server.js:245-250 | the bucket counter starts with the keys morning, afternoon, evening, night |
| ServerStats.PeriodKeyPreset | backend/server.js:260-261 | every bucket an incident can fall in is a pre-set key, so `++` never meets a missing key |
| ServerStats.PeriodNameListed | backend/server.js:245-250 | every bucket's name is one of the four pre-set keys |
| ServerStats.UnderscoreJoinInjective | backend/server.js:264 | `${a}_${b}` determines a and b when a has no `_` |
| ServerStats.CellKey | backend/server.js:264 | an incident's combined key is the key of (c, p) iff its category is c and its bucket is p |
| ServerStats.CategoryKeyCount | backend/server.js:257 | the number of incidents keyed by a category's name is the number of incidents of that category |
| ServerStats.PeriodKeyCount | backend/server.js:260-261 | the number of incidents keyed by a bucket's name is the number of incidents in that bucket |
| ServerStats.CategoryCount | backend/server.js:257 | `byCategory[c]` is the number of incidents of category c |
| ServerStats.PeriodCount | backend/server.js:245-261 | `byTimePeriod[p]` is the number of incidents in bucket p |
| ServerStats.CellCount | backend/server.js:264-265 | `byCategoryAndTime["c_p"]` is the number of incidents of category c in bucket p |
| ClientStatistics.ClientAgreesWithServer | frontend/src/components/Statistics.js:13-20 | the client's if-chain gives the server's bucket name for the same hour |
| ClientStatistics.ClientKeyCount | frontend/src/components/Statistics.js:16-22 | the number of incidents the client keys by a bucket's name is the number whose browser-local hour falls in that bucket |
| ClientStatistics.CategoryCountsCorrect | frontend/src/components/Statistics.js:4-9 | `categoryCounts[c]` is the number of incidents of category c; the keys are exactly the categories that occur; the values sum to the total; the object is empty iff there are no incidents |
| ClientStatistics.TimePeriodCountsCorrect | frontend/src/components/Statistics.js:12-24 | `timePeriodCounts[p]` is the number of incidents whose browser-local hour is in bucket p; a bucket has a key iff its count is positive; every key is a bucket name; the values sum to the total; the object is empty iff there are no incidents |
| ClientStatistics.ClientPeriodsMatchServer | frontend/src/components/Statistics.js:12-24 | when the browser reads every timestamp's hour as the server does, the client's bucket counts equal the server's, and a bucket the client omits has server count 0 |
| ClientStatistics.TimeZonesCanDisagree | frontend/src/components/Statistics.js:13-22 | without that shared hour the counts can differ: an incident at 8 is morning on the server but not in a browser five hours ahead |
| ClientStatistics.SortByCount | frontend/src/components/Statistics.js:67-68 | the sorted entries are in non-increasing order of count and are a permutation of the input |
| ClientStatistics.SortByCountStable | frontend/src/components/Statistics.js:67-68 | entries with equal counts keep their input order |
| ClientStatistics.EntryPositive | frontend/src/components/Statistics.js:12-24 | every entry of `timePeriodCounts` has a positive count |
| ClientStatistics.PeriodEntriesByCountCorrect | frontend/src/components/Statistics.js:67-68 | the displayed bucket entries are in non-increasing order of count, are a permutation of `timePeriodCounts`, and each names a bucket with a positive count |
| Store.IncidentStore.Post | backend/server.js:179-207 | a rejected report leaves the list unchanged; an accepted one is appended at the end, with every earlier incident unchanged |
| Store.IncidentStore.ReceiveSms | backend/server.js:296-334 | an empty message leaves the list unchanged; otherwise exactly one record is appended at the end |
| Store.IncidentStore.ReceiveVoice | backend/server.js:353-383 | a rejected transcription leaves the list unchanged; otherwise exactly one record is appended at the end |
| Store.IncidentStore.Delete | backend/server.js:217-229 | every incident with the id is removed and the rest keep their order; not-found iff no incident had the id, and then the list is unchanged |
| Seqs.FilterIsSubsequence | backend/server.js:79-82 | `filter` keeps its survivors in their original order |
| Seqs.FilterKeepsAll | backend/server.js:222-225 | `filter` removes nothing iff every element passes, and then it returns its input |
| Seqs.Reverse | backend/server.js:252 | `reverse` has the same length and puts element k at position n-1-k |
| Seqs.LastN | backend/server.js:252 | `slice(-n)` is the last n elements, or all of them when there are fewer |

## Left out

- Express routing, HTTP status codes, JSON bodies, CORS and the Twilio TwiML replies are not modelled. A rejected or empty report is a `None` result.
- `readIncidents`, `writeIncidents` and the data directory are not modelled. The store is an in-memory sequence. A route that rejects a report leaves the sequence unchanged, as the unwritten file would be.
- The Hugging Face zero-shot call is a parameter: the top label, or `None` when the call or its response fails in any way. The model therefore does not capture which descriptions the classifier files where.
- `Date.now()` ids and `new Date().toISOString()` are parameters. One clock reading, `now`, stands for the separate `new Date()` calls that stamp `timestamp` and `createdAt` (backend/server.js:200-201, 326-327, 376-377), so the model has the two equal where the server may differ by a few milliseconds.
- A timestamp's local hour (`getHours` in the server's time zone) is a field of `Timestamp`; the hour the browser reads in its own time zone is the parameter `clientHour`, and no time-zone arithmetic is modelled. An invalid date, whose hour is NaN, is represented by any hour outside 0..23. Both fall through every comparison to night.
- `parseFloat` is not modelled. Coordinates are stored as received: a matched lexeme, a JSON string or a JSON number.
- Incidents.ManualReport: a coordinate that `parseFloat` turns into NaN is accepted and stored as its text. Request fields are assumed to be strings or numbers. An absent description is the empty string.
- `toLowerCase` folds ASCII letters only. `\s` and `trim` use JavaScript's full white-space set.
- The unused `categoryMapping` object (backend/server.js:86-92) is not modelled.
- The server has no place-name table, geocoder or location-source tag; the only location fallback is the New York default (backend/server.js:289-292).
- The SMS route categorises the text left after the coordinate strip (backend/server.js:314-317), not the raw message.
- No lemma is stated about a particular message string; a message that starts with a coordinate pair is covered by `SmsWithCoordinates`, `ParseLocation` and `FallbackPrecedence`.
- Concurrent requests, and the read-modify-write race between two routes on the JSON file, are not modelled.
- The client's rendering is not modelled: emojis, labels and the "no incidents" message.
