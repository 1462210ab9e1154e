# Scheduled video fetch, modelled in Dafny

This project models the scheduled ingestion job of a "must-see TV" app,
`exports.handler` in `netlify/functions/scheduled-video-fetch.js`. The job
runs on a timer and does the following, in order:

1. It checks its settings and parses the channel rules.
2. It refreshes the YouTube access token. This step is fatal on failure.
3. It takes a snapshot of the target playlist's video ids, page by page. On
   failure the snapshot degrades to an empty set.
4. It works through each channel rule:
   - it searches the channel's recent videos;
   - it fetches their details;
   - it applies the positive keyword, negative keyword and duration filters;
   - it drops ids already in the playlist or already accepted in this run.
5. It sorts the accepted videos oldest first and inserts each one at
   position 0 of the playlist, so the newest ends up on top.

Every remote request is an abstract reply (`Ok(data)` or `Err`). The replies
of one run are bundled in `Remote.Env`:

- the refresh reply;
- the playlist page replies, as a finite sequence;
- the search and details replies, per position in the configuration;
- insert success, per video id;
- the clock.

The requests a run issues are recorded in order as a trace of `Remote.Call`s.
Properties such as "no search was made" or "no id was inserted twice" are
stated over that trace.

Files, one module each:

| file | module | what it holds |
|---|---|---|
| `values.dfy` | `Values` | `Option` and JavaScript truthiness |
| `text.dfy` | `Text` | `trim`, `toLowerCase` (ASCII), `split(',')`, `indexOf`/`includes` |
| `seqs.dfy` | `Seqs` | subsequences, `filter`, reverse |
| `duration.dfy` | `Duration` | `parseISO8601Duration` |
| `videos.dfy` | `Videos` | the video and channel rule records |
| `filters.dfy` | `Filters` | the three filters and their chain |
| `dedup.dfy` | `Dedup` | the de-duplication loop |
| `remote.dfy` | `Remote` | replies, requests and the environment |
| `publish.dfy` | `Publish` | the sort and the insert-at-head loop |
| `snapshot.dfy` | `Snapshot` | the paginated membership snapshot |
| `handler.dfy` | `Handler` | the handler's control flow |
| `properties.dfy` | `Properties` | run-level guarantees |
| `scenarios.dfy` | `Scenarios` | concrete runs |

Functions that only compute state their contracts in lemmas:

- `Duration.ParseDuration` (lines 16-25): `Duration.ParseRender`,
  `Duration.UnmatchedIsZero` and `Duration.DayPartReadsAsZero`.
- `Handler.Outcomes` (lines 160-219): `Properties.OutcomesMeaning` and
  `Properties.OutcomesSearchRules`.
- `Handler.Channels` and `Handler.ChannelLoop` (lines 160-236):
  `Properties.ChannelsKeepInvariant`, `Properties.ChannelsSearchAll`,
  `Properties.ChannelsAbortAtNull` and `Properties.ChannelsAcceptNew`, and
  for the loop started from the snapshot `Properties.LoopInvariant`,
  `Properties.LoopSearches`, `Properties.LoopAbortsAtNull` and
  `Properties.LoopAccepts`.
- `Publish.InsertByDate` and `Publish.SortByDate` (line 239):
  `Publish.InsertByDateSorts`, `Publish.SortByDateSorts` and
  `Publish.SortKeepsIds`.
- `Publish.InsertAll` (lines 242-257): `Publish.InsertAllCalls`,
  `Publish.InsertAllStack` and the lemmas built on them.

Notable behaviours of the code:

- **An empty configuration still refreshes the token and reads the
  playlist.** The run then succeeds with no search
  (`Scenarios.NoRulesNoSearch`).
- **A `null` configuration entry fails the whole run.** The log line at line
  161 reads `channel.channelId` outside the per-channel `try`. So a `null`
  entry aborts the run with status 500, after the channels before it were
  searched (`Properties.NullEntryAborts`). It is not isolated like other
  channel failures.
- **The three-day recency window is only a search parameter.** The cutoff is
  passed to the search request. No publish date is compared with it locally.
- **The success body is a fixed text.** It carries no count of the
  videos added.
- **A keyword string of only commas, such as `","`, passes the non-blank
  guard but yields no keyword.** As a positive filter it therefore keeps
  nothing (`Filters.CommaOnlyKeepsNothing`). As a negative filter it drops
  nothing (`Filters.NoNegativeKeywordDropsNothing`).

## Model

| member | source | states |
|---|---|---|
| Duration.ParseRender | netlify/functions/scheduled-video-fetch.js:16-25 | any "PT…" duration with any subset of the H, M and S components reads back as h*3600 + m*60 + s, a missing component counting as 0 |
| Duration.UnmatchedIsZero | netlify/functions/scheduled-video-fetch.js:16-20 | an absent input, an empty input or one without "PT" gives 0 seconds |
| Duration.DayPartReadsAsZero | netlify/functions/scheduled-video-fetch.js:18-20 | "P1DT2H" holds no contiguous "PT", so the unanchored pattern does not match and the result is 0 |
| Duration.DecimalRoundTrip | netlify/functions/scheduled-video-fetch.js:21-23 | `parseInt` of the decimal numeral of n is n |
| Duration.DigitRun | netlify/functions/scheduled-video-fetch.js:18 | the greedy `\d+` takes the longest all-digit prefix: all digits, followed by the end or by a non-digit |
| Duration.TakeThenRest | netlify/functions/scheduled-video-fetch.js:18-23 | one optional group `(?:(\d+)U)?` reads back its rendered value and leaves the rest of the string |
| Text.Trim | netlify/functions/scheduled-video-fetch.js:193 | `trim()` gives a string with no whitespace at either end, made of characters of the input |
| Text.TrimSurroundings | netlify/functions/scheduled-video-fetch.js:193 | the input is whitespace, then its trim, then whitespace |
| Text.TrimOfTrimmed | netlify/functions/scheduled-video-fetch.js:192 | trimming a string with no whitespace at either end changes nothing |
| Text.Lower | netlify/functions/scheduled-video-fetch.js:193 | lower-casing keeps the length and maps each ASCII capital to its small letter |
| Text.LowerIsIdempotent | netlify/functions/scheduled-video-fetch.js:196-197 | lower-casing twice is lower-casing once, and no capital remains |
| Text.Split | netlify/functions/scheduled-video-fetch.js:193 | `split(',')` gives at least one piece and no piece holds the separator |
| Text.JoinSplit | netlify/functions/scheduled-video-fetch.js:193 | joining the pieces with the separator gives the input back |
| Text.SplitJoin | netlify/functions/scheduled-video-fetch.js:193 | separator-free pieces are recovered by splitting their join |
| Text.IndexFrom | netlify/functions/scheduled-video-fetch.js:196-197 | the scan returns the first occurrence at or after the start position, or none when there is no occurrence there |
| Text.IndexOf | netlify/functions/scheduled-video-fetch.js:196-197 | `indexOf` finds an occurrence exactly when the pattern occurs, and then the first one |
| Seqs.Filter | netlify/functions/scheduled-video-fetch.js:194-199 | `filter` keeps exactly the elements satisfying the test, as an order-preserving subsequence, each passing element as many times as it occurs in the input |
| Filters.Keywords | netlify/functions/scheduled-video-fetch.js:193 | every keyword is non-empty, comma-free and has no whitespace at either end |
| Filters.KeywordsMeaning | netlify/functions/scheduled-video-fetch.js:193 | the keywords are exactly the non-empty trims of the comma-separated pieces of the lower-cased text |
| Filters.AnyMentioned | netlify/functions/scheduled-video-fetch.js:195-198 | the `some` scan is true exactly when some keyword occurs in the lower-cased title or description |
| Filters.KeywordFilter | netlify/functions/scheduled-video-fetch.js:192-200 | with a non-blank string, exactly the videos mentioning a keyword survive, in order; otherwise the list is unchanged |
| Filters.NegativeFilter | netlify/functions/scheduled-video-fetch.js:202-210 | with a non-blank string, exactly the videos mentioning no keyword survive, in order; otherwise the list is unchanged |
| Filters.NoNegativeKeywordDropsNothing | netlify/functions/scheduled-video-fetch.js:202-210 | a blank negative string, or one yielding no keyword, returns the list unchanged |
| Filters.CommaOnlyKeepsNothing | netlify/functions/scheduled-video-fetch.js:192-199 | "," passes the non-blank guard yet the positive filter then keeps no video |
| Filters.WithinBounds | netlify/functions/scheduled-video-fetch.js:214-217 | the integer test `seconds >= 60*min` and `seconds <= 60*max` agrees with the exact test on `seconds/60` |
| Filters.DurationFilter | netlify/functions/scheduled-video-fetch.js:212-219 | exactly the videos whose minutes lie within the given bounds survive, in order; with no numeric bound the list is unchanged |
| Filters.FilterChain | netlify/functions/scheduled-video-fetch.js:190-219 | the chain keeps, in input order, exactly the videos that pass all three stages of the rule |
| Dedup.Deduplicate | netlify/functions/scheduled-video-fetch.js:223-230 | the accepted ids are the input ids not already in the set, the final set is the initial set plus the accepted ids, and the video accepted for an id is its first occurrence in the input |
| Dedup.DeduplicateKeepsOrder | netlify/functions/scheduled-video-fetch.js:223-230 | the accepted videos carry no repeated id and keep their input order |
| Snapshot.Collect | netlify/functions/scheduled-video-fetch.js:140-147 | the loop issues at least one page request, and at most one more than the replies supplied; the first request carries the starting cursor, which the snapshot passes as none |
| Snapshot.CollectFollowsCursor | netlify/functions/scheduled-video-fetch.js:142-147 | each request after the first carries the cursor of the previous reply, which succeeded |
| Snapshot.CollectMeaning | netlify/functions/scheduled-video-fetch.js:140-148 | the listing succeeds exactly when the replies hold a complete listing, and then returns all pages' ids in order after one request per page |
| Snapshot.TakeSnapshot | netlify/functions/scheduled-video-fetch.js:135-153 | without an access token nothing is requested and the set is empty; every snapshot request is a page read |
| Snapshot.SnapshotMeaning | netlify/functions/scheduled-video-fetch.js:135-153 | a complete listing gives exactly the listed ids; any failure leaves the membership set empty |
| Publish.InsertByDateSorts | netlify/functions/scheduled-video-fetch.js:239 | inserting into an ascending list adds exactly the one video and keeps the list ascending |
| Publish.SortByDateSorts | netlify/functions/scheduled-video-fetch.js:239 | the sort gives a permutation of its input, ascending by publish time |
| Publish.SortKeepsIds | netlify/functions/scheduled-video-fetch.js:239 | sorting keeps the set of ids and creates no repeated id |
| Publish.InsertAllCalls | netlify/functions/scheduled-video-fetch.js:242-257 | with a token, one insert at position 0 per video, in list order, whether or not earlier inserts fail; without a token none |
| Publish.InsertAllStack | netlify/functions/scheduled-video-fetch.js:242-257 | the playlist top becomes the successfully inserted videos in reverse list order, above what was there |
| Publish.InsertAllSubmits | netlify/functions/scheduled-video-fetch.js:242-257 | the inserted ids are the list's ids in order with a truthy token, and none without one |
| Publish.InsertAllTop | netlify/functions/scheduled-video-fetch.js:242-257 | every video left at the top came from the list and was accepted by its insert |
| Publish.InsertAllNewestFirst | netlify/functions/scheduled-video-fetch.js:239-257 | inserting an ascending list at the head leaves the inserted videos newest first |
| Publish.PublishedTop | netlify/functions/scheduled-video-fetch.js:239-257 | the top block is newest first, and each of its videos was submitted and accepted |
| Publish.PublishedIds | netlify/functions/scheduled-video-fetch.js:242-251 | only ids from the list are submitted |
| Publish.PublishedAllIds | netlify/functions/scheduled-video-fetch.js:242-251 | with a truthy token exactly the ids of the list are submitted |
| Publish.PublishedTopIds | netlify/functions/scheduled-video-fetch.js:242-257 | the ids left at the top are exactly those of the list whose insert was made and accepted |
| Publish.PublishedOnce | netlify/functions/scheduled-video-fetch.js:242-251 | a list with distinct ids gets no id submitted twice |
| Handler.SearchIds | netlify/functions/scheduled-video-fetch.js:171 | the ids kept are exactly the truthy `id.videoId` values of the search items |
| Handler.Discover | netlify/functions/scheduled-video-fetch.js:162-219 | a channel makes one search for its own id with the cutoff and 25 results, and never inserts; a failed step finds nothing, otherwise the filter chain of the details reply |
| Handler.DiscoverFinds | netlify/functions/scheduled-video-fetch.js:177-219 | a channel that does not fail finds, in reply order, exactly the detailed videos passing its rule |
| Handler.Run | netlify/functions/scheduled-video-fetch.js:112-268 | a run returns 200 or 500, and 200 exactly with the success message |
| Handler.Finish | netlify/functions/scheduled-video-fetch.js:238-268 | the run returns 200 with the success message exactly when the channel loop ran to the end; an aborted loop gives 500 with the loop's requests and nothing placed at the top |
| Properties.OutcomesSearchRules | netlify/functions/scheduled-video-fetch.js:160-165 | the entries' outcomes search exactly the configured channel ids, in order, and insert nothing |
| Properties.OutcomesMeaning | netlify/functions/scheduled-video-fetch.js:160-219 | a rule entry searches its own channel alone, inserts nothing, and finds, in reply order, exactly the detailed videos passing its rule, or nothing when the channel fails; a `null` entry yields no outcome |
| Properties.ChannelsKeepInvariant | netlify/functions/scheduled-video-fetch.js:223-230 | across the loop the set is the snapshot plus the accepted ids, accepted ids never repeat or come from the snapshot, and no insert is issued |
| Properties.ChannelsSearchAll | netlify/functions/scheduled-video-fetch.js:160-236 | with no null entry the loop completes and makes every outcome's searches in order |
| Properties.ChannelsAbortAtNull | netlify/functions/scheduled-video-fetch.js:160-161 | a null entry aborts the loop there, after the earlier outcomes' searches |
| Properties.ChannelsAcceptNew | netlify/functions/scheduled-video-fetch.js:160-230 | with no null entry the loop accepts every found id not yet in the membership set, and no other |
| Properties.FailedChannelAddsNothing | netlify/functions/scheduled-video-fetch.js:162-175 | a failing channel leaves the set and the accepted list untouched, and the loop goes on to the next channel |
| Properties.AbortBeforeAnyRequest | netlify/functions/scheduled-video-fetch.js:116-128 | a missing setting or a configuration that is not an array gives 500 with no request made |
| Properties.RefreshFailureIsFatal | netlify/functions/scheduled-video-fetch.js:130-132 | a failed refresh gives 500 after the refresh request alone, with no search |
| Properties.LoopInvariant | netlify/functions/scheduled-video-fetch.js:135-236 | the loop started from the snapshot keeps the de-duplication invariant against the snapshot and issues no insert |
| Properties.LoopSearches | netlify/functions/scheduled-video-fetch.js:160-236 | with no null entry the loop started from the snapshot completes, having searched every outcome's channel in order |
| Properties.LoopAbortsAtNull | netlify/functions/scheduled-video-fetch.js:160-161 | with a null entry the loop started from the snapshot aborts there, having inserted nothing |
| Properties.LoopAccepts | netlify/functions/scheduled-video-fetch.js:135-230 | with no null entry the loop started from the snapshot accepts exactly the found ids the snapshot did not hold |
| Properties.FoundIdsArePassing | netlify/functions/scheduled-video-fetch.js:160-219 | the ids the channels find are exactly the ids of detailed videos that pass their channel's rule, over the channels that do not fail |
| Properties.NewVideosSubmitted | netlify/functions/scheduled-video-fetch.js:130-263 | with a truthy access token and no null entry the run gives 200, submits exactly the ids that pass some channel's rule and are not in the snapshot, and leaves at the top exactly those whose insert was accepted |
| Properties.EveryChannelSearched | netlify/functions/scheduled-video-fetch.js:130-263 | with a good refresh and no null entry the run gives 200 and searches every configured channel once, in order, whatever the snapshot, search, details and insert replies |
| Properties.NullEntryAborts | netlify/functions/scheduled-video-fetch.js:160-161 | a null entry gives 500 after searching the channels before it, with no insert |
| Properties.NoDuplicateInsertion | netlify/functions/scheduled-video-fetch.js:135-257 | no id is submitted twice and none the snapshot held; a failed run inserts nothing; the top block is newest first and each of its videos was submitted and accepted |
| Properties.FinishSearchesNothing | netlify/functions/scheduled-video-fetch.js:238-263 | the publish stage issues no search and the run succeeds |
| Properties.FinishSubmitsOnce | netlify/functions/scheduled-video-fetch.js:238-257 | publishing unique videos that are new to the snapshot submits each id once and none from the snapshot |
| Properties.FinishSubmitsAll | netlify/functions/scheduled-video-fetch.js:238-257 | with a truthy token the publish stage submits exactly the accepted ids and leaves at the top exactly those whose insert succeeded |
| Properties.FinishTop | netlify/functions/scheduled-video-fetch.js:239-257 | a successful run's top block is newest first, each video submitted and accepted |
| Scenarios.NoRulesNoSearch | netlify/functions/scheduled-video-fetch.js:130-263 | an empty configuration gives 200 with no search and no insert |
| Scenarios.OneOfTwoAlreadyPresent | netlify/functions/scheduled-video-fetch.js:135-257 | a playlist of one page holding `a`, and one unfiltered channel whose search finds `a` and `b`: the run returns 200 and makes exactly one insert request, for `b` |
| Scenarios.OnePageSnapshot | netlify/functions/scheduled-video-fetch.js:135-153 | a single page with no next-page cursor yields exactly the ids it lists as the known set |
| Scenarios.OneChannelOneNew | netlify/functions/scheduled-video-fetch.js:223-257 | one channel yielding a known and a new video makes exactly one insert, for the new one |
| Scenarios.ThreeNewestOnTop | netlify/functions/scheduled-video-fetch.js:239-257 | videos published at T1 < T2 < T3, found in any order and all inserted, end up top to bottom as T3, T2, T1 |
| Scenarios.AscendingThree | netlify/functions/scheduled-video-fetch.js:239 | three videos with distinct publish times have one ascending arrangement, oldest first |

## Left out

- HTTP transport, URL and header building, API-key masking and response JSON (lines 69-109): each request is an abstract `Ok`/`Err` reply.
- The token refresh request (lines 28-66): its outcome is an input. The extra setting checks at lines 30-37 cannot fail after the check at line 116, so they are not modelled. The rotated refresh token is discarded by the source and not modelled.
- A refresh reply without `access_token` is modelled: every later authenticated call throws before it is issued. Which message such a failure carries is not modelled.
- Wall-clock time: the cutoff is the clock minus 259200 seconds. The calendar arithmetic of `setDate(getDate() - 3)` across a daylight-saving change is not modelled.
- Publish times are integers. An invalid date string, which gives `NaN` in the sort comparator, is not modelled.
- The division `seconds / 60` is a float in the source. The model compares `seconds >= 60*min` on integers, proved equal to the exact real test. Non-integer bounds such as 2.5 are not modelled.
- `parseInt` is read as an exact natural number. Precision loss above 2^53 is not modelled.
- `toLowerCase` covers ASCII letters only. Full Unicode case mapping is not modelled.
- `JSON.parse` of the configuration is an input: unparsable, not an array, or entries that are rules or `null`.
- A bound that is not a number is absent, as the `typeof` tests at lines 212-216 make it.
- Keyword fields are strings or absent. A falsy value of another type behaves as absent, as in the source. A truthy value of another type, such as an array, makes `.trim()` throw at line 192 or 202. The per-channel catch at line 232 then fails that channel after its search and details requests. This case is not modelled.
- A reply whose items have the wrong shape makes the source throw. Such a reply is modelled as `Err`: in the details step it fails the channel, and in the snapshot it fails the listing.
- A missing title or description is the empty string, which matches no keyword.
- The playlist page replies are a finite sequence, so a request beyond the last supplied reply fails. A cursor that never becomes falsy is therefore not modelled.
- Search and details replies depend on the entry's position, so two entries for the same channel may get different replies.
- Publish.SortByDateSorts: does not state stability (equal timestamps keeping their input order). The insertion sort keeps that order, but no lemma proves it.
- Handler.Run: its own contract only pairs status and message. What a run does is stated by the Properties and Scenarios lemmas.
- Logging is not modelled.
- The other functions of the repository are not part of this model: `youtube-api.js`, `user-settings.js`, `auth-callback.js` and `auth-url.js`.
