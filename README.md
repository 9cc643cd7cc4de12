# F1 radio archive: a verified model

F1 Radio Archive is a web archive of Formula 1 team-radio clips. Scripts and API routes copy radio
messages from the public OpenF1 API into a clips table. They transcribe each clip's audio with a
speech-to-text service, tag clips with categories chosen by a chat model, seed the category taxonomy,
delete transcripts that are too short, and report transcription and tagging progress. The home page
lists and filters the clips. A clip card shows a clip's duration, its vote tally and its category
badges, and lets a signed-in user vote. The admin page edits a clip's tags by hand, and a compilation
card plays a playlist of clips.

This project models those parts in Dafny and proves properties about them:

- The store (the clips, drivers, races, tag and category tables) is `Catalog.Store`, a class whose
  methods update its fields. `Catalog.Db` is the value of the store at one moment (`Store.Snapshot()`).
- Each script or route that works by changing the store step by step is a method with a loop. The
  method is proved equal to a fold function over its inputs (`ScriptAfter`, `RouteAfter`,
  `JobAfter`, `TagAfter`, `SeedAfter`, `DeleteFrom`, ...). The properties the program promises are
  lemmas about that fold.
- Outside services are parameters of the methods. These are the OpenF1 responses, the audio download
  and the speech-to-text reply for each attempt, the chat model's answer, and whether each store call
  reports an error.
- Query strings (`URLSearchParams`) are ordered lists of pairs (`Params.SearchParams`). Strings are
  `seq<char>`. JavaScript truthiness, `parseInt`, `Number.toString`, `trim`, `split` and `JSON.parse`
  on the inputs that matter are written out in `Text` and `Json`.

Modules follow the source files. Several modules are shared helpers:

- `Wrappers` holds Option and Result.
- `Seqs` holds filter, dedup, subsequence and counting.
- `Text` holds numbers as text, JavaScript whitespace, trim and split.
- `Json` is a strict `JSON.parse`.
- `Params` models query strings.
- `Catalog` models the tables.
- `Paging` models reads of 1000 rows per page.
- `Views` holds the shared view types.
- `SyncCommon` is shared by the sync script and the sync route.
- `TranscribeCommon` is shared by the transcription script and the transcription route.

## Model

| member | source | states |
|---|---|---|
| OpenF1.NumArg | lib/openf1-api.ts:74-77 | A numeric argument is sent exactly when it is present and not 0; its text reads back as the number. |
| OpenF1.StrArg | lib/openf1-api.ts:76 | A text argument is sent exactly when it is present and not empty, unchanged. |
| OpenF1.BuildQuery | lib/openf1-api.ts:72-77 | For distinct parameter names, the query holds one pair for each present argument and no other; its names and values come in the given order. |
| OpenF1.QueryOfNext | lib/openf1-api.ts:72-77 | Appending the next present argument, or skipping an absent one, extends a correct query to one more parameter. |
| OpenF1.TeamRadioQuery | lib/openf1-api.ts:72-77 | The team-radio query holds the session key, driver number and both date bounds that are truthy, in that order. |
| OpenF1.SessionsQuery | lib/openf1-api.ts:103-108 | Without filters the query is empty; otherwise it holds the truthy session key, meeting key, year and session name, in that order. |
| OpenF1.DriversQuery | lib/openf1-api.ts:132-135 | Without filters the query is empty; otherwise it holds the truthy session key and driver number. |
| OpenF1.MeetingsQuery | lib/openf1-api.ts:159-162 | Without filters the query is empty; otherwise it holds the truthy meeting key and year. |
| OpenF1.QueryOfNone | lib/openf1-api.ts:103-110 | When every argument is absent, the query string is empty (the URL still ends in `?`). |
| OpenF1.QueryOfSingle | lib/openf1-api.ts:103-108 | When exactly one argument is present, the query is exactly that one pair. |
| OpenF1.CheckResponse | lib/openf1-api.ts:87-91 | A response yields its body exactly when it is OK. Otherwise the error reads "OpenF1 API error: <status> <status text>". |
| SyncScript.YearFilter | scripts/sync-openf1.ts:36 | The session list is filtered by year exactly when the year is truthy (a number other than 0 and not NaN), and then by that year. |
| SyncScript.YearQuery | scripts/sync-openf1.ts:36 | The sessions query is empty without a truthy year and is the single pair year=<n> with one. |
| SyncCommon.DriversLastWins | scripts/sync-openf1.ts:58-77 | After the driver upserts, each driver number holds the row of its last upsert that did not fail; a number never written keeps its old row or stays absent. |
| SyncCommon.DriversGrow | scripts/sync-openf1.ts:58-77 | Upserting drivers never removes a driver. |
| SyncCommon.UpsertDrivers | scripts/sync-openf1.ts:58-77 | The store after the loop differs from the store before it only in its drivers, which are the fold of the upserts. |
| SyncCommon.MessagesEffect | scripts/sync-openf1.ts:107-151 | Processing a session's messages changes only the clips and the clip counter. It appends exactly the added clips after the old clips, so added plus skipped is at most the message count. It counts as orphans exactly the messages whose driver is unknown. Every appended clip has duration 0, an empty transcript, the session's key, a known driver and the URL of one of the messages. |
| SyncCommon.MessagesKeepUrlsUnique | scripts/sync-openf1.ts:122-131 | When the clip URLs were unique before a session's messages, they still are afterwards. |
| SyncCommon.MessagesKeepUrls | scripts/sync-openf1.ts:115-151 | A session's messages never lower the number of clips with a given URL. |
| SyncCommon.MessagesKeepDrivers | scripts/sync-openf1.ts:107-151 | Processing messages leaves the drivers table unchanged. |
| SyncCommon.MessagesAbsorbed | scripts/sync-openf1.ts:115-131 | When every message's driver is known and its URL is stored exactly once, the messages add nothing and are all skipped. |
| SyncCommon.SyncMessages | scripts/sync-openf1.ts:107-151 | The message loop leaves the store and the added, skipped and orphan counts equal to the message fold. |
| SyncScript.ScriptFetchesOnlyRaceOk | scripts/sync-openf1.ts:96-104 | When the driver and radio fetches succeed, the run has no failure; it upserts a race and counts messages only for the sessions whose race upsert succeeded. |
| SyncScript.ScriptCounters | scripts/sync-openf1.ts:103-150 | Throughout the run, added plus skipped is at most the total message count, and orphans are at most the skips. |
| SyncScript.ScriptKeepsUrlsUnique | scripts/sync-openf1.ts:122-131 | The run keeps the clip URLs unique. |
| SyncScript.ScriptOnlyGrows | scripts/sync-openf1.ts:49-154 | The run leaves tags and categories unchanged, keeps every driver, and only appends clips after the existing ones. |
| SyncScript.FirstRunAbsorbs | scripts/sync-openf1.ts:49-154 | When the feeds succeed, no clip insert fails and no message was an orphan, every fetched message ends up stored with a known driver. |
| SyncScript.AbsorbedRunAddsNothing | scripts/sync-openf1.ts:115-131 | A run over messages that are all already stored adds no clip and leaves the clips unchanged. |
| SyncScript.ResyncAddsNothing | scripts/sync-openf1.ts:122-131 | Running the sync a second time over the same feeds adds nothing, provided the first run skipped no message as an orphan. |
| SyncScript.FailureSticky | scripts/sync-openf1.ts:165-168 | After a failure, later sessions change nothing: the script has exited. |
| SyncScript.SyncRadioMessages | scripts/sync-openf1.ts:30-169 | A failed session fetch exits with its error and an empty session list stops early; both leave the store unchanged. Otherwise the store and the summary (session count, total, added, skipped) or the exit error are those of the session fold. |
| SyncScript.NonNumericYearSyncsEverything | scripts/sync-openf1.ts:173-178 | A non-numeric year argument (or "0") passes the year check and the sync runs without a year filter. |
| SyncScript.NonNumericYearExample | scripts/sync-openf1.ts:173-178 | The argument "abc" parses to NaN, passes the check and syncs every year. |
| SyncScript.ScriptYear | scripts/sync-openf1.ts:172-181 | The corrected year check: it accepts no argument, or a number from 2023 to the current year, which then filters the sessions. |
| SyncScript.ScriptYearRefinesCheck | scripts/sync-openf1.ts:172-181 | The corrected check rejects everything the original check rejects, and on a nonzero numeric year it rejects exactly what the original rejects. |
| SyncScript.SyncFromArgs | scripts/sync-openf1.ts:172-181 | A rejected year exits without touching the store. An accepted year sends the year query of its year filter, and the store and outcome are those of the sync run: the exit on a failed session fetch, the early stop on no sessions, or the session fold's summary or exit error. |
| SyncRoute.SessionFilter | app/api/sync-radio/route.ts:23-25 | A truthy session key filters by session; otherwise a truthy year filters by year; otherwise there is no filter. |
| SyncRoute.RouteQuery | app/api/sync-radio/route.ts:23-25 | The sessions query is session_key=<k>, or year=<y>, or empty, following the same choice. |
| SyncRoute.RouteCountsEverySession | app/api/sync-radio/route.ts:45-93 | When all fetches succeed, the route has no failure and its total counts every message of every session. |
| SyncRoute.RouteRaceRow | app/api/sync-radio/route.ts:72-86 | Each processed session upserts its race row, named "<location> - <session name>", under its session key; no other race is added. |
| SyncRoute.RouteNewAtMostTotal | app/api/sync-radio/route.ts:134-148 | The count of new clips is at most the total. |
| SyncRoute.RouteKeepsUrlsUnique | app/api/sync-radio/route.ts:109-119 | The route keeps the clip URLs unique. |
| SyncRoute.RouteFailureSticky | app/api/sync-radio/route.ts:150-158 | After a failure, later sessions change nothing: the route has already answered. |
| SyncRoute.SuccessIffOk | app/api/sync-radio/route.ts:27-158 | A response reports success exactly when its status is 200; every other response has status 404 or 500. |
| SyncRoute.Post | app/api/sync-radio/route.ts:12-160 | A bad body or a failed session fetch answers 500 and an empty session list answers 404; neither touches the store. Otherwise the store and the summary or the 500 error are those of the route's session fold. |
| Transcription.TranscribeAudioSpec | lib/transcription-service.ts:31-98 | A transcription succeeds exactly when the download succeeds with a 2xx status and a body of nonzero size and the speech service succeeds, and then it is the service's text. Otherwise it fails with the download error, "Failed to download audio: <status> <text>", the empty-file error or the service's error. |
| Transcription.Backoff | lib/transcription-service.ts:118 | The wait after failed attempt j is 2^j seconds. |
| Transcription.RetrySemantics | lib/transcription-service.ts:103-126 | With m retries (m at least 1), between 1 and m attempts are made. All attempts before the last one fail. The result is the first success if some attempt of the m succeeds, and otherwise the m-th attempt's error. With m at most 0, nothing is tried and the result is the default error. |
| Transcription.DefaultSchedule | lib/transcription-service.ts:116-121 | With the default three retries and three failed attempts, the run waits 2 s and then 4 s. |
| Transcription.TranscribeWithRetry | lib/transcription-service.ts:103-126 | The retry loop returns the result, the number of tries and the waits of the retry specification. |
| Transcription.BatchKeys | lib/transcription-service.ts:131-160 | The batch result holds a key for exactly the ids of the processed items. |
| Transcription.BatchEntries | lib/transcription-service.ts:138-150 | An item's entry (the last one for its id) is its transcript when its retries succeed and the empty text when they fail. |
| Transcription.ProgressOnlyOnSuccess | lib/transcription-service.ts:145-147 | Progress is reported exactly for the items whose transcription succeeded, with position, total and id. |
| Transcription.PacingSpec | lib/transcription-service.ts:154-156 | A batch of n items pauses 1000 ms between consecutive items, n - 1 times. |
| Transcription.BatchTranscribe | lib/transcription-service.ts:131-160 | The batch loop's results, progress reports and pauses are those of the batch specification. |
| TranscribeCommon.Matching | scripts/transcribe-clips.ts:48-64 | With a clip id, the candidates are the clips with that id; without one, the clips without a transcript (missing or empty). They come newest first and include every such clip. |
| TranscribeCommon.Candidates | scripts/transcribe-clips.ts:48-64 | The query fails exactly on a negative limit. It returns all matching clips without a limit (or with limit 0), and otherwise the first `limit` of them. |
| TranscribeCommon.TranscribeClip | scripts/transcribe-clips.ts:92-113 | One clip succeeds exactly when the transcription succeeds and its update is stored, and then carries the transcript; otherwise it carries the transcription or update error. The store changes only by that transcript. |
| TranscribeCommon.JobCounts | scripts/transcribe-clips.ts:84-121 | Successes plus failures equal the number of processed clips; only clip transcripts change and the clip ids stay the same. |
| TranscribeCommon.JobOnlyTouchesSaved | scripts/transcribe-clips.ts:92-113 | The job changes nothing but transcripts, and a clip whose id was never saved keeps its row. |
| TranscribeCommon.JobSavesTranscript | scripts/transcribe-clips.ts:92-113 | A clip's stored transcript is the one its last successful save wrote. |
| TranscribeScript.RunClips | scripts/transcribe-clips.ts:84-121 | The loop leaves the store and counts equal to the job fold; successes plus failures equal the clip count; it pauses 1000 ms between clips. |
| TranscribeScript.TranscribeClips | scripts/transcribe-clips.ts:43-136 | A query error, a negative limit or no candidates stop the script without touching the store. Otherwise the store, "Done" with its counts, and the pauses are those of the job over the candidates. |
| TranscribeScript.ParseArgs | scripts/transcribe-clips.ts:139-148 | The options are the fold of the per-argument parser over the arguments. |
| TranscribeScript.LimitArg | scripts/transcribe-clips.ts:142-144 | "--limit=<n>" sets the limit to n and nothing else. |
| TranscribeScript.ClipIdArg | scripts/transcribe-clips.ts:145-147 | "--clip-id=<x>" sets the clip id to x when x has no "=". |
| TranscribeScript.ClipIdArgCut | scripts/transcribe-clips.ts:145-147 | "--clip-id=<x>=<y>" keeps only x, the text between the first and the second "=". |
| TranscribeRoute.EffectiveLimit | app/api/transcribe/route.ts:15-36 | A missing limit is 10, a null limit is no limit, and a number is itself. |
| TranscribeRoute.EntryOf | app/api/transcribe/route.ts:71-95 | An entry keeps the clip's id and title. It is "transcribed" exactly when the transcript is saved, and then holds the transcript cut to its first 100 characters; otherwise it holds the transcription error or the update error. |
| TranscribeRoute.ResultsMatchJob | app/api/transcribe/route.ts:55-109 | The results hold one entry per clip, in order. The transcribed entries number the successes and the others the failures. |
| TranscribeRoute.RunClips | app/api/transcribe/route.ts:60-100 | The loop leaves the store and counts equal to the job fold, returns the result entries, and pauses 1000 ms after every clip. |
| TranscribeRoute.Post | app/api/transcribe/route.ts:12-121 | A bad body, a query error or a negative limit answers 500 and no clips answers "No clips"; these leave the store unchanged. Otherwise it answers with the processed count, the successes, the failures and the entries of the job. |
| TranscribeRoute.SummaryCounts | app/api/transcribe/route.ts:102-109 | The summary's successes and failures add up to the clip count, and the successes equal the transcribed entries. |
| AutoTag.FindLimitArg | scripts/auto-tag-clips.ts:200-202 | The limit option is an argument starting with "--limit=", and there is one exactly when some argument starts so. |
| AutoTag.FirstLimitWins | scripts/auto-tag-clips.ts:200-202 | With no earlier "--limit=" argument, "--limit=<n>" sets the limit to n whatever follows. |
| AutoTag.LimitText | scripts/auto-tag-clips.ts:200-202 | The text after "=" in "--limit=<n>" parses back to n. |
| AutoTag.RequestedLimit | scripts/auto-tag-clips.ts:48 | The requested count is the given limit when it is truthy and 1000 otherwise. |
| AutoTag.FetchedNewest | scripts/auto-tag-clips.ts:48-68 | The fetched clips are a prefix of the transcribed clips, newest first, and at most the requested count. When no page fails, they are exactly the first `requested` of them. |
| AutoTag.FetchCandidates | scripts/auto-tag-clips.ts:52-68 | The paging loop returns the clips of the fetch specification. |
| Json.ParseRenderNames | scripts/auto-tag-clips.ts:133-140 | A JSON array of plain names, as the model is asked to write it, parses back to exactly those names. |
| Json.ProseIsNotJson | scripts/auto-tag-clips.ts:133-140 | A bare word is not JSON. |
| Json.TrailingCommaIsNotJson | scripts/auto-tag-clips.ts:133-140 | An array with a trailing comma is not JSON. |
| Json.SingleQuotesAreNotJson | scripts/auto-tag-clips.ts:133-140 | An array of single-quoted names is not JSON. |
| AutoTag.Lookup | scripts/auto-tag-clips.ts:143-145 | A parsed item yields a category id exactly when it is a string naming a category, and the id is that category's id. |
| AutoTag.MatchIds | scripts/auto-tag-clips.ts:143-145 | The matched ids are the ids of the items that name a category; unknown names and non-strings are dropped. |
| AutoTag.MatchStrings | scripts/auto-tag-clips.ts:143-145 | Matching the parsed strings of a list of names gives the ids of those names in order. |
| AutoTag.RowsFor | scripts/auto-tag-clips.ts:153-156 | One tag row per matched id, all for the clip, in order. |
| AutoTag.SkipBeforeModel | scripts/auto-tag-clips.ts:88-97 | A clip that already has tags is skipped before the model is asked, when the count query succeeds. Whatever the model would answer, a skip counts neither as a success nor as a failure and causes no pause. |
| AutoTag.BadAnswersFail | scripts/auto-tag-clips.ts:125-140 | An empty answer or one that is not JSON counts as a failure, tags nothing and skips the pause. |
| AutoTag.RenderedAnswer | scripts/auto-tag-clips.ts:125-175 | For an answer that is a JSON list of names: no known name tags nothing. Known names are inserted, which is a success; a duplicate-key reply is a skip, and any other insert error is a failure. |
| AutoTag.TaggedStep | scripts/auto-tag-clips.ts:163-180 | A tagged clip adds exactly its rows and one success. Any other outcome adds no rows and no success, and a skip changes nothing at all. |
| AutoTag.TagCounts | scripts/auto-tag-clips.ts:79-188 | Successes plus failures are at most the clips seen. Each pause lasts 500 ms, and the run pauses at most once per clip and never after the last one. |
| AutoTag.TagsOnlyForCandidates | scripts/auto-tag-clips.ts:153-161 | The run only appends tag rows, and a clip outside the fetched list keeps its tags. |
| AutoTag.TagClip | scripts/auto-tag-clips.ts:88-180 | One clip's step gives the outcome of the specification, and the store changes only by that clip's new rows when it is tagged. |
| AutoTag.Tally | scripts/auto-tag-clips.ts:163-185 | The counters gain one success or one failure as the outcome says. A 500 ms pause is added for the outcomes that reach the end of the loop body, and never after the last clip. |
| AutoTag.AutoTagClips | scripts/auto-tag-clips.ts:31-197 | No categories (or a failed read) and no clips each stop the script without changes. Otherwise only the tags change, as the tagging fold says, and the script reports its counts and pauses. |
| Paging.CollectedContinues | scripts/auto-tag-clips.ts:52-68 | The pages read are consecutive rows: what the loop collects is a prefix of the table. |
| Paging.CollectedEnough | scripts/auto-tag-clips.ts:52-68 | When no page fails, the loop collects the whole table or at least the requested count. |
| Paging.NextPage | scripts/check-tag-status.ts:33-43 | One page adds the next rows of the table, and the loop goes on only after a full page. |
| Paging.FetchPages | scripts/auto-tag-clips.ts:52-68 | The bounded paging loop collects the rows of the paging specification. |
| Paging.FetchUntilShort | scripts/check-tag-status.ts:28-44 | The unbounded loop collects the same rows as the bounded loop with the row count plus one as its bound. |
| Seed.TaxonomyDistinct | scripts/seed-categories.ts:22-38 | The taxonomy has 15 categories with distinct names. |
| Seed.UpsertEach | scripts/seed-categories.ts:43-56 | The upsert loop leaves the store equal to the seeding fold and reports the names whose upsert failed. |
| Seed.SeedCategories | scripts/seed-categories.ts:40-59 | Seeding the taxonomy gives the fold over the 15 entries and reports each failed name. |
| Seed.SeedShape | scripts/seed-categories.ts:43-56 | Seeding changes only the categories. It adds exactly the names whose upsert succeeded, keeps every other category and keeps the id of every existing one. |
| Seed.SeedDescriptions | scripts/seed-categories.ts:44-49 | Every entry whose upsert succeeded holds its name and description afterwards. |
| Seed.SeedOverSeeded | scripts/seed-categories.ts:43-56 | Seeding a store that already holds every entry changes nothing, whichever upserts fail. |
| Seed.SeedIdempotent | scripts/seed-categories.ts:43-56 | After one clean seeding run, any later run changes nothing. |
| Seed.SeedAllOf | scripts/seed-categories.ts:43-56 | Without failures, every entry is stored with its description and the category names become the old ones plus the entries'. |
| Seed.SeedComplete | scripts/seed-categories.ts:43-56 | Without failures, the whole taxonomy is stored. |
| Cleanup.OffsetsAreThousands | scripts/clean-short-transcripts.ts:37 | The loop reads the pages at offsets 0, 1000, 2000, ... below the count, one per started thousand. |
| Cleanup.LoadedAll | scripts/clean-short-transcripts.ts:37-49 | Without failed pages and with the true count, the loop loads every transcribed row in order. |
| Cleanup.LoadRows | scripts/clean-short-transcripts.ts:37-49 | The loading loop returns the rows of the loading specification, at the offsets of the specification. |
| Cleanup.ShortMeansOneWord | scripts/clean-short-transcripts.ts:55-58 | A transcript is short exactly when its trimmed text has no whitespace, that is, at most one word. |
| Cleanup.TwoWordsNotShort | scripts/clean-short-transcripts.ts:55-58 | Two words separated by whitespace are never short. |
| Text.SplitOnSpacesSingle | scripts/clean-short-transcripts.ts:56 | Splitting on whitespace gives one part exactly when the text has no whitespace. |
| Cleanup.NoShortNoDelete | scripts/clean-short-transcripts.ts:62-65 | With no short transcript, the script reports nothing to remove and deletes nothing. |
| Cleanup.BatchesSplit | scripts/clean-short-transcripts.ts:83-84 | The deletion batches, joined, are the ids. Each batch has 1 to 100 ids, and all but the last have exactly 100. |
| Cleanup.DeleteEffects | scripts/clean-short-transcripts.ts:82-96 | Deleting batches changes only the clips. It removes only listed clips, counts at most the listed ids and keeps every clip not listed. |
| Cleanup.DeleteAllListed | scripts/clean-short-transcripts.ts:82-96 | When no batch fails, every listed clip is removed and the count is the number of listed ids. |
| Cleanup.DeleteBatches | scripts/clean-short-transcripts.ts:82-96 | The deletion loop leaves the store and the count equal to the deletion fold. |
| Cleanup.CleanShortTranscripts | scripts/clean-short-transcripts.ts:21-99 | The script's report and store are those of the cleanup specification, and it pauses 5 s exactly when it deletes. |
| Cleanup.CleanKeepsLongTranscripts | scripts/clean-short-transcripts.ts:21-99 | Whatever fails, the cleanup deletes only clips, never adds one, and keeps every clip whose transcript is missing or not short. |
| Cleanup.CleanRemovesExactlyShort | scripts/clean-short-transcripts.ts:21-99 | Without failures, a clip is removed exactly when it has a short transcript, and every one found is deleted. |
| Cleanup.MissingCountDeletesNothing | scripts/clean-short-transcripts.ts:37 | When the count query returns nothing, the loop reads no page and nothing is deleted. |
| TagStatus.ReadTagRows | scripts/check-tag-status.ts:28-44 | The tag-row loop returns the rows of the reading specification. |
| TagStatus.TagRowsReadPrefix | scripts/check-tag-status.ts:32-44 | The rows read are a prefix of the tag table, and all of it when no page fails. |
| TagStatus.TaggedCountsDistinctClips | scripts/check-tag-status.ts:46 | The tagged count is the number of distinct clip ids in the rows read. It is at most the number of tagged clips, and equal to it when no page fails. |
| TagStatus.UntaggedCountsUntaggedClips | scripts/check-tag-status.ts:46-58 | When every tag names an existing clip and nothing fails, tagged plus untagged is the clip count; the untagged count is the clips without tags, and a batch estimate appears exactly when there is one. |
| TagStatus.OrphanTagNegative | scripts/check-tag-status.ts:47 | A tag row for a deleted clip makes the untagged count negative (-1 with no clips) and hides the estimate. |
| TagStatus.EstimatedBatches | scripts/check-tag-status.ts:55-58 | An estimate exists exactly for a positive untagged count; it is that count divided by 500, rounded up. |
| TagStatus.CheckTagStatus | scripts/check-tag-status.ts:21-59 | The report is the one computed from the store; the store is unchanged. |
| TranscriptStatus.CountsAddUp | scripts/check-transcripts.ts:23-34 | Without failures, "with transcripts" counts the clips with a transcript, and with and without add up to the total. |
| TranscriptStatus.MissingTotalGoesNegative | scripts/check-transcripts.ts:34 | When the total count query returns nothing, "with transcripts" is minus the number of clips without one, so it is never positive. |
| TranscriptStatus.CheckTranscripts | scripts/check-transcripts.ts:21-41 | The report is the one computed from the store; the store is unchanged. |
| HomePage.SessionOf | app/page.tsx:81-93 | A race name has a session exactly when it contains " - ", and the session is the second part of the name split on " - ". |
| HomePage.ByCategory | app/page.tsx:64-69 | With a truthy category, the clips kept are exactly those with a tag of that category, in order; otherwise all. |
| HomePage.BySeason | app/page.tsx:71-73 | With a truthy season, the clips kept are exactly those whose race season prints as it, in order; otherwise all. |
| HomePage.ByLocation | app/page.tsx:76-78 | With a truthy location, the clips kept are exactly those of a race at it, in order; otherwise all. |
| HomePage.BySession | app/page.tsx:81-86 | With a truthy session, the clips kept are exactly those whose race name's session is it, in order; otherwise all. |
| HomePage.PostFilterSpec | app/page.tsx:63-86 | The filtered clips are an ordered subsequence of the query's clips and are exactly those matching every truthy filter; without filters they are all. |
| HomePage.SeasonFilterByNumber | app/page.tsx:71-73 | A season filter written as a number's text keeps exactly the clips of that season. |
| HomePage.UniqueLocationsSpec | app/page.tsx:89 | The locations have no repeats, are exactly the non-empty race locations, and come in first-occurrence order. |
| HomePage.UniqueSessionsSpec | app/page.tsx:90-93 | The sessions have no repeats and are exactly the non-empty second parts of race names split on " - ". |
| HomePage.HeaderCountsShownClips | app/page.tsx:61-97 | The header counts the clips shown, which come from the query; a failed clip query shows none, and a failed race query lists no locations or sessions. |
| FilterBar.SeasonsSpec | components/filter-bar.tsx:44-47 | The season list is strictly descending, holds exactly the races' seasons, and is the only such list. |
| FilterBar.DescendingUnique | components/filter-bar.tsx:44-47 | Two strictly descending lists with the same elements are equal. |
| FilterBar.SortDescendingSorted | components/filter-bar.tsx:46 | Sorting distinct numbers with `(a, b) => b - a` gives a strictly descending permutation. |
| FilterBar.FilteredRacesSpec | components/filter-bar.tsx:49-52 | Without a season all races are offered; with one, exactly the races of that season, in order. |
| FilterBar.UpdateFilter | components/filter-bar.tsx:54-68 | The pushed parameters are the current ones updated by the filter change. |
| FilterBar.UpdatedSpec | components/filter-bar.tsx:54-68 | A truthy value becomes the key's only pair, and an empty value or "all" removes the key. Changing the season also removes the race; every other key keeps its pairs. |
| FilterBar.ClearAllFilters | components/filter-bar.tsx:70-79 | The pushed parameters are the current ones with the six filters removed. |
| FilterBar.ClearedSpec | components/filter-bar.tsx:70-79 | Clearing removes exactly the six filter keys and keeps every other parameter. |
| FilterBar.ClearedHasNoActiveFilters | components/filter-bar.tsx:70-81 | After clearing, no filter is active. |
| FilterBar.UpdatedActivates | components/filter-bar.tsx:54-81 | Setting a filter to a truthy value makes the filters active. |
| SearchBar.SearchedSpec | components/search-bar.tsx:14-27 | A non-empty search becomes the only search pair, and an empty one removes search; every other parameter keeps its pairs. |
| SearchBar.SearchThenClear | components/search-bar.tsx:14-27 | Searching and then clearing the box leaves the other parameters as they were, without search. |
| SearchBar.SearchBox.HandleSearch | components/search-bar.tsx:14-27 | The box shows the typed value and pushes the searched parameters. |
| ClipCard.FormatDurationReadsBack | components/clip-card.tsx:95-100 | No duration or 0 shows "0:00". A positive duration shows minutes, a colon and two digits of seconds below 60, which read back as the duration. |
| ClipCard.JsRem | components/clip-card.tsx:98 | JavaScript's `%` keeps the sign of the dividend. |
| ClipCard.TallyBounds | components/clip-card.tsx:58-65 | The tally is up votes minus down votes and lies between minus and plus the vote count. |
| ClipCard.TallyAppend | components/clip-card.tsx:58-65 | The tally of two vote lists together is the sum of their tallies. |
| ClipCard.UpsertVoteSpec | components/clip-card.tsx:85-88 | The upsert keeps one vote per clip and user, stores the new vote and leaves every other user's vote unchanged. |
| ClipCard.RemoveVoteSpec | components/clip-card.tsx:79-82 | The delete removes the user's vote on the clip and leaves every other vote unchanged. |
| ClipCard.FirstVoteTally | components/clip-card.tsx:58-88 | A user's first vote raises the clip's tally by one when up and lowers it by one when down. |
| ClipCard.VoteThenUnvote | components/clip-card.tsx:79-88 | Voting and then removing the vote restores the table when the user had not voted. |
| ClipCard.ClickShowsStoredVote | components/clip-card.tsx:79-92 | When the write and the refresh succeed, the card shows the vote stored for the user: none after clicking the current vote, the clicked one otherwise. |
| ClipCard.FailedUnvoteComesBack | components/clip-card.tsx:79-92 | A failed delete leaves the vote stored, so the refresh shows it again. |
| ClipCard.Card.CheckAuthAndVotes | components/clip-card.tsx:38-66 | The card becomes signed in exactly when there is a user. It shows the stored vote only when the read finds one, and the tally only when the vote list comes back. |
| ClipCard.Card.HandleVote | components/clip-card.tsx:68-93 | Signed out, the card only redirects to login, and without a session user it does nothing. Otherwise it deletes or upserts the vote and shows the refreshed vote and tally. |
| ClipCard.CategoriesSpec | components/clip-card.tsx:102 | The badges are the categories of the clip's tags that still exist, in tag order. |
| ClipCard.HandleCategoryClick | components/clip-card.tsx:104-108 | A badge click makes the category the only category pair and keeps every other parameter. |
| TagEditor.ToggleSpec | app/admin/tag-clips/page.tsx:66-72 | Toggling a ticked id removes it and keeps the order of the rest; toggling an unticked id adds it at the end. A selection without repeats keeps none. |
| TagEditor.ToggleTwiceRestores | app/admin/tag-clips/page.tsx:66-72 | Ticking an unticked box and unticking it restores the selection exactly. |
| TagEditor.ToggleTwiceSameSet | app/admin/tag-clips/page.tsx:66-72 | Toggling twice restores the selected set. |
| TagEditor.TagRowsOf | app/admin/tag-clips/page.tsx:86-89 | The inserted rows name the current clip only, with the selected ids in order. |
| TagEditor.SaveReplacesTags | app/admin/tag-clips/page.tsx:74-92 | When the delete and the insert succeed, the clip's tags are exactly the selection and every other clip keeps its tags. |
| TagEditor.SaveTouchesOnlyClip | app/admin/tag-clips/page.tsx:74-92 | Whatever the store reports, saving touches only the current clip's tags. |
| TagEditor.NewestClips | app/admin/tag-clips/page.tsx:39-48 | The page loads the newest clips, newest first: all of them when there are at most 100, and otherwise exactly the 100 newest. |
| TagEditor.Editor.LoadData | app/admin/tag-clips/page.tsx:29-52 | The page holds the newest clips, or none when the read fails, and stops loading. |
| TagEditor.Editor.LoadClipTags | app/admin/tag-clips/page.tsx:54-64 | The selection becomes the current clip's tags, or none when the read fails; without a current clip nothing changes. |
| TagEditor.Editor.ToggleCategory | app/admin/tag-clips/page.tsx:66-72 | The selection is toggled as specified. |
| TagEditor.Editor.SaveTags | app/admin/tag-clips/page.tsx:74-98 | Without a current clip nothing changes. Otherwise only the tag table changes, by the save specification, and the page moves to the next clip if there is one. |
| TagEditor.Editor.Skip | app/admin/tag-clips/page.tsx:100-104 | Skip moves to the next clip if there is one and otherwise stays. |
| Views.StepsStayInRange | app/admin/tag-clips/page.tsx:95-104 | Stepping forward k times from the first clip reaches clip k, and stops at the last clip. |
| CompilationCard.ClipsSpec | components/compilation-card.tsx:32 | The playlist holds the compilation's linked clips that still exist, in order; with no dangling link it is the whole list. |
| CompilationCard.Player.Play | components/compilation-card.tsx:69-74 | Play opens the player on the first clip; a clip plays exactly when the button is enabled. |
| CompilationCard.Player.HandleNextClip | components/compilation-card.tsx:35-39 | The player moves to the next clip when one remains and otherwise stays on the last. |
| CompilationCard.Player.SelectClip | components/compilation-card.tsx:113-116 | A playlist button selects its clip. |
| Catalog.UniqueUrlsCount | app/api/sync-radio/route.ts:109-119 | With unique URLs, no URL is stored more than once, so the existence check by `.single()` finds at most one clip. |
| Catalog.CountUrlZero | scripts/sync-openf1.ts:122-131 | A URL has count 0 exactly when no clip has it. |
| Catalog.DeleteTagsOf | app/admin/tag-clips/page.tsx:79-82 | Deleting a clip's tags leaves it none and every other clip's tags unchanged. |
| Catalog.UpsertCategory | scripts/seed-categories.ts:44-49 | Upserting by name stores the name and description, keeps an existing category's id, leaves every other category unchanged and keeps the table well formed. |
| Text.ParseIntOfIntToString | scripts/sync-openf1.ts:173 | `parseInt` reads a number's text back as the number. |

## Left out

- Network, database and model calls are not executed. Their replies are parameters of the methods: the OpenF1 responses, the audio download and speech-to-text reply per attempt, the chat answer per clip, and an error flag or reply for each store write and for each read except the two sync reads named below.
- Console output is not modelled: the progress lines, the percentages (`toFixed`) and the decorative separators.
- Timers are not modelled. The waits (1000 ms, 500 ms and 5 s) are returned as lists of durations instead of being slept. The retry back-off waits are returned by Transcription.TranscribeWithRetry only; its callers do not pass them on, so the pause lists of Transcription.BatchTranscribe, TranscribeScript.RunClips and TranscribeRoute.RunClips leave out the 2 s and 4 s back-off.
- Filters that the database applies (`ilike` search, driver and race equality, the ordering and the 10000-row limit on the home page) are not modelled. The model starts from the rows the query returns, and only the filters the page applies in code are modelled.
- The sync's two `.single()` reads per message, the driver lookup and the existing-clip check (scripts/sync-openf1.ts:108-131 and app/api/sync-radio/route.ts:98-119), are assumed to succeed. In the source a failed read gives `data` null: a failed driver read skips the message as an orphan, and a failed existence read inserts the message again as a duplicate. SyncCommon.MessagesKeepUrlsUnique, SyncScript.ScriptKeepsUrlsUnique, SyncRoute.RouteKeepsUrlsUnique and SyncScript.ResyncAddsNothing hold only under this assumption.
- The `.single()` existence check is modelled as "exactly one stored clip has this URL"; with unique URLs this is "a clip has this URL".
- TranscribeCommon.Candidates: a negative `limit` is treated as a failed query, because what the database does with a negative limit cannot be seen from this code.
- Clip ids in the tables are natural numbers from a counter. Ids in the views and the URL are text. The script's `--clip-id` filter compares the id's decimal text with the argument.
- A missing text field (`null` race name, `null` transcript) is read as the empty text wherever the source treats the two alike.
- Json.Parse: a `\u` escape of an unpaired surrogate cannot be a Dafny char and is treated as invalid JSON. JavaScript parses it; such a string names no category, so the source skips the clip with no failure, where the model counts a failure.
- Strings are sequences of Unicode characters. JavaScript counts UTF-16 code units, so `substring(0, 100)` and `.length` can differ on characters outside the Basic Multilingual Plane.
- Transcription.BatchTranscribe: the result object is a map; the key order of a JavaScript object is not kept.
- ClipCard.FormatDurationReadsBack: durations are whole seconds; fractional durations are not modelled.
- ClipCard.Card.HandleVote: the vote type is only "up" or "down"; any other stored value is not modelled. The refresh after the vote runs to completion before the next click (the asynchronous interleaving is not modelled), and the session user stays the same between the vote and the refresh, though the source reads the user again.
- AutoTag.MatchIds: category ids are never falsy, so the `.filter(Boolean)` on them drops only unknown names.
- The previous tagging check relies on `count` from a head query; a failed count query is a flag that lets the clip through, as `null` does in the source.
- The tag editor's category list (loaded and shown by name) and its rendering are not modelled; only the selection, the save and the navigation are.
- The search bar's pending indicator (`useTransition`) is not modelled.
- Deleting a clip does not cascade to its tag rows in the model; the cleanup script does not delete tags either.
- Repeated query keys are handled as `URLSearchParams` handles them; Next.js's own reading of repeated keys into page props is not modelled.
- The other files of the repository (the audio player, the header, the clips grid, the premium and transcription admin pages, the middleware and the other one-off scripts) are not part of this model.

## Findings

| source | as written | input that shows it | evidently intended | confidence | as-written member | corrected member |
|---|---|---|---|---|---|---|
| scripts/sync-openf1.ts:173-178 | `year && (isNaN(year) \|\| year < 2023 \|\| year > currentYear)`: a NaN year is falsy, so the check never rejects it. The sync then runs with no year filter, because the filter also tests the year for truthiness. | the argument "abc" (and likewise "0") | reject a year argument that is not a number from 2023 to the current year | not executed | SyncScript.NonNumericYearSyncsEverything | SyncScript.ScriptYear |
