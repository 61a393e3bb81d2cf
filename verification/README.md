# InWheel registry: a verified model

InWheel keeps a registry of places with accessibility profiles. OSM imports upsert places in batches;
other sources are matched against the places, and records without a match wait in a queue that every
import sweeps again; clients PATCH profiles concurrently, page through the places and search them by
name, behind a rate limiter. This project models that behaviour as a state machine over three tables
(`places`, `unmatched_external`, `accessibility_profiles`) with the matching, ingestion, PATCH and
listing code on top, and proves properties of all its runs.

`dafny verify dfyconfig.toml` checks everything.

How the modules build on each other:

- `models`, `normalization`, `scoring`, `matching`: how a record is scored against a place and decided.
- `registry`: the tables as a class whose methods are the repositories' statements, each proved equal to
  an effect on a state value. Properties are then proved about effects.
- `crowded_street`: a table on which the query's limit costs a match.
- `identity`, `queue_laws`, `runs`, `sweep_refinement`, `ledger`: resolving and sweeping; what one sweep
  conserves; what every run keeps; the incremental sweep against the full one; the history of attaches.
- `audit`, `profiles`: audit flags and inheritance on heap objects; the profile table and its writers.
- `ingestion`, `reimport`, `import_laws`, `pipelines`, `repeated_runs`: the batcher, what repeating an import
  does, why batches are invisible, the two ingestion pipelines end to end, and running one twice.
- `merge_patch`, `profile_json`, `patch_protocol`, `patch_rows`: RFC 7396 merging, the JSON form of a
  profile, and concurrent PATCHes as interleaved database steps.
- `paging`, `cursor`, `uuid`, `text_paging`: pages, the cursor text, the text of ids, and following the text.
- `name_search`, `rate_limiter`.

Distances, Unicode folding and letter tests are parameters of the model, so every theorem holds for all
of them (the distance only has to be non-negative; query distance and scoring distance may differ).
Failures are parameters too: any statement may fail, and a failed statement has no effect.

## What the code does, where that differs from what is said about it

- `UpsertBatch` overwrites `external_ids` on conflict (internal/place/repository.go:57-59), although
  internal/place/README.md says it does not touch that column. `Ledger.AttachedRefSurvivesReimportIff`
  says exactly when an attached ref survives, `Reimport.RepeatingErasesAttachments` that none does when
  the same import runs again.
- cmd/ingestion/README.md calls ingestion idempotent. After a whole run, import and error-free sweep, from
  a queue that matched nothing, running it again reproduces places and queue, apart from updated_at, match times
  and attempts, exactly when every item has an OSM id and every ref that the first sweep left on a place the
  import writes is one that the place's last item carries (`RepeatedRuns.RepeatedRunReproducesIff`).
  `RepeatedRuns.SecondRunLosesTheRef` is an input for which it does not. For the profiles the condition is
  `RepeatedRuns.RepeatedRunProfilesIff`.
- pkg/models/README.md says no handler assigns `user_verified`. Both handlers do
  (cmd/api/main.go:305, cmd/api/main.go:360): `Profiles.VerifiedIff`.
- internal/a11y/README.md says that an unknown field never triggers a flag. An unknown ramp does, on an
  entrance that is not level: `Audit.UnknownRaisesNothingIff`.
- The radius query's `LIMIT 32` can drop the best place: `CrowdedStreet.LimitCostsTheMatch` is a table on
  which it does. `Matching.LimitIsHarmlessIff` gives the exact condition; theorems that need it carry it as
  the hypothesis `Roomy`, or `|Within(..)| <= LIMIT`.
- A record resolved again can be attached while its old queue row still exists: "queued or attached" is
  what is proved, not one of the two only.

## Model

| member | source | states |
|---|---|---|
| Matching.QueryLosesNothing | internal/identity/matcher.go:21-49 | with at most 32 eligible places in reach, deciding among what the 50 m query returns gives the same place, band and confidence as scoring every active compatible place of the table, in the same order; and that is a place with the largest score of all, or NoMatch when none reaches the threshold |
| Matching.LimitIsHarmlessIff | internal/place/repository.go:68-93 | radius and limit lose nothing, for any names places and record may have (over text functions that tell two names apart) and any tie order, exactly when every eligible place that scoring sees within 45 m is in the query radius with at most 32 eligible places as near as it by the query's metric |
| Matching.LimitIsHarmlessWithin45 | internal/place/repository.go:68-93 | when both metrics are one, that is: exactly when at most 32 eligible places lie within 45 m |
| CrowdedStreet.LimitCostsTheMatch | internal/place/repository.go:77-88 | 33 cafes along a street: whatever the query returns, the decision is NoMatch, and with the one place it cut it is that place |
| Matching.NearPlacesAreAnswered | internal/place/repository.go:77-88 | ordering by distance before cutting at 32 keeps every eligible place of a reach that holds at most 32 |
| Matching.NoMatchMeans | internal/identity/matcher.go:27-48 | a NoMatch means that no candidate reaches the low-confidence threshold |
| Matching.FindCandidates | internal/place/repository.go:68-93 | the answer is sorted by distance, has no duplicates, holds only active compatible places within the radius, and is the nearest 32 of them |
| Matching.DecideAmong | internal/identity/matcher.go:27-48 | the decision is Confident exactly when the place it names scores 0.80 or more, LowConfidence exactly from 0.55 to below 0.80, and carries that score; it is the decision function of the other theorems |
| Matching.DecisionsAreBanded | internal/identity/matcher.go:41-48 | every decision among any places is banded by the score of the place it names: 0.80 and 0.55 |
| Matching.MatchesMean | internal/identity/matcher.go:27-48 | a Confident match lies within 20 m and shares a name token, a LowConfidence one lies within 45 m, and either is open and of a compatible category |
| Matching.EligibleMeans | internal/identity/compat.go:14-36 | a place is eligible exactly when it is neither closed nor removed and has the category of the record, or both are food places (cafe, restaurant, bar) |
| Matching.BestCandidate | internal/identity/matcher.go:31-39 | the loop finds the first candidate with the largest score |
| Scoring.ScoreIsAFraction | internal/identity/score.go:115-126 | every combined score lies in 0..1, with and without an address |
| Scoring.BandMeaning | internal/identity/score.go:14-42 | a confident score means a distance of at most 20 m and a shared name token, a low-confidence one at most 45 m |
| Scoring.BandRadius | internal/identity/score.go:118-126 | 20 m and 45 m are exact: up to there, and no farther, some name and address reach the threshold |
| Scoring.WhatMovesAScore | internal/identity/score.go:115-126 | with both addresses distance, name and address count 5 : 4 : 1 and sum to 1; without, the address weight goes to the others in proportion |
| Scoring.DistanceFallsLinearly | internal/identity/score.go:34-42 | 1 at the same point, one fiftieth less for each metre, 0 from 50 m on |
| Scoring.AddressMeaning | internal/identity/score.go:86-99 | 0.5 for the same street, 1 for the same house too, present exactly when both streets are, and symmetric |
| Scoring.JaccardMeaning | internal/identity/score.go:57-76 | the name score is 1 exactly on equal non-empty token sets and positive exactly when a token is shared |
| Scoring.NameScoreIsSymmetric | internal/identity/score.go:59-76 | the name score does not depend on which name is whose |
| Scoring.CountShared | internal/identity/score.go:65-71 | the counting loop finds the size of the intersection, and the union's size follows from it |
| Scoring.ComputeNameScore | internal/identity/score.go:59-76 | the loop form computes the Jaccard similarity of the token sets |
| Scoring.StreetsMatch | internal/identity/score.go:101-113 | the index loop decides equality of the normalized streets |
| Scoring.ScoreCandidate | internal/identity/matcher.go:53-60 | the imperative scoring computes the score function |
| Normalization.NormalizeText | internal/identity/normalize.go:32-65 | the two loops compute the normal form of a name |
| Normalization.TokensAreClean | internal/identity/normalize.go:40-64 | tokens are non-empty runs of letters and digits, none of them a business suffix |
| Normalization.WordsKeepTheLetters | internal/identity/normalize.go:40-50 | the words hold exactly the letters and digits of the text, in order |
| Normalization.SpellingDoesNotMatter | internal/identity/normalize.go:32-38 | names that fold to the same text have the same tokens |
| Normalization.NormalizeIsIdempotent | internal/identity/normalize.go:29-65 | normalizing the tokens of a name again gives the same tokens |
| Registry.ApplyKeepsValid | internal/db/migrations/000007_add_places_osm_unique_index.up.sql:1-3 | every statement keeps the unique OSM keys and the unique queue keys |
| Registry.SpotsAreKeptAll | internal/place/repository.go:95-123 | attaching, queueing, bumping and deleting change nothing that matching reads |
| Registry.Database.UpsertBatch | internal/place/repository.go:42-66 | all rows or none, in order, each onto the row its OSM key names or a new one, ids returned in order; refused exactly when the database fails or a key repeats in the batch |
| Registry.UpsertMeans | internal/place/repository.go:49-60 | column by column: the row with the item's OSM id, or a new one when there is none, shows the item; an existing row keeps its source and created_at; other rows stay |
| Registry.Database.AttachExternalRef | internal/place/repository.go:95-123 | one ref per source of one place is set, or nothing when the place is missing |
| Registry.Database.Enqueue | internal/unmatched/repository.go:32-59 | one row per source key: inserted, or refreshed with one attempt more |
| Registry.Database.BumpAttempts | internal/unmatched/repository.go:87-102 | one attempt more on one row, or an error when it is missing |
| Registry.Database.Delete | internal/unmatched/repository.go:105-117 | one row removed, or an error when it is missing |
| Registry.Database.FindCandidatesNearTouched | internal/unmatched/repository.go:64-84 | exactly the queue rows within the radius of some touched place, each once |
| Identity.Match | internal/identity/matcher.go:21-49 | the query's error, or the decision over its answer, banded by the score of the place it names |
| Identity.VerdictMeans | internal/identity/matcher.go:21-49 | a verdict names only an open, compatible place within 50 m, with its own score; Confident within 20 m with a shared name token, LowConfidence within 45 m |
| Identity.Resolve | internal/identity/resolve.go:38-82 | None exactly when the one statement on the path taken fails, and then nothing changes; a match of either band sets that ref of that place and leaves the queue; without a match the record's row is in the queue and the places stay |
| Identity.ResolveMeans | internal/identity/resolve.go:47-80 | the same for the effects that the run theorems speak of, for every decision and failure |
| Identity.Sweep | internal/identity/sweep.go:46-112 | over whatever order the rows come in, the tables and the counters are those of the per-row effects; only a failing row query is fatal |
| Identity.SweepRow | internal/identity/sweep.go:60-109 | a matched row is attached and then leaves the queue, an unmatched one gains an attempt, anything else is Failed and exactly then a statement failed; a row whose delete failed is attached and stays; no other row or place changes |
| Identity.SweepRowMeans | internal/identity/sweep.go:60-109 | the same for the effects that the sweep theorems speak of |
| Identity.RowEffectsAreLocal | internal/identity/sweep.go:77-109 | a row's effects leave every other queue row alone |
| QueueLaws.SweepConserves | internal/identity/sweep.go:58-111 | Considered is the sum of the four outcomes, the queue shrinks by exactly the matches, and each NoMatch row gains exactly one attempt |
| QueueLaws.CountersMean | internal/identity/sweep.go:58-111 | the counters are the numbers of rows matched to a place scoring 0.80 or more, to one from 0.55 to below 0.80, and to none |
| QueueLaws.SweepIsOrderIndependent | internal/identity/sweep.go:58-111 | with per-row failures fixed, any order of the rows gives the same counters and the same queue |
| QueueLaws.QueueKeepsTheSignal | internal/identity/resolve.go:57-77 | queueing keeps one row per key, all of whose columns are the newest record's, with one attempt more, leaves every other row alone, and the record rebuilt from it gets the original's decision over every table |
| QueueLaws.VerdictIgnoresOrigin | internal/identity/matcher.go:21-49 | a decision does not depend on source, source id or payload |
| Runs.RunKeepsValid | internal/unmatched/repository.go:32-59 | every run of resolves, batches and sweeps keeps the tables' constraints |
| Runs.QueueStaysQuiet | internal/identity/sweep.go:46-112 | in every run of error-free sweeps a queued record can match only a place written since it was last swept; after an import's sweep, none at all |
| Runs.SweepSettles | internal/unmatched/repository.go:61-84 | a sweep over only the rows near touched places settles the touched places for every row of the queue |
| Runs.ResolveKeepsQuiet | internal/identity/resolve.go:38-82 | resolving never queues a record that matches some place |
| SweepRefinement.IncrementalSweepIsFullSweep | internal/identity/sweep.go:46-112 | sweeping only rows near touched places leaves the same places and the same queue, attempts aside, as sweeping every row, and drains the same numbers |
| SweepRefinement.UntouchedRowsStayUnmatched | internal/unmatched/repository.go:61-84 | a row that the query skips would have been a NoMatch |
| Ledger.ResolvedRecordsAreNeverLost | internal/identity/resolve.go:47-80 | in every run, with any failures, each resolved record is still queued or has been attached since, by its resolve or by a sweep |
| Ledger.ResolvedRecordIsHereIff | internal/identity/resolve.go:47-80 | a resolved record's ref is on some place now exactly when a write of that ref has not been overwritten; if it is on none and not queued, an attach since its resolve was overwritten |
| Ledger.EveryRemovalFollowsItsAttach | internal/identity/sweep.go:84-93 | in every run a queue row is removed only straight after an attach of the very record it holds |
| Ledger.RemovalFollowsAttach | internal/identity/sweep.go:77-93 | the same within one sweep, over whatever order the rows come in |
| Ledger.RefInEveryRun | internal/place/repository.go:104-114 | after every run, for every place, there before or inserted by the run: its ref for a source is the latest attach since its last upsert, else the upserted value |
| Ledger.AttachedRefSurvivesReimportIff | internal/place/repository.go:57-59 | an attached ref survives an upsert of its place exactly when the upsert carries it |
| Audit.WithAuditFlags | internal/a11y/engine.go:63-83 | every component present gets, in place and in fixed order, exactly the flags of the questions its facts answer badly, and none when there is none; nothing else changes |
| Audit.FlagsTell | internal/a11y/engine.go:151-214 | all flags of all five components, both ways: a flag stands exactly when the question it is about has a bad answer |
| Audit.OneBadAnswerOneFlag | internal/a11y/engine.go:151-214 | turning one answer bad adds that question's flag and changes no other |
| Audit.WorseAnswersKeepFlags | internal/a11y/engine.go:151-214 | making any answer worse never drops a flag, making it better never raises one |
| Audit.NoFlagTwice | internal/a11y/engine.go:13-30 | no component carries a flag twice |
| Audit.UnknownRaisesNothingIff | internal/a11y/engine.go:151-164 | leaving answers out raises no flag unless it is the ramp of an entrance that is not level |
| Audit.ComputeEffectiveProfile | internal/a11y/engine.go:89-149 | the effective profile is made of fresh objects, and neither child nor parent is written |
| Audit.EffectiveProfileLaws | internal/a11y/engine.go:85-149 | a child's components win, the others are the parent's marked with its id, inheriting again changes nothing, and flags stay the components' own |
| Profiles.StoredFlagsAreHonest | cmd/api/main.go:301-309 | in every reachable table, and in what a reader is shown, a component's flags are those of its own facts |
| Profiles.CreateMeans | cmd/api/main.go:301-309 | a created row holds the submitted facts, submitter and time, verified exactly when it came so or with a key |
| Profiles.PatchMeans | cmd/api/main.go:356-363 | a patched row holds the merged facts, the key and time of the request, under its old identity |
| Profiles.IngestMeans | internal/place/repository.go:210-253 | an ingested row holds the source's facts unverified, an update naming no submitter; a verified row stays as it was |
| Profiles.WritesOneRow | internal/place/repository.go:147-203 | a write changes the row of its own place and no other |
| Profiles.VerifiedIff | cmd/api/main.go:356-363 | a profile is verified exactly when someone with an API key has written it; nothing takes that away |
| Profiles.VerifiedRowsIgnoreIngestion | internal/place/repository.go:217-234 | a verified row is, column by column, what it would be had no ingestion run |
| Profiles.IdentityIsKept | internal/place/repository.go:184-196 | no write changes the id or the place of a profile |
| Profiles.IngestingAgainIff | internal/place/repository.go:222-247 | ingesting the same profiles again changes only updated_at exactly when no profile that is the only one for a place without a row names a submitter |
| Profiles.ProfileTable.UpsertProfileIngestion | internal/place/repository.go:210-253 | inserts unverified, skips a verified row, else replaces all columns but the verification; written says which |
| Ingestion.Batcher.Sink | cmd/ingestion/batcher.go:28-35 | buffers the pair, and flushes when the batch is full |
| Ingestion.Batcher.FlushNow | cmd/ingestion/batcher.go:37-65 | a refused batch changes nothing; otherwise profiles are written in order up to the first failure, which keeps the buffer |
| Ingestion.Batcher.WriteProfiles | cmd/ingestion/batcher.go:45-61 | the loop touches the places in order and writes each profile under its own place |
| ImportLaws.ImportIsOneByOne | cmd/ingestion/batcher.go:28-65 | for every batch size a completed import leaves the tables of one-by-one upserts up to timestamps, has touched exactly their rows in order, and has written each profile once under its own row |
| ImportLaws.ImportSucceedsIff | cmd/ingestion/batcher.go:41-43 | an import completes exactly when no statement fails and no batch holds an OSM key twice |
| ImportLaws.SinkAllBuffers | cmd/ingestion/batcher.go:28-35 | while no error has occurred, flushed items followed by the buffer are the items handed over, and only full batches were flushed |
| ImportLaws.StoreAllMeaning | cmd/ingestion/batcher.go:45-61 | a pass without failure touches every place once and writes every profile once, in order |
| ImportLaws.WriteOfItem | cmd/ingestion/batcher.go:45-61 | the write of an item comes after those of the items before it, goes to that item's row and carries its profile |
| ImportLaws.FailedFlushMeans | cmd/ingestion/batcher.go:37-65 | a refused batch changes nothing; at a failing profile write the batch is in, the profiles before it are written, the places up to it are touched, and the buffer is kept |
| ImportLaws.CountWrittenMeans | cmd/ingestion/batcher.go:54-60 | the counter is the number of profile writes that found no verified row |
| ImportLaws.RepeatedImportReproducesIff | internal/place/repository.go:49-60 | two imports with no sweep in between, whatever the batch sizes: the second reproduces the tables, updated_at aside and created_at included, exactly when every item has an OSM id, and then touches the same rows |
| Reimport.RepeatingReproducesIff | internal/place/repository.go:49-60 | the same for one-by-one upserts |
| Reimport.TimesDoNotMatter | internal/place/repository.go:57-59 | when an import runs changes timestamps only |
| Reimport.RowsShowTheLastItem | internal/place/repository.go:49-60 | after an import every keyed item has its row, which shows the last item with its key |
| Reimport.IdsAreStable | internal/place/repository.go:42-66 | repeating an import returns the same id for every item with an OSM id, and an id that was never there for every other |
| Reimport.RepeatingErasesAttachments | internal/place/repository.go:57-59 | refs attached between two runs of the same import to places it writes are gone after the second, and nothing else but updated_at has changed |
| Pipelines.RunCanonical | cmd/ingestion/main.go:106-159 | upserts, profiles and one final sweep over exactly the touched places; a failed import sweeps nothing; the sweep's report is missing exactly when its row query fails, which is not fatal |
| Pipelines.ImportThenSweepSettles | cmd/ingestion/main.go:106-159 | if no queued record matched any place before, none does after an import and its error-free sweep, whether the sweep considered it or not |
| RepeatedRuns.RepeatedRunReproducesIff | cmd/ingestion/main.go:106-159 | running a whole import again, upserts and sweep, after a run from a queue that matched nothing whose sweep had no errors: places and queue are as they were, apart from updated_at, match times and attempts, exactly when every item has an OSM id and every ref the first sweep left on a place the import writes is one that the place's last item carries |
| RepeatedRuns.SecondRunLosesTheRef | internal/place/repository.go:57-59 | one keyed place without refs and one queued record that matches it: the second run erases the ref that the first run's sweep attached |
| RepeatedRuns.RepeatedRunProfilesIff | cmd/ingestion/main.go:114-117 | a second run goes to the same rows for items with an OSM id, and leaves the profiles as they were, updated_at aside, exactly when every profile comes with such an item and no profile that is the only one for a place without a row names a submitter |
| RepeatedRuns.SweptRef | internal/identity/sweep.go:78-88 | after a sweep without errors a place's ref for a source is that of the last row that matched it, else what it was |
| Pipelines.RunExternal | cmd/ingestion/main.go:161-184 | records are resolved in order, each in the state the earlier ones left, and a failing record stops nothing |
| Pipelines.EndMeans | cmd/ingestion/main.go:233-256 | an error is a failed statement on the record's path; otherwise the record is counted by the score of its match, 0.80 and 0.55, or as unmatched |
| Pipelines.CountersAreCounts | cmd/ingestion/main.go:233-256 | the four counters count the four ways a record ends, and add up to the records |
| MergePatch.PatchesComposeIff | internal/place/repository.go:162-165 | over all JSON documents, two patches are one patch exactly when the second never sets members inside what the first deletes or replaces |
| MergePatch.OrderIsIrrelevantIff | internal/place/repository.go:162-165 | over all JSON documents, the order of two patches is irrelevant exactly when they commute; disjoint keys do |
| MergePatch.RepeatingIsHarmless | internal/place/repository.go:127-135 | applying a patch again changes nothing |
| MergePatch.MergedMember | internal/place/repository.go:162-165 | RFC 7396 member by member: null deletes, objects recurse, what the patch omits stays |
| ProfileJson.DecodeEncode | pkg/models/accessibility.go:19-32 | every profile survives its JSON form |
| ProfileJson.PatchIsFieldwise | internal/place/repository.go:154-169 | encode, merge, decode is a field-by-field update of the profile: omitted keeps, null clears, objects recurse, type errors included |
| ProfileJson.OneFactPatch | internal/place/repository.go:154-169 | a PATCH of one answer applies exactly when the value is null or of the field's type, sets that answer and changes no other |
| ProfileJson.StoringBetweenPatches | internal/place/repository.go:154-169 | storing the row between two patches loses nothing that the second patch could see |
| ProfileJson.SuccessivePatchesAreOne | internal/place/repository.go:154-169 | any two successive patches of a stored profile are one patch that depends only on the two, if the first applies; type errors of the second included |
| ProfileJson.CommutingPatchesOnProfiles | internal/place/repository.go:154-169 | the order of two patches matters to no profile exactly when one of them fits none or they commute member by member of the schema; disjoint keys do |
| ProfileJson.CommutingDocuments | internal/place/repository.go:154-169 | patches that commute on all documents commute on all profiles |
| PatchProtocol.PatchesAreSerializable | internal/place/repository.go:127-205 | under every interleaving of clients with their own patches, keys and clocks, the row is the committed writes in commit order, each success is in it exactly once and was told its own result, `created` marks the first write of an absent row, and no client fails on the unique index |
| PatchProtocol.EveryClientFinishes | internal/place/repository.go:127-135 | no client takes more than five steps, and unless its transaction is aborted it is then answered by its inputs: two attempts are always enough |
| PatchProtocol.OutcomeIsDecided | internal/place/repository.go:127-205 | in every run without an abort of the client: not found exactly when the place is missing, refused exactly when the patch does not apply to the row that the commits before its last read left, otherwise it succeeds with its own log entry, after a lost insert race too |
| PatchProtocol.SomeoneCanMove | internal/place/repository.go:137-205 | while a client has not finished, some client can take a step: no deadlock |
| PatchProtocol.RowsAppearOnce | internal/place/repository.go:175-183 | once written, the row is there after every later write |
| PatchRows.EveryPatchUpdatesTheLatestRow | internal/place/repository.go:147-203 | each successful PATCH is a field-by-field update of exactly the row its predecessor in commit order left, stamped by its own attempt and submitted by its own client: nothing it read was stale |
| PatchRows.WhoIsServed | internal/place/repository.go:127-205 | whatever the others do, whether a client is served depends on the place and on whether its patch fits the profile type, and on nothing else |
| PatchRows.VerifiedIff | cmd/api/main.go:356-363 | however PATCHes and ingestion interleave, the profile is verified at the end exactly when it was at the start or a client with an API key has succeeded; that clients cannot change the flag follows from the merge |
| Paging.PageHoldsShownRows | cmd/api/main.go:248-282 | a page holds rows that the filter shows and that lie beyond the cursor, in (updated_at DESC, id ASC) order, skipping none; the next cursor is its last row and comes exactly when shown rows are left |
| Paging.WalkReturnsShownRows | cmd/api/main.go:248-282 | whatever is written between pages, every row a traversal returns was shown in the very request that returned it, beyond its cursor |
| Paging.UntouchedRowIsReturnedOnce | cmd/api/main.go:248-282 | whatever is written between pages, a completed traversal returns every matching row that was left untouched exactly once |
| Paging.NoPlaceIsReturnedTwice | cmd/api/main.go:248-282 | if updates carry later times than every earlier one, no place is returned twice |
| Paging.WholeTableIsTheShownRows | cmd/api/main.go:276-282 | on a fixed table a traversal ends and returns exactly the rows the filter shows, each once, newest first |
| Paging.WalkAscends | cmd/api/main.go:250-254 | what a traversal returns is strictly ordered across pages |
| Cursor.RoundTrip | internal/pagination/pagination.go:28-51 | decoding an encoded cursor gives the time truncated to microseconds and the id, exactly when the id is a UUID |
| Cursor.TruncateMeans | internal/pagination/pagination.go:29-29 | the time in a cursor is the latest whole microsecond not after the row's |
| Uuid.CursorsOfIdsAreAccepted | internal/pagination/pagination.go:28-51 | the cursor of any 128-bit id, printed as 8-4-4-4-12 hexadecimal digits, is accepted and gives back that id |
| TextPaging.EncodedCursorsWalkTheSamePages | cmd/api/main.go:250-281 | a client that follows the encoded next_cursor text walks exactly the pages of the keys, whatever is written in between: for stored keys the truncation to microseconds loses nothing |
| Cursor.ParseFormat | internal/pagination/pagination.go:29-43 | RFC 3339 text with trailing zeros dropped parses back to the same instant |
| Cursor.WrittenTimestamp | internal/pagination/pagination.go:29-30 | the text of a time: four digits of the year and two of each other field in order, and a fraction left out exactly when zero and never ending in 0 |
| Cursor.Decode64Encode64 | internal/pagination/pagination.go:30-35 | unpadded base64url decodes to the bytes that were encoded |
| Cursor.WrittenBase64 | internal/pagination/pagination.go:30-30 | test vectors of section 10 of RFC 4648 without padding, and the letters - and _ of its section 5 |
| NameSearch.SearchFindsExactlySubstrings | cmd/api/main.go:221-224 | a name matches the pattern exactly when the query occurs in it, up to case folding, with wildcards and backslashes taken literally |
| NameSearch.EscapedIsLiteral | cmd/api/main.go:221-224 | an escaped pattern followed by % matches exactly the texts that start with the query |
| NameSearch.UnderscoresCount | cmd/api/main.go:221-224 | unescaped, n underscores match exactly the texts of length n: escaping is needed |
| RateLimiting.RateLimiter.Allow | internal/middleware/middleware.go:74-80 | takes a token from the key's bucket, a full one for an unknown key, and leaves other keys alone |
| RateLimiting.RateLimiter.Sweep | internal/middleware/middleware.go:55-62 | visits every entry and removes exactly the full buckets: one eviction step after another, in the sense of EvictionIsUnobservable |
| RateLimiting.EvictionIsUnobservable | internal/middleware/middleware.go:55-80 | over every timed sequence of requests and evictions each answer is that of a limiter that never evicts |
| RateLimiting.SweepIsUnobservable | internal/middleware/middleware.go:54-62 | a whole sweep at any moment of any run changes no answer before or after it |
| RateLimiting.WindowBound | internal/middleware/middleware.go:74-80 | in any window of length T a key is allowed at most burst + rate * T times, evictions included |
| RateLimiting.DeniedIff | internal/middleware/middleware.go:73-80 | in every run a request is denied exactly when allowing it would give its key more than burst + rate * T requests in some window of length T that ends with it: the limit is never exceeded and never applied early |
| RateLimiting.RetryAfterIsHonoured | internal/middleware/middleware.go:64-80 | a key that makes no request for RetryAfterSeconds or longer is then allowed |
| RateLimiting.RetryAfterIsLeast | internal/middleware/middleware.go:64-71 | no smaller whole number of seconds would do |
| RateLimiting.NoRefillNoWait | internal/middleware/middleware.go:66-69 | the wait is zero exactly when there is no refill |

## Left out

- Floating-point rounding: scores, distances and token counts are exact reals, compared exactly.
- Trigonometry and PostGIS: `haversine` and `geography` are arbitrary distance functions; that they agree within 5 m is the hypothesis `Reaches`.
- Unicode folding, case folding and letter classes: parameters; `NormalizeIsIdempotent` and the search theorem say what they need of them.
- SQL, GORM, HTTP, OpenAPI validation, authentication, CORS, logging, the audit log, API keys and PBF reading: not modelled.
- Tag mapping, rank derivation, place columns that neither matching nor upserting reads (geometry, parent_id, submitted_by): would only add easy members.
- `golang.org/x/time/rate`, the merge-patch library, `encoding/json`, `time` and `encoding/base64` are modelled from their documented behaviour; their code is not part of this model.
- Transactions other than UpsertProfile, and a whole sweep with respect to other processes, are atomic: UpsertProfileIngestion reads without a lock, and the limiter's check-then-delete could interleave with a request.
- Lost acknowledgements: a statement reported as failed has had no effect.
- Clock readings are one per row or batch; the order of the rows a sweep gets is arbitrary but fixed for a theorem.
- Ties in distance are broken by id where the database leaves them open; `Matching.QueryLosesNothing` and `Matching.LimitIsHarmlessIff` hold for every way to break them.
- CreatePlace adds a place without a sweep, so it is not an event of the queue runs; its profile is a write of the profile runs.
- The submitted profile object that UpsertProfileIngestion also stamps in place is modelled as a value.
- UpsertProfile attempts that fail for other reasons than the unique index are the step Abort; patches that set id, place_id or user_verified are rejected before (readOnly in api/openapi.yaml).
- JSON beyond the profile's schema: case-insensitive keys, elements of source_reports, null array elements and the text of timestamps.
- Decode: cursors with a numeric UTC offset, which Encode never writes, are not accepted by the model.
- flushNow's branches for a place without an id and for a batcher without a profile writer: runCanonical never reaches them once a batch is written.
- The profile is modelled at two levels that are not linked by a function: its JSON form (`profile_json`, `patch_rows`) and its components' facts (`audit`, `profiles`), where a PATCH is any function of the stored profile that keeps user_verified; that a merge keeps it is proved in `patch_rows`.
- The calendar: `text_paging` takes functions between times and civil times that agree on the stored keys.
- The error of decoding merged JSON (internal/place/repository.go:166-168) and `ErrInvalidPatch` are one outcome, InvalidPatch; the handler answers them with 500 and 400.
- Audit: the component structs are their flag-raising facts plus an uninterpreted rest; the slots of a profile are a map from slot to object.
- Geographic filters of ListPlaces: a table stands for the rows that pass the filter.
