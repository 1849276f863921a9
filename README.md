# media-follower ingestion core, modelled in Dafny

media-follower tracks releases: iTunes music releases of followed
artists, Blu-ray.com physical releases by country, and free Steam
promotions. This project models its ingestion core and proves what that
core promises. The core covers:

- **The polling jobs.** There are four of them: `fetch-outputs`, `sync-inputs`, and the legacy
  `sync-releases` and `sync-release-sources`. Each job is a class whose `Execute` method runs
  the source's `for` loop over the rows of one provider. Before each row it checks the
  abort signal. Then it fetches, writes, logs a failure and moves on, and pauses only
  between rows. It ends with one WAL checkpoint. Each loop is proved against a
  specification function, `JobSupport.Steps`, that folds one step function over the rows.
  Lemmas about the steps state the rest:
  - pacing;
  - one failure per row;
  - what each step writes;
  - the all-or-nothing transaction;
  - that nothing else changes.
- **The database gateway `CustomDatabase`.** It is a class over the four tables, modelled as
  maps keyed by their primary keys. It has:
  - the statement cache (a `map` field);
  - the placeholder expansion of the `sql` template;
  - eviction on error;
  - `transaction`;
  - `close`;
  - dispose.
- **JSON and merge patch.** Stored `raw` values are structured JSON with ordered members.
  `jsonb_patch` is JSON Merge Patch as section 2 of RFC 7396 defines it. It is proved
  idempotent and proved to keep members the patch omits.
- **A subset of zod.** Object schemas are data (`Schema.Field`). One parse function checks
  them, normalises them and strips unknown members. Parsing its own output is proved to give
  it back.
- **The providers and the legacy services and mappers.** These cover iTunes, Blu-ray.com and
  Steam:
  - curation filters;
  - identifier derivation;
  - the patch mapper that drops `releaseDate`;
  - the rewrite of artist-image URLs;
  - link and artwork derivation;
  - output order;
  - the round trips through the stored rows;
  - the provider factory.
- **The `gen-db-types` command.** This covers the SQLite to TypeScript type mapping, the column
  lines, the grouping of imports and the generated file text.
- **The RSS feed app's `fetch`.** This covers the `provider` query and the choice of feed
  format from the `Accept` header.

Oracles are parameters. These include remote answers, HTML extraction, URL and date
validation, the clock, random UUIDs and the wire values of the enumerations. The model
computes everything the core decides from them.

## Model

| member | source | states |
|---|---|---|
| JobSupport.Started | src/entrypoints/jobs/fetch-outputs/app.ts:36-37 | the loop starts exactly the items before the first one whose abort check finds the signal aborted: none of them is aborted, and the one after them is |
| JobSupport.DelaysCount | src/entrypoints/jobs/fetch-outputs/app.ts:15-19 | a run that stops early paused after every item it ran; a run over all n items paused n-1 times, never after the last; always fewer pauses than items |
| JobSupport.StepsDelays | src/entrypoints/jobs/fetch-outputs/app.ts:47-92 | a run whose step pauses as `delayIf(() => index < n - 1)` pauses `Delays(k, n)` times over k items |
| JobSupport.StepsFailures | src/entrypoints/jobs/fetch-outputs/app.ts:83-93 | the error log only grows; each new entry names a processed item; at most one entry per item |
| JobSupport.StepsStatements | src/entrypoints/jobs/fetch-outputs/app.ts:63-97 | while the loop runs, only begin/commit/rollback are issued, so the checkpoint after it is the only checkpoint |
| FetchOutputsJob.Upserts | src/entrypoints/jobs/fetch-outputs/app.ts:55-61 | one full row and one patch row per fetched item, in order; throws, with the missing-capability error, exactly when there are items and the provider has no `fromOutputToJsonPatchPersistance` |
| FetchOutputsJob.AttemptInput | src/entrypoints/jobs/fetch-outputs/app.ts:42-61 | an input gives a batch exactly when it maps back, its fetch succeeds with items and the patch mapper exists; nothing to do exactly when the fetch returns no item; a batch is all output upserts and is non-empty |
| FetchOutputsJob.Process | src/entrypoints/jobs/fetch-outputs/app.ts:39-93 | processing one input never pauses by itself: the pause belongs to the step |
| FetchOutputsJob.App.constructor | src/entrypoints/jobs/fetch-outputs/app.ts:24-26 | the job keeps the gateway, the provider and the signal it is given |
| FetchOutputsJob.App.Execute | src/entrypoints/jobs/fetch-outputs/app.ts:28-98 | aborted at start: nothing read, nothing written, no checkpoint; initial select failing: error, nothing written; otherwise the tables, issued statements, log and pauses are those of the steps over the provider's inputs in query order, cut at the first aborted check, followed by one checkpoint |
| FetchOutputsJob.App.ProcessInput | src/entrypoints/jobs/fetch-outputs/app.ts:39-93 | the `try` body for one input changes the tables, statements and log exactly as the step function says |
| FetchOutputsJob.StepsOutputsOnly | src/entrypoints/jobs/fetch-outputs/app.ts:63-75 | the job writes only the outputs table |
| FetchOutputsJob.StepsKeys | src/entrypoints/jobs/fetch-outputs/app.ts:63-75 | no output row is ever removed, and every key a run adds was made by the output mapper from a processed input |
| FetchOutputsJob.StepKeys | src/entrypoints/jobs/fetch-outputs/app.ts:63-75 | one input's step keeps every stored key and adds only keys mapped from that input's items |
| FetchOutputsJob.StepOfShape | src/entrypoints/jobs/fetch-outputs/app.ts:39-93 | the step pauses after every input but the last, logs at most one failure naming its input, and issues at most one transaction, committed or rolled back |
| FetchOutputsJob.StepAllOrNone | src/entrypoints/jobs/fetch-outputs/app.ts:63-75 | one input's upserts are applied all or none; an empty fetch result changes nothing |
| FetchOutputsJob.NoPatchMapperStoresNothing | src/entrypoints/jobs/fetch-outputs/app.ts:55-61 | a provider without a patch mapper never gets an output stored and never opens a transaction |
| FetchOutputsJob.BlurayOutputsNeverStored | src/entrypoints/jobs/fetch-outputs/app.ts:57-60 | the Blu-ray provider as written: whatever its inputs fetch, the job leaves every table as it was |
| FetchOutputsJob.BlurayFixedStores | src/entrypoints/jobs/fetch-outputs/app.ts:55-75 | with the full row as patch row, a Blu-ray input with items gets one upsert per item, and a committed batch is applied |
| SyncInputsJob.Process | src/entrypoints/jobs/sync-inputs/app.ts:37-80 | processing one input never pauses by itself: the pause belongs to the step |
| SyncInputsJob.App.constructor | src/entrypoints/jobs/sync-inputs/app.ts:24-26 | the job keeps the gateway, the provider and the signal it is given |
| SyncInputsJob.App.Execute | src/entrypoints/jobs/sync-inputs/app.ts:28-85 | aborted at start: nothing read or written; otherwise the tables, statements, log and pauses are those of the steps over the provider's inputs, cut at the first aborted check, then one checkpoint |
| SyncInputsJob.App.ProcessInput | src/entrypoints/jobs/sync-inputs/app.ts:42-62 | the `try` body for one input: re-fetch, map and update `raw` by id, exactly as the step function says |
| SyncInputsJob.StepOfShape | src/entrypoints/jobs/sync-inputs/app.ts:36-80 | the step pauses after every input but the last, logs at most one failure naming its input, and runs no transaction |
| SyncInputsJob.StepsNoStatements | src/entrypoints/jobs/sync-inputs/app.ts:36-84 | the loop issues no control statement, so the checkpoint is the only one |
| SyncInputsJob.StepsKeepsRows | src/entrypoints/jobs/sync-inputs/app.ts:58-62 | only `raw` of the inputs table changes: same rows, same order, same ids and providers; the other tables are untouched |
| SyncInputsJob.StepsUntouched | src/entrypoints/jobs/sync-inputs/app.ts:36-62 | an input whose id is not that of a processed input keeps its row: inputs after the abort are untouched |
| SyncInputsJob.StepOverwrites | src/entrypoints/jobs/sync-inputs/app.ts:46-62 | a successful re-fetch replaces `raw` wholesale, not merged, in every row with the input's id; nothing fetched or a failure changes no table |
| SyncReleasesJob.Inserts | src/entrypoints/jobs/sync-releases/app.ts:64-76 | one release upsert per fetched release, carrying that release, in order |
| SyncReleasesJob.Process | src/entrypoints/jobs/sync-releases/app.ts:47-94 | processing one source never pauses by itself: the pause belongs to the step |
| SyncReleasesJob.App.constructor | src/entrypoints/jobs/sync-releases/app.ts:32-34 | the job keeps the gateway, the provider, the service and the signal it is given |
| SyncReleasesJob.App.Execute | src/entrypoints/jobs/sync-releases/app.ts:36-99 | aborted at start: the fetcher is never called and nothing is written; otherwise the result is that of the steps over the provider's sources, cut at the first aborted check, then one checkpoint |
| SyncReleasesJob.App.ProcessSource | src/entrypoints/jobs/sync-releases/app.ts:47-94 | the `try` body for one source: fetch and commit the releases in one transaction, exactly as the step function says |
| SyncReleasesJob.StepOfShape | src/entrypoints/jobs/sync-releases/app.ts:44-95 | the step pauses after every source but the last, logs at most one failure naming its source, and issues at most one transaction |
| SyncReleasesJob.StepsReleasesOnly | src/entrypoints/jobs/sync-releases/app.ts:64-76 | the job writes only the releases table |
| SyncReleasesJob.SourceStored | src/entrypoints/jobs/sync-releases/app.ts:64-76 | after a committed batch each fetched release is stored under its key with its own raw, fully replaced, unless a later release of the batch has the same key |
| SyncReleasesJob.SourceFrame | src/entrypoints/jobs/sync-releases/app.ts:64-76 | a committed batch leaves every release it did not fetch exactly as it was, or absent |
| SyncReleasesJob.SourceSkipped | src/entrypoints/jobs/sync-releases/app.ts:52-94 | a source whose fetch throws or returns nothing changes no table and runs no statement; a throw is logged once, with that source |
| SyncReleaseSourcesJob.Process | src/entrypoints/jobs/sync-release-sources/app.ts:42-82 | processing one source never pauses by itself: the pause belongs to the step |
| SyncReleaseSourcesJob.App.constructor | src/entrypoints/jobs/sync-release-sources/app.ts:29-31 | the job keeps the gateway, the provider, the service and the signal it is given |
| SyncReleaseSourcesJob.App.Execute | src/entrypoints/jobs/sync-release-sources/app.ts:33-87 | aborted at start: the fetcher is never called and nothing is written; otherwise the result is that of the steps over the provider's sources, cut at the first aborted check, then one checkpoint |
| SyncReleaseSourcesJob.App.ProcessSource | src/entrypoints/jobs/sync-release-sources/app.ts:47-64 | the `try` body for one source: the fetcher gets the stored row; a row that comes back overwrites `raw` by id, exactly as the step function says |
| SyncReleaseSourcesJob.StepOfShape | src/entrypoints/jobs/sync-release-sources/app.ts:41-83 | the step pauses after every source but the last, logs at most one failure naming its source, and runs no transaction |
| SyncReleaseSourcesJob.StepsNoStatements | src/entrypoints/jobs/sync-release-sources/app.ts:41-86 | the loop issues no control statement, so the checkpoint is the only one |
| SyncReleaseSourcesJob.StepsKeepsRows | src/entrypoints/jobs/sync-release-sources/app.ts:60-64 | only `raw` of the release sources changes: same rows, same ids and providers; the other tables are untouched |
| SyncReleaseSourcesJob.StepsUntouched | src/entrypoints/jobs/sync-release-sources/app.ts:41-64 | a source whose id is not that of a processed source keeps its row |
| SyncReleaseSourcesJob.StepOverwrites | src/entrypoints/jobs/sync-release-sources/app.ts:52-64 | a fetched row replaces `raw` of every stored source with that id, keeping id and provider; nothing fetched or a failure changes no table |
| Database.TrimKeepsMarks | src/common/database/mod.ts:45-56 | trimming the expanded text never removes a `?` |
| Database.MarksCount | src/common/database/mod.ts:51-53 | the comma-joined marks for an array of k values hold exactly k placeholders |
| Database.PlaceholderMarks | src/common/database/mod.ts:47-55 | each parameter gets as many `?` as it binds values: one for a scalar, none for an empty array, one per element otherwise |
| Database.ExpandMarks | src/common/database/mod.ts:45-56 | the reduce yields the segments' own `?` plus one per value bound by the parameters that have a segment before them |
| Database.PlaceholdersMatchBound | src/common/database/mod.ts:45-60 | for a tagged template (one more segment than parameters) the prepared text's placeholders beyond the segments' own match the flattened values one for one |
| Database.CustomDatabase.constructor | src/common/database/mod.ts:8-17 | a new gateway is open with an empty cache and has run the six pragmas in order |
| Database.CustomDatabase.Compile | src/common/database/mod.ts:21 | compiling succeeds exactly on an open database whose engine accepts the text, giving a fresh statement for that text |
| Database.CustomDatabase.Prepare | src/common/database/mod.ts:19-25 | without the cache a fresh statement and the cache untouched; with it, the cached statement for that text, or a new one cached before it is returned; the statement is always for the requested text; the cache stays consistent |
| Database.CustomDatabase.Sql | src/common/database/mod.ts:41-65 | the bound values are the flattened parameters; the query succeeds exactly when its text is cached or compiles and running it succeeds; a failure evicts that text and only it; a success caches it and changes no other entry |
| Database.CustomDatabase.RunCached | src/common/database/mod.ts:58-64 | the `try`/`catch`: success returns the engine's rows with the text cached; any throw evicts exactly that text |
| Database.CustomDatabase.Transaction | src/common/database/mod.ts:27-39 | on an open database: `begin immediate`, then `commit` with every write applied in order exactly when no write throws, else `rollback` with the tables as they were at `begin`; a closed database changes nothing |
| Database.CustomDatabase.UpdateInputRaw | src/entrypoints/jobs/sync-inputs/app.ts:58-62 | succeeds exactly when the database is open and the statement does not fail; then `raw` of every input with the id is replaced and nothing else changes |
| Database.CustomDatabase.UpdateSourceRaw | src/entrypoints/jobs/sync-release-sources/app.ts:60-64 | the same for release sources |
| Database.CustomDatabase.Checkpoint | src/entrypoints/jobs/fetch-outputs/app.ts:97 | the WAL checkpoint is recorded and the tables are left as they are |
| Database.CustomDatabase.Close | src/common/database/mod.ts:72-76 | closing an open database closes it and clears the cache; closing a closed one throws and changes nothing |
| Database.CustomDatabase.Dispose | src/common/database/mod.ts:78-82 | `pragma optimize` runs before the close; a closed database throws and changes nothing |
| Rows.InputsOfSelects | src/entrypoints/jobs/fetch-outputs/app.ts:31-34 | the select returns only rows of the provider, and every stored row of the provider |
| Rows.SourcesOfSelects | src/entrypoints/jobs/sync-releases/app.ts:39-42 | the same for release sources |
| Rows.UpsertOutput | src/entrypoints/jobs/fetch-outputs/app.ts:65-73 | the key set gains the row's key; other keys are untouched; a new key stores the full raw; an existing one gets the patch merged into its stored raw |
| Rows.UpsertOutputTwice | src/entrypoints/jobs/fetch-outputs/app.ts:65-73 | upserting the same item twice is upserting it once, when the patch is well formed and absorbed by the full row |
| Rows.UpdateInputRaw | src/entrypoints/jobs/sync-inputs/app.ts:58-62 | same rows in the same order with the same ids and providers; `raw` replaced exactly in the rows with the id, whatever their provider |
| Rows.UpdateSourceRaw | src/entrypoints/jobs/sync-release-sources/app.ts:60-64 | the same for release sources |
| Rows.UpsertRelease | src/entrypoints/jobs/sync-releases/app.ts:66-74 | the key set gains the row's key; other keys are untouched; the key holds the new raw, and `releasedAt` is kept from the stored release if there was one |
| Rows.ApplyAllOutputsOnly | src/entrypoints/jobs/fetch-outputs/app.ts:63-75 | a batch of output upserts leaves inputs, sources and releases unchanged |
| Rows.ApplyAllReleasesOnly | src/entrypoints/jobs/sync-releases/app.ts:64-76 | a batch of release upserts leaves inputs, sources and outputs unchanged |
| Rows.ApplyAllKeys | src/entrypoints/jobs/fetch-outputs/app.ts:63-75 | a batch never drops an output and adds exactly the keys of its full rows |
| Rows.ApplyAllFrame | src/entrypoints/jobs/fetch-outputs/app.ts:63-75 | an output key the batch does not write keeps its stored value, or stays absent |
| Rows.ApplyReleasesFrame | src/entrypoints/jobs/sync-releases/app.ts:64-76 | a release key the batch does not write keeps its stored columns, or stays absent |
| Rows.ApplyReleasesLastWins | src/entrypoints/jobs/sync-releases/app.ts:64-76 | a release written by the batch is stored with the raw of the last write of its key |
| Json.Get | src/common/providers/itunes-music-releases/provider.ts:117 | a key is found exactly when some member has it, and what is found is a member of the object |
| Json.Put | src/common/providers/itunes-music-releases/provider.ts:120-123 | the key holds the new value, every other key reads as before, and no member other than the new one appears |
| Json.Remove | src/common/providers/itunes-music-releases/provider.ts:328 | the key is gone, every other key reads as before, members keep their order, unique keys stay unique |
| Json.MergePatch | src/entrypoints/jobs/fetch-outputs/app.ts:72 | a non-object patch replaces the target; an object patch yields an object |
| Json.MergeFrame | src/entrypoints/jobs/fetch-outputs/app.ts:72 | a member name the patch lacks keeps its target value |
| Json.MergeAt | src/entrypoints/jobs/fetch-outputs/app.ts:72 | a name the patch has is deleted by `null` and otherwise holds the target's value patched recursively |
| Json.MergeOverwrites | src/entrypoints/jobs/fetch-outputs/app.ts:72 | a non-null patch member leaves its name holding the merged value |
| Json.MergeDeletes | src/entrypoints/jobs/fetch-outputs/app.ts:72 | a `null` patch member deletes its name |
| Json.MergeKeeps | src/entrypoints/jobs/fetch-outputs/app.ts:72 | a name the patch does not mention keeps the value the target has |
| Json.MergeSettled | src/entrypoints/jobs/fetch-outputs/app.ts:72 | a target that already agrees with every patch member is left unchanged |
| Json.MergePatchIdempotent | src/entrypoints/jobs/fetch-outputs/app.ts:72 | applying the same well-formed patch twice is applying it once |
| Json.MergePatchSelf | src/entrypoints/jobs/fetch-outputs/app.ts:72 | a well-formed null-free value patched onto itself stays itself |
| Json.MergeSubset | src/entrypoints/jobs/fetch-outputs/app.ts:72 | patching with a selection of the target's own members changes nothing |
| Json.RemoveAbsorbed | src/common/providers/itunes-music-releases/provider.ts:328 | the item without one member is a well-formed patch that leaves the full item unchanged |
| Json.MergePatchWellFormed | src/entrypoints/jobs/fetch-outputs/app.ts:72 | merging well-formed values gives a well-formed value |
| Interfaces.With | src/common/providers/itunes-music-releases/provider.ts:120-123 | the spread with one member set: that key holds the value, every other key reads as in the original |
| Interfaces.IdRoundTrip | src/common/providers/itunes-music-releases/provider.ts:304 | a numeric id rendered with `String` reads back as the same number |
| ItunesRules.UsableRelease | src/common/services/itunes-service.ts:31-47 | throws exactly on `null`; otherwise keeps an item exactly when it is neither a compilation nor a DJ mix |
| ItunesRules.UsableOutput | src/common/providers/itunes-music-releases/provider.ts:67-85 | throws exactly on `null`; otherwise keeps an item exactly when it is neither a compilation nor a DJ mix and is streamable |
| ItunesRules.UsableOutputRefinesRelease | src/common/providers/itunes-music-releases/provider.ts:67-85 | the provider keeps exactly what the legacy service keeps and can be streamed; for collections the two filters agree |
| ItunesRules.ReleaseIdNumber | src/common/providers/itunes-music-releases/provider.ts:333-338 | the row id reads back as the collection or track number, and two releases get the same row id exactly when those numbers are equal |
| ItunesRules.ReadHead | src/common/providers/itunes-music-releases/provider.ts:37-45 | the text read is the prefix of the chunks up to the first one after which the head is complete, or all of them; no shorter prefix was complete |
| ItunesRules.ResolveArtistImage | src/common/providers/itunes-music-releases/provider.ts:51-64 | nothing exactly when there is no URL, it is empty or it is Apple Music's generic picture; otherwise the URL up to its last `/` followed by `256x256.` and the extension |
| ItunesRules.ResolveReplacesLastSegment | src/common/providers/itunes-music-releases/provider.ts:55-64 | split on `/`, the new URL has the old segments except the last, which is `256x256.` and the extension |
| ItunesRules.NewNameSlashFree | src/common/providers/itunes-music-releases/provider.ts:56-62 | the new last segment has no `/`, so the rewrite adds no segment |
| ItunesRules.LookupArtist | src/common/providers/itunes-music-releases/provider.ts:103-124 | a failed lookup throws; no first result, or a falsy one, gives nothing; a found artist is the first result parsed, given the picture or the placeholder, and parsed again |
| ItunesProvider.InputSchemaOk | src/common/providers/itunes-music-releases/types.ts:3-18 | the artist schema and its extension with `extra` are well-formed: distinct member names, valid kinds |
| ItunesProvider.AlbumSchemaOk | src/common/providers/itunes-music-releases/types.ts:28-53 | the album schema is well-formed |
| ItunesProvider.SongSchemaOk | src/common/providers/itunes-music-releases/types.ts:59-97 | the song schema is well-formed |
| ItunesProvider.EntitySchemaOk | src/common/providers/itunes-music-releases/types.ts:28-97 | each entity's schema is well-formed and begins with its `wrapperType` literal |
| ItunesProvider.ParsedWrapperType | src/common/providers/itunes-music-releases/types.ts:29-60 | a parsed song is a track and not a collection; a parsed album is a collection and not a track |
| ItunesProvider.LookupInputImage | src/common/providers/itunes-music-releases/provider.ts:115-123 | a found artist's `extra` is exactly `{artistImage}`, holding the resized page picture or the placeholder |
| ItunesProvider.ExtraParse | src/common/providers/itunes-music-releases/types.ts:17 | the `extra` object built from a picture URL is accepted unchanged or refused |
| ItunesProvider.FetchInput | src/common/providers/itunes-music-releases/provider.ts:126-135 | a stored row that does not parse throws; a result is the lookup of the row's `artistId`; a lookup that finds nothing throws the not-found error |
| ItunesProvider.DropFirst | src/common/providers/itunes-music-releases/provider.ts:154 | the first result, the artist, is removed; an empty list stays empty |
| ItunesProvider.LatestReleases | src/common/providers/itunes-music-releases/provider.ts:137-168 | a result means the lookup succeeded and is, element by element, the parse of the usable results after the first |
| ItunesProvider.LatestReleasesSound | src/common/providers/itunes-music-releases/provider.ts:153-167 | every release comes from a usable lookup result other than the first, of which it is the parse |
| ItunesProvider.LatestReleasesShape | src/common/providers/itunes-music-releases/provider.ts:159-166 | a song lookup yields tracks and an album lookup collections |
| ItunesProvider.LatestReleasesAllShape | src/common/providers/itunes-music-releases/provider.ts:156-167 | all releases of a song lookup are tracks, all of an album lookup collections |
| ItunesProvider.FetchOutputs | src/common/providers/itunes-music-releases/provider.ts:170-185 | a result is the songs of the artist followed by the albums; either lookup failing fails the fetch |
| ItunesProvider.FetchOutputsSongsThenAlbums | src/common/providers/itunes-music-releases/provider.ts:170-185 | the fetched outputs are tracks up to the number of songs, and collections after it |
| ItunesProvider.ConcatShape | src/common/providers/itunes-music-releases/provider.ts:184 | concatenating tracks and collections keeps tracks first and collections after |
| ItunesProvider.FromInputToPersistence | src/common/providers/itunes-music-releases/provider.ts:302-308 | the input row carries the item, the iTunes tag and `String(artistId)` as id |
| ItunesProvider.InputRoundTrip | src/common/providers/itunes-music-releases/provider.ts:302-314 | a looked-up artist survives a store and a read, and its row id reads back as its `artistId` |
| ItunesProvider.FromOutputToPersistence | src/common/providers/itunes-music-releases/provider.ts:332-343 | the output row takes `input_id` and provider from the input row, the id from the item |
| ItunesProvider.FromOutputToJsonPatchPersistance | src/common/providers/itunes-music-releases/provider.ts:316-330 | the patch row has the full row's key and holds every member of the item except `releaseDate` |
| ItunesProvider.OutputRoundTrip | src/common/providers/itunes-music-releases/provider.ts:332-353 | a fetched song or album survives a store and a read |
| ItunesProvider.PatchAbsorbed | src/common/providers/itunes-music-releases/provider.ts:316-343 | the patch is well formed and already contained in the full raw: patching a freshly inserted row changes nothing |
| ItunesProvider.ReingestKeepsReleaseDate | src/common/providers/itunes-music-releases/provider.ts:328 | re-ingesting a stored output keeps its stored `releaseDate` and merges every other non-null member of the item |
| ItunesProvider.Mapper | src/common/providers/itunes-music-releases/provider.ts:101 | the provider is tagged iTunes and has a patch mapper |
| ItunesProvider.FeedItemIdParts | src/common/providers/itunes-music-releases/provider.ts:271-275 | splitting a feed item id on `@` gives back the provider tag, `album` or `song`, and the row id |
| ItunesProvider.FeedImageKeepsDirectory | src/common/providers/itunes-music-releases/provider.ts:276-281 | the feed image is the artwork URL up to its last `/`, followed by `512x512bb.jpg` |
| ItunesService.ArtistSchemaOk | src/common/services/service.ts:5-19 | the artist schema and its extension with `extra` are well-formed, `extra` being the last member |
| ItunesService.AlbumNamesAsProvider | src/common/services/service.ts:29-54 | the legacy album schema names the same members as the provider's, in the same order |
| ItunesService.SongNamesAsProvider | src/common/services/service.ts:73-111 | the legacy song schema names the same members as the provider's, in the same order |
| ItunesService.AlbumSchemaOk | src/common/services/service.ts:29-54 | the legacy album schema is well-formed |
| ItunesService.SongSchemaOk | src/common/services/service.ts:73-111 | the legacy song schema is well-formed |
| ItunesService.WithExtraSchemaOk | src/common/services/service.ts:60-67 | the extended schemas are well-formed: the entity's members, then `extra` |
| ItunesService.ExtraParse | src/common/services/itunes-service.ts:193-205 | the `extra` the lookup writes is exactly what its schema accepts and returns |
| ItunesService.ToRelease | src/common/services/itunes-service.ts:188-208 | a lookup result that does not parse as the entity fails |
| ItunesService.LatestReleasesByArtist | src/common/services/itunes-service.ts:167-210 | a failed lookup fails; a result is, element by element, the release made of each usable lookup result after the first |
| ItunesService.ReleaseTagged | src/common/services/itunes-service.ts:188-208 | a song release is a track, an album release a collection, and its `extra` names that release type and the iTunes provider |
| ItunesService.LatestReleasesSound | src/common/services/itunes-service.ts:183-209 | every release comes from a usable lookup result other than the first and is tagged with the entity's type and the iTunes provider |
| ItunesService.FromPersistanceToRelease | src/common/services/itunes-service.ts:83-101 | a non-iTunes row throws the provider error; an iTunes row of another type throws the type error; a read release is an object of a song or album row |
| ItunesService.ReleaseRowKey | src/common/services/itunes-service.ts:67-81 | the row of a looked-up release is keyed by the lookup result's `trackId` or `collectionId`, its release type and the iTunes provider |
| ItunesService.ReleaseRowDate | src/common/services/itunes-service.ts:71 | the row is dated by the rendering of the lookup result's `releaseDate` |
| ItunesService.ReleaseKeeps | src/common/services/itunes-service.ts:188-208 | a release holds each schema member as the first parse made it, and each required number as the lookup returned it |
| ItunesService.ReleaseRoundTrip | src/common/services/itunes-service.ts:67-101 | the row of a looked-up release reads back as that release |
| ItunesService.ReleaseRowTagged | src/common/services/itunes-service.ts:67-81 | the row carries the release itself, the iTunes provider and the entity's type |
| ItunesService.LookupArtistImage | src/common/services/itunes-service.ts:145-165 | a found artist's `extra` is exactly `{artistImage}`, the resized page picture or the placeholder |
| ItunesService.SourceRoundTrip | src/common/services/itunes-service.ts:57-65 | an artist stored as a release source reads back as the first parse of the lookup result, without `extra`: the picture is lost |
| BlurayRules.ReleaseSchemaOk | src/common/providers/blu-ray-com-physical-releases/types.ts:3-33 | the release and country schemas are well-formed |
| BlurayRules.ReleaseTrimmed | src/common/providers/blu-ray-com-physical-releases/types.ts:5-17 | text fields come out trimmed; the optional ones are absent rather than empty |
| BlurayRules.ReleaseYears | src/common/providers/blu-ray-com-physical-releases/types.ts:18-25 | `year` and `yearend` come out as numbers, read from a number or from numeric text |
| BlurayRules.ReleaseNumber | src/common/providers/blu-ray-com-physical-releases/types.ts:4 | `id`, `popularity`, `width` and `height` come out as the numbers given |
| BlurayRules.ParseCountry | src/common/providers/blu-ray-com-physical-releases/provider.ts:62-67 | a locale element parses exactly when it has a last child text; the country is its code with `country_` removed and its trimmed name |
| BlurayRules.ParseCountries | src/common/providers/blu-ray-com-physical-releases/provider.ts:59-67 | the list fails exactly when some element has no name; otherwise one country per element, in order |
| BlurayRules.CountryStable | src/common/providers/blu-ray-com-physical-releases/types.ts:57-60 | a parsed country parses back to itself |
| BlurayRules.MovieList | src/common/providers/blu-ray-com-physical-releases/provider.ts:91-97 | nothing exactly when no script defines `movielist()`; otherwise the movies of the first one that does |
| BlurayRules.ExtractMovieListItems | src/common/providers/blu-ray-com-physical-releases/provider.ts:83-119 | the loop returns no items without a movie list, one item per movie in order otherwise, and the first failure's error |
| BlurayRules.MovieListItemOrigin | src/common/providers/blu-ray-com-physical-releases/provider.ts:102-116 | every extracted item is made from a movie of the movie list |
| BlurayRules.Artwork | src/common/providers/blu-ray-com-physical-releases/provider.ts:112-113 | a present artwork URL is used as it is |
| BlurayRules.DerivedFields | src/common/providers/blu-ray-com-physical-releases/provider.ts:110-113 | the link is the movie page of the title keywords and the decimal id, which reads back as the id; without artwork the id's cover is used |
| BlurayProvider.OutputSchemaOk | src/common/providers/blu-ray-com-physical-releases/types.ts:44-51 | the output schema is well-formed, `extra` being its last member |
| BlurayProvider.LookupInput | src/common/providers/blu-ray-com-physical-releases/provider.ts:44-69 | a failed page read fails; the lookup fails exactly when some locale element has no name |
| BlurayProvider.CountryHasCode | src/common/providers/blu-ray-com-physical-releases/provider.ts:68 | a parsed country matches a term exactly when its element's code is the term |
| BlurayProvider.LookupInputFirstMatch | src/common/providers/blu-ray-com-physical-releases/provider.ts:59-68 | a found country is `{code: term, name}` of the first element whose code is the term |
| BlurayProvider.LookupInputNone | src/common/providers/blu-ray-com-physical-releases/provider.ts:68 | nothing is found exactly when no element has the term as code |
| BlurayProvider.FetchInput | src/common/providers/blu-ray-com-physical-releases/provider.ts:71-81 | a stored row that does not parse throws; a result is the lookup of its code; nothing found throws the not-found error |
| BlurayProvider.ToOutput | src/common/providers/blu-ray-com-physical-releases/provider.ts:103-115 | a movie that does not parse as a release fails |
| BlurayProvider.ExtraParse | src/common/providers/blu-ray-com-physical-releases/types.ts:46-50 | the written `extra` is accepted exactly when its link and artwork are URLs, and is then only reordered |
| BlurayProvider.OutputExtra | src/common/providers/blu-ray-com-physical-releases/provider.ts:106-115 | an output's `extra` is the type, link and artwork derived from the parsed release, both URLs valid |
| BlurayProvider.OutputRelease | src/common/providers/blu-ray-com-physical-releases/provider.ts:103-107 | every release member of an output is what the release parse made of the movie |
| BlurayProvider.OutputLink | src/common/providers/blu-ray-com-physical-releases/provider.ts:108-114 | the output's link is the movie page of its keywords and decimal id, its type the requested one, its artwork the id's cover when the movie has none |
| BlurayProvider.OutputKeys | src/common/providers/blu-ray-com-physical-releases/provider.ts:106-107 | `id` and `title_keywords` of an output are those of the parsed release |
| BlurayProvider.OutputPaths | src/common/providers/blu-ray-com-physical-releases/provider.ts:108-114 | the three members of an output's `extra` are the type name, the link and the artwork |
| BlurayProvider.ItemsType | src/common/providers/blu-ray-com-physical-releases/provider.ts:106-110 | every extracted item has the requested type |
| BlurayProvider.FetchOutputs | src/common/providers/blu-ray-com-physical-releases/provider.ts:121-154 | a result means both pages were read and extracted, and is the Blu-ray items followed by the DVD items |
| BlurayProvider.FetchOutputsBlurayThenDvd | src/common/providers/blu-ray-com-physical-releases/provider.ts:153 | the outputs are typed `bluray` up to the number of Blu-ray items and `dvd` after it |
| BlurayProvider.FromInputToPersistence | src/common/providers/blu-ray-com-physical-releases/provider.ts:237-243 | the input row carries the item, the Blu-ray tag and the country code as id |
| BlurayProvider.InputRoundTrip | src/common/providers/blu-ray-com-physical-releases/provider.ts:237-249 | a looked-up country survives a store and a read, and its row id is the code it was looked up by |
| BlurayProvider.FromOutputToPersistence | src/common/providers/blu-ray-com-physical-releases/provider.ts:251-258 | the output row takes `input_id` and provider from the input row, and the decimal `id` of the item |
| BlurayProvider.OutputRoundTrip | src/common/providers/blu-ray-com-physical-releases/provider.ts:251-264 | an extracted output survives a store and a read, and its row id reads back as its numeric id |
| BlurayProvider.Mapper | src/common/providers/blu-ray-com-physical-releases/provider.ts:237-264 | the provider is tagged Blu-ray and has no patch mapper |
| BlurayProvider.MapperFixed | src/common/providers/blu-ray-com-physical-releases/provider.ts:251-258 | the same mapper surface, with the full output row as patch row |
| BlurayService.WithExtraSchemaOk | src/common/services/service.ts:212-220 | the extended release schema is well-formed, `extra` being its last member |
| BlurayService.ExtraSchemaOk | src/common/services/service.ts:213-219 | the `extra` schema is well-formed |
| BlurayService.ToRelease | src/common/services/blu-ray-com-service.ts:131-138 | a movie that does not parse as a release fails |
| BlurayService.ExtraParse | src/common/services/blu-ray-com-service.ts:30-47 | the written `extra` is accepted exactly when its link and artwork are URLs, and is then only reordered |
| BlurayService.ReleaseExtra | src/common/services/blu-ray-com-service.ts:30-47 | every release carries `{country, artworkUrl, type, link, provider}` derived from the parsed release, both URLs valid |
| BlurayService.ReleasePaths | src/common/services/blu-ray-com-service.ts:37-45 | the `extra` members are the country, the type, blu-ray.com, the link and the artwork |
| BlurayService.ReleaseKept | src/common/services/blu-ray-com-service.ts:35-36 | every release member of an item is what the release parse made of the movie |
| BlurayService.ReleasesTagged | src/common/services/blu-ray-com-service.ts:112-142 | every extracted release names the country, the type and blu-ray.com |
| BlurayService.GetCountries | src/common/services/blu-ray-com-service.ts:87-110 | a failed page read fails with its error; otherwise the locale list parsed element by element |
| BlurayService.GetReleasesForMonth | src/common/services/blu-ray-com-service.ts:144-184 | the Blu-ray page's failure comes first, then the DVD page's; a result is the Blu-ray releases followed by the DVD releases |
| BlurayService.ReleasesForMonthOrder | src/common/services/blu-ray-com-service.ts:172-183 | all releases are of the country, Blu-ray ones first, then DVD ones |
| BlurayService.FromReleaseSourceToPersistance | src/common/services/blu-ray-com-service.ts:49-57 | the source row carries the country, the blu-ray.com provider and the code as id |
| BlurayService.SourceRoundTrip | src/common/mappers/blu-ray-com-mappers.ts:33-49 | a listed country survives a store and a read, and its row id is its element's code |
| BlurayService.FromReleaseToPersistance | src/common/services/blu-ray-com-service.ts:59-69 | the row carries the item, its decimal id, the type and provider of its `extra` and its release date |
| BlurayService.ReleaseRowOf | src/common/mappers/blu-ray-com-mappers.ts:13-31 | the row of an extracted release is keyed by its decimal id, its type and blu-ray.com, and reads back as the release |
| BlurayService.ReleaseRowDate | src/common/services/blu-ray-com-service.ts:63 | the row's `releasedAt` renders the date the movie's trimmed `releasedate` text denotes |
| SteamProvider.OutputSchemaOk | src/common/providers/steam-games-free-promos/types.ts:8-28 | the input and output schemas are well-formed, and the output fields are the seven distinct keys in the order the panel object is written |
| SteamProvider.LookupInput | src/common/providers/steam-games-free-promos/provider.ts:46-48 | whatever the term, the input is the promotions page URL |
| SteamProvider.FetchInput | src/common/providers/steam-games-free-promos/provider.ts:51-53 | whatever the stored row, the input is the promotions page URL |
| SteamProvider.PromoType | src/common/providers/steam-games-free-promos/provider.ts:70-75 | free-to-keep exactly when the class names it, else free-to-play exactly when the class names play-for-free, else none |
| SteamProvider.Present | src/common/providers/steam-games-free-promos/provider.ts:80-82 | the kept sale times are exactly the defined, non-empty ones |
| SteamProvider.SaleDatesOrder | src/common/providers/steam-games-free-promos/provider.ts:77-82 | the start is the least sale time and the end the least of the rest, so start never follows end; each is missing only when there are too few times |
| SteamProvider.Link | src/common/providers/steam-games-free-promos/provider.ts:88-92 | a link, when found, starts with the Steam store app prefix |
| SteamProvider.LinkNone | src/common/providers/steam-games-free-promos/provider.ts:88-92 | there is no link exactly when no child is a store app link |
| SteamProvider.LinkFirst | src/common/providers/steam-games-free-promos/provider.ts:88-92 | the link is the first store app link among the children, trimmed |
| SteamProvider.Values | src/common/providers/steam-games-free-promos/provider.ts:84-97 | one value per output key |
| SteamProvider.DefinedAbsent | src/common/providers/steam-games-free-promos/provider.ts:84-97 | a key that is not written is missing from the panel object |
| SteamProvider.DefinedGet | src/common/providers/steam-games-free-promos/provider.ts:84-97 | each written key holds its own value, and is missing when that value is undefined |
| SteamProvider.CandidateAt | src/common/providers/steam-games-free-promos/provider.ts:84-97 | each output field finds the value written under its name |
| SteamProvider.OutputId | src/common/providers/steam-games-free-promos/provider.ts:85 | an accepted panel's id is the number its trimmed app id reads as |
| SteamProvider.OutputImage | src/common/providers/steam-games-free-promos/provider.ts:86-87 | an accepted panel's image is its trimmed image source, a URL |
| SteamProvider.OutputLink | src/common/providers/steam-games-free-promos/provider.ts:88-92 | an accepted panel's link is its first store app link, a URL |
| SteamProvider.OutputName | src/common/providers/steam-games-free-promos/provider.ts:93 | an accepted panel's name is its trimmed title, never empty |
| SteamProvider.OutputPromoType | src/common/providers/steam-games-free-promos/provider.ts:94 | an accepted panel's promotion type is the one its class names |
| SteamProvider.OutputDates | src/common/providers/steam-games-free-promos/provider.ts:77-96 | an accepted panel has two sale times and its dates are the renderings of the least two |
| SteamProvider.OutputRejects | src/common/providers/steam-games-free-promos/provider.ts:70-97 | a panel without a known promotion type, two sale times or a store link is rejected |
| SteamProvider.KeptPanels | src/common/providers/steam-games-free-promos/provider.ts:68 | the kept panels are exactly those of the page other than app 730 |
| SteamProvider.MapKeptOk | src/common/providers/steam-games-free-promos/provider.ts:66-99 | mapping fails exactly when some kept panel fails |
| SteamProvider.FetchOutputs | src/common/providers/steam-games-free-promos/provider.ts:55-102 | a failed page read fails with its error; otherwise the call fails exactly when a kept panel is rejected, and the outputs have distinct ids |
| SteamProvider.FetchOutputsOrigin | src/common/providers/steam-games-free-promos/provider.ts:65-101 | every output comes from a kept panel of the page, app 730 never |
| SteamProvider.FetchOutputsCover | src/common/providers/steam-games-free-promos/provider.ts:100 | every kept panel's id is among the outputs: only duplicates are dropped |
| SteamProvider.FromInputToPersistence | src/common/providers/steam-games-free-promos/provider.ts:177-183 | the row is keyed by the URL and stores only the URL |
| SteamProvider.InputRoundTrip | src/common/providers/steam-games-free-promos/provider.ts:177-187 | the looked-up input survives a store and a read, keyed by the page URL |
| SteamProvider.FromOutputToPersistence | src/common/providers/steam-games-free-promos/provider.ts:189-196 | the row carries the input row's id and provider, the output, and the decimal rendering of a numeric id |
| SteamProvider.OutputRoundTrip | src/common/providers/steam-games-free-promos/provider.ts:189-200 | an accepted output survives a store and a read, and its row id reads back as its numeric id |
| SteamProvider.PatchIsFull | src/common/providers/steam-games-free-promos/provider.ts:170-175 | the patch row is the full row, so ingesting the same output twice changes nothing more |
| SteamProvider.Mapper | src/common/providers/steam-games-free-promos/provider.ts:170-200 | the provider offers the full mapper as its patch mapper |
| ProviderFactory.Factory | src/common/providers/provider.ts:9-27 | a provider exactly for the Blu-ray and iTunes tags, whose class declares that tag and holds the props given |
| ProviderFactory.FactoryMissesSteam | src/common/providers/provider.ts:13-26 | the Steam tag gets no provider although a Steam provider class exists |
| ProviderFactory.FactoryFixed | src/common/providers/provider.ts:13-26 | every tag gets the class declaring that tag, holding the props given |
| ProviderFactory.FactoryFixedExtends | src/common/providers/provider.ts:13-26 | wherever the switch as written answers, the corrected one answers the same |
| ProviderFactory.FactoryFixedMappers | src/common/providers/provider.ts:13-26 | the provider built for a tag maps rows under that tag |
| GenDbTypes.MapSqliteTypeToTs | src/entrypoints/commands/gen-db-types/main.ts:48-62 | an overridden column always maps; a failure names the declared type as not mappable |
| GenDbTypes.OverrideWins | src/entrypoints/commands/gen-db-types/main.ts:23-55 | the overridden columns get their override whatever type they declare: the provider enum, the release type enum, or a plain string for raw |
| GenDbTypes.MappedTypes | src/entrypoints/commands/gen-db-types/main.ts:14-21 | without an override, the trimmed upper-cased type decides: INT, INTEGER and REAL give numbers, TEXT a string, BLOB a byte array, ANY any; no import is needed; every other type is refused |
| GenDbTypes.MappedImport | src/entrypoints/commands/gen-db-types/main.ts:23-46 | only the two enum overrides need an import, each from its enum's own module |
| GenDbTypes.NormalizeIdempotent | src/entrypoints/commands/gen-db-types/main.ts:49 | normalising a declared type twice is normalising it once |
| GenDbTypes.SpellingInsensitive | src/entrypoints/commands/gen-db-types/main.ts:49-61 | a declared type maps the same as its normalised spelling |
| GenDbTypes.ColumnLineRoundTrip | src/entrypoints/commands/gen-db-types/main.ts:91-93 | a column line reads back as the column's name, nullability and type |
| GenDbTypes.ColumnsErrSticks | src/entrypoints/commands/gen-db-types/main.ts:84-94 | the first unmappable column decides the failure of its table |
| GenDbTypes.TablesErrSticks | src/entrypoints/commands/gen-db-types/main.ts:72-99 | the first failing table decides the failure of the command |
| GenDbTypes.ColumnsOutOk | src/entrypoints/commands/gen-db-types/main.ts:84-94 | the column loop succeeds exactly when every column maps |
| GenDbTypes.ColumnsOutLines | src/entrypoints/commands/gen-db-types/main.ts:84-94 | a successful column loop writes one line per column, in column order, from that column's type |
| GenDbTypes.TablesOutOkByTable | src/entrypoints/commands/gen-db-types/main.ts:72-99 | the table loop succeeds exactly when every table's columns all map |
| GenDbTypes.TablesOutOk | src/entrypoints/commands/gen-db-types/main.ts:72-99 | the table loop succeeds exactly when every column of every table maps |
| GenDbTypes.TablesOutLast | src/entrypoints/commands/gen-db-types/main.ts:82-98 | a successful loop added the last table's block after the others |
| GenDbTypes.TablesOutBlocks | src/entrypoints/commands/gen-db-types/main.ts:82-98 | one block per table, in table order: its header, its column lines, a closing brace |
| GenDbTypes.ColumnsImportsWithin | src/entrypoints/commands/gen-db-types/main.ts:87-89 | the column loop pushes only imports that its types name |
| GenDbTypes.TablesImportsWithin | src/entrypoints/commands/gen-db-types/main.ts:87-89 | the table loop pushes only imports that its types name |
| GenDbTypes.TablesImportEnums | src/entrypoints/commands/gen-db-types/main.ts:87-89 | every import pushed is of one of the two enum types |
| GenDbTypes.ColumnsImportCovered | src/entrypoints/commands/gen-db-types/main.ts:87-89 | every import a column needs is pushed |
| GenDbTypes.TablesImportCovered | src/entrypoints/commands/gen-db-types/main.ts:87-89 | every import a column of any table needs is pushed |
| GenDbTypes.CollectColumns | src/entrypoints/commands/gen-db-types/main.ts:84-94 | the column loop's failure, imports and lines are those of its specification |
| GenDbTypes.CollectTypes | src/entrypoints/commands/gen-db-types/main.ts:72-99 | the table loop's failure, imports and blocks are those of its specification |
| GenDbTypes.DedupMembers | src/entrypoints/commands/gen-db-types/main.ts:104-113 | de-duplication keeps exactly the values it was given |
| GenDbTypes.DedupDistinct | src/entrypoints/commands/gen-db-types/main.ts:104-113 | de-duplication leaves no value twice |
| GenDbTypes.DedupPrefix | src/entrypoints/commands/gen-db-types/main.ts:104-113 | de-duplicating a prefix gives a prefix of the de-duplicated whole: first-seen order |
| GenDbTypes.TypesAtMembers | src/entrypoints/commands/gen-db-types/main.ts:104-113 | the types listed for a path are exactly those imported from it |
| GenDbTypes.Grouped | src/entrypoints/commands/gen-db-types/main.ts:104-114 | one entry per imported path, in first-seen order, with that path's types once each |
| GenDbTypes.GroupedMembers | src/entrypoints/commands/gen-db-types/main.ts:104-114 | entries have distinct paths and distinct types, and a type is listed for a path exactly when it is imported from it |
| GenDbTypes.GroupedCovers | src/entrypoints/commands/gen-db-types/main.ts:104-114 | every import has an entry listing its type |
| GenDbTypes.RecordStep | src/entrypoints/commands/gen-db-types/main.ts:104-113 | the record after one more import is the reduce callback applied to the record before it |
| GenDbTypes.GroupImports | src/entrypoints/commands/gen-db-types/main.ts:104-114 | the reduce loop builds the grouped entries of the imports |
| GenDbTypes.ImportLines | src/entrypoints/commands/gen-db-types/main.ts:114-116 | one import line per entry, in entry order |
| GenDbTypes.Generate | src/entrypoints/commands/gen-db-types/main.ts:64-118 | the text is produced exactly when every column of every table maps, from the loop's imports and blocks; otherwise the loop's first error |
| GenDbTypes.FileHoldsBlocks | src/entrypoints/commands/gen-db-types/main.ts:101-118 | the file opens with the generated-content banner and holds every table's block |
| GenDbTypes.ImportLineTypes | src/entrypoints/commands/gen-db-types/main.ts:114-116 | an import line lists its entry's types back |
| RssFeed.ParseProvider | src/entrypoints/apps/rss-feed/app.ts:32-34 | a provider exactly when the provider query holds one of the three wire values, and then the one it names; otherwise a schema failure |
| RssFeed.ParseProviderRoundTrip | src/entrypoints/apps/rss-feed/app.ts:32-34 | a query naming a provider by its wire value parses back to that provider, whatever else the query holds |
| RssFeed.NegotiateAsWritten | src/entrypoints/apps/rss-feed/app.ts:38-73 | the chain as written: RSS when the header names RSS, else Atom, else JSON Feed, else RSS labelled as plain XML |
| RssFeed.Negotiate | src/entrypoints/apps/rss-feed/app.ts:38-73 | the chain with the plain-XML test consulted: RSS, then plain XML as RSS, then Atom, then JSON Feed, else RSS labelled as plain XML |
| RssFeed.NegotiateLabels | src/entrypoints/apps/rss-feed/app.ts:40-73 | each content type served labels exactly its own format |
| RssFeed.AsWrittenXmlOnlyFallback | src/entrypoints/apps/rss-feed/app.ts:40-52 | as written, plain XML is answered only for a header naming none of RSS, Atom and JSON |
| RssFeed.NegotiateDiffers | src/entrypoints/apps/rss-feed/app.ts:40-42 | the two chains differ exactly on a header naming plain XML but not RSS, together with Atom or JSON |
| RssFeed.XmlIgnoredExample | src/entrypoints/apps/rss-feed/app.ts:40-42 | the header "application/json, application/xml" gets JSON Feed as written and RSS as plain XML when corrected |
| RssFeed.Fetch | src/entrypoints/apps/rss-feed/app.ts:19-74 | the favicon path is served from disk before any check; otherwise a feed exactly when the provider query parses, with status 200, every query passed on, and the negotiated format |
| RssFeed.FetchDefaultsToXml | src/entrypoints/apps/rss-feed/app.ts:70-73 | a header naming none of the four types, or none at all, gets RSS as plain XML |
| Schema.ParseValue | src/common/services/service.ts:178-208 | a required member that is absent fails, an optional one stays absent, and only an optional member can come out absent |
| Schema.Parse | src/common/services/service.ts:178-208 | only an object parses, into an object holding every field that is not optional |
| Schema.ParseFieldsKeys | src/common/services/service.ts:178-208 | a parse lists only the schema's fields, and every field that is not optional |
| Schema.ParseFieldsFails | src/common/services/service.ts:178-208 | a field whose check fails fails the parse, wherever it stands |
| Schema.ParseFieldsUnique | src/common/services/service.ts:178-208 | a parse lists no name twice |
| Schema.ParseValueStable | src/common/services/service.ts:178-208 | an accepted member value parses again to itself |
| Schema.ParseStable | src/common/services/service.ts:178-208 | parsing what a parse returned gives it back: a stored item reads back as itself |
| Schema.ParseGet | src/common/services/service.ts:178-208 | each field holds what its own check made of the input member |
| Schema.ParseClean | src/common/services/service.ts:178-208 | a parse result has unique keys at every depth and no null |
| Schema.ParseNumber | src/common/services/service.ts:179 | a required number field holds the input number |
| Schema.ParseTrimmed | src/common/services/service.ts:180-192 | a trimmed field holds the trimmed input text; a trimmed-or-absent one is never empty |
| Schema.ParseNumeric | src/common/services/service.ts:193-200 | a numeric field holds the input number, or the number its text reads as |
| Schema.ParseDate | src/common/services/service.ts:201-204 | a date field holds the rendering of the date its trimmed text denotes |
| Schema.ParseAbsent | src/common/providers/itunes-music-releases/types.ts:9 | an optional field absent from the input is absent from the output |
| Schema.ParseLiteral | src/common/providers/itunes-music-releases/types.ts:4-5 | a literal field held that literal in the input and holds it in the output |
| Schema.ParseUrl | src/common/providers/itunes-music-releases/types.ts:7 | a URL field holds the input text, which passed the URL test |
| Schema.ParseNonEmpty | src/common/providers/steam-games-free-promos/types.ts:21 | a non-empty text field holds the input text, which is not empty |
| Schema.ParseEnum | src/common/services/service.ts:216 | an enum field holds the input text, which is one of the values |
| Schema.ParseExtended | src/common/services/service.ts:212-220 | parsing with the extended schema keeps the base fields as the base parse made them |
| Schema.ParseDropsExtension | src/common/services/service.ts:212-220 | parsing an extended result with the base schema gives the base parse back, without the extension member |
| Strings.Trim | src/common/providers/steam-games-free-promos/provider.ts:85 | neither end of the result is whitespace, and only whitespace was cut from either end |
| Strings.TrimIdempotent | src/common/services/service.ts:184 | trimming twice is trimming once |
| Strings.ToLower | src/common/providers/itunes-music-releases/provider.ts:72-78 | one character out per character in, each lower-cased |
| Strings.ToUpper | src/entrypoints/commands/gen-db-types/main.ts:49 | one character out per character in, each upper-cased |
| Strings.IndexOf | src/common/providers/blu-ray-com-physical-releases/provider.ts:66 | the first position where the pattern occurs, or -1 exactly when it does not occur |
| Strings.ReplaceFirst | src/common/providers/blu-ray-com-physical-releases/provider.ts:66 | only the first occurrence of the pattern is replaced; a text without it is unchanged |
| Strings.ReplaceLeading | src/common/providers/blu-ray-com-physical-releases/provider.ts:66 | replacing a leading pattern strips it |
| Strings.Split | src/common/providers/itunes-music-releases/provider.ts:55-56 | at least one piece, none holding the separator |
| Strings.JoinSplit | src/common/providers/itunes-music-releases/provider.ts:55-64 | joining what was split gives the text back |
| Strings.SplitJoin | src/common/providers/itunes-music-releases/provider.ts:55-64 | splitting a join of separator-free pieces gives the pieces back |
| Strings.LastPiece | src/common/providers/itunes-music-releases/provider.ts:56 | the last piece is the text after the last separator |
| Strings.ReplaceLastPiece | src/common/providers/itunes-music-releases/provider.ts:55-64 | replacing the last piece and joining again rewrites only what follows the last separator |
| Strings.Sort | src/common/providers/steam-games-free-promos/provider.ts:82 | an ascending permutation of the input |
| Strings.SortedHeadIsLeast | src/common/providers/steam-games-free-promos/provider.ts:77-82 | the first sorted element is a least element of the input |
| Strings.SortedSecondLeast | src/common/providers/steam-games-free-promos/provider.ts:77-82 | the second sorted element is a least element of the rest |
| Strings.NatToString | src/common/providers/steam-games-free-promos/provider.ts:191 | decimal digits without a leading zero that read back as the number |
| Strings.NumberRoundTrip | src/common/providers/steam-games-free-promos/provider.ts:191-199 | the decimal rendering of an integer reads back as that integer |
| Strings.NumberToStringInjective | src/common/providers/steam-games-free-promos/provider.ts:191 | distinct integers render to distinct strings, so distinct ids give distinct row ids |
| Seqs.FilterOk | src/common/providers/itunes-music-releases/provider.ts:157 | the kept items in order, exactly those passing the test, or a failure exactly when the test throws on some item |
| Seqs.FilterOkOrigin | src/common/providers/itunes-music-releases/provider.ts:157 | each kept item sits in the input and passed the test |
| Seqs.MapOk | src/common/providers/steam-games-free-promos/provider.ts:65-99 | one result per item in order, or a failure exactly when some item throws |
| Seqs.MapOkFirstError | src/common/providers/steam-games-free-promos/provider.ts:65-99 | the failure is that of the first item that throws |
| Seqs.FindFirst | src/common/providers/steam-games-free-promos/provider.ts:88-92 | the first index whose item satisfies the test, or none exactly when no item does |
| Seqs.Find | src/common/providers/steam-games-free-promos/provider.ts:88-92 | an item exactly when some item satisfies the test, and then one of the input's that does |
| Seqs.DistinctFrom | src/common/providers/steam-games-free-promos/provider.ts:65-101 | a subsequence of the items whose keys are distinct |
| Seqs.DistinctFromCovers | src/common/providers/steam-games-free-promos/provider.ts:65-101 | every key of the input is kept by some item: only duplicates are dropped |

## Left out

- Network I/O: every HTTP fetch is a function parameter (`ItunesApi`, `BlurayApi`, `SteamApi`, the services' fetch functions) that gives the answer, or the error, for each request. Headers, retries and streaming page reads are not modelled.
- HTML and script extraction: DOM queries, the regular expressions over HTML and the `eval` of the movie list scripts are replaced by the values they yield (`SteamProvider.Panel`, `BlurayRules.Script`, the country elements, the page chunks read by `ItunesRules.ReadHead`).
- URL validation, date parsing and `Number(text)` beyond decimal integers are the `Schema.Validators` oracle. Dates are ISO strings and no calendar is modelled.
- The clock and randomness: the `releaseDate` default of "now" is `Validators.now`, and `crypto.randomUUID` is the `id` parameter of `ItunesService.ToReleaseSourcePersistance`.
- Timers and concurrency: the `delay` between rows is a counter of pauses, and the abort signal is a per-index flag (`JobSupport.Signal`). `Promise.all` runs its two requests one after the other: the Blu-ray page before the DVD page in `BlurayProvider.FetchOutputs` and `BlurayService.GetReleasesForMonth`, the songs lookup before the albums lookup in `ItunesProvider.FetchOutputs`. The order of the concatenated result is the program's. When both requests fail, the model reports the first one's error (Blu-ray, songs), where the program reports whichever rejection settles first.
- The enumeration files under `src/common/database/enums/` are not part of this model. Their members are datatypes, and their wire values are parameters where a string is needed (`RssFeed.ProviderTags`, the legacy services' `Vocabulary`).
- SQL text: the query text of `queryOutputs` and `getOutputsFeed`, their ordering and paging, SQLite pragmas, and the WAL checkpoint are not modelled. The checkpoint is recorded as a statement in `executed`. Tables are maps keyed by primary key. `jsonb_patch` is `Json.MergePatch`.
- The jobs' statements are modelled directly on the tables: their selects read `database.tables` through `Rows.InputsOf` and `Rows.SourcesOf`, their updates are `CustomDatabase.UpdateInputRaw` and `CustomDatabase.UpdateSourceRaw`, and their upserts and inserts go through `CustomDatabase.Transaction`. `Database.CustomDatabase.Sql`, with its statement cache and eviction, models the `sql` template of `src/common/database/mod.ts` and is not exercised by the jobs. The jobs call `sql.all` and `sql.run`, which that gateway does not define; their query text and the cache they would go through are not modelled.
- Feed rendering: the `feed` library, item descriptions, Preact list items, the admin app and authentication are left out. `ItunesProvider.FeedItemIdParts` and `ItunesProvider.FeedImageKeepsDirectory` cover only the identifier and image text of feed items.
- The favicon stream is recorded as the file path it opens. `URL.parse` and `Object.fromEntries` of the search parameters are the `queries` map given to `RssFeed.Fetch`.
- RssFeed.Fetch: uses the corrected `RssFeed.Negotiate`. The chain as written is `RssFeed.NegotiateAsWritten` (see Findings).
- gen-db-types: the `create table` regex scan of `schema.sql`, `pragma table_info` and the file write are replaced by the `tables` parameter of `GenDbTypes.Generate` and its returned text. `toPascalCase` is the `pascal` parameter.
- Strings.ToLower: lower-cases only ASCII letters, where JavaScript's `toLowerCase` covers all of Unicode. `Strings.ToUpper` likewise upper-cases only ASCII letters.
- Object prototype keys: `tableOverrides[table]` and `sqliteToTsType[normalized]` are modelled as lookups of own keys only, so a column named like an `Object.prototype` member (for example `constructor`) is not treated specially.
- ItunesProvider.DropFirst: `splice(0, 1)` on the results array is modelled on values, and the array's aliasing is not.
- SyncReleaseSourcesJob.App.Execute: a failure is logged with the whole source row, of which the source's log entry keeps only the id.
- SyncReleasesJob.App.Execute: a failure is logged with the whole source row, of which the source's log entry keeps only the id.
- Json.Num: JSON numbers are integers. Fractional values, such as the iTunes `collectionPrice` and `trackPrice`, are not represented, and no property is stated about them; the optional number fields are only passed through.
- Logging, configuration loading, process shutdown and the job entry scripts are left out. A job's log is its returned `failures` sequence.

## Findings

| source | as written | input that shows it | evidently intended | confidence | as-written member | corrected member |
|---|---|---|---|---|---|---|
| src/common/providers/provider.ts:13-26 | the switch has no case for the Steam tag, so the factory returns `undefined` for it | the tag `SteamGamesFreePromos` | every tag, Steam included, gets its provider class | not executed; high | ProviderFactory.FactoryMissesSteam | ProviderFactory.FactoryFixed |
| src/entrypoints/jobs/fetch-outputs/app.ts:57-60 | the job calls `fromOutputToJsonPatchPersistance`, which the Blu-ray provider does not define, so mapping the items throws | any Blu-ray input whose fetch returns at least one item | Blu-ray outputs are upserted like the others, with the full row as patch row | not executed; medium | FetchOutputsJob.BlurayOutputsNeverStored | FetchOutputsJob.BlurayFixedStores |
| src/entrypoints/apps/rss-feed/app.ts:40-42 | `??` between the RSS and XML tests: a present header makes the left side a boolean, so the plain-XML test is never consulted | `Accept: application/json, application/xml` gets JSON Feed | a header naming plain XML gets RSS 2 as `application/xml` with a logical or | not executed; medium | RssFeed.XmlIgnoredExample | RssFeed.Negotiate |
