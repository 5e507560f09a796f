# SyncCal, a verified model

SyncCal copies events from calendar sources to CalDAV destinations. It keeps one database row for every
(event UID, destination) pair, with a tombstone instead of a deletion, and compares what it fetches with what the rows
say. This project models that engine in Dafny and proves what a run achieves, what any history of runs keeps, and
exactly when each promise fails.

`dafny verify dfyconfig.toml` checks all of it.

## How the model is built

* **State.** A `World` is the mapping table, keyed by (UID, destination name), and all remote resources, keyed by absolute address;
  a `System` adds the saved source states. `Storage.Store`, `Remote.CalendarServer` and `Engine.Syncer` are classes
  that update these in place with the loops of the Go code; `Reconcile` and `SyncLoop` hold the functions they are proved
  equal to, and every theorem about those functions is a theorem about the classes.
* **Map order.** Go walks a map in an order nobody controls. A run takes two walks as inputs, and results hold for all of them;
  `Engine.MapRange` picks one nondeterministically.
* **Failures.** Every remote call and store write has a fate: it succeeds (`Done`), fails without effect (`Refused`), or takes
  effect although the caller is told that it failed (`Unacked`). Every lookup may fail; a listing may fail or lose rows. Stopping
  a process is a fate too: after a remote call and before its row is written is a call that is `Done` and a write that is `Refused`.
* **Locality.** A run sees and changes a UID only through its cell, that is its row and its resource. `Pointwise.RunFollows`
  says that for all walks and all failures; convergence, recovery and the history invariants are built on it.
* **Idealised.** SHA-256 has no collisions. A Go string is a sequence of bytes, one character each. An encoded event has
  the UID of the component it was made from. Different components are encoded differently, which `Feed.PrivateRestShows` alone needs.
  Sources, destinations and pipelines are those of one configuration. What a source answers is a parameter, and
  where connections are compared it depends on the resources in the source's collection (`Connections.Outlook`).

| file | subject |
|---|---|
| Text, Records, Storage, Remote | strings and addresses; records; the database; the calendars |
| Reconcile, Pointwise | one run of `syncDestination`, and the same UID by UID |
| Convergence, Recovery, History | what one run, a disturbed run and any history of runs achieve |
| Confinement | what a run and a whole Sync may touch, and what hard deletes take away |
| Restore | the first synchronisation after the database was restored |
| EndToEnd | from what a source holds to what its destination shows |
| Pipeline, Feed | transformers, assembly of pipelines, parsing of a feed |
| SyncLoop, Connections, Engine | the loop of `Sync`, what its connections do to each other, the objects |
| ChangeDetection, Races, Scenes | tokens, fetching and merging against a source that moves between any two requests; witnesses |
| Configuration | defaults, legacy migration, validation |
| Overlay, EnvTree, Merge, EnvOverlay | environment variables merged over the configuration file |
| Multistatus, LogRing, Retry, RunLock | the WebDAV reader, the log ring, backoff, the run lock |

## Where the code and its documentation part

The model follows the code; the members named are the proofs.

* The runbook promises that the first synchronisation after restoring a database realigns the destinations
  (docs/RUNBOOK.md:62-63, 115). The restored database brings its source states back too. An undisturbed turn aligns the destination
  exactly if it finds the source changed against the restored state and no row misleads it, or finds it unchanged and all is aligned
  already (`Restore.TurnAligns`); `Restore.RestoredStateBlocks` has a state for which nothing happens, `History.Drift` a history after which
  a row misleads. A row written for another collection URL always goes on pointing there (`Restore.Misleads`).
* The comment on `ListMappings` speaks of UIDs that start with the prefix (internal/storage/sqlite.go:96-99). SQLite's `LIKE`
  ignores ASCII case, so prefixes that differ by case only share rows (`Text.SelectedIs`, `Text.PrefixesSeparate`).
* `ListMappings` does not look at the error its cursor ends with (internal/storage/sqlite.go:115-122), and the stale loop skips a
  row it cannot read (internal/sync/syncer.go:353-356). Such rows stay active and the run still succeeds: `Convergence.Missed` is
  the set of them, and `Convergence.Converges` says what they do to the result.
* The sync-collection REPORT is meant to fetch only what changed (internal/caldav/client.go:240), but it is sent with the token just
  read, so with a source that stands still it reports nothing and the whole calendar is fetched (`ChangeDetection.StableFetch`). When the
  REPORT names resources, or a listing is cut short, whatever was not fetched counts as deleted: `Races.DeletionsAreGenuine` says exactly
  when that is right, `Scenes.LiveEventDeleted` and `Scenes.BrokenListingDeletes` are cases where it is not.
* The state is read again after the resources, to be "authoritative" (internal/caldav/client.go:289-294). A change in between is
  not fetched until the source changes again: `ChangeDetection.SavedStateVouches` says exactly when the saved tokens vouch for what was fetched.
* The source state is saved before the destination is written (internal/sync/syncer.go:240, 257), so a failed destination is not
  retried until the source changes (`Connections.FailedIsNotRetried`), and a second destination of one source gets nothing
  (`Connections.SharedSourceStarves`). The failure is not part of what `Sync` returns (`Engine.Reported`).
* A hard delete that fails is given up: its row becomes a tombstone and its resource stays (`Recovery.GivesUp`, `Recovery.Recovers`).
* Of several events with one UID merging keeps the first (internal/caldav/client.go:339-342), so a recurring event loses its overrides: what
  is fetched from a source that stands still is what it holds exactly if no UID occurs twice (`ChangeDetection.StableUpToDate`,
  `Scenes.OverrideNeverFetched`), and then a turn reflects its source as far as the pipeline keeps UIDs
  apart (`EndToEnd.TurnReflects`).
* Both private transformers compare CLASS to the letter (internal/plugin/transformer.go:50-51, 65-66). Section 3.8.1.3 of RFC 5545 compares
  without regard to case and wants unrecognised values treated as private: `Pipeline.PrivateByRfcShows` says exactly which such
  events keep their details, `Pipeline.MisspeltPasses` has such spellings.
* Connections are not isolated from each other when one writes the collection that another reads, which the configuration accepts
  (`Scenes.ChainInterferes`); the independence that `Connections.Alone` asks for rules that out.
* The errors listed as retryable are the ones that are not retried (internal/retry/retry.go:138-142).
* A nested legacy destination with an address and no name is lifted without one, so normalising is not idempotent exactly then
  (`Configuration.NormalisedTwice`).

## Model

| member | source | states |
|---|---|---|
| Text.LikeLiteral | internal/storage/sqlite.go:103-106 | the pattern made of a literal and a percent sign matches exactly the texts that start with the literal, ASCII case aside |
| Text.SelectedIs | internal/storage/sqlite.go:100-106 | exactly which UIDs the prefix filter of a listing selects, all of them without a prefix |
| Text.CarriedIsSelected | internal/sync/syncer.go:112-116 | every UID with the source's prefix is selected by the listing under that prefix |
| Text.PrefixesSeparate | internal/sync/syncer.go:472-478 | two prefixes of one length select a common UID if and only if they differ by case only |
| Text.UnescapeInvertsEscape | internal/caldav/client.go:397 | percent-escaping a UID loses nothing |
| Text.UidOfHrefInverts | internal/caldav/client.go:393-397 | the UID can be read back from the address of its resource |
| Text.HrefInjective | internal/caldav/client.go:393-397 | two addresses are equal if and only if collection and UID are, whatever the two base URLs |
| Text.HrefIs | internal/caldav/client.go:393-397 | the address is the URL, a slash unless it ends in one, the escaped UID and ".ics" |
| Text.EscapeIs | internal/caldav/client.go:397 | byte by byte, which characters of a UID stay and that all others become a percent sign and two upper-case digits |
| Text.SplitIs | internal/config/env.go:45 | the pieces of a text are the only sequence that joins to it and of which none contains the separator |
| Text.TrimIs | internal/plugin/transformer.go:124 | a trimmed text is the text without the white space at both ends, and nothing else is lost |
| Text.SpaceIs | internal/plugin/transformer.go:124 | which six characters are white space |
| Text.LowerIs | internal/config/env.go:59 | which letters lose their case, and that nothing else changes |
| Text.ItoaIs | internal/config/config.go:157 | the number in a generated name is in decimal notation |
| Storage.ActiveMappingsAt | internal/storage/sqlite.go:100-123 | a UID is in the active mappings if and only if its row is there, not deleted and selected; its hash is the row's |
| Storage.Store.constructor | internal/storage/sqlite.go:30-63 | a new database has neither mappings nor source states |
| Storage.Store.GetMapping | internal/storage/sqlite.go:65-79 | a read that succeeds gives the row of the key, or the empty mapping if there is none |
| Storage.Store.SetMapping | internal/storage/sqlite.go:81-94 | the row of the key is replaced or inserted, and nothing else changes; an error may come with or without that effect |
| Storage.Store.ListMappings | internal/storage/sqlite.go:100-123 | the loop returns exactly the active mappings of the destination under the prefix, without the rows its cursor lost |
| Storage.Store.GetSourceState | internal/storage/sqlite.go:171-184 | the state saved for the URL, or the empty one |
| Storage.Store.SetSourceState | internal/storage/sqlite.go:186-197 | the state of the URL is replaced or inserted, and nothing else changes |
| Remote.CalendarServer.CreateEvent | internal/caldav/client.go:383-412 | returns the address of the UID in the collection, and stores the event there as the fate says |
| Remote.CalendarServer.UpdateEvent | internal/caldav/client.go:414-434 | stores the event at the given address as the fate says, whether or not the address was in use |
| Remote.CalendarServer.DeleteEvent | internal/caldav/client.go:436-456 | removes the resource as the fate says; deleting what is absent is an error without effect |
| Reconcile.EventStepIsLocal | internal/sync/syncer.go:315-349 | a visit of the event loop changes the event's own row and resource only, as a function of its own cell, and keeps rows proper |
| Reconcile.StaleStepIsLocal | internal/sync/syncer.go:351-368 | the same for a visit of the stale loop |
| Reconcile.OnlyAtKeepsOthers | internal/sync/syncer.go:315-368 | no visit is seen at another UID of the destination |
| Pointwise.EventLoopFollows | internal/sync/syncer.go:315-349 | along any walk the event loop does to each event it reaches what is due to it, judged from the world the loop started in |
| Pointwise.StaleLoopFollows | internal/sync/syncer.go:351-368 | the same for the stale loop, over the listed UIDs without event |
| Pointwise.RunFollows | internal/sync/syncer.go:307-371 | a whole run, for all walks and failures: each UID reached gets what its own cell, event, listing and fates say, all others keep theirs, and it stops at the first fatal fate and nowhere else |
| Pointwise.SuccessIs | internal/sync/syncer.go:307-371 | a run returns no error if and only if the listing succeeds and no UID that is due meets a fatal fate |
| Convergence.EventSettled | internal/sync/syncer.go:324-347 | an event dealt with has an active row with its hash |
| Convergence.StaleSettled | internal/sync/syncer.go:351-367 | a UID without event ends up active if and only if it was active and missed; else its row becomes a tombstone and is otherwise unchanged |
| Convergence.SuccessTakes | internal/sync/syncer.go:307-371 | success told by the fates: if and only if the listing succeeds, every event can be looked up and is current or written with its row, and every stale mapping listed that can be looked up gets its tombstone; failed delete calls and failed stale lookups do not count |
| Convergence.RunSettles | internal/sync/syncer.go:307-371 | after a successful run every UID has what was due to it, and nothing outside the destination changed |
| Convergence.Converges | internal/sync/syncer.go:307-371 | after success the active mappings are the hashes of the selected events and the missed rows; they equal the hashes of all events if and only if every event has the prefix and nothing was missed |
| Convergence.OrderIndependent | internal/sync/syncer.go:315-368 | for any two pairs of walks: same success, and on success the same store, calendar and counters |
| Convergence.Counters | internal/sync/syncer.go:338-366 | created counts the events without row, created, updated and unchanged add up to the number of events, deleted counts the active stale mappings that were not missed |
| Convergence.UpdatedCounter | internal/sync/syncer.go:346 | updated counts the events that have a row which is not current |
| Convergence.Idempotent | internal/sync/syncer.go:324-327 | if the second listing is complete, nothing changes whatever else fails; if nothing fails it makes no call and no write if and only if every event has the prefix |
| Recovery.UndisturbedSettles | internal/sync/syncer.go:307-371 | a run without failures succeeds, and what it makes of each cell |
| Recovery.RunRecovers | internal/sync/syncer.go:330-362 | a disturbed run, then what an undisturbed one makes of a cell: the same as without the disturbance, but for resources given up and resources rewritten |
| Recovery.Recovers | internal/sync/syncer.go:330-362 | crash recovery, for every cut, failure, walk and delete mode: the same rows as one undisturbed run, and the same calendar if and only if no existing resource was given up and none that differed from its row was rewritten after the listing lost that row |
| Recovery.SoftNeverStrays | internal/sync/syncer.go:357-361 | with soft deletes neither happens if the listing delivered the events' rows or active rows describe their resources |
| Recovery.AnyHistoryRecovers | internal/sync/syncer.go:307-371 | any number of disturbed runs is forgotten by one undisturbed run: same rows, and the same calendar if and only if none of the runs has such a stray |
| Recovery.SecondRun | internal/sync/syncer.go:324-327 | after a complete run another over the same events, with any failures and any listing, leaves store and calendar as they were if and only if it has no such stray |
| Restore.RunAligns | internal/sync/syncer.go:307-371 | from any table of the engine's own, for whatever collection URLs it was written, and any calendar content: an undisturbed run aligns the destination if and only if no row misleads it |
| Restore.TurnAligns | docs/RUNBOOK.md:115 | after a restore an undisturbed turn aligns the destination if and only if it finds the source changed against the restored state and no row misleads it, or finds it unchanged and all is aligned already |
| Restore.SyncAligns | docs/RUNBOOK.md:115 | the same for each of several independent connections in one whole Sync, whose sources answer from what their collections hold |
| Restore.RestoredStateBlocks | internal/sync/syncer.go:202-221 | a witness: a restored state that the source still shows keeps the turn from doing anything, though no row misleads it and events are missing |
| History.StepAt | internal/sync/syncer.go:307-371 | a run of a history leaves a UID alone or does what its own cell, event, listing and fates say, and keeps rows proper |
| History.ReachableRows | internal/sync/syncer.go:334-362 | over any history every row keeps dest_uid equal to source_uid, an empty ETag and the address of its create, and no row disappears |
| History.FromEmptyTable | internal/sync/syncer.go:334-362 | started from an empty table, all reachable rows are of that kind |
| History.NeverCreatedAgain | internal/sync/syncer.go:329 | a UID that has a row is never recorded as created again |
| History.CreatedAtMostOnce | internal/sync/syncer.go:329-347 | over any history a UID is recorded as created at a destination at most once |
| History.AgreementKept | internal/sync/syncer.go:330-362 | a run keeps "every active row describes the content at its address" if and only if it tears no visit: a remote effect without its row |
| History.AgreementForever | internal/sync/syncer.go:330-362 | any history whose failing calls have no effect and whose writes succeed keeps that agreement |
| History.EventsArrive | internal/sync/syncer.go:324-347 | a successful run over an agreeing store leaves every event at the destination with its content |
| History.Drift | internal/sync/syncer.go:340-345 | a witness: an update whose row is not written, and an event that reverts, leave the wrong content behind a successful, quiet run |
| History.OrphanBound | internal/sync/syncer.go:329-336 | over any history with any failures the resources written without row grow by at most one for each run that ends in error |
| History.OrphansFromStart | internal/sync/syncer.go:329-336 | counted from the start there are at most as many of them as failed runs |
| History.RunTouches | internal/storage/sqlite.go:96-106 | a run touches no row but its destination's, and of those its events' and the active ones its prefix selects only |
| History.MirrorKept | internal/sync/syncer.go:330-362 | a run keeps "a resource exists exactly while its row is active, with its content" if and only if no visit of it is half done, a soft delete of an existing resource being one |
| History.MirrorIs | internal/sync/syncer.go:307-371 | from such a mirror a successful run that misses nothing leaves under its prefix exactly its events if and only if no visit under it was half done |
| History.AllOrNothingSuffices | internal/sync/syncer.go:330-362 | hard deletes and all-or-nothing visits leave none half done |
| History.Mirror | internal/sync/syncer.go:307-371 | from an empty table, after any history without half-done visits, a successful run that misses nothing leaves under its prefix exactly its events if and only if it really deleted what it marks deleted |
| Confinement.RunConfined | internal/sync/syncer.go:307-371 | whatever its rows say and whatever fails, a run changes only rows of its destination, resources at addresses of its collection or of those rows, and without hard deletes removes none |
| Confinement.RunPurges | internal/sync/syncer.go:357-361 | with hard deletes an undisturbed run leaves no resource where an active selected row without event points |
| Pipeline.Component.Clone | internal/plugin/transformer.go:151-163 | the copying loop yields a new component equal to the old one |
| Pipeline.MaskedClone | internal/plugin/transformer.go:69-78 | masking yields a new component with the mask as summary, without description, place and attendees, and else unchanged |
| Pipeline.CategoryAllowed | internal/plugin/transformer.go:119-128 | the loop finds whether some trimmed category is allowed; none is when there are no categories; `Pipeline.CategoriesPass` says what that means for an event |
| Pipeline.CategoriesPass | internal/plugin/transformer.go:115-129 | categories joined by commas pass a category filter if and only if one of them, trimmed, is allowed, or nothing is asked for |
| Pipeline.FirstValueCounts | internal/plugin/transformer.go:50 | of several values of a property the first is read, and of none the empty text |
| Pipeline.TransformComponent | internal/plugin/transformer.go:49-149 | each of the five transformers on objects equals its specification on values; inputs are never written to, and what changed is a new object; what the specification does to a component is in the rows from `Pipeline.CategoriesPass` on |
| Pipeline.TransformPipeline.constructor | internal/plugin/transformer.go:17-19 | a new pipeline is empty |
| Pipeline.TransformPipeline.Add | internal/plugin/transformer.go:21-23 | appends the transformer |
| Pipeline.TransformPipeline.ApplyTo | internal/plugin/transformer.go:26-40 | folds the transformers in order, dropping the event as soon as one does; which events pass and with what summary, UID and details is in the rows from `Pipeline.CategoriesPass` on |
| Pipeline.TransformSameButDetails | internal/plugin/transformer.go:49-149 | one transformer either makes two private components that differ in details equal, or keeps both private and alike elsewhere |
| Pipeline.DetailsDoNotShow | internal/plugin/transformer.go:26-79 | non-interference: any list with mask-private or filter-private gives the same result for private components that differ in summary, description, place and attendees only |
| Pipeline.FilterStops | internal/plugin/transformer.go:49-55 | any list with filter-private lets no private component through |
| Pipeline.UnmaskedShows | internal/plugin/transformer.go:64-79 | conversely, without mask-private whatever passes keeps description, place and attendees |
| Pipeline.SummaryShows | internal/plugin/transformer.go:137-149 | where nothing is masked, the summary that results is the prefixes of the list, the last one first, before the original; one that does not decode, or has no prefix to get, is untouched |
| Pipeline.MaskShows | internal/plugin/transformer.go:64-79 | of a masked private component it is the prefixes behind the last mask, the last one first, before that mask's text, or "Busy" if it has none |
| Pipeline.PassesIs | internal/plugin/transformer.go:26-67 | a component passes a list if and only if its categories pass all filters and it is not private before a private filter |
| Pipeline.OnlyDetailsHidden | internal/plugin/transformer.go:49-79 | conversely, of two private components of one UID that get through such a list the results are equal if and only if they agree outside the details |
| Pipeline.PrivateByRfcShows | internal/plugin/transformer.go:49-79 | of the components that section 3.8.1.3 of RFC 5545 wants treated as private, exactly those whose CLASS reads neither PRIVATE nor CONFIDENTIAL to the letter keep description, place and attendees through a filtering or masking list, as far as their categories are allowed |
| Pipeline.MisspeltPasses | internal/plugin/transformer.go:49-67 | a witness: private in lower case, and a value of the user's own, pass both transformers unchanged |
| Pipeline.TransformUid | internal/plugin/transformer.go:88-100 | what each transformer does to the UID |
| Pipeline.LastPrefixShows | internal/plugin/transformer.go:88-100 | whatever passes has the last prefix of the list on its UID |
| Pipeline.PrefixCarried | internal/plugin/transformer.go:88-100 | a source's prefix is found on the UIDs if and only if the last prefix of the list begins with it |
| Feed.MentionsPrivate | internal/sync/syncer.go:94-106 | the scan finds whether some configured transformer filters or masks |
| Feed.AddConfigured | internal/sync/syncer.go:117-147 | appends exactly the known configured transformers, in order, a prefix-uid without prefix getting the source's |
| Feed.BuildPipeline | internal/sync/syncer.go:92-148 | the assembled list: the automatic filter if due, the source's prefix, the source's transformers, the destination's |
| Feed.NewTransformerIs | internal/plugin/transformer.go:166-213 | which kinds are known, and what becomes of the options of each, "Busy" for want of a mask text included |
| Feed.CategoriesConfigured | internal/plugin/transformer.go:195-206 | the categories allowed are those between the commas of the option, trimmed |
| Feed.ConfiguredIs | internal/sync/syncer.go:117-147 | the configured entries become transformers one by one, in order, a prefix-uid without prefix getting the source's, unknown ones being skipped |
| Feed.AssembledFilters | internal/sync/syncer.go:93-111 | a pipeline filters private events if and only if that is configured, or filter_private is on and neither filtering nor masking is |
| Feed.AssembledPrefixes | internal/sync/syncer.go:117-147 | summary prefixes come out with the destination's before the source's, the last one of each first |
| Feed.AssembledHides | internal/sync/syncer.go:93-111 | every pipeline built under filter_private filters or masks private events |
| Feed.AssembledPrefix | internal/sync/syncer.go:112-147 | the last prefix of a pipeline is the source's if and only if the last prefix-uid configured, the destination's before the source's, names no other |
| Feed.ParseWithPipeline | internal/sync/syncer.go:480-521 | the loop over components yields the events of the feed by UID, and changes no component |
| Feed.EventOfIs | internal/sync/syncer.go:486-518 | exactly when a component comes out as an event: a VEVENT that passes the pipeline with a UID and can be encoded, with all its sub-components |
| Feed.ParsedIsSupplied | internal/sync/syncer.go:486-519 | a UID has an event if and only if some component supplies it, and it is that of the last one that does |
| Feed.ParsedIsProper | internal/sync/syncer.go:505-518 | no event has an empty UID, and each is filed under its own |
| Feed.PrivateDetailsStay | internal/sync/syncer.go:486-519 | with a filtering or masking pipeline all that reaches a destination is independent of the summary, description, place and attendees of private events |
| Feed.PrivateRestShows | internal/plugin/transformer.go:151-163 | conversely, all other properties and the sub-components of a private event that gets through, alarm texts included, reach the destination: two events come out equal if and only if those agree |
| Feed.ParsedCarry | internal/sync/syncer.go:112-116 | every event of a pipeline whose last prefix is the source's carries it, and the listing selects it |
| SyncLoop.RunAlike | internal/sync/syncer.go:307-371 | a run depends on its own destination's rows only: equal ones give equal traces, success and effects |
| SyncLoop.OutcomeIs | internal/sync/syncer.go:175-252 | how a turn comes out, by what the source answers: an unreadable saved state counts as none, and the first failure decides |
| SyncLoop.OutcomeSpares | internal/sync/syncer.go:175-264 | an unknown, failing or unchanged source leaves everything as it was; the fetched state is saved, unless that write fails, even if the feed does not decode or the destination fails |
| Connections.VisitAlike | internal/sync/syncer.go:175-280 | a connection's turn, its source's answers included, depends on its own rows, its resources, those of its source's collection, and its source's state only |
| Connections.VisitSpares | internal/sync/syncer.go:175-280 | a turn leaves all that an independent connection depends on as it was: rows, resources, its source's collection and source state |
| Connections.DistinctPrefixesSuffice | internal/sync/syncer.go:472-478 | different destinations and sources, none the source of the other, are independent even in one collection when their prefixes differ by more than case |
| Connections.MeetsTheSame | internal/sync/syncer.go:189-244 | what an independent connection meets when its turn comes does not depend on the turns before it |
| Connections.AloneGiven | internal/sync/syncer.go:175-280 | the same as the next row, for whatever the sources answer if that is given |
| Connections.Alone | internal/sync/syncer.go:175-280 | non-interference: with sources that answer from what their collections hold, pairwise independent connections each get from one Sync the answers, outcome, trace, rows, resources and state of syncing alone; the deadline that all turns of a Sync share is taken not to expire |
| Scenes.ChainInterferes | internal/sync/syncer.go:175-257 | a witness that independence needs its clause about sources: when one connection writes the collection another reads, the second is unchanged alone and not unchanged after the first one's turn |
| Connections.UnchangedIs | internal/caldav/client.go:160-189 | a source is reported unchanged if and only if a state with tokens is saved and no token now shown differs from it |
| Connections.SavedStateBlocks | internal/sync/syncer.go:202-263 | after a turn that saved a state, later turns on the source do nothing, for any destination, until a token differs |
| Connections.SharedSourceStarves | internal/sync/syncer.go:202-221 | the second of two destinations of one source gets nothing in the same Sync |
| Connections.FailedIsNotRetried | internal/sync/syncer.go:240-263 | a turn whose destination or feed failed is not repeated until a token of the source differs |
| Configuration.Config.SetDefaults | internal/config/config.go:135-172 | the in-place loops fill in exactly the defaults and change nothing else |
| Configuration.Config.MigrateLegacy | internal/config/config.go:176-216 | the in-place loops yield the migrated settings, in all three cases |
| Configuration.Config.ValidateSources | internal/config/config.go:219-242 | blames the first defect of the sources, or passes them all and returns exactly their names |
| Configuration.Config.ValidateDestinations | internal/config/config.go:243-275 | blames the first defect of the destinations, or passes them all |
| Configuration.Config.Validate | internal/config/config.go:218-293 | returns no error if and only if the settings are accepted, else the first defect in the order of the checks |
| Configuration.SpoiltSource | internal/config/config.go:223-243 | an accepted configuration is no longer accepted when a source loses its name, URL or type, shares a name or gets an untyped transformer |
| Configuration.SpoiltDestination | internal/config/config.go:248-279 | the same for a destination, its credentials and its source included |
| Configuration.MinimalIsAccepted | internal/config/config.go:218-293 | one complete source and destination and a database path are enough, and each of these is needed; durations must parse and the delete mode be known |
| Configuration.BlamedIsRejected | internal/config/config.go:218-293 | settings that some error blames are not accepted |
| Configuration.DefaultsFixpoint | internal/config/config.go:135-172 | the defaults leave settings alone if and only if there is nothing to fill in |
| Configuration.DefaultsAre | internal/config/config.go:135-153 | which value every setting gets that is left out, and that all others stay |
| Configuration.NamesAre | internal/config/config.go:155-171 | sources and destinations with an address and no name are numbered by their place, from one, and are of type caldav unless another is given |
| Configuration.NothingNested | internal/config/config.go:176-216 | migration leaves no nested destination behind |
| Configuration.MigrationIsDone | internal/config/config.go:176-216 | migrating twice is migrating once |
| Configuration.MigrationLifts | internal/config/config.go:176-216 | exactly one destination for each nested one, in the sources' order and field by field, pointing to its source; nameless sources are numbered and nothing else changes |
| Configuration.MigrationSpares | internal/config/config.go:177-193 | otherwise nothing changes, but that nested destinations beside proper ones go |
| Configuration.NormalisedTwice | internal/config/config.go:125-126 | normalising twice equals normalising once if and only if no legacy destination has an address without a name |
| Configuration.AcceptedIsFixpoint | internal/config/config.go:125-133 | accepted settings are a fixpoint of both defaults and migration |
| Configuration.ResolvesUniquely | internal/config/config.go:222-269 | the source name of an accepted destination belongs to one source and no other |
| Engine.AcceptedIsKnown | internal/sync/syncer.go:177-186 | with accepted settings the unknown-source branch of Sync is never taken |
| Engine.ConnectionsHide | internal/sync/syncer.go:93-111 | under filter_private no connection's output depends on private details |
| Engine.ConnectionsPrefixed | internal/sync/syncer.go:112-147 | a connection meets the prefix condition of the results above if and only if neither its own source nor its destination asks for another prefix in the end |
| Engine.TurnPermitted | internal/sync/syncer.go:357 | a turn of a configured destination changes only rows under its name, resources at addresses of its collection or of its rows, and the saved state of the source it names; unless delete_mode is "hard" it removes no resource, whatever fails |
| Engine.HardTurnPurges | internal/sync/syncer.go:357-361 | under delete_mode "hard" an undisturbed turn leaves no resource where an active row under the source's prefix without event points |
| Engine.SyncPermitted | internal/sync/syncer.go:153-305 | the same limits for a whole Sync over the configured destinations |
| Engine.MapRange | internal/sync/syncer.go:315 | a range over a map visits every key once |
| Engine.IndexSources | internal/sync/syncer.go:74-76 | the index maps each name to its last bearer and has no other names |
| Engine.BuildFor | internal/sync/syncer.go:86-148 | a connection with a known source gets its pipeline, one without gets none |
| Engine.BuildPipelines | internal/sync/syncer.go:84-149 | one slot for each destination, each connection with a known source having its pipeline |
| Engine.PrefillStats | internal/sync/syncer.go:77-83 | one empty entry for every destination name, and no others |
| Engine.OneErrorEach | internal/sync/syncer.go:407-416 | the statistics of a turn: nothing for other destinations or an unchanged source, one error for any failure |
| Engine.TurnCounts | internal/sync/syncer.go:418-437 | the statistics of a successful turn, told by the table it finds: its events, of them those without row as created and those not current as updated, and the stale mappings not missed as deleted |
| Engine.PrefilledIs | internal/sync/syncer.go:77-83 | every configured destination starts with zeros |
| Engine.SuccessHandles | internal/sync/syncer.go:279 | the created, updated and unchanged of a successful run are its events, each once |
| Engine.Syncer.constructor | internal/sync/syncer.go:64-151 | a new syncer has index and pipelines that fit its configuration, is idle, and has an empty entry in the statistics for every destination |
| Engine.Syncer.VisitEvent | internal/sync/syncer.go:315-349 | the body of the event loop on store and server equals the specified step |
| Engine.Syncer.EventPass | internal/sync/syncer.go:315-349 | the event loop equals the specified one along its walk, and its counters count its trace |
| Engine.Syncer.VisitStale | internal/sync/syncer.go:351-368 | the body of the stale loop equals the specified step |
| Engine.Syncer.StalePass | internal/sync/syncer.go:351-368 | the stale loop equals the specified one along its walk, and its counter counts its trace |
| Engine.Syncer.SyncDestination | internal/sync/syncer.go:307-371 | leaves store and server as the specified run does for some pair of walks, with its success and counters, all zero on error |
| Engine.Syncer.ReadSource | internal/sync/syncer.go:175-252 | the source side of a turn: its outcome, and the state saved before the feed is parsed |
| Engine.Syncer.WriteDestination | internal/sync/syncer.go:244-264 | the destination side: the feed parsed through the connection's own pipeline, the number of its events, then one run; what its configuration permits it is `Engine.TurnPermitted` |
| Engine.Syncer.TakeTurn | internal/sync/syncer.go:175-264 | one turn equals the specified visit |
| Engine.Syncer.VisitConnection | internal/sync/syncer.go:175-280 | a turn equals the specified visit, and the statistics record it |
| Engine.Syncer.Record | internal/sync/syncer.go:407-437 | success adds the number of events and the three counters, any failure one error, an unchanged source nothing |
| Engine.Syncer.VisitAll | internal/sync/syncer.go:175-280 | the loop takes every connection's turn in order, errors of one notwithstanding |
| Engine.Syncer.Sync | internal/sync/syncer.go:153-305 | a call while another runs changes nothing; any other takes all turns, gives the lock back and fails if and only if some turn does other than leave the source unchanged, succeed or fail at its destination; with delete_mode other than "hard" no resource disappears, and nothing outside the configured destinations and sources changes |
| ChangeDetection.MergeChildren | internal/caldav/client.go:335-345 | the loop keeps the first event of each UID not seen before, and marks them seen |
| ChangeDetection.EventIs | internal/caldav/client.go:335-341 | what counts as an event, and that its UID is its first |
| ChangeDetection.MergeCalendar | internal/caldav/client.go:325-346 | merging fails if and only if some GET does, and else keeps the first event of each UID over all resources that decode |
| ChangeDetection.FirstWinsIs | internal/caldav/client.go:325-346 | merging keeps one event of every UID that occurs, and none twice |
| ChangeDetection.FirstWinsAll | internal/caldav/client.go:339-342 | without repeated UIDs merging loses nothing |
| ChangeDetection.FirstWinsForemost | internal/caldav/client.go:325-346 | merging keeps exactly the events that are the first of their UID |
| ChangeDetection.FetchCalDAVEvents | internal/caldav/client.go:232-353 | the loops equal the specified fetch: which addresses are asked for, the fallback to listing all, the state returned |
| ChangeDetection.FetchIs | internal/caldav/client.go:232-353 | which addresses a fetch asks for; it fails if and only if one of their resources cannot be had or the merged calendar cannot be written out, and else brings the first event of each UID in them with the state read at the end, or failing that the token of the REPORT |
| ChangeDetection.FailedFetchFailsTurn | internal/sync/syncer.go:229-238 | a turn with such a fetch ends with that error and leaves rows, resources and source states as they were |
| ChangeDetection.FetchBrings | internal/caldav/client.go:232-353 | whatever its requests see, a fetch brings a UID if and only if a resource it asked for holds it |
| ChangeDetection.StableFetch | internal/caldav/client.go:232-319 | while the source stands still and is listed in full the fetch gathers exactly the events it holds and saves the state that was seen; when the next check says unchanged |
| ChangeDetection.StableUpToDate | internal/caldav/client.go:325-346 | then the merged calendar has exactly the events of the source if and only if no UID occurs twice in it |
| ChangeDetection.MovingFetch | internal/caldav/client.go:232-297 | a source that moves at any time, listings and GETs each at their own moment: every UID held at the end is brought if and only if the fetched resources cover it, as they do if nothing moves after a full listing |
| ChangeDetection.UpToDateIs | internal/caldav/client.go:280-346 | whatever the requests saw, what was fetched is the content of a collection if and only if the first events of their UIDs among those gathered are; never if the collection has a UID twice |
| ChangeDetection.UpToDateByAddress | internal/caldav/client.go:280-346 | with one event for each address that is so if and only if every resource was seen as it is in that version |
| ChangeDetection.SavedStateVouches | internal/caldav/client.go:289-296 | with tokens that differ when content does: a later unchanged answer can be trusted if and only if there can be none or the first events of their UIDs gathered are those of the version whose tokens were saved; with the state read at the end there can be one |
| ChangeDetection.VouchesByAddress | internal/caldav/client.go:289-296 | with one event for each address the latter is: every resource was seen as it is in the version whose tokens were saved |
| Races.DroppedIs | internal/sync/syncer.go:229-257 | whatever its requests saw, a successful turn marks an active mapping deleted if and only if no event that was fetched and survives the merge yields its UID, and the run did not miss it |
| Races.DistinctSupply | internal/caldav/client.go:335-345 | without repeated UIDs any event in a fetched resource counts for that |
| Races.DeletionsAreGenuine | internal/sync/syncer.go:229-257 | against any version of the source the deletions of a successful turn are genuine if and only if every active UID that a held event yields is yielded by an event that was fetched and survives the merge, or was missed |
| Races.StandingStill | internal/caldav/client.go:232-319 | so they are while the source stands still, is listed in full and repeats no UID |
| Races.BrokenListings | internal/caldav/client.go:248-277 | the same from the token streams of the listings, wherever each breaks off: the fetched resources are those whose responses were closed before |
| Races.WholeAnswers | internal/caldav/client.go:259 | of a REPORT read to its end the addresses of existing resources count, of a listing all addresses |
| Races.RaceDeletes | internal/sync/syncer.go:229-257 | exactly what a turn drops, in whatever way the source moves, and that later turns do nothing about it until a token differs |
| Races.LateChangeUnseen | internal/caldav/client.go:289-294 | after a turn that read and saved the state, the next finds nothing changed, while what was fetched is what the source then holds only under the same condition: with one event for each address, if and only if no change came between a GET and the reading of the state |
| EndToEnd.ConveysIs | internal/sync/syncer.go:229-257 | for a source that stands still and is listed in full, the parsed events are exactly those its pipeline makes of the events it holds, if and only if none of them collide and merging spares one component for each |
| EndToEnd.NoUidTwiceSuffices | internal/caldav/client.go:339-342 | merging does so when no UID occurs twice in the source |
| EndToEnd.TurnReflects | internal/sync/syncer.go:175-264 | the whole way: an undisturbed turn over such a source, from any table of the engine's own and any collection, leaves under the prefix exactly what the pipeline makes of the events held, nothing missing, outdated or left over, if and only if it finds the source changed and no row misleads it, or finds it unchanged and all is there |
| EndToEnd.SyncReflects | internal/sync/syncer.go:175-280 | the same for each of several independent connections in one Sync |
| EndToEnd.SuccessReflects | internal/sync/syncer.go:175-371 | a turn that reports success and misses no stale row, whatever fails in it, leaves exactly that if and only if no resource under the prefix is stuck: no row vouches for an event that is not there, and everything without event is really deleted |
| Scenes.LiveEventDeleted | internal/sync/syncer.go:229-257 | a witness, from a table in step with the source: editing one event while the source is read gets another, still held and let through, marked deleted without any error, and the next turn does nothing; the encoders need accept the events of the scene only |
| Scenes.BrokenListingDeletes | internal/caldav/client.go:619-622 | a witness: the source stands still, a listing breaks off after one response, and a live event is marked deleted without any error |
| Scenes.OverrideNeverFetched | internal/caldav/client.go:339-342 | a witness: of a recurring event and its override in one resource the merged calendar has the first only, and the next check says unchanged |
| Overlay.PutLeaf | internal/config/env.go:55-87 | what a write at a path does to every leaf: written, unchanged at compatible paths, gone elsewhere |
| Overlay.PutCommutes | internal/config/env.go:55-87 | two writes commute, list padding included, if and only if their paths are compatible or they are the same write |
| Overlay.BuildAnyOrder | internal/config/env.go:30-51 | pairwise compatible bindings build the same tree in every order |
| Overlay.BuildLeaf | internal/config/env.go:30-51 | every leaf of a built tree |
| EnvTree.InsertInto | internal/config/env.go:55-87 | the recursion with its growing loop equals the specified insertion, panics included |
| EnvTree.PathOfIsShaped | internal/config/env.go:55-87 | the paths that segments spell end in a key, and no index follows an index |
| EnvTree.InsertIsPut | internal/config/env.go:55-87 | on trees whose lists hold maps an insertion panics if and only if the segments spell no path; else it writes at their path, and lists still hold maps |
| EnvTree.BuildEnvTree | internal/config/env.go:30-51 | the loop survives if and only if every variable that counts spells a path, and then builds the tree of their bindings; `EnvTree.NameBinds` says which name spells which path |
| EnvTree.AtoiOfNumber | internal/config/env.go:58-64 | a segment in decimal notation is read as that number |
| EnvTree.AtoiNeedsDigits | internal/config/env.go:58-64 | a segment with anything but digits behind its sign is a key |
| EnvTree.NameBinds | internal/config/env.go:17-28 | a variable named by the prefix and the keys, in any case, and indices of a path, joined by underscores, is bound to exactly that path |
| EnvTree.CountsIs | internal/config/env.go:37-44 | which variables count: those with the prefix and a value, but for the inline configuration |
| Merge.DeepMerge | internal/config/env.go:110-130 | the loop over keys, in any order, yields the specified merge |
| Merge.MergeLists | internal/config/env.go:134-151 | the loop over indices yields the specified merge |
| Merge.MergedLength | internal/config/env.go:134-151 | a merged list is as long as the longer one |
| Merge.MergeIntoNothing | internal/config/env.go:110-151 | merging into nothing copies |
| Merge.MergedIsSource | internal/config/env.go:110-151 | the result is the source alone if and only if the source covers the target |
| Merge.MergeSelf | internal/config/env.go:110-151 | merging a tree into itself changes nothing |
| Merge.MergeTwice | internal/config/env.go:110-151 | merging the same tree twice is merging it once |
| Merge.MergeAssociates | internal/config/env.go:110-151 | merging three trees is associative if and only if no value of another kind in between hides something the last does not cover |
| EnvOverlay.MergedLeaf | internal/config/env.go:110-151 | every leaf of a merge: the source's win, the target's survive exactly where the source yields |
| EnvOverlay.OverlayLeaf | internal/config/env.go:30-151 | for compatible variables every setting of the file, elements of lists included, takes its variable's value, keeps its own if all variables spare it, and is gone otherwise |
| EnvOverlay.NamedSettingWins | internal/config/env.go:17-28 | among compatible variables one so named sets the setting at its path, whatever the file has there |
| EnvOverlay.NoOverlay | internal/config/env.go:110-130 | without variables the file stays as it is |
| EnvOverlay.PaddingOverwritesScalars | internal/config/env.go:70-72 | a witness of a setting that is compatible with a variable and not spared by it: addressing a later element loses the scalar elements before it |
| Multistatus.CollectHref | internal/caldav/client.go:641-654 | the innermost loop reads the text of an address, or up to where the stream breaks off |
| Multistatus.CollectStatus | internal/caldav/client.go:656-669 | the same for a status |
| Multistatus.ReadResponse | internal/caldav/client.go:631-679 | the loop over one response yields its address if wanted, and nothing if the stream breaks off in it |
| Multistatus.XmlHrefs | internal/caldav/client.go:614-682 | the three nested loops equal a one-pass scan of the tokens, and terminate; `Multistatus.ReadsContributions` says what that reads |
| Multistatus.WholeText | internal/caldav/client.go:641-654 | where no element of the name is inside, the text up to the first closing tag is all the text |
| Multistatus.ParsesPrinted | internal/caldav/client.go:611-682 | on every printed document without a response inside a response: in order, the last trimmed non-empty address of each response whose last status passes (`Multistatus.StatusDecides`), an address or status ending at the first closing tag of its name |
| Multistatus.FieldsAreLast | internal/caldav/client.go:640-669 | where addresses and statuses hold text only, what counts of a response is the text of its last address and its last status, however deep |
| Multistatus.ReadsContributions | internal/caldav/client.go:672-677 | from a printed listing exactly what its responses contribute is read, in order |
| Multistatus.StatusDecides | internal/caldav/client.go:673 | where only existing resources count, a response with an HTTP/1.1 status of a three-digit code adds its address if and only if the code begins with 2, one without status does, one without address never; otherwise every response with an address does |
| Multistatus.ParsesTruncated | internal/caldav/client.go:619-622 | wherever the stream of such a document breaks off, exactly those of the responses closed before |
| Multistatus.XmlPropValue | internal/caldav/client.go:582-609 | the two loops return the trimmed text of the first element of the name, or what there is of it |
| Multistatus.PropOfPrinted | internal/caldav/client.go:580-609 | read from any printed document, it is the trimmed text of the first element of that name in document order, up to the first closing tag of the name |
| Multistatus.EscapeRoundTrip | internal/caldav/client.go:684-686 | an escaped token reads back as it was and holds no angle bracket |
| Multistatus.EscapeFirst | internal/caldav/client.go:684-686 | character by character, the three predefined entities of XML 1.0 and nothing else |
| LogRing.AtLeastIsSelection | internal/web/logstore.go:58-64 | the filter keeps exactly the entries whose level parses and is high enough |
| LogRing.NewestSnoc | internal/web/logstore.go:44-69 | what is appended comes first, and fewer entries are the front of more |
| LogRing.ThresholdIs | internal/web/logstore.go:48-53 | no threshold, or one that is no level, is that of Info |
| LogRing.TakeIs | internal/web/logstore.go:54-56 | a limited list is the front of the whole one |
| LogRing.LogStore.constructor | internal/web/logstore.go:28-30 | a new ring is empty |
| LogRing.LogStore.Append | internal/web/logstore.go:32-41 | the ring goes on representing the last entries ever appended, as many as it has room for |
| LogRing.LogStore.List | internal/web/logstore.go:44-69 | the first entries, up to the limit, of the filtered newest-first history, an empty or unknown level meaning Info |
| Retry.CalculateDelay | internal/retry/retry.go:115-132 | the reassignments compute the specified delay |
| Retry.DelayInRange | internal/retry/retry.go:115-132 | for every attempt, configuration and jitter the delay is between zero and a maximum that is not negative, and equals one that is |
| Retry.BackoffIs | internal/retry/retry.go:116-119 | the base delay first, then the multiple of the one before, as far as the maximum goes |
| Retry.DelayIs | internal/retry/retry.go:121-131 | the jitter changes that by its share, the result being held between zero and the maximum and cut to whole nanoseconds; without jitter it is the backoff |
| Retry.TriedAgainIs | internal/retry/retry.go:80-105 | what counts as success, and which errors and statuses are tried again |
| Retry.WaitIs | internal/retry/retry.go:84-91 | only a response with a bad status can ask for a wait |
| Retry.BackoffGrows | internal/retry/retry.go:116-119 | before jitter, later attempts never wait less |
| Retry.TotalDelayBound | internal/retry/retry.go:60-65 | the waits after n calls add up to at most n times the maximum |
| Retry.Do | internal/retry/retry.go:41-69 | at most MaxAttempts calls and MaxAttempts - 1 waits; nil if and only if the last call succeeded; each error has its cause; no call at all, and nil, below one attempt |
| Retry.DoWithRetryAfter | internal/retry/retry.go:71-113 | the same, each wait being what the server asks for or else the backoff; it also waits after the last attempt if and only if the server asks |
| RunLock.StepKeepsInv | internal/sync/syncer.go:153-167 | every atomic step of every caller keeps: one owner of the flag, flag set exactly while owned, mutex held exactly by its holder, log serial |
| RunLock.AtMostOneBody | internal/sync/syncer.go:153-167 | in every interleaving of any number of callers at most one body runs, and effects of bodies never interleave |
| RunLock.SkippedHasNoEffect | internal/sync/syncer.go:155-159 | the steps of skipped calls can be taken out of an execution: what is left is an execution of everybody else's same steps, with the same log and flag after any number of steps and the same state at the end |
| RunLock.NeverStuck | internal/sync/syncer.go:153-167 | whoever holds the mutex can go on, and when nobody does everybody can |
| RunLock.AllReturnedIsClear | internal/sync/syncer.go:163-167 | once all calls have returned, flag and mutex are clear and no run is open |

## Left out

- History.ReachableRows: the destination keeps its name and its collection URL through a history; prefix and delete mode may change.
- Connections.Alone: all turns of one `Sync` share its deadline (internal/sync/syncer.go:381, cmd/synccal/main.go:147), so a turn that hangs can make the calls of later ones fail; that is not modelled, nor is anything else that sources have in common beyond the resources they hold.
- ChangeDetection.SavedStateVouches: speaks of sources that always show a token, and the same one only while their content is the same.
- ChangeDetection.VouchesByAddress: speaks of sources that keep at most one event at each address, as section 4.1 of RFC 4791 has it but for the overrides of a recurring event; `ChangeDetection.SavedStateVouches` has no such condition.
- Restore.SyncAligns: for several connections at once the rows belong to the present collection URLs; `Restore.TurnAligns` has no such condition.
- Multistatus.ParsesPrinted: does not speak of a response inside a response, which RFC 4918 does not allow.
- HTTP, TLS, authentication, redirects and URL resolution (internal/caldav/client.go:30-88, 506-547): connectors are abstract operations with fates; the retries inside one call are folded into its fate.
- A conditional request that the server rejects is a refused call; the engine stores empty ETags only and so never makes one.
- go-ical, YAML, SQLite and zap: decoding and encoding of calendars, parsing of durations and of log levels are parameters; `CreateEvent`'s error for an event without UID cannot arise from what is handed to it.
- Public feeds (internal/caldav/client.go:103-127, 199-230): they enter `SyncLoop` as a probe and a fetch like any other source; only the CalDAV fetch is modelled inside.
- Timestamps, `LastError`, durations, the names and addresses in a statistics entry, metrics, logging, cron, `Stop` and signals.
- `ListEvents` of the store and of the client, the web server, the registry and the connector wrappers.
- The injection of a prefix into the option maps of the configuration that pipelines are built from (internal/sync/syncer.go:124-126, 139-141) is modelled by its effect on the pipeline, not as a change of the configuration.
- Replacing the configuration under a running syncer (internal/web/server.go:319-325).
- Environment and merge trees are values: `EnvTree.InsertInto`, `Merge.DeepMerge` and `Merge.MergeLists` return new trees where the Go code writes into maps, so aliasing between the two merged trees is not modelled.
- List indices too large to allocate; reading the process environment; `Load` and the inline configuration variable.
- White space is ASCII in `Text.TrimSpace`, and so are the letters in `Text.ToLower`; Go also trims Unicode spaces, and `strings.ToLower` (internal/config/env.go:59, 65, 80) knows other letters.
- The date forms of `Retry-After` (internal/retry/retry.go:167-182): the wait asked for is a parameter. Delays are computed over the reals, not in floating point.
