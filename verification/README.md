# A model of the bridge's history store, group state, invites and streams

The bridge keeps Nostr events in one SQLite store behind two doors: a strict local door for clients and
a tolerant mesh door for gossip. Replies are checked against their ancestry, parked when their parent is
missing, and drained when it arrives; every thread row keeps two incremental counters. The relay's own
group state (channel metadata, admins, members) lives in the same store as signed replaceable events,
which each command reads back, edits and signs again. Invites let a claimant at one bridge join a
community at another over an unreliable direct-message network.

The project states and proves what these parts promise:

- **Thread engine.** `Tables` and `Events` are the data, `Engine` the specification of one ingest as a
  relation between table values, `HistoryStore` the in-place program proved against it; `IngestRules` tells
  what one ingest answers and writes from kinds, tags and rows alone. `Attach` and
  `Reachable` carry the invariant of every reachable state; `Forest`, `Convergence`, `MeshRuns`, `Doors`,
  `Confluence`, `Emits`, `Replaceable` and `Deletions` prove the theorems about runs; `Limits` and `Witnesses` show
  where the promises stop.
- **Reads.** `Keyset` is keyset pagination by itself, `Reads` the window, the thread and the summary.
- **Group state.** `Groups` is the pure command machine and its encodings, `GroupState` the
  read-decide-write cycle on the tables, `GroupRuns` the refinement of runs, `GroupCommands` what each
  command leaves behind and when it is refused, `GroupRelay` the executor
  in place, `Admissions` the interleavings of concurrent invite admissions, `GroupCap` a run past the
  cap of the read-back.
- **Invites and claims.** `Base64Url`, `Invites` and `Adjudication` are codes, receipts and
  adjudication, `ClaimChecks` what an accepted claim proves about them; `ClaimProtocol` is a network of bridges and the safety of a claim, `ClaimProgress` its
  way back; `PendingSlots` the bounded waiting room.
- **Small cores.** `StandaloneStore`, `Sse`, `SseRoundTrip`, `RateLimit`.

Conventions. An event id is the number its 64 hex digits spell (`Ids.HexOrder` says why that is the
text order). A `Universe` says what every id stands for, since an id is a hash of its event. SQLite does
not say in which order it returns the orphans of one parent, so the drain is a relation that allows
every order (`Confluence` proves that over plain events the order does not matter). An event is `Plain` when it is a thread-scoped reply or carries no 64-hex root or reply
marker; exact depths and convergence need it, the counters do not (`Forest.FirstReplyDecides`,
`Forest.SecondReplyIsRefused` and `Witnesses.FirstReplyWins` show what goes wrong without it). Signatures, MACs, JSON and UTF-8 are
values about which only the laws in `Invites.Lawful`, `Invites.Ideal` and `GroupState.Signs` are
assumed.

Where the code and its comments differ, the model follows the code: a lone `root` marker is a top-level
event; the replaceable rule hard-deletes the superseded row, after which a reply under it is an error;
`store_relay_authored` does not drain; a deletion that arrives before its target is lost; an oversize
partial line is dropped and its tail read as a new line; a parked reply whose timestamp exceeds the
column makes its parent's ingest fail, so gossip does not converge on such a set.

Check the project with `dafny verify dfyconfig.toml`.

## Model

| member | source | states |
|---|---|---|
| Ids.HexOrder | src/history/engine.rs:55-69 | comparing ids as numbers is comparing their canonical lowercase texts, for equality and for order |
| Ids.LexIsTotal | src/proto.rs:30-40 | the text order behind sorting and tie-breaks is strict and total |
| Ids.LexIsTransitive | src/proto.rs:30-40 | and transitive |
| Ids.LowerLetters | src/history/engine.rs:815-828 | lower-casing maps each of the 26 capital letters to its small one and changes no other character |
| Ids.TextsOfIds | src/history/engine.rs:52-66 | a text names an id exactly when it is 64 hex digits, and two such texts name the same id exactly when they agree up to case |
| Events.FirstTagReads | src/nip29.rs:734-745 | the first tag of a name decides, a tag without a value reads as empty, and presence is of the name alone |
| Events.MarkedIsFirst | src/history/engine.rs:815-828 | the scan for a marker finds the id on the first e-tag that carries the marker and 64 hex digits, and nothing exactly when no tag does |
| Events.ReplyReads | src/history/engine.rs:44-46 | an event is a reply exactly when it is a message of kind 9 or 40002 to 40008 with a `reply` marker; the first of these names its parent, the first `root` marker the root it claims, else its parent |
| Events.ScanMarkers | src/history/engine.rs:815-828 | one pass keeps the first 64-hex `root` and the first 64-hex `reply` marker and ignores every other e-tag |
| Events.PlainRootsItself | src/history/engine.rs:848-851 | a plain event that is no reply derives itself as its root |
| Events.ChannelIsLeast | src/history/engine.rs:783-785 | the channel of an event is the least of the lower-cased values of its `h` tags, told from the tags themselves, and absent exactly when no `h` tag has a value |
| Events.RivalsShareASlot | src/history/engine.rs:228-236 | two different replaceable events share a slot exactly when they have the same author, the same kind and, for kinds 30000 to 39999, the same first `d` value, a missing one reading as empty |
| Engine.TargetsAreNamed | src/history/engine.rs:794-806 | the ids a deletion collects are exactly those spelled by any of its e-tags |
| IngestRules.DuplicateChangesNothing | src/history/engine.rs:91-98 | a redelivery is reported as a duplicate and changes no table |
| IngestRules.TurnedAway | src/history/engine.rs:105-170 | in terms of kinds, tags and stored rows: which events are turned away and for which first objection; the local door writes nothing, the mesh door exactly one parked or quarantined row with its time |
| IngestRules.ReplyIsWritten | src/history/engine.rs:306-470 | what an accepted reply writes, column by column: its own row, new depth-0 rows, one count for parent and root, and the last reply time by the door |
| IngestRules.DrainedIsWritten | src/history/engine.rs:575-634 | a drained reply is written exactly as the mesh door would have written it, tells of its root, and is visited in turn |
| IngestRules.DeletionTells | src/history/engine.rs:494-530 | deleting a live reply tells of the root it claims and its channel, deleting anything else of nothing |
| Attach.Unattached | src/history/engine.rs:400-407 | a reply that is not stored has no thread row, so the `changes() != 1` branch is never taken |
| Attach.ResolvedFacts | src/history/engine.rs:306-365 | a resolved reply has depth 1 to 100, greater than its parent's, names its parent and root as its markers do, and shares its channel |
| Attach.InsertReplyAttaches | src/history/engine.rs:371-429 | storing a reply fails exactly on its timestamp or a missing root event, and otherwise changes each thread row exactly as stated row by row |
| Attach.AttachCounters | src/history/engine.rs:411-423 | the two increments keep both counters of every row equal to the numbers of its live replies |
| Attach.AttachKeepsBase | src/history/engine.rs:371-429 | attaching a resolved reply keeps the whole invariant of the tables |
| Attach.DeleteEffect | src/history/engine.rs:496-528 | deleting a live event flips its flag and lowers exactly its parent's and its root's counter |
| Attach.DeleteCounters | src/history/engine.rs:509-522 | after a deletion both counters of every row are still exact, so `MAX(.., 0)` never clips |
| Attach.DeleteKeepsBase | src/history/engine.rs:478-537 | one deletion target keeps the whole invariant, stored or not, deleted before or not |
| Reachable.DedupedEffect | src/history/engine.rs:220-288 | a replaceable insert removes at most the previous holder of its own slot, and fails only on its timestamp |
| Reachable.DedupedKeepsBase | src/history/engine.rs:220-288 | a replaceable insert keeps the invariant |
| Reachable.DeleteAllKeepsBase | src/history/engine.rs:488-529 | any list of deletion targets, repeated or overlapping, keeps the invariant and removes no row |
| Deletions.DeleteAllMarks | src/history/engine.rs:488-504 | of the stored events, exactly those named become deleted, those deleted before stay so, and none changes otherwise |
| Reachable.WaitingIsSettled | src/history/engine.rs:585-631 | a drained orphan always finds its parent: the top-level and re-park branches are unreachable, and what happens to it is decided by its resolution |
| Reachable.StepDraining | src/history/engine.rs:575-634 | every step of the drain keeps: a parked reply with a stored parent is still on the work list |
| Reachable.StepDecreases | src/history/engine.rs:575-634 | the worklist terminates: an orphan tried leaves the waiting room for good, a parent popped shortens the stack |
| Reachable.DrainComesToAnEnd | src/history/engine.rs:575-634 | every drain, from every state of its work list, reaches its end or an error |
| Reachable.IngestHasAnOutcome | src/history/mod.rs:102-118 | so every ingest has an outcome, whatever the tables hold |
| Reachable.FrontKeepsBase | src/history/engine.rs:82-198 | each branch of an ingest, up to the drain, keeps the invariant and stores at most the ingested event |
| Reachable.IngestKeepsBase | src/history/mod.rs:102-118 | one ingest keeps the invariant, and a rejected or failed one changes nothing |
| Reachable.IngestDrains | src/history/engine.rs:575-634 | after an ingest no parked reply has a stored parent and nothing is both parked and stored |
| Reachable.ReachableKeepsBase | src/history/engine.rs:371-537 | in every state reached through both doors, the relay door and the reaper, reply_count and descendant_count equal the numbers of non-deleted replies by parent and by root |
| Reachable.ReachableIsDrained | src/history/engine.rs:575-634 | without the relay door the waiting room is drained after every operation |
| Forest.ReachableForest | src/history/engine.rs:306-444 | in every reachable state a reply has depth 1 to 100, greater than its parent's: no cycles |
| Forest.ReachableIsExact | src/history/engine.rs:306-444 | over plain events each row lies one level below its parent, in its parent's thread and channel |
| Forest.ChainReachesRoot | src/history/engine.rs:306-444 | over plain events, following parents exactly `depth` times reaches the recorded root, which has depth 0, through one channel |
| Forest.FirstReplyDecides | src/history/engine.rs:344-351 | the first reply to a parent without a row fixes what the next one must name, and changes it exactly when the parent derives another root |
| Forest.SecondReplyIsRefused | src/history/engine.rs:344-355 | of two such replies that either order would admit first, the second is refused |
| Forest.StubsNeverFail | src/history/engine.rs:433-444 | over plain events without hard deletes `insert_stub` never fails: an ingest errors only on a timestamp |
| Convergence.LevelIsUnique | src/history/engine.rs:306-365 | in the batch forest an event is attached at one level |
| Convergence.AttachedIsLeast | src/history/engine.rs:306-365 | the batch forest is the least set closed under the attachment rules |
| Convergence.TablesAreBatch | src/history/engine.rs:82-198 | stored is attached, quarantined is refused for the stated reason, parked is a reply whose parent is not attached |
| MeshRuns.ConvergesIffNoBlocker | src/history/engine.rs:541-634 | the end state of mesh runs over a delivered set of plain events is independent of order and repetition if and only if no delivered reply beyond the 64-bit timestamp range resolves under an event the batch forest attaches |
| MeshRuns.MeshConvergence | src/history/engine.rs:82-198 | without such a reply, two mesh runs that delivered the same events in any orders with any repetitions end in the same tables but for reception times |
| MeshRuns.MeshEndsInBatch | src/history/engine.rs:575-634 | and the common end state is the batch forest of what was delivered: stored, quarantined and parked are what its rules say |
| MeshRuns.DeliveryKeepsBlockers | src/history/engine.rs:575-634 | a mesh delivery removes no stored event, and such a reply, once parked, stays parked |
| Doors.OneValidator | src/history/mod.rs:73-100 | the local door rejects exactly what the mesh door parks or quarantines, for the same reason; a rejection writes nothing, parking and quarantining touch no event or thread row |
| Doors.BothAccept | src/history/engine.rs:446-470 | when one door accepts so can the other, with the same report and tables but for the direct parent's last_reply_at |
| Confluence.DrainEndsOneWay | src/history/engine.rs:575-634 | over plain tables all orders of sibling orphans end alike: every drain fails, or all finish with the same tables and tell of the same threads |
| Confluence.IngestHasOneOutcome | src/history/mod.rs:102-118 | so an ingest of a plain event has one outcome: the same tables, and the same report up to the order of its emits |
| Confluence.DoorsAgree | src/history/engine.rs:446-470 | when one door accepts a plain event, every ingest of it through the other accepts it with the same report and the same tables but for the direct parent's last_reply_at |
| Confluence.RunsHaveOneOutcome | src/history/engine.rs:575-634 | both hold after every run of plain events |
| Emits.EmitsAreComplete | src/history/engine.rs:371-537 | over plain events a depth-0 event not among the emits of an accepted ingest has the same row and the same live replies as before |
| Replaceable.BeatsIsTotal | src/history/engine.rs:254-257 | newer wins and a tie goes to the lower id: a strict total order on distinct events |
| Replaceable.SlotsHoldTheGreatest | src/history/engine.rs:220-288 | in every reachable state a replaceable event is stored exactly when it was offered and no offered event of the same author, kind and (for kinds 30000 to 39999) `d` value is newer, or as old with a lower id |
| Replaceable.OnlyRivalsAreRemoved | src/history/engine.rs:220-288 | over every run a step removes a stored event exactly when it stores a rival of it, which is then newer or as old with a lower id; one that differs in author, kind or (for those kinds) `d` never does |
| Replaceable.StaleMeansBeaten | src/history/engine.rs:252-258 | a stale report means that a stored rival is newer, or as old with a lower id, and nothing was written |
| Replaceable.PresentedIsOffered | src/history/engine.rs:172-198 | when every reply gossiped is in range and the replaceable events presented are plain, each one in range is offered to its slot: no drain error turns it away |
| Replaceable.ReplaceableConvergence | src/history/engine.rs:220-288 | then two runs that presented the same replaceable events to doors that take them hold the same winners, whatever the order, doors, redeliveries and other traffic |
| Replaceable.OfferedConvergence | src/history/engine.rs:220-288 | without that condition, two runs whose reports accepted the same replaceable events hold the same winners |
| Limits.RelayDoorDrains | src/history/engine.rs:206-213 | the relay door keeps the waiting room drained if and only if it stores nothing new or nobody waits for the event |
| Limits.RelayDoorLeavesAnOrphan | src/history/engine.rs:206-213 | a concrete run in which the relay door leaves a reply parked under a stored parent |
| Limits.ResolvedReplyFails | src/history/engine.rs:380-434 | a reply that resolves fails exactly when its timestamp does not fit or its root event is gone |
| Deletions.DeletedExactly | src/history/engine.rs:478-537 | over every run and in each of its states a stored event is deleted if and only if some earlier accepted, first-time deletion spelled its id in any of its e-tags while it was stored |
| Deletions.OrderOfDeletion | src/history/engine.rs:494-503 | a new deletion and its target accepted in the two orders: target first it ends deleted, deletion first it does so if and only if it was already stored |
| Limits.EarlyDeletionIsLost | src/history/engine.rs:494-503 | a concrete pair of runs in which the two orders differ |
| Witnesses.LateReplyTurnsItsParentAway | src/history/engine.rs:541-558 | a concrete pair of mesh runs: a parked reply out of range turns its parent away, of any kind gossip may store, while in the other order the parent is stored |
| Witnesses.SupersededRootFailsReplies | src/history/engine.rs:433-444 | a concrete run after which a reply that resolves is an error because its root was superseded |
| Witnesses.FirstReplyWins | src/history/engine.rs:344-355 | a concrete pair of runs: of two replies to a parent with a marker of its own the first is stored and the second quarantined |
| HistoryStores.HistoryStore.InsertEvent | src/history/engine.rs:721-755 | inserts the event row in place or leaves the tables alone |
| HistoryStores.HistoryStore.BumpCounters | src/history/engine.rs:416-470 | the two in-place updates are the specified bump |
| HistoryStores.HistoryStore.InsertReplyRows | src/history/engine.rs:371-429 | the statements of `insert_reply`, in place, are its specification |
| HistoryStores.HistoryStore.InsertOnce | src/history/engine.rs:220-288 | the statements of `insert_deduped`, in place, are its specification, whose slots `Events.RivalsShareASlot` tells from the events |
| HistoryStores.HistoryStore.SoftDelete | src/history/engine.rs:496-528 | one guarded soft delete in place, with its emit |
| HistoryStores.HistoryStore.DeleteTargets | src/history/engine.rs:488-529 | the loop over the e-tags does what deleting the targets one after another does |
| HistoryStores.HistoryStore.ResolveNow | src/history/engine.rs:306-365 | resolution reads the tables and follows the specified order of checks |
| HistoryStores.HistoryStore.PendingChildren | src/history/engine.rs:704-719 | every parked reply of a parent, each once |
| HistoryStores.HistoryStore.DrainPending | src/history/engine.rs:575-634 | the explicit stack makes a drain run to its end or to an error, and terminates |
| HistoryStores.HistoryStore.IngestReply | src/history/engine.rs:146-170 | the reply branch of both doors, in place |
| HistoryStores.HistoryStore.Ingest | src/history/mod.rs:102-118 | one transaction: the new tables and outcome are those of one specified ingest, rolled back on error |
| HistoryStores.HistoryStore.StoreRelayAuthoredEvent | src/history/mod.rs:120-135 | the relay door in place |
| HistoryStores.HistoryStore.ReapOrphans | src/history/mod.rs:288-303 | drops exactly the orphans parked longer ago than the time to live, keeps the others as they were, and counts the dropped |
| Keyset.SelectOrdered | src/history/read.rs:53-63 | `ORDER BY .. LIMIT`: the first rows of the one ordered listing of a set |
| Keyset.LimitKeepsTheFirst | src/history/read.rs:53-63 | `LIMIT n` keeps exactly the rows that fewer than `n` rows precede |
| Keyset.ListingIsUnique | src/history/read.rs:60 | a set of rows has one ordered listing |
| Keyset.ProbePage | src/history/read.rs:40-76 | fetching `limit + 1` and truncating gives the page, whether more rows follow, and the cursor of the last row |
| Keyset.WalkReturnsAll | src/history/read.rs:33-101 | following the cursors over a fixed set returns all its rows in order, in the expected number of pages |
| Keyset.PageCountIsCeiling | src/history/read.rs:65-76 | that number is max(1, ceil(n / limit)) |
| Keyset.CursorsAdvance | src/history/read.rs:43-51 | cursors only move forward |
| Keyset.NoRowRepeats | src/history/read.rs:43-51 | with writes between the pages no row is returned twice |
| Keyset.LastingRowIsReturned | src/history/read.rs:43-76 | with writes between the pages a row visible throughout a finished walk is returned |
| Keyset.FilteredWalk | src/history_adapter.rs:268-273 | filtering each page afterwards yields the matching rows in order |
| Reads.ClampLimit | src/history/read.rs:23-25 | the page limit lies between 1 and 500 and is the requested one within that range |
| Reads.ListParticipants | src/history/read.rs:183-200 | distinct authors of live replies, most recent first, at most ten; nobody left out is more recent, and nobody is left out below ten |
| Reads.ThreadSummary | src/history/read.rs:166-210 | no summary exactly when the root has no row or is not live; otherwise the counters of its row and its participants |
| Reads.ChannelWindow | src/history/read.rs:33-101 | a window page: the visible rows after the cursor, each a live event of this channel and no deletion or reaction, one aux target a row, summaries exactly for rows with replies, in row order |
| Reads.ThreadReplies | src/history/read.rs:105-161 | a thread page: the live replies under the root within the depth limit after the cursor |
| Reads.WindowWalk | src/history/read.rs:33-101 | walking the window returns exactly the rows its query selects, each once, newest first with ties by lower id, in ceil(n / limit) pages; `Reads.TimelineShows` says which events those are |
| Reads.TimelineShows | src/history/read.rs:56-60 | in a reachable state a walk shows exactly the stored, undeleted events whose own channel is this one and whose kind is none of 5, 7 and 9005, replies only at depth 1 with a broadcast tag |
| Reads.TimelineIsNewestFirst | src/history/read.rs:60 | of two events of a walk the newer is shown first, and of two as old the one with the lower id |
| Reads.TimelinesAreDisjoint | src/history/read.rs:56-60 | no event is shown in the walks of two channels |
| Reads.OverlaysHaveReplies | src/history/read.rs:78-90 | a row carries a summary exactly when it is live and some live reply names it as parent or root |
| Reads.KindFilterLosesNothing | src/history_adapter.rs:262-273 | the kind filter applied after paging loses no matching row |
| Reads.WindowWalkOverChanges | src/history/read.rs:33-101 | over reachable states that change between pages a page shows only what belongs on the timeline then, no event repeats, and an event that belongs there throughout is returned |
| Reads.ThreadRowsAreLive | src/history/read.rs:128-134 | in a reachable state the default depth limit hides no live reply that claims this root, and their number is the root's descendant_count |
| Reads.ThreadWalkMatchesCounter | src/history/read.rs:105-161 | with the default depth limit a walk returns exactly the live replies that claim this root, each once, oldest first, as many as the root's descendant_count |
| Reads.ThreadWalkShows | src/history/read.rs:105-161 | with any depth limit a walk returns exactly the live replies that claim this root and lie within the limit, oldest first with ties by lower id |
| Reads.SummaryCounts | src/history/read.rs:166-181 | in a reachable state a summary carries the channel of the root event and the numbers of its live direct and of all its live replies |
| Reads.SummaryAuthors | src/history/read.rs:183-200 | its participants are distinct authors of live replies, at most ten, all of them below ten, and each as recently active as anybody not listed before |
| StandaloneStore.SqliteStore.Insert | src/store.rs:174-289 | one insert in place: the specified content and outcome, which `StandaloneStore.OfferDecides` tells from the events |
| StandaloneStore.WinsAfterOffer | src/store.rs:228-272 | a new offer dethrones the holder of its slot exactly when it beats it, and nobody else |
| StandaloneStore.OffersSettle | src/store.rs:174-289 | after any run of offers the store holds every regular offer and each slot's greatest |
| StandaloneStore.StoredIsUnrivalled | src/store.rs:174-289 | an event is held exactly when it was offered, fits, and no offered event of the same author, kind and (for kinds 30000 to 39999) `d` value is newer, or as old with a lower id |
| StandaloneStore.OfferDecides | src/store.rs:174-289 | after any run: the outcome of one more offer in terms of its timestamp and its stored rivals, and exactly the rivals it replaces leave |
| StandaloneStore.StandaloneConvergence | src/store.rs:174-289 | the content depends only on the set of events offered |
| Groups.MetaRoundTrip | src/nip29.rs:522-588 | metadata survives the round trip through its tags exactly when it is well formed |
| Groups.ReadMetaIsWellFormed | src/nip29.rs:523-536 | metadata read from any tags is well formed |
| Groups.ListRoundTrip | src/nip29.rs:659-680 | a member or admin list survives the round trip exactly when every entry names its role |
| Groups.EntriesAreRead | src/nip29.rs:747-764 | the entries read from an event are exactly those its `p` tags give, "member" without a role |
| Groups.MetaIsRead | src/nip29.rs:523-536 | how metadata is read: first tags, empty texts are absent, a missing type is a stream, privacy is the presence of its tag |
| Groups.UpsertSetsOneRole | src/nip29.rs:598-604 | an upsert sets one member's role, keeps everybody else's, and lists no key twice |
| Groups.RemoveDropsOne | src/nip29.rs:606-608 | a removal drops every entry of one key and nothing else |
| Groups.MemberSet.Upsert | src/nip29.rs:598-604 | the search loop does the upsert in place |
| Groups.MemberSet.Remove | src/nip29.rs:606-608 | the retain loop does the removal in place |
| Groups.NextKeepsStateOk | src/nip29.rs:101-273 | no command produces lists that would not read back |
| Groups.OutsidersOnlyMoveThemselves | src/nip29.rs:101-297 | with an admin list, a command by anybody else changes at most its author's own membership, and in a private channel lists nobody new |
| GroupState.AddressedHoldsSlot | src/nip29.rs:710-724 | a stored list addressed to a channel is the holder of that channel's slot |
| GroupState.LatestIsHolder | src/nip29.rs:710-724 | the capped query finds the slot's holder exactly when the slot is empty or fewer than 500 live events of the kind come before the holder, and otherwise finds nothing |
| GroupState.UnseenChannelIsRecreated | src/nip29.rs:102-131 | past that count a live channel looks unknown, and a create command for it succeeds for any author |
| GroupCap.CapHidesAChannel | src/nip29.rs:710-724 | a concrete run of 501 channels after which the first, live and holding its slot, is not found |
| GroupState.EmitWinsSlot | src/nip29.rs:683-702 | with the timestamp floor an emit always takes its slot, for any clock, and fails only past the 64-bit range; no other group slot moves |
| GroupState.EmitTakesSlot | src/history/engine.rs:220-288 | a new list that beats the holder of its slot takes it, and no other group slot moves |
| GroupState.EmitIsDropped | src/history_adapter.rs:341-346 | a list that the holder beats is dropped, and the door that stores the relay's events reports success all the same |
| GroupState.CarrierDecodes | src/nip29.rs:611-680 | the signed event of a list is addressed to its channel and decodes to that list |
| GroupState.ListsMove | src/nip29.rs:133-147 | a command's writes move exactly the lists it names, or stop at the first timestamp that does not fit |
| GroupRuns.IngestSparesGroups | src/history/engine.rs:82-198 | an ingest through either door that deletes no group state leaves every group list as it was |
| GroupRuns.CommandRefines | src/nip29.rs:88-274 | one command is refused exactly when the pure machine refuses it, changing nothing; otherwise its channel moves as the machine says and no other does |
| GroupCommands.CreateLeaves | src/nip29.rs:102-148 | a create leaves the name, type, about and ttl of its tags, private exactly when its `visibility` is "private", its author the only admin and an owner, and every other role as it was |
| GroupCommands.EditLeaves | src/nip29.rs:150-189 | an edit sets the field of every tag that is present and moves nothing else |
| GroupCommands.AddLeaves | src/nip29.rs:191-207 | an add gives the key of `p` the role of the tags, "member" without one, and keeps every other entry |
| GroupCommands.RemoveLeaves | src/nip29.rs:209-220 | a removal drops the key of `p` and keeps every other entry |
| GroupCommands.JoinOrLeaveLeaves | src/nip29.rs:222-247 | a join makes its author a member of an open channel, a leave drops its author, and nobody else moves |
| GroupCommands.DeleteLeaves | src/nip29.rs:249-270 | a delete leaves the channel archived, marked deleted and without members, the rest as it was |
| GroupCommands.OtherChannelsStay | src/nip29.rs:88-274 | a command leaves the lists of every other channel as they were |
| GroupCommands.RefusedExactly | src/nip29.rs:88-274 | for each reason, exactly when a command is refused for it, from its tags, the channel as read back and the admin list; a refused command writes nothing |
| GroupCommands.PrivateIsNotJoined | src/nip29.rs:222-232 | after a create with visibility "private" the next join request is refused, whoever sends it |
| GroupCommands.EmitsAreReadBack | src/nip29.rs:538-702 | a command that succeeds emits one event for each list it rewrites, addressed by `d` and `h`, stamped past what it replaces, saying the lists as read back afterwards, and found by reading back |
| GroupRuns.AdmissionRefines | src/nip29.rs:436-505 | one admission is denied without a write exactly on a bad channel or key or an unknown channel; otherwise the key is listed and nobody else changes |
| GroupRuns.RacedAdmission | src/nip29.rs:471-488 | an admission with any other writer between its read and its write answers as admitted even when its list is dropped; the list is stored exactly when the holder it meets does not beat it, and then it is the list that was read plus the key |
| GroupRuns.GroupStateIsReplay | src/nip29.rs:60-68 | over every sequential run of commands, admissions and traffic, for any clock readings, the lists read back are the fold of the pure commands and every report agrees with it |
| GroupRuns.NoStorageErrors | src/nip29.rs:683-702 | with clocks up to a limit, no step errors before 2^63 minus that limit steps |
| GroupRuns.PrivateChannelStaysClosed | src/nip29.rs:222-236 | without an admin's command or an invite no run of commands lists anybody new in a private channel |
| GroupRelays.GroupRelay.LatestAddressable | src/nip29.rs:710-724 | query by kind, filter by `d`, take the newest: the specified read-back |
| GroupRelays.GroupRelay.EmitSigned | src/nip29.rs:683-702 | stamps past the superseded event, signs and stores, or changes nothing |
| GroupRelays.GroupRelay.EmitPList | src/nip29.rs:659-680 | builds the list's tags in a loop and emits its carrier |
| GroupRelays.GroupRelay.IsAuthorized | src/nip29.rs:283-297 | listed in the admin list, or the mirror's answer when there is none |
| GroupRelays.GroupRelay.EditFields | src/nip29.rs:157-187 | only tags that are present mutate the metadata, and the name may not be cleared |
| GroupRelays.GroupRelay.CreateGroup | src/nip29.rs:102-148 | the create arm, three emits, is the specified command, whose effect `GroupCommands.CreateLeaves` tells from its tags |
| GroupRelays.GroupRelay.EditMetadata | src/nip29.rs:150-189 | the edit arm is the specified command |
| GroupRelays.GroupRelay.EditMember | src/nip29.rs:191-220 | the add-user and remove-user arms are the specified commands |
| GroupRelays.GroupRelay.EditOwnMembership | src/nip29.rs:222-247 | the join and leave arms are the specified commands |
| GroupRelays.GroupRelay.DeleteGroup | src/nip29.rs:249-270 | the delete arm is the specified command |
| GroupRelays.GroupRelay.Execute | src/nip29.rs:88-274 | the executor ends in the tables and report of the specified read-decide-write |
| GroupRelays.GroupRelay.AddMemberFromInvite | src/nip29.rs:436-505 | the admission ends in the specified tables and outcome |
| Admissions.WriteMovesOneList | src/nip29.rs:465-485 | a write under the lock appends exactly one plain member to its channel's list |
| Admissions.AdmissionsLoseNobody | src/nip29.rs:436-505 | in every interleaving prior entries keep place and role, each admitted key ends listed once, timestamps strictly grow, no key is written twice or when already listed |
| Admissions.MutualExclusion | src/nip29.rs:370-399 | one task at a time is inside a channel's critical section |
| Admissions.LocksAreGivenBack | src/nip29.rs:370-399 | in every interleaving a channel's lock is held by a task inside its critical section, so it is free once all its tasks have finished or wait |
| Admissions.CallIsServed | src/nip29.rs:436-464 | in every interleaving each call is served by its task: the same channel, the key in lower case, denied at once without a channel or a 64-hex key and otherwise only because the channel is unknown |
| Base64Url.Base64RoundTrip | src/invites.rs:98 | a text decodes to a byte string exactly when it is its encoding (section 5 of RFC 4648) |
| Base64Url.EncodeSpellsBytes | src/invites.rs:98 | encoding writes the bytes as one number, most significant first and filled up with zero bits, in the 64 letters of the URL-safe alphabet |
| Base64Url.TokenRoundTrip | src/invites.rs:443-454 | a text reads as two halves around one dot exactly when it is the token of those halves |
| Invites.CodeRoundTrip | src/invites.rs:443-478 | a code reads back as what was encoded exactly when version, community and agent are valid |
| Invites.ReceiptRoundTrip | src/join_policy.rs:306-382 | a receipt reads back as its code, version and age exactly when code and version are non-empty and bar-free |
| Invites.ConstantTimeEq | src/join_policy.rs:389-398 | the loop that looks at every byte decides equality |
| Invites.MintedCodePasses | src/invites.rs:265-316 | a minted code passes the code checks until it expires |
| Invites.FreshInvitePasses | src/invites.rs:265-409 | mint, accept the policy, claim in time: every check passes if and only if the policy version has no bar or no policy is in force |
| Text.TrimCuts | src/join_policy.rs:110-112 | trimming cuts exactly the white space at both ends |
| ClaimChecks.AcceptedExactlyWhenAuthentic | src/invites.rs:349-427 | a claim is accepted exactly when it names a joiner, its code is an unexpired payload for this community under a signature that verifies, its receipt, if a policy is in force, is MACed for this code, the live version and the age asked for, and the store can honour it |
| ClaimChecks.AcceptedCodeWasSigned | src/invites.rs:361-370 | if only the authority can sign, an accepted code is the encoding of a text with the signature the authority makes for it |
| ClaimChecks.RefusalNamesTheDefect | src/invites.rs:349-427 | for each error, exactly when a claim is refused with it, in terms of what was signed and what was MACed |
| ClaimChecks.MembersAreListed | src/m1b.rs:153-175 | a community member is a 64-hex key that some stored, undeleted event of kind 39002 names in a `p` tag |
| ClaimChecks.AcceptedClaimLists | src/invites.rs:404-427 | an accepted claim reports a membership as new or old rightly, writes nothing for an old one, and leaves the joiner listed |
| ClaimChecks.MintedIsAuthentic | src/invites.rs:265-316 | an invite is minted exactly for an admin, a named agent and a time to live of one second to thirty days, and its code is honoured until it expires and not after |
| ClaimChecks.ReceiptSaysWhatWasAccepted | src/invites.rs:324-343 | a receipt is made exactly for the version in force, and says exactly the code, version and age that were confirmed |
| Adjudication.ApplyClaimDecides | src/invites.rs:349-427 | a claim is accepted exactly when it passes every check (`ClaimChecks` says what the checks prove) and the store can honour it; then the joiner is in a stored member list, and a refused claim changes nothing |
| Adjudication.RepeatedClaimWritesNothing | src/invites.rs:406-412 | a further valid claim by the same key reports membership and writes nothing |
| Adjudication.InviteAdmits | src/invites.rs:265-427 | the whole invite path ends in membership, with one write |
| ClaimProtocol.VerdictRoundTrip | src/m1b.rs:308-332 | the wire form of a verdict reads back as it, and nothing else reads as it |
| ClaimProtocol.AgentsUpToCase | src/direct_transport.rs:125-143 | an agent is named by exactly 64 hex digits, and two texts name one agent exactly when they agree up to case |
| ClaimProtocol.FramesThatCount | src/m1b.rs:832-984 | a received frame changes a bridge exactly when it is verified, of version 1, and a proven claim for this authority from whom it says, or a result from the expected authority about the expected community |
| ClaimProtocol.AskedIsRouted | src/m1b.rs:722-768 | a claim is sent only with a joiner and an unexpired code, to the agent the code names and to nobody else |
| ClaimProtocol.AskKeepsOk | src/m1b.rs:722-768 | sending a claim keeps the protocol invariant |
| ClaimProtocol.DeliverKeepsWork | src/m1b.rs:882-944 | a claim from a bridge is queued only as that bridge sent it, to the authority its code names, with a valid proof |
| ClaimProtocol.DeliverKeepsCall | src/m1b.rs:950-984 | a success is recorded only from the expected authority for the expected community |
| ClaimProtocol.DecisionIsSound | src/m1b.rs:579-612 | a favourable decision leaves the joiner in a stored member list of the authority |
| ClaimProtocol.StepKeepsOk | src/m1b.rs:579-984 | every step of every bridge and of the network keeps the invariant |
| ClaimProtocol.ClaimSafety | src/m1b.rs:579-984 | if a remote claim returns success, the authority its code names had decided exactly that claim so, on the joiner's proof, the joiner was in a stored member list at that moment, and the response names the code's community |
| ClaimProtocol.VerdictsAreDecided | src/m1b.rs:720-984 | every verdict a call returns is what the authority its code names decided on exactly this request, or that it was unavailable; an entry is pending exactly as long as its call waits |
| ClaimProtocol.SuccessWasAuthentic | src/m1b.rs:579-984 | behind a returned success stand a code the authority had signed itself and, under a policy, a receipt it had MACed for that code |
| ClaimProgress.VerdictNamesCommunity | src/invites.rs:365-374 | an accepted claim names the community of the code it honoured |
| ClaimProgress.ClaimComesBack | src/m1b.rs:722-984 | when the network delivers, five steps lead from a sendable, proven claim to the call returning exactly the authority's verdict |
| PendingSlots.ClaimSlots.Acquire | src/m1b.rs:495-498 | a slot is granted exactly while fewer than 256 calls are live |
| PendingSlots.ClaimSlots.Reply | src/m1b.rs:641-645 | whoever removes the entry delivers the one reply |
| PendingSlots.ClaimSlots.Release | src/m1b.rs:400-405 | dropping the guard removes the entry and returns the permit |
| PendingSlots.SlotsAreConserved | src/m1b.rs:380-405 | over every interleaving permits and live calls add up to 256, entries belong to live calls, no request is completed twice, and an idle bus is empty with all permits free |
| PendingSlots.FirstCompletionWins | src/m1b.rs:641-645 | a completion reaches the call exactly while its entry is there, the first verdict wins, and a full house admits nobody |
| Sse.LeftoverIsCapped | src/transport.rs:486-506 | what stays buffered after a chunk is at most the cap, for any stream |
| Sse.DrainAllKeeps | src/transport.rs:404-435 | one chunk frames exactly the complete lines within the cap and keeps the unfinished rest unless that alone exceeds the cap |
| Sse.ChunksDoNotMatter | src/transport.rs:404-435 | the lines are independent of how a stream is split, and are those of the whole stream, if and only if every complete line is within the cap; the leftover is if and only if the unfinished rest is within the cap |
| Sse.OversizeDependsOnChunks | src/transport.rs:487-495 | for any stream with a complete line beyond the cap two splits frame different lines |
| Sse.SameStreamSameEvents | src/transport.rs:404-435 | with every complete line within the cap all splits dispatch the events of the whole stream and collect the same data, and with the rest within it end with the same buffer |
| Sse.OversizeLineEndsAnEvent | src/transport.rs:487-495 | for every cap a stream one split of which dispatches an event that the stream has not ended |
| Sse.SseSession.DrainLineCapped | src/direct_transport.rs:691-711 | one drain in place: the line, the oversize verdict, or nothing yet |
| Sse.SseSession.ProcessLine | src/transport.rs:527-545 | one line through the gossip accumulator in place |
| Sse.SseSession.Feed | src/transport.rs:404-435 | one chunk: every complete line is processed, and the buffer ends within the cap |
| SseRoundTrip.PayloadRoundTrip | src/transport.rs:527-545 | an encoded payload is dispatched as one event, unchanged exactly when no line of it ends in a carriage return |
| SseRoundTrip.LinesAreFramed | src/transport.rs:486-506 | a stream is its lines with a line feed after each and the rest, and a framed line has lost the one carriage return it ended with |
| SseRoundTrip.BlockDispatches | src/transport.rs:527-545 | lines up to a blank one dispatch the values of their `data:` lines joined by line feeds, nothing without one, and carry nothing over |
| SseRoundTrip.DirectBlockDispatches | src/direct_transport.rs:737-769 | a block dispatches one direct message exactly when its last event name is the live or the replayed one and it has data |
| SseRoundTrip.DirectSseAccumulator.ProcessLine | src/direct_transport.rs:737-769 | one line through the direct-message accumulator in place |
| SseRoundTrip.DirectRoundTrip | src/direct_transport.rs:737-769 | a live or replayed direct message is dispatched once and flagged as what it is, unchanged exactly when no line of it ends in a carriage return |
| RateLimit.RateLimiter.CheckRequest | src/rate_limit.rs:26-40 | one check in place; the retry delay lies between 1 and 60 seconds and nobody else's window moves |
| RateLimit.RateBound | src/rate_limit.rs:26-40 | for a fixed quota and a clock that does not go back, a window admits at most the quota and any 60 seconds at most twice the quota |
| RateLimit.RefusedExactly | src/rate_limit.rs:26-40 | a request is refused only with the quota admitted in the last sixty seconds; refused again for exactly the delay told, and admitted then |
| RateLimit.AdmittedIsLogged | src/rate_limit.rs:26-40 | an admitted request is counted in a window that held fewer than the quota |
| RateLimit.Independent | src/rate_limit.rs:26-40 | what one principal is granted does not depend on the others' requests |

## Left out

- Doors.BothAccept: matches each run of one door with some run of the other, for tables of any events; `Confluence.DoorsAgree` is the statement about every pair, for plain events.
- MeshRuns.MeshConvergence: speaks of plain events that are neither deletions, replaceable nor relay-authored, and needs that no delivered reply out of the timestamp range resolves under an attached event, which `MeshRuns.ConvergesIffNoBlocker` shows to be exact; `received_at` columns are compared by neither side.
- Replaceable.ReplaceableConvergence: its condition on the replies gossiped and the events presented is sufficient; `Witnesses.LateReplyTurnsItsParentAway` with a replaceable kind shows that it cannot be dropped.
- Sse.SameStreamSameEvents: for the events the condition is sufficient only, since an oversize comment may be split without changing any event; for lines and leftover `Sse.ChunksDoNotMatter` is exact.
- GroupRuns.GroupStateIsReplay: assumes at most 500 live events of each list kind and no deletion of group state; `GroupState.LatestIsHolder` gives the exact condition for the first, `GroupState.UnseenChannelIsRecreated` what happens without it.
- Admissions.AdmissionsLoseNobody: has no `execute` in its runs, since commands do not take the invite lock, and no admission future dropped between its read and its write.
- ClaimProtocol.ClaimSafety: adjudication is one step of the authority's worker, which handles claims one at a time; `GroupRuns.RacedAdmission` states what a command racing with that step does to the admission.
- RateLimit.RateBound: needs a clock that does not go back; the code only keeps such a clock from underflowing.
- Lower-casing is ASCII; channel ids outside ASCII, and lossy UTF-8 decoding of stream lines are not modelled.
- Columns the engine never reads back: signatures, raw JSON, the full-text index, the schema and its migrations.
- The wall clock, the membership mirror behind `is_member`, `is_community_admin`, request ids, and which frames the network delivers are inputs.
- Cursors whose id is not a 64-hex event id, and `thread_metadata.depth` being NULL, which no statement writes.
- General `query`, `count` and full-text search with their SQL, and their agreement with live filter matching.
- Proof freshness and the replay cache: a portable proof is accepted or refused by an oracle, so refusals by age or replay are covered as lost frames.
- The in-process claim bus beyond its waiting room, HTTP and WebSocket handlers, CORS, settings, seeding, media, NIP-11, topic subscriptions and reconnects.
- JSON parsing of dispatched stream events and the caps on direct payloads.
