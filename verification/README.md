# Verification of the data-run and tenant core

Dafny 4.11 models of the stateful parts of the backend, with proofs of what they promise. Each
module follows one part of the source, in the form the source has: tables that views and tasks
update in place are classes, loops are methods with loops, mappings are functions. Every method
is proved against a specification function; the lemmas say what those functions mean.

| file | part of the system |
|---|---|
| `Prelude.dfy`, `Text.dfy` | lists, optional values, ASCII string operations |
| `AuditMetadata.dfy` | sanitising audit metadata |
| `AuditChain.dfy` | the hash chain, its verifier, what the last hash determines |
| `AuditLog.dfy` | the log of all companies: append, mark read, verify, whole runs |
| `AuditTimeline.dfy` | the cursor-paged feed and a client that walks it |
| `ManagoFetch.dfy`, `ManagoEvents.dfy` | chunked, paged, batched contact fetch; splitting external events |
| `PrivacyGate.dfy` | project, scrub and re-scan before a model call |
| `KeyedTable.dfy`, `ShopifyPersist.dfy` | upserts by key; persisting a Shopify fetch and its metrics |
| `Team.dfy`, `TeamDb.dfy` | accounts, verification tokens, invites, roles: decisions and their invariants, handlers |
| `TeamOutcomes.dfy`, `TeamJourneys.dfy` | when each request takes effect and what it then does; journeys across requests |
| `Slug.dfy` | tenant slug allocation |
| `Bootstrap.dfy` | claiming a bootstrap run under redelivery and supersession |
| `OwnerTopology.dfy` | listing, applying, ensuring and reporting the primary Manago owner |

`dafny verify dfyconfig.toml` checks everything.

## Main results

* **Audit chain.** Two chains that verify and end in the same hash tell the same history. The
  exact condition for the final hash to protect a chain against every other chain, of whatever
  length and contents, is that no action, summary or performer in it contains the separator `|`:
  with one bar, another history verifies under the same hashes. Of all
  ways to drop, repeat or reorder entries, the verifier accepts exactly the prefixes. Over whole
  runs of appends and read marks by any number of companies, all chains verify if and only if every
  accepted append sorts after its company's latest entry; one late append breaks its chain for good. No run
  ever stores a secret key.
* **Feed.** Following the cursor terminates, repeats nothing, and misses exactly the events that
  share the creation time of a page's last event and sort behind it. It is complete if and only if,
  cutting the feed into pages of that size, no cut falls between two events of one creation time; two
  events of one instant and a limit of 1 already lose one. A walk during which the log
  grows returns the pages of the log it started on.
* **Manago fetch.** Chunks of 30 days with shared ends, paging, deduplication and batches of 50
  return what one query over the whole window would, each contact once.
* **Privacy gate.** A depth-bounded scrub and a depth-bounded scan give a guarantee without bound on
  depth; the scan alone would not. Every text on an allowed path arrives scrubbed and cut, and the gate
  refuses exactly if one of these still leaks.
* **Shopify persist.** A second persist changes nothing; each order holds its last usable occurrence,
  each contact the last record that names it, and rows of others are untouched;
  the metrics agree with the final order table, are the same the second time, and their revenues add
  up to the paid total.
* **Team.** Over every run from the empty database: unique addresses, one pending invite per address,
  accepted invites linked to exactly one user, one open verification per user, closed invites final,
  admins confined to their own tenant, active admins never lost. Each request has its exact condition: a user becomes verified exactly by
  presenting a good token, an invite revoked, expired, renewed or accepted and a member patched exactly
  when the right person asks in time; in every other case nothing changes. A closed invite's token leads
  nowhere in any later state.
* **Bootstrap.** Over all interleavings at most one delivery gets past the claim, losing deliveries
  leave no trace, and a run is never pending again. The promise that only the owner of a
  non-superseded run records a success fails, worker by worker, exactly when a supersession is saved
  while that worker holds its clearance between check and write. That holds although
  `attach_run_to_data_run` (`dataruns/connectors/base.py:319-325`) saves metadata from an older copy and
  can erase the superseded flag: the run stays FAILED, and the check for a success looks at the status too. The flag itself may be lost; only the status is safe.
* **Owner topology.** One account in scope and one per owner; the preferred owner reads back; status,
  inference and a second ensure agree with what was written.

## Modelling assumptions

* Each `transaction.atomic` block, and each invite view, is one atomic step. In `Bootstrap.dfy` every
  single database access is a step.
* Datetimes are integers (microseconds or milliseconds); the clock reading of a step is an input and
  may stand still or run backwards. Primary keys are positions or naturals; audit ids are naturals
  whose order stands for the order of UUIDs.
* SHA-256 (FIPS 180-4, section 6.2), `stable_json` (JSON as in RFC 8259) and the ISO timestamp are
  parameters. An injective function into 64 characters does not exist, so the chain results ask for
  less, and only of *the chains at hand*: no two different payloads share a hash, none of the hashes is
  the genesis value, and no two different metadata print alike. Hashes and timestamps contain no `|`
  and different times print differently. The results about chains with bars in their texts also need
  that printed metadata never end in `|` followed by printed metadata; JSON objects do not, because a
  bar can only stand inside a string, which leaves an odd number of quotation marks behind it.
  `AuditChain.HypothesesCanBeMet` shows that these demands can be met together, by chains with bars in
  their texts and by chains without.
* Stored metadata are read back equal to what was hashed. A JSON column may not do that for every
  value (dict keys that are numbers, floats that are normalised); such an entry would be reported as a
  hash mismatch. Dict keys are text and a number is the literal it is written as.
* The regular expressions of the privacy gate, and `str()` of values that are no JSON, are parameters
  about which nothing is assumed.
* The Manago service is a parameter: the answers to each query, `hasMore` being set on all but the
  last. It is assumed to answer the same query the same way during one fetch.
* Epoch milliseconds are computed in floating point (`tenants/manago_fetch.py:453-454`); the rounding is
  a parameter, and the fetch results need no more than that it is monotone.
* Invite and verification tokens are inputs; a clash with a stored one is refused by the unique
  constraint (`tenants/models.py:135`, `tenants/models.py:189-192`).
* Text is ASCII for `lower`, `upper` and `strip`; money is `real`. Encrypting and decrypting the
  connector config is the identity.

## Model

| member | source | states |
|---|---|---|
| `AuditMetadata.SanitizeAuditMetadata` | dataruns/audit.py:42-55 | the recursive loop computes the sanitised dict; None gives the empty one |
| `AuditMetadata.SanitizeKeepsExactlyPublicLeaves` | dataruns/audit.py:46-54 | a non-dict value is still there, unchanged, exactly if no key on its path is secret; nothing else appears |
| `AuditMetadata.SanitizeIsClean` | dataruns/audit.py:47-53 | no secret key and no empty nested dict is left at any depth reached through dicts |
| `AuditMetadata.FixedIffClean` | dataruns/audit.py:42-55 | sanitising leaves a dict alone exactly if it is clean |
| `AuditMetadata.SanitizeIdempotent` | dataruns/audit.py:42-55 | sanitising twice is sanitising once |
| `AuditChain.VerifyEntries` | dataruns/audit.py:313-335 | the loop reports every broken link and hash mismatch in order, and nothing exactly if the chain is intact |
| `AuditChain.NoErrorsIffIntact` | dataruns/audit.py:313-335 | no errors means: each entry points to its predecessor's hash (the first to genesis) and carries its own hash |
| `AuditChain.ErrorsAreReports` | dataruns/audit.py:313-335 | entry by entry: a broken link names the expected and the stored predecessor, a mismatch the recomputed and the stored hash, the link first; a sound entry gives nothing |
| `AuditChain.JoinInjective` | dataruns/audit.py:68-78 | joining with the separator loses nothing when no part but the last contains it |
| `AuditChain.PayloadDeterminesRecord` | dataruns/audit.py:58-79 | for entries without bars in their texts, equal payloads come from equal hashed fields and equal previous hashes |
| `AuditChain.SameHashSamePast` | dataruns/audit.py:313-334 | equal hashes at any two positions of verified chains: same position, same records before it |
| `AuditChain.LastHashDeterminesHistory` | dataruns/audit.py:307-335 | two verified chains with the same final hash have the same length and the same records |
| `AuditChain.PayloadShape` | dataruns/audit.py:68-78 | where each hashed field sits in the payload |
| `AuditChain.OneReading` | dataruns/audit.py:58-79 | an entry without bars in its texts shares its payload with no other record, whatever time, metadata and bars that one has |
| `AuditChain.UnambiguousChainHasOneReading` | dataruns/audit.py:307-335 | no bars in one of two verified chains with the same final hash: same length and same records |
| `AuditChain.AmbiguousChainHasAnotherReading` | dataruns/audit.py:68-79 | a bar in an entry's texts: a different history verifies with the same final hash |
| `AuditChain.ChainProtectedIffUnambiguous` | dataruns/audit.py:58-79 | among all verified chains with that final hash no other history is told, exactly if no action, summary or performer of the chain contains a bar |
| `AuditChain.SelectionVerifiesIffPrefix` | dataruns/audit.py:313-335 | dropping, repeating or reordering entries of a verified chain verifies exactly if a prefix is left |
| `AuditLog.TimelineSortsTheCompanysRows` | dataruns/audit.py:310-312 | reading back gives the company's rows, each once, by creation time and id |
| `AuditLog.AuditStore.AppendAuditEvent` | dataruns/audit.py:225-284 | adds the one row that tells the event, linked to the latest entry, or nothing exactly when the insert would break a constraint |
| `AuditLog.NewEntryTells` | dataruns/audit.py:238-281 | the new row has the event's company, action, tone, summary, performer, actor and time, is unread, and holds exactly the public leaves of its metadata |
| `AuditLog.InsertableIffConstraintsStay` | dataruns/models.py:717-722 | an insert is refused exactly when id or hash would no longer be unique |
| `AuditLog.EveryRunStoresCleanMetadata` | dataruns/audit.py:225-281 | in every reachable log no metadata holds a secret key or an empty nested dict |
| `AuditLog.AuditStore.MarkAllAuditEventsRead` | dataruns/audit.py:291-294 | every event of the company is read, every other row is as it was, the number of unread ones is returned |
| `AuditLog.AuditStore.MarkAuditEventRead` | dataruns/audit.py:297-304 | marks the company's event of that id; found exactly if there is one |
| `AuditLog.AuditStore.VerifyAuditChainForCompany` | dataruns/audit.py:307-335 | the errors of the company's timeline |
| `AuditLog.ReadFlagIsNotChained` | dataruns/audit.py:291-304 | read flags have no influence on a chain being intact |
| `AuditLog.AppendVerifiesIffClockAdvances` | dataruns/audit.py:239-249 | an append keeps the chain verifiable exactly if the new entry sorts after the latest one |
| `AuditLog.ApplyKeepsAllVerifying` | dataruns/audit.py:225-304 | an append in order, or any read mark, keeps the chains of all companies verifiable |
| `AuditLog.EveryRunVerifies` | dataruns/audit.py:225-335 | after any interleaving of appends in order and read marks, every company's chain verifies |
| `AuditLog.RunVerifiesIffClockAlwaysAdvances` | dataruns/audit.py:239-249 | over a whole run: all chains verify exactly if every accepted append was in order |
| `AuditLog.PointingForwardBreaks` | dataruns/audit.py:310-319 | a row that points back to a later one makes its company's verification fail |
| `AuditLog.LateAppendLeavesItsMark` | dataruns/audit.py:239-281 | a run with an append out of order ends with such a row, whatever came after |
| `AuditLog.EveryRunKeepsHashesDistinct` | dataruns/models.py:717-722 | ids are unique and no company has two entries with one hash, in every reachable log |
| `AuditLog.RunsOnlyExtend` | dataruns/audit.py:225-304 | rows are never dropped, reordered or rewritten; a read flag once set stays |
| `AuditTimeline.ParseLimit` | dataruns/audit_views.py:30-35 | the default when there is no number, 1 for less than 1, the maximum for more, else the value |
| `AuditTimeline.ListEvents` | dataruns/audit_views.py:101-132 | one page of the feed: the events older than the cursor, cut at the limit, with the next cursor |
| `AuditTimeline.FetchPage` | dataruns/audit_views.py:119-125 | reading one row more than the limit tells correctly whether there is a next page |
| `AuditTimeline.FeedIsNewestFirst` | dataruns/audit_views.py:104-112 | the feed holds exactly the company's (unread) events, newest first |
| `AuditTimeline.Walk` | dataruns/audit_views.py:114-125 | following the cursor ends, and gives the pages cut from the feed one after the other |
| `AuditTimeline.PagesAreNewestFirst` | dataruns/audit_views.py:114-125 | the pages read one after the other run from new to old, no event twice |
| `AuditTimeline.PagesOmitExactlyTheSkipped` | dataruns/audit_views.py:117-125 | the pages leave out exactly the events hidden behind a page's last one |
| `AuditTimeline.WalkMissesExactlyTheSkipped` | dataruns/audit_views.py:101-132 | a walk over the stored log returns newest first, without repetition, all events but those |
| `AuditTimeline.WalkIsCompleteIff` | dataruns/audit_views.py:117-125 | the walk returns the whole feed exactly if no page-sized cut of the feed falls between two events of one creation time |
| `AuditTimeline.TornCut` | dataruns/audit_views.py:117-125 | at a cut within one creation time the first event behind it is on no page |
| `AuditTimeline.TwoEventsOfOneInstant` | dataruns/audit_views.py:104-125 | the failing log: of two events of one instant a walk with limit 1 returns one |
| `AuditTimeline.WalkWithDistinctTimes` | dataruns/audit_views.py:101-132 | with distinct creation times the concatenated pages are the feed |
| `AuditTimeline.AppendsDoNotDisturbTheWalk` | dataruns/audit_views.py:114-117 | any number of events logged meanwhile, none older than the cursor, change none of the remaining pages |
| `AuditTimeline.GrowingLogDoesNotDisturbTheWalk` | dataruns/audit_views.py:101-132 | a walk that reads each page from a log grown since the last gives the pages of the log it started on |
| `ManagoFetch.ChunkTimeRange` | tenants/manago_fetch.py:434-450 | the loop tiles the window: shared ends, no gap, 30 days each but the last |
| `ManagoFetch.ChunksTile` | tenants/manago_fetch.py:443-450 | the chunks tile the window |
| `ManagoFetch.EpochMsMonotone` | tenants/manago_fetch.py:453-454 | with monotone rounding, later times never become earlier milliseconds |
| `ManagoFetch.EpochMsIsClose` | tenants/manago_fetch.py:453-454 | with binary64 rounding, for every date a datetime holds: the microseconds cut toward zero, off by less than 0.1 ms at the cut |
| `ManagoFetch.EpochMsWithoutRounding` | tenants/manago_fetch.py:453-454 | without rounding: cut toward zero, before 1970 too |
| `ManagoFetch.CollectItems` | tenants/manago_fetch.py:259-268 | the inner loop appends the ids not seen before, in order |
| `ManagoFetch.ItemIdPrefersId` | tenants/manago_fetch.py:259-265 | `id` goes before `contactId`; an empty or zero `id` falls back to it; without either the item is skipped |
| `ManagoFetch.DedupKeepsFirstOccurrences` | tenants/manago_fetch.py:259-268 | the ids stand in the order in which they first occur |
| `ManagoFetch.PageThrough` | tenants/manago_fetch.py:233-272 | the paging loop ends and adds the ids of all pages, or fails with the first bad answer |
| `ManagoFetch.ListModifiedContactIds` | tenants/manago_fetch.py:219-274 | over all chunks: the ids of all answers, each at its first occurrence, or the first error |
| `ManagoFetch.ListingFailsAtFirstBad` | tenants/manago_fetch.py:249-257 | the first answer that is no list of items decides the error, each kind its own |
| `ManagoFetch.ChunksCover` | tenants/manago_fetch.py:440-454 | a millisecond is in the window exactly if it is in some chunk |
| `ManagoFetch.ChunkedFetchIsOneQuery` | tenants/manago_fetch.py:219-274 | without duplicates, exactly the ids of the items one inclusive query over the window returns |
| `ManagoFetch.FetchContactsById` | tenants/manago_fetch.py:277-312 | the rows of all batches in order, or the first error |
| `ManagoFetch.PresentAppend` | tenants/manago_fetch.py:303-312 | what is no dict is dropped from the rows of an answer, everything else is kept in order |
| `ManagoFetch.LookupFailsAtFirstBad` | tenants/manago_fetch.py:297-309 | the first batch not answered with a list of contacts decides the error, each kind its own |
| `ManagoFetch.LookupJoinsAnswers` | tenants/manago_fetch.py:288-312 | if all batches are answered, their dicts come one batch after the other |
| `ManagoFetch.BatchesPartition` | tenants/manago_fetch.py:288-291 | each id is requested once, in order, in batches of 50, only the last smaller |
| `ManagoFetch.BatchedLookupIsOneLookup` | tenants/manago_fetch.py:288-312 | if each request is answered with one record per id asked for, looking up in batches gives one record per id, in order |
| `ManagoFetch.FetchContacts` | tenants/manago_fetch.py:56-92 | listing, then looking up, with the errors of both |
| `ManagoFetch.FetchReturnsEachModifiedContactOnce` | tenants/manago_fetch.py:56-92 | one record for each contact modified in the window and no other |
| `ManagoEvents.ExtractExternalEvents` | tenants/manago_fetch.py:315-351 | the nested loops select the well-formed events in the window of the wanted kind, in order |
| `ManagoEvents.ExtractionsSplitTheWindow` | tenants/manago_fetch.py:326-351 | transactions and other events, merged back by kind, are the events of the window; the counts add up |
| `ManagoEvents.StreamCarriesOwnContact` | tenants/manago_fetch.py:326-349 | each event carries the id and e-mail of its own contact, and each is handed out |
| `ManagoEvents.EventsKeepTheirOrder` | tenants/manago_fetch.py:326-349 | the i-th event of a contact comes once, behind all events of earlier contacts and its own earlier ones |
| `ManagoEvents.ExtractAppend` | tenants/manago_fetch.py:326-349 | extracting from two lists of contacts gives the events of the one and then those of the other |
| `ManagoEvents.ExtractedIff` | tenants/manago_fetch.py:326-349 | exactly the well-formed events dated in the closed window come out, purchases and transactions in one extraction and all others in the other |
| `PrivacyGate.CapStr` | dataruns/ai/privacy_gate.py:87-91 | at most the limit; short text stripped only; long text cut to the limit with an ellipsis |
| `PrivacyGate.SanitizeMismatchRow` | dataruns/ai/privacy_gate.py:140-158 | a row that survives has exactly path, kind and side, as short strings |
| `PrivacyGate.SanitizedRowSays` | dataruns/ai/privacy_gate.py:140-158 | each field is the first truthy of its three keys, scrubbed and cut; without path and kind the row is dropped, a missing one of them is "unknown" |
| `PrivacyGate.PresentableRowIsFixed` | dataruns/ai/privacy_gate.py:140-158 | a projected row whose texts scrubbing leaves alone comes back as it is |
| `PrivacyGate.ProjectedRowIgnoresOtherKeys` | dataruns/ai/privacy_gate.py:144-158 | no key but the nine known ones influences a projected row |
| `PrivacyGate.SanitizeMismatchList` | dataruns/ai/privacy_gate.py:161-179 | the first twelve surviving rows in order; nothing for a value that is no list |
| `PrivacyGate.CleanRowsAppend` | dataruns/ai/privacy_gate.py:161-179 | the surviving rows of two lists in one are those of the first and then those of the second |
| `PrivacyGate.SanitizedListHoldsRowsOnly` | dataruns/ai/privacy_gate.py:161-179 | whatever was passed, at most twelve path/kind/side rows are left |
| `PrivacyGate.WalkScrubStrings` | dataruns/ai/privacy_gate.py:201-225 | the recursive method computes the scrubbed value |
| `PrivacyGate.WalkIsShaped` | dataruns/ai/privacy_gate.py:201-225 | scrubbed values: no forbidden key, strings and lists within the caps, nothing below the depth limit |
| `PrivacyGate.WalkActsAlongPaths` | dataruns/ai/privacy_gate.py:201-225 | a path leads somewhere in the scrubbed value exactly if it does in the original and is allowed; what is there is the value scrubbed at that depth |
| `PrivacyGate.ScrubbedValueAt` | dataruns/ai/privacy_gate.py:201-225 | along an allowed path within the depth limit a text arrives scrubbed and cut, null and numbers as they are, a list as long as the cap allows, a dict without its forbidden keys; below the limit null |
| `PrivacyGate.NoLeakIffScrubbable` | dataruns/ai/privacy_gate.py:201-258 | a scrubbed value leaks exactly if some text on an allowed path still leaks when scrubbed and cut |
| `PrivacyGate.GoodPatternsPassEverything` | dataruns/ai/privacy_gate.py:201-258 | if no text leaks when scrubbed and cut, nothing is ever refused for a leak |
| `PrivacyGate.ScanIsCompleteOnScrubbed` | dataruns/ai/privacy_gate.py:233-258 | on scrubbed values the bounded scan finds nothing exactly if no string at any depth leaks |
| `PrivacyGate.ScanFindsNothingIffClear` | dataruns/ai/privacy_gate.py:233-258 | on any value the scan finds nothing exactly if no raw key and no leaking text stands above the depth limit |
| `PrivacyGate.ReasonIsPresent` | dataruns/ai/privacy_gate.py:237-242 | the reason given names a kind of leak that is there, a secret or personal data |
| `PrivacyGate.ScanAloneStopsAtTheLimit` | dataruns/ai/privacy_gate.py:233-248 | a leak nested in lists is seen exactly down to the depth limit |
| `PrivacyGate.SafeIffShapedAndNoLeak` | dataruns/ai/privacy_gate.py:201-258 | scrubbed and free of leaks is safe at every depth |
| `PrivacyGate.EnsureSafeContext` | dataruns/ai/privacy_gate.py:261-319 | passes exactly if no text on an allowed path of the projection still leaks when scrubbed and cut; then its context is safe; else no context and the reason |
| `PrivacyGate.PolicyVersionIsRead` | dataruns/ai/privacy_gate.py:261-266 | the policy version is the stripped one of the context, or the default |
| `PrivacyGate.ProjectionReplacesRowLists` | dataruns/ai/privacy_gate.py:289-299 | mismatches and evidence are replaced by sanitised rows, other top-level keys are kept |
| `PrivacyGate.ProjectionReplacesSummaryRows` | dataruns/ai/privacy_gate.py:295-299 | inside a finding summary only the mismatches are replaced |
| `KeyedTable.UpsertAllKeepsKeysUnique` | tenants/fetch_persist.py:125-135 | keys stay unique under any batch of writes |
| `KeyedTable.LastWriteWins` | tenants/fetch_persist.py:106-142 | a written key holds its last write, with the creation time of the old row or the first write; other keys are as before |
| `KeyedTable.UpsertAllIdempotent` | tenants/fetch_persist.py:106-142 | running a batch again changes nothing |
| `ShopifyPersist.MapShopifyOrderStatus` | tenants/fetch_persist.py:216-226 | exactly which financial statuses count as paid and as refunded, ignoring case |
| `ShopifyPersist.Database.UpsertCustomer` | tenants/fetch_persist.py:168-183 | the contact row of a customer with an id is written; without one nothing is |
| `ShopifyPersist.Database.UpsertOrderContact` | tenants/fetch_persist.py:186-213 | the contact an order names, by customer id or else by address, is written |
| `ShopifyPersist.Database.UpsertOrder` | tenants/fetch_persist.py:112-142 | one pass of the order loop: contact, order row, and what it counts as |
| `ShopifyPersist.Database.UpsertCustomers` | tenants/fetch_persist.py:106-109 | the customer loop writes the batch and collects the touched contacts once each |
| `ShopifyPersist.Database.UpsertOrders` | tenants/fetch_persist.py:111-142 | the order loop writes both tables and counts the stored orders |
| `ShopifyPersist.Database.WriteMetrics` | tenants/fetch_persist.py:144-147 | one metric write per touched contact, from the final order table |
| `ShopifyPersist.Database.PersistShopifyFetch` | tenants/fetch_persist.py:76-165 | all tables, the counts and the run status after a persist; each touched contact's metric agrees with the final orders |
| `ShopifyPersist.PersistTwiceIsPersistOnce` | tenants/fetch_persist.py:106-142 | a second persist of the same batch, at any later time, changes neither contacts nor orders |
| `ShopifyPersist.MetricsTwiceAreMetricsOnce` | tenants/fetch_persist.py:106-147 | a second persist of the batch for the same run leaves the metrics table as it is |
| `ShopifyPersist.OrderHoldsLastUsable` | tenants/fetch_persist.py:112-142 | each order of the batch holds contact, amount, currency and status of its last usable occurrence, a new one the creation time of its first, an old one its own; others are untouched |
| `ShopifyPersist.ContactHoldsLastRecord` | tenants/fetch_persist.py:168-213 | each contact named holds e-mail and phone of the last order naming it, stripped, with the order's own address as fallback, or else of its last customer record; others are untouched |
| `ShopifyPersist.ForeignRowsStay` | tenants/fetch_persist.py:106-142 | contacts and orders of other companies and other sources are untouched |
| `ShopifyPersist.UsableOrdersAreCounted` | tenants/fetch_persist.py:111-142 | the number of orders reported is that of the occurrences with an id and a contact |
| `ShopifyPersist.MetricOf` | tenants/fetch_persist.py:229-260 | count, paid total, latest order, average and stage agree with the orders held |
| `ShopifyPersist.OrdersOfSelects` | tenants/fetch_persist.py:232 | the orders a metric is computed from are exactly the company's orders of that contact |
| `ShopifyPersist.MetricsAgreeWithOrders` | tenants/fetch_persist.py:144-147 | exactly one metric per touched contact, agreeing with the final order table; other metrics are as before |
| `ShopifyPersist.RevenueIsConserved` | tenants/fetch_persist.py:144-151 | the revenues written sum to the paid total of all orders held by touched contacts |
| `Team.WouldRemoveLastAdmin` | tenants/team_views.py:81-98 | true exactly if the tenant would have no active admin after the update |
| `Team.Decide` | tenants/team_views.py:145-523 | whatever is decided, the change has passed all the checks its effect relies on |
| `Team.HandleKeepsInv` | tenants/team_views.py:228-523 | each request keeps unique addresses, one pending invite per address, links, one open verification, unique tokens, existing tenants |
| `Team.EveryReachableStateIsSound` | tenants/team_views.py:228-523 | all of that holds in every state reachable from the empty database |
| `Team.EffectKeepsAdmins` | tenants/team_views.py:161-205 | a tenant with an active admin has one after every change |
| `Team.RunsAreMonotone` | tenants/team_views.py:145-523 | over runs: accounts stay, closed invites are final, verified users stay verified, active admins are not lost |
| `Team.OverdueInviteNeedsItsToken` | tenants/team_views.py:418-428 | a pending invite past its expiry changes only to expired, and only for somebody who presents its token |
| `Team.AcceptedInviteHasExactlyOneUser` | tenants/team_views.py:483-510 | in every reachable state an accepted invite has exactly one user with its address and tenant, the linked one |
| `Team.VerifiedIffTokenPresented` | tenants/auth_views.py:193-221 | an existing user becomes verified exactly by presenting an open, unexpired token with its address |
| `Team.VerifiedIffTokenPresentedDuringRun` | tenants/auth_views.py:186-223 | over a run: verified at the end exactly if some request presented such a token |
| `TeamOutcomes.AccountOpenedIff` | tenants/auth_views.py:93-149 | a registration opens a tenant, its first admin and a verification exactly for a free address with all fields in order; else nothing happens |
| `TeamOutcomes.InviteSentIff` | tenants/team_views.py:228-308 | an admin sends an invite exactly to a free address not invited there yet, with a role; it is pending, with that role and expiry |
| `TeamOutcomes.OthersAreForbidden` | tenants/team_views.py:145-390 | requests about members and invites are forbidden exactly to those who are no admins |
| `TeamOutcomes.RevokedIff` | tenants/team_views.py:361-390 | a pending invite becomes revoked exactly when an admin of its tenant asks for it before its expiry |
| `TeamOutcomes.RevokeOutcome` | tenants/team_views.py:361-390 | such a request changes that status and nothing else, any other nothing, and success is reported accordingly |
| `TeamOutcomes.ExpiredIff` | tenants/team_views.py:418-480 | a pending invite becomes expired exactly when its token is presented after its expiry, to view it or to accept it |
| `TeamOutcomes.AcceptedIff` | tenants/team_views.py:441-523 | a pending invite becomes accepted exactly when its token is presented in time and its address is still free; then its user is there |
| `TeamOutcomes.RenewedIff` | tenants/team_views.py:314-355 | a pending invite gets another token, and with it another expiry, exactly when an admin of its tenant asks for it before its expiry and the new token is fresh |
| `TeamOutcomes.ViewOutcome` | tenants/team_views.py:397-439 | an invite is shown exactly if the token is that of a pending one not past its expiry |
| `TeamOutcomes.ClosedInviteJoinsNobody` | tenants/team_views.py:361-523 | after any run, the token of an invite once closed changes nothing and is answered as gone |
| `TeamOutcomes.RefusedInviteRequests` | tenants/team_views.py:324-385 | an admin is told not found for invites of other tenants, and bad request for closed or overdue ones |
| `TeamOutcomes.RefusedTokens` | tenants/team_views.py:400-475 | a missing token or field is a bad request, an unknown token is not found |
| `TeamOutcomes.MemberPatchedIff` | tenants/team_views.py:148-211 | role and active flag of a member are the given ones exactly when an admin of the tenant patches the member and an active admin remains; else they stay, except that verifying raises the flag |
| `TeamOutcomes.PatchReplies` | tenants/team_views.py:148-211 | the answer to each kind of patch, malformed fields, unknown members and the last admin included |
| `TeamOutcomes.TokenReissuedIff` | tenants/auth_views.py:297-315 | for an unverified account the open tokens are used up and one new token with its expiry is issued |
| `TeamOutcomes.NothingReissued` | tenants/auth_views.py:297-315 | for any other address nothing happens, and the answer is the same |
| `TeamOutcomes.GoodTokenConfirms` | tenants/auth_views.py:193-221 | a good token is used up as its user becomes verified and active; nothing else changes |
| `TeamOutcomes.LateTokenIsSpent` | tenants/auth_views.py:200-212 | a token of an account already verified is used up and answered with success |
| `TeamOutcomes.VerifyReplies` | tenants/auth_views.py:186-223 | success is reported exactly for a matching token that is good or whose user is verified; a refusal changes nothing |
| `TeamDb.Database.PostRegister` | tenants/auth_views.py:93-149 | tables and reply after a registration, error cases included; the invariants are kept |
| `TeamDb.Database.PostVerifyEmail` | tenants/auth_views.py:186-223 | tables and reply after a verification attempt; the invariants are kept |
| `TeamDb.Database.PostResendVerification` | tenants/auth_views.py:297-315 | open tokens are used up and one new token is issued, for an unverified account only |
| `TeamDb.Database.PostInvite` | tenants/team_views.py:228-308 | tables and reply after an invite request; the invariants are kept |
| `TeamDb.Database.PostResendInvite` | tenants/team_views.py:314-355 | a pending, unexpired invite of the own tenant gets a new token and expiry |
| `TeamDb.Database.PostRevokeInvite` | tenants/team_views.py:361-390 | a pending, unexpired invite of the own tenant is revoked |
| `TeamDb.Database.GetAcceptInvite` | tenants/team_views.py:397-439 | viewing an overdue pending invite expires it; a closed one is gone |
| `TeamDb.Database.PostAcceptInvite` | tenants/team_views.py:441-523 | tables and reply after an acceptance; the invariants are kept |
| `TeamDb.Database.PatchTeamMember` | tenants/team_views.py:148-211 | tables and reply after a member patch, with the last-admin guard |
| `TeamJourneys.InvitedPersonJoinsOnce` | tenants/team_views.py:276-510 | create then accept in time: a verified, active user of the admin's tenant with the invite's address and role; once |
| `TeamJourneys.ResendReplacesTheLink` | tenants/team_views.py:343-345 | after a resend the old link leads nowhere and the new one to the same invite |
| `TeamJourneys.RegisteredPersonBecomesAdmin` | tenants/auth_views.py:129-221 | register then verify in time: a verified, active admin of a tenant no user or invite belonged to |
| `TeamJourneys.AdminsStayInTheirTenant` | tenants/team_views.py:145-390 | an admin's request changes no row of another tenant and adds none to it; a non-admin's changes nothing |
| `TeamJourneys.ResendVoidsOlderTokens` | tenants/auth_views.py:305-313 | after a resend only the new token can verify the account |
| `Slug.UniqueTenantSlug` | tenants/auth_views.py:21-28 | ends with a free slug: the base, or the base with the least free counter from 2 |
| `Slug.CandidatesAreDistinct` | tenants/auth_views.py:25-27 | the first n candidates are n different slugs |
| `Slug.DecimalReadsBack` | tenants/auth_views.py:26 | the printed counter can be read back |
| `Bootstrap.StoredRun.Claim` | dataruns/tasks.py:164-193 | guard, conditional update and refresh give the steps' result when nobody comes between |
| `Bootstrap.ApplyKeepsInv` | dataruns/tasks.py:164-194 | each step keeps: one owner at most, none while pending, one while running, skips justified |
| `Bootstrap.ClaimedIff` | dataruns/tasks.py:177-194 | a pending run becomes running exactly by the claim of a worker that saw it pending, which then owns it |
| `Bootstrap.SkippedIff` | dataruns/tasks.py:168-193 | a worker returns a skip exactly if it loaded a run not pending or lost the claim, and reports the status it saw last |
| `Bootstrap.AtMostOneClaim` | dataruns/tasks.py:177-194 | over all interleavings at most one delivery gets past the claim |
| `Bootstrap.RunningIsOwnedAndSkipsAreJustified` | dataruns/tasks.py:168-193 | a running run has an owner; a skip result never reports a pending run |
| `Bootstrap.NeverPendingAgain` | dataruns/tasks.py:177-194 | once taken or over, a run is never pending again; owners and skip results are final |
| `Bootstrap.LosersAreInvisible` | dataruns/tasks.py:168-193 | a delivery that does not win leaves run and other deliveries as if it had not taken place |
| `Bootstrap.LeavingPendingMeansClaimedOrSuperseded` | dataruns/tasks.py:177-184 | only a claim or a supersession takes a run out of pending |
| `Bootstrap.ClearedIff` | dataruns/connectors/base.py:181-195 | a check clears exactly the owner at work on a run not superseded and, to record a success, running; any other check stops it |
| `Bootstrap.AttachErasesTheFlag` | dataruns/connectors/base.py:319-325 | saving the import run writes old metadata back and erases a flag set meanwhile |
| `Bootstrap.SuccessRecordedIff` | dataruns/connectors/base.py:356-372 | a run becomes succeeded exactly by the write of a worker cleared to record a success, superseded or not |
| `Bootstrap.FailureRecordedIff` | dataruns/connectors/base.py:375-386 | a run becomes failed exactly by a cleared worker's write of a failure or by a supersession, which flags it |
| `Bootstrap.StaleIffSupersededWhileCleared` | dataruns/connectors/base.py:145-195 | a clearance to record a success goes stale exactly if a supersession is saved while it is held, lost flags or not |
| `Bootstrap.UndisturbedIffNoOpening` | dataruns/connectors/base.py:181-195 | over a run: there is never an opening to record a success for a superseded run exactly if no such save happened |
| `Bootstrap.SuccessOverwritesIffSupersededWhileHeld` | dataruns/connectors/base.py:181-195 | a worker's success overwrites a supersession exactly if one was saved while this worker held its clearance; only such a write makes a superseded run succeeded |
| `Bootstrap.SupersededRunEndsAsSucceeded` | dataruns/connectors/base.py:356-372 | with such a save, a superseded run ends as succeeded: a concrete interleaving |
| `OwnerTopology.ListManagoOwners` | tenants/manago_topology_service.py:67-86 | every usable login once, ignoring case, stripped and not empty, in its first spelling and in order |
| `OwnerTopology.LoginOfReads` | tenants/manago_topology_service.py:70-76 | of a dict the first of email, owner and login that is not empty counts, if it is usable text |
| `OwnerTopology.UniqueOwnersAreFirst` | tenants/manago_topology_service.py:78-86 | each listed owner has the spelling of its first occurrence |
| `OwnerTopology.UniqueOwnersKeepOrder` | tenants/manago_topology_service.py:78-86 | the listed owners stand in the order of their first occurrences |
| `OwnerTopology.Display` | tenants/manago_topology_service.py:109-111 | a spelling of the primary, from the list if it is there |
| `OwnerTopology.CollectAccounts` | tenants/manago_topology_service.py:113-129 | the loop writes one account per distinct owner |
| `OwnerTopology.ApplyPrimaryOwner` | tenants/manago_topology_service.py:89-135 | the new config, or a refusal of anything that is no address |
| `OwnerTopology.AppliedSays` | tenants/manago_topology_service.py:100-135 | both owner keys hold the first listed spelling of the primary; one account per owner, in order, the primary in front if nobody listed it; other keys stay |
| `OwnerTopology.AccountsDescribeOwners` | tenants/manago_topology_service.py:113-129 | the accounts describe the owners in order, each in its first spelling: scope, classification, label and shop |
| `OwnerTopology.OneAccountPerOwner` | tenants/manago_topology_service.py:113-129 | exactly one account per owner ignoring case, none for others, in scope exactly the primary's |
| `OwnerTopology.ExactlyOneAccountInScope` | tenants/manago_topology_service.py:97-129 | exactly one account is in scope, and it is the primary's |
| `OwnerTopology.PreferredOwnerReadsBack` | tenants/manago_topology_service.py:26-43 | reading the applied config back returns the primary, as the list spells it; other keys are kept |
| `OwnerTopology.PreferredOwnerOrder` | tenants/manago_topology_service.py:26-34 | `owner` goes before `owner_email` and both before the accounts |
| `OwnerTopology.PreferredFromAccounts` | tenants/manago_topology_service.py:35-43 | without them the first account with an owner that is not marked out of scope decides |
| `OwnerTopology.ExactlyOneOwnerFlagged` | tenants/manago_topology_service.py:358 | of the live owners exactly the primary is flagged |
| `OwnerTopology.SelectionSettledIffPrimaryIsLive` | tenants/manago_topology_service.py:346-363 | selection is asked for exactly if there are several live owners and the primary is none of them; configured exactly if it is one |
| `OwnerTopology.StatusSays` | tenants/manago_topology_service.py:346-363 | the status of any config: flags, the primary, whether a selection is needed and whether it is configured |
| `OwnerTopology.InferredIffOnlyMatch` | tenants/manago_topology_service.py:174-195 | an owner is inferred exactly if there are several and it alone matches the shop's name |
| `OwnerTopology.MatchesIff` | tenants/manago_topology_service.py:186-191 | an owner matches exactly if the part of its address before the at sign contains a token, ignoring case |
| `OwnerTopology.TokensOfShop` | tenants/manago_topology_service.py:164-171 | the tokens are the telling pieces of the shop's name, or what stands before its first hyphen if there are none |
| `OwnerTopology.Connector.EnsurePrimaryOwner` | tenants/manago_topology_service.py:198-343 | config, audit events and result of an ensure, for every reason |
| `OwnerTopology.EnsureReports` | tenants/manago_topology_service.py:212-343 | which reason is reported: the first obstacle in the order of the source, or the owner determined and how |
| `OwnerTopology.AppliedIsConfigured` | tenants/manago_topology_service.py:240-241 | an apply from the live list is recognised as configured for it |
| `OwnerTopology.EnsureTwice` | tenants/manago_topology_service.py:240-247 | a second ensure writes nothing; after an apply it reports already_configured with that owner, whatever its other inputs |
| `OwnerTopology.EveryWriteIsAudited` | tenants/manago_topology_service.py:304-331 | the config changes exactly when one audit event is appended, and the event names the owner then preferred |

## Left out

- AuditLog.AuditStore.AppendAuditEvent: does not model the `run` reference, the parse of the actor id, or two first appends racing on an empty log, because the step is atomic.
- PrivacyGate.EnsureSafeContext: says nothing about personal data inside dict keys, because the source never scans keys; keys are strings, so two keys equal after `str()` are not modelled.
- AuditTimeline.GrowingLogDoesNotDisturbTheWalk: events are appended during the walk but not marked read, which changes an unread-only feed.
- AuditTimeline.ListEvents: does not model the serialised fields of an event or the parse of the cursor text; an unreadable cursor is no cursor.
- ManagoEvents.ExtractExternalEvents: dates are real numbers, so NaN, which would pass both comparisons of the source, is not modelled.
- ManagoFetch.ChunkedFetchIsOneQuery: assumes a directory that does not change during the fetch, because the source cannot notice a change.
- ShopifyPersist.Database.PersistShopifyFetch: leaves out the connector snapshot, its version number and the run job rows, which would only add easy members; rounding of decimals to the column's digits is not modelled.
- TeamDb.Database.PostRegister: leaves out the company row, the slug (see Slug.UniqueTenantSlug), the password and the domain check, which is a flag of the request.
- TeamDb.Database.PostInvite: leaves out the mail and the audit event it sends; the same holds for acceptance.
- TeamDb.Database.PatchTeamMember: an inactive admin's requests are not refused here, because authentication in front of the views is not part of this model; the invariants hold all the more with it.
- Bootstrap.StoredRun.Claim: covers one delivery without interference; all interleavings are in `Bootstrap.Apply`.
- OwnerTopology.Connector.EnsurePrimaryOwner: the shop domain, the listing of owners and the actor of the audit event are inputs.
- Two admins demoting each other under weak isolation, and other races inside one atomic step.
- The import, health report, notification and audit body of the bootstrap task: only guard, claim, checks and the final write are steps.
- SHA-256, Fernet, JWT and password hashing: foreign libraries.
- Regular expressions, Unicode case mapping and normalisation.
- HTTP, permissions, mail, Celery delivery, logging, serializers, templates, settings and scripts.
- Search filters, allowlists, fingerprints, completions and connector uniqueness: filters and lookups that would add only easy members.
