# Kumiai: verified models of the hub store, the control ledger and the crash-safe protocols

Kumiai layers group messaging on MLS (RFC 9420): a hub stores each topic's log and each member's
mailbox, members replicate a control ledger that decides who is an admin, and local state survives
crashes. This project models that logic in Dafny 4.11 and proves what the code promises about it.
`dafny verify dfyconfig.toml` checks everything.

Four groups of modules:

- **Hub storage.** `SqlStore`, `SqlInvariant` and `SqlTheorems` run publish, trim and purge as
  interleaved READ COMMITTED transactions, one statement at a time, with row locks, private writes,
  aborts and re-reads after a wait. `LastReader` interleaves the separately committed statements of
  ack and unsubscribe. `MemoryStore` is the in-memory store as a class with all its indexes, proved
  against `MemoryModel`; `MemoryInvariant` and `MemoryTheorems` say what every run of it keeps.
  `LogReader` is the reader both stores serve, and `PublishHistory` the record of what they accepted.
- **Control ledger.** `Head` (the hash chain), `Roster`, `Registry` and `EnvelopeFold` (the permissive
  replay and the strict fold), `GroupContext` (extensions and the policy on them), `LedgerLog`,
  `GroupHandle` and `GroupCommit` (what a handle caches, through author, receive, bootstrap, join and
  rollback).
- **Crash safety.** `Handshake` (generation reservation), `Codec` and `CodecTheorems` (the client-state
  format, for any body codec and the states it keeps; `ProposalCodec` is a concrete one, with 32-bit
  senders, and its `LoneSurrogateIsLost` shows that the condition on reference strings in
  `CodecTheorems.ParsePrinted` is needed), `KeyPackages`, `Pool` and `Provisioner` (key-package custody).
- **Streams and order.** `Tunnel`, `EncryptedTunnel`, `RateLimiter`, `Sequence`, `StringOrder`, `Utf8`,
  `Buffers`.

SHA-256 is a parameter of which only the output length is assumed; binding is proved by extracting a
collision. Token verification is a function of the token and the clock. Clocks, hub answers, store
outcomes and points of death are inputs; a theorem that asks something of them says so.

## Where the code and its words part

Each of these is stated with its exact condition:

- A token with time claims can verify when a commit is built and not when it is applied. The author's
  derived handle is then missing an entry its head covers (`GroupCommit.LapseLosesCompleteness`); it is
  complete if and only if every token still verifies (`GroupCommit.CommitLedgerEntries`). For the same
  reason the unverifiable-token branch of `bootstrapLedger`, which its comment calls unreachable past
  the head check, is reachable (`GroupCommit.LapseBlocksBootstrap`).
- An ack that names an ID not committed yet can delete the frame of that ID under its reader
  (`LastReader.EarlyAckDangles`); an ack is safe if and only if it names committed IDs.
- A host callback that tears the tunnel down while the pump is handling an opened delivery makes the
  encrypting wrapper ack that delivery twice (`EncryptedTunnel.TornDownIsAckedTwice`), and nothing
  else does (`EncryptedTunnel.AckedExactlyOnce`).
- A clock stepping back can make bucket pruning visible (`RateLimiter.BackwardClockIsVisible`). Pruning
  is invisible if and only if every bucket recreated after an eviction would have been full by the
  clock of the call that recreates it (`RateLimiter.PruningIsInvisibleIff`).
- `precedesSequenceID` is no order where an ID that is no decimal stands, as a string, between two
  decimals that compare by value the other way (`Sequence.MixedIDsCycle`); on every other set of IDs
  it is a strict weak order (`Sequence.OrderedIffNoClash`). The padded format keeps string order
  exactly up to 10^12 (`Sequence.BoundIsTight`, `Sequence.StringOrderKeptIff`).
- The roster fold takes a role entry whose value is no permission and so lets it demote its subject;
  the control fold drops it (`Registry.MalformedGrantDemotes`). On a ledger without device entries the
  two agree if and only if no such entry is taken (`Registry.FoldsAgree`).

## Model

| member | source | states |
|---|---|---|
| LogReader.GapIsLossAfterCursor | packages/hub-protocol/src/types.ts:115-139 | A page flags a gap exactly when an accepted log frame after its cursor is no longer retained; with no cursor, when any was removed. |
| LogReader.PageIsContiguous | packages/hub-protocol/src/types.ts:115-139 | A page without a gap is the stretch of the accepted log that starts right after its cursor: nothing skipped inside it. |
| LogReader.ShortPageEndsTheDrain | packages/hub-protocol/src/types.ts:115-139 | A reader that stops at a page shorter than its limit has reached the end of the log. |
| LogReader.NoSilentLoss | packages/hub-protocol/src/types.ts:115-139 | Over any growing log and watermark and any page limits, a drain that never saw a gap collected exactly the accepted stretch between its first and last cursors. |
| LogReader.BetweenExactlyOnce | packages/hub-protocol/src/types.ts:115-139 | That stretch lists each accepted frame after the first cursor and up to the last one once, in order. |
| SqlInvariant.StepKeeps | packages/hub-store/src/store.ts:195-331 | Each statement, wait, commit or abort of publish, trim and purge transactions, in any interleaving, keeps the store invariant: counter and row ownership, prefix removal, stored heads, idempotency records and the compare-and-set chain. |
| SqlInvariant.RunKeeps | packages/hub-store/src/store.ts:195-331 | So does every run. |
| SqlTheorems.CursorSafety | packages/hub-store/src/store.ts:163-176 | IDs become visible in increasing order: a frame seen later at or below an earlier snapshot's counter was in that snapshot, unchanged. |
| SqlTheorems.PrefixOnlyRemoval | packages/hub-store/src/store.ts:132-193 | In every interleaving the stored log rows of a topic are exactly the accepted frames above its watermark, in order. |
| SqlTheorems.FetchTopicIsPage | packages/hub-store/src/store.ts:386-446 | The snapshot read answers with the page the abstract reader is promised, gap flag included. |
| SqlTheorems.RunGrows | packages/hub-store/src/store.ts:132-147 | Over any run a topic's accepted log only grows and its watermark never moves back. |
| SqlTheorems.SqlNoSilentLoss | packages/hub-store/src/store.ts:386-446 | A reader draining by pages of any limits, whatever transactions run in between, sees a gap or has every log frame ever committed between its cursors, once each and in order. |
| SqlTheorems.RemovalIsEntitled | packages/hub-store/src/store.ts:476-571 | A committed frame disappears only at a commit of an eviction of its own topic's log, of a trim above it, or of a purge it was due for; a purge that found no topic row removes no log frame. |
| SqlTheorems.EvictionKeepsNewest | packages/hub-store/src/store.ts:178-193 | Depth eviction leaves exactly the newest maxDepth log rows the publish sees. |
| SqlTheorems.FirstKeptIsCurrent | packages/hub-store/src/store.ts:149-161 | While a purge holds the topic row, whatever commits between its statements, the first frame it read as not due is the first one not due of the current tables. |
| SqlTheorems.PurgeTakesTheDuePrefix | packages/hub-store/src/store.ts:519-571 | In every interleaving, a purge holding the topic row selects a log frame exactly when it and every log frame then stored below it is due, and a mailbox frame exactly when it is due. |
| SqlTheorems.CasChain | packages/hub-store/src/store.ts:227-240 | Every committed conditional log publish names as expected head the log publish committed just before it on its topic. |
| SqlTheorems.HeadIsReplacedOnce | packages/hub-store/src/store.ts:278-317 | Two committed conditional publishes on a topic never replaced the same head. |
| SqlTheorems.HeadsOnlyIncrease | packages/hub-protocol/src/types.ts:120-128 | A stored head survives every removal and only increases. |
| SqlTheorems.ExactlyOnce | packages/hub-store/src/store.ts:203-225 | Racing publishes with one (topic, publishID) append once, all that return name that append, and no committed record has a null sequence. |
| SqlTheorems.ReplayIsAnswered | packages/hub-protocol/src/types.ts:45-58 | A replay of an accepted publish returns its original ID whatever head it expects, and writes nothing. |
| LastReader.StepKeeps | packages/hub-store/src/store.ts:448-474 | Each separately committed statement of acks and unsubscribes, interleaved with publishes and sweeps, keeps deliveries pointing at stored frames and every orphaned mailbox frame claimed by a running call. |
| LastReader.SafeStep | packages/hub-store/src/store.ts:448-474 | No statement, publish, sweep or death of a process ever leaves a delivery pointing at a deleted frame. |
| LastReader.NoDeliveryDangles | packages/hub-store/src/store.ts:448-474 | Over any interleaving, processes dying between statements included, no frame is deleted while a delivery points at it. |
| LastReader.LastReaderCollects | packages/hub-store/src/store.ts:738-780 | Once all calls finished, none cut short, no mailbox frame is left without a delivery. |
| LastReader.OnlyDeathLeavesMail | packages/hub-store/src/store.ts:448-474 | Over any run, deaths included, once every call is over a mailbox frame without a delivery is one whose last delivery was dropped by a call that died after it, before it collected the frame. |
| LastReader.DeathLeavesMail | packages/hub-store/src/store.ts:448-474 | A concrete run in which a process that dies after dropping the last delivery leaves its mailbox frame to the purge. |
| LastReader.OnlyOwnDeliveriesAndMail | packages/hub-store/src/store.ts:448-474 | Acks and unsubscribes leave log frames and other readers' deliveries untouched. |
| LastReader.AckIsSafeIffCommitted | packages/hub-store/src/store.ts:448-474 | An ack is safe in every continuation if and only if all IDs it names are committed already. |
| LastReader.EarlyAckDangles | packages/hub-store/src/store.ts:448-474 | A concrete interleaving in which an ack of an ID not yet committed deletes the frame under its reader. |
| MemoryStore.Store.constructor | packages/hub-server/src/memoryStore.ts:118-148 | A new store is empty and its indexes agree. |
| MemoryStore.Store.Remove | packages/hub-server/src/memoryStore.ts:161-185 | Removing an entry raises the watermark for a log entry, takes it out of every index, and leaves heads alone. |
| MemoryStore.Store.Drop | packages/hub-server/src/memoryStore.ts:187-202 | Dropping a delivery removes a mailbox entry with its last reader and nothing else. |
| MemoryStore.Store.Publish | packages/hub-server/src/memoryStore.ts:207-307 | Dedup before compare-and-set before mint; a loser changes nothing; the append, the recipients' queues, the head and the depth eviction are those of the specification, with every index in agreement. |
| MemoryStore.Store.Fetch | packages/hub-server/src/memoryStore.ts:309-360 | Acks first, then serves the pending deliveries after the cursor in order, with the cursor and hasMore they imply. |
| MemoryStore.Store.FetchTopic | packages/hub-server/src/memoryStore.ts:362-400 | Refuses a non-subscriber; otherwise the log-class page after the cursor, the stored head, the oldest retained position and the gap flag. |
| MemoryStore.Store.Trim | packages/hub-server/src/memoryStore.ts:402-413 | Removes exactly the topic's log entries below the bound. |
| MemoryStore.Store.Ack | packages/hub-server/src/memoryStore.ts:415-419 | Drops exactly the named deliveries of the recipient. |
| MemoryStore.Store.RetentionOf | packages/hub-server/src/memoryStore.ts:148-159 | The longest of the floor, the default and what any subscriber asked for. |
| MemoryStore.Store.Purge | packages/hub-server/src/memoryStore.ts:421-442 | The scan in insertion order removes exactly the due mailbox entries and each log's due prefix, whatever the clock did. |
| MemoryStore.Store.Subscribe | packages/hub-server/src/memoryStore.ts:444-473 | Refuses over the retention ceiling or the quota; otherwise both subscription indexes gain the subscription. |
| MemoryStore.Store.Unsubscribe | packages/hub-server/src/memoryStore.ts:475-498 | Drops the subscription from both indexes and every pending delivery of the topic for that reader. |
| MemoryStore.Store.Apply | packages/hub-server/src/memoryStore.ts:204-499 | Each operation on the indexed store is the specification's step on its entries. |
| MemoryStore.Serve | packages/hub-server/src/memoryStore.ts:204-499 | After any operations from the start, the store's entries are those of the specified run, every index agrees with them, and the invariant of the run holds. |
| MemoryInvariant.StepKeeps | packages/hub-server/src/memoryStore.ts:204-499 | Every operation keeps: live log entries are the accepted ones above the watermark, heads name the last log publish, every live mailbox entry has a pending reader, logs stay within maxDepth, subscriptions within the quota, records and chain as accepted. |
| MemoryInvariant.RunKeeps | packages/hub-server/src/memoryStore.ts:204-499 | So does every run of operations. |
| MemoryInvariant.EvictionKeepsNewest | packages/hub-server/src/memoryStore.ts:287-304 | Depth eviction keeps the newest maxDepth entries of the topic's log and every other log. |
| MemoryIndexes.ScanDecides | packages/hub-server/src/memoryStore.ts:421-442 | At each entry the purge scan decides as the whole log would: due, and no kept log entry of the topic below it. |
| MemoryTheorems.PrefixOnlyRemoval | packages/hub-server/src/memoryStore.ts:164-185 | A topic's live log is what was accepted above its watermark, in order. |
| MemoryTheorems.GapIsLoss | packages/hub-server/src/memoryStore.ts:394-399 | The gap flag is set exactly when a removed log frame lies after the cursor. |
| MemoryTheorems.MemoryNoSilentLoss | packages/hub-server/src/memoryStore.ts:362-400 | A reader visiting between any operations, at any limits, sees a gap or has every log frame accepted between its cursors, once each and in order. |
| MemoryTheorems.WritersAgree | packages/hub-server/src/memoryStore.ts:210-246 | Over every run the conditional log publishes form a chain, publish IDs are accepted once, and each head is the last accepted log publish. |
| MemoryTheorems.ReplayIsAnswered | packages/hub-server/src/memoryStore.ts:210-221 | A replay is answered with its original ID whatever head it names, and changes nothing. |
| MemoryTheorems.HeadsOnlyIncrease | packages/hub-server/src/memoryStore.ts:242-246 | Heads survive every removal and only increase. |
| Utf8.DecodeEncoded | packages/mls/src/head.ts:17-71 | Fatal decoding of an encoded string gives it back with each lone surrogate replaced by U+FFFD. |
| Utf8.EncodeDecoded | packages/mls/src/codec.ts:81-87 | What the fatal decoder accepts is well-formed and re-encodes to the same bytes. |
| Utf8.EncodeAlike | packages/mls/src/head.ts:17-71 | Two strings encode alike exactly when they differ in lone surrogates only. |
| Utf8.WellFormedIffUnchanged | packages/mls/src/head.ts:17-71 | Encoding loses nothing exactly when a string has no lone surrogate. |
| Head.FrameID | packages/mls/src/head.ts:58-70 | The framed ID is its 4-byte length and its UTF-8 bytes. |
| Head.ExtendHead | packages/mls/src/head.ts:82-95 | The loop computes the chain extended by the batch in order. |
| Head.ComputeHead | packages/mls/src/head.ts:102-110 | The head over a list from genesis. |
| Head.BytesEqual | packages/mls/src/head.ts:177-187 | True exactly for equal byte strings. |
| Head.EncodeLedgerHead | packages/mls/src/head.ts:112-122 | A version byte and the digest. |
| Head.HeadEncodingIsCanonical | packages/mls/src/head.ts:112-131 | A digest round-trips, and a buffer decodes to a head exactly when it is that head's encoding. |
| Head.ComputeComposes | packages/mls/src/head.ts:102-110 | The head of a + b is the head of a extended by b. |
| Head.HeadBindsList | packages/mls/src/head.ts:63-110 | Two equal heads have the same group and the same ordered ID list (up to lone surrogates), or an explicit hash collision, or a digest starting with the domain separator. |
| Head.HeadBindsWellFormedList | packages/mls/src/head.ts:63-110 | For IDs without lone surrogates the lists are equal outright, or the same evidence is produced. |
| Roster.AdminCount | packages/mls/src/roster.ts:22-31 | The number of admins. |
| Roster.FoldLedger | packages/mls/src/fold.ts:89-113 | The loop computes the ordered replay and reports exactly the skipped entries, in order. |
| Roster.FoldRoster | packages/mls/src/roster.ts:45-96 | The roster fold is that replay with the group, admin-issuer and never-empty guards; an accepted grant sets its subject to the raw value it carries. |
| Roster.NeverAdminless | packages/mls/src/roster.ts:85-92 | A roster changed only by guarded grants always has an admin. |
| Roster.Provenance | packages/mls/src/roster.ts:33-57 | Every admin has a finite chain of admin grants, each by the grantee of a strictly earlier one, back to the root. |
| Roster.RosterProvenance | packages/mls/src/roster.ts:45-96 | In every prefix of a folded ledger there is an admin, and each has such a chain made of accepted entries. |
| Registry.FoldControl | packages/mls/src/registry.ts:684-766 | The one-pass fold of role and device entries computes the replay and reports exactly its drops with their reasons. |
| Registry.FoldComposes | packages/mls/src/registry.ts:697-766 | Folding a ledger with more entries appended is continuing the fold of the ledger. |
| Registry.ControlProvenance | packages/mls/src/registry.ts:697-766 | With device bindings too, there is always an admin and each traces to the root through authorities active at each grant. |
| Registry.FoldsAgree | packages/mls/src/registry.ts:684-766 | On a ledger without device entries the control fold and the roster fold agree all along, and bind no device, exactly when the roster fold takes no entry whose value is no permission; the control fold drops those. |
| Registry.MalformedGrantDemotes | packages/mls/src/roster.ts:50-57 | A concrete ledger on which a role entry that carries no permission demotes an admin in the roster fold and is dropped by the control fold. |
| EnvelopeFold.FoldEnvelope | packages/mls/src/envelope-fold.ts:77-171 | Accepts exactly the envelopes whose every entry is enactable in the state the replay reaches there, returning the replay's state and the consumer entries in order; otherwise names the first entry that is off. |
| EnvelopeFold.StrictIsReplay | packages/mls/src/envelope-fold.ts:61-76 | An accepted envelope's candidate state is the replay of the ledger with the envelope appended, and each entry was judged on exactly that replay. |
| EnvelopeFold.NothingEnactedIsDropped | packages/mls/src/envelope-fold.ts:61-76 | Appending an accepted envelope adds only consumer entries to what the replay drops. |
| GroupContext.AdmittedList | packages/mls/src/policy.ts:124-181 | An admitted extension list carries exactly the expected head and every other kind but the reserved one as it was. |
| GroupContext.HeadMoves | packages/mls/src/policy.ts:108-123 | An admitted commit moves the head by exactly the entries it enacts. |
| LedgerLog.AdmittedIsGenuine | packages/mls/src/group-handle.ts:1037-1066 | The permissive ingest keeps only verified entries of the group under their own digests, and keeps all exactly when all verify. |
| LedgerLog.AttestedIffAllVerify | packages/mls/src/group-handle.ts:1097-1127 | After a head move over a list of tokens, the log grown by those that verified is attested exactly when all did, or the hash is broken on these lists. |
| LedgerLog.AttestedLogIsTheLog | packages/mls/src/group-handle.ts:1138-1161 | Two logs one head attests to have the same content IDs, or the hash is broken on them. |
| GroupHandle.Handle.constructor | packages/mls/src/group-handle.ts:684-760 | A handle starts with the replay of the log it is given. |
| GroupHandle.Handle.ApplyLedgerEntries | packages/mls/src/group-handle.ts:1037-1095 | The log grows by exactly the tokens that verify for the group, in order, repeats included; the cached state is its replay. |
| GroupHandle.Handle.IsLedgerComplete | packages/mls/src/group-handle.ts:1097-1127 | True exactly when the head attests to the held log; a corrupt head is an error, an absent one is incomplete. |
| GroupHandle.Handle.BootstrapLedger | packages/mls/src/group-handle.ts:1138-1263 | Succeeds exactly when the list reproduces the head, every token verifies now and the persist succeeds; then the log is that list and complete. Otherwise nothing changes. |
| GroupHandle.Handle.Resolve | packages/mls/src/group-handle.ts:1825-1860 | Finds every body exactly when each ID is held or was fetched and verifies, in envelope order, each under its own digest. |
| GroupHandle.Handle.Receive | packages/mls/src/group-handle.ts:1984-2024 | An accepted commit appends exactly the envelope's entries, installs the admitted extensions and keeps the cached state the replay of the log and a complete log complete; a refused or unpersisted one changes nothing. |
| GroupHandle.Handle.RegistryAt | packages/mls/src/group-handle.ts:154-182 | The registry replayed from a prefix the head attests to, or an error exactly when no prefix has that head. |
| GroupHandle.PrefixesHaveOwnHeads | packages/mls/src/group-handle.ts:154-182 | No two prefixes of a log share a head, or the hash is broken on them. |
| GroupCommit.VerifyEnacted | packages/mls/src/group-commit.ts:281-288 | Fails exactly when some token does not verify when the commit is built. |
| GroupCommit.CommitWithEntries | packages/mls/src/group-commit.ts:252-383 | A built commit enacts verified, enactable entries by an authorised committer and moves the head by exactly their digests; a refusal to enact means some entry is not enactable. |
| GroupCommit.CommitLedgerEntries | packages/mls/src/group-commit.ts:535-552 | The derived handle is valid; with a complete source it is complete exactly when every token still verifies as it is applied, or the hash is broken. The source is untouched. |
| GroupCommit.AuthoredIsAdmitted | packages/mls/src/group-commit.ts:176-195 | Every receiver at the author's extension list admits the list the author proposes. |
| GroupCommit.EntriesAddedByInvite | packages/mls/src/group-commit.ts:482-501 | Gives the rest of the invite's list exactly when the list begins with the held log. |
| GroupCommit.CommitInvite | packages/mls/src/group-commit.ts:597-698 | Enacts exactly the invite's added entries for a matching recipient; the updated invite is the derived handle's whole log, equal to the offered list exactly when all still verify, or the hash is broken. |
| GroupCommit.ProcessWelcome | packages/mls/src/group-welcome.ts:128-173 | A joiner accepts only a list that reproduces the head, and is then complete exactly when every token verifies as it is applied, or the hash is broken. |
| GroupCommit.OneHeadOneControl | packages/mls/src/group-handle.ts:1149-1155 | Members whose complete logs one head attests to hold the same log and the same control state, or a hash or token digest is broken. |
| GroupCommit.LapseLosesCompleteness | packages/mls/src/group-commit.ts:543-545 | A concrete commit, built while its token was valid and applied after it lapsed, that leaves its author incomplete. |
| GroupCommit.LapseBlocksBootstrap | packages/mls/src/group-handle.ts:1181-1189 | In that run the only list the head admits no longer verifies, so no bootstrap can succeed. |
| GroupCommit.LapsedWasEnactable | packages/mls/src/group-commit.ts:275-308 | The strict fold had accepted that token when the commit was built. |
| Handshake.Handle.Reserve | packages/mls/src/group-handle.ts:1556-1633 | Refuses in the source's order of checks; reuses an unconsumed reservation; otherwise advances by one. A failed save restores the state in memory. |
| Handshake.Handle.Consume | packages/mls/src/group-handle.ts:1635-1655 | Refuses unless the reservation matches the epoch and generation; otherwise marks it consumed, in memory even when the save fails. |
| Handshake.GenerationsNeverReused | packages/mls/src/group-commit.ts:526-532 | Over any run of reserve, build, consume, journal, publish, other saves, epoch moves, failed saves and restarts in the documented order, no two published commits of one epoch share a generation, and each is within half the capped window. |
| Handshake.ReservationsStayInWindow | packages/mls/src/group-handle.ts:1579-1591 | Every reservation held or stored is within half the capped receiver window. |
| Codec.SortRefs | packages/mls/src/codec.ts:119-122 | The references in ascending code-unit order, each once. |
| Codec.EncodeClientState | packages/mls/src/codec.ts:103-145 | Writes the printed form; fails exactly for a reservation its fields cannot hold. |
| Codec.DecodeClientState | packages/mls/src/codec.ts:27-101 | Parses exactly the format: an unknown version is told apart, everything else malformed is refused. |
| CodecTheorems.ParsePrinted | packages/mls/src/codec.ts:16-21 | For a body codec that keeps the states of its domain, a printed state of the domain reads back as itself, reservation and zero senders included, exactly when its body is within the limit and its zero-sender references are well-formed. |
| CodecTheorems.PrintParsed | packages/mls/src/codec.ts:27-101 | Every accepted byte string is the printed form of the state it reads as, and that state is one of the domain. |
| CodecTheorems.AcceptedBytesAreCanonical | packages/mls/src/codec.ts:73-80 | Accepted byte strings that read as one state are the same bytes. |
| Pool.CreatePool | packages/mls-hub/src/pool.ts:80-100 | Rejects exactly the configurations the bounds exclude. |
| Pool.Pool.Release | packages/mls-hub/src/pool.ts:213-215 | Drops the record and notes that the host gave it up. |
| Pool.Pool.MintAll | packages/mls-hub/src/pool.ts:109-123 | Every minted package is written before the batch counts as settled; what was written is kept. |
| Pool.Pool.Prune | packages/mls-hub/src/pool.ts:125-144 | Deletes only records past expiry plus grace by its own clock, never one this call minted. |
| Pool.Pool.Run | packages/mls-hub/src/pool.ts:146-186 | Wherever the process dies or a call fails, every package ever offered has its record, was released, or was pruned past its grace; what this call offered it did not prune; it offers only below the low-water mark, and stocks to the target. |
| Provisioner.PickCandidate | packages/mls-hub/src/provisioner.ts:112-125 | The record no other beats by expiry and then by reference. |
| Provisioner.Provisioner.Prune | packages/mls-hub/src/provisioner.ts:154-168 | Deletes only records past expiry plus grace by its own clock, never the one settled on. |
| Provisioner.Provisioner.Settle | packages/mls-hub/src/provisioner.ts:144-152 | Uploads a recorded package; the record stays whatever becomes of the upload. |
| Provisioner.Provisioner.Run | packages/mls-hub/src/provisioner.ts:170-240 | Every package ever offered has its record or was pruned past its grace, at every death and failure; the package settled on is kept; it mints only when no record is outside the rotation window, and reports the slot untouched only when the hub named a record it holds outside that window. |
| RateLimiter.Limiter.Prune | packages/hub-server/src/rateLimit.ts:36-50 | Evicts exactly the full and idle buckets. |
| RateLimiter.Limiter.TryConsume | packages/hub-server/src/rateLimit.ts:53-69 | One call of the specified limiter. |
| RateLimiter.PruningIsInvisibleIff | packages/hub-server/src/rateLimit.ts:39-50 | Whatever the clock does, the pruning limiter answers every call of a run as one that never prunes, and agrees with it on every bucket it holds, if and only if each bucket recreated after an eviction would have been full by the clock of the call that recreates it. |
| RateLimiter.PruningIsInvisible | packages/hub-server/src/rateLimit.ts:39-43 | Under a clock that never runs backward that is so: every decision equals that of a limiter that never prunes, for all interleavings of keys. |
| RateLimiter.RateIsBounded | packages/hub-server/src/rateLimit.ts:25-29 | In any stretch of a run one key is allowed at most burst + rate * T calls, pruning included. |
| RateLimiter.BackwardClockIsVisible | packages/hub-server/src/rateLimit.ts:53-69 | A concrete run with a clock that steps back, in which pruning lets a call through that the exact limiter refuses. |
| Tunnel.Transport.Receive | packages/hub-tunnel/src/transport.ts:378-468 | One turn of the pump: session lock, dedup by number, backpressure, session end, and an ack for exactly the handled deliveries. |
| Tunnel.Transport.Write | packages/hub-tunnel/src/transport.ts:478-505 | Refused once torn down or without a session; otherwise framed with the locked session and the next number, which is spent even when the publish fails. |
| Tunnel.Transport.Teardown | packages/hub-tunnel/src/transport.ts:323-334 | Releases once, and tells the peer once if a session was established. |
| Tunnel.SessionNeverChanges | packages/hub-tunnel/src/transport.ts:417-428 | Over any run a locked session stays locked to the same session. |
| Tunnel.DeliveredInOrderOnce | packages/hub-tunnel/src/transport.ts:447-462 | For any duplication, reordering and redelivery, the bodies enqueued are a repeat-free, order-preserving subsequence of those the sender wrote. |
| Tunnel.WrittenToRead | packages/hub-tunnel/src/transport.ts:378-505 | From a valid writer's published frames, delivered as often and in whatever order, the reader enqueues a repeat-free subsequence of the writes in the order written. |
| Tunnel.NothingDroppedNeedlessly | packages/hub-tunnel/src/transport.ts:447-462 | Delivered in order without overflow, every body is enqueued and every delivery acked. |
| EncryptedTunnel.Stream.AckHandled | packages/hub-tunnel/src/encrypted-transport.ts:97-108 | Sends the ack upstream unless it is the pump's own ack of a delivery acked when it was opened. |
| EncryptedTunnel.Stream.Settle | packages/hub-tunnel/src/encrypted-transport.ts:119-207 | What each verdict does to the acks, the anchor and the session. |
| EncryptedTunnel.AckedExactlyOnce | packages/hub-tunnel/src/encrypted-transport.ts:90-108 | Upstream acks are exactly the deliveries opened or refused for good, each once and in order, if and only if no host callback tore the session down while the pump handled a delivery it then acked; then only the last is repeated. |
| EncryptedTunnel.TornDownIsAckedTwice | packages/hub-tunnel/src/encrypted-transport.ts:97-108 | A concrete run in which the one delivery opened is acked twice. |
| EncryptedTunnel.AnchorIsEarliest | packages/hub-tunnel/src/encrypted-transport.ts:52-57 | At every point of every session whose IDs precedence orders, the anchor is one of the IDs the session published or opened, and none of them precedes it. |
| EncryptedTunnel.OnlyOwnFramesFail | packages/hub-tunnel/src/encrypted-transport.ts:170-179 | In such a session an expired frame ends it exactly when some ID the session is known by precedes the frame. |
| EncryptedTunnel.NumbersDecide | packages/hub-tunnel/src/encrypted-transport.ts:170-179 | In a session of decimal IDs of any widths: exactly when the frame's number is above that of some known ID. |
| Sequence.SameWidthInOrder | packages/hub-tunnel/src/sequence.ts:1-9 | Decimal strings of one width compare as strings exactly as their numbers do. |
| Sequence.PrecedesIsNumeric | packages/hub-tunnel/src/sequence.ts:1-9 | On non-empty decimal strings of any widths precedence is numeric order. |
| Sequence.StrictWeakOrder | packages/hub-tunnel/src/sequence.ts:1-9 | There it is irreflexive and transitive, and ties carry over. |
| Sequence.OrderedIffNoClash | packages/hub-tunnel/src/sequence.ts:1-9 | On any set of IDs precedence is a strict weak order if and only if no two decimals of different widths, ordered by value one way, are ordered the other way as strings through an ID that is no decimal. |
| Sequence.MixedIDsCycle | packages/hub-tunnel/src/sequence.ts:6-9 | A concrete clash, and the cycle of three it makes. |
| Sequence.FormattedInOrder | packages/hub-server/src/memoryStore.ts:71-73 | Counters below 10^12 and their padded IDs are ordered alike, as strings and by the tunnel's comparison. |
| Sequence.StringOrderKeptIff | packages/hub-store/src/store.ts:163-176 | Among the counters below n the padded IDs keep counter order as strings if and only if n is at most 10^12. |
| Sequence.BoundIsTight | packages/hub-store/src/store.ts:163-176 | At 10^12 the next padded ID sorts below the one before it as a string. |

## Left out

- StepKeeps: the SQL store is modelled on values, as a machine of transaction steps, rather than as methods; deliveries and subscriptions appear there only as whether a topic has recipients, and deletes are not split into chunks.
- ExactlyOnce: assumes runs inside the retention of idempotency records; the yearly sweep of those records is not modelled.
- NoDeliveryDangles: requires that acks name committed IDs, which `LastReader.AckIsSafeIffCommitted` shows to be exactly what is needed.
- LastReaderCollects: for calls that finish; `LastReader.OnlyDeathLeavesMail` says what deaths between statements leave to the purge.
- CasChain: log publishes only; a conditional mailbox publish is compared with the head once and is not arbitrated against a concurrent one.
- HeadBindsList: equal up to lone surrogates, which the text encoder replaces; `Head.HeadBindsWellFormedList` gives equality for IDs without them.
- Receive: the receiving policy is the default one; a caller-supplied commit policy replaces it and can admit a list that moves the head otherwise. Sender authority rows, device-entry proofs and MLS processing are inputs.
- RegistryAt: without the cache of the eight latest answers.
- ApplyLedgerEntries: without the memo of verified tokens, which re-checks time claims as verification does, and without the send-admission cache.
- ParsePrinted: body and reference lengths are assumed to fit the 32-bit fields that hold them.
- GenerationsNeverReused: about published commits; self-removal proposals draw on the same ratchet and are modelled only as spending generations.
- RateIsBounded: over real numbers, for a rate and burst that are not negative and a clock that does not run backward.
- Provisioner.Run: configuration bounds of the provisioner are not checked, as custody does not depend on them.
- Groups with a lifecycle controller: proof-bearing device entries, controller logs, floors, attestations, leaf expiry and the lifecycle gates. Registry records carry no proof references for the same reason.
- Cryptography and MLS internals: key schedule, ratchets, signatures, the MLS body codec (a parameter with its round-trip law on the states it is for), membership changes.
- SQL details: migrations, binary encoding, subscription and key-package quotas (read, then written), snapshot isolation of single reads beyond what a snapshot shows.
- Sequence IDs are counters everywhere but in `Sequence`, which says when they may be.
- JSON and schema validation of envelopes, frames and control envelopes: a payload is what it decodes to.
- Idle and reconnect timers, abort signals and event emitters of the tunnel: they appear as teardown at any point.
- Hub server plugins, clients, push, wake sealing, broadcast transport, key-package serving, record decoding and error codes: wrappers around what is modelled, or easier members.
