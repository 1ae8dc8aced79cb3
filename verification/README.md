# SiliconBeest: a verified model

SiliconBeest is a Fediverse server with a web client and a queue consumer. This project models the parts of it
whose correctness is hardest to see from the code, in Dafny, and proves what they are for. Code that updates
variables in place is modelled by methods and classes, each tied to a specification function; the properties are
lemmas about those functions.

| files | what they model |
|---|---|
| `Base58.dfy`, `Positional.dfy` | the base 58 encoder of integrity proofs, over a fixed buffer |
| `Jcs.dfy` | the JSON canonicaliser of integrity proofs (RFC 8785) |
| `StatusPagePrefetch.dfy` | the single-slot page prefetch: a protocol of steps between awaits, and the object that performs them |
| `TimelinePages.dfy`, `Timelines.dfy`, `TimelineLists.dfy`, `TimelinesStore.dfy` | the timelines store: held pages, loads, infinite scroll, removals, account resets, and what a feed shows after any run |
| `DomainBlocks.dfy`, `FederationPolicy.dfy` | suspension rules, their batched lookup, and the filtering of queued deliveries |
| `Base64.dfy`, `SignatureSyntax.dfy`, `HttpSignature.dfy` | signing and checking requests (RFC 9421) |
| `ImportTables.dfy`, `ImportItem.dfy` | follow, block and mute imports on the relationship tables and their counters |
| `Drafts.dfy`, `DraftsOutcomes.dfy`, `DraftsStore.dfy` | the offline draft store |
| `QueueProtocol.dfy`, `QueueConsumer.dfy` | the queue consumer and its dead letter queue |
| `Ulid.dfy`, `AdFeed.dfy` | identifiers; advertisement slots |
| `Common.dfy` | options, results, strings |

`dafny verify dfyconfig.toml` checks the whole project.

Asynchronous code is a state machine whose steps are the stretches between two awaits. A run is any sequence of
such steps, so every interleaving is included. Replies, failures, clocks, random values, hash functions, key
operations and URL parsing are parameters. SQL statements are operations on sets and maps with the tables' unique
keys.

## What turned out not to hold

* `fetchMore` does not look at `loading`. Started during an initial load whose reply moves the cursor, its
  continuation calls itself without end (`ScrollDuringLoad`, `ScrollDuringLoadRunsAway`; exactly when is
  `OverflowsIffStuck`).
* The suspension filter asks with lower-cased host names, but the lookup answers normal forms, so a host written
  with a trailing dot escapes its rule (`DottedHostEscapes`; exactly when is `SurvivesIffDotted`).
* A rule stored with a trailing dot never takes effect, since every name looked up is stripped of it
  (`DottedRuleIsIdle`; exactly when is `RuleTakesEffectIff`).
* The verifier rebuilds another text than was signed when the key id holds a comma, and when the URL was not signed
  in its serialised form: `signRequestRFC9421` signs the URL as it was given, `deliverActivity.ts` gives it the
  stored inbox URL, and the other side sees the serialised one (`TextsThatChange`; exactly when is
  `VerifierRebuildsSignedText`). A key id with a quote is not read back (`KeyIdsThatChange`, `InputReadsBack`).
* `ulid.ts` speaks of a 48-bit time; the ten digits hold 50 bits, and times from 2^50 on wrap around
  (`FirstTimeLost`, `TimeReadsBack`).
* A block that lands in the middle of a follow of the same pair can make a counter drift, because of the clamp
  meant to protect it (`BlockAmidFollow`), or coexist with the follow (`BlockAmidCheck`; both in
  `FirstFollowMeetsBlock`).

## Model

| member | source | states |
|---|---|---|
| `Base58.Base58btcEncode` | siliconbeest-queue-consumer/src/handlers/integrityProofs.ts:16-53 | for every byte array the encoder prints one `1` per leading zero byte and then the shortest base 58 digits of the bytes read as one number |
| `Base58.PushByte` | siliconbeest-queue-consumer/src/handlers/integrityProofs.ts:28-37 | one outer round: the buffer denotes 256 times what it did plus the byte, its cells stay below 58, cells above the last `length` stay 0, and no carry is lost although the inner loop stops at `j < length` |
| `Base58.FillBuffer` | siliconbeest-queue-consumer/src/handlers/integrityProofs.ts:24-37 | the buffer ends up denoting exactly the number formed by all the bytes |
| `Base58.BufferFits` | siliconbeest-queue-consumer/src/handlers/integrityProofs.ts:24-25 | `ceil(138n/100) + 1` cells hold every number of `n` bytes, for every `n` |
| `Base58.PrintDigits` | siliconbeest-queue-consumer/src/handlers/integrityProofs.ts:39-52 | skipping zero cells from `startIdx` on prints the shortest digits, with the leading ones in front |
| `Base58.DecodeEncoded` | siliconbeest-queue-consumer/src/handlers/integrityProofs.ts:16-53 | decoding gives back the exact bytes, leading zero bytes included |
| `Base58.EncodeDecoded` | siliconbeest-queue-consumer/src/handlers/integrityProofs.ts:16-53 | every string over the alphabet is the encoding of the bytes it decodes to, so the encoding is a bijection |
| `Jcs.JcsSerializeString` | siliconbeest-queue-consumer/src/handlers/integrityProofs.ts:92-108 | the escaping loop prints the canonical text of the string, which `PrintedStringIsCanonical` shows to be the only shortest one in lower case |
| `Jcs.PrintedStringIsCanonical` | siliconbeest-queue-consumer/src/handlers/integrityProofs.ts:92-108 | of all JSON texts of a string the printed one is the only shortest one whose escapes have lower-case digits: every short escape is used and no unit that may stand as itself is escaped (RFC 8785 section 3.2.2.2) |
| `Jcs.ParseUndoesPrint` | siliconbeest-queue-consumer/src/handlers/integrityProofs.ts:59-90 | an independent parser, which refuses blanks, raw control characters and members that are out of order at any depth, reads back from every printed text the value it was printed from (RFC 8785 sections 3.2.2.2 and 3.2.3) |
| `Jcs.PrintsIffSerializable` | siliconbeest-queue-consumer/src/handlers/integrityProofs.ts:66-90 | printing succeeds exactly when no non-finite number and no unsupported type is reachable through printed parts |
| `Jcs.PrintsSameIffSameMeaning` | siliconbeest-queue-consumer/src/handlers/integrityProofs.ts:59-108 | two values print the same exactly when they are equal up to the order of members and dropped undefined members |
| `Jcs.KeysSorted` | siliconbeest-queue-consumer/src/handlers/integrityProofs.ts:81 | object keys come out strictly sorted by UTF-16 units, each exactly once |
| `Jcs.BeforeSpelled` | siliconbeest-queue-consumer/src/handlers/integrityProofs.ts:81 | the order of keys is that of the first UTF-16 units that differ, a proper prefix coming first (RFC 8785 section 3.2.3) |
| `PrefetchProtocol.StepKeepsInv` | siliconbeest/src/composables/useStatusPagePrefetch.ts:71-252 | every step of every interleaving keeps: the slot holds a request of the current generation, waiters await issued requests, pages handed over were fresh, and owed restarts stay queued |
| `PrefetchProtocol.RunKeepsInv` | siliconbeest/src/composables/useStatusPagePrefetch.ts:71-252 | the same over every run of prefetch, consume, invalidation, reset, dispose, settlement and microtask |
| `PrefetchProtocol.HandedPagesAreFresh` | siliconbeest/src/composables/useStatusPagePrefetch.ts:199-244 | a page returned by `consume` was requested for the caller's cursor in the current generation, is not marked for refresh, and holds no status matched by a predicate registered since its request; no request is handed to two consumers |
| `PrefetchProtocol.ThrowingTakesTwoFailures` | siliconbeest/src/composables/useStatusPagePrefetch.ts:221-227 | a `consume` that throws has itself acted on two different failed requests |
| `PrefetchProtocol.OwedRestartHappens` | siliconbeest/src/composables/useStatusPagePrefetch.ts:110-127 | overwriting the one restart slot never drops a restart owed to the live entry: running the queued microtask aborts it and issues its request again |
| `PrefetchProtocol.OneRequestInFlight` | siliconbeest/src/composables/useStatusPagePrefetch.ts:77-108 | at most one request is in flight and not aborted |
| `PrefetchProtocol.GoodPageIsHandedOver` | siliconbeest/src/composables/useStatusPagePrefetch.ts:209-244 | a call hands its page over exactly when the page was asked for in this generation, is still in the slot, unmarked, and matched by none of its invalidators; then that page alone, leaving the slot and the call empty |
| `PrefetchProtocol.FailureIsRetriedOnce` | siliconbeest/src/composables/useStatusPagePrefetch.ts:221-227 | after a first failure the call waits for a new request of its own for the same cursor, without another retry; a second failure is thrown |
| `PrefetchProtocol.AffectedPageIsAskedAgain` | siliconbeest/src/composables/useStatusPagePrefetch.ts:229-240 | a marked or matched page is aborted, asked for again, and waited for by the same call with its retry left as it was |
| `PrefetchProtocol.SupersededCallWaitsOn` | siliconbeest/src/composables/useStatusPagePrefetch.ts:199-219 | a call whose request lost the slot waits for the one in it if that is for its cursor, else for a new one |
| `PrefetchProtocol.OneRequestPerCursor` | siliconbeest/src/composables/useStatusPagePrefetch.ts:77-108 | prefetching and consuming issue a request exactly when the slot holds none for the cursor, and abort what it held |
| `PrefetchProtocol.ResetEndsCalls` | siliconbeest/src/composables/useStatusPagePrefetch.ts:179-184 | a reset empties the slot, aborts what was in it, and leaves calls from before it to end without a page |
| `PrefetchProtocol.InvalidationReachesTheEntry` | siliconbeest/src/composables/useStatusPagePrefetch.ts:136-151 | a forced invalidation marks the live entry and queues its restart, an unforced one leaves a watcher |
| `PrefetchProtocol.WatcherQueuesExactlyWhen` | siliconbeest/src/composables/useStatusPagePrefetch.ts:151-159 | the watcher queues a restart exactly when its entry is in the slot and holds a matched status |
| `PrefetchProtocol.MicrotaskRestartsExactlyWhen` | siliconbeest/src/composables/useStatusPagePrefetch.ts:110-127 | the microtask reissues the queued entry's request exactly when that entry is in the slot |
| `PrefetchProtocol.ScrollingGetsThePage` | siliconbeest/src/composables/useStatusPagePrefetch.ts:190-252 | prefetching, answering and consuming any page hands that page over: a run for every cursor and page |
| `StatusPagePrefetch.StatusPagePrefetch.Start` | siliconbeest/src/composables/useStatusPagePrefetch.ts:77-108 | `start` changes the variables exactly as the protocol step says |
| `StatusPagePrefetch.StatusPagePrefetch.QueueRestart` | siliconbeest/src/composables/useStatusPagePrefetch.ts:117-127 | coalesces restarts into one slot and one microtask, as the protocol step says |
| `StatusPagePrefetch.StatusPagePrefetch.RefreshAffected` | siliconbeest/src/composables/useStatusPagePrefetch.ts:136-159 | records the predicate and marks, restarts or watches the entry, as the protocol step says |
| `StatusPagePrefetch.StatusPagePrefetch.Reset` | siliconbeest/src/composables/useStatusPagePrefetch.ts:179-184 | a new generation, no queued restart, the entry aborted |
| `StatusPagePrefetch.StatusPagePrefetch.ConsumeEntry` | siliconbeest/src/composables/useStatusPagePrefetch.ts:199-209 | the part of `consumeEntry` before its await, as the protocol step says |
| `StatusPagePrefetch.StatusPagePrefetch.Resume` | siliconbeest/src/composables/useStatusPagePrefetch.ts:209-244 | the part of `consumeEntry` after its await, as the protocol step says; it returns a page exactly when the awaited one is good, and then exactly its statuses |
| `StatusPagePrefetch.StatusPagePrefetch.RunSchedule` | siliconbeest/src/composables/useStatusPagePrefetch.ts:62-260 | whatever the schedule of calls and callbacks, the object goes through the protocol's run and keeps its invariant |
| `TimelineProtocol.CountsRepeatOnlyUndisturbed` | siliconbeest/src/stores/timelines.ts:154-161 | although `reset` clears the per-feed counters so that they repeat, the pair of counters returns to an earlier value exactly when no reset and no load of the feed came in between |
| `TimelineProtocol.CurrentIffUndisturbed` | siliconbeest/src/stores/timelines.ts:154-161 | `isCurrentRequest` answers exactly whether anything superseded the request |
| `TimelineProtocol.StepKeepsInv` | siliconbeest/src/stores/timelines.ts:208-451 | every action and continuation keeps the invariant on counters, flags, held pages, outstanding requests and appended pages |
| `TimelineProtocol.RunKeepsInv` | siliconbeest/src/stores/timelines.ts:466-662 | the same over every run |
| `TimelineProtocol.PassingMeansUndisturbed` | siliconbeest/src/stores/timelines.ts:466-619 | in every run a continuation passes `isCurrentRequest` exactly when it has seen no reset and no newer initial load of its feed since it captured its pair |
| `TimelineProtocol.FlagsMeanOutstanding` | siliconbeest/src/stores/timelines.ts:466-619 | `loading` and `loadingMore` are set exactly while a request of the current generation is outstanding, and there is only one of each |
| `TimelineProtocol.HeldPagesAreBoundedAndCurrent` | siliconbeest/src/stores/timelines.ts:223-298 | at most 24 prefetched pages are held, each belonging to its own feed's current generation and knowing every predicate registered since its request |
| `TimelineProtocol.AppendedPagesAreFresh` | siliconbeest/src/stores/timelines.ts:325-423 | every appended page was requested for that feed, in the generation it was appended in and for the captured cursor, was not marked for refresh and holds no status matched by a predicate registered since; no prefetched page is appended twice |
| `TimelineProtocol.LateAppendsOmitRemoved` | siliconbeest/src/stores/timelines.ts:425-662 | a page requested before a removal and appended after it contains neither the status nor a cached reblog of it |
| `TimelineProtocol.RemovedReturnsOnlyAnew` | siliconbeest/src/stores/timelines.ts:425-662 | in every run, a removed status or cached reblog of it is gone from every feed, and returns only in an initial load's reply, as a live post, or in an appended page requested after the removal |
| `TimelineProtocol.DisciplinedCursorsStay` | siliconbeest/src/stores/timelines.ts:325-368 | when `fetchMore` is never started during a load of its feed, captured cursors stay the feeds' cursors and the mismatch recursion replaces a page at most once per await |
| `TimelineProtocol.ScrollDuringLoad` | siliconbeest/src/stores/timelines.ts:353-368 | a scroll started during a load whose reply moves the cursor makes the recursion overflow every call stack |
| `TimelineProtocol.ScrollDuringLoadRunsAway` | siliconbeest/src/stores/timelines.ts:560-619 | such a state is reachable from the start: a concrete run |
| `TimelineLists.StepChangesLists` | siliconbeest/src/stores/timelines.ts:466-662 | what each event does to what a feed shows: a current load's reply replaces the list, a good page of a current scroll is appended in order, live posts are held and revealed in front, removals are taken out, a reset clears; nothing else changes it |
| `TimelineLists.RunReplaysChanges` | siliconbeest/src/stores/timelines.ts:466-662 | after every run a feed shows exactly what these changes, replayed in order, leave |
| `TimelineLists.FeedIsLoadAndPages` | siliconbeest/src/stores/timelines.ts:466-662 | so in every run it shows its last load followed by the pages appended since, in order and without those removed since, behind live posts held at the load or arrived later |
| `TimelineLists.GoodPageIsAppended` | siliconbeest/src/stores/timelines.ts:581-618 | a good page of a current scroll goes behind the list; the cursor moves to its last status, `nextPage` and `hasMore` to its link header, the flag is off, the next page is held or asked for, and no other feed changes |
| `TimelineLists.LoadReplySets` | siliconbeest/src/stores/timelines.ts:507-550 | the same for a load's reply, which replaces the list; a failed one sets the error, a superseded one is dropped |
| `TimelineLists.LoadStarts` | siliconbeest/src/stores/timelines.ts:466-486 | a load starts exactly when none runs, with a new generation, no held page and the flags reset |
| `TimelineLists.ScrollStarts` | siliconbeest/src/stores/timelines.ts:560-591 | when a scroll does anything, and that it then waits for the held page if that fits, else for a new one |
| `TimelineLists.FailedPageIsRetriedOnce` | siliconbeest/src/stores/timelines.ts:384-397 | a failed speculative page is asked for once more; the next failure ends the scroll with an error, and the recommended feed for good |
| `TimelineLists.AffectedPageIsAskedAgain` | siliconbeest/src/stores/timelines.ts:398-411 | a marked or matched page is not appended: the scroll waits for a new one |
| `TimelineLists.RemovalFollowsPages` | siliconbeest/src/stores/timelines.ts:425-451 | after a removal every held page has something to do: of a feed that lost a status it is queued for a restart (recommended: once settled), of any other it is looked at when it settles |
| `TimelineLists.MicrotaskReplacesQueued` | siliconbeest/src/stores/timelines.ts:307-319 | no page that was queued for a restart is held after the microtask |
| `TimelineLists.CleanupExactly` | siliconbeest/src/stores/timelines.ts:223-233 | expired pages go, and of the others only the oldest, only when more than 23 are held |
| `TimelineLists.WithoutFilters` | siliconbeest/src/stores/timelines.ts:646-647 | taking removed ids out keeps the order of the others |
| `TimelinePages.OverflowsIffStuck` | siliconbeest/src/stores/timelines.ts:325-368 | the recursion of `consumePagePrefetch` runs away exactly when the request is current, its page is not held, and its cursor is no longer the feed's |
| `TimelinePages.OtherwiseOneReplacement` | siliconbeest/src/stores/timelines.ts:353-368 | from any other state two calls settle it |
| `TimelinePages.StuckOverflows` | siliconbeest/src/stores/timelines.ts:325-368 | from such a state every bound on the call stack is exceeded |
| `TimelinePages.StartKeeps` | siliconbeest/src/stores/timelines.ts:249-298 | starting a prefetch keeps the pages' invariant, evicting down to the limit |
| `TimelinePages.RefreshAffectedKeeps` | siliconbeest/src/stores/timelines.ts:425-451 | registering a predicate keeps the invariant and reaches every held page |
| `TimelinePages.ConsumeKeeps` | siliconbeest/src/stores/timelines.ts:325-368 | consuming up to the await keeps the invariant, whatever the recursion does |
| `TimelinesStore.TimelinesStore.StartPagePrefetch` | siliconbeest/src/stores/timelines.ts:249-298 | changes the maps exactly as the protocol step says, with the clean-up loops |
| `TimelinesStore.TimelinesStore.CleanupPagePrefetches` | siliconbeest/src/stores/timelines.ts:223-233 | drops expired pages, then the oldest until there is room, as the protocol says |
| `TimelinesStore.TimelinesStore.RefreshAffectedPagePrefetches` | siliconbeest/src/stores/timelines.ts:425-451 | the loop over held pages does what the protocol step says |
| `TimelinesStore.TimelinesStore.ConsumePagePrefetch` | siliconbeest/src/stores/timelines.ts:325-368 | the recursion up to the await does what the protocol step says |
| `TimelinesStore.TimelinesStore.FetchMore` | siliconbeest/src/stores/timelines.ts:560-591 | as the protocol step says |
| `TimelinesStore.TimelinesStore.ResumeMore` | siliconbeest/src/stores/timelines.ts:370-619 | the continuation after the page arrived, as the protocol step says; every feed's list changes as `ChangeOf` says, so a good page goes behind the list and nothing else happens to it |
| `TimelinesStore.TimelinesStore.FetchTimeline` | siliconbeest/src/stores/timelines.ts:466-490 | as the protocol step says |
| `TimelinesStore.TimelinesStore.LoadReply` | siliconbeest/src/stores/timelines.ts:490-551 | the continuation after the reply, as the protocol step says; every feed's list changes as `ChangeOf` says |
| `TimelinesStore.TimelinesStore.RemoveStatus` | siliconbeest/src/stores/timelines.ts:635-662 | as the protocol step says |
| `TimelinesStore.TimelinesStore.Reset` | siliconbeest/src/stores/timelines.ts:836-848 | as the protocol step says |
| `TimelinesStore.TimelinesStore.Dispatch` | siliconbeest/src/stores/timelines.ts:466-848 | every event changes the store as the protocol step does and keeps its invariant |
| `DomainBlocks.VariantsCover` | packages/shared/domain-blocks/index.ts:22-29 | the names looked up for a domain are exactly those of rules covering it: itself, and for a domain without empty labels every suffix after a dot |
| `DomainBlocks.VariantsShrink` | packages/shared/domain-blocks/index.ts:22-29 | they come strictly longest first |
| `DomainBlocks.NormalizeTwice` | packages/shared/domain-blocks/index.ts:18-20 | a name without white space is in normal form after one pass |
| `DomainBlocks.NormalForm` | packages/shared/domain-blocks/index.ts:18-20 | a lower-case name without white space is in normal form exactly when it does not end in a dot |
| `DomainBlocks.NormalizeStrips` | packages/shared/domain-blocks/index.ts:18-20 | white space around a name, its case and dots behind it make no difference |
| `DomainBlocks.MoreSpecificRuleWins` | packages/shared/domain-blocks/index.ts:50-66 | a rule suspends its domain and subdomains but not its parent, and a more specific rule of another severity overrides it |
| `DomainBlocks.RuleTakesEffectIff` | siliconbeest/server/worker/services/admin.ts:265-286 | a stored rule decides some domain exactly when its name, which storing trims and lower-cases, does not end in a dot |
| `DomainBlocks.DecidesUnique` | packages/shared/domain-blocks/index.ts:50-59 | at most one rule decides a domain |
| `DomainBlocks.IsDomainBlocked` | packages/shared/domain-blocks/index.ts:31-67 | the query without its cache: blocked exactly when the longest covering rule suspends, with that rule's severity and flags |
| `DomainBlocks.FetchRules` | packages/shared/domain-blocks/index.ts:102-120 | however the names fall into batches of 100, exactly the rules of the names asked about are fetched, when those found are stored in normal form |
| `DomainBlocks.FirstHit` | packages/shared/domain-blocks/index.ts:122-128 | the first name with a rule decides, and it is the longest covering one |
| `DomainBlocks.GetSuspendedDomains` | packages/shared/domain-blocks/index.ts:86-131 | the batched lookup answers exactly the normal forms of the domains whose deciding rule suspends, when the rules it finds are stored in normal form; and never anything but normal forms of the domains |
| `DomainBlocks.PlainWithoutWhiteSpace` | packages/shared/domain-blocks/index.ts:18-29 | that is so when the domains, or the rule names, hold no white space |
| `DomainBlocks.LookupsAgree` | packages/shared/domain-blocks/index.ts:31-131 | the single query and the batched lookup agree domain by domain |
| `DomainBlocks.AnswerForNormalNames` | packages/shared/domain-blocks/index.ts:86-131 | of names without white space the answer holds exactly the suspended ones that are in normal form |
| `DomainBlocks.GetSuspendedDeliveryInboxes` | packages/shared/domain-blocks/index.ts:184-241 | with identities free of white space, exactly the requested inboxes behind which stands an identity that is suspended and in normal form; with rule names free of it, those behind which stands the normal form of a suspended identity of any requested inbox |
| `FederationPolicy.GetFedifyTargetDomains` | siliconbeest-queue-consumer/src/federationPolicy.ts:9-26 | collects every host name of every target: inbox hosts and actor hosts |
| `FederationPolicy.FilterSuspendedFedifyTargets` | siliconbeest-queue-consumer/src/federationPolicy.ts:44-78 | keeps exactly the targets that are in neither set, and counts the others |
| `FederationPolicy.TargetsSpelled` | siliconbeest-queue-consumer/src/federationPolicy.ts:9-42 | which fields of a message name its targets |
| `FederationPolicy.ReachesSpelled` | siliconbeest-queue-consumer/src/federationPolicy.ts:80-113 | the names a delivery reaches: the inbox's host, the hosts of the actor ids that are strings, the domains of accounts with that inbox or shared inbox, the hosts of relays' actors there, and no other |
| `FederationPolicy.KeepConserves` | siliconbeest-queue-consumer/src/federationPolicy.ts:57-77 | kept plus dropped is the total, no other field changes, and nothing is left only when every target went |
| `FederationPolicy.FilterQueuedTask` | siliconbeest-queue-consumer/src/index.ts:174-191 | extract, look up and filter drops exactly the targets reaching a name that is suspended and in normal form |
| `FederationPolicy.SurvivesIffDotted` | siliconbeest-queue-consumer/src/federationPolicy.ts:80-104 | no clean target is dropped; a suspended one survives exactly when all its suspended names end in a dot |
| `FederationPolicy.PipelineIsDirectFilter` | siliconbeest-queue-consumer/src/index.ts:174-191 | with no name ending in a dot the pipeline is the direct filter by rule and identity tables |
| `FederationPolicy.SecondPassDropsNothing` | siliconbeest-queue-consumer/src/federationPolicy.ts:44-78 | a second pass over what is left drops nothing and changes nothing |
| `FederationPolicy.DottedHostEscapes` | siliconbeest-queue-consumer/src/federationPolicy.ts:80-95 | a concrete message whose host is written with a trailing dot gets past the filter although its rule suspends it |
| `Base64.DecodeEncoded` | packages/shared/crypto/digest.ts:11-17 | `atob` gives back every byte string `btoa` encoded (RFC 4648 section 4) |
| `Base64.TestVectors` | packages/shared/crypto/digest.ts:11-17 | test vectors of RFC 4648 section 10 |
| `SignatureSyntax.CollectComponents` | packages/shared/crypto/verify.ts:161-166 | the loop over the component expression finds all quoted names in order |
| `SignatureSyntax.ParseInput` | packages/shared/crypto/verify.ts:146-179 | the parser as a whole, with its early exits |
| `SignatureSyntax.QuotedList` | packages/shared/crypto/sign-rfc9421.ts:78 | a printed list of names without quotes is read back |
| `SignatureSyntax.CreatedAt` | packages/shared/crypto/verify.ts:173-174 | the creation time is read back whatever follows it |
| `SignatureSyntax.ParametersReadBack` | packages/shared/crypto/verify.ts:168-174 | the key id is read back exactly when it holds neither comma nor quote; the time always |
| `SignatureSyntax.InputReadsBack` | packages/shared/crypto/verify.ts:146-179 | reading a printed Signature-Input: components and time always come back, the parameter string exactly when the key id has no comma, the key id exactly when it has neither comma nor quote (RFC 9421 sections 4.1 and 2.5) |
| `SignatureSyntax.LabelReadsBack` | packages/shared/crypto/verify.ts:221-223 | the label is found |
| `SignatureSyntax.SignatureReadsBack` | packages/shared/crypto/verify.ts:185-205 | the signature bytes come back (RFC 9421 section 4.2) |
| `HttpSignature.BuildSignatureBase` | packages/shared/crypto/sign-rfc9421.ts:20-35 | fails exactly when a component has no value, otherwise one line per component and the parameters last |
| `HttpSignature.BaseShowsParams` | packages/shared/crypto/sign-rfc9421.ts:20-35 | parameter strings of different length give different signature bases |
| `HttpSignature.SignRequest` | packages/shared/crypto/sign-rfc9421.ts:44-92 | builds components, values, parameters and headers; an empty body is not signed |
| `HttpSignature.ResolveComponents` | packages/shared/crypto/verify.ts:252-287 | every component gets its value, or the request is refused |
| `HttpSignature.VerifySignature` | packages/shared/crypto/verify.ts:210-304 | all refusals in order, then the key check on the bytes and text recovered; what is valid is acceptable: both signature headers, a component list, a time within five minutes, the listed digest that of the received body, every listed header |
| `HttpSignature.PassesIffAcceptable` | packages/shared/crypto/verify.ts:210-291 | the key is asked exactly about the requests whose signature headers are there, whose list is not empty, whose time is at most five minutes off, whose listed digest is that of the received body, and whose components all have values |
| `HttpSignature.TamperedOrStaleRefused` | packages/shared/crypto/verify.ts:230-251 | a signed request delivered with a body of another hash, or signed more than five minutes before or after, is refused, whatever URL it is delivered under |
| `HttpSignature.DeliveredPassesExactlyWhen` | packages/shared/crypto/verify.ts:210-291 | under its serialised URL it is refused in no other case |
| `HttpSignature.DerivedSpelled` | packages/shared/crypto/verify.ts:258-277 | the values of the derived components (RFC 9421 section 2.2) |
| `HttpSignature.SameValues` | packages/shared/crypto/verify.ts:252-287 | the verifier gives the signed components the values the signer would have given them for the serialised URL |
| `HttpSignature.BaseShape` | packages/shared/crypto/sign-rfc9421.ts:20-35 | where the URL and the parameters stand in the signed text |
| `HttpSignature.BaseSpelled` | packages/shared/crypto/sign-rfc9421.ts:20-35 | the signed text line by line: each component in quotes, a colon, a space, its value and a line break, last the parameters (RFC 9421 section 2.5) |
| `HttpSignature.ParametersSpelled` | packages/shared/crypto/sign-rfc9421.ts:78-80 | the parameters written out |
| `HttpSignature.HeadersSpelled` | packages/shared/crypto/sign-rfc9421.ts:82-92 | the headers of a signed request written out |
| `HttpSignature.VerifierRebuildsSignedText` | packages/shared/crypto/verify.ts:210-304 | a fresh signed request reaches the key check with exactly the signed bytes, and with exactly the signed text if and only if the key id holds no comma and the URL was signed in its serialised form without a fragment |
| `HttpSignature.TextsThatChange` | packages/shared/crypto/sign-rfc9421.ts:66-80 | two requests whose text comes back changed: a host written with a capital, and a key id with a comma |
| `SignatureSyntax.KeyIdsThatChange` | packages/shared/crypto/verify.ts:168-176 | two key ids that do not come back |
| `ImportTables.ClampNeverFires` | siliconbeest-queue-consumer/src/handlers/importItem.ts:377-404 | with exact counters no `MAX(0, ...)` changes anything |
| `ImportTables.ImportKeepsInv` | siliconbeest-queue-consumer/src/handlers/importItem.ts:54-472 | every item keeps each counter equal to the number of follow rows it counts, and blocks exclusive of follows and requests both ways |
| `ImportTables.RunKeepsInv` | siliconbeest-queue-consumer/src/handlers/importItem.ts:54-472 | the same after any sequence of items, repeats included, while profiles, users, lists and rules change in between |
| `ImportTables.FollowOutcomes` | siliconbeest-queue-consumer/src/handlers/importItem.ts:256-358 | a follow item adds one request, or one follow with both counters, or nothing, and only where neither side blocks |
| `ImportTables.FollowRowsExactly` | siliconbeest-queue-consumer/src/handlers/importItem.ts:256-358 | a follow import makes a new follow row exactly when it is permitted, in the columns permissions read, neither row is there, and the target is local, unlocked and not approving by hand; a new request exactly when permitted and remote, locked or approving; else nothing |
| `ImportTables.FollowChangesOnly` | siliconbeest-queue-consumer/src/handlers/importItem.ts:307-356 | only that row is new; a follow raises the two counters by one, a request none |
| `ImportTables.LockedIsOnlyAsked` | siliconbeest-queue-consumer/src/handlers/importItem.ts:294-356 | a locked local account is only asked, an open one followed at once |
| `ImportTables.BlockAndMuteRowsExactly` | siliconbeest-queue-consumer/src/handlers/importItem.ts:360-472 | which rows a block or a mute import makes, and when |
| `ImportTables.TargetSuspendedExactly` | siliconbeest-queue-consumer/src/handlers/importItem.ts:190-197 | a target's domain in normal form counts as suspended exactly when the rule deciding it suspends |
| `ImportItem.HandlesReadBack` | siliconbeest-queue-consumer/src/handlers/importItem.ts:60-69 | a handle is read as the exact name before the first `@` and the lower-cased host after the last one |
| `ImportItem.TargetsByHandle` | siliconbeest-queue-consumer/src/handlers/importItem.ts:71-113 | which account a handle means |
| `ImportTables.BlockLeavesOthers` | siliconbeest-queue-consumer/src/handlers/importItem.ts:371-434 | the block batch removes follows, requests and pins both ways and memberships in each other's lists, and touches no other pair, list or counter |
| `ImportTables.BlockTwice` | siliconbeest-queue-consumer/src/handlers/importItem.ts:371-434 | repeating a block changes nothing |
| `ImportTables.ImportTwice` | siliconbeest-queue-consumer/src/handlers/importItem.ts:185-472 | repeating any item changes nothing |
| `ImportTables.BlockUndoesFollow` | siliconbeest-queue-consumer/src/handlers/importItem.ts:256-434 | a block after a follow of the same pair leaves what the block alone would |
| `ImportTables.BlockAmidFollow` | siliconbeest-queue-consumer/src/handlers/importItem.ts:340-355 | a block landing between a follow's insert and its counter update leaves exact counters unless it blocks the very pair while a counter stands at zero, and only then |
| `ImportTables.BlockAmidCheck` | siliconbeest-queue-consumer/src/handlers/importItem.ts:256-347 | a block landing between permission check and insert, of a follow or a request, stays exclusive if and only if it is of another pair |
| `ImportTables.FirstFollowMeetsBlock` | siliconbeest-queue-consumer/src/handlers/importItem.ts:256-355 | a concrete first follow met by a block, once coexisting with it and once leaving a counter at 1 with no row |
| `ImportItem.ImportConsumer.BlockBatch` | siliconbeest-queue-consumer/src/handlers/importItem.ts:371-434 | the twelve statements in order leave what the specification of a block says |
| `ImportItem.ImportConsumer.FollowItem` | siliconbeest-queue-consumer/src/handlers/importItem.ts:190-358 | the follow branch with its early returns does what the specification says, which `FollowRowsExactly` pins to the rows it makes |
| `ImportItem.ImportConsumer.HandleImportItem` | siliconbeest-queue-consumer/src/handlers/importItem.ts:54-472 | finds the target, applies the item, and keeps counters and exclusions; the suspension lookup it follows is exact when the rules found are stored in normal form |
| `DraftsProtocol.SortedFacts` | siliconbeest/src/stores/drafts.ts:155-159 | sorting and capping keeps the fifty newest: a draft goes only when fifty no older ones stay |
| `DraftsProtocol.MergeFacts` | siliconbeest/src/stores/drafts.ts:327-334 | merging keeps ids distinct, leaves out pending deletions, and keeps every unsynced draft in its own or a later revision |
| `DraftsProtocol.MergeSources` | siliconbeest/src/stores/drafts.ts:327-334 | what a merge shows is the server's or an unsynced local draft, and nothing the server sent is shown in an older revision |
| `DraftsOutcomes.MergeExactly` | siliconbeest/src/stores/drafts.ts:327-334 | a merge holds exactly the unsynced drafts ahead of the server, and the server's, as synced, where none is ahead, without those waiting for deletion |
| `DraftsOutcomes.ListReplyShowsMerge` | siliconbeest/src/stores/drafts.ts:320-336 | an accepted list reply shows exactly that, newest first, losing of it only what fifty no older shut out; any other reply changes nothing |
| `DraftsOutcomes.SaveReplyReplaces` | siliconbeest/src/stores/drafts.ts:266-281 | a reply to a save, taken for its account and token while no later revision is listed, puts the synced draft in its place and writes the storage |
| `DraftsOutcomes.ConfirmedDeletionLeaves` | siliconbeest/src/stores/drafts.ts:300-308 | a confirmed deletion, for its account and token, ends its waiting and changes nothing else |
| `DraftsOutcomes.SaveWrites` | siliconbeest/src/stores/drafts.ts:364-391 | a save writes the active draft in its next revision with its id and birth kept, or a first one; an empty save removes |
| `DraftsOutcomes.SavedBelowFifty` | siliconbeest/src/stores/drafts.ts:155-159 | below fifty drafts a save shuts nothing out |
| `DraftsOutcomes.RemovalLeaves` | siliconbeest/src/stores/drafts.ts:393-401 | a removal takes the draft out, lets its deletion wait, forgets it as active and writes the storage |
| `DraftsOutcomes.AccountsLoad` | siliconbeest/src/stores/drafts.ts:229-256 | a change of user, or a refresh for another account than the loaded one, shows exactly what is stored for it |
| `DraftsProtocol.SavedDraftIsListed` | siliconbeest/src/stores/drafts.ts:364-388 | a save lists the draft in its next revision, makes it active, withdraws its pending deletion, and touches no other draft unless the cap shuts it out |
| `DraftsProtocol.ReplyTakenExactlyWhen` | siliconbeest/src/stores/drafts.ts:266-281 | a reply to a save is taken exactly when account and token are current, the draft is still listed, and no newer edit was made; it then replaces that draft only |
| `DraftsProtocol.StepKeepsInv` | siliconbeest/src/stores/drafts.ts:216-420 | every event keeps ids distinct, at most fifty drafts, and none of them pending deletion, in the store and in storage |
| `DraftsProtocol.RunKeepsInv` | siliconbeest/src/stores/drafts.ts:216-420 | the same over every order of saves, removals, account switches and late replies |
| `DraftsProtocol.AbsentStaysAbsent` | siliconbeest/src/stores/drafts.ts:258-343 | a late reply to a save never adds a draft that is not in the list; only a stored list or the server's list can |
| `DraftsProtocol.UnsyncedEditStays` | siliconbeest/src/stores/drafts.ts:258-401 | an unsynced edit leaves in a step only by removal, account load, replacement by what the event brings with a revision no lower, or the cap: fifty drafts no older than the edit itself or that replacement |
| `DraftsProtocol.UnsyncedEditAccounted` | siliconbeest/src/stores/drafts.ts:258-401 | over any run, an unsynced edit that is gone at the end was there before and gone after an identifiable step that ends it in one of those ways |
| `DraftsProtocol.RemovedStaysRemoved` | siliconbeest/src/stores/drafts.ts:258-401 | whatever the storage does, a removed draft stays removed until a stored list is loaded or the server lists it after its deletion was confirmed |
| `DraftsProtocol.StepMirrors` | siliconbeest/src/stores/drafts.ts:216-256 | while storage accepts every write and no other tab writes, the loaded list is always the stored one and a step writes no other account's |
| `DraftsProtocol.StoredEditStays` | siliconbeest/src/stores/drafts.ts:216-420 | then an unsynced edit in the list of any account, loaded or not, leaves it only by removal, the cap or replacement while that account is loaded; account switches take nothing |
| `DraftsProtocol.StoredEditAccounted` | siliconbeest/src/stores/drafts.ts:216-420 | the same over any run, with the step at which it left |
| `DraftsProtocol.RemovedSurvivesSwitches` | siliconbeest/src/stores/drafts.ts:216-420 | then a removed draft does not come back through any account switches, unless the server lists it after its deletion was confirmed |
| `DraftsProtocol.SwitchAndBackRestores` | siliconbeest/src/stores/drafts.ts:229-256 | then leaving an account and coming back, whatever happens in between, restores its drafts and pending deletions exactly |
| `DraftsStore.DraftsStore.OnSaved` | siliconbeest/src/stores/drafts.ts:266-281 | the continuation of `syncDraft`, as the protocol step says |
| `DraftsStore.DraftsStore.OnDeleted` | siliconbeest/src/stores/drafts.ts:300-308 | the continuation of `syncDelete`, as the protocol step says |
| `DraftsStore.DraftsStore.OnListed` | siliconbeest/src/stores/drafts.ts:325-336 | the continuation of `loadRemote`, as the protocol step says |
| `DraftsStore.DraftsStore.LoadStored` | siliconbeest/src/stores/drafts.ts:229-256 | as the protocol step says |
| `DraftsStore.DraftsStore.SaveDraft` | siliconbeest/src/stores/drafts.ts:364-391 | as the protocol step says |
| `DraftsStore.DraftsStore.RemoveDraft` | siliconbeest/src/stores/drafts.ts:393-401 | as the protocol step says |
| `DraftsStore.DraftsStore.RefreshDrafts` | siliconbeest/src/stores/drafts.ts:354-362 | as the protocol step says |
| `DraftsStore.MergeLoops` | siliconbeest/src/stores/drafts.ts:328-334 | the three passes over the map of drafts by id compute the merge |
| `QueueProtocol.FederationMessageEnds` | siliconbeest-queue-consumer/src/index.ts:342-453 | a federation message is delivered at most 6 times, then at most 3 times from the dead letter queue, and ends processed, skipped, parked once, or dropped |
| `QueueProtocol.DroppedExactlyWhenUnparkable` | siliconbeest-queue-consumer/src/index.ts:342-388 | it is dropped exactly when no delivery settles it and on the third dead-letter attempt every park write fails |
| `QueueProtocol.FirstSettlingDecides` | siliconbeest-queue-consumer/src/index.ts:342-453 | the first delivery that settles a federation message, or its ninth, decides between processed, skipped, parked and dropped by its own outcome and park writes |
| `QueueProtocol.WhenRetried` | siliconbeest-queue-consumer/src/index.ts:342-453 | when each queue retries a message, and after what delay |
| `QueueProtocol.InternalMessageEnds` | siliconbeest-queue-consumer/src/index.ts:403-453 | whatever its outcomes, an internal message is delivered at most 4 times, and the handler drops it exactly when three deliveries return it and the fourth fails |
| `QueueConsumer.LegacyInternalMessageEnds` | siliconbeest-queue-consumer/src/index.ts:128-137 | a message of one of our own types on the internal queue is never deferred and never expires: it is processed within four deliveries, or dropped exactly when all four failed |
| `QueueConsumer.WhenFailed` | siliconbeest-queue-consumer/src/index.ts:161-276 | when processing a body fails |
| `QueueConsumer.QueuesByName` | siliconbeest-queue-consumer/src/index.ts:396-438 | the queues are told apart by the ends of their names |
| `QueueConsumer.Consumer.ProcessMessageBody` | siliconbeest-queue-consumer/src/index.ts:161-276 | the outcome for every body, the lock released on every path, and only clean targets handed on |
| `QueueConsumer.Consumer.ConsumeDeadLetter` | siliconbeest-queue-consumer/src/index.ts:343-387 | one dead letter: settled once and parked as its delivery says, a deferred one with a second park write |
| `QueueConsumer.Consumer.ConsumeDlqBatch` | siliconbeest-queue-consumer/src/index.ts:342-388 | every message of the batch gets exactly one ack or retry, and exactly the rows due are parked |
| `QueueConsumer.Consumer.HandleBatch` | siliconbeest-queue-consumer/src/index.ts:391-453 | the same for every batch of every queue |
| `Ulid.GenerateUlid` | packages/shared/utils/ulid.ts:16-44 | ten digits of time and sixteen of the random bytes |
| `Ulid.RandomPart` | packages/shared/utils/ulid.ts:30-41 | the bit-cursor loop prints the ten bytes, read in base 256, as sixteen base 32 digits |
| `Ulid.CursorStep` | packages/shared/utils/ulid.ts:33-41 | each digit is the next five bits of the bytes |
| `Ulid.UlidToDate` | packages/shared/utils/ulid.ts:61-70 | the digits' value, or an error on an invalid or missing character |
| `Ulid.DateExactlyWhen` | packages/shared/utils/ulid.ts:50-70 | a text has a date exactly when its first ten characters are letters of the alphabet in either case, and is valid when it has 26 and all are |
| `Ulid.CrockfordLetters` | packages/shared/utils/ulid.ts:8 | the alphabet is the digits and the capitals without I, L, O and U |
| `Ulid.TimeReadsBack` | packages/shared/utils/ulid.ts:16-70 | a generated identifier is valid and gives back its time modulo 2^50, hence the time exactly when it is below 2^50 |
| `Ulid.FirstTimeLost` | packages/shared/utils/ulid.ts:61-70 | the time 2^50 reads back as the epoch |
| `Ulid.RandomPartIsBijective` | packages/shared/utils/ulid.ts:29-41 | the random digits denote the bytes' number, and equal random parts mean equal bytes |
| `Ulid.EveryRandomPartOccurs` | packages/shared/utils/ulid.ts:29-41 | every sixteen digits come from some ten bytes |
| `Ulid.EarlierSortsFirst` | packages/shared/utils/ulid.ts:16-44 | an earlier time below 2^50 sorts lexicographically first, whatever the random parts |
| `AdFeed.MixAdvertisements` | siliconbeest/src/utils/advertisementFeed.ts:24-67 | the loop computes the mixed feed |
| `AdFeed.ErasingAdsGivesTheFeed` | siliconbeest/src/utils/advertisementFeed.ts:24-67 | taking the advertisements out gives the statuses in order |
| `AdFeed.AdsAreSpacedOut` | siliconbeest/src/utils/advertisementFeed.ts:19-23 | the first advertisement follows 9 to 12 posts, later ones 26 to 50 more, as many as fit |
| `AdFeed.CreativesRotate` | siliconbeest/src/utils/advertisementFeed.ts:46-58 | with two or more creatives none is shown twice in a row |
| `AdFeed.AdsAreWhereHashesPut` | siliconbeest/src/utils/advertisementFeed.ts:40-66 | each advertisement stands where the hash of the one before it, or of the top post, puts it, shows the creative its own hash picks or the next one if that was just shown, follows its own status, and has the next slot number |
| `AdFeed.LoadingMoreKeepsTheFeed` | siliconbeest/src/utils/advertisementFeed.ts:24-67 | the mix of a non-empty feed is a prefix of the mix of any extension of it |

## Left out

Each line names what the repository does and the model does not.

- GetSuspendedDomains: says exactly what is returned only when the rules it finds are stored in normal form, which `PlainWithoutWhiteSpace` gives for domains or rule names without white space; otherwise one row can overwrite another's rule in an order the database chooses.
- GetSuspendedDeliveryInboxes: the same, for the identities behind the inboxes.
- FilterQueuedTask: assumes that parsed host names are lower-case and, like stored account domains, hold no white space.
- UnsyncedEditStays: assumes that a new draft's id is not in use.
- VerifierRebuildsSignedText: assumes that a serialised URL parses to itself and holds no line break, and that the request reaches the other side under that URL.
- Network calls, KV, R2, WebSockets, logging, Sentry and debug instrumentation; handlers are modelled as if logging never throws.
- Cryptographic primitives, key import and content hashing: functions passed in.
- Base 58: the rounding-up of `n * 138 / 100` is taken exactly rather than in floating point.
- JCS: numbers are opaque printable tokens, so `-0` printing as `0` and the shortest-digits algorithm are outside; sparse arrays and objects with accessors too. Objects are lists of assignments of which the last to a key counts.
- `createProof`: it amends the context after hashing, so nothing is claimed about the signed document as a whole.
- Prefetching: feeds' own reading of `visibleStatuses`, and the registry across feeds, which only calls each feed's `refreshAffected`.
- Timelines: aborting superseded requests (it is in the prefetch protocol), error texts, streaming connections, audible scopes, `removeAccountStatuses`; the turn of the microtask queue between the end of `consumePagePrefetch` and the rest of `fetchMore` counts as one step, each synchronous step reads one clock value, and the depth of the call stack is a parameter.
- `stores/notifications.ts`, which repeats the prefetch protocol.
- Domain rules: the KV cache and its five minutes; `getDeliveryTargetDomains`, whose batched form is modelled; letters outside ASCII are not lower-cased.
- Federation policy: the order of a message's fields.
- Signatures: the older draft signatures; `headers.get` throwing on a name that is no token, which ends like a refusal; times beyond 2^53; key ids that cannot be sent in a header; the `Date` header, which is sent but not signed.
- Imports: WebFinger lookups and queued deliveries, which change no table; a crash between a follow's insert and its counter update; the ids and time stamps of rows.
- Drafts: the server is taken to answer a save with the same id, and new ids to be unused; the fields of a draft beyond its id, revision and times, with `normalizeDraft` and `toDraftInput`; error texts and the `loading` and `saving` flags; the use of a token that changed while a request was under way.
- A list of drafts answered before a deletion and delivered after its confirmation: the code lets it revive the draft, which is why `RemovedStaysRemoved` excludes it.
- A release of the ordering lock that itself fails. The delay of a plain `msg.retry()`, which the platform chooses, stands as 0; `extractParkMeta` and the text of park errors.
- The keys of feed items: an advertisement carries what its key is made of.
- Vue components, routing, serializers, previews, push transport, and Fedify's own queue format.
