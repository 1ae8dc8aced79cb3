/**
 * The single-slot page prefetch protocol (composables/useStatusPagePrefetch.ts) as a state
 * machine whose steps are the synchronous stretches between two awaits.
 */
module PrefetchProtocol {
  import opened Wrappers
  import opened Statuses

  datatype Outcome = Page(statuses: seq<Status>) | Failed(error: nat)

  /** One issued request. */
  datatype Entry = Entry(
    cursor: string,
    generation: nat,
    request: nat,
    aborted: bool,
    invalidators: seq<Predicate>,
    refreshAfterSettle: bool,
    outcome: Option<Outcome>)

  /** A `consumeEntry` call suspended at its await; `failed` is the failed entry it has acted on. */
  datatype Waiter = Waiter(
    cursor: string,
    request: nat,
    expectedGeneration: nat,
    retryAfterFailure: bool,
    awaited: nat,
    failed: Option<nat>)

  /** A page handed to a consumer, with the caller's cursor and the moment of the hand-over. */
  datatype Delivery = Delivery(entry: nat, cursor: string, generation: nat, at: nat)

  /**
   * `entries` holds every entry ever started, its index being the entry's identity.
   * `watchers` are the callbacks of unforced invalidations that have not run yet.
   * The last five fields are history, which no step reads: the predicates registered so far,
   * how many of them there were when each entry was issued, the entries a restart was queued
   * for, and what consumers were given.
   */
  datatype State = State(
    generation: nat,
    entries: seq<Entry>,
    entry: Option<nat>,
    queuedRestart: Option<nat>,
    restartQueued: bool,
    watchers: multiset<nat>,
    waiters: map<nat, Waiter>,
    registered: seq<Predicate>,
    issuedAt: seq<nat>,
    owed: set<nat>,
    handed: seq<Delivery>,
    thrown: seq<(Option<nat>, nat)>)

  const INITIAL := State(0, [], None, None, false, multiset{}, map[], [], [], {}, [], [])

  // ---------------------------------------------------------------- the source's functions

  predicate Live(s: State) {
    s.entry.Some? && s.entry.value < |s.entries|
  }

  function Discard(s: State, abort: bool): State {
    if Live(s) && abort then
      s.(entry := None, entries := s.entries[s.entry.value := s.entries[s.entry.value].(aborted := true)])
    else
      s.(entry := None)
  }

  function Start(s: State, cursor: string, request: nat, expectedGeneration: nat): State {
    if expectedGeneration != s.generation then s
    else if Live(s) && s.entries[s.entry.value].cursor == cursor
            && s.entries[s.entry.value].generation == expectedGeneration then s
    else
      var d := Discard(s, true);
      d.(entries := d.entries + [Entry(cursor, expectedGeneration, request, false, [], false, None)],
         entry := Some(|d.entries|), issuedAt := d.issuedAt + [|s.registered|])
  }

  function Restart(s: State, expected: nat): State {
    if s.entry != Some(expected) || expected >= |s.entries| || s.entries[expected].generation != s.generation then s
    else
      var e := s.entries[expected];
      Start(Discard(s, true), e.cursor, e.request, e.generation)
  }

  function QueueRestart(s: State, expected: nat): State {
    s.(queuedRestart := Some(expected), restartQueued := true, owed := s.owed + {expected})
  }

  function Microtask(s: State): State {
    var cleared := s.(restartQueued := false, queuedRestart := None);
    if s.queuedRestart.Some? then Restart(cleared, s.queuedRestart.value) else cleared
  }

  function RefreshAffected(s: State, p: Predicate, force: bool): State {
    var logged := s.(registered := s.registered + [p]);
    if !Live(s) then logged
    else
      var e := s.entry.value;
      var current := s.entries[e].(invalidators := s.entries[e].invalidators + [p]);
      if force then
        QueueRestart(logged.(entries := s.entries[e := current.(refreshAfterSettle := true)]), e)
      else
        logged.(entries := s.entries[e := current], watchers := s.watchers + multiset{e})
  }

  predicate ResponseNeedsRefresh(e: Entry) {
    e.outcome.Some? && e.outcome.value.Page? && SomeMatch(e.invalidators, e.outcome.value.statuses)
  }

  /** The callback an unforced invalidation leaves on the entry's promise. */
  function Watcher(s: State, e: nat): State
    requires e < |s.entries|
  {
    var ran := s.(watchers := s.watchers - multiset{e});
    if s.entry == Some(e) && ResponseNeedsRefresh(s.entries[e]) then QueueRestart(ran, e) else ran
  }

  function Reset(s: State): State {
    Discard(s.(generation := s.generation + 1, queuedRestart := None), true)
  }

  function Prefetch(s: State, cursor: Option<string>, request: nat, expectedGeneration: nat): State {
    if cursor.None? || cursor.value == "" || expectedGeneration != s.generation then s
    else Start(s, cursor.value, request, expectedGeneration)
  }

  function Settle(s: State, e: nat, outcome: Outcome): State
    requires e < |s.entries|
  {
    s.(entries := s.entries[e := s.entries[e].(outcome := Some(outcome))])
  }

  /** `consumeEntry` up to its await; without a waiter afterwards the call returned undefined. */
  function ConsumeEntry(s: State, id: nat, w: Waiter): State {
    var started := Start(s, w.cursor, w.request, w.expectedGeneration);
    if w.expectedGeneration != s.generation || started.entry.None? then s.(waiters := s.waiters - {id})
    else started.(waiters := s.waiters[id := w.(awaited := started.entry.value)])
  }

  function Consume(s: State, id: nat, cursor: string, request: nat, expectedGeneration: nat): State {
    ConsumeEntry(s, id, Waiter(cursor, request, expectedGeneration, true, 0, None))
  }

  /** `consumeEntry` from its await on. */
  function Resume(s: State, id: nat): State
    requires id in s.waiters && s.waiters[id].awaited < |s.entries|
    requires s.entries[s.waiters[id].awaited].outcome.Some?
  {
    ResumeWith(s.(waiters := s.waiters - {id}), id, s.waiters[id])
  }

  function ResumeWith(s: State, id: nat, w: Waiter): State
    requires w.awaited < |s.entries| && s.entries[w.awaited].outcome.Some?
  {
    var current := s.entries[w.awaited];
    if w.expectedGeneration != s.generation then s
    else if s.entry != Some(w.awaited) then ConsumeEntry(s, id, w)
    else if current.outcome.value.Failed? then AfterFailure(Discard(s, false), id, w)
    else if current.refreshAfterSettle || ResponseNeedsRefresh(current) then
      ConsumeEntry(Restart(s, w.awaited), id, w)
    else
      Discard(s, false).(handed := s.handed + [Delivery(w.awaited, w.cursor, s.generation, |s.registered|)])
  }

  /** One retry after a failed request; the second failure is thrown. */
  function AfterFailure(s: State, id: nat, w: Waiter): State {
    if w.retryAfterFailure then
      ConsumeEntry(s, id, w.(retryAfterFailure := false, failed := Some(w.awaited)))
    else s.(thrown := s.thrown + [(w.failed, w.awaited)])
  }

  // ---------------------------------------------------------------- runs

  datatype Event =
    | DoPrefetch(cursor: Option<string>, request: nat, expectedGeneration: nat)
    | DoConsume(id: nat, page: string, request: nat, expectedGeneration: nat)
    | DoRefresh(predicate_: Predicate, force: bool)
    | DoReset
    | DoSettle(entry: nat, outcome: Outcome)
    | DoWatcher(entry: nat)
    | DoMicrotask
    | DoResume(id: nat)

  /** What the event loop allows: promises settle once, callbacks run after settlement. */
  predicate Enabled(s: State, ev: Event) {
    match ev
    case DoConsume(id, _, _, _) => id !in s.waiters
    case DoSettle(e, _) => e < |s.entries| && s.entries[e].outcome.None?
    case DoWatcher(e) => e in s.watchers && e < |s.entries| && s.entries[e].outcome.Some?
    case DoMicrotask => s.restartQueued
    case DoResume(id) =>
      id in s.waiters && s.waiters[id].awaited < |s.entries| && s.entries[s.waiters[id].awaited].outcome.Some?
    case _ => true
  }

  function Step(s: State, ev: Event): State
    requires Enabled(s, ev)
  {
    match ev
    case DoPrefetch(cursor, request, g) => Prefetch(s, cursor, request, g)
    case DoConsume(id, cursor, request, g) => Consume(s, id, cursor, request, g)
    case DoRefresh(p, force) => RefreshAffected(s, p, force)
    case DoReset => Reset(s)
    case DoSettle(e, outcome) => Settle(s, e, outcome)
    case DoWatcher(e) => Watcher(s, e)
    case DoMicrotask => Microtask(s)
    case DoResume(id) => Resume(s, id)
  }

  /** The state after a schedule; events that are not enabled do not happen. */
  function Run(s: State, evs: seq<Event>): State
    decreases |evs|
  {
    if evs == [] then s
    else if Enabled(s, evs[0]) then Run(Step(s, evs[0]), evs[1..])
    else Run(s, evs[1..])
  }

  // ---------------------------------------------------------------- invariants

  /** The live entry is the newest one, of this generation, and knows every predicate since its issue. */
  ghost predicate SlotInv(s: State) {
    && |s.issuedAt| == |s.entries|
    && (s.entry.Some? ==>
      && s.entry.value == |s.entries| - 1
      && var e, i := s.entries[s.entry.value], s.issuedAt[s.entry.value];
      && e.generation == s.generation
      && !e.aborted
      && i <= |s.registered|
      && e.invalidators == s.registered[i..])
  }

  /** Queued restarts name entries they are owed to, and have a microtask coming. */
  ghost predicate QueueInv(s: State) {
    && (forall e <- s.owed :: e < |s.entries|)
    && (s.queuedRestart.Some? ==> s.restartQueued && s.queuedRestart.value in s.owed)
  }

  /** A restart owed to the live entry is the one in the slot. */
  ghost predicate OwedInv(s: State) {
    s.entry.Some? ==>
      && (s.entry.value in s.owed ==> s.queuedRestart == s.entry)
      && (s.entry.value < |s.entries| && s.entries[s.entry.value].refreshAfterSettle ==> s.entry.value in s.owed)
  }

  ghost predicate WaiterOk(entries: seq<Entry>, w: Waiter) {
    && w.awaited < |entries|
    && entries[w.awaited].cursor == w.cursor
    && entries[w.awaited].generation == w.expectedGeneration
    && w.retryAfterFailure == w.failed.None?
    && (w.failed.Some? ==> w.failed.value < w.awaited && HasFailed(entries[w.failed.value]))
  }

  ghost predicate HasFailed(e: Entry) {
    e.outcome.Some? && e.outcome.value.Failed?
  }

  ghost predicate WaitersInv(s: State) {
    forall id <- s.waiters :: WaiterOk(s.entries, s.waiters[id])
  }

  /**
   * What a consumer may count on: the page was requested for its cursor in the generation it
   * is handed over in, was not marked for refresh, and none of its statuses is matched by a
   * predicate registered since the request was issued.
   */
  ghost predicate Fresh(s: State, d: Delivery) {
    && d.entry < |s.entries| && d.entry < |s.issuedAt| && d.at <= |s.registered|
    && var e, i := s.entries[d.entry], s.issuedAt[d.entry];
    && e.cursor == d.cursor && e.generation == d.generation
    && !e.refreshAfterSettle
    && e.outcome.Some? && e.outcome.value.Page?
    && i <= d.at
    && !SomeMatch(s.registered[i..d.at], e.outcome.value.statuses)
  }

  /** Handed-over entries are fresh, distinct, and no longer in the slot. */
  ghost predicate HandedInv(s: State) {
    && (forall d <- s.handed :: Fresh(s, d))
    && (forall i, j :: 0 <= i < j < |s.handed| ==> s.handed[i].entry < s.handed[j].entry)
    && (s.entry.Some? ==> forall d <- s.handed :: d.entry < s.entry.value)
  }

  /** A consumer that threw had acted on two failed requests, and they were different ones. */
  ghost predicate ThrownInv(s: State) {
    forall t <- s.thrown ::
      && t.0.Some? && t.0.value < t.1 < |s.entries|
      && HasFailed(s.entries[t.0.value]) && HasFailed(s.entries[t.1])
  }

  /** Only the live entry can be a request still wanted: every other one was aborted or has settled. */
  ghost predicate StrayInv(s: State) {
    forall i :: 0 <= i < |s.entries| && s.entry != Some(i) ==> s.entries[i].aborted || s.entries[i].outcome.Some?
  }

  ghost predicate SlotsInv(s: State) {
    SlotInv(s) && QueueInv(s) && OwedInv(s) && StrayInv(s)
  }

  ghost predicate Inv(s: State) {
    SlotsInv(s) && WaitersInv(s) && HandedInv(s) && ThrownInv(s)
  }

  // ---------------------------------------------------------------- proofs

  /** What may happen to one entry: everything fixed at its issue stays, and it settles once. */
  ghost predicate Ages(e: Entry, e': Entry) {
    && e'.cursor == e.cursor && e'.generation == e.generation
    && (e.outcome.Some? ==> e'.outcome == e.outcome)
  }

  /** Entries age, predicates are only added, and an entry that left the slot is never touched or put back. */
  ghost predicate Evolves(s: State, s': State) {
    && |s.entries| <= |s'.entries| && s.registered <= s'.registered && s.issuedAt <= s'.issuedAt
    && (forall i :: 0 <= i < |s.entries| ==> Ages(s.entries[i], s'.entries[i]))
    && (forall i :: 0 <= i < |s.entries| && s.entry != Some(i) ==>
          s'.entry != Some(i) && s'.entries[i].refreshAfterSettle == s.entries[i].refreshAfterSettle)
  }

  ghost predicate SameBooks(s: State, s': State) {
    s'.waiters == s.waiters && s'.handed == s.handed && s'.thrown == s.thrown
  }

  ghost predicate Requested(e: Entry, cursor: string, generation: nat) {
    e.cursor == cursor && e.generation == generation
  }

  lemma DiscardKeeps(s: State, abort: bool)
    requires SlotInv(s) && QueueInv(s) && StrayInv(s)
    requires s.entry.Some? ==> abort || s.entries[s.entry.value].outcome.Some?
    ensures SlotsInv(Discard(s, abort)) && Evolves(s, Discard(s, abort)) && SameBooks(s, Discard(s, abort))
  {
  }

  lemma StartKeeps(s: State, cursor: string, request: nat, g: nat)
    requires SlotsInv(s)
    ensures var s' := Start(s, cursor, request, g);
      && SlotsInv(s') && Evolves(s, s') && SameBooks(s, s')
      && (g == s.generation ==> Live(s') && Requested(s'.entries[s'.entry.value], cursor, g))
  {
    DiscardKeeps(s, true);
    if g == s.generation && !(Live(s) && s.entries[s.entry.value].cursor == cursor) {
      assert Start(s, cursor, request, g) == Start(Discard(s, true), cursor, request, g);
    }
  }

  lemma RestartKeeps(s: State, e: nat)
    requires SlotsInv(s)
    ensures SlotsInv(Restart(s, e)) && Evolves(s, Restart(s, e)) && SameBooks(s, Restart(s, e))
  {
    if s.entry == Some(e) {
      DiscardKeeps(s, true);
      StartKeeps(Discard(s, true), s.entries[e].cursor, s.entries[e].request, s.generation);
    }
  }

  lemma MicrotaskKeeps(s: State)
    requires SlotsInv(s)
    ensures SlotsInv(Microtask(s)) && Evolves(s, Microtask(s)) && SameBooks(s, Microtask(s))
  {
    var cleared := s.(restartQueued := false, queuedRestart := None);
    if s.queuedRestart.Some? && s.entry == s.queuedRestart {
      var e := s.entries[s.entry.value];
      DiscardKeeps(cleared, true);
      StartKeeps(Discard(cleared, true), e.cursor, e.request, s.generation);
    }
  }

  lemma RefreshKeeps(s: State, p: Predicate, force: bool)
    requires SlotsInv(s)
    ensures var s' := RefreshAffected(s, p, force); SlotsInv(s') && Evolves(s, s') && SameBooks(s, s')
  {
    if Live(s) {
      var issuedAt := s.issuedAt[s.entry.value];
      assert (s.registered + [p])[issuedAt..] == s.registered[issuedAt..] + [p];
    }
  }

  lemma SettleKeeps(s: State, e: nat, outcome: Outcome)
    requires SlotsInv(s) && Enabled(s, DoSettle(e, outcome))
    ensures SlotsInv(Settle(s, e, outcome)) && Evolves(s, Settle(s, e, outcome))
  {
  }

  lemma WatcherKeeps(s: State, e: nat)
    requires SlotsInv(s) && e < |s.entries|
    ensures SlotsInv(Watcher(s, e)) && Evolves(s, Watcher(s, e)) && SameBooks(s, Watcher(s, e))
  {
  }

  /** Steps that keep the books keep what the books say. */
  lemma BooksKept(s: State, s': State)
    requires Inv(s) && Evolves(s, s') && SameBooks(s, s')
    ensures WaitersInv(s') && HandedInv(s') && ThrownInv(s')
  {
    forall d <- s.handed ensures Fresh(s', d) {
      FreshKept(s, s', d);
    }
  }

  lemma FreshKept(s: State, s': State, d: Delivery)
    requires Fresh(s, d) && Evolves(s, s') && s.entry != Some(d.entry)
    ensures Fresh(s', d)
  {
    var i := s.issuedAt[d.entry];
    assert s'.registered[i..d.at] == s.registered[i..d.at];
  }

  lemma ConsumeEntryKeeps(s: State, id: nat, w: Waiter)
    requires Inv(s)
    requires w.retryAfterFailure == w.failed.None?
    requires w.failed.Some? ==>
      w.failed.value < |s.entries| && HasFailed(s.entries[w.failed.value]) && s.entry != w.failed
    ensures Inv(ConsumeEntry(s, id, w))
  {
    StartKeeps(s, w.cursor, w.request, w.expectedGeneration);
    var started := Start(s, w.cursor, w.request, w.expectedGeneration);
    BooksKept(s, started);
    if w.expectedGeneration == s.generation {
      assert WaiterOk(started.entries, w.(awaited := started.entry.value));
    }
  }

  lemma FailureKeeps(s: State, id: nat, w: Waiter)
    requires Inv(s) && WaiterOk(s.entries, w) && s.entry == Some(w.awaited) && HasFailed(s.entries[w.awaited])
    ensures Inv(AfterFailure(Discard(s, false), id, w))
  {
    var left := Discard(s, false);
    DiscardKeeps(s, false);
    BooksKept(s, left);
    if w.retryAfterFailure {
      ConsumeEntryKeeps(left, id, w.(retryAfterFailure := false, failed := Some(w.awaited)));
    }
  }

  lemma ResumeKeeps(s: State, id: nat)
    requires Inv(s) && Enabled(s, DoResume(id))
    ensures Inv(Resume(s, id))
  {
    assert WaiterOk(s.entries, s.waiters[id]);
    BooksKept(s, s);
    ResumeWithKeeps(s.(waiters := s.waiters - {id}), id, s.waiters[id]);
  }

  lemma ResumeWithKeeps(s: State, id: nat, w: Waiter)
    requires Inv(s) && WaiterOk(s.entries, w) && s.entries[w.awaited].outcome.Some?
    ensures Inv(ResumeWith(s, id, w))
  {
    var current := s.entries[w.awaited];
    if w.expectedGeneration != s.generation {
    } else if s.entry != Some(w.awaited) {
      ConsumeEntryKeeps(s, id, w);
    } else if HasFailed(current) {
      FailureKeeps(s, id, w);
    } else if current.refreshAfterSettle || ResponseNeedsRefresh(current) {
      RestartKeeps(s, w.awaited);
      BooksKept(s, Restart(s, w.awaited));
      ConsumeEntryKeeps(Restart(s, w.awaited), id, w);
    } else {
    }
  }

  lemma StepKeepsInv(s: State, ev: Event)
    requires Inv(s) && Enabled(s, ev)
    ensures Inv(Step(s, ev))
  {
    hide Start, ConsumeEntry, Resume, RefreshAffected, Microtask, HandedInv, ThrownInv;
    match ev {
      case DoConsume(id, cursor, request, g) =>
        ConsumeEntryKeeps(s, id, Waiter(cursor, request, g, true, 0, None));
        return;
      case DoResume(id) =>
        ResumeKeeps(s, id);
        return;
      case DoPrefetch(cursor, request, g) =>
        if cursor.Some? { StartKeeps(s, cursor.value, request, g); }
      case DoRefresh(p, force) => RefreshKeeps(s, p, force);
      case DoReset => DiscardKeeps(s.(queuedRestart := None), true);
      case DoSettle(e, outcome) => SettleKeeps(s, e, outcome);
      case DoWatcher(e) => WatcherKeeps(s, e);
      case DoMicrotask => MicrotaskKeeps(s);
    }
    BooksKept(s, Step(s, ev));
  }

  lemma {:induction false} RunKeepsInv(s: State, evs: seq<Event>)
    requires Inv(s)
    ensures Inv(Run(s, evs))
    decreases |evs|
  {
    if evs == [] {
    } else if Enabled(s, evs[0]) {
      StepKeepsInv(s, evs[0]);
      RunKeepsInv(Step(s, evs[0]), evs[1..]);
    } else {
      RunKeepsInv(s, evs[1..]);
    }
  }

  // ---------------------------------------------------------------- what the protocol promises

  /**
   * Whatever the schedule, every page handed to a consumer is fresh, and no request is handed
   * to two consumers.
   */
  lemma HandedPagesAreFresh(evs: seq<Event>)
    ensures var s := Run(INITIAL, evs);
      && (forall d <- s.handed :: Fresh(s, d))
      && (forall i, j :: 0 <= i < j < |s.handed| ==> s.handed[i].entry != s.handed[j].entry)
  {
    RunKeepsInv(INITIAL, evs);
  }

  /** Whatever the schedule, a consumer that threw had acted on two different failed requests. */
  lemma ThrowingTakesTwoFailures(evs: seq<Event>)
    ensures var s := Run(INITIAL, evs); ThrownInv(s)
  {
    RunKeepsInv(INITIAL, evs);
  }

  /**
   * Whatever the schedule, a restart owed to the live entry is not lost when the one slot is
   * overwritten: its microtask is queued, and running it aborts the entry and issues its
   * request again for the same cursor.
   */
  lemma OwedRestartHappens(evs: seq<Event>)
    ensures var s := Run(INITIAL, evs);
      s.entry.Some? && s.entry.value in s.owed ==>
        && Enabled(s, DoMicrotask)
        && var s', e := Microtask(s), s.entry.value;
        && e < |s.entries| && |s'.entries| == |s.entries| + 1
        && s'.entry == Some(|s.entries|)
        && s'.entries[e].aborted
        && var again := s'.entries[|s.entries|];
        && again.cursor == s.entries[e].cursor && again.request == s.entries[e].request
        && again.generation == s.generation && again.outcome.None?
        && again.invalidators == [] && !again.refreshAfterSettle
  {
    RunKeepsInv(INITIAL, evs);
  }

  /** Whatever the schedule, at most one request is in flight and not aborted. */
  lemma OneRequestInFlight(evs: seq<Event>, i: nat, j: nat)
    requires var s := Run(INITIAL, evs);
      && i < j < |s.entries|
      && !s.entries[i].aborted && s.entries[i].outcome.None?
    ensures var e := Run(INITIAL, evs).entries[j]; e.aborted || e.outcome.Some?
  {
    RunKeepsInv(INITIAL, evs);
  }

  // ---------------------------------------------------------------- what each event brings about

  /** Nothing but the slot, the entries and their books of issue differs. */
  ghost predicate OnlySlotDiffers(s: State, s': State) {
    s' == s.(entry := s'.entry, entries := s'.entries, issuedAt := s'.issuedAt)
  }

  /** A new request, unsettled and unmarked, has taken the slot; what was in it, if anything, is as given. */
  ghost predicate Issued(s: State, s': State, cursor: string, request: nat, abort: bool) {
    && |s'.entries| == |s.entries| + 1 && s'.entry == Some(|s.entries|)
    && s'.entries[|s.entries|] == Entry(cursor, s.generation, request, false, [], false, None)
    && (forall i :: 0 <= i < |s.entries| ==>
          s'.entries[i] == if abort && s.entry == Some(i) then s.entries[i].(aborted := true) else s.entries[i])
  }

  /** A request is issued exactly when the slot does not hold one for the cursor; the slot's is used otherwise. */
  lemma OneRequestPerCursor(s: State, cursor: string, request: nat, id: nat)
    requires Inv(s) && id !in s.waiters
    ensures
      var prefetched := Step(s, DoPrefetch(Some(cursor), request, s.generation));
      var consumed := Step(s, DoConsume(id, cursor, request, s.generation));
      var held := s.entry.Some? && s.entries[s.entry.value].cursor == cursor;
      && OnlySlotDiffers(s, prefetched)
      && (cursor == "" || held ==> prefetched == s)
      && (cursor != "" && !held ==> Issued(s, prefetched, cursor, request, true))
      && OnlySlotDiffers(s, consumed.(waiters := s.waiters))
      && consumed.entry.Some?
      && consumed.waiters == s.waiters[id := Waiter(cursor, request, s.generation, true, consumed.entry.value, None)]
      && (held ==> consumed.entry == s.entry && consumed.entries == s.entries)
      && (!held ==> Issued(s, consumed, cursor, request, true))
  {
  }

  /** Calls of another generation, and prefetches of no cursor, do nothing. */
  lemma StaleCallsDoNothing(s: State, cursor: Option<string>, page: string, request: nat, g: nat, id: nat)
    requires id !in s.waiters
    ensures g != s.generation || cursor.None? ==> Step(s, DoPrefetch(cursor, request, g)) == s
    ensures g != s.generation ==> Step(s, DoConsume(id, page, request, g)) == s
  {
    assert s.waiters - {id} == s.waiters;
  }

  /** The awaited page can be handed over: asked for in this generation, still in the slot, unmarked and unmatched. */
  ghost predicate Good(s: State, w: Waiter)
    requires w.awaited < |s.entries|
  {
    var e := s.entries[w.awaited];
    && w.expectedGeneration == s.generation && s.entry == Some(w.awaited) && !e.refreshAfterSettle
    && e.outcome.Some? && e.outcome.value.Page?
    && forall p, status :: p in e.invalidators && status in e.outcome.value.statuses ==> !p(status)
  }

  lemma MatchedSome(predicates: seq<Predicate>, statuses: seq<Status>)
    ensures SomeMatch(predicates, statuses) <==> exists p, status :: p in predicates && status in statuses && p(status)
  {
    if SomeMatch(predicates, statuses) {
      var i, j :| 0 <= i < |predicates| && 0 <= j < |statuses| && predicates[i](statuses[j]);
      assert predicates[i] in predicates && statuses[j] in statuses;
    }
  }

  /** A good page is handed over, that page only, and the slot and the call are done; no other page ever is. */
  lemma GoodPageIsHandedOver(s: State, id: nat)
    requires Enabled(s, DoResume(id))
    ensures
      var s', w := Step(s, DoResume(id)), s.waiters[id];
      && (Good(s, w) ==>
            s' == s.(waiters := s.waiters - {id}, entry := None,
                     handed := s.handed + [Delivery(w.awaited, w.cursor, s.generation, |s.registered|)]))
      && (!Good(s, w) ==> s'.handed == s.handed)
  {
    hide SomeMatch;
    var w := s.waiters[id];
    var e := s.entries[w.awaited];
    if e.outcome.value.Page? { MatchedSome(e.invalidators, e.outcome.value.statuses); }
  }

  /** A failed request is asked again once, by a new request of the call's own; the second failure is thrown. */
  lemma FailureIsRetriedOnce(s: State, id: nat)
    requires Inv(s) && Enabled(s, DoResume(id))
    requires s.waiters[id].expectedGeneration == s.generation && s.entry == Some(s.waiters[id].awaited)
    requires HasFailed(s.entries[s.waiters[id].awaited])
    ensures
      var s', w := Step(s, DoResume(id)), s.waiters[id];
      && (w.retryAfterFailure ==>
            && Issued(s, s', w.cursor, w.request, false)
            && s'.waiters == s.waiters[id := Waiter(w.cursor, w.request, s.generation, false, |s.entries|, Some(w.awaited))]
            && s'.thrown == s.thrown && s'.handed == s.handed)
      && (!w.retryAfterFailure ==>
            s' == s.(waiters := s.waiters - {id}, entry := None, thrown := s.thrown + [(w.failed, w.awaited)]))
  {
    var w := s.waiters[id];
    assert s.waiters - {id} + map[id := w] == s.waiters;
    assert WaiterOk(s.entries, w);
    if w.retryAfterFailure {
      var w' := w.(retryAfterFailure := false, failed := Some(w.awaited), awaited := |s.entries|);
      assert (s.waiters - {id})[id := w'] == s.waiters[id := w'];
    }
  }

  /** A page that is marked or matched is aborted and asked for again; the call waits for the new answer as before. */
  lemma AffectedPageIsAskedAgain(s: State, id: nat)
    requires Inv(s) && Enabled(s, DoResume(id)) && !Good(s, s.waiters[id])
    requires s.waiters[id].expectedGeneration == s.generation && s.entry == Some(s.waiters[id].awaited)
    requires !HasFailed(s.entries[s.waiters[id].awaited])
    ensures
      var s', w := Step(s, DoResume(id)), s.waiters[id];
      && Issued(s, s', w.cursor, s.entries[w.awaited].request, true)
      && s'.waiters == s.waiters[id := w.(awaited := |s.entries|)]
      && s'.thrown == s.thrown && s'.handed == s.handed
  {
    hide HandedInv, ThrownInv, OwedInv, QueueInv, StrayInv;
    var w := s.waiters[id];
    var e := s.entries[w.awaited];
    MatchedSome(e.invalidators, e.outcome.value.statuses);
    assert WaiterOk(s.entries, w);
    assert (s.waiters - {id})[id := w.(awaited := |s.entries|)] == s.waiters[id := w.(awaited := |s.entries|)];
  }

  /** A call whose request lost the slot waits for the slot's request of its cursor, a new one unless it holds one. */
  lemma SupersededCallWaitsOn(s: State, id: nat)
    requires Inv(s) && Enabled(s, DoResume(id))
    requires s.waiters[id].expectedGeneration == s.generation && s.entry != Some(s.waiters[id].awaited)
    ensures
      var s', w := Step(s, DoResume(id)), s.waiters[id];
      && s'.entry.Some? && s'.waiters == s.waiters[id := w.(awaited := s'.entry.value)]
      && s'.thrown == s.thrown && s'.handed == s.handed
      && if s.entry.Some? && s.entries[s.entry.value].cursor == w.cursor then s'.entry == s.entry && s'.entries == s.entries
         else Issued(s, s', w.cursor, w.request, true)
  {
    hide HandedInv, ThrownInv, OwedInv, QueueInv, StrayInv;
    var w := s.waiters[id];
    var s' := Step(s, DoResume(id));
    assert (s.waiters - {id})[id := w.(awaited := s'.entry.value)] == s.waiters[id := w.(awaited := s'.entry.value)];
  }

  /** A reset empties the slot and aborts what was in it; a call from before it then ends without a page. */
  lemma ResetEndsCalls(s: State, id: nat)
    requires Inv(s)
    ensures
      var s' := Step(s, DoReset);
      && s'.generation == s.generation + 1 && s'.entry.None? && s'.queuedRestart.None? && s'.waiters == s.waiters
      && (s.entry.Some? ==> s'.entries == s.entries[s.entry.value := s.entries[s.entry.value].(aborted := true)])
      && (s.entry.None? ==> s'.entries == s.entries)
    ensures Enabled(s, DoResume(id)) && s.waiters[id].expectedGeneration != s.generation ==>
      Step(s, DoResume(id)) == s.(waiters := s.waiters - {id})
  {
  }

  /** A forced invalidation marks the live entry and queues its restart; an unforced one leaves it watched. */
  lemma InvalidationReachesTheEntry(s: State, p: Predicate, force: bool)
    requires Inv(s) && s.entry.Some?
    ensures
      var e, s' := s.entry.value, Step(s, DoRefresh(p, force));
      && s'.entry == s.entry && s'.entries[e].invalidators == s.entries[e].invalidators + [p]
      && (force ==> s'.entries[e].refreshAfterSettle && s'.queuedRestart == Some(e) && Enabled(s', DoMicrotask))
      && (!force ==> s'.entries[e].refreshAfterSettle == s.entries[e].refreshAfterSettle
                     && s'.watchers == s.watchers + multiset{e} && s'.queuedRestart == s.queuedRestart)
  {
  }

  /** A watcher queues the restart of its entry exactly when that is in the slot and holds a matched status. */
  lemma WatcherQueuesExactlyWhen(s: State, e: nat)
    requires Inv(s) && Enabled(s, DoWatcher(e))
    ensures
      var s', outcome := Step(s, DoWatcher(e)), s.entries[e].outcome.value;
      var ran := s.(watchers := s.watchers - multiset{e});
      var matched :=
        && s.entry == Some(e) && outcome.Page?
        && exists p, status :: p in s.entries[e].invalidators && status in outcome.statuses && p(status);
      && (matched ==> s' == ran.(queuedRestart := Some(e), restartQueued := true, owed := s.owed + {e}))
      && (!matched ==> s' == ran)
  {
    if s.entries[e].outcome.value.Page? { MatchedSome(s.entries[e].invalidators, s.entries[e].outcome.value.statuses); }
  }

  /** The microtask issues the queued entry's request again if it is in the slot, and otherwise nothing. */
  lemma MicrotaskRestartsExactlyWhen(s: State)
    requires Inv(s) && s.restartQueued
    ensures
      var s' := Step(s, DoMicrotask);
      && !s'.restartQueued && s'.queuedRestart.None?
      && OnlySlotDiffers(s, s'.(restartQueued := true, queuedRestart := s.queuedRestart))
      && if s.entry.Some? && s.queuedRestart == s.entry then
           Issued(s, s', s.entries[s.entry.value].cursor, s.entries[s.entry.value].request, true)
         else s'.entry == s.entry && s'.entries == s.entries
  {
  }

  /** Prefetching a page, its answer, scrolling to it: the call gets it. */
  lemma ScrollingGetsThePage(cursor: string, request: nat, again: nat, id: nat, statuses: seq<Status>)
    requires cursor != ""
    ensures
      var s := Run(INITIAL, [DoPrefetch(Some(cursor), request, 0), DoSettle(0, Page(statuses)),
                             DoConsume(id, cursor, again, 0), DoResume(id)]);
      && s.handed == [Delivery(0, cursor, 0, 0)] && |s.entries| == 1 && s.entries[0].outcome == Some(Page(statuses))
      && s.waiters == map[] && s.entry.None? && s.thrown == []
  {
    var one := Step(INITIAL, DoPrefetch(Some(cursor), request, 0));
    var two := Step(one, DoSettle(0, Page(statuses)));
    var three := Step(two, DoConsume(id, cursor, again, 0));
    assert three.waiters == map[id := Waiter(cursor, again, 0, true, 0, None)];
    GoodPageIsHandedOver(three, id);
    var resume := [DoResume(id)];
    var consume := [DoConsume(id, cursor, again, 0), DoResume(id)];
    var settle := [DoSettle(0, Page(statuses)), DoConsume(id, cursor, again, 0), DoResume(id)];
    assert resume[1..] == [] && consume[1..] == resume && settle[1..] == consume;
    assert ([DoPrefetch(Some(cursor), request, 0)] + settle)[1..] == settle;
    assert Run(three, resume) == Step(three, DoResume(id));
    assert Run(two, consume) == Run(three, resume);
    assert Run(one, settle) == Run(two, consume);
  }
}

/** The composable itself: closures over mutable variables, each function tied to its model. */
module StatusPagePrefetch {
  import opened Wrappers
  import opened Statuses
  import P = PrefetchProtocol

  class StatusPagePrefetch {
    var generation: nat
    var entry: Option<nat>
    var queuedRestart: Option<nat>
    var restartQueued: bool
    var entries: seq<P.Entry>
    var watchers: multiset<nat>
    var waiters: map<nat, P.Waiter>
    ghost var registered: seq<Predicate>
    ghost var issuedAt: seq<nat>
    ghost var owed: set<nat>
    ghost var handed: seq<P.Delivery>
    ghost var thrown: seq<(Option<nat>, nat)>

    ghost function Model(): P.State
      reads this
    {
      P.State(generation, entries, entry, queuedRestart, restartQueued, watchers, waiters,
              registered, issuedAt, owed, handed, thrown)
    }

    ghost predicate Valid()
      reads this
    {
      entry.Some? ==> entry.value < |entries|
    }

    constructor ()
      ensures Valid() && Model() == P.INITIAL
    {
      generation, entry, queuedRestart, restartQueued := 0, None, None, false;
      entries, watchers, waiters := [], multiset{}, map[];
      registered, issuedAt, owed, handed, thrown := [], [], {}, [], [];
    }

    method Discard(abort: bool)
      requires Valid()
      modifies this
      ensures Valid() && Model() == P.Discard(old(Model()), abort)
      ensures handed == old(handed)
    {
      var current := entry;
      entry := None;
      if abort && current.Some? {
        entries := entries[current.value := entries[current.value].(aborted := true)];
      }
    }

    method Start(cursor: string, request: nat, expectedGeneration: nat) returns (started: Option<nat>)
      requires Valid()
      modifies this
      ensures Valid() && Model() == P.Start(old(Model()), cursor, request, expectedGeneration)
      ensures handed == old(handed)
      ensures started == if expectedGeneration == generation then entry else None
      ensures started.Some? <==> expectedGeneration == old(generation)
    {
      if expectedGeneration != generation { return None; }
      if entry.Some? && entries[entry.value].cursor == cursor && entries[entry.value].generation == expectedGeneration {
        return entry;
      }
      Discard(true);
      entries := entries + [P.Entry(cursor, expectedGeneration, request, false, [], false, None)];
      issuedAt := issuedAt + [|registered|];
      entry := Some(|entries| - 1);
      return entry;
    }

    method Restart(expected: nat)
      requires Valid()
      modifies this
      ensures Valid() && Model() == P.Restart(old(Model()), expected)
      ensures handed == old(handed)
    {
      if entry != Some(expected) || entries[expected].generation != generation { return; }
      var e := entries[expected];
      Discard(true);
      var _ := Start(e.cursor, e.request, e.generation);
    }

    method QueueRestart(expected: nat)
      requires Valid()
      modifies this
      ensures Valid() && Model() == P.QueueRestart(old(Model()), expected)
    {
      owed := owed + {expected};
      queuedRestart := Some(expected);
      if restartQueued { return; }
      restartQueued := true;
    }

    method RunMicrotask()
      requires Valid()
      modifies this
      ensures Valid() && Model() == P.Microtask(old(Model()))
    {
      restartQueued := false;
      var current := queuedRestart;
      queuedRestart := None;
      if current.Some? { Restart(current.value); }
    }

    method RefreshAffected(p: Predicate, force: bool)
      requires Valid()
      modifies this
      ensures Valid() && Model() == P.RefreshAffected(old(Model()), p, force)
    {
      registered := registered + [p];
      if entry.None? { return; }
      var e := entry.value;
      entries := entries[e := entries[e].(invalidators := entries[e].invalidators + [p])];
      if force {
        entries := entries[e := entries[e].(refreshAfterSettle := true)];
        QueueRestart(e);
        return;
      }
      watchers := watchers + multiset{e};
    }

    method ResponseNeedsRefresh(current: P.Entry) returns (b: bool)
      ensures b == P.ResponseNeedsRefresh(current)
    {
      if current.outcome.None? || current.outcome.value.Failed? { return false; }
      var statuses := current.outcome.value.statuses;
      for i := 0 to |current.invalidators|
        invariant !SomeMatch(current.invalidators[..i], statuses)
      {
        var p := current.invalidators[i];
        for j := 0 to |statuses|
          invariant forall k :: 0 <= k < j ==> !p(statuses[k])
        {
          if p(statuses[j]) { return true; }
        }
      }
      assert current.invalidators[..|current.invalidators|] == current.invalidators;
      return false;
    }

    method RunWatcher(e: nat)
      requires Valid() && e < |entries|
      modifies this
      ensures Valid() && Model() == P.Watcher(old(Model()), e)
    {
      watchers := watchers - multiset{e};
      var needed := ResponseNeedsRefresh(entries[e]);
      if needed && entry == Some(e) { QueueRestart(e); }
    }

    method Reset() returns (now: nat)
      requires Valid()
      modifies this
      ensures Valid() && Model() == P.Reset(old(Model())) && now == generation
    {
      generation := generation + 1;
      queuedRestart := None;
      Discard(true);
      return generation;
    }

    method Prefetch(cursor: Option<string>, request: nat, expectedGeneration: nat)
      requires Valid()
      modifies this
      ensures Valid() && Model() == P.Prefetch(old(Model()), cursor, request, expectedGeneration)
    {
      if cursor.None? || cursor.value == "" || expectedGeneration != generation { return; }
      var _ := Start(cursor.value, request, expectedGeneration);
    }

    method Settle(e: nat, outcome: P.Outcome)
      requires Valid() && e < |entries|
      modifies this
      ensures Valid() && Model() == P.Settle(old(Model()), e, outcome)
    {
      entries := entries[e := entries[e].(outcome := Some(outcome))];
    }

    method ConsumeEntry(id: nat, w: P.Waiter)
      requires Valid()
      modifies this
      ensures Valid() && Model() == P.ConsumeEntry(old(Model()), id, w)
      ensures handed == old(handed)
    {
      if w.expectedGeneration != generation {
        waiters := waiters - {id};
        return;
      }
      var current := Start(w.cursor, w.request, w.expectedGeneration);
      waiters := waiters[id := w.(awaited := current.value)];
    }

    method Consume(id: nat, cursor: string, request: nat, expectedGeneration: nat)
      requires Valid()
      modifies this
      ensures Valid() && Model() == P.Consume(old(Model()), id, cursor, request, expectedGeneration)
    {
      ConsumeEntry(id, P.Waiter(cursor, request, expectedGeneration, true, 0, None));
    }

    /** `consumeEntry` from its await on; `page` is what the call resolves to, if it does now. */
    method Resume(id: nat) returns (page: Option<seq<Status>>)
      requires Valid() && P.Enabled(Model(), P.DoResume(id))
      modifies this
      ensures Valid() && Model() == P.Resume(old(Model()), id)
      ensures |handed| == |old(handed)| + if page.Some? then 1 else 0
      ensures page.Some? <==> P.Good(old(Model()), old(waiters)[id])
      ensures page.Some? ==> old(entries)[old(waiters)[id].awaited].outcome == Some(P.Page(page.value))
    {
      P.GoodPageIsHandedOver(Model(), id);
      page := None;
      var w := waiters[id];
      var current := entries[w.awaited];
      waiters := waiters - {id};
      if w.expectedGeneration != generation { return; }
      if entry != Some(w.awaited) {
        ConsumeEntry(id, w);
        return;
      }
      if current.outcome.value.Failed? {
        Discard(false);
        if w.retryAfterFailure {
          ConsumeEntry(id, w.(retryAfterFailure := false, failed := Some(w.awaited)));
        } else {
          thrown := thrown + [(w.failed, w.awaited)];
        }
        return;
      }
      var needed := ResponseNeedsRefresh(current);
      if current.refreshAfterSettle || needed {
        Restart(w.awaited);
        ConsumeEntry(id, w);
        return;
      }
      Discard(false);
      handed := handed + [P.Delivery(w.awaited, w.cursor, generation, |registered|)];
      page := Some(current.outcome.value.statuses);
    }

    method Dispatch(ev: P.Event)
      requires Valid() && P.Enabled(Model(), ev)
      modifies this
      ensures Valid() && Model() == P.Step(old(Model()), ev)
    {
      match ev
      case DoPrefetch(cursor, request, g) => Prefetch(cursor, request, g);
      case DoConsume(id, cursor, request, g) => Consume(id, cursor, request, g);
      case DoRefresh(p, force) => RefreshAffected(p, force);
      case DoReset => var _ := Reset();
      case DoSettle(e, outcome) => Settle(e, outcome);
      case DoWatcher(e) => RunWatcher(e);
      case DoMicrotask => RunMicrotask();
      case DoResume(id) => var _ := Resume(id);
    }

    /** Any schedule of the event loop keeps every invariant of the protocol. */
    method RunSchedule(evs: seq<P.Event>)
      requires Valid() && P.Inv(Model())
      modifies this
      ensures Valid() && Model() == P.Run(old(Model()), evs) && P.Inv(Model())
    {
      for i := 0 to |evs|
        invariant Valid() && P.Run(Model(), evs[i..]) == P.Run(old(Model()), evs)
      {
        assert evs[i..][1..] == evs[i + 1..];
        var enabled := IsEnabled(evs[i]);
        if enabled { Dispatch(evs[i]); }
      }
      P.RunKeepsInv(old(Model()), evs);
    }

    method IsEnabled(ev: P.Event) returns (b: bool)
      requires Valid()
      ensures b == P.Enabled(Model(), ev)
    {
      match ev
      case DoConsume(id, _, _, _) => return id !in waiters;
      case DoSettle(e, _) => return e < |entries| && entries[e].outcome.None?;
      case DoWatcher(e) => return e in watchers && e < |entries| && entries[e].outcome.Some?;
      case DoMicrotask => return restartQueued;
      case DoResume(id) =>
        return id in waiters && waiters[id].awaited < |entries| && entries[waiters[id].awaited].outcome.Some?;
      case _ => return true;
    }
  }
}
