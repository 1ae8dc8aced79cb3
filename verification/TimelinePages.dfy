/**
 * The prefetched pages of the timelines store (stores/timelines.ts): one tracked request per
 * feed, bounded, expiring, restarted by invalidations, and handed over at most once.
 */
module TimelinePages {
  import opened Wrappers
  import opened Statuses

  /** A feed, which is also its key in the store's maps. */
  datatype Feed = Home | Recommended | Social | Public | Local | Tag(tag: string)

  datatype Response = Response(statuses: seq<Status>, next: Option<string>)

  datatype Outcome = Page(response: Response) | Failed

  datatype Timeline = Timeline(
    statusIds: seq<string>,
    newStatusIds: seq<string>,
    loading: bool,
    loadingMore: bool,
    hasMore: bool,
    maxId: Option<string>,
    nextPage: Option<string>,
    error: bool)

  const EMPTY := Timeline([], [], false, false, true, None, None, false)
  const TTL: nat := 240000
  const MAX_PREFETCHES: nat := 24

  /** What prefetching reads. A missing feed reads as the empty timeline `getTimeline` creates. */
  datatype View = View(timelines: map<Feed, Timeline>, gens: map<Feed, nat>, lifecycle: nat)

  datatype Entry = Entry(
    feed: Feed,
    token: Option<string>,
    cursor: string,
    gen: nat,
    life: nat,
    expiresAt: nat,
    invalidators: seq<Predicate>,
    refreshAfterSettle: bool,
    outcome: Option<Outcome>)

  /** A callback on an entry's promise; `always` is the one left for a forced recommended page. */
  datatype Callback = Callback(feed: Feed, entry: nat, always: bool)

  /**
   * `entries` holds every prefetch ever started, its index being its identity. The last two
   * fields are history, which no step reads: the predicates registered so far, and how many
   * of them there were when each entry was issued.
   */
  datatype Pages = Pages(
    entries: seq<Entry>,
    slots: map<Feed, nat>,
    queued: seq<(Feed, nat)>,
    restartQueued: bool,
    callbacks: multiset<Callback>,
    registered: seq<Predicate>,
    issuedAt: seq<nat>)

  // ---------------------------------------------------------------- reading the view

  function TL(v: View, f: Feed): Timeline {
    if f in v.timelines then v.timelines[f] else EMPTY
  }

  function Gen(v: View, f: Feed): nat {
    if f in v.gens then v.gens[f] else 0
  }

  predicate Truthy(o: Option<string>) {
    o.Some? && o.value != ""
  }

  function NextCursor(f: Feed, t: Timeline): Option<string> {
    var cursor := if f.Recommended? then t.nextPage else t.maxId;
    if t.hasMore && Truthy(cursor) then cursor else None
  }

  // ---------------------------------------------------------------- starting and dropping pages

  function Remove(p: Pages, f: Feed): Pages {
    p.(slots := p.slots - {f})
  }

  /** The map is kept in insertion order, which is the order of entry identities. */
  ghost function Oldest(slots: map<Feed, nat>): (f: Feed)
    requires slots != map[]
    ensures f in slots && forall g <- slots :: slots[f] <= slots[g]
  {
    OldestExists(slots);
    var f :| f in slots && forall g <- slots :: slots[f] <= slots[g];
    f
  }

  lemma OldestExists(slots: map<Feed, nat>)
    requires slots != map[]
    ensures exists f :: f in slots && forall g <- slots :: slots[f] <= slots[g]
  {
    var f := LeastOf(slots, slots.Keys);
  }

  lemma LeastOf(slots: map<Feed, nat>, feeds: set<Feed>) returns (f: Feed)
    requires feeds != {} && feeds <= slots.Keys
    ensures f in feeds && forall g <- feeds :: slots[f] <= slots[g]
    decreases |feeds|
  {
    f :| f in feeds;
    if feeds != {f} {
      var g := LeastOf(slots, feeds - {f});
      if slots[g] < slots[f] { f := g; }
    }
  }

  ghost function Evict(slots: map<Feed, nat>): (r: map<Feed, nat>)
    ensures |r| < MAX_PREFETCHES && Within(r, slots)
    decreases |slots|
  {
    if |slots| >= MAX_PREFETCHES then
      assert (slots - {Oldest(slots)}).Keys == slots.Keys - {Oldest(slots)};
      Evict(slots - {Oldest(slots)})
    else slots
  }

  /** Different feeds hold different entries. */
  ghost predicate DistinctSlots(slots: map<Feed, nat>) {
    forall f, g | f in slots && g in slots && slots[f] == slots[g] :: f == g
  }

  ghost predicate IsOldest(slots: map<Feed, nat>, f: Feed) {
    f in slots && forall g <- slots :: slots[f] <= slots[g]
  }

  lemma OldestStep(slots: map<Feed, nat>, f: Feed)
    requires DistinctSlots(slots) && IsOldest(slots, f)
    ensures f == Oldest(slots) && |slots - {f}| < |slots| && DistinctSlots(slots - {f})
    ensures |slots| >= MAX_PREFETCHES ==> Evict(slots) == Evict(slots - {f})
    ensures InsertionOrder(slots) == [f] + InsertionOrder(slots - {f})
  {
    assert slots[Oldest(slots)] == slots[f];
    assert (slots - {f}).Keys == slots.Keys - {f};
  }

  ghost predicate Within(r: map<Feed, nat>, slots: map<Feed, nat>) {
    forall f <- r :: f in slots && r[f] == slots[f]
  }

  function Unexpired(entries: seq<Entry>, slots: map<Feed, nat>, now: nat): map<Feed, nat> {
    map f | f in slots && slots[f] < |entries| && entries[slots[f]].expiresAt > now :: slots[f]
  }

  ghost function Cleanup(p: Pages, now: nat): Pages {
    p.(slots := Evict(Unexpired(p.entries, p.slots, now)))
  }

  predicate Matches(e: Entry, cursor: string, gen: nat, life: nat, token: Option<string>, now: nat) {
    e.cursor == cursor && e.gen == gen && e.life == life && e.token == token && e.expiresAt > now
  }

  predicate SlotMatches(p: Pages, f: Feed, cursor: string, gen: nat, life: nat, token: Option<string>, now: nat) {
    f in p.slots && p.slots[f] < |p.entries| && Matches(p.entries[p.slots[f]], cursor, gen, life, token, now)
  }

  ghost function Start(v: View, p: Pages, f: Feed, token: Option<string>, force: bool, now: nat): Pages {
    var cursor := NextCursor(f, TL(v, f));
    if cursor.None? then Remove(p, f)
    else if !force && SlotMatches(p, f, cursor.value, Gen(v, f), v.lifecycle, token, now) then p
    else Issue(v, Cleanup(Remove(p, f), now), f, token, cursor.value, now)
  }

  function Issue(v: View, p: Pages, f: Feed, token: Option<string>, cursor: string, now: nat): Pages {
    p.(entries := p.entries + [Entry(f, token, cursor, Gen(v, f), v.lifecycle, now + TTL, [], false, None)],
       slots := p.slots[f := |p.entries|],
       issuedAt := p.issuedAt + [|p.registered|])
  }

  predicate Holds(p: Pages, f: Feed, e: nat) {
    f in p.slots && p.slots[f] == e && e < |p.entries|
  }

  ghost function Restart(v: View, p: Pages, f: Feed, e: nat, now: nat): Pages {
    if Holds(p, f, e) then Start(v, p, f, p.entries[e].token, true, now) else p
  }

  /** `Map.set`: an existing key keeps its place. */
  function Enqueue(queued: seq<(Feed, nat)>, f: Feed, e: nat): seq<(Feed, nat)> {
    if queued == [] then [(f, e)]
    else if queued[0].0 == f then [(f, e)] + queued[1..]
    else [queued[0]] + Enqueue(queued[1..], f, e)
  }

  function QueueRestart(p: Pages, f: Feed, e: nat): Pages {
    p.(queued := Enqueue(p.queued, f, e), restartQueued := true)
  }

  ghost function RestartAll(v: View, p: Pages, restarts: seq<(Feed, nat)>, now: nat): Pages
    decreases |restarts|
  {
    if restarts == [] then p
    else RestartAll(v, Restart(v, p, restarts[0].0, restarts[0].1, now), restarts[1..], now)
  }

  ghost function Microtask(v: View, p: Pages, now: nat): Pages {
    RestartAll(v, p.(restartQueued := false, queued := []), p.queued, now)
  }

  // ---------------------------------------------------------------- invalidation

  predicate NeedsRefresh(e: Entry) {
    e.outcome.Some? && e.outcome.value.Page? && SomeMatch(e.invalidators, e.outcome.value.response.statuses)
  }

  function RunCallback(p: Pages, c: Callback): Pages {
    var ran := p.(callbacks := p.callbacks - multiset{c});
    if c.always || (Holds(p, c.feed, c.entry) && NeedsRefresh(p.entries[c.entry]))
    then QueueRestart(ran, c.feed, c.entry) else ran
  }

  /** A forced page restarts at once, a recommended one once it has settled; others are inspected then. */
  function RefreshOne(p: Pages, f: Feed, pred: Predicate, forced: bool): Pages {
    if f !in p.slots || p.slots[f] >= |p.entries| then p
    else
      var e := p.slots[f];
      var entry := p.entries[e].(invalidators := p.entries[e].invalidators + [pred],
                                 refreshAfterSettle := forced || p.entries[e].refreshAfterSettle);
      var marked := p.(entries := p.entries[e := entry]);
      if forced && !f.Recommended? then QueueRestart(marked, f, e)
      else marked.(callbacks := marked.callbacks + multiset{Callback(f, e, forced)})
  }

  function RefreshEach(p: Pages, feeds: seq<Feed>, pred: Predicate, affected: set<Feed>): Pages
    decreases |feeds|
  {
    if feeds == [] then p
    else RefreshEach(RefreshOne(p, feeds[0], pred, feeds[0] in affected), feeds[1..], pred, affected)
  }

  ghost function InsertionOrder(slots: map<Feed, nat>): seq<Feed>
    decreases |slots|
  {
    if slots == map[] then []
    else
      var f := Oldest(slots);
      assert (slots - {f}).Keys == slots.Keys - {f};
      [f] + InsertionOrder(slots - {f})
  }

  lemma {:induction false} InsertionOrderLists(slots: map<Feed, nat>)
    ensures var order := InsertionOrder(slots);
      && (forall f :: f in order <==> f in slots)
      && (forall i, j :: 0 <= i < j < |order| ==> order[i] != order[j])
    decreases |slots|
  {
    if slots != map[] {
      var f := Oldest(slots);
      assert (slots - {f}).Keys == slots.Keys - {f};
      InsertionOrderLists(slots - {f});
    }
  }

  ghost function RefreshAffected(p: Pages, pred: Predicate, affected: set<Feed>): Pages {
    RefreshEach(p, InsertionOrder(p.slots), pred, affected).(registered := p.registered + [pred])
  }

  function Settle(p: Pages, e: nat, outcome: Outcome): Pages
    requires e < |p.entries|
  {
    p.(entries := p.entries[e := p.entries[e].(outcome := Some(outcome))])
  }

  // ---------------------------------------------------------------- consuming

  /** What an async call captured before its await; `since` is the length of the log then. */
  datatype Capture = Capture(feed: Feed, gen: nat, life: nat, since: nat)

  predicate IsCurrent(v: View, c: Capture) {
    v.lifecycle == c.life && Gen(v, c.feed) == c.gen
  }

  /** A scroll request inside `consumePagePrefetch`. */
  datatype More = More(at: Capture, token: Option<string>, cursor: string, retry: bool, awaited: nat)

  /** Where a synchronous stretch of `consumePagePrefetch` ends; the call stack is finite. */
  datatype Sync = Await(entry: nat, retry: bool) | Undefined | Overflow

  predicate Ready(p: Pages, m: More, now: nat) {
    SlotMatches(p, m.at.feed, m.cursor, m.at.gen, m.at.life, m.token, now)
  }

  ghost function Ensured(v: View, p: Pages, m: More, now: nat): Pages {
    if m.at.feed in p.slots then p else Start(v, p, m.at.feed, m.token, false, now)
  }

  /** A page that does not match is dropped and requested again, for the feed's present cursor. */
  ghost function Replaced(v: View, p: Pages, m: More, now: nat): Pages {
    Start(v, Remove(p, m.at.feed), m.at.feed, m.token, false, now)
  }

  datatype Turn = Stop(pages: Pages, sync: Sync) | Again(pages: Pages)

  /** One call, which ends the stretch or calls itself once more. */
  ghost function ConsumeOnce(v: View, p: Pages, m: More, retry: Option<bool>, now: nat): Turn {
    var p1 := Ensured(v, p, m, now);
    if !IsCurrent(v, m.at) then Stop(p, Undefined)
    else if m.at.feed !in p1.slots then Stop(p1, Undefined)
    else if Ready(p1, m, now) then
      Stop(p1, Await(p1.slots[m.at.feed], m.at.feed in p.slots && (retry.None? || retry.value)))
    else Again(Replaced(v, p1, m, now))
  }

  ghost function Consume(v: View, p: Pages, m: More, retry: Option<bool>, now: nat, stack: nat): (Pages, Sync)
    decreases stack
  {
    if stack == 0 then (p, Overflow)
    else
      match ConsumeOnce(v, p, m, retry, now)
      case Stop(p', sync) => (p', sync)
      case Again(p') => Consume(v, p', m, Some(false), now, stack - 1)
  }

  // ---------------------------------------------------------------- invariants

  /** A held page belongs to its feed's current requests and knows every predicate since its issue. */
  ghost predicate SlotOk(v: View, p: Pages, f: Feed) {
    && f in p.slots && p.slots[f] < |p.entries| == |p.issuedAt|
    && var e, i := p.entries[p.slots[f]], p.issuedAt[p.slots[f]];
    && e.feed == f && e.gen == Gen(v, f) && e.life == v.lifecycle
    && i <= |p.registered|
    && e.invalidators == p.registered[i..]
  }

  ghost predicate PagesInv(v: View, p: Pages) {
    && |p.issuedAt| == |p.entries|
    && (forall k :: 0 <= k < |p.issuedAt| ==> p.issuedAt[k] <= |p.registered|)
    && |p.slots| <= MAX_PREFETCHES
    && forall f {:trigger SlotOk(v, p, f)} :: f in p.slots ==> SlotOk(v, p, f)
  }

  ghost predicate IsLive(p: Pages, i: nat) {
    i < |p.entries| && Holds(p, p.entries[i].feed, i)
  }

  /** An entry keeps what it was issued for, settles once, and is left alone once out of its slot. */
  ghost predicate EntryKept(p: Pages, p': Pages, i: nat) {
    && i < |p.entries| <= |p'.entries|
    && var e, e' := p.entries[i], p'.entries[i];
    && e'.feed == e.feed && e'.cursor == e.cursor && e'.gen == e.gen && e'.life == e.life
    && (e.outcome.Some? ==> e'.outcome == e.outcome)
    && (!IsLive(p, i) ==> !IsLive(p', i) && e'.refreshAfterSettle == e.refreshAfterSettle)
  }

  ghost predicate Evolves(p: Pages, p': Pages) {
    && |p.entries| <= |p'.entries| && p.registered <= p'.registered && p.issuedAt <= p'.issuedAt
    && forall i {:trigger EntryKept(p, p', i)} :: 0 <= i < |p.entries| ==> EntryKept(p, p', i)
  }

  ghost predicate Keeps(v: View, p: Pages, p': Pages) {
    PagesInv(v, p') && Evolves(p, p')
  }

  lemma KeepsTransitive(v: View, p: Pages, p': Pages, p'': Pages)
    requires Keeps(v, p, p') && Keeps(v, p', p'')
    ensures Keeps(v, p, p'')
  {
    forall i | 0 <= i < |p.entries| ensures EntryKept(p, p'', i) {
      assert EntryKept(p, p', i) && EntryKept(p', p'', i);
    }
  }

  lemma KeysSize<K, V>(m: map<K, V>)
    ensures |m.Keys| == |m|
  {
  }

  lemma {:induction false} SubsetSize<T>(a: set<T>, b: set<T>)
    requires a <= b
    ensures |a| <= |b|
    decreases |a|
  {
    if a != {} {
      var x :| x in a;
      SubsetSize(a - {x}, b - {x});
    }
  }

  lemma FewerSlots(v: View, p: Pages, slots: map<Feed, nat>)
    requires PagesInv(v, p) && Within(slots, p.slots)
    ensures Keeps(v, p, p.(slots := slots))
  {
    KeysSize(slots);
    KeysSize(p.slots);
    assert slots.Keys <= p.slots.Keys;
    SubsetSize(slots.Keys, p.slots.Keys);
    var p' := p.(slots := slots);
    forall f <- slots ensures SlotOk(v, p', f) {
      assert SlotOk(v, p, f);
    }
    forall i | 0 <= i < |p.entries| ensures EntryKept(p, p', i) {
    }
  }

  lemma RemoveKeeps(v: View, p: Pages, f: Feed)
    requires PagesInv(v, p)
    ensures Keeps(v, p, Remove(p, f))
  {
    FewerSlots(v, p, p.slots - {f});
  }

  lemma IssueLeavesOthers(v: View, p: Pages, f: Feed, token: Option<string>, cursor: string, now: nat)
    requires f !in p.slots
    ensures Evolves(p, Issue(v, p, f, token, cursor, now))
  {
    var p' := Issue(v, p, f, token, cursor, now);
    forall i | 0 <= i < |p.entries| ensures EntryKept(p, p', i) {
      assert p'.entries[i] == p.entries[i];
    }
  }

  lemma IssueKeeps(v: View, p: Pages, f: Feed, token: Option<string>, cursor: string, now: nat)
    requires PagesInv(v, p) && |p.slots| < MAX_PREFETCHES && f !in p.slots
    ensures Keeps(v, p, Issue(v, p, f, token, cursor, now))
  {
    IssueLeavesOthers(v, p, f, token, cursor, now);
    var p' := Issue(v, p, f, token, cursor, now);
    KeysSize(p'.slots);
    KeysSize(p.slots);
    assert p'.slots.Keys == p.slots.Keys + {f};
    forall g <- p'.slots ensures SlotOk(v, p', g) {
      if g != f { assert SlotOk(v, p, g); }
    }
  }

  lemma StartKeeps(v: View, p: Pages, f: Feed, token: Option<string>, force: bool, now: nat)
    requires PagesInv(v, p)
    ensures Keeps(v, p, Start(v, p, f, token, force, now))
  {
    var cursor := NextCursor(f, TL(v, f));
    FewerSlots(v, p, p.slots);
    RemoveKeeps(v, p, f);
    if cursor.Some? {
      var cleaned := Cleanup(Remove(p, f), now);
      FewerSlots(v, p, cleaned.slots);
      IssueKeeps(v, cleaned, f, token, cursor.value, now);
      KeepsTransitive(v, p, cleaned, Issue(v, cleaned, f, token, cursor.value, now));
    }
  }

  lemma {:induction false} RestartAllKeeps(v: View, p: Pages, restarts: seq<(Feed, nat)>, now: nat)
    requires PagesInv(v, p)
    ensures Keeps(v, p, RestartAll(v, p, restarts, now))
    decreases |restarts|
  {
    FewerSlots(v, p, p.slots);
    if restarts != [] {
      var (f, e) := restarts[0];
      if Holds(p, f, e) { StartKeeps(v, p, f, p.entries[e].token, true, now); }
      var p' := Restart(v, p, f, e, now);
      RestartAllKeeps(v, p', restarts[1..], now);
      KeepsTransitive(v, p, p', RestartAll(v, p', restarts[1..], now));
    }
  }

  lemma MicrotaskKeeps(v: View, p: Pages, now: nat)
    requires PagesInv(v, p)
    ensures Keeps(v, p, Microtask(v, p, now))
  {
    var cleared := p.(restartQueued := false, queued := []);
    assert Keeps(v, p, cleared) by {
      forall f <- cleared.slots ensures SlotOk(v, cleared, f) { assert SlotOk(v, p, f); }
      forall i | 0 <= i < |p.entries| ensures EntryKept(p, cleared, i) {}
    }
    RestartAllKeeps(v, cleared, p.queued, now);
    KeepsTransitive(v, p, cleared, Microtask(v, p, now));
  }

  ghost predicate AwaitsPage(p: Pages, m: More, e: nat) {
    e < |p.entries| && p.entries[e].feed == m.at.feed && p.entries[e].cursor == m.cursor
  }

  ghost predicate ConsumeOk(v: View, p: Pages, m: More, r: (Pages, Sync)) {
    Keeps(v, p, r.0) && (r.1.Await? ==> AwaitsPage(r.0, m, r.1.entry) && IsCurrent(v, m.at))
  }

  lemma EnsuredKeeps(v: View, p: Pages, m: More, now: nat)
    requires PagesInv(v, p)
    ensures Keeps(v, p, Ensured(v, p, m, now))
  {
    FewerSlots(v, p, p.slots);
    StartKeeps(v, p, m.at.feed, m.token, false, now);
  }

  lemma OnceKeeps(v: View, p: Pages, m: More, retry: Option<bool>, now: nat)
    requires PagesInv(v, p)
    ensures var turn := ConsumeOnce(v, p, m, retry, now);
      Keeps(v, p, turn.pages) && (turn.Stop? ==> ConsumeOk(v, p, m, (turn.pages, turn.sync)))
  {
    FewerSlots(v, p, p.slots);
    var p1 := Ensured(v, p, m, now);
    EnsuredKeeps(v, p, m, now);
    if m.at.feed in p1.slots {
      assert SlotOk(v, p1, m.at.feed);
      ReplacedKeeps(v, p1, m, now);
      KeepsTransitive(v, p, p1, Replaced(v, p1, m, now));
    }
  }

  lemma {:induction false} ConsumeKeeps(v: View, p: Pages, m: More, retry: Option<bool>, now: nat, stack: nat)
    requires PagesInv(v, p)
    ensures ConsumeOk(v, p, m, Consume(v, p, m, retry, now, stack))
    decreases stack
  {
    hide ConsumeOnce;
    if stack == 0 {
      FewerSlots(v, p, p.slots);
    } else {
      OnceKeeps(v, p, m, retry, now);
      var turn := ConsumeOnce(v, p, m, retry, now);
      if turn.Again? {
        ConsumeKeeps(v, turn.pages, m, Some(false), now, stack - 1);
        KeepsTransitive(v, p, turn.pages, Consume(v, turn.pages, m, Some(false), now, stack - 1).0);
      }
    }
  }

  lemma ReplacedKeeps(v: View, p: Pages, m: More, now: nat)
    requires PagesInv(v, p)
    ensures Keeps(v, p, Replaced(v, p, m, now))
  {
    var f := m.at.feed;
    RemoveKeeps(v, p, f);
    StartKeeps(v, Remove(p, f), f, m.token, false, now);
    KeepsTransitive(v, p, Remove(p, f), Replaced(v, p, m, now));
  }

  lemma SettleKeeps(v: View, p: Pages, e: nat, outcome: Outcome)
    requires PagesInv(v, p) && e < |p.entries| && p.entries[e].outcome.None?
    ensures Keeps(v, p, Settle(p, e, outcome))
  {
    var p' := Settle(p, e, outcome);
    forall f <- p'.slots ensures SlotOk(v, p', f) { assert SlotOk(v, p, f); }
    forall i | 0 <= i < |p.entries| ensures EntryKept(p, p', i) {}
  }

  lemma CallbackKeeps(v: View, p: Pages, c: Callback)
    requires PagesInv(v, p)
    ensures Keeps(v, p, RunCallback(p, c))
  {
    var p' := RunCallback(p, c);
    forall f <- p'.slots ensures SlotOk(v, p', f) { assert SlotOk(v, p, f); }
    forall i | 0 <= i < |p.entries| ensures EntryKept(p, p', i) {}
  }

  // ---------------------------------------------------------------- an invalidation reaches every held page

  ghost predicate SlotsPoint(p: Pages) {
    forall f <- p.slots :: p.slots[f] < |p.entries| && p.entries[p.slots[f]].feed == f
  }

  ghost predicate Marked(p: Pages, p': Pages, feeds: seq<Feed>, pred: Predicate, affected: set<Feed>, i: nat) {
    && i < |p.entries| == |p'.entries|
    && var e := p.entries[i];
    && p'.entries[i] == (
      if IsLive(p, i) && e.feed in feeds then
        e.(invalidators := e.invalidators + [pred], refreshAfterSettle := e.feed in affected || e.refreshAfterSettle)
      else e)
  }

  ghost predicate AllMarked(p: Pages, p': Pages, feeds: seq<Feed>, pred: Predicate, affected: set<Feed>) {
    && p'.slots == p.slots && p'.registered == p.registered && p'.issuedAt == p.issuedAt
    && |p'.entries| == |p.entries|
    && forall i {:trigger Marked(p, p', feeds, pred, affected, i)} :: 0 <= i < |p.entries| ==> Marked(p, p', feeds, pred, affected, i)
  }

  lemma MarkedThenMarked(p: Pages, p1: Pages, p': Pages, f: Feed, rest: seq<Feed>, pred: Predicate, affected: set<Feed>, i: nat)
    requires p1.slots == p.slots && f !in rest
    requires Marked(p, p1, [f], pred, affected, i) && Marked(p1, p', rest, pred, affected, i)
    ensures Marked(p, p', [f] + rest, pred, affected, i)
  {
    assert p.entries[i].feed in [f] + rest <==> p.entries[i].feed == f || p.entries[i].feed in rest;
  }

  /** Each held page of `feeds` is marked once, and nothing else about the entries changes. */
  lemma {:induction false} RefreshEachMarks(p: Pages, feeds: seq<Feed>, pred: Predicate, affected: set<Feed>)
    requires SlotsPoint(p)
    requires forall i, j :: 0 <= i < j < |feeds| ==> feeds[i] != feeds[j]
    ensures AllMarked(p, RefreshEach(p, feeds, pred, affected), feeds, pred, affected)
    decreases |feeds|
  {
    var p' := RefreshEach(p, feeds, pred, affected);
    if feeds != [] {
      var f, rest := feeds[0], feeds[1..];
      var p1 := RefreshOne(p, f, pred, f in affected);
      RefreshEachMarks(p1, rest, pred, affected);
      assert feeds == [f] + rest;
      forall i | 0 <= i < |p.entries| ensures Marked(p, p', feeds, pred, affected, i) {
        assert Marked(p, p1, [f], pred, affected, i) && Marked(p1, p', rest, pred, affected, i);
        MarkedThenMarked(p, p1, p', f, rest, pred, affected, i);
      }
    } else {
      forall i | 0 <= i < |p.entries| ensures Marked(p, p', feeds, pred, affected, i) {}
    }
  }

  lemma RefreshMarks(p: Pages, pred: Predicate, affected: set<Feed>)
    requires SlotsPoint(p)
    ensures var p', order := RefreshAffected(p, pred, affected), InsertionOrder(p.slots);
      && p'.slots == p.slots && p'.registered == p.registered + [pred] && p'.issuedAt == p.issuedAt
      && |p'.entries| == |p.entries|
      && forall i {:trigger Marked(p, p', order, pred, affected, i)} :: 0 <= i < |p.entries| ==> Marked(p, p', order, pred, affected, i)
  {
    var order := InsertionOrder(p.slots);
    InsertionOrderLists(p.slots);
    RefreshEachMarks(p, order, pred, affected);
    var marked := RefreshEach(p, order, pred, affected);
    forall i | 0 <= i < |p.entries| ensures Marked(p, RefreshAffected(p, pred, affected), order, pred, affected, i) {
      assert Marked(p, marked, order, pred, affected, i);
    }
  }

  lemma RefreshAffectedKeeps(v: View, p: Pages, pred: Predicate, affected: set<Feed>)
    requires PagesInv(v, p)
    ensures Keeps(v, p, RefreshAffected(p, pred, affected))
    ensures RefreshAffected(p, pred, affected).registered == p.registered + [pred]
  {
    var order, p' := InsertionOrder(p.slots), RefreshAffected(p, pred, affected);
    forall f <- p.slots ensures p.slots[f] < |p.entries| && p.entries[p.slots[f]].feed == f {
      assert SlotOk(v, p, f);
    }
    RefreshMarks(p, pred, affected);
    forall f <- p'.slots ensures SlotOk(v, p', f) {
      MarkedSlotOk(v, p, p', pred, affected, f);
    }
    forall i | 0 <= i < |p.entries| ensures EntryKept(p, p', i) {
      assert Marked(p, p', order, pred, affected, i);
    }
  }

  lemma MarkedSlotOk(v: View, p: Pages, p': Pages, pred: Predicate, affected: set<Feed>, f: Feed)
    requires SlotOk(v, p, f) && p'.slots == p.slots && p'.registered == p.registered + [pred] && p'.issuedAt == p.issuedAt
    requires Marked(p, p', InsertionOrder(p.slots), pred, affected, p.slots[f])
    ensures SlotOk(v, p', f)
  {
    InsertionOrderLists(p.slots);
    var i := p.issuedAt[p.slots[f]];
    assert (p.registered + [pred])[i..] == p.registered[i..] + [pred];
  }

  // ---------------------------------------------------------------- the mismatch recursion

  /** A current request whose page is not held, and whose captured cursor is no longer the feed's. */
  ghost predicate Stuck(v: View, p: Pages, m: More, now: nat) {
    && IsCurrent(v, m.at)
    && var cursor := NextCursor(m.at.feed, TL(v, m.at.feed));
    && cursor.Some? && cursor.value != m.cursor
    && !Ready(p, m, now)
  }

  lemma StartFills(v: View, p: Pages, m: More, now: nat)
    requires m.at.feed !in p.slots && IsCurrent(v, m.at)
    ensures var p', cursor := Start(v, p, m.at.feed, m.token, false, now), NextCursor(m.at.feed, TL(v, m.at.feed));
      && (m.at.feed in p'.slots <==> cursor.Some?)
      && (Ready(p', m, now) <==> cursor == Some(m.cursor))
  {
  }

  lemma StuckAgain(v: View, p: Pages, m: More, retry: Option<bool>, now: nat)
    requires Stuck(v, p, m, now)
    ensures var turn := ConsumeOnce(v, p, m, retry, now); turn.Again? && Stuck(v, turn.pages, m, now)
  {
    if m.at.feed !in p.slots { StartFills(v, p, m, now); }
    StartFills(v, Remove(Ensured(v, p, m, now), m.at.feed), m, now);
  }

  /** Without bound on the call stack the recursion would never end from a stuck request. */
  lemma {:induction false} StuckOverflows(v: View, p: Pages, m: More, retry: Option<bool>, now: nat, stack: nat)
    requires Stuck(v, p, m, now)
    ensures Consume(v, p, m, retry, now, stack).1 == Overflow
    decreases stack
  {
    hide ConsumeOnce;
    if stack > 0 {
      StuckAgain(v, p, m, retry, now);
      StuckOverflows(v, ConsumeOnce(v, p, m, retry, now).pages, m, Some(false), now, stack - 1);
    }
  }

  /** From any other request one replacement is enough: two calls settle it. */
  lemma OtherwiseOneReplacement(v: View, p: Pages, m: More, retry: Option<bool>, now: nat, stack: nat)
    requires !Stuck(v, p, m, now) && stack >= 2
    ensures Consume(v, p, m, retry, now, stack) == Consume(v, p, m, retry, now, 2)
    ensures Consume(v, p, m, retry, now, stack).1 != Overflow
  {
    var turn := ConsumeOnce(v, p, m, retry, now);
    if turn.Again? {
      assert Consume(v, turn.pages, m, Some(false), now, stack - 1) == Consume(v, turn.pages, m, Some(false), now, 1);
    }
  }

  /** The recursion runs away exactly from the stuck requests. */
  lemma OverflowsIffStuck(v: View, p: Pages, m: More, retry: Option<bool>, now: nat)
    ensures (forall stack: nat :: Consume(v, p, m, retry, now, stack).1 == Overflow) <==> Stuck(v, p, m, now)
  {
    if Stuck(v, p, m, now) {
      forall stack: nat ensures Consume(v, p, m, retry, now, stack).1 == Overflow {
        StuckOverflows(v, p, m, retry, now, stack);
      }
    } else {
      OtherwiseOneReplacement(v, p, m, retry, now, 2);
      assert Consume(v, p, m, retry, now, 2).1 != Overflow;
    }
  }
}
