/**
 * The timelines store (stores/timelines.ts): initial loads, infinite scroll, removals and
 * account resets, as steps between two awaits over the pages of `TimelinePages`.
 */
module TimelineProtocol {
  import opened Wrappers
  import opened Statuses
  import opened P = TimelinePages

  datatype Load = Load(at: Capture, token: Option<string>)

  /** What supersedes requests: an account reset, or an initial load of a feed. */
  datatype Mark = ResetMark | LoadMark(feed: Feed)

  /**
   * A page appended by infinite scroll: the feed and its generations at that moment, the caller's cursor, and how
   * many predicates were registered by then.
   */
  datatype Delivery = Delivery(entry: nat, feed: Feed, gen: nat, life: nat, cursor: string, at: nat)

  /** `cache` maps cached statuses to the status they reblog; `log` and `handed` are history. */
  datatype State = State(
    view: View,
    pages: Pages,
    loads: map<nat, Load>,
    mores: map<nat, More>,
    cache: map<string, Option<string>>,
    log: seq<Mark>,
    handed: seq<Delivery>)

  const INITIAL := State(View(map[], map[], 0), Pages([], map[], [], false, multiset{}, [], []),
                         map[], map[], map[], [], [])

  // ---------------------------------------------------------------- infinite scroll

  function Ids(statuses: seq<Status>): seq<string> {
    seq(|statuses|, i requires 0 <= i < |statuses| => statuses[i].id)
  }

  function Cached(cache: map<string, Option<string>>, statuses: seq<Status>): map<string, Option<string>>
    decreases |statuses|
  {
    if statuses == [] then cache
    else
      var st := statuses[0];
      var c := cache[st.id := st.reblog];
      Cached(if st.reblog.Some? then c[st.reblog.value := None] else c, statuses[1..])
  }

  function Paged(f: Feed, t: Timeline, ids: seq<string>, r: Response): Timeline {
    t.(statusIds := ids, hasMore := Truthy(r.next), nextPage := r.next,
       maxId := if f.Recommended? || r.statuses == [] then t.maxId else Some(r.statuses[|r.statuses| - 1].id))
  }

  function Put(v: View, f: Feed, t: Timeline): View {
    v.(timelines := v.timelines[f := t])
  }

  /** The `finally` of `fetchMore`. */
  function EndMore(v: View, c: Capture): View {
    if IsCurrent(v, c) then Put(v, c.feed, TL(v, c.feed).(loadingMore := false)) else v
  }

  /** The `catch` and `finally` of `fetchMore`. */
  function FailMore(v: View, c: Capture): View {
    if !IsCurrent(v, c) then v
    else
      var t := TL(v, c.feed).(error := true);
      EndMore(Put(v, c.feed, if c.feed.Recommended? then t.(hasMore := false, nextPage := None) else t), c)
  }

  ghost function Append(s: State, m: More, r: Response, now: nat): State {
    if !IsCurrent(s.view, m.at) then s
    else
      var f, t := m.at.feed, TL(s.view, m.at.feed);
      var paged := Put(s.view, f, Paged(f, t, t.statusIds + Ids(r.statuses), r));
      s.(cache := Cached(s.cache, r.statuses),
         pages := Start(paged, s.pages, f, m.token, false, now),
         view := EndMore(paged, m.at))
  }

  ghost function Consumed(s: State, id: nat, m: More, retry: Option<bool>, now: nat, stack: nat): State {
    var (pages, sync) := Consume(s.view, s.pages, m, retry, now, stack);
    var s' := s.(pages := pages);
    match sync
    case Await(e, retry') => s'.(mores := s.mores[id := m.(awaited := e, retry := retry')])
    case Undefined => s'.(view := EndMore(s.view, m.at))
    case Overflow => s'.(view := FailMore(s.view, m.at))
  }

  ghost function FetchMore(s: State, id: nat, f: Feed, token: Option<string>, now: nat, stack: nat): State {
    var t := TL(s.view, f);
    var cursor := NextCursor(f, t);
    if t.loadingMore || !t.hasMore then s
    else if cursor.None? then s.(view := Put(s.view, f, t.(hasMore := false)))
    else
      Consumed(s.(view := Put(s.view, f, t.(loadingMore := true, error := false))), id,
               More(Capture(f, Gen(s.view, f), s.view.lifecycle, |s.log|), token, cursor.value, false, 0),
               None, now, stack)
  }

  predicate Settled(p: Pages, e: nat) {
    e < |p.entries| && p.entries[e].outcome.Some?
  }

  /** `fetchMore` after the awaited page promise settled. */
  ghost function ResumeMore(s: State, id: nat, now: nat, stack: nat): State
    requires id in s.mores && Settled(s.pages, s.mores[id].awaited)
  {
    Resumed(s.(mores := s.mores - {id}), id, s.mores[id], now, stack)
  }

  ghost function Resumed(s: State, id: nat, m: More, now: nat, stack: nat): State
    requires Settled(s.pages, m.awaited)
  {
    var f, e := m.at.feed, s.pages.entries[m.awaited];
    if !Holds(s.pages, f, m.awaited) then Consumed(s, id, m, Some(m.retry), now, stack)
    else if !IsCurrent(s.view, m.at) then s.(pages := Remove(s.pages, f))
    else if e.outcome.value.Failed? then
      if m.retry then Consumed(s.(pages := Replaced(s.view, s.pages, m, now)), id, m, Some(false), now, stack)
      else s.(pages := Remove(s.pages, f), view := FailMore(s.view, m.at))
    else if e.refreshAfterSettle || NeedsRefresh(e) then
      Consumed(s.(pages := Restart(s.view, s.pages, f, m.awaited, now)), id, m, Some(m.retry), now, stack)
    else Append(HandOver(s, m), m, e.outcome.value.response, now)
  }

  function Delivered(s: State, m: More): Delivery {
    Delivery(m.awaited, m.at.feed, Gen(s.view, m.at.feed), s.view.lifecycle, m.cursor, |s.pages.registered|)
  }

  function HandOver(s: State, m: More): State {
    s.(pages := Remove(s.pages, m.at.feed),
       handed := s.handed + [Delivered(s, m)])
  }

  // ---------------------------------------------------------------- loads, removals, reset

  function FetchTimeline(s: State, id: nat, f: Feed, token: Option<string>): State {
    var t, gen := TL(s.view, f), Gen(s.view, f) + 1;
    if t.loading then s
    else
      s.(view := View(s.view.timelines[f := t.(loadingMore := false, loading := true, error := false)],
                      s.view.gens[f := gen], s.view.lifecycle),
         pages := Remove(s.pages, f),
         log := s.log + [LoadMark(f)],
         loads := s.loads[id := Load(Capture(f, gen, s.view.lifecycle, |s.log| + 1), token)])
  }

  function RefreshRecommended(s: State, id: nat, token: string): State {
    if TL(s.view, Recommended).loading then s
    else FetchTimeline(s.(view := Put(s.view, Recommended, EMPTY)), id, Recommended, Some(token))
  }

  ghost function LoadReply(s: State, id: nat, reply: Outcome, now: nat): State
    requires id in s.loads
  {
    var l, rest := s.loads[id], s.(loads := s.loads - {id});
    var f, t := l.at.feed, TL(s.view, l.at.feed);
    if !IsCurrent(s.view, l.at) then rest
    else if reply.Failed? then rest.(view := Put(s.view, f, t.(error := true, loading := false)))
    else
      var r := reply.response;
      var paged := Paged(f, t, Ids(r.statuses), r);
      rest.(cache := Cached(s.cache, r.statuses),
            pages := Start(Put(s.view, f, paged), s.pages, f, l.token, false, now),
            view := Put(s.view, f, paged.(loading := false)))
  }

  function Without(ids: seq<string>, removed: set<string>): (r: seq<string>)
    ensures forall id <- r :: id in ids && id !in removed
    ensures forall id <- ids :: id !in removed ==> id in r
    ensures |r| <= |ids|
  {
    if ids == [] then [] else
      var rest := Without(ids[1..], removed);
      if ids[0] in removed then rest else [ids[0]] + rest
  }

  function RemovedIds(cache: map<string, Option<string>>, id: string): set<string> {
    {id} + set c | c in cache && cache[c] == Some(id)
  }

  predicate Affected(removed: set<string>, st: Status) {
    st.id in removed || (st.reblog.Some? && st.reblog.value in removed)
  }

  function Affects(removed: set<string>): Predicate {
    (st: Status) => Affected(removed, st)
  }

  function Stripped(t: Timeline, removed: set<string>): Timeline {
    t.(statusIds := Without(t.statusIds, removed), newStatusIds := Without(t.newStatusIds, removed))
  }

  predicate Shrinks(t: Timeline, removed: set<string>) {
    |Without(t.statusIds, removed)| != |t.statusIds| || |Without(t.newStatusIds, removed)| != |t.newStatusIds|
  }

  ghost function RemoveStatus(s: State, id: string): State {
    var removed := RemovedIds(s.cache, id);
    var affected := set f | f in s.view.timelines && Shrinks(s.view.timelines[f], removed);
    s.(view := s.view.(timelines := map f | f in s.view.timelines :: Stripped(s.view.timelines[f], removed)),
       pages := RefreshAffected(s.pages, Affects(removed), affected))
  }

  /** An account switch: every account-scoped value goes, and the per-feed generations restart. */
  function Reset(s: State): State {
    s.(view := View(map[], map[], s.view.lifecycle + 1),
       pages := s.pages.(slots := map[], queued := []),
       log := s.log + [ResetMark])
  }

  function PrependStatus(s: State, f: Feed, id: string): State {
    var t := TL(s.view, f);
    if id in t.newStatusIds || id in t.statusIds then s
    else s.(view := Put(s.view, f, t.(newStatusIds := [id] + t.newStatusIds)))
  }

  function ShowNewStatuses(s: State, f: Feed): State {
    var t := TL(s.view, f);
    var shown := set id | id in t.statusIds;
    s.(view := Put(s.view, f, t.(statusIds := Without(t.newStatusIds, shown) + t.statusIds, newStatusIds := [])))
  }

  // ---------------------------------------------------------------- runs

  datatype Event =
    | DoFetchTimeline(id: nat, feed: Feed, token: Option<string>)
    | DoRefreshRecommended(id: nat, account: string)
    | DoLoadReply(id: nat, reply: Outcome, now: nat)
    | DoFetchMore(id: nat, feed: Feed, token: Option<string>, now: nat, stack: nat)
    | DoResumeMore(id: nat, now: nat, stack: nat)
    | DoSettle(entry: nat, outcome: Outcome)
    | DoCallback(callback: Callback)
    | DoMicrotask(now: nat)
    | DoRemoveStatus(status: string)
    | DoPrepend(feed: Feed, status: string)
    | DoShowNew(feed: Feed)
    | DoSetCache(cache: map<string, Option<string>>)
    | DoReset

  /** Calls get new identities, promises settle once, and continuations run after settlement. */
  predicate Enabled(s: State, ev: Event) {
    match ev
    case DoFetchTimeline(id, _, _) => id !in s.loads
    case DoRefreshRecommended(id, _) => id !in s.loads
    case DoLoadReply(id, _, _) => id in s.loads
    case DoFetchMore(id, _, _, _, _) => id !in s.mores
    case DoResumeMore(id, _, _) => id in s.mores && Settled(s.pages, s.mores[id].awaited)
    case DoSettle(e, _) => e < |s.pages.entries| && s.pages.entries[e].outcome.None?
    case DoCallback(c) => c in s.pages.callbacks && Settled(s.pages, c.entry)
    case DoMicrotask(_) => s.pages.restartQueued
    case _ => true
  }

  ghost function Step(s: State, ev: Event): State
    requires Enabled(s, ev)
  {
    match ev
    case DoFetchTimeline(id, f, token) => FetchTimeline(s, id, f, token)
    case DoRefreshRecommended(id, token) => RefreshRecommended(s, id, token)
    case DoLoadReply(id, reply, now) => LoadReply(s, id, reply, now)
    case DoFetchMore(id, f, token, now, stack) => FetchMore(s, id, f, token, now, stack)
    case DoResumeMore(id, now, stack) => ResumeMore(s, id, now, stack)
    case DoSettle(e, outcome) => s.(pages := Settle(s.pages, e, outcome))
    case DoCallback(c) => s.(pages := RunCallback(s.pages, c))
    case DoMicrotask(now) => s.(pages := Microtask(s.view, s.pages, now))
    case DoRemoveStatus(id) => RemoveStatus(s, id)
    case DoPrepend(f, id) => PrependStatus(s, f, id)
    case DoShowNew(f) => ShowNewStatuses(s, f)
    case DoSetCache(cache) => s.(cache := cache)
    case DoReset => Reset(s)
  }

  ghost function Run(s: State, evs: seq<Event>): State
    decreases |evs|
  {
    if evs == [] then s
    else Run(if Enabled(s, evs[0]) then Step(s, evs[0]) else s, evs[1..])
  }

  // ---------------------------------------------------------------- generations and the log

  function Resets(log: seq<Mark>): nat {
    if log == [] then 0 else Resets(log[..|log| - 1]) + if log[|log| - 1].ResetMark? then 1 else 0
  }

  /** Initial loads of `f` since the last reset. */
  function LoadsSinceReset(log: seq<Mark>, f: Feed): nat {
    if log == [] || log[|log| - 1].ResetMark? then 0
    else LoadsSinceReset(log[..|log| - 1], f) + if log[|log| - 1] == LoadMark(f) then 1 else 0
  }

  /** Nothing that supersedes a request of `f` happened from `since` on. */
  ghost predicate Undisturbed(log: seq<Mark>, f: Feed, since: nat) {
    forall i :: since <= i < |log| ==> log[i] != ResetMark && log[i] != LoadMark(f)
  }

  ghost predicate GenInv(v: View, log: seq<Mark>) {
    v.lifecycle == Resets(log) && forall f :: Gen(v, f) == LoadsSinceReset(log, f)
  }

  ghost predicate CaptureOk(log: seq<Mark>, c: Capture) {
    && c.since <= |log|
    && c.life == Resets(log[..c.since])
    && c.gen == LoadsSinceReset(log[..c.since], c.feed)
  }

  /**
   * The two counters never confuse two moments: although a reset clears the per-feed
   * generations so that they repeat, a log has the counts of one of its prefixes exactly
   * when nothing in between was a reset or a load of the feed.
   */
  lemma {:induction false} CountsRepeatOnlyUndisturbed(log: seq<Mark>, f: Feed, since: nat)
    requires since <= |log|
    ensures Resets(log[..since]) <= Resets(log)
    ensures Resets(log[..since]) == Resets(log) ==> LoadsSinceReset(log[..since], f) <= LoadsSinceReset(log, f)
    ensures Resets(log[..since]) == Resets(log) && LoadsSinceReset(log[..since], f) == LoadsSinceReset(log, f)
       <==> Undisturbed(log, f, since)
  {
    if since == |log| {
      assert log[..since] == log;
    } else {
      var front := log[..|log| - 1];
      assert front[..since] == log[..since];
      CountsRepeatOnlyUndisturbed(front, f, since);
      assert forall i :: since <= i < |front| ==> front[i] == log[i];
    }
  }

  /** A continuation passes `isCurrentRequest` exactly when nothing superseded it since its capture. */
  lemma CurrentIffUndisturbed(s: State, c: Capture)
    requires GenInv(s.view, s.log) && CaptureOk(s.log, c)
    ensures IsCurrent(s.view, c) <==> Undisturbed(s.log, c.feed, c.since)
  {
    CountsRepeatOnlyUndisturbed(s.log, c.feed, c.since);
  }

  lemma CaptureKept(log: seq<Mark>, mark: Mark, c: Capture)
    requires CaptureOk(log, c)
    ensures CaptureOk(log + [mark], c)
  {
    assert (log + [mark])[..c.since] == log[..c.since];
  }

  lemma LogGrows(log: seq<Mark>, mark: Mark)
    ensures (log + [mark])[..|log|] == log
    ensures (log + [mark])[..|log| + 1] == log + [mark]
    ensures log[..|log|] == log
  {
  }

  // ---------------------------------------------------------------- invariants

  ghost predicate LoadRuns(s: State, f: Feed, id: nat) {
    id in s.loads && s.loads[id].at.feed == f && IsCurrent(s.view, s.loads[id].at)
  }

  ghost predicate MoreRuns(s: State, f: Feed, id: nat) {
    id in s.mores && s.mores[id].at.feed == f && IsCurrent(s.view, s.mores[id].at)
  }

  ghost predicate SomeLoad(s: State, f: Feed) {
    exists id :: LoadRuns(s, f, id)
  }

  ghost predicate SomeMore(s: State, f: Feed) {
    exists id :: MoreRuns(s, f, id)
  }

  /** `loading` is set exactly while an initial load of the current generation is outstanding, and one is. */
  ghost predicate LoadInv(s: State) {
    && (forall id <- s.loads :: CaptureOk(s.log, s.loads[id].at))
    && (forall f, id, id' :: LoadRuns(s, f, id) && LoadRuns(s, f, id') ==> id == id')
    && (forall f :: TL(s.view, f).loading == SomeLoad(s, f))
  }

  ghost predicate MoreOk(s: State, m: More) {
    CaptureOk(s.log, m.at) && AwaitsPage(s.pages, m, m.awaited)
  }

  ghost predicate InHand(s: State, hand: Option<Capture>, f: Feed) {
    hand.Some? && hand.value.feed == f && IsCurrent(s.view, hand.value)
  }

  /**
   * `loadingMore` is set exactly while a scroll request of the current generation is
   * outstanding, and one is; `hand` is a request being resumed, which is not in the table.
   */
  ghost predicate MoreInv(s: State, hand: Option<Capture>) {
    && (forall id <- s.mores :: MoreOk(s, s.mores[id]))
    && (forall f, id, id' :: MoreRuns(s, f, id) && MoreRuns(s, f, id') ==> id == id')
    && (forall f, id :: MoreRuns(s, f, id) ==> !InHand(s, hand, f))
    && (forall f :: TL(s.view, f).loadingMore == (InHand(s, hand, f) || SomeMore(s, f)))
  }

  /**
   * An appended page was requested for that feed in the generation it was appended in, for the cursor the scroll
   * request captured, was not marked for refresh, and none of its statuses is matched by a predicate registered
   * since its issue.
   */
  ghost predicate Fresh(p: Pages, d: Delivery) {
    && d.entry < |p.entries| && d.entry < |p.issuedAt|
    && var e, i := p.entries[d.entry], p.issuedAt[d.entry];
    && i <= d.at <= |p.registered|
    && e.feed == d.feed && e.gen == d.gen && e.life == d.life
    && e.cursor == d.cursor && !e.refreshAfterSettle
    && e.outcome.Some? && e.outcome.value.Page?
    && !SomeMatch(p.registered[i..d.at], e.outcome.value.response.statuses)
  }

  ghost predicate HandedInv(p: Pages, handed: seq<Delivery>) {
    && (forall d <- handed :: Fresh(p, d) && !IsLive(p, d.entry))
    && (forall i, j :: 0 <= i < j < |handed| ==> handed[i].entry != handed[j].entry)
  }

  ghost predicate InvWith(s: State, hand: Option<Capture>) {
    PagesInv(s.view, s.pages) && GenInv(s.view, s.log) && LoadInv(s) && MoreInv(s, hand) && HandedInv(s.pages, s.handed)
  }

  ghost predicate Inv(s: State) {
    InvWith(s, None)
  }

  // ---------------------------------------------------------------- proofs: pages

  lemma FreshKept(p: Pages, p': Pages, d: Delivery)
    requires Fresh(p, d) && !IsLive(p, d.entry) && Evolves(p, p')
    ensures Fresh(p', d) && !IsLive(p', d.entry)
  {
    assert EntryKept(p, p', d.entry);
    var i := p.issuedAt[d.entry];
    assert p'.registered[i..d.at] == p.registered[i..d.at];
  }

  lemma HandedKept(p: Pages, p': Pages, handed: seq<Delivery>)
    requires HandedInv(p, handed) && Evolves(p, p')
    ensures HandedInv(p', handed)
  {
    forall d <- handed ensures Fresh(p', d) && !IsLive(p', d.entry) {
      FreshKept(p, p', d);
    }
  }

  lemma AwaitsKept(p: Pages, p': Pages, m: More)
    requires AwaitsPage(p, m, m.awaited) && Evolves(p, p')
    ensures AwaitsPage(p', m, m.awaited)
  {
    assert EntryKept(p, p', m.awaited);
  }

  /** A step on the pages alone keeps everything else. */
  lemma PagesStep(s: State, p': Pages, hand: Option<Capture>)
    requires InvWith(s, hand) && Keeps(s.view, s.pages, p')
    ensures InvWith(s.(pages := p'), hand)
  {
    var s' := s.(pages := p');
    HandedKept(s.pages, p', s.handed);
    forall id <- s.mores ensures MoreOk(s', s.mores[id]) {
      assert MoreOk(s, s.mores[id]);
      AwaitsKept(s.pages, p', s.mores[id]);
    }
    SameFlags(s, s', hand);
  }

  lemma SameLoads(s: State, s': State)
    requires forall f, id :: LoadRuns(s', f, id) == LoadRuns(s, f, id)
    ensures forall f :: SomeLoad(s', f) == SomeLoad(s, f)
  {
    forall f ensures SomeLoad(s', f) == SomeLoad(s, f) {
      if id :| LoadRuns(s, f, id) { assert LoadRuns(s', f, id); }
      if id :| LoadRuns(s', f, id) { assert LoadRuns(s, f, id); }
    }
  }

  /** Flags are about the view and the tables only. */
  lemma SameFlags(s: State, s': State, hand: Option<Capture>)
    requires s'.loads == s.loads && s'.mores == s.mores && s'.log == s.log && GenInv(s.view, s.log)
    requires s'.view.gens == s.view.gens && s'.view.lifecycle == s.view.lifecycle
    requires forall f :: TL(s'.view, f).loading == TL(s.view, f).loading
    requires forall f :: TL(s'.view, f).loadingMore == TL(s.view, f).loadingMore
    requires LoadInv(s) && MoreInv(s, hand) && forall id <- s.mores :: MoreOk(s', s.mores[id])
    ensures LoadInv(s') && MoreInv(s', hand) && GenInv(s'.view, s'.log)
  {
    forall f, id ensures LoadRuns(s', f, id) == LoadRuns(s, f, id) {}
    forall f, id ensures MoreRuns(s', f, id) == MoreRuns(s, f, id) {}
    SameLoads(s, s');
    forall f ensures InHand(s', hand, f) == InHand(s, hand, f) {}
    forall f ensures Gen(s'.view, f) == Gen(s.view, f) {}
  }

  // ---------------------------------------------------------------- proofs: the view

  lemma PagesInvView(v: View, v': View, p: Pages)
    requires PagesInv(v, p) && v'.gens == v.gens && v'.lifecycle == v.lifecycle
    ensures PagesInv(v', p)
  {
    forall f <- p.slots ensures SlotOk(v', p, f) {
      assert SlotOk(v, p, f);
    }
  }

  /** Changing lists, cursors or errors disturbs nothing. */
  lemma ViewStep(s: State, v': View, hand: Option<Capture>)
    requires InvWith(s, hand) && v'.gens == s.view.gens && v'.lifecycle == s.view.lifecycle
    requires forall f :: TL(v', f).loading == TL(s.view, f).loading && TL(v', f).loadingMore == TL(s.view, f).loadingMore
    ensures InvWith(s.(view := v'), hand)
  {
    PagesInvView(s.view, v', s.pages);
    forall id <- s.mores ensures MoreOk(s.(view := v'), s.mores[id]) {
      assert MoreOk(s, s.mores[id]);
    }
    SameFlags(s, s.(view := v'), hand);
  }

  lemma EndMoreKeeps(s: State, c: Capture)
    requires InvWith(s, Some(c))
    ensures Inv(s.(view := EndMore(s.view, c)))
  {
    if !IsCurrent(s.view, c) {
    } else {
      var s' := s.(view := EndMore(s.view, c));
      PagesInvView(s.view, s'.view, s.pages);
      forall f, id ensures LoadRuns(s', f, id) == LoadRuns(s, f, id) {}
      forall f, id ensures MoreRuns(s', f, id) == MoreRuns(s, f, id) {}
      SameLoads(s, s');
      forall f ensures InHand(s, Some(c), f) == (f == c.feed) && !InHand(s', None, f) {}
      forall id <- s'.mores ensures MoreOk(s', s'.mores[id]) { assert MoreOk(s, s.mores[id]); }
    }
  }

  lemma FailMoreKeeps(s: State, c: Capture)
    requires InvWith(s, Some(c))
    ensures Inv(s.(view := FailMore(s.view, c)))
  {
    if !IsCurrent(s.view, c) {
    } else {
      var t := TL(s.view, c.feed).(error := true);
      var v' := Put(s.view, c.feed, if c.feed.Recommended? then t.(hasMore := false, nextPage := None) else t);
      ViewStep(s, v', Some(c));
      EndMoreKeeps(s.(view := v'), c);
    }
  }

  lemma PutBack(s: State, id: nat, m: More)
    requires InvWith(s, Some(m.at)) && id !in s.mores && MoreOk(s, m) && IsCurrent(s.view, m.at)
    ensures Inv(s.(mores := s.mores[id := m]))
  {
    var s' := s.(mores := s.mores[id := m]);
    forall f, i ensures LoadRuns(s', f, i) == LoadRuns(s, f, i) {}
    SameLoads(s, s');
    forall f, i ensures MoreRuns(s', f, i) == if i == id then InHand(s, Some(m.at), f) else MoreRuns(s, f, i) {}
    forall f ensures !InHand(s', None, f) {}
    forall i <- s'.mores ensures MoreOk(s', s'.mores[i]) { if i != id { assert MoreOk(s, s.mores[i]); } }
    forall f ensures SomeMore(s', f) == (InHand(s, Some(m.at), f) || SomeMore(s, f)) {
      if InHand(s, Some(m.at), f) { assert MoreRuns(s', f, id); }
      if i :| MoreRuns(s, f, i) { assert MoreRuns(s', f, i); }
      if i :| MoreRuns(s', f, i) { assert i == id || MoreRuns(s, f, i); }
    }
  }

  lemma TakeOut(s: State, id: nat)
    requires Inv(s) && id in s.mores
    ensures InvWith(s.(mores := s.mores - {id}), Some(s.mores[id].at))
  {
    var m, s' := s.mores[id], s.(mores := s.mores - {id});
    forall f, i ensures LoadRuns(s', f, i) == LoadRuns(s, f, i) {}
    SameLoads(s, s');
    forall f, i ensures MoreRuns(s', f, i) == (i != id && MoreRuns(s, f, i)) {}
    forall f ensures InHand(s', Some(m.at), f) == MoreRuns(s, f, id) && !InHand(s, None, f) {}
    forall i <- s'.mores ensures MoreOk(s', s'.mores[i]) { assert MoreOk(s, s.mores[i]); }
    forall f ensures SomeMore(s, f) == (InHand(s', Some(m.at), f) || SomeMore(s', f)) {
      if i :| MoreRuns(s, f, i) { assert i == id || MoreRuns(s', f, i); }
      if i :| MoreRuns(s', f, i) { assert MoreRuns(s, f, i); }
    }
  }

  // ---------------------------------------------------------------- proofs: infinite scroll

  lemma ConsumedKeeps(s: State, id: nat, m: More, retry: Option<bool>, now: nat, stack: nat)
    requires InvWith(s, Some(m.at)) && CaptureOk(s.log, m.at) && id !in s.mores
    ensures Inv(Consumed(s, id, m, retry, now, stack))
  {
    var (pages, sync) := Consume(s.view, s.pages, m, retry, now, stack);
    var s' := s.(pages := pages);
    ConsumeKeeps(s.view, s.pages, m, retry, now, stack);
    PagesStep(s, pages, Some(m.at));
    match sync
    case Await(e, retry') => PutBack(s', id, m.(awaited := e, retry := retry'));
    case Undefined => EndMoreKeeps(s', m.at);
    case Overflow => FailMoreKeeps(s', m.at);
  }

  lemma FetchMoreKeeps(s: State, id: nat, f: Feed, token: Option<string>, now: nat, stack: nat)
    requires Inv(s) && id !in s.mores
    ensures Inv(FetchMore(s, id, f, token, now, stack))
  {
    hide Consumed, PagesInv, GenInv, LoadInv, MoreInv, HandedInv;
    var t := TL(s.view, f);
    var cursor := NextCursor(f, t);
    if t.loadingMore || !t.hasMore {
    } else if cursor.None? {
      ViewStep(s, Put(s.view, f, t.(hasMore := false)), None);
    } else {
      var c := Capture(f, Gen(s.view, f), s.view.lifecycle, |s.log|);
      var v' := Put(s.view, f, t.(loadingMore := true, error := false));
      TakeUp(s, v', c);
      ConsumedKeeps(s.(view := v'), id, More(c, token, cursor.value, false, 0), None, now, stack);
    }
  }

  /** A new scroll request of a feed that has none. */
  lemma TakeUp(s: State, v': View, c: Capture)
    requires Inv(s) && c == Capture(c.feed, Gen(s.view, c.feed), s.view.lifecycle, |s.log|)
    requires !TL(s.view, c.feed).loadingMore
    requires v' == Put(s.view, c.feed, TL(s.view, c.feed).(loadingMore := true, error := false))
    ensures InvWith(s.(view := v'), Some(c)) && CaptureOk(s.log, c)
  {
    var s' := s.(view := v');
    LogGrows(s.log, ResetMark);
    PagesInvView(s.view, v', s.pages);
    forall g, i ensures LoadRuns(s', g, i) == LoadRuns(s, g, i) {}
    forall g, i ensures MoreRuns(s', g, i) == MoreRuns(s, g, i) {}
    SameLoads(s, s');
    forall g ensures InHand(s', Some(c), g) == (g == c.feed) && !InHand(s, None, g) {}
    forall i <- s'.mores ensures MoreOk(s', s'.mores[i]) { assert MoreOk(s, s.mores[i]); }
    forall g, i | MoreRuns(s', g, i) ensures !InHand(s', Some(c), g) { assert SomeMore(s, g); }
  }

  lemma HandOverKeeps(s: State, m: More)
    requires InvWith(s, Some(m.at)) && MoreOk(s, m) && Holds(s.pages, m.at.feed, m.awaited)
    requires var e := s.pages.entries[m.awaited];
      e.outcome.Some? && e.outcome.value.Page? && !e.refreshAfterSettle && !NeedsRefresh(e)
    ensures InvWith(HandOver(s, m), Some(m.at))
  {
    var f, p, p' := m.at.feed, s.pages, Remove(s.pages, m.at.feed);
    RemoveKeeps(s.view, p, f);
    PagesStep(s, p', Some(m.at));
    var d := Delivered(s, m);
    assert SlotOk(s.view, p, f);
    var i := p.issuedAt[m.awaited];
    assert p.registered[i..|p.registered|] == p.registered[i..];
    assert Fresh(p', d) && !IsLive(p', d.entry);
    assert HandedInv(p', s.handed + [d]) by {
      forall k | 0 <= k < |s.handed| ensures s.handed[k].entry != d.entry {
        assert s.handed[k] in s.handed && IsLive(p, d.entry);
      }
    }
    SameFlags(s.(pages := p'), HandOver(s, m), Some(m.at));
  }

  lemma AppendKeeps(s: State, m: More, r: Response, now: nat)
    requires InvWith(s, Some(m.at))
    ensures Inv(Append(s, m, r, now))
  {
    if !IsCurrent(s.view, m.at) {
    } else {
      var f, t := m.at.feed, TL(s.view, m.at.feed);
      var paged := Paged(f, t, t.statusIds + Ids(r.statuses), r);
      RelistKeeps(s, f, paged, m.token, now, Some(m.at));
      var s1 := Relisted(s, f, paged, m.token, now);
      EndMoreKeeps(s1, m.at);
      CacheFree(s1.(view := EndMore(s1.view, m.at)), Cached(s.cache, r.statuses));
    }
  }

  /** A feed shows other statuses and a cursor, and the page after them is prefetched. */
  ghost function Relisted(s: State, f: Feed, t: Timeline, token: Option<string>, now: nat): State {
    s.(view := Put(s.view, f, t), pages := Start(Put(s.view, f, t), s.pages, f, token, false, now))
  }

  lemma RelistKeeps(s: State, f: Feed, t: Timeline, token: Option<string>, now: nat, hand: Option<Capture>)
    requires InvWith(s, hand)
    requires t.loading == TL(s.view, f).loading && t.loadingMore == TL(s.view, f).loadingMore
    ensures InvWith(Relisted(s, f, t, token, now), hand)
  {
    var v1 := Put(s.view, f, t);
    ViewStep(s, v1, hand);
    StartKeeps(v1, s.pages, f, token, false, now);
    PagesStep(s.(view := v1), Start(v1, s.pages, f, token, false, now), hand);
  }

  lemma CacheFree(s: State, cache: map<string, Option<string>>)
    requires Inv(s)
    ensures Inv(s.(cache := cache))
  {
    var s' := s.(cache := cache);
    forall id <- s.mores ensures MoreOk(s', s.mores[id]) { assert MoreOk(s, s.mores[id]); }
    SameFlags(s, s', None);
  }

  lemma ResumedKeeps(s: State, id: nat, m: More, now: nat, stack: nat)
    requires InvWith(s, Some(m.at)) && MoreOk(s, m) && id !in s.mores && Settled(s.pages, m.awaited)
    ensures Inv(Resumed(s, id, m, now, stack))
  {
    var f, e := m.at.feed, s.pages.entries[m.awaited];
    var removed := Remove(s.pages, f);
    RemoveKeeps(s.view, s.pages, f);
    PagesStep(s, removed, Some(m.at));
    if !Holds(s.pages, f, m.awaited) {
      ConsumedKeeps(s, id, m, Some(m.retry), now, stack);
    } else if !IsCurrent(s.view, m.at) {
    } else if e.outcome.value.Failed? {
      if m.retry {
        ReplacedKeeps(s.view, s.pages, m, now);
        PagesStep(s, Replaced(s.view, s.pages, m, now), Some(m.at));
        ConsumedKeeps(s.(pages := Replaced(s.view, s.pages, m, now)), id, m, Some(false), now, stack);
      } else {
        FailMoreKeeps(s.(pages := removed), m.at);
      }
    } else if e.refreshAfterSettle || NeedsRefresh(e) {
      StartKeeps(s.view, s.pages, f, e.token, true, now);
      var p' := Restart(s.view, s.pages, f, m.awaited, now);
      PagesStep(s, p', Some(m.at));
      ConsumedKeeps(s.(pages := p'), id, m, Some(m.retry), now, stack);
    } else {
      HandOverKeeps(s, m);
      AppendKeeps(HandOver(s, m), m, e.outcome.value.response, now);
    }
  }

  // ---------------------------------------------------------------- proofs: loads, removals, reset

  lemma FetchTimelineKeeps(s: State, id: nat, f: Feed, token: Option<string>)
    requires Inv(s) && id !in s.loads
    ensures Inv(FetchTimeline(s, id, f, token))
  {
    if !TL(s.view, f).loading {
      var s' := FetchTimeline(s, id, f, token);
      LoadCounted(s.view, s'.view, s.log, f);
      NewLoadDropsPage(s, s', f);
      HandedKept(s.pages, s'.pages, s.handed);
      NewLoad(s, s', id, f, token);
      NewLoadEndsScroll(s, s', id, f, token);
    }
  }

  lemma LoadCounted(v: View, v': View, log: seq<Mark>, f: Feed)
    requires GenInv(v, log) && v'.lifecycle == v.lifecycle && v'.gens == v.gens[f := Gen(v, f) + 1]
    ensures GenInv(v', log + [LoadMark(f)])
  {
    LogGrows(log, LoadMark(f));
    forall g ensures Gen(v', g) == LoadsSinceReset(log + [LoadMark(f)], g) {
      assert Gen(v, g) == LoadsSinceReset(log, g);
    }
  }

  lemma NewLoadDropsPage(s: State, s': State, f: Feed)
    requires PagesInv(s.view, s.pages) && s'.pages == Remove(s.pages, f)
    requires s'.view.lifecycle == s.view.lifecycle && s'.view.gens == s.view.gens[f := Gen(s.view, f) + 1]
    ensures PagesInv(s'.view, s'.pages) && Evolves(s.pages, s'.pages)
  {
    RemoveKeeps(s.view, s.pages, f);
    forall g <- s'.pages.slots ensures SlotOk(s'.view, s'.pages, g) {
      assert SlotOk(s.view, s.pages, g);
    }
  }

  lemma Superseded(s: State, s': State, f: Feed, c: Capture)
    requires CaptureOk(s.log, c) && s'.log == s.log + [LoadMark(f)] && GenInv(s'.view, s'.log)
    ensures CaptureOk(s'.log, c) && (c.feed == f ==> !IsCurrent(s'.view, c))
  {
    CaptureKept(s.log, LoadMark(f), c);
    CurrentIffUndisturbed(s', c);
    assert s'.log[|s.log|] == LoadMark(f);
  }

  lemma NewLoad(s: State, s': State, id: nat, f: Feed, token: Option<string>)
    requires Inv(s) && id !in s.loads && !TL(s.view, f).loading && s' == FetchTimeline(s, id, f, token)
    requires GenInv(s'.view, s'.log)
    ensures LoadInv(s')
  {
    hide LoadsSinceReset, Resets, PagesInv, HandedInv, MoreInv;
    LogGrows(s.log, LoadMark(f));
    NewLoadRuns(s, s', id, f, token);
    OneMoreLoad(s, s', id, f);
    forall i <- s'.loads ensures CaptureOk(s'.log, s'.loads[i].at) {
      if i != id { Superseded(s, s', f, s.loads[i].at); } else { LoadCaptured(s, s', id, f, token); }
    }
  }

  lemma LoadCaptured(s: State, s': State, id: nat, f: Feed, token: Option<string>)
    requires !TL(s.view, f).loading && s' == FetchTimeline(s, id, f, token) && GenInv(s'.view, s'.log)
    ensures CaptureOk(s'.log, s'.loads[id].at)
  {
    LogGrows(s.log, LoadMark(f));
    assert Gen(s'.view, f) == LoadsSinceReset(s'.log, f);
  }

  lemma NewLoadRuns(s: State, s': State, id: nat, f: Feed, token: Option<string>)
    requires id !in s.loads && !TL(s.view, f).loading && s' == FetchTimeline(s, id, f, token)
    requires GenInv(s'.view, s'.log) && forall i <- s.loads :: CaptureOk(s.log, s.loads[i].at)
    ensures forall g, i :: LoadRuns(s', g, i) == if g == f then i == id else LoadRuns(s, g, i)
  {
    hide LoadsSinceReset, Resets;
    forall g, i ensures LoadRuns(s', g, i) == if g == f then i == id else LoadRuns(s, g, i) {
      if i in s.loads { Superseded(s, s', f, s.loads[i].at); }
    }
  }

  lemma OneMoreLoad(s: State, s': State, id: nat, f: Feed)
    requires forall g, i :: LoadRuns(s', g, i) == if g == f then i == id else LoadRuns(s, g, i)
    ensures forall g :: SomeLoad(s', g) == (g == f || SomeLoad(s, g))
  {
    forall g ensures SomeLoad(s', g) == (g == f || SomeLoad(s, g)) {
      if g == f { assert LoadRuns(s', g, id); }
      if i :| LoadRuns(s, g, i) { assert g == f || LoadRuns(s', g, i); }
      if i :| LoadRuns(s', g, i) { assert g == f || LoadRuns(s, g, i); }
    }
  }

  lemma NewLoadEndsScroll(s: State, s': State, id: nat, f: Feed, token: Option<string>)
    requires Inv(s) && !TL(s.view, f).loading && s' == FetchTimeline(s, id, f, token)
    requires GenInv(s'.view, s'.log)
    ensures MoreInv(s', None)
  {
    forall i <- s.mores ensures MoreOk(s', s.mores[i]) && (s.mores[i].at.feed == f ==> !IsCurrent(s'.view, s.mores[i].at)) {
      assert MoreOk(s, s.mores[i]);
      Superseded(s, s', f, s.mores[i].at);
    }
    forall g, i ensures MoreRuns(s', g, i) == (g != f && MoreRuns(s, g, i)) {}
    forall g ensures !InHand(s', None, g) && !InHand(s, None, g) {}
    forall g ensures SomeMore(s', g) == (g != f && SomeMore(s, g)) {
      if i :| MoreRuns(s, g, i) { assert g == f || MoreRuns(s', g, i); }
      if i :| MoreRuns(s', g, i) { assert MoreRuns(s, g, i); }
    }
  }

  /** Taking an outstanding load out of the table; its flag is then the only trace of it. */
  lemma LoadReplyKeeps(s: State, id: nat, reply: Outcome, now: nat)
    requires Inv(s) && id in s.loads
    ensures Inv(LoadReply(s, id, reply, now))
  {
    var l := s.loads[id];
    var f, t := l.at.feed, TL(s.view, l.at.feed);
    if !IsCurrent(s.view, l.at) {
      EndLoad(s, id, s.view);
    } else if reply.Failed? {
      EndLoad(s, id, Put(s.view, f, t.(error := true, loading := false)));
    } else {
      LoadedKeeps(s, id, reply.response, now);
    }
  }

  lemma LoadedKeeps(s: State, id: nat, r: Response, now: nat)
    requires Inv(s) && id in s.loads && IsCurrent(s.view, s.loads[id].at)
    ensures Inv(LoadReply(s, id, Page(r), now))
  {
    hide Start, Cached, Ids, PagesInv, GenInv, LoadInv, MoreInv, HandedInv;
    var l := s.loads[id];
    var f := l.at.feed;
    var paged := Paged(f, TL(s.view, f), Ids(r.statuses), r);
    var v2 := Put(s.view, f, paged.(loading := false));
    RelistKeeps(s, f, paged, l.token, now, None);
    var s1 := Relisted(s, f, paged, l.token, now);
    forall g ensures LoadRuns(s1, g, id) == (g == f) {}
    EndLoad(s1, id, v2);
    CacheFree(s1.(loads := s1.loads - {id}, view := v2), Cached(s.cache, r.statuses));
  }

  lemma EndLoad(s: State, id: nat, v': View)
    requires Inv(s) && id in s.loads && v'.gens == s.view.gens && v'.lifecycle == s.view.lifecycle
    requires forall g :: TL(v', g).loadingMore == TL(s.view, g).loadingMore
    requires forall g :: TL(v', g).loading == (TL(s.view, g).loading && !LoadRuns(s, g, id))
    ensures Inv(s.(loads := s.loads - {id}, view := v'))
  {
    var s' := s.(loads := s.loads - {id}, view := v');
    PagesInvView(s.view, v', s.pages);
    forall g ensures Gen(v', g) == Gen(s.view, g) {}
    forall g, i ensures LoadRuns(s', g, i) == (i != id && LoadRuns(s, g, i)) {}
    forall g, i ensures MoreRuns(s', g, i) == MoreRuns(s, g, i) {}
    forall g ensures !InHand(s', None, g) && !InHand(s, None, g) {}
    forall i <- s.mores ensures MoreOk(s', s.mores[i]) { assert MoreOk(s, s.mores[i]); }
    forall g ensures SomeLoad(s', g) == (SomeLoad(s, g) && !LoadRuns(s, g, id)) {
      if i :| LoadRuns(s, g, i) { assert i == id || LoadRuns(s', g, i); }
      if i :| LoadRuns(s', g, i) { assert LoadRuns(s, g, i); }
    }
  }

  lemma RemoveStatusKeeps(s: State, id: string)
    requires Inv(s)
    ensures Inv(RemoveStatus(s, id))
  {
    var removed := RemovedIds(s.cache, id);
    var affected := set f | f in s.view.timelines && Shrinks(s.view.timelines[f], removed);
    RefreshAffectedKeeps(s.view, s.pages, Affects(removed), affected);
    PagesStep(s, RefreshAffected(s.pages, Affects(removed), affected), None);
    ViewStep(s.(pages := RefreshAffected(s.pages, Affects(removed), affected)), RemoveStatus(s, id).view, None);
  }

  lemma ResetKeeps(s: State)
    requires Inv(s)
    ensures Inv(Reset(s))
  {
    var s' := Reset(s);
    LogGrows(s.log, ResetMark);
    forall f ensures Gen(s'.view, f) == LoadsSinceReset(s'.log, f) {}
    FewerSlots(s.view, s.pages, map[]);
    assert Evolves(s.pages, s'.pages) by {
      forall i | 0 <= i < |s.pages.entries| ensures EntryKept(s.pages, s'.pages, i) {}
    }
    HandedKept(s.pages, s'.pages, s.handed);
    forall i <- s.loads ensures CaptureOk(s'.log, s.loads[i].at) && !IsCurrent(s'.view, s.loads[i].at) {
      CaptureKept(s.log, ResetMark, s.loads[i].at);
      CurrentIffUndisturbed(s', s.loads[i].at);
      assert s'.log[|s.log|] == ResetMark;
    }
    forall i <- s.mores ensures MoreOk(s', s.mores[i]) && !IsCurrent(s'.view, s.mores[i].at) {
      assert MoreOk(s, s.mores[i]);
      CaptureKept(s.log, ResetMark, s.mores[i].at);
      CurrentIffUndisturbed(s', s.mores[i].at);
      assert s'.log[|s.log|] == ResetMark;
      AwaitsKept(s.pages, s'.pages, s.mores[i]);
    }
    forall f ensures !SomeLoad(s', f) && !SomeMore(s', f) && !InHand(s', None, f) {}
  }

  lemma PagesStepInv(s: State, p': Pages)
    requires Inv(s) && Keeps(s.view, s.pages, p')
    ensures Inv(s.(pages := p'))
  {
    PagesStep(s, p', None);
  }

  lemma InvParts(s: State)
    requires Inv(s)
    ensures PagesInv(s.view, s.pages) && forall id <- s.mores :: MoreOk(s, s.mores[id])
  {
  }

  lemma PutRead(v: View, f: Feed, t: Timeline)
    ensures forall g :: TL(Put(v, f, t), g) == if g == f then t else TL(v, g)
    ensures Put(v, f, t).gens == v.gens && Put(v, f, t).lifecycle == v.lifecycle
  {
  }

  lemma PrependKeeps(s: State, f: Feed, id: string)
    requires Inv(s)
    ensures Inv(PrependStatus(s, f, id))
  {
    hide PagesInv, GenInv, LoadInv, MoreInv, HandedInv, TL, Put;
    PutRead(s.view, f, TL(s.view, f).(newStatusIds := [id] + TL(s.view, f).newStatusIds));
    ViewStep(s, PrependStatus(s, f, id).view, None);
  }

  lemma ShowNewKeeps(s: State, f: Feed)
    requires Inv(s)
    ensures Inv(ShowNewStatuses(s, f))
  {
    hide PagesInv, GenInv, LoadInv, MoreInv, HandedInv, Without;
    ViewStep(s, ShowNewStatuses(s, f).view, None);
  }

  lemma ResumeMoreKeeps(s: State, id: nat, now: nat, stack: nat)
    requires Inv(s) && id in s.mores && Settled(s.pages, s.mores[id].awaited)
    ensures Inv(ResumeMore(s, id, now, stack))
  {
    hide Resumed;
    TakeOut(s, id);
    assert MoreOk(s, s.mores[id]);
    ResumedKeeps(s.(mores := s.mores - {id}), id, s.mores[id], now, stack);
  }

  lemma StepKeepsInv(s: State, ev: Event)
    requires Inv(s) && Enabled(s, ev)
    ensures Inv(Step(s, ev))
  {
    hide Inv, FetchTimeline, RefreshRecommended, LoadReply, FetchMore, ResumeMore, RunCallback, Microtask;
    hide RemoveStatus, PrependStatus, ShowNewStatuses, Reset, PagesInv, Keeps;
    InvParts(s);
    match ev
    case DoFetchTimeline(id, f, token) => FetchTimelineKeeps(s, id, f, token);
    case DoRefreshRecommended(id, token) => RefreshRecommendedKeeps(s, id, token);
    case DoLoadReply(id, reply, now) => LoadReplyKeeps(s, id, reply, now);
    case DoFetchMore(id, f, token, now, stack) => FetchMoreKeeps(s, id, f, token, now, stack);
    case DoResumeMore(id, now, stack) => ResumeMoreKeeps(s, id, now, stack);
    case DoSettle(e, outcome) =>
      SettleKeeps(s.view, s.pages, e, outcome);
      PagesStepInv(s, Settle(s.pages, e, outcome));
    case DoCallback(c) =>
      CallbackKeeps(s.view, s.pages, c);
      PagesStepInv(s, RunCallback(s.pages, c));
    case DoMicrotask(now) =>
      MicrotaskKeeps(s.view, s.pages, now);
      PagesStepInv(s, Microtask(s.view, s.pages, now));
    case DoRemoveStatus(id) => RemoveStatusKeeps(s, id);
    case DoPrepend(f, id) => PrependKeeps(s, f, id);
    case DoShowNew(f) => ShowNewKeeps(s, f);
    case DoSetCache(cache) => CacheFree(s, cache);
    case DoReset => ResetKeeps(s);
  }

  /** Emptying the recommended feed happens together with the load that supersedes its requests. */
  lemma RefreshRecommendedKeeps(s: State, id: nat, token: string)
    requires Inv(s) && id !in s.loads
    ensures Inv(RefreshRecommended(s, id, token))
  {
    hide PagesInv, GenInv, LoadInv, MoreInv, HandedInv;
    if !TL(s.view, Recommended).loading {
      FetchTimelineKeeps(s, id, Recommended, Some(token));
      ViewStep(FetchTimeline(s, id, Recommended, Some(token)), RefreshRecommended(s, id, token).view, None);
    }
  }

  lemma {:induction false} RunKeepsInv(s: State, evs: seq<Event>)
    requires Inv(s)
    ensures Inv(Run(s, evs))
    decreases |evs|
  {
    if evs != [] {
      var s' := if Enabled(s, evs[0]) then Step(s, evs[0]) else s;
      if Enabled(s, evs[0]) { StepKeepsInv(s, evs[0]); }
      RunKeepsInv(s', evs[1..]);
    }
  }

  // ---------------------------------------------------------------- what the store promises

  /**
   * In every run a continuation that passes `isCurrentRequest` has seen no reset and no newer
   * initial load of its feed since it captured its pair of counters, and one that has seen
   * neither passes.
   */
  lemma PassingMeansUndisturbed(evs: seq<Event>)
    ensures var s := Run(INITIAL, evs);
      && (forall id <- s.loads :: IsCurrent(s.view, s.loads[id].at) <==> Undisturbed(s.log, s.loads[id].at.feed, s.loads[id].at.since))
      && (forall id <- s.mores :: IsCurrent(s.view, s.mores[id].at) <==> Undisturbed(s.log, s.mores[id].at.feed, s.mores[id].at.since))
  {
    var s := Run(INITIAL, evs);
    InitialInv();
    RunKeepsInv(INITIAL, evs);
    forall id <- s.loads ensures IsCurrent(s.view, s.loads[id].at) <==> Undisturbed(s.log, s.loads[id].at.feed, s.loads[id].at.since) {
      CurrentIffUndisturbed(s, s.loads[id].at);
    }
    forall id <- s.mores ensures IsCurrent(s.view, s.mores[id].at) <==> Undisturbed(s.log, s.mores[id].at.feed, s.mores[id].at.since) {
      assert MoreOk(s, s.mores[id]);
      CurrentIffUndisturbed(s, s.mores[id].at);
    }
  }

  lemma InitialInv()
    ensures Inv(INITIAL)
  {
    forall f ensures !SomeLoad(INITIAL, f) && !SomeMore(INITIAL, f) && !InHand(INITIAL, None, f) {}
  }

  /** The two flags are set exactly while a request of the current generation is outstanding, and there is only one. */
  lemma FlagsMeanOutstanding(evs: seq<Event>, f: Feed)
    ensures var s := Run(INITIAL, evs);
      && (TL(s.view, f).loading <==> exists id :: LoadRuns(s, f, id))
      && (TL(s.view, f).loadingMore <==> exists id :: MoreRuns(s, f, id))
      && (forall id, id' :: LoadRuns(s, f, id) && LoadRuns(s, f, id') ==> id == id')
      && (forall id, id' :: MoreRuns(s, f, id) && MoreRuns(s, f, id') ==> id == id')
  {
    InitialInv();
    RunKeepsInv(INITIAL, evs);
    var s := Run(INITIAL, evs);
    assert TL(s.view, f).loading == SomeLoad(s, f) && TL(s.view, f).loadingMore == SomeMore(s, f) by {
      assert !InHand(s, None, f);
    }
  }

  /** No more than 24 pages are held, each for its own feed and for that feed's current requests. */
  lemma HeldPagesAreBoundedAndCurrent(evs: seq<Event>)
    ensures var s := Run(INITIAL, evs);
      |s.pages.slots| <= 24 && forall f <- s.pages.slots :: SlotOk(s.view, s.pages, f)
  {
    InitialInv();
    RunKeepsInv(INITIAL, evs);
  }

  /** Every page infinite scroll appended was fresh, and no prefetched page was appended twice. */
  lemma AppendedPagesAreFresh(evs: seq<Event>)
    ensures var s := Run(INITIAL, evs);
      && (forall d <- s.handed :: Fresh(s.pages, d))
      && (forall i, j :: 0 <= i < j < |s.handed| ==> s.handed[i].entry != s.handed[j].entry)
  {
    InitialInv();
    RunKeepsInv(INITIAL, evs);
  }

  // ---------------------------------------------------------------- removed statuses stay away

  lemma RemovedFromLists(s: State, id: string, f: Feed)
    ensures var t := TL(RemoveStatus(s, id).view, f);
      forall gone <- RemovedIds(s.cache, id) :: gone !in t.statusIds && gone !in t.newStatusIds
  {
  }

  /** History is only added to, and what is appended from now on knows every predicate registered so far. */
  ghost predicate Grows(s: State, s': State) {
    && s.pages.registered <= s'.pages.registered && s.pages.issuedAt <= s'.pages.issuedAt
    && s.handed <= s'.handed
    && forall k :: |s.handed| <= k < |s'.handed| ==> s'.handed[k].at >= |s.pages.registered|
  }

  lemma ConsumedGrows(s: State, p: Pages, id: nat, m: More, retry: Option<bool>, now: nat, stack: nat)
    requires PagesInv(s.view, s.pages) && Keeps(s.view, s.pages, p)
    ensures Grows(s, Consumed(s.(pages := p), id, m, retry, now, stack))
  {
    ConsumeKeeps(s.view, p, m, retry, now, stack);
  }

  lemma AppendGrows(s: State, m: More, r: Response, now: nat)
    requires PagesInv(s.view, s.pages)
    ensures Grows(s, Append(HandOver(s, m), m, r, now))
  {
    var f, t, v := m.at.feed, TL(s.view, m.at.feed), s.view;
    var paged := Put(v, f, Paged(f, t, t.statusIds + Ids(r.statuses), r));
    RemoveKeeps(v, s.pages, f);
    PagesInvView(v, paged, Remove(s.pages, f));
    StartKeeps(paged, Remove(s.pages, f), f, m.token, false, now);
  }

  lemma ResumedGrows(s: State, id: nat, m: More, now: nat, stack: nat)
    requires PagesInv(s.view, s.pages) && Settled(s.pages, m.awaited)
    ensures Grows(s, Resumed(s, id, m, now, stack))
  {
    var f, e := m.at.feed, s.pages.entries[m.awaited];
    FewerSlots(s.view, s.pages, s.pages.slots);
    if !Holds(s.pages, f, m.awaited) {
      ConsumedGrows(s, s.pages, id, m, Some(m.retry), now, stack);
    } else if !IsCurrent(s.view, m.at) {
    } else if e.outcome.value.Failed? {
      ReplacedKeeps(s.view, s.pages, m, now);
      ConsumedGrows(s, Replaced(s.view, s.pages, m, now), id, m, Some(false), now, stack);
    } else if e.refreshAfterSettle || NeedsRefresh(e) {
      StartKeeps(s.view, s.pages, f, e.token, true, now);
      ConsumedGrows(s, Restart(s.view, s.pages, f, m.awaited, now), id, m, Some(m.retry), now, stack);
    } else {
      AppendGrows(s, m, e.outcome.value.response, now);
    }
  }

  lemma FetchMoreGrows(s: State, id: nat, f: Feed, token: Option<string>, now: nat, stack: nat)
    requires PagesInv(s.view, s.pages)
    ensures Grows(s, FetchMore(s, id, f, token, now, stack))
  {
    var t := TL(s.view, f);
    var cursor := NextCursor(f, t);
    if !t.loadingMore && cursor.Some? {
      var s' := s.(view := Put(s.view, f, t.(loadingMore := true, error := false)));
      PagesInvView(s.view, s'.view, s.pages);
      FewerSlots(s'.view, s.pages, s.pages.slots);
      ConsumedGrows(s', s.pages, id, More(Capture(f, Gen(s.view, f), s.view.lifecycle, |s.log|), token, cursor.value, false, 0),
                    None, now, stack);
    }
  }

  lemma LoadReplyGrows(s: State, id: nat, reply: Outcome, now: nat)
    requires PagesInv(s.view, s.pages) && id in s.loads
    ensures Grows(s, LoadReply(s, id, reply, now))
  {
    if reply.Page? && IsCurrent(s.view, s.loads[id].at) {
      var l, r := s.loads[id], reply.response;
      var v' := Put(s.view, l.at.feed, Paged(l.at.feed, TL(s.view, l.at.feed), Ids(r.statuses), r));
      PagesInvView(s.view, v', s.pages);
      StartKeeps(v', s.pages, l.at.feed, l.token, false, now);
    }
  }

  lemma StepGrows(s: State, ev: Event)
    requires Inv(s) && Enabled(s, ev)
    ensures Grows(s, Step(s, ev))
  {
    hide LoadReply, FetchMore, Resumed, Microtask, RemoveStatus, GenInv, LoadInv, MoreInv, HandedInv;
    match ev
    case DoLoadReply(id, reply, now) => LoadReplyGrows(s, id, reply, now);
    case DoFetchMore(id, f, token, now, stack) => FetchMoreGrows(s, id, f, token, now, stack);
    case DoResumeMore(id, now, stack) =>
      ResumedGrows(s.(mores := s.mores - {id}), id, s.mores[id], now, stack);
    case DoMicrotask(now) => MicrotaskKeeps(s.view, s.pages, now);
    case DoRemoveStatus(id) => RemoveStatusGrows(s, id);
    case _ => PlainStepGrows(s, ev);
  }

  lemma PlainStepGrows(s: State, ev: Event)
    requires Enabled(s, ev) && !ev.DoLoadReply? && !ev.DoFetchMore? && !ev.DoResumeMore?
    requires !ev.DoMicrotask? && !ev.DoRemoveStatus?
    ensures Grows(s, Step(s, ev))
  {
  }

  /** The removal's predicate is the next one registered. */
  lemma RemoveStatusGrows(s: State, id: string)
    requires Inv(s)
    ensures Grows(s, RemoveStatus(s, id))
    ensures RemoveStatus(s, id).pages.registered == s.pages.registered + [Affects(RemovedIds(s.cache, id))]
  {
    var removed := RemovedIds(s.cache, id);
    RefreshAffectedKeeps(s.view, s.pages, Affects(removed), set f | f in s.view.timelines && Shrinks(s.view.timelines[f], removed));
  }

  lemma {:induction false} RunGrows(s: State, evs: seq<Event>)
    requires Inv(s)
    ensures Grows(s, Run(s, evs)) && Inv(Run(s, evs))
    decreases |evs|
  {
    if evs != [] && Enabled(s, evs[0]) {
      StepKeepsInv(s, evs[0]);
      StepGrows(s, evs[0]);
      RunGrows(Step(s, evs[0]), evs[1..]);
    } else if evs != [] {
      RunGrows(s, evs[1..]);
    }
  }

  /**
   * In every run, a page that was requested before a status was removed, and is appended
   * after it, contains neither the status nor a cached reblog of it.
   */
  lemma LateAppendsOmitRemoved(before: seq<Event>, id: string, after: seq<Event>, k: nat)
    requires var s := Run(INITIAL, before);
      && |s.handed| <= k < |Run(RemoveStatus(s, id), after).handed|
      && Run(RemoveStatus(s, id), after).handed[k].entry < |s.pages.entries|
    ensures var s, s' := Run(INITIAL, before), Run(RemoveStatus(Run(INITIAL, before), id), after);
      var d := s'.handed[k];
      && d.entry < |s'.pages.entries|
      && var e := s'.pages.entries[d.entry];
      && e.outcome.Some? && e.outcome.value.Page?
      && forall st <- e.outcome.value.response.statuses ::
        st.id !in RemovedIds(s.cache, id) && (st.reblog.Some? ==> st.reblog.value !in RemovedIds(s.cache, id))
  {
    hide Run, GenInv, LoadInv, MoreInv, RefreshAffected;
    var s := Run(INITIAL, before);
    InitialInv();
    RunGrows(INITIAL, before);
    RemoveStatusGrows(s, id);
    RemoveStatusKeeps(s, id);
    var s1 := RemoveStatus(s, id);
    var s' := Run(s1, after);
    RunGrows(s1, after);
    var d, j := s'.handed[k], |s.pages.registered|;
    assert s'.handed[k] in s'.handed && Fresh(s'.pages, d);
    var i := s'.pages.issuedAt[d.entry];
    assert i == s.pages.issuedAt[d.entry] <= j < d.at;
    assert s'.pages.registered[j] == Affects(RemovedIds(s.cache, id));
    var known := s'.pages.registered[i..d.at];
    assert known[j - i] == s'.pages.registered[j];
  }

  /** A feed shows a status, or holds it back as new. */
  ghost predicate Shows(v: View, f: Feed, id: string) {
    id in TL(v, f).statusIds || id in TL(v, f).newStatusIds
  }

  ghost predicate Contains(statuses: seq<Status>, id: string) {
    exists st :: st in statuses && st.id == id
  }

  /** The event brings the status into the feed: in an initial load's reply, as a live post, or in an appended page. */
  ghost predicate Brings(s: State, ev: Event, f: Feed, id: string)
    requires Enabled(s, ev)
  {
    || (ev.DoLoadReply? && s.loads[ev.id].at.feed == f && ev.reply.Page? && Contains(ev.reply.response.statuses, id))
    || (ev.DoPrepend? && ev.feed == f && ev.status == id)
    || (ev.DoResumeMore?
        && var m := s.mores[ev.id];
        && m.at.feed == f && Step(s, ev).handed == s.handed + [Delivered(s, m)]
        && s.pages.entries[m.awaited].outcome.value.Page?
        && Contains(s.pages.entries[m.awaited].outcome.value.response.statuses, id))
  }

  lemma EndingShowsTheSame(v: View, c: Capture, f: Feed, st: string)
    ensures Shows(EndMore(v, c), f, st) <==> Shows(v, f, st)
    ensures Shows(FailMore(v, c), f, st) <==> Shows(v, f, st)
  {
  }

  lemma ConsumedShowsNoMore(s: State, id: nat, m: More, retry: Option<bool>, now: nat, stack: nat, f: Feed, st: string)
    requires Shows(Consumed(s, id, m, retry, now, stack).view, f, st)
    ensures Shows(s.view, f, st)
  {
    EndingShowsTheSame(s.view, m.at, f, st);
    hide Consume, EndMore, FailMore, Shows;
  }

  lemma ShownIds(statuses: seq<Status>, id: string)
    ensures id in Ids(statuses) <==> Contains(statuses, id)
  {
    if Contains(statuses, id) {
      var st :| st in statuses && st.id == id;
      var k :| 0 <= k < |statuses| && statuses[k] == st;
      assert Ids(statuses)[k] == id;
    }
  }

  lemma AppendShows(s: State, m: More, r: Response, now: nat, f: Feed, id: string)
    requires Shows(Append(s, m, r, now).view, f, id) && !Shows(s.view, f, id)
    ensures m.at.feed == f && Contains(r.statuses, id)
  {
    hide Start, EndMore, Cached;
    var t := TL(s.view, m.at.feed);
    EndingShowsTheSame(Put(s.view, m.at.feed, Paged(m.at.feed, t, t.statusIds + Ids(r.statuses), r)), m.at, f, id);
    ShownIds(r.statuses, id);
  }

  lemma ResumeShows(s: State, ev: Event, f: Feed, id: string)
    requires Enabled(s, ev) && ev.DoResumeMore?
    requires !Shows(s.view, f, id) && Shows(Step(s, ev).view, f, id)
    ensures Brings(s, ev, f, id)
  {
    var m, s0 := s.mores[ev.id], s.(mores := s.mores - {ev.id});
    var e := s.pages.entries[m.awaited];
    assert Step(s, ev) == Resumed(s0, ev.id, m, ev.now, ev.stack);
    hide Consumed, Start, Replaced, Restart, Append, Shows, Step, EndMore, FailMore;
    EndingShowsTheSame(s.view, m.at, f, id);
    if !Holds(s.pages, m.at.feed, m.awaited) {
      ConsumedShowsNoMore(s0, ev.id, m, Some(m.retry), ev.now, ev.stack, f, id);
    } else if IsCurrent(s.view, m.at) {
      if e.outcome.value.Failed? && m.retry {
        ConsumedShowsNoMore(s0.(pages := Replaced(s.view, s.pages, m, ev.now)), ev.id, m, Some(false), ev.now, ev.stack, f, id);
      } else if !e.outcome.value.Failed? && (e.refreshAfterSettle || NeedsRefresh(e)) {
        ConsumedShowsNoMore(s0.(pages := Restart(s.view, s.pages, m.at.feed, m.awaited, ev.now)), ev.id, m, Some(m.retry), ev.now, ev.stack, f, id);
      } else if !e.outcome.value.Failed? {
        AppendShows(HandOver(s0, m), m, e.outcome.value.response, ev.now, f, id);
        AppendHands(HandOver(s0, m), m, e.outcome.value.response, ev.now);
      }
    }
  }

  lemma AppendHands(s: State, m: More, r: Response, now: nat)
    ensures Append(s, m, r, now).handed == s.handed
  {
    hide Start, EndMore, Cached;
  }

  lemma SameListsShowTheSame(v: View, g: Feed, t: Timeline, f: Feed, st: string)
    requires t.statusIds == TL(v, g).statusIds && t.newStatusIds == TL(v, g).newStatusIds
    ensures Shows(Put(v, g, t), f, st) <==> Shows(v, f, st)
  {
  }

  lemma FetchMoreShows(s: State, id: nat, g: Feed, token: Option<string>, now: nat, stack: nat, f: Feed, st: string)
    requires Shows(FetchMore(s, id, g, token, now, stack).view, f, st)
    ensures Shows(s.view, f, st)
  {
    hide Consumed, NextCursor, Shows, Put, TL;
    var t := TL(s.view, g);
    SameListsShowTheSame(s.view, g, t.(hasMore := false), f, st);
    SameListsShowTheSame(s.view, g, t.(loadingMore := true, error := false), f, st);
    if !t.loadingMore && t.hasMore && NextCursor(g, t).Some? {
      ConsumedShowsNoMore(
        s.(view := Put(s.view, g, t.(loadingMore := true, error := false))), id,
        More(Capture(g, Gen(s.view, g), s.view.lifecycle, |s.log|), token, NextCursor(g, t).value, false, 0),
        None, now, stack, f, st);
    }
  }

  lemma LocalEventShows(s: State, ev: Event, f: Feed, id: string)
    requires Enabled(s, ev) && (ev.DoRemoveStatus? || ev.DoPrepend? || ev.DoShowNew? || ev.DoReset?)
    requires !Shows(s.view, f, id) && Shows(Step(s, ev).view, f, id)
    ensures ev.DoPrepend? && ev.feed == f && ev.status == id
  {
    hide RefreshAffected;
  }

  /** No other event makes a feed show a status it did not. */
  lemma OnlyBringsShow(s: State, ev: Event, f: Feed, id: string)
    requires Enabled(s, ev) && !Shows(s.view, f, id) && Shows(Step(s, ev).view, f, id)
    ensures Brings(s, ev, f, id)
  {
    hide FetchMore, Start, Microtask, RemoveStatus, RunCallback, Settle, Resumed, Cached, Ids, ShowNewStatuses;
    match ev
    case DoResumeMore(_, _, _) => ResumeShows(s, ev, f, id);
    case DoLoadReply(_, reply, _) => if reply.Page? { ShownIds(reply.response.statuses, id); }
    case DoFetchMore(i, g, token, now, stack) => FetchMoreShows(s, i, g, token, now, stack, f, id);
    case _ =>
      if ev.DoRemoveStatus? || ev.DoPrepend? || ev.DoShowNew? || ev.DoReset? { LocalEventShows(s, ev, f, id); }
  }

  lemma {:induction false} RunOneMore(s: State, evs: seq<Event>, k: nat)
    requires k < |evs| && Enabled(Run(s, evs[..k]), evs[k])
    ensures Run(s, evs[..k + 1]) == Step(Run(s, evs[..k]), evs[k])
    decreases k
  {
    var next := if Enabled(s, evs[0]) then Step(s, evs[0]) else s;
    if k == 0 {
      assert evs[..1] == [evs[0]] && evs[..0] == [];
      assert Run(s, evs[..1]) == Run(next, []);
    } else {
      assert evs[..k][0] == evs[0] && evs[..k][1..] == evs[1..][..k - 1];
      assert evs[..k + 1][0] == evs[0] && evs[..k + 1][1..] == evs[1..][..k];
      RunOneMore(next, evs[1..], k - 1);
    }
  }

  /** A status shown after a run but not before it was brought in at some step. */
  lemma {:induction false} ShownWasBrought(s: State, evs: seq<Event>, f: Feed, id: string) returns (k: nat)
    requires !Shows(s.view, f, id) && Shows(Run(s, evs).view, f, id)
    ensures k < |evs| && Enabled(Run(s, evs[..k]), evs[k]) && Brings(Run(s, evs[..k]), evs[k], f, id)
    decreases |evs|
  {
    hide Step, Shows, Brings;
    var ev := evs[0];
    if Enabled(s, ev) && Shows(Step(s, ev).view, f, id) {
      OnlyBringsShow(s, ev, f, id);
      k := 0;
      assert evs[..0] == [];
    } else {
      var next := if Enabled(s, ev) then Step(s, ev) else s;
      var j := ShownWasBrought(next, evs[1..], f, id);
      k := j + 1;
      assert evs[..k][0] == ev && evs[..k][1..] == evs[1..][..j];
    }
  }

  /**
   * In every run, a removed status or cached reblog of it is gone from every feed, and a feed shows it again only
   * when an initial load's reply holds it, when it arrives as a live post, or when an appended page that was
   * requested after the removal holds it.
   */
  lemma RemovedReturnsOnlyAnew(before: seq<Event>, id: string, after: seq<Event>, f: Feed, gone: string) returns (k: nat)
    requires gone in RemovedIds(Run(INITIAL, before).cache, id)
    requires Shows(Run(RemoveStatus(Run(INITIAL, before), id), after).view, f, gone)
    ensures k < |after|
    ensures var s := Run(INITIAL, before);
      var t := Run(RemoveStatus(s, id), after[..k]);
      && Enabled(t, after[k]) && Brings(t, after[k], f, gone)
      && (after[k].DoResumeMore? ==> t.mores[after[k].id].awaited >= |s.pages.entries|)
  {
    hide Run, Step, RefreshAffected;
    var s := Run(INITIAL, before);
    var s1 := RemoveStatus(s, id);
    RemovedFromLists(s, id, f);
    k := ShownWasBrought(s1, after, f, gone);
    var t := Run(s1, after[..k]);
    if after[k].DoResumeMore? && t.mores[after[k].id].awaited < |s.pages.entries| {
      EarlierPageOmits(before, id, after, gone, k);
    }
  }

  /** A page requested before the removal and appended after it holds no removed status. */
  lemma EarlierPageOmits(before: seq<Event>, id: string, after: seq<Event>, gone: string, k: nat)
    requires gone in RemovedIds(Run(INITIAL, before).cache, id) && k < |after| && after[k].DoResumeMore?
    requires var s := Run(INITIAL, before);
      var t := Run(RemoveStatus(s, id), after[..k]);
      && Enabled(t, after[k])
      && var m := t.mores[after[k].id];
      && m.awaited < |s.pages.entries| && t.pages.entries[m.awaited].outcome.value.Page?
      && Step(t, after[k]).handed == t.handed + [Delivered(t, m)]
    ensures var t := Run(RemoveStatus(Run(INITIAL, before), id), after[..k]);
      !Contains(t.pages.entries[t.mores[after[k].id].awaited].outcome.value.response.statuses, gone)
  {
    hide Run, Step, GenInv, LoadInv, MoreInv, RefreshAffected;
    var s := Run(INITIAL, before);
    var s1 := RemoveStatus(s, id);
    var t := Run(s1, after[..k]);
    var m := t.mores[after[k].id];
    InitialInv();
    RunGrows(INITIAL, before);
    RemoveStatusKeeps(s, id);
    RunGrows(s1, after[..k]);
    RunOneMore(s1, after, k);
    assert Run(s1, after[..k + 1]).handed[|t.handed|] == Delivered(t, m);
    LateAppendsOmitRemoved(before, id, after[..k + 1], |t.handed|);
    ResumeKeepsOutcome(t, after[k]);
  }

  lemma ConsumedEvolves(s: State, p: Pages, id: nat, m: More, retry: Option<bool>, now: nat, stack: nat)
    requires PagesInv(s.view, s.pages) && Keeps(s.view, s.pages, p)
    ensures Evolves(s.pages, Consumed(s.(pages := p), id, m, retry, now, stack).pages)
  {
    ConsumeKeeps(s.view, p, m, retry, now, stack);
    KeepsTransitive(s.view, s.pages, p, Consume(s.view, p, m, retry, now, stack).0);
    hide Consume, Evolves, PagesInv;
  }

  lemma AppendEvolves(s: State, m: More, r: Response, now: nat)
    requires PagesInv(s.view, s.pages)
    ensures Evolves(s.pages, Append(HandOver(s, m), m, r, now).pages)
  {
    var f, t, v := m.at.feed, TL(s.view, m.at.feed), s.view;
    var paged := Put(v, f, Paged(f, t, t.statusIds + Ids(r.statuses), r));
    RemoveKeeps(v, s.pages, f);
    PagesInvView(v, paged, Remove(s.pages, f));
    StartKeeps(paged, Remove(s.pages, f), f, m.token, false, now);
    PagesInvView(v, paged, s.pages);
    hide Start;
    KeepsTransitive(paged, s.pages, Remove(s.pages, f), Start(paged, Remove(s.pages, f), f, m.token, false, now));
  }

  lemma ResumedEvolves(s: State, id: nat, m: More, now: nat, stack: nat)
    requires PagesInv(s.view, s.pages) && Settled(s.pages, m.awaited)
    ensures Evolves(s.pages, Resumed(s, id, m, now, stack).pages)
  {
    hide Evolves, Consumed, Append, Start;
    var f, e := m.at.feed, s.pages.entries[m.awaited];
    RemoveKeeps(s.view, s.pages, f);
    FewerSlots(s.view, s.pages, s.pages.slots);
    if !Holds(s.pages, f, m.awaited) {
      ConsumedEvolves(s, s.pages, id, m, Some(m.retry), now, stack);
    } else if !IsCurrent(s.view, m.at) {
    } else if e.outcome.value.Failed? {
      ReplacedKeeps(s.view, s.pages, m, now);
      ConsumedEvolves(s, Replaced(s.view, s.pages, m, now), id, m, Some(false), now, stack);
    } else if e.refreshAfterSettle || NeedsRefresh(e) {
      StartKeeps(s.view, s.pages, f, e.token, true, now);
      ConsumedEvolves(s, Restart(s.view, s.pages, f, m.awaited, now), id, m, Some(m.retry), now, stack);
    } else {
      AppendEvolves(s, m, e.outcome.value.response, now);
    }
  }

  /** Resuming leaves the outcome of the awaited page alone. */
  lemma ResumeKeepsOutcome(s: State, ev: Event)
    requires Inv(s) && Enabled(s, ev) && ev.DoResumeMore?
    ensures var m, s' := s.mores[ev.id], Step(s, ev);
      m.awaited < |s'.pages.entries| && s'.pages.entries[m.awaited].outcome == s.pages.entries[m.awaited].outcome
  {
    hide Resumed;
    ResumedEvolves(s.(mores := s.mores - {ev.id}), ev.id, s.mores[ev.id], ev.now, ev.stack);
    assert EntryKept(s.pages, Step(s, ev).pages, s.mores[ev.id].awaited);
  }

  // ---------------------------------------------------------------- the captured cursor

  /** `fetchMore` is never called for a feed whose initial load is outstanding. */
  ghost predicate Disciplined(s: State, evs: seq<Event>)
    decreases |evs|
  {
    evs == [] ||
    (&& (Enabled(s, evs[0]) && evs[0].DoFetchMore? ==> !TL(s.view, evs[0].feed).loading)
     && Disciplined(if Enabled(s, evs[0]) then Step(s, evs[0]) else s, evs[1..]))
  }

  ghost predicate CursorHeld(v: View, m: More) {
    IsCurrent(v, m.at) ==>
      !TL(v, m.at.feed).loading && NextCursor(m.at.feed, TL(v, m.at.feed)) == Some(m.cursor)
  }

  /** Every outstanding scroll request of the current generation has its feed's present cursor. */
  ghost predicate CursorInv(s: State) {
    forall id <- s.mores :: CursorHeld(s.view, s.mores[id])
  }

  lemma SameCursorsHeld(s: State, s': State)
    requires CursorInv(s) && s'.mores == s.mores && s'.view.gens == s.view.gens && s'.view.lifecycle == s.view.lifecycle
    requires forall g :: TL(s'.view, g).loading == TL(s.view, g).loading && NextCursor(g, TL(s'.view, g)) == NextCursor(g, TL(s.view, g))
    ensures CursorInv(s')
  {
    forall id <- s'.mores ensures CursorHeld(s'.view, s'.mores[id]) {
      assert CursorHeld(s.view, s.mores[id]);
      assert Gen(s'.view, s.mores[id].at.feed) == Gen(s.view, s.mores[id].at.feed);
    }
  }

  lemma NoOtherScroll(s: State, c: Capture)
    requires MoreInv(s, Some(c)) && IsCurrent(s.view, c)
    ensures forall id <- s.mores :: IsCurrent(s.view, s.mores[id].at) ==> s.mores[id].at.feed != c.feed
  {
    forall id <- s.mores | IsCurrent(s.view, s.mores[id].at) ensures s.mores[id].at.feed != c.feed {
      assert MoreRuns(s, s.mores[id].at.feed, id) && InHand(s, Some(c), c.feed);
    }
  }

  /** Only the timeline of `f` differs. */
  ghost predicate OnlyFeed(v: View, v': View, f: Feed) {
    v'.gens == v.gens && v'.lifecycle == v.lifecycle && forall g | g != f :: TL(v', g) == TL(v, g)
  }

  lemma EndingTouchesItsFeed(v: View, c: Capture)
    ensures OnlyFeed(v, EndMore(v, c), c.feed) && OnlyFeed(v, FailMore(v, c), c.feed)
    ensures !IsCurrent(v, c) ==> EndMore(v, c) == v && FailMore(v, c) == v
  {
  }

  /** A scroll request of the current generation ends. */
  lemma EndedKeepsCursors(s: State, s': State, c: Capture)
    requires InvWith(s, Some(c)) && CursorInv(s) && IsCurrent(s.view, c)
    requires s'.mores == s.mores && OnlyFeed(s.view, s'.view, c.feed)
    ensures CursorInv(s')
  {
    NoOtherScroll(s, c);
    forall id <- s.mores ensures IsCurrent(s'.view, s.mores[id].at) == IsCurrent(s.view, s.mores[id].at) {}
  }

  lemma SameViewKeepsCursors(s: State, s': State)
    requires CursorInv(s) && s'.mores == s.mores && s'.view == s.view
    ensures CursorInv(s')
  {
    forall id <- s'.mores ensures CursorHeld(s'.view, s'.mores[id]) {
      assert CursorHeld(s.view, s.mores[id]);
    }
  }

  lemma ConsumedKeepsCursors(s: State, id: nat, m: More, retry: Option<bool>, now: nat, stack: nat)
    requires InvWith(s, Some(m.at)) && CursorInv(s) && CursorHeld(s.view, m) && id !in s.mores
    ensures CursorInv(Consumed(s, id, m, retry, now, stack))
  {
    hide Consume, PagesInv, GenInv, LoadInv, MoreInv, HandedInv, EndMore, FailMore;
    var s' := Consumed(s, id, m, retry, now, stack);
    EndingTouchesItsFeed(s.view, m.at);
    var sync := Consume(s.view, s.pages, m, retry, now, stack).1;
    if sync.Await? {
      forall i <- s'.mores ensures CursorHeld(s'.view, s'.mores[i]) {
        if i != id { assert CursorHeld(s.view, s.mores[i]); }
      }
    } else if IsCurrent(s.view, m.at) {
      EndedKeepsCursors(s, s', m.at);
    } else {
      SameViewKeepsCursors(s, s');
    }
  }

  lemma ReconsumedKeepsCursors(s: State, p: Pages, id: nat, m: More, retry: bool, now: nat, stack: nat)
    requires InvWith(s, Some(m.at)) && CursorInv(s) && CursorHeld(s.view, m) && id !in s.mores
    requires Keeps(s.view, s.pages, p)
    ensures CursorInv(Consumed(s.(pages := p), id, m, Some(retry), now, stack))
  {
    PagesStep(s, p, Some(m.at));
    SameViewKeepsCursors(s, s.(pages := p));
    ConsumedKeepsCursors(s.(pages := p), id, m, Some(retry), now, stack);
  }

  lemma AppendTouchesItsFeed(s: State, m: More, r: Response, now: nat)
    ensures OnlyFeed(s.view, Append(s, m, r, now).view, m.at.feed) && Append(s, m, r, now).mores == s.mores
  {
  }

  lemma ResumedKeepsCursors(s: State, id: nat, m: More, now: nat, stack: nat)
    requires InvWith(s, Some(m.at)) && CursorInv(s) && CursorHeld(s.view, m) && id !in s.mores
    requires Settled(s.pages, m.awaited)
    ensures CursorInv(Resumed(s, id, m, now, stack))
  {
    var f, e, s' := m.at.feed, s.pages.entries[m.awaited], Resumed(s, id, m, now, stack);
    EndingTouchesItsFeed(s.view, m.at);
    if !Holds(s.pages, f, m.awaited) {
      ConsumedKeepsCursors(s, id, m, Some(m.retry), now, stack);
    } else if !IsCurrent(s.view, m.at) {
      SameViewKeepsCursors(s, s');
    } else if e.outcome.value.Failed? && m.retry {
      ReplacedKeeps(s.view, s.pages, m, now);
      ReconsumedKeepsCursors(s, Replaced(s.view, s.pages, m, now), id, m, false, now, stack);
    } else if e.outcome.value.Failed? {
      EndedKeepsCursors(s, s', m.at);
    } else if e.refreshAfterSettle || NeedsRefresh(e) {
      StartKeeps(s.view, s.pages, f, e.token, true, now);
      ReconsumedKeepsCursors(s, Restart(s.view, s.pages, f, m.awaited, now), id, m, m.retry, now, stack);
    } else {
      AppendTouchesItsFeed(HandOver(s, m), m, e.outcome.value.response, now);
      EndedKeepsCursors(s, s', m.at);
    }
  }

  lemma FetchMoreKeepsCursors(s: State, id: nat, f: Feed, token: Option<string>, now: nat, stack: nat)
    requires Inv(s) && CursorInv(s) && id !in s.mores && !TL(s.view, f).loading
    ensures CursorInv(FetchMore(s, id, f, token, now, stack))
  {
    hide Consumed, PagesInv, GenInv, LoadInv, MoreInv, HandedInv;
    var t := TL(s.view, f);
    var cursor := NextCursor(f, t);
    if t.loadingMore || !t.hasMore {
    } else {
      var c := Capture(f, Gen(s.view, f), s.view.lifecycle, |s.log|);
      var v' := Put(s.view, f, t.(loadingMore := true, error := false));
      TakeUp(s, v', c);
      SameCursorsHeld(s, s.(view := v'));
      if cursor.None? {
        EndedKeepsCursors(s.(view := v'), FetchMore(s, id, f, token, now, stack), c);
      } else {
        ConsumedKeepsCursors(s.(view := v'), id, More(c, token, cursor.value, false, 0), None, now, stack);
      }
    }
  }

  lemma FetchTimelineKeepsCursors(s: State, s': State, id: nat, f: Feed, token: Option<string>)
    requires Inv(s) && CursorInv(s) && id !in s.loads && !TL(s.view, f).loading
    requires GenInv(s'.view, s'.log) && s'.log == s.log + [LoadMark(f)] && s'.mores == s.mores
    requires forall g | g != f :: TL(s'.view, g) == TL(s.view, g) && Gen(s'.view, g) == Gen(s.view, g)
    requires s'.view.lifecycle == s.view.lifecycle
    ensures CursorInv(s')
  {
    forall i <- s.mores ensures s.mores[i].at.feed == f ==> !IsCurrent(s'.view, s.mores[i].at) {
      assert MoreOk(s, s.mores[i]);
      Superseded(s, s', f, s.mores[i].at);
    }
  }

  lemma LoadReplyKeepsCursors(s: State, id: nat, reply: Outcome, now: nat)
    requires Inv(s) && CursorInv(s) && id in s.loads
    ensures CursorInv(LoadReply(s, id, reply, now))
  {
    var c := s.loads[id].at;
    if IsCurrent(s.view, c) {
      assert LoadRuns(s, c.feed, id) && SomeLoad(s, c.feed);
      forall i <- s.mores | IsCurrent(s.view, s.mores[i].at) ensures s.mores[i].at.feed != c.feed {
        assert CursorHeld(s.view, s.mores[i]);
      }
    }
  }

  lemma StepKeepsCursors(s: State, ev: Event)
    requires Inv(s) && CursorInv(s) && Enabled(s, ev)
    requires ev.DoFetchMore? ==> !TL(s.view, ev.feed).loading
    ensures CursorInv(Step(s, ev))
  {
    match ev
    case DoFetchTimeline(id, f, token) => StartedLoadKeepsCursors(s, id, f, token);
    case DoRefreshRecommended(id, token) => RefreshedKeepsCursors(s, id, token);
    case DoLoadReply(id, reply, now) => LoadReplyKeepsCursors(s, id, reply, now);
    case DoFetchMore(id, f, token, now, stack) => FetchMoreKeepsCursors(s, id, f, token, now, stack);
    case DoResumeMore(id, now, stack) =>
      TakeOut(s, id);
      assert CursorHeld(s.view, s.mores[id]);
      ResumedKeepsCursors(s.(mores := s.mores - {id}), id, s.mores[id], now, stack);
    case DoReset => ResetKeepsCursors(s);
    case _ => QuietStepKeepsCursors(s, ev);
  }

  lemma StartedLoadKeepsCursors(s: State, id: nat, f: Feed, token: Option<string>)
    requires Inv(s) && CursorInv(s) && id !in s.loads
    ensures CursorInv(FetchTimeline(s, id, f, token))
  {
    hide PagesInv, LoadInv, MoreInv, HandedInv;
    FetchTimelineKeeps(s, id, f, token);
    if !TL(s.view, f).loading { FetchTimelineKeepsCursors(s, FetchTimeline(s, id, f, token), id, f, token); }
  }

  lemma RefreshedKeepsCursors(s: State, id: nat, token: string)
    requires Inv(s) && CursorInv(s) && id !in s.loads
    ensures CursorInv(RefreshRecommended(s, id, token))
  {
    RefreshRecommendedKeeps(s, id, token);
    hide MoreInv, HandedInv, LoadInv;
    if !TL(s.view, Recommended).loading {
      FetchTimelineKeepsCursors(s, RefreshRecommended(s, id, token), id, Recommended, Some(token));
    }
  }

  lemma QuietStepKeepsCursors(s: State, ev: Event)
    requires CursorInv(s) && Enabled(s, ev)
    requires ev.DoSettle? || ev.DoCallback? || ev.DoMicrotask? || ev.DoSetCache?
      || ev.DoPrepend? || ev.DoShowNew? || ev.DoRemoveStatus?
    ensures CursorInv(Step(s, ev))
  {
    hide Without, RefreshAffected, Microtask, RunCallback, Shrinks;
    var s' := Step(s, ev);
    assert s'.mores == s.mores && s'.view.gens == s.view.gens && s'.view.lifecycle == s.view.lifecycle;
    forall g ensures TL(s'.view, g).loading == TL(s.view, g).loading
      && NextCursor(g, TL(s'.view, g)) == NextCursor(g, TL(s.view, g)) {}
    SameCursorsHeld(s, s');
  }

  lemma ResetKeepsCursors(s: State)
    requires Inv(s)
    ensures CursorInv(Reset(s))
  {
    ResetKeeps(s);
    forall i <- s.mores ensures !IsCurrent(Reset(s).view, s.mores[i].at) {
      assert MoreOk(Reset(s), s.mores[i]) && MoreOk(s, s.mores[i]);
      CurrentIffUndisturbed(Reset(s), s.mores[i].at);
      assert Reset(s).log[|s.log|] == ResetMark;
    }
  }

  lemma {:induction false} RunKeepsCursors(s: State, evs: seq<Event>)
    requires Inv(s) && CursorInv(s) && Disciplined(s, evs)
    ensures CursorInv(Run(s, evs))
    decreases |evs|
  {
    if evs != [] && Enabled(s, evs[0]) {
      StepKeepsInv(s, evs[0]);
      StepKeepsCursors(s, evs[0]);
      RunKeepsCursors(Step(s, evs[0]), evs[1..]);
    } else if evs != [] {
      RunKeepsCursors(s, evs[1..]);
    }
  }

  /**
   * When `fetchMore` is not called during an initial load of its feed, the captured cursor of
   * every request that is still current stays the feed's cursor, so whatever page is held the
   * mismatch recursion replaces a page at most once per await and never runs away.
   */
  lemma DisciplinedCursorsStay(evs: seq<Event>, id: nat, pages: Pages, retry: bool, now: nat, stack: nat)
    requires Disciplined(INITIAL, evs) && id in Run(INITIAL, evs).mores && stack >= 2
    ensures var s, m := Run(INITIAL, evs), Run(INITIAL, evs).mores[id];
      && CursorHeld(s.view, m)
      && Consume(s.view, pages, m, Some(retry), now, stack) == Consume(s.view, pages, m, Some(retry), now, 2)
      && Consume(s.view, pages, m, Some(retry), now, stack).1 != Overflow
  {
    InitialInv();
    RunKeepsCursors(INITIAL, evs);
    var s := Run(INITIAL, evs);
    assert CursorHeld(s.view, s.mores[id]);
    OtherwiseOneReplacement(s.view, pages, s.mores[id], Some(retry), now, stack);
  }

  // ---------------------------------------------------------------- why the discipline is needed

  /** Asking for more while an initial load is outstanding: the request waits for a page at the old cursor. */
  lemma ScrollWaitsAtOldCursor(s: State, f: Feed, id: nat, token: Option<string>, now: nat)
    requires !TL(s.view, f).loadingMore && f !in s.pages.slots && NextCursor(f, TL(s.view, f)).Some?
    ensures var s', t := FetchMore(s, id, f, token, now, 2), TL(s.view, f);
      && s'.view == Put(s.view, f, t.(loadingMore := true, error := false))
      && s'.loads == s.loads && id in s'.mores
      && s'.mores[id].at == Capture(f, Gen(s.view, f), s.view.lifecycle, |s.log|)
      && s'.mores[id].cursor == NextCursor(f, t).value && s'.mores[id].token == token
      && Holds(s'.pages, f, s'.mores[id].awaited)
      && s'.pages.entries[s'.mores[id].awaited].cursor == s'.mores[id].cursor
  {
    var t := TL(s.view, f);
    var v := Put(s.view, f, t.(loadingMore := true, error := false));
    var m := More(Capture(f, Gen(s.view, f), s.view.lifecycle, |s.log|), token, NextCursor(f, t).value, false, 0);
    StartFills(v, s.pages, m, now);
    assert Consume(v, s.pages, m, None, now, 2).1.Await?;
  }

  /** The reply of that load brings another cursor, and the request is stuck. */
  lemma ReplyLeavesItStuck(s: State, f: Feed, load: nat, id: nat, r: Response, now: nat)
    requires load in s.loads && s.loads[load].at.feed == f && IsCurrent(s.view, s.loads[load].at)
    requires id in s.mores && s.mores[id].at.feed == f && IsCurrent(s.view, s.mores[id].at)
    requires Holds(s.pages, f, s.mores[id].awaited) && s.pages.entries[s.mores[id].awaited].cursor == s.mores[id].cursor
    requires var cursor := NextCursor(f, Paged(f, TL(s.view, f), Ids(r.statuses), r)); cursor.Some? && cursor.value != s.mores[id].cursor
    ensures var s' := LoadReply(s, load, Page(r), now);
      && s'.mores == s.mores && IsCurrent(s'.view, s.mores[id].at)
      && !Holds(s'.pages, f, s.mores[id].awaited)
      && Stuck(s'.view, s'.pages, s.mores[id], now)
  {
    var c := s.loads[load];
    var v := Put(s.view, f, Paged(f, TL(s.view, f), Ids(r.statuses), r));
    var s' := LoadReply(s, load, Page(r), now);
    assert s'.pages == Start(v, s.pages, f, c.token, false, now);
    assert f in s'.pages.slots && s'.pages.slots[f] == |s.pages.entries|;
  }

  /** An initial load with a next page, and a second load not answered yet. */
  lemma LoadedAndLoading(r: Response) returns (evs: seq<Event>)
    requires |r.statuses| > 0 && r.statuses[|r.statuses| - 1].id != "" && Truthy(r.next)
    ensures var s := Run(INITIAL, evs);
      && 1 in s.loads && s.loads[1].at.feed == Home && IsCurrent(s.view, s.loads[1].at)
      && s.mores == map[] && Home !in s.pages.slots && !TL(s.view, Home).loadingMore
      && NextCursor(Home, TL(s.view, Home)) == Some(r.statuses[|r.statuses| - 1].id)
  {
    var e1, e2, e3 := DoFetchTimeline(0, Home, None), DoLoadReply(0, Page(r), 0), DoFetchTimeline(1, Home, None);
    evs := [e1, e2, e3];
    var s1 := Step(INITIAL, e1);
    var s2 := Step(s1, e2);
    assert !TL(s2.view, Home).loading && 1 !in s2.loads;
    var s3 := Step(s2, e3);
    assert Run(s3, []) == s3;
    assert [e3][1..] == [] && Run(s2, [e3]) == s3;
    assert [e2, e3][1..] == [e3] && Run(s1, [e2, e3]) == Run(s2, [e3]);
    assert evs[1..] == [e2, e3] && Run(INITIAL, evs) == Run(s1, [e2, e3]);
  }

  /** Whatever the state: a scroll request made during a load whose reply moves the cursor runs away. */
  lemma ScrollDuringLoad(s: State, f: Feed, load: nat, id: nat, token: Option<string>, r: Response, now: nat)
    requires load in s.loads && s.loads[load].at.feed == f && IsCurrent(s.view, s.loads[load].at)
    requires !TL(s.view, f).loadingMore && f !in s.pages.slots
    requires var before, after := NextCursor(f, TL(s.view, f)), NextCursor(f, Paged(f, TL(s.view, f), Ids(r.statuses), r));
      before.Some? && after.Some? && before != after
    ensures load in FetchMore(s, id, f, token, now, 2).loads
    ensures
      var s' := LoadReply(FetchMore(s, id, f, token, now, 2), load, Page(r), now);
      && id in s'.mores && IsCurrent(s'.view, s'.mores[id].at) && !Holds(s'.pages, f, s'.mores[id].awaited)
      && forall stack: nat :: Consume(s'.view, s'.pages, s'.mores[id], Some(s'.mores[id].retry), now, stack).1 == Overflow
  {
    ScrollWaitsAtOldCursor(s, f, id, token, now);
    var s1 := FetchMore(s, id, f, token, now, 2);
    ReplyLeavesItStuck(s1, f, load, id, r, now);
    var s' := LoadReply(s1, load, Page(r), now);
    OverflowsIffStuck(s'.view, s'.pages, s'.mores[id], Some(s'.mores[id].retry), now);
  }

  /**
   * The source does not stop `fetchMore` during an initial load, and then the captured cursor
   * can differ from the feed's: a reachable state has a current scroll request whose recursion
   * overflows every call stack when it is resumed.
   */
  lemma ScrollDuringLoadRunsAway() returns (evs: seq<Event>)
    ensures Enabled(Run(INITIAL, evs), DoFetchMore(0, Home, None, 0, 2))
    ensures 1 in FetchMore(Run(INITIAL, evs), 0, Home, None, 0, 2).loads
    ensures
      var s := FetchMore(Run(INITIAL, evs), 0, Home, None, 0, 2);
      var s' := LoadReply(s, 1, Page(Response([Status("b", None)], Some("next"))), 0);
      && 0 in s'.mores && IsCurrent(s'.view, s'.mores[0].at) && !Holds(s'.pages, Home, s'.mores[0].awaited)
      && forall stack: nat :: Consume(s'.view, s'.pages, s'.mores[0], Some(s'.mores[0].retry), 0, stack).1 == Overflow
  {
    evs := LoadedAndLoading(Response([Status("a", None)], Some("next")));
    var b := Response([Status("b", None)], Some("next"));
    var t := TL(Run(INITIAL, evs).view, Home);
    assert NextCursor(Home, Paged(Home, t, Ids(b.statuses), b)) == Some("b") && "a" != "b" && 'a' == "a"[0] && 'b' == "b"[0];
    ScrollDuringLoad(Run(INITIAL, evs), Home, 1, 0, None, b, 0);
  }
}
