/** The timelines store itself: maps and counters updated in place, each action tied to its model. */
module TimelinesStore {
  import opened Wrappers
  import opened Statuses
  import opened P = TimelinePages
  import T = TimelineProtocol
  import L = TimelineLists

  /** The store's maps and counters: what prefetching reads is in `view`, the prefetches are in `pages`. */
  class TimelinesStore {
    var view: View
    var pages: Pages
    var loads: map<nat, T.Load>
    var mores: map<nat, More>
    var cache: map<string, Option<string>>
    var log: seq<T.Mark>  // what superseded requests so far; captures carry its length
    ghost var handed: seq<T.Delivery>

    ghost function Model(): T.State
      reads this
    {
      T.State(view, pages, loads, mores, cache, log, handed)
    }

    /** The slots' values are entries of their own feeds. */
    ghost predicate Valid()
      reads this
    {
      SlotsPoint(pages)
    }

    constructor ()
      ensures Valid() && Model() == T.INITIAL
    {
      view, pages := View(map[], map[], 0), Pages([], map[], [], false, multiset{}, [], []);
      loads, mores, cache, log, handed := map[], map[], map[], [], [];
    }

    // -------------------------------------------------------------- prefetched pages

    method RemovePagePrefetch(f: Feed)
      requires Valid()
      modifies `pages
      ensures Valid() && pages == Remove(old(pages), f)
    {
      pages := pages.(slots := pages.slots - {f});
    }

    method CleanupPagePrefetches(now: nat)
      requires Valid()
      modifies `pages
      ensures Valid() && pages == Cleanup(old(pages), now)
    {
      pages := pages.(slots := Unexpired(pages.entries, pages.slots, now));
      ghost var unexpired := pages;
      while |pages.slots| >= MAX_PREFETCHES
        invariant Valid() && pages == unexpired.(slots := pages.slots) && Evict(pages.slots) == Evict(unexpired.slots)
        decreases |pages.slots|
      {
        var oldest := OldestKey(pages.slots);
        OldestStep(pages.slots, oldest);
        RemovePagePrefetch(oldest);
      }
    }

    static method OldestKey(slots: map<Feed, nat>) returns (f: Feed)
      requires slots != map[]
      ensures IsOldest(slots, f)
    {
      OldestExists(slots);
      f :| f in slots && forall g <- slots :: slots[f] <= slots[g];
    }

    method StartPagePrefetch(f: Feed, token: Option<string>, force: bool, now: nat)
      requires Valid()
      modifies `pages
      ensures Valid() && pages == Start(view, old(pages), f, token, force, now)
    {
      var timeline := TL(view, f);
      var cursor := NextCursor(f, timeline);
      if cursor.None? {
        RemovePagePrefetch(f);
        return;
      }
      var gen := Gen(view, f);
      if !force && f in pages.slots
         && Matches(pages.entries[pages.slots[f]], cursor.value, gen, view.lifecycle, token, now) {
        return;
      }
      hide Evict, Unexpired, Issue;
      assert Start(view, pages, f, token, force, now)
          == Issue(view, Cleanup(Remove(pages, f), now), f, token, cursor.value, now);
      RemovePagePrefetch(f);
      CleanupPagePrefetches(now);
      IssuePrefetch(f, token, cursor.value, gen, now);
    }

    method IssuePrefetch(f: Feed, token: Option<string>, cursor: string, gen: nat, now: nat)
      requires Valid() && gen == Gen(view, f)
      modifies `pages
      ensures Valid() && pages == Issue(view, old(pages), f, token, cursor, now)
    {
      var entry := Entry(f, token, cursor, gen, view.lifecycle, now + TTL, [], false, None);
      pages := pages.(entries := pages.entries + [entry],
                      slots := pages.slots[f := |pages.entries|],
                      issuedAt := pages.issuedAt + [|pages.registered|]);
    }

    method RestartPagePrefetch(f: Feed, expected: nat, now: nat)
      requires Valid()
      modifies `pages
      ensures Valid() && pages == Restart(view, old(pages), f, expected, now)
    {
      if f !in pages.slots || pages.slots[f] != expected { return; }
      StartPagePrefetch(f, pages.entries[expected].token, true, now);
    }

    method QueuePagePrefetchRestart(f: Feed, entry: nat)
      requires Valid()
      modifies `pages
      ensures Valid() && pages == QueueRestart(old(pages), f, entry)
    {
      pages := pages.(queued := Enqueue(pages.queued, f, entry));
      if pages.restartQueued { return; }
      pages := pages.(restartQueued := true);
    }

    method RunMicrotask(now: nat)
      requires Valid()
      modifies `pages
      ensures Valid() && pages == Microtask(view, old(pages), now)
    {
      var restarts := pages.queued;
      pages := pages.(restartQueued := false, queued := []);
      ghost var cleared := pages;
      for i := 0 to |restarts|
        invariant Valid()
        invariant RestartAll(view, pages, restarts[i..], now) == RestartAll(view, cleared, restarts, now)
      {
        assert restarts[i..][0] == restarts[i] && restarts[i..][1..] == restarts[i + 1..];
        RestartPagePrefetch(restarts[i].0, restarts[i].1, now);
      }
    }

    method ResponseMatchesInvalidator(entry: Entry) returns (b: bool)
      ensures b == NeedsRefresh(entry)
    {
      if entry.outcome.None? || entry.outcome.value.Failed? { return false; }
      var statuses := entry.outcome.value.response.statuses;
      for i := 0 to |entry.invalidators|
        invariant !SomeMatch(entry.invalidators[..i], statuses)
      {
        var p := entry.invalidators[i];
        for j := 0 to |statuses|
          invariant forall k :: 0 <= k < j ==> !p(statuses[k])
        {
          if p(statuses[j]) { return true; }
        }
      }
      assert entry.invalidators[..|entry.invalidators|] == entry.invalidators;
      return false;
    }

    method RunCallback(c: Callback)
      requires Valid()
      modifies `pages
      ensures Valid() && pages == P.RunCallback(old(pages), c)
    {
      pages := pages.(callbacks := pages.callbacks - multiset{c});
      if c.always {
        QueuePagePrefetchRestart(c.feed, c.entry);
      } else if c.feed in pages.slots && pages.slots[c.feed] == c.entry {
        var matches := ResponseMatchesInvalidator(pages.entries[c.entry]);
        if matches { QueuePagePrefetchRestart(c.feed, c.entry); }
      }
    }

    static method KeysInOrder(slots: map<Feed, nat>) returns (order: seq<Feed>)
      requires DistinctSlots(slots)
      ensures order == InsertionOrder(slots)
    {
      order := [];
      var remaining := slots;
      while remaining != map[]
        invariant DistinctSlots(remaining) && order + InsertionOrder(remaining) == InsertionOrder(slots)
        decreases |remaining|
      {
        var f := OldestKey(remaining);
        OldestStep(remaining, f);
        ghost var rest := InsertionOrder(remaining - {f});
        assert order + ([f] + rest) == (order + [f]) + rest;
        order, remaining := order + [f], remaining - {f};
      }
    }

    method RefreshAffectedPagePrefetches(pred: Predicate, affected: set<Feed>)
      requires Valid()
      modifies `pages
      ensures Valid() && pages == RefreshAffected(old(pages), pred, affected)
    {
      hide RefreshOne;
      var order := KeysInOrder(pages.slots);
      InsertionOrderLists(pages.slots);
      ghost var all := RefreshEach(pages, order, pred, affected);
      for i := 0 to |order|
        invariant Valid() && pages.slots == old(pages.slots) && pages.registered == old(pages.registered)
        invariant RefreshEach(pages, order[i..], pred, affected) == all
      {
        assert order[i..][0] == order[i] && order[i..][1..] == order[i + 1..];
        assert order[i] in order;
        RefreshPage(order[i], pred, order[i] in affected);
      }
      assert order[|order|..] == [] && pages == all;
      pages := pages.(registered := pages.registered + [pred]);
    }

    method RefreshPage(f: Feed, pred: Predicate, forced: bool)
      requires Valid() && f in pages.slots
      modifies `pages
      ensures Valid() && pages == RefreshOne(old(pages), f, pred, forced)
      ensures pages.slots == old(pages.slots) && pages.registered == old(pages.registered)
    {
      var e := pages.slots[f];
      var entry := pages.entries[e].(invalidators := pages.entries[e].invalidators + [pred]);
      if forced { entry := entry.(refreshAfterSettle := true); }
      pages := pages.(entries := pages.entries[e := entry]);
      if forced && !f.Recommended? {
        QueuePagePrefetchRestart(f, e);
      } else {
        pages := pages.(callbacks := pages.callbacks + multiset{Callback(f, e, forced)});
      }
    }

    // -------------------------------------------------------------- infinite scroll

    method IsCurrentRequest(c: Capture) returns (b: bool)
      ensures b == IsCurrent(view, c)
    {
      b := view.lifecycle == c.life && Gen(view, c.feed) == c.gen;
    }

    /** One call of `consumePagePrefetch` up to its await, or up to its call of itself. */
    method TryPagePrefetch(m: More, retry: Option<bool>, now: nat) returns (sync: Option<Sync>)
      requires Valid()
      modifies `pages
      ensures Valid()
      ensures ConsumeOnce(view, old(pages), m, retry, now)
           == if sync.Some? then Stop(pages, sync.value) else Again(pages)
    {
      var f := m.at.feed;
      var current := IsCurrentRequest(m.at);
      if !current { return Some(Undefined); }
      var retryAfterFailure := retry.None? || retry.value;
      if f !in pages.slots {
        StartPagePrefetch(f, m.token, false, now);
        retryAfterFailure := false;
        if f !in pages.slots { return Some(Undefined); }
      }
      if !Matches(pages.entries[pages.slots[f]], m.cursor, m.at.gen, m.at.life, m.token, now) {
        RemovePagePrefetch(f);
        StartPagePrefetch(f, m.token, false, now);
        return None;
      }
      return Some(Await(pages.slots[f], retryAfterFailure));
    }

    method ConsumePagePrefetch(m: More, retry: Option<bool>, now: nat, stack: nat) returns (sync: Sync)
      requires Valid()
      modifies `pages
      ensures Valid() && (pages, sync) == P.Consume(view, old(pages), m, retry, now, stack)
      decreases stack
    {
      hide ConsumeOnce;
      if stack == 0 { return Overflow; }
      var done := TryPagePrefetch(m, retry, now);
      if done.Some? { return done.value; }
      sync := ConsumePagePrefetch(m, Some(false), now, stack - 1);
    }

    method SetTimeline(f: Feed, t: Timeline)
      requires Valid()
      modifies `view
      ensures view == T.Put(old(view), f, t)
    {
      view := view.(timelines := view.timelines[f := t]);
    }

    method EndMore(c: Capture, failed: bool)
      requires Valid()
      modifies `view
      ensures Valid() && view == if failed then T.FailMore(old(view), c) else T.EndMore(old(view), c)
    {
      var current := IsCurrentRequest(c);
      if !current { return; }
      var t := TL(view, c.feed);
      if failed {
        t := t.(error := true);
        if c.feed.Recommended? { t := t.(hasMore := false, nextPage := None); }
        SetTimeline(c.feed, t);
      }
      SetTimeline(c.feed, t.(loadingMore := false));
    }

    method ConsumeAndWait(id: nat, m: More, retry: Option<bool>, now: nat, stack: nat)
      requires Valid()
      modifies `view, `pages, `mores
      ensures Valid() && Model() == T.Consumed(old(Model()), id, m, retry, now, stack)
    {
      var sync := ConsumePagePrefetch(m, retry, now, stack);
      match sync
      case Await(e, retry') => mores := mores[id := m.(awaited := e, retry := retry')];
      case Undefined => EndMore(m.at, false);
      case Overflow => EndMore(m.at, true);
    }

    method FetchMore(id: nat, f: Feed, token: Option<string>, now: nat, stack: nat)
      requires Valid()
      modifies `view, `pages, `mores
      ensures Valid() && Model() == T.FetchMore(old(Model()), id, f, token, now, stack)
    {
      var t := TL(view, f);
      if t.loadingMore || !t.hasMore { return; }
      var cursor := NextCursor(f, t);
      if cursor.None? {
        SetTimeline(f, t.(hasMore := false));
        return;
      }
      var gen := Gen(view, f);
      SetTimeline(f, t.(loadingMore := true, error := false));
      ConsumeAndWait(id, More(Capture(f, gen, view.lifecycle, |log|), token, cursor.value, false, 0), None, now, stack);
    }

    /** `fetchMore` from its await on. */
    method ResumeMore(id: nat, now: nat, stack: nat)
      requires Valid() && id in mores && T.Settled(pages, mores[id].awaited)
      modifies `view, `pages, `mores, `cache, `handed
      ensures Valid() && Model() == T.ResumeMore(old(Model()), id, now, stack)
      ensures forall f ::
                L.ListsOf(view, f)
                == L.Changed(L.ListsOf(old(view), f), L.ChangeOf(old(Model()), T.DoResumeMore(id, now, stack), f))
    {
      ResumedLists(Model(), id, now, stack);
      hide L.ListsOf, L.Changed, L.ChangeOf;
      hide T.Append, T.Consumed, Start;
      var m := mores[id];
      mores := mores - {id};
      var f, e := m.at.feed, pages.entries[m.awaited];
      if f !in pages.slots || pages.slots[f] != m.awaited {
        ConsumeAndWait(id, m, Some(m.retry), now, stack);
        return;
      }
      var current := IsCurrentRequest(m.at);
      if !current {
        RemovePagePrefetch(f);
        return;
      }
      if e.outcome.value.Failed? {
        RemovePagePrefetch(f);
        if m.retry {
          StartPagePrefetch(f, m.token, false, now);
          ConsumeAndWait(id, m, Some(false), now, stack);
        } else {
          EndMore(m.at, true);
        }
        return;
      }
      var matches := ResponseMatchesInvalidator(e);
      if e.refreshAfterSettle || matches {
        RestartPagePrefetch(f, m.awaited, now);
        ConsumeAndWait(id, m, Some(m.retry), now, stack);
        return;
      }
      RemovePagePrefetch(f);
      handed := handed + [T.Delivery(m.awaited, f, Gen(view, f), view.lifecycle, m.cursor, |pages.registered|)];
      AppendPage(m, e.outcome.value.response, now);
    }

    method AppendPage(m: More, r: Response, now: nat)
      requires Valid()
      modifies `view, `pages, `cache
      ensures Valid() && Model() == T.Append(old(Model()), m, r, now)
    {
      hide Start, T.Cached, T.Paged, T.Ids;
      var current := IsCurrentRequest(m.at);
      if !current { return; }
      CacheStatuses(r.statuses);
      var f := m.at.feed;
      var t := TL(view, f);
      SetTimeline(f, T.Paged(f, t, t.statusIds + T.Ids(r.statuses), r));
      StartPagePrefetch(f, m.token, false, now);
      EndMore(m.at, false);
    }

    method CacheStatuses(statuses: seq<Status>)
      modifies `cache
      ensures cache == T.Cached(old(cache), statuses)
    {
      for i := 0 to |statuses|
        invariant T.Cached(cache, statuses[i..]) == T.Cached(old(cache), statuses)
      {
        assert statuses[i..][1..] == statuses[i + 1..];
        cache := cache[statuses[i].id := statuses[i].reblog];
        if statuses[i].reblog.Some? {
          cache := cache[statuses[i].reblog.value := None];
        }
      }
      assert statuses[|statuses|..] == [];
    }

    // -------------------------------------------------------------- loads, removals, reset

    method FetchTimeline(id: nat, f: Feed, token: Option<string>)
      requires Valid()
      modifies `view, `pages, `loads, `log
      ensures Valid() && Model() == T.FetchTimeline(old(Model()), id, f, token)
    {
      var t := TL(view, f);
      if t.loading { return; }
      var gen := Gen(view, f) + 1;
      view := view.(gens := view.gens[f := gen]);
      RemovePagePrefetch(f);
      SetTimeline(f, t.(loadingMore := false, loading := true, error := false));
      log := log + [T.LoadMark(f)];
      loads := loads[id := T.Load(Capture(f, gen, view.lifecycle, |log|), token)];
    }

    method RefreshRecommendedTimeline(id: nat, token: string)
      requires Valid()
      modifies `view, `pages, `loads, `log
      ensures Valid() && Model() == T.RefreshRecommended(old(Model()), id, token)
    {
      var t := TL(view, Recommended);
      if t.loading { return; }
      SetTimeline(Recommended, EMPTY);
      FetchTimeline(id, Recommended, Some(token));
    }

    /** `fetchTimeline` from its await on. */
    method LoadReply(id: nat, reply: Outcome, now: nat)
      requires Valid() && id in loads
      modifies `view, `pages, `loads, `cache
      ensures Valid() && Model() == T.LoadReply(old(Model()), id, reply, now)
      ensures forall f ::
                L.ListsOf(view, f)
                == L.Changed(L.ListsOf(old(view), f), L.ChangeOf(old(Model()), T.DoLoadReply(id, reply, now), f))
    {
      RepliedLists(Model(), id, reply, now);
      hide L.ListsOf, L.Changed, L.ChangeOf;
      hide Start, T.Cached, T.Paged, T.Ids;
      var l := loads[id];
      loads := loads - {id};
      var current := IsCurrentRequest(l.at);
      if !current { return; }
      var f := l.at.feed;
      var t := TL(view, f);
      if reply.Failed? {
        SetTimeline(f, t.(error := true, loading := false));
        return;
      }
      ShowLoaded(f, l.token, reply.response, now);
    }

    /** The rest of `fetchTimeline` with a current reply. */
    method ShowLoaded(f: Feed, token: Option<string>, r: Response, now: nat)
      requires Valid()
      modifies `view, `pages, `cache
      ensures Valid() && cache == T.Cached(old(cache), r.statuses)
      ensures var paged := T.Paged(f, TL(old(view), f), T.Ids(r.statuses), r);
              && pages == Start(T.Put(old(view), f, paged), old(pages), f, token, false, now)
              && view == T.Put(old(view), f, paged.(loading := false))
    {
      hide Start, T.Cached, T.Paged, T.Ids;
      CacheStatuses(r.statuses);
      var paged := T.Paged(f, TL(view, f), T.Ids(r.statuses), r);
      SetTimeline(f, paged);
      StartPagePrefetch(f, token, false, now);
      SetTimeline(f, paged.(loading := false));
    }

    method RemoveStatus(id: string)
      requires Valid()
      modifies `view, `pages
      ensures Valid() && Model() == T.RemoveStatus(old(Model()), id)
    {
      hide RefreshAffected, T.Stripped, T.Shrinks;
      var removed := T.RemovedIds(cache, id);
      var affected := set f | f in view.timelines && T.Shrinks(view.timelines[f], removed);
      view := view.(timelines := map f | f in view.timelines :: T.Stripped(view.timelines[f], removed));
      RefreshAffectedPagePrefetches(T.Affects(removed), affected);
    }

    method PrependStatus(f: Feed, id: string)
      requires Valid()
      modifies `view
      ensures Valid() && Model() == T.PrependStatus(old(Model()), f, id)
    {
      var t := TL(view, f);
      if id in t.newStatusIds || id in t.statusIds { return; }
      SetTimeline(f, t.(newStatusIds := [id] + t.newStatusIds));
    }

    method ShowNewStatuses(f: Feed)
      requires Valid()
      modifies `view
      ensures Valid() && Model() == T.ShowNewStatuses(old(Model()), f)
    {
      var t := TL(view, f);
      var shown := set id | id in t.statusIds;
      SetTimeline(f, t.(statusIds := T.Without(t.newStatusIds, shown) + t.statusIds, newStatusIds := []));
    }

    method Reset()
      requires Valid()
      modifies `view, `pages, `log
      ensures Valid() && Model() == T.Reset(old(Model()))
    {
      view := view.(lifecycle := view.lifecycle + 1);
      pages := pages.(slots := map[], queued := []);
      view := view.(timelines := map[], gens := map[]);
      log := log + [T.ResetMark];
    }

    // -------------------------------------------------------------- the event loop

    method Dispatch(ev: T.Event)
      requires Valid() && T.Enabled(Model(), ev)
      modifies this
      ensures Valid() && Model() == T.Step(old(Model()), ev)
    {
      hide T.FetchTimeline, T.RefreshRecommended, T.LoadReply, T.FetchMore, T.ResumeMore, Settle, P.RunCallback;
      hide Microtask, T.RemoveStatus, T.PrependStatus, T.ShowNewStatuses, T.Reset;
      match ev
      case DoFetchTimeline(id, f, token) => FetchTimeline(id, f, token);
      case DoRefreshRecommended(id, token) => RefreshRecommendedTimeline(id, token);
      case DoLoadReply(id, reply, now) => LoadReply(id, reply, now);
      case DoFetchMore(id, f, token, now, stack) => FetchMore(id, f, token, now, stack);
      case DoResumeMore(id, now, stack) => ResumeMore(id, now, stack);
      case DoSettle(e, outcome) => SettleEntry(e, outcome);
      case DoCallback(c) => RunCallback(c);
      case DoMicrotask(now) => RunMicrotask(now);
      case DoRemoveStatus(id) => RemoveStatus(id);
      case DoPrepend(f, id) => PrependStatus(f, id);
      case DoShowNew(f) => ShowNewStatuses(f);
      case DoSetCache(c) => cache := c;
      case DoReset => Reset();
    }

    method SettleEntry(e: nat, outcome: Outcome)
      requires Valid() && e < |pages.entries|
      modifies `pages
      ensures Valid() && pages == Settle(old(pages), e, outcome)
    {
      pages := pages.(entries := pages.entries[e := pages.entries[e].(outcome := Some(outcome))]);
    }
  }

  /** What a resumed scroll does to every feed's list. */
  lemma ResumedLists(s: T.State, id: nat, now: nat, stack: nat)
    requires T.Enabled(s, T.DoResumeMore(id, now, stack))
    ensures forall f ::
              L.ListsOf(T.ResumeMore(s, id, now, stack).view, f)
              == L.Changed(L.ListsOf(s.view, f), L.ChangeOf(s, T.DoResumeMore(id, now, stack), f))
  {
    hide T.ResumeMore, T.LoadReply, L.ListsOf, L.Changed, L.ChangeOf;
    forall f ensures L.ListsOf(T.ResumeMore(s, id, now, stack).view, f)
                     == L.Changed(L.ListsOf(s.view, f), L.ChangeOf(s, T.DoResumeMore(id, now, stack), f))
    {
      L.ResumeLists(s, id, now, stack, f);
    }
  }

  /** What a load's reply does to every feed's list. */
  lemma RepliedLists(s: T.State, id: nat, reply: Outcome, now: nat)
    requires T.Enabled(s, T.DoLoadReply(id, reply, now))
    ensures forall f ::
              L.ListsOf(T.LoadReply(s, id, reply, now).view, f)
              == L.Changed(L.ListsOf(s.view, f), L.ChangeOf(s, T.DoLoadReply(id, reply, now), f))
  {
    hide T.ResumeMore, T.LoadReply, L.ListsOf, L.Changed, L.ChangeOf;
    forall f ensures L.ListsOf(T.LoadReply(s, id, reply, now).view, f)
                     == L.Changed(L.ListsOf(s.view, f), L.ChangeOf(s, T.DoLoadReply(id, reply, now), f))
    {
      L.LoadReplyLists(s, id, reply, now, f);
    }
  }
}
