/**
 * What a feed of the timelines store shows (stores/timelines.ts), said of the events alone: the last initial load, the
 * pages appended since, the live posts revealed in front, and what was removed taken out.
 */
module TimelineLists {
  import opened Wrappers
  import opened Statuses
  import opened TimelinePages
  import opened TimelineProtocol

  // ---------------------------------------------------------------- changes

  /** The statuses a feed shows, and the live posts it holds back. */
  datatype Lists = Lists(shown: seq<string>, held: seq<string>)

  /** What one event does to them. */
  datatype Change =
    | Loaded(ids: seq<string>)
    | Appended(ids: seq<string>)
    | Arrived(id: string)
    | Revealed
    | Removed(gone: set<string>)
    | Cleared
    | Untouched

  ghost function ListsOf(v: View, f: Feed): Lists {
    Lists(TL(v, f).statusIds, TL(v, f).newStatusIds)
  }

  ghost function Changed(l: Lists, c: Change): Lists {
    match c
    case Loaded(ids) => Lists(ids, l.held)
    case Appended(ids) => Lists(l.shown + ids, l.held)
    case Arrived(id) => if id in l.shown || id in l.held then l else Lists(l.shown, [id] + l.held)
    case Revealed => Lists(Without(l.held, set id | id in l.shown) + l.shown, [])
    case Removed(ids) => Lists(Without(l.shown, ids), Without(l.held, ids))
    case Cleared => Lists([], [])
    case Untouched => l
  }

  /** `Without` leaves out some elements and keeps the order of the others. */
  lemma {:induction false} WithoutFilters(a: seq<string>, b: seq<string>, x: string, removed: set<string>)
    ensures Without(a + b, removed) == Without(a, removed) + Without(b, removed)
    ensures Without([x], removed) == if x in removed then [] else [x]
    ensures Without([], removed) == []
  {
    assert [x][1..] == [];
    if a == [] {
      assert a + b == b;
    } else {
      assert (a + b)[0] == a[0] && (a + b)[1..] == a[1..] + b;
      WithoutFilters(a[1..], b, x, removed);
    }
  }

  /** The awaited page can be appended: still held, asked for by the present requests, unmarked and unmatched. */
  ghost predicate Good(s: State, m: More) {
    && m.awaited < |s.pages.entries|
    && m.at.feed in s.pages.slots && s.pages.slots[m.at.feed] == m.awaited
    && m.at.life == s.view.lifecycle && m.at.gen == Gen(s.view, m.at.feed)
    && var e := s.pages.entries[m.awaited];
    && !e.refreshAfterSettle
    && e.outcome.Some? && e.outcome.value.Page?
    && forall p, status :: p in e.invalidators && status in e.outcome.value.response.statuses ==> !p(status)
  }

  ghost function PageOf(s: State, m: More): Response
    requires Good(s, m)
  {
    s.pages.entries[m.awaited].outcome.value.response
  }

  ghost function ChangeOf(s: State, ev: Event, f: Feed): Change
    requires Enabled(s, ev)
  {
    match ev
    case DoLoadReply(id, Page(r), _) =>
      var at := s.loads[id].at;
      if at.feed == f && at.life == s.view.lifecycle && at.gen == Gen(s.view, f) then Loaded(Ids(r.statuses)) else Untouched
    case DoResumeMore(id, _, _) =>
      var m := s.mores[id];
      if m.at.feed == f && Good(s, m) then Appended(Ids(PageOf(s, m).statuses)) else Untouched
    case DoPrepend(g, id) => if g == f then Arrived(id) else Untouched
    case DoShowNew(g) => if g == f then Revealed else Untouched
    case DoRemoveStatus(id) => Removed(RemovedIds(s.cache, id))
    case DoRefreshRecommended(_, _) => if f.Recommended? && !TL(s.view, f).loading then Cleared else Untouched
    case DoReset => Cleared
    case _ => Untouched
  }

  // ---------------------------------------------------------------- one event

  /** The branches of `consumePagePrefetch` after its await that lead to a page. */
  lemma GoodIffReached(s: State, m: More)
    requires Settled(s.pages, m.awaited)
    ensures var e := s.pages.entries[m.awaited];
      Good(s, m)
      <==> Holds(s.pages, m.at.feed, m.awaited) && IsCurrent(s.view, m.at) && !e.outcome.value.Failed?
           && !(e.refreshAfterSettle || NeedsRefresh(e))
  {
    var e := s.pages.entries[m.awaited];
    if e.outcome.value.Page? { GoodMeansFresh(e); }
    hide NeedsRefresh;
  }

  lemma GoodMeansFresh(e: Entry)
    requires e.outcome.Some? && e.outcome.value.Page?
    ensures NeedsRefresh(e)
            <==> exists p, status :: p in e.invalidators && status in e.outcome.value.response.statuses && p(status)
  {
    var statuses := e.outcome.value.response.statuses;
    if SomeMatch(e.invalidators, statuses) {
      var i, j :| 0 <= i < |e.invalidators| && 0 <= j < |statuses| && e.invalidators[i](statuses[j]);
      assert e.invalidators[i] in e.invalidators && statuses[j] in statuses;
    }
  }

  lemma EndingLists(v: View, c: Capture, f: Feed)
    ensures ListsOf(EndMore(v, c), f) == ListsOf(v, f) && ListsOf(FailMore(v, c), f) == ListsOf(v, f)
  {
  }

  lemma ConsumedLists(s: State, id: nat, m: More, retry: Option<bool>, now: nat, stack: nat, f: Feed)
    ensures ListsOf(Consumed(s, id, m, retry, now, stack).view, f) == ListsOf(s.view, f)
  {
    hide Consume, EndMore, FailMore, ListsOf;
    EndingLists(s.view, m.at, f);
  }

  lemma SameLists(v: View, g: Feed, t: Timeline, f: Feed)
    requires t.statusIds == TL(v, g).statusIds && t.newStatusIds == TL(v, g).newStatusIds
    ensures ListsOf(Put(v, g, t), f) == ListsOf(v, f)
  {
  }

  lemma FetchMoreLists(s: State, id: nat, g: Feed, token: Option<string>, now: nat, stack: nat, f: Feed)
    ensures ListsOf(FetchMore(s, id, g, token, now, stack).view, f) == ListsOf(s.view, f)
  {
    hide Consumed, NextCursor, ListsOf, Put, TL;
    var t := TL(s.view, g);
    SameLists(s.view, g, t.(hasMore := false), f);
    SameLists(s.view, g, t.(loadingMore := true, error := false), f);
    if !t.loadingMore && t.hasMore && NextCursor(g, t).Some? {
      ConsumedLists(
        s.(view := Put(s.view, g, t.(loadingMore := true, error := false))), id,
        More(Capture(g, Gen(s.view, g), s.view.lifecycle, |s.log|), token, NextCursor(g, t).value, false, 0),
        None, now, stack, f);
    }
  }

  lemma AppendLists(s: State, m: More, r: Response, now: nat, f: Feed)
    requires IsCurrent(s.view, m.at)
    ensures ListsOf(Append(s, m, r, now).view, f)
            == if m.at.feed == f then Lists(TL(s.view, f).statusIds + Ids(r.statuses), TL(s.view, f).newStatusIds)
               else ListsOf(s.view, f)
  {
    hide Start, Cached, Ids;
  }

  lemma ResumeLists(s: State, id: nat, now: nat, stack: nat, f: Feed)
    requires Enabled(s, DoResumeMore(id, now, stack))
    ensures ListsOf(ResumeMore(s, id, now, stack).view, f)
            == Changed(ListsOf(s.view, f), ChangeOf(s, DoResumeMore(id, now, stack), f))
  {
    var m, s0 := s.mores[id], s.(mores := s.mores - {id});
    var e := s.pages.entries[m.awaited];
    GoodIffReached(s, m);
    hide Consumed, Start, Replaced, Restart, Append, EndMore, FailMore, NeedsRefresh, Ids, Good, Holds, IsCurrent;
    EndingLists(s.view, m.at, f);
    if !Holds(s.pages, m.at.feed, m.awaited) {
      ConsumedLists(s0, id, m, Some(m.retry), now, stack, f);
    } else if IsCurrent(s.view, m.at) {
      if e.outcome.value.Failed? && m.retry {
        ConsumedLists(s0.(pages := Replaced(s.view, s.pages, m, now)), id, m, Some(false), now, stack, f);
      } else if !e.outcome.value.Failed? && (e.refreshAfterSettle || NeedsRefresh(e)) {
        ConsumedLists(s0.(pages := Restart(s.view, s.pages, m.at.feed, m.awaited, now)), id, m, Some(m.retry), now, stack, f);
      } else if !e.outcome.value.Failed? {
        AppendLists(HandOver(s0, m), m, e.outcome.value.response, now, f);
      }
    }
  }

  lemma LoadReplyLists(s: State, id: nat, reply: Outcome, now: nat, f: Feed)
    requires Enabled(s, DoLoadReply(id, reply, now))
    ensures ListsOf(LoadReply(s, id, reply, now).view, f) == Changed(ListsOf(s.view, f), ChangeOf(s, DoLoadReply(id, reply, now), f))
  {
    hide Start, Cached, Ids;
  }

  lemma StartedLists(s: State, id: nat, g: Feed, token: Option<string>, f: Feed)
    ensures ListsOf(FetchTimeline(s, id, g, token).view, f) == ListsOf(s.view, f)
  {
    hide Remove;
  }

  lemma PrependLists(s: State, g: Feed, id: string, f: Feed)
    ensures ListsOf(PrependStatus(s, g, id).view, f) == if g == f then Changed(ListsOf(s.view, f), Arrived(id)) else ListsOf(s.view, f)
  {
  }

  lemma ShowNewLists(s: State, g: Feed, f: Feed)
    ensures ListsOf(ShowNewStatuses(s, g).view, f) == if g == f then Changed(ListsOf(s.view, f), Revealed) else ListsOf(s.view, f)
  {
    hide Without;
  }

  lemma LocalLists(s: State, ev: Event, f: Feed)
    requires ev.DoFetchTimeline? || ev.DoRefreshRecommended? || ev.DoPrepend? || ev.DoShowNew? || ev.DoReset?
    requires Enabled(s, ev)
    ensures ListsOf(Step(s, ev).view, f) == Changed(ListsOf(s.view, f), ChangeOf(s, ev, f))
  {
    hide FetchTimeline, Without, PrependStatus, ShowNewStatuses;
    match ev
    case DoFetchTimeline(id, g, token) => StartedLists(s, id, g, token, f);
    case DoRefreshRecommended(id, token) =>
      StartedLists(s.(view := Put(s.view, Recommended, EMPTY)), id, Recommended, Some(token), f);
    case DoPrepend(g, id) => PrependLists(s, g, id, f);
    case DoShowNew(g) => ShowNewLists(s, g, f);
    case DoReset =>
  }

  /** A removal takes the status and every cached reblog of it. */
  lemma RemovedSpelled(cache: map<string, Option<string>>, id: string)
    ensures RemovedIds(cache, id) == {id} + set c | c in cache && cache[c] == Some(id)
  {
  }

  ghost function StrippedView(v: View, removed: set<string>): View {
    v.(timelines := map f | f in v.timelines :: Stripped(v.timelines[f], removed))
  }

  lemma StrippedLists(v: View, removed: set<string>, f: Feed)
    ensures ListsOf(StrippedView(v, removed), f) == Changed(ListsOf(v, f), Removed(removed))
  {
    assert Without([], removed) == [];
    hide Without;
  }

  lemma RemoveStrips(s: State, id: string)
    ensures RemoveStatus(s, id).view == StrippedView(s.view, RemovedIds(s.cache, id))
  {
    hide RefreshAffected, Stripped, RemovedIds, Shrinks, Affects;
  }

  lemma RemoveLists(s: State, id: string, f: Feed)
    ensures ListsOf(RemoveStatus(s, id).view, f) == Changed(ListsOf(s.view, f), Removed(RemovedIds(s.cache, id)))
  {
    hide RemoveStatus, ListsOf, Changed, RemovedIds, StrippedView;
    StrippedLists(s.view, RemovedIds(s.cache, id), f);
    RemoveStrips(s, id);
  }

  /** Every event changes what a feed shows exactly as `ChangeOf` says, and in no other way. */
  lemma StepChangesLists(s: State, ev: Event, f: Feed)
    requires Enabled(s, ev)
    ensures ListsOf(Step(s, ev).view, f) == Changed(ListsOf(s.view, f), ChangeOf(s, ev, f))
  {
    hide FetchMore, ResumeMore, LoadReply, Microtask, RemoveStatus, RunCallback, Settle, Changed, Good;
    match ev {
      case DoResumeMore(id, now, stack) => ResumeLists(s, id, now, stack, f);
      case DoLoadReply(id, reply, now) => LoadReplyLists(s, id, reply, now, f);
      case DoFetchMore(id, g, token, now, stack) =>
        FetchMoreLists(s, id, g, token, now, stack, f);
        UntouchedIsSame(ListsOf(s.view, f));
      case DoRemoveStatus(id) => RemoveLists(s, id, f);
      case _ =>
        if ev.DoSettle? || ev.DoCallback? || ev.DoMicrotask? || ev.DoSetCache? { UntouchedIsSame(ListsOf(s.view, f)); }
        else { LocalLists(s, ev, f); }
    }
  }

  lemma UntouchedIsSame(l: Lists)
    ensures Changed(l, Untouched) == l
  {
  }

  // ---------------------------------------------------------------- runs

  ghost function Replayed(l: Lists, changes: seq<Change>): Lists
    decreases |changes|
  {
    if changes == [] then l else Replayed(Changed(l, changes[0]), changes[1..])
  }

  /** The changes of a run to one feed, in order. */
  ghost function ChangesOf(s: State, evs: seq<Event>, f: Feed): seq<Change>
    decreases |evs|
  {
    if evs == [] then []
    else if Enabled(s, evs[0]) then [ChangeOf(s, evs[0], f)] + ChangesOf(Step(s, evs[0]), evs[1..], f)
    else ChangesOf(s, evs[1..], f)
  }

  lemma {:induction false} RunReplaysFrom(s: State, evs: seq<Event>, f: Feed)
    ensures ListsOf(Run(s, evs).view, f) == Replayed(ListsOf(s.view, f), ChangesOf(s, evs, f))
    decreases |evs|
  {
    hide Step, ChangeOf, Changed, ListsOf;
    if evs != [] {
      if Enabled(s, evs[0]) {
        StepChangesLists(s, evs[0], f);
        RunReplaysFrom(Step(s, evs[0]), evs[1..], f);
        var rest := ChangesOf(Step(s, evs[0]), evs[1..], f);
        assert ([ChangeOf(s, evs[0], f)] + rest)[1..] == rest;
      } else {
        RunReplaysFrom(s, evs[1..], f);
      }
    }
  }

  /** After any run a feed shows what its changes, replayed from nothing, leave. */
  lemma RunReplaysChanges(evs: seq<Event>, f: Feed)
    ensures ListsOf(Run(INITIAL, evs).view, f) == Replayed(Lists([], []), ChangesOf(INITIAL, evs, f))
  {
    RunReplaysFrom(INITIAL, evs, f);
  }

  /** What is left of `ids` and the pages appended to them when removals are taken out. */
  ghost function Survivors(ids: seq<string>, changes: seq<Change>): seq<string>
    decreases |changes|
  {
    if changes == [] then ids
    else
      match changes[0]
      case Appended(page) => Survivors(ids + page, changes[1..])
      case Removed(removed) => Survivors(Without(ids, removed), changes[1..])
      case _ => Survivors(ids, changes[1..])
  }

  /**
   * Since the last load: in front the live posts that arrived and were revealed, behind them what the load brought and
   * the appended pages, in that order, with the removed ones taken out.
   */
  lemma {:induction false} LastLoadThenPages(l: Lists, front: seq<string>, ids: seq<string>, changes: seq<Change>)
    returns (live: seq<string>)
    requires l.shown == front + ids
    requires forall c :: c in changes ==> !c.Loaded? && !c.Cleared?
    ensures Replayed(l, changes).shown == live + Survivors(ids, changes)
    ensures forall id :: id in live || id in Replayed(l, changes).held ==> id in front || id in l.held || Arrived(id) in changes
    decreases |changes|
  {
    if changes == [] {
      live := front;
    } else {
      var c, rest := changes[0], changes[1..];
      var next := Changed(l, c);
      assert c in changes && forall d :: d in rest ==> d in changes;
      match c
      case Appended(page) =>
        assert next.shown == front + (ids + page);
        live := LastLoadThenPages(next, front, ids + page, rest);
      case Removed(removed) =>
        WithoutFilters(front, ids, "", removed);
        live := LastLoadThenPages(next, Without(front, removed), Without(ids, removed), rest);
      case Revealed =>
        var unique := Without(l.held, set id | id in l.shown);
        assert next.shown == (unique + front) + ids;
        live := LastLoadThenPages(next, unique + front, ids, rest);
      case Arrived(_) => live := LastLoadThenPages(next, front, ids, rest);
      case Untouched => live := LastLoadThenPages(next, front, ids, rest);
      case Loaded(_) => assert false;
      case Cleared => assert false;
    }
  }

  lemma {:induction false} ReplayedThen(l: Lists, before: seq<Change>, after: seq<Change>)
    ensures Replayed(l, before + after) == Replayed(Replayed(l, before), after)
    decreases |before|
  {
    hide Changed;
    if before == [] {
      assert before + after == after;
    } else {
      assert (before + after)[1..] == before[1..] + after;
      ReplayedThen(Changed(l, before[0]), before[1..], after);
    }
  }

  /**
   * After any run a feed shows the statuses of its last initial load and of every page appended since, in that order and
   * without those removed since, behind live posts that were held back at the load or arrived later.
   */
  lemma FeedIsLoadAndPages(evs: seq<Event>, f: Feed, k: nat) returns (live: seq<string>)
    requires var changes := ChangesOf(INITIAL, evs, f);
      && k < |changes| && changes[k].Loaded? && forall c :: c in changes[k + 1..] ==> !c.Loaded? && !c.Cleared?
    ensures
      var changes := ChangesOf(INITIAL, evs, f);
      var end, held := TL(Run(INITIAL, evs).view, f), Replayed(Lists([], []), changes[..k]).held;
      && end.statusIds == live + Survivors(changes[k].ids, changes[k + 1..])
      && forall id :: id in live || id in end.newStatusIds ==> id in held || Arrived(id) in changes[k + 1..]
  {
    var changes := ChangesOf(INITIAL, evs, f);
    var load, since := changes[k], changes[k + 1..];
    var l := Replayed(Lists([], []), changes[..k]);
    RunReplaysChanges(evs, f);
    assert changes == changes[..k] + ([load] + since);
    ReplayedThen(Lists([], []), changes[..k], [load] + since);
    assert ([load] + since)[1..] == since;
    assert Changed(l, load).shown == [] + load.ids;
    live := LastLoadThenPages(Changed(l, load), [], load.ids, since);
  }

  // ---------------------------------------------------------------- flags, cursors and the page after

  /** The feed after a page of the server: cursors and flags as its link header says, over the lists given. */
  ghost predicate Follows(f: Feed, t: Timeline, t': Timeline, r: Response) {
    && t'.nextPage == r.next && (t'.hasMore <==> r.next.Some? && r.next.value != "")
    && t'.maxId == (if f != Recommended && r.statuses != [] then Some(r.statuses[|r.statuses| - 1].id) else t.maxId)
  }

  /** The page after the feed's new cursor is held, asked for now or before; none is without a cursor. */
  ghost predicate NextPageHeld(s: State, f: Feed) {
    var t := TL(s.view, f);
    var cursor := if f == Recommended then t.nextPage else t.maxId;
    if t.hasMore && cursor.Some? && cursor.value != "" then
      && f in s.pages.slots && s.pages.slots[f] < |s.pages.entries|
      && s.pages.entries[s.pages.slots[f]].cursor == cursor.value
    else f !in s.pages.slots
  }

  ghost predicate OnlyFeedDiffers(s: State, s': State, f: Feed) {
    && s'.view.gens == s.view.gens && s'.view.lifecycle == s.view.lifecycle && s'.log == s.log
    && forall g :: g != f ==> TL(s'.view, g) == TL(s.view, g)
  }

  lemma {:induction false} AllCached(cache: map<string, Option<string>>, statuses: seq<Status>, id: string)
    ensures id in Cached(cache, statuses)
            <==> id in cache || exists st :: st in statuses && (st.id == id || st.reblog == Some(id))
    decreases |statuses|
  {
    if statuses != [] {
      var st := statuses[0];
      var c := cache[st.id := st.reblog];
      AllCached(if st.reblog.Some? then c[st.reblog.value := None] else c, statuses[1..], id);
      assert statuses == [st] + statuses[1..];
    }
  }

  lemma StartHoldsNext(v: View, p: Pages, f: Feed, token: Option<string>, now: nat)
    ensures var p', cursor := Start(v, p, f, token, false, now), NextCursor(f, TL(v, f));
      if cursor.Some? then f in p'.slots && p'.slots[f] < |p'.entries| && p'.entries[p'.slots[f]].cursor == cursor.value
      else f !in p'.slots
  {
    hide Evict, Unexpired;
  }

  /** A good page is appended, with the feed's cursors moved behind it, the flag off, and the page after it asked for. */
  lemma GoodPageIsAppended(s: State, id: nat, now: nat, stack: nat)
    requires Enabled(s, DoResumeMore(id, now, stack)) && Good(s, s.mores[id])
    ensures
      var m, s' := s.mores[id], Step(s, DoResumeMore(id, now, stack));
      var f, r := m.at.feed, PageOf(s, m);
      var t, t' := TL(s.view, f), TL(s'.view, f);
      && t'.statusIds == t.statusIds + Ids(r.statuses) && t'.newStatusIds == t.newStatusIds
      && Follows(f, t, t', r) && !t'.loadingMore && t'.loading == t.loading && t'.error == t.error
      && OnlyFeedDiffers(s, s', f) && NextPageHeld(s', f)
      && s'.mores == s.mores - {id} && s'.loads == s.loads && s'.handed == s.handed + [Delivered(s, m)]
      && s'.cache == Cached(s.cache, r.statuses)
  {
    var m := s.mores[id];
    var f, r := m.at.feed, PageOf(s, m);
    GoodMeansFresh(s.pages.entries[m.awaited]);
    hide Start, Ids, Cached, NeedsRefresh;
    var s0 := HandOver(s.(mores := s.mores - {id}), m);
    assert Step(s, DoResumeMore(id, now, stack)) == Append(s0, m, r, now);
    AppendSets(s0, m, r, now);
  }

  lemma AppendSets(s: State, m: More, r: Response, now: nat)
    requires IsCurrent(s.view, m.at)
    ensures
      var s', f := Append(s, m, r, now), m.at.feed;
      var t, t' := TL(s.view, f), TL(s'.view, f);
      && t'.statusIds == t.statusIds + Ids(r.statuses) && t'.newStatusIds == t.newStatusIds
      && Follows(f, t, t', r) && !t'.loadingMore && t'.loading == t.loading && t'.error == t.error
      && OnlyFeedDiffers(s, s', f) && NextPageHeld(s', f)
      && s'.mores == s.mores && s'.loads == s.loads && s'.handed == s.handed && s'.cache == Cached(s.cache, r.statuses)
  {
    var f, t := m.at.feed, TL(s.view, m.at.feed);
    StartHoldsNext(Put(s.view, f, Paged(f, t, t.statusIds + Ids(r.statuses), r)), s.pages, f, m.token, now);
    hide Start, Ids, Cached;
  }

  /** A reply to a current load replaces the list; a failed one only sets the error; a superseded one is dropped. */
  lemma LoadReplySets(s: State, id: nat, reply: Outcome, now: nat)
    requires id in s.loads
    ensures
      var l, s' := s.loads[id], Step(s, DoLoadReply(id, reply, now));
      var f := l.at.feed;
      var t, t' := TL(s.view, f), TL(s'.view, f);
      var current := l.at.life == s.view.lifecycle && l.at.gen == Gen(s.view, f);
      && s'.loads == s.loads - {id} && s'.mores == s.mores && s'.handed == s.handed && OnlyFeedDiffers(s, s', f)
      && (!current ==> s' == s.(loads := s.loads - {id}))
      && (current && reply.Failed? ==>
            t' == t.(error := true, loading := false) && s'.pages == s.pages && s'.cache == s.cache)
      && (current && reply.Page? ==>
            && t'.statusIds == Ids(reply.response.statuses) && t'.newStatusIds == t.newStatusIds
            && Follows(f, t, t', reply.response) && !t'.loading && t'.loadingMore == t.loadingMore && t'.error == t.error
            && NextPageHeld(s', f) && s'.cache == Cached(s.cache, reply.response.statuses))
  {
    if reply.Page? && IsCurrent(s.view, s.loads[id].at) { LoadSets(s, id, reply.response, now); }
    hide Start, Ids, Cached, Paged, NextPageHeld, Follows;
  }

  lemma LoadSets(s: State, id: nat, r: Response, now: nat)
    requires id in s.loads && IsCurrent(s.view, s.loads[id].at)
    ensures
      var l, s' := s.loads[id], LoadReply(s, id, Page(r), now);
      var f := l.at.feed;
      var t, t' := TL(s.view, f), TL(s'.view, f);
      && s'.loads == s.loads - {id} && s'.mores == s.mores && s'.handed == s.handed && OnlyFeedDiffers(s, s', f)
      && t'.statusIds == Ids(r.statuses) && t'.newStatusIds == t.newStatusIds
      && Follows(f, t, t', r) && !t'.loading && t'.loadingMore == t.loadingMore && t'.error == t.error
      && NextPageHeld(s', f) && s'.cache == Cached(s.cache, r.statuses)
  {
    var l := s.loads[id];
    var f, t := l.at.feed, TL(s.view, l.at.feed);
    StartHoldsNext(Put(s.view, f, Paged(f, t, Ids(r.statuses), r)), s.pages, f, l.token, now);
    hide Start, Ids, Cached;
  }

  /** A load starts exactly when none runs: flags, a new generation, no held page, and one request. */
  lemma LoadStarts(s: State, id: nat, f: Feed, token: Option<string>)
    requires id !in s.loads
    ensures
      var s', t := Step(s, DoFetchTimeline(id, f, token)), TL(s.view, f);
      && (t.loading ==> s' == s)
      && (!t.loading ==>
            && TL(s'.view, f) == t.(loading := true, loadingMore := false, error := false)
            && (forall g :: g != f ==> TL(s'.view, g) == TL(s.view, g) && Gen(s'.view, g) == Gen(s.view, g))
            && Gen(s'.view, f) == Gen(s.view, f) + 1 && s'.view.lifecycle == s.view.lifecycle
            && s'.pages.slots == s.pages.slots - {f} && s'.pages.entries == s.pages.entries
            && s'.loads == s.loads[id := Load(Capture(f, Gen(s.view, f) + 1, s.view.lifecycle, |s.log| + 1), token)]
            && s'.mores == s.mores && s'.cache == s.cache)
  {
  }

  // ---------------------------------------------------------------- scrolling and its failures

  /** The call waits for a page of its own cursor that is in its feed's slot. */
  ghost predicate Waits(s: State, id: nat, m: More, retry: bool) {
    && id in s.mores && s.mores[id] == m.(awaited := s.mores[id].awaited, retry := retry)
    && m.at.feed in s.pages.slots && s.pages.slots[m.at.feed] == s.mores[id].awaited
    && s.mores[id].awaited < |s.pages.entries| && s.pages.entries[s.mores[id].awaited].cursor == m.cursor
  }

  /** A current call at the feed's own cursor: it waits for the held page if that fits, and else for a new one. */
  lemma ConsumedWaits(s: State, id: nat, m: More, retry: Option<bool>, now: nat, stack: nat)
    requires PagesInv(s.view, s.pages) && IsCurrent(s.view, m.at) && stack >= 2
    requires NextCursor(m.at.feed, TL(s.view, m.at.feed)) == Some(m.cursor)
    ensures
      var s' := Consumed(s, id, m, retry, now, stack);
      && s'.view == s.view && s'.log == s.log && s'.loads == s.loads && s'.cache == s.cache && s'.handed == s.handed
      && id in s'.mores
      && s'.mores == s.mores[id := m.(awaited := s'.mores[id].awaited, retry := s'.mores[id].retry)]
      && (if Ready(s.pages, m, now) then
            && Waits(s', id, m, retry.None? || retry.value)
            && s'.pages == s.pages
          else Waits(s', id, m, false) && s'.mores[id].awaited >= |s.pages.entries|)
  {
    hide Consume, Ready, PagesInv, NextCursor, Stuck;
    CursorNotStuck(s.view, s.pages, m, now);
    OtherwiseOneReplacement(s.view, s.pages, m, retry, now, stack);
    if Ready(s.pages, m, now) {
      HeldIsAwaited(s.view, s.pages, m, retry, now);
    } else {
      MissedIsAskedFor(s.view, s.pages, m, retry, now);
    }
  }

  lemma CursorNotStuck(v: View, p: Pages, m: More, now: nat)
    requires NextCursor(m.at.feed, TL(v, m.at.feed)) == Some(m.cursor)
    ensures !Stuck(v, p, m, now)
  {
  }

  lemma HeldIsAwaited(v: View, p: Pages, m: More, retry: Option<bool>, now: nat)
    requires IsCurrent(v, m.at) && Ready(p, m, now)
    ensures Consume(v, p, m, retry, now, 2) == (p, Await(p.slots[m.at.feed], retry.None? || retry.value))
    ensures m.at.feed in p.slots && p.slots[m.at.feed] < |p.entries| && p.entries[p.slots[m.at.feed]].cursor == m.cursor
  {
    assert ConsumeOnce(v, p, m, retry, now) == Stop(p, Await(p.slots[m.at.feed], retry.None? || retry.value));
  }

  lemma MissedIsAskedFor(v: View, p: Pages, m: More, retry: Option<bool>, now: nat)
    requires PagesInv(v, p) && IsCurrent(v, m.at) && !Ready(p, m, now)
    requires NextCursor(m.at.feed, TL(v, m.at.feed)) == Some(m.cursor)
    ensures var (p', sync) := Consume(v, p, m, retry, now, 2);
      && m.at.feed in p'.slots && sync == Await(p'.slots[m.at.feed], false)
      && |p.entries| <= p'.slots[m.at.feed] < |p'.entries|
      && p'.entries[p'.slots[m.at.feed]].cursor == m.cursor
  {
    var f := m.at.feed;
    hide Evict, Unexpired;
    if f !in p.slots {
      var p1 := Start(v, p, f, m.token, false, now);
      assert Ready(p1, m, now);
      assert ConsumeOnce(v, p, m, retry, now) == Stop(p1, Await(p1.slots[f], false));
    } else {
      var p1 := Replaced(v, p, m, now);
      assert ConsumeOnce(v, p, m, retry, now) == Again(p1);
      assert Ready(p1, m, now);
      assert ConsumeOnce(v, p1, m, Some(false), now) == Stop(p1, Await(p1.slots[f], false));
      assert Consume(v, p, m, retry, now, 2) == Consume(v, p1, m, Some(false), now, 1);
    }
  }

  /** When a scroll does something, and what. */
  lemma ScrollStarts(s: State, id: nat, f: Feed, token: Option<string>, now: nat, stack: nat)
    requires PagesInv(s.view, s.pages) && id !in s.mores && stack >= 2
    ensures
      var s', t := Step(s, DoFetchMore(id, f, token, now, stack)), TL(s.view, f);
      var cursor := if f == Recommended then t.nextPage else t.maxId;
      if t.loadingMore || !t.hasMore then s' == s
      else if cursor.None? || cursor.value == "" then s' == s.(view := Put(s.view, f, t.(hasMore := false)))
      else
        var m := More(Capture(f, Gen(s.view, f), s.view.lifecycle, |s.log|), token, cursor.value, false, 0);
        && TL(s'.view, f) == t.(loadingMore := true, error := false) && OnlyFeedDiffers(s, s', f)
        && if Ready(s.pages, m, now) then Waits(s', id, m, true) && s'.pages == s.pages
           else Waits(s', id, m, false) && s'.mores[id].awaited >= |s.pages.entries|
  {
    hide Consumed, PagesInv, Ready;
    var t := TL(s.view, f);
    var cursor := NextCursor(f, t);
    if !t.loadingMore && t.hasMore && cursor.Some? {
      var v' := Put(s.view, f, t.(loadingMore := true, error := false));
      var m := More(Capture(f, Gen(s.view, f), s.view.lifecycle, |s.log|), token, cursor.value, false, 0);
      PagesInvView(s.view, v', s.pages);
      assert NextCursor(f, TL(v', f)) == cursor;
      ConsumedWaits(s.(view := v'), id, m, None, now, stack);
    }
  }

  /** A failed speculative page is asked for once more, without another try; a second failure ends the scroll with an error. */
  lemma FailedPageIsRetriedOnce(s: State, id: nat, now: nat, stack: nat)
    requires PagesInv(s.view, s.pages) && Enabled(s, DoResumeMore(id, now, stack)) && stack >= 2
    requires var m := s.mores[id]; IsCurrent(s.view, m.at) && Holds(s.pages, m.at.feed, m.awaited)
    requires s.pages.entries[s.mores[id].awaited].outcome == Some(Failed)
    ensures
      var m, s' := s.mores[id], Step(s, DoResumeMore(id, now, stack));
      var f := m.at.feed;
      var t, t' := TL(s.view, f), TL(s'.view, f);
      && (m.retry && NextCursor(f, t) == Some(m.cursor) ==>
            s'.view == s.view && Waits(s', id, m, false) && s'.mores[id].awaited >= |s.pages.entries|)
      && (!m.retry ==>
            && OnlyFeedDiffers(s, s', f) && s'.mores == s.mores - {id} && f !in s'.pages.slots
            && t' == (if f == Recommended then t.(error := true, loadingMore := false, hasMore := false, nextPage := None)
                      else t.(error := true, loadingMore := false)))
  {
    var m, s0 := s.mores[id], s.(mores := s.mores - {id});
    var f := m.at.feed;
    if m.retry && NextCursor(f, TL(s.view, f)) == Some(m.cursor) {
      var p' := Replaced(s.view, s.pages, m, now);
      ReplacedKeeps(s.view, s.pages, m, now);
      StartFills(s.view, Remove(s.pages, f), m, now);
      ReplacedIsNew(s.view, s.pages, m, now);
      ConsumedWaits(s0.(pages := p'), id, m, Some(false), now, stack);
    }
    hide Consumed, Replaced, PagesInv;
  }

  lemma ReplacedIsNew(v: View, p: Pages, m: More, now: nat)
    requires NextCursor(m.at.feed, TL(v, m.at.feed)).Some?
    ensures var p' := Replaced(v, p, m, now); m.at.feed in p'.slots && p'.slots[m.at.feed] == |p.entries| < |p'.entries|
  {
    hide Evict, Unexpired;
  }

  /** A marked or matched page is not appended: the call waits for a new one. */
  lemma AffectedPageIsAskedAgain(s: State, id: nat, now: nat, stack: nat)
    requires PagesInv(s.view, s.pages) && Enabled(s, DoResumeMore(id, now, stack)) && stack >= 2
    requires var m := s.mores[id]; IsCurrent(s.view, m.at) && Holds(s.pages, m.at.feed, m.awaited) && !Good(s, m)
    requires var m := s.mores[id]; NextCursor(m.at.feed, TL(s.view, m.at.feed)) == Some(m.cursor)
    requires s.pages.entries[s.mores[id].awaited].outcome.value.Page?
    ensures
      var m, s' := s.mores[id], Step(s, DoResumeMore(id, now, stack));
      && s'.view == s.view && id in s'.mores && s'.mores[id].awaited >= |s.pages.entries|
      && Waits(s', id, m, s.pages.entries[m.awaited].token == m.token && m.retry)
  {
    var m, s0 := s.mores[id], s.(mores := s.mores - {id});
    var f, e := m.at.feed, s.pages.entries[m.awaited];
    GoodMeansFresh(e);
    var p' := Restart(s.view, s.pages, f, m.awaited, now);
    StartKeeps(s.view, s.pages, f, e.token, true, now);
    RestartIsNew(s.view, s.pages, f, m.awaited, now);
    ConsumedWaits(s0.(pages := p'), id, m, Some(m.retry), now, stack);
    hide Consumed, Restart, PagesInv, NeedsRefresh;
  }

  lemma RestartIsNew(v: View, p: Pages, f: Feed, e: nat, now: nat)
    requires Holds(p, f, e) && NextCursor(f, TL(v, f)).Some?
    ensures var p' := Restart(v, p, f, e, now);
      && f in p'.slots && p'.slots[f] == |p.entries| && |p'.entries| == |p.entries| + 1
      && p'.entries[|p.entries|]
         == Entry(f, p.entries[e].token, NextCursor(f, TL(v, f)).value, Gen(v, f), v.lifecycle, now + 240_000, [], false, None)
  {
    hide Evict, Unexpired;
  }

  lemma {:induction false} EvictedAreOldest(slots: map<Feed, nat>)
    ensures var r := Evict(slots);
      && (if |slots| < 24 then r == slots else |r| == 23)
      && (forall f :: f in r ==> f in slots && r[f] == slots[f])
      && (forall f, g :: f in slots && f !in r && g in r ==> slots[f] <= slots[g])
    decreases |slots|
  {
    if |slots| >= 24 {
      var oldest := Oldest(slots);
      assert (slots - {oldest}).Keys == slots.Keys - {oldest};
      EvictedAreOldest(slots - {oldest});
    }
  }

  /**
   * Before a page is asked for, those past their time are dropped; of the others the oldest, and only if there are
   * more than 23 besides the feed's own.
   */
  lemma CleanupExactly(p: Pages, now: nat)
    ensures var p' := Cleanup(p, now);
      && p' == p.(slots := p'.slots) && |p'.slots| <= 23
      && (forall f :: f in p'.slots ==>
            f in p.slots && p'.slots[f] == p.slots[f] < |p.entries| && p.entries[p.slots[f]].expiresAt > now)
      && (forall f :: f in p.slots && p.slots[f] < |p.entries| && p.entries[p.slots[f]].expiresAt > now && f !in p'.slots ==>
            |p'.slots| == 23 && forall g :: g in p'.slots ==> p.slots[f] <= p.slots[g])
  {
    EvictedAreOldest(Unexpired(p.entries, p.slots, now));
    hide Evict;
  }

  // ---------------------------------------------------------------- restarts

  /** The page of `f` is gone from the slot, or another than the first `n`. */
  ghost predicate NewerThan(p: Pages, f: Feed, n: nat) {
    f in p.slots ==> p.slots[f] >= n
  }

  lemma {:induction false} EvictKeepsNewer(slots: map<Feed, nat>)
    ensures Within(Evict(slots), slots)
  {
  }

  lemma RestartKeepsNewer(v: View, p: Pages, g: Feed, e: nat, now: nat, f: Feed, n: nat)
    requires NewerThan(p, f, n) && n <= |p.entries|
    ensures NewerThan(Restart(v, p, g, e, now), f, n) && |p.entries| <= |Restart(v, p, g, e, now).entries|
  {
    EvictKeepsNewer(Unexpired(p.entries, p.slots - {g}, now));
    hide Evict;
  }

  lemma RestartLeavesOrDrops(v: View, p: Pages, g: Feed, e: nat, now: nat, f: Feed)
    requires f != g && f in p.slots
    ensures var p' := Restart(v, p, g, e, now);
      (f in p'.slots ==> p'.slots[f] == p.slots[f]) && |p.entries| <= |p'.entries|
  {
    EvictKeepsNewer(Unexpired(p.entries, p.slots - {g}, now));
    hide Evict;
  }

  lemma {:induction false} RestartAllReplaces(v: View, p: Pages, restarts: seq<(Feed, nat)>, now: nat, f: Feed, n: nat)
    requires n <= |p.entries| && (NewerThan(p, f, n) || (Holds(p, f, p.slots[f]) && (f, p.slots[f]) in restarts))
    ensures NewerThan(RestartAll(v, p, restarts, now), f, n)
    decreases |restarts|
  {
    if restarts != [] {
      var (g, e) := restarts[0];
      var p' := Restart(v, p, g, e, now);
      if NewerThan(p, f, n) {
        RestartKeepsNewer(v, p, g, e, now, f, n);
      } else if (g, e) == (f, p.slots[f]) {
        RestartedIsNewer(v, p, f, e, now);
      } else if g == f {
        assert p' == p;
      } else {
        RestartLeavesOrDrops(v, p, g, e, now, f);
      }
      hide Restart;
      RestartAllReplaces(v, p', restarts[1..], now, f, n);
    }
  }

  lemma RestartedIsNewer(v: View, p: Pages, f: Feed, e: nat, now: nat)
    requires Holds(p, f, e)
    ensures NewerThan(Restart(v, p, f, e, now), f, |p.entries|) && |p.entries| <= |Restart(v, p, f, e, now).entries|
  {
    hide Evict, Unexpired;
  }

  /** No page that was queued for a restart is held after the microtask. */
  lemma MicrotaskReplacesQueued(s: State, now: nat, f: Feed, e: nat)
    requires s.pages.restartQueued && (f, e) in s.pages.queued && Holds(s.pages, f, e)
    ensures !Holds(Step(s, DoMicrotask(now)).pages, f, e)
  {
    RestartAllReplaces(s.view, s.pages.(restartQueued := false, queued := []), s.pages.queued, now, f, |s.pages.entries|);
  }

  // ---------------------------------------------------------------- what a removal leaves to do

  lemma {:induction false} Enqueued(queued: seq<(Feed, nat)>, f: Feed, e: nat, g: Feed, d: nat)
    ensures (f, e) in Enqueue(queued, f, e)
    ensures g != f && (g, d) in queued ==> (g, d) in Enqueue(queued, f, e)
  {
    if queued != [] {
      assert queued == [queued[0]] + queued[1..];
      Enqueued(queued[1..], f, e, g, d);
    }
  }

  /** The page of `f` will be restarted, or looked at once it has settled. */
  ghost predicate Followed(p: Pages, f: Feed, affected: set<Feed>) {
    && f in p.slots
    && if f in affected && f != Recommended then (f, p.slots[f]) in p.queued && p.restartQueued
       else Callback(f, p.slots[f], f in affected) in p.callbacks
  }

  lemma RefreshOneSlots(p: Pages, f: Feed, pred: Predicate, forced: bool)
    requires SlotsPoint(p)
    ensures var p' := RefreshOne(p, f, pred, forced); SlotsPoint(p') && p'.slots == p.slots
    ensures f in p.slots ==> p.slots[f] < |p.entries|
  {
    hide Enqueue;
  }

  lemma RefreshOneFollows(p: Pages, f: Feed, pred: Predicate, affected: set<Feed>, g: Feed)
    requires SlotsPoint(p)
    ensures var p' := RefreshOne(p, f, pred, f in affected);
      && SlotsPoint(p') && p'.slots == p.slots && (f in p.slots ==> Followed(p', f, affected))
      && (g != f && Followed(p, g, affected) ==> Followed(p', g, affected))
  {
    RefreshOneSlots(p, f, pred, f in affected);
    hide SlotsPoint;
    if f in p.slots {
      Enqueued(p.queued, f, p.slots[f], g, if g in p.slots then p.slots[g] else 0);
    }
    hide Enqueue;
  }

  lemma {:induction false} RefreshEachFollows(p: Pages, feeds: seq<Feed>, pred: Predicate, affected: set<Feed>, g: Feed)
    requires SlotsPoint(p) && g in p.slots
    requires g in feeds || Followed(p, g, affected)
    ensures Followed(RefreshEach(p, feeds, pred, affected), g, affected)
    decreases |feeds|
  {
    if feeds != [] {
      RefreshOneFollows(p, feeds[0], pred, affected, g);
      hide RefreshOne;
      RefreshEachFollows(RefreshOne(p, feeds[0], pred, feeds[0] in affected), feeds[1..], pred, affected, g);
    }
  }

  /**
   * A removal leaves every held page with something to do: the page of a feed that lost a status is queued to be asked
   * for again (a recommended one once it has settled), any other is looked at when it has settled.
   */
  lemma RemovalFollowsPages(s: State, id: string, f: Feed)
    requires PagesInv(s.view, s.pages) && f in s.pages.slots
    ensures
      var s' := Step(s, DoRemoveStatus(id));
      var lost := f in s.view.timelines && TL(s'.view, f) != TL(s.view, f);
      && s'.pages.slots == s.pages.slots
      && if lost && f != Recommended then (f, s.pages.slots[f]) in s'.pages.queued && Enabled(s', DoMicrotask(0))
         else Callback(f, s.pages.slots[f], lost) in s'.pages.callbacks
  {
    hide RemoveStatus, PagesInv, SlotsPoint, RefreshAffected, Affects, AffectedBy, RemovedIds, StrippedView;
    var removed := RemovedIds(s.cache, id);
    HeldPagesPoint(s.view, s.pages);
    RefreshFollows(s.pages, Affects(removed), AffectedBy(s.view, removed), f);
    RemoveStrips(s, id);
    RemoveRefreshes(s, id);
    LostIffAffected(s.view, removed, f);
  }

  lemma HeldPagesPoint(v: View, p: Pages)
    requires PagesInv(v, p)
    ensures SlotsPoint(p)
  {
    forall g <- p.slots ensures p.slots[g] < |p.entries| && p.entries[p.slots[g]].feed == g {
      assert SlotOk(v, p, g);
    }
  }

  ghost function AffectedBy(v: View, removed: set<string>): set<Feed> {
    set g | g in v.timelines && Shrinks(v.timelines[g], removed)
  }

  lemma RemoveRefreshes(s: State, id: string)
    ensures var removed := RemovedIds(s.cache, id);
      RemoveStatus(s, id).pages == RefreshAffected(s.pages, Affects(removed), AffectedBy(s.view, removed))
  {
    hide RefreshAffected, Shrinks, RemovedIds, Stripped, Affects;
  }

  lemma RefreshFollows(p: Pages, pred: Predicate, affected: set<Feed>, f: Feed)
    requires SlotsPoint(p) && f in p.slots
    ensures var p' := RefreshAffected(p, pred, affected); p'.slots == p.slots && Followed(p', f, affected)
  {
    InsertionOrderLists(p.slots);
    RefreshMarks(p, pred, affected);
    RefreshEachFollows(p, InsertionOrder(p.slots), pred, affected, f);
    hide InsertionOrder, RefreshEach;
  }

  lemma LostIffAffected(v: View, removed: set<string>, f: Feed)
    ensures f in AffectedBy(v, removed) <==> f in v.timelines && TL(StrippedView(v, removed), f) != TL(v, f)
  {
    if f in v.timelines { ShrinksIffChanged(v.timelines[f], removed); }
    hide Shrinks, Stripped;
  }

  lemma {:induction false} SameLengthSame(ids: seq<string>, removed: set<string>)
    ensures |Without(ids, removed)| == |ids| <==> Without(ids, removed) == ids
  {
    if ids != [] {
      SameLengthSame(ids[1..], removed);
      assert ids == [ids[0]] + ids[1..];
    }
  }

  lemma ShrinksIffChanged(t: Timeline, removed: set<string>)
    ensures Shrinks(t, removed) <==> Stripped(t, removed) != t
  {
    SameLengthSame(t.statusIds, removed);
    SameLengthSame(t.newStatusIds, removed);
  }
}
