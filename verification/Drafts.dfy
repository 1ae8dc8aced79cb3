/** The offline draft store as a state machine (siliconbeest/src/stores/drafts.ts). */
module DraftsProtocol {
  import opened Wrappers

  const MAX_DRAFTS := 50

  /** `content` stands for everything the author writes; time stamps are numbers. */
  datatype Draft = Draft(
    id: string, revision: nat, content: string, createdAt: int, updatedAt: int, pendingSync: bool)

  // ---------------------------------------------------------------- lists of drafts

  ghost predicate Has(ds: seq<Draft>, id: string) {
    exists d :: d in ds && d.id == id
  }

  function Find(ds: seq<Draft>, id: string): Option<Draft> {
    if ds == [] then None else if ds[0].id == id then Some(ds[0]) else Find(ds[1..], id)
  }

  function Without(ds: seq<Draft>, id: string): seq<Draft> {
    if ds == [] then [] else (if ds[0].id == id then [] else [ds[0]]) + Without(ds[1..], id)
  }

  /** No two drafts share an id. */
  ghost predicate Distinct(ds: seq<Draft>) {
    forall i, j :: 0 <= i < j < |ds| ==> ds[i].id != ds[j].id
  }

  /** Newest first; of two equally old drafts the one that came first stays first. */
  function Insert(d: Draft, ds: seq<Draft>): seq<Draft> {
    if ds == [] || ds[0].updatedAt <= d.updatedAt then [d] + ds else [ds[0]] + Insert(d, ds[1..])
  }

  function Sort(ds: seq<Draft>): seq<Draft> {
    if ds == [] then [] else Insert(ds[0], Sort(ds[1..]))
  }

  /** `sorted`: the newest fifty. */
  function Sorted(ds: seq<Draft>): seq<Draft> {
    var all := Sort(ds);
    if |all| <= MAX_DRAFTS then all else all[..MAX_DRAFTS]
  }

  ghost predicate NewestFirst(ds: seq<Draft>) {
    forall i, j :: 0 <= i < j < |ds| ==> ds[i].updatedAt >= ds[j].updatedAt
  }

  lemma {:induction false} InsertMembers(d: Draft, ds: seq<Draft>)
    ensures |Insert(d, ds)| == |ds| + 1
    ensures forall x :: x in Insert(d, ds) <==> x == d || x in ds
  {
    if ds != [] && ds[0].updatedAt > d.updatedAt {
      InsertMembers(d, ds[1..]);
      assert ds == [ds[0]] + ds[1..];
    }
  }

  lemma {:induction false} InsertInOrder(d: Draft, ds: seq<Draft>)
    requires NewestFirst(ds)
    ensures NewestFirst(Insert(d, ds))
  {
    if ds != [] && ds[0].updatedAt > d.updatedAt {
      var rest := Insert(d, ds[1..]);
      InsertInOrder(d, ds[1..]);
      InsertMembers(d, ds[1..]);
      assert forall x :: x in ds[1..] ==> ds[0].updatedAt >= x.updatedAt;
      assert forall x :: x in rest ==> ds[0].updatedAt >= x.updatedAt;
      assert Insert(d, ds) == [ds[0]] + rest;
    }
  }

  lemma {:induction false} InsertDistinct(d: Draft, ds: seq<Draft>)
    requires Distinct(ds) && forall x :: x in ds ==> x.id != d.id
    ensures Distinct(Insert(d, ds))
  {
    if ds != [] && ds[0].updatedAt > d.updatedAt {
      var rest := Insert(d, ds[1..]);
      assert forall x :: x in ds[1..] ==> x in ds;
      InsertDistinct(d, ds[1..]);
      InsertMembers(d, ds[1..]);
      assert forall x :: x in ds[1..] ==> ds[0].id != x.id;
      assert forall x :: x in rest ==> ds[0].id != x.id;
      assert Insert(d, ds) == [ds[0]] + rest;
    }
  }

  lemma {:induction false} SortFacts(ds: seq<Draft>)
    ensures |Sort(ds)| == |ds|
    ensures forall x :: x in Sort(ds) <==> x in ds
    ensures NewestFirst(Sort(ds))
    ensures Distinct(ds) ==> Distinct(Sort(ds))
  {
    if ds != [] {
      var rest := Sort(ds[1..]);
      SortFacts(ds[1..]);
      InsertMembers(ds[0], rest);
      InsertInOrder(ds[0], rest);
      assert ds == [ds[0]] + ds[1..];
      if Distinct(ds) { InsertDistinct(ds[0], rest); }
    }
  }

  /** Sorting and capping loses a draft only to fifty others that are no older. */
  lemma SortedFacts(ds: seq<Draft>)
    ensures |Sorted(ds)| <= MAX_DRAFTS && (|ds| <= MAX_DRAFTS ==> |Sorted(ds)| == |ds|)
    ensures NewestFirst(Sorted(ds)) && (Distinct(ds) ==> Distinct(Sorted(ds)))
    ensures forall x :: x in Sorted(ds) ==> x in ds
    ensures forall x :: x in ds && x !in Sorted(ds) ==> Crowded(Sorted(ds), x)
  {
    SortFacts(ds);
    var all := Sort(ds);
    if |all| > MAX_DRAFTS {
      forall x | x in ds && x !in Sorted(ds) ensures Crowded(Sorted(ds), x) {
        var k :| 0 <= k < |all| && all[k] == x;
      }
    }
  }

  /** The list is full of drafts no older than `x`. */
  ghost predicate Crowded(ds: seq<Draft>, x: Draft) {
    |ds| == MAX_DRAFTS && forall y :: y in ds ==> y.updatedAt >= x.updatedAt
  }

  lemma {:induction false} WithoutFacts(ds: seq<Draft>, id: string)
    ensures |Without(ds, id)| <= |ds|
    ensures forall x :: x in Without(ds, id) <==> x in ds && x.id != id
    ensures Distinct(ds) ==> Distinct(Without(ds, id))
    ensures Has(ds, id) ==> |Without(ds, id)| < |ds|
  {
    if ds != [] {
      WithoutFacts(ds[1..], id);
      assert ds == [ds[0]] + ds[1..];
      assert Has(ds, id) ==> ds[0].id == id || Has(ds[1..], id);
    }
  }

  lemma {:induction false} FindFacts(ds: seq<Draft>, id: string)
    ensures Find(ds, id).Some? <==> Has(ds, id)
    ensures Find(ds, id).Some? ==> Find(ds, id).value in ds && Find(ds, id).value.id == id
    ensures Distinct(ds) ==> forall x :: x in ds && x.id == id ==> Find(ds, id) == Some(x)
  {
    if ds != [] {
      FindFacts(ds[1..], id);
      assert ds == [ds[0]] + ds[1..];
      assert Has(ds, id) ==> ds[0].id == id || Has(ds[1..], id);
      assert ds[0] in ds;
    }
  }

  // ---------------------------------------------------------------- merging with the server's list

  /** What the server returns for a draft. */
  datatype ServerDraft = ServerDraft(id: string, revision: nat, content: string, createdAt: int, updatedAt: int)

  function FromServer(d: ServerDraft): Draft {
    Draft(d.id, d.revision, d.content, d.createdAt, d.updatedAt, false)
  }

  /** `Map.set`: an id already there keeps its place. */
  function Put(ds: seq<Draft>, d: Draft): seq<Draft> {
    if ds == [] then [d] else if ds[0].id == d.id then [d] + ds[1..] else [ds[0]] + Put(ds[1..], d)
  }

  function PutRemote(ds: seq<Draft>, data: seq<ServerDraft>): seq<Draft>
    decreases |data|
  {
    if data == [] then ds else PutRemote(Put(ds, FromServer(data[0])), data[1..])
  }

  /** An unsynced local draft stays unless the server holds its revision or a later one. */
  function PutLocal(ds: seq<Draft>, local: Draft): seq<Draft> {
    var remote := Find(ds, local.id);
    if local.pendingSync && (remote.None? || local.revision > remote.value.revision) then Put(ds, local) else ds
  }

  function PutLocals(ds: seq<Draft>, locals: seq<Draft>): seq<Draft>
    decreases |locals|
  {
    if locals == [] then ds else PutLocals(PutLocal(ds, locals[0]), locals[1..])
  }

  function WithoutAll(ds: seq<Draft>, ids: seq<string>): seq<Draft>
    decreases |ids|
  {
    if ids == [] then ds else WithoutAll(Without(ds, ids[0]), ids[1..])
  }

  function Merge(data: seq<ServerDraft>, locals: seq<Draft>, deletes: seq<string>): seq<Draft> {
    WithoutAll(PutLocals(PutRemote([], data), locals), deletes)
  }

  lemma {:induction false} PutFacts(ds: seq<Draft>, d: Draft)
    requires Distinct(ds)
    ensures Distinct(Put(ds, d))
    ensures forall x :: x in Put(ds, d) <==> x == d || (x in ds && x.id != d.id)
  {
    if ds != [] {
      assert ds == [ds[0]] + ds[1..];
      if ds[0].id != d.id {
        PutFacts(ds[1..], d);
        assert Put(ds, d)[1..] == Put(ds[1..], d);
      }
    }
  }

  lemma {:induction false} PutRemoteDistinct(ds: seq<Draft>, data: seq<ServerDraft>)
    requires Distinct(ds)
    ensures Distinct(PutRemote(ds, data))
    decreases |data|
  {
    if data != [] {
      PutFacts(ds, FromServer(data[0]));
      PutRemoteDistinct(Put(ds, FromServer(data[0])), data[1..]);
    }
  }

  lemma PutLocalFacts(ds: seq<Draft>, local: Draft)
    requires Distinct(ds)
    ensures Distinct(PutLocal(ds, local))
    ensures forall x: Draft :: x.id != local.id ==> (x in PutLocal(ds, local) <==> x in ds)
    ensures local.pendingSync ==> exists x :: x in PutLocal(ds, local) && x.id == local.id && x.revision >= local.revision
    ensures forall x :: x in PutLocal(ds, local) ==> x == local || x in ds
  {
    PutFacts(ds, local);
    FindFacts(ds, local.id);
    if local.pendingSync && PutLocal(ds, local) != ds { assert local in PutLocal(ds, local); }
  }

  /** Every unsynced local draft survives the merge in its own or a later revision. */
  lemma {:induction false} PutLocalsKeeps(ds: seq<Draft>, locals: seq<Draft>)
    requires Distinct(ds) && Distinct(locals)
    ensures Distinct(PutLocals(ds, locals))
    ensures forall x :: x in PutLocals(ds, locals) ==> x in locals || x in ds
    ensures forall x :: x in ds && !Has(locals, x.id) ==> x in PutLocals(ds, locals)
    ensures forall d :: d in locals && d.pendingSync ==> Outlives(PutLocals(ds, locals), d)
    decreases |locals|
  {
    if locals != [] {
      var local, rest := locals[0], locals[1..];
      var next := PutLocal(ds, local);
      PutLocalFacts(ds, local);
      PutLocalsKeeps(next, rest);
      var all := PutLocals(ds, locals);
      assert locals == [local] + rest;
      assert forall d :: d in rest ==> d.id != local.id;
      forall x | x in ds && !Has(locals, x.id) ensures x in all {
        assert local in locals && forall y :: y in rest ==> y in locals;
        assert !Has(rest, x.id);
      }
      forall d | d in locals && d.pendingSync ensures Outlives(all, d) {
        if d == local {
          var x :| x in next && x.id == d.id && x.revision >= d.revision;
          assert !Has(rest, x.id);
        }
      }
    }
  }

  /** Some draft of the list is `d` in its own or a later revision. */
  ghost predicate Outlives(ds: seq<Draft>, d: Draft) {
    exists x :: x in ds && x.id == d.id && x.revision >= d.revision
  }

  lemma {:induction false} WithoutAllFacts(ds: seq<Draft>, ids: seq<string>)
    ensures forall x :: x in WithoutAll(ds, ids) <==> x in ds && x.id !in ids
    ensures Distinct(ds) ==> Distinct(WithoutAll(ds, ids))
    decreases |ids|
  {
    if ids != [] {
      WithoutFacts(ds, ids[0]);
      WithoutAllFacts(Without(ds, ids[0]), ids[1..]);
      assert ids == [ids[0]] + ids[1..];
    }
  }

  lemma MergeFacts(data: seq<ServerDraft>, locals: seq<Draft>, deletes: seq<string>)
    requires Distinct(locals)
    ensures Distinct(Merge(data, locals, deletes))
    ensures forall x :: x in Merge(data, locals, deletes) ==> x.id !in deletes
    ensures forall d :: d in locals && d.pendingSync && d.id !in deletes ==> Outlives(Merge(data, locals, deletes), d)
  {
    var remote := PutRemote([], data);
    PutRemoteDistinct([], data);
    PutLocalsKeeps(remote, locals);
    WithoutAllFacts(PutLocals(remote, locals), deletes);
    forall d | d in locals && d.pendingSync && d.id !in deletes ensures Outlives(Merge(data, locals, deletes), d) {
      assert Outlives(PutLocals(remote, locals), d);
    }
  }

  lemma {:induction false} PutRemoteOrigins(ds: seq<Draft>, data: seq<ServerDraft>)
    requires Distinct(ds)
    ensures forall x :: x in PutRemote(ds, data) ==> x in ds || exists r :: r in data && x == FromServer(r)
    decreases |data|
  {
    if data != [] {
      var next := Put(ds, FromServer(data[0]));
      PutFacts(ds, FromServer(data[0]));
      PutRemoteOrigins(next, data[1..]);
      assert data == [data[0]] + data[1..];
    }
  }

  /** Whatever a merge shows came from one of the two sides. */
  lemma MergeOrigins(data: seq<ServerDraft>, locals: seq<Draft>, deletes: seq<string>)
    requires Distinct(locals)
    ensures forall x :: x in Merge(data, locals, deletes) ==> x in locals || exists r :: r in data && x == FromServer(r)
  {
    var remote := PutRemote([], data);
    PutRemoteDistinct([], data);
    PutRemoteOrigins([], data);
    PutLocalsKeeps(remote, locals);
    WithoutAllFacts(PutLocals(remote, locals), deletes);
  }

  lemma {:induction false} PutRemoteIds(ds: seq<Draft>, data: seq<ServerDraft>, id: string)
    requires Distinct(ds) && !Has(ds, id) && forall r :: r in data ==> r.id != id
    ensures !Has(PutRemote(ds, data), id)
    decreases |data|
  {
    if data != [] {
      PutFacts(ds, FromServer(data[0]));
      assert data[0] in data;
      PutRemoteIds(Put(ds, FromServer(data[0])), data[1..], id);
    }
  }

  /** The merge holds no id that neither side had. */
  lemma MergeIds(data: seq<ServerDraft>, locals: seq<Draft>, deletes: seq<string>, id: string)
    requires Distinct(locals) && !Has(locals, id)
    requires id in deletes || forall r :: r in data ==> r.id != id
    ensures !Has(Merge(data, locals, deletes), id)
  {
    MergeFacts(data, locals, deletes);
    if id !in deletes {
      var remote := PutRemote([], data);
      PutRemoteDistinct([], data);
      PutRemoteIds([], data, id);
      PutLocalsKeeps(remote, locals);
      WithoutAllFacts(PutLocals(remote, locals), deletes);
    }
  }

  // ---------------------------------------------------------------- the store

  /** What is kept per account in the browser's storage. */
  datatype Local = Local(drafts: seq<Draft>, pendingDeletes: seq<string>)

  datatype State = State(
    local: Local, active: Option<string>, account: Option<string>, generation: nat,
    storage: map<string, Local>, user: Option<string>, token: Option<string>)

  /** What the author submits, and whether anything is in it. */
  datatype Input = Input(content: string, filled: bool)

  function Unique(ids: seq<string>): seq<string> {
    if ids == [] then []
    else
      var front := Unique(ids[..|ids| - 1]);
      if ids[|ids| - 1] in front then front else front + [ids[|ids| - 1]]
  }

  function WithoutId(ids: seq<string>, id: string): seq<string> {
    if ids == [] then [] else (if ids[0] == id then [] else [ids[0]]) + WithoutId(ids[1..], id)
  }

  /** `persist`; `stored` says whether the storage accepted it. */
  function Persist(s: State, stored: bool): State {
    if stored && s.account.Some? then s.(storage := s.storage[s.account.value := s.local]) else s
  }

  function LoadLocal(s: State, next: Option<string>): State {
    var local := if next.Some? && next.value in s.storage then s.storage[next.value] else Local([], []);
    s.(account := next, active := None, local := Local(Sorted(local.drafts), Unique(local.pendingDeletes)))
  }

  /** A reply is dropped when the account or token it was requested for is no longer the current one. */
  predicate Current(s: State, account: string, token: string) {
    s.account == Some(account) && s.user == Some(account) && s.token == Some(token)
  }

  /** The reply to saving `id` on the server. */
  function SyncReply(s: State, account: string, token: string, data: ServerDraft, stored: bool): State {
    var current := Find(s.local.drafts, data.id);
    if !Current(s, account, token) || current.None? || data.id in s.local.pendingDeletes
       || current.value.revision > data.revision then s
    else
      Persist(s.(local := s.local.(drafts := Sorted([FromServer(data)] + Without(s.local.drafts, data.id)))), stored)
  }

  function DeleteReply(s: State, account: string, token: string, id: string, stored: bool): State {
    if !Current(s, account, token) then s
    else Persist(s.(local := s.local.(pendingDeletes := WithoutId(s.local.pendingDeletes, id))), stored)
  }

  function ListReply(s: State, account: string, generation: nat, data: seq<ServerDraft>, stored: bool): State {
    if generation != s.generation || s.account != Some(account) then s
    else
      Persist(s.(local := s.local.(drafts := Sorted(Merge(data, s.local.drafts, s.local.pendingDeletes)))), stored)
  }

  function Refresh(s: State): State {
    if s.user.None? || s.token.None? then s
    else
      var loaded := if s.account != s.user then LoadLocal(s, s.user) else s;
      loaded.(generation := loaded.generation + 1)
  }

  function Remove(s: State, id: string, stored: bool): State {
    Persist(
      s.(local := Local(Without(s.local.drafts, id), Unique(s.local.pendingDeletes + [id])),
         active := if s.active == Some(id) then None else s.active), stored)
  }

  /** The draft a save writes: the active one in its next revision, or a new one. */
  function NextDraft(s: State, content: string, now: int, freshId: string): Draft {
    match (if s.active.Some? then Find(s.local.drafts, s.active.value) else None)
    case Some(d) => Draft(d.id, d.revision + 1, content, d.createdAt, now, true)
    case None => Draft(freshId, 1, content, now, now, true)
  }

  function Save(s: State, input: Input, now: int, freshId: string, stored: bool): State {
    if s.account.None? then s
    else if !input.filled then if s.active.Some? then Remove(s, s.active.value, stored) else s
    else
      var draft := NextDraft(s, input.content, now, freshId);
      Persist(
        s.(local := Local(Sorted([draft] + Without(s.local.drafts, draft.id)), WithoutId(s.local.pendingDeletes, draft.id)),
           active := Some(draft.id)), stored)
  }

  function Select(s: State, id: string): State {
    s.(active := if Find(s.local.drafts, id).Some? then Some(id) else None)
  }

  /** The watcher of the signed-in user. */
  function Watch(s: State): State {
    LoadLocal(s.(generation := s.generation + 1), s.user)
  }

  /**
   * Everything that can happen, in any order. Replies carry what their request captured; nothing ties
   * them to a request, so late, repeated and reordered replies are all included.
   */
  datatype Event =
    | SaveDraft(input: Input, now: int, freshId: string, stored: bool)
    | RemoveDraft(id: string, stored: bool)
    | SelectDraft(id: string)
    | StartFresh
    | Saved(account: string, token: string, data: ServerDraft, stored: bool)
    | Deleted(account: string, token: string, id: string, stored: bool)
    | Listed(account: string, generation: nat, list: seq<ServerDraft>, stored: bool)
    | RefreshDrafts
    | UserWatched
    | SignedIn(newUser: Option<string>, newToken: Option<string>)
    | OtherTab(account: string, local: Local)

  ghost function Step(s: State, e: Event): State {
    match e
    case SaveDraft(input, now, freshId, stored) => Save(s, input, now, freshId, stored)
    case RemoveDraft(id, stored) => Remove(s, id, stored)
    case SelectDraft(id) => Select(s, id)
    case StartFresh => s.(active := None)
    case Saved(account, token, data, stored) => SyncReply(s, account, token, data, stored)
    case Deleted(account, token, id, stored) => DeleteReply(s, account, token, id, stored)
    case Listed(account, generation, list, stored) => ListReply(s, account, generation, list, stored)
    case RefreshDrafts => Refresh(s)
    case UserWatched => Watch(s)
    case SignedIn(user, token) => s.(user := user, token := token)
    case OtherTab(account, local) => if Good(local) then s.(storage := s.storage[account := local]) else s
  }

  ghost function Run(s: State, events: seq<Event>): State
    decreases |events|
  {
    if events == [] then s else Run(Step(s, events[0]), events[1..])
  }

  // ---------------------------------------------------------------- what always holds

  ghost predicate NoRepeats(ids: seq<string>) {
    forall i, j :: 0 <= i < j < |ids| ==> ids[i] != ids[j]
  }

  /** Distinct ids, at most fifty, none of them waiting for deletion; no deletion waits twice. */
  ghost predicate Good(l: Local) {
    && Distinct(l.drafts) && |l.drafts| <= MAX_DRAFTS
    && (forall d :: d in l.drafts ==> d.id !in l.pendingDeletes)
    && NoRepeats(l.pendingDeletes)
  }

  ghost predicate Inv(s: State) {
    Good(s.local) && forall a :: a in s.storage ==> Good(s.storage[a])
  }

  lemma {:induction false} UniqueFacts(ids: seq<string>)
    ensures forall x :: x in Unique(ids) <==> x in ids
    ensures NoRepeats(Unique(ids))
  {
    if ids != [] {
      UniqueFacts(ids[..|ids| - 1]);
      assert ids == ids[..|ids| - 1] + [ids[|ids| - 1]];
    }
  }

  lemma {:induction false} WithoutIdFacts(ids: seq<string>, id: string)
    ensures forall x :: x in WithoutId(ids, id) <==> x in ids && x != id
    ensures NoRepeats(ids) ==> NoRepeats(WithoutId(ids, id))
  {
    if ids != [] {
      WithoutIdFacts(ids[1..], id);
      assert ids == [ids[0]] + ids[1..];
      assert NoRepeats(ids) ==> ids[0] !in WithoutId(ids[1..], id);
      assert WithoutId(ids, id) == (if ids[0] == id then [] else [ids[0]]) + WithoutId(ids[1..], id);
    }
  }

  lemma SortedGood(drafts: seq<Draft>, deletes: seq<string>)
    requires Distinct(drafts) && forall d :: d in drafts ==> d.id !in deletes
    ensures Good(Local(Sorted(drafts), Unique(deletes)))
    ensures NoRepeats(deletes) ==> Good(Local(Sorted(drafts), deletes))
  {
    SortedFacts(drafts);
    UniqueFacts(deletes);
  }

  lemma LoadKeepsInv(s: State, next: Option<string>)
    requires Inv(s)
    ensures Inv(LoadLocal(s, next))
  {
    var local := if next.Some? && next.value in s.storage then s.storage[next.value] else Local([], []);
    assert Good(local);
    SortedGood(local.drafts, local.pendingDeletes);
  }

  /** Putting a draft in front of the others. */
  lemma FrontGood(l: Local, d: Draft, deletes: seq<string>)
    requires Good(l) && Good(Local([], deletes)) && d.id !in deletes
    requires forall x :: x in deletes ==> x in l.pendingDeletes
    ensures Good(Local(Sorted([d] + Without(l.drafts, d.id)), deletes))
  {
    WithoutFacts(l.drafts, d.id);
    var all := [d] + Without(l.drafts, d.id);
    assert forall x :: x in all ==> x == d || x in Without(l.drafts, d.id);
    SortedGood(all, deletes);
  }

  lemma RemoveKeepsInv(s: State, id: string, stored: bool)
    requires Inv(s)
    ensures Inv(Remove(s, id, stored))
  {
    WithoutFacts(s.local.drafts, id);
    UniqueFacts(s.local.pendingDeletes + [id]);
  }

  lemma SaveKeepsInv(s: State, input: Input, now: int, freshId: string, stored: bool)
    requires Inv(s)
    ensures Inv(Save(s, input, now, freshId, stored))
  {
    if s.account.Some? && !input.filled && s.active.Some? { RemoveKeepsInv(s, s.active.value, stored); }
    if s.account.Some? && input.filled {
      var draft := NextDraft(s, input.content, now, freshId);
      WithoutIdFacts(s.local.pendingDeletes, draft.id);
      FrontGood(s.local, draft, WithoutId(s.local.pendingDeletes, draft.id));
      hide Good;
    }
  }

  lemma RepliesKeepInv(s: State, e: Event)
    requires Inv(s) && (e.Saved? || e.Deleted? || e.Listed?)
    ensures Inv(Step(s, e))
  {
    match e
    case Saved(_, _, data, _) =>
      FindFacts(s.local.drafts, data.id);
      if data.id !in s.local.pendingDeletes { FrontGood(s.local, FromServer(data), s.local.pendingDeletes); }
    case Deleted(_, _, id, _) =>
      WithoutIdFacts(s.local.pendingDeletes, id);
    case Listed(_, _, list, _) =>
      MergeFacts(list, s.local.drafts, s.local.pendingDeletes);
      SortedGood(Merge(list, s.local.drafts, s.local.pendingDeletes), s.local.pendingDeletes);
  }

  lemma StepKeepsInv(s: State, e: Event)
    requires Inv(s)
    ensures Inv(Step(s, e))
  {
    match e
    case SaveDraft(input, now, freshId, stored) => SaveKeepsInv(s, input, now, freshId, stored);
    case RemoveDraft(id, stored) => RemoveKeepsInv(s, id, stored);
    case RefreshDrafts => if s.user.Some? { LoadKeepsInv(s, s.user); }
    case UserWatched => LoadKeepsInv(s.(generation := s.generation + 1), s.user);
    case _ =>
      if e.Saved? || e.Deleted? || e.Listed? { RepliesKeepInv(s, e); }
  }

  /** After any sequence of events ids are distinct, at most fifty, and disjoint from pending deletions. */
  lemma {:induction false} RunKeepsInv(s: State, events: seq<Event>)
    requires Inv(s)
    ensures Inv(Run(s, events))
    decreases |events|
  {
    if events != [] {
      StepKeepsInv(s, events[0]);
      RunKeepsInv(Step(s, events[0]), events[1..]);
    }
  }

  // ---------------------------------------------------------------- unsynced edits

  /** The event is the author's removal of the draft, by hand or by saving it empty. */
  ghost predicate Removes(s: State, e: Event, id: string) {
    || (e.RemoveDraft? && e.id == id)
    || (e.SaveDraft? && !e.input.filled && s.active == Some(id))
  }

  /** The event replaces the whole list by what is stored for an account. */
  ghost predicate LoadsAccount(s: State, e: Event) {
    e.UserWatched? || (e.RefreshDrafts? && s.account != s.user)
  }

  /** A draft the event itself brings: the edit being saved, the server's reply, or an entry of the server's list. */
  ghost predicate Incoming(s: State, e: Event, x: Draft) {
    || (e.SaveDraft? && e.input.filled && x == NextDraft(s, e.input.content, e.now, e.freshId))
    || (e.Saved? && x == FromServer(e.data))
    || (e.Listed? && exists r :: r in e.list && x == FromServer(r))
  }

  /** `x` is the draft `d`, or one the event brings in its place with no lower revision. */
  ghost predicate Successor(s: State, e: Event, d: Draft, x: Draft) {
    (x == d || Incoming(s, e, x)) && x.id == d.id && x.revision >= d.revision
  }

  /** After the event the list holds `d` or its successor, or that very draft was pushed out by fifty no older. */
  ghost predicate KeptOrCrowdedOut(s: State, e: Event, d: Draft) {
    var ds := Step(s, e).local.drafts;
    exists x :: Successor(s, e, d, x) && (x in ds || Crowded(ds, x))
  }

  lemma CappedKeeps(s: State, e: Event, d: Draft, all: seq<Draft>, x: Draft)
    requires Step(s, e).local.drafts == Sorted(all) && x in all && Successor(s, e, d, x)
    ensures KeptOrCrowdedOut(s, e, d)
  {
    hide Step, Incoming;
    SortedFacts(all);
    assert x in Sorted(all) || Crowded(Sorted(all), x);
  }

  /** A draft that the event leaves in the list. */
  lemma StillListed(s: State, e: Event, d: Draft)
    requires d in Step(s, e).local.drafts
    ensures KeptOrCrowdedOut(s, e, d)
  {
    hide Step, Incoming;
    assert Successor(s, e, d, d);
  }

  /**
   * An unsynced edit leaves in one step only by removal, account switch, the cap, or replacement by a revision
   * no lower. The cap takes the edit itself or what the event puts in its place, and only for fifty drafts no older.
   */
  lemma UnsyncedEditStays(s: State, e: Event, d: Draft)
    requires Inv(s) && d in s.local.drafts && d.pendingSync
    requires e.SaveDraft? ==> !Has(s.local.drafts, e.freshId)
    ensures Removes(s, e, d.id) || LoadsAccount(s, e) || KeptOrCrowdedOut(s, e, d)
  {
    var ds := s.local.drafts;
    if d in Step(s, e).local.drafts {
      StillListed(s, e, d);
    } else {
      match e
      case SaveDraft(input, now, freshId, _) => SaveKeepsEdit(s, e, d);
      case RemoveDraft(id, _) => WithoutFacts(ds, id);
      case Saved(_, _, data, _) =>
        var synced := FromServer(data);
        FindFacts(ds, data.id);
        WithoutFacts(ds, data.id);
        CappedKeeps(s, e, d, [synced] + Without(ds, data.id), if d.id == data.id then synced else d);
      case Listed(_, _, list, _) => ListKeepsEdit(s, e, d);
      case _ =>
    }
  }

  lemma ListKeepsEdit(s: State, e: Event, d: Draft)
    requires Inv(s) && d in s.local.drafts && d.pendingSync && e.Listed? && d !in Step(s, e).local.drafts
    ensures KeptOrCrowdedOut(s, e, d)
  {
    var merged := Merge(e.list, s.local.drafts, s.local.pendingDeletes);
    MergeFacts(e.list, s.local.drafts, s.local.pendingDeletes);
    MergeOrigins(e.list, s.local.drafts, s.local.pendingDeletes);
    var x :| x in merged && x.id == d.id && x.revision >= d.revision;
    if x in s.local.drafts { FindFacts(s.local.drafts, d.id); }
    assert Successor(s, e, d, x);
    CappedKeeps(s, e, d, merged, x);
  }

  lemma SaveKeepsEdit(s: State, e: Event, d: Draft)
    requires Inv(s) && d in s.local.drafts && e.SaveDraft? && !Has(s.local.drafts, e.freshId)
    ensures Removes(s, e, d.id) || KeptOrCrowdedOut(s, e, d)
  {
    var ds := s.local.drafts;
    if s.account.Some? && e.input.filled {
      var draft := NextDraft(s, e.input.content, e.now, e.freshId);
      if s.active.Some? { FindFacts(ds, s.active.value); }
      FindFacts(ds, d.id);
      WithoutFacts(ds, draft.id);
      assert Incoming(s, e, draft);
      CappedKeeps(s, e, d, [draft] + Without(ds, draft.id), if draft.id == d.id then draft else d);
    } else {
      if s.active.Some? { WithoutFacts(ds, s.active.value); }
      if !Removes(s, e, d.id) { StillListed(s, e, d); }
    }
  }

  // ---------------------------------------------------------------- what each change brings about

  /** A saved draft is listed with everything else, is active and no longer waits for deletion, unless the cap shuts something out. */
  lemma SavedDraftIsListed(s: State, input: Input, now: int, freshId: string, stored: bool)
    requires Inv(s) && s.account.Some? && input.filled
    ensures var d, t := NextDraft(s, input.content, now, freshId), Save(s, input, now, freshId, stored);
            && t.active == Some(d.id) && d.id !in t.local.pendingDeletes
            && (d in t.local.drafts || Crowded(t.local.drafts, d))
            && (forall x :: x in s.local.drafts && x.id != d.id ==> x in t.local.drafts || Crowded(t.local.drafts, x))
            && (forall x :: x in t.local.drafts ==> x == d || (x in s.local.drafts && x.id != d.id))
            && (forall id :: id in t.local.pendingDeletes <==> id in s.local.pendingDeletes && id != d.id)
  {
    var d := NextDraft(s, input.content, now, freshId);
    var all := [d] + Without(s.local.drafts, d.id);
    WithoutFacts(s.local.drafts, d.id);
    WithoutIdFacts(s.local.pendingDeletes, d.id);
    SortedFacts(all);
    assert all[0] == d;
  }

  /** The reply to a save changes the list exactly when it is current, the draft is still listed, and no newer edit was made. */
  lemma ReplyTakenExactlyWhen(s: State, account: string, token: string, data: ServerDraft, stored: bool)
    requires Inv(s)
    ensures var t := SyncReply(s, account, token, data, stored);
            var takes := Current(s, account, token)
                         && exists c :: c in s.local.drafts && c.id == data.id && c.revision <= data.revision;
            && (takes ==>
                  && FromServer(data) in t.local.drafts && |t.local.drafts| == |s.local.drafts|
                  && forall x: Draft :: x.id != data.id ==> (x in t.local.drafts <==> x in s.local.drafts))
            && (!takes ==> t == s)
  {
    var ds := s.local.drafts;
    FindFacts(ds, data.id);
    if Current(s, account, token) && Find(ds, data.id).Some? && Find(ds, data.id).value.revision <= data.revision {
      var current := Find(ds, data.id).value;
      var all := [FromServer(data)] + Without(ds, data.id);
      WithoutFacts(ds, data.id);
      WithoutExactlyOne(ds, current);
      SortedFacts(all);
      assert all[0] == FromServer(data);
      NothingCrowdedOut(all);
    }
  }

  lemma {:induction false} WithoutExactlyOne(ds: seq<Draft>, d: Draft)
    requires Distinct(ds) && d in ds
    ensures |Without(ds, d.id)| == |ds| - 1
  {
    var rest := ds[1..];
    assert ds == [ds[0]] + rest;
    if ds[0] == d {
      NothingToRemove(rest, d.id);
    } else {
      WithoutExactlyOne(rest, d);
      assert ds[0].id != d.id by { var k :| 0 <= k < |rest| && rest[k] == d; }
    }
  }

  lemma {:induction false} NothingToRemove(ds: seq<Draft>, id: string)
    requires forall x :: x in ds ==> x.id != id
    ensures Without(ds, id) == ds
  {
    if ds != [] {
      NothingToRemove(ds[1..], id);
      assert ds == [ds[0]] + ds[1..];
    }
  }

  lemma NothingCrowdedOut(ds: seq<Draft>)
    requires |ds| <= MAX_DRAFTS
    ensures forall x :: x in Sorted(ds) <==> x in ds
  {
    SortFacts(ds);
  }

  /** After a list from the server, every draft shown is the server's or an unsynced local one, and none the server sent is older than it sent. */
  lemma MergeSources(data: seq<ServerDraft>, locals: seq<Draft>, deletes: seq<string>)
    requires Distinct(locals) && forall i, j :: 0 <= i < j < |data| ==> data[i].id != data[j].id
    ensures forall x :: x in Merge(data, locals, deletes) ==>
              (x in locals && x.pendingSync) || exists r :: r in data && x == FromServer(r)
    ensures forall r :: r in data && r.id !in deletes ==> Outlives(Merge(data, locals, deletes), FromServer(r))
  {
    var remote := PutRemote([], data);
    PutRemoteDistinct([], data);
    PutRemoteMembers([], data);
    PutLocalsKeeps(remote, locals);
    PutLocalsSources(remote, locals);
    WithoutAllFacts(PutLocals(remote, locals), deletes);
    forall r | r in data && r.id !in deletes ensures Outlives(Merge(data, locals, deletes), FromServer(r)) {
      assert FromServer(r) in remote;
      assert Outlives(PutLocals(remote, locals), FromServer(r));
    }
  }

  lemma {:induction false} PutRemoteMembers(ds: seq<Draft>, data: seq<ServerDraft>)
    requires Distinct(ds) && forall i, j :: 0 <= i < j < |data| ==> data[i].id != data[j].id
    ensures forall x :: x in PutRemote(ds, data) ==> x in ds || exists r :: r in data && x == FromServer(r)
    ensures forall r :: r in data ==> FromServer(r) in PutRemote(ds, data)
    ensures forall x :: x in ds && (forall r :: r in data ==> r.id != x.id) ==> x in PutRemote(ds, data)
    decreases |data|
  {
    if data != [] {
      var first, rest := data[0], data[1..];
      var next := Put(ds, FromServer(first));
      PutFacts(ds, FromServer(first));
      PutRemoteMembers(next, rest);
      assert data == [first] + rest;
      assert forall r :: r in rest ==> r.id != first.id;
    }
  }

  lemma {:induction false} PutLocalsSources(ds: seq<Draft>, locals: seq<Draft>)
    requires Distinct(ds) && Distinct(locals)
    ensures forall x :: x in PutLocals(ds, locals) ==> x in ds || (x in locals && x.pendingSync)
    ensures forall d :: d in ds ==> Outlives(PutLocals(ds, locals), d)
    decreases |locals|
  {
    if locals == [] {
      assert forall d :: d in ds ==> Outlives(ds, d);
    } else {
      var local, rest := locals[0], locals[1..];
      var next := PutLocal(ds, local);
      PutLocalFacts(ds, local);
      FindFacts(ds, local.id);
      PutFacts(ds, local);
      PutLocalsSources(next, rest);
      assert locals == [local] + rest;
      forall d | d in ds ensures Outlives(PutLocals(next, rest), d) {
        if d in next {
        } else {
          assert d.id == local.id && local.revision > d.revision && local in next;
          assert Outlives(PutLocals(next, rest), local);
        }
      }
    }
  }

  // ---------------------------------------------------------------- removed drafts stay removed

  /** The event can bring `id` back: a stored list is loaded, or the server lists it after its deletion was confirmed. */
  ghost predicate MayRevive(s: State, e: Event, id: string) {
    || LoadsAccount(s, e)
    || (e.Listed? && id !in s.local.pendingDeletes && exists r :: r in e.list && r.id == id)
    || (e.SaveDraft? && e.freshId == id)
  }

  lemma SaveBringsNoOther(s: State, input: Input, now: int, freshId: string, stored: bool, id: string)
    requires !Has(s.local.drafts, id) && freshId != id
    ensures !Has(Save(s, input, now, freshId, stored).local.drafts, id)
  {
    var ds := s.local.drafts;
    if s.active.Some? {
      FindFacts(ds, s.active.value);
      WithoutFacts(ds, s.active.value);
    }
    var draft := NextDraft(s, input.content, now, freshId);
    assert draft.id != id;
    hide NextDraft, Sorted, Without;
    WithoutFacts(ds, draft.id);
    SortedFacts([draft] + Without(ds, draft.id));
  }

  /** No other event brings an absent draft back; the late reply to saving it does not. */
  lemma AbsentStaysAbsent(s: State, e: Event, id: string)
    requires Inv(s) && !Has(s.local.drafts, id) && !MayRevive(s, e, id)
    ensures !Has(Step(s, e).local.drafts, id)
  {
    var ds := s.local.drafts;
    match e
    case SaveDraft(input, now, freshId, stored) => SaveBringsNoOther(s, input, now, freshId, stored, id);
    case RemoveDraft(other, _) => WithoutFacts(ds, other);
    case Saved(_, _, data, _) =>
      FindFacts(ds, data.id);
      WithoutFacts(ds, data.id);
      SortedFacts([FromServer(data)] + Without(ds, data.id));
    case Listed(_, _, list, _) =>
      MergeIds(list, ds, s.local.pendingDeletes, id);
      SortedFacts(Merge(list, ds, s.local.pendingDeletes));
    case _ =>
  }

  ghost predicate NothingRevives(s: State, events: seq<Event>, id: string)
    decreases |events|
  {
    events == [] || (!MayRevive(s, events[0], id) && NothingRevives(Step(s, events[0]), events[1..], id))
  }

  lemma {:induction false} RunKeepsAbsent(s: State, events: seq<Event>, id: string)
    requires Inv(s) && !Has(s.local.drafts, id) && NothingRevives(s, events, id)
    ensures !Has(Run(s, events).local.drafts, id)
    decreases |events|
  {
    if events != [] {
      AbsentStaysAbsent(s, events[0], id);
      StepKeepsInv(s, events[0]);
      RunKeepsAbsent(Step(s, events[0]), events[1..], id);
    }
  }

  /**
   * A removed draft does not come back, however many late replies to its saves arrive, until a stored list
   * is loaded or the server lists it after its deletion was confirmed. While the deletion is unconfirmed,
   * no list brings it back.
   */
  lemma RemovedStaysRemoved(s: State, id: string, stored: bool, events: seq<Event>)
    requires Inv(s) && NothingRevives(Remove(s, id, stored), events, id)
    ensures !Has(Remove(s, id, stored).local.drafts, id) && id in Remove(s, id, stored).local.pendingDeletes
    ensures !Has(Run(Remove(s, id, stored), events).local.drafts, id)
  {
    WithoutFacts(s.local.drafts, id);
    UniqueFacts(s.local.pendingDeletes + [id]);
    RemoveKeepsInv(s, id, stored);
    RunKeepsAbsent(Remove(s, id, stored), events, id);
  }

  // ---------------------------------------------------------------- unsynced edits over whole runs

  /** The ways an unsynced edit can end at this step: for the last two, replaced by its successor, or that or itself crowded out. */
  ghost predicate Ends(s: State, e: Event, d: Draft) {
    var ds := Step(s, e).local.drafts;
    && d in s.local.drafts && d !in ds
    && (|| Removes(s, e, d.id) || LoadsAccount(s, e)
        || exists x :: Successor(s, e, d, x) && (x in ds || Crowded(ds, x)))
  }

  ghost predicate FreshIds(s: State, events: seq<Event>)
    decreases |events|
  {
    events == []
    || ((events[0].SaveDraft? ==> !Has(s.local.drafts, events[0].freshId)) && FreshIds(Step(s, events[0]), events[1..]))
  }

  /** Over any run, an unsynced edit that is gone at the end left at a step that ends it in one of those ways. */
  lemma {:induction false} UnsyncedEditAccounted(s: State, events: seq<Event>, d: Draft) returns (k: nat)
    requires Inv(s) && d in s.local.drafts && d.pendingSync && FreshIds(s, events)
    requires d !in Run(s, events).local.drafts
    ensures k < |events| && Ends(Run(s, events[..k]), events[k], d)
    ensures d in Run(s, events[..k]).local.drafts && d !in Run(s, events[..k + 1]).local.drafts
    decreases |events|
  {
    var e := events[0];
    StepKeepsInv(s, e);
    UnsyncedEditStays(s, e, d);
    if d in Step(s, e).local.drafts {
      var j := UnsyncedEditAccounted(Step(s, e), events[1..], d);
      k := j + 1;
      assert events[..k][0] == e && events[..k][1..] == events[1..][..j];
      assert events[..k + 1][0] == e && events[..k + 1][1..] == events[1..][..j + 1];
    } else {
      k := 0;
      assert events[..0] == [] && events[..1] == [e];
      assert Run(s, [e]) == Run(Step(s, e), []);
    }
  }

  // ---------------------------------------------------------------- account switches

  /** What the storage holds for an account. */
  function Stored(storage: map<string, Local>, account: string): Local {
    if account in storage then storage[account] else Local([], [])
  }

  /** Storage accepts every write, and no other tab writes. */
  ghost predicate Faithful(e: Event) {
    match e
    case SaveDraft(_, _, _, stored) => stored
    case RemoveDraft(_, stored) => stored
    case Saved(_, _, _, stored) => stored
    case Deleted(_, _, _, stored) => stored
    case Listed(_, _, _, stored) => stored
    case OtherTab(_, _) => false
    case _ => true
  }

  /** The loaded account's list is what is stored for it, and every stored list is newest first. */
  ghost predicate Mirrored(s: State) {
    && (s.account.Some? ==> Stored(s.storage, s.account.value) == s.local)
    && (forall a :: a in s.storage ==> NewestFirst(s.storage[a].drafts))
  }

  lemma {:induction false} SortOfSorted(ds: seq<Draft>)
    requires NewestFirst(ds)
    ensures Sort(ds) == ds
  {
    if ds != [] {
      SortOfSorted(ds[1..]);
      assert ds == [ds[0]] + ds[1..];
    }
  }

  lemma {:induction false} UniqueOfDistinct(ids: seq<string>)
    requires NoRepeats(ids)
    ensures Unique(ids) == ids
  {
    if ids != [] {
      UniqueOfDistinct(ids[..|ids| - 1]);
      assert ids == ids[..|ids| - 1] + [ids[|ids| - 1]];
    }
  }

  lemma {:induction false} WithoutInOrder(ds: seq<Draft>, id: string)
    requires NewestFirst(ds)
    ensures NewestFirst(Without(ds, id))
  {
    if ds != [] {
      var rest := ds[1..];
      WithoutInOrder(rest, id);
      WithoutFacts(rest, id);
      assert forall x :: x in rest ==> ds[0].updatedAt >= x.updatedAt;
      assert Without(ds, id) == (if ds[0].id == id then [] else [ds[0]]) + Without(rest, id);
    }
  }

  /** Loading a list that a faithful storage holds changes nothing in it. */
  lemma LoadRestores(s: State, next: Option<string>)
    requires Inv(s) && Mirrored(s)
    ensures Mirrored(LoadLocal(s, next)) && LoadLocal(s, next).storage == s.storage
    ensures next.Some? ==> LoadLocal(s, next).local == Stored(s.storage, next.value)
  {
    if next.Some? {
      var stored := Stored(s.storage, next.value);
      assert Good(stored) && NewestFirst(stored.drafts);
      SortOfSorted(stored.drafts);
      UniqueOfDistinct(stored.pendingDeletes);
    }
  }

  /** The lists a change of the loaded account leaves alone, and the one it writes. */
  lemma WriteMirrors(s: State, t: State)
    requires Mirrored(s) && t.account == s.account && (s.account.Some? ==> NewestFirst(t.local.drafts))
    requires t.storage == if s.account.Some? then s.storage[s.account.value := t.local] else s.storage
    ensures Mirrored(t)
    ensures forall a :: s.account != Some(a) ==> Stored(t.storage, a) == Stored(s.storage, a)
  {
  }

  lemma RemoveMirrors(s: State, id: string)
    requires Inv(s) && Mirrored(s)
    ensures Mirrored(Remove(s, id, true))
    ensures forall a :: s.account != Some(a) ==> Stored(Remove(s, id, true).storage, a) == Stored(s.storage, a)
  {
    if s.account.Some? { LocalInOrder(s); WithoutInOrder(s.local.drafts, id); }
    WriteMirrors(s, Remove(s, id, true));
  }

  lemma LocalInOrder(s: State)
    requires Mirrored(s) && s.account.Some?
    ensures NewestFirst(s.local.drafts)
  {
  }

  lemma SaveMirrors(s: State, e: Event)
    requires Inv(s) && Mirrored(s) && e.SaveDraft? && e.stored
    ensures Mirrored(Step(s, e))
    ensures forall a :: s.account != Some(a) ==> Stored(Step(s, e).storage, a) == Stored(s.storage, a)
  {
    if s.account.Some? {
      if e.input.filled {
        var draft := NextDraft(s, e.input.content, e.now, e.freshId);
        SortedFacts([draft] + Without(s.local.drafts, draft.id));
        WriteMirrors(s, Step(s, e));
      } else if s.active.Some? {
        RemoveMirrors(s, s.active.value);
      }
    }
  }

  lemma RepliesMirror(s: State, e: Event)
    requires Inv(s) && Mirrored(s) && Faithful(e) && (e.Saved? || e.Deleted? || e.Listed?)
    ensures Mirrored(Step(s, e))
    ensures forall a :: s.account != Some(a) ==> Stored(Step(s, e).storage, a) == Stored(s.storage, a)
  {
    if Step(s, e) != s {
      LocalInOrder(s);
      match e
      case Saved(_, _, data, _) => SortedFacts([FromServer(data)] + Without(s.local.drafts, data.id));
      case Deleted(_, _, _, _) =>
      case Listed(_, _, list, _) => SortedFacts(Merge(list, s.local.drafts, s.local.pendingDeletes));
      WriteMirrors(s, Step(s, e));
    }
  }

  /** While storage is faithful the loaded list is always the stored one, and a step writes only the loaded account's. */
  lemma StepMirrors(s: State, e: Event)
    requires Inv(s) && Mirrored(s) && Faithful(e)
    ensures Mirrored(Step(s, e))
    ensures forall a :: s.account != Some(a) || LoadsAccount(s, e) ==> Stored(Step(s, e).storage, a) == Stored(s.storage, a)
  {
    match e
    case SaveDraft(_, _, _, _) => SaveMirrors(s, e);
    case RemoveDraft(id, _) => RemoveMirrors(s, id);
    case RefreshDrafts => LoadRestores(s, s.user);
    case UserWatched => LoadRestores(s.(generation := s.generation + 1), s.user);
    case _ =>
      if e.Saved? || e.Deleted? || e.Listed? { RepliesMirror(s, e); }
  }

  /** A store that starts on lists it wrote itself is mirrored. */
  lemma StartMirrored(storage: map<string, Local>, user: Option<string>, token: Option<string>)
    requires forall a :: a in storage ==> Good(storage[a]) && NewestFirst(storage[a].drafts)
    ensures var s := Watch(State(Local([], []), None, None, 0, storage, user, token)); Inv(s) && Mirrored(s)
  {
    var s := State(Local([], []), None, None, 1, storage, user, token);
    LoadKeepsInv(s, user);
    LoadRestores(s, user);
  }

  /**
   * Across account switches: with a faithful storage, an unsynced edit in the list of any account, loaded or
   * not, leaves it only by removal while the account is loaded, the cap, or replacement by a revision no lower.
   */
  lemma StoredEditStays(s: State, e: Event, account: string, d: Draft)
    requires Inv(s) && Mirrored(s) && Faithful(e)
    requires d in Stored(s.storage, account).drafts && d.pendingSync
    requires e.SaveDraft? ==> !Has(s.local.drafts, e.freshId)
    ensures d in Stored(Step(s, e).storage, account).drafts
            || (s.account == Some(account) && (Removes(s, e, d.id) || KeptOrCrowdedOut(s, e, d)))
  {
    StepMirrors(s, e);
    if s.account == Some(account) && !LoadsAccount(s, e) { UnsyncedEditStays(s, e, d); }
  }

  /** Over any run with a faithful storage, an unsynced edit that is gone from an account's list left while that account was loaded, in one of those ways. */
  lemma {:induction false} StoredEditAccounted(s: State, events: seq<Event>, account: string, d: Draft) returns (k: nat)
    requires Inv(s) && Mirrored(s) && FaithfulRun(events) && FreshIds(s, events)
    requires d in Stored(s.storage, account).drafts && d.pendingSync
    requires d !in Stored(Run(s, events).storage, account).drafts
    ensures k < |events|
    ensures var t := Run(s, events[..k]);
            && t.account == Some(account) && d in t.local.drafts
            && d !in Stored(Run(s, events[..k + 1]).storage, account).drafts
            && (Removes(t, events[k], d.id) || KeptOrCrowdedOut(t, events[k], d))
    decreases |events|
  {
    var e := events[0];
    StepKeepsInv(s, e);
    StepMirrors(s, e);
    StoredEditStays(s, e, account, d);
    if d in Stored(Step(s, e).storage, account).drafts {
      var j := StoredEditAccounted(Step(s, e), events[1..], account, d);
      k := j + 1;
      assert events[..k][0] == e && events[..k][1..] == events[1..][..j];
      assert events[..k + 1][0] == e && events[..k + 1][1..] == events[1..][..j + 1];
    } else {
      k := 0;
      assert events[..0] == [] && events[..1] == [e];
      assert Run(s, [e]) == Run(Step(s, e), []);
    }
  }

  /** The event can bring `id` into the account's list: the server lists it while no deletion waits, or it is drawn as a new id. */
  ghost predicate MayReviveStored(s: State, e: Event, account: string, id: string) {
    s.account == Some(account) && MayRevive(s, e, id) && !LoadsAccount(s, e)
  }

  lemma StoredAbsentStays(s: State, e: Event, account: string, id: string)
    requires Inv(s) && Mirrored(s) && Faithful(e)
    requires !Has(Stored(s.storage, account).drafts, id) && !MayReviveStored(s, e, account, id)
    ensures !Has(Stored(Step(s, e).storage, account).drafts, id)
  {
    StepMirrors(s, e);
    if s.account == Some(account) && !LoadsAccount(s, e) {
      AbsentStaysAbsent(s, e, id);
      assert Step(s, e).account == s.account;
    }
  }

  ghost predicate FaithfulRun(events: seq<Event>) {
    forall e :: e in events ==> Faithful(e)
  }

  ghost predicate NothingRevivesStored(s: State, events: seq<Event>, account: string, id: string)
    decreases |events|
  {
    events == []
    || (!MayReviveStored(s, events[0], account, id) && NothingRevivesStored(Step(s, events[0]), events[1..], account, id))
  }

  lemma {:induction false} RunMirrors(s: State, events: seq<Event>)
    requires Inv(s) && Mirrored(s) && FaithfulRun(events)
    ensures Mirrored(Run(s, events))
    decreases |events|
  {
    if events != [] {
      StepKeepsInv(s, events[0]);
      StepMirrors(s, events[0]);
      RunMirrors(Step(s, events[0]), events[1..]);
    }
  }

  lemma {:induction false} RunKeepsStoredAbsent(s: State, events: seq<Event>, account: string, id: string)
    requires Inv(s) && Mirrored(s) && FaithfulRun(events)
    requires !Has(Stored(s.storage, account).drafts, id) && NothingRevivesStored(s, events, account, id)
    ensures !Has(Stored(Run(s, events).storage, account).drafts, id)
    decreases |events|
  {
    if events != [] {
      StoredAbsentStays(s, events[0], account, id);
      StepKeepsInv(s, events[0]);
      StepMirrors(s, events[0]);
      RunKeepsStoredAbsent(Step(s, events[0]), events[1..], account, id);
    }
  }

  /**
   * A removed draft does not come back through any number of account switches: with a faithful storage only the
   * server can bring it back, by listing it after its deletion was confirmed.
   */
  lemma RemovedSurvivesSwitches(s: State, id: string, account: string, events: seq<Event>)
    requires Inv(s) && Mirrored(s) && s.account == Some(account) && FaithfulRun(events)
    requires NothingRevivesStored(Remove(s, id, true), events, account, id)
    ensures var t := Run(Remove(s, id, true), events);
            !Has(Stored(t.storage, account).drafts, id) && (t.account == Some(account) ==> !Has(t.local.drafts, id))
  {
    var r := Remove(s, id, true);
    WithoutFacts(s.local.drafts, id);
    RemoveKeepsInv(s, id, true);
    RemoveMirrors(s, id);
    assert Stored(r.storage, account) == r.local;
    RunKeepsStoredAbsent(r, events, account, id);
    RunMirrors(r, events);
  }

  /** The account is not loaded at any point of the run. */
  ghost predicate Away(s: State, events: seq<Event>, account: string)
    decreases |events|
  {
    s.account != Some(account) && (events == [] || Away(Step(s, events[0]), events[1..], account))
  }

  lemma {:induction false} AwayKeepsStored(s: State, events: seq<Event>, account: string)
    requires Inv(s) && Mirrored(s) && FaithfulRun(events) && Away(s, events, account)
    ensures Inv(Run(s, events)) && Mirrored(Run(s, events))
    ensures Stored(Run(s, events).storage, account) == Stored(s.storage, account)
    decreases |events|
  {
    if events != [] {
      StepKeepsInv(s, events[0]);
      StepMirrors(s, events[0]);
      AwayKeepsStored(Step(s, events[0]), events[1..], account);
    }
  }

  /** Leaving an account and coming back, whatever happens in between, restores its list and pending deletions exactly. */
  lemma SwitchAndBackRestores(s: State, account: string, leave: Event, away: seq<Event>, back: Event)
    requires Inv(s) && Mirrored(s) && s.account == Some(account)
    requires LoadsAccount(s, leave) && FaithfulRun(away) && Away(Step(s, leave), away, account)
    requires var gone := Run(Step(s, leave), away); LoadsAccount(gone, back) && Step(gone, back).account == Some(account)
    ensures Step(Run(Step(s, leave), away), back).local == s.local
  {
    var left := Step(s, leave);
    var gone := Run(left, away);
    StepKeepsInv(s, leave);
    StepMirrors(s, leave);
    AwayKeepsStored(left, away, account);
    StepMirrors(gone, back);
  }
}
