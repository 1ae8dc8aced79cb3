/** What each event of the draft store leaves, said without its operations (siliconbeest/src/stores/drafts.ts). */
module DraftsOutcomes {
  import opened Wrappers
  import opened DraftsProtocol

  // ---------------------------------------------------------------- which drafts a merge shows

  /** What the server sent for an id; of several entries the last counts. */
  ghost function Sent(data: seq<ServerDraft>, id: string): Option<ServerDraft> {
    if data == [] then None
    else
      var later := Sent(data[1..], id);
      if later.Some? then later else if data[0].id == id then Some(data[0]) else None
  }

  /** An unsynced edit the server does not hold in its own or a later revision. */
  ghost predicate Ahead(data: seq<ServerDraft>, d: Draft) {
    d.pendingSync && (Sent(data, d.id).None? || d.revision > Sent(data, d.id).value.revision)
  }

  /** The local draft if it is ahead of the server, and the server's, as synced, if none is; nothing that waits for deletion. */
  ghost predicate Merged(data: seq<ServerDraft>, l: Local, x: Draft) {
    && x.id !in l.pendingDeletes
    && ((x in l.drafts && Ahead(data, x))
        || (&& Sent(data, x.id).Some?
            && var r := Sent(data, x.id).value;
            && x == Draft(r.id, r.revision, r.content, r.createdAt, r.updatedAt, false)
            && !exists d :: d in l.drafts && d.id == x.id && Ahead(data, d)))
  }

  lemma {:induction false} SentHasItsId(data: seq<ServerDraft>, id: string)
    ensures Sent(data, id).Some? ==> Sent(data, id).value.id == id
  {
    if data != [] { SentHasItsId(data[1..], id); }
  }

  lemma {:induction false} RemoteExactly(ds: seq<Draft>, data: seq<ServerDraft>, x: Draft)
    requires Distinct(ds)
    ensures x in PutRemote(ds, data)
            <==> if Sent(data, x.id).Some? then x == FromServer(Sent(data, x.id).value) else x in ds
    decreases |data|
  {
    if data != [] {
      SentHasItsId(data[1..], x.id);
      PutFacts(ds, FromServer(data[0]));
      RemoteExactly(Put(ds, FromServer(data[0])), data[1..], x);
    }
  }

  /** The local draft takes the place of what the list holds for its id. */
  ghost predicate Overrides(ds: seq<Draft>, d: Draft) {
    d.pendingSync && forall y :: y in ds && y.id == d.id ==> d.revision > y.revision
  }

  lemma PutLocalExactly(ds: seq<Draft>, local: Draft, x: Draft)
    requires Distinct(ds)
    ensures Distinct(PutLocal(ds, local))
    ensures x in PutLocal(ds, local)
            <==> (x == local && Overrides(ds, local)) || (x in ds && !(x.id == local.id && Overrides(ds, local)))
  {
    FindFacts(ds, local.id);
    PutFacts(ds, local);
  }

  lemma OverridesSame(ds: seq<Draft>, local: Draft, d: Draft)
    requires Distinct(ds) && d.id != local.id
    ensures Overrides(PutLocal(ds, local), d) <==> Overrides(ds, d)
  {
    forall y: Draft | y.id == d.id ensures y in PutLocal(ds, local) <==> y in ds {
      PutLocalExactly(ds, local, y);
    }
  }

  lemma {:induction false} LocalsExactly(ds: seq<Draft>, locals: seq<Draft>, x: Draft)
    requires Distinct(ds) && Distinct(locals)
    ensures x in PutLocals(ds, locals)
            <==> (x in locals && Overrides(ds, x))
                 || (x in ds && !exists d :: d in locals && d.id == x.id && Overrides(ds, d))
    decreases |locals|
  {
    if locals != [] {
      var local, rest := locals[0], locals[1..];
      var next := PutLocal(ds, local);
      hide Overrides, PutLocal;
      PutLocalExactly(ds, local, x);
      LocalsExactly(next, rest, x);
      assert locals == [local] + rest;
      forall d | d in rest ensures Overrides(next, d) <==> Overrides(ds, d) {
        OverridesSame(ds, local, d);
      }
    }
  }

  lemma OverridesIffAhead(data: seq<ServerDraft>, d: Draft)
    ensures Overrides(PutRemote([], data), d) <==> Ahead(data, d)
  {
    SentHasItsId(data, d.id);
    forall y: Draft | y.id == d.id
      ensures y in PutRemote([], data) <==> Sent(data, d.id).Some? && y == FromServer(Sent(data, d.id).value)
    {
      RemoteExactly([], data, y);
    }
    if Sent(data, d.id).Some? { assert FromServer(Sent(data, d.id).value).id == d.id; }
  }

  /** A merge holds exactly the drafts it should. */
  lemma MergeExactly(data: seq<ServerDraft>, l: Local, x: Draft)
    requires Distinct(l.drafts)
    ensures x in Merge(data, l.drafts, l.pendingDeletes) <==> Merged(data, l, x)
  {
    var remote := PutRemote([], data);
    PutRemoteDistinct([], data);
    RemoteExactly([], data, x);
    SentHasItsId(data, x.id);
    LocalsExactly(remote, l.drafts, x);
    WithoutAllFacts(PutLocals(remote, l.drafts), l.pendingDeletes);
    forall d | d in l.drafts ensures Overrides(remote, d) <==> Ahead(data, d) {
      OverridesIffAhead(data, d);
    }
    hide PutLocals, PutRemote, Overrides, Ahead;
  }

  // ---------------------------------------------------------------- events

  /** The account's entry in the storage is the new list if the storage takes it; nothing else is written. */
  ghost predicate Written(s: State, t: State, stored: bool) {
    && t.account == s.account && t.generation == s.generation && t.user == s.user && t.token == s.token
    && t.storage == if stored && s.account.Some? then s.storage[s.account.value := t.local] else s.storage
  }

  /** An accepted list reply shows what the merge holds, newest first, and loses of it only what fifty no older shut out. */
  lemma ListReplyShowsMerge(s: State, account: string, generation: nat, data: seq<ServerDraft>, stored: bool)
    requires Inv(s)
    ensures
      var t := Step(s, Listed(account, generation, data, stored));
      && (generation != s.generation || s.account != Some(account) ==> t == s)
      && (generation == s.generation && s.account == Some(account) ==>
            && NewestFirst(t.local.drafts)
            && (forall x :: x in t.local.drafts ==> Merged(data, s.local, x))
            && (forall x :: Merged(data, s.local, x) ==> x in t.local.drafts || Crowded(t.local.drafts, x))
            && t.local.pendingDeletes == s.local.pendingDeletes && t.active == s.active
            && Written(s, t, stored))
  {
    var merged := Merge(data, s.local.drafts, s.local.pendingDeletes);
    forall x ensures x in merged <==> Merged(data, s.local, x) {
      MergeExactly(data, s.local, x);
    }
    SortedFacts(merged);
    hide Merge, Sorted, Merged, NewestFirst;
  }

  /** A reply to a save: taken for the account and token it was sent with, while the draft is listed in no later revision. */
  lemma SaveReplyReplaces(s: State, account: string, token: string, data: ServerDraft, stored: bool)
    requires Inv(s)
    ensures
      var t := Step(s, Saved(account, token, data, stored));
      var synced := Draft(data.id, data.revision, data.content, data.createdAt, data.updatedAt, false);
      var taken :=
        && s.account == Some(account) && s.user == Some(account) && s.token == Some(token)
        && exists c :: c in s.local.drafts && c.id == data.id && c.revision <= data.revision;
      && (!taken ==> t == s)
      && (taken ==>
            && (forall x :: x in t.local.drafts <==> x == synced || (x in s.local.drafts && x.id != data.id))
            && NewestFirst(t.local.drafts) && t.local.pendingDeletes == s.local.pendingDeletes && t.active == s.active
            && Written(s, t, stored))
  {
    var e := Saved(account, token, data, stored);
    ReplyTakenExactlyWhen(s, account, token, data, stored);
    FindFacts(s.local.drafts, data.id);
    var found := Find(s.local.drafts, data.id);
    if Current(s, account, token) && found.Some? && found.value.revision <= data.revision {
      SaveReplyStep(s, account, token, data, stored);
    }
    StepKeepsInv(s, e);
    hide SyncReply, Sorted, NewestFirst;
  }

  lemma SaveReplyStep(s: State, account: string, token: string, data: ServerDraft, stored: bool)
    requires Current(s, account, token) && data.id !in s.local.pendingDeletes
    requires Find(s.local.drafts, data.id).Some? && Find(s.local.drafts, data.id).value.revision <= data.revision
    ensures
      var t := SyncReply(s, account, token, data, stored);
      && NewestFirst(t.local.drafts) && t.local.pendingDeletes == s.local.pendingDeletes && t.active == s.active
      && Written(s, t, stored)
  {
    SortedFacts([FromServer(data)] + Without(s.local.drafts, data.id));
    hide Sorted, NewestFirst, Without;
  }

  /** A removal takes the draft out, lets its deletion wait, and forgets it as the active one. */
  lemma RemovalLeaves(s: State, id: string, stored: bool)
    ensures
      var t := Step(s, RemoveDraft(id, stored));
      && (forall x :: x in t.local.drafts <==> x in s.local.drafts && x.id != id)
      && (forall y :: y in t.local.pendingDeletes <==> y in s.local.pendingDeletes || y == id)
      && t.active == (if s.active == Some(id) then None else s.active)
      && Written(s, t, stored)
  {
    WithoutFacts(s.local.drafts, id);
    UniqueFacts(s.local.pendingDeletes + [id]);
  }

  /** The server's confirmation of a deletion, for the account and token it was sent with, ends its waiting and changes nothing else. */
  lemma ConfirmedDeletionLeaves(s: State, account: string, token: string, id: string, stored: bool)
    ensures
      var t := Step(s, Deleted(account, token, id, stored));
      var taken := s.account == Some(account) && s.user == Some(account) && s.token == Some(token);
      && (!taken ==> t == s)
      && (taken ==>
            && t.local.drafts == s.local.drafts && t.active == s.active && Written(s, t, stored)
            && forall y :: y in t.local.pendingDeletes <==> y in s.local.pendingDeletes && y != id)
  {
    WithoutIdFacts(s.local.pendingDeletes, id);
  }

  /** A save writes the active draft in its next revision, keeping its id and birth, or a first one; an empty save removes. */
  lemma SaveWrites(s: State, input: Input, now: int, freshId: string, stored: bool)
    requires Inv(s)
    ensures
      var t := Step(s, SaveDraft(input, now, freshId, stored));
      && (s.account.None? ==> t == s)
      && (s.account.Some? && !input.filled ==>
            t == if s.active.None? then s else Step(s, RemoveDraft(s.active.value, stored)))
      && (s.account.Some? && input.filled ==>
            && NewestFirst(t.local.drafts) && Written(s, t, stored)
            && (forall d :: d in s.local.drafts && s.active == Some(d.id) ==>
                  Wrote(s, t, Draft(d.id, d.revision + 1, input.content, d.createdAt, now, true)))
            && ((forall d :: d in s.local.drafts ==> s.active != Some(d.id)) ==>
                  Wrote(s, t, Draft(freshId, 1, input.content, now, now, true))))
  {
    if s.account.Some? && input.filled {
      SavedDraftIsListed(s, input, now, freshId, stored);
      NextDraftSpelled(s, input.content, now, freshId);
      SaveStores(s, input, now, freshId, stored);
      hide Save, NextDraft, NewestFirst, Crowded;
    }
  }

  lemma NextDraftSpelled(s: State, content: string, now: int, freshId: string)
    requires Inv(s)
    ensures forall d :: d in s.local.drafts && s.active == Some(d.id) ==>
              NextDraft(s, content, now, freshId) == Draft(d.id, d.revision + 1, content, d.createdAt, now, true)
    ensures (forall d :: d in s.local.drafts ==> s.active != Some(d.id)) ==>
              NextDraft(s, content, now, freshId) == Draft(freshId, 1, content, now, now, true)
  {
    if s.active.Some? { FindFacts(s.local.drafts, s.active.value); }
  }

  lemma SaveStores(s: State, input: Input, now: int, freshId: string, stored: bool)
    requires s.account.Some? && input.filled
    ensures var t := Save(s, input, now, freshId, stored); NewestFirst(t.local.drafts) && Written(s, t, stored)
  {
    var draft := NextDraft(s, input.content, now, freshId);
    SortedFacts([draft] + Without(s.local.drafts, draft.id));
    hide Sorted, Without, WithoutId, NewestFirst, NextDraft;
  }

  /** The draft is listed, active and not waiting for deletion; others stay unless the cap shuts them out. */
  ghost predicate Wrote(s: State, t: State, d: Draft) {
    && t.active == Some(d.id)
    && (d in t.local.drafts || Crowded(t.local.drafts, d))
    && (forall x :: x in s.local.drafts && x.id != d.id ==> x in t.local.drafts || Crowded(t.local.drafts, x))
    && (forall x :: x in t.local.drafts ==> x == d || (x in s.local.drafts && x.id != d.id))
    && (forall id :: id in t.local.pendingDeletes <==> id in s.local.pendingDeletes && id != d.id)
  }

  /** Below fifty drafts a save shuts nothing out. */
  lemma SavedBelowFifty(s: State, input: Input, now: int, freshId: string, stored: bool)
    requires Inv(s) && s.account.Some? && input.filled && |s.local.drafts| < 50
    ensures
      var t := Step(s, SaveDraft(input, now, freshId, stored));
      && |t.local.drafts| <= 50
      && exists d :: d in t.local.drafts && t.active == Some(d.id) && d.content == input.content
                     && forall x :: x in s.local.drafts && x.id != d.id ==> x in t.local.drafts
  {
    var d := NextDraft(s, input.content, now, freshId);
    var all := [d] + Without(s.local.drafts, d.id);
    WithoutFacts(s.local.drafts, d.id);
    NothingCrowdedOut(all);
    SortedFacts(all);
    assert all[0] == d;
    hide Sorted, Without, WithoutId, NextDraft, Good, Crowded;
    assert d.content == input.content by { ContentKept(s, input.content, now, freshId); }
  }

  lemma ContentKept(s: State, content: string, now: int, freshId: string)
    ensures NextDraft(s, content, now, freshId).content == content
  {
  }

  /** The list of the account as it is stored, or none. */
  ghost predicate Loads(s: State, t: State, account: Option<string>) {
    && t.account == account && t.active.None? && t.storage == s.storage && t.user == s.user && t.token == s.token
    && (account.None? || account.value !in s.storage ==> t.local == Local([], []))
    && (account.Some? && account.value in s.storage ==>
          var l := s.storage[account.value];
          && NewestFirst(t.local.drafts)
          && (forall x :: x in t.local.drafts ==> x in l.drafts)
          && (forall x :: x in l.drafts ==> x in t.local.drafts || Crowded(t.local.drafts, x))
          && (forall y :: y in t.local.pendingDeletes <==> y in l.pendingDeletes))
  }

  /** A change of user loads that user's list; a refresh loads it if it is not the loaded one. Both supersede earlier list requests. */
  lemma AccountsLoad(s: State)
    ensures var t := Step(s, UserWatched); Loads(s, t, s.user) && t.generation == s.generation + 1
    ensures
      var t := Step(s, RefreshDrafts);
      if s.user.None? || s.token.None? then t == s
      else if s.account == s.user then t == s.(generation := s.generation + 1)
      else Loads(s, t, s.user) && t.generation == s.generation + 1
  {
    var l := if s.user.Some? && s.user.value in s.storage then s.storage[s.user.value] else Local([], []);
    SortedFacts(l.drafts);
    UniqueFacts(l.pendingDeletes);
    SortFacts([]);
    assert Sorted([]) == [] && Unique([]) == [];
    hide Sorted, Unique, NewestFirst, Crowded;
  }
}
