/** The draft store's methods (siliconbeest/src/stores/drafts.ts), each tied to its step of the protocol. */
module DraftsStore {
  import opened Wrappers
  import opened P = DraftsProtocol

  class DraftsStore {
    var local: Local
    var activeDraftId: Option<string>
    var loadedAccountId: Option<string>
    var loadGeneration: nat
    var localStorage: map<string, Local>
    var user: Option<string>
    var token: Option<string>

    function Model(): State
      reads this
    {
      State(local, activeDraftId, loadedAccountId, loadGeneration, localStorage, user, token)
    }

    /** The store starts with an empty list and loads what is stored for the signed-in user. */
    constructor (localStorage: map<string, Local>, user: Option<string>, token: Option<string>)
      ensures Model() == Watch(State(Local([], []), None, None, 0, localStorage, user, token))
    {
      this.local, activeDraftId, loadedAccountId, loadGeneration := Local([], []), None, None, 0;
      this.localStorage, this.user, this.token := localStorage, user, token;
      new;
      WatchUser();
    }

    /** The storage may refuse. */
    method PersistLocal(stored: bool)
      modifies this`localStorage
      ensures Model() == Persist(old(Model()), stored)
    {
      if loadedAccountId.None? { return; }
      if stored { localStorage := localStorage[loadedAccountId.value := local]; }
    }

    method LoadStored(nextAccountId: Option<string>)
      modifies this`local, this`activeDraftId, this`loadedAccountId
      ensures Model() == LoadLocal(old(Model()), nextAccountId)
    {
      loadedAccountId := nextAccountId;
      activeDraftId := None;
      if nextAccountId.None? || nextAccountId.value !in localStorage {
        local := Local([], []);
        return;
      }
      var stored := localStorage[nextAccountId.value];
      local := Local(Sorted(stored.drafts), Unique(stored.pendingDeletes));
    }

    method WatchUser()
      modifies this`local, this`activeDraftId, this`loadedAccountId, this`loadGeneration
      ensures Model() == Watch(old(Model()))
    {
      loadGeneration := loadGeneration + 1;
      LoadStored(user);
    }

    /** What `syncDraft` does when the server has answered. */
    method OnSaved(draftId: string, sourceAccountId: string, sourceToken: string, data: ServerDraft, stored: bool)
      requires data.id == draftId
      modifies this`local, this`localStorage
      ensures Model() == SyncReply(old(Model()), sourceAccountId, sourceToken, data, stored)
    {
      if loadedAccountId != Some(sourceAccountId) || user != Some(sourceAccountId) || token != Some(sourceToken) { return; }
      var current := Find(local.drafts, draftId);
      if current.None? || draftId in local.pendingDeletes { return; }
      if current.value.revision <= data.revision {
        var synced := FromServer(data);
        local := local.(drafts := Sorted([synced] + Without(local.drafts, draftId)));
        PersistLocal(stored);
      }
    }

    /** What `syncDelete` does when the server has answered. */
    method OnDeleted(id: string, sourceAccountId: string, sourceToken: string, stored: bool)
      modifies this`local, this`localStorage
      ensures Model() == DeleteReply(old(Model()), sourceAccountId, sourceToken, id, stored)
    {
      if loadedAccountId != Some(sourceAccountId) || user != Some(sourceAccountId) || token != Some(sourceToken) { return; }
      local := local.(pendingDeletes := WithoutId(local.pendingDeletes, id));
      PersistLocal(stored);
    }

    /** What `loadRemote` does when the server has answered; the loops fill the map by id. */
    method OnListed(data: seq<ServerDraft>, nextAccountId: string, generation: nat, stored: bool)
      modifies this`local, this`localStorage
      ensures Model() == ListReply(old(Model()), nextAccountId, generation, data, stored)
    {
      if generation != loadGeneration || loadedAccountId != Some(nextAccountId) { return; }
      var merged := MergeLoops(data, local.drafts, local.pendingDeletes);
      local := local.(drafts := Sorted(merged));
      PersistLocal(stored);
    }

    method RefreshDrafts()
      modifies this`local, this`activeDraftId, this`loadedAccountId, this`loadGeneration
      ensures Model() == Refresh(old(Model()))
    {
      if user.None? || token.None? { return; }
      if loadedAccountId != user { LoadStored(user); }
      loadGeneration := loadGeneration + 1;
    }

    method RemoveDraft(id: string, stored: bool)
      modifies this`local, this`activeDraftId, this`localStorage
      ensures Model() == Remove(old(Model()), id, stored)
    {
      local := local.(drafts := Without(local.drafts, id));
      local := local.(pendingDeletes := Unique(local.pendingDeletes + [id]));
      if activeDraftId == Some(id) { activeDraftId := None; }
      PersistLocal(stored);
    }

    method SaveDraft(input: Input, now: int, freshId: string, stored: bool)
      modifies this`local, this`activeDraftId, this`localStorage
      ensures Model() == Save(old(Model()), input, now, freshId, stored)
    {
      if loadedAccountId.None? { return; }
      if !input.filled {
        if activeDraftId.Some? { RemoveDraft(activeDraftId.value, stored); }
        return;
      }
      var existing := if activeDraftId.Some? then Find(local.drafts, activeDraftId.value) else None;
      var draft :=
        if existing.Some? then
          Draft(existing.value.id, existing.value.revision + 1, input.content, existing.value.createdAt, now, true)
        else Draft(freshId, 1, input.content, now, now, true);
      local := local.(pendingDeletes := WithoutId(local.pendingDeletes, draft.id));
      local := local.(drafts := Sorted([draft] + Without(local.drafts, draft.id)));
      activeDraftId := Some(draft.id);
      PersistLocal(stored);
    }

    method SelectDraft(id: string) returns (draft: Option<Draft>)
      modifies this`activeDraftId
      ensures Model() == Select(old(Model()), id)
      ensures draft == Find(local.drafts, id)
    {
      draft := Find(local.drafts, id);
      FindFacts(local.drafts, id);
      activeDraftId := if draft.Some? then Some(draft.value.id) else None;
    }
  }

  /** The three passes over the map of drafts by id. */
  method MergeLoops(data: seq<ServerDraft>, locals: seq<Draft>, deletes: seq<string>) returns (remoteById: seq<Draft>)
    ensures remoteById == Merge(data, locals, deletes)
  {
    remoteById := [];
    assert data[0..] == data && locals[0..] == locals && deletes[0..] == deletes;
    for i := 0 to |data|
      invariant PutRemote(remoteById, data[i..]) == PutRemote([], data)
    {
      assert data[i..][1..] == data[i + 1..];
      remoteById := Put(remoteById, FromServer(data[i]));
    }
    ghost var listed := remoteById;
    for i := 0 to |locals|
      invariant PutLocals(remoteById, locals[i..]) == PutLocals(listed, locals)
    {
      assert locals[i..][1..] == locals[i + 1..];
      var own := locals[i];
      ghost var before := remoteById;
      var remote := Find(remoteById, own.id);
      if own.pendingSync && (remote.None? || own.revision > remote.value.revision) {
        remoteById := Put(remoteById, own);
      }
      assert remoteById == PutLocal(before, own);
    }
    ghost var merged := remoteById;
    for i := 0 to |deletes|
      invariant WithoutAll(remoteById, deletes[i..]) == WithoutAll(merged, deletes)
    {
      assert deletes[i..][1..] == deletes[i + 1..];
      remoteById := Without(remoteById, deletes[i]);
    }
  }
}
