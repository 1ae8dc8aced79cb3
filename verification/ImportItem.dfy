/** The import handler, statement by statement (siliconbeest-queue-consumer/src/handlers/importItem.ts). */
module ImportItem {
  import opened Wrappers
  import opened Strings
  import opened DomainBlocks
  import opened ImportTables

  /** The part before the first '@', and the lower-cased part after the last one, if there is any. */
  datatype Handle = Handle(username: string, domain: Option<string>)

  function AfterLastAt(s: string): string {
    if s == "" || s[|s| - 1] == '@' then "" else AfterLastAt(s[..|s| - 1]) + [s[|s| - 1]]
  }

  /** An empty domain counts as none. */
  function ParseAcct(acct: string): Handle {
    var at := IndexOf(acct, "@");
    if at == -1 then Handle(acct, None)
    else
      var domain := Lower(AfterLastAt(acct));
      Handle(acct[..at], if domain == "" then None else Some(domain))
  }

  lemma {:induction false} AfterLastAtOf(before: string, host: string)
    requires '@' !in host
    ensures AfterLastAt(before + "@" + host) == host
    decreases |host|
  {
    var s := before + "@" + host;
    if host != "" {
      AfterLastAtOf(before, host[..|host| - 1]);
      assert s[..|s| - 1] == before + "@" + host[..|host| - 1];
      assert host[..|host| - 1] + [host[|host| - 1]] == host;
    }
  }

  /** `user@host` is the user on that host in lower case, whatever stands between the first and the last '@'; a bare name is local. */
  lemma HandlesReadBack(user: string, between: string, host: string)
    requires '@' !in user && '@' !in host
    ensures ParseAcct(user) == Handle(user, None)
    ensures ParseAcct(user + "@" + host) == Handle(user, if host == "" then None else Some(Lower(host)))
    ensures ParseAcct(user + "@" + between + "@" + host) == Handle(user, if host == "" then None else Some(Lower(host)))
  {
    hide IndexOf;
    IndexOfChar(user, '@');
    IndexOfFirst(user, '@', host);
    IndexOfFirst(user, '@', between + "@" + host);
    assert user + "@" + (between + "@" + host) == user + "@" + between + "@" + host;
    AfterLastAtOf(user, host);
    AfterLastAtOf(user + "@" + between, host);
    assert Lower(host) == "" <==> host == "";
  }

  predicate IsTarget(info: Info, acct: string, id: string) {
    id in info.accounts
    && info.accounts[id].username == ParseAcct(acct).username && info.accounts[id].domain == ParseAcct(acct).domain
  }

  /** An account is meant by its exact user name and its host in lower case, or by its bare user name if it is local. */
  lemma TargetsByHandle(info: Info, user: string, host: string, id: string)
    requires '@' !in user && '@' !in host && host != ""
    ensures IsTarget(info, user, id)
            <==> id in info.accounts && info.accounts[id].username == user && info.accounts[id].domain.None?
    ensures IsTarget(info, user + "@" + host, id)
            <==> id in info.accounts && info.accounts[id].username == user && info.accounts[id].domain == Some(Lower(host))
  {
    HandlesReadBack(user, "", host);
    hide ParseAcct, Lower;
  }

  class ImportConsumer {
    var info: Info
    var rel: Relations

    constructor (info: Info, rel: Relations)
      ensures this.info == info && this.rel == rel
    {
      this.info, this.rel := info, rel;
    }

    /** The first five statements of the block batch. */
    method InsertBlock(actor: string, target: string)
      requires actor != target
      modifies `rel
      ensures var b := Blocked(info.lists, old(rel), actor, target);
              rel == old(rel).(blocks := b.blocks, following := b.following, followers := b.followers)
    {
      hide DropIf, Severed;
      var there, back := Pair(actor, target), Pair(target, actor);
      rel := rel.(blocks := rel.blocks + {there});
      rel := rel.(following := DropIf(rel.following, actor, there in rel.follows));
      rel := rel.(followers := DropIf(rel.followers, target, there in rel.follows));
      rel := rel.(following := DropIf(rel.following, target, back in rel.follows));
      rel := rel.(followers := DropIf(rel.followers, actor, back in rel.follows));
    }

    /** The deletions of the block batch. */
    method TearDown(actor: string, target: string)
      modifies `rel
      ensures var b := Blocked(info.lists, old(rel), actor, target);
              rel == old(rel).(follows := b.follows, requests := b.requests, members := b.members, pins := b.pins)
    {
      hide DropIf;
      var there, back := Pair(actor, target), Pair(target, actor);
      rel := rel.(follows := rel.follows - {there});
      rel := rel.(follows := rel.follows - {back});
      rel := rel.(requests := rel.requests - {there});
      rel := rel.(requests := rel.requests - {back});
      rel := rel.(members := set m | m in rel.members
                                    && !(m.account == target && m.list in info.lists && info.lists[m.list] == actor));
      rel := rel.(members := set m | m in rel.members
                                    && !(m.account == actor && m.list in info.lists && info.lists[m.list] == target));
      rel := rel.(pins := set p | p in rel.pins && !Between(p, actor, target));
      ghost var b := Blocked(info.lists, old(rel), actor, target);
      assert rel.follows == b.follows && rel.requests == b.requests && rel.pins == b.pins;
      assert rel.members == b.members;
    }

    /** The twelve statements of the block batch, in order. */
    method BlockBatch(actor: string, target: string)
      requires actor != target
      modifies `rel
      ensures rel == Blocked(info.lists, old(rel), actor, target)
    {
      InsertBlock(actor, target);
      TearDown(actor, target);
    }

    /** The follow branch; what the lookup answers is the suspension itself when the rules looked up are in normal form. */
    method FollowItem(actor: string, target: string)
      requires target in info.accounts && actor != target
      modifies `rel
      ensures exists suspended ::
                && rel == Follow(info, old(rel), actor, target, suspended)
                && (PlainTarget(info, target) ==> suspended == TargetSuspended(info, target))
    {
      hide SuspendedAmong, Suspended, NormalizeDomain, Viewable, BlocksDomainOf, CanAct, PlainLookup;
      var account := info.accounts[target];
      ghost var suspended := false;
      if account.domain.Some? && account.domain.value != "" {
        var targetDomain := Lower(account.domain.value);
        var suspendedDomains := GetSuspendedDomains(info.rules, [targetDomain]);
        SuspendedAlone(info.rules, targetDomain);
        suspended := targetDomain in suspendedDomains;
        if targetDomain in suspendedDomains {
          assert rel == Follow(info, old(rel), actor, target, suspended);
          return;
        }
      }
      FollowPermitted(actor, target);
      assert PlainTarget(info, target) ==> suspended == TargetSuspended(info, target);
    }

    /** The follow branch from the permission check on. */
    method FollowPermitted(actor: string, target: string)
      requires target in info.accounts
      modifies `rel
      ensures rel == Follow(info, old(rel), actor, target, false)
    {
      hide Viewable, BlocksDomainOf, CanAct;
      var account := info.accounts[target];
      if !CanAct(info, actor) || !CanFollow(info, rel, actor, target) { return; }
      var p := Pair(actor, target);
      if p in rel.follows { return; }
      if p in rel.requests { return; }
      var isRemote := account.domain.Some? && account.domain.value != "";
      var needsApproval := account.locked || account.approvesFollowers;
      if isRemote || needsApproval {
        rel := rel.(requests := rel.requests + {p});
      } else {
        rel := InsertFollow(rel, p);
        rel := rel.(following := Bump(rel.following, actor));
        rel := rel.(followers := Bump(rel.followers, target));
      }
    }

    /** The branches, for a target that was found and is not the importing account itself. */
    method Perform(action: Action, accountId: string, target: string)
      requires target in info.accounts && target != accountId
      modifies `rel
      ensures exists suspended ::
                && rel == Import(info, old(rel), action, accountId, target, suspended)
                && (PlainTarget(info, target) ==> suspended == TargetSuspended(info, target))
    {
      hide Follow, PlainTarget, TargetSuspended, CanBlockOrMute;
      ghost var answer := TargetSuspended(info, target);
      match action
      case Following =>
        FollowItem(accountId, target);
        ghost var suspended :| rel == Follow(info, old(rel), accountId, target, suspended)
                               && (PlainTarget(info, target) ==> suspended == TargetSuspended(info, target));
        assert rel == Import(info, old(rel), action, accountId, target, suspended);
      case Blocks =>
        if CanBlockOrMute(info, accountId, target) { BlockBatch(accountId, target); }
        assert rel == Import(info, old(rel), action, accountId, target, answer);
      case Mutes =>
        if CanBlockOrMute(info, accountId, target) {
          var p := Pair(accountId, target);
          if p !in rel.mutes { rel := rel.(mutes := rel.mutes + {p}); }
          assert rel.mutes == old(rel).mutes + {p};
        }
        assert rel == Import(info, old(rel), action, accountId, target, answer);
    }

    /** `handleImportItem`: what it does to the tables, and that it keeps them consistent. */
    method HandleImportItem(acct: string, action: Action, accountId: string)
      modifies `rel
      ensures
        || ((forall id :: !IsTarget(info, acct, id)) && rel == old(rel))
        || (exists target, suspended ::
              && IsTarget(info, acct, target)
              && rel == Import(info, old(rel), action, accountId, target, suspended)
              && (PlainTarget(info, target) ==> suspended == TargetSuspended(info, target)))
      ensures Inv(info, old(rel)) ==> Inv(info, rel)
    {
      var found := set id | id in info.accounts && IsTarget(info, acct, id);
      if found == {} {
        assert forall id :: IsTarget(info, acct, id) ==> id in found;
        return;
      }
      var target :| target in found;
      assert IsTarget(info, acct, target);
      hide IsTarget, Inv, PlainTarget, TargetSuspended;
      ghost var suspended := TargetSuspended(info, target);
      if target == accountId {
        assert rel == Import(info, old(rel), action, accountId, target, suspended);
        return;
      }
      Perform(action, accountId, target);
      suspended :| rel == Import(info, old(rel), action, accountId, target, suspended)
                   && (PlainTarget(info, target) ==> suspended == TargetSuspended(info, target));
      hide Import;
      if Inv(info, old(rel)) { ImportKeepsInv(info, old(rel), action, accountId, target, suspended); }
    }
  }

  lemma SuspendedAlone(rules: map<string, Rule>, domain: string)
    ensures domain in SuspendedAmong(rules, set d | d in [domain])
            <==> NormalizeDomain(domain) == domain && Suspended(rules, NormalizeDomain(NormalizeDomain(domain)))
  {
    assert (set d | d in [domain]) == {domain};
  }
}
