/**
 * Removing suspended destinations from a queued delivery
 * (siliconbeest-queue-consumer/src/federationPolicy.ts and the steps of src/index.ts that use it).
 */
module FederationPolicy {
  import opened Wrappers
  import opened Strings
  import opened DomainBlocks

  /** A JSON value, with objects as maps. */
  datatype Value = Text(text: string) | Many(items: seq<Value>) | Record(fields: map<string, Value>) | Other

  datatype Filtered = Filtered(message: Option<Value>, droppedTargets: nat)

  predicate TypeIs(message: Value, name: string) {
    message.Record? && "type" in message.fields && message.fields["type"] == Text(name)
  }

  predicate IsOutbox(message: Value) {
    TypeIs(message, "outbox") && "inbox" in message.fields && message.fields["inbox"].Text?
  }

  predicate IsFanout(message: Value) {
    TypeIs(message, "fanout") && "inboxes" in message.fields && message.fields["inboxes"].Record?
  }

  /** Where a message goes: each inbox URL with the value that names its actors. */
  function Targets(message: Value): map<string, Value> {
    if IsOutbox(message) then map[message.fields["inbox"].text := message]
    else if IsFanout(message) then message.fields["inboxes"].fields
    else map[]
  }

  // ---------------------------------------------------------------- the names of a target

  /** `hostname`, with the empty string, which every caller ignores, as no name. */
  function HostNames(host: Host, url: string): set<string> {
    match host(url)
    case Some(name) => if name == "" then {} else {name}
    case None => {}
  }

  predicate HasActors(target: Value) {
    target.Record? && "actorIds" in target.fields && target.fields["actorIds"].Many?
  }

  function ActorNames(host: Host, ids: seq<Value>): set<string> {
    set id, name | id in ids && id.Text? && name in HostNames(host, id.text) :: name
  }

  function TargetNames(host: Host, inbox: string, target: Value): set<string> {
    HostNames(host, inbox) + if HasActors(target) then ActorNames(host, target.fields["actorIds"].items) else {}
  }

  method AddActorDomains(host: Host, domains: set<string>, target: Value) returns (more: set<string>)
    ensures more == domains + if HasActors(target) then ActorNames(host, target.fields["actorIds"].items) else {}
  {
    more := domains;
    if HasActors(target) {
      var ids := target.fields["actorIds"].items;
      for k := 0 to |ids|
        invariant more == domains + ActorNames(host, ids[..k])
      {
        assert ids[..k + 1] == ids[..k] + [ids[k]];
        if ids[k].Text? { more := more + HostNames(host, ids[k].text); }
      }
      assert ids[..|ids|] == ids;
    }
  }

  /** Every name of every target of the message. */
  function AllTargetNames(host: Host, message: Value): set<string> {
    set inbox, name | inbox in Targets(message) && name in TargetNames(host, inbox, Targets(message)[inbox]) :: name
  }

  method GetFedifyTargetDomains(host: Host, message: Value) returns (domains: set<string>)
    ensures domains == AllTargetNames(host, message)
  {
    domains := {};
    if IsOutbox(message) {
      var inbox := message.fields["inbox"].text;
      domains := AddActorDomains(host, HostNames(host, inbox), message);
      assert Targets(message).Keys == {inbox} && domains == TargetNames(host, inbox, message);
    } else if IsFanout(message) {
      var inboxes := message.fields["inboxes"].fields;
      var rest := inboxes.Keys;
      while rest != {}
        invariant rest <= inboxes.Keys
        invariant domains == set i, n | i in inboxes.Keys - rest && n in TargetNames(host, i, inboxes[i]) :: n
        decreases rest
      {
        hide TargetNames;
        var inbox :| inbox in rest;
        ghost var before := domains;
        var names := AddActorDomains(host, HostNames(host, inbox), inboxes[inbox]);
        assert names == TargetNames(host, inbox, inboxes[inbox]);
        domains := domains + names;
        assert inboxes.Keys - (rest - {inbox}) == (inboxes.Keys - rest) + {inbox};
        rest := rest - {inbox};
      }
      assert Targets(message) == inboxes;
      assert inboxes.Keys - rest == inboxes.Keys;
    }
  }

  function GetFedifyInboxUrls(message: Value): set<string> {
    if IsOutbox(message) then {message.fields["inbox"].text}
    else if IsFanout(message) then message.fields["inboxes"].fields.Keys
    else {}
  }

  // ---------------------------------------------------------------- filtering

  predicate IsSuspendedTarget(host: Host, inbox: string, target: Value,
                              suspendedDomains: set<string>, suspendedInboxes: set<string>) {
    || inbox in suspendedInboxes
    || exists name :: name in TargetNames(host, inbox, target) && name in suspendedDomains
  }

  /** The message without the targets outside `kept`. */
  function Keep(message: Value, kept: set<string>): Filtered {
    if !message.Record? then Filtered(None, 0)
    else if IsOutbox(message) then
      if message.fields["inbox"].text in kept then Filtered(Some(message), 0) else Filtered(None, 1)
    else if IsFanout(message) then
      var entries := message.fields["inboxes"].fields;
      var remaining := map inbox | inbox in entries && inbox in kept :: entries[inbox];
      var dropped := |entries.Keys - kept|;
      if dropped == 0 then Filtered(Some(message), 0)
      else if remaining == map[] then Filtered(None, dropped)
      else Filtered(Some(Record(message.fields["inboxes" := Record(remaining)])), dropped)
    else Filtered(Some(message), 0)
  }

  /** `filterSuspendedFedifyTargets` */
  method FilterSuspendedFedifyTargets(host: Host, message: Value, suspendedDomains: set<string>,
                                      suspendedInboxes: set<string>)
    returns (result: Filtered)
    ensures
      result == Keep(message, set i | i in Targets(message)
                                      && !IsSuspendedTarget(host, i, Targets(message)[i], suspendedDomains, suspendedInboxes))
  {
    if !message.Record? { return Filtered(None, 0); }
    if IsOutbox(message) {
      if IsSuspendedTarget(host, message.fields["inbox"].text, message, suspendedDomains, suspendedInboxes) {
        return Filtered(None, 1);
      }
      return Filtered(Some(message), 0);
    }
    if IsFanout(message) {
      var entries := message.fields["inboxes"].fields;
      var remaining := map inbox
        | inbox in entries && !IsSuspendedTarget(host, inbox, entries[inbox], suspendedDomains, suspendedInboxes)
        :: entries[inbox];
      ghost var kept := set i | i in entries && !IsSuspendedTarget(host, i, entries[i], suspendedDomains, suspendedInboxes);
      assert remaining.Keys == kept;
      assert remaining == map inbox | inbox in entries && inbox in kept :: entries[inbox];
      SplitCount(entries.Keys, kept);
      MapCount(entries);
      MapCount(remaining);
      var dropped := |entries| - |remaining|;
      if dropped == 0 { return Filtered(Some(message), 0); }
      if |remaining| == 0 { return Filtered(None, dropped); }
      return Filtered(Some(Record(message.fields["inboxes" := Record(remaining)])), dropped);
    }
    result := Filtered(Some(message), 0);
  }

  lemma SplitCount(all: set<string>, part: set<string>)
    requires part <= all
    ensures |all - part| + |part| == |all|
  {
    assert all == (all - part) + part;
  }

  lemma MapCount(m: map<string, Value>)
    ensures |m| == |m.Keys|
    ensures |m.Keys| == 0 <==> m == map[]
  {
    if |m.Keys| == 0 { assert m.Keys == {}; assert forall k :: k !in m; }
  }

  /** `left` is `message` with fewer targets and nothing else changed. */
  ghost predicate OnlyTargetsWent(message: Value, left: Value, kept: set<string>) {
    && Targets(left).Keys == Targets(message).Keys * kept
    && (IsFanout(message) ==> forall i :: i in Targets(left) ==> Targets(left)[i] == Targets(message)[i])
    && message.Record? && left.Record?
    && left.fields.Keys == message.fields.Keys
    && forall f :: f in message.fields && (f != "inboxes" || !IsFanout(message)) ==> left.fields[f] == message.fields[f]
  }

  lemma OutboxConserves(message: Value, kept: set<string>)
    requires IsOutbox(message)
    ensures var r, targets := Keep(message, kept), Targets(message);
            && r.droppedTargets == |targets.Keys - kept|
            && |targets| == 1
            && (r.message.None? <==> targets.Keys !! kept)
            && (r.message.Some? ==> r.message.value == message && targets.Keys <= kept)
  {
    var inbox, targets := message.fields["inbox"].text, Targets(message);
    MapCount(targets);
    assert targets.Keys == {inbox};
    if inbox in kept {
      assert targets.Keys - kept == {};
    } else {
      assert targets.Keys - kept == {inbox};
    }
  }

  lemma FanoutConserves(message: Value, kept: set<string>)
    requires IsFanout(message)
    ensures var r, targets := Keep(message, kept), Targets(message);
            && r.droppedTargets == |targets.Keys - kept|
            && (r.message.None? <==> targets != map[] && targets.Keys !! kept)
            && (r.message.Some? ==> OnlyTargetsWent(message, r.message.value, kept))
  {
    var targets := Targets(message);
    assert TypeIs(message, "fanout") && !TypeIs(message, "outbox");
    var remaining := map inbox | inbox in targets && inbox in kept :: targets[inbox];
    assert remaining.Keys == targets.Keys * kept;
    if |targets.Keys - kept| == 0 {
      assert targets.Keys - kept == {};
      assert forall i :: i in targets ==> i in kept by {
        forall i | i in targets ensures i in kept {
          assert i in targets.Keys - kept <==> i !in kept;
        }
      }
      assert remaining == targets;
      MapCount(targets);
      if targets != map[] { var i :| i in targets; }
    } else if remaining == map[] {
      forall i | i in targets ensures i !in kept {
        assert i in remaining <==> i in kept;
      }
    } else {
      var i :| i in remaining;
      var left := Record(message.fields["inboxes" := Record(remaining)]);
      assert TypeIs(left, "fanout") && !TypeIs(left, "outbox") && Targets(left) == remaining;
    }
  }

  /**
   * Filtering conserves: it keeps exactly the targets asked for, counts the others, and leaves every
   * other field alone. Nothing remains only of a message all of whose targets went.
   */
  lemma KeepConserves(message: Value, kept: set<string>)
    requires message.Record?
    ensures var r, targets := Keep(message, kept), Targets(message);
            && r.droppedTargets == |targets.Keys - kept|
            && (r.message.None? <==> targets != map[] && targets.Keys !! kept)
            && (r.message.Some? ==>
                  OnlyTargetsWent(message, r.message.value, kept)
                  && |Targets(r.message.value)| + r.droppedTargets == |targets|)
  {
    var r, targets := Keep(message, kept), Targets(message);
    SplitCount(targets.Keys, targets.Keys * kept);
    assert targets.Keys - targets.Keys * kept == targets.Keys - kept;
    MapCount(targets);
    if IsOutbox(message) {
      OutboxConserves(message, kept);
    } else if IsFanout(message) {
      FanoutConserves(message, kept);
    }
    if r.message.Some? { MapCount(Targets(r.message.value)); }
  }

  // ---------------------------------------------------------------- the whole pipeline

  /** The rule table, the tables of known identities, and how URLs parse. */
  datatype Env = Env(table: map<string, Rule>, identities: Identities, host: Host)

  /** `name` is one of the names a delivery to `inbox` reaches: the inbox host, an actor's, or a known identity. */
  ghost predicate Reaches(env: Env, inbox: string, target: Value, name: string) {
    || name in TargetNames(env.host, inbox, target)
    || (inbox != "" && Behind(env.identities, env.host, inbox, name))
  }

  /** What filtering is for: the delivery reaches a name whose deciding rule suspends. */
  ghost predicate ReachesSuspended(env: Env, inbox: string, target: Value) {
    exists name :: Reaches(env, inbox, target, name) && Suspended(env.table, NormalizeDomain(name))
  }

  /** What filtering does: only names in normal form are recognised. */
  ghost predicate Drops(env: Env, inbox: string, target: Value) {
    exists name :: Reaches(env, inbox, target, name) && NormalizeDomain(name) == name && Suspended(env.table, name)
  }

  ghost function CleanTargets(env: Env, message: Value): set<string> {
    set i | i in Targets(message) && !Drops(env, i, Targets(message)[i])
  }

  /** Host names and stored domains hold no white space; host names are lower-case. */
  ghost predicate ProperNames(env: Env) {
    && (forall url :: env.host(url).Some? ==> WhiteFree(env.host(url).value) && Lower(env.host(url).value) == env.host(url).value)
    && (forall a :: a in env.identities.accounts && a.domain.Some? ==> WhiteFree(a.domain.value))
  }

  lemma ReachedNamesAreProper(env: Env, inbox: string, target: Value, name: string)
    requires ProperNames(env)
    requires name in TargetNames(env.host, inbox, target) || Behind(env.identities, env.host, inbox, name)
    ensures WhiteFree(name) && Lower(name) == name
  {
    if Behind(env.identities, env.host, inbox, name) {
      if a :| a in env.identities.accounts && AccountAt(a, inbox) && name == Lower(a.domain.value) {
        assert WhiteFree(a.domain.value);
      }
    }
  }

  lemma TargetNamesAreProper(env: Env, message: Value)
    requires ProperNames(env)
    ensures forall n :: n in AllTargetNames(env.host, message) ==> WhiteFree(n)
  {
    hide TargetNames, Targets, WhiteFree, ProperNames;
    forall n | n in AllTargetNames(env.host, message) ensures WhiteFree(n) {
      var i :| i in Targets(message) && n in TargetNames(env.host, i, Targets(message)[i]);
      ReachedNamesAreProper(env, i, Targets(message)[i], n);
    }
  }

  /** One target: the sets looked up for the whole message drop it exactly when `Drops` says so. */
  lemma LookupDrops(env: Env, message: Value, inbox: string, suspendedDomains: set<string>, suspendedInboxes: set<string>)
    requires ProperNames(env) && inbox in Targets(message)
    requires suspendedDomains == SuspendedAmong(env.table, AllTargetNames(env.host, message))
    requires inbox in suspendedInboxes <==> inbox != "" && SuspendedInbox(env.table, env.identities, env.host, inbox)
    ensures
      IsSuspendedTarget(env.host, inbox, Targets(message)[inbox], suspendedDomains, suspendedInboxes)
      <==> Drops(env, inbox, Targets(message)[inbox])
  {
    hide NormalizeDomain, Suspended, SuspendedAmong, TargetNames, Behind, Targets, WhiteFree, Lower;
    var target, names := Targets(message)[inbox], AllTargetNames(env.host, message);
    TargetNamesAreProper(env, message);
    forall n | n in TargetNames(env.host, inbox, target)
      ensures n in suspendedDomains <==> NormalizeDomain(n) == n && Suspended(env.table, n)
    {
      AnswerForNormalNames(env.table, names, n);
    }
  }

  /** The steps of `processMessageBody` between unpacking a queued message and handing it on. */
  method FilterQueuedTask(env: Env, message: Value) returns (result: Filtered)
    requires ProperNames(env)
    ensures result == Keep(message, CleanTargets(env, message))
  {
    var targetDomains := GetFedifyTargetDomains(env.host, message);
    var inboxUrls := GetFedifyInboxUrls(message);
    var list := Listed(targetDomains);
    var suspendedDomains := GetSuspendedDomains(env.table, list);
    var urls := Listed(inboxUrls);
    var suspendedInboxes := GetSuspendedDeliveryInboxes(env.table, env.identities, env.host, urls);
    result := FilterSuspendedFedifyTargets(env.host, message, suspendedDomains, suspendedInboxes);
    hide SuspendedAmong, Drops, IsSuspendedTarget, SuspendedInbox, Keep, AllTargetNames, WhiteFreeIdentities, PlainLookup, WhiteFree;
    assert AllTargetNames(env.host, message) == set d | d in list;
    assert Targets(message).Keys == inboxUrls;
    IdentitiesAreProper(env);
    TargetNamesAreProper(env, message);
    PlainWithoutWhiteSpace(env.table, list);
    forall i | i in Targets(message)
      ensures IsSuspendedTarget(env.host, i, Targets(message)[i], suspendedDomains, suspendedInboxes)
              <==> Drops(env, i, Targets(message)[i])
    {
      LookupDrops(env, message, i, suspendedDomains, suspendedInboxes);
    }
    assert CleanTargets(env, message)
      == set i | i in Targets(message)
                 && !IsSuspendedTarget(env.host, i, Targets(message)[i], suspendedDomains, suspendedInboxes);
  }

  lemma IdentitiesAreProper(env: Env)
    requires ProperNames(env)
    ensures WhiteFreeIdentities(env.identities, env.host)
  {
    forall inbox, name | Behind(env.identities, env.host, inbox, name) ensures WhiteFree(name) {
      ReachedNamesAreProper(env, inbox, Other, name);
    }
  }

  /** No clean target is dropped; a suspended one survives exactly when all its suspended names end in a dot. */
  lemma SurvivesIffDotted(env: Env, inbox: string, target: Value)
    requires ProperNames(env)
    ensures Drops(env, inbox, target) ==> ReachesSuspended(env, inbox, target)
    ensures
      ReachesSuspended(env, inbox, target) && !Drops(env, inbox, target)
      <==> ReachesSuspended(env, inbox, target)
           && forall name :: Reaches(env, inbox, target, name) && Suspended(env.table, NormalizeDomain(name)) ==> EndsInDot(name)
  {
    forall name | Reaches(env, inbox, target, name) ensures NormalizeDomain(name) == name <==> !EndsInDot(name) {
      ReachedNamesAreProper(env, inbox, target, name);
      NormalForm(name);
    }
  }

  /** With no name ending in a dot, the pipeline is the direct filter by rule and identity tables. */
  lemma PipelineIsDirectFilter(env: Env, message: Value)
    requires ProperNames(env)
    requires forall i, name :: i in Targets(message) && Reaches(env, i, Targets(message)[i], name) ==> !EndsInDot(name)
    ensures CleanTargets(env, message)
            == set i | i in Targets(message) && !ReachesSuspended(env, i, Targets(message)[i])
  {
    forall i | i in Targets(message)
      ensures Drops(env, i, Targets(message)[i]) <==> ReachesSuspended(env, i, Targets(message)[i])
    {
      SurvivesIffDotted(env, i, Targets(message)[i]);
    }
  }

  /** What one pass leaves, a second pass leaves alone. */
  lemma SecondPassDropsNothing(env: Env, message: Value)
    ensures var r := Keep(message, CleanTargets(env, message));
            r.message.Some? ==>
              Keep(r.message.value, CleanTargets(env, r.message.value)) == Filtered(r.message, 0)
  {
    hide Drops;
    if message.Record? {
      var r := Keep(message, CleanTargets(env, message));
      KeepConserves(message, CleanTargets(env, message));
      if r.message.Some? && IsFanout(message) {
        var left := r.message.value;
        assert IsFanout(left);
        assert Targets(left).Keys - CleanTargets(env, left) == {};
      }
    }
  }

  /** Where a message goes, in the fields it has: an outbox message to its one inbox, a fan-out to each key of its inboxes. */
  lemma TargetsSpelled(fields: map<string, Value>, inbox: string, inboxes: map<string, Value>)
    requires "type" in fields
    ensures fields["type"] == Text("outbox") && "inbox" in fields && fields["inbox"] == Text(inbox) ==>
              Targets(Record(fields)) == map[inbox := Record(fields)]
    ensures fields["type"] == Text("fanout") && "inboxes" in fields && fields["inboxes"] == Record(inboxes) ==>
              Targets(Record(fields)) == inboxes
    ensures fields["type"] !in {Text("outbox"), Text("fanout")} ==> Targets(Record(fields)) == map[]
  {
    assert "outbox"[0] != "fanout"[0];
  }

  /**
   * The names a delivery reaches, in the fields and columns they come from: the inbox's host, the hosts of the actor ids
   * that are strings, the domains of accounts with that inbox or shared inbox, and the hosts of relays' actors there.
   */
  lemma ReachesSpelled(env: Env, inbox: string, target: Value, name: string)
    ensures
      Reaches(env, inbox, target, name)
      <==>
      || (name != "" && env.host(inbox) == Some(name))
      || (&& name != "" && target.Record? && "actorIds" in target.fields && target.fields["actorIds"].Many?
          && exists id: string :: Text(id) in target.fields["actorIds"].items && env.host(id) == Some(name))
      || (inbox != "" && exists a :: a in env.identities.accounts && a.domain.Some? && name == Lower(a.domain.value)
                                     && (a.inboxUrl == Some(inbox) || a.sharedInboxUrl == Some(inbox)))
      || (inbox != "" && exists r :: r in env.identities.relays && r.actorUri.Some? && r.inboxUrl == inbox
                                     && env.host(r.actorUri.value) == Some(name))
  {
    HostNamesSpelled(env.host, inbox, name);
    if HasActors(target) { ActorNamesSpelled(env.host, target.fields["actorIds"].items, name); }
    hide HostNames, ActorNames, Lower;
  }

  lemma HostNamesSpelled(host: Host, url: string, name: string)
    ensures name in HostNames(host, url) <==> name != "" && host(url) == Some(name)
  {
  }

  /** The names of actors are the hosts of those ids that are strings and parse. */
  lemma ActorNamesSpelled(host: Host, ids: seq<Value>, name: string)
    ensures name in ActorNames(host, ids) <==> name != "" && exists id: string :: Text(id) in ids && host(id) == Some(name)
  {
    if id: string :| name != "" && Text(id) in ids && host(id) == Some(name) {
      HostNamesSpelled(host, id, name);
      assert Text(id).Text? && Text(id).text == id;
    }
    if name in ActorNames(host, ids) {
      var v :| v in ids && v.Text? && name in HostNames(host, v.text);
      HostNamesSpelled(host, v.text, name);
      assert v == Text(v.text);
    }
  }

  const EXAMPLE_RULES := map["b.io" := Rule("suspend", false, false)]

  /** A host written with a trailing dot gets past the filter although its rule suspends it. */
  lemma DottedHostEscapes()
    ensures
      var env := Env(EXAMPLE_RULES, Identities({}, {}), (url: string) => Some("b.io."));
      var message := Record(map["type" := Text("outbox"), "inbox" := Text("https://b.io./in")]);
      && ReachesSuspended(env, "https://b.io./in", message)
      && Keep(message, CleanTargets(env, message)) == Filtered(Some(message), 0)
  {
    hide NormalizeDomain, WellFormed, AfterDot, WhiteFree, Lower;
    var env := Env(EXAMPLE_RULES, Identities({}, {}), (url: string) => Some("b.io."));
    var inbox := "https://b.io./in";
    var message := Record(map["type" := Text("outbox"), "inbox" := Text(inbox)]);
    DottedName();
    assert TargetNames(env.host, inbox, message) == {"b.io."};
    assert Reaches(env, inbox, message, "b.io.");
    assert Suspended(env.table, "b.io") by { assert Decides(env.table, "b.io", "b.io"); }
    forall name | Reaches(env, inbox, message, name) ensures NormalizeDomain(name) != name {}
    assert Targets(message).Keys == {inbox};
    assert inbox in CleanTargets(env, message);
  }

  lemma DottedName()
    ensures NormalizeDomain("b.io.") == "b.io" && "b.io." != "b.io"
    ensures WhiteFree("b.io.") && Lower("b.io.") == "b.io."
  {
    var name := "b.io.";
    assert name[..4] == "b.io";
    StripDotsFacts(name[..4]);
    assert Lower(name) == name;
    NormalizeTwice(name);
  }
}
