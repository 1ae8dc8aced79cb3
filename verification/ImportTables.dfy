/**
 * The relationship tables and their counters, and what one imported item does to them
 * (siliconbeest-queue-consumer/src/handlers/importItem.ts, packages/shared/permissions.ts).
 */
module ImportTables {
  import opened Wrappers
  import opened Strings
  import opened DomainBlocks

  // ---------------------------------------------------------------- tables

  /** A row of `follows`, `follow_requests`, `blocks`, `mutes` or `account_pins`, unique on both columns. */
  datatype Pair = Pair(source: string, target: string)

  datatype Member = Member(list: string, account: string)

  /** What imports change. The counter columns of `accounts` are kept per account id. */
  datatype Relations = Relations(
    follows: set<Pair>, requests: set<Pair>, blocks: set<Pair>, mutes: set<Pair>, pins: set<Pair>,
    members: set<Member>, following: map<string, int>, followers: map<string, int>)

  /** The columns of `accounts` that permissions look at. */
  datatype Profile = Profile(
    username: string, domain: Option<string>, locked: bool, approvesFollowers: bool,
    suspended: bool, memorial: bool, moved: bool)

  datatype User = User(disabled: bool, approved: bool)

  /** What imports only read; `lists` gives each list's owner. */
  datatype Info = Info(
    accounts: map<string, Profile>, users: map<string, User>, lists: map<string, string>,
    domainBlocks: set<(string, string)>, rules: map<string, Rule>)

  // ---------------------------------------------------------------- permissions

  /** `canActAsAccount`: an unsuspended account with an enabled, approved user that is no memorial. */
  predicate CanAct(info: Info, id: string) {
    && id in info.accounts && !info.accounts[id].suspended && !info.accounts[id].memorial
    && id in info.users && !info.users[id].disabled && info.users[id].approved
  }

  predicate Viewable(info: Info, id: string)
    requires id in info.accounts
  {
    !info.accounts[id].suspended
    && (info.accounts[id].domain.Some? || (id in info.users && info.users[id].approved))
  }

  predicate BlocksDomainOf(info: Info, actor: string, target: string)
    requires target in info.accounts
  {
    info.accounts[target].domain.Some?
    && exists row :: row in info.domainBlocks && row.0 == actor && Lower(row.1) == Lower(info.accounts[target].domain.value)
  }

  /** `canFollowAccount` on the facts the handler gathers. */
  predicate CanFollow(info: Info, r: Relations, actor: string, target: string)
    requires target in info.accounts
  {
    && actor != "" && target != "" && actor != target
    && Viewable(info, target) && !info.accounts[target].memorial && !info.accounts[target].moved
    && Pair(actor, target) !in r.blocks && Pair(target, actor) !in r.blocks
    && !BlocksDomainOf(info, actor, target)
  }

  predicate CanBlockOrMute(info: Info, actor: string, target: string) {
    actor != "" && target != "" && actor != target && CanAct(info, actor)
  }

  // ---------------------------------------------------------------- one item

  datatype Action = Following | Blocks | Mutes

  function Bump(counts: map<string, int>, id: string): map<string, int> {
    if id in counts then counts[id := counts[id] + 1] else counts
  }

  function Max(x: int, y: int): int {
    if x >= y then x else y
  }

  /** `MAX(0, count - 1)` on the row of `id`, where a condition holds. */
  function DropIf(counts: map<string, int>, id: string, condition: bool): map<string, int> {
    if condition && id in counts then counts[id := Max(0, counts[id] - 1)] else counts
  }

  function InsertFollow(r: Relations, p: Pair): Relations {
    r.(follows := r.follows + {p})
  }

  function CountFollow(r: Relations, p: Pair): Relations {
    r.(following := Bump(r.following, p.source), followers := Bump(r.followers, p.target))
  }

  predicate Between(p: Pair, x: string, y: string) {
    p == Pair(x, y) || p == Pair(y, x)
  }

  /** The membership of one of the two in a list of the other. */
  predicate Severed(lists: map<string, string>, m: Member, x: string, y: string) {
    m.list in lists
    && ((m.account == y && lists[m.list] == x) || (m.account == x && lists[m.list] == y))
  }

  /** What a block leaves of the tables. */
  function Blocked(lists: map<string, string>, r: Relations, actor: string, target: string): Relations {
    var there, back := Pair(actor, target), Pair(target, actor);
    Relations(
      r.follows - {there, back}, r.requests - {there, back}, r.blocks + {there}, r.mutes, r.pins - {there, back},
      (set m | m in r.members && !Severed(lists, m, actor, target)),
      DropIf(DropIf(r.following, actor, there in r.follows), target, back in r.follows),
      DropIf(DropIf(r.followers, target, there in r.follows), actor, back in r.follows))
  }

  ghost predicate TargetSuspended(info: Info, target: string)
    requires target in info.accounts
  {
    var domain := info.accounts[target].domain;
    domain.Some? && domain.value != "" && Suspended(info.rules, NormalizeDomain(NormalizeDomain(Lower(domain.value))))
    && NormalizeDomain(Lower(domain.value)) == Lower(domain.value)
  }

  /** The rules the target's domain is looked up under are stored in normal form. */
  ghost predicate PlainTarget(info: Info, target: string)
    requires target in info.accounts
  {
    var domain := info.accounts[target].domain;
    domain.Some? ==> PlainLookup(info.rules, [Lower(domain.value)])
  }

  /** What a follow item does, given whether the target's domain was found suspended. */
  function Follow(info: Info, r: Relations, actor: string, target: string, suspended: bool): Relations
    requires target in info.accounts
  {
    var p := Pair(actor, target);
    if suspended || !CanAct(info, actor) || !CanFollow(info, r, actor, target) then r
    else if p in r.follows || p in r.requests then r
    else
      var t := info.accounts[target];
      if (t.domain.Some? && t.domain.value != "") || t.locked || t.approvesFollowers then
        InsertRequest(r, p)
      else CountFollow(InsertFollow(r, p), p)
  }

  /** The effect of an item whose target account was found. */
  function Import(info: Info, r: Relations, action: Action, actor: string, target: string, suspended: bool): Relations
    requires target in info.accounts
  {
    if target == actor then r
    else
      match action
      case Following => Follow(info, r, actor, target, suspended)
      case Blocks => if CanBlockOrMute(info, actor, target) then Blocked(info.lists, r, actor, target) else r
      case Mutes => if CanBlockOrMute(info, actor, target) then r.(mutes := r.mutes + {Pair(actor, target)}) else r
  }

  // ---------------------------------------------------------------- invariants

  ghost function From(follows: set<Pair>, id: string): set<Pair> {
    set p | p in follows && p.source == id
  }

  ghost function To(follows: set<Pair>, id: string): set<Pair> {
    set p | p in follows && p.target == id
  }

  /** Every counter is the number of rows it counts. */
  ghost predicate CountsExact(r: Relations) {
    && (forall id :: id in r.following ==> r.following[id] == |From(r.follows, id)|)
    && (forall id :: id in r.followers ==> r.followers[id] == |To(r.follows, id)|)
  }

  /** A block excludes follows and requests both ways, and nothing is both followed and requested. */
  ghost predicate Exclusive(r: Relations) {
    && (forall p :: p in r.blocks ==>
          && p !in r.follows && p !in r.requests
          && Pair(p.target, p.source) !in r.follows && Pair(p.target, p.source) !in r.requests)
    && r.follows !! r.requests
  }

  /** Every account has its counters. */
  ghost predicate Linked(info: Info, r: Relations) {
    r.following.Keys == info.accounts.Keys && r.followers.Keys == info.accounts.Keys
  }

  ghost predicate Inv(info: Info, r: Relations) {
    Linked(info, r) && CountsExact(r) && Exclusive(r)
  }

  // ---------------------------------------------------------------- counting rows

  lemma AddRow(follows: set<Pair>, p: Pair, id: string)
    requires p !in follows
    ensures |From(follows + {p}, id)| == |From(follows, id)| + if p.source == id then 1 else 0
    ensures |To(follows + {p}, id)| == |To(follows, id)| + if p.target == id then 1 else 0
  {
    AddFrom(follows, p, id);
    assert To(follows + {p}, id) == To(follows, id) + if p.target == id then {p} else {};
  }

  lemma AddFrom(follows: set<Pair>, p: Pair, id: string)
    requires p !in follows
    ensures |From(follows + {p}, id)| == |From(follows, id)| + if p.source == id then 1 else 0
  {
    assert From(follows + {p}, id) == From(follows, id) + if p.source == id then {p} else {};
  }

  lemma CountedFollowKeepsCounts(r: Relations, p: Pair)
    requires CountsExact(r) && p !in r.follows
    ensures CountsExact(CountFollow(InsertFollow(r, p), p))
  {
    hide From, To;
    forall id ensures |From(r.follows + {p}, id)| == |From(r.follows, id)| + if p.source == id then 1 else 0
      ensures |To(r.follows + {p}, id)| == |To(r.follows, id)| + if p.target == id then 1 else 0
    {
      AddRow(r.follows, p, id);
    }
  }

  lemma RemoveRow(follows: set<Pair>, p: Pair, id: string)
    requires p in follows
    ensures |From(follows - {p}, id)| == |From(follows, id)| - if p.source == id then 1 else 0
    ensures |To(follows - {p}, id)| == |To(follows, id)| - if p.target == id then 1 else 0
  {
    AddRow(follows - {p}, p, id);
    assert follows - {p} + {p} == follows;
  }

  /** Removing one follow the way the batch does. */
  function Unfollow(r: Relations, p: Pair): Relations {
    r.(follows := r.follows - {p},
       following := DropIf(r.following, p.source, p in r.follows),
       followers := DropIf(r.followers, p.target, p in r.follows))
  }

  /** With exact counters the clamp at zero changes nothing. */
  lemma ClampNeverFires(r: Relations, p: Pair)
    requires CountsExact(r) && p in r.follows
    ensures p.source in r.following ==> r.following[p.source] >= 1
    ensures p.target in r.followers ==> r.followers[p.target] >= 1
  {
    assert p in From(r.follows, p.source) && p in To(r.follows, p.target);
  }

  lemma UnfollowKeepsCounts(r: Relations, p: Pair)
    requires CountsExact(r)
    ensures CountsExact(Unfollow(r, p))
  {
    if p in r.follows {
      ClampNeverFires(r, p);
      forall id ensures |From(r.follows - {p}, id)| == |From(r.follows, id)| - if p.source == id then 1 else 0
        ensures |To(r.follows - {p}, id)| == |To(r.follows, id)| - if p.target == id then 1 else 0
      {
        RemoveRow(r.follows, p, id);
      }
    } else {
      assert r.follows - {p} == r.follows;
    }
  }

  lemma BlockedCountsExact(lists: map<string, string>, r: Relations, x: string, y: string)
    requires CountsExact(r) && x != y
    ensures CountsExact(Blocked(lists, r, x, y))
  {
    hide From, To;
    var u := Unfollow(Unfollow(r, Pair(x, y)), Pair(y, x));
    UnfollowKeepsCounts(r, Pair(x, y));
    UnfollowKeepsCounts(Unfollow(r, Pair(x, y)), Pair(y, x));
    var b := Blocked(lists, r, x, y);
    hide Blocked, Unfollow;
    assert b.follows == u.follows && b.following == u.following && b.followers == u.followers;
  }

  lemma BlockKeepsInv(info: Info, r: Relations, actor: string, target: string)
    requires Inv(info, r) && actor != target
    ensures Inv(info, Blocked(info.lists, r, actor, target))
  {
    BlockedCountsExact(info.lists, r, actor, target);
    hide CountsExact;
    var b := Blocked(info.lists, r, actor, target);
    assert b.following.Keys == r.following.Keys && b.followers.Keys == r.followers.Keys;
  }

  /** The three things a follow item can do. */
  lemma FollowOutcomes(info: Info, r: Relations, actor: string, target: string, suspended: bool)
    requires target in info.accounts
    ensures var p, f := Pair(actor, target), Follow(info, r, actor, target, suspended);
            f == r
            || (p !in r.follows && p !in r.requests && p !in r.blocks && Pair(target, actor) !in r.blocks
                && (f == InsertRequest(r, p) || f == CountFollow(InsertFollow(r, p), p)))
  {
    hide CanAct, Viewable, BlocksDomainOf;
  }

  /**
   * Which row a follow import makes, in the columns it reads: a follow of a local account that is neither locked nor
   * approving its followers by hand, a request to any other, and one of them exactly when the importing account is
   * operational, the target can be followed, nothing blocks it, and neither row is there yet.
   */
  lemma FollowRowsExactly(info: Info, r: Relations, actor: string, target: string, suspended: bool)
    requires target in info.accounts && actor != target
    ensures
      var p, t := Pair(actor, target), info.accounts[target];
      var end := Import(info, r, Following, actor, target, suspended);
      var due :=
        && !suspended && p !in r.follows && p !in r.requests && actor != "" && target != ""
        && actor in info.accounts && !info.accounts[actor].suspended && !info.accounts[actor].memorial
        && actor in info.users && info.users[actor].approved && !info.users[actor].disabled
        && !t.suspended && !t.memorial && !t.moved
        && (t.domain.None? ==> target in info.users && info.users[target].approved)
        && p !in r.blocks && Pair(target, actor) !in r.blocks
        && (t.domain.Some? ==>
              forall row :: row in info.domainBlocks && row.0 == actor ==> Lower(row.1) != Lower(t.domain.value));
      var local := t.domain.None? || t.domain.value == "";
      && (p in end.follows - r.follows <==> due && local && !t.locked && !t.approvesFollowers)
      && (p in end.requests - r.requests <==> due && (!local || t.locked || t.approvesFollowers))
      && (!due ==> end == r)
  {
    hide Lower, Bump;
  }

  /** Only that row is new; a follow also raises the two counters by one, and a request raises none. */
  lemma FollowChangesOnly(info: Info, r: Relations, actor: string, target: string, suspended: bool)
    requires target in info.accounts && actor != target
    requires Linked(info, r)
    ensures
      var p, end := Pair(actor, target), Import(info, r, Following, actor, target, suspended);
      && end.blocks == r.blocks && end.mutes == r.mutes && end.pins == r.pins && end.members == r.members
      && end.follows - {p} == r.follows - {p} && r.follows <= end.follows
      && end.requests - {p} == r.requests - {p} && r.requests <= end.requests
      && (forall id :: id in r.following ==>
            && id in end.following
            && end.following[id] == r.following[id] + if id == actor && end.follows != r.follows then 1 else 0)
      && (forall id :: id in r.followers ==>
            && id in end.followers
            && end.followers[id] == r.followers[id] + if id == target && end.follows != r.follows then 1 else 0)
  {
    FollowOutcomes(info, r, actor, target, suspended);
    hide Follow, CanAct, CanFollow;
    var p, end := Pair(actor, target), Import(info, r, Following, actor, target, suspended);
    assert end.follows == r.follows || (p in end.follows && p !in r.follows);
  }

  /** Bob, locked and local: Ann's import only asks him. Open: it follows him. */
  lemma LockedIsOnlyAsked(locked: bool)
    ensures
      var profile := Profile("ann", None, false, false, false, false, false);
      var info := Info(map["ann" := profile, "bob" := profile.(username := "bob", locked := locked)],
                       map["ann" := User(false, true), "bob" := User(false, true)], map[], {}, map[]);
      var p, end := Pair("ann", "bob"), Import(info, EXAMPLE_RELATIONS, Following, "ann", "bob", false);
      && end.follows == (if locked then {} else {p}) && end.requests == (if locked then {p} else {})
      && end.followers["bob"] == end.following["ann"] == if locked then 0 else 1
  {
  }

  /** Which rows a block or a mute import makes, and when. */
  lemma BlockAndMuteRowsExactly(info: Info, r: Relations, actor: string, target: string, suspended: bool)
    requires target in info.accounts && actor != target
    ensures
      var p := Pair(actor, target);
      var blocked, muted := Import(info, r, Blocks, actor, target, suspended), Import(info, r, Mutes, actor, target, suspended);
      var due :=
        && actor != "" && target != "" && actor in info.accounts
        && !info.accounts[actor].suspended && !info.accounts[actor].memorial
        && actor in info.users && info.users[actor].approved && !info.users[actor].disabled;
      && blocked.blocks == (if due then r.blocks + {p} else r.blocks)
      && (due ==> p !in blocked.follows && p !in blocked.requests && p !in blocked.pins)
      && (!due ==> blocked == r)
      && blocked.mutes == r.mutes
      && muted == r.(mutes := if due then r.mutes + {p} else r.mutes)
  {
  }

  /**
   * For a stored domain in normal form, the target counts as suspended exactly when the rule that decides it suspends;
   * a local one never does.
   */
  lemma TargetSuspendedExactly(info: Info, target: string)
    requires target in info.accounts
    ensures var domain := info.accounts[target].domain;
            && (domain.None? || domain.value == "" ==> !TargetSuspended(info, target))
            && (domain.Some? && domain.value != "" && WhiteFree(domain.value) && Undotted(domain.value) ==>
                  (TargetSuspended(info, target) <==> Suspended(info.rules, domain.value)))
  {
    var domain := info.accounts[target].domain;
    if domain.Some? && WhiteFree(domain.value) && Undotted(domain.value) { NormalForm(domain.value); }
    hide NormalizeDomain, Suspended, WhiteFree, Lower;
  }

  lemma FollowKeepsCounts(info: Info, r: Relations, actor: string, target: string, suspended: bool)
    requires CountsExact(r) && target in info.accounts
    ensures CountsExact(Follow(info, r, actor, target, suspended))
  {
    var p := Pair(actor, target);
    FollowOutcomes(info, r, actor, target, suspended);
    if p !in r.follows { CountedFollowKeepsCounts(r, p); }
    hide Follow, From, To;
  }

  lemma FollowKeepsExclusive(info: Info, r: Relations, actor: string, target: string, suspended: bool)
    requires Exclusive(r) && target in info.accounts
    ensures Exclusive(Follow(info, r, actor, target, suspended))
  {
    FollowOutcomes(info, r, actor, target, suspended);
    hide Follow, Bump;
    var f := Follow(info, r, actor, target, suspended);
    assert f.blocks == r.blocks;
    forall p | p in r.blocks
      ensures p !in f.follows && p !in f.requests
      ensures Pair(p.target, p.source) !in f.follows && Pair(p.target, p.source) !in f.requests
    {
      assert Pair(p.target, p.source) == Pair(actor, target) ==> p == Pair(target, actor);
    }
  }

  lemma FollowKeepsInv(info: Info, r: Relations, actor: string, target: string, suspended: bool)
    requires Inv(info, r) && target in info.accounts
    ensures Inv(info, Follow(info, r, actor, target, suspended))
  {
    FollowKeepsCounts(info, r, actor, target, suspended);
    FollowKeepsExclusive(info, r, actor, target, suspended);
    hide CountsExact, Exclusive, Linked, Follow;
  }

  /** Every item keeps the counters exact and blocks exclusive. */
  lemma ImportKeepsInv(info: Info, r: Relations, action: Action, actor: string, target: string, suspended: bool)
    requires Inv(info, r) && target in info.accounts
    ensures Inv(info, Import(info, r, action, actor, target, suspended))
  {
    match action
    case Following => FollowKeepsInv(info, r, actor, target, suspended);
    case Blocks => if actor != target { BlockKeepsInv(info, r, actor, target); }
    case Mutes =>
  }

  // ---------------------------------------------------------------- runs

  /**
   * An item whose account was found, with what the suspension lookup answered, one whose account was not,
   * or a change of profiles, users, lists and rules.
   */
  datatype Event = Item(action: Action, actor: string, target: string, suspended: bool) | NotFound | Elsewhere(info: Info)

  datatype Db = Db(info: Info, rel: Relations)

  ghost function Step(db: Db, e: Event): Db {
    match e
    case Item(action, actor, target, suspended) =>
      if target in db.info.accounts then db.(rel := Import(db.info, db.rel, action, actor, target, suspended)) else db
    case NotFound => db
    case Elsewhere(info) => if info.accounts.Keys == db.info.accounts.Keys then db.(info := info) else db
  }

  ghost function Run(db: Db, events: seq<Event>): Db
    decreases |events|
  {
    if events == [] then db else Run(Step(db, events[0]), events[1..])
  }

  /** After any sequence of imports, repeats included, counters are exact and blocks exclusive. */
  lemma {:induction false} RunKeepsInv(db: Db, events: seq<Event>)
    requires Inv(db.info, db.rel)
    ensures Inv(Run(db, events).info, Run(db, events).rel)
    decreases |events|
  {
    if events != [] {
      var e := events[0];
      if e.Item? && e.target in db.info.accounts { ImportKeepsInv(db.info, db.rel, e.action, e.actor, e.target, e.suspended); }
      RunKeepsInv(Step(db, e), events[1..]);
    }
  }

  // ---------------------------------------------------------------- what one item leaves alone

  /** A block changes nothing between any other two accounts. */
  lemma BlockLeavesOthers(info: Info, r: Relations, actor: string, target: string)
    requires actor != target
    ensures var b := Blocked(info.lists, r, actor, target);
            && (forall p :: !Between(p, actor, target) ==>
                  && (p in b.follows <==> p in r.follows) && (p in b.requests <==> p in r.requests)
                  && (p in b.blocks <==> p in r.blocks) && (p in b.pins <==> p in r.pins))
            && b.mutes == r.mutes && b.blocks == r.blocks + {Pair(actor, target)}
            && (forall m :: m in b.members <==> m in r.members && !Severed(info.lists, m, actor, target))
            && (forall id :: id in r.following && id !in {actor, target} ==>
                  id in b.following && b.following[id] == r.following[id])
            && (forall id :: id in r.followers && id !in {actor, target} ==>
                  id in b.followers && b.followers[id] == r.followers[id])
            && (forall p :: Between(p, actor, target) ==> p !in b.follows && p !in b.requests && p !in b.pins)
  {
  }

  /** Importing the same item again changes nothing, whatever it is. */
  lemma ImportTwice(info: Info, r: Relations, action: Action, actor: string, target: string, suspended: bool)
    requires target in info.accounts
    ensures var once := Import(info, r, action, actor, target, suspended);
            Import(info, once, action, actor, target, suspended) == once
  {
    var once := Import(info, r, action, actor, target, suspended);
    match action
    case Following =>
    case Blocks =>
      if actor != target && CanBlockOrMute(info, actor, target) { BlockTwice(info.lists, r, actor, target); }
    case Mutes =>
  }

  lemma BlockTwice(lists: map<string, string>, r: Relations, actor: string, target: string)
    requires actor != target
    ensures var once := Blocked(lists, r, actor, target); Blocked(lists, once, actor, target) == once
  {
    var once := Blocked(lists, r, actor, target);
    var twice := Blocked(lists, once, actor, target);
    assert twice.follows == once.follows && twice.requests == once.requests && twice.pins == once.pins;
    assert twice.members == once.members && twice.blocks == once.blocks;
  }

  /** A successful block undoes a follow or request of the same pair, whichever account started it. */
  lemma BlockUndoesFollow(info: Info, r: Relations, actor: string, target: string, suspended: bool)
    requires Inv(info, r) && actor in info.accounts && target in info.accounts && actor != target
    requires CanBlockOrMute(info, actor, target)
    ensures Import(info, Import(info, r, Following, actor, target, suspended), Blocks, actor, target, suspended)
            == Import(info, r, Blocks, actor, target, suspended)
  {
    var p, f := Pair(actor, target), Follow(info, r, actor, target, suspended);
    var lists := info.lists;
    FollowOutcomes(info, r, actor, target, suspended);
    hide Follow, CanAct;
    assert f.follows - {p, Pair(target, actor)} == r.follows - {p, Pair(target, actor)};
    assert f.requests - {p, Pair(target, actor)} == r.requests - {p, Pair(target, actor)};
    if f.follows != r.follows {
      assert p !in r.follows;
      assert r.following[actor] >= 0 && r.followers[target] >= 0;
      assert DropIf(f.following, actor, true) == r.following;
      assert DropIf(f.followers, target, true) == r.followers;
    }
  }

  // ---------------------------------------------------------------- two items at once

  function InsertRequest(r: Relations, p: Pair): Relations {
    r.(requests := r.requests + {p})
  }

  /**
   * A block that lands between a follow's permission check and its insert, of a follow or of a request: it stays
   * exclusive exactly when it is of another pair.
   */
  lemma BlockAmidCheck(info: Info, r: Relations, a: string, t: string, x: string, y: string)
    requires Exclusive(r) && a != t && x != y
    requires Pair(a, t) !in r.blocks && Pair(t, a) !in r.blocks
    requires Pair(a, t) !in r.follows && Pair(a, t) !in r.requests
    ensures Exclusive(InsertFollow(Blocked(info.lists, r, x, y), Pair(a, t))) <==> !Between(Pair(a, t), x, y)
    ensures Exclusive(InsertRequest(Blocked(info.lists, r, x, y), Pair(a, t))) <==> !Between(Pair(a, t), x, y)
  {
    hide DropIf, Severed;
    var followed, requested := InsertFollow(Blocked(info.lists, r, x, y), Pair(a, t)), InsertRequest(Blocked(info.lists, r, x, y), Pair(a, t));
    assert Pair(x, y) in followed.blocks && Pair(a, t) in followed.follows;
    assert Pair(x, y) in requested.blocks && Pair(a, t) in requested.requests;
  }

  /** Dropping before or after a bump differs only where the drop is clamped. */
  lemma DropThenBump(counts: map<string, int>, a: string, x: string, dropX: bool, y: string, dropY: bool, id: string)
    requires {a, x, y} <= counts.Keys && id in counts && x != y && counts[a] >= 0
    requires (dropX && x != a ==> counts[x] >= 1) && (dropY && y != a ==> counts[y] >= 1)
    ensures var end := Bump(DropIf(DropIf(counts, x, dropX), y, dropY), a);
            var counted := DropIf(DropIf(Bump(counts, a), x, dropX), y, dropY);
            && end.Keys == counted.Keys == counts.Keys
            && (end[id] != counted[id] <==> id == a && counts[a] == 0 && ((dropX && x == a) || (dropY && y == a)))
  {
  }

  /** Where the counters of the interrupted follow differ from those of a follow counted before the block. */
  lemma FollowingAmid(lists: map<string, string>, r: Relations, a: string, t: string, x: string, y: string, id: string)
    requires CountsExact(r) && a != t && x != y && Pair(a, t) !in r.follows
    requires {a, t, x, y} <= r.following.Keys && id in r.following
    ensures var p := Pair(a, t);
            var end := CountFollow(Blocked(lists, InsertFollow(r, p), x, y), p);
            var counted := Blocked(lists, CountFollow(InsertFollow(r, p), p), x, y);
            && end.following.Keys == counted.following.Keys == r.following.Keys
            && (end.following[id] != counted.following[id]
                <==> id == a && Between(p, x, y) && r.following[a] == 0)
  {
    if Pair(x, y) in r.follows { ClampNeverFires(r, Pair(x, y)); }
    if Pair(y, x) in r.follows { ClampNeverFires(r, Pair(y, x)); }
    assert r.following[a] >= 0;
    hide CountsExact, Bump, DropIf;
    var follows := InsertFollow(r, Pair(a, t)).follows;
    DropThenBump(r.following, a, x, Pair(x, y) in follows, y, Pair(y, x) in follows, id);
  }

  lemma FollowersAmid(lists: map<string, string>, r: Relations, a: string, t: string, x: string, y: string, id: string)
    requires CountsExact(r) && a != t && x != y && Pair(a, t) !in r.follows
    requires {a, t, x, y} <= r.followers.Keys && id in r.followers
    ensures var p := Pair(a, t);
            var end := CountFollow(Blocked(lists, InsertFollow(r, p), x, y), p);
            var counted := Blocked(lists, CountFollow(InsertFollow(r, p), p), x, y);
            && end.followers.Keys == counted.followers.Keys == r.followers.Keys
            && (end.followers[id] != counted.followers[id]
                <==> id == t && Between(p, x, y) && r.followers[t] == 0)
  {
    if Pair(x, y) in r.follows { ClampNeverFires(r, Pair(x, y)); }
    if Pair(y, x) in r.follows { ClampNeverFires(r, Pair(y, x)); }
    assert r.followers[t] >= 0;
    hide CountsExact, Bump, DropIf;
    var follows := InsertFollow(r, Pair(a, t)).follows;
    DropThenBump(r.followers, t, y, Pair(x, y) in follows, x, Pair(y, x) in follows, id);
  }

  /**
   * A block that lands between a follow's insert and its counter update. The counters end up exact
   * unless it blocks the very pair being followed while a counter stands at zero: then the clamp
   * swallows the decrement and the later increment counts a row that is gone.
   */
  lemma BlockAmidFollow(info: Info, r: Relations, a: string, t: string, x: string, y: string)
    requires Linked(info, r) && CountsExact(r) && {a, t, x, y} <= info.accounts.Keys
    requires a != t && x != y && Pair(a, t) !in r.follows
    ensures var end := CountFollow(Blocked(info.lists, InsertFollow(r, Pair(a, t)), x, y), Pair(a, t));
            CountsExact(end)
            <==> !(Between(Pair(a, t), x, y) && (r.following[a] == 0 || r.followers[t] == 0))
  {
    var p := Pair(a, t);
    var end := CountFollow(Blocked(info.lists, InsertFollow(r, p), x, y), p);
    var counted := Blocked(info.lists, CountFollow(InsertFollow(r, p), p), x, y);
    CountedFollowKeepsCounts(r, p);
    BlockedCountsExact(info.lists, CountFollow(InsertFollow(r, p), p), x, y);
    assert end.follows == counted.follows;
    forall id | id in r.following
      ensures end.following.Keys == counted.following.Keys == r.following.Keys
      ensures end.following[id] != counted.following[id] <==> id == a && Between(p, x, y) && r.following[a] == 0
    {
      FollowingAmid(info.lists, r, a, t, x, y, id);
    }
    forall id | id in r.followers
      ensures end.followers.Keys == counted.followers.Keys == r.followers.Keys
      ensures end.followers[id] != counted.followers[id] <==> id == t && Between(p, x, y) && r.followers[t] == 0
    {
      FollowersAmid(info.lists, r, a, t, x, y, id);
    }
    assert a in r.following && t in r.followers;
    hide Blocked, CountFollow, InsertFollow, Between, From, To;
  }

  const EXAMPLE_RELATIONS :=
    Relations({}, {}, {}, {}, {}, {}, map["ann" := 0, "bob" := 0], map["ann" := 0, "bob" := 0])

  /** Ann's first follow, of Bob, with Bob's block of Ann landing amid it: the follow and the block coexist, or the counters drift. */
  lemma FirstFollowMeetsBlock()
    ensures
      var lists, r, p := map[], EXAMPLE_RELATIONS, Pair("ann", "bob");
      && CountsExact(r) && Exclusive(r)
      && !Exclusive(InsertFollow(Blocked(lists, r, "bob", "ann"), p))
      && var end := CountFollow(Blocked(lists, InsertFollow(r, p), "bob", "ann"), p);
      && end.follows == {} && end.following["ann"] == 1 && !CountsExact(end)
  {
    var lists: map<string, string> := map[];
    var r, p := EXAMPLE_RELATIONS, Pair("ann", "bob");
    assert forall id :: From({}, id) == {} && To({}, id) == {};
    var both := InsertFollow(Blocked(lists, r, "bob", "ann"), p);
    assert Pair("bob", "ann") in both.blocks && p in both.follows;
    var end := CountFollow(Blocked(lists, InsertFollow(r, p), "bob", "ann"), p);
    assert end.follows == {};
    assert From(end.follows, "ann") == {};
  }
}
