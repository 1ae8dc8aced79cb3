/** Mixing advertisements into a feed (siliconbeest/src/utils/advertisementFeed.ts). */
module AdFeed {
  import opened Strings
  import opened Statuses

  const FIRST_AD_MIN_INDEX := 9
  const FIRST_AD_JITTER := 4
  const NEXT_AD_MIN_GAP := 26
  const NEXT_AD_JITTER := 25

  /** Any function to natural numbers will do. */
  type Hash = string -> nat

  /** An advertisement entry names its creative by index, and the slot and status its key is made of. */
  datatype Item = StatusItem(status: Status) | AdItem(index: nat, slot: nat, after: string)

  /** How many creatives there are, and what placement depends on. */
  datatype Setting = Setting(creatives: nat, hash: Hash, context: string)

  /** Where the next advertisement goes, its number, and the creative shown before it, if any. */
  datatype Cursor = Cursor(nextSlot: nat, slot: nat, previous: int)

  function Start(s: Setting, topId: string): Cursor {
    Cursor(FIRST_AD_MIN_INDEX + s.hash(s.context + ":" + topId + ":first") % FIRST_AD_JITTER, 0, -1)
  }

  function Choose(s: Setting, cursor: Cursor, id: string): nat
    requires s.creatives > 0
  {
    var index := s.hash(s.context + ":" + id + ":" + Decimal(cursor.slot)) % s.creatives;
    if s.creatives > 1 && index == cursor.previous then (index + 1) % s.creatives else index
  }

  function Advance(s: Setting, cursor: Cursor, id: string): Cursor
    requires s.creatives > 0
  {
    Cursor(
      cursor.nextSlot + NEXT_AD_MIN_GAP
      + s.hash(s.context + ":" + id + ":" + Decimal(cursor.slot + 1) + ":gap") % NEXT_AD_JITTER,
      cursor.slot + 1, Choose(s, cursor, id))
  }

  /** The feed from the k-th status on. */
  function MixFrom(s: Setting, statuses: seq<Status>, k: nat, cursor: Cursor): seq<Item>
    requires s.creatives > 0 && k <= |statuses|
    decreases |statuses| - k
  {
    if k == |statuses| then []
    else
      var id := statuses[k].id;
      if k + 1 != cursor.nextSlot then [StatusItem(statuses[k])] + MixFrom(s, statuses, k + 1, cursor)
      else
        [StatusItem(statuses[k]), AdItem(Choose(s, cursor, id), cursor.slot, id)]
        + MixFrom(s, statuses, k + 1, Advance(s, cursor, id))
  }

  function Plain(statuses: seq<Status>): seq<Item> {
    seq(|statuses|, i requires 0 <= i < |statuses| => StatusItem(statuses[i]))
  }

  function Mixed(s: Setting, statuses: seq<Status>): seq<Item> {
    if s.creatives == 0 || |statuses| < FIRST_AD_MIN_INDEX then Plain(statuses)
    else MixFrom(s, statuses, 0, Start(s, statuses[0].id))
  }

  /** What happens at a slot: a creative is chosen and the next slot drawn. */
  method FillSlot(s: Setting, id: string, nextSlot: nat, slot: nat, previous: int)
    returns (advertisementIndex: nat, laterSlot: nat)
    requires s.creatives > 0
    ensures advertisementIndex == Choose(s, Cursor(nextSlot, slot, previous), id)
    ensures Cursor(laterSlot, slot + 1, advertisementIndex) == Advance(s, Cursor(nextSlot, slot, previous), id)
  {
    hide Decimal;
    advertisementIndex := s.hash(s.context + ":" + id + ":" + Decimal(slot)) % s.creatives;
    if s.creatives > 1 && advertisementIndex == previous {
      advertisementIndex := (advertisementIndex + 1) % s.creatives;
    }
    laterSlot :=
      nextSlot + NEXT_AD_MIN_GAP + s.hash(s.context + ":" + id + ":" + Decimal(slot + 1) + ":gap") % NEXT_AD_JITTER;
  }

  /** `mixAdvertisements` */
  method MixAdvertisements(s: Setting, statuses: seq<Status>) returns (result: seq<Item>)
    ensures result == Mixed(s, statuses)
  {
    if s.creatives == 0 || |statuses| < FIRST_AD_MIN_INDEX { return Plain(statuses); }
    result := [];
    var topId := statuses[0].id;
    var nextSlot: nat := FIRST_AD_MIN_INDEX + s.hash(s.context + ":" + topId + ":first") % FIRST_AD_JITTER;
    var slot: nat := 0;
    var previous: int := -1;
    for index := 0 to |statuses|
      invariant result + MixFrom(s, statuses, index, Cursor(nextSlot, slot, previous)) == Mixed(s, statuses)
    {
      hide Mixed, MixFrom, Choose, Advance;
      MixStep(s, statuses, index, Cursor(nextSlot, slot, previous));
      result := result + [StatusItem(statuses[index])];
      if index + 1 == nextSlot {
        var id := statuses[index].id;
        var chosen, later := FillSlot(s, id, nextSlot, slot, previous);
        result := result + [AdItem(chosen, slot, id)];
        previous := chosen;
        slot := slot + 1;
        nextSlot := later;
      }
    }
  }

  /** What one turn of the loop appends. */
  function ItemsAt(s: Setting, status: Status, k: nat, cursor: Cursor): seq<Item>
    requires s.creatives > 0
  {
    [StatusItem(status)] + if k + 1 != cursor.nextSlot then [] else [AdItem(Choose(s, cursor, status.id), cursor.slot, status.id)]
  }

  lemma MixStep(s: Setting, statuses: seq<Status>, k: nat, cursor: Cursor)
    requires s.creatives > 0 && k < |statuses|
    ensures var next := if k + 1 != cursor.nextSlot then cursor else Advance(s, cursor, statuses[k].id);
            MixFrom(s, statuses, k, cursor) == ItemsAt(s, statuses[k], k, cursor) + MixFrom(s, statuses, k + 1, next)
  {
    hide Choose, Advance;
  }

  // ---------------------------------------------------------------- the posts are all there, in order

  function Erase(items: seq<Item>): seq<Status> {
    if items == [] then [] else (if items[0].StatusItem? then [items[0].status] else []) + Erase(items[1..])
  }

  lemma {:induction false} EraseMix(s: Setting, statuses: seq<Status>, k: nat, cursor: Cursor)
    requires s.creatives > 0 && k <= |statuses|
    ensures Erase(MixFrom(s, statuses, k, cursor)) == statuses[k..]
    decreases |statuses| - k
  {
    if k < |statuses| {
      hide Choose, Advance;
      var items, status := MixFrom(s, statuses, k, cursor), statuses[k];
      if k + 1 != cursor.nextSlot {
        EraseMix(s, statuses, k + 1, cursor);
        assert items[1..] == MixFrom(s, statuses, k + 1, cursor);
      } else {
        var next := Advance(s, cursor, status.id);
        EraseMix(s, statuses, k + 1, next);
        assert items[1..][1..] == MixFrom(s, statuses, k + 1, next);
      }
      assert statuses[k..] == [status] + statuses[k + 1..];
    }
  }

  lemma {:induction false} ErasePlain(statuses: seq<Status>)
    ensures Erase(Plain(statuses)) == statuses
  {
    if statuses != [] {
      ErasePlain(statuses[1..]);
      assert Plain(statuses)[1..] == Plain(statuses[1..]);
      assert statuses == [statuses[0]] + statuses[1..];
    }
  }

  /** Taking the advertisements out again gives the feed. */
  lemma ErasingAdsGivesTheFeed(s: Setting, statuses: seq<Status>)
    ensures Erase(Mixed(s, statuses)) == statuses
  {
    if s.creatives == 0 || |statuses| < FIRST_AD_MIN_INDEX {
      ErasePlain(statuses);
    } else {
      EraseMix(s, statuses, 0, Start(s, statuses[0].id));
    }
  }

  // ---------------------------------------------------------------- spacing

  /** How many posts stand before each advertisement, given that `seen` came before. */
  function AdPositions(items: seq<Item>, seen: nat): seq<nat> {
    if items == [] then []
    else if items[0].StatusItem? then AdPositions(items[1..], seen + 1)
    else [seen] + AdPositions(items[1..], seen)
  }

  /** The first position lies between `lo` and `hi`, the later ones 26 to 50 apart, and there are as many as fit. */
  ghost predicate SpacedOut(positions: seq<nat>, lo: nat, hi: nat, total: nat) {
    if positions == [] then total < hi
    else
      && lo <= positions[0] <= hi && positions[0] <= total
      && SpacedOut(positions[1..], positions[0] + 26, positions[0] + 50, total)
  }

  lemma {:induction false} PositionsFrom(s: Setting, statuses: seq<Status>, k: nat, cursor: Cursor, lo: nat, hi: nat)
    requires s.creatives > 0 && k <= |statuses| && k < cursor.nextSlot && lo <= cursor.nextSlot <= hi
    ensures SpacedOut(AdPositions(MixFrom(s, statuses, k, cursor), k), lo, hi, |statuses|)
    decreases |statuses| - k
  {
    if k < |statuses| {
      var items := MixFrom(s, statuses, k, cursor);
      if k + 1 != cursor.nextSlot {
        hide Choose, Advance;
        PositionsFrom(s, statuses, k + 1, cursor, lo, hi);
        assert items[1..] == MixFrom(s, statuses, k + 1, cursor);
      } else {
        var next := Advance(s, cursor, statuses[k].id);
        assert k + 1 + 26 <= next.nextSlot <= k + 1 + 50;
        hide Choose, Advance;
        PositionsFrom(s, statuses, k + 1, next, k + 1 + 26, k + 1 + 50);
        var rest := MixFrom(s, statuses, k + 1, next);
        assert items[1..][1..] == rest;
        assert AdPositions(items, k) == [k + 1] + AdPositions(rest, k + 1);
      }
    }
  }

  lemma {:induction false} NoAdsInPlain(statuses: seq<Status>, seen: nat)
    ensures AdPositions(Plain(statuses), seen) == [] && AdIndices(Plain(statuses)) == []
  {
    if statuses != [] {
      assert Plain(statuses)[1..] == Plain(statuses[1..]);
      NoAdsInPlain(statuses[1..], seen + 1);
    }
  }

  /** The first advertisement follows 9 to 12 posts, each later one 26 to 50 more, as long as the feed lasts. */
  lemma AdsAreSpacedOut(s: Setting, statuses: seq<Status>)
    ensures s.creatives > 0 ==> SpacedOut(AdPositions(Mixed(s, statuses), 0), 9, 12, |statuses|)
    ensures s.creatives == 0 ==> AdPositions(Mixed(s, statuses), 0) == []
  {
    if s.creatives == 0 || |statuses| < FIRST_AD_MIN_INDEX {
      NoAdsInPlain(statuses, 0);
    } else {
      PositionsFrom(s, statuses, 0, Start(s, statuses[0].id), 9, 12);
    }
  }

  // ---------------------------------------------------------------- rotation

  function AdIndices(items: seq<Item>): seq<nat> {
    if items == [] then []
    else (if items[0].AdItem? then [items[0].index] else []) + AdIndices(items[1..])
  }

  /** All are creatives, and none is the one before it when there are two or more. */
  ghost predicate Rotates(indices: seq<nat>, previous: int, creatives: nat) {
    indices != [] ==>
      && indices[0] < creatives && (creatives > 1 ==> indices[0] != previous)
      && Rotates(indices[1..], indices[0], creatives)
  }

  lemma {:induction false} IndicesFrom(s: Setting, statuses: seq<Status>, k: nat, cursor: Cursor)
    requires s.creatives > 0 && k <= |statuses|
    ensures Rotates(AdIndices(MixFrom(s, statuses, k, cursor)), cursor.previous, s.creatives)
    decreases |statuses| - k
  {
    if k < |statuses| {
      var items, id := MixFrom(s, statuses, k, cursor), statuses[k].id;
      if k + 1 != cursor.nextSlot {
        hide Choose, Advance;
        IndicesFrom(s, statuses, k + 1, cursor);
        assert items[1..] == MixFrom(s, statuses, k + 1, cursor);
        assert AdIndices(items) == AdIndices(items[1..]);
      } else {
        var next, index := Advance(s, cursor, id), Choose(s, cursor, id);
        ChosenDiffers(s, cursor, id);
        hide Choose;
        IndicesFrom(s, statuses, k + 1, next);
        var rest := MixFrom(s, statuses, k + 1, next);
        assert items[1..][1..] == rest;
        assert AdIndices(items) == [index] + AdIndices(rest);
      }
    }
  }

  lemma ChosenDiffers(s: Setting, cursor: Cursor, id: string)
    requires s.creatives > 0
    ensures Choose(s, cursor, id) < s.creatives
    ensures s.creatives > 1 ==> Choose(s, cursor, id) != cursor.previous
  {
    var n := s.creatives;
    var index := s.hash(s.context + ":" + id + ":" + Decimal(cursor.slot)) % n;
    if index + 1 < n { assert (index + 1) % n == index + 1; } else { assert (index + 1) % n == 0; }
  }

  /** With two or more creatives no two advertisements in a row show the same one. */
  lemma CreativesRotate(s: Setting, statuses: seq<Status>)
    ensures Rotates(AdIndices(Mixed(s, statuses)), -1, s.creatives)
  {
    if s.creatives == 0 || |statuses| < FIRST_AD_MIN_INDEX {
      NoAdsInPlain(statuses, 0);
    } else {
      IndicesFrom(s, statuses, 0, Start(s, statuses[0].id));
    }
  }

  // ---------------------------------------------------------------- which advertisement stands where

  function Ads(items: seq<Item>): seq<Item> {
    if items == [] then [] else (if items[0].AdItem? then [items[0]] else []) + Ads(items[1..])
  }

  /**
   * Each advertisement stands where the hash of the one before puts it and shows the creative its own hash picks, or the
   * one after that if it was just shown; slots are numbered on from `slot`.
   */
  ghost predicate Placed(s: Setting, statuses: seq<Status>, ads: seq<Item>, positions: seq<nat>, due: nat, slot: nat, previous: int)
    requires s.creatives > 0 && |ads| == |positions|
  {
    ads != [] ==>
      && ads[0].AdItem? && 0 < positions[0] <= |statuses|
      && positions[0] == due && ads[0].slot == slot && ads[0].after == statuses[positions[0] - 1].id
      && (var picked := s.hash(s.context + ":" + ads[0].after + ":" + Decimal(slot)) % s.creatives;
          ads[0].index == if picked != previous || s.creatives == 1 then picked
                          else if picked + 1 == s.creatives then 0 else picked + 1)
      && Placed(s, statuses, ads[1..], positions[1..],
                due + 26 + s.hash(s.context + ":" + ads[0].after + ":" + Decimal(slot + 1) + ":gap") % 25, slot + 1, ads[0].index)
  }

  lemma {:induction false} OnePositionEach(items: seq<Item>, seen: nat)
    ensures |Ads(items)| == |AdPositions(items, seen)|
  {
    if items != [] {
      OnePositionEach(items[1..], if items[0].StatusItem? then seen + 1 else seen);
    }
  }

  lemma ChosenSpelled(s: Setting, cursor: Cursor, id: string)
    requires s.creatives > 0
    ensures var picked := s.hash(s.context + ":" + id + ":" + Decimal(cursor.slot)) % s.creatives;
            Choose(s, cursor, id) == if picked != cursor.previous || s.creatives == 1 then picked
                                     else if picked + 1 == s.creatives then 0 else picked + 1
  {
    var picked := s.hash(s.context + ":" + id + ":" + Decimal(cursor.slot)) % s.creatives;
    if picked + 1 < s.creatives { assert (picked + 1) % s.creatives == picked + 1; }
  }

  lemma FirstAd(status: Status, ad: Item, rest: seq<Item>, k: nat)
    requires ad.AdItem?
    ensures var items := [StatusItem(status), ad] + rest;
            Ads(items) == [ad] + Ads(rest) && AdPositions(items, k) == [k + 1] + AdPositions(rest, k + 1)
  {
    var items := [StatusItem(status), ad] + rest;
    assert items[1..] == [ad] + rest && items[1..][1..] == rest;
  }

  lemma PlacedFirst(s: Setting, statuses: seq<Status>, k: nat, cursor: Cursor, rest: seq<Item>)
    requires s.creatives > 0 && k < |statuses| && k + 1 == cursor.nextSlot
    requires |Ads(rest)| == |AdPositions(rest, k + 1)|
    requires var next := Advance(s, cursor, statuses[k].id);
             Placed(s, statuses, Ads(rest), AdPositions(rest, k + 1), next.nextSlot, next.slot, next.previous)
    ensures var items := [StatusItem(statuses[k]), AdItem(Choose(s, cursor, statuses[k].id), cursor.slot, statuses[k].id)] + rest;
            && |Ads(items)| == |AdPositions(items, k)|
            && Placed(s, statuses, Ads(items), AdPositions(items, k), cursor.nextSlot, cursor.slot, cursor.previous)
  {
    var ad := AdItem(Choose(s, cursor, statuses[k].id), cursor.slot, statuses[k].id);
    var ads, positions := Ads(rest), AdPositions(rest, k + 1);
    ChosenSpelled(s, cursor, statuses[k].id);
    FirstAd(statuses[k], ad, rest, k);
    hide Choose, Decimal, Ads, AdPositions;
    assert ([ad] + ads)[1..] == ads && ([k + 1] + positions)[1..] == positions;
  }

  lemma {:induction false} PlacedFrom(s: Setting, statuses: seq<Status>, k: nat, cursor: Cursor)
    requires s.creatives > 0 && k <= |statuses| && k < cursor.nextSlot
    ensures var items := MixFrom(s, statuses, k, cursor);
            && |Ads(items)| == |AdPositions(items, k)|
            && Placed(s, statuses, Ads(items), AdPositions(items, k), cursor.nextSlot, cursor.slot, cursor.previous)
    decreases |statuses| - k
  {
    var items := MixFrom(s, statuses, k, cursor);
    OnePositionEach(items, k);
    if k < |statuses| {
      var id := statuses[k].id;
      if k + 1 != cursor.nextSlot {
        hide Choose, Advance;
        PlacedFrom(s, statuses, k + 1, cursor);
        assert items[1..] == MixFrom(s, statuses, k + 1, cursor);
        assert Ads(items) == Ads(items[1..]) && AdPositions(items, k) == AdPositions(items[1..], k + 1);
      } else {
        hide Choose, Decimal;
        var next := Advance(s, cursor, id);
        PlacedFrom(s, statuses, k + 1, next);
        PlacedFirst(s, statuses, k, cursor, MixFrom(s, statuses, k + 1, next));
      }
    }
  }

  /** Of a feed that gets advertisements, the first is placed by the hash of the top post, and each later one by the one before it. */
  lemma AdsAreWhereHashesPut(s: Setting, statuses: seq<Status>)
    requires s.creatives > 0 && |statuses| >= 9
    ensures var items := Mixed(s, statuses);
            && |Ads(items)| == |AdPositions(items, 0)|
            && Placed(s, statuses, Ads(items), AdPositions(items, 0),
                      9 + s.hash(s.context + ":" + statuses[0].id + ":first") % 4, 0, -1)
  {
    PlacedFrom(s, statuses, 0, Start(s, statuses[0].id));
    hide MixFrom, Ads, AdPositions, Placed;
  }

  // ---------------------------------------------------------------- stability

  lemma {:induction false} PrefixFrom(s: Setting, statuses: seq<Status>, more: seq<Status>, k: nat, cursor: Cursor)
    requires s.creatives > 0 && k <= |statuses|
    ensures MixFrom(s, statuses, k, cursor) <= MixFrom(s, statuses + more, k, cursor)
    decreases |statuses| - k
  {
    if k < |statuses| {
      hide Choose, Advance;
      assert (statuses + more)[k] == statuses[k];
      if k + 1 != cursor.nextSlot {
        PrefixFrom(s, statuses, more, k + 1, cursor);
      } else {
        PrefixFrom(s, statuses, more, k + 1, Advance(s, cursor, statuses[k].id));
      }
    }
  }

  /** Before its slot comes, a feed gets no advertisement. */
  lemma {:induction false} PlainFrom(s: Setting, statuses: seq<Status>, k: nat, cursor: Cursor)
    requires s.creatives > 0 && k <= |statuses| < cursor.nextSlot
    ensures MixFrom(s, statuses, k, cursor) == Plain(statuses[k..])
    decreases |statuses| - k
  {
    if k < |statuses| {
      PlainFrom(s, statuses, k + 1, cursor);
      assert statuses[k..] == [statuses[k]] + statuses[k + 1..];
      assert Plain(statuses[k..]) == [StatusItem(statuses[k])] + Plain(statuses[k + 1..]);
    }
  }

  /** Loading more posts below a non-empty feed changes nothing above. */
  lemma LoadingMoreKeepsTheFeed(s: Setting, statuses: seq<Status>, more: seq<Status>)
    requires statuses != []
    ensures Mixed(s, statuses) <= Mixed(s, statuses + more)
  {
    var all := statuses + more;
    if s.creatives == 0 || |all| < FIRST_AD_MIN_INDEX {
      assert Plain(statuses) <= Plain(all);
    } else {
      var cursor := Start(s, statuses[0].id);
      assert all[0] == statuses[0];
      PrefixFrom(s, statuses, more, 0, cursor);
      if |statuses| < FIRST_AD_MIN_INDEX {
        PlainFrom(s, statuses, 0, cursor);
        assert statuses[0..] == statuses;
      }
    }
  }
}
