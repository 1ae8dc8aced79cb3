/**
 * What becomes of a queued message over its deliveries: the handlers of
 * siliconbeest-queue-consumer/src/index.ts under the retry limits of its wrangler.jsonc.
 */
module QueueProtocol {
  /** How processing a message body ends; `Failed` is an exception. */
  datatype Outcome = Processed | Skipped | Deferred | Failed

  /** One delivery's circumstances: how processing ends, and whether a first and a second park write succeed. */
  datatype Delivery = Delivery(outcome: Outcome, parkOk: bool, parkAgainOk: bool)

  /** What a handler does with a message in the end. */
  datatype Verdict = Done | Parked | Dropped | Again(delaySeconds: nat)

  datatype Queue = Federation | Internal | DeadLetter

  const INTERNAL_MAX_ATTEMPTS := 4
  const DLQ_MAX_ATTEMPTS := 3

  function MainVerdict(queue: Queue, attempts: nat, outcome: Outcome): Verdict
    requires queue != DeadLetter
  {
    match outcome
    case Processed => Done
    case Skipped => Done
    case Deferred => Again(0)
    case Failed => if queue == Internal && attempts >= INTERNAL_MAX_ATTEMPTS then Dropped else Again(0)
  }

  /** Whether the message gets parked: a deferred message whose first park write fails is tried once more. */
  predicate Parks(attempts: nat, d: Delivery) {
    match d.outcome
    case Processed => false
    case Skipped => false
    case Deferred => attempts >= DLQ_MAX_ATTEMPTS && (d.parkOk || d.parkAgainOk)
    case Failed => d.parkOk
  }

  function DlqVerdict(attempts: nat, d: Delivery): Verdict {
    if d.outcome.Processed? || d.outcome.Skipped? then Done
    else if Parks(attempts, d) then Parked
    else if attempts >= DLQ_MAX_ATTEMPTS then Dropped
    else Again(60)
  }

  function VerdictOn(queue: Queue, attempts: nat, d: Delivery): Verdict {
    if queue == DeadLetter then DlqVerdict(attempts, d) else MainVerdict(queue, attempts, d.outcome)
  }

  // ---------------------------------------------------------------- the platform

  /** Retries the platform grants after the first delivery. */
  function MaxRetries(queue: Queue): nat {
    match queue
    case Federation => 5
    case Internal => 3
    case DeadLetter => 2
  }

  /** Where a message is: waiting for its delivery number `attempt` on a queue, or done with. */
  datatype Life = Waiting(queue: Queue, attempt: nat) | Ended(fate: Fate)

  /** `Expired`: the platform gave the message up after its last retry, with no dead letter queue behind it. */
  datatype Fate = WasProcessed | WasSkipped | WasParked | WasDropped | Expired

  /** One delivery. A retry beyond the limit moves the message to the dead letter queue or ends it. */
  function Deliver(life: Life, d: Delivery): Life
    requires life.Waiting?
  {
    match VerdictOn(life.queue, life.attempt, d)
    case Done => Ended(if d.outcome.Processed? then WasProcessed else WasSkipped)
    case Parked => Ended(WasParked)
    case Dropped => Ended(WasDropped)
    case Again(_) =>
      if life.attempt <= MaxRetries(life.queue) then Waiting(life.queue, life.attempt + 1)
      else if life.queue == Federation then Waiting(DeadLetter, 1)
      else Ended(Expired)
  }

  /** The deliveries a message goes through, as far as it goes. */
  function LiveOn(life: Life, ds: seq<Delivery>): Life
    decreases |ds|
  {
    if ds == [] || life.Ended? then life else LiveOn(Deliver(life, ds[0]), ds[1..])
  }

  /** How many of its deliveries were on the given queue, and how many of them parked it. */
  function DeliveriesOn(queue: Queue, life: Life, ds: seq<Delivery>): nat
    decreases |ds|
  {
    if ds == [] || life.Ended? then 0
    else (if life.queue == queue then 1 else 0) + DeliveriesOn(queue, Deliver(life, ds[0]), ds[1..])
  }

  function ParkedRows(life: Life, ds: seq<Delivery>): nat
    decreases |ds|
  {
    if ds == [] || life.Ended? then 0
    else (if life.queue == DeadLetter && Parks(life.attempt, ds[0]) then 1 else 0) + ParkedRows(Deliver(life, ds[0]), ds[1..])
  }

  // ---------------------------------------------------------------- federation messages

  /** A delivery on the main queue that does not settle a federation message. */
  predicate Returns(d: Delivery) {
    d.outcome.Deferred? || d.outcome.Failed?
  }

  /** A delivery on the dead letter queue, before the last, that does not settle it. */
  predicate ReturnsDead(d: Delivery) {
    d.outcome.Deferred? || (d.outcome.Failed? && !d.parkOk)
  }

  /** Every park write of the delivery fails. */
  predicate Unparkable(d: Delivery) {
    (d.outcome.Deferred? && !d.parkOk && !d.parkAgainOk) || (d.outcome.Failed? && !d.parkOk)
  }

  ghost predicate OnItsWay(life: Life) {
    life.Waiting? ==>
      (life.queue == Federation && 1 <= life.attempt <= 6) || (life.queue == DeadLetter && 1 <= life.attempt <= 3)
  }

  /** Deliveries left, at most, before the message is done with. */
  function Remaining(life: Life): int {
    match life
    case Ended(_) => 0
    case Waiting(Federation, attempt) => 10 - attempt
    case Waiting(Internal, attempt) => 5 - attempt
    case Waiting(DeadLetter, attempt) => 4 - attempt
  }

  function LeftOn(queue: Queue, life: Life): int {
    if life.Ended? then 0
    else if queue == life.queue then MaxRetries(queue) + 2 - life.attempt
    else if queue == DeadLetter && life.queue == Federation then 3
    else 0
  }

  lemma {:induction false} LifeEnds(life: Life, ds: seq<Delivery>)
    requires OnItsWay(life)
    ensures OnItsWay(LiveOn(life, ds))
    ensures |ds| >= Remaining(life) ==> LiveOn(life, ds).Ended?
    ensures DeliveriesOn(Federation, life, ds) <= LeftOn(Federation, life)
    ensures DeliveriesOn(DeadLetter, life, ds) <= LeftOn(DeadLetter, life)
    ensures DeliveriesOn(Internal, life, ds) == 0
    ensures LiveOn(life, ds).Ended? && life.Waiting? ==> LiveOn(life, ds).fate != Expired
    ensures life.Waiting? ==> ParkedRows(life, ds) == if LiveOn(life, ds) == Ended(WasParked) then 1 else 0
    decreases |ds|
  {
    if ds != [] && life.Waiting? {
      LifeEnds(Deliver(life, ds[0]), ds[1..]);
    }
  }

  /**
   * A federation message is delivered at most six times, then at most three times from the dead letter
   * queue, and is then processed, skipped, parked exactly once, or dropped.
   */
  lemma FederationMessageEnds(ds: seq<Delivery>)
    ensures var start := Waiting(Federation, 1);
            && DeliveriesOn(Federation, start, ds) <= 6 && DeliveriesOn(DeadLetter, start, ds) <= 3
            && (|ds| >= 9 ==> LiveOn(start, ds).Ended?)
            && LiveOn(start, ds) != Ended(Expired)
            && ParkedRows(start, ds) == if LiveOn(start, ds) == Ended(WasParked) then 1 else 0
  {
    LifeEnds(Waiting(Federation, 1), ds);
  }

  lemma {:induction false} EndedStays(life: Life, ds: seq<Delivery>)
    requires life.Ended?
    ensures LiveOn(life, ds) == life
  {
  }

  lemma {:induction false} DropsOnlyLast(life: Life, ds: seq<Delivery>)
    requires life.Waiting? && OnItsWay(life) && |ds| >= Remaining(life)
    ensures LiveOn(life, ds) == Ended(WasDropped)
            <==> && (forall i :: 0 <= i < Remaining(life) - 3 ==> Returns(ds[i]))
                 && (forall i :: Remaining(life) - 3 <= i < Remaining(life) - 1 && 0 <= i ==> ReturnsDead(ds[i]))
                 && Unparkable(ds[Remaining(life) - 1])
    decreases |ds|
  {
    var next, rest := Deliver(life, ds[0]), ds[1..];
    if next.Ended? {
      EndedStays(next, rest);
    } else {
      DropsOnlyLast(next, rest);
      assert forall i :: 1 <= i < |ds| ==> ds[i] == rest[i - 1];
      assert Remaining(next) == Remaining(life) - 1;
    }
  }

  /**
   * It is dropped exactly when none of the six deliveries processed it, none of the first two from the
   * dead letter queue settled it, and on the third every park write failed.
   */
  lemma DroppedExactlyWhenUnparkable(ds: seq<Delivery>)
    requires |ds| >= 9
    ensures LiveOn(Waiting(Federation, 1), ds) == Ended(WasDropped)
            <==> && (forall i :: 0 <= i < 6 ==> Returns(ds[i]))
                 && ReturnsDead(ds[6]) && ReturnsDead(ds[7]) && Unparkable(ds[8])
  {
    DropsOnlyLast(Waiting(Federation, 1), ds);
  }

  /** The delivery number `k` of a federation message, counted from zero over both queues, does not settle it. */
  ghost predicate PassesOver(k: nat, d: Delivery) {
    if k < 6 then Returns(d) else ReturnsDead(d)
  }

  /** Where a federation message is after `k` deliveries that did not settle it. */
  ghost function After(k: nat): Life {
    if k < 6 then Waiting(Federation, k + 1) else Waiting(DeadLetter, k - 5)
  }

  lemma {:induction false} FateFrom(j: nat, k: nat, ds: seq<Delivery>)
    requires j <= k < 9 && |ds| > k
    requires forall i :: j <= i < k ==> PassesOver(i, ds[i])
    requires k == 8 || !PassesOver(k, ds[k])
    ensures LiveOn(After(j), ds[j..])
            == Ended(match ds[k].outcome
                     case Processed => WasProcessed
                     case Skipped => WasSkipped
                     case _ => if Unparkable(ds[k]) then WasDropped else WasParked)
    decreases k - j
  {
    var rest := ds[j..];
    assert rest[0] == ds[j] && rest[1..] == ds[j + 1..];
    if j < k {
      assert PassesOver(j, ds[j]);
      assert Deliver(After(j), ds[j]) == After(j + 1);
      FateFrom(j + 1, k, ds);
    } else {
      assert Deliver(After(j), ds[j]).Ended?;
      EndedStays(Deliver(After(j), ds[j]), rest[1..]);
    }
  }

  /** The first delivery that settles a federation message, or its ninth, decides its fate by its own outcome and park writes. */
  lemma FirstSettlingDecides(k: nat, ds: seq<Delivery>)
    requires k < 9 && |ds| > k
    requires forall i :: 0 <= i < k ==> if i < 6 then Returns(ds[i]) else ReturnsDead(ds[i])
    requires k < 6 ==> !Returns(ds[k])
    requires 6 <= k < 8 ==> !ReturnsDead(ds[k])
    ensures LiveOn(Waiting(Federation, 1), ds)
            == Ended(match ds[k].outcome
                     case Processed => WasProcessed
                     case Skipped => WasSkipped
                     case _ => if Unparkable(ds[k]) then WasDropped else WasParked)
  {
    FateFrom(0, k, ds);
    assert ds[0..] == ds;
  }

  /** A message comes back after a minute from the dead letter queue and at once from the others, and only if it was not settled. */
  lemma WhenRetried(queue: Queue, attempts: nat, d: Delivery, delay: nat)
    ensures VerdictOn(queue, attempts, d) == Again(delay)
            <==> match queue
                 case DeadLetter => delay == 60 && attempts < 3 && ReturnsDead(d)
                 case Internal => delay == 0 && Returns(d) && (d.outcome.Failed? ==> attempts < 4)
                 case Federation => delay == 0 && Returns(d)
  {
  }

  // ---------------------------------------------------------------- internal messages

  /**
   * Whatever its outcomes, an internal message is delivered at most four times. The handler drops it exactly when
   * three deliveries return it and the fourth fails; it would expire only if the fourth were deferred.
   */
  lemma InternalMessageEnds(ds: seq<Delivery>)
    requires |ds| >= 4
    ensures var start := Waiting(Internal, 1);
            && LiveOn(start, ds) in {Ended(WasProcessed), Ended(WasSkipped), Ended(WasDropped), Ended(Expired)}
            && DeliveriesOn(Internal, start, ds) <= 4
            && (LiveOn(start, ds) == Ended(Expired)
                <==> Returns(ds[0]) && Returns(ds[1]) && Returns(ds[2]) && ds[3].outcome.Deferred?)
            && (LiveOn(start, ds) == Ended(WasDropped)
                <==> Returns(ds[0]) && Returns(ds[1]) && Returns(ds[2]) && ds[3].outcome.Failed?)
            && (LiveOn(start, ds) == Ended(WasSkipped) ==> exists i :: 0 <= i < 4 && ds[i].outcome.Skipped?)
  {
    InternalFrom(1, ds);
    var r1, r2 := ds[1..], ds[1..][1..];
    assert r1[0] == ds[1] && r2[0] == ds[2] && r2[1..][0] == ds[3];
    if Returns(ds[0]) {
      InternalFrom(2, r1);
      if Returns(ds[1]) {
        InternalFrom(3, r2);
        if Returns(ds[2]) { InternalFrom(4, r2[1..]); }
      }
    }
  }

  /** Without a deferral it is processed, unless all four deliveries failed. */
  lemma InternalWithoutDeferral(ds: seq<Delivery>)
    requires |ds| >= 4 && forall i :: 0 <= i < 4 ==> ds[i].outcome.Processed? || ds[i].outcome.Failed?
    ensures var start := Waiting(Internal, 1);
            && LiveOn(start, ds) == Ended(if forall i :: 0 <= i < 4 ==> ds[i].outcome.Failed? then WasDropped else WasProcessed)
            && DeliveriesOn(Internal, start, ds) <= 4
  {
    hide LiveOn, DeliveriesOn;
    InternalMessageEnds(ds);
    assert (forall i :: 0 <= i < 4 ==> ds[i].outcome.Failed?)
      <==> ds[0].outcome.Failed? && ds[1].outcome.Failed? && ds[2].outcome.Failed? && ds[3].outcome.Failed?;
  }

  /** One delivery from the internal queue. */
  lemma InternalFrom(attempt: nat, ds: seq<Delivery>)
    requires 1 <= attempt <= 4 && ds != []
    ensures var life := Waiting(Internal, attempt);
            var next := if Returns(ds[0]) && attempt < 4 then Waiting(Internal, attempt + 1) else Deliver(life, ds[0]);
            && LiveOn(life, ds) == LiveOn(next, ds[1..])
            && DeliveriesOn(Internal, life, ds) == 1 + DeliveriesOn(Internal, next, ds[1..])
            && (!Returns(ds[0]) ==> next == Ended(if ds[0].outcome.Processed? then WasProcessed else WasSkipped))
            && (Returns(ds[0]) && attempt == 4 ==> next == Ended(if ds[0].outcome.Failed? then WasDropped else Expired))
  {
  }
}
