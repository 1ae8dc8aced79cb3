/** The queue handlers (siliconbeest-queue-consumer/src/index.ts). */
module QueueConsumer {
  import opened Wrappers
  import opened FederationPolicy
  import opened QueueProtocol

  // ---------------------------------------------------------------- messages

  datatype Settlement = Acked | Retried(delaySeconds: nat)

  /** A delivered message, with the calls made on it. */
  class Message {
    const id: string
    const attempts: nat
    const body: Value
    var settled: seq<Settlement>

    constructor (id: string, attempts: nat, body: Value)
      ensures this.id == id && this.attempts == attempts && this.body == body && settled == []
    {
      this.id, this.attempts, this.body, settled := id, attempts, body, [];
    }

    method Ack()
      modifies this
      ensures settled == old(settled) + [Acked]
    {
      settled := settled + [Acked];
    }

    method Retry(delaySeconds: nat)
      modifies this
      ensures settled == old(settled) + [Retried(delaySeconds)]
    {
      settled := settled + [Retried(delaySeconds)];
    }
  }

  const LEGACY_DELIVERY: set<string> := {"deliver_activity", "deliver_activity_fanout", "forward_activity", "deliver_report"}
  const LEGACY_LOCAL: set<string> := {"timeline_fanout", "create_notification", "process_media", "send_web_push"}
  const LEGACY_REMOTE: set<string> := {"fetch_remote_account", "fetch_remote_status", "fetch_preview_card"}
  const LEGACY_CARE: set<string> := {"cleanup_expired_tokens", "update_trends", "update_instance_info", "import_item"}
  const LEGACY_INSTANCE: set<string> := {"refresh_remote_instance", "reset_remote_instance_cache"}
  const LEGACY_MESSAGE_TYPES: set<string> :=
    LEGACY_DELIVERY + LEGACY_LOCAL + LEGACY_REMOTE + LEGACY_CARE + LEGACY_INSTANCE

  predicate IsObject(body: Value) {
    body.Record? || body.Many?
  }

  predicate IsLegacy(body: Value) {
    body.Record? && "type" in body.fields && body.fields["type"].Text?
    && body.fields["type"].text in LEGACY_MESSAGE_TYPES
  }

  predicate IsFedifyMessage(body: Value) {
    IsObject(body) && !IsLegacy(body)
  }

  // ---------------------------------------------------------------- one body

  /**
   * What the surroundings answer during one delivery: whether unpacking fails, the ordering lock is free,
   * the lookups fail, the task itself fails, and the two park writes succeed; and the unpacked task.
   */
  datatype Circumstances = Circumstances(
    unpackFails: bool, lockFree: bool, lookupFails: bool, taskFails: bool, parkOk: bool, parkAgainOk: bool, task: Value)

  /** What is left of the unpacked task for Fedify. */
  ghost function LeftOf(env: Env, c: Circumstances): Option<Value> {
    Keep(c.task, CleanTargets(env, c.task)).message
  }

  ghost predicate HandsOn(env: Env, body: Value, c: Circumstances) {
    IsFedifyMessage(body) && !c.unpackFails && c.lockFree && !c.lookupFails && LeftOf(env, c).Some?
  }

  ghost function OutcomeOf(env: Env, body: Value, c: Circumstances): Outcome {
    if IsFedifyMessage(body) then
      if c.unpackFails then Failed
      else if !c.lockFree then Deferred
      else if c.lookupFails then Failed
      else if LeftOf(env, c).None? then Processed
      else if c.taskFails then Failed
      else Processed
    else if !IsObject(body) then Skipped
    else if c.taskFails then Failed
    else Processed
  }

  ghost function DeliveryOf(env: Env, body: Value, c: Circumstances): Delivery {
    Delivery(OutcomeOf(env, body, c), c.parkOk, c.parkAgainOk)
  }

  /** Only a body that is no object is skipped, and only one with an ordering lock is deferred. */
  lemma WhenSkippedOrDeferred(env: Env, body: Value, c: Circumstances)
    ensures OutcomeOf(env, body, c) == Skipped <==> !IsObject(body)
    ensures OutcomeOf(env, body, c) == Deferred <==> IsFedifyMessage(body) && !c.unpackFails && !c.lockFree
  {
  }

  /**
   * When processing a body fails: an own message when its handler does; any other object when unpacking, a lookup behind a
   * free lock, or Fedify on a task with targets left does.
   */
  lemma WhenFailed(env: Env, body: Value, c: Circumstances)
    ensures OutcomeOf(env, body, c) == Failed
            <==> IsObject(body)
                 && if IsLegacy(body) then c.taskFails
                    else c.unpackFails || (c.lockFree && (c.lookupFails || (c.taskFails && LeftOf(env, c).Some?)))
    ensures HandsOn(env, body, c) && !c.taskFails ==> OutcomeOf(env, body, c) == Processed
  {
    hide LeftOf;
  }

  /** The queues are told apart by the ends of their names. */
  lemma QueuesByName(environment: string)
    ensures QueueNamed(environment + "-federation-dlq") == DeadLetter
    ensures QueueNamed(environment + "-internal") == Internal
    ensures QueueNamed(environment + "-federation") == Federation
  {
    var dead, internal, main := environment + "-federation-dlq", environment + "-internal", environment + "-federation";
    assert DLQ_SUFFIX == "-federation-dlq";
    assert dead[|dead| - 15..] == "-federation-dlq";
    assert internal[|internal| - 9..] == "-internal" && internal[|internal| - 1] == 'l' && "-federation-dlq"[14] == 'q';
    assert main[|main| - 1] == 'n';
    EndsOtherwise(main, "-federation-dlq");
    EndsOtherwise(main, "-internal");
    EndsOtherwise(internal, "-federation-dlq");
  }

  lemma EndsOtherwise(s: string, suffix: string)
    requires s != "" && suffix != "" && s[|s| - 1] != suffix[|suffix| - 1]
    ensures !EndsWith(s, suffix)
  {
    if |suffix| <= |s| { assert s[|s| - |suffix|..][|suffix| - 1] == s[|s| - 1]; }
  }

  /** The deliveries of one body under successive circumstances. */
  ghost function Deliveries(env: Env, body: Value, cs: seq<Circumstances>): (ds: seq<Delivery>)
    ensures |ds| == |cs| && forall i :: 0 <= i < |cs| ==> ds[i] == DeliveryOf(env, body, cs[i])
  {
    seq(|cs|, i requires 0 <= i < |cs| => DeliveryOf(env, body, cs[i]))
  }

  lemma LegacyOutcome(env: Env, body: Value, c: Circumstances)
    requires IsLegacy(body)
    ensures OutcomeOf(env, body, c) == if c.taskFails then Failed else Processed
  {
    hide LeftOf;
  }

  /**
   * A message of one of our own types on the internal queue is never deferred, so it never expires unseen: it is
   * processed within four deliveries, or dropped by the handler exactly when all four failed.
   */
  lemma LegacyInternalMessageEnds(env: Env, body: Value, cs: seq<Circumstances>)
    requires IsLegacy(body) && |cs| >= 4
    ensures var start, ds := Waiting(Internal, 1), Deliveries(env, body, cs);
            && LiveOn(start, ds) == Ended(if forall i :: 0 <= i < 4 ==> cs[i].taskFails then WasDropped else WasProcessed)
            && DeliveriesOn(Internal, start, ds) <= 4
  {
    var ds := Deliveries(env, body, cs);
    forall i | 0 <= i < 4 ensures ds[i].outcome == if cs[i].taskFails then Failed else Processed {
      LegacyOutcome(env, body, cs[i]);
    }
    hide OutcomeOf, LiveOn, DeliveriesOn;
    InternalWithoutDeferral(ds);
  }

  // ---------------------------------------------------------------- settling

  function Settle(v: Verdict): Settlement {
    match v
    case Again(delaySeconds) => Retried(delaySeconds)
    case _ => Acked
  }

  /** The message was settled exactly once since the earlier state, as the verdict says. */
  twostate predicate SettledOnce(m: Message, v: Verdict)
    reads m
  {
    m.settled == old(m.settled) + [Settle(v)]
  }

  twostate predicate Unsettled(m: Message)
    reads m
  {
    m.settled == old(m.settled)
  }

  /** A row of `federation_dlq_parked`, as far as it identifies the message. */
  datatype ParkedRow = ParkedRow(queue: string, messageId: string, attempts: nat)

  /** The rows a batch parks, in order. */
  ghost function RowsParked(env: Env, queue: string, messages: seq<Message>, cs: seq<Circumstances>): seq<ParkedRow>
    requires |messages| == |cs|
  {
    if messages == [] then []
    else
      var n := |messages| - 1;
      var m := messages[n];
      RowsParked(env, queue, messages[..n], cs[..n])
      + if Parks(m.attempts, DeliveryOf(env, m.body, cs[n])) then [ParkedRow(queue, m.id, m.attempts)] else []
  }

  ghost predicate AllDistinct(messages: seq<Message>) {
    forall i, j :: 0 <= i < j < |messages| ==> messages[i] != messages[j]
  }

  function EndsWith(s: string, suffix: string): bool {
    |suffix| <= |s| && s[|s| - |suffix|..] == suffix
  }

  const DLQ_SUFFIX: string := "-federation" + "-dlq"
  const INTERNAL_SUFFIX: string := "-internal"

  function QueueNamed(name: string): Queue {
    if EndsWith(name, DLQ_SUFFIX) then DeadLetter else if EndsWith(name, INTERNAL_SUFFIX) then Internal else Federation
  }

  class Consumer {
    var parked: seq<ParkedRow>
    var handedOn: seq<Value>
    var locksHeld: nat

    constructor ()
      ensures parked == [] && handedOn == [] && locksHeld == 0
    {
      parked, handedOn, locksHeld := [], [], 0;
    }

    /** `processMessageBody`: a lock that was taken is released, and Fedify only sees clean targets. */
    method ProcessMessageBody(env: Env, body: Value, c: Circumstances) returns (outcome: Outcome)
      requires ProperNames(env)
      modifies this`handedOn, this`locksHeld
      ensures outcome == OutcomeOf(env, body, c)
      ensures locksHeld == old(locksHeld)
      ensures handedOn == old(handedOn) + if HandsOn(env, body, c) then [LeftOf(env, c).value] else []
    {
      if IsFedifyMessage(body) {
        if c.unpackFails { return Failed; }
        if !c.lockFree { return Deferred; }
        locksHeld := locksHeld + 1;
        if c.lookupFails {
          locksHeld := locksHeld - 1;
          return Failed;
        }
        var filtered := FilterQueuedTask(env, c.task);
        if filtered.message.None? {
          locksHeld := locksHeld - 1;
          return Processed;
        }
        handedOn := handedOn + [filtered.message.value];
        locksHeld := locksHeld - 1;
        outcome := if c.taskFails then Failed else Processed;
      } else {
        if !body.Record? || "type" !in body.fields || !body.fields["type"].Text? { return Skipped; }
        outcome := if c.taskFails then Failed else Processed;
      }
    }

    method ParkMessage(queue: string, m: Message, ok: bool) returns (done: bool)
      modifies this`parked
      ensures done == ok
      ensures parked == old(parked) + if ok then [ParkedRow(queue, m.id, m.attempts)] else []
    {
      if ok { parked := parked + [ParkedRow(queue, m.id, m.attempts)]; }
      done := ok;
    }

    /** The body of the loop over dead letters. */
    method ConsumeDeadLetter(env: Env, queue: string, m: Message, c: Circumstances)
      requires ProperNames(env)
      modifies this, m
      ensures m.settled == old(m.settled) + [Settle(DlqVerdict(m.attempts, DeliveryOf(env, m.body, c)))]
      ensures locksHeld == old(locksHeld)
      ensures parked == old(parked) + if Parks(m.attempts, DeliveryOf(env, m.body, c))
                                      then [ParkedRow(queue, m.id, m.attempts)] else []
    {
      hide OutcomeOf;
      var outcome := ProcessMessageBody(env, m.body, c);
      var thrown := outcome == Failed;
      if outcome == Deferred {
        if m.attempts < DLQ_MAX_ATTEMPTS {
          m.Retry(60);
          return;
        }
        var done := ParkMessage(queue, m, c.parkOk);
        thrown := !done;
      }
      if !thrown {
        m.Ack();
        return;
      }
      var done := ParkMessage(queue, m, if outcome == Deferred then c.parkAgainOk else c.parkOk);
      if done || m.attempts >= DLQ_MAX_ATTEMPTS {
        m.Ack();
      } else {
        m.Retry(60);
      }
    }

    /** `consumeDlqBatch`: every message is acked or retried exactly once, and parked when its delivery says so. */
    method ConsumeDlqBatch(env: Env, queue: string, messages: seq<Message>, cs: seq<Circumstances>)
      requires ProperNames(env) && AllDistinct(messages) && |cs| == |messages|
      modifies this, messages
      ensures forall i :: 0 <= i < |messages| ==>
                SettledOnce(messages[i], DlqVerdict(messages[i].attempts, DeliveryOf(env, messages[i].body, cs[i])))
      ensures parked == old(parked) + RowsParked(env, queue, messages, cs)
      ensures locksHeld == old(locksHeld)
    {
      for n := 0 to |messages|
        invariant locksHeld == old(locksHeld)
        invariant parked == old(parked) + RowsParked(env, queue, messages[..n], cs[..n])
        invariant forall i :: 0 <= i < n ==>
                    SettledOnce(messages[i], DlqVerdict(messages[i].attempts, DeliveryOf(env, messages[i].body, cs[i])))
        invariant forall i :: n <= i < |messages| ==> Unsettled(messages[i])
      {
        hide DlqVerdict, DeliveryOf, Parks, Settle;
        ConsumeDeadLetter(env, queue, messages[n], cs[n]);
        assert messages[..n + 1][..n] == messages[..n] && cs[..n + 1][..n] == cs[..n];
      }
      assert messages[..|messages|] == messages && cs[..|cs|] == cs;
    }

    /** The body of the main loop. */
    method ConsumeMessage(env: Env, queue: string, m: Message, c: Circumstances)
      requires ProperNames(env) && QueueNamed(queue) != DeadLetter
      modifies this, m
      ensures m.settled == old(m.settled) + [Settle(MainVerdict(QueueNamed(queue), m.attempts, OutcomeOf(env, m.body, c)))]
      ensures locksHeld == old(locksHeld) && parked == old(parked)
    {
      hide OutcomeOf, EndsWith;
      var outcome := ProcessMessageBody(env, m.body, c);
      if outcome != Failed {
        if outcome == Deferred {
          m.Retry(0);
          return;
        }
        m.Ack();
      } else if EndsWith(queue, INTERNAL_SUFFIX) {
        if m.attempts >= INTERNAL_MAX_ATTEMPTS {
          m.Ack();
        } else {
          m.Retry(0);
        }
      } else {
        m.Retry(0);
      }
    }

    /** The main loop, over a batch of any other queue. */
    method ConsumeMainBatch(env: Env, queue: string, messages: seq<Message>, cs: seq<Circumstances>)
      requires ProperNames(env) && AllDistinct(messages) && |cs| == |messages| && QueueNamed(queue) != DeadLetter
      modifies this, messages
      ensures forall i :: 0 <= i < |messages| ==>
                SettledOnce(messages[i],
                            MainVerdict(QueueNamed(queue), messages[i].attempts, OutcomeOf(env, messages[i].body, cs[i])))
      ensures locksHeld == old(locksHeld) && parked == old(parked)
    {
      hide EndsWith, QueueNamed, ProperNames, MainVerdict, OutcomeOf, Settle;
      for n := 0 to |messages|
        invariant locksHeld == old(locksHeld) && parked == old(parked)
        invariant forall i :: 0 <= i < n ==>
                    SettledOnce(messages[i],
                                MainVerdict(QueueNamed(queue), messages[i].attempts, OutcomeOf(env, messages[i].body, cs[i])))
        invariant forall i :: n <= i < |messages| ==> Unsettled(messages[i])
      {
        ConsumeMessage(env, queue, messages[n], cs[n]);
      }
    }

    /** `handler.queue`: whatever the queue, every message of the batch is acked or retried exactly once. */
    method HandleBatch(env: Env, queue: string, messages: seq<Message>, cs: seq<Circumstances>)
      requires ProperNames(env) && AllDistinct(messages) && |cs| == |messages|
      modifies this, messages
      ensures forall i :: 0 <= i < |messages| ==>
                SettledOnce(messages[i],
                            VerdictOn(QueueNamed(queue), messages[i].attempts, DeliveryOf(env, messages[i].body, cs[i])))
      ensures parked == old(parked) + if QueueNamed(queue) == DeadLetter then RowsParked(env, queue, messages, cs) else []
      ensures locksHeld == old(locksHeld)
    {
      hide MainVerdict, DlqVerdict, OutcomeOf, Settle, EndsWith, RowsParked;
      if EndsWith(queue, DLQ_SUFFIX) {
        ConsumeDlqBatch(env, queue, messages, cs);
      } else {
        ConsumeMainBatch(env, queue, messages, cs);
      }
    }
  }
}
