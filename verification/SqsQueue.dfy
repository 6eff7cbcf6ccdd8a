/** The tiered queue with redelivery and a dead-letter queue: internal/sqsqueue.
    Messages are numbered by the order of their Send and stay in the store as tombstones once deleted. */
module SqsQueue {
  import opened Jobs
  import opened Wrappers

  const MIN_TIER := 1
  const MAX_TIER := 5

  datatype Place = Visible | InFlight | Deleted | DeadLettered

  datatype Message = Message(job: Job, tier: int, receives: nat, place: Place)

  // The receive count of a delivery doubles as its receipt: it is current until the next receive.
  datatype Delivery = Delivery(msg: nat, job: Job, tier: int, receiveCount: nat)

  type Store = seq<Message>

  /** Clamps a job priority into the supported tier range. */
  function Tier(priority: int): (tier: int)
    ensures MIN_TIER <= tier <= MAX_TIER
    ensures MIN_TIER <= priority <= MAX_TIER ==> tier == priority
  {
    if priority < MIN_TIER then MIN_TIER else if priority > MAX_TIER then MAX_TIER else priority
  }

  lemma TierKeepsOrder(p: int, q: int)
    requires p <= q
    ensures Tier(p) <= Tier(q)
  {
  }

  function Sent(q: Store, job: Job): Store {
    q + [Message(job, Tier(job.priority), 0, Visible)]
  }

  function DeliveryOf(q: Store, i: nat): Delivery
    requires i < |q|
  {
    Delivery(i, q[i].job, q[i].tier, q[i].receives + 1)
  }

  function Delivered(q: Store, i: nat): Store
    requires i < |q|
  {
    q[i := q[i].(receives := q[i].receives + 1, place := InFlight)]
  }

  predicate Exhausted(m: Message, maxReceive: nat) {
    m.place == Visible && m.receives >= maxReceive
  }

  /** The exhausted messages of the tiers from `lowest` up have moved to the dead-letter queue. */
  function Redriven(q: Store, lowest: int, maxReceive: nat): (r: Store)
    ensures |r| == |q|
  {
    seq(|q|, i requires 0 <= i < |q| =>
      if q[i].tier >= lowest && Exhausted(q[i], maxReceive) then q[i].(place := DeadLettered) else q[i])
  }

  /** One tier's exhausted messages have moved to the dead-letter queue. */
  function RedrivenAt(q: Store, tier: int, maxReceive: nat): (r: Store)
    ensures |r| == |q|
  {
    seq(|q|, i requires 0 <= i < |q| =>
      if q[i].tier == tier && Exhausted(q[i], maxReceive) then q[i].(place := DeadLettered) else q[i])
  }

  lemma RedriveNextTier(q: Store, tier: int, maxReceive: nat)
    ensures RedrivenAt(Redriven(q, tier + 1, maxReceive), tier, maxReceive) == Redriven(q, tier, maxReceive)
  {
  }

  lemma HiddenMeansExhausted(q: Store, lowest: int, maxReceive: nat)
    requires var r := Redriven(q, lowest, maxReceive);
             forall i | 0 <= i < |r| :: r[i].tier >= lowest ==> r[i].place != Visible
    ensures forall i | 0 <= i < |q| :: q[i].tier >= lowest && q[i].place == Visible ==> Exhausted(q[i], maxReceive)
  {
    var r := Redriven(q, lowest, maxReceive);
    forall i | 0 <= i < |q| && q[i].tier >= lowest && q[i].place == Visible
      ensures Exhausted(q[i], maxReceive)
    {
      assert r[i].tier >= lowest;
    }
  }

  predicate Current(q: Store, d: Delivery) {
    d.msg < |q| && q[d.msg].place == InFlight && q[d.msg].receives == d.receiveCount
  }

  /** A delete or a visibility change through a receipt: certain while the receipt is current,
      either way once the message has been received again or has become visible. */
  predicate MayHonour(q: Store, d: Delivery, honoured: bool) {
    Current(q, d) ==> honoured
  }

  function Acked(q: Store, d: Delivery, honoured: bool): Store
    requires d.msg < |q|
  {
    if honoured && q[d.msg].place in {Visible, InFlight} then q[d.msg := q[d.msg].(place := Deleted)] else q
  }

  function Released(q: Store, d: Delivery, honoured: bool): Store
    requires d.msg < |q|
  {
    if honoured && q[d.msg].place == InFlight then q[d.msg := q[d.msg].(place := Visible)] else q
  }

  /** All messages but one are the same in both stores. */
  ghost predicate SameBut(q: Store, r: Store, i: nat) {
    |r| == |q| && forall k | 0 <= k < |q| && k != i :: r[k] == q[k]
  }

  /** A delivery of `m`, which then is `now`: its job and tier, and one receive more, which is its receipt. */
  predicate HandsOut(m: Message, now: Message, d: Delivery) {
    && d.job == m.job == now.job && d.tier == m.tier == now.tier
    && d.receiveCount == m.receives + 1 == now.receives && now.place == InFlight
  }

  /** What a sweep down to `lowest` did to a message it did not deliver: it is in the dead-letter queue if it was
      visible there with no receive left, and otherwise as it was. */
  predicate SweptOver(m: Message, now: Message, lowest: int, maxReceive: nat) {
    if m.tier >= lowest && m.place == Visible && m.receives >= maxReceive
    then now == m.(place := DeadLettered)
    else now == m
  }

  class Queues {
    var msgs: Store
    const maxReceive: nat

    constructor (maxReceiveCount: int)
      ensures msgs == []
      ensures maxReceive == if maxReceiveCount <= 0 then 3 else maxReceiveCount
    {
      msgs := [];
      maxReceive := if maxReceiveCount <= 0 then 3 else maxReceiveCount;
    }

    method Send(job: Job)
      modifies this
      ensures msgs == Sent(old(msgs), job)
      ensures |msgs| == |old(msgs)| + 1 && old(msgs) <= msgs
      ensures var m := msgs[|old(msgs)|];
              && m.job == job && m.receives == 0 && m.place == Visible
              && (MIN_TIER <= job.priority <= MAX_TIER ==> m.tier == job.priority)
    {
      msgs := msgs + [Message(job, Tier(job.priority), 0, Visible)];
    }

    /** One poll of one tier queue. */
    method ReceiveMessage(tier: int) returns (d: Option<Delivery>)
      modifies this
      ensures var q := RedrivenAt(old(msgs), tier, maxReceive);
              match d
              case None => msgs == q && forall i | 0 <= i < |q| :: q[i].tier == tier ==> q[i].place != Visible
              case Some(x) =>
                && x.msg < |q| && q[x.msg].tier == tier && q[x.msg].place == Visible
                && x == DeliveryOf(q, x.msg) && msgs == Delivered(q, x.msg)
    {
      msgs := RedrivenAt(msgs, tier, maxReceive);
      if i :| 0 <= i < |msgs| && msgs[i].tier == tier && msgs[i].place == Visible {
        d := Some(DeliveryOf(msgs, i));
        msgs := Delivered(msgs, i);
      } else {
        d := None;
      }
    }

    /** Sweeps the tiers highest-first. A delivery comes from the highest tier that holds a
        receivable message, and nothing is delivered only when no tier holds one. */
    method Receive() returns (d: Option<Delivery>)
      requires forall i | 0 <= i < |msgs| :: MIN_TIER <= msgs[i].tier <= MAX_TIER
      modifies this
      ensures d.None? ==> msgs == Redriven(old(msgs), MIN_TIER, maxReceive)
      ensures d.None? ==> forall i | 0 <= i < |old(msgs)| ::
                             old(msgs)[i].place == Visible ==> Exhausted(old(msgs)[i], maxReceive)
      ensures d.Some? ==>
                var q := Redriven(old(msgs), d.value.tier, maxReceive);
                && d.value.msg < |q| && q[d.value.msg].place == Visible && q[d.value.msg].receives < maxReceive
                && d.value == DeliveryOf(q, d.value.msg) && msgs == Delivered(q, d.value.msg)
                && forall i | 0 <= i < |old(msgs)| ::
                     old(msgs)[i].place == Visible && old(msgs)[i].tier > d.value.tier ==>
                       Exhausted(old(msgs)[i], maxReceive)
      ensures |msgs| == |old(msgs)|
      ensures d.Some? ==>
                && d.value.msg < |msgs| && HandsOut(old(msgs)[d.value.msg], msgs[d.value.msg], d.value)
                && old(msgs)[d.value.msg].place == Visible && old(msgs)[d.value.msg].receives < maxReceive
      ensures forall i | 0 <= i < |msgs| && !(d.Some? && i == d.value.msg) ::
                SweptOver(old(msgs)[i], msgs[i], if d.None? then MIN_TIER else d.value.tier, maxReceive)
    {
      var tier := MAX_TIER;
      while tier >= MIN_TIER
        invariant MIN_TIER - 1 <= tier <= MAX_TIER
        invariant msgs == Redriven(old(msgs), tier + 1, maxReceive)
        invariant forall i | 0 <= i < |msgs| :: msgs[i].tier > tier ==> msgs[i].place != Visible
      {
        RedriveNextTier(old(msgs), tier, maxReceive);
        HiddenMeansExhausted(old(msgs), tier + 1, maxReceive);
        d := ReceiveMessage(tier);
        if d.Some? {
          return;
        }
        tier := tier - 1;
      }
      HiddenMeansExhausted(old(msgs), MIN_TIER, maxReceive);
      d := None;
    }

    method Ack(d: Delivery) returns (honoured: bool)
      requires d.msg < |msgs|
      modifies this
      ensures MayHonour(old(msgs), d, honoured) && msgs == Acked(old(msgs), d, honoured)
      ensures SameBut(old(msgs), msgs, d.msg)
      ensures var m := old(msgs)[d.msg];
              && msgs[d.msg] in {m, m.(place := Deleted)} && (m.place == DeadLettered ==> msgs[d.msg] == m)
              && (m.place == InFlight && m.receives == d.receiveCount ==> msgs[d.msg].place == Deleted)
    {
      honoured := *;
      if Current(msgs, d) { honoured := true; }
      msgs := Acked(msgs, d, honoured);
    }

    method Release(d: Delivery) returns (honoured: bool)
      requires d.msg < |msgs|
      modifies this
      ensures MayHonour(old(msgs), d, honoured) && msgs == Released(old(msgs), d, honoured)
      ensures SameBut(old(msgs), msgs, d.msg)
      ensures var m := old(msgs)[d.msg];
              && msgs[d.msg] in {m, m.(place := Visible)} && (m.place != InFlight ==> msgs[d.msg] == m)
              && (m.place == InFlight && m.receives == d.receiveCount ==> msgs[d.msg].place == Visible)
    {
      honoured := *;
      if Current(msgs, d) { honoured := true; }
      msgs := Released(msgs, d, honoured);
    }

    /** At most ten dead letters, all of them when there are fewer; none is hidden or removed. */
    method PeekDeadLetters() returns (dead: seq<nat>)
      ensures |dead| <= 10
      ensures forall i <- dead :: i < |msgs| && msgs[i].place == DeadLettered
      ensures |dead| < 10 ==> forall i | 0 <= i < |msgs| :: msgs[i].place == DeadLettered ==> i in dead
    {
      dead := [];
      for k := 0 to |msgs|
        invariant |dead| <= 10
        invariant forall i <- dead :: i < |msgs| && msgs[i].place == DeadLettered
        invariant |dead| < 10 ==> forall i | 0 <= i < k :: msgs[i].place == DeadLettered ==> i in dead
      {
        if msgs[k].place == DeadLettered && |dead| < 10 {
          dead := dead + [k];
        }
      }
    }
  }
}
