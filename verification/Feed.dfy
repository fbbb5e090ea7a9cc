/** The drop-oldest subscriber queue: its sequence gaps account exactly for its losses. */
module Feed {
  import opened Types

  type SubscriberId = nat

  /** A queue's contents and how many items it dropped since the last pop. */
  datatype QueueState = QueueState(items: seq<Event>, dropped: nat)

  function Push(capacity: nat, q: QueueState, e: Event): QueueState {
    if |q.items| >= capacity then
      QueueState((if q.items == [] then [] else q.items[1..]) + [e], q.dropped + 1)
    else QueueState(q.items + [e], q.dropped)
  }

  function Pop(q: QueueState): QueueState
    requires q.items != []
  {
    QueueState(q.items[1..], 0)
  }

  class DropOldestQueue {
    var items: seq<Event>
    var droppedSinceLastPop: nat
    const capacity: nat

    ghost function State(): QueueState
      reads this
    {
      QueueState(items, droppedSinceLastPop)
    }

    constructor (capacity: nat)
      ensures this.capacity == capacity && State() == QueueState([], 0)
    {
      items := [];
      droppedSinceLastPop := 0;
      this.capacity := capacity;
    }

    /** Never blocks: at capacity the oldest item goes, and the loss is counted. */
    method PushEvent(e: Event)
      modifies this
      ensures State() == Push(capacity, old(State()), e)
    {
      if |items| >= capacity {
        items := if items == [] then [] else items[1..];
        droppedSinceLastPop := droppedSinceLastPop + 1;
      }
      items := items + [e];
    }

    /** The step a blocked pop takes once an item is there. */
    method PopEvent() returns (e: Event, dropped: nat)
      requires items != []
      modifies this
      ensures e == old(items)[0] && dropped == old(droppedSinceLastPop)
      ensures State() == Pop(old(State()))
    {
      e := items[0];
      items := items[1..];
      dropped := droppedSinceLastPop;
      droppedSinceLastPop := 0;
    }
  }

  /** Copy one event into every subscriber's own queue. */
  method FanOut(e: Event, subscribers: map<SubscriberId, DropOldestQueue>)
    requires forall i, j :: i in subscribers && j in subscribers && i != j ==> subscribers[i] != subscribers[j]
    modifies subscribers.Values
    ensures forall i :: i in subscribers ==>
              subscribers[i].State() == Push(subscribers[i].capacity, old(subscribers[i].State()), e)
  {
    var todo := subscribers.Keys;
    while todo != {}
      invariant todo <= subscribers.Keys
      invariant forall i :: i in subscribers ==>
                  subscribers[i].State() == if i in todo then old(subscribers[i].State())
                                            else Push(subscribers[i].capacity, old(subscribers[i].State()), e)
      decreases |todo|
    {
      var i :| i in todo;
      assert subscribers[i] in subscribers.Values;
      subscribers[i].PushEvent(e);
      todo := todo - {i};
    }
  }

  // ---- The push/pop protocol, under every interleaving ----

  datatype Packet = Packet(seqNo: nat, event: Event)

  /** One subscriber's queue and writer, with their histories. */
  datatype Line = Line(
    queue: QueueState,
    /** The writer's stream sequence. */
    seqNo: nat,
    pushed: seq<Event>,
    delivered: seq<Packet>,
    /** Every item ever dropped. */
    lost: nat)

  const OPEN: Line := Line(QueueState([], 0), 0, [], [], 0)

  /** The two atomic steps: the fan-out pushes, the writer pops (and waits while there is nothing). */
  datatype Action = Publish(event: Event) | Write

  function Act(capacity: nat, l: Line, a: Action): Line {
    match a
    case Publish(e) =>
      Line(Push(capacity, l.queue, e), l.seqNo, l.pushed + [e], l.delivered,
           l.lost + if |l.queue.items| >= capacity then 1 else 0)
    case Write =>
      if l.queue.items == [] then l
      else
        var seqNo := l.seqNo + 1 + l.queue.dropped;
        Line(Pop(l.queue), seqNo, l.pushed, l.delivered + [Packet(seqNo, l.queue.items[0])], l.lost)
  }

  function ActAll(capacity: nat, l: Line, steps: seq<Action>): Line
    decreases |steps|
  {
    if steps == [] then l else ActAll(capacity, Act(capacity, l, steps[0]), steps[1..])
  }

  /** Each delivery carries its event's 1-based position among all events pushed, in increasing order. */
  ghost predicate Positioned(l: Line) {
    && (forall i :: 0 <= i < |l.delivered| ==>
          1 <= l.delivered[i].seqNo <= |l.pushed| && l.pushed[l.delivered[i].seqNo - 1] == l.delivered[i].event)
    && (forall i, j :: 0 <= i < j < |l.delivered| ==> l.delivered[i].seqNo < l.delivered[j].seqNo)
  }

  /** The queue holds the latest events; everything earlier was delivered or is accounted as dropped. */
  ghost predicate Accounted(capacity: nat, l: Line) {
    && |l.queue.items| <= capacity
    && l.seqNo + l.queue.dropped + |l.queue.items| == |l.pushed|
    && l.queue.items == l.pushed[|l.pushed| - |l.queue.items|..]
    && (forall i :: 0 <= i < |l.delivered| ==> l.delivered[i].seqNo <= l.seqNo)
    && |l.delivered| <= l.seqNo
    && l.lost == l.seqNo - |l.delivered| + l.queue.dropped
  }

  lemma PublishKeeps(capacity: nat, l: Line, e: Event)
    requires capacity > 0 && Positioned(l) && Accounted(capacity, l)
    ensures Positioned(Act(capacity, l, Publish(e))) && Accounted(capacity, Act(capacity, l, Publish(e)))
  {
    var l' := Act(capacity, l, Publish(e));
    var n := |l.pushed| - |l.queue.items|;
    assert l'.pushed[..|l.pushed|] == l.pushed;
    if |l.queue.items| >= capacity {
      assert l'.queue.items == l'.pushed[n + 1..];
    } else {
      assert l'.queue.items == l'.pushed[n..];
    }
  }

  lemma WriteKeeps(capacity: nat, l: Line)
    requires Positioned(l) && Accounted(capacity, l)
    ensures Positioned(Act(capacity, l, Write)) && Accounted(capacity, Act(capacity, l, Write))
  {
    if l.queue.items != [] {
      var l' := Act(capacity, l, Write);
      var n := |l.pushed| - |l.queue.items|;
      assert l.queue.items[0] == l.pushed[n];
      assert l'.queue.items == l.pushed[n + 1..];
      assert l'.delivered[..|l.delivered|] == l.delivered;
    }
  }

  lemma {:induction false} ActAllKeeps(capacity: nat, l: Line, steps: seq<Action>)
    requires capacity > 0 && Positioned(l) && Accounted(capacity, l)
    ensures Positioned(ActAll(capacity, l, steps)) && Accounted(capacity, ActAll(capacity, l, steps))
    decreases |steps|
  {
    hide Positioned, Accounted, Act;
    if steps != [] {
      match steps[0] {
        case Publish(e) => PublishKeeps(capacity, l, e);
        case Write => WriteKeeps(capacity, l);
      }
      ActAllKeeps(capacity, Act(capacity, l, steps[0]), steps[1..]);
    }
  }

  /** Under every interleaving: sequence numbers are positions, gaps are exactly the losses, capacity holds. */
  ghost predicate Exact(capacity: nat, steps: seq<Action>) {
    var l := ActAll(capacity, OPEN, steps);
    && Positioned(l)
    && |l.queue.items| <= capacity
    && l.lost == l.seqNo - |l.delivered| + l.queue.dropped
    && |l.pushed| == |l.delivered| + l.lost + |l.queue.items|
  }

  lemma RoomMeansExact(capacity: nat, steps: seq<Action>)
    requires capacity > 0
    ensures Exact(capacity, steps)
  {
    hide ActAll;
    OpenExact(capacity);
    ActAllKeeps(capacity, OPEN, steps);
  }

  lemma NoRoomNotExact(e: Event)
    ensures !Exact(0, [Publish(e)])
  {
    ZeroCapacityOverflows(e);
    hide ActAll;
  }

  /** That holds of every interleaving if and only if the queue has room for at least one event. */
  lemma StreamSeqExactIff(capacity: nat)
    ensures (forall steps :: Exact(capacity, steps)) <==> capacity > 0
  {
    hide Exact;
    if capacity > 0 {
      forall steps
        ensures Exact(capacity, steps)
      {
        RoomMeansExact(capacity, steps);
      }
    } else {
      NoRoomNotExact(Trade(1, 1, Buy));
    }
  }

  /** A queue with no room counts a drop that did not happen and holds one event anyway. */
  lemma ZeroCapacityOverflows(e: Event)
    ensures |ActAll(0, OPEN, [Publish(e)]).queue.items| == 1
    ensures ActAll(0, OPEN, [Publish(e), Write]).delivered == [Packet(2, e)]
  {
    assert [Publish(e)][1..] == [];
    assert [Publish(e), Write][1..] == [Write] && [Write][1..] == [];
    var l := Act(0, OPEN, Publish(e));
    assert ActAll(0, OPEN, [Publish(e), Write]) == ActAll(0, l, [Write]);
    assert ActAll(0, l, [Write]) == ActAll(0, Act(0, l, Write), []);
  }

  // ---- The queue and the writer as they run ----

  /** One subscriber's writer: it owns the counter and numbers what it pops. */
  class SubscriberWriter {
    const queue: DropOldestQueue
    var seqNo: nat
    var written: seq<Packet>

    constructor (queue: DropOldestQueue)
      ensures this.queue == queue && seqNo == 0 && written == []
    {
      this.queue := queue;
      seqNo, written := 0, [];
    }

    /** The queue and the writer are at the point `l` of the protocol. */
    ghost predicate Stands(l: Line)
      reads this, queue
    {
      l.queue == queue.State() && l.seqNo == seqNo && l.delivered == written
    }

    /** Pop, number by one plus the drops, write. */
    method WriteNext(ghost l: Line)
      requires queue.items != [] && Stands(l)
      modifies this, queue
      ensures Stands(Act(queue.capacity, l, Write))
    {
      var event, dropped := queue.PopEvent();
      seqNo := seqNo + 1 + dropped;
      written := written + [Packet(seqNo, event)];
    }
  }

  /** Any schedule of pushes and pops, run on the queue and the writer, delivers what the protocol says. */
  method RunSchedule(capacity: nat, steps: seq<Action>) returns (written: seq<Packet>, held: seq<Event>)
    ensures written == ActAll(capacity, OPEN, steps).delivered && held == ActAll(capacity, OPEN, steps).queue.items
  {
    hide Act;
    var queue := new DropOldestQueue(capacity);
    var writer := new SubscriberWriter(queue);
    ghost var l := OPEN;
    assert steps[0..] == steps;
    for i := 0 to |steps|
      invariant fresh(queue) && fresh(writer) && writer.queue == queue && queue.capacity == capacity
      invariant writer.Stands(l) && ActAll(capacity, l, steps[i..]) == ActAll(capacity, OPEN, steps)
    {
      assert steps[i..][1..] == steps[i + 1..];
      match steps[i] {
        case Publish(e) =>
          PublishIs(capacity, l, e);
          queue.PushEvent(e);
        case Write =>
          WaitIs(capacity, l);
          if queue.items != [] {
            writer.WriteNext(l);
          }
      }
      l := Act(capacity, l, steps[i]);
    }
    assert steps[|steps|..] == [];
    return writer.written, queue.items;
  }

  lemma PublishIs(capacity: nat, l: Line, e: Event)
    ensures var l' := Act(capacity, l, Publish(e));
            l'.queue == Push(capacity, l.queue, e) && l'.seqNo == l.seqNo && l'.delivered == l.delivered
  {
  }

  lemma WaitIs(capacity: nat, l: Line)
    ensures l.queue.items == [] ==> Act(capacity, l, Write) == l
  {
  }

  // ---- Many subscribers ----

  datatype HubAction = Join(id: SubscriberId) | Broadcast(event: Event) | Drain(id: SubscriberId) | Leave(id: SubscriberId)

  type Hub = map<SubscriberId, Line>

  function HubAct(capacity: nat, h: Hub, a: HubAction): Hub {
    match a
    case Join(id) => h[id := OPEN]
    case Broadcast(e) => map id | id in h :: Act(capacity, h[id], Publish(e))
    case Drain(id) => if id in h then h[id := Act(capacity, h[id], Write)] else h
    case Leave(id) => h - {id}
  }

  function HubAll(capacity: nat, steps: seq<HubAction>): Hub {
    if steps == [] then map[]
    else HubAct(capacity, HubAll(capacity, steps[..|steps| - 1]), steps[|steps| - 1])
  }

  /** What was broadcast since a subscriber last joined. */
  function Heard(steps: seq<HubAction>, id: SubscriberId): seq<Event> {
    if steps == [] then []
    else
      var before, a := steps[..|steps| - 1], steps[|steps| - 1];
      if a == Join(id) then []
      else if a.Broadcast? then Heard(before, id) + [a.event]
      else Heard(before, id)
  }

  /**
   * Over every run of joins, broadcasts, deliveries and departures, each subscriber's deliveries carry the
   * position of their event among the broadcasts since it joined, whatever the other subscribers do.
   */
  lemma {:induction false} EverySubscriberExact(capacity: nat, steps: seq<HubAction>, id: SubscriberId)
    requires capacity > 0 && id in HubAll(capacity, steps)
    ensures var l := HubAll(capacity, steps)[id];
            Positioned(l) && Accounted(capacity, l) && l.pushed == Heard(steps, id)
  {
    var before, a := steps[..|steps| - 1], steps[|steps| - 1];
    var h := HubAll(capacity, before);
    hide Positioned, Accounted, Act;
    if a == Join(id) {
      OpenExact(capacity);
    } else {
      EverySubscriberExact(capacity, before, id);
      if a.Broadcast? {
        PublishKeeps(capacity, h[id], a.event);
        PublishPushes(capacity, h[id], a.event);
      } else if a == Drain(id) {
        WriteKeeps(capacity, h[id]);
        WritePushes(capacity, h[id]);
      }
    }
  }

  lemma OpenExact(capacity: nat)
    ensures Positioned(OPEN) && Accounted(capacity, OPEN)
  {
  }

  lemma PublishPushes(capacity: nat, l: Line, e: Event)
    ensures Act(capacity, l, Publish(e)).pushed == l.pushed + [e]
  {
  }

  lemma WritePushes(capacity: nat, l: Line)
    ensures Act(capacity, l, Write).pushed == l.pushed
  {
  }
}
