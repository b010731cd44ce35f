/** The console broker: bounded queues that trade overflow for an explicit resync marker. */
module ConsoleStream {
  import opened Prelude

  datatype ConsoleEvent = ConsoleEvent(eventId: string, session: Uuid, eventType: string, sourceTimestamp: Time,
                                       durable: bool)

  /** What a queue holds. */
  datatype Entry = Delivery(event: ConsoleEvent) | ResyncRequired

  // ---------------------------------------------------------------- what a subscriber sees

  /** The place up to which entry `i` accounts for the published events, -1 before the first entry. */
  function Reached(positions: seq<int>, i: nat): int
    requires i <= |positions|
  {
    if i == 0 then -1 else positions[i - 1]
  }

  /** An event is the very next one published after what came before it; a marker stands for one or more
      lost events. */
  ghost predicate Explains(stream: seq<Entry>, published: seq<ConsoleEvent>, positions: seq<int>, i: nat)
    requires i < |stream| == |positions|
  {
    && Reached(positions, i) < positions[i] < |published|
    && (stream[i].Delivery? ==>
          positions[i] == Reached(positions, i) + 1 && positions[i] >= 0 && stream[i].event == published[positions[i]])
  }

  /** A stream that accounts for every published event, in order. */
  ghost predicate Faithful(stream: seq<Entry>, published: seq<ConsoleEvent>, positions: seq<int>) {
    && |positions| == |stream|
    && (forall i: nat :: i < |stream| ==> Explains(stream, published, positions, i))
    && Reached(positions, |positions|) == |published| - 1
  }

  /** Appending one entry that accounts for the rest of what is published. */
  lemma FaithfulSnoc(stream: seq<Entry>, published: seq<ConsoleEvent>, positions: seq<int>, entry: Entry,
                     more: seq<ConsoleEvent>)
    requires |positions| == |stream| && more != []
    requires forall i: nat :: i < |stream| ==> Explains(stream, published, positions, i)
    requires Reached(positions, |positions|) < |published|
    requires entry.Delivery? ==> Reached(positions, |positions|) == |published| - 1 && more == [entry.event]
    ensures Faithful(stream + [entry], published + more, positions + [|published + more| - 1])
  {
    var s, p, ps := stream + [entry], published + more, positions + [|published + more| - 1];
    forall i: nat | i < |s|
      ensures Explains(s, p, ps, i)
    {
      assert Reached(ps, i) == Reached(positions, i);
      if i < |stream| {
        assert Explains(stream, published, positions, i);
        assert s[i] == stream[i] && ps[i] == positions[i];
      }
    }
  }

  lemma FaithfulPrefix(a: seq<Entry>, b: seq<Entry>, published: seq<ConsoleEvent>, positions: seq<int>)
    requires Faithful(a + b, published, positions)
    ensures |a| <= |positions|
    ensures forall i: nat :: i < |a| ==> Explains(a, published, positions[..|a|], i)
    ensures Reached(positions[..|a|], |a|) < |published|
  {
    forall i: nat | i < |a|
      ensures Explains(a, published, positions[..|a|], i)
    {
      assert Explains(a + b, published, positions, i);
      assert Reached(positions[..|a|], i) == Reached(positions, i);
    }
    if a != [] {
      var last: nat := |a| - 1;
      assert Explains(a + b, published, positions, last);
    }
  }

  // ---------------------------------------------------------------- consequences

  /** What a subscriber sees keeps publish order. */
  lemma {:induction false} PositionsIncrease(stream: seq<Entry>, published: seq<ConsoleEvent>, positions: seq<int>,
                                             i: nat, j: nat)
    requires Faithful(stream, published, positions) && i < j < |stream|
    ensures positions[i] < positions[j]
  {
    assert Explains(stream, published, positions, j);
    if i + 1 < j {
      PositionsIncrease(stream, published, positions, i, j - 1);
    }
  }

  /** No hidden loss: neighbouring events with no marker between were published one right after the other. */
  lemma NeighboursAreConsecutive(stream: seq<Entry>, published: seq<ConsoleEvent>, positions: seq<int>, i: nat)
    requires Faithful(stream, published, positions) && i + 1 < |stream|
    requires stream[i].Delivery? && stream[i + 1].Delivery?
    ensures positions[i + 1] == positions[i] + 1
    ensures 0 <= positions[i] && positions[i + 1] < |published|
    ensures published[positions[i]] == stream[i].event && published[positions[i + 1]] == stream[i + 1].event
  {
    var j: nat := i + 1;
    assert Explains(stream, published, positions, i) && Explains(stream, published, positions, j);
  }

  /** Every published event is either an entry of the stream or within the reach of a marker. */
  lemma {:induction false} EveryEventAccountedFor(stream: seq<Entry>, published: seq<ConsoleEvent>,
                                                  positions: seq<int>, n: nat, k: nat)
    returns (i: nat)
    requires |positions| == |stream| && n <= |stream| && k < |published|
    requires forall i: nat :: i < |stream| ==> Explains(stream, published, positions, i)
    requires k <= Reached(positions, n)
    ensures i < n && Reached(positions, i) < k <= positions[i]
    ensures stream[i] == Delivery(published[k]) || stream[i] == ResyncRequired
  {
    i := n - 1;
    assert Explains(stream, published, positions, i);
    if k <= Reached(positions, i) {
      i := EveryEventAccountedFor(stream, published, positions, i, k);
    }
  }

  /** Without a marker nothing was lost: the stream is everything published. */
  lemma NoMarkerNoLoss(stream: seq<Entry>, published: seq<ConsoleEvent>, positions: seq<int>)
    requires Faithful(stream, published, positions) && ResyncRequired !in stream
    ensures |stream| == |published|
    ensures forall i: nat :: i < |stream| ==> stream[i] == Delivery(published[i])
  {
    forall i: nat | i < |stream|
      ensures positions[i] == i
    {
      CountedPosition(stream, published, positions, i);
    }
    forall i: nat | i < |stream|
      ensures i < |published| && stream[i] == Delivery(published[i])
    {
      var entry := stream[i];
      assert entry in stream;
      assert Explains(stream, published, positions, i);
    }
  }

  lemma {:induction false} CountedPosition(stream: seq<Entry>, published: seq<ConsoleEvent>, positions: seq<int>,
                                           i: nat)
    requires Faithful(stream, published, positions) && ResyncRequired !in stream && i < |stream|
    ensures positions[i] == i
  {
    var entry := stream[i];
    assert entry in stream;
    assert Explains(stream, published, positions, i);
    if i > 0 {
      CountedPosition(stream, published, positions, i - 1);
    }
  }

  // ---------------------------------------------------------------- the queues

  /** What a queue holds after one more event: all it held and the event, or, when it was full, one marker. */
  function Queued(maxsize: int, items: seq<Entry>, event: ConsoleEvent): seq<Entry> {
    if 0 < maxsize <= |items| then [ResyncRequired] else items + [Delivery(event)]
  }

  /** A bounded queue; a bound that is not positive means none. */
  class SubscriberQueue {
    const maxsize: int
    var items: seq<Entry>
    ghost var delivered: seq<Entry>
    ghost var published: seq<ConsoleEvent>
    ghost var positions: seq<int>

    /** What has been taken from the queue followed by what is in it. */
    ghost function Stream(): seq<Entry>
      reads this
    {
      delivered + items
    }

    ghost predicate Valid()
      reads this
    {
      Faithful(Stream(), published, positions) && (maxsize > 0 ==> |items| <= maxsize)
    }

    constructor (maxsize: int)
      ensures Valid() && this.maxsize == maxsize && items == [] && delivered == [] && published == []
    {
      this.maxsize := maxsize;
      items, delivered, published, positions := [], [], [], [];
    }

    predicate Full()
      reads this
    {
      maxsize > 0 && |items| >= maxsize
    }

    /** The subscriber takes the oldest entry. */
    method Get() returns (entry: Entry)
      requires Valid() && items != []
      modifies this`items, this`delivered
      ensures Valid() && [entry] + items == old(items) && delivered == old(delivered) + [entry]
      ensures Stream() == old(Stream())
    {
      entry := items[0];
      delivered, items := delivered + [entry], items[1..];
      assert delivered + items == old(delivered + items);
    }

    /** Queues the event, or, when the queue is full, replaces all it holds by one marker. */
    method Offer(event: ConsoleEvent)
      requires Valid()
      modifies this`items, this`published, this`positions
      ensures Valid() && published == old(published) + [event]
      ensures items == Queued(maxsize, old(items), event)
      ensures items == if 0 < maxsize <= old(|items|) then [ResyncRequired] else old(items) + [Delivery(event)]
    {
      if !Full() {
        FaithfulSnoc(Stream(), published, positions, Delivery(event), [event]);
        items, positions := items + [Delivery(event)], positions + [|published|];
        assert Stream() == old(Stream()) + [Delivery(event)];
      } else {
        FaithfulPrefix(delivered, items, published, positions);
        FaithfulSnoc(delivered, published, positions[..|delivered|], ResyncRequired, [event]);
        while items != []
          invariant published == old(published) && positions == old(positions)
        {
          items := items[1..];
        }
        items, positions := [ResyncRequired], positions[..|delivered|] + [|published|];
      }
      published := published + [event];
    }
  }

  // ---------------------------------------------------------------- the broker

  class ConsoleEventBroker {
    const maxQueueSize: int
    var subscribers: map<Uuid, set<SubscriberQueue>>

    /** No queue subscribes to two sessions, and no session is kept without a queue. */
    ghost predicate Valid()
      reads this, Queues()
    {
      && (forall q :: q in Queues() ==> q.Valid() && q.maxsize == maxQueueSize)
      && (forall s :: s in subscribers ==> subscribers[s] != {})
      && (forall s, t :: s in subscribers && t in subscribers && s != t ==> subscribers[s] !! subscribers[t])
    }

    ghost function Queues(): set<SubscriberQueue>
      reads this
    {
      set s, q | s in subscribers && q in subscribers[s] :: q
    }

    function Of(session: Uuid): set<SubscriberQueue>
      reads this
    {
      if session in subscribers then subscribers[session] else {}
    }

    constructor (maxQueueSize: int)
      ensures Valid() && this.maxQueueSize == maxQueueSize && subscribers == map[]
    {
      this.maxQueueSize := maxQueueSize;
      subscribers := map[];
    }

    method Subscribe(session: Uuid) returns (q: SubscriberQueue)
      requires Valid()
      modifies this
      ensures Valid() && fresh(q) && q.published == [] && q.Stream() == []
      ensures subscribers == old(subscribers)[session := old(Of(session)) + {q}]
    {
      q := new SubscriberQueue(maxQueueSize);
      subscribers := subscribers[session := Of(session) + {q}];
    }

    method Unsubscribe(session: Uuid, q: SubscriberQueue)
      requires Valid()
      modifies this
      ensures Valid()
      ensures Of(session) == old(Of(session)) - {q}
      ensures forall s :: s != session ==> Of(s) == old(Of(s))
    {
      if session in subscribers {
        var rest := subscribers[session] - {q};
        subscribers := if rest == {} then subscribers - {session} else subscribers[session := rest];
      }
    }

    /** Offers an event to every subscriber of its session and to no other. Publishing never fails and
        never waits, whatever the state of the queues. */
    method Publish(event: ConsoleEvent)
      requires Valid()
      modifies Of(event.session)
      ensures Valid()
      ensures forall q :: q in Of(event.session) ==>
                && q.published == old(q.published) + [event] && q.delivered == old(q.delivered)
                && q.items == Queued(q.maxsize, old(q.items), event)
    {
      var todo := Of(event.session);
      assert todo <= Queues();
      while todo != {}
        invariant todo <= Of(event.session)
        invariant forall q :: q in Queues() ==> q.Valid()
        invariant forall q :: q in todo ==> q.published == old(q.published) && q.items == old(q.items)
        invariant forall q :: q in Of(event.session) ==> q.delivered == old(q.delivered)
        invariant forall q :: q in Of(event.session) - todo ==>
                    && q.published == old(q.published) + [event]
                    && q.items == Queued(q.maxsize, old(q.items), event)
        decreases todo
      {
        var q :| q in todo;
        q.Offer(event);
        todo := todo - {q};
      }
    }
  }
}
