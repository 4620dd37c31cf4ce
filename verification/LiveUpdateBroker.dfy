/** The broker with its subscribers' queues, and the client's event handlers. */
module LiveUpdateBroker {
  import opened Options
  import opened LiveUpdates
  import opened LiveInvalidations

  class Queue {
    var items: seq<Envelope>

    constructor ()
      ensures items == []
    {
      items := [];
    }

    method GetNowait() returns (e: Envelope)
      requires items != []
      modifies this
      ensures old(items) == [e] + items
    {
      e := items[0];
      items := items[1..];
    }

    method PutNowait(e: Envelope)
      modifies this
      ensures items == old(items) + [e]
    {
      items := items + [e];
    }
  }

  class Broker {
    const queueSize: nat
    var subscribers: set<Queue>

    constructor (queueSize: nat)
      ensures this.queueSize == queueSize && subscribers == {}
    {
      this.queueSize := queueSize;
      subscribers := {};
    }

    /** Puts the envelope into every subscriber's queue, dropping the oldest where the
        queue is full, and leaves every other queue alone. */
    method Enqueue(e: Envelope)
      requires queueSize >= 1
      modifies subscribers
      ensures forall q :: q in subscribers ==> q.items == Pushed(old(q.items), queueSize, e)
    {
      var todo := subscribers;
      while todo != {}
        invariant todo <= subscribers
        invariant forall q :: q in subscribers - todo ==> q.items == Pushed(old(q.items), queueSize, e)
        invariant forall q :: q in todo ==> q.items == old(q.items)
        decreases todo
      {
        var q :| q in todo;
        if |q.items| >= queueSize {
          var _ := q.GetNowait();
        }
        q.PutNowait(e);
        todo := todo - {q};
      }
    }

    method Subscribe() returns (q: Queue)
      modifies this
      ensures fresh(q) && q.items == [] && subscribers == old(subscribers) + {q}
    {
      q := new Queue();
      subscribers := subscribers + {q};
    }

    method Unsubscribe(q: Queue)
      modifies this
      ensures subscribers == old(subscribers) - {q}
    {
      subscribers := subscribers - {q};
    }
  }

  /** The client's variables, and the invalidations it has emitted. */
  class Subscription {
    var lastSequence: nat
    var reconnectAttempt: nat
    var closed: bool
    var emitted: seq<Invalidation>

    constructor ()
      ensures lastSequence == 0 && reconnectAttempt == 0 && !closed && emitted == []
    {
      lastSequence, reconnectAttempt, closed, emitted := 0, 0, false, [];
    }

    method OnOpen()
      modifies this
      ensures reconnectAttempt == 0 && lastSequence == old(lastSequence) && closed == old(closed)
      ensures emitted == old(emitted) + if lastSequence > 0 then [Invalidation(All, "")] else []
      ensures emitted == old(emitted) + Reaction(old(lastSequence), Connected)
    {
      reconnectAttempt := 0;
      if lastSequence > 0 {
        emitted := emitted + [Invalidation(All, "")];
      }
    }

    /** A message that is no envelope invalidates everything; an envelope that leaves a gap
        does so before its own resource. */
    method OnMessage(message: Option<Envelope>)
      modifies this
      ensures reconnectAttempt == old(reconnectAttempt) && closed == old(closed)
      ensures message.None? ==> lastSequence == old(lastSequence) && emitted == old(emitted) + [Invalidation(All, "")]
      ensures message.Some? ==>
        var e := message.value;
        && lastSequence == e.sequence
        && emitted == old(emitted)
             + (if Gap(old(lastSequence), e.sequence) then [Invalidation(All, e.payload)] else [])
             + [Invalidation(ResourceOf(e.eventType), e.payload)]
      ensures emitted == old(emitted) + Reaction(old(lastSequence), Heard(message))
      ensures lastSequence == SeenAfter(old(lastSequence), Heard(message))
    {
      if message.None? {
        emitted := emitted + [Invalidation(All, "")];
        return;
      }
      var e := message.value;
      if lastSequence > 0 && e.sequence != lastSequence + 1 {
        emitted := emitted + [Invalidation(All, e.payload)];
      }
      lastSequence := e.sequence;
      emitted := emitted + [Invalidation(ResourceOf(e.eventType), e.payload)];
    }

    /** A lost connection is tried again, unless the client closed it. */
    method OnClose() returns (retry: bool)
      modifies this
      ensures retry == !closed && closed == old(closed)
      ensures reconnectAttempt == old(reconnectAttempt) + (if closed then 0 else 1)
      ensures lastSequence == old(lastSequence) && emitted == old(emitted)
    {
      retry := !closed;
      if retry {
        reconnectAttempt := reconnectAttempt + 1;
      }
    }

    method Close()
      modifies this
      ensures closed && lastSequence == old(lastSequence) && emitted == old(emitted)
      ensures reconnectAttempt == old(reconnectAttempt)
    {
      closed := true;
    }
  }
}
