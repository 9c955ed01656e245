/**
 The three branches of the hub's event loop
 (apps/leaderboard/internal/hub/hub.go:49-82) over client channels.
 LeaderboardProtocol.dfy runs them among the other goroutines.
 */
module Hubs {
  import opened Boards

  const SEND_CAPACITY := 256

  /** The queue after offering a message, and whether it was full. */
  function Offer(queue: seq<Row>, m: Row): seq<Row> {
    if |queue| < SEND_CAPACITY then queue + [m] else queue
  }

  predicate Full(queue: seq<Row>) {
    |queue| >= SEND_CAPACITY
  }

  class Client {
    var send: seq<Row>
    var closed: bool

    constructor ()
      ensures send == [] && !closed
    {
      send, closed := [], false;
    }
  }

  class Hub {
    var clients: set<Client>

    /** A send on a closed channel would panic, and so would closing it again. */
    ghost predicate Valid()
      reads this, clients
    {
      forall c :: c in clients ==> !c.closed && |c.send| <= SEND_CAPACITY
    }

    constructor ()
      ensures Valid() && clients == {}
    {
      clients := {};
    }

    method Register(c: Client)
      requires Valid() && !c.closed && |c.send| <= SEND_CAPACITY
      modifies this
      ensures Valid() && clients == old(clients) + {c}
    {
      clients := clients + {c};
    }

    /** Closes the channel only on the first unregistration. */
    method Unregister(c: Client)
      requires Valid()
      modifies this, c
      ensures Valid() && clients == old(clients) - {c}
      ensures c.send == old(c.send)
      ensures c.closed == (old(c.closed) || c in old(clients))
    {
      if c in clients {
        clients := clients - {c};
        c.closed := true;
      }
    }

    /** Offers the message to every client; the full ones are to be unregistered. */
    method Broadcast(m: Row) returns (slow: set<Client>)
      requires Valid()
      modifies clients
      ensures Valid() && clients == old(clients)
      ensures forall c :: c in clients ==> c.send == if |old(c.send)| < 256 then old(c.send) + [m] else old(c.send)
      ensures slow == set c | c in clients && |old(c.send)| >= 256
    {
      slow := {};
      var todo := clients;
      while todo != {}
        invariant todo <= clients && clients == old(clients)
        invariant forall c :: c in todo ==> c.send == old(c.send)
        invariant forall c :: c in clients && c !in todo ==> c.send == Offer(old(c.send), m)
        invariant forall c :: c in clients ==> !c.closed && |c.send| <= SEND_CAPACITY
        invariant slow == set c | c in clients && c !in todo && Full(old(c.send))
        decreases todo
      {
        var c :| c in todo;
        if |c.send| < SEND_CAPACITY {
          c.send := c.send + [m];
        } else {
          slow := slow + {c};
        }
        todo := todo - {c};
      }
    }
  }
}
