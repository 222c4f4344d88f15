/** Long polling: the server side collects writes until a poll drains them, the client side pushes what a poll returned
    into a bounded queue. */
module LongPolling {
  import opened Common

  type Message = nat

  const CLIENT_QUEUE := 100

  datatype PollResult = Gone | Drained(messages: seq<Message>)

  datatype SendResult = SessionClosed | BadRequest | Queued | QueueFull

  function Concat(batches: seq<seq<Message>>): seq<Message> {
    if batches == [] then [] else Concat(batches[..|batches| - 1]) + batches[|batches| - 1]
  }

  class LongPollingServerTransport {
    var pendingMessages: seq<Message>
    var incomingMessages: seq<Message>
    const bufferSize: nat
    var lastActivity: int
    var closed: bool
    const disconnectTimeout: int
    /** Every write accepted, every batch a poll took, and every message the client side handed in and the server
        read. */
    ghost var accepted: seq<Message>
    ghost var drained: seq<seq<Message>>
    ghost var received: seq<Message>
    ghost var read: seq<Message>

    /** Exactly once and in order, in both directions. */
    ghost predicate Valid()
      reads this
    {
      && Concat(drained) + pendingMessages == accepted
      && read + incomingMessages == received && |incomingMessages| <= bufferSize
    }

    constructor (bufferSize: nat, disconnectTimeout: int, now: int)
      ensures Valid() && !closed && accepted == [] && drained == [] && lastActivity == now
      ensures this.bufferSize == bufferSize && this.disconnectTimeout == disconnectTimeout
    {
      this.bufferSize, this.disconnectTimeout := bufferSize, disconnectTimeout;
      pendingMessages, incomingMessages, lastActivity, closed := [], [], now, false;
      accepted, drained, received, read := [], [], [], [];
    }

    method Write(m: Message)
      requires Valid()
      modifies this`pendingMessages, this`accepted
      ensures Valid()
      ensures accepted == if closed then old(accepted) else old(accepted) + [m]
    {
      if closed {
        return;
      }
      pendingMessages := pendingMessages + [m];
      accepted := accepted + [m];
    }

    method HandlePoll(now: int) returns (r: PollResult)
      requires Valid()
      modifies this`pendingMessages, this`drained, this`lastActivity
      ensures Valid()
      ensures closed ==> r == Gone && drained == old(drained) && lastActivity == old(lastActivity)
      ensures !closed ==> r.Drained? && drained == old(drained) + [r.messages] && lastActivity == now
                          && pendingMessages == [] && Concat(drained) == accepted
    {
      if closed {
        return Gone;
      }
      lastActivity := now;
      r := Drained(pendingMessages);
      drained := drained + [pendingMessages];
      pendingMessages := [];
    }

    /** `body` is None when the request body cannot be read. The session may be closed between its two sections. */
    method HandleSend(body: Option<Message>, now: int) returns (r: SendResult)
      requires Valid()
      modifies this`incomingMessages, this`received, this`lastActivity
      ensures Valid()
      ensures r == if closed then SessionClosed else if body == None then BadRequest
                   else if |old(incomingMessages)| < bufferSize then Queued else QueueFull
      ensures received == if r == Queued then old(received) + [body.value] else old(received)
      ensures lastActivity == if closed then old(lastActivity) else now
    {
      if closed {
        return SessionClosed;
      }
      lastActivity := now;
      if body == None {
        return BadRequest;
      }
      if |incomingMessages| < bufferSize {
        incomingMessages := incomingMessages + [body.value];
        received := received + [body.value];
        r := Queued;
      } else {
        r := QueueFull;
      }
    }

    method Read() returns (m: Message)
      requires Valid() && incomingMessages != []
      modifies this`incomingMessages, this`read
      ensures Valid() && read == old(read) + [m]
    {
      m := incomingMessages[0];
      incomingMessages := incomingMessages[1..];
      read := read + [m];
    }

    method Close()
      requires Valid()
      modifies this`closed
      ensures Valid() && closed
    {
      closed := true;
    }

    /** A closed session counts as expired; an open one expires only after a quiet time longer than the timeout. */
    method IsExpired(now: int) returns (expired: bool)
      ensures expired <==> closed || now - lastActivity > disconnectTimeout
    {
      if closed {
        return true;
      }
      expired := now - lastActivity > disconnectTimeout;
    }
  }

  class LongPollingTransport {
    var incomingQueue: seq<Message>

    constructor ()
      ensures incomingQueue == []
    {
      incomingQueue := [];
    }

    /** The poll loop hands over one response; what does not fit is dropped. With no Receive in between, that is the
        tail. */
    method DeliverResponse(messages: seq<Message>)
      requires |incomingQueue| <= CLIENT_QUEUE
      modifies this
      ensures |incomingQueue| <= CLIENT_QUEUE
      ensures var room := CLIENT_QUEUE - |old(incomingQueue)|;
        incomingQueue == old(incomingQueue) + messages[..if |messages| < room then |messages| else room]
    {
      var room := CLIENT_QUEUE - |incomingQueue|;
      for i := 0 to |messages|
        invariant incomingQueue == old(incomingQueue) + messages[..if i < room then i else room]
      {
        if |incomingQueue| < CLIENT_QUEUE {
          incomingQueue := incomingQueue + [messages[i]];
        }
      }
    }
  }
}
