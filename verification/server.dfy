/** The relay (cmd/server/server.go) as a sequential state machine. The
    registry `connections`, the message queue, the writes made to sockets
    (the outbox) and the set of closed sockets are the fields of `Server`;
    each iteration of the source's loops is one atomic method. The decisions
    those iterations take are the pure functions before the class. */
module Server {
  import opened Common
  import opened Handshake

  /** Capacity of the buffered channel that carries the message queue. */
  const QUEUE_CAPACITY: nat := 256

  /** A registered client: its name and its socket. */
  datatype Connection = Connection(username: Bytes, id: ConnId)

  /** One message encoded onto one socket. */
  datatype Write = Write(dest: ConnId, msg: Message)

  /** The envelope built by `send_error`: no recipient, no sender, the text
      as content and the error flag set. */
  function ErrorEnvelope(text: Bytes): (m: Message)
    ensures m.Error && m.To == [] && m.From == [] && m.Content == text
  {
    Message([], [], text, true)
  }

  /** The ASCII bytes of "Username is taken\n". */
  const TAKEN_TEXT: Bytes := [85, 115, 101, 114, 110, 97, 109, 101, 32, 105, 115, 32, 116, 97, 107, 101, 110, 10]

  const QUOTE: Byte := 39  // '\''

  /** The ASCII bytes of "' is not connected\n". */
  const NOT_CONNECTED_SUFFIX: Bytes :=
    [39, 32, 105, 115, 32, 110, 111, 116, 32, 99, 111, 110, 110, 101, 99, 116, 101, 100, 10]

  /** The error text sent back when a recipient is not connected:
      `'<to>' is not connected` and a newline. */
  function NotConnectedText(to: Bytes): (t: Bytes)
    ensures |t| == |to| + 20
    ensures t[0] == QUOTE && t[1..1 + |to|] == to
    ensures t[1 + |to|..] == NOT_CONNECTED_SUFFIX
  {
    [QUOTE] + to + NOT_CONNECTED_SUFFIX
  }

  /** Distinct unreachable recipients give distinct error texts, so the
      sender can always tell which recipient the error is about. */
  lemma NotConnectedTextNamesRecipient(a: Bytes, b: Bytes)
    ensures NotConnectedText(a) == NotConnectedText(b) <==> a == b
  {
  }

  // ---------------------------------------------------------------------
  // Admission: receive_connection followed by one iteration of
  // listen_for_connections.

  datatype Admission =
    | Refused              // handshake failed: socket closed, nothing written
    | Taken(name: Bytes)   // name already registered: error written, socket closed
    | Registered(name: Bytes)

  /** The admission decision for a new socket whose peer sent `stream`. */
  function AdmissionOf(connections: map<Bytes, ConnId>, stream: Bytes): (a: Admission)
    ensures a.Refused? <==> !ParseHandshake(stream).Accepted?
    ensures !a.Refused? ==> a.name == ParseHandshake(stream).name
    ensures !a.Refused? ==> |a.name| <= MAX_USERNAME_LENGTH
    ensures a.Taken? <==> ParseHandshake(stream).Accepted? && ParseHandshake(stream).name in connections
  {
    match ParseHandshake(stream)
    case Accepted(name, _) => if name in connections then Taken(name) else Registered(name)
    case _ => Refused
  }

  /** Right after a name is registered, a handshake for the same name is
      answered as taken. */
  lemma NameStaysTaken(connections: map<Bytes, ConnId>, id: ConnId, first: Bytes, second: Bytes)
    requires AdmissionOf(connections, first).Registered?
    requires ParseHandshake(second).Accepted?
    requires ParseHandshake(second).name == AdmissionOf(connections, first).name
    ensures AdmissionOf(connections[AdmissionOf(connections, first).name := id], second)
            == Taken(AdmissionOf(connections, first).name)
  {
  }

  /** Names of 32 bytes are admitted, names of 33 bytes are refused. */
  lemma NameLengthBoundary(connections: map<Bytes, ConnId>, name: Bytes, tail: Bytes)
    requires name !in connections
    ensures |name| == MAX_USERNAME_LENGTH ==>
      AdmissionOf(connections, Frame(name) + tail) == Registered(name)
    ensures |name| == MAX_USERNAME_LENGTH + 1 ==>
      AdmissionOf(connections, Frame(name) + tail) == Refused
  {
  }

  // ---------------------------------------------------------------------
  // Inbound: one iteration of the loop of receive_messages.

  datatype Inbound = Enqueue(msg: Message) | Disconnect

  /** What the pipeline of `username` does with the next decoded message
      (`None` is a decode failure or the peer closing the stream). The
      server uses the intended size check, `WithinLimits`. */
  function InboundStep(username: Bytes, decoded: Option<Message>): (r: Inbound)
    ensures r.Enqueue? <==> decoded.Some? && WithinLimits(decoded.value)
    ensures r.Enqueue? ==> WithinLimits(r.msg) && r.msg.From == username
    ensures r.Enqueue? ==>
      r.msg.To == decoded.value.To && r.msg.Content == decoded.value.Content
      && r.msg.Error == decoded.value.Error
  {
    match decoded
    case None => Disconnect
    case Some(m) => if WithinLimits(m) then Enqueue(m.(From := username)) else Disconnect
  }

  /** The size check as written: `uint16(len(...))` keeps only the low 16
      bits of each length before comparing it with the limit. It never
      rejects a message within the limits. */
  predicate AcceptsAsWritten(m: Message): (ok: bool)
    ensures WithinLimits(m) ==> ok
  {
    |m.To| % 65536 <= MAX_USERNAME_LENGTH && |m.Content| % 65536 <= MAX_MESSAGE_LENGTH
  }

  /** Below 65536 bytes the as-written check and the intended one agree. */
  lemma AsWrittenAgreesBelowWrap(m: Message)
    requires |m.To| < 65536 && |m.Content| < 65536
    ensures AcceptsAsWritten(m) <==> WithinLimits(m)
  {
  }

  /** The pipeline step as written, with the truncating size check. */
  function InboundStepAsWritten(username: Bytes, decoded: Option<Message>): (r: Inbound)
    ensures r.Enqueue? <==> decoded.Some? && AcceptsAsWritten(decoded.value)
    ensures r.Enqueue? ==> r.msg == decoded.value.(From := username)
  {
    match decoded
    case None => Disconnect
    case Some(m) => if AcceptsAsWritten(m) then Enqueue(m.(From := username)) else Disconnect
  }

  /** The step as written departs from the intended one exactly on the
      messages that pass the truncating check with a length of 65536 bytes
      or more; there it queues a message that breaks the limits. */
  lemma AsWrittenDiffersIffWrapped(username: Bytes, m: Message)
    ensures InboundStepAsWritten(username, Some(m)) != InboundStep(username, Some(m))
            <==> AcceptsAsWritten(m) && (|m.To| >= 65536 || |m.Content| >= 65536)
    ensures InboundStepAsWritten(username, Some(m)) != InboundStep(username, Some(m)) ==>
            InboundStepAsWritten(username, Some(m)).Enqueue? && !WithinLimits(m)
  {
  }

  /** A recipient name of 65536 bytes is queued by the step as written,
      where the intended step ends the pipeline. */
  lemma WrappedRecipientWitness(username: Bytes)
    ensures exists m :: InboundStepAsWritten(username, Some(m)).Enqueue? && InboundStep(username, Some(m)) == Disconnect
  {
    var m := Message(seq(65536, _ => 0), [], [], false);
    assert |m.To| % 65536 == 0;
    assert InboundStepAsWritten(username, Some(m)).Enqueue? && InboundStep(username, Some(m)) == Disconnect;
  }

  /** Whatever a client puts in `From`, the queued message is the same: the
      sender cannot be spoofed. */
  lemma SenderCannotBeSpoofed(username: Bytes, m1: Message, m2: Message)
    requires m1.To == m2.To && m1.Content == m2.Content && m1.Error == m2.Error
    ensures InboundStep(username, Some(m1)) == InboundStep(username, Some(m2))
  {
  }

  /** Bodies of 2048 bytes are queued, bodies of 2049 bytes end the pipeline. */
  lemma ContentLengthBoundary(username: Bytes, m: Message)
    requires |m.To| <= MAX_USERNAME_LENGTH
    ensures |m.Content| == MAX_MESSAGE_LENGTH ==> InboundStep(username, Some(m)).Enqueue?
    ensures |m.Content| == MAX_MESSAGE_LENGTH + 1 ==> InboundStep(username, Some(m)) == Disconnect
  {
  }

  // ---------------------------------------------------------------------
  // Routing: one iteration of process_message_queue.

  datatype Route =
    | Deliver(dest: ConnId, msg: Message)   // the message, verbatim, to the recipient
    | Bounce(dest: ConnId, msg: Message)    // an error envelope back to the sender
    | Drop                                  // neither is registered: nothing written

  /** The routing decision for the message at the head of the queue. */
  function RouteOf(connections: map<Bytes, ConnId>, msg: Message): (r: Route)
    ensures r.Deliver? <==> msg.To in connections
    ensures r.Deliver? ==> r.dest == connections[msg.To] && r.msg == msg
    ensures r.Bounce? <==> msg.To !in connections && msg.From in connections
    ensures r.Bounce? ==>
      r.dest == connections[msg.From] && r.msg == ErrorEnvelope(NotConnectedText(msg.To))
    ensures r.Drop? <==> msg.To !in connections && msg.From !in connections
  {
    if msg.To in connections then Deliver(connections[msg.To], msg)
    else if msg.From in connections then Bounce(connections[msg.From], ErrorEnvelope(NotConnectedText(msg.To)))
    else Drop
  }

  /** The writes a route makes: a delivery or a bounce encodes its message
      once onto its socket, a drop writes nothing. */
  function RouteWrites(r: Route): (ws: seq<Write>)
    ensures |ws| == if r.Drop? then 0 else 1
    ensures !r.Drop? ==> ws[0].dest == r.dest && ws[0].msg == r.msg
  {
    match r
    case Deliver(d, m) => [Write(d, m)]
    case Bounce(d, m) => [Write(d, m)]
    case Drop => []
  }

  /** From the client's message to the recipient's socket: what arrives is the
      client's recipient, body and error flag with the sender's registered
      name, and nothing is bounced. */
  lemma RelayEndToEnd(connections: map<Bytes, ConnId>, username: Bytes, m: Message)
    requires WithinLimits(m) && m.To in connections
    ensures InboundStep(username, Some(m)).Enqueue?
    ensures RouteWrites(RouteOf(connections, InboundStep(username, Some(m)).msg))
            == [Write(connections[m.To], Message(m.To, username, m.Content, m.Error))]
  {
  }

  // ---------------------------------------------------------------------
  // The invariants of the server state and the steps that keep them.

  /** The registry refers only to accepted sockets, a registered socket is
      open, and a socket is registered under at most one name. */
  ghost predicate RegistryOk(connections: map<Bytes, ConnId>, closed: set<ConnId>, seen: set<ConnId>)
  {
    && connections.Values <= seen
    && closed <= seen
    && (forall n | n in connections :: connections[n] !in closed)
    && (forall n1, n2 | n1 in connections && n2 in connections && n1 != n2 ::
          connections[n1] != connections[n2])
  }

  /** Only messages within the limits are queued, and the channel is bounded. */
  ghost predicate QueueOk(queue: seq<Message>)
  {
    (forall i | 0 <= i < |queue| :: WithinLimits(queue[i])) && |queue| <= QUEUE_CAPACITY
  }

  /** Registering a fresh socket under a free name keeps the registry sound. */
  lemma RegisterKeepsRegistryOk(connections: map<Bytes, ConnId>, closed: set<ConnId>, seen: set<ConnId>,
                                name: Bytes, id: ConnId)
    requires RegistryOk(connections, closed, seen)
    requires id !in seen && name !in connections
    ensures RegistryOk(connections[name := id], closed, seen + {id})
  {
  }

  /** Closing a fresh, never registered socket keeps the registry sound. */
  lemma CloseFreshKeepsRegistryOk(connections: map<Bytes, ConnId>, closed: set<ConnId>, seen: set<ConnId>,
                                  id: ConnId)
    requires RegistryOk(connections, closed, seen)
    requires id !in seen
    ensures RegistryOk(connections, closed + {id}, seen + {id})
  {
  }

  /** Closing a registered socket and deleting its name keeps the registry
      sound: no other name refers to that socket. */
  lemma UnregisterKeepsRegistryOk(connections: map<Bytes, ConnId>, closed: set<ConnId>, seen: set<ConnId>,
                                  name: Bytes)
    requires RegistryOk(connections, closed, seen)
    requires name in connections
    ensures RegistryOk(connections - {name}, closed + {connections[name]}, seen)
  {
  }

  /** Queueing a message within the limits into a channel with room keeps
      the queue sound. */
  lemma EnqueueKeepsQueueOk(queue: seq<Message>, m: Message)
    requires QueueOk(queue) && WithinLimits(m) && |queue| < QUEUE_CAPACITY
    ensures QueueOk(queue + [m])
  {
  }

  /** Taking the oldest message keeps the queue sound. */
  lemma DequeueKeepsQueueOk(queue: seq<Message>)
    requires QueueOk(queue) && queue != []
    ensures QueueOk(queue[1..])
  {
  }

  // ---------------------------------------------------------------------
  // The server state.

  class Server {
    var connections: map<Bytes, ConnId>
    var queue: seq<Message>
    var outbox: seq<Write>
    var closed: set<ConnId>
    /** Every socket the server has accepted so far. */
    ghost var seen: set<ConnId>

    ghost predicate Valid()
      reads this
    {
      RegistryOk(connections, closed, seen) && QueueOk(queue)
    }

    constructor ()
      ensures Valid()
      ensures connections == map[] && queue == [] && outbox == [] && closed == {} && seen == {}
    {
      connections, queue, outbox, closed := map[], [], [], {};
      seen := {};
    }

    /** A new socket `id` whose peer sent `stream`: refuse it, turn it away
        with one "Username is taken" error, or register it. On success the
        pipeline to start for it is returned. */
    method AcceptConnection(id: ConnId, stream: Bytes) returns (pipeline: Option<Connection>)
      requires Valid() && id !in seen
      modifies this
      ensures Valid() && seen == old(seen) + {id} && queue == old(queue)
      ensures match AdmissionOf(old(connections), stream)
        case Refused =>
          && pipeline == None && connections == old(connections)
          && outbox == old(outbox) && closed == old(closed) + {id}
        case Taken(_) =>
          && pipeline == None && connections == old(connections)
          && outbox == old(outbox) + [Write(id, ErrorEnvelope(TAKEN_TEXT))]
          && closed == old(closed) + {id}
        case Registered(name) =>
          && pipeline == Some(Connection(name, id)) && connections == old(connections)[name := id]
          && outbox == old(outbox) && closed == old(closed)
    {
      var h := ParseHandshake(stream);
      if !h.Accepted? {
        CloseFreshKeepsRegistryOk(connections, closed, seen, id);
        closed, seen := closed + {id}, seen + {id};
        pipeline := None;
        return;
      }
      if h.name in connections {
        CloseFreshKeepsRegistryOk(connections, closed, seen, id);
        outbox := outbox + [Write(id, ErrorEnvelope(TAKEN_TEXT))];
        closed, seen := closed + {id}, seen + {id};
        pipeline := None;
        return;
      }
      RegisterKeepsRegistryOk(connections, closed, seen, h.name, id);
      connections, seen := connections[h.name := id], seen + {id};
      pipeline := Some(Connection(h.name, id));
    }

    /** One iteration of the pipeline of `conn`, which holds its registered
        name. Queues the stamped message, or closes the socket and
        unregisters the name; `running` says whether the loop goes on. */
    method ReceiveMessage(conn: Connection, decoded: Option<Message>) returns (running: bool)
      requires Valid()
      requires conn.username in connections && connections[conn.username] == conn.id
      requires InboundStep(conn.username, decoded).Enqueue? ==> |queue| < QUEUE_CAPACITY
      modifies this
      ensures Valid() && seen == old(seen) && outbox == old(outbox)
      ensures running == InboundStep(conn.username, decoded).Enqueue?
      ensures running ==>
        && queue == old(queue) + [InboundStep(conn.username, decoded).msg]
        && connections == old(connections) && closed == old(closed)
      ensures !running ==>
        && queue == old(queue) && connections == old(connections) - {conn.username}
        && closed == old(closed) + {conn.id}
    {
      if decoded.None? {
        running := false;
      } else {
        var msg := decoded.value;
        running := |msg.To| <= MAX_USERNAME_LENGTH && |msg.Content| <= MAX_MESSAGE_LENGTH;
        if running {
          msg := msg.(From := conn.username);
          EnqueueKeepsQueueOk(queue, msg);
          queue := queue + [msg];
          return;
        }
      }
      UnregisterKeepsRegistryOk(connections, closed, seen, conn.username);
      closed := closed + {conn.id};
      connections := connections - {conn.username};
    }

    /** One iteration of the router: take the oldest queued message and
        deliver, bounce or drop it. With an empty queue nothing happens (the
        source blocks). The registry is never changed, and every write goes
        to an open socket. */
    method RouteNext() returns (route: Option<Route>)
      requires Valid()
      modifies this
      ensures Valid() && seen == old(seen)
      ensures connections == old(connections) && closed == old(closed)
      ensures old(queue) == [] ==> route == None && queue == [] && outbox == old(outbox)
      ensures old(queue) != [] ==>
        && route == Some(RouteOf(old(connections), old(queue)[0]))
        && queue == old(queue)[1..]
        && outbox == old(outbox) + RouteWrites(route.value)
      ensures forall i | |old(outbox)| <= i < |outbox| :: outbox[i].dest !in closed
    {
      if queue == [] {
        route := None;
        return;
      }
      var msg := queue[0];
      DequeueKeepsQueueOk(queue);
      queue := queue[1..];
      var writes: seq<Write>;
      if msg.To in connections {
        route := Some(Deliver(connections[msg.To], msg));
        writes := [Write(connections[msg.To], msg)];
      } else if msg.From in connections {
        var err := ErrorEnvelope(NotConnectedText(msg.To));
        route := Some(Bounce(connections[msg.From], err));
        writes := [Write(connections[msg.From], err)];
      } else {
        route := Some(Drop);
        writes := [];
      }
      assert route.value == RouteOf(connections, msg) && writes == RouteWrites(route.value);
      assert forall w | w in writes :: w.dest !in closed by {
        assert RegistryOk(connections, closed, seen);
      }
      outbox := outbox + writes;
    }
  }

  // ---------------------------------------------------------------------
  // The four relay scenarios, driven through the class's contracts.

  /** alice and bob connect; alice's message to bob reaches bob's socket
      with alice as sender. */
  method DirectMessageScenario()
  {
    var alice: Bytes, bob: Bytes := [97, 108, 105, 99, 101], [98, 111, 98];  // "alice", "bob"
    var hi: Bytes := [104, 105];  // "hi"
    var s := new Server();
    HandshakeRoundTrip(alice, []);
    HandshakeRoundTrip(bob, []);
    assert Frame(alice) + [] == Frame(alice) && Frame(bob) + [] == Frame(bob);
    var pa := s.AcceptConnection(1, Frame(alice));
    assert alice != bob by { assert |alice| != |bob|; }
    var pb := s.AcceptConnection(2, Frame(bob));
    var running := s.ReceiveMessage(Connection(alice, 1), Some(Message(bob, [], hi, false)));
    assert running;
    var r := s.RouteNext();
    assert s.outbox == [Write(2, Message(bob, alice, hi, false))];
  }

  /** A second client asking for a registered name gets one error envelope
      and a closed socket; the first holder keeps the name. */
  method DuplicateNameScenario()
  {
    var alice: Bytes := [97, 108, 105, 99, 101];  // "alice"
    var s := new Server();
    HandshakeRoundTrip(alice, []);
    assert Frame(alice) + [] == Frame(alice);
    var pa := s.AcceptConnection(1, Frame(alice));
    var pb := s.AcceptConnection(2, Frame(alice));
    assert pb == None && 2 in s.closed;
    assert s.connections == map[alice := 1];
    assert s.outbox == [Write(2, ErrorEnvelope(TAKEN_TEXT))];
  }

  /** alice writes to bob and both leave before routing: the message is
      dropped and nothing is written. */
  method BothGoneScenario()
  {
    var alice: Bytes, bob: Bytes := [97, 108, 105, 99, 101], [98, 111, 98];  // "alice", "bob"
    var hi: Bytes := [104, 105];  // "hi"
    var s := new Server();
    HandshakeRoundTrip(alice, []);
    HandshakeRoundTrip(bob, []);
    assert Frame(alice) + [] == Frame(alice) && Frame(bob) + [] == Frame(bob);
    var pa := s.AcceptConnection(1, Frame(alice));
    assert alice != bob by { assert |alice| != |bob|; }
    var pb := s.AcceptConnection(2, Frame(bob));
    var running := s.ReceiveMessage(Connection(alice, 1), Some(Message(bob, [], hi, false)));
    running := s.ReceiveMessage(Connection(alice, 1), None);
    running := s.ReceiveMessage(Connection(bob, 2), None);
    var r := s.RouteNext();
    assert r == Some(Drop) && s.outbox == [] && s.queue == [];
  }

  /** alice writes to bob, who never connected: alice gets one error
      envelope naming bob, and the message is not delivered anywhere. */
  method BounceScenario()
  {
    var alice: Bytes, bob: Bytes := [97, 108, 105, 99, 101], [98, 111, 98];  // "alice", "bob"
    var hi: Bytes := [104, 105];  // "hi"
    var s := new Server();
    HandshakeRoundTrip(alice, []);
    assert Frame(alice) + [] == Frame(alice);
    var pa := s.AcceptConnection(1, Frame(alice));
    var running := s.ReceiveMessage(Connection(alice, 1), Some(Message(bob, [], hi, false)));
    var r := s.RouteNext();
    assert s.outbox == [Write(1, ErrorEnvelope(NotConnectedText(bob)))];
  }
}
