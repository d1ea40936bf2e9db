/**
 * The server's event loop: a state machine over the `clients` vector that greets each new
 * address with its sequential id, relays every packet payload verbatim to every client,
 * ignores timeouts, and leaves the loop on a Connect from an address it already holds.
 */
module Server {
  import opened Wrappers
  import opened Wire
  import opened Message
  import opened Transport
  import opened Protocol

  /** `Running` while the loop goes on; `Stopped` after the `break`; `Crashed` after a panic. */
  datatype Status = Running | Stopped | Crashed(cause: Panic)

  /** A packet the loop hands to the sender, by what it is for. */
  datatype Outbound =
    /** The GreetingResponse carrying `id`, sent through the protocol to `addr`. */
    | Greet(addr: SocketAddr, id: U64)
    /** A relayed payload, sent as it came to `addr`. */
    | Forward(addr: SocketAddr, payload: Bytes)

  /** The GreetingResponse frame the server sends to the client with id `id`. */
  function Handshake(id: U64): Bytes {
    Frame(1, GreetingResponse(id))
  }

  /** The packet an outbound entry puts on the channel. */
  function OnWire(o: Outbound): Packet {
    match o
    case Greet(addr, id) => Packet(addr, Handshake(id))
    case Forward(addr, payload) => Packet(addr, payload)
  }

  /** The packets of a log of outbound entries, in order. */
  function Packets(log: seq<Outbound>): (ps: seq<Packet>)
    ensures |ps| == |log|
  {
    if log == [] then [] else Packets(log[..|log| - 1]) + [OnWire(log[|log| - 1])]
  }

  /**
   * The relay between events: the connected addresses in connection order, whether the loop is
   * still running, everything handed to the sender so far, and the events not yet taken.
   */
  datatype Relay = Relay(clients: seq<SocketAddr>, status: Status, sent: seq<Outbound>, pending: seq<SocketEvent>)

  /** A relay the loop can still step: its client count fits the `usize` ids it will hand out. */
  predicate Steppable(s: Relay) {
    s.status.Running? && |s.clients| < U64_BOUND
  }

  /** One forward per client, in connection order, each carrying `payload` unchanged. */
  function Fanout(clients: seq<SocketAddr>, payload: Bytes): (out: seq<Outbound>)
    ensures |out| == |clients|
    ensures forall i :: 0 <= i < |clients| ==> out[i] == Forward(clients[i], payload)
  {
    if clients == [] then [] else Fanout(clients[..|clients| - 1], payload) + [Forward(clients[|clients| - 1], payload)]
  }

  /**
   * One turn of the loop body on event `e`. `up` says whether the sender still accepts packets.
   * Only a Connect from an unseen address adds a client, and it adds exactly that address.
   */
  function Step(s: Relay, e: SocketEvent, up: bool): (r: Relay)
    requires Steppable(s)
    ensures r.pending == s.pending
    ensures |s.clients| <= |r.clients| <= |s.clients| + 1 && r.clients[..|s.clients|] == s.clients
    ensures |s.sent| <= |r.sent| && r.sent[..|s.sent|] == s.sent
    ensures |r.clients| > |s.clients| <==> e.Connect? && e.addr !in s.clients
    ensures |r.clients| > |s.clients| ==> r.clients == s.clients + [e.addr]
    ensures |r.clients| > |s.clients| && up ==> r.sent == s.sent + [Greet(e.addr, |s.clients|)]
  {
    match e
    case Connect(addr) =>
      if addr in s.clients then s.(status := Stopped)
      else
        var id := |s.clients|;
        if up then s.(clients := s.clients + [addr], sent := s.sent + [Greet(addr, id)])
        else s.(clients := s.clients + [addr], status := Crashed(SendFailed))
    case Timeout(_) => s
    case Disconnect(_) => s
    case PacketEvent(p) =>
      if up || s.clients == [] then s.(sent := s.sent + Fanout(s.clients, p.payload))
      else s.(status := Crashed(SendFailed))
  }

  /** Take the oldest pending event and step on it. */
  function Next(s: Relay, up: bool): (r: Relay)
    requires Steppable(s) && s.pending != []
    ensures r.pending == s.pending[1..]
  {
    Step(s.(pending := s.pending[1..]), s.pending[0], up)
  }

  /** Room for one new client per pending event. */
  predicate Bounded(s: Relay) {
    |s.clients| + |s.pending| < U64_BOUND
  }

  /** The loop run until it leaves (stopped or crashed) or runs out of queued events. */
  function Run(s: Relay, up: bool): (r: Relay)
    requires Bounded(s)
    ensures Bounded(r) && |r.pending| <= |s.pending|
    ensures r.status.Running? ==> r.pending == []
    decreases |s.pending|
  {
    if s.status.Running? && s.pending != [] then Run(Next(s, up), up) else s
  }

  /** The relay `Run` starts from: no client yet, nothing sent. */
  function Start(events: seq<SocketEvent>): Relay {
    Relay([], Running, [], events)
  }

  // ---- what goes on the wire ---------------------------------------------------------------

  /**
   * The handshake reply is what `send_reliable_unordered` frames for a GreetingResponse under
   * the `register_messages` ids: discriminant 1, then the id, and nothing else.
   */
  lemma HandshakeIsStandardSend(r: Registry, id: U64)
    requires HasStandardIds(r)
    ensures r.SendBuffer(GreetingResponse(id)) == Ok(Handshake(id))
    ensures Handshake(id) == EncodeU64(1) + EncodeU64(id)
  {
    StandardSend(r, GreetingResponse(id));
  }

  /** Logging one more entry puts one more packet on the wire. */
  lemma PacketsSnoc(log: seq<Outbound>, o: Outbound)
    ensures Packets(log + [o]) == Packets(log) + [OnWire(o)]
  {
    assert (log + [o])[..|log|] == log;
  }

  /** The packets of two logs one after the other are the packets of each, one after the other. */
  lemma {:induction false} PacketsAppend(a: seq<Outbound>, b: seq<Outbound>)
    ensures Packets(a + b) == Packets(a) + Packets(b)
    decreases |b|
  {
    if b != [] {
      var init := b[..|b| - 1];
      var last := b[|b| - 1];
      assert a + b == (a + init) + [last];
      assert b == init + [last];
      PacketsSnoc(a + init, last);
      PacketsSnoc(init, last);
      PacketsAppend(a, init);
      assert (Packets(a) + Packets(init)) + [OnWire(last)] == Packets(a) + (Packets(init) + [OnWire(last)]);
    } else {
      assert a + b == a;
    }
  }

  /** What the sender holds after logging `more` on top of `log`. */
  lemma SentAfterMore(base: seq<Packet>, log: seq<Outbound>, more: seq<Outbound>)
    ensures base + Packets(log + more) == (base + Packets(log)) + Packets(more)
  {
    PacketsAppend(log, more);
  }

  /** A relayed payload reaches the wire unchanged, once per client, in connection order. */
  lemma FanoutOnWire(clients: seq<SocketAddr>, payload: Bytes)
    ensures var ps := Packets(Fanout(clients, payload));
      forall i :: 0 <= i < |clients| ==> ps[i] == Packet(clients[i], payload)
  {
    var out := Fanout(clients, payload);
    PacketsAt(out);
  }

  /** The i-th packet of a log is what its i-th entry puts on the wire. */
  lemma {:induction false} PacketsAt(log: seq<Outbound>)
    ensures forall i :: 0 <= i < |log| ==> Packets(log)[i] == OnWire(log[i])
  {
    if log != [] {
      PacketsAt(log[..|log| - 1]);
    }
  }

  // ---- one event ---------------------------------------------------------------------------

  /**
   * A Connect from an unseen address appends it with id = the previous client count and sends
   * exactly one GreetingResponse with that id to that address.
   */
  lemma ConnectFromNewAddress(s: Relay, addr: SocketAddr)
    requires Steppable(s) && addr !in s.clients
    ensures Step(s, Connect(addr), true) == s.(clients := s.clients + [addr], sent := s.sent + [Greet(addr, |s.clients|)])
  {
  }

  /** A Connect from an address already held leaves the loop: no id, no reply, clients unchanged. */
  lemma ConnectFromKnownAddressStops(s: Relay, addr: SocketAddr, up: bool)
    requires Steppable(s) && addr in s.clients
    ensures Step(s, Connect(addr), up) == s.(status := Stopped)
  {
  }

  /** A Timeout, and any event the loop does not match, change nothing and send nothing. */
  lemma TimeoutChangesNothing(s: Relay, e: SocketEvent, up: bool)
    requires Steppable(s) && (e.Timeout? || e.Disconnect?)
    ensures Step(s, e, up) == s
  {
  }

  /**
   * A packet, from a client or from anyone else, is relayed byte-for-byte to every client in
   * connection order, sender included; `clients` is unchanged, and with no clients nothing is sent.
   */
  lemma PacketIsRelayedToAll(s: Relay, p: Packet)
    requires Steppable(s)
    ensures var r := Step(s, PacketEvent(p), true);
      && r.clients == s.clients && r.status == Running && |r.sent| == |s.sent| + |s.clients|
      && forall i :: 0 <= i < |s.clients| ==> r.sent[|s.sent| + i] == Forward(s.clients[i], p.payload)
    ensures s.clients == [] ==> Step(s, PacketEvent(p), false) == s
  {
    var out := Fanout(s.clients, p.payload);
    var r := Step(s, PacketEvent(p), true);
    assert r == s.(sent := s.sent + out);
    forall i | 0 <= i < |s.clients|
      ensures r.sent[|s.sent| + i] == Forward(s.clients[i], p.payload)
    {
      assert r.sent[|s.sent| + i] == out[i];
    }
  }

  /** With the sender gone, a new client's handshake reply panics and so does a relay to anyone. */
  lemma SenderLossCrashes(s: Relay, e: SocketEvent)
    requires Steppable(s)
    requires (e.Connect? && e.addr !in s.clients) || (e.PacketEvent? && s.clients != [])
    ensures Step(s, e, false).status == Crashed(SendFailed) && Step(s, e, false).sent == s.sent
  {
  }

  // ---- whole runs --------------------------------------------------------------------------

  /** Once the loop has left, no further event is processed. */
  lemma LeftLoopIsFinal(s: Relay, up: bool)
    requires Bounded(s) && !s.status.Running?
    ensures Run(s, up) == s
  {
  }

  /** No address occurs twice. */
  predicate Distinct(clients: seq<SocketAddr>) {
    forall i, j :: 0 <= i < j < |clients| ==> clients[i] != clients[j]
  }

  /** Appending an address not yet present keeps the addresses distinct. */
  lemma AppendFreshKeepsDistinct(clients: seq<SocketAddr>, addr: SocketAddr)
    requires Distinct(clients) && addr !in clients
    ensures Distinct(clients + [addr])
  {
    forall i, j | 0 <= i < j < |clients| + 1
      ensures (clients + [addr])[i] != (clients + [addr])[j]
    {
      if j == |clients| {
        assert clients[i] in clients;
      }
    }
  }

  /** No run puts the same address into `clients` twice. */
  lemma {:induction false} RunKeepsClientsDistinct(s: Relay, up: bool)
    requires Bounded(s) && Distinct(s.clients)
    ensures Distinct(Run(s, up).clients)
    decreases |s.pending|
  {
    if s.status.Running? && s.pending != [] {
      var t := Next(s, up);
      if |t.clients| > |s.clients| {
        AppendFreshKeepsDistinct(s.clients, s.pending[0].addr);
      } else {
        assert t.clients == s.clients;
      }
      RunKeepsClientsDistinct(t, up);
    }
  }

  /** `a` is an initial segment of `b`. */
  predicate Prefix<T(==)>(a: seq<T>, b: seq<T>) {
    |a| <= |b| && b[..|a|] == a
  }

  lemma PrefixTransitive<T>(a: seq<T>, b: seq<T>, c: seq<T>)
    requires Prefix(a, b) && Prefix(b, c)
    ensures Prefix(a, c)
  {
    assert c[..|a|] == c[..|b|][..|a|];
  }

  /** Ids are never reused: a run only appends to `clients` and to what was sent. */
  lemma {:induction false} RunOnlyAppends(s: Relay, up: bool)
    requires Bounded(s)
    ensures Prefix(s.clients, Run(s, up).clients) && Prefix(s.sent, Run(s, up).sent)
    decreases |s.pending|
  {
    if s.status.Running? && s.pending != [] {
      var t := Next(s, up);
      RunOnlyAppends(t, up);
      PrefixTransitive(s.clients, t.clients, Run(t, up).clients);
      PrefixTransitive(s.sent, t.sent, Run(t, up).sent);
    }
  }

  /** Every client from index `from` on was greeted with its index as id. */
  predicate Greeted(clients: seq<SocketAddr>, from: nat, sent: seq<Outbound>) {
    forall i :: from <= i < |clients| && i < U64_BOUND ==> Greet(clients[i], i) in sent
  }

  /** Entries sent after a later point were also sent after an earlier one. */
  lemma LaterSuffixIsContained(sent: seq<Outbound>, early: nat, late: nat, o: Outbound)
    requires early <= late <= |sent| && o in sent[late..]
    ensures o in sent[early..]
  {
    var k :| 0 <= k < |sent[late..]| && sent[late..][k] == o;
    assert sent[early..][late - early + k] == o;
  }

  /**
   * With the sender up, the client at index i of `clients` (id i) was sent the GreetingResponse
   * with id i when it connected.
   */
  lemma {:induction false} RunGreetsEachNewClient(s: Relay)
    requires Bounded(s)
    ensures Prefix(s.sent, Run(s, true).sent)
    ensures Greeted(Run(s, true).clients, |s.clients|, Run(s, true).sent[|s.sent|..])
    decreases |s.pending|
  {
    RunOnlyAppends(s, true);
    if s.status.Running? && s.pending != [] {
      var t := Next(s, true);
      var r := Run(t, true);
      RunGreetsEachNewClient(t);
      RunOnlyAppends(t, true);
      forall i | |s.clients| <= i < |r.clients| && i < U64_BOUND
        ensures Greet(r.clients[i], i) in r.sent[|s.sent|..]
      {
        if i < |t.clients| {
          assert r.clients[i] == t.clients[i] == s.pending[0].addr;
          assert r.sent[|s.sent|] == t.sent[|s.sent|];
          assert r.sent[|s.sent|..][0] == Greet(r.clients[i], i);
        } else {
          LaterSuffixIsContained(r.sent, |s.sent|, |t.sent|, Greet(r.clients[i], i));
        }
      }
    }
  }

  // ---- scenarios ---------------------------------------------------------------------------

  /** Handshake: two fresh addresses connecting in turn get ids 0 and 1. */
  lemma TwoClientsHandshake(a: SocketAddr, b: SocketAddr)
    requires a != b
    ensures Run(Start([Connect(a), Connect(b)]), true) == Relay([a, b], Running, [Greet(a, 0), Greet(b, 1)], [])
  {
    var s0 := Start([Connect(a), Connect(b)]);
    var s1 := Relay([a], Running, [Greet(a, 0)], [Connect(b)]);
    var s2 := Relay([a, b], Running, [Greet(a, 0), Greet(b, 1)], []);
    assert Next(s0, true) == s1 by {
      assert s0.pending[1..] == [Connect(b)];
      ConnectFromNewAddress(s0.(pending := [Connect(b)]), a);
    }
    assert Next(s1, true) == s2 by {
      ConnectFromNewAddress(s1.(pending := []), b);
    }
    assert Run(s0, true) == Run(s1, true) == Run(s2, true) == s2;
  }

  /** Relay fan-out: a PlayerStatus packet from client A goes, unmodified, to A and to B. */
  lemma StatusRelayedToBoth(a: SocketAddr, b: SocketAddr, payload: Bytes)
    ensures var s := Relay([a, b], Running, [], [PacketEvent(Packet(a, payload))]);
      Run(s, true) == Relay([a, b], Running, [Forward(a, payload), Forward(b, payload)], [])
  {
    var s := Relay([a, b], Running, [], [PacketEvent(Packet(a, payload))]);
    var out := Fanout([a, b], payload);
    assert out == [Forward(a, payload), Forward(b, payload)];
    assert Next(s, true) == Relay([a, b], Running, out, []);
  }

  /**
   * Reconnect: a second Connect from `a` neither changes its id nor duplicates it; the loop
   * leaves there, so the Connect from `b` behind it is never taken.
   */
  lemma ReconnectLeavesLoop(a: SocketAddr, b: SocketAddr)
    ensures Run(Start([Connect(a), Connect(a), Connect(b)]), true) == Relay([a], Stopped, [Greet(a, 0)], [Connect(b)])
  {
    var s0 := Start([Connect(a), Connect(a), Connect(b)]);
    var s1 := Relay([a], Running, [Greet(a, 0)], [Connect(a), Connect(b)]);
    var s2 := Relay([a], Stopped, [Greet(a, 0)], [Connect(b)]);
    assert Next(s0, true) == s1 by {
      assert s0.pending[1..] == [Connect(a), Connect(b)];
      ConnectFromNewAddress(s0.(pending := [Connect(a), Connect(b)]), a);
    }
    assert Next(s1, true) == s2 by {
      assert s1.pending[1..] == [Connect(b)];
      ConnectFromKnownAddressStops(s1.(pending := [Connect(b)]), a, true);
    }
    assert Run(s0, true) == Run(s1, true) == Run(s2, true) == s2;
  }

  // ---- the loop ----------------------------------------------------------------------------

  /** The `for c in &clients` loop of the Packet arm: one `try_send(..).unwrap()` per client. */
  method Broadcast(sender: PacketSender, clients: seq<SocketAddr>, payload: Bytes) returns (outcome: Outcome)
    modifies sender
    ensures sender.disconnected && clients != [] ==> outcome == Panicked(SendFailed) && sender.sent == old(sender.sent)
    ensures !(sender.disconnected && clients != []) ==>
              outcome == Completed && sender.sent == old(sender.sent) + Packets(Fanout(clients, payload))
  {
    for i := 0 to |clients|
      invariant sender.sent == old(sender.sent) + Packets(Fanout(clients[..i], payload))
      invariant i > 0 ==> !sender.disconnected
    {
      var ok := sender.Send(Packet(clients[i], payload));
      if !ok {
        return Panicked(SendFailed);
      }
      assert clients[..i + 1][..i] == clients[..i];
      assert Fanout(clients[..i + 1], payload) == Fanout(clients[..i], payload) + [Forward(clients[i], payload)];
      PacketsSnoc(Fanout(clients[..i], payload), Forward(clients[i], payload));
    }
    assert clients[..|clients|] == clients;
    return Completed;
  }

  /**
   * The Connect arm for an address not yet held: push it, then send its GreetingResponse
   * through the protocol.
   */
  method Admit(protocol: SimpleProtocol, sender: PacketSender, clients: seq<SocketAddr>, addr: SocketAddr,
               ghost log: seq<Outbound>, ghost base: seq<Packet>)
    returns (clients': seq<SocketAddr>, status: Status, ghost log': seq<Outbound>)
    requires HasStandardIds(protocol.State())
    requires |clients| < U64_BOUND && sender.sent == base + Packets(log)
    modifies sender
    ensures clients' == clients + [addr]
    ensures !sender.disconnected ==> status == Running && log' == log + [Greet(addr, |clients|)]
    ensures sender.disconnected ==> status == Crashed(SendFailed) && log' == log
    ensures sender.sent == base + Packets(log')
  {
    var id := |clients|;
    clients' := clients + [addr];
    HandshakeIsStandardSend(protocol.State(), id);
    var outcome := protocol.SendReliableUnordered(sender, addr, GreetingResponse(id));
    if outcome.Panicked? {
      log' := log;
      status := Crashed(outcome.cause);
    } else {
      SentAfterMore(base, log, [Greet(addr, id)]);
      assert Packets([Greet(addr, id)]) == [OnWire(Greet(addr, id))];
      status, log' := Running, log + [Greet(addr, id)];
    }
  }

  /**
   * The body of the server loop for one received event, over the clients so far and the log
   * `log` of what was sent (ghost; `base` is what the sender held before the loop).
   */
  method HandleEvent(protocol: SimpleProtocol, sender: PacketSender, clients: seq<SocketAddr>, event: SocketEvent,
                     ghost log: seq<Outbound>, ghost base: seq<Packet>, ghost rest: seq<SocketEvent>)
    returns (clients': seq<SocketAddr>, status: Status, ghost log': seq<Outbound>)
    requires HasStandardIds(protocol.State())
    requires |clients| < U64_BOUND && sender.sent == base + Packets(log)
    modifies sender
    ensures Relay(clients', status, log', rest) == Step(Relay(clients, Running, log, rest), event, !sender.disconnected)
    ensures sender.sent == base + Packets(log')
  {
    clients', status, log' := clients, Running, log;
    match event {
      case Connect(addr) =>
        if addr in clients {
          status := Stopped;
        } else {
          clients', status, log' := Admit(protocol, sender, clients, addr, log, base);
        }
      case Timeout(_) =>
      case PacketEvent(p) =>
        var outcome := Broadcast(sender, clients, p.payload);
        if outcome.Panicked? {
          status := Crashed(outcome.cause);
        } else {
          SentAfterMore(base, log, Fanout(clients, p.payload));
          log' := log + Fanout(clients, p.payload);
        }
      case Disconnect(_) =>
    }
  }

  /**
   * The server's `while` loop over the events the socket thread queues, with the protocol
   * `register_messages` set up. It ends at the `break`, at a panic, or when no event is queued.
   */
  method EventLoop(protocol: SimpleProtocol, sender: PacketSender, receiver: EventReceiver)
    returns (clients: seq<SocketAddr>, status: Status)
    requires protocol.State() == Standard()
    requires |receiver.pending| < U64_BOUND
    modifies sender, receiver
    ensures var r := Run(Start(old(receiver.pending)), !sender.disconnected);
      && clients == r.clients && status == r.status && receiver.pending == r.pending
      && sender.sent == old(sender.sent) + Packets(r.sent)
  {
    StandardHasStandardIds();
    ghost var base := sender.sent;
    ghost var start := Start(receiver.pending);
    ghost var up := !sender.disconnected;
    ghost var log: seq<Outbound> := [];
    clients := [];
    status := Running;
    while status.Running? && receiver.pending != []
      invariant Bounded(Relay(clients, status, log, receiver.pending))
      invariant Run(Relay(clients, status, log, receiver.pending), up) == Run(start, up)
      invariant sender.sent == base + Packets(log)
      decreases |receiver.pending|
    {
      ghost var s := Relay(clients, status, log, receiver.pending);
      var event := receiver.TryRecv();
      clients, status, log := HandleEvent(protocol, sender, clients, event.value, log, base, receiver.pending);
      assert Relay(clients, status, log, receiver.pending) == Next(s, up);
    }
  }
}
