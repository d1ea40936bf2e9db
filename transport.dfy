/**
 * What the core uses of the UDP transport (laminar) and of the channels between the socket
 * thread and the application thread (crossbeam): addresses, packets, socket events, a packet
 * sender and an event receiver. Delivery itself happens outside the model.
 */
module Transport {
  import opened Wrappers
  import opened Wire

  /** A socket address; only its identity matters to the core. */
  datatype SocketAddr = SocketAddr(ip: seq<bv8>, port: bv16)

  /** A packet built with `Packet::reliable_unordered(addr, payload)`; every packet of the core has that delivery class. */
  datatype Packet = Packet(addr: SocketAddr, payload: Bytes)

  /** The socket events the core matches on; `Disconnect` stands for the arms it ignores with `_ => ()`. */
  datatype SocketEvent =
    | Connect(addr: SocketAddr)
    | Timeout(addr: SocketAddr)
    | PacketEvent(packet: Packet)
    | Disconnect(addr: SocketAddr)

  /**
   * The sending half of the packet channel. `sent` is everything accepted so far. A send fails
   * only when the receiving half (the socket thread) is gone, which does not change during a run.
   */
  class PacketSender {
    var sent: seq<Packet>
    const disconnected: bool

    constructor (disconnected: bool)
      ensures sent == [] && this.disconnected == disconnected
    {
      sent := [];
      this.disconnected := disconnected;
    }

    method Send(p: Packet) returns (ok: bool)
      modifies this
      ensures ok == !disconnected
      ensures sent == if ok then old(sent) + [p] else old(sent)
    {
      ok := !disconnected;
      if ok {
        sent := sent + [p];
      }
    }
  }

  /** The receiving half of the event channel: the events queued and not yet taken. */
  class EventReceiver {
    var pending: seq<SocketEvent>

    constructor (pending: seq<SocketEvent>)
      ensures this.pending == pending
    {
      this.pending := pending;
    }

    /** `try_recv`: the oldest queued event, or nothing when the channel is empty. */
    method TryRecv() returns (e: Option<SocketEvent>)
      modifies this
      ensures old(pending) == [] ==> e == None && pending == []
      ensures old(pending) != [] ==> e == Some(old(pending)[0]) && pending == old(pending)[1..]
    {
      if pending == [] {
        e := None;
      } else {
        e := Some(pending[0]);
        pending := pending[1..];
      }
    }
  }
}
