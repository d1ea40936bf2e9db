/**
 * `SimpleProtocol`: a registry that gives each message kind the next discriminant, keeps one
 * decoder per discriminant, frames outgoing values as `[discriminant][payload]` and turns an
 * incoming frame back into one dispatched value. The bottles `Dispatcher` the decoders hand
 * their values to is modelled by an append-only log of `(kind, value)` pairs.
 */
module Protocol {
  import opened Wrappers
  import opened Wire
  import opened Message
  import opened Transport

  /** Why a call panics: each is an `unwrap` or an out-of-bounds index in the source. */
  datatype Panic =
    | Unregistered(kind: Kind)
    | SendFailed
    | Truncated
    | UnknownDiscriminant(discriminant: U64)
    | DecodeFailed(kind: Kind, error: DecodeError)

  datatype Outcome = Completed | Panicked(cause: Panic)

  /** What `dispatcher.dispatch` receives: the decoded value and the kind of the decoder that produced it. */
  datatype Dispatched = Dispatched(kind: Kind, value: Message)

  /** A frame: the 8-byte discriminant, then the payload, and nothing else. */
  function Frame(id: U64, m: Message): (f: Bytes)
    ensures |f| == 8 + |Encode(m)| && f[8..] == Encode(m) && DecodeLE(f[..8]) == id
  {
    var e := EncodeU64(id);
    assert (e + Encode(m))[..8] == e;
    e + Encode(m)
  }

  /**
   * The registry half of the protocol's state: `decoders[i]` is the kind the decoder at
   * discriminant `i` was built for, `messageIds[k]` the discriminant `send` uses for `k`.
   */
  datatype Registry = Registry(decoders: seq<Kind>, messageIds: map<Kind, nat>) {

    /** Every send id names a decoder of its own kind, and every decoder's kind can be sent. */
    predicate Valid() {
      && |decoders| < U64_BOUND
      && (forall k :: k in messageIds ==> messageIds[k] < |decoders| && decoders[messageIds[k]] == k)
      && (forall i :: 0 <= i < |decoders| ==> decoders[i] in messageIds)
    }

    /** `register::<T>()`: the next discriminant is `decoders.len()`; nothing is checked or removed. */
    function Register(k: Kind): (r: Registry)
      requires Valid() && |decoders| < U64_BOUND - 1
      ensures r.Valid()
    {
      Registry(decoders + [k], messageIds[k := |decoders|])
    }

    /** `prepare_send_buffer`: the frame for `m`, or the panic of an unregistered kind. */
    function SendBuffer(m: Message): Result<Bytes, Panic>
      requires Valid()
    {
      var k := KindOf(m);
      if k in messageIds then Ok(Frame(messageIds[k], m)) else Err(Unregistered(k))
    }

    /** `receive`: read the discriminant, pick that decoder, decode one value behind it. */
    function Receive(bytes: Bytes): Result<Dispatched, Panic> {
      match DecodeU64(bytes)
      case Err(_) => Err(Truncated)
      case Ok(disc) =>
        if disc.value >= |decoders| then Err(UnknownDiscriminant(disc.value))
        else
          var k := decoders[disc.value];
          match Decode(k, disc.rest)
          case Err(e) => Err(DecodeFailed(k, e))
          case Ok(m) => Ok(Dispatched(k, m.value))
    }
  }

  /** The registry after `register` was called once for each of `kinds`, in order, on a new protocol. */
  function RegisterAll(kinds: seq<Kind>): (r: Registry)
    requires |kinds| < U64_BOUND - 1
    ensures r.Valid() && r.decoders == kinds
  {
    if kinds == [] then Registry([], map[])
    else
      var init := kinds[..|kinds| - 1];
      assert init + [kinds[|kinds| - 1]] == kinds;
      RegisterAll(init).Register(kinds[|kinds| - 1])
  }

  /** The order `register_messages` fixes for both ends. */
  const StandardKinds: seq<Kind> := [GreetingKind, GreetingResponseKind, PlayerStatusKind]

  function Standard(): Registry {
    RegisterAll(StandardKinds)
  }

  /** `i` is the last position of `kinds[i]`. */
  predicate LastOccurrence(kinds: seq<Kind>, i: nat)
    requires i < |kinds|
  {
    forall j :: i < j < |kinds| ==> kinds[j] != kinds[i]
  }

  /**
   * After registering `kinds` in order on a new protocol, the discriminants are 0..n-1 in call
   * order, exactly the registered kinds can be sent, and each kind is sent with the discriminant
   * of its latest registration.
   */
  lemma {:induction false} RegisterAllAssigns(kinds: seq<Kind>)
    requires |kinds| < U64_BOUND - 1
    ensures |RegisterAll(kinds).decoders| == |kinds|
    ensures forall i :: 0 <= i < |kinds| ==> RegisterAll(kinds).decoders[i] == kinds[i]
    ensures forall k :: k in RegisterAll(kinds).messageIds <==> k in kinds
    ensures forall i :: 0 <= i < |kinds| && LastOccurrence(kinds, i) ==> RegisterAll(kinds).messageIds[kinds[i]] == i
  {
    if kinds != [] {
      var init := kinds[..|kinds| - 1];
      RegisterAllAssigns(init);
      forall i | 0 <= i < |kinds| && LastOccurrence(kinds, i)
        ensures RegisterAll(kinds).messageIds[kinds[i]] == i
      {
        if i < |kinds| - 1 {
          assert LastOccurrence(init, i);
          assert kinds[i] != kinds[|kinds| - 1];
        }
      }
    }
  }

  /** With no kind registered twice, the i-th registered kind is sent with discriminant i. */
  lemma DistinctKindsGetTheirIndex(kinds: seq<Kind>)
    requires |kinds| < U64_BOUND - 1
    requires forall i, j :: 0 <= i < j < |kinds| ==> kinds[i] != kinds[j]
    ensures forall i :: 0 <= i < |kinds| ==> RegisterAll(kinds).messageIds[kinds[i]] == i
  {
    RegisterAllAssigns(kinds);
    forall i | 0 <= i < |kinds| ensures LastOccurrence(kinds, i) {
    }
  }

  /** The standard registry is what three `register` calls on a new protocol build. */
  lemma StandardIsThreeRegistrations()
    ensures Standard() == RegisterAll([]).Register(GreetingKind).Register(GreetingResponseKind).Register(PlayerStatusKind)
  {
    RegisterAllSnoc([], GreetingKind);
    RegisterAllSnoc([GreetingKind], GreetingResponseKind);
    RegisterAllSnoc([GreetingKind, GreetingResponseKind], PlayerStatusKind);
    assert [] + [GreetingKind] == [GreetingKind];
    assert [GreetingKind] + [GreetingResponseKind] == [GreetingKind, GreetingResponseKind];
    assert [GreetingKind, GreetingResponseKind] + [PlayerStatusKind] == StandardKinds;
  }

  /** Registering one more kind after `kinds` is one more `register` call. */
  lemma RegisterAllSnoc(kinds: seq<Kind>, k: Kind)
    requires |kinds| + 1 < U64_BOUND - 1
    ensures RegisterAll(kinds + [k]) == RegisterAll(kinds).Register(k)
  {
    assert (kinds + [k])[..|kinds|] == kinds;
  }

  /** `register_messages` gives Greeting 0, GreetingResponse 1 and PlayerStatus 2. */
  lemma StandardIds()
    ensures Standard().decoders == StandardKinds
    ensures Standard().messageIds == map[GreetingKind := 0, GreetingResponseKind := 1, PlayerStatusKind := 2]
  {
    DistinctKindsGetTheirIndex(StandardKinds);
    RegisterAllAssigns(StandardKinds);
  }

  /** The discriminant `register_messages` gives each kind. */
  function StandardId(k: Kind): U64 {
    match k
    case GreetingKind => 0
    case GreetingResponseKind => 1
    case PlayerStatusKind => 2
  }

  /** A registry whose send ids are those of `register_messages`. */
  predicate HasStandardIds(r: Registry) {
    r.Valid() && forall k :: k in r.messageIds && r.messageIds[k] == StandardId(k)
  }

  lemma StandardHasStandardIds()
    ensures HasStandardIds(Standard())
  {
    StandardIds();
    forall k: Kind
      ensures k in Standard().messageIds && Standard().messageIds[k] == StandardId(k)
    {
      match k
      case GreetingKind =>
      case GreetingResponseKind =>
      case PlayerStatusKind =>
    }
  }

  /** Under those ids every value can be sent, framed under its kind's standard discriminant. */
  lemma StandardSend(r: Registry, m: Message)
    requires HasStandardIds(r)
    ensures r.SendBuffer(m) == Ok(Frame(StandardId(KindOf(m)), m))
  {
    assert KindOf(m) in r.messageIds && r.messageIds[KindOf(m)] == StandardId(KindOf(m));
  }

  /**
   * Registering `k` again appends a second decoder for it and rebinds its send id to the new
   * index; the old index still decodes `k`, and the other kinds keep their ids.
   */
  lemma ReRegisterRebinds(r: Registry, k: Kind)
    requires r.Valid() && |r.decoders| < U64_BOUND - 1 && k in r.messageIds
    ensures var r' := r.Register(k);
      && |r'.decoders| == |r.decoders| + 1
      && r'.messageIds[k] == |r.decoders| && r'.decoders[|r.decoders|] == k
      && r'.decoders[r.messageIds[k]] == k
      && forall k' :: k' in r.messageIds && k' != k ==> r'.messageIds[k'] == r.messageIds[k']
  {
  }

  /** A kind that was never registered cannot be framed. */
  lemma UnregisteredSendPanics(r: Registry, m: Message)
    requires r.Valid()
    ensures r.SendBuffer(m).Err? <==> KindOf(m) !in r.messageIds
    ensures r.SendBuffer(m).Err? ==> r.SendBuffer(m).error == Unregistered(KindOf(m))
  {
  }

  /**
   * Round trip between two ends that registered the same kinds in the same order: the frame of
   * a registered value `m` is received as exactly one value, equal to `m`, tagged with its kind;
   * bytes after the frame are ignored.
   */
  lemma FrameRoundTrip(sender: Registry, receiver: Registry, m: Message, trailing: Bytes)
    requires sender.Valid() && KindOf(m) in sender.messageIds
    requires receiver.decoders == sender.decoders
    ensures sender.SendBuffer(m).Ok?
    ensures receiver.Receive(sender.SendBuffer(m).value + trailing) == Ok(Dispatched(KindOf(m), m))
  {
    var id := sender.messageIds[KindOf(m)];
    var f := Frame(id, m) + trailing;
    assert f == EncodeU64(id) + (Encode(m) + trailing);
    U64RoundTrip(id, Encode(m) + trailing);
    RoundTrip(m, trailing);
  }

  /** `receive` panics, dispatching nothing, on a frame shorter than the 8-byte discriminant. */
  lemma ShortFramePanics(r: Registry, bytes: Bytes)
    requires |bytes| < 8
    ensures r.Receive(bytes) == Err(Truncated)
  {
  }

  /** `receive` panics on a discriminant that indexes past the decoders. */
  lemma UnknownDiscriminantPanics(r: Registry, bytes: Bytes)
    requires |bytes| >= 8 && DecodeLE(bytes[..8]) >= |r.decoders|
    ensures r.Receive(bytes) == Err(UnknownDiscriminant(DecodeLE(bytes[..8])))
  {
  }

  /** `receive` panics when the selected decoder rejects the payload. */
  lemma PayloadDecodeFailurePanics(r: Registry, bytes: Bytes)
    requires |bytes| >= 8 && DecodeLE(bytes[..8]) < |r.decoders|
    requires Decode(r.decoders[DecodeLE(bytes[..8])], bytes[8..]).Err?
    ensures r.Receive(bytes) == Err(DecodeFailed(r.decoders[DecodeLE(bytes[..8])],
                                                 Decode(r.decoders[DecodeLE(bytes[..8])], bytes[8..]).error))
  {
  }

  /**
   * Conversely, `receive` dispatches a value only when the bytes begin with a frame of that value
   * under a discriminant whose decoder has the value's kind.
   */
  lemma ReceivedValuesCameFromFrames(r: Registry, bytes: Bytes)
    requires r.Receive(bytes).Ok?
    ensures var d := r.Receive(bytes).value;
      && |bytes| >= 8 && DecodeLE(bytes[..8]) < |r.decoders|
      && d.kind == r.decoders[DecodeLE(bytes[..8])] && KindOf(d.value) == d.kind
      && |bytes| >= 8 + |Encode(d.value)|
      && bytes[..8 + |Encode(d.value)|] == Frame(DecodeLE(bytes[..8]), d.value)
  {
    var disc := DecodeU64(bytes).value;
    var k := r.decoders[disc.value];
    DecodeInverse(k, disc.rest);
    var m := Decode(k, disc.rest).value;
    assert bytes == bytes[..8] + (Encode(m.value) + m.rest);
    assert bytes[..8 + |Encode(m.value)|] == bytes[..8] + Encode(m.value);
    EncodeDecodeLE(bytes[..8]);
  }

  /** The protocol object: the registry's two collections and the dispatcher's log. */
  class SimpleProtocol {
    var decoders: seq<Kind>
    var messageIds: map<Kind, nat>
    var dispatched: seq<Dispatched>

    function State(): Registry
      reads this
    {
      Registry(decoders, messageIds)
    }

    ghost predicate Valid()
      reads this
    {
      State().Valid()
    }

    constructor ()
      ensures Valid() && State() == RegisterAll([]) && dispatched == []
    {
      decoders := [];
      messageIds := map[];
      dispatched := [];
    }

    method Register(k: Kind)
      requires Valid() && |decoders| < U64_BOUND - 1
      modifies this
      ensures Valid()
      ensures State() == old(State()).Register(k) && dispatched == old(dispatched)
    {
      var id := |decoders|;
      messageIds := messageIds[k := id];
      decoders := decoders + [k];
    }

    /** Writes the discriminant of `m`'s kind into a fresh buffer, then `m` itself. */
    method PrepareSendBuffer(m: Message) returns (r: Result<Bytes, Panic>)
      requires Valid()
      ensures r == State().SendBuffer(m)
      ensures r.Ok? ==> r.value == Frame(messageIds[KindOf(m)], m)
    {
      var k := KindOf(m);
      if k !in messageIds {
        return Err(Unregistered(k));
      }
      var buffer: Bytes := [];
      buffer := buffer + EncodeU64(messageIds[k]);
      buffer := buffer + Encode(m);
      assert buffer == EncodeU64(messageIds[k]) + Encode(m);
      assert buffer == Frame(messageIds[k], m);
      return Ok(buffer);
    }

    /**
     * Hands exactly one packet, the frame of `m` addressed to `addr`, to `sender`; an
     * unregistered kind panics before anything is sent and a sender error panics.
     */
    method SendReliableUnordered(sender: PacketSender, addr: SocketAddr, m: Message) returns (outcome: Outcome)
      requires Valid()
      modifies sender
      ensures State().SendBuffer(m).Err? ==>
                outcome == Panicked(State().SendBuffer(m).error) && sender.sent == old(sender.sent)
      ensures State().SendBuffer(m).Ok? && sender.disconnected ==>
                outcome == Panicked(SendFailed) && sender.sent == old(sender.sent)
      ensures State().SendBuffer(m).Ok? && !sender.disconnected ==>
                outcome == Completed && sender.sent == old(sender.sent) + [Packet(addr, State().SendBuffer(m).value)]
    {
      var buffer := PrepareSendBuffer(m);
      if buffer.Err? {
        return Panicked(buffer.error);
      }
      var ok := sender.Send(Packet(addr, buffer.value));
      if !ok {
        return Panicked(SendFailed);
      }
      return Completed;
    }

    /** Decodes one frame and dispatches the value, or panics with nothing dispatched. */
    method Receive(bytes: Bytes) returns (outcome: Outcome)
      requires Valid()
      modifies this
      ensures decoders == old(decoders) && messageIds == old(messageIds)
      ensures old(State()).Receive(bytes).Ok? ==>
                outcome == Completed && dispatched == old(dispatched) + [old(State()).Receive(bytes).value]
      ensures old(State()).Receive(bytes).Err? ==>
                outcome == Panicked(old(State()).Receive(bytes).error) && dispatched == old(dispatched)
    {
      var discriminant := DecodeU64(bytes);
      if discriminant.Err? {
        return Panicked(Truncated);
      }
      var id := discriminant.value.value;
      if id >= |decoders| {
        return Panicked(UnknownDiscriminant(id));
      }
      var kind := decoders[id];
      var message := Decode(kind, discriminant.value.rest);
      if message.Err? {
        return Panicked(DecodeFailed(kind, message.error));
      }
      dispatched := dispatched + [Dispatched(kind, message.value.value)];
      return Completed;
    }
  }

  /** `register_messages`: Greeting, GreetingResponse, PlayerStatus, in that order. */
  method RegisterMessages(protocol: SimpleProtocol)
    requires protocol.Valid() && |protocol.decoders| < U64_BOUND - 3
    modifies protocol
    ensures protocol.Valid() && protocol.dispatched == old(protocol.dispatched)
    ensures protocol.State() == old(protocol.State()).Register(GreetingKind).Register(GreetingResponseKind).Register(PlayerStatusKind)
    ensures old(protocol.State()) == RegisterAll([]) ==> protocol.State() == Standard()
  {
    protocol.Register(GreetingKind);
    protocol.Register(GreetingResponseKind);
    protocol.Register(PlayerStatusKind);
    StandardIsThreeRegistrations();
  }
}
