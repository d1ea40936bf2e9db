/**
 * The client: its networking front (`Net`: the socket channels, the protocol and the queue that
 * hands dispatched values to the application) and the game state `Main` keeps, that is the
 * entity store, the id the server gave this client, and the table of remote players.
 */
module Client {
  import opened Wrappers
  import opened Wire
  import Utf8
  import opened Message
  import opened Transport
  import opened Protocol
  import Controller

  // ---- records ------------------------------------------------------------------------------

  datatype Position = Position(x: F64, y: F64)

  /** A heading. `angle()` is `atan2(y, x)`; `set_angle(a)` stores `(cos a, sin a)`. */
  datatype Direction = Direction(x: F64, y: F64)

  /** An 8-bit RGB colour, as `Color::RGB` builds it. */
  datatype Colour = Colour(r: bv8, g: bv8, b: bv8)

  datatype Model = Model(textureStatic: string, textureBlend: string, colour: Colour,
                         frameWidth: nat, frameHeight: nat, frame: (nat, nat))

  datatype Player = Player(holster: bool, id: Option<U64>)

  /** One entity's components; `local` is the `LocalPlayer` tag. */
  datatype Record = Record(position: Position, direction: Direction, model: Model, player: Player, local: bool)

  type Entity = nat

  /** The floating-point functions the client calls, which the model takes as given. */
  datatype FloatMath = FloatMath(atan2: (F64, F64) -> F64, cos: F64 -> F64, sin: F64 -> F64)

  /** `16.0` as an `f64`: exponent 1023 + 4, fraction 0. */
  const Sixteen: F64 := F64(0x4030_0000_0000_0000)

  /** The entity `Main::new` inserts first, the only one tagged `LocalPlayer`. */
  const LocalEntity: Entity := 0

  /** The sprite every player is drawn with, 20 by 20 pixels, starting at frame (1, 1). */
  function PlayerModel(colour: Colour): Model {
    Model("guy_static", "guy_blend", colour, 20, 20, (1, 1))
  }

  /** The local player `Main::new` creates. */
  function LocalRecord(colour: Colour): Record {
    Record(Position(Sixteen, Sixteen), Direction(Controller.Zero, Controller.Zero), PlayerModel(colour), Player(false, None), true)
  }

  /** The entity `receive_player_status` creates for an unseen remote player. */
  function RemoteRecord(m: Message): Record
    requires m.PlayerStatus?
  {
    Record(Position(m.x, m.y), Direction(Controller.Zero, Controller.Zero), PlayerModel(Colour(m.r, m.g, m.b)),
           Player(m.holster, Some(m.playerId)), false)
  }

  // ---- game state ---------------------------------------------------------------------------

  /**
   * What `Main` keeps apart from its controller and its network: the entity store, the next
   * entity id the store hands out, the id the server assigned, and remote player id -> entity.
   */
  datatype Game = Game(ecs: map<Entity, Record>, nextEntity: Entity, localPlayerId: Option<U64>,
                       others: map<U64, Entity>)

  /**
   * Entity ids below `nextEntity`; exactly one entity, `LocalEntity`, carries the local tag;
   * every remote player's entity exists, is not the local one, and carries that player's id.
   */
  ghost predicate Consistent(g: Game) {
    && LocalEntity in g.ecs && g.ecs[LocalEntity].local
    && (forall e :: e in g.ecs ==> e < g.nextEntity)
    && (forall e :: e in g.ecs && e != LocalEntity ==> !g.ecs[e].local)
    && (forall id :: id in g.others ==>
          g.others[id] in g.ecs && g.others[id] != LocalEntity && g.ecs[g.others[id]].player.id == Some(id))
  }

  /** `Main::new`: the local player alone, no id yet, no remote players. */
  function NewGame(colour: Colour): (g: Game)
    ensures Consistent(g)
    ensures g.localPlayerId == None && g.others == map[]
    ensures g.ecs.Keys == {LocalEntity} && g.ecs[LocalEntity] == LocalRecord(colour)
  {
    Game(map[LocalEntity := LocalRecord(colour)], LocalEntity + 1, None, map[])
  }

  /** `receive_greeting_response`: take the id the server assigned. */
  function OnGreetingResponse(g: Game, id: U64): Game {
    g.(localPlayerId := Some(id))
  }

  /** The status a message of this client's own id carries is its own echo. */
  predicate IsOwn(g: Game, m: Message)
    requires m.PlayerStatus?
  {
    g.localPlayerId == Some(m.playerId)
  }

  /**
   * `receive_player_status`: ignore this client's own status; create an entity for an unseen
   * player; otherwise overwrite the known player's position, heading and colour.
   */
  function OnPlayerStatus(g: Game, m: Message, math: FloatMath): (r: Game)
    requires Consistent(g) && m.PlayerStatus?
    ensures Consistent(r)
  {
    if IsOwn(g, m) then g
    else if m.playerId !in g.others then
      Game(g.ecs[g.nextEntity := RemoteRecord(m)], g.nextEntity + 1, g.localPlayerId,
           g.others[m.playerId := g.nextEntity])
    else
      var e := g.others[m.playerId];
      var old_ := g.ecs[e];
      var updated := old_.(position := Position(m.x, m.y),
                           direction := Direction(math.cos(m.angle), math.sin(m.angle)),
                           model := old_.model.(colour := Colour(m.r, m.g, m.b)));
      g.(ecs := g.ecs[e := updated])
  }

  /** The subscriber the queue calls for one dispatched value. */
  function Deliver(g: Game, d: Dispatched, math: FloatMath): (r: Game)
    requires Consistent(g)
    ensures Consistent(r)
  {
    match d.value
    case Greeting(_) => g
    case GreetingResponse(id) => OnGreetingResponse(g, id)
    case PlayerStatus(_, _, _, _, _, _, _, _) => OnPlayerStatus(g, d.value, math)
  }

  /** `queue.poll`: every queued value, oldest first. */
  function DeliverAll(g: Game, ds: seq<Dispatched>, math: FloatMath): (r: Game)
    requires Consistent(g)
    ensures Consistent(r)
    decreases |ds|
  {
    if ds == [] then g else DeliverAll(Deliver(g, ds[0], math), ds[1..], math)
  }

  /** The `H` handler on one entity: flip the holster of a local player. */
  function Toggled(r: Record): Record {
    if r.local then r.(player := r.player.(holster := !r.player.holster)) else r
  }

  /** The `C` handler on one entity: give a local player the colour drawn. */
  function Recoloured(colour: Colour): Record -> Record {
    (r: Record) => if r.local then r.(model := r.model.(colour := colour)) else r
  }

  /** The holster -> frame rule of `control_player`: column 1 when holstered, 0 otherwise. */
  function Framed(r: Record): Record {
    r.(model := r.model.(frame := (if r.player.holster then 1 else 0, r.model.frame.1)))
  }

  /** The entity store with `f` applied to every entity. */
  function MapRecords(ecs: map<Entity, Record>, f: Record -> Record): map<Entity, Record> {
    map e | e in ecs :: f(ecs[e])
  }

  /** The status `send_player_pos` builds from the local player. */
  function LocalStatus(r: Record, id: U64, math: FloatMath): (m: Message)
    ensures m.PlayerStatus?
  {
    PlayerStatus(id, r.position.x, r.position.y, math.atan2(r.direction.y, r.direction.x),
                 r.model.colour.r, r.model.colour.g, r.model.colour.b, r.player.holster)
  }

  /** The values `receive` dispatches for `events` in arrival order, or the first panic. */
  function Intake(reg: Registry, events: seq<SocketEvent>): Result<seq<Dispatched>, Panic>
    decreases |events|
  {
    if events == [] then Ok([])
    else
      match events[0]
      case PacketEvent(p) =>
        (match reg.Receive(p.payload)
         case Err(e) => Err(e)
         case Ok(d) =>
           var rest :- Intake(reg, events[1..]);
           Ok([d] + rest))
      case _ => Intake(reg, events[1..])
  }

  /** The frame `send_reliable_unordered` builds for `m` under the `register_messages` ids. */
  function Outgoing(m: Message): Bytes {
    Frame(StandardId(KindOf(m)), m)
  }

  /** `got` followed by what `events` still dispatches. */
  function IntakeAfter(got: seq<Dispatched>, reg: Registry, events: seq<SocketEvent>): Result<seq<Dispatched>, Panic> {
    match Intake(reg, events)
    case Ok(ds) => Ok(got + ds)
    case Err(e) => Err(e)
  }

  // ---- properties of the game state -----------------------------------------------------------

  /** A status carrying this client's own id changes nothing. */
  lemma OwnStatusIgnored(g: Game, m: Message, math: FloatMath)
    requires Consistent(g) && m.PlayerStatus? && g.localPlayerId == Some(m.playerId)
    ensures OnPlayerStatus(g, m, math) == g
  {
  }

  /**
   * A status that passes the own-id filter (every status does while no id is assigned) from an
   * unseen player adds exactly one entity, fresh, under that id; its position, colour, holster
   * and id come from the message, it faces (0, 0), and it has the player sprite's textures, its
   * 20 by 20 size and frame (1, 1). Nothing else changes.
   */
  lemma NewRemotePlayer(g: Game, m: Message, math: FloatMath)
    requires Consistent(g) && m.PlayerStatus? && g.localPlayerId != Some(m.playerId) && m.playerId !in g.others
    ensures var r := OnPlayerStatus(g, m, math);
      && var e := r.others[m.playerId];
      && e !in g.ecs && r.ecs == g.ecs[e := r.ecs[e]]
      && r.others == g.others[m.playerId := e] && |r.others| == |g.others| + 1
      && r.ecs[e].position == Position(m.x, m.y) && r.ecs[e].model.colour == Colour(m.r, m.g, m.b)
      && r.ecs[e].player == Player(m.holster, Some(m.playerId)) && r.ecs[e].model.frame == (1, 1)
      && r.ecs[e].direction == Direction(Controller.Zero, Controller.Zero)
      && r.ecs[e].model == Model("guy_static", "guy_blend", Colour(m.r, m.g, m.b), 20, 20, (1, 1))
      && !r.ecs[e].local && r.localPlayerId == g.localPlayerId
  {
  }

  /**
   * A status of a known remote player overwrites that entity's position, heading and colour;
   * the rest of its record (holster, id, textures, size, frame), the other entities, and the
   * remote-player table stay as they were.
   */
  lemma KnownRemotePlayer(g: Game, m: Message, math: FloatMath)
    requires Consistent(g) && m.PlayerStatus? && g.localPlayerId != Some(m.playerId) && m.playerId in g.others
    ensures var r := OnPlayerStatus(g, m, math);
      && var e := g.others[m.playerId];
      && r.others == g.others && r.ecs.Keys == g.ecs.Keys && r.localPlayerId == g.localPlayerId
      && r.ecs[e].position == Position(m.x, m.y)
      && r.ecs[e].direction == Direction(math.cos(m.angle), math.sin(m.angle))
      && r.ecs[e].model.colour == Colour(m.r, m.g, m.b)
      && r.ecs[e].player == g.ecs[e].player && r.ecs[e].model.frame == g.ecs[e].model.frame
      && r.ecs[e] == g.ecs[e].(position := Position(m.x, m.y),
                               direction := Direction(math.cos(m.angle), math.sin(m.angle)),
                               model := g.ecs[e].model.(colour := Colour(m.r, m.g, m.b)))
      && forall e' :: e' in g.ecs && e' != e ==> r.ecs[e'] == g.ecs[e']
  {
  }

  /** While no id is assigned, no status is filtered out: a table entry always results. */
  lemma UnsetIdFiltersNothing(g: Game, m: Message, math: FloatMath)
    requires Consistent(g) && m.PlayerStatus? && g.localPlayerId.None?
    ensures m.playerId in OnPlayerStatus(g, m, math).others
  {
  }

  /** A later GreetingResponse overwrites the id an earlier one set. */
  lemma LastGreetingResponseWins(g: Game, a: U64, b: U64)
    ensures OnGreetingResponse(OnGreetingResponse(g, a), b) == OnGreetingResponse(g, b)
    ensures OnGreetingResponse(g, b).localPlayerId == Some(b)
  {
  }

  /** Pressing `H` twice restores every holster; remote players' holsters are never touched. */
  lemma ToggleTwiceRestores(ecs: map<Entity, Record>)
    ensures MapRecords(MapRecords(ecs, Toggled), Toggled) == ecs
    ensures forall e :: e in ecs ==>
              (MapRecords(ecs, Toggled)[e].player.holster != ecs[e].player.holster <==> ecs[e].local)
  {
    var once := MapRecords(ecs, Toggled);
    var twice := MapRecords(once, Toggled);
    assert twice.Keys == ecs.Keys;
    forall e | e in ecs
      ensures twice[e] == ecs[e]
    {
      assert Toggled(Toggled(ecs[e])) == ecs[e];
    }
  }

  /** After the frame rule, every entity shows frame column 1 exactly when it is holstered. */
  lemma FrameMatchesHolster(ecs: map<Entity, Record>)
    ensures forall e :: e in MapRecords(ecs, Framed) ==>
              (MapRecords(ecs, Framed)[e].model.frame.0 == 1 <==> MapRecords(ecs, Framed)[e].player.holster)
    ensures forall e :: e in ecs ==> MapRecords(ecs, Framed)[e].model.frame.1 == ecs[e].model.frame.1
  {
  }

  /** The one local-tagged entity of a valid game. */
  lemma OnlyLocalEntity(g: Game)
    requires Consistent(g)
    ensures (set e | e in g.ecs && g.ecs[e].local) == {LocalEntity}
  {
  }

  /** The own-status echo round trip: what this client sends about itself it then ignores when relayed back. */
  lemma OwnEchoIgnored(g: Game, id: U64, math: FloatMath, math': FloatMath)
    requires Consistent(g) && g.localPlayerId == Some(id)
    ensures OnPlayerStatus(g, LocalStatus(g.ecs[LocalEntity], id, math), math') == g
  {
  }

  /** Only Packet events reach `receive`; every other event dispatches nothing. */
  lemma {:induction false} NonPacketsDispatchNothing(reg: Registry, events: seq<SocketEvent>)
    requires forall i :: 0 <= i < |events| ==> !events[i].PacketEvent?
    ensures Intake(reg, events) == Ok([])
    decreases |events|
  {
    if events != [] {
      NonPacketsDispatchNothing(reg, events[1..]);
    }
  }

  /** The packets of `frames`, each from `addr`. */
  function FramePackets(addr: SocketAddr, frames: seq<Bytes>): (es: seq<SocketEvent>)
    ensures |es| == |frames|
    ensures forall i :: 0 <= i < |frames| ==> es[i] == PacketEvent(Packet(addr, frames[i]))
  {
    if frames == [] then [] else [PacketEvent(Packet(addr, frames[0]))] + FramePackets(addr, frames[1..])
  }

  /** The frames sent for `ms`, one per value, in order. */
  function StandardFrames(ms: seq<Message>): (fs: seq<Bytes>)
    ensures |fs| == |ms|
    ensures forall i :: 0 <= i < |ms| ==> fs[i] == Outgoing(ms[i])
  {
    if ms == [] then [] else [Outgoing(ms[0])] + StandardFrames(ms[1..])
  }

  /** Each value of `ms` tagged with its kind, as the dispatcher hands it on. */
  function Tagged(ms: seq<Message>): (ds: seq<Dispatched>)
    ensures |ds| == |ms|
    ensures forall i :: 0 <= i < |ms| ==> ds[i] == Dispatched(KindOf(ms[i]), ms[i])
  {
    if ms == [] then [] else [Dispatched(KindOf(ms[0]), ms[0])] + Tagged(ms[1..])
  }

  /** A frame sent under the `register_messages` ids is received back as the value it carries. */
  lemma ReceiveOutgoing(reg: Registry, m: Message)
    requires HasStandardIds(reg)
    ensures reg.Receive(Outgoing(m)) == Ok(Dispatched(KindOf(m), m))
  {
    StandardSend(reg, m);
    FrameRoundTrip(reg, reg, m, []);
    assert Outgoing(m) + [] == Outgoing(m);
  }

  /**
   * Arrival order is kept: packets carrying the frames of `ms`, received under the
   * `register_messages` registry, dispatch exactly `ms`, in order, each tagged with its kind.
   */
  lemma {:induction false} FramesDispatchInOrder(reg: Registry, addr: SocketAddr, ms: seq<Message>)
    requires HasStandardIds(reg)
    ensures Intake(reg, FramePackets(addr, StandardFrames(ms))) == Ok(Tagged(ms))
    decreases |ms|
  {
    if ms != [] {
      var events := FramePackets(addr, StandardFrames(ms));
      assert events[0] == PacketEvent(Packet(addr, Outgoing(ms[0])));
      assert events[1..] == FramePackets(addr, StandardFrames(ms[1..]));
      ReceiveOutgoing(reg, ms[0]);
      FramesDispatchInOrder(reg, addr, ms[1..]);
      IntakePacket(reg, events, Dispatched(KindOf(ms[0]), ms[0]));
    }
  }

  /** A Packet event that `receive` accepts puts its value in front of what the rest dispatches. */
  lemma IntakePacket(reg: Registry, events: seq<SocketEvent>, d: Dispatched)
    requires events != [] && events[0].PacketEvent? && reg.Receive(events[0].packet.payload) == Ok(d)
    requires Intake(reg, events[1..]).Ok?
    ensures Intake(reg, events) == Ok([d] + Intake(reg, events[1..]).value)
  {
  }

  /** One more Packet event: its dispatched value joins `got`. */
  lemma IntakeAfterPacket(got: seq<Dispatched>, reg: Registry, events: seq<SocketEvent>, d: Dispatched)
    requires events != [] && events[0].PacketEvent? && reg.Receive(events[0].packet.payload) == Ok(d)
    ensures IntakeAfter(got + [d], reg, events[1..]) == IntakeAfter(got, reg, events)
  {
    if Intake(reg, events[1..]).Ok? {
      IntakePacket(reg, events, d);
      assert got + [d] + Intake(reg, events[1..]).value == got + ([d] + Intake(reg, events[1..]).value);
    }
  }

  /** A Packet event whose payload `receive` rejects ends the intake with that panic. */
  lemma IntakeAfterPanic(got: seq<Dispatched>, reg: Registry, events: seq<SocketEvent>)
    requires events != [] && events[0].PacketEvent? && reg.Receive(events[0].packet.payload).Err?
    ensures IntakeAfter(got, reg, events) == Err(reg.Receive(events[0].packet.payload).error)
  {
  }

  /** Nothing dispatched so far. */
  lemma IntakeAfterNothing(reg: Registry, events: seq<SocketEvent>)
    ensures IntakeAfter([], reg, events) == Intake(reg, events)
  {
    if Intake(reg, events).Ok? {
      assert [] + Intake(reg, events).value == Intake(reg, events).value;
    }
  }

  // ---- Net --------------------------------------------------------------------------------------

  /** ASCII "Marcin Szymczak", the name `init` greets the server with. */
  const GreetingBytes: Bytes := [0x4D, 0x61, 0x72, 0x63, 0x69, 0x6E, 0x20, 0x53, 0x7A, 0x79, 0x6D, 0x63, 0x7A, 0x61, 0x6B]

  /** The same name as a string: ASCII bytes are well-formed UTF-8. */
  const GreetingName: Text := AsciiText(GreetingBytes)

  /** ASCII bytes as a string; they are well-formed UTF-8. */
  function AsciiText(s: Bytes): (t: Text)
    requires |s| < U64_BOUND && forall i :: 0 <= i < |s| ==> s[i] <= 0x7F
    ensures t == s
  {
    Utf8.AsciiIsValid(s);
    s
  }

  /** `Net`: the channels to the socket thread, the server address, the protocol and the queue. */
  class Net {
    const sender: PacketSender
    const receiver: EventReceiver
    const addr: SocketAddr
    const protocol: SimpleProtocol
    /** How much of the dispatcher's output the queue has already handed to the application. */
    var delivered: nat

    ghost predicate Valid()
      reads this, protocol
    {
      HasStandardIds(protocol.State()) && delivered <= |protocol.dispatched|
    }

    constructor (sender: PacketSender, receiver: EventReceiver, addr: SocketAddr, protocol: SimpleProtocol)
      requires HasStandardIds(protocol.State())
      ensures this.sender == sender && this.receiver == receiver && this.addr == addr && this.protocol == protocol
      ensures delivered == |protocol.dispatched| && Valid()
    {
      this.sender := sender;
      this.receiver := receiver;
      this.addr := addr;
      this.protocol := protocol;
      delivered := |protocol.dispatched|;
    }

    /** `send_reliable_unordered` to the server: exactly one frame, or a panic when the channel is gone. */
    method Send(m: Message) returns (outcome: Outcome)
      requires Valid()
      modifies sender
      ensures !sender.disconnected ==>
                outcome == Completed && sender.sent == old(sender.sent) + [Packet(addr, Outgoing(m))]
      ensures sender.disconnected ==> outcome == Panicked(SendFailed) && sender.sent == old(sender.sent)
    {
      StandardSend(protocol.State(), m);
      outcome := protocol.SendReliableUnordered(sender, addr, m);
    }

    /**
     * The `while let Ok(event) = try_recv()` loop of `poll`: every queued Packet's payload goes
     * to `receive`, in arrival order; other events change nothing.
     */
    method Drain() returns (outcome: Outcome)
      requires Valid()
      modifies receiver, protocol
      ensures Valid() && protocol.State() == old(protocol.State())
      ensures var res := Intake(old(protocol.State()), old(receiver.pending));
        && (res.Ok? ==> outcome == Completed && receiver.pending == []
                         && protocol.dispatched == old(protocol.dispatched) + res.value)
        && (res.Err? ==> outcome == Panicked(res.error))
    {
      ghost var reg := protocol.State();
      ghost var start := receiver.pending;
      ghost var base := protocol.dispatched;
      ghost var got: seq<Dispatched> := [];
      IntakeAfterNothing(reg, start);
      while true
        invariant protocol.State() == reg && protocol.dispatched == base + got
        invariant IntakeAfter(got, reg, receiver.pending) == Intake(reg, start)
        decreases |receiver.pending|
      {
        ghost var before := receiver.pending;
        var event := receiver.TryRecv();
        if event.None? {
          return Completed;
        }
        match event.value {
          case PacketEvent(p) =>
            ghost var d := reg.Receive(p.payload);
            var result := protocol.Receive(p.payload);
            if result.Panicked? {
              IntakeAfterPanic(got, reg, before);
              return result;
            }
            IntakeAfterPacket(got, reg, before, d.value);
            got := got + [d.value];
          case Connect(_) =>
          case Timeout(_) =>
          case Disconnect(_) =>
        }
      }
    }
  }

  // ---- Main -------------------------------------------------------------------------------------

  /** The keys the client reacts to. */
  datatype Key = A | D | S | W | H | C | OtherKey

  class Main {
    const controller: Controller.Controller
    const net: Net
    var ecs: map<Entity, Record>
    var nextEntity: Entity
    var localPlayerId: Option<U64>
    var others: map<U64, Entity>

    function State(): Game
      reads this
    {
      Game(ecs, nextEntity, localPlayerId, others)
    }

    ghost predicate Valid()
      reads this, net, net.protocol, controller
    {
      Consistent(State()) && net.Valid() && controller.Valid()
    }

    /** `Main::new`, with the colour it draws at random for the local player. */
    constructor (net: Net, colour: Colour)
      requires net.Valid()
      ensures this.net == net && fresh(controller) && Valid()
      ensures fresh(controller.left) && fresh(controller.right) && fresh(controller.up) && fresh(controller.down)
      ensures State() == NewGame(colour)
      ensures !controller.left.pressed && !controller.right.pressed && !controller.up.pressed && !controller.down.pressed
    {
      controller := new Controller.Controller();
      this.net := net;
      ecs := map[LocalEntity := LocalRecord(colour)];
      nextEntity := LocalEntity + 1;
      localPlayerId := None;
      others := map[];
    }

    /** `init`: subscribe the three handlers, then greet the server. */
    method Init() returns (outcome: Outcome)
      requires Valid()
      modifies net.sender
      ensures !net.sender.disconnected ==>
                (outcome == Completed
                 && net.sender.sent == old(net.sender.sent) + [Packet(net.addr, Outgoing(Greeting(GreetingName)))])
      ensures net.sender.disconnected ==> outcome == Panicked(SendFailed) && net.sender.sent == old(net.sender.sent)
    {
      outcome := net.Send(Greeting(GreetingName));
    }

    method ReceiveGreetingResponse(id: U64)
      modifies this
      ensures State() == OnGreetingResponse(old(State()), id)
    {
      localPlayerId := Some(id);
    }

    method ReceivePlayerStatus(m: Message, math: FloatMath)
      requires Consistent(State()) && m.PlayerStatus?
      modifies this
      ensures State() == OnPlayerStatus(old(State()), m, math)
    {
      if localPlayerId == Some(m.playerId) {
        return;
      }
      if m.playerId !in others {
        var entity := nextEntity;
        ecs := ecs[entity := RemoteRecord(m)];
        nextEntity := nextEntity + 1;
        others := others[m.playerId := entity];
      } else {
        var entity := others[m.playerId];
        var record := ecs[entity];
        record := record.(position := Position(m.x, m.y));
        record := record.(direction := Direction(math.cos(m.angle), math.sin(m.angle)));
        record := record.(model := record.model.(colour := Colour(m.r, m.g, m.b)));
        ecs := ecs[entity := record];
      }
    }

    /** The subscriber of `d`'s kind, called with its value. */
    method DeliverOne(d: Dispatched, math: FloatMath)
      requires Consistent(State())
      modifies this
      ensures State() == Deliver(old(State()), d, math)
    {
      match d.value {
        case Greeting(_) =>
        case GreetingResponse(id) => ReceiveGreetingResponse(id);
        case PlayerStatus(_, _, _, _, _, _, _, _) => ReceivePlayerStatus(d.value, math);
      }
    }

    /** `queue.poll(main)`: hand every value dispatched since the last poll to its subscriber. */
    method DeliverPending(math: FloatMath)
      requires Valid()
      modifies this, net
      ensures Valid() && net.delivered == |net.protocol.dispatched|
      ensures State() == DeliverAll(old(State()), old(net.protocol.dispatched[net.delivered..]), math)
    {
      var queue := net.protocol.dispatched[net.delivered..];
      ghost var start := State();
      var i := 0;
      while i < |queue|
        modifies this
        invariant 0 <= i <= |queue| && Consistent(State())
        invariant DeliverAll(State(), queue[i..], math) == DeliverAll(start, queue, math)
      {
        DeliverOne(queue[i], math);
        assert queue[i..][1..] == queue[i + 1..];
        i := i + 1;
      }
      net.delivered := |net.protocol.dispatched|;
    }

    /** `Net::poll(main)`: drain the event channel into the protocol, then poll the queue. */
    method Poll(math: FloatMath) returns (outcome: Outcome)
      requires Valid()
      modifies this, net, net.receiver, net.protocol
      ensures outcome == Completed ==> Valid()
      ensures var res := Intake(old(net.protocol.State()), old(net.receiver.pending));
        && (res.Ok? ==>
              (outcome == Completed && net.receiver.pending == []
               && net.protocol.dispatched == old(net.protocol.dispatched) + res.value
               && net.delivered == |net.protocol.dispatched|
               && State() == DeliverAll(old(State()), old(net.protocol.dispatched[net.delivered..]) + res.value, math)))
        && (res.Err? ==> outcome == Panicked(res.error))
    {
      ghost var undelivered := net.protocol.dispatched[net.delivered..];
      outcome := net.Drain();
      if outcome.Panicked? {
        return;
      }
      ghost var res := Intake(old(net.protocol.State()), old(net.receiver.pending));
      assert net.protocol.dispatched[net.delivered..] == undelivered + res.value;
      DeliverPending(math);
    }

    /**
     * `send_player_pos`: nothing until the server has assigned an id; then one PlayerStatus per
     * local player, carrying that id and the player's position, heading, colour and holster.
     */
    method SendPlayerPos(math: FloatMath) returns (outcome: Outcome)
      requires Valid()
      modifies net.sender
      ensures localPlayerId.None? ==> outcome == Completed && net.sender.sent == old(net.sender.sent)
      ensures localPlayerId.Some? && !net.sender.disconnected ==>
                (outcome == Completed && net.sender.sent == old(net.sender.sent) +
                  [Packet(net.addr, Outgoing(LocalStatus(ecs[LocalEntity], localPlayerId.value, math)))])
      ensures localPlayerId.Some? && net.sender.disconnected ==>
                outcome == Panicked(SendFailed) && net.sender.sent == old(net.sender.sent)
    {
      if localPlayerId.None? {
        return Completed;
      }
      var id := localPlayerId.value;
      var todo := set e | e in ecs && ecs[e].local;
      OnlyLocalEntity(State());
      outcome := Completed;
      while todo != {}
        invariant todo <= {LocalEntity}
        invariant todo != {} ==> net.sender.sent == old(net.sender.sent)
        invariant todo == {} ==>
                    (outcome == Completed && !net.sender.disconnected && net.sender.sent == old(net.sender.sent) +
                      [Packet(net.addr, Outgoing(LocalStatus(ecs[LocalEntity], id, math)))])
        decreases |todo|
      {
        var e :| e in todo;
        outcome := net.Send(LocalStatus(ecs[e], id, math));
        if outcome.Panicked? {
          return;
        }
        todo := todo - {e};
      }
    }

    /** Apply `f` to every entity, one at a time. */
    method UpdateEach(f: Record -> Record)
      modifies this
      ensures ecs == MapRecords(old(ecs), f)
      ensures nextEntity == old(nextEntity) && localPlayerId == old(localPlayerId) && others == old(others)
    {
      var todo := ecs.Keys;
      ghost var start := ecs;
      while todo != {}
        invariant todo <= start.Keys && ecs.Keys == start.Keys
        invariant forall e :: e in start ==> ecs[e] == if e in todo then start[e] else f(start[e])
        invariant nextEntity == old(nextEntity) && localPlayerId == old(localPlayerId) && others == old(others)
        decreases |todo|
      {
        var e :| e in todo;
        ecs := ecs[e := f(ecs[e])];
        todo := todo - {e};
      }
    }

    /** `key_pressed`: A, D, S, W press their button; H flips the local holsters; C recolours the local player. */
    method KeyPressed(key: Key, colour: Colour)
      requires Valid()
      modifies this, controller.left, controller.right, controller.up, controller.down
      ensures Valid()
      ensures key == H ==> State() == old(State()).(ecs := MapRecords(old(ecs), Toggled))
      ensures key == C ==> State() == old(State()).(ecs := MapRecords(old(ecs), Recoloured(colour)))
      ensures key != H && key != C ==> State() == old(State())
      ensures ButtonsAfter(key, true)
    {
      match key {
        case A => controller.left.Update(true);
        case D => controller.right.Update(true);
        case S => controller.down.Update(true);
        case W => controller.up.Update(true);
        case H =>
          UpdateEach(Toggled);
          ConsistentAfterMap(old(State()), Toggled);
        case C =>
          UpdateEach(Recoloured(colour));
          ConsistentAfterMap(old(State()), Recoloured(colour));
        case OtherKey =>
      }
    }

    /** `key_released`: A, D, S, W release their button; other keys do nothing. */
    method KeyReleased(key: Key)
      requires Valid()
      modifies controller.left, controller.right, controller.up, controller.down
      ensures Valid()
      ensures ButtonsAfter(key, false)
    {
      match key {
        case A => controller.left.Update(false);
        case D => controller.right.Update(false);
        case S => controller.down.Update(false);
        case W => controller.up.Update(false);
        case _ =>
      }
    }

    /**
     * The button `key` routes to took the update `p` and the other buttons kept their state;
     * a key without a button leaves all four as they were.
     */
    twostate predicate ButtonsAfter(key: Key, p: bool)
      reads this, controller, controller.left, controller.right, controller.up, controller.down
    {
      && TookUpdate(controller.left, key == A, p)
      && TookUpdate(controller.right, key == D, p)
      && TookUpdate(controller.down, key == S, p)
      && TookUpdate(controller.up, key == W, p)
    }

    /** The holster -> frame rule of `control_player`, applied to every player. */
    method SyncHolsterFrames()
      requires Valid()
      modifies this
      ensures Valid() && State() == old(State()).(ecs := MapRecords(old(ecs), Framed))
    {
      UpdateEach(Framed);
      ConsistentAfterMap(old(State()), Framed);
    }

    /** `update` without movement and aiming: frames, then this client's status, then the network. */
    method Update(math: FloatMath) returns (outcome: Outcome)
      requires Valid()
      modifies this, net, net.sender, net.receiver, net.protocol
      ensures outcome == Completed ==> Valid()
    {
      SyncHolsterFrames();
      outcome := SendPlayerPos(math);
      if outcome.Panicked? {
        return;
      }
      outcome := Poll(math);
    }
  }

  /** `b` took the update `p` when `chosen`, and otherwise kept both its bits. */
  twostate predicate TookUpdate(b: Controller.Button, chosen: bool, p: bool)
    reads b
  {
    if chosen then b.previous == old(b.pressed) && b.pressed == p
    else b.pressed == old(b.pressed) && b.previous == old(b.previous)
  }

  /** An update that keeps every record's tag and player id keeps the game valid. */
  lemma ConsistentAfterMap(g: Game, f: Record -> Record)
    requires Consistent(g)
    requires forall r :: f(r).local == r.local && f(r).player.id == r.player.id
    ensures Consistent(g.(ecs := MapRecords(g.ecs, f)))
  {
  }
}
