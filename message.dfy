/**
 * The three message records both ends exchange, and their serde-derived bincode layout:
 * a struct is its fields in declaration order, each in its primitive layout, with no tag
 * and no length (the frame's discriminant says which record follows).
 */
module Message {
  import opened Wrappers
  import opened Wire

  /** Which record type a value is; stands for the `TypeId` the registry keys on. */
  datatype Kind = GreetingKind | GreetingResponseKind | PlayerStatusKind

  datatype Message =
    /** `from_client::Greeting`. */
    | Greeting(name: Text)
    /** `from_server::GreetingResponse`. */
    | GreetingResponse(playerId: U64)
    /** `both::PlayerStatus`. */
    | PlayerStatus(playerId: U64, x: F64, y: F64, angle: F64, r: bv8, g: bv8, b: bv8, holster: bool)

  function KindOf(m: Message): Kind {
    match m
    case Greeting(_) => GreetingKind
    case GreetingResponse(_) => GreetingResponseKind
    case PlayerStatus(_, _, _, _, _, _, _, _) => PlayerStatusKind
  }

  function Encode(m: Message): Bytes {
    match m
    case Greeting(name) => EncodeStr(name)
    case GreetingResponse(id) => EncodeU64(id)
    case PlayerStatus(id, x, y, angle, r, g, b, holster) =>
      EncodeU64(id) + (EncodeStatusPose(x, y, angle) + EncodeStatusTail(r, g, b, holster))
  }

  /** Deserialise a record of kind `k` from the front of `s`. */
  function Decode(k: Kind, s: Bytes): Result<Decoded<Message>, DecodeError> {
    match k
    case GreetingKind =>
      var name :- DecodeStr(s);
      Ok(Decoded(Greeting(name.value), name.rest))
    case GreetingResponseKind =>
      var id :- DecodeU64(s);
      Ok(Decoded(GreetingResponse(id.value), id.rest))
    case PlayerStatusKind =>
      DecodePlayerStatus(s)
  }

  function DecodePlayerStatus(s: Bytes): Result<Decoded<Message>, DecodeError> {
    var id :- DecodeU64(s);
    var pose :- DecodeStatusPose(id.rest);
    var tail :- DecodeStatusTail(pose.rest);
    Ok(Decoded(PlayerStatus(id.value, pose.value.0, pose.value.1, pose.value.2,
                            tail.value.0, tail.value.1, tail.value.2, tail.value.3), tail.rest))
  }

  /** The three `f64` fields of a `PlayerStatus`: `x`, `y`, `angle`. */
  function DecodeStatusPose(s: Bytes): Result<Decoded<(F64, F64, F64)>, DecodeError> {
    var x :- DecodeF64(s);
    var y :- DecodeF64(x.rest);
    var angle :- DecodeF64(y.rest);
    Ok(Decoded((x.value, y.value, angle.value), angle.rest))
  }

  function EncodeStatusPose(x: F64, y: F64, angle: F64): Bytes {
    EncodeF64(x) + (EncodeF64(y) + EncodeF64(angle))
  }

  /** The last four fields of a `PlayerStatus`: `r`, `g`, `b`, `holster`. */
  function DecodeStatusTail(s: Bytes): Result<Decoded<(bv8, bv8, bv8, bool)>, DecodeError> {
    var r :- DecodeU8(s);
    var g :- DecodeU8(r.rest);
    var b :- DecodeU8(g.rest);
    var holster :- DecodeBool(b.rest);
    Ok(Decoded((r.value, g.value, b.value, holster.value), holster.rest))
  }

  function EncodeStatusTail(r: bv8, g: bv8, b: bv8, holster: bool): Bytes {
    EncodeU8(r) + (EncodeU8(g) + (EncodeU8(b) + EncodeBool(holster)))
  }

  /** Decoding the encoding of any record gives the same record, field for field, and leaves what followed it. */
  lemma {:induction false} RoundTrip(m: Message, rest: Bytes)
    ensures Decode(KindOf(m), Encode(m) + rest) == Ok(Decoded(m, rest))
  {
    match m
    case Greeting(name) =>
      StrRoundTrip(name, rest);
    case GreetingResponse(id) =>
      U64RoundTrip(id, rest);
    case PlayerStatus(_, _, _, _, _, _, _, _) =>
      PlayerStatusRoundTrip(m, rest);
  }

  lemma PlayerStatusRoundTrip(m: Message, rest: Bytes)
    requires m.PlayerStatus?
    ensures DecodePlayerStatus(Encode(m) + rest) == Ok(Decoded(m, rest))
  {
    var t2 := EncodeStatusTail(m.r, m.g, m.b, m.holster) + rest;
    var t1 := EncodeStatusPose(m.x, m.y, m.angle) + t2;
    assert Encode(m) + rest == EncodeU64(m.playerId) + t1;
    U64RoundTrip(m.playerId, t1);
    StatusPoseRoundTrip(m.x, m.y, m.angle, t2);
    StatusTailRoundTrip(m.r, m.g, m.b, m.holster, rest);
  }

  lemma StatusPoseRoundTrip(x: F64, y: F64, angle: F64, rest: Bytes)
    ensures DecodeStatusPose(EncodeStatusPose(x, y, angle) + rest) == Ok(Decoded((x, y, angle), rest))
  {
    var t2 := EncodeF64(angle) + rest;
    var t1 := EncodeF64(y) + t2;
    assert EncodeStatusPose(x, y, angle) + rest == EncodeF64(x) + t1;
    F64RoundTrip(x, t1);
    F64RoundTrip(y, t2);
    F64RoundTrip(angle, rest);
  }

  lemma StatusTailRoundTrip(r: bv8, g: bv8, b: bv8, holster: bool, rest: Bytes)
    ensures DecodeStatusTail(EncodeStatusTail(r, g, b, holster) + rest) == Ok(Decoded((r, g, b, holster), rest))
  {
    var t3 := EncodeBool(holster) + rest;
    var t2 := EncodeU8(b) + t3;
    var t1 := EncodeU8(g) + t2;
    assert EncodeStatusTail(r, g, b, holster) + rest == EncodeU8(r) + t1;
    U8RoundTrip(r, t1);
    U8RoundTrip(g, t2);
    U8RoundTrip(b, t3);
    BoolRoundTrip(holster, rest);
  }

  /**
   * Conversely, whatever `Decode` accepts is the encoding of a record of the requested kind
   * followed by the unread rest: the layout has exactly one encoding per record.
   */
  lemma {:induction false} DecodeInverse(k: Kind, s: Bytes)
    requires Decode(k, s).Ok?
    ensures KindOf(Decode(k, s).value.value) == k
    ensures s == Encode(Decode(k, s).value.value) + Decode(k, s).value.rest
  {
    match k
    case GreetingKind =>
      StrInverse(s);
    case GreetingResponseKind =>
      U64Inverse(s);
    case PlayerStatusKind =>
      PlayerStatusInverse(s);
  }

  lemma PlayerStatusInverse(s: Bytes)
    requires DecodePlayerStatus(s).Ok?
    ensures DecodePlayerStatus(s).value.value.PlayerStatus?
    ensures s == Encode(DecodePlayerStatus(s).value.value) + DecodePlayerStatus(s).value.rest
  {
    var id := DecodeU64(s).value;
    var pose := DecodeStatusPose(id.rest).value;
    var tail := DecodeStatusTail(pose.rest).value;
    var m := PlayerStatus(id.value, pose.value.0, pose.value.1, pose.value.2,
                          tail.value.0, tail.value.1, tail.value.2, tail.value.3);
    assert DecodePlayerStatus(s) == Ok(Decoded(m, tail.rest));
    U64Inverse(s);
    StatusPoseInverse(id.rest);
    StatusTailInverse(pose.rest);
    var e0 := EncodeU64(m.playerId);
    var e1 := EncodeStatusPose(m.x, m.y, m.angle);
    var e2 := EncodeStatusTail(m.r, m.g, m.b, m.holster);
    assert s == e0 + (e1 + (e2 + tail.rest));
    Assoc3(e0, e1, e2, tail.rest);
  }

  lemma StatusPoseInverse(s: Bytes)
    requires DecodeStatusPose(s).Ok?
    ensures var d := DecodeStatusPose(s).value;
      s == EncodeStatusPose(d.value.0, d.value.1, d.value.2) + d.rest
  {
    var x := DecodeF64(s).value;
    var y := DecodeF64(x.rest).value;
    F64Inverse(s);
    F64Inverse(x.rest);
    F64Inverse(y.rest);
  }

  lemma StatusTailInverse(s: Bytes)
    requires DecodeStatusTail(s).Ok?
    ensures var d := DecodeStatusTail(s).value;
      s == EncodeStatusTail(d.value.0, d.value.1, d.value.2, d.value.3) + d.rest
  {
    var r := DecodeU8(s).value;
    var g := DecodeU8(r.rest).value;
    var b := DecodeU8(g.rest).value;
    BoolInverse(b.rest);
  }

  /**
   * The `PlayerStatus` layout: 36 bytes, `player_id`, `x`, `y`, `angle` as 8 little-endian
   * bytes each in that order, then one byte each for `r`, `g`, `b`, and `holster` as 0 or 1.
   */
  lemma PlayerStatusLayout(m: Message)
    requires m.PlayerStatus?
    ensures var e := Encode(m);
      && |e| == 36
      && DecodeLE(e[0..8]) == m.playerId
      && DecodeLE(e[8..16]) == m.x.bits
      && DecodeLE(e[16..24]) == m.y.bits
      && DecodeLE(e[24..32]) == m.angle.bits
      && e[32] == m.r && e[33] == m.g && e[34] == m.b
      && e[35] == (if m.holster then 1 else 0)
  {
    var e := Encode(m);
    assert e[0..8] == EncodeU64(m.playerId);
    assert e[8..16] == EncodeF64(m.x);
    assert e[16..24] == EncodeF64(m.y);
    assert e[24..32] == EncodeF64(m.angle);
    assert e[32..] == EncodeStatusTail(m.r, m.g, m.b, m.holster);
  }

  /** A `GreetingResponse` is its 8-byte `player_id`; a `Greeting` is an 8-byte length and the name's bytes. */
  lemma ShortRecordsLayout(id: U64, name: Text)
    ensures DecodeLE(Encode(GreetingResponse(id))) == id && |Encode(GreetingResponse(id))| == 8
    ensures var e := Encode(Greeting(name)); |e| == 8 + |name| && DecodeLE(e[..8]) == |name| && e[8..] == name
  {
  }

  /** A `PlayerStatus` needs all 36 bytes; fewer is an unexpected end of input. */
  lemma PlayerStatusNeedsAllBytes(s: Bytes)
    requires |s| < 36
    ensures Decode(PlayerStatusKind, s) == Err(UnexpectedEof)
  {
  }

  /** A `holster` byte other than 0 or 1 is rejected. */
  lemma PlayerStatusRejectsBadHolster(s: Bytes)
    requires |s| >= 36 && s[35] > 1
    ensures Decode(PlayerStatusKind, s) == Err(InvalidBoolEncoding(s[35]))
  {
    assert s[8..][8..][8..][8..] == s[32..];
    assert s[32..][1..][1..][1..] == s[35..];
    assert DecodeStatusTail(s[32..]) == Err(InvalidBoolEncoding(s[35]));
  }
}
