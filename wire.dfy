/**
 * The fixed-width little-endian layout that bincode 1.x uses by default for the primitive
 * types the messages are built from: `u64`/`usize` as 8 bytes, `f64` as the 8 bytes of its
 * bit pattern, `u8` as 1 byte, `bool` as 1 byte that must be 0 or 1, and `String` as a u64
 * byte count followed by UTF-8 bytes. Each decoder returns the value and the unread rest,
 * the way `deserialize_from` leaves a reader positioned after what it consumed.
 */
module Wire {
  import opened Wrappers
  import Utf8
  import Octets

  type Bytes = seq<bv8>

  const U64_BOUND: nat := 0x1_0000_0000_0000_0000

  /** `u64`, and `usize` on the 64-bit targets the program runs on. */
  type U64 = n: nat | n < U64_BOUND

  /** An `f64`, carried as its IEEE-754 bit pattern; the model never computes with it. */
  datatype F64 = F64(bits: U64)

  /** A Rust `String`: well-formed UTF-8 whose length fits a `usize`. */
  type Text = s: Bytes | Utf8.Valid(s) && |s| < U64_BOUND witness []

  datatype DecodeError = UnexpectedEof | InvalidBoolEncoding(tag: bv8) | InvalidUtf8Encoding

  datatype Decoded<+T> = Decoded(value: T, rest: Bytes)

  function Pow256(k: nat): (r: nat)
    ensures r > 0
  {
    if k == 0 then 1 else 256 * Pow256(k - 1)
  }

  lemma Pow256Eight()
    ensures Pow256(8) == U64_BOUND
  {
  }

  /** `n` as `width` little-endian bytes. */
  function EncodeLE(n: nat, width: nat): (r: Bytes)
    requires n < Pow256(width)
    ensures |r| == width
  {
    if width == 0 then [] else [(n % 256) as bv8] + EncodeLE(n / 256, width - 1)
  }

  /** The number whose little-endian bytes are `s`. */
  function DecodeLE(s: Bytes): (r: nat)
    ensures r < Pow256(|s|)
  {
    if s == [] then 0 else s[0] as nat + 256 * DecodeLE(s[1..])
  }

  lemma {:induction false} DecodeEncodeLE(n: nat, width: nat)
    requires n < Pow256(width)
    ensures DecodeLE(EncodeLE(n, width)) == n
  {
    if width > 0 {
      var e := EncodeLE(n, width);
      var lo, hi := n % 256, n / 256;
      Octets.ByteAsNat(lo);
      assert e == [lo as bv8] + EncodeLE(hi, width - 1);
      assert e[1..] == EncodeLE(hi, width - 1);
      DecodeEncodeLE(hi, width - 1);
      assert DecodeLE(e) == lo + 256 * hi;
    }
  }

  lemma {:induction false} EncodeDecodeLE(s: Bytes)
    ensures EncodeLE(DecodeLE(s), |s|) == s
  {
    if s != [] {
      var b, d := s[0] as nat, DecodeLE(s[1..]);
      DivMod256(b, d);
      Octets.NatAsByte(s[0]);
      EncodeDecodeLE(s[1..]);
      assert EncodeLE(DecodeLE(s), |s|) == [b as bv8] + EncodeLE(d, |s| - 1);
    }
  }

  lemma DivMod256(b: nat, d: nat)
    requires b < 256
    ensures (b + 256 * d) % 256 == b && (b + 256 * d) / 256 == d
  {
  }

  function EncodeU64(n: U64): (r: Bytes)
    ensures |r| == 8 && DecodeLE(r) == n
  {
    Pow256Eight();
    DecodeEncodeLE(n, 8);
    EncodeLE(n, 8)
  }

  function DecodeU64(s: Bytes): Result<Decoded<U64>, DecodeError> {
    if |s| < 8 then Err(UnexpectedEof)
    else
      Pow256Eight();
      Ok(Decoded(DecodeLE(s[..8]), s[8..]))
  }

  function EncodeU8(b: bv8): Bytes {
    [b]
  }

  function DecodeU8(s: Bytes): Result<Decoded<bv8>, DecodeError> {
    if |s| < 1 then Err(UnexpectedEof) else Ok(Decoded(s[0], s[1..]))
  }

  function EncodeBool(b: bool): Bytes {
    [if b then 1 else 0]
  }

  function DecodeBool(s: Bytes): Result<Decoded<bool>, DecodeError> {
    if |s| < 1 then Err(UnexpectedEof)
    else if s[0] == 1 then Ok(Decoded(true, s[1..]))
    else if s[0] == 0 then Ok(Decoded(false, s[1..]))
    else Err(InvalidBoolEncoding(s[0]))
  }

  function EncodeF64(f: F64): Bytes {
    EncodeU64(f.bits)
  }

  function DecodeF64(s: Bytes): Result<Decoded<F64>, DecodeError> {
    var d :- DecodeU64(s);
    Ok(Decoded(F64(d.value), d.rest))
  }

  function EncodeStr(t: Text): Bytes {
    EncodeU64(|t|) + t
  }

  function DecodeStr(s: Bytes): Result<Decoded<Text>, DecodeError> {
    var len :- DecodeU64(s);
    if |len.rest| < len.value then Err(UnexpectedEof)
    else if !Utf8.Valid(len.rest[..len.value]) then Err(InvalidUtf8Encoding)
    else Ok(Decoded(len.rest[..len.value], len.rest[len.value..]))
  }

  // Round trips: decoding what was encoded gives the value back and leaves exactly the bytes
  // that followed.

  lemma U64RoundTrip(n: U64, rest: Bytes)
    ensures DecodeU64(EncodeU64(n) + rest) == Ok(Decoded(n, rest))
  {
    var e := EncodeU64(n);
    assert (e + rest)[..8] == e;
    assert (e + rest)[8..] == rest;
  }

  lemma U8RoundTrip(b: bv8, rest: Bytes)
    ensures DecodeU8(EncodeU8(b) + rest) == Ok(Decoded(b, rest))
  {
    assert (EncodeU8(b) + rest)[1..] == rest;
  }

  lemma BoolRoundTrip(b: bool, rest: Bytes)
    ensures DecodeBool(EncodeBool(b) + rest) == Ok(Decoded(b, rest))
  {
    assert (EncodeBool(b) + rest)[1..] == rest;
  }

  lemma F64RoundTrip(f: F64, rest: Bytes)
    ensures DecodeF64(EncodeF64(f) + rest) == Ok(Decoded(f, rest))
  {
    U64RoundTrip(f.bits, rest);
  }

  lemma StrRoundTrip(t: Text, rest: Bytes)
    ensures DecodeStr(EncodeStr(t) + rest) == Ok(Decoded(t, rest))
  {
    var s := EncodeU64(|t|) + (t + rest);
    assert EncodeStr(t) + rest == s;
    U64RoundTrip(|t|, t + rest);
    assert (t + rest)[..|t|] == t;
    assert (t + rest)[|t|..] == rest;
  }

  // Inverse direction: whatever a decoder accepts is the encoding of what it returned,
  // followed by the rest, so no two inputs decode to the same value and rest.

  lemma U64Inverse(s: Bytes)
    requires DecodeU64(s).Ok?
    ensures s == EncodeU64(DecodeU64(s).value.value) + DecodeU64(s).value.rest
  {
    EncodeDecodeLE(s[..8]);
    assert s == s[..8] + s[8..];
  }

  lemma U8Inverse(s: Bytes)
    requires DecodeU8(s).Ok?
    ensures s == EncodeU8(DecodeU8(s).value.value) + DecodeU8(s).value.rest
  {
  }

  lemma BoolInverse(s: Bytes)
    requires DecodeBool(s).Ok?
    ensures s == EncodeBool(DecodeBool(s).value.value) + DecodeBool(s).value.rest
  {
  }

  lemma F64Inverse(s: Bytes)
    requires DecodeF64(s).Ok?
    ensures s == EncodeF64(DecodeF64(s).value.value) + DecodeF64(s).value.rest
  {
    U64Inverse(s);
  }

  lemma StrInverse(s: Bytes)
    requires DecodeStr(s).Ok?
    ensures s == EncodeStr(DecodeStr(s).value.value) + DecodeStr(s).value.rest
  {
    var len := DecodeU64(s).value;
    U64Inverse(s);
    assert len.rest == len.rest[..len.value] + len.rest[len.value..];
  }

  lemma Assoc3(a: Bytes, b: Bytes, c: Bytes, d: Bytes)
    ensures a + (b + (c + d)) == (a + (b + c)) + d
  {
  }

  // Failures.

  lemma BoolRejectsOtherTags(s: Bytes)
    requires |s| >= 1 && s[0] > 1
    ensures DecodeBool(s) == Err(InvalidBoolEncoding(s[0]))
  {
  }

  lemma StrRejectsShortBody(s: Bytes)
    requires |s| >= 8 && DecodeLE(s[..8]) > |s| - 8
    ensures DecodeStr(s) == Err(UnexpectedEof)
  {
  }

  lemma StrRejectsMalformedBody(s: Bytes)
    requires |s| >= 8 && DecodeLE(s[..8]) <= |s| - 8
    requires !Utf8.Valid(s[8..8 + DecodeLE(s[..8])])
    ensures DecodeStr(s) == Err(InvalidUtf8Encoding)
  {
    assert s[8..][..DecodeLE(s[..8])] == s[8..8 + DecodeLE(s[..8])];
  }
}
