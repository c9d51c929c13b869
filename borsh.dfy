/**
 * The part of the Borsh binary format the program relies on: unsigned
 * 32-bit little-endian integers, booleans stored as one byte, and strings
 * stored as a u32 length followed by that many UTF-8 bytes.
 *
 * A decoder is a function from the input to the decoded value and the
 * unread rest of the input (the position a Rust `&mut &[u8]` reader has
 * advanced to), or to the reason it failed.
 */
module Borsh {

  newtype byte = x: int | 0 <= x < 256

  /** One more than the largest u32. */
  const U32_LIMIT: int := 0x1_0000_0000

  /** Why a Borsh decoder gave up; the program only ever sees that it did. */
  datatype BorshError = UnexpectedEof | InvalidBool | InvalidUtf8 | NotAllBytesRead

  datatype Parse<+T> = Parsed(value: T, rest: seq<byte>) | Failed(error: BorshError)

  // ---------------------------------------------------------------------
  // Little-endian integers

  function Pow256(k: nat): (p: nat)
    ensures p > 0
  {
    if k == 0 then 1 else 256 * Pow256(k - 1)
  }

  /** The k least significant base-256 digits of n, least significant first. */
  function LeBytes(n: nat, k: nat): (s: seq<byte>)
    ensures |s| == k
  {
    if k == 0 then [] else [(n % 256) as byte] + LeBytes(n / 256, k - 1)
  }

  /** The number whose little-endian digits are s. */
  function LeValue(s: seq<byte>): (v: nat)
    ensures v < Pow256(|s|)
  {
    if s == [] then 0 else s[0] as nat + 256 * LeValue(s[1..])
  }

  lemma {:induction false} LeValueOfLeBytes(n: nat, k: nat)
    requires n < Pow256(k)
    ensures LeValue(LeBytes(n, k)) == n
  {
    if k > 0 {
      LeValueOfLeBytes(n / 256, k - 1);
      assert LeBytes(n, k)[1..] == LeBytes(n / 256, k - 1);
    }
  }

  lemma {:induction false} LeBytesOfLeValue(s: seq<byte>)
    ensures LeBytes(LeValue(s), |s|) == s
  {
    if s != [] {
      var v := LeValue(s[1..]);
      LeBytesOfLeValue(s[1..]);
      assert LeValue(s) == s[0] as nat + 256 * v;
      assert LeValue(s) % 256 == s[0] as nat;
      assert LeValue(s) / 256 == v;
    }
  }

  lemma U32LimitIsPow256()
    ensures Pow256(4) == U32_LIMIT
  {
    assert Pow256(2) == 65536;
  }

  function EncodeU32(n: nat): (s: seq<byte>)
    requires n < U32_LIMIT
    ensures |s| == 4
  {
    LeBytes(n, 4)
  }

  /** Reads a u32; a decoded value is always what EncodeU32 writes. */
  function DecodeU32(s: seq<byte>): (r: Parse<nat>)
    ensures r.Failed? <==> |s| < 4
    ensures r.Parsed? ==> r.value < U32_LIMIT && s == EncodeU32(r.value) + r.rest
  {
    if |s| < 4 then Failed(UnexpectedEof)
    else
      U32LimitIsPow256();
      LeBytesOfLeValue(s[..4]);
      assert s == s[..4] + s[4..];
      Parsed(LeValue(s[..4]), s[4..])
  }

  lemma U32RoundTrip(n: nat, rest: seq<byte>)
    requires n < U32_LIMIT
    ensures DecodeU32(EncodeU32(n) + rest) == Parsed(n, rest)
  {
    var s := EncodeU32(n) + rest;
    U32LimitIsPow256();
    LeValueOfLeBytes(n, 4);
    assert s[..4] == EncodeU32(n);
    assert s[4..] == rest;
  }

  // ---------------------------------------------------------------------
  // Booleans

  function EncodeBool(b: bool): seq<byte>
  {
    [if b then 1 else 0]
  }

  /** Reads a bool: 0 is false, 1 is true, every other byte is refused. */
  function DecodeBool(s: seq<byte>): (r: Parse<bool>)
    ensures r.Parsed? <==> |s| > 0 && s[0] <= 1
    ensures r.Parsed? ==> s == EncodeBool(r.value) + r.rest
  {
    if |s| == 0 then Failed(UnexpectedEof)
    else if s[0] == 0 then Parsed(false, s[1..])
    else if s[0] == 1 then Parsed(true, s[1..])
    else Failed(InvalidBool)
  }

  // ---------------------------------------------------------------------
  // UTF-8 (well-formed byte sequences, Table 3-7 of the Unicode Standard)

  predicate IsContinuation(b: byte)
  {
    0x80 <= b <= 0xBF
  }

  /**
   * The number of bytes of the well-formed scalar value encoding at the
   * front of s, or 0 if s does not start with one (a stray continuation
   * byte, an overlong form, a surrogate, a value above U+10FFFF, or a
   * truncated sequence).
   */
  function ScalarWidth(s: seq<byte>): (w: nat)
    requires s != []
    ensures w <= |s| && w <= 4
  {
    var b := s[0];
    if b <= 0x7F then 1
    else if 0xC2 <= b <= 0xDF then
      (if |s| >= 2 && IsContinuation(s[1]) then 2 else 0)
    else if b == 0xE0 then
      (if |s| >= 3 && 0xA0 <= s[1] <= 0xBF && IsContinuation(s[2]) then 3 else 0)
    else if 0xE1 <= b <= 0xEC || 0xEE <= b <= 0xEF then
      (if |s| >= 3 && IsContinuation(s[1]) && IsContinuation(s[2]) then 3 else 0)
    else if b == 0xED then
      (if |s| >= 3 && 0x80 <= s[1] <= 0x9F && IsContinuation(s[2]) then 3 else 0)
    else if b == 0xF0 then
      (if |s| >= 4 && 0x90 <= s[1] <= 0xBF && IsContinuation(s[2]) && IsContinuation(s[3]) then 4 else 0)
    else if 0xF1 <= b <= 0xF3 then
      (if |s| >= 4 && IsContinuation(s[1]) && IsContinuation(s[2]) && IsContinuation(s[3]) then 4 else 0)
    else if b == 0xF4 then
      (if |s| >= 4 && 0x80 <= s[1] <= 0x8F && IsContinuation(s[2]) && IsContinuation(s[3]) then 4 else 0)
    else 0
  }

  predicate IsUtf8(s: seq<byte>)
    decreases |s|
  {
    s == [] || (ScalarWidth(s) > 0 && IsUtf8(s[ScalarWidth(s)..]))
  }

  /** The bytes of a Rust `String`: `len()` counts these bytes. */
  type Utf8 = s: seq<byte> | IsUtf8(s) witness []

  // ---------------------------------------------------------------------
  // Strings

  function EncodeString(s: Utf8): (r: seq<byte>)
    requires |s| < U32_LIMIT
    ensures |r| == 4 + |s|
  {
    EncodeU32(|s|) + s
  }

  /**
   * Reads a String: a u32 length, then that many bytes, which must be
   * UTF-8. A decoded string is always what EncodeString writes.
   */
  function DecodeString(s: seq<byte>): (r: Parse<Utf8>)
    ensures r.Parsed? ==> |r.value| < U32_LIMIT && s == EncodeString(r.value) + r.rest
  {
    match DecodeU32(s)
    case Failed(e) => Failed(e)
    case Parsed(len, rest) =>
      if len > |rest| then Failed(UnexpectedEof)
      else if !IsUtf8(rest[..len]) then Failed(InvalidUtf8)
      else
        assert rest == rest[..len] + rest[len..];
        Parsed(rest[..len], rest[len..])
  }

  lemma StringRoundTrip(s: Utf8, rest: seq<byte>)
    requires |s| < U32_LIMIT
    ensures DecodeString(EncodeString(s) + rest) == Parsed(s, rest)
  {
    var input := EncodeString(s) + rest;
    assert input == EncodeU32(|s|) + (s + rest);
    U32RoundTrip(|s|, s + rest);
    assert (s + rest)[..|s|] == s;
    assert (s + rest)[|s|..] == rest;
  }

  /** A length prefix that promises more bytes than follow is refused. */
  lemma StringOverrunFails(s: seq<byte>)
    requires |s| >= 4 && LeValue(s[..4]) > |s| - 4
    ensures DecodeString(s).Failed?
  {
  }

  /**
   * Concatenation is associative. Dafny knows this already; stating it as a
   * lemma lets a proof regroup a concatenation in one cheap step.
   */
  lemma AppendAssociates(a: seq<byte>, b: seq<byte>, c: seq<byte>)
    ensures (a + b) + c == a + (b + c)
  {
  }

  /** Bytes that are not UTF-8 are refused even when the length is right. */
  lemma StringInvalidUtf8Fails(s: seq<byte>, rest: seq<byte>)
    requires |s| < U32_LIMIT && !IsUtf8(s)
    ensures DecodeString(EncodeU32(|s|) + s + rest).Failed?
  {
    assert EncodeU32(|s|) + s + rest == EncodeU32(|s|) + (s + rest);
    U32RoundTrip(|s|, s + rest);
    assert (s + rest)[..|s|] == s;
  }
}
