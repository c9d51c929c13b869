/**
 * The instruction decoder (src/instruction.rs): byte 0 selects the
 * command, the rest is a Borsh `{name: String, message: String}` payload.
 */
module Instruction {
  import opened Borsh
  import opened Host

  datatype StudentIntroInstruction =
    | AddIntro(name: Utf8, message: Utf8)
    | UpdateIntro(name: Utf8, message: Utf8)

  datatype StudentIntroPayload = StudentIntroPayload(name: Utf8, message: Utf8)

  /** Both strings fit a u32 length prefix. */
  predicate Encodable(name: Utf8, message: Utf8)
  {
    |name| < U32_LIMIT && |message| < U32_LIMIT
  }

  /** The payload as a client lays it out. */
  function EncodePayload(p: StudentIntroPayload): seq<byte>
    requires Encodable(p.name, p.message)
  {
    EncodeString(p.name) + EncodeString(p.message)
  }

  /**
   * `StudentIntroPayload::try_from_slice`: decode both strings, then refuse
   * any byte left over. What it accepts is exactly an encoded payload.
   */
  function DecodePayload(s: seq<byte>): (r: Parse<StudentIntroPayload>)
    ensures r.Parsed? ==> r.rest == []
    ensures r.Parsed? ==> Encodable(r.value.name, r.value.message) && s == EncodePayload(r.value)
  {
    match DecodeString(s)
    case Failed(e) => Failed(e)
    case Parsed(name, afterName) =>
      match DecodeString(afterName)
      case Failed(e) => Failed(e)
      case Parsed(message, afterMessage) =>
        if afterMessage != [] then Failed(NotAllBytesRead)
        else Parsed(StudentIntroPayload(name, message), [])
  }

  lemma PayloadRoundTrip(p: StudentIntroPayload)
    requires Encodable(p.name, p.message)
    ensures DecodePayload(EncodePayload(p)) == Parsed(p, [])
  {
    var m := EncodeString(p.message);
    StringRoundTrip(p.name, m);
    StringRoundTrip(p.message, []);
    assert m + [] == m;
  }

  function Opcode(ins: StudentIntroInstruction): byte
  {
    match ins
    case AddIntro(_, _) => 0
    case UpdateIntro(_, _) => 1
  }

  /** The instruction data a client sends for ins. */
  function Encode(ins: StudentIntroInstruction): seq<byte>
    requires Encodable(ins.name, ins.message)
  {
    [Opcode(ins)] + EncodePayload(StudentIntroPayload(ins.name, ins.message))
  }

  /**
   * `StudentIntroInstruction::unpack`. An empty input is an error; the
   * payload is decoded and unwrapped (a panic when malformed) before the
   * opcode is looked at; an opcode other than 0 and 1 is an error.
   */
  function Unpack(input: seq<byte>): (r: Outcome<StudentIntroInstruction>)
    ensures r.Err? ==> r.error == InvalidInstructionData
    ensures r.Ok? ==> Encodable(r.value.name, r.value.message) && input == Encode(r.value)
  {
    if input == [] then Err(InvalidInstructionData)
    else
      var cmd, rest := input[0], input[1..];
      match DecodePayload(rest)
      case Failed(_) => Panic
      case Parsed(payload, _) =>
        assert input == [cmd] + rest;
        if cmd == 0 then Ok(AddIntro(payload.name, payload.message))
        else if cmd == 1 then Ok(UpdateIntro(payload.name, payload.message))
        else Err(InvalidInstructionData)
  }

  lemma UnpackRoundTrip(ins: StudentIntroInstruction)
    requires Encodable(ins.name, ins.message)
    ensures Unpack(Encode(ins)) == Ok(ins)
  {
    var p := StudentIntroPayload(ins.name, ins.message);
    PayloadRoundTrip(p);
    assert Encode(ins)[1..] == EncodePayload(p);
  }

  /** Unpack accepts exactly the encodings of instructions, each as itself. */
  lemma UnpackAcceptsExactlyEncodings(input: seq<byte>, ins: StudentIntroInstruction)
    requires Encodable(ins.name, ins.message)
    ensures Unpack(input) == Ok(ins) <==> input == Encode(ins)
  {
    if input == Encode(ins) {
      UnpackRoundTrip(ins);
    }
    if Unpack(input) == Ok(ins) {
      assert input == Encode(ins);
    }
  }

  lemma UnpackEmptyIsError()
    ensures Unpack([]) == Err(InvalidInstructionData)
  {
  }

  /** A well-formed payload behind any opcode but 0 and 1 is refused with an error. */
  lemma UnpackUnknownOpcode(op: byte, p: StudentIntroPayload)
    requires op != 0 && op != 1 && Encodable(p.name, p.message)
    ensures Unpack([op] + EncodePayload(p)) == Err(InvalidInstructionData)
  {
    PayloadRoundTrip(p);
    assert ([op] + EncodePayload(p))[1..] == EncodePayload(p);
  }

  /**
   * A malformed payload panics whatever the opcode, unknown ones included:
   * the opcode is never looked at.
   */
  lemma UnpackMalformedPanics(op: byte, rest: seq<byte>)
    requires DecodePayload(rest).Failed?
    ensures Unpack([op] + rest) == Panic
  {
    assert ([op] + rest)[1..] == rest;
  }

  /** A payload shorter than a length prefix panics. */
  lemma UnpackTruncatedPrefixPanics(op: byte, rest: seq<byte>)
    requires |rest| < 4
    ensures Unpack([op] + rest) == Panic
  {
    UnpackMalformedPanics(op, rest);
  }

  /** A name length that overruns the input panics. */
  lemma UnpackOverrunPanics(op: byte, rest: seq<byte>)
    requires |rest| >= 4 && LeValue(rest[..4]) > |rest| - 4
    ensures Unpack([op] + rest) == Panic
  {
    StringOverrunFails(rest);
    UnpackMalformedPanics(op, rest);
  }

  /** A name that is not UTF-8 panics. */
  lemma UnpackInvalidUtf8Panics(op: byte, name: seq<byte>, more: seq<byte>)
    requires |name| < U32_LIMIT && !IsUtf8(name)
    ensures Unpack([op] + EncodeU32(|name|) + name + more) == Panic
  {
    var prefix := EncodeU32(|name|);
    var rest := prefix + name + more;
    StringInvalidUtf8Fails(name, more);
    assert DecodePayload(rest).Failed?;
    AppendAssociates([op], prefix, name);
    AppendAssociates([op], prefix + name, more);
    UnpackMalformedPanics(op, rest);
  }

  /** Any byte after the message panics, even after a well-formed payload. */
  lemma UnpackTrailingBytesPanics(op: byte, p: StudentIntroPayload, extra: seq<byte>)
    requires Encodable(p.name, p.message) && extra != []
    ensures Unpack([op] + EncodePayload(p) + extra) == Panic
  {
    var m := EncodeString(p.message);
    assert EncodePayload(p) + extra == EncodeString(p.name) + (m + extra);
    StringRoundTrip(p.name, m + extra);
    StringRoundTrip(p.message, extra);
    assert [op] + EncodePayload(p) + extra == [op] + (EncodePayload(p) + extra);
    UnpackMalformedPanics(op, EncodePayload(p) + extra);
  }
}
