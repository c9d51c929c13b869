/**
 * The record kept in each slot, StudentIntroState, and its Borsh layout:
 * `[is_initialized: u8][u32 LE len][name][u32 LE len][message]`.
 */
module State {
  import opened Borsh
  import opened Host

  datatype StudentIntroState = StudentIntroState(isInitialized: bool, name: Utf8, message: Utf8)

  /** Both strings fit a u32 length prefix, so Borsh can write the record. */
  predicate Serializable(st: StudentIntroState)
  {
    |st.name| < U32_LIMIT && |st.message| < U32_LIMIT
  }

  function Serialize(st: StudentIntroState): (r: seq<byte>)
    requires Serializable(st)
    ensures |r| == 1 + (4 + |st.name|) + (4 + |st.message|)
    ensures r[0] == if st.isInitialized then 1 else 0
  {
    EncodeBool(st.isInitialized) + EncodeString(st.name) + EncodeString(st.message)
  }

  /**
   * `StudentIntroState::deserialize` on a reader: decodes a record from the
   * front of s and leaves the rest unread. What it decodes is always a
   * serialised record followed by the rest.
   */
  function Deserialize(s: seq<byte>): (r: Parse<StudentIntroState>)
    ensures r.Parsed? ==> Serializable(r.value) && s == Serialize(r.value) + r.rest
  {
    match DecodeBool(s)
    case Failed(e) => Failed(e)
    case Parsed(flag, afterFlag) =>
      match DecodeString(afterFlag)
      case Failed(e) => Failed(e)
      case Parsed(name, afterName) =>
        match DecodeString(afterName)
        case Failed(e) => Failed(e)
        case Parsed(message, afterMessage) =>
          var st := StudentIntroState(flag, name, message);
          SerializeSplits(st, afterMessage);
          Parsed(st, afterMessage)
  }

  /** The serialised record followed by rest, field by field. */
  lemma SerializeSplits(st: StudentIntroState, rest: seq<byte>)
    requires Serializable(st)
    ensures Serialize(st) + rest
         == EncodeBool(st.isInitialized) + (EncodeString(st.name) + (EncodeString(st.message) + rest))
  {
  }

  lemma DeserializeSerialize(st: StudentIntroState, rest: seq<byte>)
    requires Serializable(st)
    ensures Deserialize(Serialize(st) + rest) == Parsed(st, rest)
  {
    var n := EncodeString(st.name);
    var m := EncodeString(st.message);
    assert Serialize(st) + rest == EncodeBool(st.isInitialized) + (n + (m + rest));
    StringRoundTrip(st.name, m + rest);
    StringRoundTrip(st.message, rest);
  }

  /** The result of serialising into a slice, and the slice's bytes afterwards. */
  datatype Written = Written(result: Outcome<()>, data: seq<byte>)

  /**
   * Borsh serialisation into a `&mut [u8]`: the bytes go to the front of
   * buf; when they do not all fit, what fits is written and the write fails.
   */
  function SerializeOver(buf: seq<byte>, st: StudentIntroState): (w: Written)
    requires Serializable(st)
    ensures |w.data| == |buf|
    ensures w.result == Ok(()) <==> |Serialize(st)| <= |buf|
    ensures w.result != Ok(()) ==> w.result == Err(BorshIoError)
    ensures forall i :: 0 <= i < |buf| ==>
      w.data[i] == if i < |Serialize(st)| then Serialize(st)[i] else buf[i]
  {
    var bytes := Serialize(st);
    if |bytes| <= |buf| then Written(Ok(()), bytes + buf[|bytes|..])
    else Written(Err(BorshIoError), bytes[..|buf|])
  }

  /**
   * Writing a record into a buffer that can hold it succeeds, reads back as
   * the record, and keeps every byte past the record.
   */
  lemma SerializeOverThenDeserialize(buf: seq<byte>, st: StudentIntroState)
    requires Serializable(st) && |Serialize(st)| <= |buf|
    ensures SerializeOver(buf, st).result == Ok(())
    ensures |SerializeOver(buf, st).data| == |buf|
    ensures Deserialize(SerializeOver(buf, st).data) == Parsed(st, buf[|Serialize(st)|..])
    ensures SerializeOver(buf, st).data[|Serialize(st)|..] == buf[|Serialize(st)|..]
  {
    DeserializeSerialize(st, buf[|Serialize(st)|..]);
  }

  /** `account_data.serialize(&mut &mut data[..])`, writing into the slot in place. */
  method SerializeInto(st: StudentIntroState, data: array<byte>) returns (r: Outcome<()>)
    requires Serializable(st)
    modifies data
    ensures r == SerializeOver(old(data[..]), st).result
    ensures data[..] == SerializeOver(old(data[..]), st).data
  {
    var bytes := Serialize(st);
    var n := if |bytes| <= data.Length then |bytes| else data.Length;
    forall i | 0 <= i < n {
      data[i] := bytes[i];
    }
    r := if |bytes| <= data.Length then Ok(()) else Err(BorshIoError);
    assert data[..] == bytes[..n] + old(data[..])[n..];
  }
}
