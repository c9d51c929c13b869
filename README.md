# Student introductions on Solana, modelled in Dafny

The program keeps one introduction record (an initialised flag, a name and a
message) per signer, in an account at an address derived from the signer's
key and the program's id. The instruction data is one opcode byte followed
by a Borsh-encoded `{name, message}` payload:

- opcode 0, `add_intro`, creates the signer's slot and writes the first record;
- opcode 1, `update_intro`, rewrites the name and message of a slot that is
  already initialised.

The model covers the instruction decoder, the two operations with their
ordered checks, the record layout and the program's error codes.

Files and modules:

- `borsh.dfy` (`Borsh`): the Borsh pieces the program relies on. These are
  little-endian u32, the strict one-byte bool, and strings stored as a u32
  length followed by bytes that must be well-formed UTF-8 (Table 3-7 of the
  Unicode Standard). Each decoder returns the value and the unread rest.
- `host.dfy` (`Host`): what the runtime supplies. This holds `Pubkey` (32
  bytes), the `ProgramError` variants the program can meet, and `Outcome`
  (`Ok`, `Err`, or `Panic` for an `unwrap` on an error). `AccountInfo` is a
  class whose `owner` and `data` buffer change in place; `View`/`Views` take
  value snapshots of accounts. `OnePerAccount` says the runtime passes one
  handle per account.
- `error.dfy` (`StudentIntroErrors`): the program's error enum and its
  conversion to `ProgramError::Custom`.
- `instruction.dfy` (`Instruction`): `unpack` and the encoding a client uses.
- `state.dfy` (`State`): the record, its Borsh layout, and serialising it into
  an account's buffer in place.
- `processor.dfy` (`Processor`): reading a record from a slot
  (`my_try_from_slice_unchecked`), and `add_intro`, `update_intro` and
  `process_instrcution`. Each operation appears twice. A function from
  account values to the result and the new account values (`AddIntroSpec`,
  `UpdateIntroSpec`) carries the lemmas. A method over the runtime's account
  handles changes the slot in place and is proved to do what that function
  says.

Behaviour of the program that a reader might not expect, and that the
model keeps:

- A malformed payload panics at the `unwrap` (src/instruction.rs:20),
  whatever the opcode, because the opcode is looked at only afterwards.
  Empty instruction data gives `InvalidInstructionData`
  (src/instruction.rs:17-19). Among non-empty inputs, only a well-formed
  payload behind an opcode other than 0 and 1 gives `InvalidInstructionData`
  (src/instruction.rs:30).
- A slot whose record cannot be read panics at the `unwrap` in both
  operations (src/processor.rs:101-102 and 147-148). No error code is
  returned for it.
- The `AccountAlreadyInitialized` branch of `add_intro`
  (src/processor.rs:105-107) cannot be reached. The slot is first created
  through the system program, which fails on an account that already
  exists. A slot it creates is all zeros and reads as uninitialised
  (Processor.AddIntroSucceeds). Adding an introduction for a signer that
  already has one returns whatever error `create_account` returns, and no
  account changes (Processor.AddIntroNeverOverwrites).
- `update_intro` never compares the slot with the address derived from the
  payer. It checks three things: the payer signs, the program owns the slot
  (src/processor.rs:140-145), and the slot is initialised
  (src/processor.rs:149-151).

## Model

| member | source | states |
|---|---|---|
| StudentIntroErrors.ToProgramError | src/error.rs:12-16 | every program error becomes `Custom(code)`, where `code` is the variant's position in the declaration order (`InvalidDataLength` is 0, `InvalidPDA` is 1) |
| StudentIntroErrors.ToProgramErrorInjective | src/error.rs:4-16 | distinct program errors reach the caller as distinct codes |
| Borsh.DecodeU32 | src/instruction.rs:20 | a u32 read fails exactly when fewer than 4 bytes remain; a decoded value is below 2^32 and the input is its 4-byte little-endian encoding followed by the rest |
| Borsh.U32RoundTrip | src/instruction.rs:20 | decoding the little-endian encoding of any u32 gives the number back and leaves the following bytes unread |
| Borsh.DecodeBool | src/processor.rs:23 | a bool read succeeds exactly when the first byte is 0 or 1, and the input is then the bool's encoding followed by the rest |
| Borsh.DecodeString | src/instruction.rs:20 | a decoded string is UTF-8, fits a u32 length, and the input is its length prefix and bytes followed by the rest |
| Borsh.StringRoundTrip | src/instruction.rs:20 | decoding an encoded string gives it back and leaves the following bytes unread |
| Borsh.StringOverrunFails | src/instruction.rs:20 | a length prefix larger than the bytes that follow is refused |
| Borsh.StringInvalidUtf8Fails | src/instruction.rs:20 | bytes that are not UTF-8 are refused even when the length is right |
| Borsh.LeValueOfLeBytes | src/instruction.rs:20 | reading back the k little-endian digits of a number below 256^k gives the number |
| Borsh.LeBytesOfLeValue | src/instruction.rs:20 | every byte sequence is the little-endian encoding of the number it denotes |
| Instruction.DecodePayload | src/instruction.rs:9-13 | `StudentIntroPayload::try_from_slice` consumes all of its input, and the input it accepts is exactly the encoding of the decoded name and message |
| Instruction.PayloadRoundTrip | src/instruction.rs:9-13 | decoding an encoded payload gives it back |
| Instruction.Unpack | src/instruction.rs:16-32 | an error from `unpack` is always `InvalidInstructionData`; an accepted input is exactly the client encoding of the decoded instruction |
| Instruction.UnpackRoundTrip | src/instruction.rs:16-32 | unpacking an encoded AddIntro or UpdateIntro gives it back |
| Instruction.UnpackAcceptsExactlyEncodings | src/instruction.rs:16-32 | `unpack` returns a given instruction if and only if the input is that instruction's encoding |
| Instruction.UnpackEmptyIsError | src/instruction.rs:17-19 | empty instruction data is `InvalidInstructionData` |
| Instruction.UnpackUnknownOpcode | src/instruction.rs:21-30 | a well-formed payload behind any opcode other than 0 and 1 is `InvalidInstructionData` |
| Instruction.UnpackMalformedPanics | src/instruction.rs:20 | a payload that does not decode panics whatever the opcode, because the opcode is looked at only after the unwrap |
| Instruction.UnpackTruncatedPrefixPanics | src/instruction.rs:20 | a payload shorter than a length prefix panics |
| Instruction.UnpackOverrunPanics | src/instruction.rs:20 | a name length larger than the remaining input panics |
| Instruction.UnpackInvalidUtf8Panics | src/instruction.rs:20 | a name that is not UTF-8 panics |
| Instruction.UnpackTrailingBytesPanics | src/instruction.rs:20 | any byte after a well-formed payload panics, because `try_from_slice` refuses leftovers |
| State.Serialize | src/processor.rs:112 | the record takes 1 + (4 + name length) + (4 + message length) bytes, and its first byte is the initialised flag |
| State.Deserialize | src/processor.rs:23 | a record read from the front of a buffer is always a serialised record followed by the unread rest |
| State.DeserializeSerialize | src/processor.rs:23 | a serialised record reads back as itself, whatever follows it |
| State.SerializeOver | src/processor.rs:112 | Borsh serialisation into a `&mut [u8]` keeps the buffer's size. It succeeds exactly when the record fits and otherwise fails with `BorshIoError`. Either way the buffer holds the record's bytes as far as they reach and its old bytes after them |
| State.SerializeOverThenDeserialize | src/processor.rs:112 | writing a record into a buffer that can hold it succeeds, keeps the buffer's size and every byte past the record, and reads back as the record |
| State.SerializeInto | src/processor.rs:112 | serialising into an account's buffer in place leaves the buffer as `SerializeOver` says: the record at the front when it fits, otherwise the part that fits and `BorshIoError` |
| Processor.TryFromSliceUnchecked | src/processor.rs:19-27 | reading a record never panics; a failure is always `InvalidInstructionData`; a record read is serialisable and its encoding is a prefix of the data |
| Processor.TryFromSliceUncheckedIgnoresTail | src/processor.rs:19-27 | bytes after a readable record do not change what is read |
| Processor.TryFromSliceUncheckedSerialize | src/processor.rs:19-27 | a record at the front of the buffer reads back, whatever follows it |
| Processor.ZeroSlotDecodesEmpty | src/processor.rs:101-102 | a zero-filled slot of at least 9 bytes reads as an uninitialised record with empty name and message |
| Processor.FlagIsFirstByte | src/processor.rs:149 | a readable slot is initialised exactly when its first byte is 1 |
| Processor.WriteFirstRecordSpec | src/processor.rs:84-113 | after create_account and the first write, the slot keeps its key and signer flag and is owned by the program |
| Processor.AddIntroSpec | src/processor.rs:46-114 | `add_intro` on the accounts' values keeps the number of accounts. Every account is unchanged except listings of the slot (position 1), which keep the slot's key and signer flag and become owned by the program; the lemmas below state the result and the slot's contents |
| Processor.UpdateIntroSpec | src/processor.rs:116-163 | `update_intro` on the accounts' values keeps the number of accounts. Every account is unchanged except listings of the slot (position 1), and of those only the data may change, never its size; the lemmas below state the result and the new contents |
| Processor.AddIntroCheckOrder | src/processor.rs:57-98 | `add_intro` runs its checks in this order: length over 1000 (`Custom(0)`), fewer than three accounts, initializer not signing, slot not at the derived address (`Custom(1)`), create_account failing; the first check that fails decides the error and no account changes |
| Processor.AddIntroSucceeds | src/processor.rs:84-113 | once the checks pass and the slot is created, `add_intro` succeeds. Every listing of the slot is then owned by the program, holds 1000 bytes and reads as the initialised record with the given name and message; every other account is unchanged |
| Processor.AddIntroOkIff | src/processor.rs:46-114 | `add_intro` succeeds if and only if every check passes and create_account succeeds |
| Processor.AddIntroNeverOverwrites | src/processor.rs:84-98 | when `create_account` refuses a slot that already holds data, `add_intro` on a slot holding a readable record fails and leaves every account unchanged, so an existing introduction is never overwritten |
| Processor.AddIntroLengthError | src/processor.rs:57-61 | an over-long record gives `Custom(0)` with no account changed; with a record that fits, `Custom(0)` can come only from the system program's own `Custom(0)` |
| Processor.UpdateIntroCheckOrder | src/processor.rs:126-160 | `update_intro` runs its checks in this order: length over 1000, fewer than three accounts, payer not signing, slot not owned by the program, slot unreadable (a panic), slot not initialised. The first that fails decides the outcome and no account changes, and the slot's address is never checked. When all pass but the new record is longer than the slot's buffer, the result is `BorshIoError` and the slot holds the part of the record that fits |
| Processor.UpdateIntroOkIff | src/processor.rs:116-163 | `update_intro` succeeds if and only if every check passes on an initialised slot and the new record fits the slot's buffer |
| Processor.UpdateIntroOkWritesRecord | src/processor.rs:158-162 | when `update_intro` succeeds, every listing of the slot reads as the initialised record with exactly the new name and message |
| Processor.UpdateIntroLengthErrorIff | src/processor.rs:126-130 | `update_intro` reports `Custom(0)` if and only if the record is longer than 1000 bytes |
| Processor.UpdateIntroSucceeds | src/processor.rs:143-162 | after the checks pass on an initialised slot that can hold the new record, `update_intro` succeeds. The slot keeps its key, owner and size, reads as the initialised record with the new name and message, and keeps every byte past it; every other account is unchanged |
| Processor.UpdateIntroKeepsInitialized | src/processor.rs:147-160 | `update_intro` never turns an initialised slot into an uninitialised one: afterwards the slot reads as initialised or cannot be read at all |
| Processor.AddThenUpdate | src/processor.rs:46-163 | after a successful `add_intro`, an `update_intro` signed by the same initializer succeeds, and the slot reads as the record with the update's name and message |
| Processor.NextAccountInfo | src/processor.rs:64-67 | the i-th account is returned exactly when there is one; otherwise `NotEnoughAccountKeys` |
| Processor.AddIntro | src/processor.rs:46-114 | on the runtime's account handles, `add_intro` returns what `AddIntroSpec` returns, and every account then has the value `AddIntroSpec` gives it |
| Processor.WriteFirstRecord | src/processor.rs:84-113 | on the slot's handle, create_account and the first write leave the slot as `WriteFirstRecordSpec` says |
| Processor.UpdateIntro | src/processor.rs:116-163 | on the runtime's account handles, `update_intro` returns what `UpdateIntroSpec` returns, and every account then has the value `UpdateIntroSpec` gives it |
| Processor.SlotStored | src/processor.rs:101-112 | when only the slot's handle has changed, the accounts read as before with every listing of the slot replaced by its new value |
| Processor.ProcessInstruction | src/processor.rs:29-44 | an error or panic from `unpack` is returned with no account changed; AddIntro does what `AddIntroSpec` says and UpdateIntro what `UpdateIntroSpec` says, each with the decoded name and message |

## Left out

- Logging (`msg!`) has no effect on the result and is not modelled.
- The entrypoint (`src/entrypoint.rs`) only forwards to `process_instrcution` and is not modelled.
- `src/state.rs` is not part of this model. The record layout is taken to
  be the initialised flag, then the name, then the message, in that order.
  `is_initialized()` is taken to return the flag.
- `Pubkey::find_program_address` is a parameter of the model (a function
  from the signer's key and the program id to an address and a bump seed).
  Its hashing and its search over bump seeds are not modelled.
- `Rent::get`, the rent computation and the `create_account` call through
  `invoke_signed` are one parameter (`CreateAccount`): either the error
  they return, or a new slot of 1000 zero bytes owned by the program.
  Lamports and the payer's balance are not modelled.
- Processor.AddIntroSpec: the `create` parameter is not tied to the slot's
  previous state, so the model alone does not rule out `Created` for a slot
  that already holds a record. The system program's refusal of an account in
  use is stated as the hypothesis `CreateRefusesExisting`, under which
  Processor.AddIntroNeverOverwrites proves that no record is overwritten.
- Processor.AddIntroLengthError: the length error cannot be told apart from
  a `Custom(0)` returned by the system program, so the "if and only if" is
  stated only up to that collision.
- On an error the runtime discards every account change of the
  instruction; the model shows the accounts as the program left them.
- `usize` overflow in `1 + (4 + name.len()) + (4 + message.len())` is not
  modelled, because names and messages come from instruction data far
  shorter than the overflow bound.
- The Borsh bool decoder is taken to be strict: a byte other than 0 and 1
  is refused. The Borsh version in use is not part of this model.
- A reader's cursor (`&mut &[u8]`) is modelled as the unread rest that a
  decoder returns, not as a mutable reference.
