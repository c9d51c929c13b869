/**
 * The record store (src/processor.rs): `process_instrcution` dispatches a
 * decoded instruction to `add_intro`, which creates the signer's slot at
 * its program-derived address and writes the first record, or to
 * `update_intro`, which rewrites the record of an initialised slot.
 *
 * Each operation is given twice: as a function from the accounts' values
 * to the result and the accounts' new values (AddIntroSpec,
 * UpdateIntroSpec), about which the lemmas speak, and as a method over
 * the runtime's account handles that changes the slot in place and is
 * proved to do what the function says.
 */
module Processor {
  import opened Borsh
  import opened Host
  import opened StudentIntroErrors
  import opened Instruction
  import opened State

  /** The largest serialised record either operation accepts. */
  const MAX_DATA_LEN: nat := 1000

  /** The size of the slot add_intro asks the system program for. */
  const ACCOUNT_SIZE: nat := 1000

  /** `Pubkey::find_program_address(&[signer], program_id)`: the address and its bump seed. */
  type FindProgramAddress = (Pubkey, Pubkey) -> (Pubkey, byte)

  /**
   * The rent lookup and the system program's `create_account`, invoked with
   * the derived address's seeds: either an error, which add_intro passes on,
   * or a new slot of ACCOUNT_SIZE zero bytes owned by the program.
   */
  datatype CreateAccount = Created | CreateFailed(error: ProgramError)

  /**
   * The system program's rule that `create_account` refuses an account
   * already in use: a slot that holds data cannot be created again.
   */
  predicate CreateRefusesExisting(slot: AccountView, create: CreateAccount)
  {
    slot.data != [] ==> create.CreateFailed?
  }

  /** The result of an instruction and the accounts' values after it. */
  datatype Effect = Effect(result: Outcome<()>, accounts: seq<AccountView>)

  function Zeros(n: nat): (z: seq<byte>)
    ensures |z| == n && forall i :: 0 <= i < n ==> z[i] == 0
  {
    seq(n, _ => 0)
  }

  /** The serialised size of a record holding name and message. */
  function TotalLen(name: seq<byte>, message: seq<byte>): nat
  {
    1 + (4 + |name|) + (4 + |message|)
  }

  /** The accounts after slot's account has taken the value slot, wherever it is listed. */
  function Store(accts: seq<AccountView>, slot: AccountView): (r: seq<AccountView>)
    ensures |r| == |accts|
    ensures forall i :: 0 <= i < |accts| ==> r[i] == (if accts[i].key == slot.key then slot else accts[i])
  {
    seq(|accts|, i requires 0 <= i < |accts| => if accts[i].key == slot.key then slot else accts[i])
  }

  // ---------------------------------------------------------------------
  // Reading the slot

  /**
   * `my_try_from_slice_unchecked::<StudentIntroState>`: decodes a record
   * from the front of the slot and ignores the bytes after it; any failure
   * becomes InvalidInstructionData.
   */
  function TryFromSliceUnchecked(data: seq<byte>): (r: Outcome<StudentIntroState>)
    ensures !r.Panic?
    ensures r.Err? ==> r.error == InvalidInstructionData
    ensures r.Ok? ==> Serializable(r.value) && Serialize(r.value) <= data
  {
    match Deserialize(data)
    case Parsed(st, _) => Ok(st)
    case Failed(_) => Err(InvalidInstructionData)
  }

  /** Bytes appended after a readable record do not change what is read. */
  lemma TryFromSliceUncheckedIgnoresTail(data: seq<byte>, tail: seq<byte>)
    requires TryFromSliceUnchecked(data).Ok?
    ensures TryFromSliceUnchecked(data + tail) == TryFromSliceUnchecked(data)
  {
    var parsed := Deserialize(data);
    var st, rest := parsed.value, parsed.rest;
    var bytes := Serialize(st);
    assert data == bytes + rest;
    AppendAssociates(bytes, rest, tail);
    DeserializeSerialize(st, rest + tail);
  }

  /** A record written at the front of the slot reads back, whatever follows it. */
  lemma TryFromSliceUncheckedSerialize(st: StudentIntroState, tail: seq<byte>)
    requires Serializable(st)
    ensures TryFromSliceUnchecked(Serialize(st) + tail) == Ok(st)
  {
    DeserializeSerialize(st, tail);
  }

  /** A never-written slot reads as an uninitialised record with empty strings. */
  lemma ZeroSlotDecodesEmpty(n: nat)
    requires n >= 9
    ensures TryFromSliceUnchecked(Zeros(n)) == Ok(StudentIntroState(false, [], []))
  {
    var empty := StudentIntroState(false, [], []);
    assert LeBytes(0, 4) == [0, 0, 0, 0];
    assert Serialize(empty) == Zeros(9);
    assert Zeros(n) == Serialize(empty) + Zeros(n - 9);
    TryFromSliceUncheckedSerialize(empty, Zeros(n - 9));
  }

  // ---------------------------------------------------------------------
  // The operations on values

  /** add_intro: ordered checks, slot creation, then the first record. */
  function AddIntroSpec(programId: Pubkey, accts: seq<AccountView>, name: Utf8, message: Utf8,
                        findProgramAddress: FindProgramAddress, create: CreateAccount): (e: Effect)
    ensures |e.accounts| == |accts|
    ensures forall i :: 0 <= i < |accts| ==>
      || e.accounts[i] == accts[i]
      || (&& |accts| >= 2 && accts[i].key == accts[1].key
          && e.accounts[i].key == accts[1].key && e.accounts[i].isSigner == accts[1].isSigner
          && e.accounts[i].owner == programId)
  {
    if TotalLen(name, message) > MAX_DATA_LEN then Effect(Err(ToProgramError(InvalidDataLength)), accts)
    else if |accts| < 3 then Effect(Err(NotEnoughAccountKeys), accts)
    else if !accts[0].isSigner then Effect(Err(MissingRequiredSignature), accts)
    else if findProgramAddress(accts[0].key, programId).0 != accts[1].key then
      Effect(Err(ToProgramError(InvalidPda)), accts)
    else
      match create
      case CreateFailed(e) => Effect(Err(e), accts)
      case Created =>
        var w := WriteFirstRecordSpec(accts[1], programId, name, message);
        Effect(w.result, Store(accts, w.slot))
  }

  /** The outcome of add_intro's last steps and the slot's value after them. */
  datatype SlotWrite = SlotWrite(result: Outcome<()>, slot: AccountView)

  /**
   * The last steps of add_intro, once create_account has made the slot the
   * program's, with ACCOUNT_SIZE zero bytes: read the record, refuse an
   * initialised one, and write the first record over it.
   */
  function WriteFirstRecordSpec(slot: AccountView, programId: Pubkey, name: Utf8, message: Utf8): (w: SlotWrite)
    requires TotalLen(name, message) <= MAX_DATA_LEN
    ensures w.slot.key == slot.key && w.slot.isSigner == slot.isSigner && w.slot.owner == programId
  {
    var created := slot.(owner := programId, data := Zeros(ACCOUNT_SIZE));
    match TryFromSliceUnchecked(created.data)
    case Ok(accountData) =>
      if accountData.isInitialized then SlotWrite(Err(AccountAlreadyInitialized), created)
      else
        var record := accountData.(name := name, message := message, isInitialized := true);
        var written := SerializeOver(created.data, record);
        SlotWrite(written.result, created.(data := written.data))
    case _ => SlotWrite(Panic, created)
  }

  /** update_intro: ordered checks, then the record's strings are replaced. */
  function UpdateIntroSpec(programId: Pubkey, accts: seq<AccountView>, name: Utf8, message: Utf8): (e: Effect)
    ensures |e.accounts| == |accts|
    ensures forall i :: 0 <= i < |accts| ==>
      || e.accounts[i] == accts[i]
      || (&& |accts| >= 2 && accts[i].key == accts[1].key
          && e.accounts[i] == accts[1].(data := e.accounts[i].data)
          && |e.accounts[i].data| == |accts[1].data|)
  {
    if TotalLen(name, message) > MAX_DATA_LEN then Effect(Err(ToProgramError(InvalidDataLength)), accts)
    else if |accts| < 3 then Effect(Err(NotEnoughAccountKeys), accts)
    else if !accts[0].isSigner then Effect(Err(MissingRequiredSignature), accts)
    else if accts[1].owner != programId then Effect(Err(IllegalOwner), accts)
    else
      match TryFromSliceUnchecked(accts[1].data)
      case Ok(accountData) =>
        if !accountData.isInitialized then Effect(Err(UninitializedAccount), accts)
        else
          var record := accountData.(name := name, message := message);
          var w := SerializeOver(accts[1].data, record);
          Effect(w.result, Store(accts, accts[1].(data := w.data)))
      case _ => Effect(Panic, accts)
  }

  // ---------------------------------------------------------------------
  // Properties of add_intro

  /**
   * The checks of add_intro in order; the first that fails decides the
   * error, and no account has changed when any of them fails.
   */
  lemma AddIntroCheckOrder(programId: Pubkey, accts: seq<AccountView>, name: Utf8, message: Utf8,
                           findProgramAddress: FindProgramAddress, create: CreateAccount)
    ensures var e := AddIntroSpec(programId, accts, name, message, findProgramAddress, create);
      && (TotalLen(name, message) > MAX_DATA_LEN ==> e == Effect(Err(Custom(0)), accts))
      && (TotalLen(name, message) <= MAX_DATA_LEN && |accts| < 3 ==>
            e == Effect(Err(NotEnoughAccountKeys), accts))
      && (TotalLen(name, message) <= MAX_DATA_LEN && |accts| >= 3 && !accts[0].isSigner ==>
            e == Effect(Err(MissingRequiredSignature), accts))
      && (TotalLen(name, message) <= MAX_DATA_LEN && |accts| >= 3 && accts[0].isSigner
          && findProgramAddress(accts[0].key, programId).0 != accts[1].key ==>
            e == Effect(Err(Custom(1)), accts))
      && (TotalLen(name, message) <= MAX_DATA_LEN && |accts| >= 3 && accts[0].isSigner
          && findProgramAddress(accts[0].key, programId).0 == accts[1].key && create.CreateFailed? ==>
            e == Effect(Err(create.error), accts))
  {
  }

  /**
   * Once every check has passed and the slot was created, add_intro
   * succeeds: the fresh slot never reads as initialised, so the
   * already-initialised check cannot fire, and the record always fits.
   * The slot account, wherever listed, is then owned by the program, holds
   * ACCOUNT_SIZE bytes and reads as the initialised record with exactly the
   * given name and message.
   */
  lemma AddIntroSucceeds(programId: Pubkey, accts: seq<AccountView>, name: Utf8, message: Utf8,
                         findProgramAddress: FindProgramAddress)
    requires TotalLen(name, message) <= MAX_DATA_LEN && |accts| >= 3 && accts[0].isSigner
    requires findProgramAddress(accts[0].key, programId).0 == accts[1].key
    ensures var e := AddIntroSpec(programId, accts, name, message, findProgramAddress, Created);
      && e.result == Ok(())
      && |e.accounts| == |accts|
      && forall i :: 0 <= i < |accts| ==>
           if accts[i].key == accts[1].key then
             && e.accounts[i].key == accts[1].key && e.accounts[i].isSigner == accts[1].isSigner
             && e.accounts[i].owner == programId && |e.accounts[i].data| == ACCOUNT_SIZE
             && TryFromSliceUnchecked(e.accounts[i].data) == Ok(StudentIntroState(true, name, message))
           else e.accounts[i] == accts[i]
  {
    var record := StudentIntroState(true, name, message);
    ZeroSlotDecodesEmpty(ACCOUNT_SIZE);
    SerializeOverThenDeserialize(Zeros(ACCOUNT_SIZE), record);
  }

  /** add_intro succeeds exactly when every check passes and the slot is created. */
  lemma AddIntroOkIff(programId: Pubkey, accts: seq<AccountView>, name: Utf8, message: Utf8,
                      findProgramAddress: FindProgramAddress, create: CreateAccount)
    ensures AddIntroSpec(programId, accts, name, message, findProgramAddress, create).result == Ok(())
        <==> && TotalLen(name, message) <= MAX_DATA_LEN && |accts| >= 3 && accts[0].isSigner
             && findProgramAddress(accts[0].key, programId).0 == accts[1].key
             && create == Created
  {
    if && TotalLen(name, message) <= MAX_DATA_LEN && |accts| >= 3 && accts[0].isSigner
       && findProgramAddress(accts[0].key, programId).0 == accts[1].key && create == Created {
      AddIntroSucceeds(programId, accts, name, message, findProgramAddress);
    }
  }

  /**
   * When create_account refuses a slot already in use, add_intro never
   * overwrites a record: on a slot that holds a readable record it fails
   * and leaves every account as it was.
   */
  lemma AddIntroNeverOverwrites(programId: Pubkey, accts: seq<AccountView>, name: Utf8, message: Utf8,
                                findProgramAddress: FindProgramAddress, create: CreateAccount)
    requires |accts| >= 2 && CreateRefusesExisting(accts[1], create)
    requires TryFromSliceUnchecked(accts[1].data).Ok?
    ensures var e := AddIntroSpec(programId, accts, name, message, findProgramAddress, create);
      e.result != Ok(()) && e.accounts == accts
  {
    FlagIsFirstByte(accts[1].data);
  }

  /**
   * The length error Custom(0) is returned when the record is too long;
   * with a record that fits it can only come from the system program
   * failing with its own Custom(0).
   */
  lemma AddIntroLengthError(programId: Pubkey, accts: seq<AccountView>, name: Utf8, message: Utf8,
                            findProgramAddress: FindProgramAddress, create: CreateAccount)
    ensures TotalLen(name, message) > MAX_DATA_LEN ==>
      AddIntroSpec(programId, accts, name, message, findProgramAddress, create) == Effect(Err(Custom(0)), accts)
    ensures TotalLen(name, message) <= MAX_DATA_LEN
         && AddIntroSpec(programId, accts, name, message, findProgramAddress, create).result == Err(Custom(0))
        ==> create == CreateFailed(Custom(0))
  {
    if TotalLen(name, message) <= MAX_DATA_LEN && |accts| >= 3 && accts[0].isSigner
       && findProgramAddress(accts[0].key, programId).0 == accts[1].key && create == Created {
      AddIntroSucceeds(programId, accts, name, message, findProgramAddress);
    }
  }

  // ---------------------------------------------------------------------
  // Properties of update_intro

  /**
   * The checks of update_intro in order; the first that fails decides the
   * error, and no account has changed when any of them fails. The slot's
   * address is never compared with the payer's derived address.
   */
  lemma UpdateIntroCheckOrder(programId: Pubkey, accts: seq<AccountView>, name: Utf8, message: Utf8)
    ensures var e := UpdateIntroSpec(programId, accts, name, message);
      && (TotalLen(name, message) > MAX_DATA_LEN ==> e == Effect(Err(Custom(0)), accts))
      && (TotalLen(name, message) <= MAX_DATA_LEN && |accts| < 3 ==>
            e == Effect(Err(NotEnoughAccountKeys), accts))
      && (TotalLen(name, message) <= MAX_DATA_LEN && |accts| >= 3 && !accts[0].isSigner ==>
            e == Effect(Err(MissingRequiredSignature), accts))
      && (TotalLen(name, message) <= MAX_DATA_LEN && |accts| >= 3 && accts[0].isSigner
          && accts[1].owner != programId ==>
            e == Effect(Err(IllegalOwner), accts))
      && (TotalLen(name, message) <= MAX_DATA_LEN && |accts| >= 3 && accts[0].isSigner
          && accts[1].owner == programId && TryFromSliceUnchecked(accts[1].data).Err? ==>
            e == Effect(Panic, accts))
      && (TotalLen(name, message) <= MAX_DATA_LEN && |accts| >= 3 && accts[0].isSigner
          && accts[1].owner == programId && TryFromSliceUnchecked(accts[1].data).Ok?
          && !TryFromSliceUnchecked(accts[1].data).value.isInitialized ==>
            e == Effect(Err(UninitializedAccount), accts))
      && (TotalLen(name, message) <= MAX_DATA_LEN && |accts| >= 3 && accts[0].isSigner
          && accts[1].owner == programId && TryFromSliceUnchecked(accts[1].data).Ok?
          && TryFromSliceUnchecked(accts[1].data).value.isInitialized
          && TotalLen(name, message) > |accts[1].data| ==>
            && e.result == Err(BorshIoError)
            && e.accounts[1].data == Serialize(StudentIntroState(true, name, message))[..|accts[1].data|])
  {
  }

  /** update_intro reports the length error exactly when the record is too long. */
  lemma UpdateIntroLengthErrorIff(programId: Pubkey, accts: seq<AccountView>, name: Utf8, message: Utf8)
    ensures UpdateIntroSpec(programId, accts, name, message).result == Err(Custom(0))
        <==> TotalLen(name, message) > MAX_DATA_LEN
  {
  }

  /**
   * After every check passes on an initialised slot whose buffer can hold
   * the new record, update_intro succeeds; the slot then reads as the
   * initialised record with exactly the new name and message, keeps its
   * key, owner and size, and every byte past the new record is as before.
   */
  lemma UpdateIntroSucceeds(programId: Pubkey, accts: seq<AccountView>, name: Utf8, message: Utf8)
    requires TotalLen(name, message) <= MAX_DATA_LEN && |accts| >= 3 && accts[0].isSigner
    requires accts[1].owner == programId
    requires TryFromSliceUnchecked(accts[1].data).Ok? && TryFromSliceUnchecked(accts[1].data).value.isInitialized
    requires TotalLen(name, message) <= |accts[1].data|
    ensures var e := UpdateIntroSpec(programId, accts, name, message);
      && e.result == Ok(())
      && |e.accounts| == |accts|
      && forall i :: 0 <= i < |accts| ==>
           if accts[i].key == accts[1].key then
             && e.accounts[i] == accts[1].(data := e.accounts[i].data)
             && |e.accounts[i].data| == |accts[1].data|
             && TryFromSliceUnchecked(e.accounts[i].data) == Ok(StudentIntroState(true, name, message))
             && e.accounts[i].data[TotalLen(name, message)..] == accts[1].data[TotalLen(name, message)..]
           else e.accounts[i] == accts[i]
  {
    var record := StudentIntroState(true, name, message);
    var w := SerializeOver(accts[1].data, record);
    SerializeOverThenDeserialize(accts[1].data, record);
    TryFromSliceUncheckedSerialize(record, accts[1].data[TotalLen(name, message)..]);
  }

  /**
   * update_intro succeeds exactly when every check passes on an
   * initialised slot and the new record fits the slot's buffer.
   */
  lemma UpdateIntroOkIff(programId: Pubkey, accts: seq<AccountView>, name: Utf8, message: Utf8)
    ensures UpdateIntroSpec(programId, accts, name, message).result == Ok(())
        <==> && TotalLen(name, message) <= MAX_DATA_LEN && |accts| >= 3 && accts[0].isSigner
             && accts[1].owner == programId
             && TryFromSliceUnchecked(accts[1].data).Ok?
             && TryFromSliceUnchecked(accts[1].data).value.isInitialized
             && TotalLen(name, message) <= |accts[1].data|
  {
    UpdateIntroCheckOrder(programId, accts, name, message);
    if && TotalLen(name, message) <= MAX_DATA_LEN && |accts| >= 3 && accts[0].isSigner
       && accts[1].owner == programId
       && TryFromSliceUnchecked(accts[1].data).Ok?
       && TryFromSliceUnchecked(accts[1].data).value.isInitialized
       && TotalLen(name, message) <= |accts[1].data| {
      UpdateIntroSucceeds(programId, accts, name, message);
    }
  }

  /**
   * A successful update_intro leaves the slot, wherever listed, reading as
   * the initialised record with exactly the new name and message.
   */
  lemma UpdateIntroOkWritesRecord(programId: Pubkey, accts: seq<AccountView>, name: Utf8, message: Utf8)
    requires UpdateIntroSpec(programId, accts, name, message).result == Ok(())
    ensures var e := UpdateIntroSpec(programId, accts, name, message);
      && |accts| >= 3 && |e.accounts| == |accts|
      && forall i :: 0 <= i < |accts| && accts[i].key == accts[1].key ==>
           TryFromSliceUnchecked(e.accounts[i].data) == Ok(StudentIntroState(true, name, message))
  {
    UpdateIntroOkIff(programId, accts, name, message);
    UpdateIntroSucceeds(programId, accts, name, message);
  }

  /** A readable slot's first byte is its initialised flag. */
  lemma FlagIsFirstByte(data: seq<byte>)
    requires TryFromSliceUnchecked(data).Ok?
    ensures |data| > 0 && (TryFromSliceUnchecked(data).value.isInitialized <==> data[0] == 1)
  {
    var st := TryFromSliceUnchecked(data).value;
    assert data[0] == Serialize(st)[0];
  }

  /**
   * update_intro never makes an initialised slot uninitialised: afterwards
   * the slot reads as an initialised record or not at all (a record too
   * long for the buffer is written only in part).
   */
  lemma UpdateIntroKeepsInitialized(programId: Pubkey, accts: seq<AccountView>, name: Utf8, message: Utf8)
    requires |accts| >= 2
    requires TryFromSliceUnchecked(accts[1].data).Ok? && TryFromSliceUnchecked(accts[1].data).value.isInitialized
    ensures var e := UpdateIntroSpec(programId, accts, name, message);
      |e.accounts| == |accts| &&
      var after := TryFromSliceUnchecked(e.accounts[1].data);
      after.Ok? ==> after.value.isInitialized
  {
    var e := UpdateIntroSpec(programId, accts, name, message);
    var d := accts[1].data;
    FlagIsFirstByte(d);
    if e.accounts != accts {
      var record := TryFromSliceUnchecked(d).value.(name := name, message := message);
      var w := SerializeOver(d, record);
      assert e.accounts[1] == accts[1].(data := w.data);
      assert w.data[0] == Serialize(record)[0];
    }
    var after := TryFromSliceUnchecked(e.accounts[1].data);
    if after.Ok? {
      FlagIsFirstByte(e.accounts[1].data);
    }
  }

  /**
   * The slot's lifecycle: a successful add_intro leaves a slot on which
   * update_intro by a signing payer succeeds, and the slot then reads as
   * the initialised record with the update's name and message.
   */
  lemma AddThenUpdate(programId: Pubkey, accts: seq<AccountView>, name: Utf8, message: Utf8,
                      newName: Utf8, newMessage: Utf8, findProgramAddress: FindProgramAddress)
    requires AddIntroSpec(programId, accts, name, message, findProgramAddress, Created).result == Ok(())
    requires TotalLen(newName, newMessage) <= MAX_DATA_LEN
    requires AddIntroSpec(programId, accts, name, message, findProgramAddress, Created).accounts[0].isSigner
    ensures var added := AddIntroSpec(programId, accts, name, message, findProgramAddress, Created).accounts;
      var e := UpdateIntroSpec(programId, added, newName, newMessage);
      && e.result == Ok(())
      && TryFromSliceUnchecked(e.accounts[1].data) == Ok(StudentIntroState(true, newName, newMessage))
  {
    AddIntroOkIff(programId, accts, name, message, findProgramAddress, Created);
    AddIntroSucceeds(programId, accts, name, message, findProgramAddress);
    var added := AddIntroSpec(programId, accts, name, message, findProgramAddress, Created).accounts;
    UpdateIntroSucceeds(programId, added, newName, newMessage);
  }

  // ---------------------------------------------------------------------
  // The operations on the runtime's account handles

  /** `next_account_info`: the account at position i, if there is one. */
  function NextAccountInfo(accounts: seq<AccountInfo>, i: nat): (r: Outcome<AccountInfo>)
    ensures r.Ok? <==> i < |accounts|
    ensures r.Ok? ==> r.value == accounts[i]
    ensures r.Err? ==> r.error == NotEnoughAccountKeys
  {
    if i < |accounts| then Ok(accounts[i]) else Err(NotEnoughAccountKeys)
  }

  /** add_intro on the runtime's accounts: it does what AddIntroSpec says. */
  method AddIntro(programId: Pubkey, accounts: seq<AccountInfo>, name: Utf8, message: Utf8,
                  findProgramAddress: FindProgramAddress, create: CreateAccount) returns (r: Outcome<()>)
    requires OnePerAccount(accounts)
    modifies if |accounts| >= 3 then {accounts[1]} else {}
    ensures var e := AddIntroSpec(programId, old(Views(accounts)), name, message, findProgramAddress, create);
      r == e.result && Views(accounts) == e.accounts
  {
    ghost var before := Views(accounts);
    var totalLen := 1 + (4 + |name|) + (4 + |message|);
    if totalLen > MAX_DATA_LEN {
      return Err(ToProgramError(InvalidDataLength));
    }
    var initializer :- NextAccountInfo(accounts, 0);
    var pdaAccount :- NextAccountInfo(accounts, 1);
    var systemProgram :- NextAccountInfo(accounts, 2);
    if !initializer.isSigner {
      return Err(MissingRequiredSignature);
    }
    var derived := findProgramAddress(initializer.key, programId);
    var pda, bumpSeed := derived.0, derived.1;
    if pda != pdaAccount.key {
      return Err(ToProgramError(InvalidPda));
    }
    if create.CreateFailed? {
      return Err(create.error);
    }
    r := WriteFirstRecord(pdaAccount, programId, name, message);
    SlotStored(accounts, before, 1);
  }

  /** add_intro's last steps on the slot's handle: they do what WriteFirstRecordSpec says. */
  method WriteFirstRecord(pdaAccount: AccountInfo, programId: Pubkey, name: Utf8, message: Utf8)
    returns (r: Outcome<()>)
    requires TotalLen(name, message) <= MAX_DATA_LEN
    modifies pdaAccount
    ensures SlotWrite(r, View(pdaAccount)) == WriteFirstRecordSpec(old(View(pdaAccount)), programId, name, message)
  {
    pdaAccount.owner := programId;
    pdaAccount.data := new byte[ACCOUNT_SIZE](_ => 0);
    assert pdaAccount.data[..] == Zeros(ACCOUNT_SIZE);
    var decoded := TryFromSliceUnchecked(pdaAccount.data[..]);
    if !decoded.Ok? {
      return Panic;
    }
    var accountData := decoded.value;
    if accountData.isInitialized {
      return Err(AccountAlreadyInitialized);
    }
    accountData := accountData.(name := name);
    accountData := accountData.(message := message);
    accountData := accountData.(isInitialized := true);
    r := SerializeInto(accountData, pdaAccount.data);
  }

  /** update_intro on the runtime's accounts: it does what UpdateIntroSpec says. */
  method UpdateIntro(programId: Pubkey, accounts: seq<AccountInfo>, name: Utf8, message: Utf8)
    returns (r: Outcome<()>)
    requires OnePerAccount(accounts)
    modifies if |accounts| >= 3 then {accounts[1].data} else {}
    ensures var e := UpdateIntroSpec(programId, old(Views(accounts)), name, message);
      r == e.result && Views(accounts) == e.accounts
  {
    ghost var before := Views(accounts);
    var totalLen := 1 + (4 + |name|) + (4 + |message|);
    var maxAccountLen := MAX_DATA_LEN;
    if totalLen > maxAccountLen {
      return Err(ToProgramError(InvalidDataLength));
    }
    var payer :- NextAccountInfo(accounts, 0);
    var pdaAccount :- NextAccountInfo(accounts, 1);
    var systemProgram :- NextAccountInfo(accounts, 2);
    if !payer.isSigner {
      return Err(MissingRequiredSignature);
    }
    if pdaAccount.owner != programId {
      return Err(IllegalOwner);
    }
    var decoded := TryFromSliceUnchecked(pdaAccount.data[..]);
    if !decoded.Ok? {
      return Panic;
    }
    var accountData := decoded.value;
    if !accountData.isInitialized {
      return Err(UninitializedAccount);
    }
    accountData := accountData.(name := name);
    accountData := accountData.(message := message);
    r := SerializeInto(accountData, pdaAccount.data);
    SlotStored(accounts, before, 1);
  }

  /**
   * When the accounts read as before and, since then, only the handle at
   * position k (its fields or its buffer's contents) has changed, they now
   * read as before with that account replaced by its new value.
   */
  lemma SlotStored(accounts: seq<AccountInfo>, before: seq<AccountView>, k: nat)
    requires k < |accounts| && |before| == |accounts|
    requires forall i :: 0 <= i < |accounts| ==> before[i].key == accounts[i].key
    requires forall i :: 0 <= i < |accounts| && accounts[i] != accounts[k] ==> accounts[i].key != accounts[k].key
    requires forall i :: 0 <= i < |accounts| && accounts[i] != accounts[k] ==>
      View(accounts[i]) == before[i]
    ensures Views(accounts) == Store(before, View(accounts[k]))
  {
    var slot := View(accounts[k]);
    forall i | 0 <= i < |accounts|
      ensures Views(accounts)[i] == Store(before, slot)[i]
    {
    }
  }

  /**
   * process_instrcution: an error or panic of the decoder is returned
   * unchanged with no account touched; AddIntro goes to add_intro and
   * UpdateIntro to update_intro, with the decoded name and message.
   */
  method ProcessInstruction(programId: Pubkey, accounts: seq<AccountInfo>, data: seq<byte>,
                            findProgramAddress: FindProgramAddress, create: CreateAccount)
    returns (r: Outcome<()>)
    requires OnePerAccount(accounts)
    modifies if |accounts| >= 3 then {accounts[1]} else {}
    modifies if |accounts| >= 3 then {accounts[1].data} else {}
    ensures match Unpack(data)
      case Err(e) => r == Err(e) && Views(accounts) == old(Views(accounts))
      case Panic => r == Panic && Views(accounts) == old(Views(accounts))
      case Ok(AddIntro(name, message)) =>
        var e := AddIntroSpec(programId, old(Views(accounts)), name, message, findProgramAddress, create);
        r == e.result && Views(accounts) == e.accounts
      case Ok(UpdateIntro(name, message)) =>
        var e := UpdateIntroSpec(programId, old(Views(accounts)), name, message);
        r == e.result && Views(accounts) == e.accounts
  {
    var instruction :- Unpack(data);
    match instruction
    case AddIntro(name, message) =>
      r := AddIntro(programId, accounts, name, message, findProgramAddress, create);
    case UpdateIntro(name, message) =>
      r := UpdateIntro(programId, accounts, name, message);
  }
}
