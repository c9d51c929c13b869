/**
 * What the Solana runtime hands the program and what it expects back:
 * public keys, the built-in error type, the outcome of an instruction and
 * the account handles whose owner and data the program may change.
 */
module Host {
  import opened Borsh

  newtype u32 = x: int | 0 <= x < 0x1_0000_0000

  type Pubkey = s: seq<byte> | |s| == 32 witness seq(32, _ => 0)

  /** The variants of the runtime's ProgramError that this program can meet. */
  datatype ProgramError =
    | Custom(code: u32)
    | InvalidInstructionData
    | NotEnoughAccountKeys
    | MissingRequiredSignature
    | AccountAlreadyInitialized
    | UninitializedAccount
    | IllegalOwner
    | InsufficientFunds
    | UnsupportedSysvar
    | BorshIoError

  /**
   * How an instruction (or one step of it) ends: a value, an error the
   * runtime reports to the caller, or a panic from an `unwrap` on an error.
   */
  datatype Outcome<+T> = Ok(value: T) | Err(error: ProgramError) | Panic
  {
    predicate IsFailure()
    {
      !Ok?
    }

    function PropagateFailure<U>(): Outcome<U>
      requires !Ok?
    {
      if Err? then Err(error) else Panic
    }

    function Extract(): T
      requires Ok?
    {
      value
    }
  }

  /**
   * The runtime's handle on one account. The key and the signer flag are
   * fixed for the instruction; the owner and the data are the account's
   * state, which the program and the programs it invokes may change.
   */
  class AccountInfo {
    const key: Pubkey
    const isSigner: bool
    var owner: Pubkey
    var data: array<byte>

    constructor (key: Pubkey, isSigner: bool, owner: Pubkey, data: array<byte>)
      ensures this.key == key && this.isSigner == isSigner
      ensures this.owner == owner && this.data == data
    {
      this.key := key;
      this.isSigner := isSigner;
      this.owner := owner;
      this.data := data;
    }
  }

  /** The value of an account at one moment. */
  datatype AccountView = AccountView(key: Pubkey, isSigner: bool, owner: Pubkey, data: seq<byte>)

  ghost function View(a: AccountInfo): AccountView
    reads a, a.data
  {
    AccountView(a.key, a.isSigner, a.owner, a.data[..])
  }

  ghost function Views(accounts: seq<AccountInfo>): (vs: seq<AccountView>)
    reads set a | a in accounts, set a | a in accounts :: a.data
    ensures |vs| == |accounts|
    ensures forall i :: 0 <= i < |accounts| ==> vs[i] == View(accounts[i])
  {
    if accounts == [] then [] else [View(accounts[0])] + Views(accounts[1..])
  }

  /**
   * The runtime passes one handle per account: the same account listed
   * twice is the same handle, and distinct accounts have distinct keys and
   * do not share a data buffer.
   */
  ghost predicate OnePerAccount(accounts: seq<AccountInfo>)
    reads set a | a in accounts
  {
    forall i, j :: 0 <= i < |accounts| && 0 <= j < |accounts| && accounts[i] != accounts[j] ==>
      accounts[i].key != accounts[j].key && accounts[i].data != accounts[j].data
  }
}
