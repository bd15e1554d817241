/** The EVM vocabulary the provider handles: fixed-width integers, addresses, the
    transaction environment, the three-way execution result, accounts and the
    in-memory account store. These are revm's types; the provider only builds,
    forwards and inspects them. */
module Primitives {
  import opened Wrappers

  const TWO_64: int := 0x1_0000_0000_0000_0000
  const TWO_160: int := 0x1_0000_0000_0000_0000_0000_0000_0000_0000_0000
  const TWO_256: int := 0x1_0000_0000_0000_0000_0000_0000_0000_0000_0000_0000_0000_0000_0000_0000

  type byte = x: int | 0 <= x < 256
  type Bytes = seq<byte>

  /** Rust `u64`: gas amounts, gas limits and nonces. */
  type U64 = x: int | 0 <= x < TWO_64

  /** revm `U256`: balances, transferred values, storage words. */
  type U256 = x: int | 0 <= x < TWO_256

  /** A 20-byte account address, read as a big-endian number. */
  type Address = x: int | 0 <= x < TWO_160

  const U64_MAX: U64 := TWO_64 - 1
  const U256_MAX: U256 := TWO_256 - 1
  const ZERO_ADDRESS: Address := 0

  /** A log record emitted by executed code; the provider passes it on untouched. */
  datatype Log = Log(address: Address, topics: seq<U256>, data: Bytes)

  /** Where a transaction goes: a call to an existing account, or the creation of a
      new one (`salt` is None for CREATE and Some for CREATE2). */
  datatype TransactTo = Call(to: Address) | Create(salt: Option<U256>)

  /** The transaction environment handed to the engine. */
  datatype TxEnv = TxEnv(
    caller: Address,
    gasLimit: U64,
    gasPrice: U256,
    transactTo: TransactTo,
    value: U256,
    data: Bytes,
    chainId: Option<U64>,
    nonce: Option<U64>)

  /** revm's `TxEnv::default()`: a zero-value call to the zero address from the zero
      address, with no data and the widest gas limit. */
  const DefaultTx: TxEnv :=
    TxEnv(ZERO_ADDRESS, U64_MAX, 0, TransactTo.Call(ZERO_ADDRESS), 0, [], None, None)

  /** `TransactTo::create()`: plain CREATE, no salt. */
  const CreateTarget: TransactTo := TransactTo.Create(None)

  /** What a successful execution produced: return bytes of a call, or the init code's
      return bytes and (when creation went through) the new account's address. */
  datatype Output = Call(bytes: Bytes) | Create(code: Bytes, address: Option<Address>)

  /** Why execution stopped successfully (STOP, RETURN, SELFDESTRUCT); opaque here. */
  datatype SuccessReason = SuccessReason(code: nat)

  /** Why the engine itself aborted execution (out of gas, bad opcode, ...); opaque here. */
  datatype HaltReason = HaltReason(code: nat)

  /** The three-way outcome of running one transaction. */
  datatype ExecutionResult =
    | Success(eval: SuccessReason, gasUsed: U64, gasRefunded: U64, logs: seq<Log>, output: Output)
    | Revert(gasUsed: U64, returned: Bytes)
    | Halt(reason: HaltReason, gasUsed: U64)

  /** The balance record of an account. */
  datatype AccountInfo = AccountInfo(balance: U256, nonce: U64, code: Option<Bytes>)

  /** revm's `AccountInfo::default()`: no balance, nonce zero, no code. */
  const DefaultInfo: AccountInfo := AccountInfo(0, 0, None)

  /** A cached account (`DbAccount`): its balance record, its storage slots, and
      whether the cache has recorded that the backing store holds no such account
      (revm's `NotExisting` marker). A marked entry reads as no account at all,
      whatever its balance record says. */
  datatype Account = Account(info: AccountInfo, storage: map<U256, U256>, notExisting: bool)

  /** revm's `DbAccount::default()`: default info, no storage, no marker. */
  const DefaultAccount: Account := Account(DefaultInfo, map[], false)

  /** The in-memory account store (`CacheDB<EmptyDB>`). The backing store is empty,
      so an address without an entry is an account with nothing in it. */
  datatype Db = Db(accounts: map<Address, Account>)

  const EmptyDb: Db := Db(map[])

  /** The part of the EVM environment the provider touches: the block gas limit set
      at start-up and the transaction most recently installed. */
  datatype Env = Env(blockGasLimit: U256, tx: TxEnv)

  /** A failure of the engine to run a transaction at all (invalid transaction,
      database error), as opposed to a Revert or Halt outcome. Opaque here. */
  datatype EvmError = EvmError(code: nat)

  /** What the engine returns for a transaction it ran: the outcome and the account
      store as it stands once that outcome's state changes are applied. */
  datatype ResultAndState = ResultAndState(result: ExecutionResult, state: Db)

  /** A transaction the engine refused to run, and the account store as the attempt
      left it: the engine loads the caller into the cache before it validates the
      transaction, so a refused run can already have added entries (a not-existing
      marker among them). */
  datatype EngineFailure = EngineFailure(error: EvmError, state: Db)

  /** The execution engine (revm's interpreter), which this model does not describe:
      any function from an environment and a store to a run or a failure, each with
      the store it leaves. */
  type Engine = (Env, Db) -> Result<ResultAndState, EngineFailure>
}
