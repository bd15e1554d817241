/** `EthVmInner`: the one execution context (environment plus account store) behind
    the provider, and the four things done to it: run a transaction and keep its
    effects (`write`), run one and drop them (`read`), read a balance, and install
    an account. */
module Inner {
  import opened Wrappers
  import opened Primitives
  import opened Errors

  /** The execution context: the EVM environment and its account store. */
  datatype Vm = Vm(env: Env, db: Db)

  /** The value (or error) of an operation on the context, and the context after it. */
  datatype Step<T> = Step(result: Result<T, Error>, vm: Vm)

  /** `EthVmInner::new`: an empty account store, the default transaction and a block
      gas limit of `U256::MAX`. */
  function New(): (vm: Vm)
    ensures vm.env.blockGasLimit == U256_MAX
    ensures vm.env.tx == DefaultTx
    ensures vm.db == EmptyDb
    ensures forall user :: !MarkedNotExisting(vm, user)
    ensures forall user :: BalanceOf(vm, user) == 0
  {
    Vm(Env(U256_MAX, DefaultTx), EmptyDb)
  }

  /** What the engine makes of `tx` run from `vm`: the environment carries `tx`, the
      store is the current one. */
  function Invoke(vm: Vm, engine: Engine, tx: TxEnv): (r: Result<ResultAndState, EngineFailure>) {
    engine(vm.env.(tx := tx), vm.db)
  }

  /** `write`: install `tx` and run it committing. When the engine runs it, the
      outcome is returned, whatever it is, and the store the engine hands back is
      installed; when the engine cannot run it, its error is reported and the store
      is the one the refused attempt left (the cache is mutated while the caller is
      loaded, before validation fails). */
  function Write(vm: Vm, engine: Engine, tx: TxEnv): (r: Step<ExecutionResult>)
    ensures r.vm.env == vm.env.(tx := tx)
    ensures r.result.Ok? <==> Invoke(vm, engine, tx).Ok?
    ensures r.result.Ok? ==>
      r.result.value == Invoke(vm, engine, tx).value.result && r.vm.db == Invoke(vm, engine, tx).value.state
    ensures r.result.Err? ==>
      r.result.error == WriteFailed(Invoke(vm, engine, tx).error.error) && r.vm.db == Invoke(vm, engine, tx).error.state
  {
    var env := vm.env.(tx := tx);
    match engine(env, vm.db)
    case Ok(ResultAndState(result, state)) => Step(Ok(result), Vm(env, state))
    case Err(EngineFailure(e, state)) => Step(Err(WriteFailed(e)), Vm(env, state))
  }

  /** `read`: install `tx` and run it without committing. The store is the same
      afterwards whatever happened; an engine failure is reported without its cause. */
  function Read(vm: Vm, engine: Engine, tx: TxEnv): (r: Step<ExecutionResult>)
    ensures r.vm == vm.(env := vm.env.(tx := tx))
    ensures r.result.Ok? <==> Invoke(vm, engine, tx).Ok?
    ensures r.result.Ok? ==> r.result.value == Invoke(vm, engine, tx).value.result
    ensures r.result.Err? ==> r.result.error == SimulateFailed
  {
    var env := vm.env.(tx := tx);
    var result :=
      match engine(env, vm.db)
      case Ok(ResultAndState(result, _)) => Ok(result)
      case Err(_) => Err(SimulateFailed);
    Step(result, Vm(env, vm.db))
  }

  /** `read` and `write` see the same outcome and leave the same environment behind;
      they differ only in the store they leave and in how an engine failure is tagged. */
  lemma ReadWriteSameOutcome(vm: Vm, engine: Engine, tx: TxEnv)
    ensures Read(vm, engine, tx).result.Ok? == Write(vm, engine, tx).result.Ok?
    ensures Read(vm, engine, tx).result.Ok? ==>
      Read(vm, engine, tx).result.value == Write(vm, engine, tx).result.value
    ensures Read(vm, engine, tx).vm.env == Write(vm, engine, tx).vm.env
    ensures Read(vm, engine, tx).vm.db == vm.db
  {
  }

  /** The cache marks `user` as an account the backing store does not have. */
  predicate MarkedNotExisting(vm: Vm, user: Address) {
    user in vm.db.accounts && vm.db.accounts[user].notExisting
  }

  /** `balance_of`: the recorded balance, or zero for an address with no record or
      with a record the cache marks as not existing (`basic` then yields no account). */
  function BalanceOf(vm: Vm, user: Address): (r: U256)
    ensures user in vm.db.accounts && !vm.db.accounts[user].notExisting ==> r == vm.db.accounts[user].info.balance
    ensures user !in vm.db.accounts ==> r == 0
    ensures MarkedNotExisting(vm, user) ==> r == 0
  {
    if user in vm.db.accounts && !vm.db.accounts[user].notExisting then vm.db.accounts[user].info.balance else 0
  }

  /** `add_account`: `insert_account_info` sets the balance record of `user`'s entry
      (creating a default entry if there is none) to a default record holding `value`
      (nothing when `value` is None). An existing entry keeps its storage and its
      not-existing marker. Always succeeds; no other entry and not the environment
      is touched. */
  function AddAccount(vm: Vm, user: Address, value: Option<U256>): (r: Step<()>)
    ensures r.result.Ok?
    ensures r.vm.env == vm.env
    ensures user in r.vm.db.accounts
    ensures r.vm.db.accounts[user].info == DefaultInfo.(balance := value.GetOr(0))
    ensures user in vm.db.accounts ==>
      r.vm.db.accounts[user].storage == vm.db.accounts[user].storage &&
      r.vm.db.accounts[user].notExisting == vm.db.accounts[user].notExisting
    ensures user !in vm.db.accounts ==>
      r.vm.db.accounts[user].storage == map[] && !r.vm.db.accounts[user].notExisting
    ensures forall a :: a != user ==> (a in r.vm.db.accounts <==> a in vm.db.accounts)
    ensures forall a :: a != user && a in vm.db.accounts ==> r.vm.db.accounts[a] == vm.db.accounts[a]
  {
    var info := if value.Some? then DefaultInfo.(balance := value.value) else DefaultInfo;
    var entry := if user in vm.db.accounts then vm.db.accounts[user] else DefaultAccount;
    Step(Ok(()), vm.(db := Db(vm.db.accounts[user := entry.(info := info)])))
  }

  /** Reading a balance after `add_account` gives the amount just installed for that
      address unless the cache marks it as not existing, in which case it still reads
      zero; every other address keeps its balance. The marker is never cleared. */
  lemma BalanceAfterAddAccount(vm: Vm, user: Address, value: Option<U256>, other: Address)
    ensures BalanceOf(AddAccount(vm, user, value).vm, user) ==
      if MarkedNotExisting(vm, user) then 0 else value.GetOr(0)
    ensures MarkedNotExisting(AddAccount(vm, user, value).vm, user) == MarkedNotExisting(vm, user)
    ensures other != user ==> BalanceOf(AddAccount(vm, user, value).vm, other) == BalanceOf(vm, other)
  {
  }

  /** Funding an account the cache has marked as not existing does not make the
      funds visible: `balance_of` still reads zero. */
  lemma FundingMarkedAccountReadsZero(vm: Vm, user: Address, value: U256)
    requires MarkedNotExisting(vm, user)
    ensures BalanceOf(AddAccount(vm, user, Some(value)).vm, user) == 0
    ensures AddAccount(vm, user, Some(value)).vm.db.accounts[user].info.balance == value
  {
  }
}
