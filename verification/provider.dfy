/** `RevmProvider`: the public operations over the execution context. Each takes the
    context and the engine and returns its value (or error) with the context after
    it. `deploy` and `send` run the transaction through `write`, `call` through
    `read`; `transfer` is a `send` of a plain value transfer. `balance_of` reads the
    store directly (it is `Inner.BalanceOf`). */
module Provider {
  import opened Wrappers
  import opened Primitives
  import opened Errors
  import opened Outcome
  import opened Inner

  /** `deploy`: run `tx` committing and read the created address out of the outcome.
      The store the engine hands back is installed whatever the outcome was, and so
      is the store a refused run leaves; the address and gas are returned exactly
      when the outcome is a Success whose output is a creation that produced an
      address. An engine failure is reported as such, before any outcome is looked
      at. */
  function Deploy(vm: Vm, engine: Engine, tx: TxEnv): (r: Step<(Address, U64)>)
    ensures r.vm.env == vm.env.(tx := tx)
    ensures var run := Invoke(vm, engine, tx);
      r.result.Ok? <==> run.Ok? && run.value.result.Success? && run.value.result.output.Create?
                        && run.value.result.output.address.Some?
    ensures var run := Invoke(vm, engine, tx);
      r.result.Ok? ==> r.result.value == (run.value.result.output.address.value, run.value.result.gasUsed)
    ensures var run := Invoke(vm, engine, tx);
      run.Err? ==> r.result == Err(WriteFailed(run.error.error)) && r.vm.db == run.error.state
    ensures var run := Invoke(vm, engine, tx);
      run.Ok? ==> r.vm.db == run.value.state && r.result == ProcessDeployResult(run.value.result)
  {
    var w := Write(vm, engine, tx);
    var executed: Result<(Output, U64, seq<Log>), Error> := w.result.AndThen(ProcessExecutionResult);
    var result :=
      match executed
      case Err(e) => Err(e)
      case Ok((output, gas, _)) => CreatedAddress(output, gas);
    Step(result, w.vm)
  }

  /** `send`: run `tx` committing and return the call output with gas and logs. The
      store the engine hands back is installed whatever the outcome was, and so is
      the store a refused run leaves. */
  function Send(vm: Vm, engine: Engine, tx: TxEnv): (r: Step<(Bytes, U64, seq<Log>)>)
    ensures r.vm.env == vm.env.(tx := tx)
    ensures var run := Invoke(vm, engine, tx);
      r.result.Ok? <==> run.Ok? && run.value.result.Success? && run.value.result.output.Call?
    ensures var run := Invoke(vm, engine, tx);
      run.Err? ==> r.result == Err(WriteFailed(run.error.error)) && r.vm.db == run.error.state
    ensures var run := Invoke(vm, engine, tx);
      run.Ok? ==> r.vm.db == run.value.state && r.result == ProcessResultWithValue(run.value.result)
  {
    var w := Write(vm, engine, tx);
    Step(w.result.AndThen(ProcessResultWithValue), w.vm)
  }

  /** `call`: run `tx` without committing. The result is classified as `send` would
      classify it, but the store afterwards is the store before, whatever the
      outcome, so no balance changes. */
  function Call(vm: Vm, engine: Engine, tx: TxEnv): (r: Step<(Bytes, U64, seq<Log>)>)
    ensures r.vm == vm.(env := vm.env.(tx := tx))
    ensures forall user :: BalanceOf(r.vm, user) == BalanceOf(vm, user)
    ensures var run := Invoke(vm, engine, tx);
      r.result.Ok? <==> run.Ok? && run.value.result.Success? && run.value.result.output.Call?
    ensures var run := Invoke(vm, engine, tx);
      run.Err? ==> r.result == Err(SimulateFailed)
    ensures var run := Invoke(vm, engine, tx);
      run.Ok? ==> r.result == ProcessResultWithValue(run.value.result)
  {
    var rd := Read(vm, engine, tx);
    Step(rd.result.AndThen(ProcessResultWithValue), rd.vm)
  }

  /** `transfer`: a `send` of the default transaction turned into a transfer of
      `value` from `from` to `to`, with no data. */
  function Transfer(vm: Vm, engine: Engine, from: Address, to: Address, value: U256): (r: Step<(Bytes, U64, seq<Log>)>)
    ensures r.vm.env.tx.caller == from
    ensures r.vm.env.tx.transactTo == TransactTo.Call(to)
    ensures r.vm.env.tx.value == value
    ensures r.vm.env.tx.data == []
    ensures r == Send(vm, engine, DefaultTx.(caller := from, transactTo := TransactTo.Call(to), value := value))
  {
    var tx := DefaultTx.(caller := from, transactTo := TransactTo.Call(to), value := value);
    Send(vm, engine, tx)
  }

  /** `create_account`: always succeeds; afterwards `user` holds exactly `value`
      (zero when None) whatever it held before, unless the cache marks `user` as not
      existing, in which case its balance still reads zero. The marker is neither set
      nor cleared, and every other balance and the environment are as they were. */
  function CreateAccount(vm: Vm, user: Address, value: Option<U256>): (r: Step<()>)
    ensures r.result.Ok?
    ensures r.vm.env == vm.env
    ensures !MarkedNotExisting(vm, user) ==> BalanceOf(r.vm, user) == (if value.Some? then value.value else 0)
    ensures MarkedNotExisting(vm, user) ==> BalanceOf(r.vm, user) == 0
    ensures forall a :: MarkedNotExisting(r.vm, a) == MarkedNotExisting(vm, a)
    ensures forall other :: other != user ==> BalanceOf(r.vm, other) == BalanceOf(vm, other)
  {
    AddAccount(vm, user, value)
  }

  /** Funding an account twice with the same value leaves the same state as funding
      it once: the second call overwrites, it does not add. */
  lemma CreateAccountIdempotent(vm: Vm, user: Address, value: Option<U256>)
    ensures CreateAccount(CreateAccount(vm, user, value).vm, user, value) == CreateAccount(vm, user, value)
  {
    var once := CreateAccount(vm, user, value).vm;
    var twice := CreateAccount(once, user, value).vm;
    assert twice.db.accounts == once.db.accounts;
  }

  /** Simulating a transaction before sending it changes nothing about the send: the
      same result and the same state as sending it straight away. */
  lemma CallThenSendIsSend(vm: Vm, engine: Engine, tx: TxEnv)
    ensures Send(Call(vm, engine, tx).vm, engine, tx) == Send(vm, engine, tx)
  {
  }

  /** Reads are repeatable: a second identical `call` sees the same context and so
      returns the same result and leaves the same state as the first. */
  lemma RepeatedCallSameResult(vm: Vm, engine: Engine, tx: TxEnv)
    ensures Call(Call(vm, engine, tx).vm, engine, tx) == Call(vm, engine, tx)
  {
  }

  /** When the engine runs the transaction, `call` and `send` report the same value or
      the same outcome error; only the store they leave behind differs. */
  lemma CallAndSendAgree(vm: Vm, engine: Engine, tx: TxEnv)
    requires Invoke(vm, engine, tx).Ok?
    ensures Call(vm, engine, tx).result == Send(vm, engine, tx).result
    ensures Call(vm, engine, tx).vm.db == vm.db
    ensures Send(vm, engine, tx).vm.db == Invoke(vm, engine, tx).value.state
  {
  }

  /** A Revert or Halt is reported alike by `deploy` and `send`: the same error, and
      the same context afterwards, since both commit through `write`. */
  lemma DeploySendAgreeOnFailure(vm: Vm, engine: Engine, tx: TxEnv)
    requires Invoke(vm, engine, tx).Ok? && !Invoke(vm, engine, tx).value.result.Success?
    ensures Deploy(vm, engine, tx).result.Err? && Send(vm, engine, tx).result.Err?
    ensures Deploy(vm, engine, tx).result.error == Send(vm, engine, tx).result.error
    ensures Deploy(vm, engine, tx).vm == Send(vm, engine, tx).vm
  {
    FailedOutcomesAgree(Invoke(vm, engine, tx).value.result);
  }

  /** A committing run the engine refuses can still leave a not-existing marker for
      its caller in the store; funding that caller afterwards is then not visible to
      `balance_of`. */
  lemma RefusedSendCanHideFunding(vm: Vm, engine: Engine, tx: TxEnv, amount: U256)
    requires Invoke(vm, engine, tx).Err?
    requires MarkedNotExisting(vm.(db := Invoke(vm, engine, tx).error.state), tx.caller)
    ensures Send(vm, engine, tx).result == Err(WriteFailed(Invoke(vm, engine, tx).error.error))
    ensures BalanceOf(CreateAccount(Send(vm, engine, tx).vm, tx.caller, Some(amount)).vm, tx.caller) == 0
  {
  }

  /** A funding request: an address and the optional amount to give it. */
  type Funding = (Address, Option<U256>)

  /** `create_account` applied to each request in turn; no request sets or clears a
      not-existing marker. */
  function CreateAccounts(vm: Vm, fundings: seq<Funding>): (r: Vm)
    ensures r.env == vm.env
    ensures forall a :: MarkedNotExisting(r, a) == MarkedNotExisting(vm, a)
    decreases |fundings|
  {
    if |fundings| == 0 then vm
    else
      var last := fundings[|fundings| - 1];
      CreateAccount(CreateAccounts(vm, fundings[..|fundings| - 1]), last.0, last.1).vm
  }

  /** The amount the last request for `user` asks for, if any request names it. */
  function LastFunding(fundings: seq<Funding>, user: Address): (r: Option<Option<U256>>)
    decreases |fundings|
  {
    if |fundings| == 0 then None
    else if fundings[|fundings| - 1].0 == user then Some(fundings[|fundings| - 1].1)
    else LastFunding(fundings[..|fundings| - 1], user)
  }

  /** Last write wins: after a run of `create_account` calls, an address holds what the
      last call naming it asked for, and an address no call names holds what it held.
      An address the cache marks as not existing reads zero whatever it was funded with. */
  lemma {:induction false} FundingLastWriteWins(vm: Vm, fundings: seq<Funding>, user: Address)
    ensures BalanceOf(CreateAccounts(vm, fundings), user) ==
      match LastFunding(fundings, user)
      case None => BalanceOf(vm, user)
      case Some(value) => if MarkedNotExisting(vm, user) then 0 else value.GetOr(0)
    decreases |fundings|
  {
    if |fundings| > 0 {
      FundingLastWriteWins(vm, fundings[..|fundings| - 1], user);
    }
  }

  /** The last request for `user` in `xs + ys` is the last one in `ys` if `ys` names
      `user`, and the last one in `xs` otherwise. */
  lemma {:induction false} LastFundingAppend(xs: seq<Funding>, ys: seq<Funding>, user: Address)
    ensures LastFunding(xs + ys, user) ==
      if LastFunding(ys, user).Some? then LastFunding(ys, user) else LastFunding(xs, user)
    decreases |ys|
  {
    if |ys| == 0 {
      assert xs + ys == xs;
    } else {
      var ys' := ys[..|ys| - 1];
      assert (xs + ys)[..|xs + ys| - 1] == xs + ys';
      LastFundingAppend(xs, ys', user);
    }
  }

  /** Replaying a whole run of `create_account` calls a second time leaves every
      balance as the first run left it. */
  lemma FundingTwiceSameAsOnce(vm: Vm, fundings: seq<Funding>, user: Address)
    ensures BalanceOf(CreateAccounts(vm, fundings + fundings), user) == BalanceOf(CreateAccounts(vm, fundings), user)
  {
    FundingLastWriteWins(vm, fundings + fundings, user);
    FundingLastWriteWins(vm, fundings, user);
    LastFundingAppend(fundings, fundings, user);
  }

  const ONE_ETHER: U256 := 1_000_000_000_000_000_000

  /** The provider's own test: fund alice (address 1) and bob (address 2) with one
      ether each on a fresh provider; both then hold one ether. */
  lemma ProviderBasics()
    ensures var vm := CreateAccounts(New(), [(1, Some(ONE_ETHER)), (2, Some(ONE_ETHER))]);
      BalanceOf(vm, 2) == ONE_ETHER && BalanceOf(vm, 1) == ONE_ETHER
  {
    var fundings: seq<Funding> := [(1, Some(ONE_ETHER)), (2, Some(ONE_ETHER))];
    FundingLastWriteWins(New(), fundings, 1);
    FundingLastWriteWins(New(), fundings, 2);
  }
}
