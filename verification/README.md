# revm-provider, modelled in Dafny

The repository is an in-process execution provider for the EVM. It wraps revm's
interpreter and an in-memory account store (`CacheDB<EmptyDB>`) behind a shared
handle called `RevmProvider`. On top of that handle sits a `Contract` binding, which
pairs an ABI with an optional deployed address. The binding encodes calls, sends
them through the provider and decodes the replies.

This model covers the logic the repository adds on top of revm and the ethers ABI
codec:

- **Outcome classification** (`outcome.dfy`, module `Outcome`). Revm's three-way
  `ExecutionResult` (Success / Revert / Halt) becomes a value or an error. This is
  `process_execution_result`, `process_result_with_value`, and the output-shape
  check in `deploy`.
- **The execution context** (`inner.dfy`, module `Inner`). `EthVmInner` holds the
  environment and the account store. `write` runs a transaction and installs the
  store the engine returns. `read` runs one and keeps the old store.
  `balance_of` treats a missing record, or one the cache marks as not existing, as
  zero. `add_account` replaces the balance record and keeps the entry's storage and
  marker.
- **The provider** (`provider.dfy`, module `Provider`). `deploy` and `send` go
  through `write`. `call` goes through `read`. `transfer` builds a value-transfer
  transaction and sends it. `create_account` funds an account. A run of
  `create_account` calls is modelled too, as the provider's own test uses it.
- **The contract binding** (`contract.dfy`, module `ContractBinding`). This covers
  `From<Abi>`, `at`, `deploy`, `call` and `send`. Their guards are checked in a fixed
  order: missing address, then encoding, then the provider, then decoding.

`primitives.dfy` holds revm's vocabulary: `U256`, `Address`, `TxEnv`, `Output`,
`ExecutionResult`, accounts and the store. `errors.dfy` holds the single error
channel. `wrappers.dfy` holds `Option` and `Result`.

Two collaborators are not described at all. Each one is a function-valued
parameter, so every property holds for every engine and every codec:

- `Engine = (Env, Db) -> Result<ResultAndState, EngineFailure>` stands for revm's
  `transact_commit` / `transact_ref`. One `Engine` value serves both `write`
  (`transact_commit`) and `read` (`transact_ref`). So the model assumes that revm
  computes the same outcome in both modes from the same environment and store.
  `Inner.ReadWriteSameOutcome`, `Provider.CallAndSendAgree` and
  `Provider.CallThenSendIsSend` rest on that assumption, which the provider's code
  does not establish. It receives the environment with the
  transaction installed, plus the current store. It returns either the outcome
  together with the store after that outcome's state changes, or a failure to run
  together with the store as the refused attempt left it.
- `Codec<A, D>` stands for ethers' `BaseContract::encode` / `decode_output`. It holds
  an encode function and a decode function, each of which may fail.

The mutable, lock-protected context becomes a value: each operation takes a `Vm` and
returns a `Step`, which holds the result together with the `Vm` after the operation.

Three behaviours of the source are worth knowing, and the model keeps all three:

- Revert and Halt are not promised to leave the store unchanged. `write` commits
  whatever `transact_commit` returns (src/provider.rs:112), so `Provider.Send` and
  `Provider.Deploy` install the engine's store whatever the outcome.
- `deploy` and `send` do not check the transaction's mode. A mismatch shows up only in
  the output-shape check.
- revm's cache can hold an entry marked "not existing" for an address it looked up
  and did not find. `load_account` (called by `view_account`, src/provider.rs:149)
  plants one, and so can a committing run, even one the engine then refuses: it
  loads the caller into the cache before it validates the transaction, and `write`
  keeps that cache. `insert_account_info`
  (src/provider.rs:143) replaces only the entry's balance record, so the marker
  stays, and `balance_of` (src/provider.rs:129-131) keeps reading zero for that
  address. Funding such an address with `create_account` is therefore not visible
  to `balance_of`. `Inner.FundingMarkedAccountReadsZero` states this, and the
  funding contracts carry the case, and `Provider.RefusedSendCanHideFunding` shows
  how a failed `transfer` or `send` can lead there. This follows revm's cache code,
  which the model does not describe.

## Model

| member | source | states |
|---|---|---|
| Outcome.ProcessExecutionResult | src/provider.rs:156-167 | Ok exactly for a Success, whose output, gas used and logs pass through unchanged; a Revert fails with its payload, a Halt with its reason |
| Outcome.ProcessResultWithValue | src/provider.rs:169-179 | Ok exactly for a Success with call output, and then that output's bytes with gas and logs; a Success with creation output fails with "expected call output"; Revert/Halt keep the classification error |
| Outcome.CreatedAddress | src/provider.rs:36-39 | the deploy shape check accepts exactly a creation output carrying an address and returns that address with the gas; every other output fails with "expected a create call" |
| Outcome.ProcessDeployResult | src/provider.rs:29-39 | the classification deploy applies: Ok exactly for a Success whose output is a creation with an address; Revert/Halt errors come first, shape errors after |
| Outcome.DeployAndCallShapesDisjoint | src/provider.rs:169-179 | no outcome is accepted by both the deploy and the call classification; every Success is accepted by one of them unless it is a creation that produced no address |
| Outcome.FailedOutcomesAgree | src/provider.rs:156-179 | a Revert or Halt is refused by both classifications with the same error naming the payload or reason |
| Inner.New | src/provider.rs:97-107 | a fresh context (what `RevmProvider::new` wraps) has an empty store, so no address is marked not existing and every balance is zero; the transaction is the default one and the block gas limit is `U256::MAX` |
| Inner.Write | src/provider.rs:110-116 | installs the transaction; if the engine runs it, its outcome is returned whatever it is and the engine's store is committed; if not, the engine error is reported and the store is the one the refused attempt left |
| Inner.Read | src/provider.rs:119-125 | installs the transaction; the store afterwards is the store before whatever happened; an engine failure is reported without its cause |
| Inner.ReadWriteSameOutcome | src/provider.rs:110-125 | read and write see the same outcome and leave the same environment; only the committed store and the engine-failure tag differ |
| Inner.BalanceOf | src/provider.rs:127-133 | the recorded balance, or zero for an address with no record or a record marked not existing; it never fails (the provider's `balance_of` at lines 76-78 forwards here) |
| Inner.AddAccount | src/provider.rs:135-146 | always Ok; the entry's balance record becomes a default record holding the value (zero when None); an existing entry keeps its storage and not-existing marker, a new one has empty storage and no marker; every other entry and the environment are unchanged |
| Inner.BalanceAfterAddAccount | src/provider.rs:135-146 | reading a balance after funding returns the funded amount for that address (zero if the cache marks it not existing, a marker funding never clears) and the old balance for any other |
| Inner.FundingMarkedAccountReadsZero | src/provider.rs:127-146 | funding an address the cache marks as not existing stores the amount in its record, yet `balance_of` still reads zero |
| Provider.Deploy | src/provider.rs:28-40 | returns (address, gas) iff the engine ran the transaction and the outcome is a Success with creation output carrying an address; an engine failure is reported before any classification; the store the engine leaves is installed, whether it ran the transaction or refused it |
| Provider.Send | src/provider.rs:58-64 | Ok iff the engine ran the transaction and the outcome is a Success with call output; the engine's store is installed whatever the outcome, and also when the engine refuses the transaction; an engine failure is reported with its cause |
| Provider.Call | src/provider.rs:67-73 | classifies like send, but the store after the call is the store before, whatever the outcome, so no balance changes |
| Provider.Transfer | src/provider.rs:43-55 | is send applied to the default transaction with caller = from, target = call to `to`, value = value and empty data |
| Provider.CreateAccount | src/provider.rs:81-83 | always Ok; afterwards the address holds exactly the value (zero when None) unless the cache marks it not existing, when it reads zero; no marker is set or cleared and every other balance is unchanged |
| Provider.CreateAccountIdempotent | src/provider.rs:135-146 | funding an account twice with the same value leaves the same state and result as funding it once |
| Provider.CallThenSendIsSend | src/provider.rs:58-73 | simulating a transaction with call before sending it gives the same result and the same state as sending it straight away |
| Provider.RepeatedCallSameResult | src/provider.rs:67-73 | repeating an identical call returns the same result and leaves the same state as calling once |
| Provider.CallAndSendAgree | src/provider.rs:58-73 | when the engine runs the transaction, call and send report the same value or error; call keeps the store, send installs the engine's |
| Provider.RefusedSendCanHideFunding | src/provider.rs:110-146 | a send the engine refuses still installs the store the attempt left; if that store marks the caller as not existing, funding the caller afterwards reads zero |
| Provider.DeploySendAgreeOnFailure | src/provider.rs:28-64 | when the engine runs the transaction and the outcome is a Revert or Halt, deploy and send fail with the same error and leave the same context |
| Provider.CreateAccounts | src/provider.rs:197-198 | a run of create_account calls leaves the environment and every not-existing marker untouched |
| Provider.FundingLastWriteWins | src/provider.rs:135-146 | after a run of create_account calls, an address holds what the last call naming it asked for (zero for None, and zero if the cache marks it not existing), and its old balance if no call names it |
| Provider.FundingTwiceSameAsOnce | src/provider.rs:135-146 | replaying a whole run of fundings a second time leaves every balance as one run left it (last write wins, not additive) |
| Provider.ProviderBasics | src/provider.rs:187-205 | the provider test: after funding alice (1) and bob (2) with one ether each on a fresh provider, both balances are one ether |
| ContractBinding.FromAbi | src/contract.rs:76-83 | a binding made from an ABI carries that ABI and no address |
| ContractBinding.At | src/contract.rs:100-104 | the re-bound copy has the same ABI and address Some(a); the original is a value and is unchanged |
| ContractBinding.AtLastWins | src/contract.rs:100-104 | re-binding twice keeps only the last address and the original ABI |
| ContractBinding.Deploy | src/contract.rs:107-119 | hands the provider a create transaction with caller = deployer and data = init code (other fields default) and returns exactly the provider's deploy result and state |
| ContractBinding.CallTx | src/contract.rs:139-142 | the call/send transaction has caller = caller, target = call to the bound address, data = the encoded call, and value zero |
| ContractBinding.DecodeReturn | src/contract.rs:144-149 | decoding runs only on a provider success; a provider error passes through; on success the gas and logs are the provider's and a decode failure is reported as such |
| ContractBinding.Call | src/contract.rs:122-150 | no address: fails with missing address, context untouched; encode failure: that error, context untouched; otherwise dispatches the call transaction to the provider's call (so the store never changes) and decodes its result |
| ContractBinding.Send | src/contract.rs:153-187 | the same guards as call; the transaction's value is the given value or zero when None; dispatches to the provider's send, keeps its state, and decodes its result |
| ContractBinding.CallFailsInOrder | src/contract.rs:133-149 | call fails with missing address iff unbound, with an encode error iff bound and encoding fails, with a provider error iff those pass and the provider fails, with a decode error iff only decoding fails; Ok iff no stage fails |
| ContractBinding.SendFailsInOrder | src/contract.rs:165-186 | the same four-stage failure order for send, with the provider's send as the provider stage |
| ContractBinding.UnknownFunctionNeverDispatched | src/contract.rs:133-137 | for a codec that rejects undeclared names, calling or sending an undeclared function fails before dispatch and leaves the context exactly as it was |

## Left out

- The `Arc<RwLock<…>>` around the context and the `.unwrap()` on a poisoned lock are left out. The model is one sequential context, and every operation runs to completion on it.
- The revm interpreter, gas accounting, log contents and the `CacheDB` commit are left out. They are one opaque `Engine` parameter, which returns the store after the outcome's changes. The model therefore does not prove balance conservation under `transfer`, or that Revert/Halt leave balances unchanged. Both are promises of the engine, and the provider commits whatever the engine returns. The model also does not show that `transact_ref` and `transact_commit` compute the same outcome. It assumes this by giving both the one `Engine`.
- ABI encoding and decoding (ethers `BaseContract::encode` / `decode_output`) are left out. They are an opaque `Codec` parameter. The `Tokenize`/`Detokenize` argument and return types are the type parameters `A` and `D`. That the encoder rejects an undeclared function name is an assumption (`RejectsUnknownNames`), not a proof.
- `view_account` (src/provider.rs:148-153) is left out. It calls revm's `load_account`, which returns the cached entry and, for an unseen address, plants a not-existing marker. The model has the marker, but not this operation that plants it. Markers reach the modelled store only through the store the engine leaves, after a run or a refused one.
- `ContractMetadata` (its `From<&str>` file loader, `normalize_path`, the `bytecode`/`abi` getters) is left out. So is `From<&ContractMetadata> for Contract`. This is file and environment-variable I/O plus serde JSON parsing, which panics on a missing file, a malformed document or missing bytecode.
- Error message text is left out. This includes "oops" and "ooops", the `Debug` rendering of revert payloads and halt reasons, and the message re-formatting by `map_err` in `call` and `send`. Errors are tags that keep the value the message would show. The error payloads of revm and ethers (`EvmError`, `HaltReason`, `AbiError`, and the success reason) are opaque numbered tags.
- The `evm.db()` lookups are left out: the `expect("evm db")` in `balance_of`, and `add_account` doing nothing when there is no database. These branches cannot be reached, because `new` always installs a store.
- Inner.BalanceOf: the only other states revm's cache keeps for an entry (touched, storage cleared) read like an unmarked entry and are not distinguished. A database error from `basic` cannot arise from the empty backing store; the source would read it as zero.
- TxEnv fields the provider never sets (gas priority fee, access list) are not modelled. The defaults of `TxEnv::default()` and `AccountInfo::default()` are revm's, which is not part of this model. The values used are zero caller and target, gas limit `u64::MAX`, zero gas price and value, no data, no nonce or chain id, and a zero-balance, zero-nonce, codeless account.
- The `Into<Address>` conversions in `transfer`, `at` and `deploy` are identities here.
- `src/lib.rs` only re-exports modules and is not modelled.
