/** `Contract`: an ABI paired with an optional deployed address, driving the provider
    for deploy, call and send. The ABI codec (encoding arguments for a named function,
    decoding its return bytes) is a parameter: any pair of functions. */
module ContractBinding {
  import opened Wrappers
  import opened Primitives
  import opened Errors
  import opened Inner
  import Provider

  /** One function of the interface: its name and its input and output types,
      written as in Solidity (`uint256`, `address`, ...). */
  datatype AbiFunction = AbiFunction(name: string, inputs: seq<string>, outputs: seq<string>)

  /** A parsed contract interface. */
  datatype Abi = Abi(functions: seq<AbiFunction>)

  predicate Declares(abi: Abi, name: string) {
    exists f :: f in abi.functions && f.name == name
  }

  /** The ABI codec for argument type `A` and return type `D`: encode the arguments of
      a named function into call data, decode a named function's return bytes. */
  datatype Codec<!A, D> = Codec(
    encode: (Abi, string, A) -> Result<Bytes, AbiError>,
    decode: (Abi, string, Bytes) -> Result<D, AbiError>)

  /** A codec that refuses to encode a call to a function the interface does not
      declare (what the ABI library does; stated here as an assumption about it). */
  ghost predicate RejectsUnknownNames<A(!new), D>(codec: Codec<A, D>) {
    forall abi, name, args :: !Declares(abi, name) ==> codec.encode(abi, name, args).Err?
  }

  /** The binding: an interface and, once known, the address it is deployed at. */
  datatype Contract = Contract(abi: Abi, address: Option<Address>)

  /** The transaction `call` and `send` hand to the provider: the default transaction
      from `caller` to `to` carrying `data`. */
  function CallTx(caller: Address, to: Address, data: Bytes): (tx: TxEnv)
    ensures tx.caller == caller && tx.transactTo == TransactTo.Call(to) && tx.data == data
    ensures tx.value == 0
    ensures tx == DefaultTx.(caller := caller, transactTo := TransactTo.Call(to), data := data)
  {
    DefaultTx.(caller := caller, transactTo := TransactTo.Call(to), data := data)
  }

  /** `From<Abi>`: bind an interface with no address yet. */
  function FromAbi(abi: Abi): (c: Contract)
    ensures c.abi == abi
    ensures c.address.None?
  {
    Contract(abi, None)
  }

  /** `at`: a copy of the binding with the same interface and its address set to
      `address`; the binding it was taken from is a value and stays as it was. */
  function At(c: Contract, address: Address): (r: Contract)
    ensures r.abi == c.abi
    ensures r.address == Some(address)
  {
    c.(address := Some(address))
  }

  /** Re-binding only ever replaces the address: the last `at` wins and the interface
      is the one the binding was made from. */
  lemma AtLastWins(c: Contract, a: Address, b: Address)
    ensures At(At(c, a), b) == At(c, b)
    ensures At(c, a) == Contract(c.abi, Some(a))
    ensures At(FromAbi(c.abi), a) == Contract(c.abi, Some(a))
  {
  }

  /** `Contract::deploy`: hand the provider a creation transaction from `deployer`
      whose data is the init code, and return exactly what the provider's `deploy`
      returns. */
  function Deploy(vm: Vm, engine: Engine, deployer: Address, bincode: Bytes): (r: Step<(Address, U64)>)
    ensures r == Provider.Deploy(vm, engine, DefaultTx.(caller := deployer, transactTo := CreateTarget, data := bincode))
  {
    var tx := DefaultTx.(caller := deployer, transactTo := CreateTarget, data := bincode);
    Provider.Deploy(vm, engine, tx)
  }

  /** Decode the return bytes of a successful provider result; a provider error is
      passed on without consulting the decoder. Gas and logs are the provider's. */
  function DecodeReturn<A, D>(codec: Codec<A, D>, abi: Abi, name: string, p: Result<(Bytes, U64, seq<Log>), Error>)
    : (r: Result<(D, U64, seq<Log>), Error>)
    ensures p.Err? ==> r.Err? && r.error == p.error
    ensures p.Ok? && codec.decode(abi, name, p.value.0).Err? ==>
      r.Err? && r.error == DecodeFailed(codec.decode(abi, name, p.value.0).error)
    ensures r.Ok? <==> p.Ok? && codec.decode(abi, name, p.value.0).Ok?
    ensures r.Ok? ==> r.value == (codec.decode(abi, name, p.value.0).value, p.value.1, p.value.2)
  {
    match p
    case Err(e) => Err(e)
    case Ok((bits, gasUsed, logs)) =>
      match codec.decode(abi, name, bits)
      case Err(e) => Err(DecodeFailed(e))
      case Ok(v) => Ok((v, gasUsed, logs))
  }

  /** `call`: a read-only request. Without an address it fails at once; if the
      arguments do not encode it fails with the encoder's error; in both cases the
      provider is not touched. Otherwise the provider's `call` runs the call
      transaction, so the store is never changed, and its result is decoded. */
  function Call<A, D>(c: Contract, vm: Vm, engine: Engine, codec: Codec<A, D>, name: string, args: A, caller: Address)
    : (r: Step<(D, U64, seq<Log>)>)
    ensures r.vm.db == vm.db
    ensures c.address.None? ==> r.result == Err(MissingAddress) && r.vm == vm
    ensures var enc := codec.encode(c.abi, name, args);
      c.address.Some? && enc.Err? ==> r.result == Err(EncodeFailed(enc.error)) && r.vm == vm
    ensures var enc := codec.encode(c.abi, name, args);
      c.address.Some? && enc.Ok? ==>
        && r.vm.env.tx == CallTx(caller, c.address.value, enc.value)
        && r.vm == Provider.Call(vm, engine, r.vm.env.tx).vm
        && r.result == DecodeReturn(codec, c.abi, name, Provider.Call(vm, engine, r.vm.env.tx).result)
  {
    if c.address.None? then Step(Err(MissingAddress), vm)
    else
      match codec.encode(c.abi, name, args)
      case Err(e) => Step(Err(EncodeFailed(e)), vm)
      case Ok(encoded) =>
        var p := Provider.Call(vm, engine, CallTx(caller, c.address.value, encoded));
        Step(DecodeReturn(codec, c.abi, name, p.result), p.vm)
  }

  /** `send`: a committing request. The same guards in the same order as `call`; the
      transaction carries `value` when one is given and zero otherwise, and goes to
      the provider's `send`, whose store is kept. */
  function Send<A, D>(c: Contract, vm: Vm, engine: Engine, codec: Codec<A, D>, name: string, args: A,
                      caller: Address, value: Option<U256>)
    : (r: Step<(D, U64, seq<Log>)>)
    ensures c.address.None? ==> r.result == Err(MissingAddress) && r.vm == vm
    ensures var enc := codec.encode(c.abi, name, args);
      c.address.Some? && enc.Err? ==> r.result == Err(EncodeFailed(enc.error)) && r.vm == vm
    ensures var enc := codec.encode(c.abi, name, args);
      c.address.Some? && enc.Ok? ==>
        && r.vm.env.tx == CallTx(caller, c.address.value, enc.value).(value := value.GetOr(0))
        && r.vm == Provider.Send(vm, engine, r.vm.env.tx).vm
        && r.result == DecodeReturn(codec, c.abi, name, Provider.Send(vm, engine, r.vm.env.tx).result)
  {
    if c.address.None? then Step(Err(MissingAddress), vm)
    else
      match codec.encode(c.abi, name, args)
      case Err(e) => Step(Err(EncodeFailed(e)), vm)
      case Ok(encoded) =>
        var tx := CallTx(caller, c.address.value, encoded);
        var tx := if value.Some? then tx.(value := value.value) else tx;
        var p := Provider.Send(vm, engine, tx);
        Step(DecodeReturn(codec, c.abi, name, p.result), p.vm)
  }

  /** The stages of `call` fail in a fixed order, and the error says which stage
      failed: a missing address, then encoding, then the provider, then decoding.
      A call succeeds exactly when no stage fails. */
  lemma CallFailsInOrder<A, D>(c: Contract, vm: Vm, engine: Engine, codec: Codec<A, D>, name: string, args: A, caller: Address)
    ensures var r := Call(c, vm, engine, codec, name, args, caller);
      && (r.result.Err? && r.result.error == MissingAddress <==> c.address.None?)
      && (r.result.Err? && r.result.error.EncodeFailed? <==>
            c.address.Some? && codec.encode(c.abi, name, args).Err?)
      && (r.result.Err? && r.result.error.FromProvider() <==>
            c.address.Some? && codec.encode(c.abi, name, args).Ok? &&
            Provider.Call(vm, engine, r.vm.env.tx).result.Err?)
      && (r.result.Err? && r.result.error.DecodeFailed? <==>
            c.address.Some? && codec.encode(c.abi, name, args).Ok? &&
            Provider.Call(vm, engine, r.vm.env.tx).result.Ok? &&
            codec.decode(c.abi, name, Provider.Call(vm, engine, r.vm.env.tx).result.value.0).Err?)
      && (r.result.Ok? <==>
            c.address.Some? && codec.encode(c.abi, name, args).Ok? &&
            Provider.Call(vm, engine, r.vm.env.tx).result.Ok? &&
            codec.decode(c.abi, name, Provider.Call(vm, engine, r.vm.env.tx).result.value.0).Ok?)
  {
    var r := Call(c, vm, engine, codec, name, args, caller);
    if c.address.Some? && codec.encode(c.abi, name, args).Ok? {
      ProviderErrorsFromProvider(vm, engine, r.vm.env.tx);
    }
  }

  /** `send` fails in the same order as `call`, the provider stage being the
      provider's `send`. */
  lemma SendFailsInOrder<A, D>(c: Contract, vm: Vm, engine: Engine, codec: Codec<A, D>, name: string, args: A,
                               caller: Address, value: Option<U256>)
    ensures var r := Send(c, vm, engine, codec, name, args, caller, value);
      && (r.result.Err? && r.result.error == MissingAddress <==> c.address.None?)
      && (r.result.Err? && r.result.error.EncodeFailed? <==>
            c.address.Some? && codec.encode(c.abi, name, args).Err?)
      && (r.result.Err? && r.result.error.FromProvider() <==>
            c.address.Some? && codec.encode(c.abi, name, args).Ok? &&
            Provider.Send(vm, engine, r.vm.env.tx).result.Err?)
      && (r.result.Err? && r.result.error.DecodeFailed? <==>
            c.address.Some? && codec.encode(c.abi, name, args).Ok? &&
            Provider.Send(vm, engine, r.vm.env.tx).result.Ok? &&
            codec.decode(c.abi, name, Provider.Send(vm, engine, r.vm.env.tx).result.value.0).Err?)
      && (r.result.Ok? <==>
            c.address.Some? && codec.encode(c.abi, name, args).Ok? &&
            Provider.Send(vm, engine, r.vm.env.tx).result.Ok? &&
            codec.decode(c.abi, name, Provider.Send(vm, engine, r.vm.env.tx).result.value.0).Ok?)
  {
    var r := Send(c, vm, engine, codec, name, args, caller, value);
    if c.address.Some? && codec.encode(c.abi, name, args).Ok? {
      ProviderErrorsFromProvider(vm, engine, r.vm.env.tx);
    }
  }

  /** Every error the provider's `call` or `send` reports is one of the provider's own. */
  lemma ProviderErrorsFromProvider(vm: Vm, engine: Engine, tx: TxEnv)
    ensures Provider.Call(vm, engine, tx).result.Err? ==> Provider.Call(vm, engine, tx).result.error.FromProvider()
    ensures Provider.Send(vm, engine, tx).result.Err? ==> Provider.Send(vm, engine, tx).result.error.FromProvider()
  {
  }

  /** Calling a function the interface does not declare never reaches the engine: the
      call fails before dispatch and leaves the context exactly as it was. */
  lemma UnknownFunctionNeverDispatched<A(!new), D>(c: Contract, vm: Vm, engine: Engine, codec: Codec<A, D>,
                                             name: string, args: A, caller: Address, value: Option<U256>)
    requires RejectsUnknownNames(codec)
    requires !Declares(c.abi, name)
    ensures var r := Call(c, vm, engine, codec, name, args, caller);
      r.vm == vm && r.result.Err? && (r.result.error.MissingAddress? || r.result.error.EncodeFailed?)
    ensures var r := Send(c, vm, engine, codec, name, args, caller, value);
      r.vm == vm && r.result.Err? && (r.result.error.MissingAddress? || r.result.error.EncodeFailed?)
  {
    assert codec.encode(c.abi, name, args).Err?;
  }
}
