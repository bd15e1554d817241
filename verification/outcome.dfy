/** Classification of an execution outcome into a value or an error: the free
    functions at the bottom of `src/provider.rs` and the output-shape check of
    `RevmProvider::deploy`. All three are total. */
module Outcome {
  import opened Wrappers
  import opened Primitives
  import opened Errors

  /** `process_execution_result`: only a Success is a value, and it passes its output,
      gas used and logs on unchanged; a Revert reports its payload and a Halt its reason. */
  function ProcessExecutionResult(x: ExecutionResult): (r: Result<(Output, U64, seq<Log>), Error>)
    ensures r.Ok? <==> x.Success?
    ensures r.Ok? ==> r.value.0 == x.output && r.value.1 == x.gasUsed && r.value.2 == x.logs
    ensures x.Revert? ==> r.Err? && r.error == Reverted(x.returned)
    ensures x.Halt? ==> r.Err? && r.error == Halted(x.reason)
  {
    match x
    case Success(_, gasUsed, _, logs, output) => Ok((output, gasUsed, logs))
    case Revert(_, output) => Err(Reverted(output))
    case Halt(reason, _) => Err(Halted(reason))
  }

  /** `process_result_with_value`: a value exactly when the outcome is a Success whose
      output is call output, and then that output's bytes with gas and logs. A creation
      output is refused; a Revert or Halt keeps the error it was classified with. */
  function ProcessResultWithValue(x: ExecutionResult): (r: Result<(Bytes, U64, seq<Log>), Error>)
    ensures r.Ok? <==> x.Success? && x.output.Call?
    ensures r.Ok? ==> r.value == (x.output.bytes, x.gasUsed, x.logs)
    ensures x.Success? && x.output.Create? ==> r.Err? && r.error == ExpectedCallOutput
    ensures !x.Success? ==> r.Err? && r.error == ProcessExecutionResult(x).error
  {
    var (output, gasUsed, logs) :- ProcessExecutionResult(x);
    match output
    case Call(bits) => Ok((bits, gasUsed, logs))
    case Create(_, _) => Err(ExpectedCallOutput)
  }

  /** The output-shape check of `deploy`: a value exactly when the output is a creation
      that produced an address, and then that address with the gas used. */
  function CreatedAddress(output: Output, gasUsed: U64): (r: Result<(Address, U64), Error>)
    ensures r.Ok? <==> output.Create? && output.address.Some?
    ensures r.Ok? ==> r.value == (output.address.value, gasUsed)
    ensures r.Err? ==> r.error == ExpectedCreate
  {
    match output
    case Create(_, Some(address)) => Ok((address, gasUsed))
    case _ => Err(ExpectedCreate)
  }

  /** The whole classification `deploy` applies to an outcome. */
  function ProcessDeployResult(x: ExecutionResult): (r: Result<(Address, U64), Error>)
    ensures r.Ok? <==> x.Success? && x.output.Create? && x.output.address.Some?
    ensures r.Ok? ==> r.value == (x.output.address.value, x.gasUsed)
    ensures x.Success? && r.Err? ==> r.error == ExpectedCreate
    ensures !x.Success? ==> r.Err? && r.error == ProcessExecutionResult(x).error
  {
    var (output, gas, _) :- ProcessExecutionResult(x);
    CreatedAddress(output, gas)
  }

  /** No outcome is accepted both by `deploy` and by `send`/`call`, and every Success
      is accepted by one of them unless it is a creation that produced no address. */
  lemma DeployAndCallShapesDisjoint(x: ExecutionResult)
    ensures !(ProcessDeployResult(x).Ok? && ProcessResultWithValue(x).Ok?)
    ensures x.Success? ==>
      (ProcessDeployResult(x).Ok? || ProcessResultWithValue(x).Ok?
       <==> !(x.output.Create? && x.output.address.None?))
  {
  }

  /** A Revert or Halt is refused by both classifications with the same error, the
      one that names the revert payload or the halt reason. */
  lemma FailedOutcomesAgree(x: ExecutionResult)
    requires !x.Success?
    ensures ProcessDeployResult(x).Err? && ProcessResultWithValue(x).Err?
    ensures ProcessDeployResult(x).error == ProcessResultWithValue(x).error
    ensures ProcessDeployResult(x).error == (if x.Revert? then Reverted(x.returned) else Halted(x.reason))
  {
  }
}
