/** The single error channel of the provider and the contract binding (`anyhow::Error`
    in the source), with one tag per way an operation can fail. Message text is not
    modelled; each tag keeps the value the message would have shown. */
module Errors {
  import opened Primitives

  /** A failure reported by the ABI codec (unknown function, argument or return shape
      mismatch); opaque here. */
  datatype AbiError = AbiError(code: nat)

  datatype Error =
    | WriteFailed(cause: EvmError)   // the engine could not run a committing transaction
    | SimulateFailed                 // the engine could not run a simulated transaction
    | Reverted(output: Bytes)        // the code reverted, with this revert payload
    | Halted(reason: HaltReason)     // the engine aborted execution for this reason
    | ExpectedCreate                 // deploy got an outcome that created no account
    | ExpectedCallOutput             // call/send got a creation outcome
    | MissingAddress                 // call/send on a binding with no address
    | EncodeFailed(abi: AbiError)    // the arguments could not be encoded
    | DecodeFailed(abi: AbiError)    // the returned bytes could not be decoded
  {
    /** The failure came out of the engine adapter or the outcome classification,
        i.e. from the provider rather than from the contract binding. */
    predicate FromProvider() {
      WriteFailed? || SimulateFailed? || Reverted? || Halted? || ExpectedCreate? || ExpectedCallOutput?
    }
  }
}
