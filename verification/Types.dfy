/** Machine integers, public keys, and the program's error and result types. */
module Types {

  const U64_LIMIT: int := 0x1_0000_0000_0000_0000

  type u8 = x: int | 0 <= x < 0x100
  type u64 = x: int | 0 <= x < 0x1_0000_0000_0000_0000

  type Bytes = seq<u8>

  type KeyBytes = b: Bytes | |b| == 32 witness seq(32, i => 0)

  /** A public key: 32 bytes, compared as a whole. */
  datatype Pubkey = Pubkey(bytes: KeyBytes)

  const ZERO_KEY: Pubkey := Pubkey(seq(32, i => 0))

  datatype Option<+T> = None | Some(value: T) {
    function GetOr(default: T): T {
      if Some? then value else default
    }
  }

  /** The errors of `TokenError` and of the host's `ProgramError` that the processor returns;
      `Panicked` stands for a slice or index panic, which aborts the instruction. */
  datatype Error =
    | NotRentExempt
    | InsufficientFunds
    | InvalidMint
    | MintMismatch
    | OwnerMismatch
    | FixedSupply
    | AlreadyInUse
    | InvalidNumberOfProvidedSigners
    | InvalidNumberOfRequiredSigners
    | UninitializedState
    | NativeNotSupported
    | NonNativeHasBalance
    | InvalidInstruction
    | InvalidState
    | Overflow
    | AuthorityTypeNotSupported
    | MintCannotFreeze
    | AccountFrozen
    | MintDecimalsMismatch
    | NonNativeNotSupported
    | InvalidArgument
    | InvalidAccountData
    | UninitializedAccount
    | NotEnoughAccountKeys
    | IncorrectProgramId
    | IllegalOwner
    | MissingRequiredSignature
    | Panicked

  /** Success or an error; failure-compatible, so `:-` reads as the source's `?`. */
  datatype Result<+T> = Ok(value: T) | Err(error: Error) {
    predicate IsFailure() {
      Err?
    }

    function PropagateFailure<U>(): Result<U>
      requires Err?
    {
      Err(error)
    }

    function Extract(): T
      requires Ok?
    {
      value
    }

    function AsOutcome(): Outcome {
      match this
      case Ok(_) => Pass
      case Err(error) => Fail(error)
    }
  }

  /** A result without a value. */
  datatype Outcome = Pass | Fail(error: Error) {
    predicate IsFailure() {
      Fail?
    }

    function PropagateFailure<U>(): Result<U>
      requires Fail?
    {
      Err(error)
    }
  }

  function Need(condition: bool, error: Error): Outcome {
    if condition then Pass else Fail(error)
  }
}
