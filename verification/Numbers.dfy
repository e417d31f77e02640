// Machine integers of the on-chain program, and the two result types shared by every module.
module Numbers {
  const U16_MAX: int := 0xFFFF
  const U32_MAX: int := 0xFFFF_FFFF
  const U64_MAX: int := 0xFFFF_FFFF_FFFF_FFFF
  const I64_MAX: int := 0x7FFF_FFFF_FFFF_FFFF
  const I64_MIN: int := -0x8000_0000_0000_0000

  type u16 = x: int | 0 <= x <= U16_MAX
  type u32 = x: int | 0 <= x <= U32_MAX
  type u64 = x: int | 0 <= x <= U64_MAX
  type i64 = x: int | I64_MIN <= x <= I64_MAX

  function Min(a: int, b: int): int {
    if a <= b then a else b
  }

  function Max(a: int, b: int): int {
    if a >= b then a else b
  }

  datatype Option<+T> = None | Some(value: T)

  // The program's error codes, plus the ways the runtime itself aborts a transaction.
  datatype Error =
    | InvalidCollateralRatio
    | FeeTooHigh
    | InvalidDrawdown
    | RatioPlusDrawdownTooHigh
    | InvalidTradingWindow
    | ZeroAmount
    | InsufficientFreeCollateral
    | UnauthorizedOperator
    | UnauthorizedExecutor
    | InvalidStatus
    | InvalidDuration
    | DeadlineNotReached
    | DeadlinePassed
    | AgentNotAccepting
    | TermsLocked
    | NotPublished
    | AlreadyPublished
    | NoCollateral
    | Overflow
    | AccountMissing          // an account the instruction names was never initialised
    | AccountInUse            // `init` on an account that already exists
    | InsufficientLamports    // a system transfer larger than the payer's balance
    | BelowRentExemption      // a wallet or vault would end non-zero but below the rent floor
    | Underflow               // an unchecked `-=` went below zero
    | CounterFull             // an unchecked `+= 1` on a counter at its maximum
    | ArithmeticPanic         // any other unchecked operation left its type's range

  datatype Result<+T> = Success(value: T) | Failure(error: Error) {
    predicate IsFailure() { Failure? }

    function PropagateFailure<U>(): Result<U>
      requires Failure?
    {
      Failure(error)
    }

    function Extract(): T
      requires Success?
    {
      value
    }
  }

  datatype Check = Pass | Fail(error: Error) {
    predicate IsFailure() { Fail? }

    function PropagateFailure<U>(): Result<U>
      requires Fail?
    {
      Failure(error)
    }
  }

  // `require!(condition, error)`.
  function Require(condition: bool, error: Error): Check {
    if condition then Pass else Fail(error)
  }
}
