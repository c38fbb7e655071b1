/**
 * The driver's error type of src/lib.rs and the outcome of a driver
 * operation: its result together with the SPI trace it leaves.
 */
module Errors {
  import opened Wrappers
  import opened LowLevel

  /** `UserError`. */
  datatype UserError =
      MissingLengthParameter
    | MissingAddressParameter
    | MissingRxStatusParameters
    | ArrayTooLong(len: nat)

  /**
   * `Error<SpiE>`, plus two outcomes the model makes explicit: `Timeout`
   * when a poll loop runs out of fuel, and `Panic` for a panic of the driver.
   */
  datatype Error =
      TxUnderflow
    | RxOverflow
    | CrcMismatch
    | InvalidState(state: Byte)
    | UserInputError(user: UserError)
    | Spi(spi: SpiError)
    | Timeout
    | Panic

  /** The outcome of a driver operation and the trace it leaves. */
  datatype Run<T> = Run(result: Result<T, Error>, trace: Trace)

  /** `From<SpiE> for Error`: a transport error becomes `Error::Spi`. */
  function Lift<T>(s: Step<T>): (r: Run<T>)
    ensures r.trace == s.trace
    ensures r.result.Success? <==> s.result.Success?
    ensures s.result.Success? ==> r.result.value == s.result.value
    ensures s.result.Failure? ==> r.result.error == Spi(s.result.error)
  {
    match s.result
    case Success(v) => Run(Success(v), s.trace)
    case Failure(e) => Run(Failure(Spi(e)), s.trace)
  }
}
