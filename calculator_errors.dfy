/** The errors the checksum calculator raises on top of those of the digest layer. */
module CalculatorErrors {
  import opened Wrappers
  import opened Checksums

  datatype CalculatorError =
    | EmptyProductName(target: string)
    | EmptyTargetChecksum(targetName: string)
    | EmptyProductChecksum(productName: string)
    | ChecksumFailure(cause: ChecksumError)

  /** A digest-layer failure seen through the calculator's error type. */
  function Lift<T>(r: Result<T, ChecksumError>): (l: Result<T, CalculatorError>)
    ensures l.Success? <==> r.Success?
    ensures l.Success? ==> l.value == r.value
    ensures l.Failure? ==> l.error == ChecksumFailure(r.error)
  {
    r.MapFailure(e => ChecksumFailure(e))
  }
}
