/**
 * The product kinds the cache distinguishes. The enum's declaration is not
 * part of this model: its raw values follow Xcode's product-type
 * identifiers, `.none` has the raw value "none", and the file extensions are
 * those of the product bundles on disk.
 */
module ProductTypes {
  import opened Wrappers

  datatype TargetProductType = Framework | Bundle | NoType

  const FrameworkRawValue := "com.apple.product-type.framework"
  const BundleRawValue := "com.apple.product-type.bundle"
  const NoTypeRawValue := "none"

  function RawValue(t: TargetProductType): string {
    match t
    case Framework => FrameworkRawValue
    case Bundle => BundleRawValue
    case NoType => NoTypeRawValue
  }

  /** `TargetProductType(rawValue:)`: the case whose raw value is `s`, if any. */
  function FromRawValue(s: string): (r: Option<TargetProductType>)
    ensures r.Some? <==> exists t :: RawValue(t) == s
    ensures r.Some? ==> RawValue(r.value) == s
  {
    if s == FrameworkRawValue then assert RawValue(Framework) == s; Some(Framework)
    else if s == BundleRawValue then assert RawValue(Bundle) == s; Some(Bundle)
    else if s == NoTypeRawValue then assert RawValue(NoType) == s; Some(NoType)
    else None
  }

  /** Decoding a raw value that was produced by `RawValue` gives the case back. */
  lemma RawValueRoundTrip(t: TargetProductType)
    ensures FromRawValue(RawValue(t)) == Some(t)
  {
  }

  /** The name Swift prints when the enum is interpolated into a string: the case name. */
  function CaseName(t: TargetProductType): string {
    match t
    case Framework => "framework"
    case Bundle => "bundle"
    case NoType => "none"
  }

  function FileExtension(t: TargetProductType): string {
    match t
    case Framework => ".framework"
    case Bundle => ".bundle"
    case NoType => ""
  }
}
