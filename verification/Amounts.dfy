/** Prices and sizes as wire text. */
module Amounts {
  import opened Arithmetic
  import opened Decimals
  import opened Wrappers

  const INT32_MAX: int := 0x7fff_ffff

  function ParsePrice(text: string): Result<int, DecimalParseError> {
    match ParseScaled(text, 4, false)
    case Failure(e) => Failure(e)
    case Success(units) => if units > INT32_MAX then Failure(Overflow) else Success(units)
  }

  function FormatPrice(price: Int64): string {
    FormatScaledDecimal(price, 4)
  }

  function ParseQuantity(text: string): Result<Int64, DecimalParseError> {
    ParseScaled(text, 2, false)
  }

  function ParseQuantityDelta(text: string): Result<Int64, DecimalParseError> {
    ParseScaled(text, 2, true)
  }

  /** The unsigned parser never yields a negative number, so no lower bound needs checking. */
  lemma PriceNonNegative(text: string)
    ensures ParsePrice(text).Success? ==> 0 <= ParsePrice(text).value <= INT32_MAX
    ensures ParseQuantity(text).Success? ==> ParseQuantity(text).value >= 0
  {
    if ParseScaled(text, 4, false).Success? {
      ParseSound(text, 4, false);
    }
    if ParseScaled(text, 2, false).Success? {
      ParseSound(text, 2, false);
    }
  }

  lemma PriceTextRoundTrip(price: int)
    requires 0 <= price <= INT32_MAX
    ensures ParsePrice(FormatPrice(price)) == Success(price)
  {
    FormatParse(price, 4, false);
  }
}
