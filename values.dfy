/**
 * The values of the jox language. The source boxes them as `object`, holding
 * `null`, a `bool`, a `double` or a `string`; the same four shapes serve as the
 * literal carried by a token and as the runtime value of an expression.
 */
module Values {

  datatype Value =
    | Nil                 // C# null
    | Bool(b: bool)
    | Num(n: real)        // a double, modelled as an exact real
    | Str(s: string)

  /**
   * The host rendering the source uses and the model does not fix:
   * `double.ToString()`.
   */
  datatype Format = Format(number: real -> string)

  /** `bool.ToString()`, which does not depend on the culture. */
  function BoolText(b: bool): string {
    if b then "True" else "False"
  }
}
