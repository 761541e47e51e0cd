/** `check_number`: an operand token is parsed as a JSON number into an
    `f32`, then held to the inclusive range [-1e9, 1e9], the lower bound
    being tested first. */
module Operands {
  import opened Wrappers

  /** Parsing a token as a JSON number into an `f32`, done by a library
      outside this model: a value, or `None` when the library rejects the
      token. A value beyond the `f32` range but inside the `f64` range
      arrives as an infinity in the source; any real beyond the bound below
      stands for it here, since it meets the same check. A token beyond the
      `f64` range is refused by the library, which is `None` here. */
  type Parser = string -> Option<real>

  /** The three ways an operand is refused. */
  datatype OperandError = InvalidFormat | TooSmall | TooLarge

  /** The message of each refusal, as the server words it. */
  function ErrorText(e: OperandError): string {
    match e
    case InvalidFormat => "Invalid number format. Should be a JSON number"
    case TooSmall => "Number should not be less than -1e9"
    case TooLarge => "Number should not be greater than 1e9"
  }

  /** 1e9, which is exactly representable in `f32`. */
  const Limit: real := 1000000000.0

  predicate InRange(v: real) {
    -Limit <= v <= Limit
  }

  /** `check_number`. It accepts exactly the tokens that parse to a value
      within both (inclusive) bounds and returns that value unchanged;
      each refusal names its cause. */
  function CheckNumber(parse: Parser, token: string): (r: Result<real, OperandError>)
    ensures r.Ok? <==> parse(token).Some? && InRange(parse(token).value)
    ensures r.Ok? ==> r.value == parse(token).value
    ensures r == Err(InvalidFormat) <==> parse(token).None?
    ensures r == Err(TooSmall) <==> parse(token).Some? && parse(token).value < -Limit
    ensures r == Err(TooLarge) <==> parse(token).Some? && parse(token).value > Limit
  {
    match parse(token)
    case None => Err(InvalidFormat)
    case Some(v) =>
      if v < -Limit then Err(TooSmall)
      else if v > Limit then Err(TooLarge)
      else Ok(v)
  }

  /** The three messages are told apart by their text. */
  lemma ErrorTextsDiffer(e1: OperandError, e2: OperandError)
    requires e1 != e2
    ensures ErrorText(e1) != ErrorText(e2)
  {
    assert |ErrorText(e1)| != |ErrorText(e2)|;
  }
}
