/** The four operations and `OpType::compute`, which applies one of them
    to two operands and wraps the outcome in a result response. */
module Operations {
  import opened Responses

  datatype OpType = Plus | Minus | Div | Mul

  /** The arithmetic of `OpType::compute`, on exact reals. Dividing by zero
      gives an infinity or NaN in `f32`; here that is `NonFinite`. */
  function Apply(op: OpType, a: real, b: real): (r: Float)
    ensures r.NonFinite? <==> op == Div && b == 0.0
    ensures op == Plus ==> r.value - b == a
    ensures op == Minus ==> r.value + b == a
    ensures op == Div && b != 0.0 ==> r.value * b == a
    ensures op == Mul ==> (if b == 0.0 then r.value == 0.0 else r.value / b == a)
  {
    match op
    case Plus => Finite(a + b)
    case Minus => Finite(a - b)
    case Div => if b == 0.0 then NonFinite else DivisionUndone(a, b); Finite(a / b)
    case Mul => MultiplicationUndone(a, b); Finite(a * b)
  }

  lemma DivisionUndone(a: real, b: real)
    requires b != 0.0
    ensures (a / b) * b == a
  {
  }

  lemma MultiplicationUndone(a: real, b: real)
    ensures b != 0.0 ==> (a * b) / b == a
  {
  }

  /** `OpType::compute`: the result record of the operation, sent with
      HTTP 200. */
  function Compute(op: OpType, a: real, b: real): (r: HttpResponse)
    ensures WellShaped(r) && r.httpStatus == Ok200
    ensures r.body.OpBody? && r.body.op.result == Apply(op, a, b)
  {
    HttpResponse(Ok200, OpBody(CreateOp(Apply(op, a, b))))
  }
}
