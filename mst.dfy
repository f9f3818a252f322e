/** The algebra-agnostic expression tree of kmath (kscience.kmath.ast.MST),
    the operation tags it carries, and the node-building primitives of
    MstExtendedField that the reverse adapter calls.

    Numeric values are only passed through by the adapter, so they are
    modelled as `real`. Operation tags are the string constants of
    kscience.kmath.operations; a tag outside this list is still a legal
    tag of the open vocabulary, which is why tags are strings. */
module Mst {

  // Operation tags (SpaceOperations, RingOperations, FieldOperations,
  // TrigonometricOperations, PowerOperations, ExponentialOperations).
  const PlusOp: string := "+"
  const MinusOp: string := "-"
  const TimesOp: string := "*"
  const DivOp: string := "/"
  const PowOp: string := "pow"
  const SinOp: string := "sin"
  const CosOp: string := "cos"
  const TanOp: string := "tan"
  const SqrtOp: string := "sqrt"
  const ExpOp: string := "exp"
  const LnOp: string := "ln"

  datatype MST =
    | Numeric(value: real)
    | Symbolic(name: string)
    | Unary(operation: string, operand: MST)
    | Binary(operation: string, left: MST, right: MST)

  // Node construction by MstExtendedField: each primitive builds the node
  // with the matching tag and evaluates nothing.

  function Symbol(name: string): (node: MST) { Symbolic(name) }

  function Number(value: real): (node: MST) { Numeric(value) }

  function Add(a: MST, b: MST): (node: MST) { Binary(PlusOp, a, b) }

  function Multiply(a: MST, b: MST): (node: MST) { Binary(TimesOp, a, b) }

  function Divide(a: MST, b: MST): (node: MST) { Binary(DivOp, a, b) }

  /** `power(arg, pow: Number)` wraps the exponent in a numeric node. */
  function Pow(a: MST, exponent: real): (node: MST) { Binary(PowOp, a, Number(exponent)) }

  function Negate(a: MST): (node: MST) { Unary(MinusOp, a) }

  function Sin(a: MST): (node: MST) { Unary(SinOp, a) }

  function Cos(a: MST): (node: MST) { Unary(CosOp, a) }

  function Tan(a: MST): (node: MST) { Unary(TanOp, a) }

  function Ln(a: MST): (node: MST) { Unary(LnOp, a) }
}
