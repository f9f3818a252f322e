/** The scalar-function tree of Kotlingrad (edu.umontreal.kotlingrad.experimental.SFun),
    seen only structurally. The composite kinds (DProd, SComposition,
    VSumAll, Derivative) refer to vector functions and bindings of the
    foreign library; those parts are opaque handles here. */
module Kotlingrad {

  /** Stands for foreign-library data (vector functions, bindings) that the adapter never inspects. */
  type Handle = nat

  datatype SFun =
    | SVar(name: string)
    | SConst(value: real)
    | Sum(left: SFun, right: SFun)
    | Prod(left: SFun, right: SFun)
    | Power(left: SFun, right: SFun)
    | Negative(input: SFun)
    | Log(left: SFun, right: SFun)
    | Sine(input: SFun)
    | Cosine(input: SFun)
    | Tangent(input: SFun)
    | DProd(vectors: Handle)
    | SComposition(input: SFun, bindings: Handle)
    | VSumAll(vector: Handle)
    | Derivative(input: SFun, variable: string)

  /** Math.E as a double. */
  const EulerE: real := 2.718281828459045

  /** The special constants One() and E(); both are constants (SConst) in Kotlingrad. */
  const One: SFun := SConst(1.0)
  const E: SFun := SConst(EulerE)

  /** The node kinds that have no MST counterpart. */
  predicate IsComposite(f: SFun) {
    f.DProd? || f.SComposition? || f.VSumAll? || f.Derivative?
  }

  /** No composite node occurs anywhere in `f`. */
  predicate Direct(f: SFun) {
    match f
    case SVar(_) => true
    case SConst(_) => true
    case Sum(l, r) => Direct(l) && Direct(r)
    case Prod(l, r) => Direct(l) && Direct(r)
    case Power(l, r) => Direct(l) && Direct(r)
    case Negative(x) => Direct(x)
    case Log(l, r) => Direct(l) && Direct(r)
    case Sine(x) => Direct(x)
    case Cosine(x) => Direct(x)
    case Tangent(x) => Direct(x)
    case DProd(_) => false
    case SComposition(_, _) => false
    case VSumAll(_) => false
    case Derivative(_, _) => false
  }
}
