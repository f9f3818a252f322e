/** The bidirectional adapter between kmath's MST and Kotlingrad's SFun
    (ScalarsAdapters.kt): `ToSFun` is `MST.tSFun`, `ToMst` is `SFun.toMst`,
    `ToSConst` and `ToSVar` are the leaf helpers.

    Exceptions become `Err` results: `error(...)` on an unknown tag raises
    IllegalStateException, and the casts `right as MST.Numeric` and
    `right as SConst` raise ClassCastException. Kotlin evaluates arguments
    left to right, so the first failure in that order is the one reported. */
module ScalarsAdapters {
  import opened Mst
  import opened Kotlingrad

  datatype AdapterError =
    | UnsupportedUnary(operation: string)   // IllegalStateException, unary `else` branch
    | UnsupportedBinary(operation: string)  // IllegalStateException, binary `else` branch
    | ExponentNotNumeric(found: MST)        // ClassCastException on `right as MST.Numeric`
    | ExponentNotConstant(exponent: SFun)   // ClassCastException on `right as SConst`

  datatype Result<+T> = Ok(value: T) | Err(error: AdapterError) {
    predicate IsFailure() { Err? }

    function PropagateFailure<U>(): Result<U>
      requires Err?
    {
      Err(error)
    }

    function Extract(): T
      requires Ok?
    {
      value
    }
  }

  // ---------------------------------------------------------------------
  // MST -> SFun

  /** Unary tags the forward direction accepts. */
  const UnaryTags: set<string> := {PlusOp, MinusOp, SinOp, CosOp, TanOp, SqrtOp, ExpOp, LnOp}

  /** Binary tags the forward direction accepts. */
  const BinaryTags: set<string> := {PlusOp, MinusOp, TimesOp, DivOp, PowOp}

  /** Every unary and binary tag is accepted, and every `pow` node has a numeric exponent.
      The exponent of a `pow` node is only cast, never translated. */
  predicate Translatable(m: MST) {
    match m
    case Numeric(_) => true
    case Symbolic(_) => true
    case Unary(op, v) => op in UnaryTags && Translatable(v)
    case Binary(op, l, r) =>
      op in BinaryTags && Translatable(l) && (if op == PowOp then r.Numeric? else Translatable(r))
  }

  /** The tags of all unary nodes of `m`. */
  function UnaryOperations(m: MST): (ops: set<string>) {
    match m
    case Numeric(_) => {}
    case Symbolic(_) => {}
    case Unary(op, v) => {op} + UnaryOperations(v)
    case Binary(_, l, r) => UnaryOperations(l) + UnaryOperations(r)
  }

  /** The tags of all binary nodes of `m`. */
  function BinaryOperations(m: MST): (ops: set<string>) {
    match m
    case Numeric(_) => {}
    case Symbolic(_) => {}
    case Unary(_, v) => BinaryOperations(v)
    case Binary(op, l, r) => {op} + BinaryOperations(l) + BinaryOperations(r)
  }

  /** The right children of all `pow` nodes of `m`. */
  function PowExponents(m: MST): (exponents: set<MST>) {
    match m
    case Numeric(_) => {}
    case Symbolic(_) => {}
    case Unary(_, v) => PowExponents(v)
    case Binary(op, l, r) =>
      (if op == PowOp then {r} else {}) + PowExponents(l) + PowExponents(r)
  }

  /** `e` is a forward failure that points at something really present in `m`. */
  predicate ForwardFault(e: AdapterError, m: MST) {
    match e
    case UnsupportedUnary(op) => op !in UnaryTags && op in UnaryOperations(m)
    case UnsupportedBinary(op) => op !in BinaryTags && op in BinaryOperations(m)
    case ExponentNotNumeric(x) => !x.Numeric? && x in PowExponents(m)
    case ExponentNotConstant(_) => false
  }

  /** `MST.Numeric.toSConst`: a constant carrying the same value. */
  function ToSConst(m: MST): (c: SFun)
    requires m.Numeric?
    ensures c.SConst? && c.value == m.value
  {
    SConst(m.value)
  }

  /** `MST.Symbolic.toSVar`: a variable carrying the same name. */
  function ToSVar(m: MST): (v: SFun)
    requires m.Symbolic?
    ensures v.SVar? && v.name == m.name
  {
    SVar(m.name)
  }

  /** `MST.tSFun`. */
  function ToSFun(m: MST): (r: Result<SFun>)
    ensures r.Ok? <==> Translatable(m)
    ensures r.Ok? ==> Direct(r.value)
    ensures r.Err? ==> ForwardFault(r.error, m)
  {
    match m
    case Numeric(_) => Ok(ToSConst(m))
    case Symbolic(_) => Ok(ToSVar(m))
    case Unary(op, v) =>
      if op == PlusOp then ToSFun(v)
      else if op == MinusOp then (var x :- ToSFun(v); Ok(Negative(x)))
      else if op == SinOp then (var x :- ToSFun(v); Ok(Sine(x)))
      else if op == CosOp then (var x :- ToSFun(v); Ok(Cosine(x)))
      else if op == TanOp then (var x :- ToSFun(v); Ok(Tangent(x)))
      else if op == SqrtOp then (var x :- ToSFun(v); Ok(Power(x, SConst(0.5))))
      else if op == ExpOp then (var x :- ToSFun(v); Ok(Power(x, E)))
      // Kotlingrad's one-argument Log takes E as its base
      else if op == LnOp then (var x :- ToSFun(v); Ok(Log(x, E)))
      else Err(UnsupportedUnary(op))
    case Binary(op, l, r) =>
      if op == PlusOp then
        (var a :- ToSFun(l); var b :- ToSFun(r); Ok(Sum(a, b)))
      else if op == MinusOp then
        (var a :- ToSFun(l); var b :- ToSFun(r); Ok(Sum(a, Negative(b))))
      else if op == TimesOp then
        (var a :- ToSFun(l); var b :- ToSFun(r); Ok(Prod(a, b)))
      else if op == DivOp then
        (var a :- ToSFun(l); var b :- ToSFun(r); Ok(Prod(a, Power(b, Negative(One)))))
      else if op == PowOp then
        (var a :- ToSFun(l); if r.Numeric? then Ok(Power(a, SConst(r.value))) else Err(ExponentNotNumeric(r)))
      else Err(UnsupportedBinary(op))
  }

  // ---------------------------------------------------------------------
  // SFun -> MST

  /** The eager-evaluation fallback `this()` of the foreign library yields a
      tree without composite nodes. */
  ghost predicate Collapsing(collapse: SFun -> SFun) {
    forall g :: Direct(collapse(g))
  }

  /** No composite node, and every Power node has a constant exponent. */
  predicate Reversible(f: SFun) {
    match f
    case SVar(_) => true
    case SConst(_) => true
    case Sum(l, r) => Reversible(l) && Reversible(r)
    case Prod(l, r) => Reversible(l) && Reversible(r)
    case Power(l, r) => Reversible(l) && r.SConst?
    case Negative(x) => Reversible(x)
    case Log(l, r) => Reversible(l) && Reversible(r)
    case Sine(x) => Reversible(x)
    case Cosine(x) => Reversible(x)
    case Tangent(x) => Reversible(x)
    case DProd(_) => false
    case SComposition(_, _) => false
    case VSumAll(_) => false
    case Derivative(_, _) => false
  }

  /** The right children of all Power nodes of `f`, outside composite nodes. */
  function PowerExponents(f: SFun): (exponents: set<SFun>) {
    match f
    case SVar(_) => {}
    case SConst(_) => {}
    case Sum(l, r) => PowerExponents(l) + PowerExponents(r)
    case Prod(l, r) => PowerExponents(l) + PowerExponents(r)
    case Power(l, r) => {r} + PowerExponents(l)
    case Negative(x) => PowerExponents(x)
    case Log(l, r) => PowerExponents(l) + PowerExponents(r)
    case Sine(x) => PowerExponents(x)
    case Cosine(x) => PowerExponents(x)
    case Tangent(x) => PowerExponents(x)
    case DProd(_) => {}
    case SComposition(_, _) => {}
    case VSumAll(_) => {}
    case Derivative(_, _) => {}
  }

  /** The trees the MstExtendedField calls of `toMst` can build: only the
      tags +, *, /, pow (with a numeric exponent), unary -, ln, sin, cos, tan. */
  predicate BuilderShaped(m: MST) {
    match m
    case Numeric(_) => true
    case Symbolic(_) => true
    case Unary(op, v) => op in {MinusOp, LnOp, SinOp, CosOp, TanOp} && BuilderShaped(v)
    case Binary(op, l, r) =>
      if op == PowOp then BuilderShaped(l) && r.Numeric?
      else op in {PlusOp, TimesOp, DivOp} && BuilderShaped(l) && BuilderShaped(r)
  }

  /** `SFun.toMst`, with the foreign evaluation `this()` of composite nodes
      supplied as `collapse`. */
  function ToMst(f: SFun, collapse: SFun -> SFun): (r: Result<MST>)
    requires Collapsing(collapse)
    ensures Reversible(f) ==> r.Ok?
    ensures Direct(f) && r.Ok? ==> Reversible(f)
    ensures r.Ok? ==> BuilderShaped(r.value)
    ensures r.Err? ==> r.error.ExponentNotConstant? && !r.error.exponent.SConst?
    ensures Direct(f) && r.Err? ==> r.error.exponent in PowerExponents(f)
    decreases if Direct(f) then 0 else 1, f
  {
    match f
    case SVar(name) => Ok(Symbol(name))
    case SConst(v) => Ok(Number(v))
    case Sum(l, r) =>
      var a :- ToMst(l, collapse); var b :- ToMst(r, collapse); Ok(Add(a, b))
    case Prod(l, r) =>
      var a :- ToMst(l, collapse); var b :- ToMst(r, collapse); Ok(Multiply(a, b))
    case Power(l, e) =>
      var a :- ToMst(l, collapse);
      if e.SConst? then Ok(Pow(a, e.value)) else Err(ExponentNotConstant(e))
    case Negative(x) =>
      var a :- ToMst(x, collapse); Ok(Negate(a))
    case Log(l, r) =>
      var a :- ToMst(l, collapse); var b :- ToMst(r, collapse); Ok(Divide(Ln(a), Ln(b)))
    case Sine(x) =>
      var a :- ToMst(x, collapse); Ok(Sin(a))
    case Cosine(x) =>
      var a :- ToMst(x, collapse); Ok(Cos(a))
    case Tangent(x) =>
      var a :- ToMst(x, collapse); Ok(Tan(a))
    case DProd(_) => ToMst(collapse(f), collapse)
    case SComposition(_, _) => ToMst(collapse(f), collapse)
    case VSumAll(_) => ToMst(collapse(f), collapse)
    case Derivative(_, _) => ToMst(collapse(f), collapse)
  }
}
