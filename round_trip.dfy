/** Properties of the adapter in ScalarsAdapters.kt: the variant-by-variant
    mapping tables of both directions, their failure cases, and what a
    round trip through the other representation gives back. */
module RoundTrip {
  import opened Mst
  import opened Kotlingrad
  import opened ScalarsAdapters

  // ---------------------------------------------------------------------
  // Mapping tables

  /** Leaves map exactly, in both directions. */
  lemma LeavesMapExactly(v: real, n: string, collapse: SFun -> SFun)
    requires Collapsing(collapse)
    ensures ToSFun(Numeric(v)) == Ok(SConst(v))
    ensures ToSFun(Symbolic(n)) == Ok(SVar(n))
    ensures ToMst(SConst(v), collapse) == Ok(Numeric(v))
    ensures ToMst(SVar(n), collapse) == Ok(Symbolic(n))
  {
  }

  /** Unary plus leaves no trace: its operand is translated in its place. */
  lemma UnaryPlusErased(v: MST)
    ensures ToSFun(Unary(PlusOp, v)) == ToSFun(v)
  {
  }

  /** The direct binary operators keep the shape of the tree node for node. */
  lemma DirectOperatorsPreserveShape(a: MST, b: MST, x: real)
    requires ToSFun(a).Ok? && ToSFun(b).Ok?
    ensures ToSFun(Binary(PlusOp, a, b)) == Ok(Sum(ToSFun(a).value, ToSFun(b).value))
    ensures ToSFun(Binary(TimesOp, a, b)) == Ok(Prod(ToSFun(a).value, ToSFun(b).value))
    ensures ToSFun(Binary(PowOp, a, Numeric(x))) == Ok(Power(ToSFun(a).value, SConst(x)))
  {
  }

  /** The direct unary operators keep the shape of the tree node for node. */
  lemma UnaryOperatorsPreserveShape(a: MST)
    requires ToSFun(a).Ok?
    ensures ToSFun(Unary(MinusOp, a)) == Ok(Negative(ToSFun(a).value))
    ensures ToSFun(Unary(SinOp, a)) == Ok(Sine(ToSFun(a).value))
    ensures ToSFun(Unary(CosOp, a)) == Ok(Cosine(ToSFun(a).value))
    ensures ToSFun(Unary(TanOp, a)) == Ok(Tangent(ToSFun(a).value))
  {
    assert MinusOp != PlusOp;
    assert SinOp !in {PlusOp, MinusOp};
    assert CosOp !in {PlusOp, MinusOp, SinOp};
    assert TanOp !in {PlusOp, MinusOp, SinOp, CosOp};
  }

  /** There is no subtraction node: `a - b` becomes `a + (-b)`. */
  lemma SubtractionIsSumOfNegation(a: MST, b: MST)
    requires ToSFun(a).Ok? && ToSFun(b).Ok?
    ensures ToSFun(Binary(MinusOp, a, b)) == Ok(Sum(ToSFun(a).value, Negative(ToSFun(b).value)))
  {
  }

  /** There is no division node: `a / b` becomes `a * b^(-1)`. */
  lemma DivisionIsProductWithInversePower(a: MST, b: MST)
    requires ToSFun(a).Ok? && ToSFun(b).Ok?
    ensures ToSFun(Binary(DivOp, a, b)) == Ok(Prod(ToSFun(a).value, Power(ToSFun(b).value, Negative(One))))
  {
  }

  /** sqrt, exp and ln are rewritten into Power and Log. `exp(v)` becomes
      `Power(v', E)`: the operand is the base and e the exponent. */
  lemma FunctionsRewritten(v: MST)
    requires ToSFun(v).Ok?
    ensures ToSFun(Unary(SqrtOp, v)) == Ok(Power(ToSFun(v).value, SConst(0.5)))
    ensures ToSFun(Unary(ExpOp, v)) == Ok(Power(ToSFun(v).value, E))
    ensures ToSFun(Unary(LnOp, v)) == Ok(Log(ToSFun(v).value, E))
  {
    assert SqrtOp !in {PlusOp, MinusOp, SinOp, CosOp, TanOp};
    assert ExpOp !in {PlusOp, MinusOp, SinOp, CosOp, TanOp, SqrtOp};
    assert LnOp !in {PlusOp, MinusOp, SinOp, CosOp, TanOp, SqrtOp, ExpOp};
  }

  /** An unknown tag fails at once, before the children are looked at; in a
      `pow` node the base is translated before the exponent is cast. */
  lemma FailureOrder(op: string, a: MST, b: MST)
    ensures op !in UnaryTags ==> ToSFun(Unary(op, a)) == Err(UnsupportedUnary(op))
    ensures op !in BinaryTags ==> ToSFun(Binary(op, a, b)) == Err(UnsupportedBinary(op))
    ensures ToSFun(a).Err? ==> ToSFun(Binary(PowOp, a, b)) == Err(ToSFun(a).error)
    ensures ToSFun(a).Ok? && !b.Numeric? ==> ToSFun(Binary(PowOp, a, b)) == Err(ExponentNotNumeric(b))
  {
  }

  /** Reverse table, binary variants: each becomes the matching builder call. */
  lemma ReverseTable(a: SFun, b: SFun, x: real, collapse: SFun -> SFun)
    requires Collapsing(collapse)
    requires ToMst(a, collapse).Ok? && ToMst(b, collapse).Ok?
    ensures var ma, mb := ToMst(a, collapse).value, ToMst(b, collapse).value;
      && ToMst(Sum(a, b), collapse) == Ok(Binary(PlusOp, ma, mb))
      && ToMst(Prod(a, b), collapse) == Ok(Binary(TimesOp, ma, mb))
      && ToMst(Log(a, b), collapse) == Ok(Binary(DivOp, Unary(LnOp, ma), Unary(LnOp, mb)))
      && ToMst(Power(a, SConst(x)), collapse) == Ok(Binary(PowOp, ma, Numeric(x)))
  {
  }

  /** Reverse table, unary variants: each becomes the matching builder call. */
  lemma ReverseUnaryTable(a: SFun, collapse: SFun -> SFun)
    requires Collapsing(collapse) && ToMst(a, collapse).Ok?
    ensures ToMst(Negative(a), collapse) == Ok(Unary(MinusOp, ToMst(a, collapse).value))
    ensures ToMst(Sine(a), collapse) == Ok(Unary(SinOp, ToMst(a, collapse).value))
    ensures ToMst(Cosine(a), collapse) == Ok(Unary(CosOp, ToMst(a, collapse).value))
    ensures ToMst(Tangent(a), collapse) == Ok(Unary(TanOp, ToMst(a, collapse).value))
  {
    var ma := ToMst(a, collapse).value;
    assert ToMst(Negative(a), collapse) == Ok(Negate(ma));
    assert ToMst(Sine(a), collapse) == Ok(Sin(ma));
    assert ToMst(Cosine(a), collapse) == Ok(Cos(ma));
    assert ToMst(Tangent(a), collapse) == Ok(Tan(ma));
  }

  /** A Power node whose exponent is not a constant cannot be converted back. */
  lemma PowerNeedsConstantExponent(a: SFun, e: SFun, collapse: SFun -> SFun)
    requires Collapsing(collapse)
    ensures ToMst(Power(a, e), collapse).Ok? <==> ToMst(a, collapse).Ok? && e.SConst?
    ensures ToMst(a, collapse).Ok? && !e.SConst? ==> ToMst(Power(a, e), collapse) == Err(ExponentNotConstant(e))
  {
  }

  /** A composite node is replaced by its eager evaluation, whose
      translation then decides the outcome. */
  lemma CompositesCollapse(f: SFun, collapse: SFun -> SFun)
    requires Collapsing(collapse) && IsComposite(f)
    ensures ToMst(f, collapse) == ToMst(collapse(f), collapse)
    ensures ToMst(f, collapse).Ok? <==> Reversible(collapse(f))
  {
  }

  /** On trees without composite nodes the fallback is never consulted. */
  lemma {:induction false} CollapseUnused(f: SFun, c1: SFun -> SFun, c2: SFun -> SFun)
    requires Collapsing(c1) && Collapsing(c2) && Direct(f)
    ensures ToMst(f, c1) == ToMst(f, c2)
  {
    match f
    case SVar(_) =>
    case SConst(_) =>
    case Sum(l, r) => CollapseUnused(l, c1, c2); CollapseUnused(r, c1, c2);
    case Prod(l, r) => CollapseUnused(l, c1, c2); CollapseUnused(r, c1, c2);
    case Power(l, _) => CollapseUnused(l, c1, c2);
    case Negative(x) => CollapseUnused(x, c1, c2);
    case Log(l, r) => CollapseUnused(l, c1, c2); CollapseUnused(r, c1, c2);
    case Sine(x) => CollapseUnused(x, c1, c2);
    case Cosine(x) => CollapseUnused(x, c1, c2);
    case Tangent(x) => CollapseUnused(x, c1, c2);
  }

  // ---------------------------------------------------------------------
  // MST -> SFun -> MST

  /** A division node outside the exponent of a `pow` node. */
  predicate HasDivision(m: MST) {
    match m
    case Numeric(_) => false
    case Symbolic(_) => false
    case Unary(_, v) => HasDivision(v)
    case Binary(op, l, r) => op == DivOp || HasDivision(l) || (op != PowOp && HasDivision(r))
  }

  predicate Rebuildable(m: MST) {
    Translatable(m) && !HasDivision(m)
  }

  /** The tree `toMst` builds back from the output of `tSFun`, written on MST
      alone: unary plus disappears, `a - b` becomes `a + (-b)`, `sqrt(v)` becomes
      `v pow 0.5`, `exp(v)` becomes `v pow e`, and `ln(v)` becomes `ln(v) / ln(e)`. */
  function Rebuilt(m: MST): (back: MST)
    requires Rebuildable(m)
  {
    match m
    case Numeric(_) => m
    case Symbolic(_) => m
    case Unary(op, v) =>
      if op == PlusOp then Rebuilt(v)
      else if op == SqrtOp then Binary(PowOp, Rebuilt(v), Numeric(0.5))
      else if op == ExpOp then Binary(PowOp, Rebuilt(v), Numeric(EulerE))
      else if op == LnOp then Binary(DivOp, Unary(LnOp, Rebuilt(v)), Unary(LnOp, Numeric(EulerE)))
      else Unary(op, Rebuilt(v))
    case Binary(op, l, r) =>
      if op == MinusOp then Binary(PlusOp, Rebuilt(l), Unary(MinusOp, Rebuilt(r)))
      else if op == PowOp then Binary(PowOp, Rebuilt(l), r)
      else Binary(op, Rebuilt(l), Rebuilt(r))
  }

  /** What `toMst` gives back for the output of `tSFun` on `m`. */
  ghost predicate ComesBack(m: MST, collapse: SFun -> SFun)
    requires Collapsing(collapse) && Translatable(m)
  {
    var back := ToMst(ToSFun(m).value, collapse);
    if HasDivision(m) then back == Err(ExponentNotConstant(Negative(One)))
    else back == Ok(Rebuilt(m))
  }

  /** Converting a translatable tree there and back fails exactly when it
      divides (the exponent `Negative(One)` is no constant); otherwise it gives `Rebuilt(m)`. */
  lemma {:induction false} ForwardThenReverse(m: MST, collapse: SFun -> SFun)
    requires Collapsing(collapse) && Translatable(m)
    ensures ToSFun(m).Ok?
    ensures HasDivision(m) ==> ToMst(ToSFun(m).value, collapse) == Err(ExponentNotConstant(Negative(One)))
    ensures !HasDivision(m) ==> ToMst(ToSFun(m).value, collapse) == Ok(Rebuilt(m))
  {
    match m
    case Numeric(_) =>
    case Symbolic(_) =>
    case Unary(op, v) =>
      ForwardThenReverse(v, collapse);
      UnaryComesBack(op, v, collapse);
    case Binary(op, l, r) =>
      ForwardThenReverse(l, collapse);
      if op != PowOp { ForwardThenReverse(r, collapse); }
      BinaryComesBack(op, l, r, collapse);
  }

  /** One unary step of `ForwardThenReverse`, given the fact for the operand. */
  lemma UnaryComesBack(op: string, v: MST, collapse: SFun -> SFun)
    requires Collapsing(collapse) && Translatable(Unary(op, v)) && ComesBack(v, collapse)
    ensures ComesBack(Unary(op, v), collapse)
  {
  }

  /** One binary step of `ForwardThenReverse`, given the facts for the children. */
  lemma BinaryComesBack(op: string, l: MST, r: MST, collapse: SFun -> SFun)
    requires Collapsing(collapse) && Translatable(Binary(op, l, r)) && ComesBack(l, collapse)
    requires op != PowOp ==> ComesBack(r, collapse)
    ensures ComesBack(Binary(op, l, r), collapse)
  {
  }

  /** The sub-vocabulary both directions map one to one. */
  predicate InFragment(m: MST) {
    match m
    case Numeric(_) => true
    case Symbolic(_) => true
    case Unary(op, v) => op in {MinusOp, SinOp, CosOp, TanOp} && InFragment(v)
    case Binary(op, l, r) =>
      if op == PowOp then InFragment(l) && r.Numeric?
      else op in {PlusOp, TimesOp} && InFragment(l) && InFragment(r)
  }

  /** The trees `Rebuilt` leaves unchanged are exactly the fragment. */
  lemma {:induction false} FragmentIsFixed(m: MST)
    requires Rebuildable(m)
    ensures Rebuilt(m) == m <==> InFragment(m)
  {
    match m
    case Numeric(_) =>
    case Symbolic(_) =>
    case Unary(op, v) =>
      FragmentIsFixed(v);
      if op == PlusOp { RebuiltHasNoUnaryPlus(v); }
    case Binary(op, l, r) =>
      FragmentIsFixed(l);
      if op != PowOp { FragmentIsFixed(r); }
  }

  /** `Rebuilt` never yields a unary-plus node. */
  lemma {:induction false} RebuiltHasNoUnaryPlus(m: MST)
    requires Rebuildable(m)
    ensures !(Rebuilt(m).Unary? && Rebuilt(m).operation == PlusOp)
  {
    match m
    case Numeric(_) =>
    case Symbolic(_) =>
    case Unary(op, v) => if op == PlusOp { RebuiltHasNoUnaryPlus(v); }
    case Binary(_, _, _) =>
  }

  /** Round trip on the fragment: `toMst(tSFun(m))` is `m` itself. */
  lemma FragmentRoundTrip(m: MST, collapse: SFun -> SFun)
    requires Collapsing(collapse) && InFragment(m)
    ensures ToSFun(m).Ok? && ToMst(ToSFun(m).value, collapse) == Ok(m)
  {
    FragmentTranslatable(m);
    FragmentIsFixed(m);
    ForwardThenReverse(m, collapse);
  }

  lemma {:induction false} FragmentTranslatable(m: MST)
    requires InFragment(m)
    ensures Rebuildable(m)
  {
    match m
    case Numeric(_) =>
    case Symbolic(_) =>
    case Unary(_, v) => FragmentTranslatable(v);
    case Binary(op, l, r) =>
      FragmentTranslatable(l);
      if op != PowOp { FragmentTranslatable(r); }
  }

  // ---------------------------------------------------------------------
  // SFun -> MST -> SFun

  /** Every tree the reverse direction builds is accepted by the forward direction. */
  lemma {:induction false} BuilderShapedIsTranslatable(m: MST)
    requires BuilderShaped(m)
    ensures Translatable(m)
  {
    match m
    case Numeric(_) =>
    case Symbolic(_) =>
    case Unary(_, v) => BuilderShapedIsTranslatable(v);
    case Binary(op, l, r) =>
      BuilderShapedIsTranslatable(l);
      if op != PowOp { BuilderShapedIsTranslatable(r); }
  }

  /** Whatever `toMst` succeeds on, `tSFun` translates back without failure. */
  lemma ReverseThenForwardSucceeds(f: SFun, collapse: SFun -> SFun)
    requires Collapsing(collapse) && ToMst(f, collapse).Ok?
    ensures ToSFun(ToMst(f, collapse).value).Ok?
  {
    BuilderShapedIsTranslatable(ToMst(f, collapse).value);
  }

  /** SFun trees without Log and composite nodes, whose Power exponents are constants. */
  predicate SFunFragment(f: SFun) {
    match f
    case SVar(_) => true
    case SConst(_) => true
    case Sum(l, r) => SFunFragment(l) && SFunFragment(r)
    case Prod(l, r) => SFunFragment(l) && SFunFragment(r)
    case Power(l, r) => SFunFragment(l) && r.SConst?
    case Negative(x) => SFunFragment(x)
    case Sine(x) => SFunFragment(x)
    case Cosine(x) => SFunFragment(x)
    case Tangent(x) => SFunFragment(x)
    case Log(_, _) => false
    case DProd(_) => false
    case SComposition(_, _) => false
    case VSumAll(_) => false
    case Derivative(_, _) => false
  }

  /** For a reversible tree, `tSFun(toMst(f))` is `f` itself exactly on the SFun fragment;
      a Log node comes back as a product with an inverse power. */
  lemma {:induction false} ReverseThenForward(f: SFun, collapse: SFun -> SFun)
    requires Collapsing(collapse) && Reversible(f)
    ensures ToMst(f, collapse).Ok?
    ensures ToSFun(ToMst(f, collapse).value) == Ok(f) <==> SFunFragment(f)
  {
    match f
    case SVar(_) =>
    case SConst(_) =>
    case Sum(l, r) => ReverseThenForward(l, collapse); ReverseThenForward(r, collapse);
    case Prod(l, r) => ReverseThenForward(l, collapse); ReverseThenForward(r, collapse);
    case Power(l, _) => ReverseThenForward(l, collapse);
    case Negative(x) => ReverseThenForward(x, collapse);
    case Log(l, r) => ReverseThenForward(l, collapse); ReverseThenForward(r, collapse);
    case Sine(x) => ReverseThenForward(x, collapse);
    case Cosine(x) => ReverseThenForward(x, collapse);
    case Tangent(x) => ReverseThenForward(x, collapse);
  }

  // ---------------------------------------------------------------------
  // The trees of AdaptingTests.kt, as the parser is assumed to build them

  /** "kitten" becomes a variable of the same name; "0.234" and "1e-3" become constants. */
  lemma ParsedLeaves()
    ensures ToSFun(Symbolic("kitten")) == Ok(SVar("kitten"))
    ensures ToSFun(Numeric(0.234)) == Ok(SConst(0.234))
    ensures ToSFun(Numeric(0.001)) == Ok(SConst(0.001))
  {
  }

  /** "2*x+16" becomes a Sum with a Prod on the left and a constant on the right. */
  lemma LinearShape()
    ensures var r := ToSFun(Binary(PlusOp, Binary(TimesOp, Numeric(2.0), Symbolic("x")), Numeric(16.0)));
      && r.Ok? && r.value.Sum? && r.value.left.Prod? && r.value.right.SConst?
  {
  }
}
