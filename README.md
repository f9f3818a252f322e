# kmath ⇄ Kotlingrad scalar adapter, modelled in Dafny

kmath represents symbolic expressions as an algebra-agnostic tree, the MST
(`Numeric`, `Symbolic`, `Unary`, `Binary`, with string operation tags).
Kotlingrad, the automatic-differentiation library kmath delegates
derivatives to, has its own scalar-function tree, the SFun. The file
`ScalarsAdapters.kt` converts between the two: `MST.tSFun` goes forward,
`SFun.toMst` goes back through kmath's `MstExtendedField` builder, and
`toSConst` / `toSVar` translate the leaves.

This project models both translations as recursive functions returning a
`Result`, and proves their mapping tables, their failure cases and what a
round trip through the other representation gives back.

Files:

- `mst.dfy` (module `Mst`): the MST datatype, the operation tags
  (`"+"`, `"-"`, `"*"`, `"/"`, `"pow"`, `"sin"`, `"cos"`, `"tan"`, `"sqrt"`,
  `"exp"`, `"ln"`), and the `MstExtendedField` primitives `toMst` calls. Each
  primitive builds the node with the matching tag. `power(a, v)` builds
  `Binary("pow", a, Numeric(v))`.
- `kotlingrad.dfy` (module `Kotlingrad`): the SFun datatype. It has the ten
  direct variants and the four composite kinds (`DProd`, `SComposition`,
  `VSumAll`, `Derivative`). It also defines the special constants `One` and
  `E`, which are `SConst` values in Kotlingrad, and the predicate `Direct`
  (no composite node anywhere).
- `scalars_adapters.dfy` (module `ScalarsAdapters`): `ToSConst`, `ToSVar`,
  `ToSFun` (= `tSFun`) and `ToMst` (= `toMst`), the error datatype, and the
  reference predicates their contracts use.
- `round_trip.dfy` (module `RoundTrip`): lemmas relating the two
  directions.

How the source's behaviour is encoded:

- Each Kotlin exception becomes an `AdapterError`:
  - `error(...)` on an unknown unary or binary tag raises
    IllegalStateException. Here it is `UnsupportedUnary(op)` or
    `UnsupportedBinary(op)`.
  - The cast `right as MST.Numeric` on a `pow` exponent raises
    ClassCastException. Here it is `ExponentNotNumeric`.
  - The cast `right as SConst` on a Power exponent raises
    ClassCastException. Here it is `ExponentNotConstant`.
- Kotlin evaluates arguments left to right, so the model reports the first
  failure in that order. `when` selects on the tag before it translates any
  child.
- Kotlingrad's one-argument `Log(x)` uses `E` as its base, so the
  forward `ln(v)` is `Log(v', E)`.
- The reverse direction maps that back to `ln(v) / ln(e)`.
- `exp(v)` becomes `Power(v', E)`, exactly as the source writes it. That
  puts the operand in the base and e in the exponent, and
  `FunctionsRewritten` states it in that form.
- A composite node is handled by eager evaluation with the foreign
  library's `this()`. Here that evaluation is the function parameter
  `collapse`. Its one assumed property is `Collapsing`: the result has no
  composite node, which is also what makes the recursion terminate.

The KDoc of the file gives two one-way mapping tables. It states the
Power limitation and the IllegalStateException, and nothing about round
trips. What a round trip gives back is proved here:

- `FragmentRoundTrip` proves `toMst(tSFun(m)) == m` on a fragment of the
  vocabulary. That is numbers, symbols, binary `+`, `*`, `pow` by a
  number, and unary `-`, sin, cos, tan.
- `ForwardThenReverse` says exactly what comes back for every other
  translatable tree.
- Any division makes the way back fail. The exponent of
  `Power(b', Negative(One))` is not an `SConst` node, so the cast
  `right as SConst` at line 39 fails.
- Going the other way, `ReverseThenForward` proves `tSFun(toMst(f)) == f`
  exactly on the SFun trees that have no composite node, have every Power
  exponent an `SConst`, and have no Log node.
- A power whose exponent is not an `SConst` node fails with a cast
  exception, not a dedicated error kind.

## Model

| member | source | states |
|---|---|---|
| `ScalarsAdapters.ToSConst` | kmath-kotlingrad/src/main/kotlin/kscience/kmath/kotlingrad/ScalarsAdapters.kt:58 | a numeric node becomes a constant carrying the same value |
| `ScalarsAdapters.ToSVar` | kmath-kotlingrad/src/main/kotlin/kscience/kmath/kotlingrad/ScalarsAdapters.kt:67 | a symbolic node becomes a variable carrying the same name |
| `ScalarsAdapters.ToSFun` | kmath-kotlingrad/src/main/kotlin/kscience/kmath/kotlingrad/ScalarsAdapters.kt:83-107 | succeeds iff every unary tag is in {+, -, sin, cos, tan, sqrt, exp, ln}, every binary tag is in {+, -, *, /, pow} and every pow exponent is numeric; a success never holds a composite node; a failure names an unsupported tag or non-numeric exponent that really occurs in the tree |
| `ScalarsAdapters.ToMst` | kmath-kotlingrad/src/main/kotlin/kscience/kmath/kotlingrad/ScalarsAdapters.kt:33-50 | on a tree without composite nodes, succeeds iff every Power exponent is an `SConst` node; every failure is the cast of an exponent that is not an `SConst` node, and (without composites) that exponent occurs in the tree; every success is built only from the builder's tags (+, *, /, pow with numeric exponent, unary -, ln, sin, cos, tan) |
| `RoundTrip.LeavesMapExactly` | kmath-kotlingrad/src/main/kotlin/kscience/kmath/kotlingrad/ScalarsAdapters.kt:35-36 | with lines 84-85: `Numeric(v)` ⇄ `SConst(v)` and `Symbolic(n)` ⇄ `SVar(n)` in both directions |
| `RoundTrip.UnaryPlusErased` | kmath-kotlingrad/src/main/kotlin/kscience/kmath/kotlingrad/ScalarsAdapters.kt:88 | `tSFun(Unary(+, v))` is `tSFun(v)`, success or failure alike |
| `RoundTrip.DirectOperatorsPreserveShape` | kmath-kotlingrad/src/main/kotlin/kscience/kmath/kotlingrad/ScalarsAdapters.kt:100-104 | binary +, * and pow-by-number become Sum, Prod and Power(_, SConst) of the translated children |
| `RoundTrip.UnaryOperatorsPreserveShape` | kmath-kotlingrad/src/main/kotlin/kscience/kmath/kotlingrad/ScalarsAdapters.kt:89-92 | unary -, sin, cos, tan become Negative, Sine, Cosine, Tangent of the translated operand, needing only the operand to translate |
| `RoundTrip.SubtractionIsSumOfNegation` | kmath-kotlingrad/src/main/kotlin/kscience/kmath/kotlingrad/ScalarsAdapters.kt:101 | `a - b` becomes `Sum(a', Negative(b'))` |
| `RoundTrip.DivisionIsProductWithInversePower` | kmath-kotlingrad/src/main/kotlin/kscience/kmath/kotlingrad/ScalarsAdapters.kt:103 | `a / b` becomes `Prod(a', Power(b', Negative(One)))` |
| `RoundTrip.FunctionsRewritten` | kmath-kotlingrad/src/main/kotlin/kscience/kmath/kotlingrad/ScalarsAdapters.kt:93-95 | sqrt(v) becomes `Power(v', SConst(0.5))`, exp(v) becomes `Power(v', E)`, ln(v) becomes `Log(v', E)` |
| `RoundTrip.FailureOrder` | kmath-kotlingrad/src/main/kotlin/kscience/kmath/kotlingrad/ScalarsAdapters.kt:87-106 | an unknown tag fails with its own error whatever the children are; in a pow node a failing base is reported before a non-numeric exponent, which fails with `ExponentNotNumeric` |
| `RoundTrip.ReverseTable` | kmath-kotlingrad/src/main/kotlin/kscience/kmath/kotlingrad/ScalarsAdapters.kt:37-41 | Sum and Prod become + and *; `Log(l, r)` becomes `ln(l) / ln(r)`; `Power(l, SConst(x))` becomes `l pow x` |
| `RoundTrip.ReverseUnaryTable` | kmath-kotlingrad/src/main/kotlin/kscience/kmath/kotlingrad/ScalarsAdapters.kt:40-44 | Negative, Sine, Cosine, Tangent become unary -, sin, cos, tan of the converted operand, needing only the operand to convert |
| `RoundTrip.PowerNeedsConstantExponent` | kmath-kotlingrad/src/main/kotlin/kscience/kmath/kotlingrad/ScalarsAdapters.kt:39 | `Power(a, e)` converts back iff `a` does and `e` is a constant; otherwise after a good base it fails with `ExponentNotConstant(e)` |
| `RoundTrip.CompositesCollapse` | kmath-kotlingrad/src/main/kotlin/kscience/kmath/kotlingrad/ScalarsAdapters.kt:45-48 | a DProd, SComposition, VSumAll or Derivative node converts as its eager evaluation does, and succeeds iff that evaluation is reversible |
| `RoundTrip.CollapseUnused` | kmath-kotlingrad/src/main/kotlin/kscience/kmath/kotlingrad/ScalarsAdapters.kt:34-48 | on a tree without composite nodes the result does not depend on the eager evaluation |
| `RoundTrip.ForwardThenReverse` | kmath-kotlingrad/src/main/kotlin/kscience/kmath/kotlingrad/ScalarsAdapters.kt:33-107 | for a translatable tree, `toMst(tSFun(m))` fails with `ExponentNotConstant(Negative(One))` iff `m` divides, and otherwise is `Rebuilt(m)` (unary plus dropped, `a-b` as `a+(-b)`, sqrt as pow 0.5, exp as `v pow e`, ln as `ln(v)/ln(e)`) |
| `RoundTrip.FragmentIsFixed` | kmath-kotlingrad/src/main/kotlin/kscience/kmath/kotlingrad/ScalarsAdapters.kt:83-107 | the trees the round trip returns unchanged are exactly those built from numbers, symbols, binary +, *, pow-by-number and unary -, sin, cos, tan |
| `RoundTrip.FragmentRoundTrip` | kmath-kotlingrad/src/main/kotlin/kscience/kmath/kotlingrad/ScalarsAdapters.kt:33-107 | on that fragment `toMst(tSFun(m))` is `m` itself |
| `RoundTrip.BuilderShapedIsTranslatable` | kmath-kotlingrad/src/main/kotlin/kscience/kmath/kotlingrad/ScalarsAdapters.kt:87-105 | every tree the builder calls of `toMst` can produce is accepted by `tSFun` |
| `RoundTrip.ReverseThenForwardSucceeds` | kmath-kotlingrad/src/main/kotlin/kscience/kmath/kotlingrad/ScalarsAdapters.kt:33-107 | whenever `toMst(f)` succeeds, `tSFun` of its result succeeds |
| `RoundTrip.ReverseThenForward` | kmath-kotlingrad/src/main/kotlin/kscience/kmath/kotlingrad/ScalarsAdapters.kt:33-107 | for a reversible SFun tree, `tSFun(toMst(f)) == f` iff the tree has no Log node |
| `RoundTrip.ParsedLeaves` | kmath-ast-kotlingrad/src/test/kotlin/kscience/kmath/ast/kotlingrad/AdaptingTests.kt:19-34 | the trees of "kitten", "0.234" and "1e-3" become `SVar("kitten")`, `SConst(0.234)`, `SConst(0.001)` |
| `RoundTrip.LinearShape` | kmath-ast-kotlingrad/src/test/kotlin/kscience/kmath/ast/kotlingrad/AdaptingTests.kt:37-42 | the tree of "2*x+16" becomes a Sum with a Prod on the left and a constant on the right |

## Left out

- The `proto` parameter of `tSFun` and `toSVar` is dropped. It only fixes
  Kotlingrad's numeric type parameter and never affects the shape of the
  result.
- The eager evaluation `this()` of composite nodes is foreign-library
  behaviour. It is the parameter `collapse`, and its only assumed property
  is that its result holds no composite node. Vectors and bindings inside
  composite nodes are opaque handles.
- Numbers are `real`. The conversion of a kmath `Number` to a Kotlin
  `Double` by `doubleValue` is not modelled, and `E` is Math.E written as
  a decimal.
- FragmentRoundTrip: the equality `== Ok(m)` holds in the source only up to
  the `doubleValue` conversion at line 36. A `Numeric` holding an `Int`
  comes back holding a `Double`. Numbers here are `real`, so the model
  cannot see that difference.
- ReverseThenForward: the equality `== Ok(f)` holds in the source only up
  to the same `doubleValue` conversion. It also holds only up to the loss of
  the `One()` and `E()` classes, which come back as plain `SConst` objects.
  Here `One` and `E` are ordinary `SConst` values.
- The message text of the exceptions is not modelled. The error keeps only
  the offending tag or exponent.
- The MST type and `MstExtendedField` live in package `kscience.kmath.ast`.
  The operation tags live in `kscience.kmath.operations`. Both are imported
  at ScalarsAdapters.kt:4-7 and defined outside that file. Each builder
  primitive is assumed to construct the node with the matching tag, and
  each tag is assumed to have the string value listed above.
- The parser `parseMath` is not part of this model. `ParsedLeaves` and
  `LinearShape` start from the trees the parser is assumed to build and
  claim nothing about parsing.
- Differentiation with `d(x)`, compilation with `compile()` and the
  double-precision comparisons of derivatives in AdaptingTests.kt:44-65 are
  not modelled. They are foreign-library behaviour and floating-point
  evaluation.
- The GSL matrix contexts (GslMatrixContexts.kt) are not modelled. They are
  native BLAS bindings with manual memory lifetime.
- The Gradle build file is not modelled. It is build configuration only.
