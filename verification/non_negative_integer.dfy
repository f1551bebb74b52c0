/** Peano naturals: zero, and positive integers built from their predecessor. */
module NonNegativeInteger {

  datatype NonNegativeInteger = Zero | PositiveInteger(predecessor: NonNegativeInteger)

  /** The natural number a value denotes. */
  function ToNat(n: NonNegativeInteger): nat {
    match n
    case Zero => 0
    case PositiveInteger(p) => ToNat(p) + 1
  }

  /** The value denoting `k`. */
  function FromNat(k: nat): NonNegativeInteger {
    if k == 0 then Zero else PositiveInteger(FromNat(k - 1))
  }

  /** `FromNat` is a right inverse of `ToNat`. */
  lemma {:induction false} ToNatFromNat(k: nat)
    ensures ToNat(FromNat(k)) == k
  {
    if k > 0 {
      ToNatFromNat(k - 1);
    }
  }

  /** Every value is the image of the number it denotes. */
  lemma {:induction false} FromNatToNat(n: NonNegativeInteger)
    ensures FromNat(ToNat(n)) == n
  {
    match n
    case Zero =>
    case PositiveInteger(p) =>
      FromNatToNat(p);
  }

  /** Values are equal exactly when they denote the same number. */
  lemma ToNatInjective(a: NonNegativeInteger, b: NonNegativeInteger)
    ensures ToNat(a) == ToNat(b) <==> a == b
  {
    if ToNat(a) == ToNat(b) {
      FromNatToNat(a);
      FromNatToNat(b);
    }
  }

  /** `successor()`: a positive integer whose predecessor is the receiver. */
  function Successor(n: NonNegativeInteger): (r: NonNegativeInteger)
    ensures r.PositiveInteger? && r.predecessor == n
    ensures ToNat(r) == ToNat(n) + 1
  {
    PositiveInteger(n)
  }

  /** `add`: zero gives `other`; a positive integer adds its predecessor and takes the successor. */
  function Add(n: NonNegativeInteger, other: NonNegativeInteger): (r: NonNegativeInteger)
    ensures ToNat(r) == ToNat(n) + ToNat(other)
    decreases n
  {
    match n
    case Zero => other
    case PositiveInteger(p) => Successor(Add(p, other))
  }

  lemma SuccessorTimes(a: nat, b: nat)
    ensures (a + 1) * b == a * b + b
  {
  }

  /** `multiply`: zero gives zero; a positive integer multiplies its predecessor and adds `other`. */
  function Multiply(n: NonNegativeInteger, other: NonNegativeInteger): (r: NonNegativeInteger)
    ensures ToNat(r) == ToNat(n) * ToNat(other)
    decreases n
  {
    match n
    case Zero => Zero
    case PositiveInteger(p) =>
      var r := Add(Multiply(p, other), other);
      SuccessorTimes(ToNat(p), ToNat(other));
      r
  }

  /** The special rules for zero. */
  lemma ZeroRules(x: NonNegativeInteger)
    ensures Add(Zero, x) == x
    ensures Multiply(Zero, x) == Zero
  {
  }

  /** Addition agrees with natural-number addition, as an equation between values. */
  lemma AddIsNatAddition(a: nat, b: nat)
    ensures Add(FromNat(a), FromNat(b)) == FromNat(a + b)
  {
    ToNatFromNat(a);
    ToNatFromNat(b);
    ToNatFromNat(a + b);
    ToNatInjective(Add(FromNat(a), FromNat(b)), FromNat(a + b));
  }

  /** Multiplication agrees with natural-number multiplication, as an equation between values. */
  lemma MultiplyIsNatMultiplication(a: nat, b: nat)
    ensures Multiply(FromNat(a), FromNat(b)) == FromNat(a * b)
  {
    ToNatFromNat(a);
    ToNatFromNat(b);
    ToNatFromNat(a * b);
    ToNatInjective(Multiply(FromNat(a), FromNat(b)), FromNat(a * b));
  }

  const One := Successor(Zero)
  const Two := Successor(One)
  const Three := Successor(Two)
  const Four := Successor(Three)

  /** The facts checked by Kotlin `main`, as structural equalities. */
  lemma MainChecks()
    ensures Add(Zero, Zero) == Zero
    ensures Add(Two, Two) == Four
    ensures Multiply(Two, Two) == Four
    ensures Multiply(One, Three) == Three
    ensures Multiply(Three, One) == Three
  {
    ToNatInjective(Add(Two, Two), Four);
    ToNatInjective(Multiply(Two, Two), Four);
    ToNatInjective(Multiply(One, Three), Three);
    ToNatInjective(Multiply(Three, One), Three);
  }
}
