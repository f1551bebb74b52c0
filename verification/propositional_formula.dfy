/**
 * Propositional formulas with a short-circuit `check`, the three-valued
 * BooleanResult and the two boolean valuations.
 */
module PropositionalFormula {
  import opened Wrappers

  /** A plain class without `equals`: `id` stands for its object identity. */
  datatype PropositionalVariable = PropositionalVariable(id: nat, name: string)

  datatype Formula =
    | Implies(antecedent: Formula, consequent: Formula)
    | Not(formula: Formula)
    | And(formulas: seq<Formula>)
    | Or(formulas: seq<Formula>)
    | Truth
    | Falsity
    | Variable(variable: PropositionalVariable)

  /**
   * `check()`: `None` when the evaluation reaches a variable, whose `check`
   * is left TODO and throws. `Implies` evaluates the consequent first and
   * the antecedent only when the consequent is false; `And` and `Or` scan
   * their children left to right and stop at the first false (true) one.
   * Whenever it answers, the answer is the classical truth value.
   */
  function Check(f: Formula): (r: Option<bool>)
    ensures r.Some? ==> forall assignment :: r.value == Eval(f, assignment)
    decreases f, 1
  {
    match f
    case Implies(a, c) =>
      (match Check(c)
       case None => None
       case Some(true) => Some(true)
       case Some(false) =>
         match Check(a)
         case None => None
         case Some(b) => Some(!b))
    case Not(g) =>
      (match Check(g)
       case None => None
       case Some(b) => Some(!b))
    case And(fs) => CheckAll(fs)
    case Or(fs) => CheckAny(fs)
    case Truth => Some(true)
    case Falsity => Some(false)
    case Variable(_) => None
  }

  /** `formulas.all { it.check() }`: true exactly when every child checks true. */
  function CheckAll(fs: seq<Formula>): (r: Option<bool>)
    ensures r == Some(true) <==> forall i :: 0 <= i < |fs| ==> Check(fs[i]) == Some(true)
    ensures r.Some? ==> forall assignment :: r.value == Eval(And(fs), assignment)
    decreases fs, 0
  {
    if fs == [] then Some(true)
    else match Check(fs[0])
      case None => None
      case Some(false) => Some(false)
      case Some(true) => EvalSplitsAtHead(fs); CheckAll(fs[1..])
  }

  /** `formulas.any { it.check() }`: false exactly when every child checks false. */
  function CheckAny(fs: seq<Formula>): (r: Option<bool>)
    ensures r == Some(false) <==> forall i :: 0 <= i < |fs| ==> Check(fs[i]) == Some(false)
    ensures r.Some? ==> forall assignment :: r.value == Eval(Or(fs), assignment)
    decreases fs, 0
  {
    if fs == [] then Some(false)
    else match Check(fs[0])
      case None => None
      case Some(true) => Some(true)
      case Some(false) => EvalSplitsAtHead(fs); CheckAny(fs[1..])
  }

  /** Reference semantics: the classical truth value under an assignment of every variable. */
  function Eval(f: Formula, assignment: PropositionalVariable -> bool): bool
    decreases f
  {
    match f
    case Implies(a, c) => !Eval(a, assignment) || Eval(c, assignment)
    case Not(g) => !Eval(g, assignment)
    case And(fs) => forall i :: 0 <= i < |fs| ==> Eval(fs[i], assignment)
    case Or(fs) => exists i :: 0 <= i < |fs| && Eval(fs[i], assignment)
    case Truth => true
    case Falsity => false
    case Variable(v) => assignment(v)
  }

  /** A conjunction (disjunction) is its first child and (or) the conjunction (disjunction) of the rest. */
  lemma EvalSplitsAtHead(fs: seq<Formula>)
    requires fs != []
    ensures forall assignment :: Eval(And(fs), assignment) == (Eval(fs[0], assignment) && Eval(And(fs[1..]), assignment))
    ensures forall assignment :: Eval(Or(fs), assignment) == (Eval(fs[0], assignment) || Eval(Or(fs[1..]), assignment))
  {
    forall assignment: PropositionalVariable -> bool
      ensures Eval(And(fs), assignment) == (Eval(fs[0], assignment) && Eval(And(fs[1..]), assignment))
      ensures Eval(Or(fs), assignment) == (Eval(fs[0], assignment) || Eval(Or(fs[1..]), assignment))
    {
      assert forall i :: 1 <= i < |fs| ==> fs[i] == fs[1..][i - 1];
    }
  }

  /** Whether a variable occurs anywhere in `f`. */
  predicate HasVariable(f: Formula)
    decreases f
  {
    match f
    case Implies(a, c) => HasVariable(a) || HasVariable(c)
    case Not(g) => HasVariable(g)
    case And(fs) => exists i :: 0 <= i < |fs| && HasVariable(fs[i])
    case Or(fs) => exists i :: 0 <= i < |fs| && HasVariable(fs[i])
    case Truth => false
    case Falsity => false
    case Variable(_) => true
  }

  /** A formula without variables always checks: `check` fails only by reaching a variable. */
  lemma {:induction false} VariableFreeChecks(f: Formula)
    ensures !HasVariable(f) ==> Check(f).Some?
    decreases f, 1
  {
    match f
    case Implies(a, c) =>
      VariableFreeChecks(a);
      VariableFreeChecks(c);
    case Not(g) =>
      VariableFreeChecks(g);
    case And(fs) =>
      VariableFreeChecksAll(fs);
    case Or(fs) =>
      VariableFreeChecksAll(fs);
    case Truth =>
    case Falsity =>
    case Variable(_) =>
  }

  lemma {:induction false} VariableFreeChecksAll(fs: seq<Formula>)
    ensures (forall i :: 0 <= i < |fs| ==> !HasVariable(fs[i])) ==> CheckAll(fs).Some? && CheckAny(fs).Some?
    decreases fs, 0
  {
    if fs != [] {
      VariableFreeChecks(fs[0]);
      VariableFreeChecksAll(fs[1..]);
      if forall i :: 0 <= i < |fs| ==> !HasVariable(fs[i]) {
        assert forall i :: 0 <= i < |fs[1..]| ==> !HasVariable(fs[1..][i]) by {
          forall i | 0 <= i < |fs[1..]| ensures !HasVariable(fs[1..][i]) {
            assert fs[1..][i] == fs[i + 1];
          }
        }
      }
    }
  }

  /** A variable is always reached when checking it, so its check fails. */
  lemma VariableCheckFails(v: PropositionalVariable)
    ensures Check(Variable(v)) == None
  {
  }

  /** `Truth` checks true and `Falsity` false; `Not` negates; an empty `And` is true and an empty `Or` false. */
  lemma ConstantsAndNegation(f: Formula)
    ensures Check(Truth) == Some(true) && Check(Falsity) == Some(false)
    ensures Check(Not(f)) == match Check(f) case None => None case Some(b) => Some(!b)
    ensures Check(And([])) == Some(true) && Check(Or([])) == Some(false)
  {
  }

  /** A true consequent decides `Implies` without evaluating the antecedent, which may even hold a variable. */
  lemma ImpliesSkipsAntecedent(a: Formula, c: Formula)
    requires Check(c) == Some(true)
    ensures Check(Implies(a, c)) == Some(true)
  {
  }

  /** `Implies(a, c)` checks as `c || !a` when both check. */
  lemma ImpliesIsMaterial(a: Formula, c: Formula)
    requires Check(a).Some? && Check(c).Some?
    ensures Check(Implies(a, c)) == Some(Check(c).value || !Check(a).value)
  {
  }

  /** `And` stops at its first false child: nothing after it is evaluated. */
  lemma AndStopsAtFirstFalse(fs: seq<Formula>, i: nat)
    requires i < |fs| && Check(fs[i]) == Some(false)
    requires forall j :: 0 <= j < i ==> Check(fs[j]) == Some(true)
    ensures Check(And(fs)) == Some(false)
  {
    assert fs == fs[..i + 1] + fs[i + 1..];
    PrefixDecidesAll(fs, i, fs[i + 1..]);
  }

  /** Whatever follows the first false child, even an unevaluable one, `And` is false. */
  lemma {:induction false} PrefixDecidesAll(fs: seq<Formula>, i: nat, rest: seq<Formula>)
    requires i < |fs| && Check(fs[i]) == Some(false)
    requires forall j :: 0 <= j < i ==> Check(fs[j]) == Some(true)
    ensures CheckAll(fs[..i + 1] + rest) == Some(false)
    decreases i
  {
    var xs := fs[..i + 1] + rest;
    assert xs[0] == fs[0];
    if i > 0 {
      assert xs[1..] == fs[1..][..i] + rest;
      PrefixDecidesAll(fs[1..], i - 1, rest);
    }
  }

  /** `Or` stops at its first true child: nothing after it is evaluated. */
  lemma OrStopsAtFirstTrue(fs: seq<Formula>, i: nat)
    requires i < |fs| && Check(fs[i]) == Some(true)
    requires forall j :: 0 <= j < i ==> Check(fs[j]) == Some(false)
    ensures Check(Or(fs)) == Some(true)
  {
    assert fs == fs[..i + 1] + fs[i + 1..];
    PrefixDecidesAny(fs, i, fs[i + 1..]);
  }

  /** Whatever follows the first true child, even an unevaluable one, `Or` is true. */
  lemma {:induction false} PrefixDecidesAny(fs: seq<Formula>, i: nat, rest: seq<Formula>)
    requires i < |fs| && Check(fs[i]) == Some(true)
    requires forall j :: 0 <= j < i ==> Check(fs[j]) == Some(false)
    ensures CheckAny(fs[..i + 1] + rest) == Some(true)
    decreases i
  {
    var xs := fs[..i + 1] + rest;
    assert xs[0] == fs[0];
    if i > 0 {
      assert xs[1..] == fs[1..][..i] + rest;
      PrefixDecidesAny(fs[1..], i - 1, rest);
    }
  }

  /**
   * Where `check` throws: `Implies` when its consequent throws, or when the
   * consequent is false and the antecedent throws; `Not` when its operand
   * throws.
   */
  lemma UndecidedPropagates(a: Formula, c: Formula, g: Formula)
    ensures Check(Implies(a, c)) == None <==> Check(c) == None || (Check(c) == Some(false) && Check(a) == None)
    ensures Check(Not(g)) == None <==> Check(g) == None
  {
  }

  /**
   * `fs[i]` is the first child whose check throws, every child before it
   * having checked as `passing`, the value that lets the scan go on.
   */
  predicate FirstUndecided(fs: seq<Formula>, i: int, passing: bool) {
    0 <= i < |fs| && Check(fs[i]) == None && forall j :: 0 <= j < i ==> Check(fs[j]) == Some(passing)
  }

  /** `And` throws exactly when the scan reaches a throwing child before any false one. */
  lemma {:induction false} CheckAllUndecided(fs: seq<Formula>)
    ensures CheckAll(fs) == None <==> exists i :: FirstUndecided(fs, i, true)
    decreases |fs|
  {
    if fs != [] {
      if Check(fs[0]) == None {
        assert FirstUndecided(fs, 0, true);
      } else if Check(fs[0]) == Some(true) {
        CheckAllUndecided(fs[1..]);
        if i :| FirstUndecided(fs[1..], i, true) {
          assert FirstUndecided(fs, i + 1, true);
        }
        if i :| FirstUndecided(fs, i, true) {
          assert FirstUndecided(fs[1..], i - 1, true);
        }
      }
    }
  }

  /** `Or` throws exactly when the scan reaches a throwing child before any true one. */
  lemma {:induction false} CheckAnyUndecided(fs: seq<Formula>)
    ensures CheckAny(fs) == None <==> exists i :: FirstUndecided(fs, i, false)
    decreases |fs|
  {
    if fs != [] {
      if Check(fs[0]) == None {
        assert FirstUndecided(fs, 0, false);
      } else if Check(fs[0]) == Some(false) {
        CheckAnyUndecided(fs[1..]);
        if i :| FirstUndecided(fs[1..], i, false) {
          assert FirstUndecided(fs, i + 1, false);
        }
        if i :| FirstUndecided(fs, i, false) {
          assert FirstUndecided(fs[1..], i - 1, false);
        }
      }
    }
  }

  /** A variable before a false child: Kotlin reaches the variable first and throws, so `And` has no value. */
  lemma VariableBeforeFalsityThrows(v: PropositionalVariable)
    ensures Check(And([Variable(v), Falsity])) == None
  {
    assert FirstUndecided([Variable(v), Falsity], 0, true);
    CheckAllUndecided([Variable(v), Falsity]);
  }

  // ---------------------------------------------------------------------
  // Boolean valuations
  // ---------------------------------------------------------------------

  /** The enum BooleanResult: `true`, `false` and `undefined`. */
  datatype BooleanResult = TrueResult | FalseResult | Undefined

  /** Thrown by `toBoolean` on `undefined`. */
  datatype UnevaluatedException = UnevaluatedException

  /** The private `booleanValue` each constant carries. */
  function BooleanValue(b: BooleanResult): (value: Option<bool>)
    ensures value.None? <==> b == Undefined
    ensures value.Some? ==> (value.value <==> b == TrueResult)
  {
    match b
    case TrueResult => Some(true)
    case FalseResult => Some(false)
    case Undefined => None
  }

  /** The companion factory `BooleanResult(value)`: true, false and null map to `true`, `false` and `undefined`. */
  function BooleanResultOf(value: Option<bool>): (r: BooleanResult)
    ensures BooleanValue(r) == value
  {
    match value
    case Some(true) => TrueResult
    case Some(false) => FalseResult
    case None => Undefined
  }

  /** The factory and `booleanValue` are inverse to each other. */
  lemma BooleanResultRoundTrip(b: BooleanResult)
    ensures BooleanResultOf(BooleanValue(b)) == b
  {
  }

  /**
   * `toBoolean` as written: its block body has no `return`, so it returns
   * Unit and only throws on `undefined`.
   */
  function ToBooleanAsWritten(b: BooleanResult): (r: Result<(), UnevaluatedException>)
    ensures r.Failure? <==> b == Undefined
  {
    match BooleanValue(b)
    case Some(_) => Success(())
    case None => Failure(UnevaluatedException)
  }

  /** As written, `true.toBoolean()` and `false.toBoolean()` give the same result: the value is lost. */
  lemma ToBooleanAsWrittenLosesValue()
    ensures ToBooleanAsWritten(TrueResult) == ToBooleanAsWritten(FalseResult)
  {
  }

  /** `toBoolean` as intended: the boolean value, or UnevaluatedException for `undefined`. */
  function ToBoolean(b: BooleanResult): (r: Result<bool, UnevaluatedException>)
    ensures r.Failure? <==> b == Undefined
    ensures r.Success? ==> BooleanResultOf(Some(r.value)) == b
  {
    match BooleanValue(b)
    case Some(v) => Success(v)
    case None => Failure(UnevaluatedException)
  }

  /** Converting a boolean to a BooleanResult and back gives the boolean. */
  lemma ToBooleanRoundTrip(x: bool)
    ensures ToBoolean(BooleanResultOf(Some(x))) == Success(x)
  {
  }

  datatype BooleanValuation =
    | EmptyBooleanValuation
    | NonEmptyBooleanValuation(mapping: map<PropositionalVariable, bool>)

  /** `evaluate`: `undefined` from the empty valuation; the mapped value, or `undefined` when absent, otherwise. */
  function Evaluate(valuation: BooleanValuation, v: PropositionalVariable): (r: BooleanResult)
    ensures valuation.EmptyBooleanValuation? ==> r == Undefined
    ensures valuation.NonEmptyBooleanValuation? ==>
      BooleanValue(r) == if v in valuation.mapping then Some(valuation.mapping[v]) else None
  {
    match valuation
    case EmptyBooleanValuation => Undefined
    case NonEmptyBooleanValuation(m) => BooleanResultOf(if v in m then Some(m[v]) else None)
  }

  /** A variable evaluates to a boolean exactly when a non-empty valuation maps it to that boolean. */
  lemma EvaluateThenToBoolean(valuation: BooleanValuation, v: PropositionalVariable, b: bool)
    ensures ToBoolean(Evaluate(valuation, v)) == Success(b)
      <==> valuation.NonEmptyBooleanValuation? && v in valuation.mapping && valuation.mapping[v] == b
  {
  }
}
