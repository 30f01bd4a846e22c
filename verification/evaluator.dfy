/** `evaluate`: walks a rule tree against a key/value mapping. Python's
    `and`/`or` make it short-circuit and pass on the operand that decided,
    and a comparator or operator it does not know falls off the end of the
    function, returning `None`; that third outcome is `Fallthrough`. */
module Evaluator {
  import opened Results
  import opened Text
  import opened Numbers
  import opened Ast
  import opened Combinator

  /** A value of the input mapping, as a JSON body delivers it. */
  datatype DataValue = StrValue(s: string) | IntValue(i: int) | BoolValue(b: bool) | NullValue

  type Data = map<string, DataValue>

  /** What `evaluate` returns when it does not raise. */
  datatype Verdict = Truth(b: bool) | Fallthrough

  datatype EvalError =
    | UnpackMismatch(fields: nat)  // `key, op, value = text.split()` on other than three fields
    | NotNumeric                   // `float()` of something that is not a number

  /** Python's `str()` of a data value. */
  function PyStr(v: DataValue): string {
    match v
    case StrValue(s) => s
    case IntValue(i) => DecimalText(i)
    case BoolValue(b) => if b then "True" else "False"
    case NullValue => "None"
  }

  /** Python's `float()` of a data value, on whole numbers. */
  function PyFloat(v: DataValue): Option<int> {
    match v
    case StrValue(s) => ParseNumber(s)
    case IntValue(i) => Some(i)
    case BoolValue(b) => Some(if b then 1 else 0)
    case NullValue => None
  }

  /** Python truthiness: `False` and `None` are both falsy. */
  predicate Truthy(v: Verdict) {
    v == Truth(true)
  }

  predicate IsComparator(c: string) {
    c == "=" || c == ">" || c == "<"
  }

  predicate IsLogical(op: string) {
    op == "AND" || op == "OR"
  }

  /** Somewhere in the tree is a condition with an unknown comparator or an
      operator node with an unknown operator. */
  predicate HasUnrecognized(n: Node) {
    match n
    case Condition(text) =>
      var f := Split(text);
      |f| == 3 && !IsComparator(f[1])
    case Operator(op, l, r) => !IsLogical(op) || HasUnrecognized(l) || HasUnrecognized(r)
  }

  /** One comparison of a present data value against a literal. */
  function Compare(x: DataValue, cmp: string, lit: string): Result<Verdict, EvalError> {
    if cmp == "=" then
      Success(Truth(PyStr(x) == StripQuotes(lit)))
    else if cmp == ">" || cmp == "<" then
      match (PyFloat(x), ParseNumber(lit))
      case (Some(a), Some(b)) => Success(Truth(if cmp == ">" then a > b else a < b))
      case _ => Failure(NotNumeric)
    else
      Success(Fallthrough)
  }

  /** The `condition` branch: unpack, then an absent key is simply false. */
  function EvalCondition(text: string, data: Data): Result<Verdict, EvalError> {
    var f := Split(text);
    if |f| != 3 then Failure(UnpackMismatch(|f|))
    else if f[0] !in data then Success(Truth(false))
    else Compare(data[f[0]], f[1], f[2])
  }

  /** Python's `evaluate(node, data)`. `Fallthrough` only comes from an
      unrecognised comparator or operator, and an unpack error only from a
      condition text that does not have three fields. */
  function Evaluate(n: Node, data: Data): (r: Result<Verdict, EvalError>)
    ensures r == Success(Fallthrough) ==> HasUnrecognized(n)
    ensures r.Failure? && r.error.UnpackMismatch? ==> !WellFormed(n)
  {
    match n
    case Condition(text) => EvalCondition(text, data)
    case Operator(op, l, r) =>
      if op == "AND" then
        match Evaluate(l, data)
        case Failure(e) => Failure(e)
        case Success(v) => if Truthy(v) then Evaluate(r, data) else Success(v)
      else if op == "OR" then
        match Evaluate(l, data)
        case Failure(e) => Failure(e)
        case Success(v) => if Truthy(v) then Success(v) else Evaluate(r, data)
      else
        Success(Fallthrough)
  }

  // ---- Conditions ----

  /** A key missing from the data makes the condition false, whatever the
      comparator and literal: absence is not an error. */
  lemma AbsentKeyIsFalse(key: string, cmp: string, lit: string, data: Data)
    requires IsField(key) && IsField(cmp) && IsField(lit)
    requires key !in data
    ensures Evaluate(Condition(CondText(key, cmp, lit)), data) == Success(Truth(false))
  {
    SplitCondText(key, cmp, lit);
  }

  /** `=` compares the value's string form with the literal stripped of
      every leading and trailing quote, for any literal. */
  lemma EqualityStripsQuotes(key: string, lit: string, data: Data)
    requires IsField(key) && IsField(lit) && key in data
    ensures Evaluate(Condition(CondText(key, "=", lit)), data)
            == Success(Truth(PyStr(data[key]) == StripQuotes(lit)))
  {
    assert IsField("=") by { assert !IsSpace('='); }
    SplitCondText(key, "=", lit);
  }

  /** So a literal in one layer of quotes matches its bare text. */
  lemma QuotedEquality(key: string, w: string, data: Data)
    requires IsField(key) && IsField(w)
    requires w[0] != Quote && w[|w| - 1] != Quote
    requires key in data
    ensures Evaluate(Condition(CondText(key, "=", [Quote] + w + [Quote])), data)
            == Success(Truth(PyStr(data[key]) == w))
  {
    var lit := [Quote] + w + [Quote];
    assert IsField(lit) by {
      forall i | 0 <= i < |lit| ensures !IsSpace(lit[i]) {
        if 0 < i < |lit| - 1 { assert lit[i] == w[i - 1]; }
      }
    }
    assert IsField("=") by { assert !IsSpace('='); }
    SplitCondText(key, "=", lit);
    StripQuotesQuoted(w);
  }

  /** Numbers compare as numbers: an integer value against a decimal
      literal, under each of the three comparators. A string value that
      spells the same integer compares the same way under `>` and `<`. */
  lemma NumericComparison(key: string, cmp: string, m: int, n: int, data: Data)
    requires IsField(key) && IsComparator(cmp)
    requires key in data && (data[key] == IntValue(n) || (cmp != "=" && data[key] == StrValue(DecimalText(n))))
    ensures Evaluate(Condition(CondText(key, cmp, DecimalText(m))), data)
            == Success(Truth(if cmp == "=" then n == m else if cmp == ">" then n > m else n < m))
  {
    assert IsField(cmp) by { assert !IsSpace(cmp[0]); }
    SplitCondText(key, cmp, DecimalText(m));
    ParseDecimalText(m);
    ParseDecimalText(n);
    if cmp == "=" {
      var s := DecimalText(m);
      assert s[0] != Quote;
      assert s[|s| - 1] != Quote by { assert IsDigit(s[|s| - 1]); }
      StripQuotesUnquoted(s);
      DecimalTextInjective(m, n);
    }
  }

  /** `>` and `<` on a literal that is not a number raise instead of
      answering. */
  lemma NonNumericLiteralFails(key: string, cmp: string, lit: string, data: Data)
    requires IsField(key) && IsField(lit) && (cmp == ">" || cmp == "<")
    requires key in data && ParseNumber(lit) == None
    ensures Evaluate(Condition(CondText(key, cmp, lit)), data) == Failure(NotNumeric)
  {
    assert IsField(cmp) by { assert !IsSpace(cmp[0]); }
    SplitCondText(key, cmp, lit);
  }

  /** A comparator other than `=`, `>` and `<` yields `None` for a present
      key, not a boolean. */
  lemma UnknownComparatorFallsThrough(key: string, cmp: string, lit: string, data: Data)
    requires IsField(key) && IsField(cmp) && IsField(lit)
    requires key in data && !IsComparator(cmp)
    ensures Evaluate(Condition(CondText(key, cmp, lit)), data) == Success(Fallthrough)
  {
    SplitCondText(key, cmp, lit);
  }

  // ---- Operators ----

  /** `AND` consults the right subtree only when the left one is truthy;
      otherwise it returns the left outcome, even `None` or an error, and
      the right subtree could be anything. */
  lemma AndShortCircuits(l: Node, r: Node, data: Data)
    ensures Evaluate(l, data).Failure? ==> Evaluate(Operator("AND", l, r), data) == Evaluate(l, data)
    ensures Evaluate(l, data).Success? && !Truthy(Evaluate(l, data).value) ==>
              Evaluate(Operator("AND", l, r), data) == Evaluate(l, data)
    ensures Evaluate(l, data) == Success(Truth(true)) ==>
              Evaluate(Operator("AND", l, r), data) == Evaluate(r, data)
  {
  }

  /** `OR` consults the right subtree only when the left one is falsy; so
      `None or X` is `X`. */
  lemma OrShortCircuits(l: Node, r: Node, data: Data)
    ensures Evaluate(l, data).Failure? ==> Evaluate(Operator("OR", l, r), data) == Evaluate(l, data)
    ensures Evaluate(l, data) == Success(Truth(true)) ==>
              Evaluate(Operator("OR", l, r), data) == Success(Truth(true))
    ensures Evaluate(l, data).Success? && !Truthy(Evaluate(l, data).value) ==>
              Evaluate(Operator("OR", l, r), data) == Evaluate(r, data)
  {
  }

  /** An operator other than `AND` and `OR` yields `None` without looking
      at either subtree. */
  lemma UnknownOperatorFallsThrough(op: string, l: Node, r: Node, data: Data)
    requires !IsLogical(op)
    ensures Evaluate(Operator(op, l, r), data) == Success(Fallthrough)
  {
  }

  // ---- Combined rules ----

  /** The outcome of a tree that settles a chain of `op`: an error, or for
      `AND` a falsy outcome, for `OR` a truthy one. */
  predicate Settles(op: string, r: Result<Verdict, EvalError>) {
    r.Failure? || (op == "AND" && !Truthy(r.value)) || (op == "OR" && Truthy(r.value))
  }

  /** A combined rule evaluates its trees left to right and answers with the
      first one that settles it (or the last one); the trees after it are
      never consulted, so they may even fail. */
  lemma {:induction false} CombinedStopsAtFirstSettled(ts: seq<Node>, op: string, i: nat, data: Data)
    requires IsLogical(op) && i < |ts|
    requires forall j | 0 <= j < i :: Evaluate(ts[j], data).Success? && !Settles(op, Evaluate(ts[j], data))
    requires i == |ts| - 1 || Settles(op, Evaluate(ts[i], data))
    ensures Evaluate(Combine(ts, op).value, data) == Evaluate(ts[i], data)
    decreases i
  {
    if |ts| > 1 {
      CombineStep(ts, op);
      if i > 0 {
        forall j | 0 <= j < i - 1
          ensures Evaluate(ts[1..][j], data).Success? && !Settles(op, Evaluate(ts[1..][j], data))
        {
          assert ts[1..][j] == ts[j + 1];
        }
        CombinedStopsAtFirstSettled(ts[1..], op, i - 1, data);
      }
    }
  }

  /** When every tree evaluates to a boolean, the `AND` combination is their
      conjunction. */
  lemma {:induction false} CombineAndIsConjunction(ts: seq<Node>, bs: seq<bool>, data: Data)
    requires |ts| > 0 && |bs| == |ts|
    requires forall i | 0 <= i < |ts| :: Evaluate(ts[i], data) == Success(Truth(bs[i]))
    ensures Evaluate(Combine(ts, "AND").value, data) == Success(Truth(forall i | 0 <= i < |bs| :: bs[i]))
    decreases |ts|
  {
    if |ts| > 1 {
      CombineStep(ts, "AND");
      CombineAndIsConjunction(ts[1..], bs[1..], data);
      assert (forall i | 0 <= i < |bs| :: bs[i]) <==> bs[0] && (forall i | 0 <= i < |bs[1..]| :: bs[1..][i]) by {
        if bs[0] && (forall i | 0 <= i < |bs[1..]| :: bs[1..][i]) {
          forall i | 0 <= i < |bs| ensures bs[i] {
            if i > 0 { assert bs[i] == bs[1..][i - 1]; }
          }
        }
      }
    }
  }

  /** When every tree evaluates to a boolean, the `OR` combination is their
      disjunction. */
  lemma {:induction false} CombineOrIsDisjunction(ts: seq<Node>, bs: seq<bool>, data: Data)
    requires |ts| > 0 && |bs| == |ts|
    requires forall i | 0 <= i < |ts| :: Evaluate(ts[i], data) == Success(Truth(bs[i]))
    ensures Evaluate(Combine(ts, "OR").value, data) == Success(Truth(exists i | 0 <= i < |bs| :: bs[i]))
    decreases |ts|
  {
    if |ts| > 1 {
      CombineStep(ts, "OR");
      CombineOrIsDisjunction(ts[1..], bs[1..], data);
      assert (exists i | 0 <= i < |bs| :: bs[i]) <==> bs[0] || (exists i | 0 <= i < |bs[1..]| :: bs[1..][i]) by {
        if exists i | 0 <= i < |bs| :: bs[i] {
          var i :| 0 <= i < |bs| && bs[i];
          if i > 0 { assert bs[1..][i - 1]; }
        }
      }
    }
  }
}
