/**
 Equality anchors: the (column, value) pairs that the classifier pulls out of a WHERE clause with
 an explicit worklist, and what they mean under SQL's three-valued logic.
 */
module Anchors {
  import opened Text
  import opened ChangeLog
  import opened VersionIndex

  datatype Literal =
    | Number(text: string)
    | SingleQuoted(text: string)
    | Boolean(flag: bool)
    | Placeholder(text: string)
    | OtherLiteral(text: string)

  datatype Operator = And | Eq | OtherOperator(name: string)

  datatype Expr =
    | BinaryOp(left: Expr, op: Operator, right: Expr)
    | Nested(inner: Expr)
    | Identifier(name: string)
    | CompoundIdentifier(parts: seq<string>)
    | Constant(literal: Literal)
    | OtherExpr(text: string)

  /** A bound parameter; `integral` says that a number fits a signed or unsigned 64-bit integer. */
  datatype Param = NumberParam(text: string, integral: bool) | StringParam(text: string) | OtherParam(text: string)

  const USIZE_LIMIT: nat := 0x1_0000_0000_0000_0000

  // ---------------------------------------------------------------------------------------------
  // Extraction.
  // ---------------------------------------------------------------------------------------------

  function IdentName(e: Expr): Option<string> {
    match e
    case Identifier(name) => Some(Lower(name))
    case CompoundIdentifier(parts) => if parts == [] then None else Some(Lower(parts[|parts| - 1]))
    case _ => None
  }

  function LiteralValue(e: Expr): Option<string> {
    match e
    case Constant(Number(text)) => Some(text)
    case Constant(SingleQuoted(text)) => Some(text)
    case Constant(Boolean(flag)) => Some(if flag then "true" else "false")
    case _ => None
  }

  /** The parameter that a placeholder such as `$2` refers to. */
  function BoundParam(text: string, params: seq<Param>): Option<Param> {
    if text == "" || text[0] != '$' then None
    else
      match ParseUnsigned(text[1..], USIZE_LIMIT)
      case None => None
      case Some(index) => if 1 <= index <= |params| then Some(params[index - 1]) else None
  }

  function PlaceholderValue(e: Expr, params: seq<Param>): Option<string> {
    match e
    case Constant(Placeholder(text)) =>
      (match BoundParam(text, params)
       case Some(NumberParam(number, integral)) => if integral then Some(number) else None
       case Some(StringParam(s)) => Some(s)
       case _ => None)
    case _ => None
  }

  function FilterValue(e: Expr, params: seq<Param>): Option<string> {
    match LiteralValue(e)
    case Some(v) => Some(v)
    case None => PlaceholderValue(e, params)
  }

  /** The filter that one equality contributes, column on either side. */
  function EqualityFilter(left: Expr, right: Expr, params: seq<Param>): Option<Filter> {
    if IdentName(left).Some? && FilterValue(right, params).Some? then
      Some((IdentName(left).value, FilterValue(right, params).value))
    else if IdentName(right).Some? && FilterValue(left, params).Some? then
      Some((IdentName(right).value, FilterValue(left, params).value))
    else None
  }

  /** The filters of a WHERE tree in the order the worklist finds them: right conjuncts first. */
  function EqFilters(e: Expr, params: seq<Param>): seq<Filter> {
    match e
    case BinaryOp(left, And, right) => EqFilters(right, params) + EqFilters(left, params)
    case BinaryOp(left, Eq, right) =>
      (match EqualityFilter(left, right, params)
       case Some(f) => [f]
       case None => [])
    case Nested(inner) => EqFilters(inner, params)
    case _ => []
  }

  function Size(e: Expr): nat {
    match e
    case BinaryOp(left, _, right) => 1 + Size(left) + Size(right)
    case Nested(inner) => 1 + Size(inner)
    case _ => 1
  }

  function StackSize(stack: seq<Expr>): nat {
    if stack == [] then 0 else StackSize(stack[..|stack| - 1]) + Size(stack[|stack| - 1])
  }

  function StackFilters(stack: seq<Expr>, params: seq<Param>): seq<Filter> {
    if stack == [] then []
    else EqFilters(stack[|stack| - 1], params) + StackFilters(stack[..|stack| - 1], params)
  }

  lemma Pushed(stack: seq<Expr>, e: Expr, params: seq<Param>)
    ensures StackSize(stack + [e]) == StackSize(stack) + Size(e)
    ensures StackFilters(stack + [e], params) == EqFilters(e, params) + StackFilters(stack, params)
  {
    assert (stack + [e])[..|stack|] == stack;
  }

  lemma EmptyStack(params: seq<Param>)
    ensures StackFilters([], params) == []
  {
  }

  /** One turn of the worklist on the popped expression: what it leaves on the stack and what it adds to the output. */
  method Expand(rest: seq<Expr>, e: Expr, params: seq<Param>) returns (stack: seq<Expr>, found: seq<Filter>)
    ensures found + StackFilters(stack, params) == EqFilters(e, params) + StackFilters(rest, params)
    ensures StackSize(stack) < StackSize(rest) + Size(e)
  {
    stack, found := rest, [];
    match e
    case BinaryOp(left, And, right) =>
      Pushed(rest, left, params);
      Pushed(rest + [left], right, params);
      stack := stack + [left];
      stack := stack + [right];
    case BinaryOp(left, Eq, right) =>
      var f := EqualityFilter(left, right, params);
      if f.Some? {
        found := [f.value];
      }
    case Nested(inner) =>
      Pushed(rest, inner, params);
      stack := stack + [inner];
    case _ =>
  }

  /** The worklist loop; it ends because the total size of the pending trees decreases. */
  method CollectEqFilters(root: Expr, params: seq<Param>) returns (out: seq<Filter>)
    ensures out == EqFilters(root, params)
    ensures forall f :: f in out <==> Equated(root, params, f)
  {
    hide *;
    forall f
      ensures f in EqFilters(root, params) <==> Equated(root, params, f)
    {
      ExtractionExact(root, params, f);
    }
    out := [];
    var stack := [root];
    EmptyStack(params);
    Pushed([], root, params);
    assert [] + [root] == [root];
    assert out + StackFilters(stack, params) == EqFilters(root, params);
    while stack != []
      invariant out + StackFilters(stack, params) == EqFilters(root, params)
      decreases StackSize(stack)
    {
      var e, rest := stack[|stack| - 1], stack[..|stack| - 1];
      assert stack == rest + [e];
      Pushed(rest, e, params);
      var found;
      stack, found := Expand(rest, e, params);
      assert out + found + StackFilters(stack, params) == out + (found + StackFilters(stack, params));
      out := out + found;
    }
  }

  // ---------------------------------------------------------------------------------------------
  // SQL meaning.
  // ---------------------------------------------------------------------------------------------

  datatype Truth = True | False | Unknown

  /**
   What the model does not interpret: equality of two non-null values given by their texts, the truth
   of other boolean expressions, and the text of other scalars.
   */
  datatype Logic = Logic(
    same: (string, string) -> bool,
    truth: (Expr, Row, seq<Param>) -> Truth,
    scalar: (Expr, Row, seq<Param>) -> Option<string>)

  function Conjunction(a: Truth, b: Truth): Truth {
    if a == False || b == False then False
    else if a == True && b == True then True
    else Unknown
  }

  /** The placeholder is a dollar sign and the numeral of n, and there is an n-th parameter, counted from one. */
  ghost predicate RefersTo(text: string, params: seq<Param>, n: nat) {
    && 1 <= n <= |params| && text != "" && text[0] == '$'
    && (IsNumeral(text[1..], n) || (|text| > 1 && text[1] == '+' && IsNumeral(text[2..], n)))
  }

  /** A placeholder refers to one parameter at most. */
  lemma RefersToOne(text: string, params: seq<Param>, n: nat, m: nat)
    requires RefersTo(text, params, n) && RefersTo(text, params, m)
    ensures n == m
  {
    var digits := if |text| > 1 && text[1] == '+' then text[2..] else text[1..];
    if IsNumeral(text[1..], n) {
      NumeralIsDigits(text[1..], n);
    }
    if IsNumeral(text[1..], m) {
      NumeralIsDigits(text[1..], m);
    }
    NumeralIsDigits(digits, n);
    NumeralIsDigits(digits, m);
  }

  /** The parameter bound to a placeholder is the one that it refers to. */
  lemma BoundParamExact(text: string, params: seq<Param>, n: nat)
    ensures RefersTo(text, params, n) && n < USIZE_LIMIT ==> BoundParam(text, params) == Some(params[n - 1])
    ensures (forall k: nat | k < USIZE_LIMIT :: !RefersTo(text, params, k)) ==> BoundParam(text, params) == None
  {
    hide IsNumeral, ParseUnsigned;
    if text != "" {
      assert |text| > 1 ==> text[1..][0] == text[1] && text[1..][1..] == text[2..];
      var found := ParseUnsigned(text[1..], USIZE_LIMIT);
      ParsesExactly(text[1..], USIZE_LIMIT, n);
      if found.Some? {
        ParsesExactly(text[1..], USIZE_LIMIT, found.value);
        assert BoundParam(text, params).Some? ==> RefersTo(text, params, found.value);
      }
    }
  }

  /** The value of a scalar expression on a row; None is SQL NULL. */
  ghost function Scalar(logic: Logic, e: Expr, row: Row, params: seq<Param>): Option<string> {
    match e
    case Identifier(name) => FindValue(row, name)
    case CompoundIdentifier(parts) =>
      if parts == [] then logic.scalar(e, row, params) else FindValue(row, parts[|parts| - 1])
    case Nested(inner) => Scalar(logic, inner, row, params)
    case Constant(Number(text)) => Some(text)
    case Constant(SingleQuoted(text)) => Some(text)
    case Constant(Boolean(flag)) => Some(if flag then "true" else "false")
    case Constant(Placeholder(text)) =>
      if exists n: nat :: RefersTo(text, params, n) then
        var n: nat :| RefersTo(text, params, n);
        (match params[n - 1]
         case NumberParam(number, _) => Some(number)
         case StringParam(s) => Some(s)
         case OtherParam(_) => logic.scalar(e, row, params))
      else logic.scalar(e, row, params)
    case _ => logic.scalar(e, row, params)
  }

  /** The truth of a WHERE tree on a row. */
  ghost function Eval(logic: Logic, e: Expr, row: Row, params: seq<Param>): Truth {
    match e
    case BinaryOp(left, And, right) => Conjunction(Eval(logic, left, row, params), Eval(logic, right, row, params))
    case BinaryOp(left, Eq, right) =>
      var l, r := Scalar(logic, left, row, params), Scalar(logic, right, row, params);
      if l.None? || r.None? then Unknown
      else if logic.same(l.value, r.value) then True
      else False
    case Nested(inner) => Eval(logic, inner, row, params)
    case _ => logic.truth(e, row, params)
  }

  /** The row's column is non-null and SQL-equal to the filter's text. */
  predicate Satisfies(logic: Logic, row: Row, f: Filter) {
    var v := FindValue(row, f.0);
    v.Some? && (logic.same(v.value, f.1) || logic.same(f.1, v.value))
  }

  lemma {:induction false} FindValueFolds(row: Row, name: string)
    ensures FindValue(row, Lower(name)) == FindValue(row, name)
  {
    LowerIdempotent(name);
    if row != [] {
      FindValueFolds(row[1..], name);
    }
  }

  lemma IdentIsColumn(logic: Logic, e: Expr, row: Row, params: seq<Param>)
    requires IdentName(e).Some?
    ensures Scalar(logic, e, row, params) == FindValue(row, IdentName(e).value)
  {
    match e
    case Identifier(name) => FindValueFolds(row, name);
    case CompoundIdentifier(parts) => FindValueFolds(row, parts[|parts| - 1]);
    case _ =>
  }

  lemma ConstantIsScalar(logic: Logic, e: Expr, row: Row, params: seq<Param>)
    requires FilterValue(e, params).Some?
    ensures Scalar(logic, e, row, params) == FilterValue(e, params)
  {
    hide RefersTo, BoundParam;
    if e.Constant? && e.literal.Placeholder? {
      var text := e.literal.text;
      BoundParamExact(text, params, 0);
      var k: nat :| k < USIZE_LIMIT && RefersTo(text, params, k);
      BoundParamExact(text, params, k);
      forall n: nat | RefersTo(text, params, n)
        ensures n == k
      {
        RefersToOne(text, params, n, k);
      }
    }
  }

  /** Extraction is sound: a row on which the WHERE tree is true satisfies every collected filter. */
  lemma {:induction false} ExtractionSound(logic: Logic, e: Expr, row: Row, params: seq<Param>, f: Filter)
    requires Eval(logic, e, row, params) == True
    requires f in EqFilters(e, params)
    ensures Satisfies(logic, row, f)
  {
    match e
    case BinaryOp(left, And, right) =>
      if f in EqFilters(right, params) {
        ExtractionSound(logic, right, row, params, f);
      } else {
        ExtractionSound(logic, left, row, params, f);
      }
    case BinaryOp(left, Eq, right) =>
      if IdentName(left).Some? && FilterValue(right, params).Some? {
        IdentIsColumn(logic, left, row, params);
        ConstantIsScalar(logic, right, row, params);
      } else {
        IdentIsColumn(logic, right, row, params);
        ConstantIsScalar(logic, left, row, params);
      }
    case Nested(inner) => ExtractionSound(logic, inner, row, params, f);
    case _ =>
  }

  /** The expressions that must all hold for the tree to hold, reached through AND and parentheses. */
  function Conjuncts(e: Expr): set<Expr> {
    match e
    case BinaryOp(left, And, right) => Conjuncts(left) + Conjuncts(right)
    case Nested(inner) => Conjuncts(inner)
    case _ => {e}
  }

  /** The expression is a column reference to this name, whatever its qualifiers, up to case. */
  ghost predicate NamesColumn(e: Expr, column: string) {
    match e
    case Identifier(name) => column == Lower(name)
    case CompoundIdentifier(parts) => parts != [] && column == Lower(parts[|parts| - 1])
    case _ => false
  }

  /**
   The expression is a constant of this text: a number, a string, a truth value or a parameter that is a string
   or an integer.
   */
  ghost predicate HasText(e: Expr, params: seq<Param>, text: string) {
    match e
    case Constant(Number(number)) => text == number
    case Constant(SingleQuoted(content)) => text == content
    case Constant(Boolean(flag)) => text == if flag then "true" else "false"
    case Constant(Placeholder(p)) =>
      exists n: nat | RefersTo(p, params, n) ::
        n < USIZE_LIMIT && (params[n - 1] == StringParam(text) || params[n - 1] == NumberParam(text, true))
    case _ => false
  }

  lemma FilterValueExact(e: Expr, params: seq<Param>, text: string)
    ensures FilterValue(e, params) == Some(text) <==> HasText(e, params, text)
  {
    hide RefersTo, BoundParam;
    if e.Constant? && e.literal.Placeholder? {
      var p := e.literal.text;
      BoundParamExact(p, params, 0);
      if k: nat :| k < USIZE_LIMIT && RefersTo(p, params, k) {
        BoundParamExact(p, params, k);
        forall n: nat | RefersTo(p, params, n)
          ensures n == k
        {
          RefersToOne(p, params, n, k);
        }
      }
    }
  }

  /**
   The placeholder `$n` stands for the n-th parameter, counted from one, when that is a string or an integer; for any
   other parameter, and outside the list, it contributes nothing.
   */
  lemma PlaceholderIsNth(params: seq<Param>, n: nat)
    requires n < USIZE_LIMIT
    ensures var value := FilterValue(Constant(Placeholder("$" + Decimal(n))), params);
            if n == 0 || n > |params| then value == None
            else match params[n - 1]
                 case StringParam(text) => value == Some(text)
                 case NumberParam(text, integral) => value == (if integral then Some(text) else None)
                 case OtherParam(_) => value == None
  {
    hide IsNumeral, ParseUnsigned;
    var text := "$" + Decimal(n);
    assert text[1..] == Decimal(n);
    DecimalParses(n, USIZE_LIMIT);
    if 1 <= n <= |params| {
      BoundParamExact(text, params, n);
      assert RefersTo(text, params, n);
    }
  }

  lemma DecimalParses(n: nat, limit: nat)
    requires n < limit
    ensures IsNumeral(Decimal(n), n) && ParseUnsigned(Decimal(n), limit) == Some(n)
  {
    hide ParseUnsigned;
    assert Decimal(n) == Zeros(0) + Decimal(n);
    ParsesExactly(Decimal(n), limit, n);
  }

  /** A column on one side, on either, and a constant on the other. */
  ghost predicate Equates(left: Expr, right: Expr, params: seq<Param>, f: Filter) {
    || (NamesColumn(left, f.0) && HasText(right, params, f.1))
    || (NamesColumn(right, f.0) && HasText(left, params, f.1))
  }

  lemma EqualityFilterExact(left: Expr, right: Expr, params: seq<Param>, f: Filter)
    ensures EqualityFilter(left, right, params) == Some(f) <==> Equates(left, right, params, f)
  {
    hide HasText, FilterValue;
    TextIsNoColumn(left, params);
    TextIsNoColumn(right, params);
    FilterValueExact(left, params, f.1);
    FilterValueExact(right, params, f.1);
    assert NamesColumn(left, f.0) <==> IdentName(left) == Some(f.0);
    assert NamesColumn(right, f.0) <==> IdentName(right) == Some(f.0);
  }

  lemma TextIsNoColumn(e: Expr, params: seq<Param>)
    ensures FilterValue(e, params).None? || IdentName(e).None?
  {
  }

  /** Some conjunct equates the filter's column with its text. */
  ghost predicate Equated(e: Expr, params: seq<Param>, f: Filter) {
    exists c | c in Conjuncts(e) :: c.BinaryOp? && c.op == Eq && Equates(c.left, c.right, params, f)
  }

  /** Extraction is exact: it finds the equality conjuncts between a column and a constant, and only those. */
  lemma {:induction false} ExtractionExact(e: Expr, params: seq<Param>, f: Filter)
    ensures f in EqFilters(e, params) <==> Equated(e, params, f)
  {
    hide EqualityFilter, Equates;
    match e
    case BinaryOp(left, And, right) =>
      ExtractionExact(left, params, f);
      ExtractionExact(right, params, f);
    case Nested(inner) => ExtractionExact(inner, params, f);
    case BinaryOp(left, Eq, right) =>
      EqualityFilterExact(left, right, params, f);
      assert e in Conjuncts(e);
    case _ =>
  }

  /** The conjuncts from left to right. */
  function Written(e: Expr): seq<Expr> {
    match e
    case BinaryOp(left, And, right) => Written(left) + Written(right)
    case Nested(inner) => Written(inner)
    case _ => [e]
  }

  function Reversed(es: seq<Expr>): seq<Expr> {
    seq(|es|, i requires 0 <= i < |es| => es[|es| - 1 - i])
  }

  /** The filters of the listed equalities, in their order. */
  function FiltersOf(es: seq<Expr>, params: seq<Param>): seq<Filter> {
    if es == [] then [] else FilterOf(es[0], params) + FiltersOf(es[1..], params)
  }

  function FilterOf(e: Expr, params: seq<Param>): seq<Filter> {
    match e
    case BinaryOp(left, Eq, right) =>
      (match EqualityFilter(left, right, params)
       case Some(f) => [f]
       case None => [])
    case _ => []
  }

  lemma {:induction false} FiltersOfBoth(a: seq<Expr>, b: seq<Expr>, params: seq<Param>)
    ensures FiltersOf(a + b, params) == FiltersOf(a, params) + FiltersOf(b, params)
  {
    hide FilterOf;
    if a == [] {
      assert a + b == b;
    } else {
      assert (a + b)[0] == a[0] && (a + b)[1..] == a[1..] + b;
      FiltersOfBoth(a[1..], b, params);
    }
  }

  lemma ReversedBoth(a: seq<Expr>, b: seq<Expr>)
    ensures Reversed(a + b) == Reversed(b) + Reversed(a)
  {
  }

  lemma OneFilter(e: Expr, params: seq<Param>)
    ensures FiltersOf(Reversed([e]), params) == FilterOf(e, params)
  {
    hide FilterOf;
    assert Reversed([e]) == [e] && [e][1..] == [];
    assert FiltersOf([e], params) == FilterOf(e, params) + FiltersOf([], params);
  }

  /** Filters are found from right to left, so the rightmost equality is the first candidate for an anchor. */
  lemma {:induction false} RightToLeft(e: Expr, params: seq<Param>)
    ensures EqFilters(e, params) == FiltersOf(Reversed(Written(e)), params)
  {
    hide EqualityFilter, FiltersOf, Reversed;
    match e
    case BinaryOp(left, And, right) =>
      RightToLeft(left, params);
      RightToLeft(right, params);
      ReversedBoth(Written(left), Written(right));
      FiltersOfBoth(Reversed(Written(right)), Reversed(Written(left)), params);
    case Nested(inner) => RightToLeft(inner, params);
    case _ =>
      OneFilter(e, params);
  }

  /** A tree is true exactly when every conjunct is. */
  lemma {:induction false} TrueConjuncts(logic: Logic, e: Expr, row: Row, params: seq<Param>)
    ensures Eval(logic, e, row, params) == True <==>
            forall c | c in Conjuncts(e) :: Eval(logic, c, row, params) == True
  {
    match e
    case BinaryOp(left, And, right) =>
      TrueConjuncts(logic, left, row, params);
      TrueConjuncts(logic, right, row, params);
    case Nested(inner) => TrueConjuncts(logic, inner, row, params);
    case _ =>
  }
}
