/**
 * The operator methods of `ExpressionBase` (dcorm/expression_base.py),
 * the base class of `Expression` and `Column`: each builds a new
 * expression node, or returns one of its operands, and changes nothing.
 */
module ExpressionBase {
  import opened Outcomes
  import opened Values
  import Operators
  import opened Nodes

  /** A subclass of ExpressionBase, and the class its methods build nodes with. */
  datatype ClassRef = ExpressionClass | ColumnClass | OtherClass(name: string)

  /** `__init_subclass__`: a subclass builds with `typ`, or with itself when none is given. */
  function ExpressionTypeOf(cls: ClassRef, typ: Option<ClassRef>): (t: ClassRef)
    ensures typ.Some? ==> t == typ.value
    ensures typ.None? ==> t == cls
  {
    if typ.Some? then typ.value else cls
  }

  /** `Expression` declares no `typ` and `Column` declares `typ=Expression`: both build Expressions. */
  lemma CoreClassesBuildExpressions()
    ensures ExpressionTypeOf(ExpressionClass, None) == ExpressionClass
    ensures ExpressionTypeOf(ColumnClass, Some(ExpressionClass)) == ExpressionClass
  {
  }

  /** The binary operator methods the class defines, by their Python names. */
  datatype Dunder =
    | And | RAnd | Or | ROr | Add | RAdd | Sub | RSub | Mul | RMul
    | Div | RDiv | Xor | RXor | Eq | Lt | Le | Gt | Ge | Ne
    | LShift | RShift | Mod | Pow | MatMul | RMatMul

  function DunderName(m: Dunder): string {
    match m
    case And => "__and__"
    case RAnd => "__rand__"
    case Or => "__or__"
    case ROr => "__ror__"
    case Add => "__add__"
    case RAdd => "__radd__"
    case Sub => "__sub__"
    case RSub => "__rsub__"
    case Mul => "__mul__"
    case RMul => "__rmul__"
    case Div => "__div__"
    case RDiv => "__rdiv__"
    case Xor => "__xor__"
    case RXor => "__rxor__"
    case Eq => "__eq__"
    case Lt => "__lt__"
    case Le => "__le__"
    case Gt => "__gt__"
    case Ge => "__ge__"
    case Ne => "__ne__"
    case LShift => "__lshift__"
    case RShift => "__rshift__"
    case Mod => "__mod__"
    case Pow => "__pow__"
    case MatMul => "__matmul__"
    case RMatMul => "__rmatmul__"
  }

  /** The reflected methods, which Python calls on the right operand. */
  predicate Reflected(m: Dunder) {
    m in {RAnd, ROr, RAdd, RSub, RMul, RDiv, RXor, RMatMul}
  }

  /** The method a reflected method mirrors. */
  function Mirror(m: Dunder): Dunder
    requires Reflected(m)
  {
    match m
    case RAnd => And
    case ROr => Or
    case RAdd => Add
    case RSub => Sub
    case RMul => Mul
    case RDiv => Div
    case RXor => Xor
    case RMatMul => MatMul
  }

  /**
   * `self.<m>(other)` as written. `other is True` and `other is False` are
   * identity tests against the two bool singletons. The node built is an
   * `Expression`, the class both core subclasses build with.
   */
  function Apply(m: Dunder, self: Node, other: Node): (r: Node)
    requires IsExpressionBase(self)
    ensures m !in {And, RAnd, Or, ROr} || (other != True && other != False) ==>
      r.ExprNode? && ((r.lhs == self && r.rhs == other) || (r.lhs == other && r.rhs == self))
    ensures m in {And, RAnd, Or, ROr} && (other == True || other == False) ==> r == self || r == other
  {
    match m
    case And => if other == True then self else if other == False then False else ExprNode(self, Operators.And, other)
    case RAnd => if other == True then self else if other == False then False else ExprNode(other, Operators.And, self)
    case Or => if other == True then True else if other == False then self else ExprNode(self, Operators.Or, other)
    case ROr => if other == True then True else if other == False then self else ExprNode(other, Operators.Or, self)
    case Add => ExprNode(self, Operators.Add, other)
    case RAdd => ExprNode(other, Operators.Add, self)
    case Sub => ExprNode(self, Operators.Sub, other)
    case RSub => ExprNode(other, Operators.Sub, self)
    case Mul => ExprNode(self, Operators.Mul, other)
    case RMul => ExprNode(other, Operators.Mul, self)
    case Div => ExprNode(self, Operators.Div, other)
    case RDiv => ExprNode(other, Operators.Div, self)
    case Xor => ExprNode(self, Operators.Xor, other)
    case RXor => ExprNode(other, Operators.Xor, self)
    case Eq => if other == NoneObj then ExprNode(self, Operators.Is, other) else ExprNode(self, Operators.Eq, other)
    case Lt => ExprNode(self, Operators.Eq, other)
    case Le => ExprNode(self, Operators.Le, other)
    case Gt => ExprNode(self, Operators.Gt, other)
    case Ge => ExprNode(self, Operators.Ge, other)
    case Ne => if other == NoneObj then ExprNode(self, Operators.IsNot, other) else ExprNode(self, Operators.Ge, other)
    case LShift => ExprNode(self, Operators.In, other)
    case RShift => ExprNode(self, Operators.Is, other)
    case Mod => ExprNode(self, Operators.Like, other)
    case Pow => ExprNode(self, Operators.ILike, other)
    case MatMul => ExprNode(self, Operators.Concat, other)
    case RMatMul => ExprNode(other, Operators.Concat, self)
  }

  /** `&` and `|` against the bool singletons: `a & True` is `a`, `a & False` is False, `a | True` is True, `a | False` is `a`, from either side. */
  lemma ShortCircuits(m: Dunder, self: Node)
    requires IsExpressionBase(self) && m in {And, RAnd, Or, ROr}
    ensures m in {And, RAnd} ==> Apply(m, self, True) == self && Apply(m, self, False) == False
    ensures m in {Or, ROr} ==> Apply(m, self, True) == True && Apply(m, self, False) == self
  {
  }

  /**
   * Every method other than the short-circuits builds one node from the
   * two operands, `self` first; a reflected method puts `other` first and
   * otherwise builds what the method it mirrors builds.
   */
  lemma ReflectedSwaps(m: Dunder, self: Node, other: Node)
    requires IsExpressionBase(self) && Reflected(m)
    requires (m != RAnd && m != ROr) || (other != True && other != False)
    ensures Apply(Mirror(m), self, other) == ExprNode(self, Apply(Mirror(m), self, other).op, other)
    ensures Apply(m, self, other) == ExprNode(other, Apply(Mirror(m), self, other).op, self)
  {
  }

  /** A comparison with None becomes `IS` / `IS NOT`; with anything else `==` builds `=`. */
  lemma NoneComparisons(self: Node, other: Node)
    requires IsExpressionBase(self)
    ensures Apply(Eq, self, NoneObj) == ExprNode(self, Operators.Is, NoneObj)
    ensures Apply(Ne, self, NoneObj) == ExprNode(self, Operators.IsNot, NoneObj)
    ensures other != NoneObj ==> Apply(Eq, self, other) == ExprNode(self, Operators.Eq, other)
  {
  }

  /** As written, `<` builds `=` and `!=` with an operand other than None builds `>=`. */
  lemma LtAndNeAsWritten(self: Node, other: Node)
    requires IsExpressionBase(self) && other != NoneObj
    ensures Apply(Lt, self, other).op == Operators.Eq
    ensures Apply(Ne, self, other).op == Operators.Ge
  {
  }

  /** The operator each comparison method evidently means to build. */
  function ComparisonOperator(m: Dunder): Operators.Operator
    requires m in {Eq, Lt, Le, Gt, Ge, Ne}
  {
    match m
    case Eq => Operators.Eq
    case Lt => Operators.Lt
    case Le => Operators.Le
    case Gt => Operators.Gt
    case Ge => Operators.Ge
    case Ne => Operators.Ne
  }

  /** `Apply` with `<` building `<` and `!=` building `!=`. */
  function ApplyIntended(m: Dunder, self: Node, other: Node): (r: Node)
    requires IsExpressionBase(self)
    ensures m !in {Lt, Ne} ==> r == Apply(m, self, other)
  {
    if m == Lt then ExprNode(self, Operators.Lt, other)
    else if m == Ne && other != NoneObj then ExprNode(self, Operators.Ne, other)
    else Apply(m, self, other)
  }

  /** With the intended methods, every comparison against a value other than None builds its own operator. */
  lemma IntendedComparisons(m: Dunder, self: Node, other: Node)
    requires IsExpressionBase(self) && m in {Eq, Lt, Le, Gt, Ge, Ne} && other != NoneObj
    ensures ApplyIntended(m, self, other) == ExprNode(self, ComparisonOperator(m), other)
  {
  }

  /**
   * `~self`, given what `Operator.NOT` evaluates to. The test
   * `self.operator is Operator.NOT` runs with AttributeError suppressed (a
   * Column has no `operator`); when it holds the operand comes back,
   * otherwise `Operator.NOT` is evaluated again to build the negation.
   */
  function InvertBy(notMember: Result<Operators.Operator, Error>, self: Node): (r: Result<Node, Error>)
    requires IsExpressionBase(self)
    ensures notMember.Err? ==> r == Err(notMember.error)
    ensures notMember.Ok? ==> r.Ok?
  {
    var test: Result<bool, Error> :=
      if self.ColumnNode? then Err(AttributeError)
      else match notMember
        case Err(e) => Err(e)
        case Ok(n) => Ok(self.op == n);
    if test == Ok(true) then Ok(self.lhs)
    else if test.Err? && test.error != AttributeError then Err(test.error)
    else match notMember
      case Err(e) => Err(e)
      case Ok(n) => Ok(ExprNode(self, n, NoneObj))
  }

  /** `~self` as written: it fails exactly when the enum has no member `NOT`. */
  function InvertAsWritten(self: Node): (r: Result<Node, Error>)
    requires IsExpressionBase(self)
    ensures r.Err? <==> Operators.MemberNamed("NOT").None?
  {
    InvertBy(Operators.Member("NOT"), self)
  }

  /** The enum declares no `NOT`, so `~self` raises AttributeError on every expression and column. */
  lemma InvertAsWrittenRaises(self: Node)
    requires IsExpressionBase(self)
    ensures InvertAsWritten(self) == Err(AttributeError)
  {
    Operators.NotIsNoMemberName();
  }

  /** `~self` with the `NOT` member present: a negation is undone, anything else is negated. */
  function Invert(self: Node): (r: Node)
    requires IsExpressionBase(self)
    ensures IsExpressionBase(r) || (self.ExprNode? && self.op == Operators.Not)
  {
    if self.ExprNode? && self.op == Operators.Not then self.lhs
    else ExprNode(self, Operators.Not, NoneObj)
  }

  /** With the `NOT` member present, the steps of `~self` compute `Invert`. */
  lemma InvertIntendedSteps(self: Node)
    requires IsExpressionBase(self)
    ensures InvertBy(Ok(Operators.Not), self) == Ok(Invert(self))
  {
  }

  /** `~~x` is `x`, and `~(~x)` of a negation `~x = NOT y` is `~y`'s operand, `y`. */
  lemma DoubleNegation(x: Node)
    requires IsExpressionBase(x)
    ensures !(x.ExprNode? && x.op == Operators.Not) ==> Invert(Invert(x)) == x
    ensures x.ExprNode? && x.op == Operators.Not ==> Invert(x) == x.lhs
  {
  }

  /**
   * The names Python 3 looks up for the binary operators these methods
   * implement (section 3.3.8 of the Python language reference), plain and
   * reflected, with `__truediv__` / `__rtruediv__` where the methods say
   * `__div__` / `__rdiv__`: Python 3 has no `__div__`, `/` calls `__truediv__`.
   */
  const Python3OperatorNames: set<string> := {
    "__and__", "__rand__", "__or__", "__ror__", "__add__", "__radd__",
    "__sub__", "__rsub__", "__mul__", "__rmul__", "__truediv__", "__rtruediv__",
    "__xor__", "__rxor__", "__eq__", "__lt__", "__le__", "__gt__", "__ge__", "__ne__",
    "__lshift__", "__rshift__", "__mod__", "__pow__", "__matmul__", "__rmatmul__"
  }

  /** As written, the division methods carry Python 2 names, which no Python 3 operator calls. */
  lemma DivisionUnreachable()
    ensures DunderName(Div) !in Python3OperatorNames
    ensures DunderName(RDiv) !in Python3OperatorNames
  {
  }

  /** The names the methods evidently mean to have: `__truediv__` and `__rtruediv__` for division. */
  function IntendedName(m: Dunder): (name: string)
    ensures m !in {Div, RDiv} ==> name == DunderName(m)
  {
    match m
    case Div => "__truediv__"
    case RDiv => "__rtruediv__"
    case _ => DunderName(m)
  }

  /** Under the intended names every method is called by some Python 3 operator. */
  lemma IntendedNamesReachable(m: Dunder)
    ensures IntendedName(m) in Python3OperatorNames
  {
  }

  /** The values `where` accepts: a bool or an expression. */
  predicate Condition(n: Node) {
    IsBool(n) || IsExpressionBase(n)
  }

  /**
   * Python's `left & right` on two conditions: two bools give their
   * conjunction; otherwise the left operand's `__and__` runs when it is an
   * expression, else (bool's `__and__` returning NotImplemented) the right
   * operand's `__rand__`.
   */
  function PyAnd(left: Node, right: Node): (r: Node)
    requires Condition(left) && Condition(right)
    ensures Condition(r)
  {
    if IsBool(left) && IsBool(right) then Prim(VBool(left.value.b && right.value.b))
    else if IsExpressionBase(left) then Apply(And, left, right)
    else Apply(RAnd, right, left)
  }

  /** `&` with True is the identity and with False gives False, from either side. */
  lemma PyAndUnits(x: Node)
    requires Condition(x)
    ensures PyAnd(True, x) == x && PyAnd(x, True) == x
    ensures PyAnd(False, x) == False && PyAnd(x, False) == False
  {
  }
}
