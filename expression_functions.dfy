/**
 * The operator-method factories of dcorm/expression_functions.py and
 * `expression_generator`, which installs the methods they build on a
 * class, by name.
 */
module ExpressionFunctions {
  import opened Outcomes
  import opened Values
  import Operators
  import opened Nodes
  import EB = ExpressionBase

  /** The `op_*` factories. */
  datatype Factory =
    | OpNot | OpAnd | OpOr | OpAdd | OpSub | OpMul | OpDiv | OpXor | OpEq | OpLt
    | OpLe | OpGt | OpGe | OpNe | OpIn | OpIs | OpLike | OpILike | OpConcat

  /** A class `expression_generator` decorates: its attributes by name. */
  class TargetClass {
    var attributes: map<string, Generated>

    constructor ()
      ensures attributes == map[]
    {
      attributes := map[];
    }
  }

  /**
   * A method a factory built: `factory(typ)`, or `partial(factory,
   * inverse=True)(typ)`. `typ` is the class whose constructor builds the
   * nodes, or None.
   */
  datatype Generated = Generated(factory: Factory, inverse: bool, typ: TargetClass?)

  /** A key of `METHODS`: `__invert__` or one of the binary operator methods. */
  datatype Slot = InvertSlot | BinarySlot(m: EB.Dunder)

  function SlotName(s: Slot): string {
    match s
    case InvertSlot => "__invert__"
    case BinarySlot(m) => EB.DunderName(m)
  }

  /** `METHODS`: the factory of each entry, and whether it is built with `inverse=True`. */
  function Entry(s: Slot): (Factory, bool) {
    match s
    case InvertSlot => (OpNot, false)
    case BinarySlot(m) =>
      match m
      case And => (OpAnd, false)
      case RAnd => (OpAnd, true)
      case Or => (OpOr, false)
      case ROr => (OpOr, true)
      case Add => (OpAdd, false)
      case RAdd => (OpAdd, true)
      case Sub => (OpSub, false)
      case RSub => (OpSub, true)
      case Mul => (OpMul, false)
      case RMul => (OpMul, true)
      case Div => (OpDiv, false)
      case RDiv => (OpDiv, true)
      case Xor => (OpXor, false)
      case RXor => (OpXor, true)
      case Eq => (OpEq, false)
      case Lt => (OpLt, false)
      case Le => (OpLe, false)
      case Gt => (OpGt, false)
      case Ge => (OpGe, false)
      case Ne => (OpNe, false)
      case LShift => (OpIn, false)
      case RShift => (OpIs, false)
      case Mod => (OpLike, false)
      case Pow => (OpILike, false)
      case MatMul => (OpConcat, false)
      case RMatMul => (OpConcat, true)
  }

  /** The keys of `METHODS` in the dictionary's order. */
  const Order: seq<Slot> := [
    InvertSlot,
    BinarySlot(EB.And), BinarySlot(EB.RAnd), BinarySlot(EB.Or), BinarySlot(EB.ROr),
    BinarySlot(EB.Add), BinarySlot(EB.RAdd), BinarySlot(EB.Sub), BinarySlot(EB.RSub),
    BinarySlot(EB.Mul), BinarySlot(EB.RMul), BinarySlot(EB.Div), BinarySlot(EB.RDiv),
    BinarySlot(EB.Xor), BinarySlot(EB.RXor), BinarySlot(EB.Eq), BinarySlot(EB.Lt),
    BinarySlot(EB.Le), BinarySlot(EB.Gt), BinarySlot(EB.Ge), BinarySlot(EB.Ne),
    BinarySlot(EB.LShift), BinarySlot(EB.RShift), BinarySlot(EB.Mod), BinarySlot(EB.Pow),
    BinarySlot(EB.MatMul), BinarySlot(EB.RMatMul)
  ]

  /** The key with the given name, if any. */
  function SlotNamed(name: string): (r: Option<Slot>)
  {
    if name == "__invert__" then Some(InvertSlot)
    else if name == "__and__" then Some(BinarySlot(EB.And))
    else if name == "__rand__" then Some(BinarySlot(EB.RAnd))
    else if name == "__or__" then Some(BinarySlot(EB.Or))
    else if name == "__ror__" then Some(BinarySlot(EB.ROr))
    else if name == "__add__" then Some(BinarySlot(EB.Add))
    else if name == "__radd__" then Some(BinarySlot(EB.RAdd))
    else if name == "__sub__" then Some(BinarySlot(EB.Sub))
    else if name == "__rsub__" then Some(BinarySlot(EB.RSub))
    else if name == "__mul__" then Some(BinarySlot(EB.Mul))
    else if name == "__rmul__" then Some(BinarySlot(EB.RMul))
    else if name == "__div__" then Some(BinarySlot(EB.Div))
    else if name == "__rdiv__" then Some(BinarySlot(EB.RDiv))
    else if name == "__xor__" then Some(BinarySlot(EB.Xor))
    else if name == "__rxor__" then Some(BinarySlot(EB.RXor))
    else if name == "__eq__" then Some(BinarySlot(EB.Eq))
    else if name == "__lt__" then Some(BinarySlot(EB.Lt))
    else if name == "__le__" then Some(BinarySlot(EB.Le))
    else if name == "__gt__" then Some(BinarySlot(EB.Gt))
    else if name == "__ge__" then Some(BinarySlot(EB.Ge))
    else if name == "__ne__" then Some(BinarySlot(EB.Ne))
    else if name == "__lshift__" then Some(BinarySlot(EB.LShift))
    else if name == "__rshift__" then Some(BinarySlot(EB.RShift))
    else if name == "__mod__" then Some(BinarySlot(EB.Mod))
    else if name == "__pow__" then Some(BinarySlot(EB.Pow))
    else if name == "__matmul__" then Some(BinarySlot(EB.MatMul))
    else if name == "__rmatmul__" then Some(BinarySlot(EB.RMatMul))
    else None
  }

  /** Every key is found again from its name. */
  lemma SlotNamedOfName(s: Slot)
    ensures SlotNamed(SlotName(s)) == Some(s)
  {
    match s
    case InvertSlot =>
    case BinarySlot(m) =>
      match m
      case And => case RAnd => case Or => case ROr => case Add => case RAdd =>
      case Sub => case RSub => case Mul => case RMul => case Div => case RDiv =>
      case Xor => case RXor => case Eq => case Lt => case Le => case Gt =>
      case Ge => case Ne => case LShift => case RShift => case Mod => case Pow =>
      case MatMul => case RMatMul =>
  }

  /** The 27 names are pairwise distinct. */
  lemma SlotNameInjective(s: Slot, t: Slot)
    ensures SlotName(s) == SlotName(t) ==> s == t
  {
    SlotNamedOfName(s);
    SlotNamedOfName(t);
  }

  /** Every key occurs in the dictionary's order. */
  lemma OrderComplete(s: Slot)
    ensures s in Order
  {
    match s
    case InvertSlot => assert Order[0] == s;
    case BinarySlot(m) =>
      match m
      case And => assert Order[1] == s;
      case RAnd => assert Order[2] == s;
      case Or => assert Order[3] == s;
      case ROr => assert Order[4] == s;
      case Add => assert Order[5] == s;
      case RAdd => assert Order[6] == s;
      case Sub => assert Order[7] == s;
      case RSub => assert Order[8] == s;
      case Mul => assert Order[9] == s;
      case RMul => assert Order[10] == s;
      case Div => assert Order[11] == s;
      case RDiv => assert Order[12] == s;
      case Xor => assert Order[13] == s;
      case RXor => assert Order[14] == s;
      case Eq => assert Order[15] == s;
      case Lt => assert Order[16] == s;
      case Le => assert Order[17] == s;
      case Gt => assert Order[18] == s;
      case Ge => assert Order[19] == s;
      case Ne => assert Order[20] == s;
      case LShift => assert Order[21] == s;
      case RShift => assert Order[22] == s;
      case Mod => assert Order[23] == s;
      case Pow => assert Order[24] == s;
      case MatMul => assert Order[25] == s;
      case RMatMul => assert Order[26] == s;
  }

  /** The method built for a key with the given `typ`. */
  function Generate(s: Slot, typ: TargetClass?): Generated {
    Generated(Entry(s).0, Entry(s).1, typ)
  }

  /** The attributes the install loop sets for the keys in `order`, one after another. */
  function Installs(order: seq<Slot>, typ: TargetClass?): map<string, Generated> {
    if |order| == 0 then map[]
    else
      var last := order[|order| - 1];
      Installs(order[..|order| - 1], typ)[SlotName(last) := Generate(last, typ)]
  }

  /** The attributes the install loop sets. */
  function Installed(typ: TargetClass?): map<string, Generated> {
    Installs(Order, typ)
  }

  /** After the keys of `order` each of them is installed under its name, and nothing else is. */
  lemma {:induction false} InstallsLookup(order: seq<Slot>, typ: TargetClass?, s: Slot)
    ensures SlotName(s) in Installs(order, typ) <==> s in order
    ensures s in order ==> Installs(order, typ)[SlotName(s)] == Generate(s, typ)
    decreases |order|
  {
    if |order| > 0 {
      var prefix, last := order[..|order| - 1], order[|order| - 1];
      InstallsLookup(prefix, typ, s);
      SlotNameInjective(s, last);
      assert order == prefix + [last];
    }
  }

  /** Every key of `METHODS` is installed under its name, with its own factory and `typ`. */
  lemma InstalledLookup(typ: TargetClass?, s: Slot)
    ensures SlotName(s) in Installed(typ)
    ensures Installed(typ)[SlotName(s)] == Generate(s, typ)
  {
    OrderComplete(s);
    InstallsLookup(Order, typ, s);
  }

  /** Only the names of `METHODS` are installed, each with its own entry. */
  lemma InstalledNames(typ: TargetClass?, name: string)
    requires name in Installed(typ)
    ensures SlotNamed(name).Some? && Installed(typ)[name] == Generate(SlotNamed(name).value, typ)
  {
    var s := InstalledKey(Order, typ, name);
    SlotNamedOfName(s);
    InstalledLookup(typ, s);
  }

  /** The key a name installed for `order` belongs to. */
  lemma {:induction false} InstalledKey(order: seq<Slot>, typ: TargetClass?, name: string) returns (s: Slot)
    requires name in Installs(order, typ)
    ensures SlotName(s) == name
    decreases |order|
  {
    var last := order[|order| - 1];
    if SlotName(last) == name {
      s := last;
    } else {
      s := InstalledKey(order[..|order| - 1], typ, name);
    }
  }

  /**
   * `typ(lhs, op, rhs)`: None is not callable. Any other `typ` is taken to
   * be a class whose constructor accepts `(lhs, operator[, rhs])` and builds
   * an `Expression`; a constructor with another signature, or a class that
   * builds something else, is not modelled.
   */
  function Build(typ: TargetClass?, lhs: Node, op: Operators.Operator, rhs: Node): (r: Result<Node, Error>)
    ensures typ == null <==> r == Err(TypeError)
    ensures typ != null ==> r == Ok(ExprNode(lhs, op, rhs))
  {
    if typ == null then Err(TypeError) else Ok(ExprNode(lhs, op, rhs))
  }

  /** `typ(lhs, op, rhs)`, or with the operands swapped when built with `inverse=True`. */
  function BuildOrdered(g: Generated, self: Node, op: Operators.Operator, other: Node): Result<Node, Error> {
    if g.inverse then Build(g.typ, other, op, self) else Build(g.typ, self, op, other)
  }

  /**
   * Calling `op_not(typ)` on `self`, given what `Operator.NOT` evaluates
   * to: the argument is evaluated before `typ` is called.
   */
  function CallUnaryBy(g: Generated, notMember: Result<Operators.Operator, Error>, self: Node): (r: Result<Node, Error>)
    requires g.factory == OpNot
    ensures notMember.Err? ==> r == Err(notMember.error)
    ensures notMember.Ok? ==> (r.Ok? <==> g.typ != null)
  {
    match notMember
    case Err(e) => Err(e)
    case Ok(n) => Build(g.typ, self, n, NoneObj)
  }

  /** Calling `op_not(typ)` on `self` as written: it fails whenever the enum has no member `NOT`. */
  function CallUnary(g: Generated, self: Node): (r: Result<Node, Error>)
    requires g.factory == OpNot
    ensures Operators.MemberNamed("NOT").None? ==> r == Err(AttributeError)
  {
    CallUnaryBy(g, Operators.Member("NOT"), self)
  }

  /** The enum declares no `NOT`: the generated `__invert__` raises AttributeError, with or without a `typ`. */
  lemma CallUnaryRaises(g: Generated, self: Node)
    requires g.factory == OpNot
    ensures CallUnary(g, self) == Err(AttributeError)
  {
    Operators.NotIsNoMemberName();
  }

  /** `op_not` with the `NOT` member present: always a new negation, never undone. */
  function CallUnaryIntended(g: Generated, self: Node): (r: Result<Node, Error>)
    requires g.factory == OpNot
    ensures g.typ != null ==> r == Ok(ExprNode(self, Operators.Not, NoneObj))
    ensures g.typ == null ==> r == Err(TypeError)
  {
    CallUnaryBy(g, Ok(Operators.Not), self)
  }

  /** Calling a generated binary method on `self` and `other`. */
  function CallBinary(g: Generated, self: Node, other: Node): (r: Result<Node, Error>)
    requires g.factory != OpNot
    ensures g.typ != null ==> r.Ok?
    ensures r.Err? ==> g.typ == null && r.error == TypeError
  {
    match g.factory
    case OpAnd => if other == True then Ok(self) else if other == False then Ok(False) else BuildOrdered(g, self, Operators.And, other)
    case OpOr => if other == True then Ok(True) else if other == False then Ok(self) else BuildOrdered(g, self, Operators.Or, other)
    case OpAdd => BuildOrdered(g, self, Operators.Add, other)
    case OpSub => BuildOrdered(g, self, Operators.Sub, other)
    case OpMul => BuildOrdered(g, self, Operators.Mul, other)
    case OpDiv => BuildOrdered(g, self, Operators.Div, other)
    case OpXor => BuildOrdered(g, self, Operators.Xor, other)
    case OpEq => if other == NoneObj then Build(g.typ, self, Operators.Is, other) else Build(g.typ, self, Operators.Eq, other)
    case OpLt => Build(g.typ, self, Operators.Eq, other)
    case OpLe => Build(g.typ, self, Operators.Le, other)
    case OpGt => Build(g.typ, self, Operators.Gt, other)
    case OpGe => Build(g.typ, self, Operators.Ge, other)
    case OpNe => if other == NoneObj then Build(g.typ, self, Operators.IsNot, other) else Build(g.typ, self, Operators.Ge, other)
    case OpIn => Build(g.typ, self, Operators.In, other)
    case OpIs => Build(g.typ, self, Operators.Is, other)
    case OpLike => Build(g.typ, self, Operators.Like, other)
    case OpILike => Build(g.typ, self, Operators.ILike, other)
    case OpConcat => BuildOrdered(g, self, Operators.Concat, other)
  }

  /** Every reflected method comes from the factory of the method it mirrors, built with `inverse=True`; the plain one without. */
  lemma ReflectedEntries(m: EB.Dunder)
    requires EB.Reflected(m)
    ensures Entry(BinarySlot(m)) == (Entry(BinarySlot(EB.Mirror(m))).0, true)
    ensures !Entry(BinarySlot(EB.Mirror(m))).1
  {
  }

  /**
   * With a class to build with, every installed binary method behaves as
   * the ExpressionBase method of the same name, short-circuits and
   * reflected operand order included.
   */
  lemma AgreesWithBase(m: EB.Dunder, typ: TargetClass?, self: Node, other: Node)
    requires typ != null && IsExpressionBase(self)
    ensures EB.DunderName(m) in Installed(typ)
    ensures Installed(typ)[EB.DunderName(m)].factory != OpNot
    ensures CallBinary(Installed(typ)[EB.DunderName(m)], self, other) == Ok(EB.Apply(m, self, other))
  {
    InstalledLookup(typ, BinarySlot(m));
    assert Installed(typ)[EB.DunderName(m)] == Generate(BinarySlot(m), typ);
  }

  /** Unlike `ExpressionBase.Invert`, the installed negation does not undo a negation. */
  lemma NoDoubleNegation(typ: TargetClass?, x: Node)
    requires typ != null && IsExpressionBase(x)
    ensures "__invert__" in Installed(typ) && Installed(typ)["__invert__"].factory == OpNot
    ensures var notX := ExprNode(x, Operators.Not, NoneObj);
      && CallUnaryIntended(Installed(typ)["__invert__"], notX) == Ok(ExprNode(notX, Operators.Not, NoneObj))
      && EB.Invert(notX) == x
  {
    InstalledLookup(typ, InvertSlot);
  }

  /** The loop of `inner`: `setattr(target, name, factory(typ))` for every entry of `METHODS`. */
  method Install(target: TargetClass, typ: TargetClass?)
    modifies target
    ensures target.attributes == old(target.attributes) + Installed(typ)
  {
    InstallEach(target, Order, typ);
  }

  /** `setattr` for each key of `order` in turn. */
  method InstallEach(target: TargetClass, order: seq<Slot>, typ: TargetClass?)
    modifies target
    ensures target.attributes == old(target.attributes) + Installs(order, typ)
  {
    ghost var before := target.attributes;
    for i := 0 to |order|
      invariant target.attributes == before + Installs(order[..i], typ)
    {
      var name, generated := SlotName(order[i]), Generate(order[i], typ);
      UnionUpdate(before, Installs(order[..i], typ), name, generated);
      assert order[..i + 1][..i] == order[..i];
      target.attributes := target.attributes[name := generated];
    }
    assert order[..|order|] == order;
  }

  /** Setting a key after a union is setting it in the right-hand map. */
  lemma UnionUpdate<K, V>(a: map<K, V>, b: map<K, V>, k: K, v: V)
    ensures a + b[k := v] == (a + b)[k := v]
  {
  }

  /** What `expression_generator` returns: the decorated class, or a decorator still to be applied. */
  datatype GeneratorResult = Decorated(cls: TargetClass) | Decorator(typ: TargetClass?)

  /** `expression_generator(cls, typ=typ)`: bare use decorates `cls` with `typ = cls`. */
  method ExpressionGenerator(cls: TargetClass?, typ: TargetClass?) returns (r: GeneratorResult)
    modifies if cls != null then {cls} else {}
    ensures cls == null ==> r == Decorator(typ)
    ensures cls != null ==> r == Decorated(cls) && cls.attributes == old(cls.attributes) + Installed(cls)
  {
    if cls == null {
      return Decorator(typ);
    }
    Install(cls, cls);
    return Decorated(cls);
  }

  /** Applying the decorator `inner` to `target`: `setattr` on None raises AttributeError. */
  method Decorate(typ: TargetClass?, target: TargetClass?) returns (r: Result<TargetClass, Error>)
    modifies if target != null then {target} else {}
    ensures target == null ==> r == Err(AttributeError)
    ensures target != null ==> r == Ok(target) && target.attributes == old(target.attributes) + Installed(typ)
  {
    if target == null {
      return Err(AttributeError);
    }
    Install(target, typ);
    return Ok(target);
  }
}
