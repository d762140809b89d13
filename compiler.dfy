/**
 * What the SQL engine (dcorm/engine.py) appends when asked to render an
 * object, through the compile hooks of paths, expressions, columns, column
 * lists, ordered columns, aliases, joins and model classes.
 *
 * Each object's output is specified as an `Emission` (`Emit`); the engine's
 * methods (module `Engines`) are proved to append exactly that.
 */
module Compiler {
  import opened Outcomes
  import opened Values
  import opened Operators
  import opened Schema
  import opened Nodes
  import opened Text
  import Literals
  import Paths

  /** `AS` between an aliased model and its name (dcorm/alias.py). */
  const AS: Literals.Literal := Literals.Binary("AS")
  /** `ON` before a join condition (dcorm/joins.py). */
  const ON: Literals.Literal := Literals.Binary("ON")
  /** `,` between selected columns (dcorm/column.py). */
  const COMMA: Literals.Literal := Literals.Unary(",")

  /**
   * What compiling an object appends to the engine's fragments and values,
   * and the exception that stopped it. Nothing is rolled back on an
   * exception: the output appended before it stays.
   */
  datatype Emission = Emission(frags: seq<string>, vals: seq<SqlValue>, err: Option<Error>)

  const Empty: Emission := Emission([], [], None)

  function Fail(e: Error): Emission {
    Emission([], [], Some(e))
  }

  /** `a`, then `b` unless `a` raised. */
  function Then(a: Emission, b: Emission): Emission {
    if a.err.Some? then a else Emission(a.frags + b.frags, a.vals + b.vals, b.err)
  }

  /**
   * Every `%s` in the fragments has its value, and no fragment ends with an
   * open `%`, so the fragments joined hold the same placeholders.
   */
  predicate Lockstep(e: Emission) {
    PlaceholderTotal(e.frags) == |e.vals| && Sealed(e.frags)
  }

  /** The fragment `value` writes for a bindable value, if it accepts it. */
  function Placeholder(v: SqlValue): Option<string> {
    match v
    case VBool(_) => Some("%s")
    case VInt(_) => Some("%s")
    case VFloat(_) => Some("%s")
    case VStr(_) => Some("'%s'")
    case VDatabase(_) => None
  }

  /**
   * `engine.value(obj)`: bools and numbers become `%s`, strings `'%s'`,
   * each followed by the value itself; anything else is a TypeError.
   */
  function ValueEmission(obj: Node): (e: Emission)
    ensures e.err.None? <==> obj.Prim? && !obj.value.VDatabase?
    ensures e.err.None? ==> e.frags == [Placeholder(obj.value).value] && e.vals == [obj.value]
    ensures e.err.Some? ==> e == Fail(TypeError)
  {
    if obj.Prim? && Placeholder(obj.value).Some? then
      Emission([Placeholder(obj.value).value], [obj.value], None)
    else
      Fail(TypeError)
  }

  /** The argument of `engine.literal`: a Literal, an enum member (by its value), or anything else. */
  datatype LiteralArg = LiteralObj(lit: Literals.Literal) | EnumMember(memberValue: LiteralArg) | TextArg(s: string) | OtherArg

  /** `engine.literal(obj)`: an enum member is replaced by its value until a Literal is reached. */
  function LiteralEmission(arg: LiteralArg): Emission {
    match arg
    case LiteralObj(l) => Emission([Literals.Render(l)], [], None)
    case EnumMember(v) => LiteralEmission(v)
    case TextArg(_) => Fail(TypeError)
    case OtherArg => Fail(TypeError)
  }

  /** An Operator member: its value is a plain string. */
  function OperatorArg(op: Operator): LiteralArg {
    EnumMember(TextArg(Token(op)))
  }

  /** A JoinType member: its value is a binary Literal. */
  function JoinTypeArg(k: JoinType): LiteralArg {
    EnumMember(LiteralObj(JoinLiteral(k)))
  }

  /** `Path.__sql__`: the template, and every segment as a value. */
  function PathEmission(segments: seq<SqlValue>): Emission {
    Emission([Paths.Template(|segments|)], segments, None)
  }

  /** A model class's hook compiles its table path. */
  function ModelEmission(m: ModelClass): Emission {
    PathEmission(TablePath(m))
  }

  /** `Column.__sql__` compiles the column's path. */
  function ColumnEmission(c: Column, view: AliasView): Emission
    requires TableKnown(c.table, view)
  {
    PathEmission(ColumnPath(c, view))
  }

  /** The first `k` columns of a `ColumnSelect`, each followed by a comma unless it is the last. */
  function ColumnListEmission(cols: seq<Column>, k: nat, view: AliasView): (e: Emission)
    requires k <= |cols| && ColumnsKnown(cols, view)
    ensures e.err.None?
  {
    if k == 0 then Empty
    else
      Then(ColumnListEmission(cols, k - 1, view),
           Then(ColumnEmission(cols[k - 1], view),
                if k < |cols| then LiteralEmission(LiteralObj(COMMA)) else Empty))
  }

  /** `Expression.__sql__`: lhs, operator, then the rhs when there is one. */
  function ExpressionEmission(lhs: Emission, op: Emission, rhs: Option<Emission>): Emission {
    Then(lhs, Then(op, if rhs.None? then Empty else rhs.value))
  }

  /**
   * `Alias.__sql__`: the model, `AS`, then the name as a value; no name is a
   * RuntimeError. The error keeps the message; the alias passed as its
   * second argument is not recorded.
   */
  function AliasEmission(state: AliasState): Emission {
    if state.name.None? then Fail(RuntimeError("Alias name not set:"))
    else Then(ModelEmission(state.model), Then(LiteralEmission(LiteralObj(AS)), ValueEmission(Prim(VStr(state.name.value)))))
  }

  /** `ON`, then the join condition. */
  function ConditionEmission(condition: Emission): Emission {
    Then(LiteralEmission(LiteralObj(ON)), condition)
  }

  /** The join keyword, then the right-hand side. */
  function JoinRightEmission(kind: JoinType, rhs: Emission): Emission {
    Then(LiteralEmission(JoinTypeArg(kind)), rhs)
  }

  /** `Join.__sql__`: lhs, the join keyword, rhs, then the condition when there is one. */
  function JoinEmission(lhs: Emission, kind: JoinType, rhs: Emission, on: Option<Emission>): Emission {
    Then(lhs, Then(JoinRightEmission(kind, rhs), if on.None? then Empty else ConditionEmission(on.value)))
  }

  /**
   * `engine.sql(obj)` with the aliases in the state `view`: an object with
   * a compile hook runs it; any other object is bound as a value. An enum
   * member's `__sql__` is a string, and calling it raises TypeError.
   */
  function Emit(n: Node, view: AliasView): Emission
    requires Known(n, view)
  {
    match n
    case Prim(_) => ValueEmission(n)
    case NoneObj => ValueEmission(n)
    case OtherObj => ValueEmission(n)
    case TokenNode(_) => Fail(TypeError)
    case PathNode(segments) => PathEmission(segments)
    case ExprNode(lhs, op, rhs) =>
      ExpressionEmission(Emit(lhs, view), LiteralEmission(OperatorArg(op)), if rhs.NoneObj? then None else Some(Emit(rhs, view)))
    case ColumnNode(c) => ColumnEmission(c, view)
    case ColumnSelectNode(cols) => ColumnListEmission(cols, |cols|, view)
    case OrderedColumnNode(oc) => Then(ColumnEmission(oc.column, view), Fail(TypeError))
    case AliasNode(a) => AliasEmission(view[a])
    case JoinNode(lhs, kind, rhs, on) =>
      JoinEmission(Emit(lhs, view), kind, Emit(rhs, view), if on.NoneObj? then None else Some(Emit(on, view)))
    case ModelNode(m) => ModelEmission(m)
  }

  /** The output of a join as the engine appends it, piece by piece, after `pf` and `pv`. */
  lemma JoinSteps(pf: seq<string>, pv: seq<SqlValue>, l: Emission, right: Emission, on: Option<Emission>)
    ensures var j := Then(l, Then(right, if on.None? then Empty else ConditionEmission(on.value)));
      && (l.err.Some? ==> j == l)
      && (l.err.None? && (right.err.Some? || on.None?) ==>
            pf + j.frags == (pf + l.frags) + right.frags && pv + j.vals == (pv + l.vals) + right.vals && j.err == right.err)
      && (l.err.None? && right.err.None? && on.Some? ==>
            var c := ConditionEmission(on.value);
            pf + j.frags == ((pf + l.frags) + right.frags) + c.frags
            && pv + j.vals == ((pv + l.vals) + right.vals) + c.vals && j.err == c.err)
  {
    var tail := if on.None? then Empty else ConditionEmission(on.value);
    var rest := Then(right, tail);
    if l.err.None? {
      AppendAssoc(pf, l.frags, rest.frags);
      AppendAssoc(pv, l.vals, rest.vals);
      if right.err.None? {
        AppendAssoc(pf + l.frags, right.frags, tail.frags);
        AppendAssoc(pv + l.vals, right.vals, tail.vals);
      }
    }
  }

  /** The comma after the `k`-th column of a list, none after the last. */
  function Separator(cols: seq<Column>, k: nat): seq<string> {
    if k + 1 < |cols| then [Literals.Render(COMMA)] else []
  }

  /** One more column of a column list, as the engine appends it after `pf` and `pv`. */
  lemma ColumnListStep(pf: seq<string>, pv: seq<SqlValue>, cols: seq<Column>, k: nat, view: AliasView)
    requires k < |cols| && ColumnsKnown(cols, view)
    ensures TableKnown(cols[k].table, view)
    ensures var c := ColumnEmission(cols[k], view);
      && pf + ColumnListEmission(cols, k + 1, view).frags == ((pf + ColumnListEmission(cols, k, view).frags) + c.frags) + Separator(cols, k)
      && pv + ColumnListEmission(cols, k + 1, view).vals == (pv + ColumnListEmission(cols, k, view).vals) + c.vals
  {
    var prev, c := ColumnListEmission(cols, k, view), ColumnEmission(cols[k], view);
    var sep := Separator(cols, k);
    var tail := if k + 1 < |cols| then LiteralEmission(LiteralObj(COMMA)) else Empty;
    assert tail == Emission(sep, [], None);
    assert ColumnListEmission(cols, k + 1, view) == Then(prev, Then(c, tail));
    assert Then(prev, Then(c, tail)) == Emission(prev.frags + (c.frags + sep), prev.vals + (c.vals + []), None);
    AppendAssoc(pf, prev.frags, c.frags + sep);
    AppendAssoc(pf + prev.frags, c.frags, sep);
    AppendAssoc(pv, prev.vals, c.vals);
    assert c.vals + [] == c.vals;
  }

  lemma JoinRightShape(kind: JoinType, e: Emission)
    ensures JoinRightEmission(kind, e) == Emission([Literals.Render(JoinLiteral(kind))] + e.frags, e.vals, e.err)
  {
  }

  lemma ConditionShape(e: Emission)
    ensures ConditionEmission(e) == Emission([Literals.Render(ON)] + e.frags, e.vals, e.err)
  {
  }
}
