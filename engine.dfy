/**
 * The SQL engine (dcorm/engine.py): an object that collects the query text
 * fragment by fragment with its bound values. Every method is proved to
 * append exactly the `Emission` the `Compiler` module specifies, and `sql`
 * keeps the placeholders of the joined text in step with the values.
 */
module Engines {
  import opened Outcomes
  import opened Values
  import opened Operators
  import opened Schema
  import opened Nodes
  import opened Text
  import opened Compiler
  import Literals
  import Paths
  import Placeholders

  class Engine {
    /** `_sql`: the query text, fragment by fragment. */
    var fragments: seq<string>
    /** `_values`: the parameters bound to the placeholders, in order. */
    var values: seq<SqlValue>
    /**
     * The `quotes` template `"{}"`, split at its `{}`: a template is taken to
     * hold exactly one `{}` and no other brace `str.format` would read.
     */
    const quoteOpen: string
    const quoteClose: string

    constructor (quoteOpen: string := "\"", quoteClose: string := "\"")
      ensures fragments == [] && values == [] && Valid()
      ensures this.quoteOpen == quoteOpen && this.quoteClose == quoteClose
    {
      fragments := [];
      values := [];
      this.quoteOpen := quoteOpen;
      this.quoteClose := quoteClose;
    }

    /**
     * Every placeholder written so far has its value, and none is split
     * between two fragments.
     */
    predicate Valid()
      reads this
    {
      PlaceholderTotal(fragments) == |values| && Sealed(fragments)
    }

    /** `quote`: the string placed into the quotes template. */
    function Quote(s: string): (r: string)
      reads this
      ensures |r| == |quoteOpen| + |s| + |quoteClose|
      ensures r[..|quoteOpen|] == quoteOpen
      ensures r[|quoteOpen|..|r| - |quoteClose|] == s
      ensures r[|r| - |quoteClose|..] == quoteClose
    {
      quoteOpen + s + quoteClose
    }

    /** `query`: the text, fragments concatenated, and the values. */
    function Query(): (q: (string, seq<SqlValue>))
      reads this
      ensures q.1 == values
      ensures |q.0| == 0 <==> forall i :: 0 <= i < |fragments| ==> fragments[i] == ""
      ensures Valid() ==> PlaceholderCount(q.0) == |q.1|
    {
      EmptyConcat(fragments);
      SealedPlaceholders(fragments);
      (Text.Concat(fragments), values)
    }

    /**
     * `raw_value`: a caller-made template and its values. The engine stays
     * valid when the template holds one placeholder per value and does not
     * end with an open `%`.
     */
    method RawValue(frmt: string, vs: seq<SqlValue>)
      modifies this
      ensures fragments == old(fragments) + [frmt]
      ensures values == old(values) + vs
      ensures old(Valid()) && PlaceholderCount(frmt) == |vs| && !EndsOpen(frmt) ==> Valid()
    {
      PlaceholderTotalAppend(fragments, [frmt]);
      Placeholders.SingleFragment(frmt);
      SealedAppend(fragments, [frmt]);
      fragments := fragments + [frmt];
      values := values + vs;
    }

    method Value(obj: Node) returns (err: Option<Error>)
      modifies this
      ensures fragments == old(fragments) + ValueEmission(obj).frags
      ensures values == old(values) + ValueEmission(obj).vals
      ensures err == ValueEmission(obj).err
      ensures old(Valid()) ==> Valid()
    {
      Placeholders.ValueLockstep(obj);
      PlaceholderTotalAppend(fragments, ValueEmission(obj).frags);
      SealedAppend(fragments, ValueEmission(obj).frags);
      if obj.Prim? && (obj.value.VBool? || obj.value.VInt? || obj.value.VFloat?) {
        fragments := fragments + ["%s"];
      } else if obj.Prim? && obj.value.VStr? {
        fragments := fragments + ["'%s'"];
      } else {
        return Some(TypeError);
      }
      values := values + [obj.value];
      err := None;
    }

    method Literal(arg: LiteralArg) returns (err: Option<Error>)
      modifies this
      decreases arg
      ensures fragments == old(fragments) + LiteralEmission(arg).frags
      ensures values == old(values)
      ensures err == LiteralEmission(arg).err
    {
      match arg
      case EnumMember(v) =>
        err := Literal(v);
      case LiteralObj(l) =>
        fragments := fragments + [Literals.Render(l)];
        err := None;
      case TextArg(_) =>
        err := Some(TypeError);
      case OtherArg =>
        err := Some(TypeError);
    }

    /** `sql`; `view` is the (unchanging) state of the aliases `obj` refers to. */
    method Sql(obj: Node, ghost view: AliasView) returns (err: Option<Error>)
      requires Known(obj, view) && Current(view)
      modifies this
      decreases obj, 1
      ensures fragments == old(fragments) + Emit(obj, view).frags
      ensures values == old(values) + Emit(obj, view).vals
      ensures err == Emit(obj, view).err
      ensures old(Valid()) ==> Valid()
    {
      match obj {
        case Prim(_) => err := Value(obj);
        case NoneObj => err := Value(obj);
        case OtherObj => err := Value(obj);
        case TokenNode(t) => err := CompileToken(t);
        case PathNode(segments) => CompilePath(segments); err := None;
        case ExprNode(lhs, op, rhs) => err := CompileExpression(lhs, op, rhs, view);
        case ColumnNode(c) => CompileColumn(c, view); err := None;
        case ColumnSelectNode(cols) => CompileColumnSelect(cols, view); err := None;
        case OrderedColumnNode(oc) => err := CompileOrderedColumn(oc, view);
        case AliasNode(a) => err := CompileAlias(a, view);
        case JoinNode(lhs, kind, rhs, on) => err := CompileJoin(lhs, kind, rhs, on, view);
        case ModelNode(m) => CompileModel(m); err := None;
      }
      if old(Valid()) {
        Placeholders.SqlKeepsLockstep(old(fragments), old(values), obj, view);
      }
    }

    /** Calling an enum member's `__sql__`, which is a string. */
    method CompileToken(token: string) returns (err: Option<Error>)
      ensures err == Some(TypeError)
    {
      err := Some(TypeError);
    }

    method CompilePath(segments: seq<SqlValue>)
      modifies this
      ensures fragments == old(fragments) + [Paths.Template(|segments|)]
      ensures values == old(values) + segments
    {
      fragments := fragments + [Paths.Template(|segments|)];
      values := values + segments;
    }

    method CompileModel(m: ModelClass)
      modifies this
      ensures fragments == old(fragments) + ModelEmission(m).frags
      ensures values == old(values) + ModelEmission(m).vals
    {
      CompilePath(TablePath(m));
    }

    /**
     * `Expression.__sql__`. The operator goes through `literal`, which
     * rejects it (an Operator's value is a string, not a Literal), so the
     * rhs is never reached.
     */
    method CompileExpression(lhs: Node, op: Operator, rhs: Node, ghost view: AliasView) returns (err: Option<Error>)
      requires Known(ExprNode(lhs, op, rhs), view) && Current(view)
      modifies this
      decreases ExprNode(lhs, op, rhs), 0
      ensures fragments == old(fragments) + Emit(ExprNode(lhs, op, rhs), view).frags
      ensures values == old(values) + Emit(ExprNode(lhs, op, rhs), view).vals
      ensures err == Emit(ExprNode(lhs, op, rhs), view).err
    {
      err := Sql(lhs, view);
      if err.Some? {
        return;
      }
      err := Literal(OperatorArg(op));
    }

    method CompileColumn(c: Column, ghost view: AliasView)
      requires TableKnown(c.table, view) && Current(view)
      modifies this
      ensures fragments == old(fragments) + ColumnEmission(c, view).frags
      ensures values == old(values) + ColumnEmission(c, view).vals
    {
      var path := match c.table
        case ModelTable(m) => TablePath(m)
        case AliasTable(a) => TablePath(a.model);
      path := path + [VStr(ColumnName(c.field))];
      CompilePath(path);
    }

    /** `ColumnSelect.__sql__`: the columns, separated by commas. */
    method CompileColumnSelect(cols: seq<Column>, ghost view: AliasView)
      requires ColumnsKnown(cols, view) && Current(view)
      modifies this
      ensures fragments == old(fragments) + ColumnListEmission(cols, |cols|, view).frags
      ensures values == old(values) + ColumnListEmission(cols, |cols|, view).vals
    {
      ghost var pf, pv := fragments, values;
      for index := 0 to |cols|
        invariant fragments == pf + ColumnListEmission(cols, index, view).frags
        invariant values == pv + ColumnListEmission(cols, index, view).vals
      {
        ColumnListStep(pf, pv, cols, index, view);
        CompileListItem(cols, index, view);
      }
    }

    /** One column of a `ColumnSelect`, followed by a comma unless it is the last. */
    method CompileListItem(cols: seq<Column>, index: nat, ghost view: AliasView)
      requires index < |cols| && ColumnsKnown(cols, view) && Current(view)
      modifies this
      ensures TableKnown(cols[index].table, view)
      ensures fragments == (old(fragments) + ColumnEmission(cols[index], view).frags) + Separator(cols, index)
      ensures values == old(values) + ColumnEmission(cols[index], view).vals
    {
      CompileColumn(cols[index], view);
      if index + 1 < |cols| {
        var _ := Literal(LiteralObj(COMMA));
      }
    }

    /**
     * `OrderedColumn.__sql__`: the column, then `engine.sql(ordering)`, which
     * calls the ordering's string-valued `__sql__` and raises TypeError.
     */
    method CompileOrderedColumn(oc: OrderedColumn, ghost view: AliasView) returns (err: Option<Error>)
      requires Known(OrderedColumnNode(oc), view) && Current(view)
      modifies this
      ensures fragments == old(fragments) + Emit(OrderedColumnNode(oc), view).frags
      ensures values == old(values) + Emit(OrderedColumnNode(oc), view).vals
      ensures err == Emit(OrderedColumnNode(oc), view).err
    {
      CompileColumn(oc.column, view);
      err := CompileToken(OrderingToken(oc.ordering));
    }

    method CompileAlias(a: Alias, ghost view: AliasView) returns (err: Option<Error>)
      requires a in view && Current(view)
      modifies this
      ensures fragments == old(fragments) + AliasEmission(view[a]).frags
      ensures values == old(values) + AliasEmission(view[a]).vals
      ensures err == AliasEmission(view[a]).err
    {
      if a.name.None? {
        return Some(RuntimeError("Alias name not set:"));
      }
      CompileModel(a.model);
      err := Literal(LiteralObj(AS));
      err := Value(Prim(VStr(a.name.value)));
    }

    method CompileJoin(lhs: Node, kind: JoinType, rhs: Node, on: Node, ghost view: AliasView) returns (err: Option<Error>)
      requires Known(JoinNode(lhs, kind, rhs, on), view) && Current(view)
      modifies this
      decreases JoinNode(lhs, kind, rhs, on), 0
      ensures fragments == old(fragments) + Emit(JoinNode(lhs, kind, rhs, on), view).frags
      ensures values == old(values) + Emit(JoinNode(lhs, kind, rhs, on), view).vals
      ensures err == Emit(JoinNode(lhs, kind, rhs, on), view).err
    {
      ghost var condition := if on.NoneObj? then None else Some(Emit(on, view));
      assert Emit(JoinNode(lhs, kind, rhs, on), view) == JoinEmission(Emit(lhs, view), kind, Emit(rhs, view), condition);
      JoinSteps(fragments, values, Emit(lhs, view), JoinRightEmission(kind, Emit(rhs, view)), condition);
      err := Sql(lhs, view);
      if err.Some? {
        return;
      }
      err := CompileJoinRight(kind, rhs, view);
      if err.Some? || on.NoneObj? {
        return;
      }
      err := CompileCondition(on, view);
    }

    /** The join keyword and the right-hand side of `Join.__sql__`. */
    method CompileJoinRight(kind: JoinType, rhs: Node, ghost view: AliasView) returns (err: Option<Error>)
      requires Known(rhs, view) && Current(view)
      modifies this
      decreases rhs, 2
      ensures fragments == old(fragments) + JoinRightEmission(kind, Emit(rhs, view)).frags
      ensures values == old(values) + JoinRightEmission(kind, Emit(rhs, view)).vals
      ensures err == JoinRightEmission(kind, Emit(rhs, view)).err
    {
      ghost var keyword := [Literals.Render(JoinLiteral(kind))];
      JoinRightShape(kind, Emit(rhs, view));
      AppendAssoc(fragments, keyword, Emit(rhs, view).frags);
      assert LiteralEmission(JoinTypeArg(kind)) == Emission(keyword, [], None);
      err := Literal(JoinTypeArg(kind));
      assert fragments == old(fragments) + keyword;
      err := Sql(rhs, view);
    }

    /** The `ON` part of `Join.__sql__`: the keyword, then the condition. */
    method CompileCondition(on: Node, ghost view: AliasView) returns (err: Option<Error>)
      requires Known(on, view) && Current(view)
      modifies this
      decreases on, 2
      ensures fragments == old(fragments) + ConditionEmission(Emit(on, view)).frags
      ensures values == old(values) + ConditionEmission(Emit(on, view)).vals
      ensures err == ConditionEmission(Emit(on, view)).err
    {
      ghost var keyword := [Literals.Render(ON)];
      ConditionShape(Emit(on, view));
      AppendAssoc(fragments, keyword, Emit(on, view).frags);
      err := Literal(LiteralObj(ON));
      assert fragments == old(fragments) + keyword;
      err := Sql(on, view);
    }
  }
}
