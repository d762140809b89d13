/**
 * The engine's placeholders and values stay in step: whatever an object
 * compiles to, its fragments hold exactly one `%s` per value it binds, so
 * an engine whose text and values agree still agrees after `sql(obj)`
 * (dcorm/engine.py, with the hooks of dcorm/path.py, dcorm/expression.py,
 * dcorm/column.py, dcorm/alias.py, dcorm/joins.py and dcorm/model.py).
 */
module Placeholders {
  import opened Outcomes
  import opened Values
  import opened Schema
  import opened Nodes
  import opened Text
  import opened Compiler
  import Literals
  import Paths
  import Operators

  predicate NoPercent(s: string) {
    '%' !in s
  }

  /** Appending an output that is in step to one that is keeps them in step. */
  lemma ThenLockstep(a: Emission, b: Emission)
    requires Lockstep(a) && Lockstep(b)
    ensures Lockstep(Then(a, b))
  {
    if a.err.None? {
      PlaceholderTotalAppend(a.frags, b.frags);
      SealedAppend(a.frags, b.frags);
    }
  }

  /** A single fragment counts as its own placeholders. */
  lemma SingleFragment(s: string)
    ensures PlaceholderTotal([s]) == PlaceholderCount(s)
  {
    assert [s][..0] == [];
  }

  /** A literal whose keyword has no percent sign writes no placeholder and binds nothing. */
  lemma LiteralLockstep(l: Literals.Literal)
    requires NoPercent(l.keyword)
    ensures Lockstep(LiteralEmission(LiteralObj(l)))
  {
    assert forall i :: 0 <= i < |l.keyword| ==> l.keyword[i] != '%';
    Literals.RenderAddsNoPercent(l);
    NoPercentNoPlaceholder(Literals.Render(l));
    SingleFragment(Literals.Render(l));
  }

  /** `value` writes one placeholder, `%s` or `'%s'`, for the one value it binds. */
  lemma ValueLockstep(obj: Node)
    ensures Lockstep(ValueEmission(obj))
  {
    if ValueEmission(obj).err.None? {
      var p := Placeholder(obj.value).value;
      SingleFragment(p);
      if obj.value.VStr? {
        assert p == "'%s'";
        assert p[1..] == "%s'";
        assert p[1..][2..] == "'";
      } else {
        assert p == "%s";
        assert p[2..] == "";
      }
    }
  }

  lemma PathLockstep(segments: seq<SqlValue>)
    ensures Lockstep(PathEmission(segments))
  {
    SingleFragment(Paths.Template(|segments|));
    Paths.TemplatePlaceholders(|segments|);
    Paths.TemplateSealed(|segments|);
  }

  /** Every keyword the join hook writes is free of percent signs. */
  lemma JoinKeywordLockstep(k: JoinType)
    ensures Lockstep(LiteralEmission(JoinTypeArg(k)))
  {
    JoinKeywordNoPercent(k);
    LiteralLockstep(JoinLiteral(k));
  }

  lemma JoinKeywordNoPercent(k: JoinType)
    ensures NoPercent(JoinKeyword(k))
  {
    match k
    case Inner => assert NoPercent("INNER JOIN");
    case LeftOuter => assert NoPercent("LEFT OUTER JOIN");
    case RightOuter => assert NoPercent("RIGHT OUTER JOIN");
    case Full => assert NoPercent("FULL JOIN");
    case FullOuter => assert NoPercent("FULL OUTER JOIN");
    case Cross => assert NoPercent("CROSS JOIN");
    case Natural => assert NoPercent("NATURAL JOIN");
    case Lateral => assert NoPercent("LATERAL");
    case LeftLateral => assert NoPercent("LEFT JOIN LATERAL");
  }

  lemma ColumnLockstep(c: Column, view: AliasView)
    requires TableKnown(c.table, view)
    ensures Lockstep(ColumnEmission(c, view))
  {
    PathLockstep(ColumnPath(c, view));
  }

  lemma CommaLockstep()
    ensures Lockstep(LiteralEmission(LiteralObj(COMMA)))
  {
    assert NoPercent(",");
    LiteralLockstep(COMMA);
  }

  lemma {:induction false} ColumnListLockstep(cols: seq<Column>, k: nat, view: AliasView)
    requires k <= |cols| && ColumnsKnown(cols, view)
    ensures Lockstep(ColumnListEmission(cols, k, view))
    decreases k
  {
    if k > 0 {
      var prefix := ColumnListEmission(cols, k - 1, view);
      var column := ColumnEmission(cols[k - 1], view);
      var tail := if k < |cols| then LiteralEmission(LiteralObj(COMMA)) else Empty;
      assert ColumnListEmission(cols, k, view) == Then(prefix, Then(column, tail));
      ColumnListLockstep(cols, k - 1, view);
      ColumnLockstep(cols[k - 1], view);
      CommaLockstep();
      ThenLockstep(column, tail);
      ThenLockstep(prefix, Then(column, tail));
    }
  }

  lemma AliasLockstep(state: AliasState)
    ensures Lockstep(AliasEmission(state))
  {
    if state.name.Some? {
      PathLockstep(TablePath(state.model));
      assert NoPercent("AS");
      LiteralLockstep(AS);
      ValueLockstep(Prim(VStr(state.name.value)));
      ThenLockstep(LiteralEmission(LiteralObj(AS)), ValueEmission(Prim(VStr(state.name.value))));
      ThenLockstep(ModelEmission(state.model), Then(LiteralEmission(LiteralObj(AS)), ValueEmission(Prim(VStr(state.name.value)))));
    }
  }

  /** An expression writes what its lhs writes and nothing more: its operator raises before anything else is written. */
  lemma ExpressionLockstep(lhs: Node, op: Operators.Operator, rhs: Node, view: AliasView)
    requires Known(ExprNode(lhs, op, rhs), view) && Lockstep(Emit(lhs, view))
    ensures Lockstep(Emit(ExprNode(lhs, op, rhs), view))
  {
    var rest := Then(LiteralEmission(OperatorArg(op)), if rhs.NoneObj? then Empty else Emit(rhs, view));
    assert Emit(ExprNode(lhs, op, rhs), view) == Then(Emit(lhs, view), rest);
    assert rest == Fail(TypeError);
    ThenLockstep(Emit(lhs, view), rest);
  }

  /** An ordered column writes its column's path before the ordering raises. */
  lemma OrderedColumnLockstep(oc: OrderedColumn, view: AliasView)
    requires Known(OrderedColumnNode(oc), view)
    ensures Lockstep(Emit(OrderedColumnNode(oc), view))
  {
    ColumnLockstep(oc.column, view);
    ThenLockstep(ColumnEmission(oc.column, view), Fail(TypeError));
  }

  /** The join keyword, then a right-hand side in step, is in step. */
  lemma JoinRightLockstep(kind: JoinType, rhs: Emission)
    requires Lockstep(rhs)
    ensures Lockstep(JoinRightEmission(kind, rhs))
  {
    JoinKeywordLockstep(kind);
    ThenLockstep(LiteralEmission(JoinTypeArg(kind)), rhs);
  }

  /** `ON`, then a condition in step, is in step. */
  lemma ConditionLockstep(condition: Emission)
    requires Lockstep(condition)
    ensures Lockstep(ConditionEmission(condition))
  {
    assert NoPercent("ON");
    LiteralLockstep(ON);
    ThenLockstep(LiteralEmission(LiteralObj(ON)), condition);
  }

  /** A join whose sides and condition are each in step is in step. */
  lemma JoinLockstep(lhs: Node, kind: JoinType, rhs: Node, on: Node, view: AliasView)
    requires Known(JoinNode(lhs, kind, rhs, on), view)
    requires Lockstep(Emit(lhs, view)) && Lockstep(Emit(rhs, view))
    requires !on.NoneObj? ==> Lockstep(Emit(on, view))
    ensures Lockstep(Emit(JoinNode(lhs, kind, rhs, on), view))
  {
    var right := JoinRightEmission(kind, Emit(rhs, view));
    var cond := if on.NoneObj? then Empty else ConditionEmission(Emit(on, view));
    assert Emit(JoinNode(lhs, kind, rhs, on), view) == Then(Emit(lhs, view), Then(right, cond));
    JoinRightLockstep(kind, Emit(rhs, view));
    if !on.NoneObj? {
      ConditionLockstep(Emit(on, view));
    }
    ThenLockstep(right, cond);
    ThenLockstep(Emit(lhs, view), Then(right, cond));
  }

  /**
   * Compiling any object writes exactly one `%s` per value it binds, also
   * when it stops with an exception part of the way through.
   */
  lemma {:induction false} EmitLockstep(n: Node, view: AliasView)
    requires Known(n, view)
    ensures Lockstep(Emit(n, view))
    decreases n
  {
    match n
    case Prim(_) => ValueLockstep(n);
    case NoneObj => ValueLockstep(n);
    case OtherObj => ValueLockstep(n);
    case TokenNode(_) =>
    case PathNode(segments) => PathLockstep(segments);
    case ExprNode(lhs, op, rhs) =>
      EmitLockstep(lhs, view);
      ExpressionLockstep(lhs, op, rhs, view);
    case ColumnNode(c) => ColumnLockstep(c, view);
    case ColumnSelectNode(cols) => ColumnListLockstep(cols, |cols|, view);
    case OrderedColumnNode(oc) => OrderedColumnLockstep(oc, view);
    case AliasNode(a) => AliasLockstep(view[a]);
    case JoinNode(lhs, kind, rhs, on) =>
      EmitLockstep(lhs, view);
      EmitLockstep(rhs, view);
      if !on.NoneObj? {
        EmitLockstep(on, view);
      }
      JoinLockstep(lhs, kind, rhs, on, view);
    case ModelNode(m) => PathLockstep(TablePath(m));
  }

  /**
   * The engine's invariant: when the text written so far holds one `%s`
   * per bound value, it still does after `sql(obj)` appends `obj`'s output.
   */
  lemma SqlKeepsLockstep(fragments: seq<string>, values: seq<SqlValue>, n: Node, view: AliasView)
    requires Known(n, view) && PlaceholderTotal(fragments) == |values| && Sealed(fragments)
    ensures PlaceholderTotal(fragments + Emit(n, view).frags) == |values + Emit(n, view).vals|
    ensures Sealed(fragments + Emit(n, view).frags)
    ensures PlaceholderCount(Concat(fragments + Emit(n, view).frags)) == |values + Emit(n, view).vals|
  {
    EmitLockstep(n, view);
    PlaceholderTotalAppend(fragments, Emit(n, view).frags);
    SealedAppend(fragments, Emit(n, view).frags);
    ConcatPlaceholders(fragments + Emit(n, view).frags);
  }
}
