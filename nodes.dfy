/**
 * The Python objects the engine is asked to compile, as one tree type.
 * Each variant is an object with a compile hook (`__sql__`), or a plain
 * value the engine binds as a parameter.
 */
module Nodes {
  import opened Values
  import opened Operators
  import opened Schema
  import opened Literals

  /** The JOIN kinds (dcorm/joins.py); each member's value is a binary literal. */
  datatype JoinType = Inner | LeftOuter | RightOuter | Full | FullOuter | Cross | Natural | Lateral | LeftLateral

  function JoinKeyword(k: JoinType): string {
    match k
    case Inner => "INNER JOIN"
    case LeftOuter => "LEFT OUTER JOIN"
    case RightOuter => "RIGHT OUTER JOIN"
    case Full => "FULL JOIN"
    case FullOuter => "FULL OUTER JOIN"
    case Cross => "CROSS JOIN"
    case Natural => "NATURAL JOIN"
    case Lateral => "LATERAL"
    case LeftLateral => "LEFT JOIN LATERAL"
  }

  function JoinLiteral(k: JoinType): (l: Literal)
    ensures l == Binary(JoinKeyword(k))
  {
    Binary(JoinKeyword(k))
  }

  datatype Node =
      /** A bool, int, float or str. */
    | Prim(value: SqlValue)
      /** Python's `None`. */
    | NoneObj
      /** Any other object without a compile hook. */
    | OtherObj
      /** A member of Operator, Ordering or Operation: its `__sql__` is text, not a hook. */
    | TokenNode(token: string)
      /** A `Path` of segments (dcorm/path.py). */
    | PathNode(segments: seq<SqlValue>)
      /** An `Expression(lhs, operator, rhs)`; a missing rhs is `NoneObj`. */
    | ExprNode(lhs: Node, op: Operator, rhs: Node)
    | ColumnNode(column: Column)
      /** A `ColumnSelect` list of columns. */
    | ColumnSelectNode(columns: seq<Column>)
    | OrderedColumnNode(ordered: OrderedColumn)
    | AliasNode(alias: Alias)
      /** A `Join(lhs, type, rhs, on)`; a missing `on` is `NoneObj`. */
    | JoinNode(lhs: Node, kind: JoinType, rhs: Node, on: Node)
      /** A model class: its hook compiles its table path. */
    | ModelNode(model: ModelClass)

  const True: Node := Prim(VBool(true))
  const False: Node := Prim(VBool(false))

  predicate IsBool(n: Node) {
    n.Prim? && n.value.VBool?
  }

  /** Instances of the ExpressionBase subclasses of the core: Expression and Column. */
  predicate IsExpressionBase(n: Node) {
    n.ExprNode? || n.ColumnNode?
  }

  /** Every alias the columns read through has a state in the view. */
  predicate ColumnsKnown(cols: seq<Column>, view: AliasView) {
    forall i :: 0 <= i < |cols| ==> TableKnown(cols[i].table, view)
  }

  /** Every alias whose fields compiling the node reads has a state in the view. */
  predicate Known(n: Node, view: AliasView) {
    match n
    case ExprNode(lhs, _, rhs) => Known(lhs, view) && Known(rhs, view)
    case ColumnNode(c) => TableKnown(c.table, view)
    case ColumnSelectNode(cols) => ColumnsKnown(cols, view)
    case OrderedColumnNode(oc) => TableKnown(oc.column.table, view)
    case AliasNode(a) => a in view
    case JoinNode(lhs, _, rhs, on) => Known(lhs, view) && Known(rhs, view) && Known(on, view)
    case _ => true
  }
}
