/**
 * The older field accessors (dcorm/field.py): a field bound to a table,
 * and a field with an ordering whose `__sql__` renders through the
 * printing serializer.
 */
module Fields {
  import opened Outcomes
  import opened Values
  import opened Operators
  import opened LegacySql
  import Schema

  /** The `NOT_SET` sentinel: a plain object. */
  const NotSetObj: PyObj := PyOther

  /** A field bound to a table, with a value that defaults to `NOT_SET`. */
  datatype Field = Field(table: PyObj, field: Schema.FieldDecl, value: PyObj := NotSetObj) {
    /** `asc()`. */
    function Asc(): (o: OrderedField)
      ensures o.field == this && o.ordering == Ordering.Asc
    {
      OrderedField(this, Ordering.Asc)
    }

    /** `desc()`. */
    function Desc(): (o: OrderedField)
      ensures o.field == this && o.ordering == Ordering.Desc
    {
      OrderedField(this, Ordering.Desc)
    }
  }

  datatype OrderedField = OrderedField(field: Field, ordering: Ordering)

  /**
   * A field as `sql` sees it: a named tuple, so a container, of its table,
   * its `dataclasses.Field` (an object `sql` does not know) and its value.
   */
  function AsObj(f: Field): PyObj {
    Container([f.table, PyOther, f.value])
  }

  /** An ordering as `sql` sees it: its `__sql__` property is its value. */
  function OrderingObj(o: Ordering): PyObj {
    WithSql(SqlText(OrderingToken(o)))
  }

  /** How an f-string shows a rendering: text as it is, anything else by its `str()`. */
  function Shown(r: Rendered): string {
    match r
    case Text(s) => s
    case NonText(shown) => shown
  }

  /** `f'{sql(x)} {sql(ordering)}'`: `x`'s rendering, one space, the ordering's. */
  function OrderedSql(x: PyObj, o: Ordering): Result<string, Error> {
    match Sql(x)
    case Err(e) => Err(e)
    case Ok(a) =>
      match Sql(OrderingObj(o))
      case Err(e) => Err(e)
      case Ok(b) => Ok(Shown(a) + " " + Shown(b))
  }

  /** `OrderedField.__sql__`. */
  function OrderedFieldSql(of: OrderedField): (r: Result<string, Error>)
    ensures r.Err? ==> r.error == TypeError
  {
    OnlyTypeError(AsObj(of.field));
    OrderedSql(AsObj(of.field), of.ordering)
  }

  /** An ordering renders as `ASC` or `DESC`. */
  lemma OrderingRenders(o: Ordering)
    ensures Sql(OrderingObj(o)) == Ok(Text(if o == Ordering.Asc then "ASC" else "DESC"))
  {
  }

  /** Whatever renders as text is followed by one space and the ordering's keyword. */
  lemma OrderedSqlShape(x: PyObj, o: Ordering, t: string)
    requires Sql(x) == Ok(Text(t))
    ensures OrderedSql(x, o) == Ok(t + " " + (if o == Ordering.Asc then "ASC" else "DESC"))
  {
  }

  /**
   * As written, rendering an ordered field always raises TypeError: the
   * field is a tuple holding a `dataclasses.Field`, which `sql` cannot render.
   */
  lemma OrderedFieldRaises(of: OrderedField)
    ensures OrderedFieldSql(of) == Err(TypeError)
  {
    Unrenderable([of.field.table, PyOther, of.field.value], 1);
  }
}
