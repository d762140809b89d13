/**
 * Model classes, their columns and aliases: the entities a query is built
 * from (dcorm/model.py, dcorm/column.py, dcorm/alias.py).
 */
module Schema {
  import opened Outcomes
  import opened Values
  import opened Operators

  /** A dataclass field declaration: its attribute name and its metadata. */
  datatype FieldDecl = FieldDecl(name: string, metadata: map<string, string>)

  /**
   * The value slot of a column or field: the `NOT_SET` sentinel, a value
   * read from a record, or the class-level `Column` that `getattr` falls
   * back to when a record has no instance attribute of that name.
   */
  datatype FieldValue = NotSet | Bound(value: SqlValue) | ClassAttribute

  /** A model class after `__init_subclass__`: its table name, database and fields. */
  datatype ModelClass = ModelClass(
    className: string,
    tableName: string,
    database: Option<Database>,
    fields: seq<FieldDecl>)

  /** A model alias. `__getattr__` may overwrite the model of a nested alias, so it is mutable. */
  class Alias {
    var model: ModelClass
    var name: Option<string>

    constructor (model: ModelClass, name: Option<string> := None)
      ensures this.model == model && this.name == name
    {
      this.model := model;
      this.name := name;
    }

    /**
     * `alias.attr`, given `found == getattr(alias.model, attr)`: a column is
     * rebound to the alias; an alias found on the model gets this alias's
     * model; anything else passes through unchanged.
     */
    method GetAttr(found: Attribute) returns (r: Attribute)
      modifies if found.AliasAttr? then {found.alias} else {}
      ensures found.ColumnAttr? ==>
        r == ColumnAttr(Column(AliasTable(this), found.column.field, found.column.value))
      ensures found.AliasAttr? ==>
        r == found && found.alias.model == old(model) && found.alias.name == old(found.alias.name)
      ensures found.OtherAttr? ==> r == found
    {
      match found
      case ColumnAttr(c) =>
        r := ColumnAttr(Column(AliasTable(this), c.field, c.value));
      case AliasAttr(a) =>
        a.model := model;
        r := found;
      case OtherAttr =>
        r := found;
    }
  }

  /** The table a column is bound to: a model class, or an alias of one. */
  datatype TableRef = ModelTable(model: ModelClass) | AliasTable(alias: Alias)

  /** A column bound to a table (dcorm/column.py). */
  datatype Column = Column(table: TableRef, field: FieldDecl, value: FieldValue := NotSet)

  datatype OrderedColumn = OrderedColumn(column: Column, ordering: Ordering)

  /** What `getattr` finds on a model class. */
  datatype Attribute = ColumnAttr(column: Column) | AliasAttr(alias: Alias) | OtherAttr

  /** The alias a table reference reads through, if any, has a state in the view. */
  predicate TableKnown(t: TableRef, view: AliasView) {
    t.AliasTable? ==> t.alias in view
  }

  /** The fields of an alias that compiling reads. */
  datatype AliasState = AliasState(model: ModelClass, name: Option<string>)

  /**
   * The state of the aliases while a query is compiled. Compiling never
   * changes an alias, so the compile specifications read this snapshot
   * instead of the heap.
   */
  type AliasView = map<Alias, AliasState>

  function StateOf(a: Alias): AliasState
    reads a
  {
    AliasState(a.model, a.name)
  }

  /** The view holds the current state of every alias it names. */
  predicate Current(view: AliasView)
    reads view.Keys
  {
    forall a :: a in view ==> view[a] == StateOf(a)
  }

  /** `__table_path__`: the table name, preceded by the database when one is set. */
  function TablePath(m: ModelClass): (p: seq<SqlValue>)
    ensures |p| == if m.database.Some? then 2 else 1
    ensures p[|p| - 1] == VStr(m.tableName)
    ensures m.database.Some? ==> p[0] == VDatabase(m.database.value)
  {
    match m.database
    case None => [VStr(m.tableName)]
    case Some(db) => [VDatabase(db), VStr(m.tableName)]
  }

  /**
   * The path of a table reference. An alias has no `__table_path__` of its
   * own: `__getattr__` delegates it to the aliased model, so the alias name
   * does not appear.
   */
  function TablePathOf(t: TableRef, view: AliasView): (p: seq<SqlValue>)
    requires TableKnown(t, view)
    ensures t.AliasTable? ==> p == TablePath(view[t.alias].model)
    ensures t.ModelTable? ==> p == TablePath(t.model)
  {
    match t
    case ModelTable(m) => TablePath(m)
    case AliasTable(a) => TablePath(view[a].model)
  }

  /** A column's name: the `column_name` metadata entry, else the field name. */
  function ColumnName(f: FieldDecl): (name: string)
    ensures "column_name" in f.metadata ==> name == f.metadata["column_name"]
    ensures "column_name" !in f.metadata ==> name == f.name
  {
    if "column_name" in f.metadata then f.metadata["column_name"] else f.name
  }

  /** A column's path: its table's path with the column name appended. */
  function ColumnPath(c: Column, view: AliasView): (p: seq<SqlValue>)
    requires TableKnown(c.table, view)
    ensures |p| == |TablePathOf(c.table, view)| + 1
    ensures p[..|p| - 1] == TablePathOf(c.table, view)
    ensures p[|p| - 1] == VStr(ColumnName(c.field))
  {
    TablePathOf(c.table, view) + [VStr(ColumnName(c.field))]
  }

  function Asc(c: Column): (o: OrderedColumn)
    ensures o.column == c && o.ordering == Ordering.Asc
  {
    OrderedColumn(c, Ordering.Asc)
  }

  function Desc(c: Column): (o: OrderedColumn)
    ensures o.column == c && o.ordering == Ordering.Desc
  {
    OrderedColumn(c, Ordering.Desc)
  }
}
