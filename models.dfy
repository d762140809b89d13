/**
 * Declaring a model (dcorm/model.py): `__init_subclass__` settles the
 * table name and the database and installs one `Column` per declared
 * field on the class; the metaclass gives the table path and compiles
 * it; `alias` makes an alias of the model.
 */
module Models {
  import opened Outcomes
  import opened Values
  import opened Schema
  import opened Nodes
  import opened Text
  import opened Compiler
  import Paths

  /**
   * The class a declaration creates. `table_name or name.lower()`: a missing
   * or empty table name falls back to the lower-cased class name. Without a
   * `database` argument the class keeps the database it inherits.
   */
  function Declare(className: string, fields: seq<FieldDecl>, database: Option<Database>, tableName: Option<string>, inherited: Option<Database>): (m: ModelClass)
    ensures m.className == className && m.fields == fields
    ensures tableName.Some? && tableName.value != "" ==> m.tableName == tableName.value
    ensures tableName.None? || tableName.value == "" ==> m.tableName == Lower(className)
    ensures database.Some? ==> m.database == database
    ensures database.None? ==> m.database == inherited
  {
    var table := if tableName.Some? && tableName.value != "" then tableName.value else Lower(className);
    ModelClass(className, table, if database.Some? then database else inherited, fields)
  }

  /** A defaulted table name is the class name with no upper-case letter left, and is already its own default. */
  lemma DefaultTableName(className: string, fields: seq<FieldDecl>, database: Option<Database>, inherited: Option<Database>)
    ensures var m := Declare(className, fields, database, None, inherited);
      && |m.tableName| == |className|
      && (forall i :: 0 <= i < |className| ==> !('A' <= m.tableName[i] <= 'Z'))
      && Declare(m.tableName, fields, database, None, inherited).tableName == m.tableName
  {
    LowerIdempotent(className);
  }

  /** Compiling a model class writes `%s` for its table, or `%s.%s` for database and table, and binds those. */
  lemma ModelCompiles(m: ModelClass, view: AliasView)
    ensures Emit(ModelNode(m), view).err.None?
    ensures Emit(ModelNode(m), view).vals == TablePath(m)
    ensures Emit(ModelNode(m), view).frags == [if m.database.Some? then "%s.%s" else "%s"]
  {
    assert Emit(ModelNode(m), view) == PathEmission(TablePath(m));
    assert Paths.Repeat("%s", 1) == ["%s"];
    assert Paths.Template(1) == "%s";
    Paths.TemplateUnfold(1);
    assert Paths.Template(2) == "%s.%s";
  }

  /** A column on a model's table has the table path with the column name appended; the table path is unchanged. */
  lemma ModelColumnPath(m: ModelClass, f: FieldDecl, view: AliasView)
    ensures ColumnPath(Column(ModelTable(m), f), view) == TablePath(m) + [VStr(ColumnName(f))]
    ensures |ColumnPath(Column(ModelTable(m), f), view)| == if m.database.Some? then 3 else 2
  {
  }

  /** A dataclass's fields have distinct names. */
  predicate DistinctNames(fields: seq<FieldDecl>) {
    forall i, j :: 0 <= i < |fields| && 0 <= j < |fields| && i != j ==> fields[i].name != fields[j].name
  }

  /** The class attributes set by the first `k` iterations of the column loop. */
  function ColumnsPrefix(m: ModelClass, k: nat): map<string, Attribute>
    requires k <= |m.fields|
  {
    if k == 0 then map[]
    else ColumnsPrefix(m, k - 1)[m.fields[k - 1].name := ColumnAttr(Column(ModelTable(m), m.fields[k - 1]))]
  }

  /** Every field met in the first `k` iterations has its own column under its name. */
  lemma {:induction false} ColumnsPrefixLookup(m: ModelClass, k: nat, i: nat)
    requires DistinctNames(m.fields) && i < k <= |m.fields|
    ensures m.fields[i].name in ColumnsPrefix(m, k)
    ensures ColumnsPrefix(m, k)[m.fields[i].name] == ColumnAttr(Column(ModelTable(m), m.fields[i]))
    decreases k
  {
    if i < k - 1 {
      ColumnsPrefixLookup(m, k - 1, i);
    }
  }

  /** Only declared fields' names are set: each key belongs to a field met so far. */
  lemma {:induction false} ColumnsPrefixKey(m: ModelClass, k: nat, name: string) returns (i: nat)
    requires k <= |m.fields| && name in ColumnsPrefix(m, k)
    ensures i < k && m.fields[i].name == name
    decreases k
  {
    if m.fields[k - 1].name == name {
      i := k - 1;
    } else {
      i := ColumnsPrefixKey(m, k - 1, name);
    }
  }

  /** The attributes of a model class that hold a column, by name. */
  class ModelNamespace {
    var attributes: map<string, Attribute>

    constructor (attributes: map<string, Attribute>)
      ensures this.attributes == attributes
    {
      this.attributes := attributes;
    }

    /**
     * The column loop of `__init_subclass__`: each declared field's name is
     * set to a `Column` of the class and that field, in declaration order.
     */
    method InstallColumns(m: ModelClass)
      modifies this
      ensures attributes == old(attributes) + ColumnsPrefix(m, |m.fields|)
    {
      ghost var before := attributes;
      for k := 0 to |m.fields|
        invariant attributes == before + ColumnsPrefix(m, k)
      {
        attributes := attributes[m.fields[k].name := ColumnAttr(Column(ModelTable(m), m.fields[k]))];
      }
    }
  }

  /** After the column loop, each field's name reads that field's column, bound to the class and not yet set. */
  lemma InstalledColumns(m: ModelClass, before: map<string, Attribute>, i: nat)
    requires DistinctNames(m.fields) && i < |m.fields|
    ensures var attrs := before + ColumnsPrefix(m, |m.fields|);
      && m.fields[i].name in attrs
      && attrs[m.fields[i].name] == ColumnAttr(Column(ModelTable(m), m.fields[i], NotSet))
  {
    ColumnsPrefixLookup(m, |m.fields|, i);
  }

  /** The loop leaves every other attribute as it was. */
  lemma OtherAttributesKept(m: ModelClass, before: map<string, Attribute>, name: string)
    requires name in before && forall i :: 0 <= i < |m.fields| ==> m.fields[i].name != name
    ensures var attrs := before + ColumnsPrefix(m, |m.fields|);
      name in attrs && attrs[name] == before[name]
  {
    if name in ColumnsPrefix(m, |m.fields|) {
      var i := ColumnsPrefixKey(m, |m.fields|, name);
    }
  }

  /** `Model.alias(name)`: a new alias of the class, named or not. */
  method AliasOf(m: ModelClass, name: Option<string> := None) returns (a: Alias)
    ensures fresh(a) && a.model == m && a.name == name
  {
    a := new Alias(m, name);
  }
}
