/**
 * Table and field identifiers (dcorm/nodes.py, repeated in dcorm/sql.py):
 * lists of name segments, where a table's field identifier is the table's
 * segments followed by the field name.
 */
module Identifiers {
  /** `TableIdentifier(*path)`: the segments in the order given. */
  datatype TableIdentifier = TableIdentifier(segments: seq<string>)

  /** `FieldIdentifier(*path)`: the segments in the order given. */
  datatype FieldIdentifier = FieldIdentifier(segments: seq<string>)

  /** `table.field(name)`: a new identifier; the table identifier, a value, is left as it was. */
  function FieldOf(table: TableIdentifier, name: string): (f: FieldIdentifier)
    ensures |f.segments| == |table.segments| + 1
    ensures f.segments[..|table.segments|] == table.segments
    ensures f.segments[|table.segments|] == name
  {
    FieldIdentifier(table.segments + [name])
  }

  /** The table a field identifier of at least one segment belongs to, and its field name. */
  function Split(f: FieldIdentifier): (r: (TableIdentifier, string))
    requires |f.segments| >= 1
  {
    (TableIdentifier(f.segments[..|f.segments| - 1]), f.segments[|f.segments| - 1])
  }

  /** Splitting recovers the table and the name, and a non-empty field identifier is rebuilt from its parts. */
  lemma SplitFieldOf(table: TableIdentifier, name: string, f: FieldIdentifier)
    requires |f.segments| >= 1
    ensures Split(FieldOf(table, name)) == (table, name)
    ensures FieldOf(Split(f).0, Split(f).1) == f
  {
    assert f.segments[..|f.segments| - 1] + [f.segments[|f.segments| - 1]] == f.segments;
  }

  /** Distinct tables or names give distinct field identifiers. */
  lemma FieldOfInjective(t1: TableIdentifier, n1: string, t2: TableIdentifier, n2: string)
    ensures FieldOf(t1, n1) == FieldOf(t2, n2) ==> t1 == t2 && n1 == n2
  {
    if FieldOf(t1, n1) == FieldOf(t2, n2) {
      SplitFieldOf(t1, n1, FieldOf(t1, n1));
      SplitFieldOf(t2, n2, FieldOf(t2, n2));
    }
  }
}
