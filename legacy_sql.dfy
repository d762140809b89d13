/**
 * The older printing serializer `sql(obj)` (dcorm/sql.py): renders a
 * Python object as SQL text, checking `None` first, then an `__sql__`
 * attribute, then str, bool, int and containers, recursively.
 */
module LegacySql {
  import opened Outcomes
  import opened Values
  import opened Text

  /** The value of an object's `__sql__` attribute: a string, or anything else (such as a bound method). */
  datatype SqlAttribute = SqlText(text: string) | SqlObject(shown: string)

  /** The objects `sql` tells apart. */
  datatype PyObj =
    | PyNone
      /** An object that has an `__sql__` attribute. */
    | WithSql(attribute: SqlAttribute)
    | PyStr(s: string)
    | PyBool(b: bool)
    | PyInt(i: int)
      /** A list, tuple, set, dict, generator or other container of `CONTAINERS`. */
    | Container(items: seq<PyObj>)
      /** Anything else without an `__sql__` attribute. */
    | PyOther

  /** What `sql` returns: text, or the non-string value of an `__sql__` attribute together with its `str()`. */
  datatype Rendered = Text(s: string) | NonText(shown: string)

  /** The text of rendered items. */
  function Texts(rs: seq<Rendered>): (ts: seq<string>)
    requires forall i :: 0 <= i < |rs| ==> rs[i].Text?
    ensures |ts| == |rs| && forall i :: 0 <= i < |rs| ==> ts[i] == rs[i].s
  {
    seq(|rs|, i requires 0 <= i < |rs| => rs[i].s)
  }

  predicate AllText(rs: seq<Rendered>) {
    forall i :: 0 <= i < |rs| ==> rs[i].Text?
  }

  /** `sql(obj)`. */
  function Sql(obj: PyObj): (r: Result<Rendered, Error>)
    decreases obj, 1
    ensures r.Ok? && r.value.NonText? ==> obj.WithSql?
  {
    match obj
    case PyNone => Ok(Text("NULL"))
    case WithSql(a) => Ok(if a.SqlText? then Text(a.text) else NonText(a.shown))
    case PyStr(s) => Ok(Text(s))
    case PyBool(b) => Ok(Text(if b then "1" else "0"))
    case PyInt(i) => Ok(Text(IntToString(i)))
    case Container(items) =>
      (match SqlAll(items)
       case Err(e) => Err(e)
       case Ok(rs) => if AllText(rs) then Ok(Text("(" + JoinWith(", ", Texts(rs)) + ")")) else Err(TypeError))
    case PyOther => Err(TypeError)
  }

  /**
   * The generator `sql(item) for item in obj` as `str.join` consumes it:
   * every item is rendered, left to right, before any is joined, so the
   * first exception stops it.
   */
  function SqlAll(items: seq<PyObj>): (r: Result<seq<Rendered>, Error>)
    decreases items, 0
    ensures r.Ok? ==> |r.value| == |items|
  {
    if |items| == 0 then Ok([])
    else
      match SqlAll(items[..|items| - 1])
      case Err(e) => Err(e)
      case Ok(rs) =>
        match Sql(items[|items| - 1])
        case Err(e) => Err(e)
        case Ok(last) => Ok(rs + [last])
  }

  /** `None` is NULL, whatever else is said of it. */
  lemma NoneIsNull()
    ensures Sql(PyNone) == Ok(Text("NULL"))
  {
  }

  /** A bool is checked before int: it renders as the int it equals, `1` or `0`. */
  lemma BoolAsInt(b: bool)
    ensures Sql(PyBool(b)) == Sql(PyInt(if b then 1 else 0))
    ensures Sql(PyBool(b)) == Ok(Text(if b then "1" else "0"))
  {
    assert IntToString(1) == NatToString(1) == "1";
    assert IntToString(0) == NatToString(0) == "0";
  }

  /** An int renders as its decimal string, which reads back as the same int. */
  lemma IntRoundTrip(i: int)
    ensures Sql(PyInt(i)).Ok? && Sql(PyInt(i)).value.Text?
    ensures ParseInt(Sql(PyInt(i)).value.s) == Some(i)
  {
    ParseIntOfIntToString(i);
  }

  /** Rendering every item succeeds exactly when each item renders on its own; the first failure is the error. */
  lemma {:induction false} SqlAllOk(items: seq<PyObj>)
    ensures SqlAll(items).Ok? <==> forall i :: 0 <= i < |items| ==> Sql(items[i]).Ok?
    ensures SqlAll(items).Ok? ==> forall i :: 0 <= i < |items| ==> SqlAll(items).value[i] == Sql(items[i]).value
    decreases |items|
  {
    if |items| > 0 {
      var prefix := items[..|items| - 1];
      SqlAllOk(prefix);
      assert forall i :: 0 <= i < |prefix| ==> items[i] == prefix[i];
    }
  }

  /**
   * A container renders as `(` + its items' texts joined by `, ` + `)`,
   * exactly when every item renders as text; otherwise it raises.
   */
  lemma ContainerText(items: seq<PyObj>)
    ensures Sql(Container(items)).Ok? <==> forall i :: 0 <= i < |items| ==> Sql(items[i]).Ok? && Sql(items[i]).value.Text?
    ensures Sql(Container(items)).Ok? ==>
      Sql(Container(items)).value == Text("(" + JoinWith(", ", Texts(SqlAll(items).value)) + ")")
  {
    SqlAllOk(items);
  }

  /** An empty container renders as `()`. */
  lemma EmptyContainer()
    ensures Sql(Container([])) == Ok(Text("()"))
  {
    assert SqlAll([]) == Ok([]);
    assert Texts([]) == [];
    assert JoinWith(", ", []) == "";
    assert "(" + "" + ")" == "()";
  }

  /** A container of one item renders as that item's text in parentheses. */
  lemma SingletonContainer(item: PyObj)
    requires Sql(item).Ok? && Sql(item).value.Text?
    ensures Sql(Container([item])) == Ok(Text("(" + Sql(item).value.s + ")"))
  {
    assert [item][..0] == [] && [item][0] == item;
    assert SqlAll([]) == Ok([]);
    assert SqlAll([item]) == Ok([] + [Sql(item).value]);
    var rs := SqlAll([item]).value;
    assert rs == [Sql(item).value];
    assert Texts(rs) == [Sql(item).value.s];
  }

  /** An object `sql` cannot render raises TypeError, and so does any container holding one. */
  lemma Unrenderable(items: seq<PyObj>, k: nat)
    requires k < |items| && items[k] == PyOther
    ensures Sql(PyOther) == Err(TypeError)
    ensures Sql(Container(items)) == Err(TypeError)
  {
    SqlAllOk(items);
    OnlyTypeError(Container(items));
  }

  /** The only exception `sql` raises is TypeError. */
  lemma {:induction false} OnlyTypeError(obj: PyObj)
    ensures Sql(obj).Err? ==> Sql(obj).error == TypeError
    decreases obj, 1
  {
    if obj.Container? {
      OnlyTypeErrorAll(obj.items);
    }
  }

  lemma {:induction false} OnlyTypeErrorAll(items: seq<PyObj>)
    ensures SqlAll(items).Err? ==> SqlAll(items).error == TypeError
    decreases items, 0
  {
    if |items| > 0 {
      OnlyTypeErrorAll(items[..|items| - 1]);
      OnlyTypeError(items[|items| - 1]);
    }
  }
}
