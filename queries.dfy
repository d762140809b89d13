/**
 * Query state (dcorm/queries/query.py, dcorm/queries/select.py): the
 * WHERE clause folded with `&`, and a SELECT query's ordering, limit and
 * offset, each overwritten by its setter with a warning when a previous
 * setting is replaced.
 */
module Queries {
  import opened Outcomes
  import opened Values
  import opened Operators
  import opened Nodes
  import opened ExpressionBase
  import opened Fields
  import opened Inspection
  import Schema

  /** `where` applied to each condition in turn, starting from `True`. */
  function WhereFold(conditions: seq<Node>): (r: Node)
    requires forall i :: 0 <= i < |conditions| ==> Condition(conditions[i])
    ensures Condition(r)
  {
    if |conditions| == 0 then True
    else PyAnd(WhereFold(conditions[..|conditions| - 1]), conditions[|conditions| - 1])
  }

  /** One more `where` folds the new condition onto the clause so far. */
  lemma WhereFoldSnoc(conditions: seq<Node>, e: Node)
    requires forall i :: 0 <= i < |conditions| ==> Condition(conditions[i])
    requires Condition(e)
    ensures forall i :: 0 <= i < |conditions + [e]| ==> Condition((conditions + [e])[i])
    ensures WhereFold(conditions + [e]) == PyAnd(WhereFold(conditions), e)
  {
    assert (conditions + [e])[..|conditions|] == conditions;
  }

  /** The conditions other than `True`, in order. */
  function NonTrue(conditions: seq<Node>): (r: seq<Node>)
    ensures forall i :: 0 <= i < |r| ==> r[i] in conditions && r[i] != True
  {
    if |conditions| == 0 then []
    else
      var prefix := NonTrue(conditions[..|conditions| - 1]);
      var last := conditions[|conditions| - 1];
      if last == True then prefix else prefix + [last]
  }

  /** Expressions joined left-deep with AND: `((e1 AND e2) AND e3) ...`; none at all is `True`. */
  function AndChain(es: seq<Node>): (r: Node)
    requires forall i :: 0 <= i < |es| ==> IsExpressionBase(es[i])
    ensures |es| == 0 <==> r == True
    ensures |es| > 0 ==> IsExpressionBase(r)
  {
    if |es| == 0 then True
    else if |es| == 1 then assert IsExpressionBase(es[0]); es[0]
    else ExprNode(AndChain(es[..|es| - 1]), Operators.And, es[|es| - 1])
  }

  /**
   * The WHERE clause after a sequence of `where` calls: `False` once any
   * condition was `False`; otherwise the expressions given, `True`s
   * dropped, joined left-deep with AND, or `True` when there are none.
   */
  lemma WhereFoldShape(conditions: seq<Node>)
    requires forall i :: 0 <= i < |conditions| ==> Condition(conditions[i])
    ensures False in conditions ==> WhereFold(conditions) == False
    ensures False !in conditions ==>
      (forall i :: 0 <= i < |NonTrue(conditions)| ==> IsExpressionBase(NonTrue(conditions)[i]))
      && WhereFold(conditions) == AndChain(NonTrue(conditions))
  {
    if False in conditions {
      WhereFoldFalse(conditions);
    } else {
      WhereFoldChain(conditions);
    }
  }

  /** Once a condition is `False` the clause stays `False`. */
  lemma {:induction false} WhereFoldFalse(conditions: seq<Node>)
    requires forall i :: 0 <= i < |conditions| ==> Condition(conditions[i])
    requires False in conditions
    ensures WhereFold(conditions) == False
    decreases |conditions|
  {
    var prefix, last := conditions[..|conditions| - 1], conditions[|conditions| - 1];
    assert conditions == prefix + [last];
    if False in prefix {
      WhereFoldFalse(prefix);
      PyAndUnits(last);
    } else {
      PyAndUnits(WhereFold(prefix));
    }
  }

  /** Without a `False`, the clause is the AND chain of the conditions other than `True`. */
  lemma {:induction false} WhereFoldChain(conditions: seq<Node>)
    requires forall i :: 0 <= i < |conditions| ==> Condition(conditions[i])
    requires False !in conditions
    ensures forall i :: 0 <= i < |NonTrue(conditions)| ==> IsExpressionBase(NonTrue(conditions)[i])
    ensures WhereFold(conditions) == AndChain(NonTrue(conditions))
    decreases |conditions|
  {
    if |conditions| > 0 {
      var prefix, last := conditions[..|conditions| - 1], conditions[|conditions| - 1];
      assert conditions == prefix + [last];
      WhereFoldChain(prefix);
      var es := NonTrue(prefix);
      if last == True {
        PyAndUnits(WhereFold(prefix));
      } else {
        assert IsExpressionBase(last);
        assert NonTrue(conditions) == es + [last];
        AndChainSnoc(es, last);
      }
    }
  }

  /** One more expression ANDed onto a chain extends it on the right. */
  lemma AndChainSnoc(es: seq<Node>, e: Node)
    requires forall i :: 0 <= i < |es| ==> IsExpressionBase(es[i])
    requires IsExpressionBase(e)
    ensures forall i :: 0 <= i < |es + [e]| ==> IsExpressionBase((es + [e])[i])
    ensures AndChain(es + [e]) == PyAnd(AndChain(es), e)
  {
    assert (es + [e])[..|es|] == es;
    if |es| == 0 {
      PyAndUnits(e);
    } else {
      assert PyAnd(AndChain(es), e) == Apply(Dunder.And, AndChain(es), e);
    }
  }

  /** A query: its operation and its WHERE clause. */
  class Query {
    const operation: Operation
    /** `_where`: a bool or an expression. */
    var where: Node
    /** The conditions passed to `where` so far. */
    ghost var conditions: seq<Node>

    ghost predicate Valid()
      reads this
    {
      (forall i :: 0 <= i < |conditions| ==> Condition(conditions[i]))
      && where == WhereFold(conditions)
    }

    constructor (operation: Operation)
      ensures Valid() && this.operation == operation && where == True && conditions == []
    {
      this.operation := operation;
      where := True;
      conditions := [];
    }

    /** `where(e)`: `_where &= e`; the same query is returned. */
    method Where(e: Node) returns (q: Query)
      requires Valid() && Condition(e)
      modifies this
      ensures Valid() && q == this
      ensures where == PyAnd(old(where), e) && conditions == old(conditions) + [e]
    {
      WhereFoldSnoc(conditions, e);
      where := PyAnd(where, e);
      conditions := conditions + [e];
      return this;
    }
  }

  /** An item of `order_by`: a field, or a field already ordered. */
  datatype OrderItem = PlainField(field: Field) | Ordered(ordered: OrderedField)

  /** The new ordering: fields become ascending, ordered fields are kept, in the order given. */
  function OrderingOf(items: seq<OrderItem>): (r: seq<OrderedField>)
    ensures |r| == |items|
    ensures forall i :: 0 <= i < |items| ==> r[i] == (if items[i].PlainField? then items[i].field.Asc() else items[i].ordered)
  {
    seq(|items|, i requires 0 <= i < |items| => if items[i].PlainField? then items[i].field.Asc() else items[i].ordered)
  }

  /** Ordering by an ordering again changes nothing. */
  lemma OrderingIdempotent(items: seq<OrderItem>)
    ensures var r := OrderingOf(items);
      OrderingOf(seq(|r|, i requires 0 <= i < |r| => Ordered(r[i]))) == r
  {
  }

  /** `_offset`: only annotated in the constructor, so there is no attribute until one is assigned. */
  datatype OffsetSlot = Unassigned | Assigned(value: int)

  /** The warnings `warn` is called with. */
  datatype Warning = OrderingOverridden(previous: seq<OrderedField>) | LimitOverridden(previousLimit: int) | OffsetOverridden(previousOffset: int)

  /** A SELECT query; the Query it extends is its `query` part. */
  class SelectQuery {
    const query: Query
    var orderBy: seq<OrderedField>
    var limit: Option<int>
    var offset: OffsetSlot
    /** The warnings issued so far, in order. */
    ghost var warnings: seq<Warning>

    constructor ()
      ensures fresh(query) && query.Valid() && query.operation == Select && query.where == True
      ensures orderBy == [] && limit == None && offset == Unassigned && warnings == []
    {
      query := new Query(Select);
      orderBy := [];
      limit := None;
      offset := Unassigned;
      warnings := [];
    }

    /** `order_by(*items)`: replaces the ordering, warning when there was one. */
    method OrderBy(items: seq<OrderItem>) returns (q: SelectQuery)
      modifies this
      ensures q == this && orderBy == OrderingOf(items)
      ensures warnings == old(warnings) + if old(orderBy) != [] then [OrderingOverridden(old(orderBy))] else []
      ensures limit == old(limit) && offset == old(offset)
    {
      if orderBy != [] {
        warnings := warnings + [OrderingOverridden(orderBy)];
      }
      orderBy := OrderingOf(items);
      return this;
    }

    /** `limit(n)`: replaces the limit, warning when there was one; returns None. */
    method Limit(n: int) returns (r: Option<SelectQuery>)
      modifies this
      ensures r == None && limit == Some(n)
      ensures warnings == old(warnings) + if old(limit).Some? then [LimitOverridden(old(limit).value)] else []
      ensures orderBy == old(orderBy) && offset == old(offset)
    {
      if limit.Some? {
        warnings := warnings + [LimitOverridden(limit.value)];
      }
      limit := Some(n);
      return None;
    }

    /**
     * `offset(n)`: reading the previous offset fails with AttributeError
     * while none was ever assigned, and then nothing changes; otherwise it
     * replaces the offset with a warning. Returns None.
     */
    method Offset(n: int) returns (err: Option<Error>)
      modifies this
      ensures old(offset).Unassigned? ==> err == Some(AttributeError) && offset == Unassigned && warnings == old(warnings)
      ensures old(offset).Assigned? ==> err.None? && offset == Assigned(n) && warnings == old(warnings) + [OffsetOverridden(old(offset).value)]
      ensures orderBy == old(orderBy) && limit == old(limit)
    {
      if offset.Unassigned? {
        return Some(AttributeError);
      }
      warnings := warnings + [OffsetOverridden(offset.value)];
      offset := Assigned(n);
      err := None;
    }
  }

  /** What a SELECT may list: a field, a model class, a record, or something else. */
  datatype SelectItem = FieldItem(field: Field) | ModelItem(model: Schema.ModelClass) | RecordItem(record: Record) | OtherItem

  /** What `extract_fields` yields: a field given as such, or a field of a record. */
  datatype Selected = GivenField(field: Field) | RecordField(bound: BoundField)

  /**
   * `extract_fields(item)`: a field yields itself, a record its fields. A
   * model class is not an instance of `Model`, so it is a TypeError like
   * anything else.
   */
  function ExtractFields(item: SelectItem): (r: Result<seq<Selected>, Error>)
    ensures item.FieldItem? ==> r == Ok([GivenField(item.field)])
    ensures item.RecordItem? ==>
      (r.Ok? && |r.value| == |item.record.model.fields|
       && forall i :: 0 <= i < |r.value| ==> r.value[i] == RecordField(RecordFields(item.record)[i]))
    ensures item.ModelItem? || item.OtherItem? <==> r == Err(TypeError)
  {
    match item
    case FieldItem(f) => Ok([GivenField(f)])
    case RecordItem(record) =>
      var fs := Inspection.Fields(Instance(record)).value;
      assert fs == RecordFields(record);
      Ok(seq(|fs|, i requires 0 <= i < |fs| => RecordField(fs[i])))
    case ModelItem(_) => Err(TypeError)
    case OtherItem => Err(TypeError)
  }
}
