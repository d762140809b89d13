/**
 * Dataclass inspection (dcorm/inspection.py): the fields of a model
 * class, or of one of its records, each bound to the model.
 */
module Inspection {
  import opened Outcomes
  import opened Values
  import opened Schema

  /** A field bound to a model, with a value that defaults to `NOT_SET`. */
  datatype BoundField = BoundField(model: ModelClass, field: FieldDecl, value: FieldValue := NotSet)

  /** An instance of a model class, with the instance attributes it holds. */
  datatype Record = Record(model: ModelClass, attributes: map<string, SqlValue>)

  /** What `fields` may be given. */
  datatype Inspectable = ClassObject(model: ModelClass) | Instance(record: Record) | OtherObject

  /** `model_fields`: one field per declared field, in declaration order, with no value. */
  function ModelFields(m: ModelClass): (r: seq<BoundField>)
    ensures |r| == |m.fields|
    ensures forall i :: 0 <= i < |r| ==> r[i] == BoundField(m, m.fields[i], NotSet)
  {
    seq(|m.fields|, i requires 0 <= i < |m.fields| => BoundField(m, m.fields[i]))
  }

  /**
   * `getattr(record, name, NOT_SET)`: the instance attribute, else the
   * class attribute of that name, which the model declaration set to the
   * field's column; so the default is never reached for a declared field.
   */
  function ValueOf(record: Record, name: string): FieldValue {
    if name in record.attributes then Bound(record.attributes[name]) else ClassAttribute
  }

  /** `record_fields`: one field per declared field of the record's class, in order, with the record's value. */
  function RecordFields(record: Record): (r: seq<BoundField>)
    ensures |r| == |record.model.fields|
    ensures forall i :: 0 <= i < |r| ==>
      r[i].model == record.model && r[i].field == record.model.fields[i]
  {
    var fs := record.model.fields;
    seq(|fs|, i requires 0 <= i < |fs| => BoundField(record.model, fs[i], ValueOf(record, fs[i].name)))
  }

  /** `fields(obj)`: a model class gives its fields, a record its own; anything else is a TypeError. */
  function Fields(obj: Inspectable): (r: Result<seq<BoundField>, Error>)
    ensures obj.ClassObject? ==> r == Ok(ModelFields(obj.model))
    ensures obj.Instance? ==> r == Ok(RecordFields(obj.record))
    ensures obj.OtherObject? ==> r == Err(TypeError)
  {
    match obj
    case ClassObject(m) => Ok(ModelFields(m))
    case Instance(record) => Ok(RecordFields(record))
    case OtherObject => Err(TypeError)
  }

  /**
   * A record's fields are its class's fields with the record's values in
   * place of `NOT_SET`: a set attribute is bound, a missing one reads the
   * class attribute.
   */
  lemma RecordFieldsAgree(record: Record, i: nat)
    requires i < |record.model.fields|
    ensures var f := record.model.fields[i];
      && RecordFields(record)[i] == ModelFields(record.model)[i].(value := ValueOf(record, f.name))
      && (f.name in record.attributes ==> RecordFields(record)[i].value == Bound(record.attributes[f.name]))
      && (f.name !in record.attributes ==> RecordFields(record)[i].value == ClassAttribute)
  {
  }

  /** Whatever `fields` accepts yields exactly one field per declared field. */
  lemma FieldCount(obj: Inspectable)
    ensures Fields(obj).Ok? <==> !obj.OtherObject?
    ensures obj.ClassObject? ==> |Fields(obj).value| == |obj.model.fields|
    ensures obj.Instance? ==> |Fields(obj).value| == |obj.record.model.fields|
  {
  }
}
