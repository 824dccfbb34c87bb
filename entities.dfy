/**
 * Entity types and entity instances. Reflection over annotated classes is replaced by an
 * explicit descriptor: the declared fields in declaration order (name, optional @Column
 * name, @Id flag, declared type), the optional @Table name, the fully qualified class name and the number
 * of declared constructors. An instance is an object whose field values change in place.
 */
module Entities {
  import opened Errors

  /** The integral wrapper classes a number is boxed in: `Short`, `Integer` and `Long`. */
  datatype Box = ShortBox | IntegerBox | LongBox

  /**
   * A field value as `Field.get` returns it: `Null` is Java's null, and a number keeps the
   * wrapper it is boxed in, because `Integer.valueOf(1).equals(Long.valueOf(1))` is false.
   */
  datatype Value = Null | Num(box: Box, n: int) | Str(s: string)

  /** A field's declared type, as far as `setFieldValue` tells types apart. */
  datatype FieldType = Boxed(wrapper: Box) | StringType | OtherType

  datatype FieldDecl = FieldDecl(name: string, column: Option<string>, isId: bool, fieldType: FieldType)

  /** The numbers a wrapper holds, from its `MIN_VALUE` to its `MAX_VALUE`. */
  predicate InRange(b: Box, n: int) {
    match b
    case ShortBox => -0x8000 <= n < 0x8000
    case IntegerBox => -0x8000_0000 <= n < 0x8000_0000
    case LongBox => -0x8000_0000_0000_0000 <= n < 0x8000_0000_0000_0000
  }

  /** The values of a Java `long`. */
  type JavaLong = n: int | InRange(LongBox, n)

  /** A value a field of that declared type can hold. */
  predicate Fits(f: FieldDecl, v: Value) {
    match f.fieldType
    case Boxed(b) => v.Null? || (v.Num? && v.box == b && InRange(b, v.n))
    case StringType => !v.Num?
    case OtherType => true
  }

  /** Every declared field of `t` holds a value of its declared type. */
  predicate WellTyped(t: EntityType, values: map<string, Value>) {
    forall i :: 0 <= i < |t.fields| ==> Fits(t.fields[i], FieldValue(values, t.fields[i].name))
  }

  datatype EntityType = EntityType(
    className: string,          // Class.getName(), the fully qualified name
    table: Option<string>,      // @Table(name = ...)
    fields: seq<FieldDecl>,     // getDeclaredFields(), in declaration order
    constructors: nat)          // getDeclaredConstructors().length

  /** The field exists on the type (a setter exists only for a declared field). */
  predicate Declares(t: EntityType, name: string) {
    exists i :: 0 <= i < |t.fields| && t.fields[i].name == name
  }

  /** The type declares a field `name` whose type admits `v`: the setter compiles. */
  predicate Accepts(t: EntityType, name: string, v: Value) {
    exists i :: 0 <= i < |t.fields| && t.fields[i].name == name && Fits(t.fields[i], v)
  }

  /** Java forbids two declared fields with the same name. */
  predicate DistinctNames(fields: seq<FieldDecl>) {
    forall i, j :: 0 <= i < j < |fields| ==> fields[i].name != fields[j].name
  }

  /** The current value of a field; a field never assigned holds null. */
  function FieldValue(values: map<string, Value>, name: string): Value {
    if name in values then values[name] else Null
  }

  /** An instance of an entity type, such as a `Person`. */
  class Entity {
    const entityType: EntityType      // getClass()
    var values: map<string, Value>    // field name -> current value

    /** The single no-argument constructor: every field starts out null. */
    constructor (entityType: EntityType)
      ensures this.entityType == entityType && values == map[]
    {
      this.entityType := entityType;
      values := map[];
    }

    /** A Lombok setter such as `setFirstName`. */
    method Set(name: string, v: Value)
      requires Accepts(entityType, name, v)
      modifies this
      ensures values == old(values)[name := v]
    {
      values := values[name := v];
    }
  }
}
