/**
 * The reflected view of compiled classes that the annotation helper reads through
 * `java.lang.Class`, `Field` and `Method`, as immutable values.
 *
 * Java type graphs may be cyclic (a class with a field of its own type); the helper never
 * looks deeper than a field type's method signatures, so a finite unrolling of the graph to
 * that depth yields the same templates.
 */
module Metadata {

  /** A `Class<?>`: `getName()`, `getSimpleName()`, `isPrimitive()`,
      `isAssignableFrom(String.class)`, `getDeclaredFields()`, `getDeclaredMethods()`. */
  datatype ReflectedType = ReflectedType(
    name: string,
    simpleName: string,
    isPrimitive: bool,
    assignableFromString: bool,
    declaredFields: seq<ReflectedField>,
    declaredMethods: seq<ReflectedMethod>)

  /** A `Field`: `getName()` and `getType()`. */
  datatype ReflectedField = ReflectedField(name: string, fieldType: ReflectedType)

  /** A `Method`: `getName()`, the types of `getParameters()` in order, `getReturnType()`. */
  datatype ReflectedMethod = ReflectedMethod(
    name: string,
    parameterTypes: seq<ReflectedType>,
    returnType: ReflectedType)
}
