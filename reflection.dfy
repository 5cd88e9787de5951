/** Snapshots of what java.lang.reflect reports about the facade class
    `Assertions` and the catalog `InstanceOfAssertFactories`: type descriptors
    and the member records the consistency check reads. */
module Reflection {

  /** A `java.lang.Class`: its name and whether it is a primitive type (`int`, `boolean`, ...). */
  datatype JClass = JClass(name: string, isPrimitive: bool)

  /** A `java.lang.reflect.Type`. */
  datatype Type =
    | ClassType(cls: JClass)                        // a Class, e.g. Node or int
    | Parameterized(raw: JClass, args: seq<Type>)   // a ParameterizedType, e.g. List<Node>
    | TypeVar(name: string, bounds: seq<Type>)      // a TypeVariable with getBounds(): [Object] when none is declared
    | OtherType(name: string)                       // a GenericArrayType or WildcardType

  /** One (key, value) pair of a `Map<Type, Type>`. */
  type Entry = (Type, Type)

  /** A public method: its name, how many type parameters it declares, its generic
      parameter types, its erased return class and its generic return type. */
  datatype Method = Method(
    name: string,
    typeParameterCount: nat,
    genericParameterTypes: seq<Type>,
    returnType: JClass,
    genericReturnType: Type)

  /** A public field: whether the compiler or a tool injected it, and its generic type. */
  datatype Field = Field(isSynthetic: bool, genericType: Type)

  const Object := JClass("java.lang.Object", false)
  const InstanceOfAssertFactory := JClass("org.assertj.core.api.InstanceOfAssertFactory", false)
  const PropertyContainerAssert := JClass("org.assertj.neo4j.api.PropertyContainerAssert", false)
}
