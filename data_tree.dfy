/**
 * The in-memory documentation model (DataTree.cs): one record per class,
 * with its methods, properties, fields and enums in declaration order.
 * C# `null` strings are `None`.
 */
module DataTree {
  import opened Wrappers

  datatype Parameter = Parameter(Type: string, Name: string, IsOptional: bool, IsOut: bool)

  datatype Method = Method(
    Name: string,
    Parameters: seq<Parameter>,
    ReturnType: string,
    IsStatic: bool,
    IsOverload: bool)

  datatype Property = Property(Type: string, Name: string, IsGetter: bool, IsSetter: bool)

  datatype Field = Field(Type: string, Name: string, IsStatic: bool)

  /** Declared by the model; nothing ever creates one. */
  datatype Enum = Enum(Type: string, Name: string)

  datatype Class = Class(
    Methods: seq<Method>,
    Properties: seq<Property>,
    Fields: seq<Field>,
    Enums: seq<Enum>,
    Name: string,
    Namespace: string,
    Parent: Option<string>,
    Child: Option<string>,
    IsPinned: bool)

  /** `new Class { Name = name, Namespace = ns }`: the four lists start empty and
      the fields the initialiser does not set keep their defaults. */
  function NewClass(name: string, ns: string): Class
  {
    Class([], [], [], [], name, ns, None, None, false)
  }

  /** `new Method { ... }` with every field but the parameter list set. */
  function NewMethod(name: string, isStatic: bool, isOverload: bool, returnType: string): Method
  {
    Method(name, [], returnType, isStatic, isOverload)
  }
}
