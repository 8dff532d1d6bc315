/**
 * What the program reads from reflection, given as plain values. Each
 * descriptor carries the flags and names the extractor and the page
 * renderer query; a C# `null` is `None`. Sequences are in the order the
 * reflection calls return them.
 */
module Descriptors {
  import opened Wrappers

  /** A `System.Type` as seen through `FullName`, `Name` and `ToString()`. */
  datatype TypeRef = TypeRef(FullName: Option<string>, Name: Option<string>, Text: string)

  /** A `ParameterInfo`; `DefaultValue` is the default's `ToString()`, `None` for a null default. */
  datatype ParameterInfo = ParameterInfo(
    Name: Option<string>,
    ParameterType: TypeRef,
    IsOptional: bool,
    IsOut: bool,
    DefaultValue: Option<string>)

  /** A `MethodInfo`; `ReturnParameter` is the `ToString()` of its return parameter. */
  datatype MethodInfo = MethodInfo(
    Name: string,
    IsPublic: bool,
    IsSpecialName: bool,
    IsStatic: bool,
    ReturnType: TypeRef,
    ReturnParameter: string,
    Parameters: seq<ParameterInfo>)

  /** A property accessor (`GetMethod` or `SetMethod`). */
  datatype Accessor = Accessor(IsPublic: bool)

  /** A `PropertyInfo`; a missing accessor is `None`. `CanRead`/`CanWrite` and the
      accessors are independent inputs here; `Pages.WellFormedProperty` states how
      reflection relates them. */
  datatype PropertyInfo = PropertyInfo(
    Name: string,
    IsSpecialName: bool,
    PropertyType: TypeRef,
    CanRead: bool,
    CanWrite: bool,
    GetMethod: Option<Accessor>,
    SetMethod: Option<Accessor>)

  /** A `FieldInfo`. */
  datatype FieldInfo = FieldInfo(
    Name: string,
    IsPublic: bool,
    IsSpecialName: bool,
    IsStatic: bool,
    FieldType: TypeRef)

  /** A type of the loaded assembly; `Module` is its module's `ToString()`. */
  datatype TypeInfo = TypeInfo(
    Name: string,
    Namespace: Option<string>,
    Module: string,
    IsPublic: bool,
    IsClass: bool,
    IsSpecialName: bool,
    Methods: seq<MethodInfo>,
    Properties: seq<PropertyInfo>,
    Fields: seq<FieldInfo>)

  /** `accessor?.IsPublic == true`: the accessor exists and is public. */
  predicate IsPublicAccessor(a: Option<Accessor>)
  {
    a.Some? && a.value.IsPublic
  }
}
