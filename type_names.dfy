/**
 * Type-name simplification (Program.cs:11-91): a fixed table from the
 * fully-qualified names of common framework types to their C# keyword or
 * short form, and the lookup every extracted type reference goes through.
 */
module TypeNames {
  import opened Wrappers

  /** Integer types: signed and unsigned 8/16/32/64-bit, each plain, by reference
      (`&`), as an array (`[]`) and as an array by reference (`[]&`). */
  const IntegerTypes: map<string, string> := map[
    "System.SByte" := "sbyte",
    "System.SByte&" := "sbyte&",
    "System.SByte[]" := "sbyte[]",
    "System.SByte[]&" := "sbyte[]&",
    "System.Byte" := "byte",
    "System.Byte&" := "byte&",
    "System.Byte[]" := "byte[]",
    "System.Byte[]&" := "byte[]&",
    "System.Int16" := "short",
    "System.Int16&" := "short&",
    "System.Int16[]" := "short[]",
    "System.Int16[]&" := "short[]&",
    "System.UInt16" := "ushort",
    "System.UInt16&" := "ushort&",
    "System.UInt16[]" := "ushort[]",
    "System.UInt16[]&" := "ushort[]&",
    "System.Int32" := "int",
    "System.Int32&" := "int&",
    "System.Int32[]" := "int[]",
    "System.Int32[]&" := "int[]&",
    "System.UInt32" := "uint",
    "System.UInt32&" := "uint&",
    "System.UInt32[]" := "uint[]",
    "System.UInt32[]&" := "uint[]&",
    "System.Int64" := "long",
    "System.Int64&" := "long&",
    "System.Int64[]" := "long[]",
    "System.Int64[]&" := "long[]&",
    "System.UInt64" := "ulong",
    "System.UInt64&" := "ulong&",
    "System.UInt64[]" := "ulong[]",
    "System.UInt64[]&" := "ulong[]&"
  ]

  /** Floating-point types, in the same four forms. */
  const FloatingPointTypes: map<string, string> := map[
    "System.Single" := "float",
    "System.Single&" := "float&",
    "System.Single[]" := "float[]",
    "System.Single[]&" := "float[]&",
    "System.Double" := "double",
    "System.Double&" := "double&",
    "System.Double[]" := "double[]",
    "System.Double[]&" := "double[]&"
  ]

  /** Vector types: plain and array forms only. */
  const VectorTypes: map<string, string> := map[
    "System.Numerics.Vector2" := "Vector2",
    "System.Numerics.Vector2[]" := "Vector2[]",
    "System.Numerics.Vector3" := "Vector3",
    "System.Numerics.Vector3[]" := "Vector3[]",
    "System.Numerics.Vector4" := "Vector4",
    "System.Numerics.Vector4[]" := "Vector4[]"
  ]

  /** Other types: `void` and `string` only plain; `bool` and `object` in all four forms. */
  const OtherTypes: map<string, string> := map[
    "System.Void" := "void",
    "System.String" := "string",
    "System.Boolean" := "bool",
    "System.Boolean&" := "bool&",
    "System.Boolean[]" := "bool[]",
    "System.Boolean[]&" := "bool[]&",
    "System.Object" := "object",
    "System.Object&" := "object&",
    "System.Object[]" := "object[]",
    "System.Object[]&" := "object[]&"
  ]

  /** The program's conversion dictionary, 56 entries in the order the program lists them. */
  const SimpleTypeConversion: map<string, string> :=
    IntegerTypes + FloatingPointTypes + VectorTypes + OtherTypes

  /**
   * GetConvertedType: both names null gives the empty string; a null
   * fully-qualified name falls back to the simple name; otherwise the
   * fully-qualified name is looked up in the table and returned unchanged
   * when it is not a key.
   */
  function ConvertedType(fullName: Option<string>, name: Option<string>): (r: string)
    ensures fullName.None? && name.None? ==> r == ""
    ensures fullName.None? && name.Some? ==> r == name.value
    ensures fullName.Some? && fullName.value in SimpleTypeConversion ==>
              r == SimpleTypeConversion[fullName.value]
    ensures fullName.Some? && fullName.value !in SimpleTypeConversion ==> r == fullName.value
  {
    if fullName.None? && name.None? then ""
    else if fullName.None? then name.GetOr("")
    else if fullName.value in SimpleTypeConversion then SimpleTypeConversion[fullName.value]
    else fullName.value
  }

  /** A by-reference type name: it ends in `&`. */
  predicate IsByRef(s: string)
  {
    |s| > 0 && s[|s| - 1] == '&'
  }

  /** An array type name, possibly by reference: it ends in `[]` or `[]&`. */
  predicate IsArray(s: string)
  {
    var n := if IsByRef(s) then |s| - 1 else |s|;
    n >= 2 && s[n - 2] == '[' && s[n - 1] == ']'
  }

  /** A name in the framework's `System` namespace. */
  predicate IsSystemQualified(s: string)
  {
    |s| > 7 && s[..7] == "System."
  }

  /** A name without any namespace qualification. */
  predicate IsUnqualified(s: string)
  {
    forall i | 0 <= i < |s| :: s[i] != '.'
  }

  /** What every entry of the table looks like: a `System` name mapped to an
      unqualified short form, by reference exactly when the key is and an array
      exactly when the key is. */
  ghost predicate EntryShape(k: string, v: string)
  {
    IsSystemQualified(k) && IsUnqualified(v) && (IsByRef(k) <==> IsByRef(v)) && (IsArray(k) <==> IsArray(v))
  }

  lemma IntegerTypesShape(k: string)
    requires k in IntegerTypes
    ensures EntryShape(k, IntegerTypes[k])
  {
    IntegerTypesQualified(k);
    IntegerTypesKeepByRef(k);
    IntegerTypesKeepArray(k);
  }

  lemma IntegerTypesQualified(k: string)
    requires k in IntegerTypes
    ensures IsSystemQualified(k) && IsUnqualified(IntegerTypes[k])
  {
  }

  lemma IntegerTypesKeepByRef(k: string)
    requires k in IntegerTypes
    ensures IsByRef(k) <==> IsByRef(IntegerTypes[k])
  {
  }

  lemma IntegerTypesKeepArray(k: string)
    requires k in IntegerTypes
    ensures IsArray(k) <==> IsArray(IntegerTypes[k])
  {
  }

  lemma FloatingPointTypesShape(k: string)
    requires k in FloatingPointTypes
    ensures EntryShape(k, FloatingPointTypes[k])
  {
    FloatingPointTypesQualified(k);
    FloatingPointTypesKeepByRef(k);
    FloatingPointTypesKeepArray(k);
  }

  lemma FloatingPointTypesQualified(k: string)
    requires k in FloatingPointTypes
    ensures IsSystemQualified(k) && IsUnqualified(FloatingPointTypes[k])
  {
  }

  lemma FloatingPointTypesKeepByRef(k: string)
    requires k in FloatingPointTypes
    ensures IsByRef(k) <==> IsByRef(FloatingPointTypes[k])
  {
  }

  lemma FloatingPointTypesKeepArray(k: string)
    requires k in FloatingPointTypes
    ensures IsArray(k) <==> IsArray(FloatingPointTypes[k])
  {
  }

  lemma VectorTypesShape(k: string)
    requires k in VectorTypes
    ensures EntryShape(k, VectorTypes[k])
  {
    VectorTypesQualified(k);
    VectorTypesKeepByRef(k);
    VectorTypesKeepArray(k);
  }

  lemma VectorTypesQualified(k: string)
    requires k in VectorTypes
    ensures IsSystemQualified(k) && IsUnqualified(VectorTypes[k])
  {
  }

  lemma VectorTypesKeepByRef(k: string)
    requires k in VectorTypes
    ensures IsByRef(k) <==> IsByRef(VectorTypes[k])
  {
  }

  lemma VectorTypesKeepArray(k: string)
    requires k in VectorTypes
    ensures IsArray(k) <==> IsArray(VectorTypes[k])
  {
  }

  lemma OtherTypesShape(k: string)
    requires k in OtherTypes
    ensures EntryShape(k, OtherTypes[k])
  {
    OtherTypesQualified(k);
    OtherTypesKeepByRef(k);
    OtherTypesKeepArray(k);
  }

  lemma OtherTypesQualified(k: string)
    requires k in OtherTypes
    ensures IsSystemQualified(k) && IsUnqualified(OtherTypes[k])
  {
  }

  lemma OtherTypesKeepByRef(k: string)
    requires k in OtherTypes
    ensures IsByRef(k) <==> IsByRef(OtherTypes[k])
  {
  }

  lemma OtherTypesKeepArray(k: string)
    requires k in OtherTypes
    ensures IsArray(k) <==> IsArray(OtherTypes[k])
  {
  }

  /** Every entry of the table has the shape `EntryShape` describes. */
  lemma TableEntryShape(k: string)
    requires k in SimpleTypeConversion
    ensures EntryShape(k, SimpleTypeConversion[k])
  {
    if k in OtherTypes {
      OtherTypesShape(k);
    } else if k in VectorTypes {
      VectorTypesShape(k);
    } else if k in FloatingPointTypes {
      FloatingPointTypesShape(k);
    } else {
      IntegerTypesShape(k);
    }
  }

  /** Converting an already converted fully-qualified name changes nothing:
      no short form is itself a key of the table. */
  lemma ConvertedTypeIdempotent(fullName: string, name: Option<string>, name': Option<string>)
    ensures ConvertedType(Some(ConvertedType(Some(fullName), name)), name')
            == ConvertedType(Some(fullName), name)
  {
    if fullName in SimpleTypeConversion {
      var short := SimpleTypeConversion[fullName];
      TableEntryShape(fullName);
      ShortFormNotKey(short);
    }
  }

  /** An unqualified name is never a key of the table. */
  lemma ShortFormNotKey(s: string)
    requires IsUnqualified(s)
    ensures s !in SimpleTypeConversion
  {
    if s in SimpleTypeConversion {
      TableEntryShape(s);
      SystemNameIsQualified(s);
    }
  }

  lemma SystemNameIsQualified(s: string)
    requires IsSystemQualified(s)
    ensures !IsUnqualified(s)
  {
    assert s[6] == s[..7][6] == '.';
  }
}
