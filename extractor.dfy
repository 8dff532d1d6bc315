/**
 * GenerateDataTree (Program.cs:93-192): walk the loaded types and build the
 * documentation model. The functions below say what the model is; the method
 * GenerateDataTree builds it the way the program does, one append at a time,
 * and is proved to produce exactly that model.
 */
module Extractor {
  import opened Wrappers
  import opened Seqs
  import opened TypeNames
  import opened DataTree
  import opened Descriptors

  /** The library-name filter a type's module string must contain. */
  const LibraryFilter: string := "AltV.Net."

  /** The type filter of the outer loop (Program.cs:97-99). */
  predicate IsDocumentedType(t: TypeInfo)
  {
    t.IsPublic && t.IsClass && !t.IsSpecialName && Contains(t.Module, LibraryFilter)
  }

  /** Methods kept: public and not special-named (Program.cs:111). */
  predicate IsDocumentedMethod(m: MethodInfo)
  {
    m.IsPublic && !m.IsSpecialName
  }

  /** Properties kept: not special-named, whatever their accessors' visibility (Program.cs:152). */
  predicate IsDocumentedProperty(p: PropertyInfo)
  {
    !p.IsSpecialName
  }

  /** Fields kept: public and not special-named (Program.cs:172). */
  predicate IsDocumentedField(f: FieldInfo)
  {
    f.IsPublic && !f.IsSpecialName
  }

  /** The display name of a type reference. */
  function TypeName(t: TypeRef): string
  {
    ConvertedType(t.FullName, t.Name)
  }

  function ToParameter(p: ParameterInfo): Parameter
  {
    Parameter(TypeName(p.ParameterType), p.Name.GetOr(""), p.IsOptional, p.IsOut)
  }

  /** The parameter records of a method, one per parameter, in order. */
  function ExtractParameters(ps: seq<ParameterInfo>): seq<Parameter>
  {
    Map(ToParameter, ps)
  }

  /** `methods.Exists(x => x.Name == name)`. */
  function HasMethodNamed(ms: seq<Method>, name: string): (b: bool)
    ensures b <==> exists j :: 0 <= j < |ms| && ms[j].Name == name
  {
    if ms == [] then false
    else HasMethodNamed(ms[..|ms| - 1], name) || ms[|ms| - 1].Name == name
  }

  function ToMethod(m: MethodInfo, isOverload: bool): Method
  {
    NewMethod(m.Name, m.IsStatic, isOverload, TypeName(m.ReturnType)).(Parameters := ExtractParameters(m.Parameters))
  }

  /** The method records of a class: the kept methods in order, each flagged as an
      overload by searching the records built before it. */
  function ExtractMethods(ms: seq<MethodInfo>): seq<Method>
  {
    if ms == [] then []
    else
      var built := ExtractMethods(ms[..|ms| - 1]);
      var m := ms[|ms| - 1];
      if IsDocumentedMethod(m) then built + [ToMethod(m, HasMethodNamed(built, m.Name))] else built
  }

  function ToProperty(p: PropertyInfo): Property
  {
    Property(TypeName(p.PropertyType), p.Name, p.CanRead, p.CanWrite)
  }

  function ExtractProperties(ps: seq<PropertyInfo>): seq<Property>
  {
    Map(ToProperty, Filter(IsDocumentedProperty, ps))
  }

  function ToField(f: FieldInfo): Field
  {
    Field(TypeName(f.FieldType), f.Name, f.IsStatic)
  }

  function ExtractFields(fs: seq<FieldInfo>): seq<Field>
  {
    Map(ToField, Filter(IsDocumentedField, fs))
  }

  /** The record built for one kept type. */
  function ExtractClass(t: TypeInfo): Class
  {
    NewClass(t.Name, t.Namespace.GetOr("")).(
      Methods := ExtractMethods(t.Methods),
      Properties := ExtractProperties(t.Properties),
      Fields := ExtractFields(t.Fields))
  }

  /** The whole model: one record per kept type, in the order of the types. */
  function DataTreeOf(types: seq<TypeInfo>): seq<Class>
  {
    Map(ExtractClass, Filter(IsDocumentedType, types))
  }

  /** The program's outer loop: each kept type gets a record, appended to the tree. */
  method GenerateDataTree(types: seq<TypeInfo>) returns (dataTree: seq<Class>)
    ensures dataTree == DataTreeOf(types)
  {
    dataTree := [];
    for i := 0 to |types|
      invariant dataTree == DataTreeOf(types[..i])
    {
      var classType := types[i];
      assert types[..i + 1] == types[..i] + [classType];
      FilterSnoc(IsDocumentedType, types[..i], classType);
      if IsDocumentedType(classType) {
        var classObj := BuildClass(classType);
        MapSnoc(ExtractClass, Filter(IsDocumentedType, types[..i]), classType);
        dataTree := dataTree + [classObj];
      }
    }
    assert types[..|types|] == types;
  }

  /** The body of the outer loop (Program.cs:101-186): a fresh record whose
      method, property and field lists are appended to member by member. */
  method BuildClass(classType: TypeInfo) returns (classObj: Class)
    ensures classObj == ExtractClass(classType)
  {
    var newClass := NewClass(classType.Name, classType.Namespace.GetOr(""));
    classObj := newClass;

    for j := 0 to |classType.Methods|
      invariant classObj == newClass.(Methods := ExtractMethods(classType.Methods[..j]))
    {
      var methodInfo := classType.Methods[j];
      assert classType.Methods[..j + 1][..j] == classType.Methods[..j];
      if IsDocumentedMethod(methodInfo) {
        var methodObj := BuildMethod(methodInfo, HasMethodNamed(classObj.Methods, methodInfo.Name));
        classObj := classObj.(Methods := classObj.Methods + [methodObj]);
      }
    }
    assert classType.Methods[..|classType.Methods|] == classType.Methods;

    for j := 0 to |classType.Properties|
      invariant classObj == newClass.(Methods := ExtractMethods(classType.Methods),
                                      Properties := ExtractProperties(classType.Properties[..j]))
    {
      var propertyInfo := classType.Properties[j];
      assert classType.Properties[..j + 1] == classType.Properties[..j] + [propertyInfo];
      FilterSnoc(IsDocumentedProperty, classType.Properties[..j], propertyInfo);
      if IsDocumentedProperty(propertyInfo) {
        var propertyObj := Property(TypeName(propertyInfo.PropertyType), propertyInfo.Name,
                                    propertyInfo.CanRead, propertyInfo.CanWrite);
        MapSnoc(ToProperty, Filter(IsDocumentedProperty, classType.Properties[..j]), propertyInfo);
        classObj := classObj.(Properties := classObj.Properties + [propertyObj]);
      }
    }
    assert classType.Properties[..|classType.Properties|] == classType.Properties;

    for j := 0 to |classType.Fields|
      invariant classObj == newClass.(Methods := ExtractMethods(classType.Methods),
                                      Properties := ExtractProperties(classType.Properties),
                                      Fields := ExtractFields(classType.Fields[..j]))
    {
      var fieldInfo := classType.Fields[j];
      assert classType.Fields[..j + 1] == classType.Fields[..j] + [fieldInfo];
      FilterSnoc(IsDocumentedField, classType.Fields[..j], fieldInfo);
      if IsDocumentedField(fieldInfo) {
        var fieldObj := Field(TypeName(fieldInfo.FieldType), fieldInfo.Name, fieldInfo.IsStatic);
        MapSnoc(ToField, Filter(IsDocumentedField, classType.Fields[..j]), fieldInfo);
        classObj := classObj.(Fields := classObj.Fields + [fieldObj]);
      }
    }
    assert classType.Fields[..|classType.Fields|] == classType.Fields;
  }

  /** The body of the method loop (Program.cs:113-143): a fresh method record whose
      parameter list is appended to parameter by parameter. */
  method BuildMethod(methodInfo: MethodInfo, isOverload: bool) returns (methodObj: Method)
    ensures methodObj == ToMethod(methodInfo, isOverload)
  {
    var newMethod := NewMethod(methodInfo.Name, methodInfo.IsStatic, isOverload, TypeName(methodInfo.ReturnType));
    methodObj := newMethod;
    for k := 0 to |methodInfo.Parameters|
      invariant methodObj == newMethod.(Parameters := ExtractParameters(methodInfo.Parameters[..k]))
    {
      var parameterInfo := methodInfo.Parameters[k];
      var parameterObj := Parameter(TypeName(parameterInfo.ParameterType), parameterInfo.Name.GetOr(""),
                                    parameterInfo.IsOptional, parameterInfo.IsOut);
      assert methodInfo.Parameters[..k + 1] == methodInfo.Parameters[..k] + [parameterInfo];
      MapSnoc(ToParameter, methodInfo.Parameters[..k], parameterInfo);
      methodObj := methodObj.(Parameters := methodObj.Parameters + [parameterObj]);
    }
    assert methodInfo.Parameters[..|methodInfo.Parameters|] == methodInfo.Parameters;
  }

  // ---------------------------------------------------------------------
  // What the model promises.
  // ---------------------------------------------------------------------

  /** The type filter is the four-part test with a true substring search of the module string. */
  lemma DocumentedTypeIff(t: TypeInfo)
    ensures IsDocumentedType(t) <==>
      t.IsPublic && t.IsClass && !t.IsSpecialName && exists i :: OccursAt(t.Module, LibraryFilter, i)
  {
    ContainsIffOccurs(t.Module, LibraryFilter);
  }

  /** One record per kept type, in order; every record comes from a kept type and
      every kept type yields its record. */
  lemma DataTreeSelection(types: seq<TypeInfo>)
    ensures |DataTreeOf(types)| == |Filter(IsDocumentedType, types)|
    ensures forall i | 0 <= i < |DataTreeOf(types)| ::
      DataTreeOf(types)[i] == ExtractClass(Filter(IsDocumentedType, types)[i])
    ensures forall c | c in DataTreeOf(types) :: exists t :: t in types && IsDocumentedType(t) && c == ExtractClass(t)
    ensures forall t | t in types && IsDocumentedType(t) :: ExtractClass(t) in DataTreeOf(types)
  {
    var kept := Filter(IsDocumentedType, types);
    forall t | t in types && IsDocumentedType(t)
      ensures ExtractClass(t) in DataTreeOf(types)
    {
      assert t in kept;
      var i :| 0 <= i < |kept| && kept[i] == t;
      assert DataTreeOf(types)[i] == ExtractClass(t);
    }
  }

  /** A record's name and namespace come from its type, a null namespace becoming
      the empty string; the fields extraction never sets keep their defaults: no
      enums, no parent, no child, not pinned. */
  lemma ClassRecordDefaults(types: seq<TypeInfo>)
    ensures forall i | 0 <= i < |DataTreeOf(types)| ::
      var c := DataTreeOf(types)[i];
      var t := Filter(IsDocumentedType, types)[i];
      && c.Name == t.Name
      && c.Namespace == (if t.Namespace.Some? then t.Namespace.value else "")
      && c.Enums == [] && c.Parent == None && c.Child == None && !c.IsPinned
  {
    forall i | 0 <= i < |DataTreeOf(types)|
      ensures DataTreeOf(types)[i] == ExtractClass(Filter(IsDocumentedType, types)[i])
    {
    }
  }

  /** Some record before index `i` has the same name as the record at `i`. */
  ghost predicate NameSeenBefore(r: seq<Method>, i: int)
    requires 0 <= i < |r|
  {
    exists j :: 0 <= j < i && r[j].Name == r[i].Name
  }

  /** A method record is an overload exactly when an earlier record of the same
      class has the same name; so the first record of each name is never one. */
  lemma {:induction false} OverloadIffEarlierSameName(ms: seq<MethodInfo>)
    ensures forall i | 0 <= i < |ExtractMethods(ms)| ::
      ExtractMethods(ms)[i].IsOverload <==> NameSeenBefore(ExtractMethods(ms), i)
  {
    if ms != [] {
      var init, m := ms[..|ms| - 1], ms[|ms| - 1];
      OverloadIffEarlierSameName(init);
      var built := ExtractMethods(init);
      var r := ExtractMethods(ms);
      if IsDocumentedMethod(m) {
        var x := ToMethod(m, HasMethodNamed(built, m.Name));
        assert r == built + [x];
        forall i | 0 <= i < |r|
          ensures r[i].IsOverload <==> NameSeenBefore(r, i)
        {
          if i < |built| {
            assert r[i] == built[i];
            assert forall j | 0 <= j < i :: r[j] == built[j];
            assert NameSeenBefore(r, i) == NameSeenBefore(built, i);
          } else {
            assert r[i] == x && x.Name == m.Name;
            if x.IsOverload {
              var j :| 0 <= j < |built| && built[j].Name == m.Name;
              assert r[j] == built[j];
            } else {
              assert forall j | 0 <= j < i :: r[j] == built[j] && built[j].Name != m.Name;
            }
          }
        }
      } else {
        assert r == built;
      }
    }
  }

  /** The method records are the kept method descriptors, in order, each carried
      over field by field with its parameters. */
  lemma {:induction false} MethodsFollowDescriptors(ms: seq<MethodInfo>)
    ensures var r := ExtractMethods(ms);
      var kept := Filter(IsDocumentedMethod, ms);
      |r| == |kept| && forall i | 0 <= i < |r| :: r[i] == ToMethod(kept[i], r[i].IsOverload)
  {
    if ms != [] {
      var init, m := ms[..|ms| - 1], ms[|ms| - 1];
      MethodsFollowDescriptors(init);
      assert ms == init + [m];
      FilterSnoc(IsDocumentedMethod, init, m);
    }
  }

  /** Parameter records follow the descriptors one for one: a null name becomes
      the empty string and the optional and out flags are copied. */
  lemma ParametersFollowDescriptors(ps: seq<ParameterInfo>)
    ensures var r := ExtractParameters(ps);
      |r| == |ps| &&
      forall i | 0 <= i < |ps| ::
        && r[i].Name == (if ps[i].Name.Some? then ps[i].Name.value else "")
        && r[i].Type == ConvertedType(ps[i].ParameterType.FullName, ps[i].ParameterType.Name)
        && r[i].IsOptional == ps[i].IsOptional && r[i].IsOut == ps[i].IsOut
  {
    forall i | 0 <= i < |ps|
      ensures ExtractParameters(ps)[i] == ToParameter(ps[i])
    {
    }
  }

  /** Property records are the non-special properties, in order, whatever their
      accessors' visibility; getter and setter flags mirror CanRead and CanWrite. */
  lemma PropertiesFollowDescriptors(ps: seq<PropertyInfo>)
    ensures var r := ExtractProperties(ps);
      var kept := Filter(IsDocumentedProperty, ps);
      |r| == |kept| &&
      forall i | 0 <= i < |r| ::
        && r[i].Name == kept[i].Name
        && r[i].Type == ConvertedType(kept[i].PropertyType.FullName, kept[i].PropertyType.Name)
        && r[i].IsGetter == kept[i].CanRead && r[i].IsSetter == kept[i].CanWrite
    ensures forall p | p in ps && !p.IsSpecialName :: ToProperty(p) in ExtractProperties(ps)
    ensures forall p | p in ps && p.IsSpecialName :: p !in Filter(IsDocumentedProperty, ps)
  {
    var kept := Filter(IsDocumentedProperty, ps);
    forall p | p in ps && !p.IsSpecialName
      ensures ToProperty(p) in ExtractProperties(ps)
    {
      var i :| 0 <= i < |kept| && kept[i] == p;
      assert ExtractProperties(ps)[i] == ToProperty(p);
    }
  }

  /** Field records are the public non-special fields, in order, with their static flag. */
  lemma FieldsFollowDescriptors(fs: seq<FieldInfo>)
    ensures var r := ExtractFields(fs);
      var kept := Filter(IsDocumentedField, fs);
      |r| == |kept| &&
      forall i | 0 <= i < |r| ::
        && r[i].Name == kept[i].Name && r[i].IsStatic == kept[i].IsStatic
        && r[i].Type == ConvertedType(kept[i].FieldType.FullName, kept[i].FieldType.Name)
    ensures forall f | f in fs && f.IsPublic && !f.IsSpecialName :: ToField(f) in ExtractFields(fs)
    ensures forall f | f in Filter(IsDocumentedField, fs) :: f.IsPublic && !f.IsSpecialName
  {
    var kept := Filter(IsDocumentedField, fs);
    forall f | f in fs && f.IsPublic && !f.IsSpecialName
      ensures ToField(f) in ExtractFields(fs)
    {
      var i :| 0 <= i < |kept| && kept[i] == f;
      assert ExtractFields(fs)[i] == ToField(f);
    }
  }
}
