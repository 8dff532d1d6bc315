/**
 * The page text built in Main (Program.cs:229-387): the root index of anchor
 * lines, each class's index page listing, the parameter list of a method's
 * declaration and argument bullets, and a property's declaration line.
 * Writing the files is not modelled; these are the strings that get written.
 */
module Pages {
  import opened Wrappers
  import opened Seqs
  import opened Descriptors
  import opened Extractor

  /** The output root (Program.cs:9). */
  const ServerPath: string := "docs/api/server"

  // ---------------------------------------------------------------------
  // Directories and the root index (Program.cs:229-234, 271-272)
  // ---------------------------------------------------------------------

  /** The rendering loop's type filter: unlike the extractor's, it does not ask for a class. */
  predicate IsPagedType(t: TypeInfo)
  {
    t.IsPublic && !t.IsSpecialName && Contains(t.Module, LibraryFilter)
  }

  /** `s.Replace(".", "_")`. */
  function ReplaceDots(s: string): (r: string)
    ensures |r| == |s|
    ensures forall i | 0 <= i < |s| :: r[i] == (if s[i] == '.' then '_' else s[i])
  {
    if s == [] then ""
    else ReplaceDots(s[..|s| - 1]) + [if s[|s| - 1] == '.' then '_' else s[|s| - 1]]
  }

  /** `type.Namespace?.Replace(".", "_")`, as it reads once concatenated (null is empty). */
  function NamespaceDirectory(ns: Option<string>): string
  {
    match ns
    case None => ""
    case Some(s) => ReplaceDots(s)
  }

  /** The directory a type's pages are written to. */
  function ClassDirectory(t: TypeInfo): string
  {
    ServerPath + "/" + NamespaceDirectory(t.Namespace) + "/" + t.Name
  }

  /** The link target of a type's anchor, relative to the output root. */
  function LinkTarget(t: TypeInfo): string
  {
    NamespaceDirectory(t.Namespace) + "/" + t.Name + "/index.html"
  }

  /** One anchor line of the root index. */
  function IndexLine(t: TypeInfo): string
  {
    "- <a href=\"" + LinkTarget(t) + "\" target=\"_self\" rel=\"noreferrer\">"
      + OrEmpty(t.Namespace) + "." + t.Name + "</a>\n"
  }

  /** The namespace directory keeps the namespace's length and has no dot left in it,
      and replacing again changes nothing. */
  lemma NamespaceDirectoryHasNoDots(ns: Option<string>)
    ensures |NamespaceDirectory(ns)| == |OrEmpty(ns)|
    ensures '.' !in NamespaceDirectory(ns)
    ensures ns.Some? ==> ReplaceDots(NamespaceDirectory(ns)) == NamespaceDirectory(ns)
  {
    var d := NamespaceDirectory(ns);
    assert forall i | 0 <= i < |d| :: d[i] != '.';
  }

  /** An anchor points at the `.html` rendering of the index page written for its type. */
  lemma LinkTargetIsClassPage(t: TypeInfo)
    ensures ServerPath + "/" + LinkTarget(t) == ClassDirectory(t) + "/index.html"
  {
  }

  /** Main's accumulation of `indexText`: one anchor line per paged type, in order. */
  method IndexText(types: seq<TypeInfo>) returns (indexText: string)
    ensures indexText == Concat(Map(IndexLine, Filter(IsPagedType, types)))
  {
    indexText := "";
    for i := 0 to |types|
      invariant indexText == Concat(Map(IndexLine, Filter(IsPagedType, types[..i])))
    {
      var t := types[i];
      assert types[..i + 1] == types[..i] + [t];
      ConcatMapFilterSnoc(IndexLine, IsPagedType, types[..i], t);
      if IsPagedType(t) {
        indexText := indexText + IndexLine(t);
      }
    }
    assert types[..|types|] == types;
  }

  /** Every type the extractor keeps also gets an anchor line, so the root index
      has at least as many lines as the model has class records. */
  lemma IndexCoversDataTree(types: seq<TypeInfo>)
    ensures forall t | IsDocumentedType(t) :: IsPagedType(t)
    ensures |DataTreeOf(types)| <= |Filter(IsPagedType, types)|
  {
    FilterWeaker(IsDocumentedType, IsPagedType, types);
  }

  /** The two filters differ only in the class test: a type is extracted exactly
      when it is indexed and is a class, so a public non-class library type (an
      interface, say) is indexed without a class record. */
  lemma IndexedVersusExtracted(t: TypeInfo)
    ensures IsDocumentedType(t) <==> IsPagedType(t) && t.IsClass
    ensures IsPagedType(t) && !t.IsClass ==> !IsDocumentedType(t)
  {
  }

  /** Such a type exists: a public interface of the library. */
  lemma InterfaceIsIndexedButNotExtracted()
    ensures var t := TypeInfo("IPlayer", Some("AltV.Net.Elements.Entities"), "AltV.Net.Elements.dll",
                              true, false, false, [], [], []);
      IsPagedType(t) && !IsDocumentedType(t)
  {
    var m := "AltV.Net.Elements.dll";
    assert OccursAt(m, LibraryFilter, 0);
    ContainsIffOccurs(m, LibraryFilter);
  }

  // ---------------------------------------------------------------------
  // A class's index page (Program.cs:241-265)
  // ---------------------------------------------------------------------

  /** The page text up to and including the properties heading. */
  function ClassPageHeader(name: string): string
  {
    "---\ntitle: " + name + "\norder: 0\n---\n\n# {{ $frontmatter.title }}\n\n## Properties\n"
  }

  /** The text between the property links and the method links. */
  const MethodsHeading: string := "\n\n## Methods\n"

  /** A markdown link to the same-directory page of that name. */
  function LinkLine(name: string): string
  {
    "- [" + name + "](" + name + ")\n"
  }

  function PropertyLink(p: PropertyInfo): string { LinkLine(p.Name) }

  function MethodLink(m: MethodInfo): string { LinkLine(m.Name) }

  /** Properties that get a link and a page: a public getter or setter, not special-named. */
  predicate IsPagedProperty(p: PropertyInfo)
  {
    (IsPublicAccessor(p.GetMethod) || IsPublicAccessor(p.SetMethod)) && !p.IsSpecialName
  }

  /** The whole class index page. */
  function ClassPage(t: TypeInfo): string
  {
    ClassPageHeader(t.Name)
      + Concat(Map(PropertyLink, Filter(IsPagedProperty, t.Properties)))
      + MethodsHeading
      + Concat(Map(MethodLink, Filter(IsDocumentedMethod, t.Methods)))
  }

  /** Main's accumulation of `classText`: the header, a link per paged property,
      the methods heading, then a link per documented method. */
  method ClassIndexText(t: TypeInfo) returns (classText: string)
    ensures classText == ClassPage(t)
  {
    classText := ClassPageHeader(t.Name);
    var propertyLinks := PropertyLinks(t.Properties);
    classText := classText + propertyLinks + MethodsHeading;
    var methodLinks := MethodLinks(t.Methods);
    classText := classText + methodLinks;
  }

  /** The property loop of the class page: what it appends to `classText`. */
  method PropertyLinks(properties: seq<PropertyInfo>) returns (links: string)
    ensures links == Concat(Map(PropertyLink, Filter(IsPagedProperty, properties)))
  {
    links := "";
    for i := 0 to |properties|
      invariant links == Concat(Map(PropertyLink, Filter(IsPagedProperty, properties[..i])))
    {
      var p := properties[i];
      assert properties[..i + 1] == properties[..i] + [p];
      ConcatMapFilterSnoc(PropertyLink, IsPagedProperty, properties[..i], p);
      if IsPagedProperty(p) {
        links := links + LinkLine(p.Name);
      }
    }
    assert properties[..|properties|] == properties;
  }

  /** The method loop of the class page: what it appends to `classText`. */
  method MethodLinks(methods: seq<MethodInfo>) returns (links: string)
    ensures links == Concat(Map(MethodLink, Filter(IsDocumentedMethod, methods)))
  {
    links := "";
    for i := 0 to |methods|
      invariant links == Concat(Map(MethodLink, Filter(IsDocumentedMethod, methods[..i])))
    {
      var m := methods[i];
      assert methods[..i + 1] == methods[..i] + [m];
      ConcatMapFilterSnoc(MethodLink, IsDocumentedMethod, methods[..i], m);
      if IsDocumentedMethod(m) {
        links := links + LinkLine(m.Name);
      }
    }
    assert methods[..|methods|] == methods;
  }

  /** A class with nothing to link still gets both headings, with no list items. */
  lemma EmptyClassPage(t: TypeInfo)
    requires forall p | p in t.Properties :: !IsPagedProperty(p)
    requires forall m | m in t.Methods :: !IsDocumentedMethod(m)
    ensures ClassPage(t) == ClassPageHeader(t.Name) + MethodsHeading
  {
    FilterNone(IsPagedProperty, t.Properties);
    FilterNone(IsDocumentedMethod, t.Methods);
  }

  // ---------------------------------------------------------------------
  // A method's declaration and argument list (Program.cs:320-344)
  // ---------------------------------------------------------------------

  /** What an optional parameter's default adds to its declaration. */
  function DefaultSuffix(p: ParameterInfo): string
  {
    if !p.IsOptional then ""
    else
      match p.DefaultValue
      case None => " = null"
      case Some(v) => " = " + (if |v| == 0 then "\"\"" else v)
  }

  /** One parameter as it reads in the declaration. */
  function ParameterDeclaration(p: ParameterInfo): string
  {
    OrEmpty(p.ParameterType.FullName) + " " + OrEmpty(p.Name) + DefaultSuffix(p)
  }

  /** One parameter as a bullet of the arguments section. */
  function ArgumentLine(p: ParameterInfo): string
  {
    "* " + OrEmpty(p.ParameterType.FullName) + " " + OrEmpty(p.Name) + "\n"
  }

  /** The parameter declarations separated by `", "`. */
  function ParameterString(ps: seq<ParameterInfo>): string
  {
    Join(Map(ParameterDeclaration, ps), ", ")
  }

  function ArgumentList(ps: seq<ParameterInfo>): string
  {
    Concat(Map(ArgumentLine, ps))
  }

  /** The declaration line of a method page. */
  function MethodDeclaration(className: string, m: MethodInfo): string
  {
    m.ReturnParameter + " " + className + "." + m.Name + " (" + ParameterString(m.Parameters) + ");"
  }

  /** Main's parameter loop: every declaration is followed by `", "`, and the
      last two characters are cut off when there was at least one parameter. */
  method MethodParameterText(ps: seq<ParameterInfo>) returns (paramString: string, paramList: string)
    ensures paramString == ParameterString(ps)
    ensures paramList == ArgumentList(ps)
  {
    paramString := "";
    paramList := "";
    for i := 0 to |ps|
      invariant paramString == Terminated(Map(ParameterDeclaration, ps[..i]), ", ")
      invariant paramList == ArgumentList(ps[..i])
    {
      var param := ps[i];
      var decl := OrEmpty(param.ParameterType.FullName) + " " + OrEmpty(param.Name);
      if param.IsOptional {
        var value := param.DefaultValue;
        if value.None? {
          decl := decl + " = null";
        } else {
          decl := decl + " = " + (if |value.value| == 0 then "\"\"" else value.value);
        }
      }
      assert decl == ParameterDeclaration(param);
      ParameterSnoc(ps[..i], param);
      assert ps[..i + 1] == ps[..i] + [param];
      paramString := paramString + decl + ", ";
      paramList := paramList + "* " + OrEmpty(param.ParameterType.FullName) + " " + OrEmpty(param.Name) + "\n";
    }
    assert ps[..|ps|] == ps;
    if |ps| > 0 {
      TerminatedIsJoinThenSep(Map(ParameterDeclaration, ps), ", ");
      paramString := paramString[..|paramString| - 2];
    }
  }

  /** One more parameter extends both texts by its own rendering. */
  lemma ParameterSnoc(ps: seq<ParameterInfo>, p: ParameterInfo)
    ensures Terminated(Map(ParameterDeclaration, ps + [p]), ", ")
         == Terminated(Map(ParameterDeclaration, ps), ", ") + ParameterDeclaration(p) + ", "
    ensures ArgumentList(ps + [p]) == ArgumentList(ps) + ArgumentLine(p)
  {
    MapSnoc(ParameterDeclaration, ps, p);
    TerminatedSnoc(Map(ParameterDeclaration, ps), ParameterDeclaration(p), ", ");
    MapSnoc(ArgumentLine, ps, p);
    ConcatSnoc(Map(ArgumentLine, ps), ArgumentLine(p));
  }

  /** No parameters, no text; otherwise the declarations with exactly one `", "`
      between neighbours: the string starts with the first declaration, ends with
      the last, and is two characters longer per separator than the declarations. */
  lemma ParameterStringShape(ps: seq<ParameterInfo>)
    ensures ps == [] ==> ParameterString(ps) == ""
    ensures ps != [] ==>
      var decls := Map(ParameterDeclaration, ps);
      var s := ParameterString(ps);
      && |s| == TotalLength(decls) + 2 * (|ps| - 1)
      && |decls[0]| <= |s| && s[..|decls[0]|] == decls[0]
      && |decls[|ps| - 1]| <= |s| && s[|s| - |decls[|ps| - 1]|..] == decls[|ps| - 1]
  {
    if ps != [] {
      JoinLength(Map(ParameterDeclaration, ps), ", ");
      JoinEnds(Map(ParameterDeclaration, ps), ", ");
    }
  }

  /** How an optional parameter's default is written: `null` for a null default,
      `""` for one that prints as the empty string, its text otherwise; a
      required parameter gets nothing. */
  lemma DefaultValueRendering(p: ParameterInfo)
    ensures !p.IsOptional ==> ParameterDeclaration(p) == OrEmpty(p.ParameterType.FullName) + " " + OrEmpty(p.Name)
    ensures p.IsOptional && p.DefaultValue.None? ==> DefaultSuffix(p) == " = null"
    ensures p.IsOptional && p.DefaultValue == Some("") ==> DefaultSuffix(p) == " = \"\""
    ensures p.IsOptional && p.DefaultValue.Some? && p.DefaultValue.value != "" ==>
      DefaultSuffix(p) == " = " + p.DefaultValue.value
  {
  }

  /** A method without parameters is declared with an empty pair of parentheses. */
  lemma MethodDeclarationWithoutParameters(className: string, m: MethodInfo)
    requires m.Parameters == []
    ensures MethodDeclaration(className, m) == m.ReturnParameter + " " + className + "." + m.Name + " ();"
  {
  }

  // ---------------------------------------------------------------------
  // A property's declaration line (Program.cs:280-286)
  // ---------------------------------------------------------------------

  /** The accessors a declaration lists. */
  function AccessorList(getter: bool, setter: bool): string
  {
    (if getter then "get; " else "") + (if setter then "set; " else "")
  }

  /** `Type Name { get; set; }` with each accessor present only when public. */
  function PropertyDeclarationText(typeText: string, name: string, getter: bool, setter: bool): string
  {
    typeText + " " + name + " { " + AccessorList(getter, setter) + "}"
  }

  /** Reads the accessor flags back from an accessor list. */
  function ReadAccessors(list: string): (bool, bool)
  {
    (|list| >= 5 && list[..5] == "get; ", |list| >= 5 && list[|list| - 5..] == "set; ")
  }

  /** The accessor list records exactly which accessors are public. */
  lemma AccessorListRoundTrip(getter: bool, setter: bool)
    ensures ReadAccessors(AccessorList(getter, setter)) == (getter, setter)
  {
    var list := AccessorList(getter, setter);
    if getter && setter {
      assert list[..5] == "get; " && list[|list| - 5..] == "set; ";
    } else if getter {
      assert list == "get; ";
    } else if setter {
      assert list == "set; ";
      assert list[..5] != "get; " by { assert list[0] == 's'; }
    }
  }

  /** Two properties of the same type and name have the same declaration only
      when their accessors' visibility agrees. */
  lemma PropertyDeclarationDeterminesAccessors(typeText: string, name: string, g1: bool, s1: bool, g2: bool, s2: bool)
    requires PropertyDeclarationText(typeText, name, g1, s1) == PropertyDeclarationText(typeText, name, g2, s2)
    ensures g1 == g2 && s1 == s2
  {
    var prefix := typeText + " " + name + " { ";
    var d1, d2 := PropertyDeclarationText(typeText, name, g1, s1), PropertyDeclarationText(typeText, name, g2, s2);
    assert AccessorList(g1, s1) == d1[|prefix|..|d1| - 1];
    assert AccessorList(g2, s2) == d2[|prefix|..|d2| - 1];
    AccessorListRoundTrip(g1, s1);
    AccessorListRoundTrip(g2, s2);
  }

  /** Reflection's `CanRead` holds exactly when there is a getter, and `CanWrite`
      exactly when there is a setter; the descriptor keeps them as separate inputs. */
  predicate WellFormedProperty(p: PropertyInfo)
  {
    (p.CanRead <==> p.GetMethod.Some?) && (p.CanWrite <==> p.SetMethod.Some?)
  }

  /** For a well-formed property, an accessor the declaration line lists is one
      the extracted record marks; a record's mark may stand for a non-public one. */
  lemma DeclaredAccessorsAreRecorded(p: PropertyInfo)
    requires WellFormedProperty(p)
    ensures IsPublicAccessor(p.GetMethod) ==> ToProperty(p).IsGetter
    ensures IsPublicAccessor(p.SetMethod) ==> ToProperty(p).IsSetter
    ensures ToProperty(p).IsGetter <==> p.GetMethod.Some?
    ensures ToProperty(p).IsSetter <==> p.SetMethod.Some?
  {
  }

  /** Main's step-by-step construction of `propertyString`. */
  method PropertyDeclaration(p: PropertyInfo) returns (propertyString: string)
    ensures propertyString == PropertyDeclarationText(p.PropertyType.Text, p.Name,
                                IsPublicAccessor(p.GetMethod), IsPublicAccessor(p.SetMethod))
  {
    propertyString := p.PropertyType.Text + " " + p.Name + " { ";
    if IsPublicAccessor(p.GetMethod) {
      propertyString := propertyString + "get; ";
    }
    if IsPublicAccessor(p.SetMethod) {
      propertyString := propertyString + "set; ";
    }
    propertyString := propertyString + "}";
  }
}
