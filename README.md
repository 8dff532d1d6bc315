# alt:V C# documentation generator — a Dafny model

The generator loads the alt:V .NET server assembly, walks its types by
reflection and writes markdown pages: a root index with one anchor per type,
an index page per class, and one page per property and per method. Before the
rendering code, it builds an in-memory *data tree*: one `Class` record per
documented class, each with its methods, parameters, properties and fields.

This project models three deterministic parts of that program:

- **Type-name simplification** (`TypeNames`): the fixed table from
  fully-qualified framework type names to short C# forms, and
  `GetConvertedType` with its two null fallbacks.
- **Data-tree extraction** (`Extractor`, over the records of `DataTree`):
  - `GenerateDataTree` becomes nested loops over descriptor records (`Descriptors`).
  - Each loop is proved equal to a specification function.
  - The filtering, order, overload and default-value properties are proved about those functions.
- **Page text** (`Pages`): the strings `Main` accumulates.
  - the root index lines;
  - the class index page;
  - a method's parameter string and argument bullets;
  - a property's declaration line;
  - the namespace directory with dots replaced by underscores.

  This code follows `Environment.Exit(0)` (Program.cs:225), so it never runs
  as the program stands. It is modelled as written.

`Wrappers` holds `Option`, which models C# `null`. `OrEmpty` is how a null
string reads once concatenated or interpolated. `Seqs` holds the generic
sequence functions the loops are specified with (filter, map, concatenation,
join, substring search) and their lemmas.

Reflection is replaced by descriptor values. A `TypeInfo` carries:
- its name, namespace and module string;
- its public/class/special-name flags;
- its methods, properties and fields, in the order reflection returns them.

### Notes on the code

- The table has 17 base families: ten numeric, three vector, and void,
  string, bool and object. String and void have only the plain form, and
  vectors have only the plain and `[]` forms.
- Each anchor line of the root index starts with `- ` and ends with a
  newline (Program.cs:272).
- The rendering loop (Program.cs:230-231) does not test `IsClass`, unlike the
  extraction filter (Program.cs:97-99). A public interface of the library
  therefore gets pages and an index line but no `Class` record
  (`Pages.IndexedVersusExtracted`).
- A method's declaration line writes `method.ReturnParameter` as reflection
  renders it, with no type-name conversion (Program.cs:344). The model takes
  that text as an input (`MethodInfo.ReturnParameter`).

## Model

| member | source | states |
|---|---|---|
| TypeNames.ConvertedType | Program.cs:82-91 | both names null gives ""; a null full name gives the simple name; a full name that is a table key gives its short form; any other full name is returned unchanged |
| TypeNames.TableEntryShape | Program.cs:11-80 | every table entry maps a `System.` name to an unqualified short form that is by-reference exactly when the key is and an array exactly when the key is |
| TypeNames.IntegerTypesShape | Program.cs:16-47 | the shape above for each of the 32 signed/unsigned 8-64 bit entries |
| TypeNames.FloatingPointTypesShape | Program.cs:48-55 | the shape above for the float and double entries |
| TypeNames.VectorTypesShape | Program.cs:60-65 | the shape above for the Vector2/3/4 entries |
| TypeNames.OtherTypesShape | Program.cs:70-79 | the shape above for void, string, bool and object entries |
| TypeNames.ShortFormNotKey | Program.cs:11-80 | no unqualified name (in particular no short form) is a key of the table |
| TypeNames.ConvertedTypeIdempotent | Program.cs:82-91 | converting an already converted full name again changes nothing |
| Seqs.ContainsIffOccurs | Program.cs:99 | the substring search used for `Module.ToString().Contains(...)` holds exactly when the pattern occurs at some position |
| Extractor.DocumentedTypeIff | Program.cs:97-99 | a type is extracted iff it is public, a class, not special-named and its module string contains `AltV.Net.` |
| Extractor.GenerateDataTree | Program.cs:93-192 | the loop's result equals the specification: one record per kept type, built by `ExtractClass`, in input order |
| Extractor.BuildClass | Program.cs:101-186 | the record built member by member equals `ExtractClass`: name, namespace (null as ""), and the filtered method, property and field lists |
| Extractor.BuildMethod | Program.cs:113-143 | the method record built parameter by parameter equals `ToMethod` |
| Extractor.DataTreeSelection | Program.cs:97-188 | the tree has one record per kept type, at the same position; every record comes from a kept input type and every kept input type's record is in the tree |
| Extractor.ClassRecordDefaults | DataTree.cs:12-23 | every extracted record has the type's name, its namespace or "" when null, no enums, no parent or child and is not pinned |
| Extractor.HasMethodNamed | Program.cs:117 | the `Exists` search is true iff some method already in the list has that name |
| Extractor.OverloadIffEarlierSameName | Program.cs:117-149 | a method record is marked as an overload iff an earlier record of the same class has the same name |
| Extractor.MethodsFollowDescriptors | Program.cs:111-149 | the method list has one record per public, non-special method in order, carrying its name, static flag, converted return type and parameters |
| Extractor.ParametersFollowDescriptors | Program.cs:125-143 | one parameter record per descriptor in order, with converted type, name (null as ""), optional and out flags copied |
| Extractor.PropertiesFollowDescriptors | Program.cs:152-170 | one record per non-special property in order, getter/setter flags equal CanRead/CanWrite; accessor visibility does not matter; special-named ones are dropped |
| Extractor.FieldsFollowDescriptors | Program.cs:172-186 | one record per public, non-special field in order, with converted type, name and static flag |
| Pages.ReplaceDots | Program.cs:233 | same length as the input, every `.` replaced by `_` and every other character kept |
| Pages.NamespaceDirectoryHasNoDots | Program.cs:233 | the namespace directory has the namespace's length, no dot, and replacing again changes nothing |
| Pages.LinkTargetIsClassPage | Program.cs:233-271 | an index anchor points at the `.html` rendering of the index page written for that type |
| Pages.IndexText | Program.cs:229-272 | the index text is one anchor line per public, non-special library type, in order |
| Pages.IndexCoversDataTree | Program.cs:230-231 | every type the extraction filter (Program.cs:97-99) keeps is also indexed, so there are at least as many index lines as class records |
| Pages.IndexedVersusExtracted | Program.cs:230-231 | for every type: it is extracted iff it is indexed and is a class, so a public non-special library type that is not a class is indexed but not extracted |
| Pages.InterfaceIsIndexedButNotExtracted | Program.cs:230-231 | a witness: a public library interface descriptor is indexed and not extracted |
| Pages.DeclaredAccessorsAreRecorded | Program.cs:158-159 | for a property whose CanRead/CanWrite agree with its accessors as in reflection, an accessor listed in the declaration line (Program.cs:281-284) is marked in the extracted record |
| Pages.ClassIndexText | Program.cs:241-265 | the class page is the header, a link per property with a public accessor that is not special, the methods heading, then a link per public non-special method |
| Pages.PropertyLinks | Program.cs:250-255 | the property loop appends exactly the links of the paged properties, in order |
| Pages.MethodLinks | Program.cs:262-265 | the method loop appends exactly the links of the public non-special methods, in order |
| Pages.EmptyClassPage | Program.cs:241-265 | a class with nothing to link gets both headings and no list items |
| Pages.MethodParameterText | Program.cs:320-342 | the trimmed accumulator is the declarations joined by ", " and the argument list is one bullet per parameter, in order |
| Pages.ParameterSnoc | Program.cs:322-338 | one more parameter extends the untrimmed string by its declaration and ", ", and the argument list by its bullet |
| Pages.ParameterStringShape | Program.cs:320-342 | no parameters gives ""; otherwise the string starts with the first declaration, ends with the last, and is the declarations plus exactly n-1 separators long |
| Pages.DefaultValueRendering | Program.cs:327-334 | required parameters get no suffix; a null default renders ` = null`, an empty one ` = ""`, any other ` = ` and its text |
| Pages.MethodDeclarationWithoutParameters | Program.cs:344 | a method with no parameters is declared with `()` after a space |
| Pages.PropertyDeclaration | Program.cs:280-286 | the declaration is type, name, `{ `, `get; ` iff the getter is public, `set; ` iff the setter is public, `}` |
| Pages.AccessorListRoundTrip | Program.cs:281-284 | the accessor flags can be read back from the accessor list |
| Pages.PropertyDeclarationDeterminesAccessors | Program.cs:280-286 | declarations of the same type and name are equal only when both accessors' visibility agrees |
| Seqs.TerminatedIsJoinThenSep | Program.cs:336-342 | appending a separator after every item, then dropping the final separator, gives the joined form |
| Seqs.JoinLength | Program.cs:336-342 | a joined string is the items' total length plus one separator per gap |
| Seqs.JoinEnds | Program.cs:336-342 | a joined string starts with the first item and ends with the last |

## Left out

- Reflection: `Assembly.LoadFrom`, `GetTypes`, `GetMethods`, `GetProperties`,
  `GetFields`, `GetParameters`, `IsSpecialName` and `Module.ToString()` are
  foreign library calls. Their results are inputs, the descriptor records of
  `Descriptors`.
- `ParameterInfo.DefaultValue.ToString()`, `method.ReturnParameter` and
  `property.PropertyType` stringification are foreign. Their text is an input.
  A default whose `ToString()` returns null would throw in the source; this is
  not modelled.
- `OrderBy(x => x.Position)` (Program.cs:322): the parameters are taken to be in
  position order already, as reflection returns them.
- File-system I/O: creating and deleting directories, and writing and closing
  files (Program.cs:209-220, 235-240, 267-269, 288-314, 346-387). The model
  yields the strings that would be written. So it does not capture one source
  behaviour: two overloads writing the same method page file, where the last
  write wins.
- The `#if DEBUG` console echoes and the `Console.WriteLine` of file names are
  observational output only.
- `Environment.Exit(0)` (Program.cs:225) is process control. The rendering
  code after it is modelled as if reached.
- The fixed markdown boilerplate of the property and method pages
  (Program.cs:292-310, 349-375) is constant text around the modelled
  declaration strings.
- TypeNames.ConvertedType: the table is written as four map literals joined by
  union, grouped as in the source's comments (numeric, vector, other), with the numeric group split into integer and floating-point literals, so that its entries can be
  checked group by group. The entries are the source's verbatim. The model
  proves the shape of every entry, not a lookup of each individual key.
- The data-tree records are values (datatypes), not objects updated in place.
  The in-place list appends of the source become the extraction loops, each
  proved against its specification function. Aliasing between records does
  not arise in the source.
