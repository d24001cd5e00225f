# RNIBase mapping builder, in Dafny

This project models the one piece of logic the `estest` program owns: the
`RNIBase` helper. It builds the Elasticsearch put-mapping body for a record class
that uses the RNI (Rosette name-indexing) plugin. `MapToRNITypes` reflects over the class's
public instance properties and produces

    { "<ClassName>": { "properties": { "<Prop>": { "type": <RniType(type name)> }, ... } } }

`RniType` looks the CLR type name up in a fixed dictionary: `String` becomes `rni_name`,
`DateTime` becomes `rni_date`, and any other name passes through unchanged.

Modules:

- `Wrappers` (`wrappers.dfy`): `Option` and `Result`.
- `JsonTree` (`json_tree.dfy`): the Newtonsoft JObject/JProperty tree the builder uses.
  It has string values and objects that keep insertion order. `NewObject` is `new JObject(members)`:
  it adds members one at a time and fails with `DuplicateKey` on the first name that is
  already present. `Get` is the `token[key]` indexer.
- `RniBase` (`rni_base.dfy`): `RniType`, `MapToRniTypes`, the consumer's view of the
  document (`DeclaredType`, `ReadMapping`) and the lemmas relating them.
- `SampleRecord` (`sample_record.dfy`): the test program's `Record` class and the mapping it
  registers.

Reflection is replaced by an explicit input, `ClassShape(name, properties)`. Each
property is a `Property(name, typeName)`, where `typeName` is `PropertyType.Name`.
The properties come in whatever order reflection enumerates them; .NET does not
promise an order, so the model keeps the input order.

On these points the model follows the code, not a generalised reading of it:

- The override table is hard-coded with the keys `String` and `DateTime`. It is not
  a parameter, and it has no other keys.
- An empty class name is not an error. The code has no such check, and
  a JProperty accepts an empty name.
- The order of the properties is kept, as the JObject built from the LINQ query keeps it.
- Two public properties with the same name make the JObject constructor throw. This can
  happen when a derived class hides a property with `new`. The model returns
  `Err(DuplicateKey(name))` for the first repeated name and does not use a precondition.

## Model

| member | source | states |
|---|---|---|
| `RniBase.RniType` | estest/RNIBase.cs:47-59 | `String` resolves to `rni_name`, `DateTime` to `rni_date`, every other type name to itself |
| `RniBase.RniTypeChangesOnlyKeys` | estest/RNIBase.cs:53-58 | a type name is changed if and only if it is a key of the override dictionary |
| `RniBase.RniTypeCaseSensitive` | estest/RNIBase.cs:48-53 | the lookup is exact and ordinal: `string`, `STRING`, `Datetime`, `dateTime`, `Nullable``1`, `Int32` pass through |
| `RniBase.RniTypeIdempotent` | estest/RNIBase.cs:48-58 | no override result is a key, so resolving twice equals resolving once |
| `RniBase.RniTypeResultNames` | estest/RNIBase.cs:48-58 | the result is `rni_name` exactly for `String` (or `rni_name`), and `rni_date` exactly for `DateTime` (or `rni_date`) |
| `JsonTree.AddAll` | estest/RNIBase.cs:31-33 | adding properties in order succeeds exactly when all names are distinct; it then holds them in order, and otherwise fails naming the first repeated name |
| `JsonTree.NewObject` | estest/RNIBase.cs:31-33 | the properties object is built exactly when the names are distinct; it holds the members in input order; otherwise the error names the first repeated name |
| `RniBase.MapToRniTypes` | estest/RNIBase.cs:22-40 | a document is produced if and only if the property names are distinct; otherwise the error names the first property whose name repeats an earlier one |
| `RniBase.MappingDeclaresEveryProperty` | estest/RNIBase.cs:27-33 | every input property is found at `doc[class]["properties"][name]["type"]`, and the value there is `RniType` of its CLR type |
| `RniBase.MappingDeclaresNothingElse` | estest/RNIBase.cs:27-33 | the only top-level key is the class name; every declared property name is an input property, declared with that property's resolved type |
| `RniBase.ReadPropertyMembers` | estest/RNIBase.cs:32-33 | the `properties` object reads back as one (name, resolved type) entry per input property, in input order |
| `RniBase.MappingReadsBack` | estest/RNIBase.cs:23-38 | the document is exactly `{class: {"properties": {...}}}`: reading it back gives the class name and every property, in order, with its resolved type |
| `RniBase.MappingOfResolvedClass` | estest/RNIBase.cs:32-33 | mapping a class whose type names are already resolved yields the same document (or the same error) |
| `RniBase.MappingOfEmptyClass` | estest/RNIBase.cs:27-34 | a class without public properties maps to `{name: {"properties": {}}}`, for any name including the empty one |
| `RniBase.MappingOfHiddenProperty` | estest/RNIBase.cs:31-33 | two properties named `Id` make the construction fail with `DuplicateKey("Id")` |
| `SampleRecord.RecordMapping` | estest/Program.cs:132-137 | the sample `Record` maps `Id`, `FullName` and `LocalName` to `rni_name` and `DateOfBirth` to `rni_date`, in declaration order |
| `SampleRecord.RecordMappingMatchesPutMappingType` | estest/Program.cs:48 | the document's top-level key is `Record`, the type name passed to `IndicesPutMapping` |

## Left out

- `body.ToString()` (estest/RNIBase.cs:39): the model returns the document tree. Newtonsoft's indentation and string escaping in the serialised text are not modelled.
- Reflection (`GetType().Name`, `GetProperties`) is replaced by the explicit `ClassShape` input. The enumeration order is taken as given.
- `Program.Main` (estest/Program.cs:10-104): index creation and deletion, indexing, get, search and rescore are calls to the NEST client against a remote cluster, plus console output. It has no logic of its own.
- The inline `function_score`/`name_score` query (estest/Program.cs:63-74) is a constant literal.
- `RniJsonNetSerializer` (estest/Program.cs:110-126) only selects Newtonsoft's `IsoDateTimeConverter` with format `yyyy-MM-dd`. That converter is library code and is not part of this model.
- Null property names cannot arise from reflection and are not modelled.
