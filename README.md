# Coplt.ShaderReflections: the Direct3D 12 extraction, in Dafny

Coplt.ShaderReflections turns the reflection data of a compiled HLSL shader
into one portable metadata document (`ShaderMeta`), which is then written out
as JSON. Its Direct3D 12 backend asks an `ID3D12ShaderReflection` object
about the shader. It then normalises every native enumeration and descriptor
into the portable records: bound resources keyed by name, constant buffers
with their variables, a flat registry of named types, the three signatures,
and one extension record. This project models that normalisation engine and
proves what it promises.

- `core.dfy` (module `Base`): `Option` and the unsigned integer widths the
  records use (`u32`, `u64`), and `int.MaxValue`.
- `shader_meta.dfy` (modules `ShaderReflections`, `ShaderResourceFlags`,
  `ShaderVectorMask`): the portable records and enumerations.
  - Every nullable property is an `Option`.
  - Every enumeration has its declaration-order `Ordinal` (the C# enum value).
  - The capability bits and the vector-mask bits are `bv32`/`bv8` constants.
    Lemmas state their layout.
- `d3d.dfy` (module `D3D`): the native side.
  - The Direct3D enumerations are datatypes. Each has an `Unlisted…(code)`
    case for numeric values the translators do not name.
  - The descriptors are records.
  - The reflection object is immutable data: every fallible `GetDesc`-style
    call is a `Fallible` value, and the type objects form a graph keyed by
    handle, possibly shared and cyclic.
- `utils.dfy` (module `Utils`): the translators from native to portable
  enumerations, and the decoding of the packed shader-version word. It also
  has a reader for the version string, used to prove that the string loses
  nothing.
- `program.dfy` (module `App`): the builders and the extraction run.
  - The type dictionary the builders share is the class `TypeRegistry`.
  - `Guid.NewGuid` is the class `GuidSource`, over a supply of names.
  - The recursive type resolution (`BuildType` with its helpers) is a set of
    mutually recursive methods.
  - The binding, constant-buffer and signature loops are `while` loops. The
    signature loops write into arrays.
  - The document is assembled from what the loops collected.
  - Every exception of the original ends the run. Here each is an `Err` of
    `BuildError`, passed on by the callers.

The extraction holds two surprises, both modelled as written:

- The patch-constant signature loop stores its elements into the **output**
  array, so `Patchs` holds only nulls. `App.BuildSignatures` and
  `App.SignaturesOf` state this.
- The `FeedbackTexture` binding kind is a UAV in Direct3D, but its flags
  carry no `Uav` bit. `Utils.FeedbackTextureIsNotFlaggedUav` states this.

`App.Run` takes two parameters besides the reflection data:

- `supply: nat -> string` stands for `Guid.NewGuid`: the `k`-th GUID drawn is
  `supply(k)`.
- `rank` is a ghost map used only for termination. The precondition
  `D3D.RankedGraph` says that every cycle of the type graph passes through a
  named type. On a cycle of unnamed types the original recurses without end.

## Model

| member | source | states |
|---|---|---|
| D3D.VersionTypeOf | Coplt.ShaderReflections.Dxc/Utils.cs:10 | the cast of a kind tag: the kind is unknown exactly for tags above 14, and its numeric value is the tag, so the cast loses nothing |
| Utils.KindOf | Coplt.ShaderReflections.Dxc/Utils.cs:10 | the kind is read from bits 16-31 of the word: its numeric value is the word's upper half, unknown exactly when that is above 14 |
| Utils.Prefix | Coplt.ShaderReflections.Dxc/Utils.cs:11-29 | the prefix is "unknown" exactly for kind tags outside the fifteen named kinds; it is never empty and never starts with '_' |
| Utils.Major | Coplt.ShaderReflections.Dxc/Utils.cs:30 | the major version (bits 4-7) is below 16 |
| Utils.Minor | Coplt.ShaderReflections.Dxc/Utils.cs:30 | the minor version (bits 0-3) is below 16 |
| Utils.Decimal | Coplt.ShaderReflections.Dxc/Utils.cs:30 | the interpolated number is a non-empty string of decimal digits, one digit exactly when the number is below 10 |
| Utils.DecimalRoundTrip | Coplt.ShaderReflections.Dxc/Utils.cs:30 | reading the digits back gives the number |
| Utils.VersionPartsRoundTrip | Coplt.ShaderReflections.Dxc/Utils.cs:30 | a "prefix_major_minor" string splits back into its prefix and its two numbers, even when the prefix contains '_' |
| Utils.VersionToString | Coplt.ShaderReflections.Dxc/Utils.cs:8-31 | the version string reads back as the kind prefix, the major and the minor version of the word |
| Utils.ComputeShaderModel65 | Coplt.ShaderReflections.Dxc/Utils.cs:8-55 | the word 0x50065 gives "cs_6_5" and the Compute stage |
| Utils.VersionToStage | Coplt.ShaderReflections.Dxc/Utils.cs:33-55 | the stage is Other exactly when the kind is none of pixel, vertex, compute, library, mesh, amplification |
| Utils.VersionToStageTable | Coplt.ShaderReflections.Dxc/Utils.cs:38-52 | those six kinds give Pixel, Vertex, Compute, Library, Mesh and Task (amplification becomes Task) |
| Utils.UnknownKindTag | Coplt.ShaderReflections.Dxc/Utils.cs:8-55 | a kind tag above 14 is no failure: the string starts with "unknown" and the stage is Other |
| Utils.VersionIgnoresBits8To15 | Coplt.ShaderReflections.Dxc/Utils.cs:8-55 | two words that differ only in bits 8-15 give the same string and the same stage |
| Utils.StageDependsOnKindTagOnly | Coplt.ShaderReflections.Dxc/Utils.cs:33-55 | the stage depends on bits 16-31 only |
| Utils.ToShaderResourceFlags | Coplt.ShaderReflections.Dxc/Utils.cs:57-74 | the flags are None exactly for unlisted kinds. Every UAV kind but the feedback texture has the Uav bit. IsStructured is set exactly for the five structured kinds, IsByteAddress exactly for the two byte-address kinds, Counter exactly for the counter UAV. No result has both Srv and Uav |
| Utils.StructuredUavWithCounterFlags | Coplt.ShaderReflections.Dxc/Utils.cs:70 | the structured UAV with counter tests true for Uav, IsStructured and Counter together |
| Utils.FeedbackTextureIsNotFlaggedUav | Coplt.ShaderReflections.Dxc/Utils.cs:72 | the feedback texture is a UAV kind, maps to the single FeedbackTexture bit and has no Uav bit |
| Utils.ToShaderTexStorage | Coplt.ShaderReflections.Dxc/Utils.cs:76-87 | the storage is Unknown exactly for the native None return type and unlisted values |
| Utils.ToShaderTexDimension | Coplt.ShaderReflections.Dxc/Utils.cs:89-104 | the dimension is Unknown exactly for the native Unknown dimension and unlisted values |
| Utils.ToShaderVectorComponentType | Coplt.ShaderReflections.Dxc/Utils.cs:106-113 | the component type is Unknown exactly for the native Unknown and unlisted values |
| Utils.ToShaderSemantic | Coplt.ShaderReflections.Dxc/Utils.cs:115-144 | the semantic is Undefined exactly for the native Undefined name and unlisted values |
| Utils.SemanticTranslationRoundTrip | Coplt.ShaderReflections.Dxc/Utils.cs:115-144 | every listed native name is recovered from its semantic by the inverse table |
| Utils.SemanticTranslationIsOnto | Coplt.ShaderReflections.Dxc/Utils.cs:115-144 | every semantic but Undefined is the image of a listed native name |
| Utils.ToShaderSemanticInjective | Coplt.ShaderReflections.Dxc/Utils.cs:115-144 | two listed native names with the same semantic are equal |
| Utils.ToShaderMinPrecision | Coplt.ShaderReflections.Dxc/Utils.cs:146-155 | the precision is Default exactly for the native default and unlisted values |
| Utils.ToShaderTypeKind | Coplt.ShaderReflections.Dxc/Utils.cs:157-168 | the kind is Scalar exactly for the native scalar class and unlisted values |
| Utils.ToShaderVarType | Coplt.ShaderReflections.Dxc/Utils.cs:170-228 | every native type the table does not list falls to Unknown |
| Utils.VarTypeFallback | Coplt.ShaderReflections.Dxc/Utils.cs:170-228 | the variable type is Unknown exactly for the native types the table does not list |
| Utils.UnlistedVarTypeIsUnknown | Coplt.ShaderReflections.Dxc/Utils.cs:227 | every unlisted native type (shader objects, interface pointers, other codes) falls to Unknown |
| Utils.VarTypeTranslationRoundTrip | Coplt.ShaderReflections.Dxc/Utils.cs:170-228 | every listed native type is recovered from its portable type by the inverse table |
| Utils.VarTypeTranslationIsOnto | Coplt.ShaderReflections.Dxc/Utils.cs:170-228 | every portable type but Unknown is the image of a listed native type |
| Utils.ToShaderVarTypeInjective | Coplt.ShaderReflections.Dxc/Utils.cs:170-228 | two listed native types with the same portable type are equal |
| Utils.FallbacksAreDefaults | Coplt.ShaderReflections.Dxc/Utils.cs:57-228 | for every unlisted numeric value, each translator's fallback arm is the member with enum value 0; the named zero members (no return type, unknown dimension, unknown component, undefined name, default precision, scalar class) map to the zero member too |
| ShaderReflections.NewShaderMeta | Coplt.ShaderReflections/ShaderMeta.cs:8-27 | a new document has stage Other, every collection null and `Exts` empty |
| ShaderResourceFlags.BaseBitsAreDisjointSingleBits | Coplt.ShaderReflections/ShaderMeta.cs:146-184 | the fourteen base members are single bits at 0-6, 10, 11, 16-18, 20 and 21, pairwise disjoint |
| ShaderResourceFlags.StructuredUavVariantsExtendRwStructured | Coplt.ShaderReflections/ShaderMeta.cs:166-179 | append, consume and counter structured buffers keep every bit of RwStructured |
| ShaderResourceFlags.CompositesAreConsistent | Coplt.ShaderReflections/ShaderMeta.cs:160-179 | no composite member is both Srv and Uav, or both structured and byte-address |
| ShaderResourceFlags.CompositesAreDistinct | Coplt.ShaderReflections/ShaderMeta.cs:146-184 | the composite members differ from each other and from every base member |
| ShaderVectorMask.NamedMasksAreTheNonEmptyNibbles | Coplt.ShaderReflections/ShaderMeta.cs:237-257 | the fifteen named masks are exactly the non-empty subsets of x, y, z, w |
| App.TypeRegistry.Add | Coplt.ShaderReflections.Dxc/Program.cs:308 | adding a key already present fails with DuplicateKey and changes nothing; otherwise the entry is added |
| App.GuidSource.NewGuid | Coplt.ShaderReflections.Dxc/Program.cs:294 | each call hands out the next name of the supply |
| App.BuildType | Coplt.ShaderReflections.Dxc/Program.cs:289-315 | a failing GetDesc fails the run. A registered name returns its entry and changes nothing. Otherwise the result is new under its native name or the next GUID, is stored under its name, and is the finished entry of the type object: it flattens the descriptor (translated class and type, copied shape, members null exactly when there are none, one member name per member object, each the member's native name when it has one). The registry stays coherent (each member name is a key), only grows, and every entry stays the finished entry of some type object of the graph. On a well-formed graph with names everywhere, or with fresh GUIDs, it succeeds |
| App.Register | Coplt.ShaderReflections.Dxc/Program.cs:293-308 | the entry is added before its members are resolved, under the native name or a fresh GUID, with the translated kind and type and the copied shape |
| App.AddType | Coplt.ShaderReflections.Dxc/Program.cs:294-314 | a new key (the native name or the next GUID) whose entry is the finished entry of the type object; the registry still coherent, only grown, and every entry the finished entry of some type object |
| App.CompleteType | Coplt.ShaderReflections.Dxc/Program.cs:308-314 | the entry pre-registered for the type object is replaced, under the same key, by its finished entry: the member names in member order, each a key; every other entry keeps its provenance |
| App.SourcedAfterRegister | Coplt.ShaderReflections.Dxc/Program.cs:296-308 | pre-registering a new key with the flattened descriptor keeps every key traced to the graph, the new one as under registration |
| App.SourcedAfterComplete | Coplt.ShaderReflections.Dxc/Program.cs:309-314 | storing the finished entry over the pre-registered one ends its registration; every key is still traced to the graph |
| App.FinishedEntry | Coplt.ShaderReflections.Dxc/Program.cs:308-314 | the pre-registered entry with the resolved member names filled in is the finished entry of its type object |
| App.ResolveMembers | Coplt.ShaderReflections.Dxc/Program.cs:309-313 | one name per member object, in order, each a key of the registry and equal to the member's native name when it has one |
| App.ResolveMember | Coplt.ShaderReflections.Dxc/Program.cs:311-312 | the member's type is built and its key returned: a registered name, equal to the member's native name when it has one; the registry stays coherent and only grows, and on a well-formed graph with names everywhere, or with fresh GUIDs, it succeeds |
| App.OnlyNativeNames | Coplt.ShaderReflections.Dxc/Program.cs:293-295 | when every type object has a name no GUID is drawn and every key is a native type name |
| App.SelfReferentialStruct | Coplt.ShaderReflections.Dxc/Program.cs:296-313 | a struct whose one member is itself resolves: one entry, whose member list names that entry |
| App.Region | Coplt.ShaderReflections.Dxc/Program.cs:176-198 | a region is reported exactly when its start or its size is non-zero, and then with that start and size |
| App.CopyDefaultValue | Coplt.ShaderReflections.Dxc/Program.cs:209 | no pointer gives null. A size from 2^31 on fails with NegativeLength (the `(int)` cast). A pointer to fewer bytes than the size faults. Otherwise the result is the first `Size` bytes |
| App.BuildVar | Coplt.ShaderReflections.Dxc/Program.cs:170-218 | a failing GetDesc fails. A null name or a failing default value fails. On success the record holds the name, the three regions, the default value, the flags and a registered type key: the native name of the variable's own type object when it has one, and otherwise a key whose entry is that type object's finished entry. A readable, named variable with a valid default value and a type object in a well-formed graph always builds, given names everywhere or fresh GUIDs |
| App.CollectVars | Coplt.ShaderReflections.Dxc/Program.cs:146-152 | every variable is built in order and stored under its name, described as BuildVar states (type key tied to its own type object); names are distinct (a repeat fails), every key comes from a variable, and every registry entry stays traced to the graph. When every variable builds and no two share a name, the loop succeeds |
| App.NextVar | Coplt.ShaderReflections.Dxc/Program.cs:149-151 | one turn of the variable loop: a name already stored fails with DuplicateKey; otherwise the variable is added and the first i+1 variables are described; a variable that builds under a new name gives Ok |
| App.VarNameFresh | Coplt.ShaderReflections.Dxc/Program.cs:151 | a name no earlier variable has is not yet a key of the variable map |
| App.VarsOfGrows | Coplt.ShaderReflections.Dxc/Program.cs:146-152 | the variables built so far stay described as the registry grows |
| App.DescribesVarGrows | Coplt.ShaderReflections.Dxc/Program.cs:170-218 | a variable's description, type link included, survives the growth of the registry |
| App.VarsOfNonEmpty | Coplt.ShaderReflections.Dxc/Program.cs:158 | the variable map is empty exactly when the buffer has no variables |
| App.BuildCb | Coplt.ShaderReflections.Dxc/Program.cs:140-168 | a failing GetDesc fails. On success name, size, type text and flags are copied, and the variables are null exactly when there are none, otherwise the variable map described variable by variable, each type key tied to its own type object; every registry entry stays traced to the graph. A readable, named buffer whose variables all build under distinct names always builds |
| App.Keyed | Coplt.ShaderReflections.Dxc/Program.cs:70-75 | indexer assignment in order: every item's key is present and every entry is one of the items under its key |
| App.KeyedAppend | Coplt.ShaderReflections.Dxc/Program.cs:74 | one more assignment updates the map at that item's key only |
| App.KeyedLastWins | Coplt.ShaderReflections.Dxc/Program.cs:74 | the entry under a key is the last item with that key |
| App.KeyedIsEmpty | Coplt.ShaderReflections.Dxc/Program.cs:119-120 | the map is empty exactly when there were no items |
| App.SrvShape | Coplt.ShaderReflections.Dxc/Program.cs:225-232 | the SRV shape is present exactly when the return type, the sample count or the dimension is non-zero |
| App.SrvOmissionIsLossless | Coplt.ShaderReflections.Dxc/Program.cs:225-232 | an omitted SRV shape, read back with defaults, equals the translated shape |
| App.BuildResBind | Coplt.ShaderReflections.Dxc/Program.cs:220-251 | a failing read fails. The result is Ok exactly when the read succeeds with a name, and then holds the name, translated flags, bind point, count, space, SRV shape, id and flags |
| App.ReadBindings | Coplt.ShaderReflections.Dxc/Program.cs:70-75 | Ok exactly when every binding builds, with one record per binding in order; otherwise the error of the first failing binding |
| App.ReadBindingsKeepsFirstError | Coplt.ShaderReflections.Dxc/Program.cs:71-74 | once a binding fails, later bindings do not change the outcome |
| App.CollectBindings | Coplt.ShaderReflections.Dxc/Program.cs:70-75 | the loop fails exactly when a binding fails, with that error; otherwise the map is the bindings stored by name in order |
| App.BuildParam | Coplt.ShaderReflections.Dxc/Program.cs:274-287 | the semantic is Undefined exactly for unlisted names, and otherwise names the native value. The mask is [mask, read-write mask]. Slot, index, register and stream are copied; storage and precision are translated |
| App.BuildParamAt | Coplt.ShaderReflections.Dxc/Program.cs:253-272 | Ok exactly when the element reads, then the built record; otherwise DescriptorReadFailed |
| App.FillParams | Coplt.ShaderReflections.Dxc/Program.cs:85-104 | succeeds exactly when every element reads and fits the array; then slots below the count hold the built elements and the rest are unchanged; a failure is DescriptorReadFailed or IndexOutOfRange |
| App.CollectConstantBuffers | Coplt.ShaderReflections.Dxc/Program.cs:77-83 | on success the map is the built buffers stored by name in order, each buffer is what BuildCb makes of the native one (variable types linked to their type objects), and every registry entry is the finished entry of some type object; with no buffers the registry stays empty. An unreadable or unnamed buffer fails the loop; when every buffer builds it succeeds |
| App.DescribedCbsNamed | Coplt.ShaderReflections.Dxc/Program.cs:77-83 | every buffer described has a readable descriptor with its name |
| App.NextCb | Coplt.ShaderReflections.Dxc/Program.cs:80-82 | one buffer built after the earlier ones, which stay described as the registry grows; the map gains it under its name; a buffer that builds gives Ok |
| App.CbsStep | Coplt.ShaderReflections.Dxc/Program.cs:80-82 | the buffers so far stay described against the grown registry, and the map gains the new buffer under its name |
| App.DescribesCbsGrows | Coplt.ShaderReflections.Dxc/Program.cs:77-83 | the buffers built so far stay described as the registry grows |
| App.CbsLastWins | Coplt.ShaderReflections.Dxc/Program.cs:77-83 | every buffer's name is a key, and a buffer with no later namesake is the entry under its name |
| App.CbsOfEntries | Coplt.ShaderReflections.Dxc/Program.cs:77-83 | the buffer map is non-empty and holds every buffer's name; the last buffer of each name is described by the entry |
| App.BuildSignatures | Coplt.ShaderReflections.Dxc/Program.cs:85-104 | succeeds exactly when every element reads and the patch count fits the output array. Inputs are in place. Outputs below the patch count hold patch-constant elements. The patch array stays all null |
| App.Collect | Coplt.ShaderReflections.Dxc/Program.cs:68-104 | a failing binding, an unreadable or unnamed constant buffer, an unreadable signature element or a patch count above the output count fails. On success bindings, buffers and the signature arrays are what the loops make of the reflection; the registry is coherent, empty without buffers, every entry the finished entry of some type object, and every key a native type name or a GUID. When every read succeeds, every name the dictionaries need is present and distinct, the type graph is well formed, and every type is named or the GUIDs are fresh, it succeeds |
| App.GrownKeysNamedOrDrawn | Coplt.ShaderReflections.Dxc/Program.cs:293-294 | every key of a registry grown from empty is a native type name or a GUID of the supply |
| App.Assemble | Coplt.ShaderReflections.Dxc/Program.cs:106-126 | stage from the version word; one extension record with version string, creator, flags, feature level, required flags and sample frequency; the thread-group size only when the query returns non-zero; each collection property null exactly when the collection is empty |
| App.AssembledTypes | Coplt.ShaderReflections.Dxc/Program.cs:121 | the `Types` property read back is the registry the loops filled |
| App.AssembleRes | Coplt.ShaderReflections.Dxc/Program.cs:119 | `Res` is null exactly without bound resources, otherwise the bindings by name |
| App.AssembleCbs | Coplt.ShaderReflections.Dxc/Program.cs:120 | `Cbs` is null exactly without buffers, otherwise the buffers by name, each described against the `Types` property |
| App.AssembleTypes | Coplt.ShaderReflections.Dxc/Program.cs:121 | `Types` is null or non-empty, null whenever `Cbs` is, coherent, every entry the finished entry of some type object, and native names only when every type has one |
| App.TypesEntryFlattens | Coplt.ShaderReflections.Dxc/Program.cs:296-308 | every entry of `Types` is the flattened descriptor of a readable type object, stored under that object's native name when it has one |
| App.AssembleSignatures | Coplt.ShaderReflections.Dxc/Program.cs:122-124 | each signature property is null exactly when its count is zero, with the contents BuildSignatures leaves |
| App.Run | Coplt.ShaderReflections.Dxc/Program.cs:54-126 | a failing feature-level or descriptor query fails, as do a failing binding, an unreadable or unnamed constant buffer, an unreadable signature element and a patch count above the output count. When every read succeeds and no key collides (`App.Extractable`) it yields a document. On success the header, `Res`, `Cbs` (variable types linked to their type objects), `Types` (null when `Cbs` is, every entry traced to the graph, every key a native name or a GUID) and the three signatures are as stated above |

## Left out

- The command line, the console output, reading the shader file, creating the
  DXC reflection object, and the JSON writing are I/O. The JSON context is not
  part of this model.
- The COM objects are immutable data. A failing HRESULT (`ThrowHResult`) is a
  `Failed` read. An index past the end of a binding or signature list also
  reads as `Failed`.
- `Guid.NewGuid` is a name supply. Collisions are not excluded: a GUID that is
  already a key fails as `Dictionary.Add` would. Success of the type
  resolution, and so of `App.BuildVar`, the buffer loops, `App.Collect` and
  `App.Run`, is promised only when the supply is fresh (`App.FreshSupply`) or
  every type has a name.
- `ToString()` of the feature level and of the constant-buffer type are
  opaque strings taken as given. The numeric values of the Silk.NET
  enumerations are reduced to constructors plus an unlisted code.
- App.BuildType: requires `D3D.RankedGraph`, so it does not model the
  unbounded recursion on a cycle of unnamed types.
- App.ResolveMember: a null member pointer, which the original dereferences,
  is the error `NativeMemoryFault`. A default-value pointer to fewer bytes
  than `Size` is the same error.
- App.BuildVar: with a null name the original throws later, at the
  dictionary insert. Here the builder returns `NullKey` at once; the run fails
  either way. The same holds for `App.BuildCb` and `App.BuildResBind`.
- App.AddType: in the original the registered entry and the member array are
  aliased, and the array fills in place. Here the entry is registered with no
  members and replaced once they are resolved. Between the two steps only the
  entry's name is looked at.
- App.SrvShape: the original calls `ToShaderSrvStorage` and
  `ToShaderSrvDimension`, which are not part of this model. The model uses the
  texture translators of the same tables. Those return `ShaderTexStorage` and
  `ShaderResDimension`, which `ShaderMeta.cs` does not declare; the model types
  their results as `ShaderSrvStorage` and `ShaderSrvDimension`, matching
  members by name.
- Utils.ToShaderVarType: its own contract states only that an unlisted type
  gives Unknown. The converse, that every listed type gives something else, is
  `Utils.VarTypeFallback`.
- App.CompleteType: an entry under registration is traced to its type object
  only as the flattened descriptor without members. The finished entry is
  traced with its member names, but the model states the provenance of an entry
  as "the finished entry of some type object", not of which one.
- The `Unlisted…(code)` cases of the `D3D` enumerations stand for values outside
  the listed members. The model gives the listed members no numeric codes, so
  the datatypes do not stop a `code` from equalling a listed member's value
  (`UnlistedReturnType(0)` is accepted, and `App.SrvShape` then gives a shape
  where the original, seeing `D3D_RETURN_TYPE` 0, would not).
- `ConstantBufferMeta` and `ShaderBindMeta` inherit from `ShaderResourceMeta`;
  the model inlines its `Name` and `Exts` into each record.
- App.Run: its result is characterised per property, not by an equation with
  a reference document. Success is promised under `App.Extractable`; failure is
  promised for the header queries, bindings, unreadable or unnamed constant
  buffers, signature elements and patch counts. A variable that does not build,
  a repeated variable name or a GUID collision is not stated to fail the run;
  the success description rules out only the first two (every described
  variable reads with a name, and the variable map holds distinct names).
