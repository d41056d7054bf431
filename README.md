# UnrealSharp glue generator, modelled in Dafny

This project models the core of UnrealSharp's C# binding generator: the export engine
(`FCSGenerator`), the property translator registry (`FCSPropertyTranslatorManager`), and the managed
`TimerHandle` value type.

The export engine walks the engine's reflection graph and decides which classes, interfaces,
structs, enums, delegates, functions and properties get C# glue. It keeps a memo of what it has
already exported, so that every class, interface and delegate is exported at most once. The
superclass recursion terminates because a class enters the memo before its superclass is
generated. The engine also partitions functions into normal and overridable ones, gathers the
modules a class depends on, collects extension methods per module, and writes one file per type.
The registry maps each property class to an ordered list of translators. Lookup returns the first
translator that accepts the property, and falls back to a null translator.

Layout, one module per file:
- `wrappers.dfy` (`Wrappers`): `Option`.
- `strings.dfy` (`Strings`): the engine's case-insensitive `FString::Find` and `EndsWith`, and
  case-insensitive equality as `FName` and `TSet<FString>` use it.
- `timer_handle.dfy` (`TimerHandles`): `TimerHandle`.
- `reflection.dfy` (`Reflection`): the reflection graph as an id-to-record map, plus the engine
  queries and the name mapper as uninterpreted functions.
- `inclusion.dfy` (`Inclusion`): the deny, allow, internal-allow and override lists.
- `translators.dfy` (`Translators`): the registry class `TranslatorManager`, and the reference
  table of its constructor.
- `ordered_sets.dfy` (`OrderedSets`): `TSet` as an insertion-ordered sequence without duplicates.
- `export_rules.dfy` (`ExportRules`): the pure eligibility rules (`CanExport*`, the class
  filters), enum backing type and entries, base-class naming, extension-method detection, module
  placement, and the version check.
- `export_specs.dfy` (`ExportSpecs`): reference functions for every export loop and for the glue
  of each kind of type.
- `generator.dfy` (`Generator`): the class `CSGenerator`, the imperative export engine. Each of its
  methods is proved against a function of `ExportSpecs` or `ExportRules`.

Generated text is not modelled. A builder is a sequence of abstract `Emission` records, one per
construct the source writes. A saved file is a `SavedFile(directory, fileName, content)` record
appended to `savedFiles`. The memo sets carry ghost logs, `exportLog` and `delegateLog`, in the
order of export. `ExportsValid` keeps both logs duplicate-free. Every logged type is in `exportedTypes`, and `delegateLog` holds exactly `exportedDelegates`. `exportedTypes` can hold more than `exportLog`: `CreateTranslatorManager` and `AddExportedType` mark the TimerHandle and InputActionValue structs exported without logging them. This is how
"exported at most once" is stated across any sequence of calls.

## Model

| member | source | states |
|---|---|---|
| TimerHandles.Int32Of | Plugins/UnrealSharp/Managed/UnrealSharp/UnrealSharp/Extensions/Engine/TimerHandle.cs:37-40 | the result lies in the int range, and equals the bit pattern whenever that fits, as C#'s `(int)` cast reads it |
| TimerHandles.GetHashCode | Plugins/UnrealSharp/Managed/UnrealSharp/UnrealSharp/Extensions/Engine/TimerHandle.cs:37-40 | the hash of the 64-bit handle is an int, computed from the handle alone |
| TimerHandles.ConstantWidths | Plugins/UnrealSharp/Managed/UnrealSharp/UnrealSharp/Extensions/Engine/TimerHandle.cs:10-14 | `IndexBits + SerialNumberBits == 64`, `MaxIndex == 2^24` and `MaxSerialNumber == 2^40`, with C#'s shift semantics |
| TimerHandles.DefaultIsInvalid | Plugins/UnrealSharp/Managed/UnrealSharp/UnrealSharp/Extensions/Engine/TimerHandle.cs:18-26 | a default-constructed handle holds 0 and is not valid |
| TimerHandles.ValidIffNonZero | Plugins/UnrealSharp/Managed/UnrealSharp/UnrealSharp/Extensions/Engine/TimerHandle.cs:23-26 | `IsValid` holds exactly when the handle is non-zero |
| TimerHandles.EqualIsEquivalence | Plugins/UnrealSharp/Managed/UnrealSharp/UnrealSharp/Extensions/Engine/TimerHandle.cs:42-45 | `==` holds exactly when the handles are equal, so it is reflexive, symmetric and transitive |
| TimerHandles.NotEqualIsNegation | Plugins/UnrealSharp/Managed/UnrealSharp/UnrealSharp/Extensions/Engine/TimerHandle.cs:47-50 | `!=` is exactly the negation of `==` |
| TimerHandles.EqualsObject | Plugins/UnrealSharp/Managed/UnrealSharp/UnrealSharp/Extensions/Engine/TimerHandle.cs:28-35 | `Equals(object)` agrees with `==` on a boxed handle and is false for any other object or null |
| TimerHandles.HashConsistent | Plugins/UnrealSharp/Managed/UnrealSharp/UnrealSharp/Extensions/Engine/TimerHandle.cs:37-45 | handles equal under `==` or `Equals` have equal hash codes |
| TimerHandles.ParseDecimalDigits | Plugins/UnrealSharp/Managed/UnrealSharp/UnrealSharp/Extensions/Engine/TimerHandle.cs:51-54 | the decimal text of a handle reads back as the handle |
| TimerHandles.ToStringInjective | Plugins/UnrealSharp/Managed/UnrealSharp/UnrealSharp/Extensions/Engine/TimerHandle.cs:51-54 | `ToString` gives equal text exactly for equal handles |
| TimerHandles.DecimalDigits | Plugins/UnrealSharp/Managed/UnrealSharp/UnrealSharp/Extensions/Engine/TimerHandle.cs:51-54 | the text is non-empty, all digits, and has no leading zero |
| Strings.FoldCase | Plugins/UnrealSharp/Source/GlueGenerator/CSGenerator.cpp:1022-1041 | the key of a string in a case-insensitive set has the string's length |
| Strings.FoldCaseIsKey | Plugins/UnrealSharp/Source/GlueGenerator/CSGenerator.cpp:1025-1041 | two strings are equal ignoring case exactly when their keys are equal |
| Strings.FoldCaseKeepsCase | Plugins/UnrealSharp/Source/GlueGenerator/CSGenerator.cpp:1025-1041 | a key equals its string ignoring case, and is its own key |
| Strings.FindFrom | Plugins/UnrealSharp/Source/GlueGenerator/CSGenerator.cpp:149-158 | the result is -1 or a match at or after the start |
| Strings.FindFromIsFirst | Plugins/UnrealSharp/Source/GlueGenerator/CSGenerator.cpp:149-158 | -1 only when nothing matches from the start on; otherwise nothing matches before the result |
| Strings.Find | Plugins/UnrealSharp/Source/GlueGenerator/CSGenerator.cpp:313 | `FString::Find` gives -1 or the index of a case-insensitive occurrence |
| Strings.FindIsFirst | Plugins/UnrealSharp/Source/GlueGenerator/CSGenerator.cpp:149-158 | `Find` gives -1 exactly when there is no occurrence, and otherwise the first one |
| Strings.ContainsIffSomeMatch | Plugins/UnrealSharp/Source/GlueGenerator/CSGenerator.cpp:149-158 | `Find(...) != INDEX_NONE` holds exactly when the text occurs somewhere |
| Strings.ExactMatchIsFound | Plugins/UnrealSharp/Source/GlueGenerator/CSGenerator.cpp:149-158 | an exact occurrence is found, at or before its index |
| Reflection.ReturnProperty | Plugins/UnrealSharp/Source/GlueGenerator/CSGenerator.cpp:352 | `GetReturnProperty` exists exactly when some parameter is a return parameter, and is the first such |
| Reflection.FirstReturnIndex | Plugins/UnrealSharp/Source/GlueGenerator/CSGenerator.cpp:373-388 | the index of the first return parameter, with no return parameter before it, or the parameter count |
| Translators.FirstMatch | Plugins/UnrealSharp/Source/GlueGenerator/CSPropertyTranslatorManager.cpp:108-115 | the index of the first translator that accepts the property; none before it accepts |
| Translators.ResolveIsFirstMatch | Plugins/UnrealSharp/Source/GlueGenerator/CSPropertyTranslatorManager.cpp:102-119 | resolution is the first accepting translator in registration order, else the null translator |
| Translators.EarlierAcceptingHandlerWins | Plugins/UnrealSharp/Source/GlueGenerator/CSPropertyTranslatorManager.cpp:108-115 | when two translators for one class both accept, the earlier one is chosen |
| Translators.FirstMatchAppend | Plugins/UnrealSharp/Source/GlueGenerator/CSPropertyTranslatorManager.cpp:138-142 | appending a translator changes the first match only where nothing earlier accepted |
| Translators.AppendKeepsResolution | Plugins/UnrealSharp/Source/GlueGenerator/CSPropertyTranslatorManager.cpp:138-142 | registering another translator never changes a resolution that did not fall back to the null translator |
| Translators.DenyNamedStructsIsChain | Plugins/UnrealSharp/Source/GlueGenerator/CSPropertyTranslatorManager.cpp:72-80 | the nine named registrations deny their structs one after the other, in order |
| Translators.DenyCustomStructsAddsDefaults | Plugins/UnrealSharp/Source/GlueGenerator/CSPropertyTranslatorManager.cpp:72-84 | registering the custom structs denies exactly those eleven structs and changes nothing else in the list |
| Translators.RegisteredBelowUpdate | Plugins/UnrealSharp/Source/GlueGenerator/CSPropertyTranslatorManager.cpp:138-142 | registering an early class keeps the table's classes among the early ones |
| Translators.WithStructsList | Plugins/UnrealSharp/Source/GlueGenerator/CSPropertyTranslatorManager.cpp:72-91 | the struct registrations give the struct class the full struct list |
| Translators.WithStructsBelow | Plugins/UnrealSharp/Source/GlueGenerator/CSPropertyTranslatorManager.cpp:72-91 | the struct registrations touch no class registered later |
| Translators.DefaultTableForIsChain | Plugins/UnrealSharp/Source/GlueGenerator/CSPropertyTranslatorManager.cpp:36-100 | the constructor's table is its nine groups of registrations applied in order |
| Translators.RegistersDefaultsCompose | Plugins/UnrealSharp/Source/GlueGenerator/CSPropertyTranslatorManager.cpp:36-100 | two consecutive groups of registrations compose into one |
| Translators.WithNumbersEntries | Plugins/UnrealSharp/Source/GlueGenerator/CSPropertyTranslatorManager.cpp:40-47 | the eight blittable number classes get their reference lists, and nothing else changes |
| Translators.WithSignedIntegersEntries | Plugins/UnrealSharp/Source/GlueGenerator/CSPropertyTranslatorManager.cpp:40-43 | the four signed integer classes get their reference lists, and nothing else changes |
| Translators.WithUnsignedIntegersAndDoubleEntries | Plugins/UnrealSharp/Source/GlueGenerator/CSPropertyTranslatorManager.cpp:44-47 | the unsigned integer classes and double get their reference lists, and nothing else changes |
| Translators.WithEnumsAndBoolEntries | Plugins/UnrealSharp/Source/GlueGenerator/CSPropertyTranslatorManager.cpp:48-56 | float, enum, byte and bool get their reference lists, with the enum translator ahead of `byte` |
| Translators.WithTextTypesEntries | Plugins/UnrealSharp/Source/GlueGenerator/CSPropertyTranslatorManager.cpp:58-60 | string, name and text get their reference lists, and nothing else changes |
| Translators.WithObjectReferencesEntries | Plugins/UnrealSharp/Source/GlueGenerator/CSPropertyTranslatorManager.cpp:62-64 | weak object, object and class get their reference lists, and nothing else changes |
| Translators.WithSoftReferencesEntries | Plugins/UnrealSharp/Source/GlueGenerator/CSPropertyTranslatorManager.cpp:65-66 | soft object and soft class get their reference lists, and nothing else changes |
| Translators.WithContainersEntries | Plugins/UnrealSharp/Source/GlueGenerator/CSPropertyTranslatorManager.cpp:68-70 | array and map get their reference lists, and nothing else changes |
| Translators.StructHandlersAreDefault | Plugins/UnrealSharp/Source/GlueGenerator/CSPropertyTranslatorManager.cpp:72-91 | the struct list built one registration at a time is the reference struct list |
| Translators.WithStructsEntries | Plugins/UnrealSharp/Source/GlueGenerator/CSPropertyTranslatorManager.cpp:72-91 | the struct class gets its reference list, and nothing else changes |
| Translators.WithMulticastDelegatesEntries | Plugins/UnrealSharp/Source/GlueGenerator/CSPropertyTranslatorManager.cpp:93-95 | both multicast classes get one and the same translator object |
| Translators.WithDelegatesAndInterfacesEntries | Plugins/UnrealSharp/Source/GlueGenerator/CSPropertyTranslatorManager.cpp:97-99 | delegate and interface get their reference lists, and nothing else changes |
| Translators.DefaultTableRegistersAll | Plugins/UnrealSharp/Source/GlueGenerator/CSPropertyTranslatorManager.cpp:36-100 | the constructor's registrations give every known class its reference list |
| Translators.DefaultTableIsReference | Plugins/UnrealSharp/Source/GlueGenerator/CSPropertyTranslatorManager.cpp:36-100 | the constructor's table holds exactly the reference lists and no other class |
| Translators.DefaultTableEntry | Plugins/UnrealSharp/Source/GlueGenerator/CSPropertyTranslatorManager.cpp:36-100 | a class is registered exactly when it is known, with its reference list; the two multicast classes share one translator |
| Translators.ByteEnumPriority | Plugins/UnrealSharp/Source/GlueGenerator/CSPropertyTranslatorManager.cpp:50-54 | a byte property goes to the shared enum translator when it accepts, else to the blittable `byte` translator, else to the null translator |
| Translators.StructPriority | Plugins/UnrealSharp/Source/GlueGenerator/CSPropertyTranslatorManager.cpp:72-91 | a custom struct translator wins over the generic blittable one, which wins over the generic struct translator |
| Translators.TranslatorManager.constructor | Plugins/UnrealSharp/Source/GlueGenerator/CSPropertyTranslatorManager.cpp:36-38 | a new manager has only the null translator and an empty table |
| Translators.TranslatorManager.Find | Plugins/UnrealSharp/Source/GlueGenerator/CSPropertyTranslatorManager.cpp:102-119 | `Find(Property)` returns the first accepting translator for the property's class, and the null translator exactly when none accepts; nothing changes |
| Translators.TranslatorManager.FindForFunction | Plugins/UnrealSharp/Source/GlueGenerator/CSPropertyTranslatorManager.cpp:121-131 | `Find(Function)` is `Find` of the return property, or the null translator when there is none |
| Translators.TranslatorManager.NewHandler | Plugins/UnrealSharp/Source/GlueGenerator/CSPropertyTranslatorManager.cpp:48 | a translator object with a fresh identity; the table is unchanged |
| Translators.TranslatorManager.AddPropertyTranslator | Plugins/UnrealSharp/Source/GlueGenerator/CSPropertyTranslatorManager.cpp:138-142 | the translator is appended to its class's list; earlier translators and every other class are unchanged |
| Translators.TranslatorManager.AddNewPropertyTranslator | Plugins/UnrealSharp/Source/GlueGenerator/CSPropertyTranslatorManager.cpp:48-99 | a fresh translator object is appended to its class's list |
| Translators.TranslatorManager.AddBlittablePropertyTranslator | Plugins/UnrealSharp/Source/GlueGenerator/CSPropertyTranslatorManager.cpp:144-147 | a blittable translator with the given C# type is appended to its class's list |
| Translators.TranslatorManager.AddBlittableCustomStructPropertyTranslator | Plugins/UnrealSharp/Source/GlueGenerator/CSPropertyTranslatorManager.cpp:149-153 | a blittable custom struct translator is appended under the struct class, and the struct is denied |
| Translators.TranslatorManager.AddBlittableCustomStructPropertyTranslatorForStruct | Plugins/UnrealSharp/Source/GlueGenerator/CSPropertyTranslatorManager.cpp:155-159 | the struct is marked exported, then registered and denied by its name |
| Translators.TranslatorManager.AddCustomStructPropertyTranslator | Plugins/UnrealSharp/Source/GlueGenerator/CSPropertyTranslatorManager.cpp:161-165 | a non-blittable custom struct translator is appended under the struct class, and the struct is denied |
| Translators.TranslatorManager.RegisterDefaults | Plugins/UnrealSharp/Source/GlueGenerator/CSPropertyTranslatorManager.cpp:40-99 | the constructor's registrations give exactly the reference table; the eleven custom structs are denied and the two engine structs marked exported |
| Translators.TranslatorManager.RegisterNumbers | Plugins/UnrealSharp/Source/GlueGenerator/CSPropertyTranslatorManager.cpp:40-47 | the table gains the eight blittable number translators |
| Translators.TranslatorManager.RegisterSignedIntegers | Plugins/UnrealSharp/Source/GlueGenerator/CSPropertyTranslatorManager.cpp:40-43 | the table gains the four signed integer translators |
| Translators.TranslatorManager.RegisterUnsignedIntegersAndDouble | Plugins/UnrealSharp/Source/GlueGenerator/CSPropertyTranslatorManager.cpp:44-47 | the table gains the unsigned integer and double translators |
| Translators.TranslatorManager.RegisterEnumsAndBool | Plugins/UnrealSharp/Source/GlueGenerator/CSPropertyTranslatorManager.cpp:48-56 | the table gains float, the shared enum translator, `byte` and bool |
| Translators.TranslatorManager.RegisterFloatAndEnums | Plugins/UnrealSharp/Source/GlueGenerator/CSPropertyTranslatorManager.cpp:48-52 | one enum translator object is registered for both the enum and the byte class |
| Translators.TranslatorManager.RegisterByteAndBool | Plugins/UnrealSharp/Source/GlueGenerator/CSPropertyTranslatorManager.cpp:54-56 | the blittable `byte` translator follows the enum one; then bool |
| Translators.TranslatorManager.RegisterTextTypes | Plugins/UnrealSharp/Source/GlueGenerator/CSPropertyTranslatorManager.cpp:58-60 | the table gains string, name and text translators |
| Translators.TranslatorManager.RegisterObjectReferences | Plugins/UnrealSharp/Source/GlueGenerator/CSPropertyTranslatorManager.cpp:62-64 | the table gains weak object, object and class translators |
| Translators.TranslatorManager.RegisterSoftReferences | Plugins/UnrealSharp/Source/GlueGenerator/CSPropertyTranslatorManager.cpp:65-66 | the table gains soft object and soft class translators |
| Translators.TranslatorManager.RegisterContainers | Plugins/UnrealSharp/Source/GlueGenerator/CSPropertyTranslatorManager.cpp:68-70 | the table gains array and map translators |
| Translators.TranslatorManager.RegisterStructs | Plugins/UnrealSharp/Source/GlueGenerator/CSPropertyTranslatorManager.cpp:72-91 | the custom structs come first, then the generic blittable and struct translators; the custom structs are denied |
| Translators.TranslatorManager.RegisterNamedStructs | Plugins/UnrealSharp/Source/GlueGenerator/CSPropertyTranslatorManager.cpp:72-80 | the nine named custom structs are registered and denied in order |
| Translators.TranslatorManager.RegisterVectorStructs | Plugins/UnrealSharp/Source/GlueGenerator/CSPropertyTranslatorManager.cpp:72-73 | Vector2f and Vector3f are registered and denied |
| Translators.TranslatorManager.RegisterNetQuantizeStructs | Plugins/UnrealSharp/Source/GlueGenerator/CSPropertyTranslatorManager.cpp:74-77 | the four NetQuantize vectors are registered and denied |
| Translators.TranslatorManager.RegisterMathStructs | Plugins/UnrealSharp/Source/GlueGenerator/CSPropertyTranslatorManager.cpp:78-80 | Vector4f, Quat4f and Matrix44f are registered and denied |
| Translators.TranslatorManager.RegisterEngineAndGenericStructs | Plugins/UnrealSharp/Source/GlueGenerator/CSPropertyTranslatorManager.cpp:82-91 | TimerHandle and InputActionValue are marked exported, registered and denied; then the generic blittable and struct translators |
| Translators.TranslatorManager.RegisterMulticastDelegates | Plugins/UnrealSharp/Source/GlueGenerator/CSPropertyTranslatorManager.cpp:93-95 | one multicast translator object is registered for both multicast classes |
| Translators.TranslatorManager.RegisterDelegatesAndInterfaces | Plugins/UnrealSharp/Source/GlueGenerator/CSPropertyTranslatorManager.cpp:97-99 | the table gains the delegate and interface translators |
| OrderedSets.AddUnique | Plugins/UnrealSharp/Source/GlueGenerator/CSGenerator.cpp:444-457 | `TSet::Add`: the element is present afterwards, nothing else is added, and earlier elements keep their order |
| OrderedSets.AddUniqueKeepsNoDup | Plugins/UnrealSharp/Source/GlueGenerator/CSGenerator.cpp:444-457 | adding keeps the set free of duplicates |
| OrderedSets.AddAllMembers | Plugins/UnrealSharp/Source/GlueGenerator/CSGenerator.cpp:1268-1279 | adding a sequence keeps what was there, in front, and holds exactly the old and the added elements |
| OrderedSets.AddAllKeepsNoDup | Plugins/UnrealSharp/Source/GlueGenerator/CSGenerator.cpp:1268-1279 | adding a sequence never introduces a duplicate |
| OrderedSets.AddAllSnoc | Plugins/UnrealSharp/Source/GlueGenerator/CSGenerator.cpp:1273-1278 | adding `xs` and then `x` is adding `xs + [x]` |
| ExportRules.StaticArraysNotExportableInFunctions | Plugins/UnrealSharp/Source/GlueGenerator/CSGenerator.cpp:391-405 | a static array is exportable in none of the four function roles |
| ExportRules.CanExportPropertyPrecedence | Plugins/UnrealSharp/Source/GlueGenerator/CSGenerator.cpp:407-442 | a deny entry excludes even an allow-listed struct's property; an allow entry admits what the shared rule refuses; a member needs a translator for its role |
| ExportRules.FunctionDecisionOrder | Plugins/UnrealSharp/Source/GlueGenerator/CSGenerator.cpp:342-369 | deny, then allow or `ShouldExportFunction`, then the async-action factory, then the internal allow list for latent and internal functions, then the parameters; a deny entry by name or by category rejects |
| ExportRules.ParametersAfterReturnIgnored | Plugins/UnrealSharp/Source/GlueGenerator/CSGenerator.cpp:371-389 | parameters after the first return parameter are never examined |
| ExportRules.FirstReturnIndexPrefix | Plugins/UnrealSharp/Source/GlueGenerator/CSGenerator.cpp:371-389 | the first return index depends only on the parameters up to it |
| ExportRules.StaleClassesRejected | Plugins/UnrealSharp/Source/GlueGenerator/CSGenerator.cpp:149-158 | a class whose name holds `TRASH_` or `REINST_` anywhere is rejected |
| ExportRules.EnumBackingTypeIsNarrowest | Plugins/UnrealSharp/Source/GlueGenerator/CSGenerator.cpp:275-293 | the backing type is the narrowest whose upper bound holds the largest value |
| ExportRules.EnumBackingTypeExamples | Plugins/UnrealSharp/Source/GlueGenerator/CSGenerator.cpp:275-293 | 200 and 255 give `byte`, 256 and 70000 give `int`, 2^31 gives `uint`, 2^32 gives `long` |
| ExportRules.EntryNameAfterScope | Plugins/UnrealSharp/Source/GlueGenerator/CSGenerator.cpp:310-322 | `Scope::Name` gives `Name`, even when `Name` holds another `::` |
| ExportRules.EntryNameUnscoped | Plugins/UnrealSharp/Source/GlueGenerator/CSGenerator.cpp:313-322 | a name without a colon is its own entry name |
| ExportRules.MaxEntrySkippedOnlyWhenLast | Plugins/UnrealSharp/Source/GlueGenerator/CSGenerator.cpp:324-332 | an entry ending in `MAX` is dropped only at the last index |
| ExportRules.EnumValuesAreKeptEntries | Plugins/UnrealSharp/Source/GlueGenerator/CSGenerator.cpp:299-337 | the emitted values are exactly the kept entries, under their entry names, in index order |
| ExportRules.EnumValuesOnlyKept | Plugins/UnrealSharp/Source/GlueGenerator/CSGenerator.cpp:299-337 | every emitted value comes from a kept entry |
| ExportRules.EnumValuesAllKept | Plugins/UnrealSharp/Source/GlueGenerator/CSGenerator.cpp:299-337 | every kept entry is emitted |
| ExportRules.SuperClassNameBySuperclass | Plugins/UnrealSharp/Source/GlueGenerator/CSGenerator.cpp:1219-1229 | UObject's base is the fixed managed object name; any other class's base depends only on its superclass |
| ExportRules.ExtensionMethodInfoSpec | Plugins/UnrealSharp/Source/GlueGenerator/CSGenerator.cpp:1051-1070 | an extension method is reported exactly when the function has the extension metadata, at least one parameter, and an object-typed first parameter; it names the function, that first parameter as self, and the parameter's class as the extended class |
| ExportRules.ModulePlacement | Plugins/UnrealSharp/Source/GlueGenerator/CSGenerator.cpp:573-619 | without the plugin the directory is empty; with the plugin in the project it is the generated-scripts directory; otherwise a module goes to the project's directory exactly when a non-engine plugin owns it, or no plugin owns it and it is a loaded game module |
| ExportRules.VersionCheckSpec | Plugins/UnrealSharp/Source/GlueGenerator/CSGenerator.cpp:630-646 | deletion happens exactly when the stored version (0 when none) is strictly lower; a second check deletes nothing |
| ExportSpecs.ExportedPropertiesFoldSpec | Plugins/UnrealSharp/Source/GlueGenerator/CSGenerator.cpp:444-457 | the set keeps what it had and gains exactly the exportable own properties, without duplicates |
| ExportSpecs.OwnFunctionsSplitSpec | Plugins/UnrealSharp/Source/GlueGenerator/CSGenerator.cpp:459-480 | own exportable functions go to the overridable set exactly when they are BlueprintEvents, else to the normal set |
| ExportSpecs.InterfaceEventsStep | Plugins/UnrealSharp/Source/GlueGenerator/CSGenerator.cpp:481-507 | an interface function is added exactly when it is an exportable BlueprintEvent whose name, ignoring case, is not yet in the overridable set |
| ExportSpecs.InterfaceEventsCompose | Plugins/UnrealSharp/Source/GlueGenerator/CSGenerator.cpp:481-507 | the interface loop over `a + b` continues over `b` from where `a` ended |
| ExportSpecs.InterfaceEventsPrefix | Plugins/UnrealSharp/Source/GlueGenerator/CSGenerator.cpp:481-507 | the interface loop only appends |
| ExportSpecs.InterfaceEventsAdded | Plugins/UnrealSharp/Source/GlueGenerator/CSGenerator.cpp:481-507 | each added function is an exportable interface BlueprintEvent whose name differs, ignoring case, from every earlier entry |
| ExportSpecs.InterfaceEventsCover | Plugins/UnrealSharp/Source/GlueGenerator/CSGenerator.cpp:481-507 | every exportable interface BlueprintEvent is represented in the overridable set by a name equal ignoring case |
| ExportSpecs.ExportedFunctionsSpec | Plugins/UnrealSharp/Source/GlueGenerator/CSGenerator.cpp:459-509 | the normal set is exactly the own exportable non-events; the overridable set is the own events, then interface events with case-insensitively new names, covering all of them |
| ExportSpecs.SignatureModulesStep | Plugins/UnrealSharp/Source/GlueGenerator/CSGenerator.cpp:1273-1278 | one signature adds its module once |
| ExportSpecs.SignatureModulesSpec | Plugins/UnrealSharp/Source/GlueGenerator/CSGenerator.cpp:1268-1279 | the modules are exactly those of the delegate signatures |
| ExportSpecs.InterfaceModulesSpec | Plugins/UnrealSharp/Source/GlueGenerator/CSGenerator.cpp:1284-1290 | the modules are exactly the earlier ones and those of the interfaces |
| ExportSpecs.PropertyDependenciesSpec | Plugins/UnrealSharp/Source/GlueGenerator/CSGenerator.cpp:1302-1312 | exactly the delegate modules of the exportable own properties are added |
| ExportSpecs.ParameterDependenciesSpec | Plugins/UnrealSharp/Source/GlueGenerator/CSGenerator.cpp:1330-1334 | exactly the delegate modules of every parameter are added |
| ExportSpecs.FunctionDependenciesSpec | Plugins/UnrealSharp/Source/GlueGenerator/CSGenerator.cpp:1324-1334 | exactly the delegate modules of the return property and of the parameters are added |
| ExportSpecs.FunctionsDependenciesSpec | Plugins/UnrealSharp/Source/GlueGenerator/CSGenerator.cpp:1315-1335 | exactly the modules of the exportable own functions are added |
| ExportSpecs.ClassDependenciesSpec | Plugins/UnrealSharp/Source/GlueGenerator/CSGenerator.cpp:1281-1336 | the dependencies are exactly the modules of the interfaces, the superclass, and the delegates referenced by exportable own properties and functions |
| ExportSpecs.ManagedKeysSnoc | Plugins/UnrealSharp/Source/GlueGenerator/CSGenerator.cpp:1038 | adding a property adds its key |
| ExportSpecs.ManagedKeysSpec | Plugins/UnrealSharp/Source/GlueGenerator/CSGenerator.cpp:1025-1041 | the keys are exactly those of the properties' managed names |
| ExportSpecs.StaticInitPropertiesSpec | Plugins/UnrealSharp/Source/GlueGenerator/CSGenerator.cpp:1022-1049 | the initialised properties come from the input, no two managed names are equal ignoring case, and every managed name is covered |
| ExportSpecs.StaticInitPropertiesStep | Plugins/UnrealSharp/Source/GlueGenerator/CSGenerator.cpp:1029-1038 | a property is initialised exactly when its managed name's key is not yet in the set |
| ExportSpecs.ExtensionsOfSpec | Plugins/UnrealSharp/Source/GlueGenerator/CSGenerator.cpp:833-841 | extension methods come only from static functions of function libraries, exactly those with the metadata and an object-typed first parameter |
| ExportSpecs.FunctionNamesSpec | Plugins/UnrealSharp/Source/GlueGenerator/CSGenerator.cpp:789-796 | exactly the C# names of the functions |
| ExportSpecs.PropertyScriptNamesSpec | Plugins/UnrealSharp/Source/GlueGenerator/CSGenerator.cpp:797-800 | exactly the scriptified names of the properties |
| ExportSpecs.PropertyNamesSpec | Plugins/UnrealSharp/Source/GlueGenerator/CSGenerator.cpp:1102-1106 | exactly the native names of the properties |
| ExportSpecs.ReservedNamesSpec | Plugins/UnrealSharp/Source/GlueGenerator/CSGenerator.cpp:788-800 | a name is reserved exactly when it is the C# name of an exported function or property |
| ExportSpecs.UsingDirectivesSpec | Plugins/UnrealSharp/Source/GlueGenerator/CSGenerator.cpp:776-780 | one directive per dependency, in order, each its namespace |
| ExportSpecs.StaticConstructorSpec | Plugins/UnrealSharp/Source/GlueGenerator/CSGenerator.cpp:865-930 | no static constructor for a class with nothing exported; otherwise one, with `NativeClassPtr` first exactly when some exported function is static, `NativeDataSize` for a struct, and a closing brace |
| ExportSpecs.StructPropertiesSpec | Plugins/UnrealSharp/Source/GlueGenerator/CSGenerator.cpp:1076-1081 | a struct exports exactly the parent's exportable own properties, then its own, each once |
| ExportSpecs.WithExtensionsAppend | Plugins/UnrealSharp/Source/GlueGenerator/CSGenerator.cpp:839-840 | appending under one module twice is appending the concatenation |
| ExportSpecs.WithExtensionsSpec | Plugins/UnrealSharp/Source/GlueGenerator/CSGenerator.cpp:839-840 | the appended methods are the module's last entries, and no other module changes |
| ExportSpecs.EnumMembersStep | Plugins/UnrealSharp/Source/GlueGenerator/CSGenerator.cpp:301-337 | one entry adds its member exactly when it is kept |
| ExportSpecs.ExtensionsOfSnoc | Plugins/UnrealSharp/Source/GlueGenerator/CSGenerator.cpp:824-845 | one function adds its extension method, if any |
| ExportSpecs.ParameterDependenciesStep | Plugins/UnrealSharp/Source/GlueGenerator/CSGenerator.cpp:1330-1334 | one parameter adds its delegate modules |
| Generator.StartupListsIsChain | Plugins/UnrealSharp/Source/GlueGenerator/CSGenerator.cpp:32-46 | the lists after start-up, list by list: two deny entries, one allow entry, four internal-allow entries and two internal overrides, in the source's order |
| Generator.StartupListsSpec | Plugins/UnrealSharp/Source/GlueGenerator/CSGenerator.cpp:32-46 | AddComponentByClass is allow-listed, internally allow-listed and an internal override on Actor; Activate is internally allow-listed on the async-action base; AnimationBlueprintLibrary is denied, and a KismetMathLibrary function is denied exactly when its category is Math\|Vector4 or it was denied before; earlier entries stay |
| Generator.ExportsExtendTransitive | Plugins/UnrealSharp/Source/GlueGenerator/CSGenerator.cpp:741-754 | the memo-and-log growth relation composes |
| Generator.ExportsExtendByOne | Plugins/UnrealSharp/Source/GlueGenerator/CSGenerator.cpp:746 | marking an unexported type keeps its log duplicate-free and in step with the memo |
| Generator.DelegatesExtendByOne | Plugins/UnrealSharp/Source/GlueGenerator/CSGenerator.cpp:707 | marking an unexported delegate keeps the delegate log duplicate-free and equal to the memo |
| Generator.OutputExtendsTransitive | Plugins/UnrealSharp/Source/GlueGenerator/CSGenerator.cpp:1231-1250 | saved files and extension lists only grow, transitively |
| Generator.CSGenerator.ExportingShrinksUnexported | Plugins/UnrealSharp/Source/GlueGenerator/CSGenerator.cpp:746-753 | adding an unexported class to the memo strictly shrinks the set of classes not yet exported, so the superclass recursion terminates |
| Generator.CSGenerator.constructor | Plugins/UnrealSharp/Source/GlueGenerator/CSGenerator.cpp:20-28 | nothing exported, no module, no translator manager, empty lists |
| Generator.CSGenerator.FindOrRegisterModule | Plugins/UnrealSharp/Source/GlueGenerator/CSGenerator.cpp:566-628 | the cached module for a known name, unchanged; otherwise a new module whose directory is decided now and registered |
| Generator.CSGenerator.SaveGlue | Plugins/UnrealSharp/Source/GlueGenerator/CSGenerator.cpp:1237-1250 | one file is saved under the module's directory |
| Generator.CSGenerator.SaveTypeGlue | Plugins/UnrealSharp/Source/GlueGenerator/CSGenerator.cpp:1231-1235 | `<TypeName>.generated.cs` is saved in the package's module |
| Generator.CSGenerator.CheckGlueGeneratorVersion | Plugins/UnrealSharp/Source/GlueGenerator/CSGenerator.cpp:630-646 | the output and stored version become what `VersionCheck` says |
| Generator.CSGenerator.AddExportedType | Plugins/UnrealSharp/Source/GlueGenerator/CSGenerator.cpp:1338-1341 | the memo gains exactly the object |
| Generator.CSGenerator.CanExportFunctionParameters | Plugins/UnrealSharp/Source/GlueGenerator/CSGenerator.cpp:371-389 | the answer is `ParametersExportable` |
| Generator.CSGenerator.CanExportFunction | Plugins/UnrealSharp/Source/GlueGenerator/CSGenerator.cpp:342-369 | the answer is `FunctionExportable`, in the source's order of checks |
| Generator.CSGenerator.GetExportedProperties | Plugins/UnrealSharp/Source/GlueGenerator/CSGenerator.cpp:444-457 | the set is the exported-properties fold over the owner's own properties |
| Generator.CSGenerator.HasOverridableNamed | Plugins/UnrealSharp/Source/GlueGenerator/CSGenerator.cpp:491-499 | the loop finds a function whose name equals the given one ignoring case exactly when there is one |
| Generator.CSGenerator.GetExportedFunctions | Plugins/UnrealSharp/Source/GlueGenerator/CSGenerator.cpp:459-509 | the two sets are `ExportedFunctions` |
| Generator.CSGenerator.AddInterfaceEvents | Plugins/UnrealSharp/Source/GlueGenerator/CSGenerator.cpp:481-507 | the overridable set is the interface-events fold over the class's interfaces |
| Generator.CSGenerator.AddEventsOf | Plugins/UnrealSharp/Source/GlueGenerator/CSGenerator.cpp:483-506 | the overridable set is the fold over one interface's functions |
| Generator.CSGenerator.GatherPropertyDependencies | Plugins/UnrealSharp/Source/GlueGenerator/CSGenerator.cpp:1268-1279 | the modules of the property's delegate signatures are added; modules are only registered |
| Generator.CSGenerator.GatherSignatureModules | Plugins/UnrealSharp/Source/GlueGenerator/CSGenerator.cpp:1273-1278 | each signature's module is added in order |
| Generator.CSGenerator.GatherInterfaceDependencies | Plugins/UnrealSharp/Source/GlueGenerator/CSGenerator.cpp:1284-1290 | the interfaces' modules are added |
| Generator.CSGenerator.GatherPropertiesDependencies | Plugins/UnrealSharp/Source/GlueGenerator/CSGenerator.cpp:1302-1312 | the exportable properties' delegate modules are added |
| Generator.CSGenerator.GatherFunctionDependencies | Plugins/UnrealSharp/Source/GlueGenerator/CSGenerator.cpp:1324-1334 | the return property's and parameters' delegate modules are added |
| Generator.CSGenerator.GatherParameterDependencies | Plugins/UnrealSharp/Source/GlueGenerator/CSGenerator.cpp:1330-1334 | the parameters' delegate modules are added, in order |
| Generator.CSGenerator.GatherFunctionsDependencies | Plugins/UnrealSharp/Source/GlueGenerator/CSGenerator.cpp:1315-1335 | the exportable functions' modules are added |
| Generator.CSGenerator.GatherModuleDependencies | Plugins/UnrealSharp/Source/GlueGenerator/CSGenerator.cpp:1281-1336 | the dependencies are `ClassDependencies` |
| Generator.CSGenerator.ExportParameterStaticConstructions | Plugins/UnrealSharp/Source/GlueGenerator/CSGenerator.cpp:975-1003 | one static init per parameter, in order |
| Generator.CSGenerator.ExportClassFunctionStaticConstruction | Plugins/UnrealSharp/Source/GlueGenerator/CSGenerator.cpp:975-1003 | the function's static-init block |
| Generator.CSGenerator.ExportClassFunctionsStaticConstruction | Plugins/UnrealSharp/Source/GlueGenerator/CSGenerator.cpp:967-973 | the blocks of all functions, in order |
| Generator.CSGenerator.ExportOverridableStaticConstruction | Plugins/UnrealSharp/Source/GlueGenerator/CSGenerator.cpp:932-965 | nothing for a function without parameters, else its block |
| Generator.CSGenerator.ExportClassOverridableFunctionsStaticConstruction | Plugins/UnrealSharp/Source/GlueGenerator/CSGenerator.cpp:932-965 | the blocks of all overridable functions, in order |
| Generator.CSGenerator.ExportDelegateFunctionStaticConstruction | Plugins/UnrealSharp/Source/GlueGenerator/CSGenerator.cpp:1005-1020 | the delegate's static initialiser |
| Generator.CSGenerator.ExportPropertiesStaticConstruction | Plugins/UnrealSharp/Source/GlueGenerator/CSGenerator.cpp:1022-1049 | the static inits of exactly the properties whose managed name is new ignoring case |
| Generator.CSGenerator.HasStaticFunctions | Plugins/UnrealSharp/Source/GlueGenerator/CSGenerator.cpp:878-887 | the loop finds a static function exactly when there is one |
| Generator.CSGenerator.ExportStaticConstructor | Plugins/UnrealSharp/Source/GlueGenerator/CSGenerator.cpp:865-930 | the output is `StaticConstructor` |
| Generator.CSGenerator.ExportClassProperties | Plugins/UnrealSharp/Source/GlueGenerator/CSGenerator.cpp:856-863 | one wrapper per property, flagged by the allow list |
| Generator.CSGenerator.ExportClassOverridableFunctions | Plugins/UnrealSharp/Source/GlueGenerator/CSGenerator.cpp:814-820 | one wrapper per overridable function |
| Generator.CSGenerator.ExportInterfaceFunctions | Plugins/UnrealSharp/Source/GlueGenerator/CSGenerator.cpp:848-854 | one interface function per function |
| Generator.CSGenerator.ExportStructProperties | Plugins/UnrealSharp/Source/GlueGenerator/CSGenerator.cpp:1132-1139 | one mirror property each; offsets are suppressed exactly for a blittable struct |
| Generator.CSGenerator.ExportMarshalFromNatives | Plugins/UnrealSharp/Source/GlueGenerator/CSGenerator.cpp:1176-1190 | one read from the native buffer per property |
| Generator.CSGenerator.ExportMarshalToNatives | Plugins/UnrealSharp/Source/GlueGenerator/CSGenerator.cpp:1201-1213 | one write to the native buffer per property |
| Generator.CSGenerator.ExportMirrorStructMarshalling | Plugins/UnrealSharp/Source/GlueGenerator/CSGenerator.cpp:1168-1217 | the native-buffer constructor, then `ToNative`, over the same properties |
| Generator.CSGenerator.ExportEnum | Plugins/UnrealSharp/Source/GlueGenerator/CSGenerator.cpp:266-340 | the enum's glue is `EnumGlue`, and its module is registered |
| Generator.CSGenerator.ExportEnumEntries | Plugins/UnrealSharp/Source/GlueGenerator/CSGenerator.cpp:299-337 | the members of exactly the kept entries, in index order |
| Generator.CSGenerator.ExportEnumEntry | Plugins/UnrealSharp/Source/GlueGenerator/CSGenerator.cpp:303-336 | one entry's member exactly when it is kept |
| Generator.CSGenerator.PropertyNamesOf | Plugins/UnrealSharp/Source/GlueGenerator/CSGenerator.cpp:1102-1106 | the properties' native names |
| Generator.CSGenerator.ExportStruct | Plugins/UnrealSharp/Source/GlueGenerator/CSGenerator.cpp:1072-1129 | the struct's glue is `StructGlue`: the parent's properties, then its own, the marshalling only when not blittable |
| Generator.CSGenerator.ExportInterface | Plugins/UnrealSharp/Source/GlueGenerator/CSGenerator.cpp:648-696 | nothing for an interface already exported; otherwise it is marked and logged before its glue `InterfaceGlue` is written |
| Generator.CSGenerator.InterfaceFile | Plugins/UnrealSharp/Source/GlueGenerator/CSGenerator.cpp:657-695 | the interface's glue is `InterfaceGlue` |
| Generator.CSGenerator.ExportDelegate | Plugins/UnrealSharp/Source/GlueGenerator/CSGenerator.cpp:698-737 | nothing for a delegate already exported; otherwise it is marked and logged before its glue `DelegateGlue` is written |
| Generator.CSGenerator.DelegateFile | Plugins/UnrealSharp/Source/GlueGenerator/CSGenerator.cpp:709-736 | the delegate's glue is `DelegateGlue` |
| Generator.CSGenerator.DeclareDirectives | Plugins/UnrealSharp/Source/GlueGenerator/CSGenerator.cpp:776-780 | one directive per dependency, in order |
| Generator.CSGenerator.InterfaceNamesOf | Plugins/UnrealSharp/Source/GlueGenerator/CSGenerator.cpp:766-771 | the interface names, in order |
| Generator.CSGenerator.FunctionNamesOf | Plugins/UnrealSharp/Source/GlueGenerator/CSGenerator.cpp:789-796 | the functions' C# names |
| Generator.CSGenerator.PropertyScriptNamesOf | Plugins/UnrealSharp/Source/GlueGenerator/CSGenerator.cpp:797-800 | the properties' scriptified names |
| Generator.CSGenerator.ExportClassFunctions | Plugins/UnrealSharp/Source/GlueGenerator/CSGenerator.cpp:822-846 | one wrapper per function, internal-override flagged by name or category; the extension methods are appended to the module's list |
| Generator.CSGenerator.AddExtensionMethod | Plugins/UnrealSharp/Source/GlueGenerator/CSGenerator.cpp:833-841 | the function's extension method, if any, is appended to its module's list |
| Generator.CSGenerator.ExportClassBody | Plugins/UnrealSharp/Source/GlueGenerator/CSGenerator.cpp:756-811 | the header, then the members |
| Generator.CSGenerator.ExportClassHeader | Plugins/UnrealSharp/Source/GlueGenerator/CSGenerator.cpp:756-786 | the directives of the dependencies, then the class declaration |
| Generator.CSGenerator.ExportClassMembers | Plugins/UnrealSharp/Source/GlueGenerator/CSGenerator.cpp:788-808 | the static constructor, properties, functions and overridable functions, with the class's reserved names |
| Generator.CSGenerator.GenerateGlueForType | Plugins/UnrealSharp/Source/GlueGenerator/CSGenerator.cpp:113-196 | nothing for transient or exported objects; a class passing the filters that is an interface, forced or selected ends in the memo; a selected type's file is saved last |
| Generator.CSGenerator.TypeGlueNonEmpty | Plugins/UnrealSharp/Source/GlueGenerator/CSGenerator.cpp:189-196 | a selected type always has a non-empty file, so it is always saved |
| Generator.CSGenerator.ExportType | Plugins/UnrealSharp/Source/GlueGenerator/CSGenerator.cpp:128-187 | the glue of the type's kind when selected, and nothing otherwise |
| Generator.CSGenerator.GenerateClassGlue | Plugins/UnrealSharp/Source/GlueGenerator/CSGenerator.cpp:128-173 | the class filters, the module registration, then interface or class export |
| Generator.CSGenerator.ExportClassOrInterface | Plugins/UnrealSharp/Source/GlueGenerator/CSGenerator.cpp:165-173 | an interface, forced or selected class is exported; nothing else changes otherwise |
| Generator.CSGenerator.RejectsClass | Plugins/UnrealSharp/Source/GlueGenerator/CSGenerator.cpp:131-163 | the answer is `ClassRejected`, the class filters in order |
| Generator.CSGenerator.ExportClass | Plugins/UnrealSharp/Source/GlueGenerator/CSGenerator.cpp:739-812 | the class is marked before its superclass is generated with force; its file is written after; its extension methods end its module's list |
| Generator.CSGenerator.MarkAndExportSuperClass | Plugins/UnrealSharp/Source/GlueGenerator/CSGenerator.cpp:741-754 | the class is marked and logged, then the superclass is generated; the class stays in the memo |
| Generator.CSGenerator.WriteClass | Plugins/UnrealSharp/Source/GlueGenerator/CSGenerator.cpp:748-811 | the class's file is `ClassGlue`, and its extension methods end its module's list |
| Generator.CSGenerator.GenerateGlueForDelegate | Plugins/UnrealSharp/Source/GlueGenerator/CSGenerator.cpp:199-226 | nothing for transient or exported signatures; otherwise the delegate's file is saved in its module |
| Generator.CSGenerator.ExportExtensionWrappers | Plugins/UnrealSharp/Source/GlueGenerator/CSGenerator.cpp:240-243 | one wrapper per extension method, through the translator of its function |
| Generator.CSGenerator.GenerateExtensionMethodsForPackage | Plugins/UnrealSharp/Source/GlueGenerator/CSGenerator.cpp:228-246 | the module is registered; the extensions file is saved exactly when the module has extension methods |
| Generator.CSGenerator.GenerateGlueForTypes | Plugins/UnrealSharp/Source/GlueGenerator/CSGenerator.cpp:99-111 | every object that passes the class filters is exported afterwards |
| Generator.CSGenerator.GenerateGlueForPackage | Plugins/UnrealSharp/Source/GlueGenerator/CSGenerator.cpp:67-77 | the package's objects are covered, then its module's extensions file is written |
| Generator.CSGenerator.OnModulesChanged | Plugins/UnrealSharp/Source/GlueGenerator/CSGenerator.cpp:80-94 | only a loaded module whose package exists is processed |
| Generator.CSGenerator.StartGenerator | Plugins/UnrealSharp/Source/GlueGenerator/CSGenerator.cpp:20-65 | runs once; the first run checks the version, fills the lists, creates the manager, and covers every package and the four common classes |
| Generator.CSGenerator.GenerateStartupGlue | Plugins/UnrealSharp/Source/GlueGenerator/CSGenerator.cpp:50-65 | the generation keeps the start-up state, and covers every package and common class |
| Generator.CSGenerator.InitializeGenerator | Plugins/UnrealSharp/Source/GlueGenerator/CSGenerator.cpp:22-48 | initialised, version checked, lists filled, manager created with the default table; the memo gains the two engine structs |
| Generator.CSGenerator.SetUpOutput | Plugins/UnrealSharp/Source/GlueGenerator/CSGenerator.cpp:27-30 | initialised, the output directory set, the version checked |
| Generator.CSGenerator.PrepareTranslation | Plugins/UnrealSharp/Source/GlueGenerator/CSGenerator.cpp:32-48 | the start-up lists, then a fresh manager with the default table over them |
| Generator.CSGenerator.FillLists | Plugins/UnrealSharp/Source/GlueGenerator/CSGenerator.cpp:32-46 | the lists become `StartupLists` of the old lists |
| Generator.CSGenerator.CreateTranslatorManager | Plugins/UnrealSharp/Source/GlueGenerator/CSGenerator.cpp:48 | a fresh manager with the default table; the two engine structs are denied and marked exported |
| Generator.CSGenerator.GeneratePackagesAndCommonTypes | Plugins/UnrealSharp/Source/GlueGenerator/CSGenerator.cpp:52-65 | every package, then the common classes, are covered |
| Generator.CSGenerator.CoverageGrows | Plugins/UnrealSharp/Source/GlueGenerator/CSGenerator.cpp:52-59 | coverage of the packages survives growth of the memo |
| Generator.CSGenerator.PackagesCoveredStep | Plugins/UnrealSharp/Source/GlueGenerator/CSGenerator.cpp:52-59 | one more package covered extends the coverage |
| Generator.CSGenerator.GenerateCommonTypes | Plugins/UnrealSharp/Source/GlueGenerator/CSGenerator.cpp:61-65 | the four common classes are generated with force, in order |
| Generator.CSGenerator.GenerateForcedType | Plugins/UnrealSharp/Source/GlueGenerator/CSGenerator.cpp:61-65 | one forced generation, with how the state has grown |

## Left out

- File I/O: directory creation, `SaveFileIfChanged`, `GeneratedFileManager.RenameTempFiles` and the deletion of the output directory. A saved file is a `SavedFile` record; a deleted directory is the flag `outputExists`.
- `GConfig` reads and writes in CheckGlueGeneratorVersion: the stored version is the field `storedVersion`.
- Generated text: `Printf` strings, indentation, braces, tooltips, `[UClass]`/`[UStruct]` attribute text and logging. Each construct is one abstract `Emission`.
- `FScopedSlowTask` progress reporting.
- Object enumeration (`GetObjectsOfClass`, `GetObjectsWithPackage`, `TFieldIterator`) and `FindPackage`: the objects, packages, fields and the looked-up package are inputs.
- The registration of OnModulesChanged as a module-manager callback: OnModulesChanged is a method the caller invokes.
- Translator internals: `CanHandleProperty`, the `IsSupportedAs*` checks, `AddDelegateReferences`, and `IsStructBlittable` with its memo are uninterpreted functions of `Capabilities` and `Engine`.
- The name mapper (`FCSNameMapper`) is an uninterpreted `NameMapper`.
- The `ShouldExport*` utilities, `IsChildOf` and the plugin and module queries behind FindOrRegisterModule are uninterpreted functions of `Engine`.
- `FPaths::Combine` is `ExportRules.CombinePaths`, a join with one `/`, without path normalisation.
- `Reflection.Property.outermostIsClass` is a free field; the property's outer chain is not modelled. CanExportPropertyShared reads it for `GetOutermost()->IsA(UClass)` (CSGenerator.cpp:439). A field's outermost object is its package, so in the engine that test is probably always false, and the static-array branch it guards is probably dead. The model lets either value through and does not claim the branch is taken.
- `FCSInclusionLists` is not part of this model. Its lists are value sets, and a category deny matches a function's `Category` metadata by exact equality.
- Inclusion-list keys, module names in the module cache and in the extension-method map, and the reserved-name sets (`TSet<FString>` at CSGenerator.cpp:788-800 and 1102-1106) compare names exactly. In the engine these are `FName` or `FString` keys that ignore case. Names that differ only in case are kept apart here.
- The C++ translator-manager constructor is split into the Dafny constructor and `TranslatorManager.RegisterDefaults`. A Dafny constructor cannot hand back the caller's deny list and exported-type memo, which the C++ constructor changes by reference.
- `CanExportClass`, `CanDeriveFromNativeClass` and `GetExportedStructs` are not called anywhere in the export engine, so they are not modelled.
- `ExportStructMarshaller` is one abstract emission.
- `GetNamespace` and `RegisterClassToModule` are folded into FindOrRegisterModule.
- The guarded `if (!ensure(...)) return;` checks in ExportInterface, ExportClass and ExportDelegate (CSGenerator.cpp:650, 700 and 741) are early returns. A type already in the memo gives empty glue and changes nothing. The diagnostic of a failed `ensure` is not modelled.
- Two non-returning checks are dropped as diagnostics, because execution continues whatever they report: `ensureMsgf(!Directory.IsEmpty())` in FindOrRegisterModule (CSGenerator.cpp:622), and `ensure(HasAnyFunctionFlags(FUNC_Delegate))` in ExportDelegate (CSGenerator.cpp:705).
- The unused `bForceExport` parameter of GenerateGlueForDelegate is kept, but it has no effect, as in the source.
- Case folding is ASCII-only: only `a`-`z` are upper-cased.
- `NumParms` is the parameter count.
- The managed `TimerHandle` is an immutable value; its `[StructLayout]` and `[UStruct]` attributes are not modelled.
- `OrderedSets` models `TSet` as a duplicate-free sequence in insertion order. That order decides the order of using directives, wrapper and mirror properties, and static inits. The engine's `TSet` keeps insertion order only while nothing is removed, and the source never removes anything from these sets. The model takes that order as given.
- Property wrapper and mirror emissions (`WrapperProperty`, `MirrorProperty`) do not carry the `ReservedNames` set that ExportClassProperties and ExportStructProperties pass to the translator (CSGenerator.cpp:861 and 1137). The reserved set is still built and stated by `ReservedNamesSpec`. What the translator does with it is translator-internal.
