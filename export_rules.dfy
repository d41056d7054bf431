/**
 * The generator's eligibility rules (the `CanExport*` family and the class filters of
 * GenerateGlueForType), enum width and entry selection, base-class naming, extension-method
 * detection and module placement. All of these only read the generator's state.
 */
module ExportRules {
  import opened Wrappers
  import opened Reflection
  import opened Translators
  import Inclusion
  import Strings

  /** The generator's four inclusion lists. */
  datatype Lists = Lists(
    deny: Inclusion.InclusionList,
    allow: Inclusion.InclusionList,
    internalAllow: Inclusion.InclusionList,     // BlueprintInternalAllowList
    overrideInternal: Inclusion.InclusionList)  // OverrideInternalList

  /** The translator manager as the rules query it: its table, its null translator and the translators' capabilities. */
  datatype Registry = Registry(table: Table, nullHandler: Handler, caps: Capabilities)

  /** Everything an eligibility rule reads. */
  datatype Rules = Rules(engine: Engine, graph: Graph, lists: Lists, registry: Registry)

  /** `PropertyTranslatorManager->Find(Property)`. */
  function Lookup(r: Rules, p: Property): Handler {
    Resolve(r.registry.table, r.registry.nullHandler, r.registry.caps.canHandle, p)
  }

  /** `PropertyTranslatorManager->Find(Function)`. */
  function LookupFunction(r: Rules, f: Function): Handler {
    ResolveFunction(r.registry.table, r.registry.nullHandler, r.registry.caps.canHandle, f)
  }

  /** The translator found for `p` declares support for `role` and accepts `p`. */
  predicate HandledAs(r: Rules, p: Property, role: Role) {
    var h := Lookup(r, p);
    r.registry.caps.supports(h.kind, role) && r.registry.caps.canHandle(h, p)
  }

  predicate CanExportParameter(r: Rules, p: Property) {
    p.arrayDim == 1 && HandledAs(r, p, AsParameter)
  }

  predicate CanExportReturnValue(r: Rules, p: Property) {
    p.arrayDim == 1 && HandledAs(r, p, AsReturnValue)
  }

  predicate CanExportOverridableParameter(r: Rules, p: Property) {
    p.arrayDim == 1 && HandledAs(r, p, AsOverridableParameter)
  }

  predicate CanExportOverridableReturnValue(r: Rules, p: Property) {
    p.arrayDim == 1 && HandledAs(r, p, AsOverridableReturnValue)
  }

  /** A static array (`ArrayDim != 1`) is exportable in none of the four function roles. */
  lemma StaticArraysNotExportableInFunctions(r: Rules, p: Property)
    requires p.arrayDim != 1
    ensures !CanExportParameter(r, p) && !CanExportReturnValue(r, p)
    ensures !CanExportOverridableParameter(r, p) && !CanExportOverridableReturnValue(r, p)
  {
  }

  /** Visible, not deprecated, and a single element unless a class member whose translator supports static arrays. */
  predicate CanExportPropertyShared(r: Rules, p: Property) {
    && r.engine.shouldExportProperty(p)
    && !p.deprecated
    && (p.arrayDim == 1 || (r.registry.caps.supports(Lookup(r, p).kind, InStaticArray) && p.outermostIsClass))
  }

  /** Whether `owner` (a class or a script struct) exports its property `p`. */
  predicate CanExportProperty(r: Rules, owner: Obj, p: Property)
    requires owner.kind.ClassKind? || owner.kind.StructKind?
  {
    var listed :=
      && !Inclusion.HasProperty(r.lists.deny, owner.name, p.name)
      && (|| CanExportPropertyShared(r, p)
          || Inclusion.HasProperty(r.lists.allow, owner.name, p.name)
          || Inclusion.HasStruct(r.lists.allow, owner.name));
    var role := if owner.kind.ClassKind? then AsProperty else AsStructProperty;
    listed && HandledAs(r, p, role)
  }

  /**
   * Precedence of the property rule: a deny entry wins even over an allow-listed struct; an
   * allow entry for the struct or the property admits a property the shared rule refuses
   * (hidden, deprecated, static array); and a class member needs a translator supporting the
   * class-property role while a struct member needs the struct-property role.
   */
  lemma CanExportPropertyPrecedence(r: Rules, owner: Obj, p: Property)
    requires owner.kind.ClassKind? || owner.kind.StructKind?
    ensures Inclusion.HasProperty(r.lists.deny, owner.name, p.name) ==> !CanExportProperty(r, owner, p)
    ensures !Inclusion.HasProperty(r.lists.deny, owner.name, p.name)
              && (Inclusion.HasStruct(r.lists.allow, owner.name) || Inclusion.HasProperty(r.lists.allow, owner.name, p.name))
            ==> (CanExportProperty(r, owner, p) <==>
                   HandledAs(r, p, if owner.kind.ClassKind? then AsProperty else AsStructProperty))
    ensures CanExportProperty(r, owner, p) && owner.kind.ClassKind? ==> HandledAs(r, p, AsProperty)
    ensures CanExportProperty(r, owner, p) && owner.kind.StructKind? ==> HandledAs(r, p, AsStructProperty)
    ensures CanExportProperty(r, owner, p) && !CanExportPropertyShared(r, p) ==>
              Inclusion.HasStruct(r.lists.allow, owner.name) || Inclusion.HasProperty(r.lists.allow, owner.name, p.name)
  {
  }

  /**
   * `CanExportFunctionParameters`, as a specification: the return value, if any, is exportable,
   * and so is every parameter before the first CPF_ReturnParm property (the C++ loop stops there).
   */
  predicate ParametersExportable(r: Rules, f: Function) {
    && (match ReturnProperty(f.params)
        case Some(ret) => CanExportReturnValue(r, ret)
        case None => true)
    && forall i :: 0 <= i < FirstReturnIndex(f.params) ==> CanExportParameter(r, f.params[i])
  }

  /** An async-action factory: the owner derives from UBlueprintAsyncActionBase and the function returns an object of (a subclass of) its owner class. */
  predicate IsAsyncActionFactory(r: Rules, owner: ObjId, f: Function) {
    && r.engine.isChildOf(owner, r.engine.asyncActionBase)
    && f.ownerClass.Some?
    && match ReturnProperty(f.params)
       case Some(ret) => ret.objectClass.Some? && r.engine.isChildOf(ret.objectClass.value, f.ownerClass.value)
       case None => false
  }

  /** The deny and allow gate that opens `CanExportFunction`. */
  predicate FunctionListed(r: Rules, owner: ObjId, f: Function)
    requires owner in r.graph
  {
    var name := r.graph[owner].name;
    && !Inclusion.HasFunction(r.lists.deny, name, f.name, f.category)
    && (Inclusion.HasFunction(r.lists.allow, name, f.name, f.category) || r.engine.shouldExportFunction(f))
  }

  /** `CanExportFunction(owner, f)`, as a specification. */
  predicate FunctionExportable(r: Rules, owner: ObjId, f: Function)
    requires owner in r.graph
  {
    if !FunctionListed(r, owner, f) then false
    else if IsAsyncActionFactory(r, owner, f) then true
    else if f.latent || f.internalUseOnly then Inclusion.HasFunction(r.lists.internalAllow, r.graph[owner].name, f.name, f.category)
    else ParametersExportable(r, f)
  }

  /**
   * The decision order of `CanExportFunction`: a deny entry rejects even an allow-listed function;
   * then an async-action factory is accepted whatever its flags and parameters; then a latent or
   * internal-use-only function is accepted exactly when internally allow-listed; otherwise exactly
   * when its return value and every parameter before the return property are exportable.
   */
  lemma FunctionDecisionOrder(r: Rules, owner: ObjId, f: Function)
    requires owner in r.graph
    ensures Inclusion.HasFunction(r.lists.deny, r.graph[owner].name, f.name, f.category) ==> !FunctionExportable(r, owner, f)
    ensures FunctionExportable(r, owner, f) ==>
              Inclusion.HasFunction(r.lists.allow, r.graph[owner].name, f.name, f.category) || r.engine.shouldExportFunction(f)
    ensures FunctionListed(r, owner, f) && IsAsyncActionFactory(r, owner, f) ==> FunctionExportable(r, owner, f)
    ensures FunctionListed(r, owner, f) && !IsAsyncActionFactory(r, owner, f) && (f.latent || f.internalUseOnly) ==>
              (FunctionExportable(r, owner, f) <==> Inclusion.HasFunction(r.lists.internalAllow, r.graph[owner].name, f.name, f.category))
    ensures FunctionListed(r, owner, f) && !IsAsyncActionFactory(r, owner, f) && !f.latent && !f.internalUseOnly ==>
              (FunctionExportable(r, owner, f) <==>
                 (forall i :: 0 <= i < |f.params| && f.params[i].returnParm ==> CanExportReturnValue(r, f.params[FirstReturnIndex(f.params)]))
                 && forall i :: 0 <= i < FirstReturnIndex(f.params) ==> CanExportParameter(r, f.params[i]))
  {
    if FunctionListed(r, owner, f) && !IsAsyncActionFactory(r, owner, f) && !f.latent && !f.internalUseOnly {
      var k := FirstReturnIndex(f.params);
      if k < |f.params| {
        assert ReturnProperty(f.params) == Some(f.params[k]);
      }
    }
  }

  /** Parameters after the first return property are never examined: replacing them changes nothing. */
  lemma ParametersAfterReturnIgnored(r: Rules, f: Function, rest: seq<Property>)
    requires FirstReturnIndex(f.params) < |f.params|
    ensures var k := FirstReturnIndex(f.params);
      ParametersExportable(r, f.(params := f.params[..k + 1] + rest)) == ParametersExportable(r, f)
  {
    var k := FirstReturnIndex(f.params);
    var ps := f.params[..k + 1] + rest;
    FirstReturnIndexPrefix(f.params, ps, k);
  }

  /** The first return index depends only on the properties up to and including it. */
  lemma {:induction false} FirstReturnIndexPrefix(ps: seq<Property>, qs: seq<Property>, k: nat)
    requires k < |ps| && k < |qs| && ps[..k + 1] == qs[..k + 1]
    requires FirstReturnIndex(ps) == k
    ensures FirstReturnIndex(qs) == k
  {
    if k > 0 {
      assert ps[0] == qs[0];
      assert ps[1..][..k] == qs[1..][..k];
      FirstReturnIndexPrefix(ps[1..], qs[1..], k - 1);
    }
  }

  /** GenerateGlueForType's class filters: a class failing one of them is never exported, whatever is forced. */
  predicate ClassRejected(o: Obj)
    requires o.kind.ClassKind?
  {
    var c := o.kind.cls;
    || c.isClassDefaultObject
    || c.blueprintGenerated || c.compiledFromBlueprint
    || c.newerVersionExists
    || Strings.Contains(o.name, "TRASH_")
    || Strings.Contains(o.name, "REINST_")
    || c.notGeneratorValid
  }

  /** A class whose name holds `TRASH_` or `REINST_` anywhere, not only as a prefix, is rejected. */
  lemma StaleClassesRejected(o: Obj, before: string, marker: string, after: string)
    requires o.kind.ClassKind?
    requires marker == "TRASH_" || marker == "REINST_"
    requires o.name == before + marker + after
    ensures ClassRejected(o)
  {
    assert o.name[|before|..|before| + |marker|] == marker;
    Strings.ExactMatchIsFound(o.name, marker, |before|);
  }

  const UInt8Max := 255
  const Int32Max := 0x7fff_ffff
  const UInt32Max := 0xffff_ffff

  /** The C# underlying type of an enum with the given largest value. */
  function EnumBackingType(maxValue: int): string {
    if maxValue <= UInt8Max then "byte"
    else if maxValue <= Int32Max then "int"
    else if maxValue <= UInt32Max then "uint"
    else "long"
  }

  /** The backing type is the narrowest of byte, int, uint and long whose upper bound holds the largest value. */
  lemma EnumBackingTypeIsNarrowest(maxValue: int)
    ensures EnumBackingType(maxValue) == "byte" <==> maxValue <= UInt8Max
    ensures EnumBackingType(maxValue) == "int" <==> UInt8Max < maxValue <= Int32Max
    ensures EnumBackingType(maxValue) == "uint" <==> Int32Max < maxValue <= UInt32Max
    ensures EnumBackingType(maxValue) == "long" <==> UInt32Max < maxValue
  {
  }

  lemma EnumBackingTypeExamples()
    ensures EnumBackingType(200) == "byte" && EnumBackingType(255) == "byte"
    ensures EnumBackingType(256) == "int" && EnumBackingType(70000) == "int"
    ensures EnumBackingType(0x8000_0000) == "uint" && EnumBackingType(0x1_0000_0000) == "long"
  {
  }

  /** The C# name of an enum entry: the text after the first `::` of its qualified name, or the whole name. */
  function EntryName(qualified: string): string {
    var colon := Strings.Find(qualified, "::");
    if colon != -1 then qualified[colon + 2..] else qualified
  }

  /** `Scope::Name` gives `Name` when the scope has no colon, even if `Name` holds another `::`. */
  lemma EntryNameAfterScope(scope: string, name: string)
    requires ':' !in scope
    ensures EntryName(scope + "::" + name) == name
  {
    var q := scope + "::" + name;
    assert q[|scope|..|scope| + 2] == "::";
    assert Strings.MatchesAt(q, "::", |scope|);
    forall i: nat | i < |scope|
      ensures !Strings.MatchesAt(q, "::", i)
    {
      assert q[i] == scope[i];
      assert q[i..i + 2][0] == q[i];
    }
    Strings.FindIsFirst(q, "::");
    assert Strings.Find(q, "::") == |scope|;
  }

  /** A name without a colon is its own entry name. */
  lemma EntryNameUnscoped(name: string)
    requires ':' !in name
    ensures EntryName(name) == name
  {
    forall i: nat | i + 2 <= |name|
      ensures !Strings.MatchesAt(name, "::", i)
    {
      assert name[i..i + 2][0] == name[i];
    }
    Strings.FindIsFirst(name, "::");
  }

  /** ExportEnum emits entry `i` of `count` exactly when this holds. */
  predicate EntryKept(e: Engine, enumId: ObjId, entries: seq<EnumEntry>, i: nat)
    requires i < |entries|
  {
    var name := EntryName(entries[i].name);
    && e.shouldExportEnumEntry(enumId, i)
    && name != []
    && !(i == |entries| - 1 && Strings.EndsWith(name, "MAX"))
  }

  /** An entry named `...MAX` is dropped only at the last index; anywhere else it is kept like any other. */
  lemma MaxEntrySkippedOnlyWhenLast(e: Engine, enumId: ObjId, entries: seq<EnumEntry>, i: nat)
    requires i < |entries|
    requires e.shouldExportEnumEntry(enumId, i) && EntryName(entries[i].name) != []
    ensures i < |entries| - 1 ==> EntryKept(e, enumId, entries, i)
    ensures i == |entries| - 1 ==> (EntryKept(e, enumId, entries, i) <==> !Strings.EndsWith(EntryName(entries[i].name), "MAX"))
  {
  }

  /** The name and value of a kept enum entry, as emitted. */
  datatype EnumValue = EnumValue(name: string, value: int)

  /** The values ExportEnum emits for the first `k` entries, in order. */
  function EnumValues(e: Engine, enumId: ObjId, entries: seq<EnumEntry>, k: nat): seq<EnumValue>
    requires k <= |entries|
  {
    if k == 0 then []
    else
      EnumValues(e, enumId, entries, k - 1)
      + (if EntryKept(e, enumId, entries, k - 1) then [EnumValue(EntryName(entries[k - 1].name), entries[k - 1].value)] else [])
  }

  /** The emitted values are exactly the kept entries, each under its entry name, in index order. */
  lemma EnumValuesAreKeptEntries(e: Engine, enumId: ObjId, entries: seq<EnumEntry>, k: nat)
    requires k <= |entries|
    ensures forall v :: v in EnumValues(e, enumId, entries, k) <==>
      exists i :: 0 <= i < k && EntryKept(e, enumId, entries, i) && v == EnumValue(EntryName(entries[i].name), entries[i].value)
  {
    EnumValuesOnlyKept(e, enumId, entries, k);
    EnumValuesAllKept(e, enumId, entries, k);
  }

  lemma {:induction false} EnumValuesOnlyKept(e: Engine, enumId: ObjId, entries: seq<EnumEntry>, k: nat)
    requires k <= |entries|
    ensures forall v | v in EnumValues(e, enumId, entries, k) ::
      exists i :: 0 <= i < k && EntryKept(e, enumId, entries, i) && v == EnumValue(EntryName(entries[i].name), entries[i].value)
  {
    if k > 0 {
      EnumValuesOnlyKept(e, enumId, entries, k - 1);
      var prev := EnumValues(e, enumId, entries, k - 1);
      var kept := EntryKept(e, enumId, entries, k - 1);
      var value := EnumValue(EntryName(entries[k - 1].name), entries[k - 1].value);
      assert EnumValues(e, enumId, entries, k) == prev + (if kept then [value] else []);
    }
  }

  lemma {:induction false} EnumValuesAllKept(e: Engine, enumId: ObjId, entries: seq<EnumEntry>, k: nat)
    requires k <= |entries|
    ensures forall i | 0 <= i < k && EntryKept(e, enumId, entries, i) ::
      EnumValue(EntryName(entries[i].name), entries[i].value) in EnumValues(e, enumId, entries, k)
  {
    if k > 0 {
      EnumValuesAllKept(e, enumId, entries, k - 1);
      var prev := EnumValues(e, enumId, entries, k - 1);
      var last := EnumValue(EntryName(entries[k - 1].name), entries[k - 1].value);
      var tail := if EntryKept(e, enumId, entries, k - 1) then [last] else [];
      var out := EnumValues(e, enumId, entries, k);
      assert out == prev + tail;
      forall i | 0 <= i < k && EntryKept(e, enumId, entries, i)
        ensures EnumValue(EntryName(entries[i].name), entries[i].value) in out
      {
        if i == k - 1 {
          assert last in tail;
        } else {
          assert EnumValue(EntryName(entries[i].name), entries[i].value) in prev;
        }
      }
    }
  }

  /** `GetSuperClassName`: UObject derives from the runtime's object class, any other class from its superclass's qualified name. */
  function SuperClassName(e: Engine, names: NameMapper, g: Graph, cls: ObjId): string
    requires IsClass(g, cls)
  {
    if cls == e.uObject then e.unrealSharpObject else names.qualifiedName(g[cls].kind.cls.superClass)
  }

  /** UObject's base name ignores its superclass; for every other class the base name is decided by the superclass alone. */
  lemma SuperClassNameBySuperclass(e: Engine, names: NameMapper, g: Graph, a: ObjId, b: ObjId)
    requires IsClass(g, a) && IsClass(g, b)
    ensures a == e.uObject ==> SuperClassName(e, names, g, a) == e.unrealSharpObject
    ensures a != e.uObject && b != e.uObject && g[a].kind.cls.superClass == g[b].kind.cls.superClass ==>
              SuperClassName(e, names, g, a) == SuperClassName(e, names, g, b)
  {
  }

  /** What `GetExtensionMethodInfo` fills in: the function, its self parameter and the class being extended. */
  datatype ExtensionMethod = ExtensionMethod(target: Function, selfParameter: Property, extendedClass: ObjId)

  /** `GetExtensionMethodInfo`: the extension-method description of `f`, if it is one. */
  function ExtensionMethodInfo(f: Function): Option<ExtensionMethod> {
    if !f.extensionMethod || |f.params| == 0 then None
    else if f.params[0].objectClass.None? then None
    else Some(ExtensionMethod(f, f.params[0], f.params[0].objectClass.value))
  }

  /** A function is an extension method exactly when it has the metadata and an object-typed first parameter, which is the self parameter. */
  lemma ExtensionMethodInfoSpec(f: Function)
    ensures ExtensionMethodInfo(f).Some? <==> f.extensionMethod && |f.params| > 0 && f.params[0].objectClass.Some?
    ensures ExtensionMethodInfo(f).Some? ==>
      var m := ExtensionMethodInfo(f).value;
      m.target == f && m.selfParameter == f.params[0] && m.selfParameter.objectClass == Some(m.extendedClass)
  {
  }

  /** `FPaths::Combine` of two path pieces. */
  function CombinePaths(a: string, b: string): string {
    if a == [] then b else if a[|a| - 1] == '/' then a + b else a + "/" + b
  }

  const GeneratedUserContent := "Script/obj/Generated"

  /** The directory a module's bindings go to, as FindOrRegisterModule decides it on first registration. */
  function ModuleDirectory(e: Engine, generatedScriptsDirectory: string, projectDirectory: string, moduleName: string): string {
    var userDirectory := CombinePaths(projectDirectory, GeneratedUserContent);
    match e.thisPlugin
    case None => ""
    case Some(ProjectPlugin) => generatedScriptsDirectory
    case Some(_) =>
      match e.moduleOwnerPlugin(moduleName)
      case Some(EnginePlugin) => generatedScriptsDirectory
      case Some(EnterprisePlugin) => generatedScriptsDirectory
      case Some(_) => userDirectory
      case None =>
        if e.loadedModuleIsGame(moduleName) == Some(true) then userDirectory else generatedScriptsDirectory
  }

  /**
   * Module placement: with the generator's plugin installed in the project everything goes to the
   * generated-scripts directory; otherwise a module goes to the project's user directory exactly
   * when a non-engine plugin owns it or, owned by no plugin, it is a loaded game module. Without
   * the plugin the directory is left empty.
   */
  lemma ModulePlacement(e: Engine, generated: string, project: string, moduleName: string)
    requires generated != CombinePaths(project, GeneratedUserContent)
    ensures e.thisPlugin == None ==> ModuleDirectory(e, generated, project, moduleName) == ""
    ensures e.thisPlugin == Some(ProjectPlugin) ==> ModuleDirectory(e, generated, project, moduleName) == generated
    ensures e.thisPlugin.Some? ==>
      ModuleDirectory(e, generated, project, moduleName) in {generated, CombinePaths(project, GeneratedUserContent)}
    ensures e.thisPlugin.Some? && e.thisPlugin != Some(ProjectPlugin) ==>
      (ModuleDirectory(e, generated, project, moduleName) == CombinePaths(project, GeneratedUserContent) <==>
        || e.moduleOwnerPlugin(moduleName) == Some(ProjectPlugin)
        || e.moduleOwnerPlugin(moduleName) == Some(OtherPlugin)
        || (e.moduleOwnerPlugin(moduleName) == None && e.loadedModuleIsGame(moduleName) == Some(true)))
  {
  }

  /** What CheckGlueGeneratorVersion leaves: whether the output directory still exists, and the stored version. */
  function VersionCheck(outputExists: bool, storedVersion: Option<int>, currentVersion: int): (r: (bool, Option<int>)) {
    var deleted := outputExists && storedVersion.GetOr(0) < currentVersion;
    (outputExists && !deleted, Some(currentVersion))
  }

  /**
   * The output is deleted exactly when it exists and the stored version (0 when none is stored)
   * is strictly lower than the current one; the current version is always stored, so a second
   * check right after the first deletes nothing.
   */
  lemma VersionCheckSpec(outputExists: bool, storedVersion: Option<int>, currentVersion: int)
    ensures var (exists', stored') := VersionCheck(outputExists, storedVersion, currentVersion);
      && stored' == Some(currentVersion)
      && (outputExists && !exists' <==> outputExists && storedVersion.GetOr(0) < currentVersion)
      && (storedVersion == Some(currentVersion) ==> exists' == outputExists)
      && VersionCheck(exists', stored', currentVersion) == (exists', stored')
  {
  }
}
