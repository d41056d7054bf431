/**
 * FCSGenerator: the stateful export engine. It walks the reflection graph from the types it is
 * handed, memoises what it has exported, registers the module of every type it touches, builds
 * each type's glue and saves it as `<TypeName>.generated.cs` in that module's directory.
 */
module Generator {
  import opened Wrappers
  import opened Reflection
  import opened Translators
  import opened ExportRules
  import opened ExportSpecs
  import opened OrderedSets
  import Inclusion
  import Strings

  /** EModuleChangeReason. */
  datatype ModuleChangeReason = ModuleLoaded | ModuleUnloaded | PluginDirectoryChanged

  /** A package and its objects (GetObjectsWithPackage, class default objects excluded). */
  datatype PackageObjects = PackageObjects(package: string, objects: seq<ObjId>)

  /** The classes and structs the generator names directly are loaded. */
  predicate CommonTypesPresent(e: Engine, g: Graph) {
    && IsClass(g, e.uObject) && IsClass(g, e.uInterface)
    && IsClass(g, e.springArmComponent) && IsClass(g, e.floatingPawnMovement)
    && IsStruct(g, e.timerHandleStruct) && IsStruct(g, e.inputActionValueStruct)
  }

  /** The classes StartGenerator always generates: UInterface, UObject, USpringArmComponent and UFloatingPawnMovement. */
  function CommonClasses(e: Engine): set<ObjId> {
    {e.uInterface, e.uObject, e.springArmComponent, e.floatingPawnMovement}
  }

  /** One entry StartGenerator adds to an inclusion list before the first export. */
  datatype StartupEntry =
    | DenyClass(className: string)
    | DenyFunctionCategory(owner: string, category: string)
    | AllowFunction(owner: string, functionName: string)
    | InternalAllowFunction(owner: string, functionName: string)
    | OverrideInternalFunction(owner: string, functionName: string)

  /** `l` with entry `e` added to the list it names. */
  function AddStartupEntry(l: Lists, e: StartupEntry): Lists {
    match e
    case DenyClass(c) => l.(deny := Inclusion.AddClass(l.deny, c))
    case DenyFunctionCategory(o, c) => l.(deny := Inclusion.AddFunctionCategory(l.deny, o, c))
    case AllowFunction(o, f) => l.(allow := Inclusion.AddFunction(l.allow, o, f))
    case InternalAllowFunction(o, f) => l.(internalAllow := Inclusion.AddFunction(l.internalAllow, o, f))
    case OverrideInternalFunction(o, f) => l.(overrideInternal := Inclusion.AddFunction(l.overrideInternal, o, f))
  }

  /** The number of entries StartGenerator adds. */
  const StartupEntryCount := 9

  /** The `i`-th entry StartGenerator adds, in the order it adds them. */
  function StartupEntryAt(i: nat): StartupEntry {
    match i
    case 0 => DenyClass("AnimationBlueprintLibrary")
    case 1 => DenyFunctionCategory("KismetMathLibrary", "Math|Vector4")
    case 2 => AllowFunction("Actor", "AddComponentByClass")
    case 3 => InternalAllowFunction("Actor", "UserConstructionScript")
    case 4 => InternalAllowFunction("Actor", "AddComponentByClass")
    case 5 => InternalAllowFunction("Actor", "FinishAddComponent")
    case 6 => InternalAllowFunction("BlueprintAsyncActionBase", "Activate")
    case 7 => OverrideInternalFunction("Actor", "AddComponentByClass")
    case _ => OverrideInternalFunction("Actor", "FinishAddComponent")
  }

  /** The lists after StartGenerator's first `k` entries. */
  function StartupListsUpTo(l: Lists, k: nat): Lists
    decreases k
  {
    if k == 0 then l else AddStartupEntry(StartupListsUpTo(l, k - 1), StartupEntryAt(k - 1))
  }

  /** The lists StartGenerator fills before it creates the translator manager. */
  function StartupLists(l: Lists): Lists {
    StartupListsUpTo(l, StartupEntryCount)
  }

  /** The entries, list by list: two on the deny list, one on the allow list, four internal, two overrides. */
  lemma StartupListsIsChain(l: Lists)
    ensures StartupLists(l)
         == l.(deny := Inclusion.AddFunctionCategory(Inclusion.AddClass(l.deny, "AnimationBlueprintLibrary"), "KismetMathLibrary", "Math|Vector4"),
               allow := Inclusion.AddFunction(l.allow, "Actor", "AddComponentByClass"),
               internalAllow :=
                 Inclusion.AddFunction(Inclusion.AddFunction(Inclusion.AddFunction(Inclusion.AddFunction(l.internalAllow,
                   "Actor", "UserConstructionScript"), "Actor", "AddComponentByClass"), "Actor", "FinishAddComponent"),
                   "BlueprintAsyncActionBase", "Activate"),
               overrideInternal :=
                 Inclusion.AddFunction(Inclusion.AddFunction(l.overrideInternal, "Actor", "AddComponentByClass"), "Actor", "FinishAddComponent"))
  {
    var l2 := StartupListsUpTo(l, 2);
    assert l2 == l.(deny := Inclusion.AddFunctionCategory(Inclusion.AddClass(l.deny, "AnimationBlueprintLibrary"), "KismetMathLibrary", "Math|Vector4"));
    var l3 := StartupListsUpTo(l, 3);
    assert l3 == l2.(allow := Inclusion.AddFunction(l.allow, "Actor", "AddComponentByClass"));
    var l7 := StartupListsUpTo(l, 7);
    assert StartupListsUpTo(l, 4) == l3.(internalAllow := Inclusion.AddFunction(l.internalAllow, "Actor", "UserConstructionScript"));
    assert StartupListsUpTo(l, 5) == l3.(internalAllow := Inclusion.AddFunction(Inclusion.AddFunction(l.internalAllow,
      "Actor", "UserConstructionScript"), "Actor", "AddComponentByClass"));
    assert StartupListsUpTo(l, 6) == l3.(internalAllow := Inclusion.AddFunction(Inclusion.AddFunction(Inclusion.AddFunction(l.internalAllow,
      "Actor", "UserConstructionScript"), "Actor", "AddComponentByClass"), "Actor", "FinishAddComponent"));
    assert l7 == l3.(internalAllow := Inclusion.AddFunction(Inclusion.AddFunction(Inclusion.AddFunction(Inclusion.AddFunction(l.internalAllow,
      "Actor", "UserConstructionScript"), "Actor", "AddComponentByClass"), "Actor", "FinishAddComponent"),
      "BlueprintAsyncActionBase", "Activate"));
    assert StartupListsUpTo(l, 8) == l7.(overrideInternal := Inclusion.AddFunction(l.overrideInternal, "Actor", "AddComponentByClass"));
  }

  /**
   * After start-up, AddComponentByClass is allow-listed, internally allow-listed and an internal
   * override on Actor; Activate is internally allow-listed on the async-action base; the
   * animation blueprint library and every math function of category "Math|Vector4" are denied;
   * and every entry made before is still there.
   */
  lemma StartupListsSpec(l: Lists)
    ensures var l' := StartupLists(l);
      && Inclusion.HasClass(l'.deny, "AnimationBlueprintLibrary")
      && (forall name, category :: Inclusion.HasFunction(l'.deny, "KismetMathLibrary", name, category) <==>
            category == "Math|Vector4" || Inclusion.HasFunction(l.deny, "KismetMathLibrary", name, category))
      && Inclusion.ListsFunction(l'.allow, "Actor", "AddComponentByClass")
      && Inclusion.ListsFunction(l'.internalAllow, "Actor", "AddComponentByClass")
      && Inclusion.ListsFunction(l'.internalAllow, "BlueprintAsyncActionBase", "Activate")
      && Inclusion.ListsFunction(l'.overrideInternal, "Actor", "FinishAddComponent")
      && !Inclusion.ListsFunction(l'.overrideInternal, "Actor", "UserConstructionScript") ==
         !Inclusion.ListsFunction(l.overrideInternal, "Actor", "UserConstructionScript")
      && l.deny.classes <= l'.deny.classes && l.deny.functions == l'.deny.functions
      && l.deny.functionCategories <= l'.deny.functionCategories
      && l.allow.functions <= l'.allow.functions && l.internalAllow.functions <= l'.internalAllow.functions
      && l.overrideInternal.functions <= l'.overrideInternal.functions
  {
    StartupListsIsChain(l);
  }

  /** GenerateGlueForType exports `obj` as a class or interface: it is a live, unfiltered class that is an interface, forced or selected. */
  predicate ExportsAsClass(e: Engine, g: Graph, obj: ObjId, force: bool) {
    && obj in g
    && g[obj].package != e.transientPackage
    && g[obj].kind.ClassKind?
    && !ClassRejected(g[obj])
    && (e.isChildOf(obj, e.uInterface) || force || e.shouldExportClass(obj))
  }

  /**
   * How the memo and its ghost log may change: the memo only grows; the log only grows at its
   * end, only with types that were not exported before; every newly exported type is logged.
   */
  ghost predicate ExportsExtend(types0: set<ObjId>, log0: seq<ObjId>, types1: set<ObjId>, log1: seq<ObjId>) {
    && types0 <= types1
    && |log0| <= |log1| && log1[..|log0|] == log0
    && (forall i | |log0| <= i < |log1| :: log1[i] !in types0)
    && (forall x | x in types1 && x !in types0 :: x in log1)
  }

  lemma ExportsExtendTransitive(types0: set<ObjId>, log0: seq<ObjId>, types1: set<ObjId>, log1: seq<ObjId>,
                                types2: set<ObjId>, log2: seq<ObjId>)
    requires ExportsExtend(types0, log0, types1, log1) && ExportsExtend(types1, log1, types2, log2)
    ensures ExportsExtend(types0, log0, types2, log2)
  {
    assert log2[..|log0|] == log1[..|log0|];
    forall i | |log0| <= i < |log2| ensures log2[i] !in types0 {
      if i < |log1| {
        assert log2[i] == log1[i];
      }
    }
    forall x | x in types2 && x !in types0 ensures x in log2 {
      if x in types1 {
        assert x in log1;
        var k :| 0 <= k < |log1| && log1[k] == x;
        assert log2[k] == x;
      }
    }
  }

  /** Marking a type not yet exported: the log stays duplicate-free and within the memo, and the memo grows by the logged type. */
  lemma ExportsExtendByOne(types: set<ObjId>, log: seq<ObjId>, x: ObjId)
    requires NoDup(log) && (forall i | 0 <= i < |log| :: log[i] in types) && x !in types
    ensures NoDup(log + [x]) && (forall i | 0 <= i < |log + [x]| :: (log + [x])[i] in types + {x})
    ensures ExportsExtend(types, log, types + {x}, log + [x])
  {
    assert (log + [x])[..|log|] == log;
    assert x in log + [x];
  }

  /** Marking a delegate not yet exported keeps the memo and its log in step. */
  lemma DelegatesExtendByOne(delegates: set<ObjId>, log: seq<ObjId>, x: ObjId)
    requires NoDup(log) && (forall d :: d in delegates <==> d in log) && x !in delegates
    ensures NoDup(log + [x]) && (forall d :: d in delegates + {x} <==> d in log + [x])
  {
  }

  /** Registered modules are never replaced or removed. */
  ghost predicate ModulesExtend(m0: map<string, ModuleInfo>, m1: map<string, ModuleInfo>) {
    forall name | name in m0 :: name in m1 && m1[name] == m0[name]
  }

  /** Saved files and per-module extension methods are only appended to. */
  ghost predicate OutputExtends(files0: seq<SavedFile>, ext0: map<string, seq<ExtensionMethod>>,
                                files1: seq<SavedFile>, ext1: map<string, seq<ExtensionMethod>>) {
    && files0 <= files1
    && forall name | name in ext0 :: name in ext1 && ext0[name] <= ext1[name]
  }

  lemma OutputExtendsTransitive(files0: seq<SavedFile>, ext0: map<string, seq<ExtensionMethod>>,
                                files1: seq<SavedFile>, ext1: map<string, seq<ExtensionMethod>>,
                                files2: seq<SavedFile>, ext2: map<string, seq<ExtensionMethod>>)
    requires OutputExtends(files0, ext0, files1, ext1) && OutputExtends(files1, ext1, files2, ext2)
    ensures OutputExtends(files0, ext0, files2, ext2)
  {
    assert files0 == files1[..|files0|] == files2[..|files0|];
    forall name | name in ext0 ensures name in ext2 && ext0[name] <= ext2[name] {
      assert ext0[name] == ext1[name][..|ext0[name]|] == ext2[name][..|ext0[name]|];
    }
  }

  /** The file GenerateGlueForType saves for a selected type, by kind. */
  function TypeGlue(r: Rules, names: NameMapper, obj: ObjId): seq<Emission>
    requires WellFormed(r.graph) && obj in r.graph
  {
    match r.graph[obj].kind
    case ClassKind(_) =>
      if r.engine.isChildOf(obj, r.engine.uInterface) then InterfaceGlue(r, names, obj) else ClassGlue(r, names, obj)
    case StructKind(_) => StructGlue(r, names, obj)
    case EnumKind(_) => EnumGlue(r.engine, obj, r.graph[obj])
    case OtherKind => []
  }

  class CSGenerator {
    const engine: Engine
    const graph: Graph
    const names: NameMapper
    const caps: Capabilities
    const projectDirectory: string

    var initialized: bool
    var generatedScriptsDirectory: string
    var lists: Lists
    var manager: TranslatorManager
    /** ExportedTypes and ExportedDelegates (delegate signatures by id). */
    var exportedTypes: set<ObjId>
    var exportedDelegates: set<ObjId>
    /** CSharpBindingsModules, keyed by module name. */
    var modules: map<string, ModuleInfo>
    var extensionMethods: map<string, seq<ExtensionMethod>>
    /** The files handed to the generated-file manager, in order. */
    var savedFiles: seq<SavedFile>
    /** Whether the generated-scripts directory exists, and the glue version stored in the editor settings. */
    var outputExists: bool
    var storedVersion: Option<int>
    /** Every class or interface export and every delegate export, in order. */
    ghost var exportLog: seq<ObjId>
    ghost var delegateLog: seq<ObjId>

    /** The graph is consistent and holds the types the generator names directly. */
    ghost predicate GraphValid() {
      WellFormed(graph) && CommonTypesPresent(engine, graph)
    }

    /** The translator manager is well formed and uses the generator's capabilities. */
    ghost predicate ManagerValid()
      reads this`manager, manager
    {
      manager.Valid() && manager.caps == caps
    }

    /** At most one export per class, interface and delegate: the logs never repeat and stay within the memo sets. */
    ghost predicate ExportsValid()
      reads this`exportLog, this`exportedTypes, this`delegateLog, this`exportedDelegates
    {
      && NoDup(exportLog) && (forall i | 0 <= i < |exportLog| :: exportLog[i] in exportedTypes)
      && NoDup(delegateLog) && (forall d :: d in exportedDelegates <==> d in delegateLog)
    }

    /** Every module is registered under its own name. */
    ghost predicate ModulesValid()
      reads this`modules
    {
      forall name | name in modules :: modules[name].name == name
    }

    ghost predicate Valid()
      reads this, manager
    {
      GraphValid() && ManagerValid() && ExportsValid() && ModulesValid()
    }

    /** What the eligibility rules read: the graph, the lists and the translator manager. */
    function CurrentRules(): Rules
      reads this`lists, this`manager, manager
    {
      Rules(engine, graph, lists, Registry(manager.translatorMap, manager.nullHandler, manager.caps))
    }

    /** The classes of the graph not yet in the memo; the superclass recursion shrinks this set. */
    ghost function UnexportedOf(types: set<ObjId>): set<ObjId> {
      set id | id in graph && graph[id].kind.ClassKind? && id !in types
    }

    lemma ExportingShrinksUnexported(types: set<ObjId>, cls: ObjId)
      requires IsClass(graph, cls) && cls !in types
      ensures |UnexportedOf(types + {cls})| < |UnexportedOf(types)|
    {
      assert cls in UnexportedOf(types);
      assert UnexportedOf(types + {cls}) == UnexportedOf(types) - {cls};
    }

    /** Nothing exported, no module registered, no translator, empty lists. */
    constructor (engine: Engine, graph: Graph, names: NameMapper, caps: Capabilities, projectDirectory: string,
                 outputExists: bool, storedVersion: Option<int>)
      requires WellFormed(graph) && CommonTypesPresent(engine, graph)
      ensures Valid()
      ensures this.engine == engine && this.graph == graph && this.names == names && this.caps == caps
      ensures this.projectDirectory == projectDirectory
      ensures !initialized && exportedTypes == {} && exportedDelegates == {} && modules == map[]
      ensures extensionMethods == map[] && savedFiles == [] && exportLog == [] && delegateLog == []
      ensures lists == Lists(Inclusion.Empty, Inclusion.Empty, Inclusion.Empty, Inclusion.Empty)
      ensures manager.translatorMap == map[]
      ensures this.outputExists == outputExists && this.storedVersion == storedVersion
    {
      this.engine := engine;
      this.graph := graph;
      this.names := names;
      this.caps := caps;
      this.projectDirectory := projectDirectory;
      initialized := false;
      generatedScriptsDirectory := "";
      lists := Lists(Inclusion.Empty, Inclusion.Empty, Inclusion.Empty, Inclusion.Empty);
      manager := new TranslatorManager(caps);
      exportedTypes := {};
      exportedDelegates := {};
      modules := map[];
      extensionMethods := map[];
      savedFiles := [];
      this.outputExists := outputExists;
      this.storedVersion := storedVersion;
      exportLog := [];
      delegateLog := [];
    }

    /**
     * FindOrRegisterModule: the cached module of the package's module name, or a new module whose
     * directory is decided now, once, and registered.
     */
    method FindOrRegisterModule(package: string) returns (m: ModuleInfo)
      requires ModulesValid()
      modifies this`modules
      ensures ModulesValid()
      ensures m.name == engine.moduleOfPackage(package) && m.name in modules && modules[m.name] == m
      ensures m.name in old(modules) ==> m == old(modules)[m.name] && modules == old(modules)
      ensures m.name !in old(modules) ==>
        && m.directory == ModuleDirectory(engine, generatedScriptsDirectory, projectDirectory, m.name)
        && modules == old(modules)[m.name := m]
    {
      var name := engine.moduleOfPackage(package);
      if name in modules {
        return modules[name];
      }
      m := ModuleInfo(name, ModuleDirectory(engine, generatedScriptsDirectory, projectDirectory, name));
      modules := modules[name := m];
    }

    /** SaveGlue: hands the content to the generated-file manager under the module's directory. */
    method SaveGlue(info: ModuleInfo, fileName: string, content: seq<Emission>)
      modifies this`savedFiles
      ensures savedFiles == old(savedFiles) + [SavedFile(info.directory, fileName, content)]
    {
      savedFiles := savedFiles + [SavedFile(info.directory, fileName, content)];
    }

    /** SaveTypeGlue: saves `<TypeName>.generated.cs` in the module of the package. */
    method SaveTypeGlue(package: string, typeName: string, content: seq<Emission>)
      requires ModulesValid()
      modifies this`modules, this`savedFiles
      ensures ModulesValid() && ModulesExtend(old(modules), modules)
      ensures var name := engine.moduleOfPackage(package);
        && name in modules
        && savedFiles == old(savedFiles) + [SavedFile(modules[name].directory, GeneratedFileName(typeName), content)]
    {
      var m := FindOrRegisterModule(package);
      SaveGlue(m, GeneratedFileName(typeName), content);
    }

    /** CheckGlueGeneratorVersion: deletes stale output, then records the current version. */
    method CheckGlueGeneratorVersion()
      modifies this`outputExists, this`storedVersion
      ensures (outputExists, storedVersion) == VersionCheck(old(outputExists), old(storedVersion), engine.glueGeneratorVersion)
    {
      if outputExists {
        var version := storedVersion.GetOr(0);
        if version < engine.glueGeneratorVersion {
          outputExists := false;
        }
      }
      storedVersion := Some(engine.glueGeneratorVersion);
    }

    /** AddExportedType: how the translator manager marks the structs it handles itself. */
    method AddExportedType(obj: ObjId)
      requires ExportsValid()
      modifies this`exportedTypes
      ensures ExportsValid() && exportedTypes == old(exportedTypes) + {obj}
    {
      exportedTypes := exportedTypes + {obj};
    }

    /** CanExportFunctionParameters: checks the return value, then the parameters up to the return property. */
    method CanExportFunctionParameters(f: Function) returns (ok: bool)
      ensures ok == ParametersExportable(CurrentRules(), f)
    {
      var r := CurrentRules();
      var ret := ReturnProperty(f.params);
      if ret.Some? && !CanExportReturnValue(r, ret.value) {
        return false;
      }
      var i := 0;
      while i < |f.params| && !f.params[i].returnParm
        invariant 0 <= i <= |f.params|
        invariant forall j :: 0 <= j < i ==> !f.params[j].returnParm && CanExportParameter(r, f.params[j])
      {
        if !CanExportParameter(r, f.params[i]) {
          return false;
        }
        i := i + 1;
      }
      return true;
    }

    /** CanExportFunction, in the source's order of checks. */
    method CanExportFunction(owner: ObjId, f: Function) returns (ok: bool)
      requires owner in graph
      ensures ok == FunctionExportable(CurrentRules(), owner, f)
    {
      var r := CurrentRules();
      var ownerName := graph[owner].name;
      if Inclusion.HasFunction(lists.deny, ownerName, f.name, f.category)
         || (!Inclusion.HasFunction(lists.allow, ownerName, f.name, f.category) && !engine.shouldExportFunction(f)) {
        return false;
      }
      if engine.isChildOf(owner, engine.asyncActionBase) {
        var ret := ReturnProperty(f.params);
        if f.ownerClass.Some? && ret.Some? {
          if ret.value.objectClass.Some? && engine.isChildOf(ret.value.objectClass.value, f.ownerClass.value) {
            return true;
          }
        }
      }
      if f.latent || f.internalUseOnly {
        return Inclusion.HasFunction(lists.internalAllow, ownerName, f.name, f.category);
      }
      ok := CanExportFunctionParameters(f);
    }

    /** GetExportedProperties: adds the owner's exportable own properties to `acc`. */
    method GetExportedProperties(acc: seq<Property>, owner: ObjId) returns (props: seq<Property>)
      requires owner in graph && (graph[owner].kind.ClassKind? || graph[owner].kind.StructKind?)
      ensures props == ExportedPropertiesFold(CurrentRules(), graph[owner], OwnProperties(graph[owner]), acc)
    {
      var r := CurrentRules();
      var own := OwnProperties(graph[owner]);
      props := acc;
      var i := 0;
      while i < |own|
        invariant 0 <= i <= |own|
        invariant props == ExportedPropertiesFold(r, graph[owner], own[..i], acc)
      {
        assert own[..i + 1][..i] == own[..i];
        if CanExportProperty(r, graph[owner], own[i]) {
          props := AddUnique(props, own[i]);
        }
        i := i + 1;
      }
      assert own[..|own|] == own;
    }

    /** The name test of GetExportedFunctions' interface loop: is some overridable function already so named? */
    method HasOverridableNamed(overridable: seq<Function>, name: string) returns (found: bool)
      ensures found == HasNamed(overridable, name)
    {
      var i := 0;
      while i < |overridable|
        invariant 0 <= i <= |overridable|
        invariant forall j :: 0 <= j < i ==> !Strings.EqualsIgnoreCase(overridable[j].name, name)
      {
        if Strings.EqualsIgnoreCase(overridable[i].name, name) {
          return true;
        }
        i := i + 1;
      }
      return false;
    }

    /** GetExportedFunctions: own functions split by BlueprintEvent, then interface events not yet named. */
    method GetExportedFunctions(cls: ObjId) returns (normal: seq<Function>, overridable: seq<Function>)
      requires IsClass(graph, cls)
      ensures (normal, overridable) == ExportedFunctions(CurrentRules(), cls)
    {
      var r := CurrentRules();
      var c := graph[cls].kind.cls;
      normal, overridable := [], [];
      var i := 0;
      while i < |c.functions|
        invariant 0 <= i <= |c.functions|
        invariant (normal, overridable) == OwnFunctionsSplit(r, cls, c.functions[..i])
      {
        assert c.functions[..i + 1][..i] == c.functions[..i];
        var f := c.functions[i];
        var ok := CanExportFunction(cls, f);
        if ok {
          if f.blueprintEvent {
            overridable := AddUnique(overridable, f);
          } else {
            normal := AddUnique(normal, f);
          }
        }
        i := i + 1;
      }
      assert c.functions[..|c.functions|] == c.functions;
      overridable := AddInterfaceEvents(cls, overridable);
    }

    /** The interface loop of GetExportedFunctions. */
    method AddInterfaceEvents(cls: ObjId, own: seq<Function>) returns (overridable: seq<Function>)
      requires IsClass(graph, cls)
      ensures overridable == InterfaceEventsFold(CurrentRules(), cls, InterfaceFunctionList(graph, graph[cls].kind.cls.interfaces), own)
    {
      var interfaces := graph[cls].kind.cls.interfaces;
      overridable := own;
      var j := 0;
      while j < |interfaces|
        invariant 0 <= j <= |interfaces|
        invariant overridable == InterfaceEventsFold(CurrentRules(), cls, InterfaceFunctionList(graph, interfaces[..j]), own)
      {
        assert interfaces[..j + 1][..j] == interfaces[..j];
        var fs := if IsClass(graph, interfaces[j]) then graph[interfaces[j]].kind.cls.allFunctions else [];
        InterfaceEventsCompose(CurrentRules(), cls, InterfaceFunctionList(graph, interfaces[..j]), fs, own);
        overridable := AddEventsOf(cls, fs, overridable);
        j := j + 1;
      }
      assert interfaces[..|interfaces|] == interfaces;
    }

    /** The inner loop: one interface's functions, continuing from the events gathered so far. */
    method AddEventsOf(cls: ObjId, fs: seq<Function>, acc: seq<Function>) returns (overridable: seq<Function>)
      requires IsClass(graph, cls)
      ensures overridable == InterfaceEventsFold(CurrentRules(), cls, fs, acc)
    {
      overridable := acc;
      var k := 0;
      while k < |fs|
        invariant 0 <= k <= |fs|
        invariant overridable == InterfaceEventsFold(CurrentRules(), cls, fs[..k], acc)
      {
        assert fs[..k + 1][..k] == fs[..k];
        var f := fs[k];
        var ok := CanExportFunction(cls, f);
        if ok && f.blueprintEvent {
          var named := HasOverridableNamed(overridable, f.name);
          if !named {
            overridable := AddUnique(overridable, f);
          }
        }
        k := k + 1;
      }
      assert fs[..|fs|] == fs;
    }

    /** GatherModuleDependencies(Property): the modules of the delegate signatures the property's translator reports. */
    method GatherPropertyDependencies(deps: seq<string>, p: Property) returns (out: seq<string>)
      requires ManagerValid() && ModulesValid()
      modifies this`modules
      ensures ModulesValid() && ModulesExtend(old(modules), modules)
      ensures out == AddAll(deps, DelegateModules(CurrentRules(), p))
    {
      var h := manager.Find(p);
      var signatures := caps.delegateReferences(h, p);
      out := GatherSignatureModules(deps, signatures);
    }

    /** The loop of GatherModuleDependencies(Property): registers and adds each signature's module. */
    method GatherSignatureModules(deps: seq<string>, signatures: seq<Function>) returns (out: seq<string>)
      requires ModulesValid()
      modifies this`modules
      ensures ModulesValid() && ModulesExtend(old(modules), modules)
      ensures out == AddAll(deps, SignatureModules(engine, signatures))
    {
      out := deps;
      var i := 0;
      while i < |signatures|
        invariant 0 <= i <= |signatures|
        invariant ModulesValid() && ModulesExtend(old(modules), modules)
        invariant out == AddAll(deps, SignatureModules(engine, signatures[..i]))
      {
        SignatureModulesStep(engine, signatures, i, deps);
        var m := FindOrRegisterModule(signatures[i].package);
        out := AddUnique(out, m.name);
        i := i + 1;
      }
      assert signatures[..|signatures|] == signatures;
    }

    /** The interface loop of GatherModuleDependencies(Class). */
    method GatherInterfaceDependencies(deps: seq<string>, interfaces: seq<ObjId>) returns (out: seq<string>)
      requires ManagerValid() && ModulesValid() && forall i :: 0 <= i < |interfaces| ==> interfaces[i] in graph
      modifies this`modules
      ensures ModulesValid() && ModulesExtend(old(modules), modules)
      ensures out == InterfaceModules(CurrentRules(), interfaces, deps)
    {
      out := deps;
      var i := 0;
      while i < |interfaces|
        invariant 0 <= i <= |interfaces|
        invariant ManagerValid() && ModulesValid() && ModulesExtend(old(modules), modules)
        invariant out == InterfaceModules(CurrentRules(), interfaces[..i], deps)
      {
        assert interfaces[..i + 1][..i] == interfaces[..i];
        var m := FindOrRegisterModule(graph[interfaces[i]].package);
        out := AddUnique(out, m.name);
        i := i + 1;
      }
      assert interfaces[..|interfaces|] == interfaces;
    }

    /** The property loop of GatherModuleDependencies(Class). */
    method GatherPropertiesDependencies(deps: seq<string>, owner: ObjId, props: seq<Property>) returns (out: seq<string>)
      requires ManagerValid() && ModulesValid() && owner in graph && (graph[owner].kind.ClassKind? || graph[owner].kind.StructKind?)
      modifies this`modules
      ensures ModulesValid() && ModulesExtend(old(modules), modules)
      ensures out == PropertyDependencies(CurrentRules(), graph[owner], props, deps)
    {
      out := deps;
      var i := 0;
      while i < |props|
        invariant 0 <= i <= |props|
        invariant ManagerValid() && ModulesValid() && ModulesExtend(old(modules), modules)
        invariant out == PropertyDependencies(CurrentRules(), graph[owner], props[..i], deps)
      {
        assert props[..i + 1][..i] == props[..i];
        if CanExportProperty(CurrentRules(), graph[owner], props[i]) {
          out := GatherPropertyDependencies(out, props[i]);
        }
        i := i + 1;
      }
      assert props[..|props|] == props;
    }

    /** The dependencies of one exportable function: its return property, then every parameter. */
    method GatherFunctionDependencies(deps: seq<string>, f: Function) returns (out: seq<string>)
      requires ManagerValid() && ModulesValid()
      modifies this`modules
      ensures ModulesValid() && ModulesExtend(old(modules), modules)
      ensures out == FunctionDependencies(CurrentRules(), f, deps)
    {
      out := deps;
      var ret := ReturnProperty(f.params);
      if ret.Some? {
        out := GatherPropertyDependencies(out, ret.value);
      }
      out := GatherParameterDependencies(out, f.params);
    }

    /** The modules of the delegates the parameters reference, in parameter order. */
    method GatherParameterDependencies(deps: seq<string>, params: seq<Property>) returns (out: seq<string>)
      requires ManagerValid() && ModulesValid()
      modifies this`modules
      ensures ModulesValid() && ModulesExtend(old(modules), modules)
      ensures out == ParameterDependencies(CurrentRules(), params, deps)
    {
      out := deps;
      var i := 0;
      while i < |params|
        invariant 0 <= i <= |params|
        invariant ManagerValid() && ModulesValid() && ModulesExtend(old(modules), modules)
        invariant out == ParameterDependencies(CurrentRules(), params[..i], deps)
      {
        ParameterDependenciesStep(CurrentRules(), params, i, deps);
        out := GatherPropertyDependencies(out, params[i]);
        i := i + 1;
      }
      assert params[..|params|] == params;
    }

    /** The function loop of GatherModuleDependencies(Class). */
    method GatherFunctionsDependencies(deps: seq<string>, cls: ObjId, fs: seq<Function>) returns (out: seq<string>)
      requires ManagerValid() && ModulesValid() && cls in graph
      modifies this`modules
      ensures ModulesValid() && ModulesExtend(old(modules), modules)
      ensures out == FunctionsDependencies(CurrentRules(), cls, fs, deps)
    {
      out := deps;
      var i := 0;
      while i < |fs|
        invariant 0 <= i <= |fs|
        invariant ManagerValid() && ModulesValid() && ModulesExtend(old(modules), modules)
        invariant out == FunctionsDependencies(CurrentRules(), cls, fs[..i], deps)
      {
        assert fs[..i + 1][..i] == fs[..i];
        var ok := CanExportFunction(cls, fs[i]);
        if ok {
          out := GatherFunctionDependencies(out, fs[i]);
        }
        i := i + 1;
      }
      assert fs[..|fs|] == fs;
    }

    /** GatherModuleDependencies(Class): interfaces, superclass, exportable properties, exportable functions. */
    method GatherModuleDependencies(cls: ObjId) returns (deps: seq<string>)
      requires GraphValid() && ManagerValid() && ModulesValid() && IsClass(graph, cls)
      modifies this`modules
      ensures ModulesValid() && ModulesExtend(old(modules), modules)
      ensures deps == ClassDependencies(CurrentRules(), cls)
    {
      var c := graph[cls].kind.cls;
      deps := GatherInterfaceDependencies([], c.interfaces);
      if c.superClass.Some? {
        var m := FindOrRegisterModule(graph[c.superClass.value].package);
        deps := AddUnique(deps, m.name);
      }
      deps := GatherPropertiesDependencies(deps, cls, c.properties);
      deps := GatherFunctionsDependencies(deps, cls, c.functions);
    }

    /** The parameter loop shared by the function, overridable and delegate static construction. */
    method ExportParameterStaticConstructions(functionName: string, params: seq<Property>) returns (out: seq<Emission>)
      requires ManagerValid()
      ensures out == ParameterStaticInits(CurrentRules(), functionName, params)
    {
      out := [];
      var i := 0;
      while i < |params|
        invariant 0 <= i <= |params|
        invariant out == ParameterStaticInits(CurrentRules(), functionName, params[..i])
      {
        assert params[..i + 1][..i] == params[..i];
        var h := manager.Find(params[i]);
        out := out + [ParameterStaticInit(h, functionName, params[i])];
        i := i + 1;
      }
      assert params[..|params|] == params;
    }

    /** ExportClassFunctionStaticConstruction. */
    method ExportClassFunctionStaticConstruction(f: Function) returns (out: seq<Emission>)
      requires ManagerValid()
      ensures out == FunctionStaticInitBlock(CurrentRules(), f)
    {
      var params := ExportParameterStaticConstructions(f.name, f.params);
      out := EditorOnly(f.editorOnly, [FunctionStaticInit(f.name, |f.params| > 0)] + params);
    }

    /** ExportClassFunctionsStaticConstruction. */
    method ExportClassFunctionsStaticConstruction(fs: seq<Function>) returns (out: seq<Emission>)
      requires ManagerValid()
      ensures out == FunctionStaticInits(CurrentRules(), fs)
    {
      out := [];
      var i := 0;
      while i < |fs|
        invariant 0 <= i <= |fs|
        invariant out == FunctionStaticInits(CurrentRules(), fs[..i])
      {
        assert fs[..i + 1][..i] == fs[..i];
        var block := ExportClassFunctionStaticConstruction(fs[i]);
        out := out + block;
        i := i + 1;
      }
      assert fs[..|fs|] == fs;
    }

    /** One iteration of ExportClassOverridableFunctionsStaticConstruction: nothing for a function without parameters. */
    method ExportOverridableStaticConstruction(f: Function) returns (out: seq<Emission>)
      requires ManagerValid()
      ensures out == OverridableStaticInitBlock(CurrentRules(), f)
    {
      if |f.params| == 0 {
        return [];
      }
      var params := ExportParameterStaticConstructions(f.name, f.params);
      out := EditorOnly(f.editorOnly, [OverridableStaticInit(f.name)] + params);
    }

    /** ExportClassOverridableFunctionsStaticConstruction. */
    method ExportClassOverridableFunctionsStaticConstruction(fs: seq<Function>) returns (out: seq<Emission>)
      requires ManagerValid()
      ensures out == OverridableStaticInits(CurrentRules(), fs)
    {
      out := [];
      var i := 0;
      while i < |fs|
        invariant 0 <= i <= |fs|
        invariant out == OverridableStaticInits(CurrentRules(), fs[..i])
      {
        assert fs[..i + 1][..i] == fs[..i];
        var block := ExportOverridableStaticConstruction(fs[i]);
        out := out + block;
        i := i + 1;
      }
      assert fs[..|fs|] == fs;
    }

    /** ExportDelegateFunctionStaticConstruction. */
    method ExportDelegateFunctionStaticConstruction(signature: Function) returns (out: seq<Emission>)
      requires ManagerValid()
      ensures out == DelegateStaticInit(CurrentRules(), signature)
    {
      var params := ExportParameterStaticConstructions(signature.name, signature.params);
      out := [DelegateSignatureInit(signature.name, |signature.params| > 0)] + params;
    }

    /**
     * ExportPropertiesStaticConstruction: each property is initialised unless an earlier one had
     * the same managed name, tracked in a hash set of the names seen so far, which ignores case.
     */
    method ExportPropertiesStaticConstruction(props: seq<Property>, reserved: set<string>) returns (out: seq<Emission>)
      requires ManagerValid()
      ensures out == PropertyStaticInits(CurrentRules(), StaticInitProperties(names, props, reserved))
    {
      var seen: set<string> := {};
      ghost var kept: seq<Property> := [];
      out := [];
      var i := 0;
      while i < |props|
        invariant 0 <= i <= |props|
        invariant kept == StaticInitProperties(names, props[..i], reserved)
        invariant seen == ManagedKeys(names, kept, reserved)
        invariant out == PropertyStaticInits(CurrentRules(), kept)
      {
        var p := props[i];
        var managedName := names.mapPropertyName(p, reserved);
        StaticInitPropertiesStep(names, props, i, reserved);
        if Strings.FoldCase(managedName) !in seen {
          ManagedKeysSnoc(names, kept, p, reserved);
          PropertyStaticInitsSnoc(CurrentRules(), kept, p);
          seen := seen + {Strings.FoldCase(managedName)};
          var h := manager.Find(p);
          out := out + EditorOnly(p.editorOnly, [PropertyStaticInit(h, p)]);
          kept := kept + [p];
        }
        i := i + 1;
      }
      assert props[..|props|] == props;
    }

    /** The loop of ExportStaticConstructor that looks for a static function. */
    method HasStaticFunctions(fs: seq<Function>) returns (found: bool)
      ensures found == HasStaticFunction(fs)
    {
      var i := 0;
      while i < |fs|
        invariant 0 <= i <= |fs|
        invariant forall j :: 0 <= j < i ==> !fs[j].isStatic
      {
        if fs[i].isStatic {
          return true;
        }
        i := i + 1;
      }
      return false;
    }

    /** ExportStaticConstructor for the class or struct `id`; a class with nothing exported gets none. */
    method ExportStaticConstructor(id: ObjId, props: seq<Property>, normal: seq<Function>,
                                   overridable: seq<Function>, reserved: set<string>) returns (out: seq<Emission>)
      requires ManagerValid() && id in graph && (graph[id].kind.ClassKind? || graph[id].kind.StructKind?)
      ensures out == StaticConstructor(CurrentRules(), names, id, graph[id], props, normal, overridable, reserved)
    {
      var isClass := graph[id].kind.ClassKind?;
      if isClass && props == [] && normal == [] && overridable == [] {
        return [];
      }
      var keepsClassPtr := HasStaticFunctions(normal);
      var inits := ExportPropertiesStaticConstruction(props, reserved);
      var rest;
      if isClass {
        var functions := ExportClassFunctionsStaticConstruction(normal);
        var overrides := ExportClassOverridableFunctionsStaticConstruction(overridable);
        rest := functions + overrides;
      } else {
        rest := [StructSizeInit];
      }
      out := (if keepsClassPtr then [NativeClassPtrField] else [])
        + (if isClass then [] else [NativeDataSizeField])
        + [StaticCtorBegin(names.typeScriptName(id), isClass, keepsClassPtr, graph[id].name)]
        + inits
        + rest
        + [CloseBrace];
    }

    /** ExportClassProperties: one wrapper per exported property, allow-listed or not. */
    method ExportClassProperties(className: string, props: seq<Property>) returns (out: seq<Emission>)
      requires ManagerValid()
      ensures out == WrapperProperties(CurrentRules(), className, props)
    {
      out := [];
      var i := 0;
      while i < |props|
        invariant 0 <= i <= |props|
        invariant out == WrapperProperties(CurrentRules(), className, props[..i])
      {
        assert props[..i + 1][..i] == props[..i];
        var h := manager.Find(props[i]);
        out := out + [WrapperProperty(h, props[i], Inclusion.HasProperty(lists.allow, className, props[i].name))];
        i := i + 1;
      }
      assert props[..|props|] == props;
    }

    /** ExportClassOverridableFunctions. */
    method ExportClassOverridableFunctions(fs: seq<Function>) returns (out: seq<Emission>)
      requires ManagerValid()
      ensures out == OverridableWrappers(CurrentRules(), fs)
    {
      out := [];
      var i := 0;
      while i < |fs|
        invariant 0 <= i <= |fs|
        invariant out == OverridableWrappers(CurrentRules(), fs[..i])
      {
        assert fs[..i + 1][..i] == fs[..i];
        var h := manager.FindForFunction(fs[i]);
        out := out + [OverridableWrapper(h, fs[i])];
        i := i + 1;
      }
      assert fs[..|fs|] == fs;
    }

    /** ExportInterfaceFunctions. */
    method ExportInterfaceFunctions(fs: seq<Function>) returns (out: seq<Emission>)
      requires ManagerValid()
      ensures out == InterfaceFunctions(CurrentRules(), fs)
    {
      out := [];
      var i := 0;
      while i < |fs|
        invariant 0 <= i <= |fs|
        invariant out == InterfaceFunctions(CurrentRules(), fs[..i])
      {
        assert fs[..i + 1][..i] == fs[..i];
        var h := manager.FindForFunction(fs[i]);
        out := out + [InterfaceFunction(h, fs[i])];
        i := i + 1;
      }
      assert fs[..|fs|] == fs;
    }

    /** ExportStructProperties: one mirror property each; blittable structs suppress offsets. */
    method ExportStructProperties(props: seq<Property>, suppressOffsets: bool) returns (out: seq<Emission>)
      requires ManagerValid()
      ensures out == MirrorProperties(CurrentRules(), props, suppressOffsets)
    {
      out := [];
      var i := 0;
      while i < |props|
        invariant 0 <= i <= |props|
        invariant out == MirrorProperties(CurrentRules(), props[..i], suppressOffsets)
      {
        assert props[..i + 1][..i] == props[..i];
        var h := manager.Find(props[i]);
        out := out + [MirrorProperty(h, props[i], suppressOffsets)];
        i := i + 1;
      }
      assert props[..|props|] == props;
    }

    /** The loop of ExportMirrorStructMarshalling that reads each property from the native buffer. */
    method ExportMarshalFromNatives(props: seq<Property>, reserved: set<string>) returns (out: seq<Emission>)
      requires ManagerValid()
      ensures out == MarshalFromNatives(CurrentRules(), names, props, reserved)
    {
      out := [];
      var i := 0;
      while i < |props|
        invariant 0 <= i <= |props|
        invariant out == MarshalFromNatives(CurrentRules(), names, props[..i], reserved)
      {
        assert props[..i + 1][..i] == props[..i];
        var h := manager.Find(props[i]);
        out := out + [MarshalFromNative(h, props[i], names.mapPropertyName(props[i], reserved))];
        i := i + 1;
      }
      assert props[..|props|] == props;
    }

    /** The loop of ExportMirrorStructMarshalling that writes each property to the native buffer. */
    method ExportMarshalToNatives(props: seq<Property>, reserved: set<string>) returns (out: seq<Emission>)
      requires ManagerValid()
      ensures out == MarshalToNatives(CurrentRules(), names, props, reserved)
    {
      out := [];
      var i := 0;
      while i < |props|
        invariant 0 <= i <= |props|
        invariant out == MarshalToNatives(CurrentRules(), names, props[..i], reserved)
      {
        assert props[..i + 1][..i] == props[..i];
        var h := manager.Find(props[i]);
        out := out + [MarshalToNative(h, props[i], names.mapPropertyName(props[i], reserved))];
        i := i + 1;
      }
      assert props[..|props|] == props;
    }

    /** ExportMirrorStructMarshalling: the native-buffer constructor, then ToNative, over the same properties. */
    method ExportMirrorStructMarshalling(structName: string, props: seq<Property>, reserved: set<string>) returns (out: seq<Emission>)
      requires ManagerValid()
      ensures out == MirrorMarshalling(CurrentRules(), names, structName, props, reserved)
    {
      var from := ExportMarshalFromNatives(props, reserved);
      var to := ExportMarshalToNatives(props, reserved);
      out := [NativeConstructorBegin(structName)] + from + [CloseBrace, ToNativeBegin] + to + [CloseBrace];
    }

    /** ExportEnum: the kept entries in index order, under the narrowest backing type that holds the largest value. */
    method ExportEnum(id: ObjId) returns (glue: seq<Emission>)
      requires ModulesValid() && id in graph && graph[id].kind.EnumKind?
      modifies this`modules
      ensures ModulesValid() && ModulesExtend(old(modules), modules)
      ensures engine.moduleOfPackage(graph[id].package) in modules
      ensures glue == EnumGlue(engine, id, graph[id])
    {
      var o := graph[id];
      var m := FindOrRegisterModule(o.package);
      var members := ExportEnumEntries(engine, id, o.kind.enm.entries);
      glue := [Skeleton(engine.namespaceOf(m.name)), EnumDecl(o.name, EnumBackingType(o.kind.enm.maxValue))] + members + [CloseBrace];
    }

    /** The entry loop of ExportEnum. */
    static method ExportEnumEntries(e: Engine, id: ObjId, entries: seq<EnumEntry>) returns (members: seq<Emission>)
      ensures members == EnumMembers(EnumValues(e, id, entries, |entries|))
    {
      members := [];
      var i := 0;
      while i < |entries|
        invariant 0 <= i <= |entries|
        invariant members == EnumMembers(EnumValues(e, id, entries, i))
      {
        EnumMembersStep(e, id, entries, i);
        members := ExportEnumEntry(e, id, entries, i, members);
        i := i + 1;
      }
    }

    /**
     * One entry of ExportEnum: its member is appended under the text after the scope's `::`, unless
     * the entry is unexported, its name is empty, or it is a trailing `...MAX`.
     */
    static method ExportEnumEntry(e: Engine, id: ObjId, entries: seq<EnumEntry>, i: nat, members: seq<Emission>)
      returns (out: seq<Emission>)
      requires i < |entries|
      ensures out == if EntryKept(e, id, entries, i) then members + [EnumMember(EnumValue(EntryName(entries[i].name), entries[i].value))]
                     else members
    {
      var qualified := entries[i].name;
      var colon := Strings.Find(qualified, "::");
      var raw := if colon != -1 then qualified[colon + 2..] else qualified;
      if e.shouldExportEnumEntry(id, i) && raw != [] && !(i == |entries| - 1 && Strings.EndsWith(raw, "MAX")) {
        out := members + [EnumMember(EnumValue(raw, entries[i].value))];
      } else {
        out := members;
      }
    }

    /** The reserved names of a struct: its exported properties' native names. */
    method PropertyNamesOf(props: seq<Property>) returns (reserved: set<string>)
      ensures reserved == PropertyNames(props)
    {
      reserved := {};
      var i := 0;
      while i < |props|
        invariant 0 <= i <= |props|
        invariant reserved == PropertyNames(props[..i])
      {
        assert props[..i + 1][..i] == props[..i];
        reserved := reserved + {props[i].name};
        i := i + 1;
      }
      assert props[..|props|] == props;
    }

    /** ExportStruct: the parent's exported properties, then the struct's own; the marshalling only when not blittable. */
    method ExportStruct(s: ObjId) returns (glue: seq<Emission>)
      requires GraphValid() && ManagerValid() && ModulesValid() && IsStruct(graph, s)
      modifies this`modules
      ensures ModulesValid() && ModulesExtend(old(modules), modules)
      ensures engine.moduleOfPackage(graph[s].package) in modules
      ensures glue == StructGlue(CurrentRules(), names, s)
    {
      var m := FindOrRegisterModule(graph[s].package);
      var props := [];
      var parent := graph[s].kind.str.superStruct;
      if parent.Some? {
        props := GetExportedProperties([], parent.value);
      }
      props := GetExportedProperties(props, s);
      var blittable := engine.isStructBlittable(s);
      var structName := names.structScriptName(s);
      var reserved := PropertyNamesOf(props);
      var mirror := ExportStructProperties(props, blittable);
      var marshalling := [];
      var marshaller := [];
      if !blittable {
        var ctor := ExportStaticConstructor(s, props, [], [], reserved);
        var native := ExportMirrorStructMarshalling(structName, props, reserved);
        marshalling := ctor + native;
        marshaller := [StructMarshaller(structName)];
      }
      glue := [Skeleton(engine.namespaceOf(m.name)), StructDecl(structName, blittable)] + mirror + marshalling + [CloseBrace] + marshaller;
    }

    /** ExportInterface: once per interface, the NativeInterfaceClassPtr, the overridable functions and a marshaller. */
    method ExportInterface(cls: ObjId) returns (glue: seq<Emission>)
      requires GraphValid() && ManagerValid() && ExportsValid() && ModulesValid() && IsClass(graph, cls)
      modifies this`exportedTypes, this`exportLog, this`modules
      ensures ExportsValid() && ModulesValid() && ModulesExtend(old(modules), modules)
      ensures ExportsExtend(old(exportedTypes), old(exportLog), exportedTypes, exportLog)
      ensures cls in old(exportedTypes) ==> glue == [] && exportedTypes == old(exportedTypes) && exportLog == old(exportLog)
      ensures cls !in old(exportedTypes) ==>
        && glue == InterfaceGlue(CurrentRules(), names, cls)
        && exportedTypes == old(exportedTypes) + {cls} && exportLog == old(exportLog) + [cls]
        && engine.moduleOfPackage(graph[cls].package) in modules
    {
      if cls in exportedTypes {
        return [];
      }
      ExportsExtendByOne(exportedTypes, exportLog, cls);
      exportedTypes := exportedTypes + {cls};
      exportLog := exportLog + [cls];
      glue := InterfaceFile(cls);
    }

    /** The file ExportInterface writes once the interface is marked exported. */
    method InterfaceFile(cls: ObjId) returns (glue: seq<Emission>)
      requires GraphValid() && ManagerValid() && ModulesValid() && IsClass(graph, cls)
      modifies this`modules
      ensures ModulesValid() && ModulesExtend(old(modules), modules)
      ensures glue == InterfaceGlue(CurrentRules(), names, cls)
      ensures engine.moduleOfPackage(graph[cls].package) in modules
    {
      var name := names.scriptClassName(cls);
      var m := FindOrRegisterModule(graph[cls].package);
      var normal, overridable := GetExportedFunctions(cls);
      var functions := ExportInterfaceFunctions(overridable);
      glue := [Skeleton(engine.namespaceOf(m.name)), InterfaceDecl(name), InterfaceClassPtr(graph[cls].name)]
        + functions
        + [CloseBrace, InterfaceMarshaller(name)];
    }

    /** ExportDelegate: once per signature, a delegate class with its invoker and its static initialiser. */
    method ExportDelegate(signature: Function) returns (glue: seq<Emission>)
      requires ManagerValid() && ExportsValid() && ModulesValid()
      modifies this`exportedDelegates, this`delegateLog, this`modules
      ensures ExportsValid() && ModulesValid() && ModulesExtend(old(modules), modules)
      ensures signature.id in old(exportedDelegates) ==>
        glue == [] && exportedDelegates == old(exportedDelegates) && delegateLog == old(delegateLog)
      ensures signature.id !in old(exportedDelegates) ==>
        && glue == DelegateGlue(CurrentRules(), names, signature)
        && exportedDelegates == old(exportedDelegates) + {signature.id} && delegateLog == old(delegateLog) + [signature.id]
        && engine.moduleOfPackage(signature.package) in modules
    {
      if signature.id in exportedDelegates {
        return [];
      }
      DelegatesExtendByOne(exportedDelegates, delegateLog, signature.id);
      exportedDelegates := exportedDelegates + {signature.id};
      delegateLog := delegateLog + [signature.id];
      glue := DelegateFile(signature);
    }

    /** The file ExportDelegate writes once the signature is marked exported. */
    method DelegateFile(signature: Function) returns (glue: seq<Emission>)
      requires ManagerValid() && ModulesValid()
      modifies this`modules
      ensures ModulesValid() && ModulesExtend(old(modules), modules)
      ensures glue == DelegateGlue(CurrentRules(), names, signature)
      ensures engine.moduleOfPackage(signature.package) in modules
    {
      var m := FindOrRegisterModule(signature.package);
      var h := manager.FindForFunction(signature);
      var init := ExportDelegateFunctionStaticConstruction(signature);
      glue := [Skeleton(engine.namespaceOf(m.name)), DelegateDecl(names.delegateName(signature), signature.isMulticast),
               DelegateFunction(h, signature), DelegateInitializer]
        + init
        + [CloseBrace, CloseBrace];
    }

    /** One using directive per module dependency, in the order the dependencies were gathered. */
    method DeclareDirectives(deps: seq<string>) returns (out: seq<Emission>)
      ensures out == UsingDirectives(engine, deps)
    {
      out := [];
      var i := 0;
      while i < |deps|
        invariant 0 <= i <= |deps|
        invariant out == UsingDirectives(engine, deps[..i])
      {
        assert deps[..i + 1][..i] == deps[..i];
        out := out + [UsingDirective(engine.namespaceOf(deps[i]))];
        i := i + 1;
      }
      assert deps[..|deps|] == deps;
    }

    /** The names of the interfaces a class implements, in order. */
    method InterfaceNamesOf(interfaces: seq<ObjId>) returns (out: seq<string>)
      requires forall i :: 0 <= i < |interfaces| ==> interfaces[i] in graph
      ensures out == InterfaceNames(graph, interfaces)
    {
      out := [];
      var i := 0;
      while i < |interfaces|
        invariant 0 <= i <= |interfaces|
        invariant out == InterfaceNames(graph, interfaces[..i])
      {
        assert interfaces[..i + 1][..i] == interfaces[..i];
        out := out + [graph[interfaces[i]].name];
        i := i + 1;
      }
      assert interfaces[..|interfaces|] == interfaces;
    }

    method FunctionNamesOf(fs: seq<Function>) returns (out: set<string>)
      ensures out == FunctionNames(names, fs)
    {
      out := {};
      var i := 0;
      while i < |fs|
        invariant 0 <= i <= |fs|
        invariant out == FunctionNames(names, fs[..i])
      {
        assert fs[..i + 1][..i] == fs[..i];
        out := out + {names.mapFunctionName(fs[i])};
        i := i + 1;
      }
      assert fs[..|fs|] == fs;
    }

    method PropertyScriptNamesOf(props: seq<Property>) returns (out: set<string>)
      ensures out == PropertyScriptNames(names, props)
    {
      out := {};
      var i := 0;
      while i < |props|
        invariant 0 <= i <= |props|
        invariant out == PropertyScriptNames(names, props[..i])
      {
        assert props[..i + 1][..i] == props[..i];
        out := out + {names.scriptifyPropertyName(props[i].name)};
        i := i + 1;
      }
      assert props[..|props|] == props;
    }

    /** ExportClassFunctions: a wrapper per function; static functions of function libraries may also become extension methods of the module. */
    method ExportClassFunctions(cls: ObjId, fs: seq<Function>) returns (out: seq<Emission>)
      requires ManagerValid() && ModulesValid() && IsClass(graph, cls)
      modifies this`extensionMethods, this`modules
      ensures ModulesValid() && ModulesExtend(old(modules), modules)
      ensures out == FunctionWrappers(CurrentRules(), graph[cls].name, fs)
      ensures extensionMethods ==
        WithExtensions(old(extensionMethods), engine.moduleOfPackage(graph[cls].package), ExtensionsOf(CurrentRules(), cls, fs))
    {
      var className := graph[cls].name;
      ghost var key := engine.moduleOfPackage(graph[cls].package);
      out := [];
      var i := 0;
      while i < |fs|
        invariant 0 <= i <= |fs|
        invariant ModulesValid() && ModulesExtend(old(modules), modules)
        invariant out == FunctionWrappers(CurrentRules(), className, fs[..i])
        invariant extensionMethods == WithExtensions(old(extensionMethods), key, ExtensionsOf(CurrentRules(), cls, fs[..i]))
      {
        assert fs[..i + 1][..i] == fs[..i];
        ExtensionsOfSnoc(CurrentRules(), cls, fs, i);
        WithExtensionsAppend(old(extensionMethods), key, ExtensionsOf(CurrentRules(), cls, fs[..i]), ExtensionOf(CurrentRules(), cls, fs[i]));
        var f := fs[i];
        var functionType := if Inclusion.HasFunction(lists.overrideInternal, className, f.name, f.category) then InternalWhitelisted else Normal;
        AddExtensionMethod(cls, f);
        var h := manager.FindForFunction(f);
        out := out + [FunctionWrapper(h, f, functionType)];
        i := i + 1;
      }
      assert fs[..|fs|] == fs;
    }

    /** The extension-method step of ExportClassFunctions for one function. */
    method AddExtensionMethod(cls: ObjId, f: Function)
      requires ModulesValid() && IsClass(graph, cls)
      modifies this`extensionMethods, this`modules
      ensures ModulesValid() && ModulesExtend(old(modules), modules)
      ensures extensionMethods == WithExtensions(old(extensionMethods), engine.moduleOfPackage(graph[cls].package), ExtensionOf(CurrentRules(), cls, f))
    {
      if f.isStatic && engine.isChildOf(cls, engine.functionLibrary) {
        var info := ExtensionMethodInfo(f);
        if info.Some? {
          var m := FindOrRegisterModule(graph[cls].package);
          var registered := if m.name in extensionMethods then extensionMethods[m.name] else [];
          extensionMethods := extensionMethods[m.name := registered + [info.value]];
        }
      }
    }

    /** What ExportClass writes after its superclass: the header, then the members. */
    method ExportClassBody(cls: ObjId) returns (glue: seq<Emission>)
      requires GraphValid() && ManagerValid() && ModulesValid() && IsClass(graph, cls)
      modifies this`extensionMethods, this`modules
      ensures ModulesValid() && ModulesExtend(old(modules), modules)
      ensures glue == ClassBodyGlue(CurrentRules(), names, cls)
      ensures extensionMethods == WithExtensions(old(extensionMethods), engine.moduleOfPackage(graph[cls].package),
                                                 ClassExtensions(CurrentRules(), cls))
    {
      var header := ExportClassHeader(cls);
      var members := ExportClassMembers(cls);
      glue := header + members + [CloseBrace];
    }

    /** The part of ExportClass that gathers the module dependencies and declares the class. */
    method ExportClassHeader(cls: ObjId) returns (header: seq<Emission>)
      requires GraphValid() && ManagerValid() && ModulesValid() && IsClass(graph, cls)
      modifies this`modules
      ensures ModulesValid() && ModulesExtend(old(modules), modules)
      ensures header == ClassHeader(CurrentRules(), names, cls)
    {
      var c := graph[cls].kind.cls;
      var scriptName := names.scriptClassName(cls);
      var m := FindOrRegisterModule(graph[cls].package);
      var interfaces := InterfaceNamesOf(c.interfaces);
      var deps := GatherModuleDependencies(cls);
      var directives := DeclareDirectives(deps);
      header := directives
        + [Skeleton(engine.namespaceOf(m.name)), ClassDecl(scriptName, SuperClassName(engine, names, graph, cls), interfaces, c.isAbstract)];
    }

    /** The members ExportClass writes, with the reserved names of its functions and properties. */
    method ExportClassMembers(cls: ObjId) returns (members: seq<Emission>)
      requires GraphValid() && ManagerValid() && ModulesValid() && IsClass(graph, cls)
      modifies this`extensionMethods, this`modules
      ensures ModulesValid() && ModulesExtend(old(modules), modules)
      ensures members == ClassMembers(CurrentRules(), names, cls)
      ensures extensionMethods == WithExtensions(old(extensionMethods), engine.moduleOfPackage(graph[cls].package),
                                                 ClassExtensions(CurrentRules(), cls))
    {
      var props := GetExportedProperties([], cls);
      var normal, overridable := GetExportedFunctions(cls);
      var fromNormal := FunctionNamesOf(normal);
      var fromOverridable := FunctionNamesOf(overridable);
      var fromProps := PropertyScriptNamesOf(props);
      var reserved := fromNormal + fromOverridable + fromProps;
      var ctor := ExportStaticConstructor(cls, props, normal, overridable, reserved);
      var wrappers := ExportClassProperties(graph[cls].name, props);
      var functions := ExportClassFunctions(cls, normal);
      var overrides := ExportClassOverridableFunctions(overridable);
      members := ctor + wrappers + functions + overrides;
    }

    /** The selection GenerateGlueForType applies to a live type: filtered classes, or selected (or forced) structs and enums. */
    ghost predicate Selected(obj: ObjId, force: bool)
      requires obj in graph
    {
      match graph[obj].kind
      case ClassKind(_) => ExportsAsClass(engine, graph, obj, force)
      case StructKind(_) => force || engine.shouldExportStruct(obj)
      case EnumKind(_) => force || engine.shouldExportEnum(obj)
      case OtherKind => false
    }

    /**
     * GenerateGlueForType: nothing for transient or already exported types; otherwise the selected
     * type's glue, saved as `<Name>.generated.cs` in its module after everything its export pulled in.
     */
    method GenerateGlueForType(obj: ObjId, force: bool)
      requires Valid() && obj in graph
      modifies this`exportedTypes, this`exportLog, this`modules, this`savedFiles, this`extensionMethods
      ensures Valid()
      ensures ExportsExtend(old(exportedTypes), old(exportLog), exportedTypes, exportLog)
      ensures ModulesExtend(old(modules), modules)
      ensures OutputExtends(old(savedFiles), old(extensionMethods), savedFiles, extensionMethods)
      ensures ExportsAsClass(engine, graph, obj, force) ==> obj in exportedTypes
      ensures graph[obj].package == engine.transientPackage || obj in old(exportedTypes) ==>
        && exportedTypes == old(exportedTypes) && exportLog == old(exportLog) && modules == old(modules)
        && savedFiles == old(savedFiles) && extensionMethods == old(extensionMethods)
      ensures graph[obj].package != engine.transientPackage && obj !in old(exportedTypes) && Selected(obj, force) ==>
        var key := engine.moduleOfPackage(graph[obj].package);
        && key in modules && |old(savedFiles)| < |savedFiles|
        && savedFiles[|savedFiles| - 1] == SavedFile(modules[key].directory, GeneratedFileName(graph[obj].name), TypeGlue(old(CurrentRules()), names, obj))
      ensures graph[obj].package != engine.transientPackage && obj !in old(exportedTypes) && !Selected(obj, force) ==>
        && exportedTypes == old(exportedTypes) && exportLog == old(exportLog)
        && savedFiles == old(savedFiles) && extensionMethods == old(extensionMethods)
      decreases |UnexportedOf(exportedTypes)|, 5
    {
      var o := graph[obj];
      if o.package == engine.transientPackage || obj in exportedTypes {
        return;
      }
      var glue := ExportType(obj, force);
      if Selected(obj, force) {
        TypeGlueNonEmpty(old(CurrentRules()), obj, force);
      }
      if glue == [] {
        return;
      }
      ghost var files1 := savedFiles;
      SaveTypeGlue(o.package, o.name, glue);
      OutputExtendsTransitive(old(savedFiles), old(extensionMethods), files1, extensionMethods, savedFiles, extensionMethods);
    }

    /** A selected type always has a non-empty file. */
    lemma TypeGlueNonEmpty(r: Rules, obj: ObjId, force: bool)
      requires WellFormed(r.graph) && r.graph == graph && r.engine == engine && obj in graph && Selected(obj, force)
      ensures TypeGlue(r, names, obj) != []
    {
    }

    /** The export step of GenerateGlueForType for a live type, by kind; an empty result means nothing is saved. */
    method ExportType(obj: ObjId, force: bool) returns (glue: seq<Emission>)
      requires Valid() && obj in graph && graph[obj].package != engine.transientPackage && obj !in exportedTypes
      modifies this`exportedTypes, this`exportLog, this`modules, this`savedFiles, this`extensionMethods
      ensures Valid()
      ensures ExportsExtend(old(exportedTypes), old(exportLog), exportedTypes, exportLog)
      ensures ModulesExtend(old(modules), modules)
      ensures OutputExtends(old(savedFiles), old(extensionMethods), savedFiles, extensionMethods)
      ensures ExportsAsClass(engine, graph, obj, force) ==> obj in exportedTypes
      ensures glue == if Selected(obj, force) then TypeGlue(old(CurrentRules()), names, obj) else []
      ensures !Selected(obj, force) ==>
        && exportedTypes == old(exportedTypes) && exportLog == old(exportLog)
        && savedFiles == old(savedFiles) && extensionMethods == old(extensionMethods)
      decreases |UnexportedOf(exportedTypes)|, 4
    {
      glue := [];
      match graph[obj].kind {
        case ClassKind(_) =>
          glue := GenerateClassGlue(obj, force);
        case StructKind(_) =>
          if force || engine.shouldExportStruct(obj) {
            glue := ExportStruct(obj);
          }
        case EnumKind(_) =>
          if force || engine.shouldExportEnum(obj) {
            glue := ExportEnum(obj);
          }
        case OtherKind =>
      }
    }

    /** The class branch of GenerateGlueForType: the filters, the module registration, then interface or class export. */
    method GenerateClassGlue(cls: ObjId, force: bool) returns (glue: seq<Emission>)
      requires Valid() && IsClass(graph, cls) && graph[cls].package != engine.transientPackage && cls !in exportedTypes
      modifies this`exportedTypes, this`exportLog, this`modules, this`savedFiles, this`extensionMethods
      ensures Valid()
      ensures ExportsExtend(old(exportedTypes), old(exportLog), exportedTypes, exportLog)
      ensures ModulesExtend(old(modules), modules)
      ensures OutputExtends(old(savedFiles), old(extensionMethods), savedFiles, extensionMethods)
      ensures ExportsAsClass(engine, graph, cls, force) ==> cls in exportedTypes && glue == TypeGlue(CurrentRules(), names, cls)
      ensures !ExportsAsClass(engine, graph, cls, force) ==>
        && glue == [] && exportedTypes == old(exportedTypes) && exportLog == old(exportLog)
        && savedFiles == old(savedFiles) && extensionMethods == old(extensionMethods)
      decreases |UnexportedOf(exportedTypes)|, 3
    {
      var o := graph[cls];
      var rejected := RejectsClass(o);
      if rejected {
        return [];
      }
      var m := FindOrRegisterModule(o.package);
      glue := ExportClassOrInterface(cls, force);
    }

    /** The tail of GenerateGlueForType for a class that passed the filters: interface, forced or selected class, or nothing. */
    method ExportClassOrInterface(cls: ObjId, force: bool) returns (glue: seq<Emission>)
      requires Valid() && IsClass(graph, cls) && cls !in exportedTypes
      modifies this`exportedTypes, this`exportLog, this`modules, this`savedFiles, this`extensionMethods
      ensures Valid()
      ensures ExportsExtend(old(exportedTypes), old(exportLog), exportedTypes, exportLog)
      ensures ModulesExtend(old(modules), modules)
      ensures OutputExtends(old(savedFiles), old(extensionMethods), savedFiles, extensionMethods)
      ensures ExportsSelected(cls, force) ==> cls in exportedTypes && glue == TypeGlue(CurrentRules(), names, cls)
      ensures !ExportsSelected(cls, force) ==>
        && glue == [] && exportedTypes == old(exportedTypes) && exportLog == old(exportLog) && modules == old(modules)
        && savedFiles == old(savedFiles) && extensionMethods == old(extensionMethods)
      decreases |UnexportedOf(exportedTypes)|, 2
    {
      if engine.isChildOf(cls, engine.uInterface) {
        glue := ExportInterface(cls);
      } else if force || engine.shouldExportClass(cls) {
        glue := ExportClass(cls);
      } else {
        glue := [];
      }
    }

    /** The last clause of ExportsAsClass: an interface, a forced class or one the engine selects. */
    predicate ExportsSelected(cls: ObjId, force: bool) {
      engine.isChildOf(cls, engine.uInterface) || force || engine.shouldExportClass(cls)
    }

    /** GenerateGlueForType's class filters, checked in the order the generator checks them. */
    static method RejectsClass(o: Obj) returns (rejected: bool)
      requires o.kind.ClassKind?
      ensures rejected == ClassRejected(o)
    {
      var c := o.kind.cls;
      if c.isClassDefaultObject {
        return true;
      }
      if c.blueprintGenerated || c.compiledFromBlueprint {
        return true;
      }
      if c.newerVersionExists {
        return true;
      }
      if Strings.Find(o.name, "TRASH_") != -1 {
        return true;
      }
      if Strings.Find(o.name, "REINST_") != -1 {
        return true;
      }
      if c.notGeneratorValid {
        return true;
      }
      return false;
    }

    /**
     * ExportClass: marks the class exported, generates its superclass first (forced), then writes
     * its own file; the class's extension methods end up last in its module's list.
     */
    method ExportClass(cls: ObjId) returns (glue: seq<Emission>)
      requires Valid() && IsClass(graph, cls)
      modifies this`exportedTypes, this`exportLog, this`modules, this`savedFiles, this`extensionMethods
      ensures Valid()
      ensures ExportsExtend(old(exportedTypes), old(exportLog), exportedTypes, exportLog)
      ensures ModulesExtend(old(modules), modules)
      ensures OutputExtends(old(savedFiles), old(extensionMethods), savedFiles, extensionMethods)
      ensures cls in exportedTypes
      ensures cls in old(exportedTypes) ==>
        && glue == [] && exportedTypes == old(exportedTypes) && exportLog == old(exportLog) && modules == old(modules)
        && savedFiles == old(savedFiles) && extensionMethods == old(extensionMethods)
      ensures cls !in old(exportedTypes) ==>
        && glue == ClassGlue(CurrentRules(), names, cls)
        && |old(exportLog)| < |exportLog| && exportLog[|old(exportLog)|] == cls
        && EndsWithExtensions(extensionMethods, engine.moduleOfPackage(graph[cls].package), ClassExtensions(CurrentRules(), cls))
      decreases |UnexportedOf(exportedTypes)|, 1
    {
      if cls in exportedTypes {
        return [];
      }
      MarkAndExportSuperClass(cls);
      ghost var files1, ext1 := savedFiles, extensionMethods;
      glue := WriteClass(cls);
      OutputExtendsTransitive(old(savedFiles), old(extensionMethods), files1, ext1, savedFiles, extensionMethods);
    }

    /** The part of ExportClass before its own file: the class is marked and logged, then its superclass is generated. */
    method MarkAndExportSuperClass(cls: ObjId)
      requires Valid() && IsClass(graph, cls) && cls !in exportedTypes
      modifies this`exportedTypes, this`exportLog, this`modules, this`savedFiles, this`extensionMethods
      ensures Valid()
      ensures ExportsExtend(old(exportedTypes), old(exportLog), exportedTypes, exportLog)
      ensures ModulesExtend(old(modules), modules)
      ensures OutputExtends(old(savedFiles), old(extensionMethods), savedFiles, extensionMethods)
      ensures cls in exportedTypes
      ensures |old(exportLog)| < |exportLog| && exportLog[|old(exportLog)|] == cls
      decreases |UnexportedOf(exportedTypes)|, 0
    {
      ExportingShrinksUnexported(exportedTypes, cls);
      ExportsExtendByOne(exportedTypes, exportLog, cls);
      exportedTypes := exportedTypes + {cls};
      exportLog := exportLog + [cls];
      ghost var types1, log1 := exportedTypes, exportLog;
      var superClass := graph[cls].kind.cls.superClass;
      if superClass.Some? {
        GenerateGlueForType(superClass.value, true);
      }
      ExportsExtendTransitive(old(exportedTypes), old(exportLog), types1, log1, exportedTypes, exportLog);
      assert exportLog[|old(exportLog)|] == log1[|old(exportLog)|];
    }

    /** The file of ExportClass: the header line, then the body written after the superclass. */
    method WriteClass(cls: ObjId) returns (glue: seq<Emission>)
      requires GraphValid() && ManagerValid() && ModulesValid() && IsClass(graph, cls)
      modifies this`extensionMethods, this`modules
      ensures ModulesValid() && ModulesExtend(old(modules), modules)
      ensures glue == ClassGlue(CurrentRules(), names, cls)
      ensures EndsWithExtensions(extensionMethods, engine.moduleOfPackage(graph[cls].package), ClassExtensions(CurrentRules(), cls))
      ensures OutputExtends(savedFiles, old(extensionMethods), savedFiles, extensionMethods)
    {
      var body := ExportClassBody(cls);
      WithExtensionsSpec(old(extensionMethods), engine.moduleOfPackage(graph[cls].package), ClassExtensions(CurrentRules(), cls));
      glue := [FileHeader] + body;
    }

    /**
     * GenerateGlueForDelegate: nothing for transient or already exported signatures; otherwise the
     * delegate's file, saved as `<DelegateName>.generated.cs` in the signature's module.
     */
    method GenerateGlueForDelegate(signature: Function, force: bool)
      requires ManagerValid() && ExportsValid() && ModulesValid()
      modifies this`exportedDelegates, this`delegateLog, this`modules, this`savedFiles
      ensures ManagerValid() && ExportsValid() && ModulesValid() && ModulesExtend(old(modules), modules)
      ensures signature.package == engine.transientPackage || signature.id in old(exportedDelegates) ==>
        && exportedDelegates == old(exportedDelegates) && delegateLog == old(delegateLog)
        && modules == old(modules) && savedFiles == old(savedFiles)
      ensures signature.package != engine.transientPackage && signature.id !in old(exportedDelegates) ==>
        var key := engine.moduleOfPackage(signature.package);
        && exportedDelegates == old(exportedDelegates) + {signature.id}
        && key in modules
        && savedFiles == old(savedFiles) + [SavedFile(modules[key].directory, GeneratedFileName(names.delegateName(signature)),
                                                      DelegateGlue(CurrentRules(), names, signature))]
    {
      if signature.package == engine.transientPackage {
        return;
      }
      if signature.id in exportedDelegates {
        return;
      }
      var glue := ExportDelegate(signature);
      if glue == [] {
        return;
      }
      var m := FindOrRegisterModule(signature.package);
      SaveGlue(m, GeneratedFileName(names.delegateName(signature)), glue);
    }

    /** The wrappers of a module's extension methods, each through the translator of its function. */
    method ExportExtensionWrappers(ms: seq<ExtensionMethod>) returns (out: seq<Emission>)
      requires ManagerValid()
      ensures out == ExtensionWrappers(CurrentRules(), ms)
    {
      out := [];
      var i := 0;
      while i < |ms|
        invariant 0 <= i <= |ms|
        invariant out == ExtensionWrappers(CurrentRules(), ms[..i])
      {
        assert ms[..i + 1][..i] == ms[..i];
        var h := manager.FindForFunction(ms[i].target);
        out := out + [ExtensionWrapper(h, ms[i])];
        i := i + 1;
      }
      assert ms[..|ms|] == ms;
    }

    /**
     * GenerateExtensionMethodsForPackage: registers the package's module; when extension methods
     * were collected for it, saves the static class `<Module>Extensions` holding all of them.
     */
    method GenerateExtensionMethodsForPackage(package: string)
      requires ManagerValid() && ModulesValid()
      modifies this`modules, this`savedFiles
      ensures ModulesValid() && ModulesExtend(old(modules), modules)
      ensures var key := engine.moduleOfPackage(package);
        && key in modules
        && (key !in extensionMethods ==> savedFiles == old(savedFiles))
        && (key in extensionMethods ==>
              savedFiles == old(savedFiles) + [SavedFile(modules[key].directory, GeneratedFileName(ExtensionClassName(key)),
                                                         ExtensionsGlue(CurrentRules(), key, extensionMethods[key]))])
    {
      var m := FindOrRegisterModule(package);
      if m.name in extensionMethods {
        var className := ExtensionClassName(m.name);
        var wrappers := ExportExtensionWrappers(extensionMethods[m.name]);
        var glue := [Skeleton(engine.namespaceOf(m.name)), ExtensionClassDecl(className)] + wrappers + [CloseBrace];
        SaveTypeGlue(package, className, glue);
      }
    }

    /**
     * GenerateGlueForTypes: GenerateGlueForType on each object, unforced, in order; afterwards every
     * object that passes the class filters is exported.
     */
    method GenerateGlueForTypes(objects: seq<ObjId>)
      requires Valid() && forall j | 0 <= j < |objects| :: objects[j] in graph
      modifies this`exportedTypes, this`exportLog, this`modules, this`savedFiles, this`extensionMethods
      ensures Valid()
      ensures ExportsExtend(old(exportedTypes), old(exportLog), exportedTypes, exportLog)
      ensures ModulesExtend(old(modules), modules)
      ensures OutputExtends(old(savedFiles), old(extensionMethods), savedFiles, extensionMethods)
      ensures ObjectsCovered(objects, exportedTypes)
    {
      var i := 0;
      while i < |objects|
        invariant 0 <= i <= |objects|
        invariant Valid()
        invariant ExportsExtend(old(exportedTypes), old(exportLog), exportedTypes, exportLog)
        invariant ModulesExtend(old(modules), modules)
        invariant OutputExtends(old(savedFiles), old(extensionMethods), savedFiles, extensionMethods)
        invariant forall j | 0 <= j < i && ExportsAsClass(engine, graph, objects[j], false) :: objects[j] in exportedTypes
      {
        ghost var types1, log1, files1, ext1 := exportedTypes, exportLog, savedFiles, extensionMethods;
        GenerateGlueForType(objects[i], false);
        ExportsExtendTransitive(old(exportedTypes), old(exportLog), types1, log1, exportedTypes, exportLog);
        OutputExtendsTransitive(old(savedFiles), old(extensionMethods), files1, ext1, savedFiles, extensionMethods);
        i := i + 1;
      }
    }

    /**
     * GenerateGlueForPackage: the package's objects, then its module's extension class, which
     * gathers the extension methods of every class exported into that module so far.
     */
    method GenerateGlueForPackage(po: PackageObjects)
      requires Valid() && forall j | 0 <= j < |po.objects| :: po.objects[j] in graph
      modifies this`exportedTypes, this`exportLog, this`modules, this`savedFiles, this`extensionMethods
      ensures Valid()
      ensures ExportsExtend(old(exportedTypes), old(exportLog), exportedTypes, exportLog)
      ensures ModulesExtend(old(modules), modules)
      ensures OutputExtends(old(savedFiles), old(extensionMethods), savedFiles, extensionMethods)
      ensures ObjectsCovered(po.objects, exportedTypes)
      ensures var key := engine.moduleOfPackage(po.package);
        && key in modules
        && (key in extensionMethods ==>
              |savedFiles| > 0
              && savedFiles[|savedFiles| - 1] == SavedFile(modules[key].directory, GeneratedFileName(ExtensionClassName(key)),
                                                          ExtensionsGlue(CurrentRules(), key, extensionMethods[key])))
    {
      GenerateGlueForTypes(po.objects);
      ghost var files1 := savedFiles;
      GenerateExtensionMethodsForPackage(po.package);
      OutputExtendsTransitive(old(savedFiles), old(extensionMethods), files1, extensionMethods, savedFiles, extensionMethods);
    }

    /**
     * OnModulesChanged: only a loaded module whose package `/Script/<Module>` exists is processed.
     * `found` is what the package lookup returned.
     */
    method OnModulesChanged(moduleName: string, reason: ModuleChangeReason, found: Option<PackageObjects>)
      requires Valid()
      requires found.Some? ==> found.value.package == "/Script/" + moduleName
      requires found.Some? ==> forall j | 0 <= j < |found.value.objects| :: found.value.objects[j] in graph
      modifies this`exportedTypes, this`exportLog, this`modules, this`savedFiles, this`extensionMethods
      ensures Valid()
      ensures ExportsExtend(old(exportedTypes), old(exportLog), exportedTypes, exportLog)
      ensures ModulesExtend(old(modules), modules)
      ensures OutputExtends(old(savedFiles), old(extensionMethods), savedFiles, extensionMethods)
      ensures reason != ModuleLoaded || found.None? ==>
        && exportedTypes == old(exportedTypes) && modules == old(modules)
        && savedFiles == old(savedFiles) && extensionMethods == old(extensionMethods)
      ensures reason == ModuleLoaded && found.Some? ==> ObjectsCovered(found.value.objects, exportedTypes)
    {
      if reason != ModuleLoaded {
        return;
      }
      if found.None? {
        return;
      }
      GenerateGlueForPackage(found.value);
    }

    /**
     * StartGenerator: runs once. Sets the output directory, checks the stored glue version, fills
     * the lists, creates the translator manager, then generates every loaded package and the four
     * common classes that are not picked up otherwise.
     */
    method StartGenerator(outputDirectory: string, packages: seq<PackageObjects>)
      requires Valid()
      requires forall k, j | 0 <= k < |packages| && 0 <= j < |packages[k].objects| :: packages[k].objects[j] in graph
      modifies this
      ensures Valid()
      ensures old(initialized) ==> unchanged(this) && manager == old(manager)
      ensures !old(initialized) ==>
        && Started(outputDirectory, old(outputExists), old(storedVersion), old(lists))
        && engine.timerHandleStruct in exportedTypes && engine.inputActionValueStruct in exportedTypes
        && PackagesCovered(packages, exportedTypes) && CommonClassesCovered(exportedTypes)
    {
      if initialized {
        return;
      }
      InitializeGenerator(outputDirectory);
      GenerateStartupGlue(packages, outputDirectory, old(outputExists), old(storedVersion), old(lists));
    }

    /** The second half of StartGenerator: the generation, which leaves the start-up state as it found it. */
    method GenerateStartupGlue(packages: seq<PackageObjects>, ghost outputDirectory: string, ghost exists0: bool,
                               ghost version0: Option<int>, ghost lists0: Lists)
      requires Valid() && Started(outputDirectory, exists0, version0, lists0)
      requires forall k, j | 0 <= k < |packages| && 0 <= j < |packages[k].objects| :: packages[k].objects[j] in graph
      modifies this`exportedTypes, this`exportLog, this`modules, this`savedFiles, this`extensionMethods
      ensures Valid() && Started(outputDirectory, exists0, version0, lists0)
      ensures old(exportedTypes) <= exportedTypes
      ensures PackagesCovered(packages, exportedTypes) && CommonClassesCovered(exportedTypes)
    {
      GeneratePackagesAndCommonTypes(packages);
    }

    /** The name of a struct the translator manager handles itself. */
    function StructName(id: ObjId): string {
      if id in graph then graph[id].name else ""
    }

    /**
     * The state StartGenerator sets up before the first export: initialised, the output directory
     * set, the stored version checked, the start-up lists filled and the default translators registered.
     */
    ghost predicate Started(outputDirectory: string, exists0: bool, version0: Option<int>, lists0: Lists)
      reads this`initialized, this`generatedScriptsDirectory, this`outputExists, this`storedVersion,
            this`lists, this`manager, manager
    {
      VersionChecked(outputDirectory, exists0, version0) && DefaultsRegistered(StartupLists(lists0))
    }

    /** Initialised, the output directory set and the stored version checked against the generator's. */
    ghost predicate VersionChecked(outputDirectory: string, exists0: bool, version0: Option<int>)
      reads this`initialized, this`generatedScriptsDirectory, this`outputExists, this`storedVersion
    {
      && initialized && generatedScriptsDirectory == outputDirectory
      && (outputExists, storedVersion) == VersionCheck(exists0, version0, engine.glueGeneratorVersion)
    }

    /** The default translators registered over `lists1`, whose deny list then also names the two structs they handle. */
    ghost predicate DefaultsRegistered(lists1: Lists)
      reads this`lists, this`manager, manager
    {
      var timerName, inputName := StructName(engine.timerHandleStruct), StructName(engine.inputActionValueStruct);
      && lists == lists1.(deny := DenyCustomStructs(lists1.deny, timerName, inputName))
      && manager.translatorMap == DefaultTableFor(1, timerName, inputName)
    }

    /** The first half of StartGenerator: everything before the first export. */
    method InitializeGenerator(outputDirectory: string)
      requires ExportsValid()
      modifies this`initialized, this`generatedScriptsDirectory, this`outputExists, this`storedVersion,
               this`lists, this`manager, this`exportedTypes
      ensures ManagerValid() && ExportsValid() && fresh(manager)
      ensures Started(outputDirectory, old(outputExists), old(storedVersion), old(lists))
      ensures exportedTypes == old(exportedTypes) + {engine.timerHandleStruct} + {engine.inputActionValueStruct}
    {
      SetUpOutput(outputDirectory);
      PrepareTranslation();
    }

    /** Marks the generator initialised, sets the output directory and checks the stored version. */
    method SetUpOutput(outputDirectory: string)
      modifies this`initialized, this`generatedScriptsDirectory, this`outputExists, this`storedVersion
      ensures VersionChecked(outputDirectory, old(outputExists), old(storedVersion))
    {
      initialized := true;
      generatedScriptsDirectory := outputDirectory;
      CheckGlueGeneratorVersion();
    }

    /** The lists, then the translator manager over them. */
    method PrepareTranslation()
      requires ExportsValid()
      modifies this`lists, this`manager, this`exportedTypes
      ensures ManagerValid() && ExportsValid() && fresh(manager)
      ensures DefaultsRegistered(StartupLists(old(lists)))
      ensures exportedTypes == old(exportedTypes) + {engine.timerHandleStruct} + {engine.inputActionValueStruct}
    {
      FillLists();
      CreateTranslatorManager();
    }

    /** The deny, allow and internal lists StartGenerator fills before it creates the translator manager. */
    method FillLists()
      modifies this`lists
      ensures lists == StartupLists(old(lists))
    {
      lists := StartupLists(lists);
    }

    /**
     * `PropertyTranslatorManager.Reset(new ...)`: a fresh manager with the default registrations,
     * which also deny-list and mark exported the two structs it translates itself.
     */
    method CreateTranslatorManager()
      requires ExportsValid()
      modifies this`lists, this`manager, this`exportedTypes
      ensures ManagerValid() && ExportsValid() && fresh(manager)
      ensures DefaultsRegistered(old(lists))
      ensures exportedTypes == old(exportedTypes) + {engine.timerHandleStruct} + {engine.inputActionValueStruct}
    {
      var m := new TranslatorManager(caps);
      var deny, types := m.RegisterDefaults(engine.timerHandleStruct, StructName(engine.timerHandleStruct),
                                            engine.inputActionValueStruct, StructName(engine.inputActionValueStruct),
                                            lists.deny, exportedTypes);
      manager := m;
      lists := lists.(deny := deny);
      exportedTypes := types;
    }

    /** Every loaded package, then the common classes, forced. */
    method GeneratePackagesAndCommonTypes(packages: seq<PackageObjects>)
      requires Valid()
      requires forall k, j | 0 <= k < |packages| && 0 <= j < |packages[k].objects| :: packages[k].objects[j] in graph
      modifies this`exportedTypes, this`exportLog, this`modules, this`savedFiles, this`extensionMethods
      ensures Valid()
      ensures ExportsExtend(old(exportedTypes), old(exportLog), exportedTypes, exportLog)
      ensures ModulesExtend(old(modules), modules)
      ensures OutputExtends(old(savedFiles), old(extensionMethods), savedFiles, extensionMethods)
      ensures PackagesCovered(packages, exportedTypes) && CommonClassesCovered(exportedTypes)
    {
      var k := 0;
      while k < |packages|
        invariant 0 <= k <= |packages|
        invariant Valid()
        invariant ExportsExtend(old(exportedTypes), old(exportLog), exportedTypes, exportLog)
        invariant ModulesExtend(old(modules), modules)
        invariant OutputExtends(old(savedFiles), old(extensionMethods), savedFiles, extensionMethods)
        invariant PackagesCovered(packages[..k], exportedTypes)
      {
        ghost var types1, log1, files1, ext1 := exportedTypes, exportLog, savedFiles, extensionMethods;
        GenerateGlueForPackage(packages[k]);
        ExportsExtendTransitive(old(exportedTypes), old(exportLog), types1, log1, exportedTypes, exportLog);
        OutputExtendsTransitive(old(savedFiles), old(extensionMethods), files1, ext1, savedFiles, extensionMethods);
        CoverageGrows(packages[..k], types1, exportedTypes);
        PackagesCoveredStep(packages, k, exportedTypes);
        k := k + 1;
      }
      assert packages[..k] == packages;
      ghost var types2 := exportedTypes;
      GenerateCommonTypes();
      CoverageGrows(packages, types2, exportedTypes);
    }

    /** Every object of `objects` that GenerateGlueForType exports without force is in `types`. */
    predicate ObjectsCovered(objects: seq<ObjId>, types: set<ObjId>) {
      forall j | 0 <= j < |objects| && ExportsAsClass(engine, graph, objects[j], false) :: objects[j] in types
    }

    /** ObjectsCovered for the objects of every package. */
    predicate PackagesCovered(packages: seq<PackageObjects>, types: set<ObjId>) {
      forall k | 0 <= k < |packages| :: ObjectsCovered(packages[k].objects, types)
    }

    /** Every common class that GenerateGlueForType exports with force is in `types`. */
    predicate CommonClassesCovered(types: set<ObjId>) {
      forall c | c in CommonClasses(engine) && ExportsAsClass(engine, graph, c, true) :: c in types
    }

    lemma CoverageGrows(packages: seq<PackageObjects>, types0: set<ObjId>, types1: set<ObjId>)
      requires types0 <= types1 && PackagesCovered(packages, types0)
      ensures PackagesCovered(packages, types1)
    {
      forall k | 0 <= k < |packages|
        ensures ObjectsCovered(packages[k].objects, types1)
      {
        assert ObjectsCovered(packages[k].objects, types0);
      }
    }

    lemma PackagesCoveredStep(packages: seq<PackageObjects>, k: nat, types: set<ObjId>)
      requires k < |packages| && PackagesCovered(packages[..k], types) && ObjectsCovered(packages[k].objects, types)
      ensures PackagesCovered(packages[..k + 1], types)
    {
      forall k' | 0 <= k' < k
        ensures ObjectsCovered(packages[k'].objects, types)
      {
        assert packages[..k][k'] == packages[k'];
      }
    }

    /** The four common classes StartGenerator generates with force, in its order. */
    method GenerateCommonTypes()
      requires Valid()
      modifies this`exportedTypes, this`exportLog, this`modules, this`savedFiles, this`extensionMethods
      ensures Valid()
      ensures ExportsExtend(old(exportedTypes), old(exportLog), exportedTypes, exportLog)
      ensures ModulesExtend(old(modules), modules)
      ensures OutputExtends(old(savedFiles), old(extensionMethods), savedFiles, extensionMethods)
      ensures CommonClassesCovered(exportedTypes)
    {
      ghost var types0, log0, files0, ext0 := exportedTypes, exportLog, savedFiles, extensionMethods;
      GenerateForcedType(engine.uInterface, types0, log0, files0, ext0);
      GenerateForcedType(engine.uObject, types0, log0, files0, ext0);
      GenerateForcedType(engine.springArmComponent, types0, log0, files0, ext0);
      GenerateForcedType(engine.floatingPawnMovement, types0, log0, files0, ext0);
    }

    /** One forced GenerateGlueForType, with how the state has changed since `types0`, `log0`, `files0` and `ext0`. */
    method GenerateForcedType(obj: ObjId, ghost types0: set<ObjId>, ghost log0: seq<ObjId>,
                              ghost files0: seq<SavedFile>, ghost ext0: map<string, seq<ExtensionMethod>>)
      requires Valid() && obj in graph
      requires ExportsExtend(types0, log0, exportedTypes, exportLog) && OutputExtends(files0, ext0, savedFiles, extensionMethods)
      modifies this`exportedTypes, this`exportLog, this`modules, this`savedFiles, this`extensionMethods
      ensures Valid() && old(exportedTypes) <= exportedTypes
      ensures ExportsExtend(types0, log0, exportedTypes, exportLog)
      ensures ModulesExtend(old(modules), modules)
      ensures OutputExtends(files0, ext0, savedFiles, extensionMethods)
      ensures ExportsAsClass(engine, graph, obj, true) ==> obj in exportedTypes
    {
      ghost var types1, log1, files1, ext1 := exportedTypes, exportLog, savedFiles, extensionMethods;
      GenerateGlueForType(obj, true);
      ExportsExtendTransitive(types0, log0, types1, log1, exportedTypes, exportLog);
      OutputExtendsTransitive(files0, ext0, files1, ext1, savedFiles, extensionMethods);
    }
  }
}
