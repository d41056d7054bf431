/**
 * What the generator's loops compute, as functions over sequences: the exported property and
 * function sets, the module dependencies of a class, and the abstract records the code
 * builder receives. The loops of `Generator.CSGenerator` are proved against these.
 */
module ExportSpecs {
  import opened Wrappers
  import opened Reflection
  import opened Translators
  import opened ExportRules
  import opened OrderedSets
  import Inclusion
  import Strings

  /** How a function wrapper is emitted: normally, or as an internal function the class may override. */
  datatype FunctionType = Normal | InternalWhitelisted

  /**
   * One piece of generated C#, at the granularity of the builder calls the generator makes
   * itself or hands to a translator. The exact text is not modelled.
   */
  datatype Emission =
    | FileHeader                                   // "This file is automatically generated"
    | UsingDirective(ns: string)                   // DeclareDirective
    | Skeleton(ns: string)                         // GenerateScriptSkeleton
    | ClassDecl(name: string, baseName: string, interfaces: seq<string>, isAbstract: bool)
    | InterfaceDecl(name: string)
    | InterfaceClassPtr(nativeName: string)
    | InterfaceMarshaller(name: string)
    | StructDecl(name: string, blittable: bool)
    | EnumDecl(name: string, backingType: string)
    | EnumMember(value: EnumValue)
    | DelegateDecl(name: string, multicast: bool)
    | DelegateFunction(h: Handler, f: Function)
    | DelegateInitializer
    | NativeClassPtrField
    | NativeDataSizeField
    | StaticCtorBegin(typeName: string, isClass: bool, keepsClassPtr: bool, nativeName: string)
    | StructSizeInit
    | PropertyStaticInit(h: Handler, p: Property)
    | FunctionStaticInit(name: string, hasParams: bool)
    | OverridableStaticInit(name: string)
    | DelegateSignatureInit(name: string, hasParams: bool)
    | ParameterStaticInit(h: Handler, functionName: string, p: Property)
    | BeginEditorOnly
    | EndEditorOnly
    | WrapperProperty(h: Handler, p: Property, allowListed: bool)
    | MirrorProperty(h: Handler, p: Property, suppressOffsets: bool)
    | MarshalFromNative(h: Handler, p: Property, managedName: string)
    | MarshalToNative(h: Handler, p: Property, managedName: string)
    | NativeConstructorBegin(name: string)
    | ToNativeBegin
    | StructMarshaller(name: string)
    | FunctionWrapper(h: Handler, f: Function, functionType: FunctionType)
    | OverridableWrapper(h: Handler, f: Function)
    | InterfaceFunction(h: Handler, f: Function)
    | ExtensionClassDecl(name: string)
    | ExtensionWrapper(h: Handler, m: ExtensionMethod)
    | CloseBrace

  /** An FCSModule: a module name and the directory its bindings are saved in. */
  datatype ModuleInfo = ModuleInfo(name: string, directory: string)

  /** A file handed to SaveFileIfChanged. */
  datatype SavedFile = SavedFile(directory: string, fileName: string, content: seq<Emission>)

  /** `<TypeName>.generated.cs`. */
  function GeneratedFileName(typeName: string): string {
    typeName + ".generated.cs"
  }

  /** `body`, inside an editor-only preprocessor block when `editorOnly` holds. */
  function EditorOnly(editorOnly: bool, body: seq<Emission>): seq<Emission> {
    if editorOnly then [BeginEditorOnly] + body + [EndEditorOnly] else body
  }

  /** The own (ExcludeSuper) properties of a class or struct. */
  function OwnProperties(o: Obj): seq<Property> {
    match o.kind
    case ClassKind(c) => c.properties
    case StructKind(s) => s.properties
    case _ => []
  }

  /** `GetExportedProperties(acc, owner)` over the properties `props` of `owner`. */
  function ExportedPropertiesFold(r: Rules, owner: Obj, props: seq<Property>, acc: seq<Property>): seq<Property>
    requires owner.kind.ClassKind? || owner.kind.StructKind?
    decreases |props|
  {
    if props == [] then acc
    else
      var prev := ExportedPropertiesFold(r, owner, props[..|props| - 1], acc);
      var p := props[|props| - 1];
      if CanExportProperty(r, owner, p) then AddUnique(prev, p) else prev
  }

  /** The exported set keeps what it had and gains exactly the exportable properties, without duplicates. */
  lemma {:induction false} ExportedPropertiesFoldSpec(r: Rules, owner: Obj, props: seq<Property>, acc: seq<Property>)
    requires owner.kind.ClassKind? || owner.kind.StructKind?
    ensures var out := ExportedPropertiesFold(r, owner, props, acc);
      && (forall p :: p in out <==> p in acc || (p in props && CanExportProperty(r, owner, p)))
      && |acc| <= |out| && out[..|acc|] == acc
      && (NoDup(acc) ==> NoDup(out))
    decreases |props|
  {
    if props != [] {
      var init := props[..|props| - 1];
      ExportedPropertiesFoldSpec(r, owner, init, acc);
      assert props == init + [props[|props| - 1]];
      var prev := ExportedPropertiesFold(r, owner, init, acc);
      if NoDup(acc) {
        AddUniqueKeepsNoDup(prev, props[|props| - 1]);
      }
    }
  }

  /** The own-function loop of GetExportedFunctions: exportable BlueprintEvents are overridable, other exportable functions normal. */
  function OwnFunctionsSplit(r: Rules, cls: ObjId, fs: seq<Function>): (split: (seq<Function>, seq<Function>))
    requires cls in r.graph
    decreases |fs|
  {
    if fs == [] then ([], [])
    else
      var (normal, overridable) := OwnFunctionsSplit(r, cls, fs[..|fs| - 1]);
      var f := fs[|fs| - 1];
      if !FunctionExportable(r, cls, f) then (normal, overridable)
      else if f.blueprintEvent then (normal, AddUnique(overridable, f))
      else (AddUnique(normal, f), overridable)
  }

  lemma {:induction false} OwnFunctionsSplitSpec(r: Rules, cls: ObjId, fs: seq<Function>)
    requires cls in r.graph
    ensures var (normal, overridable) := OwnFunctionsSplit(r, cls, fs);
      && (forall f :: f in normal <==> f in fs && FunctionExportable(r, cls, f) && !f.blueprintEvent)
      && (forall f :: f in overridable <==> f in fs && FunctionExportable(r, cls, f) && f.blueprintEvent)
      && NoDup(normal) && NoDup(overridable)
    decreases |fs|
  {
    if fs != [] {
      var init := fs[..|fs| - 1];
      OwnFunctionsSplitSpec(r, cls, init);
      assert fs == init + [fs[|fs| - 1]];
      var (normal, overridable) := OwnFunctionsSplit(r, cls, init);
      AddUniqueKeepsNoDup(normal, fs[|fs| - 1]);
      AddUniqueKeepsNoDup(overridable, fs[|fs| - 1]);
    }
  }

  /** Some function of `fs` has the name `name`, compared as FNames are, ignoring case. */
  predicate HasNamed(fs: seq<Function>, name: string) {
    exists i :: 0 <= i < |fs| && Strings.EqualsIgnoreCase(fs[i].name, name)
  }

  /** The functions (including inherited ones) of the given interfaces, interface by interface. */
  function InterfaceFunctionList(g: Graph, interfaces: seq<ObjId>): seq<Function>
    decreases |interfaces|
  {
    if interfaces == [] then []
    else
      var last := interfaces[|interfaces| - 1];
      InterfaceFunctionList(g, interfaces[..|interfaces| - 1])
      + (if IsClass(g, last) then g[last].kind.cls.allFunctions else [])
  }

  /** The interface loop of GetExportedFunctions: exportable BlueprintEvents whose name is not yet overridable. */
  function InterfaceEventsFold(r: Rules, cls: ObjId, fs: seq<Function>, overridable: seq<Function>): seq<Function>
    requires cls in r.graph
    decreases |fs|
  {
    if fs == [] then overridable
    else
      var prev := InterfaceEventsFold(r, cls, fs[..|fs| - 1], overridable);
      var f := fs[|fs| - 1];
      if FunctionExportable(r, cls, f) && f.blueprintEvent && !HasNamed(prev, f.name) then AddUnique(prev, f) else prev
  }

  /** One step of the interface loop: the function is added exactly when it is an exportable, not yet named event. */
  lemma InterfaceEventsStep(r: Rules, cls: ObjId, fs: seq<Function>, overridable: seq<Function>)
    requires cls in r.graph && fs != []
    ensures var prev := InterfaceEventsFold(r, cls, fs[..|fs| - 1], overridable);
      var f := fs[|fs| - 1];
      InterfaceEventsFold(r, cls, fs, overridable) ==
        if FunctionExportable(r, cls, f) && f.blueprintEvent && !HasNamed(prev, f.name) then prev + [f] else prev
  {
    var prev := InterfaceEventsFold(r, cls, fs[..|fs| - 1], overridable);
    var f := fs[|fs| - 1];
    if !HasNamed(prev, f.name) {
      assert f !in prev;
    }
  }

  /** Folding over `a + b` is folding over `b` from where the fold over `a` ended. */
  lemma {:induction false} InterfaceEventsCompose(r: Rules, cls: ObjId, a: seq<Function>, b: seq<Function>, overridable: seq<Function>)
    requires cls in r.graph
    ensures InterfaceEventsFold(r, cls, a + b, overridable) == InterfaceEventsFold(r, cls, b, InterfaceEventsFold(r, cls, a, overridable))
    decreases |b|
  {
    if b == [] {
      assert a + b == a;
    } else {
      var init := b[..|b| - 1];
      assert (a + b)[..|a + b| - 1] == a + init;
      assert (a + b)[|a + b| - 1] == b[|b| - 1];
      InterfaceEventsCompose(r, cls, a, init, overridable);
    }
  }

  /** The interface loop only appends to the overridable set. */
  lemma {:induction false} InterfaceEventsPrefix(r: Rules, cls: ObjId, fs: seq<Function>, overridable: seq<Function>)
    requires cls in r.graph
    ensures var out := InterfaceEventsFold(r, cls, fs, overridable);
      |overridable| <= |out| && out[..|overridable|] == overridable
    decreases |fs|
  {
    if fs != [] {
      InterfaceEventsPrefix(r, cls, fs[..|fs| - 1], overridable);
      InterfaceEventsStep(r, cls, fs, overridable);
    }
  }

  /** Each appended function is an exportable BlueprintEvent of the interfaces, named unlike every earlier entry. */
  lemma {:induction false} InterfaceEventsAdded(r: Rules, cls: ObjId, fs: seq<Function>, overridable: seq<Function>)
    requires cls in r.graph
    ensures var out := InterfaceEventsFold(r, cls, fs, overridable);
      forall j | |overridable| <= j < |out| ::
        && out[j] in fs && FunctionExportable(r, cls, out[j]) && out[j].blueprintEvent
        && forall i | 0 <= i < j :: !Strings.EqualsIgnoreCase(out[i].name, out[j].name)
    decreases |fs|
  {
    if fs != [] {
      var init := fs[..|fs| - 1];
      var f := fs[|fs| - 1];
      InterfaceEventsAdded(r, cls, init, overridable);
      InterfaceEventsStep(r, cls, fs, overridable);
      var prev := InterfaceEventsFold(r, cls, init, overridable);
      var out := InterfaceEventsFold(r, cls, fs, overridable);
      assert fs == init + [f];
      forall j | |overridable| <= j < |out|
        ensures out[j] in fs && FunctionExportable(r, cls, out[j]) && out[j].blueprintEvent
        ensures forall i | 0 <= i < j :: !Strings.EqualsIgnoreCase(out[i].name, out[j].name)
      {
        if j < |prev| {
          assert out[..|prev|] == prev;
          assert out[j] == prev[j] && prev[j] in init;
          forall i | 0 <= i < j ensures !Strings.EqualsIgnoreCase(out[i].name, out[j].name) {
            assert out[i] == prev[i];
          }
        } else {
          assert out == prev + [f] && j == |prev|;
          forall i | 0 <= i < j ensures !Strings.EqualsIgnoreCase(out[i].name, out[j].name) {
            assert out[i] == prev[i];
          }
        }
      }
    }
  }

  /** Every exportable BlueprintEvent of the interfaces is represented by name in the overridable set. */
  lemma {:induction false} InterfaceEventsCover(r: Rules, cls: ObjId, fs: seq<Function>, overridable: seq<Function>)
    requires cls in r.graph
    ensures var out := InterfaceEventsFold(r, cls, fs, overridable);
      forall f | f in fs && FunctionExportable(r, cls, f) && f.blueprintEvent :: HasNamed(out, f.name)
    decreases |fs|
  {
    if fs != [] {
      var init := fs[..|fs| - 1];
      var f := fs[|fs| - 1];
      InterfaceEventsCover(r, cls, init, overridable);
      InterfaceEventsStep(r, cls, fs, overridable);
      var prev := InterfaceEventsFold(r, cls, init, overridable);
      var out := InterfaceEventsFold(r, cls, fs, overridable);
      assert prev <= out;
      assert fs == init + [f];
      forall g | g in fs && FunctionExportable(r, cls, g) && g.blueprintEvent
        ensures HasNamed(out, g.name)
      {
        if g in init {
          var i :| 0 <= i < |prev| && Strings.EqualsIgnoreCase(prev[i].name, g.name);
          assert out[i] == prev[i];
        } else if out != prev {
          assert out[|prev|] == g;
        }
      }
    }
  }
  /** `GetExportedFunctions(normal, overridable, cls)`, starting from two empty sets. */
  function ExportedFunctions(r: Rules, cls: ObjId): (split: (seq<Function>, seq<Function>))
    requires IsClass(r.graph, cls)
  {
    var c := r.graph[cls].kind.cls;
    var (normal, overridable) := OwnFunctionsSplit(r, cls, c.functions);
    (normal, InterfaceEventsFold(r, cls, InterfaceFunctionList(r.graph, c.interfaces), overridable))
  }

  /**
   * The partition of GetExportedFunctions: the normal set is exactly the class's own exportable
   * non-events; the overridable set starts with exactly its own exportable events, then holds
   * interface events, each exportable and with a name no earlier entry has, and covers every
   * exportable interface event by name.
   */
  lemma ExportedFunctionsSpec(r: Rules, cls: ObjId)
    requires IsClass(r.graph, cls)
    ensures var c := r.graph[cls].kind.cls;
      var (normal, overridable) := ExportedFunctions(r, cls);
      var own := OwnFunctionsSplit(r, cls, c.functions).1;
      var fromInterfaces := InterfaceFunctionList(r.graph, c.interfaces);
      && (forall f :: f in normal <==> f in c.functions && FunctionExportable(r, cls, f) && !f.blueprintEvent)
      && |own| <= |overridable| && overridable[..|own|] == own
      && (forall f :: f in own <==> f in c.functions && FunctionExportable(r, cls, f) && f.blueprintEvent)
      && (forall j | |own| <= j < |overridable| ::
            && overridable[j] in fromInterfaces && FunctionExportable(r, cls, overridable[j]) && overridable[j].blueprintEvent
            && forall i | 0 <= i < j :: !Strings.EqualsIgnoreCase(overridable[i].name, overridable[j].name))
      && (forall f | f in fromInterfaces && FunctionExportable(r, cls, f) && f.blueprintEvent :: HasNamed(overridable, f.name))
  {
    var c := r.graph[cls].kind.cls;
    OwnFunctionsSplitSpec(r, cls, c.functions);
    var own := OwnFunctionsSplit(r, cls, c.functions).1;
    var fromInterfaces := InterfaceFunctionList(r.graph, c.interfaces);
    InterfaceEventsPrefix(r, cls, fromInterfaces, own);
    InterfaceEventsAdded(r, cls, fromInterfaces, own);
    InterfaceEventsCover(r, cls, fromInterfaces, own);
  }

  /** The module a package's objects belong to (UUnrealSharpStatics::GetModuleName). */
  function ModuleOf(r: Rules, package: string): string {
    r.engine.moduleOfPackage(package)
  }

  /** The modules of the given delegate signatures, in order. */
  function SignatureModules(e: Engine, signatures: seq<Function>): seq<string>
    decreases |signatures|
  {
    if signatures == [] then []
    else SignatureModules(e, signatures[..|signatures| - 1]) + [e.moduleOfPackage(signatures[|signatures| - 1].package)]
  }

  /** One step of the signature loop: the next signature's module is added once. */
  lemma SignatureModulesStep(e: Engine, signatures: seq<Function>, i: nat, deps: seq<string>)
    requires i < |signatures|
    ensures AddAll(deps, SignatureModules(e, signatures[..i + 1]))
         == AddUnique(AddAll(deps, SignatureModules(e, signatures[..i])), e.moduleOfPackage(signatures[i].package))
  {
    assert signatures[..i + 1][..i] == signatures[..i];
    AddAllSnoc(deps, SignatureModules(e, signatures[..i]), e.moduleOfPackage(signatures[i].package));
  }

  lemma {:induction false} SignatureModulesSpec(e: Engine, signatures: seq<Function>)
    ensures forall m :: m in SignatureModules(e, signatures) <==> exists s :: s in signatures && m == e.moduleOfPackage(s.package)
    decreases |signatures|
  {
    if signatures != [] {
      var init := signatures[..|signatures| - 1];
      SignatureModulesSpec(e, init);
      assert signatures == init + [signatures[|signatures| - 1]];
    }
  }

  /** The modules of the delegate signatures `p`'s translator reports (GatherModuleDependencies of a property). */
  function DelegateModules(r: Rules, p: Property): seq<string> {
    SignatureModules(r.engine, r.registry.caps.delegateReferences(Lookup(r, p), p))
  }

  /** The modules of the implemented interfaces, added in order. */
  function InterfaceModules(r: Rules, interfaces: seq<ObjId>, deps: seq<string>): seq<string>
    requires forall i :: 0 <= i < |interfaces| ==> interfaces[i] in r.graph
    decreases |interfaces|
  {
    if interfaces == [] then deps
    else
      AddUnique(InterfaceModules(r, interfaces[..|interfaces| - 1], deps),
                ModuleOf(r, r.graph[interfaces[|interfaces| - 1]].package))
  }

  lemma {:induction false} InterfaceModulesSpec(r: Rules, interfaces: seq<ObjId>, deps: seq<string>)
    requires forall i :: 0 <= i < |interfaces| ==> interfaces[i] in r.graph
    ensures forall m :: m in InterfaceModules(r, interfaces, deps) <==>
      m in deps || exists i :: 0 <= i < |interfaces| && m == ModuleOf(r, r.graph[interfaces[i]].package)
    decreases |interfaces|
  {
    if interfaces != [] {
      InterfaceModulesSpec(r, interfaces[..|interfaces| - 1], deps);
    }
  }

  /** The property loop of GatherModuleDependencies(Class). */
  function PropertyDependencies(r: Rules, owner: Obj, props: seq<Property>, deps: seq<string>): seq<string>
    requires owner.kind.ClassKind? || owner.kind.StructKind?
    decreases |props|
  {
    if props == [] then deps
    else
      var prev := PropertyDependencies(r, owner, props[..|props| - 1], deps);
      var p := props[|props| - 1];
      if CanExportProperty(r, owner, p) then AddAll(prev, DelegateModules(r, p)) else prev
  }

  lemma {:induction false} PropertyDependenciesSpec(r: Rules, owner: Obj, props: seq<Property>, deps: seq<string>)
    requires owner.kind.ClassKind? || owner.kind.StructKind?
    ensures forall m :: m in PropertyDependencies(r, owner, props, deps) <==>
      m in deps || exists p :: p in props && CanExportProperty(r, owner, p) && m in DelegateModules(r, p)
    decreases |props|
  {
    if props != [] {
      var init := props[..|props| - 1];
      var p := props[|props| - 1];
      PropertyDependenciesSpec(r, owner, init, deps);
      assert props == init + [p];
      AddAllMembers(PropertyDependencies(r, owner, init, deps), DelegateModules(r, p));
    }
  }

  /** The parameter loop for one function: every child property, the return property included. */
  function ParameterDependencies(r: Rules, params: seq<Property>, deps: seq<string>): seq<string>
    decreases |params|
  {
    if params == [] then deps
    else AddAll(ParameterDependencies(r, params[..|params| - 1], deps), DelegateModules(r, params[|params| - 1]))
  }

  lemma {:induction false} ParameterDependenciesSpec(r: Rules, params: seq<Property>, deps: seq<string>)
    ensures forall m :: m in ParameterDependencies(r, params, deps) <==>
      m in deps || exists p :: p in params && m in DelegateModules(r, p)
    decreases |params|
  {
    if params != [] {
      var init := params[..|params| - 1];
      var p := params[|params| - 1];
      ParameterDependenciesSpec(r, init, deps);
      assert params == init + [p];
      AddAllMembers(ParameterDependencies(r, init, deps), DelegateModules(r, p));
    }
  }

  /** The dependencies one exportable function adds: its return property's, then every parameter's. */
  function FunctionDependencies(r: Rules, f: Function, deps: seq<string>): seq<string> {
    var withReturn := match ReturnProperty(f.params)
      case Some(ret) => AddAll(deps, DelegateModules(r, ret))
      case None => deps;
    ParameterDependencies(r, f.params, withReturn)
  }

  lemma FunctionDependenciesSpec(r: Rules, f: Function, deps: seq<string>)
    ensures forall m :: m in FunctionDependencies(r, f, deps) <==>
      m in deps || exists p :: p in f.params && m in DelegateModules(r, p)
  {
    var withReturn := match ReturnProperty(f.params)
      case Some(ret) => AddAll(deps, DelegateModules(r, ret))
      case None => deps;
    ParameterDependenciesSpec(r, f.params, withReturn);
    match ReturnProperty(f.params)
    case Some(ret) =>
      AddAllMembers(deps, DelegateModules(r, ret));
      assert ret in f.params;
    case None =>
  }

  /** The function loop of GatherModuleDependencies(Class). */
  function FunctionsDependencies(r: Rules, cls: ObjId, fs: seq<Function>, deps: seq<string>): seq<string>
    requires cls in r.graph
    decreases |fs|
  {
    if fs == [] then deps
    else
      var prev := FunctionsDependencies(r, cls, fs[..|fs| - 1], deps);
      var f := fs[|fs| - 1];
      if FunctionExportable(r, cls, f) then FunctionDependencies(r, f, prev) else prev
  }

  lemma {:induction false} FunctionsDependenciesSpec(r: Rules, cls: ObjId, fs: seq<Function>, deps: seq<string>)
    requires cls in r.graph
    ensures forall m :: m in FunctionsDependencies(r, cls, fs, deps) <==>
      m in deps || exists f, p :: f in fs && FunctionExportable(r, cls, f) && p in f.params && m in DelegateModules(r, p)
    decreases |fs|
  {
    if fs != [] {
      var init := fs[..|fs| - 1];
      var f := fs[|fs| - 1];
      FunctionsDependenciesSpec(r, cls, init, deps);
      assert fs == init + [f];
      FunctionDependenciesSpec(r, f, FunctionsDependencies(r, cls, init, deps));
    }
  }

  /** `GatherModuleDependencies(Class)` from an empty set: the module names, in insertion order. */
  function ClassDependencies(r: Rules, cls: ObjId): seq<string>
    requires IsClass(r.graph, cls) && WellFormed(r.graph)
  {
    var c := r.graph[cls].kind.cls;
    var withInterfaces := InterfaceModules(r, c.interfaces, []);
    var withSuper := match c.superClass
      case Some(s) => AddUnique(withInterfaces, ModuleOf(r, r.graph[s].package))
      case None => withInterfaces;
    var withProperties := PropertyDependencies(r, r.graph[cls], c.properties, withSuper);
    FunctionsDependencies(r, cls, c.functions, withProperties)
  }

  /**
   * The dependencies of a class are exactly: the modules of its interfaces, of its superclass,
   * and of the delegate signatures referenced by its exportable own properties and by the
   * return values and parameters of its exportable own functions. Nothing else.
   */
  lemma ClassDependenciesSpec(r: Rules, cls: ObjId)
    requires IsClass(r.graph, cls) && WellFormed(r.graph)
    ensures var c := r.graph[cls].kind.cls;
      forall m :: m in ClassDependencies(r, cls) <==>
        || (exists i :: 0 <= i < |c.interfaces| && m == ModuleOf(r, r.graph[c.interfaces[i]].package))
        || (c.superClass.Some? && m == ModuleOf(r, r.graph[c.superClass.value].package))
        || (exists p :: p in c.properties && CanExportProperty(r, r.graph[cls], p) && m in DelegateModules(r, p))
        || (exists f, p :: f in c.functions && FunctionExportable(r, cls, f) && p in f.params && m in DelegateModules(r, p))
  {
    var c := r.graph[cls].kind.cls;
    var withInterfaces := InterfaceModules(r, c.interfaces, []);
    InterfaceModulesSpec(r, c.interfaces, []);
    var withSuper := match c.superClass
      case Some(s) => AddUnique(withInterfaces, ModuleOf(r, r.graph[s].package))
      case None => withInterfaces;
    PropertyDependenciesSpec(r, r.graph[cls], c.properties, withSuper);
    FunctionsDependenciesSpec(r, cls, c.functions, PropertyDependencies(r, r.graph[cls], c.properties, withSuper));
  }

  /** The C# name ExportPropertiesStaticConstruction de-duplicates on. */
  function ManagedName(names: NameMapper, p: Property, reserved: set<string>): string {
    names.mapPropertyName(p, reserved)
  }

  /** The key of a managed name in ExportPropertiesStaticConstruction's TSet<FString>, which ignores case. */
  function ManagedKey(names: NameMapper, p: Property, reserved: set<string>): string {
    Strings.FoldCase(ManagedName(names, p, reserved))
  }

  /** The keys of the managed names of the properties. */
  function ManagedKeys(names: NameMapper, ps: seq<Property>, reserved: set<string>): set<string>
    decreases |ps|
  {
    if ps == [] then {} else ManagedKeys(names, ps[..|ps| - 1], reserved) + {ManagedKey(names, ps[|ps| - 1], reserved)}
  }

  lemma ManagedKeysSnoc(names: NameMapper, ps: seq<Property>, p: Property, reserved: set<string>)
    ensures ManagedKeys(names, ps + [p], reserved) == ManagedKeys(names, ps, reserved) + {ManagedKey(names, p, reserved)}
  {
    assert (ps + [p])[..|ps|] == ps;
  }

  lemma {:induction false} ManagedKeysSpec(names: NameMapper, ps: seq<Property>, reserved: set<string>)
    ensures forall n :: n in ManagedKeys(names, ps, reserved) <==> exists p :: p in ps && ManagedKey(names, p, reserved) == n
    decreases |ps|
  {
    if ps != [] {
      ManagedKeysSpec(names, ps[..|ps| - 1], reserved);
      assert ps == ps[..|ps| - 1] + [ps[|ps| - 1]];
    }
  }

  /** The properties ExportPropertiesStaticConstruction initialises: each the first with its managed name, ignoring case. */
  function StaticInitProperties(names: NameMapper, props: seq<Property>, reserved: set<string>): seq<Property>
    decreases |props|
  {
    if props == [] then []
    else
      var prev := StaticInitProperties(names, props[..|props| - 1], reserved);
      var p := props[|props| - 1];
      if ManagedKey(names, p, reserved) in ManagedKeys(names, prev, reserved) then prev else prev + [p]
  }

  /**
   * Static construction emits each managed name at most once and every managed name at least
   * once, ignoring case: the initialised properties come from the input, no two of their managed
   * names are equal ignoring case, and they cover the managed names of all input properties.
   */
  lemma {:induction false} StaticInitPropertiesSpec(names: NameMapper, props: seq<Property>, reserved: set<string>)
    ensures var kept := StaticInitProperties(names, props, reserved);
      && (forall p | p in kept :: p in props)
      && (forall i, j | 0 <= i < j < |kept| :: !Strings.EqualsIgnoreCase(ManagedName(names, kept[i], reserved), ManagedName(names, kept[j], reserved)))
      && ManagedKeys(names, kept, reserved) == ManagedKeys(names, props, reserved)
    decreases |props|
  {
    if props != [] {
      var init := props[..|props| - 1];
      var p := props[|props| - 1];
      StaticInitPropertiesSpec(names, init, reserved);
      assert props == init + [p];
      var prev := StaticInitProperties(names, init, reserved);
      ManagedKeysSnoc(names, init, p, reserved);
      ManagedKeysSnoc(names, prev, p, reserved);
      if ManagedKey(names, p, reserved) !in ManagedKeys(names, prev, reserved) {
        var kept := prev + [p];
        ManagedKeysSpec(names, prev, reserved);
        forall i, j | 0 <= i < j < |kept|
          ensures !Strings.EqualsIgnoreCase(ManagedName(names, kept[i], reserved), ManagedName(names, kept[j], reserved))
        {
          Strings.FoldCaseIsKey(ManagedName(names, kept[i], reserved), ManagedName(names, kept[j], reserved));
          if j == |prev| {
            assert kept[i] in prev;
          }
        }
      }
    }
  }

  /** What a translator contributes to the static constructor for one exported property. */
  function PropertyStaticInitBlock(r: Rules, p: Property): seq<Emission> {
    EditorOnly(p.editorOnly, [PropertyStaticInit(Lookup(r, p), p)])
  }

  /** What the parameter translators contribute to a function's static initialisation. */
  function ParameterStaticInits(r: Rules, functionName: string, params: seq<Property>): seq<Emission>
    decreases |params|
  {
    if params == [] then []
    else
      var p := params[|params| - 1];
      ParameterStaticInits(r, functionName, params[..|params| - 1]) + [ParameterStaticInit(Lookup(r, p), functionName, p)]
  }

  /** ExportClassFunctionStaticConstruction for one function. */
  function FunctionStaticInitBlock(r: Rules, f: Function): seq<Emission> {
    EditorOnly(f.editorOnly, [FunctionStaticInit(f.name, |f.params| > 0)] + ParameterStaticInits(r, f.name, f.params))
  }

  /** One iteration of ExportClassOverridableFunctionsStaticConstruction: nothing for a function without parameters. */
  function OverridableStaticInitBlock(r: Rules, f: Function): seq<Emission> {
    if |f.params| == 0 then []
    else EditorOnly(f.editorOnly, [OverridableStaticInit(f.name)] + ParameterStaticInits(r, f.name, f.params))
  }

  /** The function type ExportClassFunctions passes: internal when the override list names the function. */
  function FunctionTypeOf(r: Rules, className: string, f: Function): FunctionType {
    if Inclusion.HasFunction(r.lists.overrideInternal, className, f.name, f.category) then InternalWhitelisted else Normal
  }

  /** The extension method one exported function contributes, if any. */
  function ExtensionOf(r: Rules, cls: ObjId, f: Function): seq<ExtensionMethod> {
    if f.isStatic && r.engine.isChildOf(cls, r.engine.functionLibrary) then
      match ExtensionMethodInfo(f)
      case Some(m) => [m]
      case None => []
    else []
  }

  /** The extension methods ExportClassFunctions collects from `fs`, in order. */
  function ExtensionsOf(r: Rules, cls: ObjId, fs: seq<Function>): seq<ExtensionMethod>
    decreases |fs|
  {
    if fs == [] then [] else ExtensionsOf(r, cls, fs[..|fs| - 1]) + ExtensionOf(r, cls, fs[|fs| - 1])
  }

  /**
   * Extension methods are collected only from static functions of function-library classes,
   * and from each such function exactly when it has the metadata and an object-typed first parameter.
   */
  lemma {:induction false} ExtensionsOfSpec(r: Rules, cls: ObjId, fs: seq<Function>)
    ensures forall m :: m in ExtensionsOf(r, cls, fs) <==>
      exists f :: f in fs && f.isStatic && r.engine.isChildOf(cls, r.engine.functionLibrary) && ExtensionMethodInfo(f) == Some(m)
    ensures !r.engine.isChildOf(cls, r.engine.functionLibrary) ==> ExtensionsOf(r, cls, fs) == []
    decreases |fs|
  {
    if fs != [] {
      var init := fs[..|fs| - 1];
      ExtensionsOfSpec(r, cls, init);
      assert fs == init + [fs[|fs| - 1]];
    }
  }

  /** The namespace of the module a package belongs to (FCSModule::GetNamespace). */
  function Namespace(e: Engine, package: string): string {
    e.namespaceOf(e.moduleOfPackage(package))
  }

  /** The C# names of the functions, as NameMapper maps them. */
  function FunctionNames(names: NameMapper, fs: seq<Function>): set<string>
    decreases |fs|
  {
    if fs == [] then {} else FunctionNames(names, fs[..|fs| - 1]) + {names.mapFunctionName(fs[|fs| - 1])}
  }

  /** The scriptified names of the properties. */
  function PropertyScriptNames(names: NameMapper, ps: seq<Property>): set<string>
    decreases |ps|
  {
    if ps == [] then {} else PropertyScriptNames(names, ps[..|ps| - 1]) + {names.scriptifyPropertyName(ps[|ps| - 1].name)}
  }

  /** The native names of the properties (the reserved names of a struct). */
  function PropertyNames(ps: seq<Property>): set<string>
    decreases |ps|
  {
    if ps == [] then {} else PropertyNames(ps[..|ps| - 1]) + {ps[|ps| - 1].name}
  }

  /** The reserved names of a class: its exported functions' and properties' C# names. */
  function ReservedNames(names: NameMapper, normal: seq<Function>, overridable: seq<Function>, props: seq<Property>): set<string> {
    FunctionNames(names, normal) + FunctionNames(names, overridable) + PropertyScriptNames(names, props)
  }

  lemma {:induction false} FunctionNamesSpec(names: NameMapper, fs: seq<Function>)
    ensures forall n :: n in FunctionNames(names, fs) <==> exists f :: f in fs && names.mapFunctionName(f) == n
    decreases |fs|
  {
    if fs != [] {
      FunctionNamesSpec(names, fs[..|fs| - 1]);
      assert fs == fs[..|fs| - 1] + [fs[|fs| - 1]];
    }
  }

  lemma {:induction false} PropertyScriptNamesSpec(names: NameMapper, ps: seq<Property>)
    ensures forall n :: n in PropertyScriptNames(names, ps) <==> exists p :: p in ps && names.scriptifyPropertyName(p.name) == n
    decreases |ps|
  {
    if ps != [] {
      PropertyScriptNamesSpec(names, ps[..|ps| - 1]);
      assert ps == ps[..|ps| - 1] + [ps[|ps| - 1]];
    }
  }

  lemma {:induction false} PropertyNamesSpec(ps: seq<Property>)
    ensures forall n :: n in PropertyNames(ps) <==> exists p :: p in ps && p.name == n
    decreases |ps|
  {
    if ps != [] {
      PropertyNamesSpec(ps[..|ps| - 1]);
      assert ps == ps[..|ps| - 1] + [ps[|ps| - 1]];
    }
  }

  /** A name is reserved exactly when it is the C# name of an exported function or property. */
  lemma ReservedNamesSpec(names: NameMapper, normal: seq<Function>, overridable: seq<Function>, props: seq<Property>)
    ensures forall n :: n in ReservedNames(names, normal, overridable, props) <==>
      || (exists f :: (f in normal || f in overridable) && names.mapFunctionName(f) == n)
      || (exists p :: p in props && names.scriptifyPropertyName(p.name) == n)
  {
    FunctionNamesSpec(names, normal);
    FunctionNamesSpec(names, overridable);
    PropertyScriptNamesSpec(names, props);
  }

  /** The names of the implemented interfaces, in order. */
  function InterfaceNames(g: Graph, interfaces: seq<ObjId>): seq<string>
    requires forall i :: 0 <= i < |interfaces| ==> interfaces[i] in g
    decreases |interfaces|
  {
    if interfaces == [] then [] else InterfaceNames(g, interfaces[..|interfaces| - 1]) + [g[interfaces[|interfaces| - 1]].name]
  }

  /** One using directive per dependency, in order. */
  function UsingDirectives(e: Engine, deps: seq<string>): seq<Emission>
    decreases |deps|
  {
    if deps == [] then [] else UsingDirectives(e, deps[..|deps| - 1]) + [UsingDirective(e.namespaceOf(deps[|deps| - 1]))]
  }

  /** Directive `i` is the namespace of dependency `i`, so distinct dependencies give one directive each. */
  lemma {:induction false} UsingDirectivesSpec(e: Engine, deps: seq<string>)
    ensures |UsingDirectives(e, deps)| == |deps|
    ensures forall i | 0 <= i < |deps| :: UsingDirectives(e, deps)[i] == UsingDirective(e.namespaceOf(deps[i]))
    decreases |deps|
  {
    if deps != [] {
      var init := deps[..|deps| - 1];
      UsingDirectivesSpec(e, init);
      forall i | 0 <= i < |deps| ensures UsingDirectives(e, deps)[i] == UsingDirective(e.namespaceOf(deps[i])) {
        if i < |init| {
          assert deps[i] == init[i];
        }
      }
    }
  }

  function PropertyStaticInits(r: Rules, ps: seq<Property>): seq<Emission>
    decreases |ps|
  {
    if ps == [] then [] else PropertyStaticInits(r, ps[..|ps| - 1]) + PropertyStaticInitBlock(r, ps[|ps| - 1])
  }

  function FunctionStaticInits(r: Rules, fs: seq<Function>): seq<Emission>
    decreases |fs|
  {
    if fs == [] then [] else FunctionStaticInits(r, fs[..|fs| - 1]) + FunctionStaticInitBlock(r, fs[|fs| - 1])
  }

  function OverridableStaticInits(r: Rules, fs: seq<Function>): seq<Emission>
    decreases |fs|
  {
    if fs == [] then [] else OverridableStaticInits(r, fs[..|fs| - 1]) + OverridableStaticInitBlock(r, fs[|fs| - 1])
  }

  /** Some function of `fs` is static. */
  predicate HasStaticFunction(fs: seq<Function>) {
    exists i :: 0 <= i < |fs| && fs[i].isStatic
  }

  /** ExportStaticConstructor for a class or struct `owner` with id `id`. */
  function StaticConstructor(r: Rules, names: NameMapper, id: ObjId, owner: Obj, props: seq<Property>,
                             normal: seq<Function>, overridable: seq<Function>, reserved: set<string>): seq<Emission>
    requires owner.kind.ClassKind? || owner.kind.StructKind?
  {
    var isClass := owner.kind.ClassKind?;
    if isClass && props == [] && normal == [] && overridable == [] then []
    else
      var keepsClassPtr := HasStaticFunction(normal);
      (if keepsClassPtr then [NativeClassPtrField] else [])
      + (if isClass then [] else [NativeDataSizeField])
      + [StaticCtorBegin(names.typeScriptName(id), isClass, keepsClassPtr, owner.name)]
      + PropertyStaticInits(r, StaticInitProperties(names, props, reserved))
      + (if isClass then FunctionStaticInits(r, normal) + OverridableStaticInits(r, overridable) else [StructSizeInit])
      + [CloseBrace]
  }

  /**
   * A class with no exported property or function gets no static constructor; otherwise (and
   * always for a struct) one is emitted, it opens with the NativeClassPtr field exactly when
   * some exported function is static, a struct's declares NativeDataSize, and it ends with a brace.
   */
  lemma StaticConstructorSpec(r: Rules, names: NameMapper, id: ObjId, owner: Obj, props: seq<Property>,
                              normal: seq<Function>, overridable: seq<Function>, reserved: set<string>)
    requires owner.kind.ClassKind? || owner.kind.StructKind?
    ensures var out := StaticConstructor(r, names, id, owner, props, normal, overridable, reserved);
      && (out == [] <==> owner.kind.ClassKind? && props == [] && normal == [] && overridable == [])
      && (out != [] ==> (out[0] == NativeClassPtrField <==> HasStaticFunction(normal)) && out[|out| - 1] == CloseBrace)
      && (owner.kind.StructKind? ==> NativeDataSizeField in out && StructSizeInit in out)
  {
    var out := StaticConstructor(r, names, id, owner, props, normal, overridable, reserved);
    var isClass := owner.kind.ClassKind?;
    if !(isClass && props == [] && normal == [] && overridable == []) {
      var keepsClassPtr := HasStaticFunction(normal);
      var ptr := if keepsClassPtr then [NativeClassPtrField] else [];
      var size := if isClass then [] else [NativeDataSizeField];
      var head := ptr + size + [StaticCtorBegin(names.typeScriptName(id), isClass, keepsClassPtr, owner.name)];
      var inits := PropertyStaticInits(r, StaticInitProperties(names, props, reserved));
      var body := if isClass then FunctionStaticInits(r, normal) + OverridableStaticInits(r, overridable) else [StructSizeInit];
      var pre := head + inits + body;
      assert out == pre + [CloseBrace];
      assert head[0] == NativeClassPtrField <==> keepsClassPtr;
      FirstOfConcat(head, inits);
      FirstOfConcat(head + inits, body);
      FirstOfConcat(pre, [CloseBrace]);
      if !isClass {
        assert NativeDataSizeField in head;
        assert out == (head + inits) + [StructSizeInit] + [CloseBrace];
      }
    }
  }

  /** The first element of a concatenation with a non-empty left part. */
  lemma FirstOfConcat<T>(a: seq<T>, b: seq<T>)
    requires a != []
    ensures (a + b)[0] == a[0]
  {
  }

  function WrapperProperties(r: Rules, className: string, ps: seq<Property>): seq<Emission>
    decreases |ps|
  {
    if ps == [] then []
    else
      var p := ps[|ps| - 1];
      WrapperProperties(r, className, ps[..|ps| - 1])
      + [WrapperProperty(Lookup(r, p), p, Inclusion.HasProperty(r.lists.allow, className, p.name))]
  }

  function FunctionWrappers(r: Rules, className: string, fs: seq<Function>): seq<Emission>
    decreases |fs|
  {
    if fs == [] then []
    else
      var f := fs[|fs| - 1];
      FunctionWrappers(r, className, fs[..|fs| - 1]) + [FunctionWrapper(LookupFunction(r, f), f, FunctionTypeOf(r, className, f))]
  }

  function OverridableWrappers(r: Rules, fs: seq<Function>): seq<Emission>
    decreases |fs|
  {
    if fs == [] then []
    else OverridableWrappers(r, fs[..|fs| - 1]) + [OverridableWrapper(LookupFunction(r, fs[|fs| - 1]), fs[|fs| - 1])]
  }

  function InterfaceFunctions(r: Rules, fs: seq<Function>): seq<Emission>
    decreases |fs|
  {
    if fs == [] then []
    else InterfaceFunctions(r, fs[..|fs| - 1]) + [InterfaceFunction(LookupFunction(r, fs[|fs| - 1]), fs[|fs| - 1])]
  }

  function MirrorProperties(r: Rules, ps: seq<Property>, suppressOffsets: bool): seq<Emission>
    decreases |ps|
  {
    if ps == [] then []
    else MirrorProperties(r, ps[..|ps| - 1], suppressOffsets) + [MirrorProperty(Lookup(r, ps[|ps| - 1]), ps[|ps| - 1], suppressOffsets)]
  }

  function MarshalFromNatives(r: Rules, names: NameMapper, ps: seq<Property>, reserved: set<string>): seq<Emission>
    decreases |ps|
  {
    if ps == [] then []
    else
      var p := ps[|ps| - 1];
      MarshalFromNatives(r, names, ps[..|ps| - 1], reserved) + [MarshalFromNative(Lookup(r, p), p, ManagedName(names, p, reserved))]
  }

  function MarshalToNatives(r: Rules, names: NameMapper, ps: seq<Property>, reserved: set<string>): seq<Emission>
    decreases |ps|
  {
    if ps == [] then []
    else
      var p := ps[|ps| - 1];
      MarshalToNatives(r, names, ps[..|ps| - 1], reserved) + [MarshalToNative(Lookup(r, p), p, ManagedName(names, p, reserved))]
  }

  function ExtensionWrappers(r: Rules, ms: seq<ExtensionMethod>): seq<Emission>
    decreases |ms|
  {
    if ms == [] then []
    else ExtensionWrappers(r, ms[..|ms| - 1]) + [ExtensionWrapper(LookupFunction(r, ms[|ms| - 1].target), ms[|ms| - 1])]
  }

  function EnumMembers(vs: seq<EnumValue>): seq<Emission>
    decreases |vs|
  {
    if vs == [] then [] else EnumMembers(vs[..|vs| - 1]) + [EnumMember(vs[|vs| - 1])]
  }

  /** The generated file of a class: the header line, written before the superclass is handled, then the body. */
  function ClassGlue(r: Rules, names: NameMapper, cls: ObjId): seq<Emission>
    requires IsClass(r.graph, cls) && WellFormed(r.graph)
  {
    [FileHeader] + ClassBodyGlue(r, names, cls)
  }

  /** What ExportClass writes after its superclass has been handled. */
  function ClassBodyGlue(r: Rules, names: NameMapper, cls: ObjId): seq<Emission>
    requires IsClass(r.graph, cls) && WellFormed(r.graph)
  {
    ClassHeader(r, names, cls) + ClassMembers(r, names, cls) + [CloseBrace]
  }

  /** The using directives of a class's module dependencies, the namespace and the class declaration. */
  function ClassHeader(r: Rules, names: NameMapper, cls: ObjId): seq<Emission>
    requires IsClass(r.graph, cls) && WellFormed(r.graph)
  {
    var o := r.graph[cls];
    var c := o.kind.cls;
    UsingDirectives(r.engine, ClassDependencies(r, cls))
    + [Skeleton(Namespace(r.engine, o.package)),
       ClassDecl(names.scriptClassName(cls), SuperClassName(r.engine, names, r.graph, cls), InterfaceNames(r.graph, c.interfaces), c.isAbstract)]
  }

  /** The members of a class's generated file: static constructor, property wrappers, function wrappers, overridable functions. */
  function ClassMembers(r: Rules, names: NameMapper, cls: ObjId): seq<Emission>
    requires IsClass(r.graph, cls) && WellFormed(r.graph)
  {
    var o := r.graph[cls];
    var props := ExportedPropertiesFold(r, o, o.kind.cls.properties, []);
    var (normal, overridable) := ExportedFunctions(r, cls);
    var reserved := ReservedNames(names, normal, overridable, props);
    StaticConstructor(r, names, cls, o, props, normal, overridable, reserved)
    + WrapperProperties(r, o.name, props) + FunctionWrappers(r, o.name, normal) + OverridableWrappers(r, overridable)
  }

  /** The generated file of an interface: its overridable functions, then its marshaller. */
  function InterfaceGlue(r: Rules, names: NameMapper, cls: ObjId): seq<Emission>
    requires IsClass(r.graph, cls) && WellFormed(r.graph)
  {
    var o := r.graph[cls];
    var name := names.scriptClassName(cls);
    [Skeleton(Namespace(r.engine, o.package)), InterfaceDecl(name), InterfaceClassPtr(o.name)]
    + InterfaceFunctions(r, ExportedFunctions(r, cls).1)
    + [CloseBrace, InterfaceMarshaller(name)]
  }

  /** ExportStruct's property set: the parent struct's own exported properties, then the struct's own. */
  function StructProperties(r: Rules, s: ObjId): seq<Property>
    requires IsStruct(r.graph, s) && WellFormed(r.graph)
  {
    var st := r.graph[s].kind.str;
    var inherited := match st.superStruct
      case Some(parent) => ExportedPropertiesFold(r, r.graph[parent], OwnProperties(r.graph[parent]), [])
      case None => [];
    ExportedPropertiesFold(r, r.graph[s], st.properties, inherited)
  }

  /**
   * A struct exports exactly the exportable own properties of its parent (judged against the
   * parent) and its own exportable properties, the parent's first, each once.
   */
  lemma StructPropertiesSpec(r: Rules, s: ObjId)
    requires IsStruct(r.graph, s) && WellFormed(r.graph)
    ensures var st := r.graph[s].kind.str;
      var props := StructProperties(r, s);
      && NoDup(props)
      && forall p :: p in props <==>
           || (st.superStruct.Some? && p in OwnProperties(r.graph[st.superStruct.value])
               && CanExportProperty(r, r.graph[st.superStruct.value], p))
           || (p in st.properties && CanExportProperty(r, r.graph[s], p))
  {
    var st := r.graph[s].kind.str;
    match st.superStruct {
      case Some(parent) =>
        ExportedPropertiesFoldSpec(r, r.graph[parent], OwnProperties(r.graph[parent]), []);
        ExportedPropertiesFoldSpec(r, r.graph[s], st.properties,
          ExportedPropertiesFold(r, r.graph[parent], OwnProperties(r.graph[parent]), []));
      case None =>
        ExportedPropertiesFoldSpec(r, r.graph[s], st.properties, []);
    }
  }

  /** The mirror struct's native constructor and ToNative method. */
  function MirrorMarshalling(r: Rules, names: NameMapper, structName: string, props: seq<Property>, reserved: set<string>): seq<Emission> {
    [NativeConstructorBegin(structName)] + MarshalFromNatives(r, names, props, reserved) + [CloseBrace, ToNativeBegin]
    + MarshalToNatives(r, names, props, reserved) + [CloseBrace]
  }

  /** The generated file of a struct: blittable structs get no static constructor, marshalling or marshaller. */
  function StructGlue(r: Rules, names: NameMapper, s: ObjId): seq<Emission>
    requires IsStruct(r.graph, s) && WellFormed(r.graph)
  {
    var props := StructProperties(r, s);
    var blittable := r.engine.isStructBlittable(s);
    var structName := names.structScriptName(s);
    var reserved := PropertyNames(props);
    [Skeleton(Namespace(r.engine, r.graph[s].package)), StructDecl(structName, blittable)]
    + MirrorProperties(r, props, blittable)
    + (if blittable then []
       else StaticConstructor(r, names, s, r.graph[s], props, [], [], reserved) + MirrorMarshalling(r, names, structName, props, reserved))
    + [CloseBrace]
    + (if blittable then [] else [StructMarshaller(structName)])
  }

  /** The generated file of an enum. */
  function EnumGlue(e: Engine, id: ObjId, o: Obj): seq<Emission>
    requires o.kind.EnumKind?
  {
    var entries := o.kind.enm.entries;
    [Skeleton(Namespace(e, o.package)), EnumDecl(o.name, EnumBackingType(o.kind.enm.maxValue))]
    + EnumMembers(EnumValues(e, id, entries, |entries|))
    + [CloseBrace]
  }

  /** The static initialisation of a delegate's signature function. */
  function DelegateStaticInit(r: Rules, signature: Function): seq<Emission> {
    [DelegateSignatureInit(signature.name, |signature.params| > 0)] + ParameterStaticInits(r, signature.name, signature.params)
  }

  /** The generated file of a delegate signature. */
  function DelegateGlue(r: Rules, names: NameMapper, signature: Function): seq<Emission> {
    [Skeleton(Namespace(r.engine, signature.package)), DelegateDecl(names.delegateName(signature), signature.isMulticast),
     DelegateFunction(LookupFunction(r, signature), signature), DelegateInitializer]
    + DelegateStaticInit(r, signature)
    + [CloseBrace, CloseBrace]
  }

  /** `<Module>Extensions`. */
  function ExtensionClassName(moduleName: string): string {
    moduleName + "Extensions"
  }

  /** The generated extension class of a module. */
  function ExtensionsGlue(r: Rules, moduleName: string, ms: seq<ExtensionMethod>): seq<Emission> {
    [Skeleton(r.engine.namespaceOf(moduleName)), ExtensionClassDecl(ExtensionClassName(moduleName))]
    + ExtensionWrappers(r, ms)
    + [CloseBrace]
  }

  /** The extension-method map after appending `ms` under `moduleName` (FindOrAdd only when some are found). */
  function WithExtensions(m: map<string, seq<ExtensionMethod>>, moduleName: string, ms: seq<ExtensionMethod>): map<string, seq<ExtensionMethod>> {
    if ms == [] then m else m[moduleName := (if moduleName in m then m[moduleName] else []) + ms]
  }

  /** Appending under one module twice is appending the concatenation once. */
  lemma WithExtensionsAppend(m: map<string, seq<ExtensionMethod>>, moduleName: string, a: seq<ExtensionMethod>, b: seq<ExtensionMethod>)
    ensures WithExtensions(WithExtensions(m, moduleName, a), moduleName, b) == WithExtensions(m, moduleName, a + b)
  {
    if a == [] {
      assert a + b == b;
    } else if b == [] {
      assert a + b == a;
    } else {
      var existing := if moduleName in m then m[moduleName] else [];
      assert (existing + a) + b == existing + (a + b);
    }
  }

  /** One step of the static-init selection over the prefix `props[..i + 1]`. */
  lemma StaticInitPropertiesStep(names: NameMapper, props: seq<Property>, i: nat, reserved: set<string>)
    requires i < |props|
    ensures var prev := StaticInitProperties(names, props[..i], reserved);
      StaticInitProperties(names, props[..i + 1], reserved) ==
        if ManagedKey(names, props[i], reserved) in ManagedKeys(names, prev, reserved) then prev else prev + [props[i]]
  {
    assert props[..i + 1][..i] == props[..i];
  }

  lemma PropertyStaticInitsSnoc(r: Rules, ps: seq<Property>, p: Property)
    ensures PropertyStaticInits(r, ps + [p]) == PropertyStaticInits(r, ps) + PropertyStaticInitBlock(r, p)
  {
    assert (ps + [p])[..|ps|] == ps;
  }

  lemma EnumMembersSnoc(vs: seq<EnumValue>, v: EnumValue)
    ensures EnumMembers(vs + [v]) == EnumMembers(vs) + [EnumMember(v)]
  {
    assert (vs + [v])[..|vs|] == vs;
  }

  /** One entry of the enum loop: the members grow by that entry's member exactly when it is kept. */
  lemma EnumMembersStep(e: Engine, id: ObjId, entries: seq<EnumEntry>, i: nat)
    requires i < |entries|
    ensures EnumMembers(EnumValues(e, id, entries, i + 1)) ==
      if EntryKept(e, id, entries, i) then EnumMembers(EnumValues(e, id, entries, i)) + [EnumMember(EnumValue(EntryName(entries[i].name), entries[i].value))]
      else EnumMembers(EnumValues(e, id, entries, i))
  {
    var prev := EnumValues(e, id, entries, i);
    if EntryKept(e, id, entries, i) {
      EnumMembersSnoc(prev, EnumValue(EntryName(entries[i].name), entries[i].value));
    } else {
      assert prev + [] == prev;
    }
  }

  /** `ms` is the tail of the extension methods registered under `moduleName` (vacuous when `ms` is empty). */
  predicate EndsWithExtensions(m: map<string, seq<ExtensionMethod>>, moduleName: string, ms: seq<ExtensionMethod>) {
    ms == [] || (moduleName in m && |ms| <= |m[moduleName]| && m[moduleName][|m[moduleName]| - |ms|..] == ms)
  }

  /** After appending `ms` under a module, they are that module's last entries, and no other module changes. */
  lemma WithExtensionsSpec(m: map<string, seq<ExtensionMethod>>, moduleName: string, ms: seq<ExtensionMethod>)
    ensures EndsWithExtensions(WithExtensions(m, moduleName, ms), moduleName, ms)
    ensures forall k | k in m :: k in WithExtensions(m, moduleName, ms) && m[k] <= WithExtensions(m, moduleName, ms)[k]
    ensures forall k | k != moduleName :: (k in m <==> k in WithExtensions(m, moduleName, ms))
  {
    if ms != [] {
      var existing := if moduleName in m then m[moduleName] else [];
      var grown := existing + ms;
      assert grown[|grown| - |ms|..] == ms;
    }
  }

  lemma ExtensionsOfSnoc(r: Rules, cls: ObjId, fs: seq<Function>, i: nat)
    requires i < |fs|
    ensures ExtensionsOf(r, cls, fs[..i + 1]) == ExtensionsOf(r, cls, fs[..i]) + ExtensionOf(r, cls, fs[i])
  {
    assert fs[..i + 1][..i] == fs[..i];
  }

  /** The extension methods ExportClass registers for a class: those of its exported normal functions. */
  function ClassExtensions(r: Rules, cls: ObjId): seq<ExtensionMethod>
    requires IsClass(r.graph, cls) && WellFormed(r.graph)
  {
    ExtensionsOf(r, cls, ExportedFunctions(r, cls).0)
  }

  lemma ParameterDependenciesStep(r: Rules, params: seq<Property>, i: nat, deps: seq<string>)
    requires i < |params|
    ensures ParameterDependencies(r, params[..i + 1], deps) == AddAll(ParameterDependencies(r, params[..i], deps), DelegateModules(r, params[i]))
  {
    assert params[..i + 1][..i] == params[..i];
  }
}
