/**
 * The engine's reflection graph, as the generator sees it: read-only records reached through
 * integer ids, so that a class may (directly or through others) refer back to itself.
 * Queries the generator makes of code outside this model are function-valued fields of
 * `Engine` and `NameMapper`, left uninterpreted.
 */
module Reflection {
  import opened Wrappers

  type ObjId = nat

  /** The class of an FProperty (`Property->GetClass()->GetFName()`), the key of the translator map. */
  datatype FieldClass =
    | Int8Property | Int16Property | IntProperty | Int64Property
    | UInt16Property | UInt32Property | UInt64Property | DoubleProperty | FloatProperty
    | EnumProperty | ByteProperty | BoolProperty
    | StrProperty | NameProperty | TextProperty
    | WeakObjectProperty | ObjectProperty | ClassProperty | SoftObjectProperty | SoftClassProperty
    | ArrayProperty | MapProperty | StructProperty
    | MulticastSparseDelegateProperty | MulticastInlineDelegateProperty | DelegateProperty
    | InterfaceProperty
    | OtherProperty(className: string)

  /** An FProperty. `id` stands for the object's identity (two distinct FProperty objects differ in it). */
  datatype Property = Property(
    id: nat,
    name: string,
    fieldClass: FieldClass,
    arrayDim: int,
    deprecated: bool,           // CPF_Deprecated
    editorOnly: bool,           // CPF_EditorOnly
    returnParm: bool,           // CPF_ReturnParm
    objectClass: Option<ObjId>, // PropertyClass; present exactly when CastField<FObjectProperty> succeeds
    outermostIsClass: bool)     // Property->GetOutermost()->IsA(UClass::StaticClass())

  /** A UFunction: its child properties in declaration order (the return property among them), flags and metadata. */
  datatype Function = Function(
    id: ObjId,
    name: string,
    package: string,            // GetOutermost()
    ownerClass: Option<ObjId>,  // GetOwnerClass()
    params: seq<Property>,
    blueprintEvent: bool,       // FUNC_BlueprintEvent
    isStatic: bool,             // FUNC_Static
    editorOnly: bool,           // FUNC_EditorOnly
    isDelegate: bool,           // FUNC_Delegate
    isMulticast: bool,          // FUNC_MulticastDelegate
    latent: bool,               // MD_Latent
    internalUseOnly: bool,      // MD_BlueprintInternalUseOnly
    extensionMethod: bool,      // "ExtensionMethod" metadata
    category: string)           // "Category" metadata

  datatype ClassInfo = ClassInfo(
    isClassDefaultObject: bool,   // RF_ClassDefaultObject
    blueprintGenerated: bool,     // a UBlueprintGeneratedClass
    compiledFromBlueprint: bool,  // CLASS_CompiledFromBlueprint
    newerVersionExists: bool,     // CLASS_NewerVersionExists
    isAbstract: bool,             // CLASS_Abstract
    notGeneratorValid: bool,      // "NotGeneratorValid" metadata
    superClass: Option<ObjId>,
    interfaces: seq<ObjId>,       // Class->Interfaces
    properties: seq<Property>,    // own properties (ExcludeSuper)
    functions: seq<Function>,     // own functions (ExcludeSuper)
    allFunctions: seq<Function>)  // functions including inherited ones (the default field iterator)

  datatype StructInfo = StructInfo(superStruct: Option<ObjId>, properties: seq<Property>)

  datatype EnumEntry = EnumEntry(name: string, value: int)

  datatype EnumInfo = EnumInfo(entries: seq<EnumEntry>, maxValue: int)  // maxValue: GetMaxEnumValue()

  datatype Kind =
    | ClassKind(cls: ClassInfo)
    | StructKind(str: StructInfo)
    | EnumKind(enm: EnumInfo)
    | OtherKind

  datatype Obj = Obj(name: string, package: string, kind: Kind)

  type Graph = map<ObjId, Obj>

  /** Plugin types the module placement distinguishes (EPluginType). */
  datatype PluginType = ProjectPlugin | EnginePlugin | EnterprisePlugin | OtherPlugin

  /** Queries answered by engine code and utilities that are not part of this model. */
  datatype Engine = Engine(
    uObject: ObjId,
    uInterface: ObjId,
    functionLibrary: ObjId,             // UBlueprintFunctionLibrary
    asyncActionBase: ObjId,             // UBlueprintAsyncActionBase
    springArmComponent: ObjId,
    floatingPawnMovement: ObjId,
    timerHandleStruct: ObjId,           // FTimerHandle::StaticStruct()
    inputActionValueStruct: ObjId,      // FInputActionValue::StaticStruct()
    transientPackage: string,
    isChildOf: (ObjId, ObjId) -> bool,
    moduleOfPackage: string -> string,  // UUnrealSharpStatics::GetModuleName
    namespaceOf: string -> string,      // FCSModule::GetNamespace for a module name
    shouldExportClass: ObjId -> bool,
    shouldExportStruct: ObjId -> bool,
    shouldExportEnum: ObjId -> bool,
    shouldExportEnumEntry: (ObjId, nat) -> bool,
    shouldExportFunction: Function -> bool,
    shouldExportProperty: Property -> bool,
    isStructBlittable: ObjId -> bool,
    thisPlugin: Option<PluginType>,     // the plugin hosting the generator, if found
    moduleOwnerPlugin: string -> Option<PluginType>,
    loadedModuleIsGame: string -> Option<bool>,  // None when the module is not loaded
    glueGeneratorVersion: int,          // GLUE_GENERATOR_VERSION
    unrealSharpObject: string)          // UNREAL_SHARP_OBJECT

  /** The FCSNameMapper queries the generator uses. */
  datatype NameMapper = NameMapper(
    scriptClassName: ObjId -> string,
    qualifiedName: Option<ObjId> -> string,
    mapFunctionName: Function -> string,
    scriptifyPropertyName: string -> string,
    mapPropertyName: (Property, set<string>) -> string,
    typeScriptName: ObjId -> string,
    structScriptName: ObjId -> string,
    delegateName: Function -> string)

  predicate IsClass(g: Graph, id: ObjId) {
    id in g && g[id].kind.ClassKind?
  }

  predicate IsStruct(g: Graph, id: ObjId) {
    id in g && g[id].kind.StructKind?
  }

  /** Every class's superclass and interfaces, and every struct's super struct, are classes/structs of the graph. */
  ghost predicate WellFormed(g: Graph) {
    && (forall id | id in g && g[id].kind.ClassKind? ::
          && (g[id].kind.cls.superClass.Some? ==> IsClass(g, g[id].kind.cls.superClass.value))
          && (forall i | 0 <= i < |g[id].kind.cls.interfaces| :: IsClass(g, g[id].kind.cls.interfaces[i])))
    && (forall id | id in g && g[id].kind.StructKind? ::
          g[id].kind.str.superStruct.Some? ==> IsStruct(g, g[id].kind.str.superStruct.value))
  }

  /** `Function->GetReturnProperty()`: the first child property flagged CPF_ReturnParm. */
  function ReturnProperty(params: seq<Property>): (r: Option<Property>)
    ensures r.Some? <==> exists i :: 0 <= i < |params| && params[i].returnParm
    ensures r.Some? ==> r.value == params[FirstReturnIndex(params)]
  {
    var k := FirstReturnIndex(params);
    if k < |params| then Some(params[k]) else None
  }

  /** The index of the first CPF_ReturnParm property, or `|params|` if there is none. */
  function FirstReturnIndex(params: seq<Property>): (k: nat)
    ensures k <= |params|
    ensures k < |params| ==> params[k].returnParm
    ensures forall i :: 0 <= i < k ==> !params[i].returnParm
  {
    if params == [] then 0
    else if params[0].returnParm then 0
    else 1 + FirstReturnIndex(params[1..])
  }
}
