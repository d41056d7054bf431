/**
 * The translator registry (FCSPropertyTranslatorManager): for each property class an ordered
 * list of translators; a property is handled by the first translator in its list that accepts
 * it, and by the designated null translator when none does. Registration order is priority.
 */
module Translators {
  import opened Wrappers
  import opened Reflection
  import Inclusion

  /** The translator classes registered by the manager. */
  datatype HandlerKind =
    | NullTranslator
    | BlittableType(csharpType: string)
    | FloatTranslator
    | EnumTranslator
    | BoolTranslator
    | StringTranslator
    | NameTranslator
    | TextTranslator
    | WeakObjectTranslator
    | ObjectTranslator
    | ClassTranslator
    | SoftObjectPtrTranslator
    | SoftClassTranslator
    | ArrayTranslator
    | MapTranslator
    | BlittableCustomStruct(unrealName: string, csharpName: string)
    | CustomStruct(unrealName: string, csharpName: string)
    | BlittableStructTranslator
    | StructTranslator
    | MulticastDelegateTranslator
    | SinglecastDelegateTranslator
    | InterfaceTranslator

  /** A translator object; `id` is its identity (the object allocated by `new`). */
  datatype Handler = Handler(id: nat, kind: HandlerKind)

  /** The roles a translator may declare support for (the `IsSupportedAs*` queries). */
  datatype Role =
    | AsProperty | AsStructProperty | AsParameter | AsReturnValue
    | AsOverridableParameter | AsOverridableReturnValue | InStaticArray

  /** Translator internals that are not part of this model. */
  datatype Capabilities = Capabilities(
    canHandle: (Handler, Property) -> bool,                   // CanHandleProperty
    supports: (HandlerKind, Role) -> bool,                    // IsSupportedAs*
    delegateReferences: (Handler, Property) -> seq<Function>) // AddDelegateReferences, in insertion order

  type Table = map<FieldClass, seq<Handler>>

  function HandlersFor(t: Table, key: FieldClass): seq<Handler> {
    if key in t then t[key] else []
  }

  function Kinds(hs: seq<Handler>): (ks: seq<HandlerKind>)
    ensures |ks| == |hs| && forall i :: 0 <= i < |hs| ==> ks[i] == hs[i].kind
  {
    if hs == [] then [] else [hs[0].kind] + Kinds(hs[1..])
  }

  /** The index of the first handler of `hs` that accepts `p`, or `|hs|` when none does. */
  function FirstMatch(hs: seq<Handler>, p: Property, canHandle: (Handler, Property) -> bool): (i: nat)
    ensures i <= |hs|
    ensures i < |hs| ==> canHandle(hs[i], p)
    ensures forall j :: 0 <= j < i ==> !canHandle(hs[j], p)
  {
    if hs == [] then 0
    else if canHandle(hs[0], p) then 0
    else 1 + FirstMatch(hs[1..], p, canHandle)
  }

  /** What `Find(Property)` returns for a registry holding `t`. */
  function Resolve(t: Table, nullHandler: Handler, canHandle: (Handler, Property) -> bool, p: Property): Handler {
    var hs := HandlersFor(t, p.fieldClass);
    var i := FirstMatch(hs, p, canHandle);
    if i < |hs| then hs[i] else nullHandler
  }

  /** What `Find(Function)` returns: the translator of the return property, or the null translator. */
  function ResolveFunction(t: Table, nullHandler: Handler, canHandle: (Handler, Property) -> bool, f: Function): Handler {
    match ReturnProperty(f.params)
    case Some(r) => Resolve(t, nullHandler, canHandle, r)
    case None => nullHandler
  }

  /** Resolution is first match in registration order under the property's class, else the null translator. */
  lemma ResolveIsFirstMatch(t: Table, nullHandler: Handler, canHandle: (Handler, Property) -> bool, p: Property)
    ensures var hs := HandlersFor(t, p.fieldClass);
      var h := Resolve(t, nullHandler, canHandle, p);
      || (exists i :: 0 <= i < |hs| && h == hs[i] && canHandle(hs[i], p) && forall j :: 0 <= j < i ==> !canHandle(hs[j], p))
      || (h == nullHandler && forall j :: 0 <= j < |hs| ==> !canHandle(hs[j], p))
  {
    var hs := HandlersFor(t, p.fieldClass);
    var i := FirstMatch(hs, p, canHandle);
    if i < |hs| {
      assert Resolve(t, nullHandler, canHandle, p) == hs[i];
    }
  }

  /** If two handlers for one key both accept a property, the earlier one is chosen. */
  lemma EarlierAcceptingHandlerWins(t: Table, nullHandler: Handler, canHandle: (Handler, Property) -> bool, p: Property, i: nat, j: nat)
    requires i < j < |HandlersFor(t, p.fieldClass)|
    requires canHandle(HandlersFor(t, p.fieldClass)[i], p) && canHandle(HandlersFor(t, p.fieldClass)[j], p)
    ensures exists k :: 0 <= k <= i && Resolve(t, nullHandler, canHandle, p) == HandlersFor(t, p.fieldClass)[k]
  {
    var k := FirstMatch(HandlersFor(t, p.fieldClass), p, canHandle);
    assert k <= i;
  }

  /** Appending a handler to a list changes the first match only where nothing earlier accepted. */
  lemma {:induction false} FirstMatchAppend(hs: seq<Handler>, h: Handler, p: Property, canHandle: (Handler, Property) -> bool)
    ensures FirstMatch(hs + [h], p, canHandle) ==
      if FirstMatch(hs, p, canHandle) < |hs| then FirstMatch(hs, p, canHandle)
      else if canHandle(h, p) then |hs| else |hs| + 1
  {
    if hs != [] && !canHandle(hs[0], p) {
      assert (hs + [h])[1..] == hs[1..] + [h];
      FirstMatchAppend(hs[1..], h, p, canHandle);
    }
  }

  /** Registering one more handler never changes a resolution that did not fall back to the null translator. */
  lemma AppendKeepsResolution(t: Table, nullHandler: Handler, canHandle: (Handler, Property) -> bool, key: FieldClass, h: Handler, p: Property)
    requires Resolve(t, nullHandler, canHandle, p) != nullHandler
    ensures Resolve(t[key := HandlersFor(t, key) + [h]], nullHandler, canHandle, p) == Resolve(t, nullHandler, canHandle, p)
  {
    if p.fieldClass == key {
      FirstMatchAppend(HandlersFor(t, key), h, p, canHandle);
    }
  }

  const TimerHandleManagedName := "UnrealSharp.Engine.TimerHandle"
  const InputActionValueManagedName := "UnrealSharp.EnhancedInput.InputActionValue"

  /** How many translator objects the constructor allocates. */
  const DefaultHandlerCount: nat := 38

  /** The nine custom blittable structs the constructor registers by name, in order (see `DefaultTableFor` for `n`). */
  function NamedStructHandlers(n: nat): seq<Handler> {
    [Handler(n + 22, BlittableCustomStruct("Vector2f", "System.Numerics.Vector2"))]
    + [Handler(n + 23, BlittableCustomStruct("Vector3f", "System.Numerics.Vector3"))]
    + [Handler(n + 24, BlittableCustomStruct("Vector_NetQuantize", "UnrealSharp.CoreUObject.Vector"))]
    + [Handler(n + 25, BlittableCustomStruct("Vector_NetQuantize10", "UnrealSharp.CoreUObject.Vector"))]
    + [Handler(n + 26, BlittableCustomStruct("Vector_NetQuantize100", "UnrealSharp.CoreUObject.Vector"))]
    + [Handler(n + 27, BlittableCustomStruct("Vector_NetQuantizeNormal", "UnrealSharp.CoreUObject.Vector"))]
    + [Handler(n + 28, BlittableCustomStruct("Vector4f", "System.Numerics.Vector4"))]
    + [Handler(n + 29, BlittableCustomStruct("Quat4f", "System.Numerics.Quaternion"))]
    + [Handler(n + 30, BlittableCustomStruct("Matrix44f", "System.Numerics.Matrix4x4"))]
  }

  /** The StructProperty list: named custom structs, the two engine structs, then the generic struct translators. */
  function StructHandlers(n: nat, timerHandleName: string, inputActionValueName: string): seq<Handler> {
    NamedStructHandlers(n)
    + [Handler(n + 31, BlittableCustomStruct(timerHandleName, TimerHandleManagedName))]
    + [Handler(n + 32, BlittableCustomStruct(inputActionValueName, InputActionValueManagedName))]
    + [Handler(n + 33, BlittableStructTranslator)]
    + [Handler(n + 34, StructTranslator)]
  }

  /** The names the manager adds to the deny list while registering custom structs. */
  function DefaultDeniedStructs(timerHandleName: string, inputActionValueName: string): set<string> {
    {"Vector2f", "Vector3f", "Vector_NetQuantize", "Vector_NetQuantize10", "Vector_NetQuantize100",
     "Vector_NetQuantizeNormal", "Vector4f", "Quat4f", "Matrix44f", timerHandleName, inputActionValueName}
  }

  /** The number of custom structs the constructor registers by name. */
  const NamedStructCount := 9

  /** The name of the `i`-th custom struct the constructor registers by name. */
  function NamedStructName(i: nat): string {
    match i
    case 0 => "Vector2f"
    case 1 => "Vector3f"
    case 2 => "Vector_NetQuantize"
    case 3 => "Vector_NetQuantize10"
    case 4 => "Vector_NetQuantize100"
    case 5 => "Vector_NetQuantizeNormal"
    case 6 => "Vector4f"
    case 7 => "Quat4f"
    case _ => "Matrix44f"
  }

  /** The deny list after the first `k` named custom structs are registered, one `AddStruct` per registration. */
  function DenyFirstNamedStructs(l: Inclusion.InclusionList, k: nat): Inclusion.InclusionList
    decreases k
  {
    if k == 0 then l else Inclusion.AddStruct(DenyFirstNamedStructs(l, k - 1), NamedStructName(k - 1))
  }

  /** The deny list after the nine named custom structs are registered. */
  function DenyNamedStructs(l: Inclusion.InclusionList): Inclusion.InclusionList {
    DenyFirstNamedStructs(l, NamedStructCount)
  }

  /** The named registrations deny the nine structs one after the other, in the constructor's order. */
  lemma DenyNamedStructsIsChain(l: Inclusion.InclusionList)
    ensures DenyNamedStructs(l)
         == Inclusion.AddStruct(Inclusion.AddStruct(Inclusion.AddStruct(
              Inclusion.AddStruct(Inclusion.AddStruct(Inclusion.AddStruct(Inclusion.AddStruct(
                Inclusion.AddStruct(Inclusion.AddStruct(l, "Vector2f"), "Vector3f"),
                "Vector_NetQuantize"), "Vector_NetQuantize10"), "Vector_NetQuantize100"), "Vector_NetQuantizeNormal"),
              "Vector4f"), "Quat4f"), "Matrix44f")
  {
    assert DenyFirstNamedStructs(l, 1) == Inclusion.AddStruct(l, "Vector2f");
    assert DenyFirstNamedStructs(l, 2) == Inclusion.AddStruct(DenyFirstNamedStructs(l, 1), "Vector3f");
    assert DenyFirstNamedStructs(l, 3) == Inclusion.AddStruct(DenyFirstNamedStructs(l, 2), "Vector_NetQuantize");
    assert DenyFirstNamedStructs(l, 4) == Inclusion.AddStruct(DenyFirstNamedStructs(l, 3), "Vector_NetQuantize10");
    assert DenyFirstNamedStructs(l, 5) == Inclusion.AddStruct(DenyFirstNamedStructs(l, 4), "Vector_NetQuantize100");
    assert DenyFirstNamedStructs(l, 6) == Inclusion.AddStruct(DenyFirstNamedStructs(l, 5), "Vector_NetQuantizeNormal");
    assert DenyFirstNamedStructs(l, 7) == Inclusion.AddStruct(DenyFirstNamedStructs(l, 6), "Vector4f");
    assert DenyFirstNamedStructs(l, 8) == Inclusion.AddStruct(DenyFirstNamedStructs(l, 7), "Quat4f");
    assert DenyFirstNamedStructs(l, 9) == Inclusion.AddStruct(DenyFirstNamedStructs(l, 8), "Matrix44f");
  }

  /** The deny list after all custom structs are registered. */
  function DenyCustomStructs(l: Inclusion.InclusionList, timerHandleName: string, inputActionValueName: string): Inclusion.InclusionList {
    Inclusion.AddStruct(Inclusion.AddStruct(DenyNamedStructs(l), timerHandleName), inputActionValueName)
  }

  /** Registering the custom structs denies exactly those structs and touches nothing else in the list. */
  lemma DenyCustomStructsAddsDefaults(l: Inclusion.InclusionList, timerHandleName: string, inputActionValueName: string)
    ensures DenyCustomStructs(l, timerHandleName, inputActionValueName)
      == l.(structs := l.structs + DefaultDeniedStructs(timerHandleName, inputActionValueName))
  {
    DenyNamedStructsIsChain(l);
  }

  /**
   * The position of a property class in the constructor's registration order; `OtherProperty`
   * classes, which the constructor never registers, come last.
   */
  function KeyRank(k: FieldClass): nat {
    match k
    case Int8Property => 0
    case Int16Property => 1
    case IntProperty => 2
    case Int64Property => 3
    case UInt16Property => 4
    case UInt32Property => 5
    case UInt64Property => 6
    case DoubleProperty => 7
    case FloatProperty => 8
    case EnumProperty => 9
    case ByteProperty => 10
    case BoolProperty => 11
    case StrProperty => 12
    case NameProperty => 13
    case TextProperty => 14
    case WeakObjectProperty => 15
    case ObjectProperty => 16
    case ClassProperty => 17
    case SoftObjectProperty => 18
    case SoftClassProperty => 19
    case ArrayProperty => 20
    case MapProperty => 21
    case StructProperty => 22
    case MulticastSparseDelegateProperty => 23
    case MulticastInlineDelegateProperty => 24
    case DelegateProperty => 25
    case InterfaceProperty => 26
    case OtherProperty(_) => 27
  }

  /** Only classes before position `r` of the registration order have translators in `t`. */
  ghost predicate RegisteredBelow(t: Table, r: nat) {
    forall key | key in t :: KeyRank(key) < r
  }

  /** Registering a class before position `r` keeps a table's classes before `r`. */
  lemma RegisteredBelowUpdate(t: Table, lo: nat, r: nat, k: FieldClass, hs: seq<Handler>)
    requires RegisteredBelow(t, lo) && lo <= r && KeyRank(k) < r
    ensures RegisteredBelow(t[k := hs], r)
  {
  }

  /** `t` with the signed integer classes registered, each with its blittable C# type. */
  function WithSignedIntegers(t: Table, n: nat): Table {
    t[Int8Property := [Handler(n, BlittableType("sbyte"))]]
     [Int16Property := [Handler(n + 1, BlittableType("short"))]]
     [IntProperty := [Handler(n + 2, BlittableType("int"))]]
     [Int64Property := [Handler(n + 3, BlittableType("long"))]]
  }

  /** `t` with the integer and double classes registered, each with its blittable C# type. */
  function WithNumbers(t: Table, n: nat): Table {
    WithUnsignedIntegersAndDouble(WithSignedIntegers(t, n), n)
  }

  /** `t` with the unsigned integer classes and double registered, each with its blittable C# type. */
  function WithUnsignedIntegersAndDouble(t: Table, n: nat): Table {
    t[UInt16Property := [Handler(n + 4, BlittableType("ushort"))]]
     [UInt32Property := [Handler(n + 5, BlittableType("uint"))]]
     [UInt64Property := [Handler(n + 6, BlittableType("ulong"))]]
     [DoubleProperty := [Handler(n + 7, BlittableType("double"))]]
  }

  /** `t` with float and one enum translator object registered for both the enum and the byte class. */
  function WithFloatAndEnums(t: Table, n: nat): Table {
    t[FloatProperty := [Handler(n + 8, FloatTranslator)]]
     [EnumProperty := [Handler(n + 9, EnumTranslator)]]
     [ByteProperty := [Handler(n + 9, EnumTranslator)]]
  }

  /** `t` with the blittable byte translator after the enum one, and bool. */
  function WithByteAndBool(t: Table, n: nat): Table {
    t[ByteProperty := HandlersFor(t, ByteProperty) + [Handler(n + 10, BlittableType("byte"))]]
     [BoolProperty := [Handler(n + 11, BoolTranslator)]]
  }

  /** `t` with float, enum (one translator object shared with byte), byte and bool registered. */
  function WithEnumsAndBool(t: Table, n: nat): Table {
    WithByteAndBool(WithFloatAndEnums(t, n), n)
  }

  /** `t` with the string, name and text classes registered. */
  function WithTextTypes(t: Table, n: nat): Table {
    t[StrProperty := [Handler(n + 12, StringTranslator)]]
     [NameProperty := [Handler(n + 13, NameTranslator)]]
     [TextProperty := [Handler(n + 14, TextTranslator)]]
  }

  /** `t` with the weak, strong and class reference classes registered. */
  function WithObjectReferences(t: Table, n: nat): Table {
    t[WeakObjectProperty := [Handler(n + 15, WeakObjectTranslator)]]
     [ObjectProperty := [Handler(n + 16, ObjectTranslator)]]
     [ClassProperty := [Handler(n + 17, ClassTranslator)]]
  }

  /** `t` with the soft reference classes registered. */
  function WithSoftReferences(t: Table, n: nat): Table {
    t[SoftObjectProperty := [Handler(n + 18, SoftObjectPtrTranslator)]]
     [SoftClassProperty := [Handler(n + 19, SoftClassTranslator)]]
  }

  /** `t` with the array and map classes registered. */
  function WithContainers(t: Table, n: nat): Table {
    t[ArrayProperty := [Handler(n + 20, ArrayTranslator)]]
     [MapProperty := [Handler(n + 21, MapTranslator)]]
  }

  /** `t` with the two multicast delegate classes registered, sharing one translator object. */
  function WithMulticastDelegates(t: Table, n: nat): Table {
    t[MulticastSparseDelegateProperty := [Handler(n + 35, MulticastDelegateTranslator)]]
     [MulticastInlineDelegateProperty := [Handler(n + 35, MulticastDelegateTranslator)]]
  }

  /** `t` with the single-cast delegate and interface classes registered. */
  function WithDelegatesAndInterfaces(t: Table, n: nat): Table {
    t[DelegateProperty := [Handler(n + 36, SinglecastDelegateTranslator)]]
     [InterfaceProperty := [Handler(n + 37, InterfaceTranslator)]]
  }

  /** `t` with the struct class registered: custom blittable structs, then the generic struct translators. */
  function WithStructs(t: Table, n: nat, timerHandleName: string, inputActionValueName: string): Table {
    WithEngineAndGenericStructs(WithNamedStructs(t, n), n, timerHandleName, inputActionValueName)
  }

  /** `t` with the struct class given the nine custom structs registered by name. */
  function WithNamedStructs(t: Table, n: nat): Table {
    t[StructProperty := NamedStructHandlers(n)]
  }

  /** `t` with the two engine structs, then the generic blittable and struct translators, appended to the struct class. */
  function WithEngineAndGenericStructs(t: Table, n: nat, timerHandleName: string, inputActionValueName: string): Table {
    t[StructProperty := HandlersFor(t, StructProperty)
      + [Handler(n + 31, BlittableCustomStruct(timerHandleName, TimerHandleManagedName))]
      + [Handler(n + 32, BlittableCustomStruct(inputActionValueName, InputActionValueManagedName))]
      + [Handler(n + 33, BlittableStructTranslator)]
      + [Handler(n + 34, StructTranslator)]]
  }

  /** The struct registrations replace the struct class's list by the full struct list. */
  lemma WithStructsList(t: Table, n: nat, timerHandleName: string, inputActionValueName: string)
    ensures WithStructs(t, n, timerHandleName, inputActionValueName)
         == t[StructProperty := StructHandlers(n, timerHandleName, inputActionValueName)]
  {
    var t1 := WithNamedStructs(t, n);
    assert HandlersFor(t1, StructProperty) == NamedStructHandlers(n);
  }

  /** The struct registrations keep a table's classes before the class after the struct class. */
  lemma WithStructsBelow(t: Table, n: nat, timerHandleName: string, inputActionValueName: string)
    requires RegisteredBelow(t, 22)
    ensures RegisteredBelow(WithStructs(t, n, timerHandleName, inputActionValueName), 23)
  {
    WithStructsList(t, n, timerHandleName, inputActionValueName);
    RegisteredBelowUpdate(t, 22, 23, StructProperty, StructHandlers(n, timerHandleName, inputActionValueName));
  }

  /** The number of registration groups of the manager's constructor. */
  const RegistrationGroupCount := 9

  /** Registration group `g` of the manager's constructor, applied to `t`. */
  function RegistrationGroup(t: Table, g: nat, n: nat, timerHandleName: string, inputActionValueName: string): Table {
    match g
    case 0 => WithNumbers(t, n)
    case 1 => WithEnumsAndBool(t, n)
    case 2 => WithTextTypes(t, n)
    case 3 => WithObjectReferences(t, n)
    case 4 => WithSoftReferences(t, n)
    case 5 => WithContainers(t, n)
    case 6 => WithStructs(t, n, timerHandleName, inputActionValueName)
    case 7 => WithMulticastDelegates(t, n)
    case _ => WithDelegatesAndInterfaces(t, n)
  }

  /** The table after the first `g` registration groups, starting from an empty table. */
  function RegisteredGroups(g: nat, n: nat, timerHandleName: string, inputActionValueName: string): Table
    decreases g
  {
    if g == 0 then map[]
    else RegistrationGroup(RegisteredGroups(g - 1, n, timerHandleName, inputActionValueName), g - 1, n, timerHandleName, inputActionValueName)
  }

  /**
   * The registrations of the manager's constructor, in order, starting from an empty table,
   * when its first translator object after the null translator receives identity `n`.
   */
  function DefaultTableFor(n: nat, timerHandleName: string, inputActionValueName: string): Table {
    RegisteredGroups(RegistrationGroupCount, n, timerHandleName, inputActionValueName)
  }

  /** The default table is the nine groups applied one after the other, in the constructor's order. */
  lemma DefaultTableForIsChain(n: nat, timerHandleName: string, inputActionValueName: string)
    ensures DefaultTableFor(n, timerHandleName, inputActionValueName)
         == WithDelegatesAndInterfaces(WithMulticastDelegates(WithStructs(WithContainers(WithSoftReferences(
              WithObjectReferences(WithTextTypes(WithEnumsAndBool(WithNumbers(map[], n), n), n), n), n), n),
              n, timerHandleName, inputActionValueName), n), n)
  {
    var a, b := timerHandleName, inputActionValueName;
    assert RegisteredGroups(1, n, a, b) == WithNumbers(map[], n);
    assert RegisteredGroups(2, n, a, b) == WithEnumsAndBool(RegisteredGroups(1, n, a, b), n);
    assert RegisteredGroups(3, n, a, b) == WithTextTypes(RegisteredGroups(2, n, a, b), n);
    assert RegisteredGroups(4, n, a, b) == WithObjectReferences(RegisteredGroups(3, n, a, b), n);
    assert RegisteredGroups(5, n, a, b) == WithSoftReferences(RegisteredGroups(4, n, a, b), n);
    assert RegisteredGroups(6, n, a, b) == WithContainers(RegisteredGroups(5, n, a, b), n);
    assert RegisteredGroups(7, n, a, b) == WithStructs(RegisteredGroups(6, n, a, b), n, a, b);
    assert RegisteredGroups(8, n, a, b) == WithMulticastDelegates(RegisteredGroups(7, n, a, b), n);
    assert RegisteredGroups(9, n, a, b) == WithDelegatesAndInterfaces(RegisteredGroups(8, n, a, b), n);
  }

  /**
   * The translator lists of the default table, class by class, written out independently of the
   * registration sequence.
   */
  function DefaultHandlers(k: FieldClass, n: nat, timerHandleName: string, inputActionValueName: string): seq<Handler> {
    match k
    case Int8Property => [Handler(n, BlittableType("sbyte"))]
    case Int16Property => [Handler(n + 1, BlittableType("short"))]
    case IntProperty => [Handler(n + 2, BlittableType("int"))]
    case Int64Property => [Handler(n + 3, BlittableType("long"))]
    case UInt16Property => [Handler(n + 4, BlittableType("ushort"))]
    case UInt32Property => [Handler(n + 5, BlittableType("uint"))]
    case UInt64Property => [Handler(n + 6, BlittableType("ulong"))]
    case DoubleProperty => [Handler(n + 7, BlittableType("double"))]
    case FloatProperty => [Handler(n + 8, FloatTranslator)]
    case EnumProperty => [Handler(n + 9, EnumTranslator)]
    case ByteProperty => [Handler(n + 9, EnumTranslator), Handler(n + 10, BlittableType("byte"))]
    case BoolProperty => [Handler(n + 11, BoolTranslator)]
    case StrProperty => [Handler(n + 12, StringTranslator)]
    case NameProperty => [Handler(n + 13, NameTranslator)]
    case TextProperty => [Handler(n + 14, TextTranslator)]
    case WeakObjectProperty => [Handler(n + 15, WeakObjectTranslator)]
    case ObjectProperty => [Handler(n + 16, ObjectTranslator)]
    case ClassProperty => [Handler(n + 17, ClassTranslator)]
    case SoftObjectProperty => [Handler(n + 18, SoftObjectPtrTranslator)]
    case SoftClassProperty => [Handler(n + 19, SoftClassTranslator)]
    case ArrayProperty => [Handler(n + 20, ArrayTranslator)]
    case MapProperty => [Handler(n + 21, MapTranslator)]
    case StructProperty =>
      [Handler(n + 22, BlittableCustomStruct("Vector2f", "System.Numerics.Vector2")),
       Handler(n + 23, BlittableCustomStruct("Vector3f", "System.Numerics.Vector3")),
       Handler(n + 24, BlittableCustomStruct("Vector_NetQuantize", "UnrealSharp.CoreUObject.Vector")),
       Handler(n + 25, BlittableCustomStruct("Vector_NetQuantize10", "UnrealSharp.CoreUObject.Vector")),
       Handler(n + 26, BlittableCustomStruct("Vector_NetQuantize100", "UnrealSharp.CoreUObject.Vector")),
       Handler(n + 27, BlittableCustomStruct("Vector_NetQuantizeNormal", "UnrealSharp.CoreUObject.Vector")),
       Handler(n + 28, BlittableCustomStruct("Vector4f", "System.Numerics.Vector4")),
       Handler(n + 29, BlittableCustomStruct("Quat4f", "System.Numerics.Quaternion")),
       Handler(n + 30, BlittableCustomStruct("Matrix44f", "System.Numerics.Matrix4x4")),
       Handler(n + 31, BlittableCustomStruct(timerHandleName, TimerHandleManagedName)),
       Handler(n + 32, BlittableCustomStruct(inputActionValueName, InputActionValueManagedName)),
       Handler(n + 33, BlittableStructTranslator),
       Handler(n + 34, StructTranslator)]
    case MulticastSparseDelegateProperty => [Handler(n + 35, MulticastDelegateTranslator)]
    case MulticastInlineDelegateProperty => [Handler(n + 35, MulticastDelegateTranslator)]
    case DelegateProperty => [Handler(n + 36, SinglecastDelegateTranslator)]
    case InterfaceProperty => [Handler(n + 37, InterfaceTranslator)]
    case OtherProperty(_) => []
  }

  /**
   * `after` is `before` with the classes at positions `lo` to `hi - 1` of the registration order
   * given their default lists, and every other class left alone.
   */
  ghost predicate RegistersDefaults(before: Table, after: Table, lo: nat, hi: nat,
                                    n: nat, timerHandleName: string, inputActionValueName: string) {
    && (forall k | KeyRank(k) < lo || hi <= KeyRank(k) :: (k in after <==> k in before) && (k in before ==> after[k] == before[k]))
    && (forall k | lo <= KeyRank(k) < hi :: k in after && after[k] == DefaultHandlers(k, n, timerHandleName, inputActionValueName))
  }

  /** Two consecutive groups of registrations make one. */
  lemma RegistersDefaultsCompose(a: Table, b: Table, c: Table, lo: nat, mid: nat, hi: nat,
                                 n: nat, timerHandleName: string, inputActionValueName: string)
    requires lo <= mid <= hi
    requires RegistersDefaults(a, b, lo, mid, n, timerHandleName, inputActionValueName)
    requires RegistersDefaults(b, c, mid, hi, n, timerHandleName, inputActionValueName)
    ensures RegistersDefaults(a, c, lo, hi, n, timerHandleName, inputActionValueName)
  {
  }

  lemma WithNumbersEntries(t: Table, n: nat, timerHandleName: string, inputActionValueName: string)
    ensures RegistersDefaults(t, WithNumbers(t, n), 0, 8, n, timerHandleName, inputActionValueName)
  {
    var t1 := WithSignedIntegers(t, n);
    WithSignedIntegersEntries(t, n, timerHandleName, inputActionValueName);
    WithUnsignedIntegersAndDoubleEntries(t1, n, timerHandleName, inputActionValueName);
    RegistersDefaultsCompose(t, t1, WithNumbers(t, n), 0, 4, 8, n, timerHandleName, inputActionValueName);
  }

  lemma WithSignedIntegersEntries(t: Table, n: nat, timerHandleName: string, inputActionValueName: string)
    ensures RegistersDefaults(t, WithSignedIntegers(t, n), 0, 4, n, timerHandleName, inputActionValueName)
  {
  }

  lemma WithUnsignedIntegersAndDoubleEntries(t: Table, n: nat, timerHandleName: string, inputActionValueName: string)
    ensures RegistersDefaults(t, WithUnsignedIntegersAndDouble(t, n), 4, 8, n, timerHandleName, inputActionValueName)
  {
  }

  lemma WithEnumsAndBoolEntries(t: Table, n: nat, timerHandleName: string, inputActionValueName: string)
    ensures RegistersDefaults(t, WithEnumsAndBool(t, n), 8, 12, n, timerHandleName, inputActionValueName)
  {
  }

  lemma WithTextTypesEntries(t: Table, n: nat, timerHandleName: string, inputActionValueName: string)
    ensures RegistersDefaults(t, WithTextTypes(t, n), 12, 15, n, timerHandleName, inputActionValueName)
  {
  }

  lemma WithObjectReferencesEntries(t: Table, n: nat, timerHandleName: string, inputActionValueName: string)
    ensures RegistersDefaults(t, WithObjectReferences(t, n), 15, 18, n, timerHandleName, inputActionValueName)
  {
  }

  lemma WithSoftReferencesEntries(t: Table, n: nat, timerHandleName: string, inputActionValueName: string)
    ensures RegistersDefaults(t, WithSoftReferences(t, n), 18, 20, n, timerHandleName, inputActionValueName)
  {
  }

  lemma WithContainersEntries(t: Table, n: nat, timerHandleName: string, inputActionValueName: string)
    ensures RegistersDefaults(t, WithContainers(t, n), 20, 22, n, timerHandleName, inputActionValueName)
  {
  }

  /** The struct list, appended one registration at a time, is the reference list for the struct class. */
  lemma StructHandlersAreDefault(n: nat, timerHandleName: string, inputActionValueName: string)
    ensures StructHandlers(n, timerHandleName, inputActionValueName) == DefaultHandlers(StructProperty, n, timerHandleName, inputActionValueName)
  {
  }

  lemma WithStructsEntries(t: Table, n: nat, timerHandleName: string, inputActionValueName: string)
    ensures RegistersDefaults(t, WithStructs(t, n, timerHandleName, inputActionValueName), 22, 23, n, timerHandleName, inputActionValueName)
  {
    StructHandlersAreDefault(n, timerHandleName, inputActionValueName);
    WithStructsList(t, n, timerHandleName, inputActionValueName);
  }

  lemma WithMulticastDelegatesEntries(t: Table, n: nat, timerHandleName: string, inputActionValueName: string)
    ensures RegistersDefaults(t, WithMulticastDelegates(t, n), 23, 25, n, timerHandleName, inputActionValueName)
  {
  }

  lemma WithDelegatesAndInterfacesEntries(t: Table, n: nat, timerHandleName: string, inputActionValueName: string)
    ensures RegistersDefaults(t, WithDelegatesAndInterfaces(t, n), 25, 27, n, timerHandleName, inputActionValueName)
  {
  }

  /** The constructor's registrations, group by group, give every known class its default list. */
  lemma DefaultTableRegistersAll(n: nat, timerHandleName: string, inputActionValueName: string)
    ensures RegistersDefaults(map[], DefaultTableFor(n, timerHandleName, inputActionValueName), 0, 27,
                              n, timerHandleName, inputActionValueName)
  {
    DefaultTableForIsChain(n, timerHandleName, inputActionValueName);
    var t0: Table := map[];
    var t1 := WithNumbers(t0, n);
    WithNumbersEntries(t0, n, timerHandleName, inputActionValueName);
    var t2 := WithEnumsAndBool(t1, n);
    WithEnumsAndBoolEntries(t1, n, timerHandleName, inputActionValueName);
    RegistersDefaultsCompose(t0, t1, t2, 0, 8, 12, n, timerHandleName, inputActionValueName);
    var t3 := WithTextTypes(t2, n);
    WithTextTypesEntries(t2, n, timerHandleName, inputActionValueName);
    RegistersDefaultsCompose(t0, t2, t3, 0, 12, 15, n, timerHandleName, inputActionValueName);
    var t4 := WithObjectReferences(t3, n);
    WithObjectReferencesEntries(t3, n, timerHandleName, inputActionValueName);
    RegistersDefaultsCompose(t0, t3, t4, 0, 15, 18, n, timerHandleName, inputActionValueName);
    var t5 := WithSoftReferences(t4, n);
    WithSoftReferencesEntries(t4, n, timerHandleName, inputActionValueName);
    RegistersDefaultsCompose(t0, t4, t5, 0, 18, 20, n, timerHandleName, inputActionValueName);
    var t6 := WithContainers(t5, n);
    WithContainersEntries(t5, n, timerHandleName, inputActionValueName);
    RegistersDefaultsCompose(t0, t5, t6, 0, 20, 22, n, timerHandleName, inputActionValueName);
    var t7 := WithStructs(t6, n, timerHandleName, inputActionValueName);
    WithStructsEntries(t6, n, timerHandleName, inputActionValueName);
    RegistersDefaultsCompose(t0, t6, t7, 0, 22, 23, n, timerHandleName, inputActionValueName);
    var t8 := WithMulticastDelegates(t7, n);
    WithMulticastDelegatesEntries(t7, n, timerHandleName, inputActionValueName);
    RegistersDefaultsCompose(t0, t7, t8, 0, 23, 25, n, timerHandleName, inputActionValueName);
    var t9 := WithDelegatesAndInterfaces(t8, n);
    WithDelegatesAndInterfacesEntries(t8, n, timerHandleName, inputActionValueName);
    RegistersDefaultsCompose(t0, t8, t9, 0, 25, 27, n, timerHandleName, inputActionValueName);
  }

  /** `t` holds exactly the reference lists: every known class has its list, no other class has one. */
  ghost predicate IsDefaultTable(t: Table, n: nat, timerHandleName: string, inputActionValueName: string) {
    forall k :: (k in t <==> !k.OtherProperty?) && HandlersFor(t, k) == DefaultHandlers(k, n, timerHandleName, inputActionValueName)
  }

  /** The constructor's table holds exactly the reference lists. */
  lemma DefaultTableIsReference(n: nat, timerHandleName: string, inputActionValueName: string)
    ensures IsDefaultTable(DefaultTableFor(n, timerHandleName, inputActionValueName), n, timerHandleName, inputActionValueName)
  {
    var t := DefaultTableFor(n, timerHandleName, inputActionValueName);
    forall k
      ensures (k in t <==> !k.OtherProperty?) && HandlersFor(t, k) == DefaultHandlers(k, n, timerHandleName, inputActionValueName)
    {
      DefaultTableEntry(n, timerHandleName, inputActionValueName, k);
    }
  }

  /** The constructor's table registers class `k` exactly when it is a known class, with its reference list. */
  lemma DefaultTableEntry(n: nat, timerHandleName: string, inputActionValueName: string, k: FieldClass)
    ensures var t := DefaultTableFor(n, timerHandleName, inputActionValueName);
      && (k in t <==> !k.OtherProperty?)
      && HandlersFor(t, k) == DefaultHandlers(k, n, timerHandleName, inputActionValueName)
  {
    DefaultTableRegistersAll(n, timerHandleName, inputActionValueName);
    if k.OtherProperty? {
      assert KeyRank(k) == 27;
    } else {
      assert KeyRank(k) < 27;
    }
  }

  /**
   * A byte property goes to the enum translator (the object the enum class also uses) whenever that
   * accepts it; only otherwise to the blittable `byte` translator; and to the null translator when
   * neither does.
   */
  lemma ByteEnumPriority(n: nat, timerHandleName: string, inputActionValueName: string, nullHandler: Handler,
                         canHandle: (Handler, Property) -> bool, p: Property)
    requires p.fieldClass == ByteProperty
    ensures var t := DefaultTableFor(n, timerHandleName, inputActionValueName);
      var enumTranslator := Handler(n + 9, EnumTranslator);
      var byteTranslator := Handler(n + 10, BlittableType("byte"));
      && HandlersFor(t, EnumProperty) == [enumTranslator]
      && Resolve(t, nullHandler, canHandle, p)
         == if canHandle(enumTranslator, p) then enumTranslator
            else if canHandle(byteTranslator, p) then byteTranslator
            else nullHandler
  {
    DefaultTableEntry(n, timerHandleName, inputActionValueName, ByteProperty);
    DefaultTableEntry(n, timerHandleName, inputActionValueName, EnumProperty);
    var hs := HandlersFor(DefaultTableFor(n, timerHandleName, inputActionValueName), ByteProperty);
    assert hs == [Handler(n + 9, EnumTranslator), Handler(n + 10, BlittableType("byte"))];
    var i := FirstMatch(hs, p, canHandle);
    if !canHandle(hs[0], p) && !canHandle(hs[1], p) {
      assert i == 2;
    }
  }

  /**
   * A struct property goes to a custom struct translator when one accepts it; the generic blittable
   * translator is chosen only when no custom one accepts, and the generic struct translator only
   * when neither a custom nor the blittable one does.
   */
  lemma StructPriority(n: nat, timerHandleName: string, inputActionValueName: string, nullHandler: Handler,
                       canHandle: (Handler, Property) -> bool, p: Property)
    requires p.fieldClass == StructProperty
    ensures var hs := DefaultHandlers(StructProperty, n, timerHandleName, inputActionValueName);
      var h := Resolve(DefaultTableFor(n, timerHandleName, inputActionValueName), nullHandler, canHandle, p);
      && ((exists i :: 0 <= i < 11 && canHandle(hs[i], p)) ==> h.kind.BlittableCustomStruct?)
      && (h.kind == BlittableStructTranslator && h != nullHandler ==> forall i :: 0 <= i < 11 ==> !canHandle(hs[i], p))
      && (h.kind == StructTranslator && h != nullHandler ==> forall i :: 0 <= i < 12 ==> !canHandle(hs[i], p))
  {
    DefaultTableEntry(n, timerHandleName, inputActionValueName, StructProperty);
    var hs := DefaultHandlers(StructProperty, n, timerHandleName, inputActionValueName);
    assert HandlersFor(DefaultTableFor(n, timerHandleName, inputActionValueName), p.fieldClass) == hs;
    var k := FirstMatch(hs, p, canHandle);
    if k < |hs| {
      assert Resolve(DefaultTableFor(n, timerHandleName, inputActionValueName), nullHandler, canHandle, p) == hs[k];
    }
  }

  class TranslatorManager {
    const caps: Capabilities
    var translatorMap: Table
    var nullHandler: Handler
    /** The identity the next translator object allocated by the manager receives. */
    var nextId: nat

    /** The null translator is distinct from every registered translator, and identities are below `nextId`. */
    ghost predicate Valid()
      reads this
    {
      && nullHandler.kind == NullTranslator
      && nullHandler.id < nextId
      && forall key, i | key in translatorMap && 0 <= i < |translatorMap[key]| ::
           translatorMap[key][i].id < nextId && translatorMap[key][i].id != nullHandler.id
    }

    /** Creates the null translator; the registrations of the C++ constructor are `RegisterDefaults`. */
    constructor (caps: Capabilities)
      ensures Valid()
      ensures this.caps == caps && translatorMap == map[] && nullHandler == Handler(0, NullTranslator) && nextId == 1
    {
      this.caps := caps;
      translatorMap := map[];
      nullHandler := Handler(0, NullTranslator);
      nextId := 1;
    }

    /** `Find(Property)`: the first translator registered for the property's class that accepts it, else the null translator. */
    method Find(p: Property) returns (h: Handler)
      requires Valid()
      ensures h == Resolve(translatorMap, nullHandler, caps.canHandle, p)
      ensures h == nullHandler <==>
        forall j :: 0 <= j < |HandlersFor(translatorMap, p.fieldClass)| ==> !caps.canHandle(HandlersFor(translatorMap, p.fieldClass)[j], p)
    {
      if p.fieldClass in translatorMap {
        var handlers := translatorMap[p.fieldClass];
        var i := 0;
        while i < |handlers|
          invariant 0 <= i <= |handlers|
          invariant forall j :: 0 <= j < i ==> !caps.canHandle(handlers[j], p)
        {
          if caps.canHandle(handlers[i], p) {
            return handlers[i];
          }
          i := i + 1;
        }
      }
      return nullHandler;
    }

    /** `Find(UFunction)`: the translator of the return property, or the null translator when there is none. */
    method FindForFunction(f: Function) returns (h: Handler)
      requires Valid()
      ensures h == ResolveFunction(translatorMap, nullHandler, caps.canHandle, f)
      ensures ReturnProperty(f.params).None? ==> h == nullHandler
    {
      var ret := ReturnProperty(f.params);
      if ret.Some? {
        h := Find(ret.value);
      } else {
        h := nullHandler;
      }
    }

    /** Allocates a translator object of the given kind. */
    method NewHandler(kind: HandlerKind) returns (h: Handler)
      requires Valid()
      modifies this
      ensures Valid()
      ensures h == Handler(old(nextId), kind) && nextId == old(nextId) + 1
      ensures translatorMap == old(translatorMap) && nullHandler == old(nullHandler)
    {
      h := Handler(nextId, kind);
      nextId := nextId + 1;
    }

    /** Appends `h` to the list of its key, leaving earlier translators and every other key as they were. */
    method AddPropertyTranslator(key: FieldClass, h: Handler)
      requires Valid() && h.id < nextId && h.id != nullHandler.id
      modifies this
      ensures Valid()
      ensures translatorMap == old(translatorMap)[key := HandlersFor(old(translatorMap), key) + [h]]
      ensures key !in old(translatorMap) ==> translatorMap == old(translatorMap)[key := [h]]
      ensures nextId == old(nextId) && nullHandler == old(nullHandler)
    {
      var handlers := HandlersFor(translatorMap, key);
      if key !in translatorMap {
        assert handlers + [h] == [h];
      }
      translatorMap := translatorMap[key := handlers + [h]];
    }

    /** `AddPropertyTranslator(key, new Kind(*this))`: registers a freshly allocated translator. */
    method AddNewPropertyTranslator(key: FieldClass, kind: HandlerKind)
      requires Valid()
      modifies this
      ensures Valid()
      ensures translatorMap == old(translatorMap)[key := HandlersFor(old(translatorMap), key) + [Handler(old(nextId), kind)]]
      ensures key !in old(translatorMap) ==> translatorMap == old(translatorMap)[key := [Handler(old(nextId), kind)]]
      ensures nextId == old(nextId) + 1 && nullHandler == old(nullHandler)
    {
      var h := NewHandler(kind);
      AddPropertyTranslator(key, h);
    }

    /** Registers a blittable translator for `key` with the given C# type. */
    method AddBlittablePropertyTranslator(key: FieldClass, csharpType: string)
      requires Valid()
      modifies this
      ensures Valid()
      ensures translatorMap == old(translatorMap)[key := HandlersFor(old(translatorMap), key) + [Handler(old(nextId), BlittableType(csharpType))]]
      ensures key !in old(translatorMap) ==> translatorMap == old(translatorMap)[key := [Handler(old(nextId), BlittableType(csharpType))]]
      ensures nextId == old(nextId) + 1 && nullHandler == old(nullHandler)
    {
      AddNewPropertyTranslator(key, BlittableType(csharpType));
    }

    /** Registers a blittable custom struct translator under StructProperty and denies the struct's own export. */
    method AddBlittableCustomStructPropertyTranslator(unrealName: string, csharpName: string, denyList: Inclusion.InclusionList)
      returns (denyList': Inclusion.InclusionList)
      requires Valid()
      modifies this
      ensures Valid()
      ensures translatorMap == old(translatorMap)[StructProperty :=
        HandlersFor(old(translatorMap), StructProperty) + [Handler(old(nextId), BlittableCustomStruct(unrealName, csharpName))]]
      ensures StructProperty !in old(translatorMap) ==>
        translatorMap == old(translatorMap)[StructProperty := [Handler(old(nextId), BlittableCustomStruct(unrealName, csharpName))]]
      ensures nextId == old(nextId) + 1 && nullHandler == old(nullHandler)
      ensures denyList' == Inclusion.AddStruct(denyList, unrealName)
    {
      AddNewPropertyTranslator(StructProperty, BlittableCustomStruct(unrealName, csharpName));
      denyList' := Inclusion.AddStruct(denyList, unrealName);
    }

    /**
     * The UStruct overload: marks the struct as exported in the generator's memo (handed in and
     * back as `exportedTypes`), then registers it by its name.
     */
    method AddBlittableCustomStructPropertyTranslatorForStruct(structId: ObjId, structName: string, csharpName: string,
                                                              denyList: Inclusion.InclusionList, exportedTypes: set<ObjId>)
      returns (denyList': Inclusion.InclusionList, exportedTypes': set<ObjId>)
      requires Valid()
      modifies this
      ensures Valid()
      ensures translatorMap == old(translatorMap)[StructProperty :=
        HandlersFor(old(translatorMap), StructProperty) + [Handler(old(nextId), BlittableCustomStruct(structName, csharpName))]]
      ensures nextId == old(nextId) + 1 && nullHandler == old(nullHandler)
      ensures denyList' == Inclusion.AddStruct(denyList, structName)
      ensures exportedTypes' == exportedTypes + {structId}
    {
      exportedTypes' := exportedTypes + {structId};
      denyList' := AddBlittableCustomStructPropertyTranslator(structName, csharpName, denyList);
    }

    /** Registers a (non-blittable) custom struct translator under StructProperty and denies the struct's own export. */
    method AddCustomStructPropertyTranslator(unrealName: string, csharpName: string, denyList: Inclusion.InclusionList)
      returns (denyList': Inclusion.InclusionList)
      requires Valid()
      modifies this
      ensures Valid()
      ensures translatorMap == old(translatorMap)[StructProperty :=
        HandlersFor(old(translatorMap), StructProperty) + [Handler(old(nextId), CustomStruct(unrealName, csharpName))]]
      ensures nextId == old(nextId) + 1 && nullHandler == old(nullHandler)
      ensures denyList' == Inclusion.AddStruct(denyList, unrealName)
    {
      AddNewPropertyTranslator(StructProperty, CustomStruct(unrealName, csharpName));
      denyList' := Inclusion.AddStruct(denyList, unrealName);
    }

    /**
     * The registrations of the C++ constructor, in its order. The deny list and the generator's
     * exported-type memo, which the constructor updates through references, are handed in and back.
     */
    method RegisterDefaults(timerHandleStruct: ObjId, timerHandleName: string,
                            inputActionValueStruct: ObjId, inputActionValueName: string,
                            denyList: Inclusion.InclusionList, exportedTypes: set<ObjId>)
      returns (denyList': Inclusion.InclusionList, exportedTypes': set<ObjId>)
      requires Valid() && translatorMap == map[]
      modifies this
      ensures Valid()
      ensures translatorMap == DefaultTableFor(old(nextId), timerHandleName, inputActionValueName)
      ensures nextId == old(nextId) + DefaultHandlerCount && nullHandler == old(nullHandler)
      ensures denyList' == DenyCustomStructs(denyList, timerHandleName, inputActionValueName)
      ensures exportedTypes' == exportedTypes + {timerHandleStruct} + {inputActionValueStruct}
    {
      ghost var n := nextId;
      RegisterNumbers(n);
      RegisterEnumsAndBool(n);
      RegisterTextTypes(n);
      RegisterObjectReferences(n);
      RegisterSoftReferences(n);
      RegisterContainers(n);
      denyList', exportedTypes' := RegisterStructs(n, timerHandleStruct, timerHandleName, inputActionValueStruct,
                                                   inputActionValueName, denyList, exportedTypes);
      RegisterMulticastDelegates(n);
      RegisterDelegatesAndInterfaces(n);
      DefaultTableForIsChain(n, timerHandleName, inputActionValueName);
    }

    method RegisterNumbers(ghost n: nat)
      requires Valid() && nextId == n && RegisteredBelow(translatorMap, 0)
      modifies this
      ensures Valid() && nextId == n + 8 && nullHandler == old(nullHandler) && RegisteredBelow(translatorMap, 8)
      ensures translatorMap == WithNumbers(old(translatorMap), n)
    {
      RegisterSignedIntegers(n);
      RegisterUnsignedIntegersAndDouble(n);
    }

    method RegisterSignedIntegers(ghost n: nat)
      requires Valid() && nextId == n && RegisteredBelow(translatorMap, 0)
      modifies this
      ensures Valid() && nextId == n + 4 && nullHandler == old(nullHandler) && RegisteredBelow(translatorMap, 4)
      ensures translatorMap == WithSignedIntegers(old(translatorMap), n)
    {
      AddBlittablePropertyTranslator(Int8Property, "sbyte");
      AddBlittablePropertyTranslator(Int16Property, "short");
      AddBlittablePropertyTranslator(IntProperty, "int");
      AddBlittablePropertyTranslator(Int64Property, "long");
    }

    method RegisterUnsignedIntegersAndDouble(ghost n: nat)
      requires Valid() && nextId == n + 4 && RegisteredBelow(translatorMap, 4)
      modifies this
      ensures Valid() && nextId == n + 8 && nullHandler == old(nullHandler) && RegisteredBelow(translatorMap, 8)
      ensures translatorMap == WithUnsignedIntegersAndDouble(old(translatorMap), n)
    {
      AddBlittablePropertyTranslator(UInt16Property, "ushort");
      AddBlittablePropertyTranslator(UInt32Property, "uint");
      AddBlittablePropertyTranslator(UInt64Property, "ulong");
      AddBlittablePropertyTranslator(DoubleProperty, "double");
    }

    method RegisterEnumsAndBool(ghost n: nat)
      requires Valid() && nextId == n + 8 && RegisteredBelow(translatorMap, 8)
      modifies this
      ensures Valid() && nextId == n + 12 && nullHandler == old(nullHandler) && RegisteredBelow(translatorMap, 12)
      ensures translatorMap == WithEnumsAndBool(old(translatorMap), n)
    {
      RegisterFloatAndEnums(n);
      RegisterByteAndBool(n);
    }

    /** Float, then one enum translator object registered for both the enum and the byte class. */
    method RegisterFloatAndEnums(ghost n: nat)
      requires Valid() && nextId == n + 8 && RegisteredBelow(translatorMap, 8)
      modifies this
      ensures Valid() && nextId == n + 10 && nullHandler == old(nullHandler) && RegisteredBelow(translatorMap, 11)
      ensures translatorMap == WithFloatAndEnums(old(translatorMap), n)
    {
      AddNewPropertyTranslator(FloatProperty, FloatTranslator);

      var enumHandler := NewHandler(EnumTranslator);
      AddPropertyTranslator(EnumProperty, enumHandler);
      AddPropertyTranslator(ByteProperty, enumHandler);
    }

    /** The blittable byte translator, after the shared enum one; then bool. */
    method RegisterByteAndBool(ghost n: nat)
      requires Valid() && nextId == n + 10 && RegisteredBelow(translatorMap, 11)
      modifies this
      ensures Valid() && nextId == n + 12 && nullHandler == old(nullHandler) && RegisteredBelow(translatorMap, 12)
      ensures translatorMap == WithByteAndBool(old(translatorMap), n)
    {
      AddBlittablePropertyTranslator(ByteProperty, "byte");

      AddNewPropertyTranslator(BoolProperty, BoolTranslator);
    }

    method RegisterTextTypes(ghost n: nat)
      requires Valid() && nextId == n + 12 && RegisteredBelow(translatorMap, 12)
      modifies this
      ensures Valid() && nextId == n + 15 && nullHandler == old(nullHandler) && RegisteredBelow(translatorMap, 15)
      ensures translatorMap == WithTextTypes(old(translatorMap), n)
    {
      AddNewPropertyTranslator(StrProperty, StringTranslator);
      AddNewPropertyTranslator(NameProperty, NameTranslator);
      AddNewPropertyTranslator(TextProperty, TextTranslator);
    }

    method RegisterObjectReferences(ghost n: nat)
      requires Valid() && nextId == n + 15 && RegisteredBelow(translatorMap, 15)
      modifies this
      ensures Valid() && nextId == n + 18 && nullHandler == old(nullHandler) && RegisteredBelow(translatorMap, 18)
      ensures translatorMap == WithObjectReferences(old(translatorMap), n)
    {
      AddNewPropertyTranslator(WeakObjectProperty, WeakObjectTranslator);
      AddNewPropertyTranslator(ObjectProperty, ObjectTranslator);
      AddNewPropertyTranslator(ClassProperty, ClassTranslator);
    }

    method RegisterSoftReferences(ghost n: nat)
      requires Valid() && nextId == n + 18 && RegisteredBelow(translatorMap, 18)
      modifies this
      ensures Valid() && nextId == n + 20 && nullHandler == old(nullHandler) && RegisteredBelow(translatorMap, 20)
      ensures translatorMap == WithSoftReferences(old(translatorMap), n)
    {
      AddNewPropertyTranslator(SoftObjectProperty, SoftObjectPtrTranslator);
      AddNewPropertyTranslator(SoftClassProperty, SoftClassTranslator);
    }

    method RegisterContainers(ghost n: nat)
      requires Valid() && nextId == n + 20 && RegisteredBelow(translatorMap, 20)
      modifies this
      ensures Valid() && nextId == n + 22 && nullHandler == old(nullHandler) && RegisteredBelow(translatorMap, 22)
      ensures translatorMap == WithContainers(old(translatorMap), n)
    {
      AddNewPropertyTranslator(ArrayProperty, ArrayTranslator);

      AddNewPropertyTranslator(MapProperty, MapTranslator);
    }

    /** Custom blittable structs first, then the generic blittable and non-blittable struct translators. */
    method RegisterStructs(ghost n: nat, timerHandleStruct: ObjId, timerHandleName: string,
                           inputActionValueStruct: ObjId, inputActionValueName: string,
                           denyList: Inclusion.InclusionList, exportedTypes: set<ObjId>)
      returns (denyList': Inclusion.InclusionList, exportedTypes': set<ObjId>)
      requires Valid() && nextId == n + 22 && RegisteredBelow(translatorMap, 22)
      modifies this
      ensures Valid() && nextId == n + 35 && nullHandler == old(nullHandler) && RegisteredBelow(translatorMap, 23)
      ensures translatorMap == WithStructs(old(translatorMap), n, timerHandleName, inputActionValueName)
      ensures denyList' == DenyCustomStructs(denyList, timerHandleName, inputActionValueName)
      ensures exportedTypes' == exportedTypes + {timerHandleStruct} + {inputActionValueStruct}
    {
      denyList' := RegisterNamedStructs(n, denyList);
      denyList', exportedTypes' := RegisterEngineAndGenericStructs(n, timerHandleStruct, timerHandleName,
                                                                   inputActionValueStruct, inputActionValueName,
                                                                   denyList', exportedTypes);
      WithStructsBelow(old(translatorMap), n, timerHandleName, inputActionValueName);
    }

    /** The nine custom blittable structs the constructor registers by name. */
    method RegisterNamedStructs(ghost n: nat, denyList: Inclusion.InclusionList) returns (denyList': Inclusion.InclusionList)
      requires Valid() && nextId == n + 22 && StructProperty !in translatorMap
      modifies this
      ensures Valid() && nextId == n + 31 && nullHandler == old(nullHandler)
      ensures translatorMap == WithNamedStructs(old(translatorMap), n)
      ensures denyList' == DenyNamedStructs(denyList)
    {
      denyList' := RegisterVectorStructs(n, denyList);
      denyList' := RegisterNetQuantizeStructs(n, denyList');
      denyList' := RegisterMathStructs(n, denyList');
      DenyNamedStructsIsChain(denyList);
    }

    method RegisterVectorStructs(ghost n: nat, denyList: Inclusion.InclusionList) returns (denyList': Inclusion.InclusionList)
      requires Valid() && nextId == n + 22 && StructProperty !in translatorMap
      modifies this
      ensures Valid() && nextId == n + 24 && nullHandler == old(nullHandler)
      ensures translatorMap == old(translatorMap)[StructProperty :=
        [Handler(n + 22, BlittableCustomStruct("Vector2f", "System.Numerics.Vector2"))]
        + [Handler(n + 23, BlittableCustomStruct("Vector3f", "System.Numerics.Vector3"))]]
      ensures denyList' == Inclusion.AddStruct(Inclusion.AddStruct(denyList, "Vector2f"), "Vector3f")
    {
      denyList' := AddBlittableCustomStructPropertyTranslator("Vector2f", "System.Numerics.Vector2", denyList);
      denyList' := AddBlittableCustomStructPropertyTranslator("Vector3f", "System.Numerics.Vector3", denyList');
    }

    method RegisterNetQuantizeStructs(ghost n: nat, denyList: Inclusion.InclusionList) returns (denyList': Inclusion.InclusionList)
      requires Valid() && nextId == n + 24 && StructProperty in translatorMap
      modifies this
      ensures Valid() && nextId == n + 28 && nullHandler == old(nullHandler)
      ensures translatorMap == old(translatorMap)[StructProperty := old(translatorMap)[StructProperty]
        + [Handler(n + 24, BlittableCustomStruct("Vector_NetQuantize", "UnrealSharp.CoreUObject.Vector"))]
        + [Handler(n + 25, BlittableCustomStruct("Vector_NetQuantize10", "UnrealSharp.CoreUObject.Vector"))]
        + [Handler(n + 26, BlittableCustomStruct("Vector_NetQuantize100", "UnrealSharp.CoreUObject.Vector"))]
        + [Handler(n + 27, BlittableCustomStruct("Vector_NetQuantizeNormal", "UnrealSharp.CoreUObject.Vector"))]]
      ensures denyList' == Inclusion.AddStruct(Inclusion.AddStruct(Inclusion.AddStruct(Inclusion.AddStruct(denyList,
        "Vector_NetQuantize"), "Vector_NetQuantize10"), "Vector_NetQuantize100"), "Vector_NetQuantizeNormal")
    {
      denyList' := AddBlittableCustomStructPropertyTranslator("Vector_NetQuantize", "UnrealSharp.CoreUObject.Vector", denyList);
      denyList' := AddBlittableCustomStructPropertyTranslator("Vector_NetQuantize10", "UnrealSharp.CoreUObject.Vector", denyList');
      denyList' := AddBlittableCustomStructPropertyTranslator("Vector_NetQuantize100", "UnrealSharp.CoreUObject.Vector", denyList');
      denyList' := AddBlittableCustomStructPropertyTranslator("Vector_NetQuantizeNormal", "UnrealSharp.CoreUObject.Vector", denyList');
    }

    method RegisterMathStructs(ghost n: nat, denyList: Inclusion.InclusionList) returns (denyList': Inclusion.InclusionList)
      requires Valid() && nextId == n + 28 && StructProperty in translatorMap
      modifies this
      ensures Valid() && nextId == n + 31 && nullHandler == old(nullHandler)
      ensures translatorMap == old(translatorMap)[StructProperty := old(translatorMap)[StructProperty]
        + [Handler(n + 28, BlittableCustomStruct("Vector4f", "System.Numerics.Vector4"))]
        + [Handler(n + 29, BlittableCustomStruct("Quat4f", "System.Numerics.Quaternion"))]
        + [Handler(n + 30, BlittableCustomStruct("Matrix44f", "System.Numerics.Matrix4x4"))]]
      ensures denyList' == Inclusion.AddStruct(Inclusion.AddStruct(Inclusion.AddStruct(denyList, "Vector4f"), "Quat4f"), "Matrix44f")
    {
      denyList' := AddBlittableCustomStructPropertyTranslator("Vector4f", "System.Numerics.Vector4", denyList);
      denyList' := AddBlittableCustomStructPropertyTranslator("Quat4f", "System.Numerics.Quaternion", denyList');
      denyList' := AddBlittableCustomStructPropertyTranslator("Matrix44f", "System.Numerics.Matrix4x4", denyList');
    }

    /** The two engine structs with managed counterparts, then the generic blittable and non-blittable translators. */
    method RegisterEngineAndGenericStructs(ghost n: nat, timerHandleStruct: ObjId, timerHandleName: string,
                                           inputActionValueStruct: ObjId, inputActionValueName: string,
                                           denyList: Inclusion.InclusionList, exportedTypes: set<ObjId>)
      returns (denyList': Inclusion.InclusionList, exportedTypes': set<ObjId>)
      requires Valid() && nextId == n + 31
      modifies this
      ensures Valid() && nextId == n + 35 && nullHandler == old(nullHandler)
      ensures translatorMap == WithEngineAndGenericStructs(old(translatorMap), n, timerHandleName, inputActionValueName)
      ensures denyList' == Inclusion.AddStruct(Inclusion.AddStruct(denyList, timerHandleName), inputActionValueName)
      ensures exportedTypes' == exportedTypes + {timerHandleStruct} + {inputActionValueStruct}
    {
      denyList', exportedTypes' := AddBlittableCustomStructPropertyTranslatorForStruct(
        timerHandleStruct, timerHandleName, TimerHandleManagedName, denyList, exportedTypes);
      denyList', exportedTypes' := AddBlittableCustomStructPropertyTranslatorForStruct(
        inputActionValueStruct, inputActionValueName, InputActionValueManagedName, denyList', exportedTypes');

      AddNewPropertyTranslator(StructProperty, BlittableStructTranslator);
      AddNewPropertyTranslator(StructProperty, StructTranslator);
    }

    /** One multicast translator object shared by the sparse and inline multicast delegate classes. */
    method RegisterMulticastDelegates(ghost n: nat)
      requires Valid() && nextId == n + 35 && RegisteredBelow(translatorMap, 23)
      modifies this
      ensures Valid() && nextId == n + 36 && nullHandler == old(nullHandler) && RegisteredBelow(translatorMap, 25)
      ensures translatorMap == WithMulticastDelegates(old(translatorMap), n)
    {
      var multicast := NewHandler(MulticastDelegateTranslator);
      AddPropertyTranslator(MulticastSparseDelegateProperty, multicast);
      AddPropertyTranslator(MulticastInlineDelegateProperty, multicast);
      var t := old(translatorMap)[MulticastSparseDelegateProperty := [Handler(n + 35, MulticastDelegateTranslator)]];
      RegisteredBelowUpdate(old(translatorMap), 23, 25, MulticastSparseDelegateProperty, [Handler(n + 35, MulticastDelegateTranslator)]);
      RegisteredBelowUpdate(t, 25, 25, MulticastInlineDelegateProperty, [Handler(n + 35, MulticastDelegateTranslator)]);
    }

    method RegisterDelegatesAndInterfaces(ghost n: nat)
      requires Valid() && nextId == n + 36 && RegisteredBelow(translatorMap, 25)
      modifies this
      ensures Valid() && nextId == n + 38 && nullHandler == old(nullHandler) && RegisteredBelow(translatorMap, 27)
      ensures translatorMap == WithDelegatesAndInterfaces(old(translatorMap), n)
    {
      AddNewPropertyTranslator(DelegateProperty, SinglecastDelegateTranslator);

      AddNewPropertyTranslator(InterfaceProperty, InterfaceTranslator);
      var t := old(translatorMap)[DelegateProperty := [Handler(n + 36, SinglecastDelegateTranslator)]];
      RegisteredBelowUpdate(old(translatorMap), 25, 27, DelegateProperty, [Handler(n + 36, SinglecastDelegateTranslator)]);
      RegisteredBelowUpdate(t, 27, 27, InterfaceProperty, [Handler(n + 37, InterfaceTranslator)]);
    }
  }
}
