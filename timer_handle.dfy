/**
 * The managed TimerHandle value type: a blittable wrapper around one unsigned 64-bit handle.
 * The handle is only ever set by the constructor, so the type is modelled as an immutable value.
 */
module TimerHandles {

  type UInt64 = x: int | 0 <= x < 0x1_0000_0000_0000_0000

  /** Number of bits of the handle that hold the timer index, and of those that hold the serial number. */
  const IndexBits: nat := 24
  const SerialNumberBits: nat := 40

  /** `1 << (int)IndexBits` evaluated in C#'s 32-bit int (the shift count is taken modulo 32). */
  const MaxIndex: int := Int32Of((1 as bv32) << (IndexBits % 32))

  /** `1UL << (int)SerialNumberBits` evaluated in C#'s 64-bit ulong (the shift count is taken modulo 64). */
  const MaxSerialNumber: UInt64 := ((1 as bv64) << (SerialNumberBits % 64)) as int

  /** The signed value of a 32-bit pattern, as C#'s `(int)` cast reads it. */
  function Int32Of(b: bv32): (r: int)
    ensures -0x8000_0000 <= r < 0x8000_0000
    ensures b as int < 0x8000_0000 ==> r == b as int
  {
    if b as int < 0x8000_0000 then b as int else b as int - 0x1_0000_0000
  }

  datatype TimerHandle = TimerHandle(handle: UInt64)

  /** The parameterless constructor: `Handle = 0`. */
  function Default(): TimerHandle {
    TimerHandle(0)
  }

  function IsValid(t: TimerHandle): bool {
    t.handle != 0
  }

  /** `operator ==`. */
  function Equal(left: TimerHandle, right: TimerHandle): bool {
    left.handle == right.handle
  }

  /** `operator !=`. */
  function NotEqual(left: TimerHandle, right: TimerHandle): bool {
    left.handle != right.handle
  }

  /** What `Equals(object)` may be handed: a boxed TimerHandle, an object of another type, or null. */
  datatype Boxed = BoxedTimerHandle(value: TimerHandle) | OtherObject(typeName: string) | NullObject

  /** `Equals(object obj)`: true only for a boxed TimerHandle carrying the same handle. */
  function Equals(t: TimerHandle, obj: Boxed): bool {
    match obj
    case BoxedTimerHandle(other) => t.handle == other.handle
    case _ => false
  }

  /** `Handle.GetHashCode()`: the runtime's UInt64 hash, the low 32 bits xor the high 32 bits, read as an int. */
  function GetHashCode(t: TimerHandle): (r: int)
    ensures -0x8000_0000 <= r < 0x8000_0000
  {
    var h := t.handle as bv64;
    Int32Of(((h ^ (h >> 32)) & 0xFFFF_FFFF) as bv32)
  }

  /** `Handle.ToString()`: the decimal digits of the handle. */
  function ToString(t: TimerHandle): string {
    DecimalDigits(t.handle)
  }

  function DigitChar(d: nat): char
    requires d < 10
  {
    ('0' as int + d) as char
  }

  function DigitValue(c: char): int {
    c as int - '0' as int
  }

  predicate IsDigit(c: char) {
    '0' <= c <= '9'
  }

  /** Decimal rendering without leading zeros ("0" for zero). */
  function DecimalDigits(n: nat): (s: string)
    ensures |s| > 0
    ensures forall i :: 0 <= i < |s| ==> IsDigit(s[i])
    ensures |s| > 1 ==> s[0] != '0'
  {
    if n < 10 then [DigitChar(n)] else DecimalDigits(n / 10) + [DigitChar(n % 10)]
  }

  /** Reading a string of decimal digits back as a number. */
  function ParseDecimal(s: string): int {
    if s == [] then 0 else ParseDecimal(s[..|s| - 1]) * 10 + DigitValue(s[|s| - 1])
  }

  lemma {:induction false} ParseDecimalDigits(n: nat)
    ensures ParseDecimal(DecimalDigits(n)) == n
  {
    if n >= 10 {
      var s := DecimalDigits(n);
      assert s[..|s| - 1] == DecimalDigits(n / 10);
      ParseDecimalDigits(n / 10);
    }
  }

  /** ToString is injective: distinct handles print differently. */
  lemma ToStringInjective(a: TimerHandle, b: TimerHandle)
    ensures ToString(a) == ToString(b) <==> a == b
  {
    ParseDecimalDigits(a.handle);
    ParseDecimalDigits(b.handle);
  }

  /** The bit widths: 24 index bits and 40 serial-number bits fill the 64-bit handle exactly. */
  lemma ConstantWidths()
    ensures IndexBits + SerialNumberBits == 64
    ensures MaxIndex == 0x100_0000
    ensures MaxSerialNumber == 0x100_0000_0000
  {
  }

  /** A default-constructed handle holds 0 and is not valid. */
  lemma DefaultIsInvalid()
    ensures Default().handle == 0
    ensures !IsValid(Default())
  {
  }

  lemma ValidIffNonZero(t: TimerHandle)
    ensures IsValid(t) <==> t.handle != 0
  {
  }

  /** `==` compares handles, and is therefore an equivalence relation. */
  lemma EqualIsEquivalence()
    ensures forall a: TimerHandle, b: TimerHandle :: Equal(a, b) <==> a.handle == b.handle
    ensures forall a: TimerHandle :: Equal(a, a)
    ensures forall a: TimerHandle, b: TimerHandle :: Equal(a, b) ==> Equal(b, a)
    ensures forall a: TimerHandle, b: TimerHandle, c: TimerHandle :: Equal(a, b) && Equal(b, c) ==> Equal(a, c)
  {
  }

  /** `!=` is exactly the negation of `==`. */
  lemma NotEqualIsNegation(a: TimerHandle, b: TimerHandle)
    ensures NotEqual(a, b) == !Equal(a, b)
  {
  }

  /** `Equals(object)` agrees with `==` on boxed handles and is false for anything else. */
  lemma EqualsObject(t: TimerHandle, obj: Boxed)
    ensures obj.BoxedTimerHandle? ==> (Equals(t, obj) <==> Equal(t, obj.value))
    ensures !obj.BoxedTimerHandle? ==> !Equals(t, obj)
  {
  }

  /** Handles that are equal under `==` (or under Equals) hash alike. */
  lemma HashConsistent(a: TimerHandle, b: TimerHandle)
    ensures Equal(a, b) ==> GetHashCode(a) == GetHashCode(b)
    ensures Equals(a, BoxedTimerHandle(b)) ==> GetHashCode(a) == GetHashCode(b)
  {
  }
}
