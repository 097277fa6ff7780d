/** The .NET objects the marshaller receives and returns, with the framework operations it
    applies to them: ToString, GetType, the integer and boolean TryParse methods and
    Convert.ToInt32. */
module Values {
  import opened Text
  import opened Wrappers
  import opened ColumnTypes
  import opened Timestamp

  /** Type.Name of an integral type. */
  function KindName(k: IntKind): string
  {
    match k
    case SByte => "SByte"
    case Byte => "Byte"
    case Int16 => "Int16"
    case UInt16 => "UInt16"
    case Int32 => "Int32"
    case UInt32 => "UInt32"
    case Int64 => "Int64"
    case UInt64 => "UInt64"
  }

  /** MinValue and MaxValue of an integral type. */
  function MinOf(k: IntKind): int
  {
    match k
    case SByte => -0x80
    case Int16 => -0x8000
    case Int32 => -0x8000_0000
    case Int64 => -0x8000_0000_0000_0000
    case _ => 0
  }

  function MaxOf(k: IntKind): int
  {
    match k
    case SByte => 0x7F
    case Byte => 0xFF
    case Int16 => 0x7FFF
    case UInt16 => 0xFFFF
    case Int32 => 0x7FFF_FFFF
    case UInt32 => 0xFFFF_FFFF
    case Int64 => 0x7FFF_FFFF_FFFF_FFFF
    case UInt64 => 0xFFFF_FFFF_FFFF_FFFF
  }

  predicate InRange(n: int, k: IntKind) { MinOf(k) <= n <= MaxOf(k) }

  /** The value of type k with the same low-order bits as n: the unchecked conversion of
      an integer to k. */
  function Wrap(n: int, k: IntKind): (r: int)
    ensures InRange(r, k)
    ensures InRange(n, k) ==> r == n
  {
    var size := MaxOf(k) - MinOf(k) + 1;
    MinOf(k) + (n - MinOf(k)) % size
  }

  /** A boxed .NET value.
      VNull is the null reference and VDbNull is DBNull.Value; VInt is a boxed integer of the
      given width; VDateTime holds UTC ticks; VEnum is an enum value with its type's name, its
      underlying integral type and the names of its defined values; VElement is an object implementing IOsSqlElement whose
      GetID() returns `id`; VArray is any array; VObject is an object of any other type, with
      the text its ToString() returns. */
  datatype Value =
    | VNull
    | VDbNull
    | VInt(kind: IntKind, n: int)
    | VBool(b: bool)
    | VString(s: string)
    | VDateTime(ticks: int)
    | VEnum(enumName: string, underlying: IntKind, labels: map<int, string>, ordinal: int)
    | VElement(typeName: string, id: int)
    | VArray(typeName: string)
    | VObject(typeName: string, text: string)

  /** The values a .NET object of that type can hold. */
  predicate Wf(v: Value)
  {
    match v
    case VInt(k, n) => InRange(n, k)
    case VDateTime(t) => IsTicks(t)
    case VEnum(_, k, _, o) => InRange(o, k)
    case VElement(_, id) => IsInt32(id)
    case _ => true
  }

  /** content.GetType(). (A null reference has no type; the marshaller never asks.) */
  function TypeOf(v: Value): NativeType
  {
    match v
    case VNull => NativeType("Object", Plain)
    case VDbNull => NativeType("DBNull", Plain)
    case VInt(k, _) => NativeType(KindName(k), Plain)
    case VBool(_) => NativeType("Boolean", Plain)
    case VString(_) => NativeType("String", Plain)
    case VDateTime(_) => NativeType("DateTime", Plain)
    case VEnum(name, k, labels, _) => NativeType(name, EnumType(k, labels))
    case VElement(name, _) => NativeType(name, ElementType)
    case VArray(name) => NativeType(name, ArrayType)
    case VObject(name, _) => NativeType(name, Plain)
  }

  /** content.ToString() (and Convert.ToString(content)), in the invariant culture. */
  function ToText(v: Value): string
  {
    match v
    case VNull => ""
    case VDbNull => ""
    case VInt(_, n) => IntText(n)
    case VBool(b) => if b then "True" else "False"
    case VString(s) => s
    case VDateTime(t) => if IsTicks(t) then DateTimeText(t) else ""
    case VEnum(_, _, labels, o) => if o in labels then labels[o] else IntText(o)
    case VElement(name, _) => name
    case VArray(name) => name
    case VObject(_, text) => text
  }

  /** The sign and digits of an integer literal, white space already removed. */
  function SignedDigits(t: string): Option<int>
  {
    if t == [] then None
    else
      var neg := t[0] == '-';
      var digits := if t[0] == '-' || t[0] == '+' then t[1..] else t;
      if digits == [] || !AllDigits(digits) then None
      else
        var n: int := if neg then 0 - DigitsValue(digits) else DigitsValue(digits);
        Some(n)
  }

  /** TryParse of an integral type with NumberStyles.Integer: optional white space at both
      ends, an optional sign, decimal digits, and a value within the type's range. */
  function ParseInteger(s: string, k: IntKind): (r: Option<int>)
    ensures r.Some? ==> InRange(r.value, k)
  {
    var p := SignedDigits(Trim(s));
    if p.Some? && InRange(p.value, k) then p else None
  }

  /** An integer's text parses back to the integer, for every value of the type. */
  lemma ParseIntegerRoundTrip(n: int, k: IntKind)
    requires InRange(n, k)
    ensures ParseInteger(IntText(n), k) == Some(n)
  {
    var s := IntText(n);
    if n < 0 {
      NatTextRoundTrip(-n);
      assert s[1..] == NatText(-n);
    } else {
      NatTextRoundTrip(n);
    }
    TrimKeepsUnpadded(s);
  }

  function LowerChar(c: char): char
  {
    if 'A' <= c <= 'Z' then (c as int + 32) as char else c
  }

  /** Ordinal comparison ignoring the case of ASCII letters. */
  predicate EqualsIgnoreCase(a: string, b: string)
  {
    |a| == |b| && forall i :: 0 <= i < |a| ==> LowerChar(a[i]) == LowerChar(b[i])
  }

  /** bool.TryParse: "True" or "False" in any letter case, with white space at both ends. */
  function ParseBoolean(s: string): (r: Option<bool>)
  {
    var t := Trim(s);
    if EqualsIgnoreCase(t, "True") then Some(true)
    else if EqualsIgnoreCase(t, "False") then Some(false)
    else None
  }

  lemma ParseBooleanRoundTrip(b: bool)
    ensures ParseBoolean(ToText(VBool(b))) == Some(b)
  {
    if b {
      assert Trim("True") == "True";
    } else {
      assert Trim("False") == "False";
      assert !EqualsIgnoreCase("False", "True");
    }
  }

  /** Convert.ToInt32(content): None where it throws (an InvalidCastException, a
      FormatException or an OverflowException). */
  function ToInt32(v: Value): (r: Option<int>)
    ensures r.Some? ==> IsInt32(r.value)
  {
    match v
    case VNull => Some(0)
    case VInt(_, n) => if IsInt32(n) then Some(n) else None
    case VBool(b) => Some(if b then 1 else 0)
    case VString(s) => ParseInteger(s, Int32)
    case VEnum(_, _, _, o) => if IsInt32(o) then Some(o) else None
    case _ => None
  }
}
