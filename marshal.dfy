/** The value marshaller of the Builder class: TextValue and GetObject. */
module Marshal {
  import opened Text
  import opened Wrappers
  import opened ColumnTypes
  import opened Timestamp
  import opened Values

  /** string.Replace: every occurrence of `pat`, scanning left to right without overlaps,
      replaced by `rep`. */
  function Replace(s: string, pat: string, rep: string): string
    requires |pat| > 0
    decreases |s|
  {
    if |s| < |pat| then s
    else if s[..|pat|] == pat then rep + Replace(s[|pat|..], pat, rep)
    else [s[0]] + Replace(s[1..], pat, rep)
  }

  /** Builder.TextValue: doubles every single quote, or with `reverse` turns every pair of
      single quotes back into one. */
  function TextValue(value: string, reverse: bool): string
  {
    if !reverse then Replace(value, "'", "''") else Replace(value, "''", "'")
  }

  /** The number of single quotes in s. */
  function Quotes(s: string): nat
  {
    if s == [] then 0 else (if s[0] == '\'' then 1 else 0) + Quotes(s[1..])
  }

  /** s without its single quotes. */
  function Unquoted(s: string): string
  {
    if s == [] then [] else (if s[0] == '\'' then [] else [s[0]]) + Unquoted(s[1..])
  }

  lemma QuotesAppend(a: string, b: string)
    ensures Quotes(a + b) == Quotes(a) + Quotes(b)
    ensures Unquoted(a + b) == Unquoted(a) + Unquoted(b)
  {
    QuoteCountAppend(a, b);
    UnquotedAppend(a, b);
  }

  lemma {:induction false} QuoteCountAppend(a: string, b: string)
    ensures Quotes(a + b) == Quotes(a) + Quotes(b)
  {
    if a != [] {
      QuoteCountAppend(a[1..], b);
      assert (a + b)[0] == a[0] && (a + b)[1..] == a[1..] + b;
    } else {
      assert a + b == b;
    }
  }

  lemma {:induction false} UnquotedAppend(a: string, b: string)
    ensures Unquoted(a + b) == Unquoted(a) + Unquoted(b)
  {
    if a != [] {
      UnquotedAppend(a[1..], b);
      assert (a + b)[0] == a[0] && (a + b)[1..] == a[1..] + b;
      var head := if a[0] == '\'' then [] else [a[0]];
      assert Unquoted(a + b) == head + (Unquoted(a[1..]) + Unquoted(b));
      assert Unquoted(a) == head + Unquoted(a[1..]);
    } else {
      assert a + b == b;
    }
  }

  /** Escaping doubles every quote and keeps every other character, in order. */
  lemma {:induction false} EscapeDoublesQuotes(s: string)
    ensures Quotes(TextValue(s, false)) == 2 * Quotes(s)
    ensures Unquoted(TextValue(s, false)) == Unquoted(s)
    ensures |TextValue(s, false)| == |s| + Quotes(s)
    decreases |s|
  {
    if |s| > 0 {
      EscapeDoublesQuotes(s[1..]);
      var rest := TextValue(s[1..], false);
      if s[..1] == "'" {
        assert TextValue(s, false) == "''" + rest;
        QuotesAppend("''", rest);
      } else {
        assert TextValue(s, false) == [s[0]] + rest;
        QuotesAppend([s[0]], rest);
      }
    }
  }

  /** Escaping changes a string exactly when it holds a quote. */
  lemma EscapeChangesIffQuoted(s: string)
    ensures TextValue(s, false) == s <==> Quotes(s) == 0
  {
    EscapeDoublesQuotes(s);
  }

  /** Unescaping undoes escaping, for every string. */
  lemma {:induction false} TextValueRoundTrip(s: string)
    ensures TextValue(TextValue(s, false), true) == s
    decreases |s|
  {
    if |s| > 0 {
      TextValueRoundTrip(s[1..]);
      var rest := TextValue(s[1..], false);
      if s[0] == '\'' {
        assert s[..1] == "'";
        var e := "''" + rest;
        assert TextValue(s, false) == e;
        assert e[..2] == "''" && e[2..] == rest;
      } else {
        assert s[..1] != "'";
        var e := [s[0]] + rest;
        assert TextValue(s, false) == e;
        if |e| >= 2 {
          assert e[..2][0] == s[0];
          assert e[..2] != "''";
          assert e[1..] == rest;
        } else {
          EscapeDoublesQuotes(s[1..]);
          assert s == [s[0]];
        }
      }
    }
  }

  /** Escaping does not undo unescaping: a lone quote comes back doubled. */
  lemma EscapeAfterUnescapeDiffers()
    ensures TextValue(TextValue("'", true), false) == "''"
  {
  }

  /** What GetObject returns: the converted value and its `success` out-parameter. */
  datatype Marshalled = Marshalled(value: Value, success: bool)

  /** The type GetObject inspects: the property type `pt` when given, else content.GetType(). */
  function RuntimeType(content: Value, pt: Option<NativeType>): NativeType
  {
    if pt.Some? then pt.value else TypeOf(content)
  }

  /** The column type GetObject converts by: an IOsSqlElement or enum type overrides the
      declared type, and a missing declared type is inferred from the runtime type. */
  function EffectiveType(t: NativeType, declared: Option<ColumnType>): (r: ColumnType)
    ensures t.kind.ElementType? ==> r == Element
    ensures t.kind.EnumType? ==> r == Enum
    ensures !t.kind.ElementType? && !t.kind.EnumType? && declared.Some? ==> r == declared.value
    ensures !t.kind.ElementType? && !t.kind.EnumType? && declared.None? ==> r == ColumnTypeFromObjectType(t)
  {
    if t.kind.ElementType? then Element
    else if t.kind.EnumType? then Enum
    else if declared.None? then ColumnTypeFromObjectType(t)
    else declared.value
  }

  function NullElementMessage(t: NativeType): string
  {
    "Variable type \"" + t.name + "\" passed as a null value."
  }

  function ConversionFailedMessage(t: NativeType): string
  {
    "Variable type \"" + t.name
    + "\" conversion failed. It's either not supported by OsSql or passed as null or invalid value."
  }

  /** The branches of the switch that read floating-point values or JSON. */
  predicate IsUnmodelledKind(ty: ColumnType)
  {
    ty.Float? || ty.Double? || ty.Decimal? || ty.Object?
  }

  /** A result of one branch of the switch: a well-formed value, or the caught exception. */
  predicate Converted(content: Value, r: Result<Marshalled>)
  {
    && (Wf(content) && r.Success? ==> Wf(r.value.value))
    && (r.Success? ==> !r.value.value.VNull?)
    && (r.Failure? ==> r.error.OsSqlException?)
  }

  /** The TryParse branches: the parsed value, or 0 with success = false. */
  function ParsedInteger(content: Value, k: IntKind): (r: Result<Marshalled>)
    ensures Converted(content, r)
  {
    var p := ParseInteger(ToText(content), k);
    Success(Marshalled(VInt(k, p.GetOr(0)), p.Some?))
  }

  /** The Element branch: GetID() on save, Convert.ToInt32 with success = false on load. */
  function ElementBranch(content: Value, save: bool, t: NativeType): (r: Result<Marshalled>)
    ensures Converted(content, r)
  {
    if save then
      (if content.VElement? then Success(Marshalled(VInt(Int32, content.id), true))
       else Failure(OsSqlException(ConversionFailedMessage(t))))
    else
      match ToInt32(content)
      case Some(n) => Success(Marshalled(VInt(Int32, n), false))
      case None => Failure(OsSqlException(ConversionFailedMessage(t)))
  }

  /** The Enum branch: the `(int)` unboxing on save, which only an int-backed enum or a
      boxed int survives; Enum.ToObject on load, which converts the int to the enum's
      underlying type without an overflow check. */
  function EnumBranch(content: Value, save: bool, t: NativeType): (r: Result<Marshalled>)
    ensures Converted(content, r)
  {
    if save then
      if content.VEnum? && content.underlying == Int32 then
        Success(Marshalled(VInt(Int32, content.ordinal), true))
      else if content.VInt? && content.kind == Int32 then
        Success(Marshalled(content, true))
      else Failure(OsSqlException(ConversionFailedMessage(t)))
    else
      match ToInt32(content)
      case Some(n) =>
        if t.kind.EnumType? then
          Success(Marshalled(VEnum(t.name, t.kind.underlying, t.kind.labels, Wrap(n, t.kind.underlying)), true))
        else Failure(OsSqlException(ConversionFailedMessage(t)))
      case None => Failure(OsSqlException(ConversionFailedMessage(t)))
  }

  /** The DateTime branch: Unix seconds on save, a DateTime from Unix seconds on load. */
  function DateTimeBranch(content: Value, save: bool, t: NativeType): (r: Result<Marshalled>)
    ensures Converted(content, r)
  {
    if save then
      (if content.VDateTime? then Success(Marshalled(VInt(Int32, UnixTimeFromDateTime(content.ticks)), true))
       else Failure(OsSqlException(ConversionFailedMessage(t))))
    else
      match ToInt32(content)
      case Some(n) => Success(Marshalled(VDateTime(DateTimeFromUnixTime(n)), true))
      case None => Failure(OsSqlException(ConversionFailedMessage(t)))
  }

  /** The `switch (type)` of GetObject, with the `catch` turned into a failure. */
  function Convert(content: Value, ty: ColumnType, save: bool, t: NativeType): (r: Result<Marshalled>)
    ensures Wf(content) && r.Success? ==> Wf(r.value.value)
    ensures r.Success? ==> !r.value.value.VNull?
    ensures r.Failure? && r.error.Unmodelled? ==> IsUnmodelledKind(ty)
    ensures r.Failure? ==> r.error.OsSqlException? || r.error.Unmodelled?
  {
    match ty
    case BigInt => ParsedInteger(content, Int64)
    case Int => ParsedInteger(content, Int32)
    case SmallInt => ParsedInteger(content, Int16)
    case TinyInt => ParsedInteger(content, SByte)
    case Decimal | Double | Float | Object => Failure(Unmodelled(Name(ty)))
    case Element => ElementBranch(content, save, t)
    case Enum => EnumBranch(content, save, t)
    case Varchar | Text | TinyText | MediumText | LongText =>
      Success(Marshalled(VString(TextValue(ToText(content), !save)), true))
    case Boolean =>
      var p := ParseBoolean(ToText(content));
      Success(Marshalled(VBool(p.GetOr(false)), p.Some?))
    case DateTime => DateTimeBranch(content, save, t)
  }

  /** Builder.GetObject(content, type, save, out success, pt): converts a value to the form
      it is stored in (`save`) or back (`!save`). A failure is the exception it throws. */
  function GetObject(content: Value, declared: Option<ColumnType>, save: bool, pt: Option<NativeType>)
    : (r: Result<Marshalled>)
    ensures content.VNull? ==> r == Success(Marshalled(VDbNull, true))
    ensures Wf(content) && r.Success? ==> Wf(r.value.value)
    ensures r.Success? && r.value.value.VNull? ==> !r.value.success
    ensures r.Failure? && r.error.Unmodelled? ==> IsUnmodelledKind(EffectiveType(RuntimeType(content, pt), declared))
    ensures r.Failure? ==> r.error.OsSqlException? || r.error.Unmodelled?
  {
    if content.VNull? then Success(Marshalled(VDbNull, true))
    else
      var t := RuntimeType(content, pt);
      if t.kind.ArrayType? then Success(Marshalled(VNull, false))
      else if t.kind.ElementType? && save && !content.VElement? then
        Failure(OsSqlException(NullElementMessage(t)))
      else Convert(content, EffectiveType(t, declared), save, t)
  }

  /** An array type is refused: null with success = false, whatever the declared type. */
  lemma ArraysAreRefused(content: Value, declared: Option<ColumnType>, save: bool, pt: Option<NativeType>)
    requires !content.VNull? && RuntimeType(content, pt).kind.ArrayType?
    ensures GetObject(content, declared, save, pt) == Success(Marshalled(VNull, false))
  {
  }

  /** For an IOsSqlElement or enum runtime type the declared column type is ignored. */
  lemma RuntimeTypeOverridesDeclared(content: Value, d1: Option<ColumnType>, d2: Option<ColumnType>,
                                     save: bool, pt: Option<NativeType>)
    requires RuntimeType(content, pt).kind.ElementType? || RuntimeType(content, pt).kind.EnumType?
    ensures GetObject(content, d1, save, pt) == GetObject(content, d2, save, pt)
  {
  }

  /** Loading an Element column never reports success, even when it returns the id. */
  lemma ElementLoadNeverSucceeds(content: Value, declared: Option<ColumnType>, pt: Option<NativeType>)
    requires !content.VNull? && EffectiveType(RuntimeType(content, pt), declared) == Element
    ensures var r := GetObject(content, declared, false, pt);
      r.Success? ==> !r.value.success
  {
  }

  /** Saving an IOsSqlElement stores its GetID(). */
  lemma ElementSavesId(name: string, id: int, declared: Option<ColumnType>)
    ensures GetObject(VElement(name, id), declared, true, None) == Success(Marshalled(VInt(Int32, id), true))
  {
    var t := RuntimeType(VElement(name, id), None);
    assert t.kind.ElementType?;
    assert Convert(VElement(name, id), Element, true, t) == Success(Marshalled(VInt(Int32, id), true));
  }

  /** The column type a .NET integral type is stored as, for the four signed widths. */
  function SignedColumn(k: IntKind): ColumnType
    requires k in {SByte, Int16, Int32, Int64}
  {
    match k
    case SByte => TinyInt
    case Int16 => SmallInt
    case Int32 => Int
    case Int64 => BigInt
  }

  /** A signed integer saved to and loaded from its own column type comes back unchanged,
      for every value of the type (the boundaries included). */
  lemma IntegerRoundTrip(k: IntKind, n: int)
    requires k in {SByte, Int16, Int32, Int64} && InRange(n, k)
    ensures GetObject(VInt(k, n), Some(SignedColumn(k)), true, None)
         == Success(Marshalled(VInt(k, n), true))
    ensures GetObject(VInt(k, n), Some(SignedColumn(k)), false, Some(TypeOf(VInt(k, n))))
         == Success(Marshalled(VInt(k, n), true))
  {
    ParseIntegerRoundTrip(n, k);
  }

  /** With no declared type, a byte is inferred as SmallInt and saved as a 16-bit value. */
  lemma ByteIsSavedAsSmallInt(n: int)
    requires InRange(n, Byte)
    ensures GetObject(VInt(Byte, n), None, true, None) == Success(Marshalled(VInt(Int16, n), true))
  {
    ParseIntegerRoundTrip(n, Int16);
  }

  /** A value whose text is not a number saves as 0 with success = false in a numeric column. */
  lemma UnparsableIntegerIsZero(content: Value)
    requires !content.VNull? && !RuntimeType(content, None).kind.ArrayType?
    requires !RuntimeType(content, None).kind.ElementType? && !RuntimeType(content, None).kind.EnumType?
    requires ParseInteger(ToText(content), Int32).None?
    ensures GetObject(content, Some(Int), true, None) == Success(Marshalled(VInt(Int32, 0), false))
  {
  }

  /** A boolean saved to and loaded from a Boolean column comes back unchanged. */
  lemma BooleanRoundTrip(b: bool)
    ensures GetObject(VBool(b), Some(Boolean), true, None) == Success(Marshalled(VBool(b), true))
    ensures GetObject(VBool(b), Some(Boolean), false, Some(TypeOf(VBool(b))))
         == Success(Marshalled(VBool(b), true))
  {
    BooleanSave(b);
    BooleanLoad(b);
  }

  lemma BooleanSave(b: bool)
    ensures GetObject(VBool(b), Some(Boolean), true, None) == Success(Marshalled(VBool(b), true))
  {
    var t := RuntimeType(VBool(b), None);
    assert EffectiveType(t, Some(Boolean)) == Boolean;
    ParseBooleanRoundTrip(b);
    assert Convert(VBool(b), Boolean, true, t) == Success(Marshalled(VBool(b), true));
  }

  lemma BooleanLoad(b: bool)
    ensures GetObject(VBool(b), Some(Boolean), false, Some(TypeOf(VBool(b))))
         == Success(Marshalled(VBool(b), true))
  {
    var t := TypeOf(VBool(b));
    assert EffectiveType(t, Some(Boolean)) == Boolean;
    ParseBooleanRoundTrip(b);
    assert Convert(VBool(b), Boolean, false, t) == Success(Marshalled(VBool(b), true));
  }

  /** Text kinds escape on save and unescape on load, so a string survives the round trip. */
  lemma TextRoundTrip(s: string, ty: ColumnType)
    requires IsTextKind(ty)
    ensures GetObject(VString(s), Some(ty), true, None) == Success(Marshalled(VString(TextValue(s, false)), true))
    ensures GetObject(VString(TextValue(s, false)), Some(ty), false, Some(TypeOf(VString(s))))
         == Success(Marshalled(VString(s), true))
  {
    TextValueRoundTrip(s);
  }

  /** An int-backed enum value is saved as its ordinal and loaded back through its enum
      type. */
  lemma EnumRoundTrip(name: string, labels: map<int, string>, o: int, declared: Option<ColumnType>)
    requires IsInt32(o)
    ensures GetObject(VEnum(name, Int32, labels, o), declared, true, None) == Success(Marshalled(VInt(Int32, o), true))
    ensures GetObject(VInt(Int32, o), declared, false, Some(NativeType(name, EnumType(Int32, labels))))
         == Success(Marshalled(VEnum(name, Int32, labels, o), true))
  {
    EnumSave(name, labels, o, declared);
    EnumLoad(name, Int32, labels, o, declared);
  }

  lemma EnumSave(name: string, labels: map<int, string>, o: int, declared: Option<ColumnType>)
    ensures GetObject(VEnum(name, Int32, labels, o), declared, true, None) == Success(Marshalled(VInt(Int32, o), true))
  {
    var v := VEnum(name, Int32, labels, o);
    var t := RuntimeType(v, None);
    assert t == NativeType(name, EnumType(Int32, labels));
    assert EffectiveType(t, declared) == Enum;
    assert GetObject(v, declared, true, None) == EnumBranch(v, true, t);
  }

  /** Loading an ordinal into an enum type gives the enumerator with that value, converted
      to the enum's underlying type. */
  lemma EnumLoad(name: string, k: IntKind, labels: map<int, string>, o: int, declared: Option<ColumnType>)
    requires IsInt32(o)
    ensures GetObject(VInt(Int32, o), declared, false, Some(NativeType(name, EnumType(k, labels))))
         == Success(Marshalled(VEnum(name, k, labels, Wrap(o, k)), true))
  {
    assert ToInt32(VInt(Int32, o)) == Some(o);
  }

  /** Saving an enum whose underlying type is not int throws: `(int)` cannot unbox it. */
  lemma NonIntEnumSaveFails(name: string, k: IntKind, labels: map<int, string>, o: int, declared: Option<ColumnType>)
    requires k != Int32
    ensures GetObject(VEnum(name, k, labels, o), declared, true, None)
         == Failure(OsSqlException(ConversionFailedMessage(NativeType(name, EnumType(k, labels)))))
  {
    var v := VEnum(name, k, labels, o);
    var t := RuntimeType(v, None);
    assert t == NativeType(name, EnumType(k, labels));
    assert EffectiveType(t, declared) == Enum;
    assert GetObject(v, declared, true, None) == EnumBranch(v, true, t);
  }

  /** Loading an enum ordinal into a type that is not an enum throws. */
  lemma EnumLoadNeedsEnumType(content: Value, pt: NativeType)
    requires !content.VNull? && pt.kind.Plain?
    ensures GetObject(content, Some(Enum), false, Some(pt)).Failure?
  {
  }

  /** A DateTime is saved as its Unix seconds and loads back without its sub-second part. */
  lemma DateTimeSaveLoad(ticks: int)
    requires IsTicks(ticks) && IsInt32(UnixSeconds(ticks))
    ensures GetObject(VDateTime(ticks), Some(DateTime), true, None)
         == Success(Marshalled(VInt(Int32, UnixSeconds(ticks)), true))
    ensures GetObject(VInt(Int32, UnixSeconds(ticks)), Some(DateTime), false, Some(TypeOf(VDateTime(ticks))))
         == Success(Marshalled(VDateTime(DateTimeFromUnixTime(UnixSeconds(ticks))), true))
  {
  }

  /** Only the floating-point and JSON branches are outside the model. */
  lemma UnmodelledBranches(content: Value, declared: Option<ColumnType>, save: bool, pt: Option<NativeType>)
    requires !content.VNull? && !RuntimeType(content, pt).kind.ArrayType?
    requires !IsUnmodelledKind(EffectiveType(RuntimeType(content, pt), declared))
    ensures !(GetObject(content, declared, save, pt).Failure?
              && GetObject(content, declared, save, pt).error.Unmodelled?)
  {
  }
}
