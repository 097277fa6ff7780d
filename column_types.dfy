/** OsSqlTypes.ColumnType, the runtime types the marshaller inspects, and the two
    Builder functions that map between them and DDL keywords. */
module ColumnTypes {
  import opened Text
  import opened Wrappers

  /** The seventeen members of OsSqlTypes.ColumnType, in declaration order. */
  datatype ColumnType =
    | Int | TinyInt | SmallInt | BigInt
    | Varchar | Text | TinyText | MediumText | LongText
    | Float | Double | Decimal
    | DateTime | Boolean | Enum | Object | Element

  /** ColumnType.ToString(): the member's identifier. */
  function Name(t: ColumnType): string
  {
    match t
    case Int => "Int"
    case TinyInt => "TinyInt"
    case SmallInt => "SmallInt"
    case BigInt => "BigInt"
    case Varchar => "Varchar"
    case Text => "Text"
    case TinyText => "TinyText"
    case MediumText => "MediumText"
    case LongText => "LongText"
    case Float => "Float"
    case Double => "Double"
    case Decimal => "Decimal"
    case DateTime => "DateTime"
    case Boolean => "Boolean"
    case Enum => "Enum"
    case Object => "Object"
    case Element => "Element"
  }

  /** The text kinds: the GetObject branch that escapes on save and unescapes on load. */
  predicate IsTextKind(t: ColumnType)
  {
    t == Varchar || t == Text || t == TinyText || t == MediumText || t == LongText
  }

  /** Builder.ColTypeSQLTitle: the DDL keyword of a column type. */
  function ColTypeSQLTitle(t: ColumnType): (r: string)
    ensures r == Keyword(Storage(t))
  {
    match t
    case Element | Enum | DateTime => "INT"
    case Object => "MEDIUMTEXT"
    case _ => UpperNames(t); Upper(Name(t))
  }

  /** The MySQL column types a table can be declared with. */
  datatype SqlType =
    | INT | TINYINT | SMALLINT | BIGINT | VARCHAR | TEXT | TINYTEXT | MEDIUMTEXT | LONGTEXT
    | FLOAT | DOUBLE | DECIMAL | BOOLEAN

  function Keyword(k: SqlType): string
  {
    match k
    case INT => "INT"
    case TINYINT => "TINYINT"
    case SMALLINT => "SMALLINT"
    case BIGINT => "BIGINT"
    case VARCHAR => "VARCHAR"
    case TEXT => "TEXT"
    case TINYTEXT => "TINYTEXT"
    case MEDIUMTEXT => "MEDIUMTEXT"
    case LONGTEXT => "LONGTEXT"
    case FLOAT => "FLOAT"
    case DOUBLE => "DOUBLE"
    case DECIMAL => "DECIMAL"
    case BOOLEAN => "BOOLEAN"
  }

  /** The physical type a logical column type is stored as. */
  function Storage(t: ColumnType): SqlType
  {
    match t
    case Int | Element | Enum | DateTime => INT
    case TinyInt => TINYINT
    case SmallInt => SMALLINT
    case BigInt => BIGINT
    case Varchar => VARCHAR
    case Text => TEXT
    case TinyText => TINYTEXT
    case MediumText | Object => MEDIUMTEXT
    case LongText => LONGTEXT
    case Float => FLOAT
    case Double => DOUBLE
    case Decimal => DECIMAL
    case Boolean => BOOLEAN
  }

  /** Upper-casing the member names gives the MySQL keywords. */
  lemma UpperNames(t: ColumnType)
    requires !(t.Element? || t.Enum? || t.DateTime? || t.Object?)
    ensures Upper(Name(t)) == Keyword(Storage(t))
  {
    if t.Int? || t.TinyInt? || t.SmallInt? || t.BigInt? {
      UpperIntNames(t);
    } else if IsTextKind(t) {
      UpperTextNames(t);
    } else {
      UpperOtherNames(t);
    }
  }

  lemma UpperIntNames(t: ColumnType)
    requires t.Int? || t.TinyInt? || t.SmallInt? || t.BigInt?
    ensures Upper(Name(t)) == Keyword(Storage(t))
  {
    match t
    case Int => assert Upper("Int") == "INT";
    case TinyInt => assert Upper("TinyInt") == "TINYINT";
    case SmallInt => assert Upper("SmallInt") == "SMALLINT";
    case BigInt => assert Upper("BigInt") == "BIGINT";
  }

  lemma UpperTextNames(t: ColumnType)
    requires IsTextKind(t)
    ensures Upper(Name(t)) == Keyword(Storage(t))
  {
    match t
    case Varchar => assert Upper("Varchar") == "VARCHAR";
    case Text => assert Upper("Text") == "TEXT";
    case TinyText => assert Upper("TinyText") == "TINYTEXT";
    case MediumText => assert Upper("MediumText") == "MEDIUMTEXT";
    case LongText => assert Upper("LongText") == "LONGTEXT";
  }

  lemma UpperOtherNames(t: ColumnType)
    requires t.Float? || t.Double? || t.Decimal? || t.Boolean?
    ensures Upper(Name(t)) == Keyword(Storage(t))
  {
    match t
    case Float => assert Upper("Float") == "FLOAT";
    case Double => assert Upper("Double") == "DOUBLE";
    case Decimal => assert Upper("Decimal") == "DECIMAL";
    case Boolean => assert Upper("Boolean") == "BOOLEAN";
  }

  /** Reads a keyword back: the inverse of Keyword. */
  function FromKeyword(s: string): Option<SqlType>
  {
    match s
    case "INT" => Some(INT)
    case "TINYINT" => Some(TINYINT)
    case "SMALLINT" => Some(SMALLINT)
    case "BIGINT" => Some(BIGINT)
    case "VARCHAR" => Some(VARCHAR)
    case "TEXT" => Some(TEXT)
    case "TINYTEXT" => Some(TINYTEXT)
    case "MEDIUMTEXT" => Some(MEDIUMTEXT)
    case "LONGTEXT" => Some(LONGTEXT)
    case "FLOAT" => Some(FLOAT)
    case "DOUBLE" => Some(DOUBLE)
    case "DECIMAL" => Some(DECIMAL)
    case "BOOLEAN" => Some(BOOLEAN)
    case _ => None
  }

  /** Distinct MySQL types have distinct keywords. */
  lemma KeywordInjective(j: SqlType, k: SqlType)
    ensures Keyword(j) == Keyword(k) <==> j == k
  {
    assert FromKeyword(Keyword(j)) == Some(j);
    assert FromKeyword(Keyword(k)) == Some(k);
  }

  /** Two column types share a DDL keyword exactly when they are equal, or both are stored
      as INT (Int, Element, Enum, DateTime), or both as MEDIUMTEXT (MediumText, Object). */
  lemma TitleCollisions(a: ColumnType, b: ColumnType)
    ensures ColTypeSQLTitle(a) == ColTypeSQLTitle(b) <==>
      (a == b || (StoredAsInt(a) && StoredAsInt(b)) || (StoredAsMediumText(a) && StoredAsMediumText(b)))
  {
    KeywordInjective(Storage(a), Storage(b));
    StorageCollisions(a, b);
  }

  lemma StorageCollisions(a: ColumnType, b: ColumnType)
    ensures Storage(a) == Storage(b) <==>
      (a == b || (StoredAsInt(a) && StoredAsInt(b)) || (StoredAsMediumText(a) && StoredAsMediumText(b)))
  {
    if StoredAsInt(a) {
    } else if StoredAsMediumText(a) {
    } else {
      match a
      case TinyInt =>
      case SmallInt =>
      case BigInt =>
      case Varchar =>
      case Text =>
      case TinyText =>
      case LongText =>
      case Float =>
      case Double =>
      case Decimal =>
      case Boolean =>
    }
  }

  predicate StoredAsInt(t: ColumnType) { t.Int? || t.Element? || t.Enum? || t.DateTime? }

  predicate StoredAsMediumText(t: ColumnType) { t.MediumText? || t.Object? }

  /** The integral types of .NET. */
  datatype IntKind = SByte | Byte | Int16 | UInt16 | Int32 | UInt32 | Int64 | UInt64

  /** How the runtime knows a System.Type: an enum type (with its underlying integral type
      and the names of its defined values), an array type, a type implementing
      IOsSqlElement, or any other type. */
  datatype TypeKind = Plain | EnumType(underlying: IntKind, labels: map<int, string>) | ArrayType | ElementType

  /** A System.Type as the marshaller sees it: its Name and its kind. */
  datatype NativeType = NativeType(name: string, kind: TypeKind)

  /** Builder.ColumnTypeFromObjectType. The `type is IOsSqlElement` test is made on the
      System.Type object itself, which never implements IOsSqlElement, so it is never true
      and has no counterpart here; the switch is on the type's Name. */
  function ColumnTypeFromObjectType(t: NativeType): (r: ColumnType)
    ensures t.kind.EnumType? <==> r == Enum
    ensures r !in {Varchar, TinyText, MediumText, LongText, Object, Element}
    ensures r == Int <==> (!t.kind.EnumType? && t.name !in
      {"SByte", "Byte", "Int16", "Boolean", "Int64", "DateTime", "String", "Double", "Float", "Decimal"})
  {
    if t.kind.EnumType? then Enum
    else
      match t.name
      case "SByte" => TinyInt
      case "Byte" => SmallInt
      case "Int16" => SmallInt
      case "Int32" => Int
      case "Boolean" => Boolean
      case "Int64" => BigInt
      case "DateTime" => DateTime
      case "String" => Text
      case "Double" => Double
      case "Float" => Float
      case "Decimal" => Decimal
      case _ => Int
  }

  /** A `float` property (System.Single) is not recognised as Float: its type name is
      "Single", so it falls to the default, Int. */
  lemma SingleIsNotFloat()
    ensures ColumnTypeFromObjectType(NativeType("Single", Plain)) == Int
  {
  }

  /** An IOsSqlElement type is classified by its name like any other type. */
  lemma ElementTypesAreClassifiedByName(name: string)
    ensures ColumnTypeFromObjectType(NativeType(name, ElementType))
         == ColumnTypeFromObjectType(NativeType(name, Plain))
  {
  }
}
