/** The schema model of OsSqlTypes: Column, Table, Structure and the Parameter constructors.
    A null database name is modelled as the empty string, the two being treated alike
    wherever the name is read. */
module Schema {
  import opened Wrappers
  import opened ColumnTypes
  import opened Values
  import opened Marshal

  /** Table.Column. */
  datatype Column = Column(codeName: string, dbName: string, colType: ColumnType, autoInc: bool)

  const DuplicateColumnMessage: string := "The table already contains a column with this name."

  function DuplicateTableMessage(name: string): string
  {
    "Table \"" + name + "\" already exist in the structure."
  }

  /** Some column already has code name `code` or database name `sql`. */
  predicate Clashes(cols: seq<Column>, code: string, sql: string)
  {
    exists i :: 0 <= i < |cols| && (cols[i].codeName == code || cols[i].dbName == sql)
  }

  /** No two columns share a code name and no two share a database name. */
  predicate DistinctNames(cols: seq<Column>)
  {
    forall i, j :: 0 <= i < j < |cols| ==>
      cols[i].codeName != cols[j].codeName && cols[i].dbName != cols[j].dbName
  }

  /** The columns after one AddColumn call: the column appended last, or the exception. */
  function Added(cols: seq<Column>, c: Column): (r: Result<seq<Column>>)
  {
    if Clashes(cols, c.codeName, c.dbName) then Failure(OsSqlException(DuplicateColumnMessage))
    else Success(cols + [c])
  }

  /** Every add that succeeds keeps the names distinct, and an add fails exactly when the
      new column would break that. */
  lemma AddedKeepsNamesDistinct(cols: seq<Column>, c: Column)
    requires DistinctNames(cols)
    ensures Added(cols, c).Success? ==> DistinctNames(Added(cols, c).value)
    ensures Added(cols, c).Failure? <==>
      exists i :: 0 <= i < |cols| && (cols[i].codeName == c.codeName || cols[i].dbName == c.dbName)
  {
  }

  /** The list a sequence of AddColumn calls leaves, and how it ended: each call that fails
      throws, so the columns added before it stay and those after it are never tried. */
  datatype Appended = Appended(columns: seq<Column>, outcome: Outcome)

  function AppendAll(cols: seq<Column>, news: seq<Column>): Appended
    decreases |news|
  {
    if news == [] then Appended(cols, Pass)
    else
      match Added(cols, news[0])
      case Failure(e) => Appended(cols, Fail(e))
      case Success(more) => AppendAll(more, news[1..])
  }

  /** The list after a run of adds is the old list plus a prefix of the new columns; the run
      fails exactly at the first column that clashes with what was added before it. */
  lemma {:induction false} AppendAllIsPrefix(cols: seq<Column>, news: seq<Column>)
    ensures var r := AppendAll(cols, news);
      exists k :: 0 <= k <= |news| && r.columns == cols + news[..k]
        && (r.outcome.Pass? <==> k == |news|)
        && (r.outcome.Fail? ==> Clashes(r.columns, news[k].codeName, news[k].dbName)
                                && r.outcome.error == OsSqlException(DuplicateColumnMessage))
    decreases |news|
  {
    if news == [] {
      assert cols + news[..0] == cols;
    } else if Clashes(cols, news[0].codeName, news[0].dbName) {
      assert cols + news[..0] == cols;
    } else {
      var more := cols + [news[0]];
      AppendAllIsPrefix(more, news[1..]);
      var k :| 0 <= k <= |news[1..]| && AppendAll(more, news[1..]).columns == more + news[1..][..k]
        && (AppendAll(more, news[1..]).outcome.Pass? <==> k == |news[1..]|)
        && (AppendAll(more, news[1..]).outcome.Fail? ==>
              Clashes(AppendAll(more, news[1..]).columns, news[1..][k].codeName, news[1..][k].dbName)
              && AppendAll(more, news[1..]).outcome.error == OsSqlException(DuplicateColumnMessage));
      assert more + news[1..][..k] == cols + news[..k + 1];
      var r := AppendAll(cols, news);
      assert r == AppendAll(more, news[1..]);
      assert k < |news[1..]| ==> news[1..][k] == news[k + 1];
      assert 0 <= k + 1 <= |news| && r.columns == cols + news[..k + 1];
    }
  }

  /** A run of adds keeps the column names distinct. */
  lemma {:induction false} AppendAllKeepsNamesDistinct(cols: seq<Column>, news: seq<Column>)
    requires DistinctNames(cols)
    ensures DistinctNames(AppendAll(cols, news).columns)
    decreases |news|
  {
    if news != [] && !Clashes(cols, news[0].codeName, news[0].dbName) {
      AddedKeepsNamesDistinct(cols, news[0]);
      AppendAllKeepsNamesDistinct(cols + [news[0]], news[1..]);
    }
  }

  /** The name a lookup compares: the database name, or the code name. */
  function KeyOf(c: Column, byDb: bool): string
  {
    if byDb then c.dbName else c.codeName
  }

  /** The first column whose code name (or, with `byDb`, database name) is `name`. */
  function FirstColumn(cols: seq<Column>, name: string, byDb: bool): (r: Option<Column>)
    ensures r.None? <==> forall i :: 0 <= i < |cols| ==> KeyOf(cols[i], byDb) != name
    ensures r.Some? ==> exists i :: (0 <= i < |cols| && cols[i] == r.value && KeyOf(cols[i], byDb) == name
      && forall j :: 0 <= j < i ==> KeyOf(cols[j], byDb) != name)
  {
    if cols == [] then None
    else if KeyOf(cols[0], byDb) == name then Some(cols[0])
    else
      var r := FirstColumn(cols[1..], name, byDb);
      assert r.Some? ==> exists i :: (1 <= i < |cols| && cols[i] == r.value && KeyOf(cols[i], byDb) == name
        && forall j :: 0 <= j < i ==> KeyOf(cols[j], byDb) != name) by {
        if r.Some? {
          var i :| 0 <= i < |cols| - 1 && cols[1..][i] == r.value && KeyOf(cols[1..][i], byDb) == name
            && forall j :: 0 <= j < i ==> KeyOf(cols[1..][j], byDb) != name;
          assert forall j :: 0 <= j < i + 1 ==> KeyOf(cols[j], byDb) != name by {
            forall j | 0 <= j < i + 1 ensures KeyOf(cols[j], byDb) != name {
              if j > 0 { assert cols[j] == cols[1..][j - 1]; }
            }
          }
        }
      }
      r
  }

  /** A .NET property as the bulk builders see it: its name, its PropertyType and the
      OsSqlSave attribute on it, if any. */
  datatype PropertyInfo = PropertyInfo(name: string, propertyType: NativeType, save: Option<SaveAttribute>)

  /** OsSqlSaveAttribute: the declared column type (None for the constructor without one),
      the database name ("" for the default) and AutoInc. */
  datatype SaveAttribute = SaveAttribute(colType: Option<ColumnType>, dbName: string, autoInc: bool)

  /** The columns AddColumnsByClassProperties adds: one per property, named after it, typed
      from its PropertyType. */
  function PropertyColumns(props: seq<PropertyInfo>): (r: seq<Column>)
    ensures |r| == |props|
    ensures forall i :: 0 <= i < |props| ==> r[i].codeName == r[i].dbName == props[i].name && !r[i].autoInc
  {
    seq(|props|, i requires 0 <= i < |props| =>
      Column(props[i].name, props[i].name, ColumnTypeFromObjectType(props[i].propertyType), false))
  }

  /** prop.GetType(): the reflection object's own type, not the property's type. */
  const RuntimePropertyInfo: NativeType := NativeType("RuntimePropertyInfo", Plain)

  /** The column AddColumnsByAttributes adds for a property carrying the attribute. */
  function AttributeColumn(p: PropertyInfo, a: SaveAttribute): Column
  {
    Column(p.name, if |a.dbName| == 0 then p.name else a.dbName,
           if a.colType.None? then ColumnTypeFromObjectType(RuntimePropertyInfo) else a.colType.value,
           a.autoInc)
  }

  /** The columns AddColumnsByAttributes adds: those of the attributed properties, in order. */
  function AttributeColumns(props: seq<PropertyInfo>): (r: seq<Column>)
    ensures |r| <= |props|
  {
    if props == [] then []
    else
      var rest := AttributeColumns(props[1..]);
      if props[0].save.Some? then [AttributeColumn(props[0], props[0].save.value)] + rest else rest
  }

  /** An attribute without a column type always yields Int, whatever the property's type. */
  lemma {:induction false} AttributeTypeDefaultsToInt(props: seq<PropertyInfo>)
    requires forall i :: 0 <= i < |props| ==> props[i].save.Some? ==> props[i].save.value.colType.None?
    ensures forall c :: c in AttributeColumns(props) ==> c.colType == Int
  {
    if props != [] {
      AttributeTypeDefaultsToInt(props[1..]);
    }
  }

  /** An attribute's database name replaces the property name unless it is empty. */
  lemma AttributeNames(p: PropertyInfo, a: SaveAttribute)
    ensures AttributeColumn(p, a).codeName == p.name
    ensures AttributeColumn(p, a).dbName == (if a.dbName == "" then p.name else a.dbName)
  {
  }

  /** OsSqlTypes.Table. */
  class Table {
    const name: string
    const dbName: string
    var columns: seq<Column>

    /** Table(name, dbname = ""). */
    constructor (name: string, dbName: string)
      ensures this.name == name && this.dbName == dbName && columns == []
    {
      this.name := name;
      this.dbName := dbName;
      columns := [];
    }

    /** Table(name, params columns): the database name is left null. */
    constructor WithColumns(name: string, columns: seq<Column>)
      ensures this.name == name && dbName == "" && this.columns == columns
    {
      this.name := name;
      dbName := "";
      this.columns := columns;
    }

    /** Table.ToString(). */
    function ToString(): string
    {
      if |dbName| == 0 then name else dbName + "." + name
    }

    /** FindD: the first column with this database name, or null. */
    function FindD(sql: string): (r: Option<Column>)
      reads this
      ensures r.Some? ==> r.value in columns && r.value.dbName == sql
      ensures r.None? <==> forall i :: 0 <= i < |columns| ==> columns[i].dbName != sql
      ensures r.Some? ==> exists i :: (0 <= i < |columns| && columns[i] == r.value
        && forall j :: 0 <= j < i ==> columns[j].dbName != sql)
    {
      FirstColumn(columns, sql, true)
    }

    /** FindC: the first column with this code name, or null. */
    function FindC(code: string): (r: Option<Column>)
      reads this
      ensures r.Some? ==> r.value in columns && r.value.codeName == code
      ensures r.None? <==> forall i :: 0 <= i < |columns| ==> columns[i].codeName != code
      ensures r.Some? ==> exists i :: (0 <= i < |columns| && columns[i] == r.value
        && forall j :: 0 <= j < i ==> columns[j].codeName != code)
    {
      FirstColumn(columns, code, false)
    }

    /** AddColumn(type, sql, code, autoInc). */
    method AddColumn(colType: ColumnType, sql: string, code: string, autoInc: bool)
      returns (r: Result<Column>)
      modifies this
      ensures Clashes(old(columns), code, sql) ==>
        r == Failure(OsSqlException(DuplicateColumnMessage)) && columns == old(columns)
      ensures !Clashes(old(columns), code, sql) ==>
        r == Success(Column(code, sql, colType, autoInc)) && columns == old(columns) + [r.value]
    {
      if exists i :: 0 <= i < |columns| && (columns[i].codeName == code || columns[i].dbName == sql) {
        return Failure(OsSqlException(DuplicateColumnMessage));
      }
      var c := Column(code, sql, colType, autoInc);
      columns := columns + [c];
      return Success(c);
    }

    /** AddColumn(type, name, autoInc): the same name in the code and in the database. */
    method AddColumnNamed(colType: ColumnType, name: string, autoInc: bool) returns (r: Result<Column>)
      modifies this
      ensures Clashes(old(columns), name, name) ==>
        r == Failure(OsSqlException(DuplicateColumnMessage)) && columns == old(columns)
      ensures !Clashes(old(columns), name, name) ==>
        r == Success(Column(name, name, colType, autoInc)) && columns == old(columns) + [r.value]
    {
      r := AddColumn(colType, name, name, autoInc);
    }

    /** AddColumn(Column c). */
    method AddColumnInstance(c: Column) returns (r: Outcome)
      modifies this
      ensures Added(old(columns), c).Failure? ==>
        r == Fail(Added(old(columns), c).error) && columns == old(columns)
      ensures Added(old(columns), c).Success? ==> r == Pass && columns == Added(old(columns), c).value
    {
      if exists i :: 0 <= i < |columns| && (columns[i].codeName == c.codeName || columns[i].dbName == c.dbName) {
        return Fail(OsSqlException(DuplicateColumnMessage));
      }
      columns := columns + [c];
      return Pass;
    }

    /** Adds the columns one AddColumn call at a time, stopping at the first that throws. */
    method AddAll(news: seq<Column>) returns (r: Outcome)
      modifies this
      ensures Appended(columns, r) == AppendAll(old(columns), news)
    {
      var i := 0;
      while i < |news|
        invariant 0 <= i <= |news|
        invariant AppendAll(old(columns), news) == AppendAll(columns, news[i..])
      {
        assert news[i..][0] == news[i] && news[i..][1..] == news[i + 1..];
        var added := AddOne(news[i]);
        if added.Fail? {
          return added;
        }
        i := i + 1;
      }
      assert news[i..] == [];
      return Pass;
    }

    /** One step of AddAll: the three-argument AddColumn with the column's own fields. */
    method AddOne(c: Column) returns (r: Outcome)
      modifies this
      ensures Added(old(columns), c).Failure? ==> r == Fail(Added(old(columns), c).error) && columns == old(columns)
      ensures Added(old(columns), c).Success? ==> r == Pass && columns == Added(old(columns), c).value
    {
      var res := AddColumn(c.colType, c.dbName, c.codeName, c.autoInc);
      r := if res.Success? then Pass else Fail(res.error);
    }

    /** AddColumnsByClassProperties: every property becomes a column of the same name. */
    method AddColumnsByClassProperties(props: seq<PropertyInfo>) returns (r: Outcome)
      modifies this
      ensures Appended(columns, r) == AppendAll(old(columns), PropertyColumns(props))
    {
      r := AddAll(PropertyColumns(props));
    }

    /** AddColumnsByAttributes: every property with an OsSqlSave attribute becomes a column. */
    method AddColumnsByAttributes(props: seq<PropertyInfo>) returns (r: Outcome)
      modifies this
      ensures Appended(columns, r) == AppendAll(old(columns), AttributeColumns(props))
    {
      r := AddAll(AttributeColumns(props));
    }
  }

  /** ToString is the bare name exactly when no database name is set, and it always ends
      with the bare name. */
  lemma ToStringQualifies(t: Table)
    ensures t.ToString() == t.name <==> t.dbName == ""
    ensures |t.ToString()| >= |t.name| && t.ToString()[|t.ToString()| - |t.name|..] == t.name
    ensures t.dbName != "" ==> t.ToString()[..|t.dbName| + 1] == t.dbName + "."
  {
    if t.dbName != "" {
      assert |t.ToString()| == |t.dbName| + 1 + |t.name|;
    }
  }

  /** OsSqlTypes.Structure. */
  class Structure {
    const dbName: string
    var tables: seq<Table>

    /** Structure(): no tables, the database name null. */
    constructor ()
      ensures dbName == "" && tables == []
    {
      dbName := "";
      tables := [];
    }

    /** Structure(dbname, params tables). */
    constructor WithTables(dbName: string, tables: seq<Table>)
      ensures this.dbName == dbName && this.tables == tables
    {
      this.dbName := dbName;
      this.tables := tables;
    }

    /** AddTable: a new empty table in this structure's database, appended last, or the
        exception when a table of that name is already present. */
    method AddTable(name: string) returns (r: Result<Table>)
      modifies this
      ensures (exists i :: 0 <= i < |old(tables)| && old(tables)[i].name == name) ==>
        r == Failure(OsSqlException(DuplicateTableMessage(name))) && tables == old(tables)
      ensures (forall i :: 0 <= i < |old(tables)| ==> old(tables)[i].name != name) ==>
        && r.Success? && fresh(r.value)
        && r.value.name == name && r.value.dbName == dbName && r.value.columns == []
        && tables == old(tables) + [r.value]
    {
      if exists i :: 0 <= i < |tables| && tables[i].name == name {
        return Failure(OsSqlException(DuplicateTableMessage(name)));
      }
      var t := new Table(name, dbName);
      tables := tables + [t];
      return Success(t);
    }

    /** GetTable: the first table with this exact name, or null. */
    method GetTable(name: string) returns (r: Option<Table>)
      ensures r.None? <==> forall i :: 0 <= i < |tables| ==> tables[i].name != name
      ensures r.Some? ==> exists i :: (0 <= i < |tables| && tables[i] == r.value && r.value.name == name
        && forall j :: 0 <= j < i ==> tables[j].name != name)
    {
      var i := 0;
      while i < |tables|
        invariant 0 <= i <= |tables|
        invariant forall j :: 0 <= j < i ==> tables[j].name != name
      {
        if tables[i].name == name {
          return Some(tables[i]);
        }
        i := i + 1;
      }
      return None;
    }
  }

  /** OsSqlTypes.Parameter: a key, an already marshalled value, and Func. */
  datatype Parameter = Parameter(key: string, value: Value, func: bool)

  /** The value a Parameter constructor stores: GetObject in save mode. */
  function Marshalled(value: Value, colType: Option<ColumnType>): Result<Value>
  {
    match GetObject(value, colType, true, None)
    case Success(m) => Success(m.value)
    case Failure(e) => Failure(e)
  }

  /** Parameter(string key, object value, bool function): the type inferred from the value. */
  function NewParameter(key: string, value: Value, func: bool): (r: Result<Parameter>)
    ensures r.Success? ==> r.value.key == key && r.value.func == func
    ensures r.Success? <==> GetObject(value, None, true, None).Success?
    ensures r.Success? ==> r.value.value == GetObject(value, None, true, None).value.value
    ensures r.Failure? ==> r.error == GetObject(value, None, true, None).error
  {
    match Marshalled(value, None)
    case Success(v) => Success(Parameter(key, v, func))
    case Failure(e) => Failure(e)
  }

  /** Parameter(Column key, object value, bool function): keyed by the column's DbName and
      marshalled as the column's type. */
  function ColumnParameter(key: Column, value: Value, func: bool): (r: Result<Parameter>)
    ensures r.Success? ==> r.value.key == key.dbName && r.value.func == func
    ensures r.Success? <==> GetObject(value, Some(key.colType), true, None).Success?
    ensures r.Success? ==> r.value.value == GetObject(value, Some(key.colType), true, None).value.value
    ensures r.Failure? ==> r.error == GetObject(value, Some(key.colType), true, None).error
  {
    match Marshalled(value, Some(key.colType))
    case Success(v) => Success(Parameter(key.dbName, v, func))
    case Failure(e) => Failure(e)
  }

  /** Parameter(Table table, string key, object value, bool function): the column is found
      by code name; when there is none the constructor dereferences null. */
  function TableParameter(table: Table, key: string, value: Value, func: bool): (r: Result<Parameter>)
    reads table
    ensures table.FindC(key).None? ==> r == Failure(NullReference)
    ensures table.FindC(key).Some? ==> r == ColumnParameter(table.FindC(key).value, value, func)
  {
    match table.FindC(key)
    case None => Failure(NullReference)
    case Some(c) => ColumnParameter(c, value, func)
  }

  /** A string parameter binds the text with its quotes doubled; a null one binds DBNull. */
  lemma ParameterValues(key: string, s: string, func: bool)
    ensures NewParameter(key, VString(s), func) == Success(Parameter(key, VString(TextValue(s, false)), func))
    ensures NewParameter(key, VNull, func) == Success(Parameter(key, VDbNull, func))
  {
    StringParameter(key, s, func);
    NullParameter(key, func);
  }

  lemma StringParameter(key: string, s: string, func: bool)
    ensures NewParameter(key, VString(s), func) == Success(Parameter(key, VString(TextValue(s, false)), func))
  {
    assert EffectiveType(TypeOf(VString(s)), None) == Text by {
      assert ColumnTypeFromObjectType(NativeType("String", Plain)) == Text;
    }
  }

  lemma NullParameter(key: string, func: bool)
    ensures NewParameter(key, VNull, func) == Success(Parameter(key, VDbNull, func))
  {
  }

  /** Re-marshalling DBNull: its type, DBNull, is inferred as Int, and int.TryParse of its
      empty text fails, so the parameter binds the integer 0. */
  lemma DbNullParameterBindsZero(key: string, func: bool)
    ensures NewParameter(key, VDbNull, func) == Success(Parameter(key, VInt(Int32, 0), func))
  {
    assert ParseInteger("", Int32).None?;
  }
}
