# OsSql core, modelled in Dafny

OsSql keeps C# objects and MySQL tables in step. A `Structure` holds `Table`s. A
`Table` holds `Column`s, each with a code name, a database name, a column type and
an AutoInc flag. The `Builder` class converts values to and from the form they are
stored in (`GetObject`, `TextValue`, `Timestamp`). It also writes the CREATE TABLE
script. The `SQL` class assembles the SELECT, UPDATE, INSERT, DELETE and
ALTER TABLE texts. It also reconciles declared columns with the columns the server
reports (`UpdateColumns`, `UpdateStructure`). Finally it turns an object's
properties into bound parameters (`ListAllClassValues`, `AutoUpdate`,
`AutoInsert`, `AutoSelect`).

The model follows the code wherever the design description of the library differs
from it:

- `ColumnType` has the 17 members the code declares. There is no `Listed` flag,
  no unsigned type and no TimeSpan.
- Table names in `ToString` and in CREATE TABLE are not quoted. CREATE TABLE uses
  the bare `Name`. It emits one PRIMARY KEY clause per AutoInc column.
- A `Byte` property is inferred as `SmallInt`. A `float` property (type name
  `Single`) is inferred as `Int`.
- `AddColumnsByAttributes` throws on the first colliding column rather than
  skipping it. Without an explicit type it infers `Int`, because it asks the type
  of the reflection object, not the property type.
- Loading an Element column reports `success = false`.
- Every parameter of `ListAllClassValues` is marshalled twice. The second pass is
  the `Parameter(string, object)` constructor. So text is escaped twice, and a
  null property that is not skipped binds the integer 0, not NULL.
- In `Update` and `Insert` the separator is dropped only after the array's last
  element. A last parameter without `Func` therefore leaves a stray separator.

Files, one module each: `wrappers.dfy` (Option, Result, exceptions), `text.dfy`
(.NET string helpers), `column_types.dfy`, `timestamp.dfy`, `values.dfy` (boxed
.NET values, ToString, TryParse, Convert.ToInt32), `marshal.dfy`, `schema.dfy`,
`ddl.dfy`, `statements.dfy`, `sync.dfy`, `reflector.dfy` and `client.dfy`. The
class `Sql` in `client.dfy` appends each command it would send to a log.

Modelling choices:

- `OsSqlDebugger.Error` always throws. It is a `Failure(OsSqlException(message))`
  carrying the code's message text.
- A null dereference is `Failure(NullReference)`.
- A null database name is the empty string.
- `Environment.NewLine` is `"\r\n"`.
- A DateTime is its tick count, read as UTC.
- What `INFORMATION_SCHEMA.COLUMNS` holds is passed in as a map from
  (schema, table name) to column names. `UpdateColumns` reads it twice, as the code
  does. TColumns lists the table's DBName (or, when it is empty, the connection's
  database) under `ToString()`. `IsColumnExists` looks in the connection's database
  under the name the commands use, and also sees the columns the same call has
  already added. For a table without DBName, synchronised under its own name, the
  two reads agree. For a table with a DBName they do not: the listing asks for a
  table literally named `db.name`, so nothing is dropped.
- `Insert` takes the `last_insert_id()` the server would report as an argument. It
  passes through `Convert.ToInt32`, which throws `Overflow` above the int range.
- An enum value carries its underlying integer type. Saving unboxes it as `int`,
  which fails for any other underlying type; loading converts the ordinal to the
  underlying type, wrapping without a check.

## Model

| member | source | states |
|---|---|---|
| `Schema.Structure.constructor` | OsSql/OsSql.cs:183-186 | a new structure has no tables and no database name |
| `Schema.Structure.WithTables` | OsSql/OsSql.cs:192-196 | the structure holds exactly the given tables under the given database name |
| `Schema.Structure.AddTable` | OsSql/OsSql.cs:203-210 | a name already present throws "Table … already exist" and leaves the list unchanged; otherwise a fresh empty table in the structure's database is appended last and returned |
| `Schema.Structure.GetTable` | OsSql/OsSql.cs:216-222 | null exactly when no table has the name; otherwise the first table with that exact name |
| `Schema.Table.constructor` | OsSql/OsSql.cs:356-361 | a new table has the given name and database name and no columns |
| `Schema.Table.WithColumns` | OsSql/OsSql.cs:367-371 | the table holds exactly the given columns, unchecked, and no database name |
| `Schema.Table.AddColumn` | OsSql/OsSql.cs:379-386 | a clash on CodeName or DbName throws and leaves the columns unchanged; otherwise the new column is appended last and returned |
| `Schema.Table.AddColumnNamed` | OsSql/OsSql.cs:393-400 | the same duplicate rule with one name used as both CodeName and DbName |
| `Schema.Table.AddColumnInstance` | OsSql/OsSql.cs:405-410 | the same duplicate rule for a ready-made column, which is appended last |
| `Schema.AddedKeepsNamesDistinct` | OsSql/OsSql.cs:379-410 | an add fails exactly when the new column shares a name with an existing one; a successful add keeps all CodeNames and all DbNames distinct |
| `Schema.AppendAllIsPrefix` | OsSql/OsSql.cs:434-453 | a run of adds leaves the old columns plus a prefix of the new ones; it stops at the first column that clashes, and only there |
| `Schema.AppendAllKeepsNamesDistinct` | OsSql/OsSql.cs:434-453 | a run of adds keeps column names distinct |
| `Schema.Table.AddColumnsByClassProperties` | OsSql/OsSql.cs:434-438 | the columns are those one add per property leaves, each named after its property and typed from its PropertyType |
| `Schema.PropertyColumns` | OsSql/OsSql.cs:436-437 | one column per property, in order, with CodeName = DbName = the property name and no AutoInc |
| `Schema.Table.AddColumnsByAttributes` | OsSql/OsSql.cs:443-453 | the columns are those one add per attributed property leaves |
| `Schema.AttributeNames` | OsSql/OsSql.cs:451 | the column keeps the property name as CodeName; the attribute's DbName replaces it unless empty |
| `Schema.AttributeTypeDefaultsToInt` | OsSql/OsSql.cs:451 | an attribute without a column type always yields Int, whatever the property's type |
| `Schema.Table.FindC` | OsSql/OsSql.cs:425-428 | null exactly when no column has the code name; otherwise the first column that has it |
| `Schema.Table.FindD` | OsSql/OsSql.cs:416-419 | null exactly when no column has the database name; otherwise the first column that has it |
| `Schema.ToStringQualifies` | OsSql/OsSql.cs:458-459 | the text is the bare name exactly when DBName is empty; otherwise it is `DBName.` followed by the name, unquoted |
| `Schema.NewParameter` | OsSql/OsSql.cs:134-139 | the parameter keeps key and Func; it exists exactly when marshalling the value with an inferred type succeeds, and then binds the marshalled value; otherwise the marshaller's exception is passed on |
| `Schema.ColumnParameter` | OsSql/OsSql.cs:146-151 | keyed by the column's DbName; it exists exactly when marshalling as the column's type succeeds, and then binds the marshalled value; otherwise the marshaller's exception is passed on |
| `Schema.TableParameter` | OsSql/OsSql.cs:159-165 | a code name with no column is a null dereference; otherwise it is the column parameter of the first matching column |
| `Schema.ParameterValues` | OsSql/OsSql.cs:134-139 | a string parameter binds the text with quotes doubled; a null one binds DBNull |
| `Schema.DbNullParameterBindsZero` | OsSql/OsSql.cs:137 | re-marshalling DBNull infers Int, fails to parse, and binds 0 |
| `ColumnTypes.ColTypeSQLTitle` | OsSql/OsSql.cs:1178-1191 | the keyword is the MySQL type the column is stored as: INT for Int, Element, Enum and DateTime, MEDIUMTEXT for Object, the upper-cased member name otherwise |
| `ColumnTypes.TitleCollisions` | OsSql/OsSql.cs:1178-1191 | two types share a keyword exactly when equal, or both stored as INT, or both as MEDIUMTEXT |
| `ColumnTypes.ColumnTypeFromObjectType` | OsSql/OsSql.cs:1215-1257 | Enum exactly for enum types; never a Varchar, TinyText, MediumText, LongText, Object or Element; Int exactly for unlisted type names |
| `ColumnTypes.SingleIsNotFloat` | OsSql/OsSql.cs:1249-1251 | a System.Single property is inferred as Int, because the case tests the name "Float" |
| `ColumnTypes.ElementTypesAreClassifiedByName` | OsSql/OsSql.cs:1220-1221 | the IOsSqlElement test on a Type object never fires: an element type is classified by its name |
| `Marshal.EscapeDoublesQuotes` | OsSql/OsSql.cs:1142-1145 | escaping doubles every single quote and keeps every other character in order |
| `Marshal.EscapeChangesIffQuoted` | OsSql/OsSql.cs:1142-1145 | escaping changes a string exactly when it holds a quote |
| `Marshal.TextValueRoundTrip` | OsSql/OsSql.cs:1142-1145 | unescaping undoes escaping for every string |
| `Marshal.EscapeAfterUnescapeDiffers` | OsSql/OsSql.cs:1142-1145 | the converse fails: a lone quote comes back doubled |
| `Marshal.EffectiveType` | OsSql/OsSql.cs:1029-1041 | an IOsSqlElement type forces Element, an enum type forces Enum, otherwise the declared type or, when none, the inferred one |
| `Marshal.GetObject` | OsSql/OsSql.cs:1018-1135 | null gives DBNull with success; a result of well-formed input is well formed; a null result never reports success; only the float, double, decimal and JSON branches are outside the model |
| `Marshal.ArraysAreRefused` | OsSql/OsSql.cs:1027-1028 | an array type gives null with success = false, whatever the declared type |
| `Marshal.RuntimeTypeOverridesDeclared` | OsSql/OsSql.cs:1029-1039 | for an element or enum runtime type the declared column type makes no difference |
| `Marshal.ElementSavesId` | OsSql/OsSql.cs:1061-1065 | saving an IOsSqlElement stores its GetID() with success |
| `Marshal.ElementLoadNeverSucceeds` | OsSql/OsSql.cs:1061-1068 | loading an Element column never reports success |
| `Marshal.IntegerRoundTrip` | OsSql/OsSql.cs:1046-1050 | every value of sbyte, short, int and long saves to its own column type unchanged and loads back unchanged, bounds included |
| `Marshal.ByteIsSavedAsSmallInt` | OsSql/OsSql.cs:1104-1108 | a byte with no declared type is saved as a 16-bit integer |
| `Marshal.UnparsableIntegerIsZero` | OsSql/OsSql.cs:1082-1086 | text that is not an int saves as 0 with success = false |
| `Marshal.BooleanRoundTrip` | OsSql/OsSql.cs:1114-1118 | a boolean saves and loads back unchanged |
| `Marshal.TextRoundTrip` | OsSql/OsSql.cs:1087-1095 | the text kinds escape on save and unescape on load, so a string survives the round trip |
| `Marshal.EnumRoundTrip` | OsSql/OsSql.cs:1069-1076 | an int-backed enum saves as its integer value and loads back through its type as the same enumerator |
| `Marshal.EnumSave` | OsSql/OsSql.cs:1069-1073 | an int-backed enum saves as its ordinal with success, whatever the declared type |
| `Marshal.EnumLoad` | OsSql/OsSql.cs:1069-1075 | an ordinal loads into an enum type as the enumerator of that value converted to the underlying type |
| `Marshal.NonIntEnumSaveFails` | OsSql/OsSql.cs:1072-1073 | saving an enum whose underlying type is not int throws the conversion-failed exception |
| `Values.Wrap` | OsSql/OsSql.cs:1075 | the converted ordinal lies in the underlying type's range and equals the input whenever that fits |
| `Marshal.EnumLoadNeedsEnumType` | OsSql/OsSql.cs:1069-1076 | loading into a type that is not an enum throws |
| `Marshal.DateTimeSaveLoad` | OsSql/OsSql.cs:1119-1126 | a DateTime saves as its Unix seconds and loads back as the DateTime of those seconds |
| `Marshal.UnmodelledBranches` | OsSql/OsSql.cs:1044-1127 | no branch other than float, double, decimal and JSON falls outside the model |
| `Timestamp.TruncDiv` | OsSql/OsSql.cs:1271 | division rounds toward zero: the remainder has the sign of the dividend and is smaller than the divisor |
| `Timestamp.UnixTimeFromDateTime` | OsSql/OsSql.cs:1269-1272 | the result is an Int32; it is the whole seconds since 1970-01-01 UTC, truncated toward zero, whenever those fit |
| `Timestamp.UnixTimeRoundTrip` | OsSql/OsSql.cs:1269-1281 | seconds converted to a DateTime and back are unchanged |
| `Timestamp.DateTimeRoundTrip` | OsSql/OsSql.cs:1269-1281 | a DateTime converted to seconds and back lands on a whole second, less than one second closer to 1970 |
| `Timestamp.DoomsdayExample` | OsSql/OsSql.cs:1269-1281 | 2012-12-21 12:12:12 UTC is 1356091932 and converts back exactly |
| `Ddl.PrimaryKeysEmpty` | OsSql/OsSql.cs:1161-1162 | there are no PRIMARY KEY clauses exactly when no column is AutoInc |
| `Ddl.TableWithoutKeys` | OsSql/OsSql.cs:1156-1168 | without AutoInc columns a table's statement lists its column definitions joined by ", ", with no key |
| `Ddl.TableWithKeys` | OsSql/OsSql.cs:1156-1168 | with an AutoInc column the last definition keeps its ", " and the PRIMARY KEY clauses follow |
| `Ddl.TwoAutoIncColumns` | OsSql/OsSql.cs:1159-1165 | two AutoInc columns both get AUTO_INCREMENT and two PRIMARY KEY clauses with nothing between them |
| `Ddl.EmptyTable` | OsSql/OsSql.cs:1156-1168 | a table without columns loses the " (" of its head |
| `Ddl.CreationQuerySnoc` | OsSql/OsSql.cs:1154-1170 | one more table adds a line break and its own statement: no key clause carries over to the next table |
| `Ddl.GetCreationQuery` | OsSql/OsSql.cs:1151-1172 | the script is every table's statement, in list order, separated by line breaks |
| `Ddl.StructureCreationQuery` | OsSql/OsSql.cs:1197-1200 | the script of the structure's tables |
| `Statements.ConditionIsAppended` | OsSql/OsSql.cs:605-608 | an empty condition adds nothing, any other adds " WHERE " and the condition at the end of SELECT and DELETE |
| `Statements.AutoIncrementSuffix` | OsSql/OsSql.cs:840-843 | ALTER TABLE ADD gets " NOT NULL AUTO_INCREMENT" appended exactly when asked |
| `Statements.BuildUpdate` | OsSql/OsSql.cs:721-729 | an empty array throws "This function requires parameters."; otherwise the UPDATE text |
| `Statements.UpdateSetList` | OsSql/OsSql.cs:725-729 | the SET list assigns exactly the Func keys in array order; it is well formed exactly when the last parameter has Func |
| `Statements.UpdateTrailingSeparator` | OsSql/OsSql.cs:726-729 | a last parameter without Func leaves ", " in front of the WHERE clause |
| `Statements.BuildInsert` | OsSql/OsSql.cs:773-785 | an empty array throws; otherwise the INSERT text followed by `SELECT last_insert_id()` |
| `Statements.InsertLists` | OsSql/OsSql.cs:777-785 | the column list and the VALUES list hold the same Func keys in the same order, both well formed exactly when the last parameter has Func |
| `Statements.SelectedAreFuncKeys` | OsSql/OsSql.cs:726-728 | the listed keys are exactly the keys of the Func parameters |
| `Sync.MissingIsTheDifference` | OsSql/OsSql.cs:870-877 | the added columns are in declaration order, none already found by IsColumnExists, no name twice, and with the found names they cover every declared name |
| `Sync.CoveredAddsNothing` | OsSql/OsSql.cs:870-877 | when IsColumnExists finds every declared name nothing is added |
| `Sync.RerunAddsNothing` | OsSql/OsSql.cs:859-881 | a second run against the synchronised table adds no column |
| `Sync.LeftoverCount` | OsSql/OsSql.cs:870-874 | the names left for DROP are the listed names minus one occurrence per declared DbName |
| `Sync.DeclaredNeverDropped` | OsSql/OsSql.cs:870-880 | on a table whose listed names are distinct, no declared column is dropped |
| `Sync.SyncStatementsShape` | OsSql/OsSql.cs:870-880 | the ADDs come first, one per missing column and never with AUTO_INCREMENT; one DROP per leftover name follows, only when delete is set |
| `Sync.AddsOnlyTheMissingColumn` | OsSql/OsSql.cs:870-880 | declared id, user_name, email against a server holding id, user_name: exactly one statement, the ADD of email |
| `Sync.DropsOnlyWhenAsked` | OsSql/OsSql.cs:870-880 | an undeclared legacy_col on the server is dropped exactly when delete is set |
| `Sync.LeftoverOfEmpty` | OsSql/OsSql.cs:870-874 | an empty TColumns stays empty whatever is declared |
| `Sync.EmptyListingDropsNothing` | OsSql/OsSql.cs:864-880 | when the listing query finds no rows, only ADDs are sent, even with delete set |
| `Client.UnqualifiedQueriesAgree` | OsSql/OsSql.cs:829-830 | for a table without DBName synchronised under its own name, IsColumnExists and the listing read the same rows |
| `Client.QualifiedTableNeverDropped` | OsSql/OsSql.cs:862-880 | for a table with a DBName and no server table literally named `db.name`, UpdateColumns only adds, and what it adds depends on the connection's database alone |
| `Reflector.ListAllClassValues` | OsSql/OsSql.cs:987-1008 | the loop returns the parameter list of the reference definition, or its first exception |
| `Reflector.ClassValuesAreTheChosenColumns` | OsSql/OsSql.cs:993-1006 | the list succeeds exactly when every chosen column marshals; it then has one parameter per column that has a property and is not a skipped null, in column order, keyed by DbName, with Func set |
| `Reflector.FailureStops` | OsSql/OsSql.cs:1002-1003 | after a column throws, later columns do not change the outcome |
| `Reflector.NullPropertyBindsZero` | OsSql/OsSql.cs:1001-1005 | an unskipped null property binds the integer 0 |
| `Reflector.TextPropertyEscapedTwice` | OsSql/OsSql.cs:1001-1005 | a text property is escaped twice |
| `Client.Sql.Update` | OsSql/OsSql.cs:721-731 | an empty array throws and sends nothing; otherwise one UPDATE with every parameter bound, Func or not |
| `Client.Sql.Insert` | OsSql/OsSql.cs:773-791 | an empty array throws and sends nothing; otherwise one INSERT with every parameter bound, returning the server's id, or throwing Overflow when the id does not fit an int |
| `Client.Sql.Select` | OsSql/OsSql.cs:617-620 | one SELECT of the key from the table with the condition |
| `Client.Sql.Delete` | OsSql/OsSql.cs:807-810 | one DELETE with the condition parameters bound |
| `Client.Sql.AddColumn` | OsSql/OsSql.cs:840-843 | one ALTER TABLE ADD |
| `Client.Sql.DropColumn` | OsSql/OsSql.cs:849-852 | one ALTER TABLE DROP |
| `Client.Sql.UpdateColumns` | OsSql/OsSql.cs:859-881 | sends exactly the synchroniser's ADDs then DROPs for the table, under the given name or ToString(): ADDs judged by the rows for that name in the connection's database, DROPs from the rows for ToString() in the table's DBName or the connection's database |
| `Client.Sql.UpdateStructure` | OsSql/OsSql.cs:888-894 | the creation script when asked, then each table's synchronisation in list order under its bare Name, against the server as the script leaves it |
| `Client.AutoUpdateAssigns` | OsSql/OsSql.cs:905-911 | the SET list holds every object key, then the Func keys of the condition parameters |
| `Client.AutoUpdateTrailingSeparator` | OsSql/OsSql.cs:905-911 | a last condition parameter without Func leaves ", " before WHERE |
| `Client.Sql.AutoUpdate` | OsSql/OsSql.cs:905-912 | an exception from the listing is passed on with nothing sent; otherwise Update on the object's parameters, Func forced on, followed by the condition parameters |
| `Client.Sql.AutoInsert` | OsSql/OsSql.cs:921-928 | an exception from the listing is passed on; otherwise Insert on the object's parameters with Func forced on, with Insert's Overflow for an id beyond the int range |
| `Client.Sql.AutoSelect` | OsSql/OsSql.cs:937-940 | one SELECT of the table's DbNames joined by "," |

## Left out

- Connecting and executing are not modelled: `Connect`, `Disconnect`, command
  preparation and execution, the rows `Select` and `Read` return, `Count`, and the
  information_schema queries. Each command is appended to a log instead. The
  server's answers (the information_schema contents, `last_insert_id()`) are parameters.
- `Read` and `Count` are not modelled beyond the SELECT text they share with
  `Select`. They only differ in how the server's answer is read.
- `AutoLoad` is not modelled. It needs a DataTable row and `Activator` to build
  an instance.
- Reflection is replaced by explicit data: a property list with optional
  `OsSqlSave` attributes, and an entity as a map from property name to value.
  Inherited and non-public properties are not distinguished.
- The Float, Double, Decimal and Object (JSON) branches of `GetObject` are not
  modelled. They end in `Failure(Unmodelled(...))`, because they need floating
  point or the Newtonsoft library.
- Time zones are not modelled: `ToUniversalTime`/`ToLocalTime` are left out and
  DateTime ticks are taken as UTC. `TotalSeconds` is exact integer arithmetic, not
  a double.
- `Timestamp.UnixTimeFromDateTime`: outside the Int32 range it gives the x86/x64
  result of the `(int)` cast, 0x80000000; C# leaves that result unspecified.
- `OsSqlDebugger` events and messages are not modelled; only the throw of `Error`
  is kept.
- The `GetCreationQuery(params Table[])` overload is not modelled. It calls
  itself and never returns.
- The `SQL` overloads that take a `Table` and pass `table.ToString()` on are not
  modelled separately.
- Columns are values: the code never changes a column after adding it. A caller
  that later sets `AutoInc` on a returned column is outside this model.
- Integer parsing follows the invariant culture. DateTime text (used only when a
  DateTime is put in a text or integer column) is `MM/dd/yyyy HH:mm:ss`.
- `ColumnTypes.ColTypeSQLTitle` upper-cases with the invariant culture. The code
  calls the culture-sensitive `ToUpper()`, which under a Turkish culture gives
  `TİNYINT` for `TinyInt`.
- `Client.Sql.UpdateColumns` compares column and table names exactly. MySQL
  compares them in information_schema without regard to case on most setups.
- `Client.Sql.UpdateColumns` assumes that a column it has just added is visible to
  the next `IsColumnExists`. That holds when the ALTER TABLE and the lookup name the
  same table. It matters only when two declared columns share a DbName.
- `Client.Sql.UpdateStructure` takes the server as the creation script leaves it.
  The effect of the script on the server is not modelled.
