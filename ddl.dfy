/** Builder.GetCreationQuery: the CREATE TABLE script of a list of tables. */
module Ddl {
  import opened Text
  import opened ColumnTypes
  import opened Schema

  /** Environment.NewLine, taken as the Windows line break. */
  const NewLine: string := "\r\n"

  /** The name and columns of a table when the script is built. */
  datatype TableDef = TableDef(name: string, columns: seq<Column>)

  /** The current names and columns of the tables. */
  function Defs(list: seq<Table>): seq<TableDef>
    reads list
  {
    if list == [] then []
    else Defs(list[..|list| - 1]) + [TableDef(list[|list| - 1].name, list[|list| - 1].columns)]
  }

  lemma DefsSnoc(list: seq<Table>, k: nat)
    requires k < |list|
    ensures Defs(list[..k + 1]) == Defs(list[..k]) + [TableDef(list[k].name, list[k].columns)]
  {
    assert list[..k + 1][..k] == list[..k];
  }

  /** The definition of one column: its quoted database name, its keyword, and the
      auto-increment clause when AutoInc is set. */
  function ColumnDDL(c: Column): string
  {
    "`" + c.dbName + "` " + ColTypeSQLTitle(c.colType) + (if c.autoInc then " NOT NULL AUTO_INCREMENT" else "")
  }

  function ColumnDDLs(cols: seq<Column>): seq<string>
  {
    seq(|cols|, i requires 0 <= i < |cols| => ColumnDDL(cols[i]))
  }

  function PrimaryKey(c: Column): string
  {
    "PRIMARY KEY (`" + c.dbName + "`)"
  }

  /** The `toEnd` text: one PRIMARY KEY clause per AutoInc column, with nothing between. */
  function PrimaryKeys(cols: seq<Column>): string
  {
    if cols == [] then ""
    else PrimaryKeys(cols[..|cols| - 1]) + (if cols[|cols| - 1].autoInc then PrimaryKey(cols[|cols| - 1]) else "")
  }

  function Head(name: string): string
  {
    "CREATE TABLE IF NOT EXISTS " + name + " ("
  }

  /** The statement of one table as the loop builds it: the head, each column followed by
      ", ", then either the primary keys or, when there are none, the text with its last two
      characters removed; then ");". */
  function TableDDL(t: TableDef): string
  {
    Close(Head(t.name) + Terminated(", ", ColumnDDLs(t.columns)), PrimaryKeys(t.columns))
  }

  /** The end of a table's statement: the keys, or the last two characters removed; then ");". */
  function Close(open: string, keys: string): string
    requires |open| >= 2
  {
    (if |keys| > 0 then open + keys else open[..|open| - 2]) + ");"
  }

  /** Closing a statement does not touch the script before it. */
  lemma ClosePrefix(q0: string, open: string, keys: string)
    requires |open| >= 2
    ensures Close(q0 + open, keys) == q0 + Close(open, keys)
  {
    assert (q0 + open)[..|q0 + open| - 2] == q0 + open[..|open| - 2];
  }

  /** The statements of all tables, separated by line breaks. */
  function CreationQuery(defs: seq<TableDef>): string
  {
    Join(NewLine, seq(|defs|, i requires 0 <= i < |defs| => TableDDL(defs[i])))
  }

  /** The primary keys are empty exactly when no column is AutoInc. */
  lemma {:induction false} PrimaryKeysEmpty(cols: seq<Column>)
    ensures PrimaryKeys(cols) == "" <==> forall i :: 0 <= i < |cols| ==> !cols[i].autoInc
  {
    if cols != [] {
      var init := cols[..|cols| - 1];
      PrimaryKeysEmpty(init);
      assert forall i :: 0 <= i < |init| ==> init[i] == cols[i];
    }
  }

  /** Without AutoInc columns a table lists its columns joined by ", " and no key. */
  lemma TableWithoutKeys(t: TableDef)
    requires |t.columns| > 0 && forall i :: 0 <= i < |t.columns| ==> !t.columns[i].autoInc
    ensures TableDDL(t) == Head(t.name) + Join(", ", ColumnDDLs(t.columns)) + ");"
  {
    assert PrimaryKeys(t.columns) == "" by { PrimaryKeysEmpty(t.columns); }
    var defs := ColumnDDLs(t.columns);
    var body := Head(t.name) + Join(", ", defs);
    assert Head(t.name) + Terminated(", ", defs) == body + ", " by { TerminatedIsJoinedPlusSep(", ", defs); }
    assert (body + ", ")[..|body + ", "| - 2] == body;
  }

  /** With AutoInc columns the last column keeps its ", " and the keys follow directly. */
  lemma TableWithKeys(t: TableDef, k: nat)
    requires k < |t.columns| && t.columns[k].autoInc
    ensures PrimaryKeys(t.columns) != ""
    ensures TableDDL(t) == Head(t.name) + Join(", ", ColumnDDLs(t.columns)) + ", " + PrimaryKeys(t.columns) + ");"
  {
    var keys := PrimaryKeys(t.columns);
    assert keys != "" by { PrimaryKeysEmpty(t.columns); }
    var defs := ColumnDDLs(t.columns);
    var term := Terminated(", ", defs);
    assert TableDDL(t) == Head(t.name) + term + keys + ");";
    assert term == Join(", ", defs) + ", " by { TerminatedIsJoinedPlusSep(", ", defs); }
    assert Head(t.name) + term + keys + ");" == Head(t.name) + Join(", ", defs) + ", " + keys + ");";
  }

  /** A table without columns loses the " (" of its head. */
  lemma EmptyTable(name: string)
    ensures TableDDL(TableDef(name, [])) == "CREATE TABLE IF NOT EXISTS " + name + ");"
  {
    var h := Head(name);
    assert ColumnDDLs([]) == [];
    assert h[..|h| - 2] == "CREATE TABLE IF NOT EXISTS " + name;
  }

  /** The script of one more table is the script so far, a line break and that table's own
      statement: what one table declares never reaches another. */
  lemma CreationQuerySnoc(defs: seq<TableDef>, d: TableDef)
    ensures CreationQuery(defs + [d]) == if defs == [] then TableDDL(d) else CreationQuery(defs) + NewLine + TableDDL(d)
  {
    var xs := seq(|defs|, i requires 0 <= i < |defs| => TableDDL(defs[i]));
    var ys := seq(|defs + [d]|, i requires 0 <= i < |defs + [d]| => TableDDL((defs + [d])[i]));
    assert ys == xs + [TableDDL(d)];
    if defs != [] {
      JoinSnoc(NewLine, xs, TableDDL(d));
    }
  }

  /** The column list and the keys of a two-column table. */
  lemma TwoColumnParts(c0: Column, c1: Column)
    ensures Join(", ", ColumnDDLs([c0, c1])) == ColumnDDL(c0) + ", " + ColumnDDL(c1)
    ensures PrimaryKeys([c0, c1]) == (if c0.autoInc then PrimaryKey(c0) else "") + (if c1.autoInc then PrimaryKey(c1) else "")
  {
    var d0, d1 := ColumnDDL(c0), ColumnDDL(c1);
    assert ColumnDDLs([c0, c1]) == [d0, d1];
    assert [d0, d1][..1] == [d0];
    var k0 := if c0.autoInc then PrimaryKey(c0) else "";
    assert PrimaryKeys([c0]) == k0 by {
      assert [c0][..0] == [];
      assert PrimaryKeys([c0]) == "" + k0;
    }
    assert [c0, c1][..1] == [c0];
  }

  /** Two AutoInc columns: both keep the auto-increment clause, and their PRIMARY KEY
      clauses follow one another with no separator between them. */
  lemma TwoAutoIncColumns(name: string, c0: Column, c1: Column)
    requires c0.autoInc && c1.autoInc
    ensures TableDDL(TableDef(name, [c0, c1]))
         == Head(name) + (ColumnDDL(c0) + ", " + ColumnDDL(c1)) + ", " + (PrimaryKey(c0) + PrimaryKey(c1)) + ");"
  {
    TwoColumnParts(c0, c1);
    TableWithKeys(TableDef(name, [c0, c1]), 0);
  }

  /** Adding column j to the loop's text and keys. */
  lemma ColumnStep(cols: seq<Column>, j: nat)
    requires j < |cols|
    ensures Terminated(", ", ColumnDDLs(cols[..j + 1])) == Terminated(", ", ColumnDDLs(cols[..j])) + ColumnDDL(cols[j]) + ", "
    ensures PrimaryKeys(cols[..j + 1]) == PrimaryKeys(cols[..j]) + (if cols[j].autoInc then PrimaryKey(cols[j]) else "")
  {
    var xs := ColumnDDLs(cols[..j + 1]);
    assert xs[..|xs| - 1] == ColumnDDLs(cols[..j]);
    assert cols[..j + 1][..j] == cols[..j];
  }

  /** One column in AppendTable's loop. */
  lemma ColumnLoopStep(prefix: string, cols: seq<Column>, j: nat, q: string, toEnd: string)
    requires j < |cols|
    requires q == prefix + Terminated(", ", ColumnDDLs(cols[..j])) && toEnd == PrimaryKeys(cols[..j])
    ensures q + ColumnDDL(cols[j]) + ", " == prefix + Terminated(", ", ColumnDDLs(cols[..j + 1]))
    ensures (if cols[j].autoInc then toEnd + PrimaryKey(cols[j]) else toEnd) == PrimaryKeys(cols[..j + 1])
  {
    ColumnStep(cols, j);
    var before := Terminated(", ", ColumnDDLs(cols[..j]));
    ConcatAssoc(prefix, before, ColumnDDL(cols[j]));
    ConcatAssoc(prefix, before + ColumnDDL(cols[j]), ", ");
  }

  /** The end of AppendTable: the keys, or the last two characters removed; then ");". */
  lemma TableLoopEnd(q0: string, t: TableDef, q: string, toEnd: string)
    requires q == q0 + Head(t.name) + Terminated(", ", ColumnDDLs(t.columns)) && toEnd == PrimaryKeys(t.columns)
    ensures |q| >= 2 && Close(q, toEnd) == q0 + TableDDL(t)
  {
    var h := Head(t.name);
    assert |h| >= 2;
    OpenEnd(q0, h, Terminated(", ", ColumnDDLs(t.columns)), toEnd);
  }

  lemma OpenEnd(q0: string, h: string, body: string, keys: string)
    requires |h| >= 2
    ensures |q0 + h + body| >= 2 && Close(q0 + h + body, keys) == q0 + Close(h + body, keys)
  {
    assert q0 + h + body == q0 + (h + body);
    ClosePrefix(q0, h + body, keys);
  }

  /** One table's statement appended to the script: the loop over its columns, then either
      the primary keys or the removal of the last two characters, then ");". */
  method AppendTable(q0: string, x: Table) returns (q: string)
    ensures q == q0 + TableDDL(TableDef(x.name, x.columns))
  {
    var cols := x.columns;
    var toEnd;
    q, toEnd := AppendColumns(q0 + Head(x.name), cols);
    TableLoopEnd(q0, TableDef(x.name, cols), q, toEnd);
    q := CloseStatement(q, toEnd);
  }

  /** AppendTable's loop over the columns: each column's definition and ", " goes into the
      script, and each auto-increment column's key clause into the text kept for the end. */
  method AppendColumns(prefix: string, cols: seq<Column>) returns (q: string, toEnd: string)
    ensures q == prefix + Terminated(", ", ColumnDDLs(cols))
    ensures toEnd == PrimaryKeys(cols)
  {
    q := prefix;
    toEnd := "";
    assert Terminated(", ", ColumnDDLs(cols[..0])) == "" by { assert ColumnDDLs(cols[..0]) == []; }
    for j := 0 to |cols|
      invariant q == prefix + Terminated(", ", ColumnDDLs(cols[..j]))
      invariant toEnd == PrimaryKeys(cols[..j])
    {
      ColumnLoopStep(prefix, cols, j, q, toEnd);
      q := q + ColumnDDL(cols[j]) + ", ";
      if cols[j].autoInc {
        toEnd := toEnd + PrimaryKey(cols[j]);
      }
    }
    assert cols[..|cols|] == cols;
  }

  /** The end of AppendTable: the keys, or the last two characters removed; then ");". */
  method CloseStatement(open: string, toEnd: string) returns (q: string)
    requires |open| >= 2
    ensures q == Close(open, toEnd)
  {
    q := open;
    if |toEnd| > 0 {
      q := q + toEnd;
    } else {
      q := q[..|q| - 2];
    }
    q := q + ");";
  }

  /** One more table in GetCreationQuery's loop: a line break unless the script is still
      empty, then the table's statement. */
  lemma ScriptStep(list: seq<Table>, k: nat, q: string)
    requires k < |list| && q == CreationQuery(Defs(list[..k])) && (k > 0 ==> |q| > 0)
    ensures var d := TableDef(list[k].name, list[k].columns);
      && q + (if |q| == 0 then "" else NewLine) + TableDDL(d) == CreationQuery(Defs(list[..k + 1]))
      && |q + (if |q| == 0 then "" else NewLine) + TableDDL(d)| > 0
  {
    var d := TableDef(list[k].name, list[k].columns);
    DefsSnoc(list, k);
    CreationQuerySnoc(Defs(list[..k]), d);
    assert |TableDDL(d)| >= 2;
  }

  /** GetCreationQuery(ICollection tables): the statements of the tables, in list order. */
  method GetCreationQuery(list: seq<Table>) returns (q: string)
    ensures q == CreationQuery(Defs(list))
  {
    q := "";
    for k := 0 to |list|
      invariant q == CreationQuery(Defs(list[..k]))
      invariant k > 0 ==> |q| > 0
    {
      ScriptStep(list, k, q);
      q := AppendTable(q + (if |q| == 0 then "" else NewLine), list[k]);
    }
    assert list[..|list|] == list;
  }

  /** GetCreationQuery(Structure): the script of the structure's tables. */
  method StructureCreationQuery(structure: Structure) returns (q: string)
    ensures q == CreationQuery(Defs(structure.tables))
  {
    q := GetCreationQuery(structure.tables);
  }
}
