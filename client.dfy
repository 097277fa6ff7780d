/** The SQL class: every command it would send is appended to a log instead of being
    executed, and what the server reports back is passed in as a parameter. */
module Client {
  import opened Wrappers
  import opened Text
  import opened ColumnTypes
  import opened Schema
  import opened Ddl
  import opened Statements
  import opened Sync
  import opened Reflector
  import Timestamp

  /** The table name the commands use: the given name, or ToString() when it is empty. */
  function TargetName(table: Table, name: string): string
  {
    if |name| == 0 then table.ToString() else name
  }

  /** What INFORMATION_SCHEMA.COLUMNS holds: the column names of each table, in order,
      keyed by (TABLE_SCHEMA, TABLE_NAME). */
  type Server = map<(string, string), seq<string>>

  /** The COLUMN_NAME values of the rows for one schema and table name; none when the
      server has no such table. */
  function ColumnsOf(server: Server, schema: string, name: string): (r: seq<string>)
    ensures (schema, name) !in server ==> r == []
    ensures (schema, name) in server ==> r == server[(schema, name)]
  {
    if (schema, name) in server then server[(schema, name)] else []
  }

  /** TColumns: UpdateColumns' listing query looks in the table's DBName, or the connection's
      database when it is empty, for a table named ToString(). */
  function ListedColumns(server: Server, database: string, t: Table): seq<string>
  {
    ColumnsOf(server, if |t.dbName| == 0 then database else t.dbName, t.ToString())
  }

  /** IsColumnExists(TName, ...) looks in the connection's database for a table named TName. */
  function ExistingColumns(server: Server, database: string, tname: string): seq<string>
  {
    ColumnsOf(server, database, tname)
  }

  /** For a table without a DBName whose commands use its own name, the two queries UpdateColumns
      makes read the same rows. */
  lemma UnqualifiedQueriesAgree(server: Server, database: string, t: Table, sqlname: string)
    requires t.dbName == "" && (sqlname == "" || sqlname == t.name)
    ensures ExistingColumns(server, database, TargetName(t, sqlname)) == ListedColumns(server, database, t)
  {
    ToStringQualifies(t);
  }

  /** For a table with a DBName, the listing asks that schema for a table named "db.name":
      unless the server has such a table, UpdateColumns drops nothing, even with delete set,
      and what it adds is decided by the connection database alone. */
  lemma QualifiedTableNeverDropped(server: Server, database: string, t: Table, sqlname: string,
                                   delete: bool)
    requires t.dbName != "" && (t.dbName, t.dbName + "." + t.name) !in server
    ensures var target := TargetName(t, sqlname);
      SyncStatements(target, t.columns, ExistingColumns(server, database, target),
                     ListedColumns(server, database, t), delete)
      == AddStatements(target, Missing(t.columns, ExistingColumns(server, database, target)))
  {
    var target := TargetName(t, sqlname);
    assert ListedColumns(server, database, t) == [];
    EmptyListingDropsNothing(target, t.columns, ExistingColumns(server, database, target), delete);
  }

  /** What UpdateColumns is called with for one table of UpdateStructure: the name the
      commands use, the declared columns, what IsColumnExists sees and the listing. */
  datatype SyncJob = SyncJob(target: string, columns: seq<Column>, existing: seq<string>, listing: seq<string>)

  function Jobs(tables: seq<Table>, server: Server, database: string): seq<SyncJob>
    reads tables
  {
    seq(|tables|, k reads tables requires 0 <= k < |tables| =>
      var target := TargetName(tables[k], tables[k].name);
      SyncJob(target, tables[k].columns, ExistingColumns(server, database, target),
              ListedColumns(server, database, tables[k])))
  }

  /** What UpdateStructure sends after the creation script: each table's ADDs and DROPs,
      table after table. */
  function SyncAll(jobs: seq<SyncJob>, delete: bool): seq<Statement>
  {
    if jobs == [] then []
    else
      var j := jobs[|jobs| - 1];
      SyncAll(jobs[..|jobs| - 1], delete) + SyncStatements(j.target, j.columns, j.existing, j.listing, delete)
  }

  lemma SyncAllSnoc(jobs: seq<SyncJob>, delete: bool, k: nat)
    requires k < |jobs|
    ensures SyncAll(jobs[..k + 1], delete)
         == SyncAll(jobs[..k], delete) + SyncStatements(jobs[k].target, jobs[k].columns, jobs[k].existing, jobs[k].listing, delete)
  {
    assert jobs[..k + 1][..k] == jobs[..k];
  }

  /** `uplist.ForEach(i => i.Func = true)`. */
  function WithFunc(ps: seq<Parameter>): (r: seq<Parameter>)
  {
    seq(|ps|, i requires 0 <= i < |ps| => ps[i].(func := true))
  }

  function Keys(ps: seq<Parameter>): seq<string>
  {
    seq(|ps|, i requires 0 <= i < |ps| => ps[i].key)
  }

  lemma {:induction false} SelectedAppend(ps: seq<Parameter>, qs: seq<Parameter>)
    ensures Selected(ps + qs) == Selected(ps) + Selected(qs)
    decreases |qs|
  {
    if qs != [] {
      var init := qs[..|qs| - 1];
      var q := qs[|qs| - 1];
      SelectedAppend(ps, init);
      assert (ps + qs)[..|ps + qs| - 1] == ps + init;
      assert Selected(qs) == Selected(init) + (if q.func then [q.key] else []) by {
        assert qs[..|qs| - 1] == init;
      }
    } else {
      assert ps + qs == ps;
    }
  }

  lemma {:induction false} SelectedWithFunc(ps: seq<Parameter>)
    ensures Selected(WithFunc(ps)) == Keys(ps)
  {
    if ps != [] {
      var init := ps[..|ps| - 1];
      SelectedWithFunc(init);
      assert WithFunc(ps)[..|ps| - 1] == WithFunc(init);
      assert Keys(ps) == Keys(init) + [ps[|ps| - 1].key];
    }
  }

  /** AutoUpdate's SET list: every parameter of the object, then every condition parameter
      that has Func set (Func defaults to true in the Parameter constructors). */
  lemma AutoUpdateAssigns(ps: seq<Parameter>, conditionparams: seq<Parameter>)
    ensures Selected(WithFunc(ps) + conditionparams) == Keys(ps) + Selected(conditionparams)
  {
    SelectedAppend(WithFunc(ps), conditionparams);
    SelectedWithFunc(ps);
  }

  /** With an object parameter and a last condition parameter without Func, the UPDATE
      carries ", " in front of its WHERE clause. */
  lemma AutoUpdateTrailingSeparator(table: string, condition: string, ps: seq<Parameter>, cps: seq<Parameter>)
    requires |ps| > 0 && |cps| > 0 && !cps[|cps| - 1].func
    ensures var all := WithFunc(ps) + cps;
      UpdateText(table, condition, all)
      == UpdateHead(table) + Join(", ", Pieces(Assignment, Keys(ps) + Selected(cps))) + ", " + Condition(condition)
  {
    var all := WithFunc(ps) + cps;
    AutoUpdateAssigns(ps, cps);
    assert all[|all| - 1] == cps[|cps| - 1];
    assert Keys(ps)[0] == ps[0].key;
    UpdateTrailingSeparator(table, condition, all);
  }

  class Sql {
    /** ConnectionDetails.Database. */
    const database: string
    /** The commands sent to the server, oldest first. */
    var log: seq<Statement>

    constructor (database: string)
      ensures this.database == database && log == []
    {
      this.database := database;
      log := [];
    }

    /** Query: one command with every parameter bound. */
    method Query(query: string, ps: seq<Parameter>)
      modifies this
      ensures log == old(log) + [Statement(query, ps)]
    {
      log := log + [Statement(query, ps)];
    }

    /** Select(table, condition, key, conditionparams); the rows it reads back are not
        part of this model. */
    method Select(table: string, condition: string, key: string, conditionparams: seq<Parameter>)
      modifies this
      ensures log == old(log) + [Statement(SelectText(table, condition, key), conditionparams)]
    {
      log := log + [Statement(SelectText(table, condition, key), conditionparams)];
    }

    /** Update(table, condition, parameters): every parameter is bound, Func or not. */
    method Update(table: string, condition: string, ps: seq<Parameter>) returns (r: Outcome)
      modifies this
      ensures |ps| == 0 ==> r == Fail(OsSqlException(RequiresParameters)) && log == old(log)
      ensures |ps| > 0 ==> r == Pass && log == old(log) + [Statement(UpdateText(table, condition, ps), ps)]
    {
      var text := BuildUpdate(table, condition, ps);
      if text.Failure? {
        return Fail(text.error);
      }
      Query(text.value, ps);
      return Pass;
    }

    /** Insert(table, parameters): every parameter is bound; the result is the server's
        last_insert_id(), given here as `lastInsertId`, passed through Convert.ToInt32, which
        throws when the id does not fit an int (the statement has run by then). */
    method Insert(table: string, ps: seq<Parameter>, lastInsertId: nat) returns (r: Result<int>)
      modifies this
      ensures |ps| == 0 ==> r == Failure(OsSqlException(RequiresParameters)) && log == old(log)
      ensures |ps| > 0 ==> log == old(log) + [Statement(InsertText(table, ps), ps)]
      ensures |ps| > 0 ==> r == (if Timestamp.IsInt32(lastInsertId) then Success(lastInsertId) else Failure(Overflow))
    {
      var text := BuildInsert(table, ps);
      if text.Failure? {
        return Failure(text.error);
      }
      log := log + [Statement(text.value, ps)];
      if !Timestamp.IsInt32(lastInsertId) {
        return Failure(Overflow);
      }
      return Success(lastInsertId);
    }

    /** Delete(table, condition, conditionparams). */
    method Delete(table: string, condition: string, conditionparams: seq<Parameter>)
      modifies this
      ensures log == old(log) + [Statement(DeleteText(table, condition), conditionparams)]
    {
      Query(DeleteText(table, condition), conditionparams);
    }

    /** AddColumn(table, type, column, ai). */
    method AddColumn(table: string, colType: ColumnType, column: string, ai: bool)
      modifies this
      ensures log == old(log) + [Statement(AddColumnText(table, colType, column, ai), [])]
    {
      Query(AddColumnText(table, colType, column, ai), []);
    }

    /** DropColumn(table, column). */
    method DropColumn(table: string, column: string)
      modifies this
      ensures log == old(log) + [Statement(DropColumnText(table, column), [])]
    {
      Query(DropColumnText(table, column), []);
    }

    /** UpdateColumns(table, sqlname, delete), with `server` what INFORMATION_SCHEMA.COLUMNS
        holds when it is called. TColumns is the listing query's result; IsColumnExists sees
        the rows for TName in the connection's database and the columns this call has added
        so far. */
    method UpdateColumns(table: Table, sqlname: string, delete: bool, server: Server)
      modifies this
      ensures var target := TargetName(table, sqlname);
        log == old(log) + SyncStatements(target, table.columns, ExistingColumns(server, database, target),
                                         ListedColumns(server, database, table), delete)
    {
      var tname := if |sqlname| == 0 then table.ToString() else sqlname;
      var schema := if |table.dbName| == 0 then database else table.dbName;
      var listing := ColumnsOf(server, schema, table.ToString());
      var existing := ColumnsOf(server, database, tname);
      ghost var start := log;
      var rest := AddMissing(tname, table.columns, existing, listing);
      ghost var added := AddStatements(tname, Missing(table.columns, existing));
      if delete && |rest| > 0 {
        DropAll(tname, rest);
        assert start + added + DropStatements(tname, rest) == start + (added + DropStatements(tname, rest));
      } else {
        assert DropStatements(tname, rest) == [] || !delete;
        assert added + [] == added;
      }
    }

    /** UpdateColumns' loop over the declared columns: each one's name is taken out of
        TColumns, and the column is added when IsColumnExists does not find it. Returns
        TColumns as the loop leaves it. */
    method AddMissing(tname: string, cols: seq<Column>, existing: seq<string>, listing: seq<string>)
      returns (rest: seq<string>)
      modifies this
      ensures rest == Leftover(cols, listing)
      ensures log == old(log) + AddStatements(tname, Missing(cols, existing))
    {
      rest := listing;
      var onServer := existing;
      ghost var m: seq<Column> := [];
      for i := 0 to |cols|
        invariant m == Missing(cols[..i], existing)
        invariant rest == Leftover(cols[..i], listing)
        invariant onServer == existing + DbNames(m)
        invariant log == old(log) + AddStatements(tname, m)
      {
        SyncStep(cols, existing, listing, i);
        ghost var before := log;
        ghost var added := cols[i].dbName !in onServer;
        rest, onServer := SyncColumn(tname, cols[i], rest, onServer);
        if added {
          AddStatementsSnoc(tname, m, cols[i]);
          ConcatAssoc(old(log), AddStatements(tname, m), [AddStatement(tname, cols[i])]);
          m := m + [cols[i]];
        }
      }
      assert cols[..|cols|] == cols;
    }

    /** One pass of UpdateColumns' loop: the column's name is taken out of TColumns, and
        the column is added when IsColumnExists does not find it among the names the server
        now holds. */
    method SyncColumn(tname: string, c: Column, rest: seq<string>, onServer: seq<string>)
      returns (rest': seq<string>, onServer': seq<string>)
      modifies this
      ensures rest' == RemoveFirst(rest, c.dbName)
      ensures c.dbName in onServer ==> onServer' == onServer && log == old(log)
      ensures c.dbName !in onServer ==>
        onServer' == onServer + [c.dbName] && log == old(log) + [AddStatement(tname, c)]
    {
      rest' := rest;
      var index := IndexOf(rest, c.dbName);
      if index != -1 {
        rest' := rest[..index] + rest[index + 1..];
      }
      onServer' := onServer;
      if c.dbName !in onServer {
        AddColumn(tname, c.colType, c.dbName, false);
        onServer' := onServer + [c.dbName];
      }
    }

    /** UpdateColumns' final loop: one DropColumn per name. */
    method DropAll(tname: string, names: seq<string>)
      modifies this
      ensures log == old(log) + DropStatements(tname, names)
    {
      for j := 0 to |names|
        invariant log == old(log) + DropStatements(tname, names[..j])
      {
        assert names[..j + 1] == names[..j] + [names[j]];
        DropStatementsSnoc(tname, names[..j], names[j]);
        DropColumn(tname, names[j]);
      }
      assert names[..|names|] == names;
    }

    /** UpdateStructure(structure, updateTables, delete): the creation script when asked,
        then UpdateColumns for every table under its own Name. `server` is what
        INFORMATION_SCHEMA.COLUMNS holds once the creation script has run. */
    method UpdateStructure(structure: Structure, updateTables: bool, delete: bool, server: Server)
      modifies this
      ensures log == old(log)
        + (if updateTables then [Statement(old(CreationQuery(Defs(structure.tables))), [])] else [])
        + SyncAll(old(Jobs(structure.tables, server, database)), delete)
    {
      var tables := structure.tables;
      ghost var jobs := Jobs(tables, server, database);
      ghost var creation := CreationQuery(Defs(tables));
      ghost var start := log;
      if updateTables {
        var script := StructureCreationQuery(structure);
        Query(script, []);
      }
      assert Jobs(tables, server, database) == jobs;
      UpdateTables(tables, delete, server);
      if !updateTables {
        assert start + [] == start;
      }
      assert log == start + (if updateTables then [Statement(creation, [])] else []) + SyncAll(jobs, delete);
    }

    /** The loop of UpdateStructure over its tables. */
    method UpdateTables(tables: seq<Table>, delete: bool, server: Server)
      modifies this
      ensures log == old(log) + SyncAll(old(Jobs(tables, server, database)), delete)
    {
      ghost var jobs := Jobs(tables, server, database);
      for k := 0 to |tables|
        invariant log == old(log) + SyncAll(jobs[..k], delete)
      {
        var t := tables[k];
        ghost var before := log;
        ghost var step := SyncStatements(jobs[k].target, jobs[k].columns, jobs[k].existing, jobs[k].listing, delete);
        assert jobs[k] == SyncJob(TargetName(t, t.name), t.columns, ExistingColumns(server, database, TargetName(t, t.name)),
                                  ListedColumns(server, database, t));
        UpdateColumns(t, t.name, delete, server);
        assert log == before + step;
        SyncAllSnoc(jobs, delete, k);
        ConcatAssoc(old(log), SyncAll(jobs[..k], delete), step);
      }
      assert jobs[..|tables|] == jobs;
    }

    /** AutoUpdate(classPointer, table, condition, name, skipnull, conditionparams). */
    method AutoUpdate(obj: Entity, table: Table, condition: string, name: string, skipnull: bool,
                      conditionparams: seq<Parameter>) returns (r: Outcome)
      modifies this
      ensures ClassValues(obj, table.columns, skipnull).Failure? ==>
        r == Fail(ClassValues(obj, table.columns, skipnull).error) && log == old(log)
      ensures ClassValues(obj, table.columns, skipnull).Success? ==>
        var all := WithFunc(ClassValues(obj, table.columns, skipnull).value) + conditionparams;
        && (|all| == 0 ==> r == Fail(OsSqlException(RequiresParameters)) && log == old(log))
        && (|all| > 0 ==> r == Pass && log == old(log) + [Statement(UpdateText(TargetName(table, name), condition, all), all)])
    {
      var t := if |name| == 0 then table.ToString() else name;
      var listed := ListAllClassValues(obj, table, skipnull);
      if listed.Failure? {
        return Fail(listed.error);
      }
      var uplist := WithFunc(listed.value);
      uplist := uplist + conditionparams;
      r := Update(t, condition, uplist);
    }

    /** AutoInsert(classPointer, table, name, skipnull); `lastInsertId` is what the server
        reports. */
    method AutoInsert(obj: Entity, table: Table, name: string, skipnull: bool, lastInsertId: nat)
      returns (r: Result<int>)
      modifies this
      ensures ClassValues(obj, table.columns, skipnull).Failure? ==>
        r == Failure(ClassValues(obj, table.columns, skipnull).error) && log == old(log)
      ensures ClassValues(obj, table.columns, skipnull).Success? ==>
        var all := WithFunc(ClassValues(obj, table.columns, skipnull).value);
        && (|all| == 0 ==> r == Failure(OsSqlException(RequiresParameters)) && log == old(log))
        && (|all| > 0 ==> log == old(log) + [Statement(InsertText(TargetName(table, name), all), all)])
        && (|all| > 0 ==> r == (if Timestamp.IsInt32(lastInsertId) then Success(lastInsertId) else Failure(Overflow)))
    {
      var t := if |name| == 0 then table.ToString() else name;
      var listed := ListAllClassValues(obj, table, skipnull);
      if listed.Failure? {
        return Failure(listed.error);
      }
      var arr := WithFunc(listed.value);
      r := Insert(t, arr, lastInsertId);
    }

    /** AutoSelect(table, condition, name, conditionparams): the table's database names,
        joined by ",", as the selected key. */
    method AutoSelect(table: Table, condition: string, name: string, conditionparams: seq<Parameter>)
      modifies this
      ensures log == old(log)
        + [Statement(SelectText(TargetName(table, name), condition, Join(",", DbNames(table.columns))), conditionparams)]
    {
      Select(if |name| == 0 then table.ToString() else name, condition, Join(",", DbNames(table.columns)), conditionparams);
    }
  }
}
