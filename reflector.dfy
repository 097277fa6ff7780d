/** Builder.ListAllClassValues: the parameters of an object's mapped properties, in the
    order of the table's columns. */
module Reflector {
  import opened Wrappers
  import opened ColumnTypes
  import opened Values
  import Marshal
  import opened Schema

  const InvalidObjectMessage: string :=
    "Invalid object type. If you've tried to use your own class, please implement the IOsSqlElement interface."

  /** An object as reflection sees it: the value of each public property, by name. A
      column whose CodeName names no property is absent from the map. */
  type Entity = map<string, Value>

  /** Whether the loop turns column c into a parameter: the object has the property, and
      its value is not a null that `skipnull` skips. */
  predicate Chosen(obj: Entity, c: Column, skipnull: bool)
  {
    c.codeName in obj && !(skipnull && obj[c.codeName].VNull?)
  }

  /** The parameter added for a chosen column: the value marshalled as the column's type,
      refused when that yields null or success = false, then passed to
      Parameter(DbName, value), which marshals it once more. */
  function ColumnValue(obj: Entity, c: Column): Result<Parameter>
    requires c.codeName in obj
  {
    match Marshal.GetObject(obj[c.codeName], Some(c.colType), true, None)
    case Failure(e) => Failure(e)
    case Success(m) =>
      if m.value.VNull? || !m.success then Failure(OsSqlException(InvalidObjectMessage))
      else NewParameter(c.dbName, m.value, true)
  }

  /** The columns the loop turns into parameters, in order. */
  function ChosenColumns(obj: Entity, cols: seq<Column>, skipnull: bool): (r: seq<Column>)
    ensures forall i :: 0 <= i < |r| ==> Chosen(obj, r[i], skipnull)
  {
    if cols == [] then []
    else
      var c := cols[|cols| - 1];
      ChosenColumns(obj, cols[..|cols| - 1], skipnull) + (if Chosen(obj, c, skipnull) then [c] else [])
  }

  /** What ListAllClassValues returns for the columns, or the first exception it raises. */
  function ClassValues(obj: Entity, cols: seq<Column>, skipnull: bool): Result<seq<Parameter>>
  {
    if cols == [] then Success([])
    else
      var c := cols[|cols| - 1];
      match ClassValues(obj, cols[..|cols| - 1], skipnull)
      case Failure(e) => Failure(e)
      case Success(ps) =>
        if !Chosen(obj, c, skipnull) then Success(ps)
        else
          match ColumnValue(obj, c)
          case Failure(e) => Failure(e)
          case Success(p) => Success(ps + [p])
  }

  lemma ClassValuesSnoc(obj: Entity, cols: seq<Column>, skipnull: bool, i: nat)
    requires i < |cols|
    ensures var c := cols[i];
      ClassValues(obj, cols[..i + 1], skipnull)
      == match ClassValues(obj, cols[..i], skipnull)
         case Failure(e) => Failure(e)
         case Success(ps) =>
           if !Chosen(obj, c, skipnull) then Success(ps)
           else
             match ColumnValue(obj, c)
             case Failure(e) => Failure(e)
             case Success(p) => Success(ps + [p])
  {
    assert cols[..i + 1][..i] == cols[..i];
  }

  /** Once a column has thrown, the later columns do not change the outcome. */
  lemma {:induction false} FailureStops(obj: Entity, cols: seq<Column>, skipnull: bool, i: nat)
    requires i <= |cols| && ClassValues(obj, cols[..i], skipnull).Failure?
    ensures ClassValues(obj, cols, skipnull) == ClassValues(obj, cols[..i], skipnull)
    decreases |cols| - i
  {
    if i < |cols| {
      ClassValuesSnoc(obj, cols, skipnull, i);
      FailureStops(obj, cols, skipnull, i + 1);
    } else {
      assert cols[..i] == cols;
    }
  }

  /** Builder.ListAllClassValues. The `name` argument only sets a local that is never
      read, so it has no counterpart here. */
  method ListAllClassValues(obj: Entity, table: Table, skipnull: bool) returns (r: Result<seq<Parameter>>)
    ensures r == ClassValues(obj, table.columns, skipnull)
  {
    var cols := table.columns;
    var ret: seq<Parameter> := [];
    for i := 0 to |cols|
      invariant ClassValues(obj, cols[..i], skipnull) == Success(ret)
    {
      ClassValuesSnoc(obj, cols, skipnull, i);
      var c := cols[i];
      if c.codeName !in obj {
        continue;
      }
      var val := obj[c.codeName];
      if skipnull && val.VNull? {
        continue;
      }
      var got := Marshal.GetObject(val, Some(c.colType), true, None);
      if got.Failure? {
        FailureStops(obj, cols, skipnull, i + 1);
        return Failure(got.error);
      }
      if got.value.value.VNull? || !got.value.success {
        FailureStops(obj, cols, skipnull, i + 1);
        return Failure(OsSqlException(InvalidObjectMessage));
      }
      var p := NewParameter(c.dbName, got.value.value, true);
      if p.Failure? {
        FailureStops(obj, cols, skipnull, i + 1);
        return Failure(p.error);
      }
      ret := ret + [p.value];
    }
    assert cols[..|cols|] == cols;
    return Success(ret);
  }

  /** The list succeeds exactly when every chosen column converts; it then holds one
      parameter per chosen column, in column order, each keyed by the DbName and with
      Func set. */
  lemma {:induction false} ClassValuesAreTheChosenColumns(obj: Entity, cols: seq<Column>, skipnull: bool)
    ensures var chosen := ChosenColumns(obj, cols, skipnull);
      ClassValues(obj, cols, skipnull).Success? <==>
        forall i :: 0 <= i < |chosen| ==> ColumnValue(obj, chosen[i]).Success?
    ensures var chosen := ChosenColumns(obj, cols, skipnull);
      ClassValues(obj, cols, skipnull).Success? ==>
        var ps := ClassValues(obj, cols, skipnull).value;
        && |ps| == |chosen|
        && forall i :: 0 <= i < |ps| ==>
             ps[i] == ColumnValue(obj, chosen[i]).value && ps[i].key == chosen[i].dbName && ps[i].func
  {
    if cols != [] {
      var init := cols[..|cols| - 1];
      var c := cols[|cols| - 1];
      ClassValuesAreTheChosenColumns(obj, init, skipnull);
      var before := ChosenColumns(obj, init, skipnull);
      var chosen := ChosenColumns(obj, cols, skipnull);
      if Chosen(obj, c, skipnull) {
        assert chosen == before + [c];
        assert (forall i :: 0 <= i < |chosen| ==> ColumnValue(obj, chosen[i]).Success?) <==>
          (forall i :: 0 <= i < |before| ==> ColumnValue(obj, before[i]).Success?) && ColumnValue(obj, c).Success? by {
          assert forall i :: 0 <= i < |before| ==> chosen[i] == before[i];
          assert chosen[|before|] == c;
        }
      } else {
        assert chosen == before;
      }
    }
  }

  /** A null property that is not skipped is written as the integer 0, not as NULL: the
      first marshalling turns it into DBNull, and Parameter's own marshalling reads DBNull
      as an unparsable Int. */
  lemma NullPropertyBindsZero(obj: Entity, c: Column)
    requires c.codeName in obj && obj[c.codeName].VNull?
    ensures ColumnValue(obj, c) == Success(Parameter(c.dbName, VInt(Int32, 0), true))
  {
    DbNullParameterBindsZero(c.dbName, true);
  }

  /** A text property is escaped twice: once as the column's text type, and again by
      Parameter(DbName, value), so each single quote reaches the server as four. */
  lemma TextPropertyEscapedTwice(obj: Entity, c: Column, s: string)
    requires IsTextKind(c.colType) && c.codeName in obj && obj[c.codeName] == VString(s)
    ensures ColumnValue(obj, c)
         == Success(Parameter(c.dbName, VString(Marshal.TextValue(Marshal.TextValue(s, false), false)), true))
  {
    Marshal.TextRoundTrip(s, c.colType);
    StringParameter(c.dbName, Marshal.TextValue(s, false), true);
  }
}
