/** The statement texts the SQL class sends: the WHERE clause, SELECT, UPDATE, INSERT,
    DELETE and the two ALTER TABLE forms, each with the parameters it binds. */
module Statements {
  import opened Wrappers
  import opened Text
  import opened ColumnTypes
  import opened Schema

  /** A command sent to the server: its text and the parameters bound to it. */
  datatype Statement = Statement(text: string, bound: seq<Parameter>)

  /** The message Update and Insert raise on an empty parameter array. */
  const RequiresParameters: string := "This function requires parameters."

  /** SQL.Condition: a WHERE clause, or nothing for an empty condition. */
  function Condition(condition: string): string
  {
    if |condition| > 0 then " WHERE " + condition else ""
  }

  /** The SELECT text of Select (and of Read, and of AutoSelect). */
  function SelectText(table: string, condition: string, key: string): string
  {
    "SELECT " + key + " FROM `" + table + "`" + Condition(condition)
  }

  /** The DELETE text of Delete. */
  function DeleteText(table: string, condition: string): string
  {
    "DELETE FROM `" + table + "`" + Condition(condition)
  }

  /** The ALTER TABLE … ADD text of AddColumn. Neither name is quoted. */
  function AddColumnText(table: string, colType: ColumnType, column: string, ai: bool): string
  {
    "ALTER TABLE " + table + " ADD " + column + " " + ColTypeSQLTitle(colType)
      + (if ai then " NOT NULL AUTO_INCREMENT" else "")
  }

  /** The ALTER TABLE … DROP text of DropColumn. */
  function DropColumnText(table: string, column: string): string
  {
    "ALTER TABLE " + table + " DROP " + column
  }

  /** A condition only ever appends its WHERE clause: the rest of the statement does not
      depend on it, and an empty condition adds nothing. */
  lemma ConditionIsAppended(table: string, condition: string, key: string)
    ensures Condition("") == ""
    ensures |condition| > 0 ==> Condition(condition) == " WHERE " + condition
    ensures SelectText(table, condition, key) == SelectText(table, "", key) + Condition(condition)
    ensures DeleteText(table, condition) == DeleteText(table, "") + Condition(condition)
  {
  }

  /** AUTO_INCREMENT is a suffix that only the `ai` flag adds. */
  lemma AutoIncrementSuffix(table: string, colType: ColumnType, column: string)
    ensures AddColumnText(table, colType, column, true)
         == AddColumnText(table, colType, column, false) + " NOT NULL AUTO_INCREMENT"
  {
  }

  // The lists of Update and Insert.

  /** The three ways a key is written: `k`=@k in a SET list, `k` in a column list, @k in
      a VALUES list. */
  datatype ListStyle = Assignment | ColumnName | Placeholder

  function Piece(style: ListStyle, key: string): string
  {
    match style
    case Assignment => "`" + key + "`=@" + key
    case ColumnName => "`" + key + "`"
    case Placeholder => "@" + key
  }

  /** The keys of the parameters with Func set, in array order. */
  function Selected(ps: seq<Parameter>): seq<string>
  {
    if ps == [] then []
    else Selected(ps[..|ps| - 1]) + (if ps[|ps| - 1].func then [ps[|ps| - 1].key] else [])
  }

  /** Each key written in the given style. */
  function Pieces(style: ListStyle, keys: seq<string>): seq<string>
  {
    if keys == [] then [] else Pieces(style, keys[..|keys| - 1]) + [Piece(style, keys[|keys| - 1])]
  }

  /** What the loop adds for parameter i: nothing unless Func is set; otherwise the key,
      followed by the separator unless i is the last index of the array. */
  function Entry(ps: seq<Parameter>, style: ListStyle, sep: string, i: nat): string
    requires i < |ps|
  {
    if ps[i].func then Piece(style, ps[i].key) + (if i == |ps| - 1 then "" else sep) else ""
  }

  /** The list the loop has built after the first n parameters. */
  function Listing(ps: seq<Parameter>, style: ListStyle, sep: string, n: nat): string
    requires n <= |ps|
  {
    if n == 0 then "" else Listing(ps, style, sep, n - 1) + Entry(ps, style, sep, n - 1)
  }

  /** A list as it should read: the items joined by the separator (`closed`), or with a
      separator after every item, the last one included. */
  function Shape(closed: bool, sep: string, xs: seq<string>): string
  {
    if closed then Join(sep, xs) else Terminated(sep, xs)
  }

  lemma SelectedSnoc(ps: seq<Parameter>, n: nat)
    requires n < |ps|
    ensures Selected(ps[..n + 1]) == Selected(ps[..n]) + (if ps[n].func then [ps[n].key] else [])
  {
    assert ps[..n + 1][..n] == ps[..n];
  }

  lemma PiecesSnoc(style: ListStyle, keys: seq<string>, k: string)
    ensures Pieces(style, keys + [k]) == Pieces(style, keys) + [Piece(style, k)]
  {
    assert (keys + [k])[..|keys|] == keys;
  }

  lemma TerminatedSnoc(sep: string, xs: seq<string>, x: string)
    ensures Terminated(sep, xs + [x]) == Terminated(sep, xs) + x + sep
  {
    assert (xs + [x])[..|xs|] == xs;
  }

  /** Before the last parameter every selected key is followed by the separator. */
  lemma {:induction false} ListingBeforeLast(ps: seq<Parameter>, style: ListStyle, sep: string, n: nat)
    requires n < |ps|
    ensures Listing(ps, style, sep, n) == Terminated(sep, Pieces(style, Selected(ps[..n])))
  {
    if n == 0 {
      assert ps[..0] == [];
    } else {
      ListingBeforeLast(ps, style, sep, n - 1);
      EntryBeforeLast(ps, style, sep, n - 1);
    }
  }

  /** Parameter i, not the last, adds its piece and the separator exactly when it is
      selected. */
  lemma EntryBeforeLast(ps: seq<Parameter>, style: ListStyle, sep: string, i: nat)
    requires i + 1 < |ps|
    ensures Terminated(sep, Pieces(style, Selected(ps[..i]))) + Entry(ps, style, sep, i)
         == Terminated(sep, Pieces(style, Selected(ps[..i + 1])))
  {
    SelectedSnoc(ps, i);
    if ps[i].func {
      assert Entry(ps, style, sep, i) == Piece(style, ps[i].key) + sep;
      SelectedEntry(Selected(ps[..i]), style, sep, ps[i].key);
    } else {
      assert Entry(ps, style, sep, i) == "";
      assert Selected(ps[..i]) + [] == Selected(ps[..i]);
    }
  }

  /** A selected key that is not the last one adds its piece and the separator. */
  lemma SelectedEntry(keys: seq<string>, style: ListStyle, sep: string, k: string)
    ensures Terminated(sep, Pieces(style, keys)) + (Piece(style, k) + sep)
         == Terminated(sep, Pieces(style, keys + [k]))
  {
    var t := Terminated(sep, Pieces(style, keys));
    var x := Piece(style, k);
    PiecesSnoc(style, keys, k);
    TerminatedSnoc(sep, Pieces(style, keys), x);
    assert t + (x + sep) == t + x + sep;
  }

  /** The whole list holds exactly the selected keys in array order. It is well formed
      when the last parameter has Func set; otherwise the separator after the last selected
      key is never removed. */
  lemma ListingOfAll(ps: seq<Parameter>, style: ListStyle, sep: string)
    requires |ps| > 0
    ensures Listing(ps, style, sep, |ps|) == Shape(ps[|ps| - 1].func, sep, Pieces(style, Selected(ps)))
  {
    var n := |ps| - 1;
    var keys := Selected(ps[..n]);
    var xs := Pieces(style, keys);
    var before := Listing(ps, style, sep, n);
    assert before == Terminated(sep, xs) by {
      ListingBeforeLast(ps, style, sep, n);
    }
    assert Listing(ps, style, sep, |ps|) == before + Entry(ps, style, sep, n);
    assert Selected(ps) == keys + (if ps[n].func then [ps[n].key] else []) by {
      SelectedSnoc(ps, n);
      assert ps[..n + 1] == ps;
    }
    if ps[n].func {
      var x := Piece(style, ps[n].key);
      assert Entry(ps, style, sep, n) == x;
      assert Pieces(style, Selected(ps)) == xs + [x] by {
        PiecesSnoc(style, keys, ps[n].key);
      }
      TerminatedThenLast(sep, xs, x);
    } else {
      assert Entry(ps, style, sep, n) == "";
      assert keys + [] == keys;
    }
  }

  /** One iteration of a list loop. */
  lemma ListingStep(head: string, ps: seq<Parameter>, style: ListStyle, sep: string, i: nat, q: string)
    requires i < |ps| && q == head + Listing(ps, style, sep, i)
    ensures (if ps[i].func then q + Piece(style, ps[i].key) + (if i == |ps| - 1 then "" else sep) else q)
         == head + Listing(ps, style, sep, i + 1)
  {
    var list := Listing(ps, style, sep, i);
    assert Listing(ps, style, sep, i + 1) == list + Entry(ps, style, sep, i);
    if ps[i].func {
      var piece, tail := Piece(style, ps[i].key), if i == |ps| - 1 then "" else sep;
      assert Entry(ps, style, sep, i) == piece + tail;
      ConcatAssoc(head, list, piece);
      ConcatAssoc(head, list + piece, tail);
      ConcatAssoc(list, piece, tail);
    } else {
      assert Entry(ps, style, sep, i) == "";
      assert list + "" == list;
    }
  }

  /** The loop Update and Insert run over the parameter array: each Func parameter's key,
      followed by the separator unless it is the array's last element. */
  method AppendList(q0: string, ps: seq<Parameter>, style: ListStyle, sep: string) returns (q: string)
    ensures q == q0 + Listing(ps, style, sep, |ps|)
  {
    q := q0;
    for i := 0 to |ps|
      invariant q == q0 + Listing(ps, style, sep, i)
    {
      ListingStep(q0, ps, style, sep, i, q);
      if ps[i].func {
        q := q + Piece(style, ps[i].key) + (if i == |ps| - 1 then "" else sep);
      }
    }
  }

  // UPDATE

  function UpdateHead(table: string): string
  {
    "UPDATE `" + table + "`" + " SET "
  }

  /** The text Update sends for a non-empty parameter array. */
  function UpdateText(table: string, condition: string, ps: seq<Parameter>): string
    requires |ps| > 0
  {
    UpdateHead(table) + Listing(ps, Assignment, ", ", |ps|) + Condition(condition)
  }

  /** SQL.Update's text: refused for an empty array; otherwise the SET list of the Func
      parameters, with the separator decided by the array index, then the condition. */
  method BuildUpdate(table: string, condition: string, ps: seq<Parameter>) returns (r: Result<string>)
    ensures |ps| == 0 ==> r == Failure(OsSqlException(RequiresParameters))
    ensures |ps| > 0 ==> r == Success(UpdateText(table, condition, ps))
  {
    if |ps| == 0 {
      return Failure(OsSqlException(RequiresParameters));
    }
    var q := AppendList(UpdateHead(table), ps, Assignment, ", ");
    q := q + Condition(condition);
    return Success(q);
  }

  /** The SET list assigns exactly the Func keys, in array order; it is the joined list
      when the last parameter has Func set, and ends in a stray ", " otherwise. */
  lemma UpdateSetList(table: string, condition: string, ps: seq<Parameter>)
    requires |ps| > 0
    ensures UpdateText(table, condition, ps)
         == UpdateHead(table) + Shape(ps[|ps| - 1].func, ", ", Pieces(Assignment, Selected(ps))) + Condition(condition)
  {
    ListingOfAll(ps, Assignment, ", ");
  }

  /** A condition parameter without Func at the end of the array (as AutoUpdate appends
      them) leaves ", " in front of the WHERE clause when any key is assigned. */
  lemma UpdateTrailingSeparator(table: string, condition: string, ps: seq<Parameter>)
    requires |ps| > 0 && !ps[|ps| - 1].func && |Selected(ps)| > 0
    ensures UpdateText(table, condition, ps)
         == UpdateHead(table) + Join(", ", Pieces(Assignment, Selected(ps))) + ", " + Condition(condition)
  {
    var pieces := Pieces(Assignment, Selected(ps));
    var list := Listing(ps, Assignment, ", ", |ps|);
    ListingOfAll(ps, Assignment, ", ");
    PiecesLength(Assignment, Selected(ps));
    assert list == Join(", ", pieces) + ", " by {
      TerminatedIsJoinedPlusSep(", ", pieces);
    }
    assert UpdateText(table, condition, ps) == UpdateHead(table) + list + Condition(condition);
    assert UpdateHead(table) + (Join(", ", pieces) + ", ") + Condition(condition)
        == UpdateHead(table) + Join(", ", pieces) + ", " + Condition(condition);
  }

  lemma {:induction false} PiecesLength(style: ListStyle, keys: seq<string>)
    ensures |Pieces(style, keys)| == |keys|
  {
    if keys != [] {
      PiecesLength(style, keys[..|keys| - 1]);
    }
  }

  // INSERT

  function InsertHead(table: string): string
  {
    "INSERT INTO `" + table + "` ("
  }

  const ValuesWord: string := ") VALUES ("

  const InsertTail: string := "); SELECT last_insert_id()"

  /** The text Insert sends for a non-empty parameter array. */
  function InsertText(table: string, ps: seq<Parameter>): string
    requires |ps| > 0
  {
    InsertHead(table) + Listing(ps, ColumnName, ",", |ps|) + ValuesWord
      + Listing(ps, Placeholder, ",", |ps|) + InsertTail
  }

  /** SQL.Insert's text: refused for an empty array; otherwise the column list and the
      VALUES list of the Func parameters, each built by its own loop. */
  method BuildInsert(table: string, ps: seq<Parameter>) returns (r: Result<string>)
    ensures |ps| == 0 ==> r == Failure(OsSqlException(RequiresParameters))
    ensures |ps| > 0 ==> r == Success(InsertText(table, ps))
  {
    if |ps| == 0 {
      return Failure(OsSqlException(RequiresParameters));
    }
    var q := AppendList(InsertHead(table), ps, ColumnName, ",");
    q := AppendList(q + ValuesWord, ps, Placeholder, ",");
    q := q + InsertTail;
    return Success(q);
  }

  /** The column list and the VALUES list name the same Func keys in the same order, and
      both are well formed exactly when the last parameter has Func set. */
  lemma InsertLists(table: string, ps: seq<Parameter>)
    requires |ps| > 0
    ensures var closed := ps[|ps| - 1].func;
      InsertText(table, ps)
      == InsertHead(table) + Shape(closed, ",", Pieces(ColumnName, Selected(ps))) + ValuesWord
         + Shape(closed, ",", Pieces(Placeholder, Selected(ps))) + InsertTail
  {
    ListingOfAll(ps, ColumnName, ",");
    ListingOfAll(ps, Placeholder, ",");
  }

  /** Selected holds the Func keys: every one comes from a Func parameter, and a parameter
      without Func adds none. */
  lemma {:induction false} SelectedAreFuncKeys(ps: seq<Parameter>)
    ensures |Selected(ps)| <= |ps|
    ensures forall k :: k in Selected(ps) <==> exists i :: 0 <= i < |ps| && ps[i].func && ps[i].key == k
  {
    if ps != [] {
      var init := ps[..|ps| - 1];
      SelectedAreFuncKeys(init);
      forall k
        ensures k in Selected(ps) <==> exists i :: 0 <= i < |ps| && ps[i].func && ps[i].key == k
      {
        if k in Selected(ps) && k !in Selected(init) {
          assert ps[|ps| - 1].func && ps[|ps| - 1].key == k;
        }
        if exists i :: 0 <= i < |ps| && ps[i].func && ps[i].key == k {
          var i :| 0 <= i < |ps| && ps[i].func && ps[i].key == k;
          if i < |ps| - 1 {
            assert init[i] == ps[i];
          }
        }
      }
    }
  }
}
