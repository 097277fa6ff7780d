/** The list difference behind SQL.UpdateColumns: which declared columns are added to the
    live table, and which live columns are left over for dropping. */
module Sync {
  import opened Schema
  import opened Statements
  import ColumnTypes

  /** The database names of the columns, in order. */
  function DbNames(cols: seq<Column>): seq<string>
  {
    seq(|cols|, i requires 0 <= i < |cols| => cols[i].dbName)
  }

  /** List<string>.IndexOf: the first index holding x, or -1. */
  function IndexOf(xs: seq<string>, x: string): (r: int)
    ensures -1 <= r < |xs|
    ensures r == -1 <==> x !in xs
    ensures r >= 0 ==> xs[r] == x && x !in xs[..r]
  {
    if xs == [] then -1
    else if xs[0] == x then 0
    else
      var k := IndexOf(xs[1..], x);
      assert k >= 0 ==> xs[..k + 1] == [xs[0]] + xs[1..][..k];
      if k == -1 then -1 else k + 1
  }

  /** IndexOf followed by RemoveAt when found: the first occurrence of x taken out. */
  function RemoveFirst(xs: seq<string>, x: string): seq<string>
  {
    var i := IndexOf(xs, x);
    if i == -1 then xs else xs[..i] + xs[i + 1..]
  }

  lemma RemoveFirstCount(xs: seq<string>, x: string)
    ensures multiset(RemoveFirst(xs, x)) == multiset(xs) - multiset{x}
  {
    var i := IndexOf(xs, x);
    if i == -1 {
      assert multiset(xs)[x] == 0;
    } else {
      assert xs == xs[..i] + [x] + xs[i + 1..];
      assert multiset(xs) == multiset(xs[..i]) + multiset{x} + multiset(xs[i + 1..]);
    }
  }

  /** The declared columns UpdateColumns adds, in declaration order: a column is added when
      its name is neither on the server nor added by an earlier column of the loop. */
  function Missing(cols: seq<Column>, live: seq<string>): seq<Column>
  {
    if cols == [] then []
    else
      var m := Missing(cols[..|cols| - 1], live);
      var c := cols[|cols| - 1];
      if c.dbName in live || c.dbName in DbNames(m) then m else m + [c]
  }

  /** TColumns after the loop: the live names with one occurrence per declared name removed. */
  function Leftover(cols: seq<Column>, live: seq<string>): seq<string>
  {
    if cols == [] then live else RemoveFirst(Leftover(cols[..|cols| - 1], live), cols[|cols| - 1].dbName)
  }

  lemma MissingSnoc(cols: seq<Column>, live: seq<string>, i: nat)
    requires i < |cols|
    ensures var m := Missing(cols[..i], live);
      Missing(cols[..i + 1], live)
      == if cols[i].dbName in live || cols[i].dbName in DbNames(m) then m else m + [cols[i]]
  {
    assert cols[..i + 1][..i] == cols[..i];
  }

  lemma LeftoverSnoc(cols: seq<Column>, live: seq<string>, i: nat)
    requires i < |cols|
    ensures Leftover(cols[..i + 1], live) == RemoveFirst(Leftover(cols[..i], live), cols[i].dbName)
  {
    assert cols[..i + 1][..i] == cols[..i];
  }

  /** One column of UpdateColumns' loop: its name leaves TColumns (the listing), and it is
      added exactly when the names IsColumnExists finds (existing and added so far) do not
      hold it. */
  lemma SyncStep(cols: seq<Column>, existing: seq<string>, listing: seq<string>, i: nat)
    requires i < |cols|
    ensures Leftover(cols[..i + 1], listing) == RemoveFirst(Leftover(cols[..i], listing), cols[i].dbName)
    ensures var m := Missing(cols[..i], existing);
      && (cols[i].dbName in existing + DbNames(m) ==> Missing(cols[..i + 1], existing) == m)
      && (cols[i].dbName !in existing + DbNames(m) ==>
            Missing(cols[..i + 1], existing) == m + [cols[i]]
            && existing + DbNames(m) + [cols[i].dbName] == existing + DbNames(m + [cols[i]]))
  {
    MissingSnoc(cols, existing, i);
    LeftoverSnoc(cols, listing, i);
    DbNamesSnoc(Missing(cols[..i], existing), cols[i]);
  }

  lemma DbNamesSnoc(cols: seq<Column>, c: Column)
    ensures DbNames(cols + [c]) == DbNames(cols) + [c.dbName]
  {
    assert DbNames(cols + [c])[..|cols|] == DbNames(cols);
  }

  lemma DbNamesInit(cols: seq<Column>)
    requires |cols| > 0
    ensures DbNames(cols) == DbNames(cols[..|cols| - 1]) + [cols[|cols| - 1].dbName]
  {
    assert DbNames(cols)[..|cols| - 1] == DbNames(cols[..|cols| - 1]);
  }

  predicate NoDuplicates(xs: seq<string>)
  {
    forall i, j :: 0 <= i < j < |xs| ==> xs[i] != xs[j]
  }

  /** xs is ys with some elements left out, the rest in order. */
  predicate Subsequence<T(==)>(xs: seq<T>, ys: seq<T>)
  {
    if xs == [] then true
    else if ys == [] then false
    else if xs[|xs| - 1] == ys[|ys| - 1] then Subsequence(xs[..|xs| - 1], ys[..|ys| - 1])
    else Subsequence(xs, ys[..|ys| - 1])
  }

  lemma {:induction false} SubsequenceOfLonger<T>(xs: seq<T>, ys: seq<T>, y: T)
    requires Subsequence(xs, ys)
    ensures Subsequence(xs, ys + [y])
    decreases |ys|, 1
  {
    assert (ys + [y])[..|ys|] == ys;
    if xs != [] && xs[|xs| - 1] == y {
      SubsequenceDropLast(xs, ys);
    }
  }

  /** Leaving out the last element of a subsequence keeps it a subsequence. */
  lemma {:induction false} SubsequenceDropLast<T>(xs: seq<T>, ys: seq<T>)
    requires xs != [] && Subsequence(xs, ys)
    ensures Subsequence(xs[..|xs| - 1], ys)
    decreases |ys|, 0
  {
    var init := xs[..|xs| - 1];
    var yinit := ys[..|ys| - 1];
    if xs[|xs| - 1] != ys[|ys| - 1] {
      SubsequenceDropLast(xs, yinit);
    }
    SubsequenceOfLonger(init, yinit, ys[|ys| - 1]);
    assert yinit + [ys[|ys| - 1]] == ys;
  }

  /** The added columns: in declaration order, none already on the server, no name twice,
      and together with the live names they cover every declared name. */
  lemma {:induction false} MissingIsTheDifference(cols: seq<Column>, live: seq<string>)
    ensures Subsequence(Missing(cols, live), cols)
    ensures forall n :: n in DbNames(Missing(cols, live)) ==> n !in live
    ensures NoDuplicates(DbNames(Missing(cols, live)))
    ensures forall i :: 0 <= i < |cols| ==> cols[i].dbName in live || cols[i].dbName in DbNames(Missing(cols, live))
  {
    if cols != [] {
      var init := cols[..|cols| - 1];
      var c := cols[|cols| - 1];
      var m := Missing(init, live);
      MissingIsTheDifference(init, live);
      if !(c.dbName in live || c.dbName in DbNames(m)) {
        DbNamesSnoc(m, c);
        assert Subsequence(m + [c], cols) by {
          assert (m + [c])[..|m|] == m;
          assert init + [c] == cols;
        }
      } else {
        SubsequenceOfLonger(m, init, c);
        assert init + [c] == cols;
      }
      forall i | 0 <= i < |cols|
        ensures cols[i].dbName in live || cols[i].dbName in DbNames(Missing(cols, live))
      {
        if i < |cols| - 1 {
          assert cols[i] == init[i];
        }
      }
    }
  }

  /** Once every declared name is on the server, nothing is added. */
  lemma {:induction false} CoveredAddsNothing(cols: seq<Column>, live: seq<string>)
    requires forall i :: 0 <= i < |cols| ==> cols[i].dbName in live
    ensures Missing(cols, live) == []
  {
    if cols != [] {
      CoveredAddsNothing(cols[..|cols| - 1], live);
    }
  }

  /** A second UpdateColumns on the synchronised table adds no column. */
  lemma RerunAddsNothing(cols: seq<Column>, live: seq<string>)
    ensures Missing(cols, live + DbNames(Missing(cols, live))) == []
  {
    MissingIsTheDifference(cols, live);
    CoveredAddsNothing(cols, live + DbNames(Missing(cols, live)));
  }

  /** The names left for DROP are the live names minus one occurrence per declared name. */
  lemma {:induction false} LeftoverCount(cols: seq<Column>, live: seq<string>)
    ensures multiset(Leftover(cols, live)) == multiset(live) - multiset(DbNames(cols))
  {
    if cols != [] {
      var init := cols[..|cols| - 1];
      var c := cols[|cols| - 1];
      LeftoverCount(init, live);
      assert Leftover(cols, live) == RemoveFirst(Leftover(init, live), c.dbName);
      DbNamesInit(cols);
      RemoveOneMore(Leftover(init, live), live, DbNames(init), c.dbName);
    } else {
      assert multiset(DbNames(cols)) == multiset{};
    }
  }

  /** Taking one more name out of what is left removes one more occurrence of it. */
  lemma RemoveOneMore(left: seq<string>, live: seq<string>, names: seq<string>, x: string)
    requires multiset(left) == multiset(live) - multiset(names)
    ensures multiset(RemoveFirst(left, x)) == multiset(live) - multiset(names + [x])
  {
    RemoveFirstCount(left, x);
    assert multiset(names + [x]) == multiset(names) + multiset{x};
    DifferenceOfSum(multiset(live), multiset(names), multiset{x});
  }

  lemma DifferenceOfSum(a: multiset<string>, b: multiset<string>, c: multiset<string>)
    ensures a - b - c == a - (b + c)
  {
    assert forall x :: (a - b - c)[x] == (a - (b + c))[x];
  }

  /** On a real table, whose column names are distinct, a declared column is never dropped. */
  lemma DeclaredNeverDropped(cols: seq<Column>, live: seq<string>)
    requires NoDuplicates(live)
    ensures forall n :: n in Leftover(cols, live) ==> n !in DbNames(cols)
  {
    LeftoverCount(cols, live);
    forall n | n in Leftover(cols, live)
      ensures n !in DbNames(cols)
    {
      DistinctCount(live, n);
      assert multiset(Leftover(cols, live))[n] > 0;
    }
  }

  lemma {:induction false} DistinctCount(xs: seq<string>, x: string)
    requires NoDuplicates(xs)
    ensures multiset(xs)[x] <= 1
  {
    if xs != [] {
      var init := xs[..|xs| - 1];
      DistinctCount(init, x);
      assert init + [xs[|xs| - 1]] == xs;
      if xs[|xs| - 1] == x {
        assert x !in init;
      }
    }
  }

  // The statements UpdateColumns sends.

  function AddStatement(table: string, c: Column): Statement
  {
    Statement(AddColumnText(table, c.colType, c.dbName, false), [])
  }

  function DropStatement(table: string, name: string): Statement
  {
    Statement(DropColumnText(table, name), [])
  }

  function AddStatements(table: string, cols: seq<Column>): seq<Statement>
  {
    seq(|cols|, i requires 0 <= i < |cols| => AddStatement(table, cols[i]))
  }

  function DropStatements(table: string, names: seq<string>): seq<Statement>
  {
    seq(|names|, i requires 0 <= i < |names| => DropStatement(table, names[i]))
  }

  lemma AddStatementsSnoc(table: string, cols: seq<Column>, c: Column)
    ensures AddStatements(table, cols + [c]) == AddStatements(table, cols) + [AddStatement(table, c)]
  {
    assert AddStatements(table, cols + [c])[..|cols|] == AddStatements(table, cols);
  }

  lemma DropStatementsSnoc(table: string, names: seq<string>, n: string)
    ensures DropStatements(table, names + [n]) == DropStatements(table, names) + [DropStatement(table, n)]
  {
    assert DropStatements(table, names + [n])[..|names|] == DropStatements(table, names);
  }

  /** Everything UpdateColumns sends for one table: the ADDs of the columns IsColumnExists
      does not find among `existing`, then, when asked, the DROPs of what is left of the
      `listing` (TColumns) once every declared name has been taken out of it. */
  function SyncStatements(table: string, cols: seq<Column>, existing: seq<string>, listing: seq<string>,
                          delete: bool): seq<Statement>
  {
    AddStatements(table, Missing(cols, existing))
      + (if delete then DropStatements(table, Leftover(cols, listing)) else [])
  }

  /** The ADDs come first, one per missing column (never with AUTO_INCREMENT, as
      AddStatement shows); the DROPs follow, one per leftover name, and only when asked. */
  lemma SyncStatementsShape(table: string, cols: seq<Column>, existing: seq<string>, listing: seq<string>,
                            delete: bool)
    ensures var all := SyncStatements(table, cols, existing, listing, delete);
      var m, l := Missing(cols, existing), Leftover(cols, listing);
      && |all| == |m| + (if delete then |l| else 0)
      && (forall i :: 0 <= i < |m| ==> all[i] == AddStatement(table, m[i]))
      && (delete ==> forall i :: 0 <= i < |l| ==> all[|m| + i] == DropStatement(table, l[i]))
  {
    SyncLength(table, cols, existing, listing, delete);
    SyncAddsFirst(table, cols, existing, listing, delete);
    if delete {
      SyncDropsLast(table, cols, existing, listing, delete);
    }
  }

  lemma SyncLength(table: string, cols: seq<Column>, existing: seq<string>, listing: seq<string>, delete: bool)
    ensures |SyncStatements(table, cols, existing, listing, delete)|
         == |Missing(cols, existing)| + (if delete then |Leftover(cols, listing)| else 0)
  {
    StatementsShape(table, Missing(cols, existing), Leftover(cols, listing), delete);
  }

  lemma SyncAddsFirst(table: string, cols: seq<Column>, existing: seq<string>, listing: seq<string>, delete: bool)
    ensures var all, m := SyncStatements(table, cols, existing, listing, delete), Missing(cols, existing);
      |all| >= |m| && forall i :: 0 <= i < |m| ==> all[i] == AddStatement(table, m[i])
  {
    StatementsShape(table, Missing(cols, existing), Leftover(cols, listing), delete);
  }

  lemma SyncDropsLast(table: string, cols: seq<Column>, existing: seq<string>, listing: seq<string>, delete: bool)
    requires delete
    ensures var all := SyncStatements(table, cols, existing, listing, delete);
      var m, l := Missing(cols, existing), Leftover(cols, listing);
      |all| == |m| + |l| && forall i :: 0 <= i < |l| ==> all[|m| + i] == DropStatement(table, l[i])
  {
    StatementsShape(table, Missing(cols, existing), Leftover(cols, listing), delete);
  }

  /** An empty listing leaves nothing to drop, whatever is declared. */
  lemma {:induction false} LeftoverOfEmpty(cols: seq<Column>)
    ensures Leftover(cols, []) == []
  {
    if cols != [] {
      LeftoverOfEmpty(cols[..|cols| - 1]);
      assert IndexOf([], cols[|cols| - 1].dbName) == -1;
    }
  }

  /** When the listing query finds no rows, UpdateColumns only adds, even with delete set. */
  lemma EmptyListingDropsNothing(table: string, cols: seq<Column>, existing: seq<string>, delete: bool)
    ensures SyncStatements(table, cols, existing, [], delete) == AddStatements(table, Missing(cols, existing))
  {
    LeftoverOfEmpty(cols);
    assert DropStatements(table, []) == [];
  }

  lemma StatementsShape(table: string, m: seq<Column>, l: seq<string>, delete: bool)
    ensures var all := AddStatements(table, m) + (if delete then DropStatements(table, l) else []);
      && |all| == |m| + (if delete then |l| else 0)
      && (forall i :: 0 <= i < |m| ==> all[i] == AddStatement(table, m[i]))
      && (delete ==> forall i :: 0 <= i < |l| ==> all[|m| + i] == DropStatement(table, l[i]))
  {
  }

  // A worked example: declared columns id (AutoInc), user_name and email.

  const Id: Column := Column("id", "id", ColumnTypes.Int, true)
  const UserName: Column := Column("user_name", "user_name", ColumnTypes.Text, false)
  const Email: Column := Column("email", "email", ColumnTypes.Text, false)

  /** Against live columns id and user_name, the only statement is the ADD of email,
      without AUTO_INCREMENT, whatever the delete flag. */
  lemma AddsOnlyTheMissingColumn(delete: bool)
    ensures SyncStatements("users", [Id, UserName, Email], ["id", "user_name"], ["id", "user_name"], delete)
         == [Statement("ALTER TABLE users ADD email TEXT", [])]
  {
    ExampleMissingEmail();
    ExampleNothingLeft();
    ExampleAddEmail();
    assert AddStatements("users", [Email]) == [AddStatement("users", Email)];
    assert DropStatements("users", []) == [];
  }

  lemma ExampleAddEmail()
    ensures AddStatement("users", Email) == Statement("ALTER TABLE users ADD email TEXT", [])
  {
    ColumnTypes.UpperTextNames(ColumnTypes.Text);
  }

  lemma ExampleMissingEmail()
    ensures Missing([Id, UserName, Email], ["id", "user_name"]) == [Email]
  {
    var cols, live := [Id, UserName, Email], ["id", "user_name"];
    assert cols[..2] == [Id, UserName] && [Id, UserName][..1] == [Id] && [Id][..0] == [];
    assert Missing([Id], live) == [];
    assert Missing([Id, UserName], live) == [];
  }

  lemma ExampleNothingLeft()
    ensures Leftover([Id, UserName, Email], ["id", "user_name"]) == []
  {
    var cols, live := [Id, UserName, Email], ["id", "user_name"];
    assert cols[..2] == [Id, UserName] && [Id, UserName][..1] == [Id] && [Id][..0] == [];
    assert Leftover([Id], live) == ["user_name"];
    assert Leftover([Id, UserName], live) == [];
  }

  /** An undeclared live column legacy_col is dropped only when delete is set. */
  lemma DropsOnlyWhenAsked(delete: bool)
    ensures var live := ["id", "legacy_col", "user_name", "email"];
      SyncStatements("users", [Id, UserName, Email], live, live, delete)
      == if delete then [Statement("ALTER TABLE users DROP legacy_col", [])] else []
  {
    ExampleNothingMissing();
    ExampleLegacyLeft();
    ExampleDropLegacy();
    assert AddStatements("users", []) == [];
    assert DropStatements("users", ["legacy_col"]) == [DropStatement("users", "legacy_col")];
  }

  lemma ExampleDropLegacy()
    ensures DropStatement("users", "legacy_col") == Statement("ALTER TABLE users DROP legacy_col", [])
  {
  }

  lemma ExampleNothingMissing()
    ensures Missing([Id, UserName, Email], ["id", "legacy_col", "user_name", "email"]) == []
  {
    var cols, live := [Id, UserName, Email], ["id", "legacy_col", "user_name", "email"];
    assert cols[..2] == [Id, UserName] && [Id, UserName][..1] == [Id] && [Id][..0] == [];
    assert Missing([Id], live) == [];
    assert Missing([Id, UserName], live) == [];
  }

  lemma ExampleLegacyLeft()
    ensures Leftover([Id, UserName, Email], ["id", "legacy_col", "user_name", "email"]) == ["legacy_col"]
  {
    var cols, live := [Id, UserName, Email], ["id", "legacy_col", "user_name", "email"];
    var l1, l2 := ["legacy_col", "user_name", "email"], ["legacy_col", "email"];
    assert Leftover([Id], live) == l1 by {
      assert [Id][..0] == [];
      RemoveAt(live, "id", 0);
    }
    assert Leftover([Id, UserName], live) == l2 by {
      assert [Id, UserName][..1] == [Id];
      RemoveAt(l1, "user_name", 1);
    }
    assert cols[..2] == [Id, UserName];
    RemoveAt(l2, "email", 1);
  }

  /** Removing the first occurrence of a name found at index i. */
  lemma RemoveAt(xs: seq<string>, x: string, i: nat)
    requires i < |xs| && xs[i] == x && x !in xs[..i]
    ensures RemoveFirst(xs, x) == xs[..i] + xs[i + 1..]
  {
    IndexOfFirst(xs, x, i);
  }

  lemma IndexOfFirst(xs: seq<string>, x: string, i: nat)
    requires i < |xs| && xs[i] == x && x !in xs[..i]
    ensures IndexOf(xs, x) == i
  {
    var k := IndexOf(xs, x);
    assert xs[..k + 1][k] == x;
    assert xs[..i + 1][i] == x;
  }
}
