/** Migrating down to a version: which rows go, in which order, and which stay. */
module MigrationDown {
  import opened Wrappers
  import opened MigrationOrder
  import opened Migrations
  import opened MigrationInverse

  /** Some definition is for this service; a blank one is for core. */
  ghost predicate IsServed(migrations: seq<Migration>, service: string)
  {
    exists i :: 0 <= i < |migrations| && (if migrations[i].service == "" then "core" else migrations[i].service) == service
  }

  ghost predicate GoesDown(migrations: seq<Migration>, target: int, row: RowKey)
  {
    IsServed(migrations, row.service) && row.version > target
  }

  /** The rows above the target whose service is served, in the order listed. */
  ghost function GoingDown(rows: seq<RowKey>, migrations: seq<Migration>, target: int): (r: seq<RowKey>)
    ensures forall row :: row in r <==> row in rows && GoesDown(migrations, target, row)
  {
    if rows == [] then []
    else if GoesDown(migrations, target, rows[0]) then [rows[0]] + GoingDown(rows[1..], migrations, target)
    else GoingDown(rows[1..], migrations, target)
  }

  /** `m` is the last definition with this key. */
  predicate IsLastFor(migrations: seq<Migration>, key: RowKey, m: Migration, i: int)
  {
    && 0 <= i < |migrations| && migrations[i] == m && KeyOf(m) == key
    && forall j | i < j < |migrations| :: KeyOf(migrations[j]) != key
  }

  lemma LastOfPrefix(migrations: seq<Migration>, n: nat, key: RowKey, m: Migration, i: int)
    requires n == |migrations| - 1 && KeyOf(migrations[n]) != key && IsLastFor(migrations[..n], key, m, i)
    ensures IsLastFor(migrations, key, m, i)
  {
    forall j | i < j < |migrations|
      ensures KeyOf(migrations[j]) != key
    {
      assert j < n ==> migrations[..n][j] == migrations[j];
    }
  }

  /** The definition found is the last one with the key. */
  lemma {:induction false} DefinitionIsLast(migrations: seq<Migration>, key: RowKey) returns (i: int)
    ensures var m := Definition(migrations, key);
      if m.Some? then IsLastFor(migrations, key, m.value, i) else !Defines(migrations, key)
  {
    i := |migrations| - 1;
    if migrations != [] && KeyOf(migrations[i]) != key {
      var n := i;
      assert migrations == migrations[..n] + [migrations[n]];
      i := DefinitionIsLast(migrations[..n], key);
      if Definition(migrations, key).Some? {
        LastOfPrefix(migrations, n, key, Definition(migrations, key).value, i);
      }
    }
  }

  lemma ServedExactly(migrations: seq<Migration>, service: string)
    ensures ServesService(migrations, service) <==> IsServed(migrations, service)
  {
    if ServesService(migrations, service) {
      var m :| m in migrations && KeyOf(m).service == service;
      var i :| 0 <= i < |migrations| && migrations[i] == m;
    }
    if IsServed(migrations, service) {
      var i :| 0 <= i < |migrations| && (if migrations[i].service == "" then "core" else migrations[i].service) == service;
      assert migrations[i] in migrations;
    }
  }

  /** A served row must be defined even if it stays; one that goes needs a down script that works. */
  ghost predicate LetsRowGo(migrations: seq<Migration>, target: int, effects: string -> Effect, row: RowKey)
  {
    IsServed(migrations, row.service) ==>
      && Definition(migrations, row).Some?
      && (row.version > target ==>
            var m := Definition(migrations, row).value; m.down != "" && effects(m.down) != Fails)
  }

  ghost predicate CanGoDown(rows: seq<RowKey>, migrations: seq<Migration>, target: int, effects: string -> Effect)
  {
    && (rows == [] || migrations != [])
    && forall row | row in rows :: LetsRowGo(migrations, target, effects, row)
  }

  /** Only the base migration's down script drops the ledger. */
  predicate BaseAloneDrops(migrations: seq<Migration>, effects: string -> Effect)
  {
    forall m | m in migrations && effects(m.down) == DropsLedger :: KeyOf(m) == BASE
  }

  predicate NoBlankRow(ledger: set<RowKey>)
  {
    forall row | row in ledger :: row.service != ""
  }

  lemma GoingDownCons(rows: seq<RowKey>, migrations: seq<Migration>, target: int)
    requires rows != [] && GoesDown(migrations, target, rows[0])
    requires forall row | row in GoingDown(rows, migrations, target) :: Definition(migrations, row).Some?
    ensures var rest := GoingDown(rows[1..], migrations, target);
      && (forall row | row in rest :: Definition(migrations, row).Some?)
      && DownScripts(GoingDown(rows, migrations, target), migrations) ==
           [Down(rows[0], Definition(migrations, rows[0]).value.down)] + DownScripts(rest, migrations)
  {
    var going := GoingDown(rows, migrations, target);
    assert going[0] == rows[0] && going[1..] == GoingDown(rows[1..], migrations, target);
    DownScriptsCons(going, migrations);
  }

  lemma RollBackAbove(db: Db, row: RowKey, migrations: seq<Migration>, target: int, effects: string -> Effect)
    requires target > 0 && row.version > target && db.ledger.Some? && NoBlankRow(db.ledger.value)
    requires BaseAloneDrops(migrations, effects) && Definition(migrations, row).Some?
    ensures var m := Definition(migrations, row).value;
      RolledBack(db, m, effects) ==
        if effects(m.down) == Fails then Err("failed down migration")
        else Ok(Db(Some(if Named(migrations, row) then db.ledger.value - {row} else db.ledger.value), db.log + [Down(row, m.down)]))
  {
    DefinitionIsMember(migrations, row);
    assert db.ledger.value - {RowKey("", row.version)} == db.ledger.value;
  }

  /** The way down succeeds exactly when every listed row lets it. */
  lemma {:induction false} DownSucceedsExactly(rows: seq<RowKey>, migrations: seq<Migration>, target: int, effects: string -> Effect, db: Db)
    requires target > 0 && db.ledger.Some? && NoBlankRow(db.ledger.value) && BaseAloneDrops(migrations, effects)
    ensures DownFrom(rows, migrations, target, effects, db).Ok? <==> CanGoDown(rows, migrations, target, effects)
  {
    if rows != [] && migrations != [] {
      var row, rest := rows[0], rows[1..];
      ServedExactly(migrations, row.service);
      CanGoDownCons(rows, migrations, target, effects);
      if IsServed(migrations, row.service) && Definition(migrations, row).Some? && row.version > target {
        RollBackAbove(db, row, migrations, target, effects);
        var next := RolledBack(db, Definition(migrations, row).value, effects);
        if next.Ok? {
          DownSucceedsExactly(rest, migrations, target, effects, next.value);
        }
      } else {
        DownSucceedsExactly(rest, migrations, target, effects, db);
      }
    }
  }

  lemma CanGoDownCons(rows: seq<RowKey>, migrations: seq<Migration>, target: int, effects: string -> Effect)
    requires rows != [] && migrations != []
    ensures CanGoDown(rows, migrations, target, effects) <==>
      LetsRowGo(migrations, target, effects, rows[0]) && CanGoDown(rows[1..], migrations, target, effects)
  {
    assert forall row :: row in rows <==> row == rows[0] || row in rows[1..];
  }

  lemma NamedRowsPlus(ledger: set<RowKey>, row: RowKey, rest: seq<RowKey>, migrations: seq<Migration>)
    ensures (if Named(migrations, row) then ledger - {row} else ledger) - NamedRows(rest, migrations) ==
      ledger - NamedRows([row] + rest, migrations)
  {
    assert forall other :: other in [row] + rest <==> other == row || other in rest;
  }

  lemma Associates(log: seq<Script>, script: Script, rest: seq<Script>)
    ensures log + [script] + rest == log + ([script] + rest)
  {
  }

  /** What a successful way down leaves in the ledger and adds to the log. */
  lemma {:induction false} DownEffect(rows: seq<RowKey>, migrations: seq<Migration>, target: int, effects: string -> Effect, db: Db)
    requires target > 0 && db.ledger.Some? && NoBlankRow(db.ledger.value) && BaseAloneDrops(migrations, effects)
    requires CanGoDown(rows, migrations, target, effects)
    ensures var going := GoingDown(rows, migrations, target);
      && (forall row | row in going :: Definition(migrations, row).Some?)
      && DownFrom(rows, migrations, target, effects, db) ==
           Ok(Db(Some(db.ledger.value - NamedRows(going, migrations)), db.log + DownScripts(going, migrations)))
  {
    var going := GoingDown(rows, migrations, target);
    assert forall row | row in going :: LetsRowGo(migrations, target, effects, row);
    if rows == [] {
      assert NamedRows(going, migrations) == {} && DownScripts(going, migrations) == [];
      assert db.ledger.value - {} == db.ledger.value && db.log + [] == db.log;
    } else {
      var row, rest := rows[0], rows[1..];
      ServedExactly(migrations, row.service);
      CanGoDownCons(rows, migrations, target, effects);
      if GoesDown(migrations, target, row) {
        RollBackAbove(db, row, migrations, target, effects);
        var next := RolledBack(db, Definition(migrations, row).value, effects).value;
        DownEffect(rest, migrations, target, effects, next);
        GoingDownCons(rows, migrations, target);
        NamedRowsPlus(db.ledger.value, row, GoingDown(rest, migrations, target), migrations);
        assert going == [row] + GoingDown(rest, migrations, target);
        Associates(db.log, Down(row, Definition(migrations, row).value.down), DownScripts(GoingDown(rest, migrations, target), migrations));
      } else {
        DownEffect(rest, migrations, target, effects, db);
      }
    }
  }

  /**
   Down to a version, from any ledger and in any collation: it succeeds exactly when every served row
   is defined and every one above the target has a down script that works.  Then the rows left are
   those at or below the target, those of a service not asked about, and those whose definition
   leaves its service blank, and the down scripts of the served rows above the target have run in the
   order listed.
   */
  lemma DownToTarget(db: Db, rows: seq<RowKey>, migrations: seq<Migration>, target: int, effects: string -> Effect, collates: (string, string) -> bool)
    requires target > 0 && db.ledger.Some? && NoBlankRow(db.ledger.value) && BaseAloneDrops(migrations, effects)
    requires IsListing(rows, db.ledger.value, RowOrder(collates))
    ensures var down := MigrateDown(db, rows, migrations, target, effects);
      var going := GoingDown(rows, migrations, target);
      && (down.Ok? <==> CanGoDown(rows, migrations, target, effects))
      && (down.Ok? ==>
            && down.value.ledger.Some?
            && (forall row :: row in down.value.ledger.value <==>
                  && row in db.ledger.value
                  && (row.version <= target || !IsServed(migrations, row.service) || !Named(migrations, row)))
            && (forall row | row in going :: Definition(migrations, row).Some?)
            && down.value.log == db.log + DownScripts(going, migrations))
  {
    DownSucceedsExactly(rows, migrations, target, effects, db);
    if CanGoDown(rows, migrations, target, effects) {
      DownEffect(rows, migrations, target, effects, db);
    }
  }

  /** All the way up and down to a version again leaves exactly the keys up to it and those with a blank service. */
  lemma UpThenDownToTarget(migrations: seq<Migration>, target: int, effects: string -> Effect, collates: (string, string) -> bool, rows: seq<RowKey>)
    requires target > 0 && Reversible(migrations, effects) && IsListing(rows, KeySet(migrations), RowOrder(collates))
    ensures var up := MigrateUp(EMPTY, migrations, 0, effects);
      up.Ok?
      && var down := MigrateDown(up.value, rows, migrations, target, effects);
         && down.Ok? && down.value.ledger.Some?
         && (forall m | m in migrations ::
               KeyOf(m) in down.value.ledger.value <==> m.version <= target || m.service == "")
         && down.value.ledger.value <= KeySet(migrations)
  {
    UpFromEmpty(migrations, effects);
    ListingIsUndoable(rows, migrations, effects, collates);
    var up := MigrateUp(EMPTY, migrations, 0, effects).value;
    forall row | row in rows
      ensures LetsRowGo(migrations, target, effects, row) && row.service != ""
    {
      assert UndoneBy(row, Definition(migrations, row), effects);
    }
    DownToTarget(up, rows, migrations, target, effects, collates);
    forall m | m in migrations
      ensures var down := MigrateDown(up, rows, migrations, target, effects).value;
        KeyOf(m) in down.ledger.value <==> m.version <= target || m.service == ""
    {
      DefinitionOfDistinct(migrations, m);
      var i :| 0 <= i < |migrations| && migrations[i] == m;
      assert IsServed(migrations, KeyOf(m).service);
      assert KeyOf(m) in KeySet(migrations);
    }
  }
}
