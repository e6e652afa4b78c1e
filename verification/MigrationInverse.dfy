/** Migrating all the way up and then all the way down again. */
module MigrationInverse {
  import opened Wrappers
  import opened MigrationOrder
  import opened Migrations
  import Strings = Text

  /** Distinct keys, versions from 1, and scripts that work; only the base migration's down script drops the ledger. */
  predicate Reversible(migrations: seq<Migration>, effects: string -> Effect)
  {
    && Distinct(migrations)
    && forall m | m in migrations :: IsReversible(m, effects)
  }

  predicate IsReversible(m: Migration, effects: string -> Effect)
  {
    && m.version >= 1 && m.down != "" && effects(m.up) == Plain
    && effects(m.down) == if KeyOf(m) == BASE then DropsLedger else Plain
  }

  function UpOrder(migrations: seq<Migration>): (order: seq<Migration>)
  {
    Sort(Normalised(migrations))
  }

  /* ---------- Up from empty ---------- */

  lemma NormalisedKeeps(migrations: seq<Migration>)
    ensures Distinct(migrations) ==> Distinct(Normalised(migrations))
    ensures KeySet(Normalised(migrations)) == KeySet(migrations)
  {
    var named := Normalised(migrations);
    assert forall i | 0 <= i < |named| :: KeyOf(named[i]) == KeyOf(migrations[i]);
    forall key
      ensures key in KeySet(named) <==> key in KeySet(migrations)
    {
      if key in KeySet(named) {
        var m :| m in named && KeyOf(m) == key;
        var i :| 0 <= i < |named| && named[i] == m;
        assert migrations[i] in migrations;
      }
      if key in KeySet(migrations) {
        var m :| m in migrations && KeyOf(m) == key;
        var i :| 0 <= i < |migrations| && migrations[i] == m;
        assert named[i] in named;
      }
    }
  }

  /** An entry of the up order comes from a definition with the same key and scripts. */
  lemma OrderComesFrom(migrations: seq<Migration>, m: Migration) returns (raw: Migration)
    requires m in UpOrder(migrations)
    ensures raw in migrations && KeyOf(raw) == KeyOf(m) && raw.up == m.up && raw.down == m.down && raw.version == m.version
  {
    SortIsSort(Normalised(migrations));
    assert m in multiset(UpOrder(migrations));
    var i :| 0 <= i < |migrations| && Normalised(migrations)[i] == m;
    raw := migrations[i];
  }

  lemma UpOrderKeeps(migrations: seq<Migration>)
    requires Distinct(migrations)
    ensures Distinct(UpOrder(migrations)) && Ordered(UpOrder(migrations))
    ensures KeySet(UpOrder(migrations)) == KeySet(migrations)
  {
    NormalisedKeeps(migrations);
    SortIsSort(Normalised(migrations));
    SortKeepsDistinct(UpOrder(migrations), Normalised(migrations));
    SameKeySet(UpOrder(migrations), Normalised(migrations));
  }

  lemma {:induction false} PendingOfDistinct(order: seq<Migration>, ledger: set<RowKey>)
    requires Distinct(order) && KeySet(order) !! ledger
    ensures Pending(order, ledger) == order
  {
    if order != [] {
      assert order == [order[0]] + order[1..];
      KeySetCons(order[0], order[1..]);
      PendingOfDistinct(order[1..], ledger + {KeyOf(order[0])});
    }
  }

  lemma UpFromEmpty(migrations: seq<Migration>, effects: string -> Effect)
    requires Reversible(migrations, effects)
    ensures MigrateUp(EMPTY, migrations, 0, effects) == Ok(Db(Some(KeySet(migrations)), UpScripts(UpOrder(migrations))))
  {
    var order := UpOrder(migrations);
    UpOrderKeeps(migrations);
    UpRunsPlan(order, 0, effects, Bootstrapped(EMPTY));
    PendingOfDistinct(order, {});
    WithinIsLongestPrefix(order, 0);
    forall m | m in order
      ensures effects(m.up) == Plain
    {
      var raw := OrderComesFrom(migrations, m);
    }
    assert {} + KeySet(order) == KeySet(order) && [] + UpScripts(order) == UpScripts(order);
  }

  /* ---------- Down to nothing ---------- */

  lemma {:induction false} DefinitionOfDistinct(migrations: seq<Migration>, m: Migration)
    requires Distinct(migrations) && m in migrations
    ensures Definition(migrations, KeyOf(m)) == Some(m)
  {
    var rest, last := migrations[..|migrations| - 1], migrations[|migrations| - 1];
    if KeyOf(last) == KeyOf(m) {
      SameKeySameMigration(migrations, last, m);
    } else {
      assert migrations == rest + [last];
      DefinitionOfDistinct(rest, m);
    }
  }

  /** The rows are undone by reversible definitions, and nothing follows the base migration. */
  predicate Undoable(rows: seq<RowKey>, migrations: seq<Migration>, effects: string -> Effect)
  {
    && (forall row | row in rows :: UndoneBy(row, Definition(migrations, row), effects))
    && (forall i | 0 <= i < |rows| - 1 :: rows[i] != BASE)
  }

  predicate UndoneBy(row: RowKey, definition: Option<Migration>, effects: string -> Effect)
  {
    definition.Some? && KeyOf(definition.value) == row && IsReversible(definition.value, effects)
  }

  function DownScripts(rows: seq<RowKey>, migrations: seq<Migration>): (r: seq<Script>)
    requires forall row | row in rows :: Definition(migrations, row).Some?
  {
    seq(|rows|, i requires 0 <= i < |rows| => Down(rows[i], Definition(migrations, rows[i]).value.down))
  }

  /** The definition writes its service out, so that deleting the row finds it. */
  predicate Named(migrations: seq<Migration>, row: RowKey)
  {
    Definition(migrations, row).Some? && Definition(migrations, row).value.service != ""
  }

  function NamedRows(rows: seq<RowKey>, migrations: seq<Migration>): (r: set<RowKey>)
  {
    set row | row in rows && Named(migrations, row)
  }

  lemma {:induction false} DefinitionIsMember(migrations: seq<Migration>, row: RowKey)
    ensures var d := Definition(migrations, row); d.Some? ==> d.value in migrations && KeyOf(d.value) == row
  {
    if migrations != [] && KeyOf(migrations[|migrations| - 1]) != row {
      DefinitionIsMember(migrations[..|migrations| - 1], row);
    }
  }

  /** What undoing one row does to the ledger. */
  function Without(ledger: set<RowKey>, row: RowKey, migrations: seq<Migration>): (r: Option<set<RowKey>>)
  {
    if row == BASE then None else if Named(migrations, row) then Some(ledger - {row}) else Some(ledger)
  }

  lemma RollBackOne(db: Db, row: RowKey, migrations: seq<Migration>, effects: string -> Effect)
    requires db.ledger.Some? && RowKey("", row.version) !in db.ledger.value
    requires UndoneBy(row, Definition(migrations, row), effects)
    ensures var m := Definition(migrations, row).value;
      RolledBack(db, m, effects) == Ok(Db(Without(db.ledger.value, row, migrations), db.log + [Down(row, m.down)]))
  {
    assert db.ledger.value - {RowKey("", row.version)} == db.ledger.value;
  }

  lemma DownStep(rows: seq<RowKey>, migrations: seq<Migration>, effects: string -> Effect, db: Db)
    requires rows != [] && db.ledger.Some? && RowKey("", rows[0].version) !in db.ledger.value
    requires UndoneBy(rows[0], Definition(migrations, rows[0]), effects)
    ensures DownFrom(rows, migrations, 0, effects, db) == DownFrom(rows[1..], migrations, 0, effects,
      Db(Without(db.ledger.value, rows[0], migrations), db.log + [Down(rows[0], Definition(migrations, rows[0]).value.down)]))
  {
    DefinitionIsMember(migrations, rows[0]);
    RollBackOne(db, rows[0], migrations, effects);
  }

  lemma DownScriptsCons(rows: seq<RowKey>, migrations: seq<Migration>)
    requires rows != [] && forall row | row in rows :: Definition(migrations, row).Some?
    ensures DownScripts(rows, migrations) ==
      [Down(rows[0], Definition(migrations, rows[0]).value.down)] + DownScripts(rows[1..], migrations)
  {
  }

  lemma NamedRowsCons(ledger: set<RowKey>, rows: seq<RowKey>, migrations: seq<Migration>)
    requires rows != [] && rows[0] != BASE
    ensures Without(ledger, rows[0], migrations).value - NamedRows(rows[1..], migrations) == ledger - NamedRows(rows, migrations)
  {
    assert forall row :: row in rows <==> row == rows[0] || row in rows[1..];
  }

  lemma {:induction false} DownRuns(rows: seq<RowKey>, migrations: seq<Migration>, effects: string -> Effect, db: Db)
    requires Undoable(rows, migrations, effects) && db.ledger.Some?
    requires forall row | row in db.ledger.value :: row.service != ""
    ensures DownFrom(rows, migrations, 0, effects, db) == Ok(Db(
      if BASE in rows then None else Some(db.ledger.value - NamedRows(rows, migrations)),
      db.log + DownScripts(rows, migrations)))
  {
    if rows == [] {
      assert NamedRows(rows, migrations) == {} && DownScripts(rows, migrations) == [];
      assert db.ledger.value - {} == db.ledger.value && db.log + [] == db.log;
    } else {
      var row := rows[0];
      var script := Down(row, Definition(migrations, row).value.down);
      DownStep(rows, migrations, effects, db);
      DownScriptsCons(rows, migrations);
      assert db.log + DownScripts(rows, migrations) == db.log + [script] + DownScripts(rows[1..], migrations);
      if row == BASE {
        assert rows[1..] == [] && DownScripts(rows[1..], migrations) == [];
        assert BASE in rows && db.log + [script] + [] == db.log + [script];
      } else {
        DownRuns(rows[1..], migrations, effects, Db(Without(db.ledger.value, row, migrations), db.log + [script]));
        NamedRowsCons(db.ledger.value, rows, migrations);
        assert BASE in rows <==> BASE in rows[1..];
      }
    }
  }

  /** Core rows come last whatever the collation, and the base migration last of all. */
  lemma ListingIsUndoable(rows: seq<RowKey>, migrations: seq<Migration>, effects: string -> Effect, collates: (string, string) -> bool)
    requires Reversible(migrations, effects) && IsListing(rows, KeySet(migrations), RowOrder(collates))
    ensures Undoable(rows, migrations, effects)
    ensures forall i, j | 0 <= i < j < |rows| && rows[i].service == "core" :: rows[j].service == "core"
  {
    forall row | row in rows
      ensures UndoneBy(row, Definition(migrations, row), effects)
    {
      assert row in KeySet(migrations);
      var m :| m in migrations && KeyOf(m) == row;
      DefinitionOfDistinct(migrations, m);
    }
    forall i, j | 0 <= i < j < |rows| && rows[i].service == "core"
      ensures rows[j].service == "core" && rows[i].version > rows[j].version
    {
      assert RowOrder(collates)(rows[i], rows[j]);
    }
    forall i | 0 <= i < |rows| - 1
      ensures rows[i] != BASE
    {
      assert UndoneBy(rows[i + 1], Definition(migrations, rows[i + 1]), effects);
    }
  }

  /* ---------- The order of the way down ---------- */

  predicate AgreeOn(collates: (string, string) -> bool, a: RowKey, b: RowKey)
  {
    Less(a.service, b.service) ==> collates(a.service, b.service)
  }

  /** The database orders the registered services, other than core, as the migrator does. */
  predicate Agrees(collates: (string, string) -> bool, keys: set<RowKey>)
  {
    forall a, b | a in keys && b in keys && a.service != "core" && b.service != "core" :: AgreeOn(collates, a, b)
  }

  function Reversed(keys: seq<RowKey>): (r: seq<RowKey>)
  {
    seq(|keys|, i requires 0 <= i < |keys| => keys[|keys| - 1 - i])
  }

  lemma AgreementReverses(collates: (string, string) -> bool, keys: seq<RowKey>, members: set<RowKey>)
    requires IsListing(keys, members, Before) && Agrees(collates, members)
    ensures IsListing(Reversed(keys), members, RowOrder(collates))
  {
    var back := Reversed(keys);
    forall i, j | 0 <= i < j < |back|
      ensures RowOrder(collates)(back[i], back[j])
    {
      assert back[j] in keys && back[i] in keys;
      assert Before(back[j], back[i]);
      assert AgreeOn(collates, back[j], back[i]) || back[i].service == "core" || back[j].service == "core";
    }
    forall row
      ensures row in back <==> row in members
    {
      if row in keys {
        var i :| 0 <= i < |keys| && keys[i] == row;
        assert back[|keys| - 1 - i] == row;
      }
    }
  }

  lemma ReversalAgreesOn(collates: (string, string) -> bool, keys: seq<RowKey>, rows: seq<RowKey>, members: set<RowKey>, i: nat, j: nat)
    requires IsListing(keys, members, Before) && IsListing(rows, members, RowOrder(collates)) && rows == Reversed(keys)
    requires i < |keys| && j < |keys| && keys[i].service != "core" && keys[j].service != "core"
    ensures AgreeOn(collates, keys[i], keys[j])
  {
    if Less(keys[i].service, keys[j].service) {
      LessIsTotal(keys[i].service, keys[j].service);
      BeforeIsTotal(keys[i], keys[j]);
      var n := |keys|;
      assert rows[n - 1 - j] == keys[j] && rows[n - 1 - i] == keys[i];
      assert i < j;
      assert RowOrder(collates)(rows[n - 1 - j], rows[n - 1 - i]);
    }
  }

  lemma ReversalAgrees(collates: (string, string) -> bool, keys: seq<RowKey>, rows: seq<RowKey>, members: set<RowKey>)
    requires IsListing(keys, members, Before) && IsListing(rows, members, RowOrder(collates)) && rows == Reversed(keys)
    ensures Agrees(collates, members)
  {
    forall a, b | a in members && b in members && a.service != "core" && b.service != "core"
      ensures AgreeOn(collates, a, b)
    {
      assert a in keys && b in keys;
      var i :| 0 <= i < |keys| && keys[i] == a;
      var j :| 0 <= j < |keys| && keys[j] == b;
      ReversalAgreesOn(collates, keys, rows, members, i, j);
    }
  }

  /** The database's listing is the up order backwards exactly when its collation agrees. */
  lemma DownOrderExactly(migrations: seq<Migration>, rows: seq<RowKey>, collates: (string, string) -> bool)
    requires Distinct(migrations) && IsCollation(collates)
    requires IsListing(rows, KeySet(migrations), RowOrder(collates))
    ensures rows == Reversed(Keys(UpOrder(migrations))) <==> Agrees(collates, KeySet(migrations))
  {
    var order, members := UpOrder(migrations), KeySet(migrations);
    UpOrderKeeps(migrations);
    SortedKeysAreListing(order);
    if Agrees(collates, members) {
      AgreementReverses(collates, Keys(order), members);
      RowOrderIsStrict(collates);
      ListingIsUnique(rows, Reversed(Keys(order)), members, RowOrder(collates));
    }
    if rows == Reversed(Keys(order)) {
      ReversalAgrees(collates, Keys(order), rows, members);
    }
  }

  /* ---------- Main results ---------- */

  /** The down scripts of a list of migrations, last one first. */
  function Undo(order: seq<Migration>): (r: seq<Script>)
  {
    seq(|order|, i requires 0 <= i < |order| => Down(KeyOf(order[|order| - 1 - i]), order[|order| - 1 - i].down))
  }

  predicate NothingApplied(db: Db)
  {
    db.ledger.None? || db.ledger.value == {}
  }

  /**
   Up from empty and down to 0 both succeed.  Nothing is left applied exactly when the base
   migration, whose down script drops the ledger, is registered, or no definition leaves its service blank.
   */
  lemma UpThenDown(migrations: seq<Migration>, effects: string -> Effect, collates: (string, string) -> bool, rows: seq<RowKey>)
    requires Reversible(migrations, effects) && IsListing(rows, KeySet(migrations), RowOrder(collates))
    ensures var up := MigrateUp(EMPTY, migrations, 0, effects);
      up.Ok? && up.value.ledger == Some(KeySet(migrations)) && up.value.log == UpScripts(UpOrder(migrations))
      && var down := MigrateDown(up.value, rows, migrations, 0, effects);
         && down.Ok?
         && (forall row | row in rows :: Definition(migrations, row).Some?)
         && down.value.log == up.value.log + DownScripts(rows, migrations)
         && (NothingApplied(down.value) <==> BASE in KeySet(migrations) || NoneBlank(migrations))
  {
    UpFromEmpty(migrations, effects);
    ListingIsUndoable(rows, migrations, effects, collates);
    var up := MigrateUp(EMPTY, migrations, 0, effects).value;
    forall row | row in KeySet(migrations)
      ensures row.service != ""
    {
      var m :| m in migrations && KeyOf(m) == row;
    }
    DownRuns(rows, migrations, effects, up);
    LeftoverExactly(rows, migrations);
    assert BASE in rows <==> BASE in KeySet(migrations);
  }

  lemma LeftoverExactly(rows: seq<RowKey>, migrations: seq<Migration>)
    requires Distinct(migrations) && forall row :: row in rows <==> row in KeySet(migrations)
    ensures KeySet(migrations) - NamedRows(rows, migrations) == {} <==> NoneBlank(migrations)
  {
    if KeySet(migrations) - NamedRows(rows, migrations) == {} {
      forall m | m in migrations
        ensures m.service != ""
      {
        DefinitionOfDistinct(migrations, m);
        assert KeyOf(m) in KeySet(migrations) - NamedRows(rows, migrations) <==> KeyOf(m) !in NamedRows(rows, migrations);
      }
    }
    if NoneBlank(migrations) {
      forall row | row in KeySet(migrations)
        ensures row in NamedRows(rows, migrations)
      {
        var m :| m in migrations && KeyOf(m) == row;
        DefinitionOfDistinct(migrations, m);
      }
    }
  }

  /** The way down runs the down scripts in exactly the reverse of the up order iff the collation agrees. */
  lemma DownInvertsUp(migrations: seq<Migration>, effects: string -> Effect, collates: (string, string) -> bool, rows: seq<RowKey>)
    requires Reversible(migrations, effects) && IsCollation(collates)
    requires IsListing(rows, KeySet(migrations), RowOrder(collates))
    ensures var up := MigrateUp(EMPTY, migrations, 0, effects);
      up.Ok?
      && var down := MigrateDown(up.value, rows, migrations, 0, effects);
         down.Ok?
         && (down.value.log == UpScripts(UpOrder(migrations)) + Undo(UpOrder(migrations)) <==> Agrees(collates, KeySet(migrations)))
  {
    UpThenDown(migrations, effects, collates, rows);
    DownOrderExactly(migrations, rows, collates);
    UndoExactly(migrations, rows);
    SameTail(UpScripts(UpOrder(migrations)), DownScripts(rows, migrations), Undo(UpOrder(migrations)));
  }

  lemma ReversedIsUndoneAt(migrations: seq<Migration>, rows: seq<RowKey>, i: nat)
    requires Distinct(migrations) && (forall row | row in rows :: Definition(migrations, row).Some?)
    requires rows == Reversed(Keys(UpOrder(migrations))) && i < |rows|
    ensures DownScripts(rows, migrations)[i] == Undo(UpOrder(migrations))[i]
  {
    var m := UpOrder(migrations)[|rows| - 1 - i];
    assert rows[i] == KeyOf(m);
    DefinedDown(migrations, m);
  }

  lemma ReversedIsUndone(migrations: seq<Migration>, rows: seq<RowKey>)
    requires Distinct(migrations) && (forall row | row in rows :: Definition(migrations, row).Some?)
    requires rows == Reversed(Keys(UpOrder(migrations)))
    ensures DownScripts(rows, migrations) == Undo(UpOrder(migrations))
  {
    var scripts, undo := DownScripts(rows, migrations), Undo(UpOrder(migrations));
    assert |scripts| == |rows| == |undo|;
    forall i | 0 <= i < |rows|
      ensures scripts[i] == undo[i]
    {
      ReversedIsUndoneAt(migrations, rows, i);
    }
  }

  lemma DefinedDown(migrations: seq<Migration>, m: Migration)
    requires Distinct(migrations) && m in UpOrder(migrations)
    ensures var d := Definition(migrations, KeyOf(m)); d.Some? && d.value.down == m.down
  {
    var raw := OrderComesFrom(migrations, m);
    DefinitionOfDistinct(migrations, raw);
  }

  lemma UndoneIsReversed(order: seq<Migration>, migrations: seq<Migration>, rows: seq<RowKey>)
    requires forall row | row in rows :: Definition(migrations, row).Some?
    requires DownScripts(rows, migrations) == Undo(order)
    ensures rows == Reversed(Keys(order))
  {
    var scripts, undo, back := DownScripts(rows, migrations), Undo(order), Reversed(Keys(order));
    assert |rows| == |scripts| == |undo| == |back|;
    forall i | 0 <= i < |rows|
      ensures rows[i] == back[i]
    {
      assert scripts[i].key == undo[i].key;
    }
  }

  lemma UndoExactly(migrations: seq<Migration>, rows: seq<RowKey>)
    requires Distinct(migrations) && forall row | row in rows :: Definition(migrations, row).Some?
    ensures DownScripts(rows, migrations) == Undo(UpOrder(migrations)) <==> rows == Reversed(Keys(UpOrder(migrations)))
  {
    if rows == Reversed(Keys(UpOrder(migrations))) {
      ReversedIsUndone(migrations, rows);
    } else if DownScripts(rows, migrations) == Undo(UpOrder(migrations)) {
      UndoneIsReversed(UpOrder(migrations), migrations, rows);
    }
  }

  lemma SameTail(front: seq<Script>, a: seq<Script>, b: seq<Script>)
    ensures front + a == front + b <==> a == b
  {
    assert (front + a)[|front|..] == a && (front + b)[|front|..] == b;
  }

  /* ---------- What breaks the two conditions ---------- */

  /** Compare without regard to case first, as language collations do, and by bytes among equals. */
  predicate IgnoresCase(a: string, b: string)
  {
    if Strings.Lower(a) != Strings.Lower(b) then Less(Strings.Lower(a), Strings.Lower(b)) else Less(a, b)
  }

  lemma IgnoringCaseIsTransitive(a: string, b: string, c: string)
    requires IgnoresCase(a, b) && IgnoresCase(b, c)
    ensures IgnoresCase(a, c)
  {
    var x, y, z := Strings.Lower(a), Strings.Lower(b), Strings.Lower(c);
    LessIsTotal(x, y);
    if x != y && y != z {
      LessIsTransitive(x, y, z);
      LessIsTotal(x, z);
    } else if x == y == z {
      LessIsTransitive(a, b, c);
    }
  }

  lemma IgnoringCaseIsCollation()
    ensures IsCollation(IgnoresCase)
  {
    forall a, b
      ensures !(IgnoresCase(a, b) && IgnoresCase(b, a)) && (a != b ==> IgnoresCase(a, b) || IgnoresCase(b, a))
    {
      LessIsTotal(a, b);
      LessIsTotal(Strings.Lower(a), Strings.Lower(b));
    }
    forall a, b, c | IgnoresCase(a, b) && IgnoresCase(b, c)
      ensures IgnoresCase(a, c)
    {
      IgnoringCaseIsTransitive(a, b, c);
    }
  }

  lemma UpperBeforeLower()
    ensures Less("B", "a") && IgnoresCase("a", "B")
  {
    assert Strings.Lower("B") == ['b'] + Strings.Lower("B"[1..]) && "B"[1..] == "";
    assert Strings.Lower("a") == ['a'] + Strings.Lower("a"[1..]) && "a"[1..] == "";
  }

  /** With a collation that ignores case, the services "B" and "a" go down in the order they came up in. */
  lemma CollationReordersDown()
    ensures IsCollation(IgnoresCase)
    ensures var first, second := Migration("B", 1, "", "create B", "drop B"), Migration("a", 1, "", "create a", "drop a");
      var b, a := RowKey("B", 1), RowKey("a", 1);
      var up := Db(Some({b, a}), [Up(b, "create B"), Up(a, "create a")]);
      && !Agrees(IgnoresCase, {b, a})
      && IsListing([b, a], {b, a}, RowOrder(IgnoresCase))
      && MigrateUp(EMPTY, [first, second], 0, AlwaysPlain) == Ok(up)
      && MigrateDown(up, [b, a], [first, second], 0, AlwaysPlain) == Ok(Db(Some({}), up.log + [Down(b, "drop B"), Down(a, "drop a")]))
  {
    var first, second := Migration("B", 1, "", "create B", "drop B"), Migration("a", 1, "", "create a", "drop a");
    IgnoringCaseIsCollation();
    UpperBeforeLower();
    LessIsTotal("B", "a");
    CaseOrder(RowKey("B", 1), RowKey("a", 1));
    TwoUp(first, second);
    TwoDown(first, second);
  }

  lemma CaseOrder(b: RowKey, a: RowKey)
    requires b.service != "core" && a.service != "core" && b.service != a.service
    requires Less(b.service, a.service) && IgnoresCase(a.service, b.service) && IsCollation(IgnoresCase)
    ensures !Agrees(IgnoresCase, {b, a}) && IsListing([b, a], {b, a}, RowOrder(IgnoresCase))
  {
    assert !AgreeOn(IgnoresCase, b, a);
    var rows := [b, a];
    forall i, j | 0 <= i < j < |rows|
      ensures RowOrder(IgnoresCase)(rows[i], rows[j])
    {
      assert i == 0 && j == 1;
    }
  }

  lemma TwoUp(first: Migration, second: Migration)
    requires first.service != "" && second.service != "" && Before(KeyOf(first), KeyOf(second))
    ensures MigrateUp(EMPTY, [first, second], 0, AlwaysPlain) ==
      Ok(Db(Some({KeyOf(first), KeyOf(second)}), [Up(KeyOf(first), first.up), Up(KeyOf(second), second.up)]))
  {
    var migrations, empty := [first, second], Bootstrapped(EMPTY);
    BeforeIsTotal(KeyOf(first), KeyOf(second));
    assert Normalised(migrations) == migrations;
    assert migrations[1..] == [second] && [second][1..] == [];
    assert Sort([second]) == [second] && Sort(migrations) == [first, second];
    var one := Applied(empty, first);
    assert {} + {KeyOf(first)} == {KeyOf(first)} && [] + [Up(KeyOf(first), first.up)] == [Up(KeyOf(first), first.up)];
    assert one == Db(Some({KeyOf(first)}), [Up(KeyOf(first), first.up)]);
    var two := Applied(one, second);
    assert two.log == [Up(KeyOf(first), first.up), Up(KeyOf(second), second.up)];
    assert {KeyOf(first)} + {KeyOf(second)} == {KeyOf(first), KeyOf(second)};
    assert UpFrom([], 0, AlwaysPlain, two) == Ok(two);
    assert UpFrom([second], 0, AlwaysPlain, one) == Ok(two);
    assert UpFrom(migrations, 0, AlwaysPlain, empty) == Ok(two);
  }

  lemma TwoDown(first: Migration, second: Migration)
    requires first.service != "" && second.service != "" && KeyOf(first) != KeyOf(second) && first.down != "" && second.down != ""
    requires KeyOf(first) != BASE && KeyOf(second) != BASE
    ensures var log := [Up(KeyOf(first), first.up), Up(KeyOf(second), second.up)];
      MigrateDown(Db(Some({KeyOf(first), KeyOf(second)}), log), [KeyOf(first), KeyOf(second)], [first, second], 0, AlwaysPlain) ==
        Ok(Db(Some({}), log + [Down(KeyOf(first), first.down), Down(KeyOf(second), second.down)]))
  {
    var a, b, migrations := KeyOf(first), KeyOf(second), [first, second];
    var log := [Up(a, first.up), Up(b, second.up)];
    var both := Db(Some({a, b}), log);
    assert migrations[..1] == [first] && first in migrations && second in migrations;
    assert Definition([first], a) == Some(first);
    assert Definition(migrations, a) == Some(first) && Definition(migrations, b) == Some(second);
    var one := Db(Some({b}), log + [Down(a, first.down)]);
    assert {a, b} - {a} == {b} && {b} - {b} == {};
    assert RolledBack(both, first, AlwaysPlain) == Ok(one);
    var none := Db(Some({}), log + [Down(a, first.down), Down(b, second.down)]);
    assert one.log + [Down(b, second.down)] == none.log;
    assert RolledBack(one, second, AlwaysPlain) == Ok(none);
    assert [a, b][1..] == [b] && [b][1..] == [];
    assert DownFrom([], migrations, 0, AlwaysPlain, none) == Ok(none);
    assert DownFrom([b], migrations, 0, AlwaysPlain, one) == Ok(none);
    assert DownFrom([a, b], migrations, 0, AlwaysPlain, both) == Ok(none);
  }

  function AlwaysPlain(sql: string): (effect: Effect)
  {
    Plain
  }

  /** A definition with a blank service is undone, yet its row stays. */
  lemma BlankServiceStaysApplied()
    ensures var migrations, row := [Migration("", 2, "", "create", "drop")], RowKey("core", 2);
      var up := Db(Some({row}), [Up(row, "create")]);
      && MigrateUp(EMPTY, migrations, 0, AlwaysPlain) == Ok(up)
      && MigrateDown(up, [row], migrations, 0, AlwaysPlain) == Ok(up.(log := up.log + [Down(row, "drop")]))
  {
    var m, row := Migration("", 2, "", "create", "drop"), RowKey("core", 2);
    var named := m.(service := "core");
    var up := Db(Some({row}), [Up(row, "create")]);
    assert Normalised([m]) == [named];
    assert Sort([named]) == [named];
    assert {} + {row} == {row} && [] + [Up(row, "create")] == [Up(row, "create")];
    assert Applied(Bootstrapped(EMPTY), named) == up;
    assert UpFrom([], 0, AlwaysPlain, up) == Ok(up);
    assert Definition([m], row) == Some(m);
    assert m in [m] && KeyOf(m).service == "core";
    assert {row} - {RowKey("", 2)} == {row};
    var down := up.(log := up.log + [Down(row, "drop")]);
    assert RolledBack(up, m, AlwaysPlain) == Ok(down);
    assert DownFrom([], [m], 0, AlwaysPlain, down) == Ok(down);
    assert [row][1..] == [] && [named][1..] == [];
  }
}
