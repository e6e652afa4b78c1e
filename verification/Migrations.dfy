/**
 Migrating a database up and down.  A run is one transaction: it either commits all it did or
 leaves the database as it was.  What a script does is an oracle on its text.
 */
module Migrations {
  import opened Wrappers
  import opened MigrationOrder

  datatype Effect = Fails | Plain | DropsLedger

  datatype Script = Up(key: RowKey, sql: string) | Down(key: RowKey, sql: string)

  /** The table `core.migrations`, absent before the first run, and the scripts run so far. */
  datatype Db = Db(ledger: Option<set<RowKey>>, log: seq<Script>)

  const EMPTY := Db(None, [])
  const BASE := RowKey("core", 1)

  /* ---------- Up ---------- */

  function Normalised(migrations: seq<Migration>): (r: seq<Migration>)
  {
    seq(|migrations|, i requires 0 <= i < |migrations| =>
      if migrations[i].service == "" then migrations[i].(service := "core") else migrations[i])
  }

  function Bootstrapped(db: Db): (r: Db)
    ensures r.ledger.Some?
  {
    if db.ledger.None? then db.(ledger := Some({})) else db
  }

  function Applied(db: Db, m: Migration): (r: Db)
    requires db.ledger.Some?
  {
    Db(Some(db.ledger.value + {KeyOf(m)}), db.log + [Up(KeyOf(m), m.up)])
  }

  /** The loop over the ordered migrations; it stops at the first that is beyond the target. */
  function UpFrom(order: seq<Migration>, target: int, effects: string -> Effect, db: Db): (r: Result<Db>)
    requires db.ledger.Some?
  {
    if order == [] then Ok(db)
    else if KeyOf(order[0]) in db.ledger.value then UpFrom(order[1..], target, effects, db)
    else if target > 0 && order[0].version > target then Ok(db)
    else if effects(order[0].up) != Plain then Err("failed up migration")
    else UpFrom(order[1..], target, effects, Applied(db, order[0]))
  }

  function MigrateUp(db: Db, migrations: seq<Migration>, target: int, effects: string -> Effect): (r: Result<Db>)
  {
    UpFrom(Sort(Normalised(migrations)), target, effects, Bootstrapped(db))
  }

  /** The migrations not yet recorded, each key once. */
  function Pending(order: seq<Migration>, ledger: set<RowKey>): (r: seq<Migration>)
  {
    if order == [] then []
    else if KeyOf(order[0]) in ledger then Pending(order[1..], ledger)
    else [order[0]] + Pending(order[1..], ledger + {KeyOf(order[0])})
  }

  /** The longest prefix within the target; target 0 means everything. */
  function Within(pending: seq<Migration>, target: int): (r: seq<Migration>)
  {
    if pending == [] || (target > 0 && pending[0].version > target) then []
    else [pending[0]] + Within(pending[1..], target)
  }

  function KeySet(migrations: seq<Migration>): (keys: set<RowKey>)
  {
    set m | m in migrations :: KeyOf(m)
  }

  function UpScripts(migrations: seq<Migration>): (r: seq<Script>)
  {
    seq(|migrations|, i requires 0 <= i < |migrations| => Up(KeyOf(migrations[i]), migrations[i].up))
  }

  predicate AllPlain(migrations: seq<Migration>, effects: string -> Effect)
  {
    forall m | m in migrations :: effects(m.up) == Plain
  }

  lemma {:induction false} WithinIsLongestPrefix(pending: seq<Migration>, target: int)
    ensures var plan := Within(pending, target);
      && plan <= pending
      && (target > 0 ==> forall m | m in plan :: m.version <= target)
      && (target <= 0 ==> plan == pending)
      && (|plan| < |pending| ==> pending[|plan|].version > target > 0)
  {
    if pending != [] && !(target > 0 && pending[0].version > target) {
      WithinIsLongestPrefix(pending[1..], target);
    }
  }

  lemma {:induction false} PendingCoversOrder(order: seq<Migration>, ledger: set<RowKey>)
    ensures ledger + KeySet(Pending(order, ledger)) == ledger + KeySet(order)
    ensures KeySet(Pending(order, ledger)) !! ledger && Distinct(Pending(order, ledger))
  {
    if order != [] {
      var m := order[0];
      assert order == [m] + order[1..];
      KeySetCons(m, order[1..]);
      if KeyOf(m) in ledger {
        PendingCoversOrder(order[1..], ledger);
      } else {
        var rest := Pending(order[1..], ledger + {KeyOf(m)});
        PendingCoversOrder(order[1..], ledger + {KeyOf(m)});
        KeySetCons(m, rest);
        DistinctCons(m, rest);
      }
    }
  }

  lemma DistinctCons(m: Migration, rest: seq<Migration>)
    requires Distinct(rest) && KeyOf(m) !in KeySet(rest)
    ensures Distinct([m] + rest)
  {
    var s := [m] + rest;
    forall i, j | 0 <= i < j < |s|
      ensures KeyOf(s[i]) != KeyOf(s[j])
    {
      assert s[j] == rest[j - 1] && s[j] in rest && KeyOf(s[j]) in KeySet(rest);
    }
  }

  lemma KeySetCons(m: Migration, rest: seq<Migration>)
    ensures KeySet([m] + rest) == {KeyOf(m)} + KeySet(rest)
  {
    assert forall x :: x in [m] + rest <==> x == m || x in rest;
    assert m in [m] + rest;
  }

  /** One pass over the list does what planning first and then running the plan would do. */
  lemma {:induction false} UpRunsPlan(order: seq<Migration>, target: int, effects: string -> Effect, db: Db)
    requires db.ledger.Some?
    ensures var plan := Within(Pending(order, db.ledger.value), target);
      UpFrom(order, target, effects, db) ==
        if AllPlain(plan, effects) then Ok(Db(Some(db.ledger.value + KeySet(plan)), db.log + UpScripts(plan)))
        else Err("failed up migration")
  {
    var ledger := db.ledger.value;
    var plan := Within(Pending(order, ledger), target);
    if order == [] || (KeyOf(order[0]) !in ledger && target > 0 && order[0].version > target) {
      assert ledger + KeySet(plan) == ledger && db.log + UpScripts(plan) == db.log;
    } else if KeyOf(order[0]) in ledger {
      UpRunsPlan(order[1..], target, effects, db);
    } else {
      var m := order[0];
      UpRunsPlan(order[1..], target, effects, Applied(db, m));
      var rest := Within(Pending(order[1..], ledger + {KeyOf(m)}), target);
      PlanCons(db, m, rest, effects);
    }
  }

  lemma PlanCons(db: Db, m: Migration, rest: seq<Migration>, effects: string -> Effect)
    requires db.ledger.Some?
    ensures AllPlain([m] + rest, effects) <==> effects(m.up) == Plain && AllPlain(rest, effects)
    ensures db.ledger.value + KeySet([m] + rest) == db.ledger.value + {KeyOf(m)} + KeySet(rest)
    ensures db.log + UpScripts([m] + rest) == db.log + [Up(KeyOf(m), m.up)] + UpScripts(rest)
  {
    AllPlainCons(m, rest, effects);
    KeySetCons(m, rest);
    assert db.ledger.value + ({KeyOf(m)} + KeySet(rest)) == db.ledger.value + {KeyOf(m)} + KeySet(rest);
    UpScriptsCons(m, rest);
    assert db.log + ([Up(KeyOf(m), m.up)] + UpScripts(rest)) == db.log + [Up(KeyOf(m), m.up)] + UpScripts(rest);
  }

  lemma AllPlainCons(m: Migration, rest: seq<Migration>, effects: string -> Effect)
    ensures AllPlain([m] + rest, effects) <==> effects(m.up) == Plain && AllPlain(rest, effects)
  {
    assert m in [m] + rest && forall x | x in rest :: x in [m] + rest;
  }

  lemma UpScriptsCons(m: Migration, rest: seq<Migration>)
    ensures UpScripts([m] + rest) == [Up(KeyOf(m), m.up)] + UpScripts(rest)
  {
  }

  /* ---------- Down ---------- */

  /** The order in which the query lists applied rows: core last, services downward, versions downward. */
  function RowOrder(collates: (string, string) -> bool): (before: (RowKey, RowKey) -> bool)
  {
    (a: RowKey, b: RowKey) =>
      if a.service != b.service then
        if a.service == "core" then false
        else if b.service == "core" then true
        else collates(b.service, a.service)
      else a.version > b.version
  }

  /** A database collation is a strict total order on service names. */
  ghost predicate IsCollation(collates: (string, string) -> bool)
  {
    && (forall a, b :: !(collates(a, b) && collates(b, a)) && (a != b ==> collates(a, b) || collates(b, a)))
    && (forall a, b, c :: collates(a, b) && collates(b, c) ==> collates(a, c))
  }

  ghost predicate IsStrictOrder(before: (RowKey, RowKey) -> bool)
  {
    && IsAsymmetric(before)
    && (forall a, b :: a != b ==> before(a, b) || before(b, a))
    && (forall a, b, c :: before(a, b) && before(b, c) ==> before(a, c))
  }

  lemma RowOrderIsStrict(collates: (string, string) -> bool)
    requires IsCollation(collates)
    ensures IsStrictOrder(RowOrder(collates))
  {
    var before := RowOrder(collates);
    forall a: RowKey, b: RowKey
      ensures !(before(a, b) && before(b, a)) && (a != b ==> before(a, b) || before(b, a))
    {
      assert !(collates(a.service, b.service) && collates(b.service, a.service));
    }
    forall a: RowKey, b: RowKey, c: RowKey | before(a, b) && before(b, c)
      ensures before(a, c)
    {
      assert collates(c.service, b.service) && collates(b.service, a.service) ==> collates(c.service, a.service);
      assert !(collates(c.service, b.service) && collates(b.service, c.service));
    }
  }

  function InsertRow(row: RowKey, rows: seq<RowKey>, before: (RowKey, RowKey) -> bool): (r: seq<RowKey>)
  {
    if rows == [] then [row]
    else if before(rows[0], row) then [rows[0]] + InsertRow(row, rows[1..], before)
    else [row] + rows
  }

  lemma ListingCons(row: RowKey, rows: seq<RowKey>, members: set<RowKey>, before: (RowKey, RowKey) -> bool)
    requires IsListing(rows, members, before) && forall x | x in members :: before(row, x)
    ensures IsListing([row] + rows, members + {row}, before)
  {
    var r := [row] + rows;
    forall i, j | 0 <= i < j < |r|
      ensures before(r[i], r[j])
    {
      assert r[j] == rows[j - 1] && rows[j - 1] in rows;
    }
  }

  lemma {:induction false} InsertRowIsListing(row: RowKey, rows: seq<RowKey>, members: set<RowKey>, before: (RowKey, RowKey) -> bool)
    requires IsStrictOrder(before) && IsListing(rows, members, before) && row !in members
    ensures IsListing(InsertRow(row, rows, before), members + {row}, before)
    decreases |rows|
  {
    if rows == [] {
      ListingCons(row, rows, members, before);
    } else {
      var head := rows[0];
      assert head in rows;
      forall x | x in members
        ensures x == head || before(head, x)
      {
        HeadIsFirst(rows, x, members, before);
      }
      if before(head, row) {
        ListingTail(rows, members, before);
        InsertRowIsListing(row, rows[1..], members - {head}, before);
        ListingCons(head, InsertRow(row, rows[1..], before), members - {head} + {row}, before);
        assert members - {head} + {row} + {head} == members + {row};
      } else {
        ListingCons(row, rows, members, before);
      }
    }
  }

  /** The query over the ledger: its rows in the database's order. */
  method ListRows(ledger: set<RowKey>, collates: (string, string) -> bool) returns (rows: seq<RowKey>)
    requires IsCollation(collates)
    ensures IsListing(rows, ledger, RowOrder(collates))
  {
    RowOrderIsStrict(collates);
    rows := [];
    var pending := ledger;
    while pending != {}
      invariant pending <= ledger && IsListing(rows, ledger - pending, RowOrder(collates))
      decreases |pending|
    {
      var row :| row in pending;
      InsertRowIsListing(row, rows, ledger - pending, RowOrder(collates));
      rows := InsertRow(row, rows, RowOrder(collates));
      assert ledger - (pending - {row}) == ledger - pending + {row};
      pending := pending - {row};
    }
  }

  /** A definition listed later under the same key replaces an earlier one. */
  function Definition(migrations: seq<Migration>, key: RowKey): (r: Option<Migration>)
  {
    if migrations == [] then None
    else if KeyOf(migrations[|migrations| - 1]) == key then Some(migrations[|migrations| - 1])
    else Definition(migrations[..|migrations| - 1], key)
  }

  predicate ServesService(migrations: seq<Migration>, service: string)
  {
    exists m | m in migrations :: KeyOf(m).service == service
  }

  /** The row is deleted under the name the definition was written with, then the script runs. */
  function RolledBack(db: Db, m: Migration, effects: string -> Effect): (r: Result<Db>)
  {
    var isBase := m.service == "core" && m.version == 1;
    if !isBase && db.ledger.None? then Err("failed to delete migration record")
    else if effects(m.down) == Fails then Err("failed down migration")
    else
      var remaining := if isBase || db.ledger.None? then db.ledger else Some(db.ledger.value - {RowKey(m.service, m.version)});
      Ok(Db(if effects(m.down) == DropsLedger then None else remaining, db.log + [Down(KeyOf(m), m.down)]))
  }

  function DownFrom(rows: seq<RowKey>, migrations: seq<Migration>, target: int, effects: string -> Effect, db: Db): (r: Result<Db>)
  {
    if rows == [] then Ok(db)
    else if migrations == [] then Err("definition not found in registry")
    else if !ServesService(migrations, rows[0].service) then DownFrom(rows[1..], migrations, target, effects, db)
    else
      var definition := Definition(migrations, rows[0]);
      if definition.None? then Err("definition not found in registry")
      else if target > 0 && rows[0].version <= target then DownFrom(rows[1..], migrations, target, effects, db)
      else if definition.value.down == "" then Err("no DownSQL specified")
      else
        var next := RolledBack(db, definition.value, effects);
        if next.Err? then next else DownFrom(rows[1..], migrations, target, effects, next.value)
  }

  /** `rows` is what the query over the ledger returns. */
  function MigrateDown(db: Db, rows: seq<RowKey>, migrations: seq<Migration>, target: int, effects: string -> Effect): (r: Result<Db>)
  {
    if db.ledger.None? then Ok(db) else DownFrom(rows, migrations, target, effects, db)
  }

  /* ---------- The migrator ---------- */

  class Migrator {
    var ledger: Option<set<RowKey>>
    var log: seq<Script>

    function State(): (db: Db)
      reads this
    {
      Db(ledger, log)
    }

    constructor ()
      ensures State() == EMPTY
    {
      ledger, log := None, [];
    }

    method Up(migrations: seq<Migration>, target: int, effects: string -> Effect) returns (error: Option<string>)
      modifies this
      ensures match MigrateUp(old(State()), migrations, target, effects)
        case Ok(db) => error == None && State() == db
        case Err(reason) => error == Some(reason) && State() == old(State())
    {
      ghost var start := Bootstrapped(State());
      var rows := if ledger.None? then {} else ledger.value;
      var scripts := log;
      var applied := set row | row in rows :: Text(row);
      var order := Sort(Normalised(migrations));
      for i := 0 to |order|
        invariant applied == set row | row in rows :: Text(row)
        invariant State() == old(State())
        invariant UpFrom(order, target, effects, start) == UpFrom(order[i..], target, effects, Db(Some(rows), scripts))
      {
        var m := order[i];
        assert order[i..][1..] == order[i + 1..];
        TextsExactly(rows, KeyOf(m));
        if Text(KeyOf(m)) in applied {
          continue;
        }
        if target > 0 && m.version > target {
          ledger, log := Some(rows), scripts;
          return None;
        }
        if effects(m.up) != Plain {
          return Some("failed up migration");
        }
        scripts := scripts + [Script.Up(KeyOf(m), m.up)];
        TextsGrow(rows, KeyOf(m));
        rows := rows + {KeyOf(m)};
        applied := applied + {Text(KeyOf(m))};
      }
      ledger, log := Some(rows), scripts;
      return None;
    }

    method Down(collates: (string, string) -> bool, migrations: seq<Migration>, target: int, effects: string -> Effect) returns (error: Option<string>)
      requires IsCollation(collates)
      modifies this
      ensures old(ledger).None? ==> error == None && State() == old(State())
      ensures forall rows | old(ledger).Some? && IsListing(rows, old(ledger).value, RowOrder(collates)) ::
        match MigrateDown(old(State()), rows, migrations, target, effects)
        case Ok(db) => error == None && State() == db
        case Err(reason) => error == Some(reason) && State() == old(State())
    {
      if ledger.None? {
        return None;
      }
      var rows := ListRows(ledger.value, collates);
      RowOrderIsStrict(collates);
      forall listed | IsListing(listed, ledger.value, RowOrder(collates))
        ensures listed == rows
      {
        ListingIsUnique(listed, rows, ledger.value, RowOrder(collates));
      }
      var outcome := RollBack(State(), rows, migrations, target, effects);
      if outcome.Err? {
        return Some(outcome.reason);
      }
      ledger, log := outcome.value.ledger, outcome.value.log;
      return None;
    }
  }

  /** The loop over the applied rows, inside the transaction. */
  method RollBack(start: Db, rows: seq<RowKey>, migrations: seq<Migration>, target: int, effects: string -> Effect) returns (r: Result<Db>)
    ensures r == DownFrom(rows, migrations, target, effects, start)
  {
    var services, definitions := Index(migrations);
    var db := start;
    for i := 0 to |rows|
      invariant DownFrom(rows, migrations, target, effects, start) == DownFrom(rows[i..], migrations, target, effects, db)
    {
      var row := rows[i];
      assert rows[i..][1..] == rows[i + 1..];
      if |migrations| == 0 {
        return Err("definition not found in registry");
      }
      if row.service !in services {
        continue;
      }
      if Text(row) !in definitions {
        return Err("definition not found in registry");
      }
      if target > 0 && row.version <= target {
        continue;
      }
      if definitions[Text(row)].down == "" {
        return Err("no DownSQL specified");
      }
      var next := RolledBack(db, definitions[Text(row)], effects);
      if next.Err? {
        return next;
      }
      db := next.value;
    }
    return Ok(db);
  }

  lemma TextsExactly(rows: set<RowKey>, key: RowKey)
    ensures Text(key) in (set row | row in rows :: Text(row)) <==> key in rows
  {
    if Text(key) in (set row | row in rows :: Text(row)) {
      var row :| row in rows && Text(row) == Text(key);
      TextIsInjective(row, key);
    }
  }

  lemma TextsGrow(rows: set<RowKey>, key: RowKey)
    ensures (set row | row in rows + {key} :: Text(row)) == (set row | row in rows :: Text(row)) + {Text(key)}
  {
  }

  /** The services named by the definitions, and the definitions by printed key. */
  method Index(migrations: seq<Migration>) returns (services: set<string>, definitions: map<string, Migration>)
    ensures forall service :: service in services <==> ServesService(migrations, service)
    ensures forall row: RowKey ::
      Definition(migrations, row) == if Text(row) in definitions then Some(definitions[Text(row)]) else None
  {
    services, definitions := {}, map[];
    for i := 0 to |migrations|
      invariant forall service :: service in services <==> ServesService(migrations[..i], service)
      invariant forall row: RowKey ::
        Definition(migrations[..i], row) == if Text(row) in definitions then Some(definitions[Text(row)]) else None
    {
      var m := migrations[i];
      IndexNext(migrations, i, services, definitions);
      services := services + {KeyOf(m).service};
      definitions := definitions[Text(KeyOf(m)) := m];
    }
    assert migrations[..|migrations|] == migrations;
  }

  lemma IndexNext(migrations: seq<Migration>, i: nat, services: set<string>, definitions: map<string, Migration>)
    requires i < |migrations|
    requires forall service :: service in services <==> ServesService(migrations[..i], service)
    requires forall row: RowKey ::
      Definition(migrations[..i], row) == if Text(row) in definitions then Some(definitions[Text(row)]) else None
    ensures forall service ::
      service in services + {KeyOf(migrations[i]).service} <==> ServesService(migrations[..i + 1], service)
    ensures var grown := definitions[Text(KeyOf(migrations[i])) := migrations[i]];
      forall row: RowKey ::
        Definition(migrations[..i + 1], row) == if Text(row) in grown then Some(grown[Text(row)]) else None
  {
    var m := migrations[i];
    assert migrations[..i + 1][..i] == migrations[..i];
    assert migrations[..i + 1] == migrations[..i] + [m];
    forall row: RowKey
      ensures Text(row) == Text(KeyOf(m)) <==> row == KeyOf(m)
    {
      if Text(row) == Text(KeyOf(m)) {
        TextIsInjective(row, KeyOf(m));
      }
    }
  }
}
