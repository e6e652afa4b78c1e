/**
 Any number of nodes migrating one database up at the same time.  Each run is a transaction that
 waits for the cluster-wide advisory lock and holds it until it commits or rolls back.
 */
module MigrationCluster {
  import opened Wrappers
  import opened MigrationOrder
  import opened Migrations
  import opened MigrationInverse

  /** Where one node's run has got to; `work` is what its transaction has done and not yet committed. */
  datatype Node =
    | Idle
    | Waiting(migrations: seq<Migration>, target: int)
    | Locked(migrations: seq<Migration>, target: int)
    | Running(migrations: seq<Migration>, target: int, i: nat, work: Db)
    | Finished(migrations: seq<Migration>, target: int, work: Db)

  type NodeId = nat

  datatype Cluster = Cluster(db: Db, holder: Option<NodeId>, nodes: map<NodeId, Node>)

  const INITIAL := Cluster(EMPTY, None, map[])

  datatype Step =
    | Begin(node: NodeId, migrations: seq<Migration>, target: int)
    | Acquire(node: NodeId)
    | Load(node: NodeId)
    | Advance(node: NodeId, succeeds: bool)
    | Commit(node: NodeId)
    | Abort(node: NodeId)

  function At(c: Cluster, node: NodeId): (n: Node)
  {
    if node in c.nodes then c.nodes[node] else Idle
  }

  predicate HoldsLock(n: Node)
  {
    n.Locked? || n.Running? || n.Finished?
  }

  predicate Enabled(c: Cluster, step: Step)
  {
    var n := At(c, step.node);
    match step
    case Begin(_, _, _) => n.Idle?
    case Acquire(_) => n.Waiting? && c.holder.None?
    case Load(_) => n.Locked?
    case Advance(_, _) => n.Running?
    case Commit(_) => n.Finished?
    case Abort(_) => !n.Idle?
  }

  function Ledger(db: Db): (rows: set<RowKey>)
  {
    if db.ledger.None? then {} else db.ledger.value
  }

  datatype Move = GoesOn(i: nat, work: Db) | Ends(work: Db) | Fails

  /** The loop body of a run; a failing script ends the transaction. */
  function Moved(order: seq<Migration>, target: int, i: nat, work: Db, succeeds: bool): (move: Move)
  {
    if i >= |order| then Ends(work)
    else if KeyOf(order[i]) in Ledger(work) then GoesOn(i + 1, work)
    else if target > 0 && order[i].version > target then Ends(work)
    else if !succeeds then Move.Fails
    else GoesOn(i + 1, Applied(Bootstrapped(work), order[i]))
  }

  function Advanced(n: Node, succeeds: bool): (next: Node)
    requires n.Running?
  {
    match Moved(UpOrder(n.migrations), n.target, n.i, n.work, succeeds)
    case GoesOn(i, work) => Running(n.migrations, n.target, i, work)
    case Ends(work) => Finished(n.migrations, n.target, work)
    case Fails => Idle
  }

  /** A step that is not enabled does nothing. */
  function Next(c: Cluster, step: Step): (c': Cluster)
  {
    if Enabled(c, step) then Taken(c, step) else c
  }

  function Taken(c: Cluster, step: Step): (c': Cluster)
    requires Enabled(c, step)
  {
    var n := At(c, step.node);
    match step
    case Begin(node, migrations, target) =>
      c.(nodes := c.nodes[node := Waiting(migrations, target)])
    case Acquire(node) =>
      c.(holder := Some(node), nodes := c.nodes[node := Locked(n.migrations, n.target)])
    case Load(node) =>
      c.(nodes := c.nodes[node := Running(n.migrations, n.target, 0, Bootstrapped(c.db))])
    case Advance(node, succeeds) =>
      var next := Advanced(n, succeeds);
      c.(holder := if next.Idle? then None else c.holder, nodes := c.nodes[node := next])
    case Commit(node) =>
      Cluster(n.work, None, c.nodes[node := Idle])
    case Abort(node) =>
      c.(holder := if HoldsLock(n) then None else c.holder, nodes := c.nodes[node := Idle])
  }

  /* ---------- Invariants ---------- */

  /** What a run on this database is to apply: the longest prefix of the pending list within the target. */
  function Plan(db: Db, order: seq<Migration>, target: int): (plan: seq<Migration>)
  {
    Within(Pending(order, Ledger(db)), target)
  }

  function Extended(db: Db, plan: seq<Migration>): (r: Db)
  {
    Db(Some(Ledger(db) + KeySet(plan)), db.log + UpScripts(plan))
  }

  /** The transaction has applied the first `k` migrations of the plan and the rest are still ahead. */
  predicate Progress(db: Db, order: seq<Migration>, target: int, i: nat, work: Db, k: nat)
  {
    var plan := Plan(db, order, target);
    && i <= |order| && k <= |plan|
    && work == Extended(db, plan[..k])
    && Within(Pending(order[i..], work.ledger.value), target) == plan[k..]
  }

  ghost predicate NodeFits(db: Db, n: Node)
  {
    match n
    case Running(migrations, target, i, work) => exists k: nat :: Progress(db, UpOrder(migrations), target, i, work, k)
    case Finished(migrations, target, work) => work == Extended(db, Plan(db, UpOrder(migrations), target))
    case _ => true
  }

  /** The recorded set is the set of committed scripts, none of them twice. */
  ghost predicate Recorded(db: Db)
  {
    && (db.ledger.None? ==> db.log == [])
    && (forall script | script in db.log :: script.Up? && script.key in Ledger(db))
    && (forall key | key in Ledger(db) :: exists i :: 0 <= i < |db.log| && db.log[i].key == key)
    && (forall i, j | 0 <= i < j < |db.log| :: db.log[i].key != db.log[j].key)
  }

  ghost predicate Inv(c: Cluster)
  {
    && Recorded(c.db)
    && (forall node | node in c.nodes ::
          NodeFits(c.db, c.nodes[node]) && (HoldsLock(c.nodes[node]) ==> c.holder == Some(node)))
  }

  /* ---------- Preservation ---------- */

  lemma LoadFits(db: Db, order: seq<Migration>, target: int)
    ensures Progress(db, order, target, 0, Bootstrapped(db), 0)
  {
    var plan := Plan(db, order, target);
    assert order[0..] == order && plan[0..] == plan && plan[..0] == [];
    assert KeySet([]) == {} && UpScripts([]) == [];
    assert Ledger(db) + {} == Ledger(db) && db.log + [] == db.log;
  }

  lemma KeySetSnoc(plan: seq<Migration>, m: Migration)
    ensures KeySet(plan + [m]) == KeySet(plan) + {KeyOf(m)}
  {
    assert m in plan + [m] && forall x :: x in plan + [m] <==> x in plan || x == m;
  }

  lemma UpScriptsSnoc(plan: seq<Migration>, m: Migration)
    ensures UpScripts(plan + [m]) == UpScripts(plan) + [Up(KeyOf(m), m.up)]
  {
  }

  lemma ExtendByOne(db: Db, plan: seq<Migration>, k: nat)
    requires k < |plan|
    ensures Applied(Extended(db, plan[..k]), plan[k]) == Extended(db, plan[..k + 1])
  {
    var front, m := plan[..k], plan[k];
    assert plan[..k + 1] == front + [m];
    KeySetSnoc(front, m);
    UpScriptsSnoc(front, m);
    assert Ledger(db) + KeySet(front) + {KeyOf(m)} == Ledger(db) + (KeySet(front) + {KeyOf(m)});
    assert db.log + UpScripts(front) + [Up(KeyOf(m), m.up)] == db.log + (UpScripts(front) + [Up(KeyOf(m), m.up)]);
  }

  lemma EndFits(db: Db, order: seq<Migration>, target: int, i: nat, work: Db, k: nat)
    requires Progress(db, order, target, i, work, k) && Within(Pending(order[i..], work.ledger.value), target) == []
    ensures work == Extended(db, Plan(db, order, target))
  {
    var plan := Plan(db, order, target);
    assert plan[k..] == [] && k == |plan|;
    assert plan[..k] == plan;
  }

  lemma ApplyFits(db: Db, order: seq<Migration>, target: int, i: nat, work: Db, k: nat)
    requires Progress(db, order, target, i, work, k) && i < |order|
    requires KeyOf(order[i]) !in Ledger(work) && !(target > 0 && order[i].version > target)
    ensures Progress(db, order, target, i + 1, Applied(Bootstrapped(work), order[i]), k + 1)
  {
    var m, rest, plan := order[i], order[i..], Plan(db, order, target);
    assert rest[0] == m && rest[1..] == order[i + 1..];
    var ahead := Within(Pending(rest[1..], Ledger(work) + {KeyOf(m)}), target);
    assert plan[k..] == [m] + ahead;
    assert plan[k] == m && plan[k + 1..] == ahead;
    ExtendByOne(db, plan, k);
  }

  lemma SkipFits(db: Db, order: seq<Migration>, target: int, i: nat, work: Db, k: nat)
    requires Progress(db, order, target, i, work, k) && i < |order| && KeyOf(order[i]) in Ledger(work)
    ensures Progress(db, order, target, i + 1, work, k)
  {
    assert order[i..][0] == order[i] && order[i..][1..] == order[i + 1..];
  }

  ghost predicate MoveFits(db: Db, order: seq<Migration>, target: int, move: Move)
  {
    match move
    case GoesOn(i, work) => exists k: nat :: Progress(db, order, target, i, work, k)
    case Ends(work) => work == Extended(db, Plan(db, order, target))
    case Fails => true
  }

  lemma MovedFits(db: Db, order: seq<Migration>, target: int, i: nat, work: Db, succeeds: bool, k: nat)
    requires Progress(db, order, target, i, work, k)
    ensures MoveFits(db, order, target, Moved(order, target, i, work, succeeds))
  {
    if i >= |order| {
      assert order[i..] == [];
      EndFits(db, order, target, i, work, k);
    } else if KeyOf(order[i]) in Ledger(work) {
      SkipFits(db, order, target, i, work, k);
    } else if target > 0 && order[i].version > target {
      assert order[i..][0] == order[i];
      EndFits(db, order, target, i, work, k);
    } else if succeeds {
      ApplyFits(db, order, target, i, work, k);
    }
  }

  lemma AdvanceFits(db: Db, n: Node, succeeds: bool)
    requires n.Running? && NodeFits(db, n)
    ensures NodeFits(db, Advanced(n, succeeds))
  {
    var order := UpOrder(n.migrations);
    var k: nat :| Progress(db, order, n.target, n.i, n.work, k);
    MovedFits(db, order, n.target, n.i, n.work, succeeds, k);
  }

  /** A plan names only unrecorded keys, each once. */
  lemma PlanIsNew(db: Db, order: seq<Migration>, target: int)
    ensures Distinct(Plan(db, order, target)) && KeySet(Plan(db, order, target)) !! Ledger(db)
  {
    var pending, plan := Pending(order, Ledger(db)), Plan(db, order, target);
    PendingCoversOrder(order, Ledger(db));
    WithinIsLongestPrefix(pending, target);
    assert forall i | 0 <= i < |plan| :: plan[i] == pending[i];
    forall key | key in KeySet(plan)
      ensures key in KeySet(pending)
    {
      var m :| m in plan && KeyOf(m) == key;
      assert m in pending;
    }
  }

  lemma ExtendedIsDistinct(db: Db, plan: seq<Migration>)
    requires Recorded(db) && Distinct(plan) && KeySet(plan) !! Ledger(db)
    ensures var log := Extended(db, plan).log; forall i, j | 0 <= i < j < |log| :: log[i].key != log[j].key
  {
    var log, n := Extended(db, plan).log, |db.log|;
    forall i, j | 0 <= i < j < |log|
      ensures log[i].key != log[j].key
    {
      if i < n <= j {
        assert db.log[i] in db.log && plan[j - n] in plan;
        assert log[j].key in KeySet(plan);
      }
    }
  }

  lemma ExtendedIsLogged(db: Db, plan: seq<Migration>, key: RowKey)
    requires Recorded(db) && key in Ledger(Extended(db, plan))
    ensures var log := Extended(db, plan).log; exists i :: 0 <= i < |log| && log[i].key == key
  {
    var log, n := Extended(db, plan).log, |db.log|;
    if key in Ledger(db) {
      var i :| 0 <= i < n && db.log[i].key == key;
      assert log[i].key == key;
    } else {
      var m :| m in plan && KeyOf(m) == key;
      var i :| 0 <= i < |plan| && plan[i] == m;
      assert log[n + i].key == key;
    }
  }

  lemma ExtendedKeepsRecorded(db: Db, plan: seq<Migration>)
    requires Recorded(db) && Distinct(plan) && KeySet(plan) !! Ledger(db)
    ensures Recorded(Extended(db, plan))
  {
    var next := Extended(db, plan);
    ExtendedIsDistinct(db, plan);
    forall key | key in Ledger(next)
      ensures exists i :: 0 <= i < |next.log| && next.log[i].key == key
    {
      ExtendedIsLogged(db, plan, key);
    }
    forall script | script in next.log
      ensures script.Up? && script.key in Ledger(next)
    {
      if script !in db.log {
        var i :| 0 <= i < |plan| && UpScripts(plan)[i] == script;
        assert plan[i] in plan;
      }
    }
  }

  lemma CommitKeepsInv(c: Cluster, node: NodeId)
    requires Inv(c) && At(c, node).Finished?
    ensures Inv(Next(c, Commit(node)))
  {
    var n := c.nodes[node];
    PlanIsNew(c.db, UpOrder(n.migrations), n.target);
    ExtendedKeepsRecorded(c.db, Plan(c.db, UpOrder(n.migrations), n.target));
    var next := Next(c, Commit(node));
    forall other | other in next.nodes
      ensures NodeFits(next.db, next.nodes[other]) && !HoldsLock(next.nodes[other])
    {
      if other != node {
        assert c.holder == Some(node) && NodeFits(c.db, c.nodes[other]);
      }
    }
  }

  lemma StepKeepsInv(c: Cluster, step: Step)
    requires Inv(c)
    ensures Inv(Next(c, step))
  {
    if !Enabled(c, step) {
      return;
    }
    match step
    case Commit(node) => CommitKeepsInv(c, node);
    case Advance(node, succeeds) => AdvanceFits(c.db, c.nodes[node], succeeds);
    case Load(node) =>
      var n := c.nodes[node];
      LoadFits(c.db, UpOrder(n.migrations), n.target);
      assert NodeFits(c.db, Running(n.migrations, n.target, 0, Bootstrapped(c.db)));
    case _ =>
  }

  /* ---------- Runs ---------- */

  function After(run: seq<Step>): (c: Cluster)
  {
    if run == [] then INITIAL else Next(After(run[..|run| - 1]), run[|run| - 1])
  }

  lemma {:induction false} RunKeepsInv(run: seq<Step>)
    ensures Inv(After(run))
  {
    if run != [] {
      RunKeepsInv(run[..|run| - 1]);
      StepKeepsInv(After(run[..|run| - 1]), run[|run| - 1]);
    }
  }

  /**
   In every interleaving, with any failures: no up script is committed twice, the recorded set is
   the set of committed scripts, and at most one node is inside the lock.
   */
  lemma ExactlyOnce(run: seq<Step>)
    ensures var c := After(run);
      && Recorded(c.db)
      && forall a, b | a in c.nodes && b in c.nodes && HoldsLock(c.nodes[a]) && HoldsLock(c.nodes[b]) :: a == b
  {
    RunKeepsInv(run);
  }

  /**
   Only a commit changes the database, so a run that fails or is abandoned leaves no trace.  A commit
   applies exactly the longest prefix of the sorted pending list whose versions are within the target,
   judged against the database it commits to; with target 0 all its keys are then applied.
   */
  lemma StepAppliesPlan(run: seq<Step>, step: Step)
    ensures var c := After(run);
      var n := At(c, step.node);
      var after := Next(c, step).db;
      if !(step.Commit? && n.Finished?) then after == c.db
      else
        var pending := Pending(UpOrder(n.migrations), Ledger(c.db));
        var plan := Within(pending, n.target);
        && after == Extended(c.db, plan)
        && plan <= pending
        && (n.target > 0 ==> forall m | m in plan :: m.version <= n.target)
        && (|plan| < |pending| ==> pending[|plan|].version > n.target > 0)
        && (n.target <= 0 ==> KeySet(UpOrder(n.migrations)) <= Ledger(after))
  {
    var c := After(run);
    var n := At(c, step.node);
    RunKeepsInv(run);
    if step.Commit? && n.Finished? {
      WithinIsLongestPrefix(Pending(UpOrder(n.migrations), Ledger(c.db)), n.target);
      PendingCoversOrder(UpOrder(n.migrations), Ledger(c.db));
      assert NodeFits(c.db, n);
      assert KeySet(UpOrder(n.migrations)) <= Ledger(c.db) + KeySet(UpOrder(n.migrations));
    }
  }

  /* ---------- What a run was asked for ---------- */

  predicate WasAsked(run: seq<Step>, i: int, node: NodeId, n: Node)
    requires !n.Idle?
  {
    0 <= i < |run| && run[i] == Begin(node, n.migrations, n.target)
  }

  /** A node at work has the migrations and the target that a Begin of its own gave it. */
  lemma {:induction false} WorkWasAsked(run: seq<Step>, node: NodeId) returns (i: int)
    requires !At(After(run), node).Idle?
    ensures WasAsked(run, i, node, At(After(run), node))
  {
    var rest, last := run[..|run| - 1], run[|run| - 1];
    var n := At(After(rest), node);
    if !n.Idle? {
      i := WorkWasAsked(rest, node);
    } else {
      i := |run| - 1;
    }
  }

  lemma {:induction false} PendingIsOrdered(order: seq<Migration>, ledger: set<RowKey>)
    requires Ordered(order)
    ensures Ordered(Pending(order, ledger)) && forall m | m in Pending(order, ledger) :: m in order
  {
    if order != [] {
      var m := order[0];
      var rest := Pending(order[1..], if KeyOf(m) in ledger then ledger else ledger + {KeyOf(m)});
      PendingIsOrdered(order[1..], if KeyOf(m) in ledger then ledger else ledger + {KeyOf(m)});
      forall x | x in rest
        ensures !Before(KeyOf(x), KeyOf(m)) && x in order
      {
        var j :| 0 <= j < |order[1..]| && order[1..][j] == x;
        assert order[j + 1] == x;
      }
      if KeyOf(m) !in ledger {
        OrderedCons(m, rest);
      }
    }
  }

  /**
   A commit answers the request that started its run: the pending list is in order and made of the
   migrations asked for, and with target 0 every key asked for is then applied.
   */
  lemma CommitAnswersRequest(run: seq<Step>, node: NodeId) returns (i: int)
    requires At(After(run), node).Finished?
    ensures var c := After(run);
      var n := At(c, node);
      && WasAsked(run, i, node, n)
      && IsSortOf(UpOrder(n.migrations), Normalised(n.migrations))
      && Ordered(Pending(UpOrder(n.migrations), Ledger(c.db)))
      && (n.target <= 0 ==> KeySet(n.migrations) <= Ledger(Next(c, Commit(node)).db))
  {
    var c := After(run);
    var n := At(c, node);
    i := WorkWasAsked(run, node);
    SortIsSort(Normalised(n.migrations));
    PendingIsOrdered(UpOrder(n.migrations), Ledger(c.db));
    StepAppliesPlan(run, Commit(node));
    NormalisedKeeps(n.migrations);
    SameKeySet(UpOrder(n.migrations), Normalised(n.migrations));
  }
}
