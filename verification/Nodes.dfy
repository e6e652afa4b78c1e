/**
 Cluster nodes: registration, heartbeats and the reaper that every node runs.  Times are
 microseconds on one clock, and one tick of a node's loop happens at one instant.
 */
module Nodes {
  import opened Wrappers

  const REAPER_INTERVAL := 60_000_000
  const STALE_AFTER := 60_000_000

  /** The table `core.nodes`: the last heartbeat of each registered node. */
  type Rows = map<string, int>

  /** The loop of one node; `lastTick` is when its ticker last fired, or when it was started. */
  datatype Loop = Loop(lastReaped: int, lastTick: int)

  function Beat(rows: Rows, id: string, now: int): (r: Rows)
  {
    if id in rows then rows[id := now] else rows
  }

  function Reaped(rows: Rows, now: int): (r: Rows)
  {
    map id | id in rows && rows[id] >= now - STALE_AFTER :: rows[id]
  }

  /** One tick; `beats` and `deletes` say whether the two statements go through. */
  function Ticked(rows: Rows, loop: Loop, id: string, now: int, beats: bool, deletes: bool): (r: (Rows, Loop))
  {
    var beaten := if beats then Beat(rows, id, now) else rows;
    if now - loop.lastReaped >= REAPER_INTERVAL then (if deletes then Reaped(beaten, now) else beaten, Loop(now, now))
    else (beaten, loop.(lastTick := now))
  }

  /* ---------- The objects ---------- */

  class NodeTable {
    var rows: Rows

    constructor ()
      ensures rows == map[]
    {
      rows := map[];
    }
  }

  class NodeManager {
    const table: NodeTable
    var id: string
    var loop: Loop

    constructor (table: NodeTable)
      ensures this.table == table && id == ""
    {
      this.table, id, loop := table, "", Loop(0, 0);
    }

    method Register(newId: string, now: int)
      modifies this, table
      ensures table.rows == old(table.rows)[newId := now] && id == newId && loop == Loop(now, now)
    {
      table.rows := table.rows[newId := now];
      id, loop := newId, Loop(now, now);
    }

    method Tick(now: int, beats: bool, deletes: bool)
      modifies this, table
      ensures id == old(id) && (table.rows, loop) == Ticked(old(table.rows), old(loop), id, now, beats, deletes)
    {
      if beats && id in table.rows {
        table.rows := table.rows[id := now];
      }
      loop := loop.(lastTick := now);
      if now - loop.lastReaped >= REAPER_INTERVAL {
        loop := loop.(lastReaped := now);
        if deletes {
          table.rows := map row | row in table.rows && table.rows[row] >= now - STALE_AFTER :: table.rows[row];
        }
      }
    }

    method Close()
      modifies table
      ensures table.rows == old(table.rows) - {id}
    {
      table.rows := table.rows - {id};
    }
  }

  /* ---------- Runs ---------- */

  datatype Step =
    | Register(id: string)
    | Tick(id: string, beats: bool, deletes: bool)
    | Stop(id: string)

  datatype Event = Event(at: int, step: Step)

  datatype World = World(rows: Rows, loops: map<string, Loop>, minted: set<string>, clock: int)

  const INITIAL := World(map[], map[], {}, 0)

  /** New ids are fresh, only started and not stopped nodes tick or stop, and time does not go back. */
  predicate Admissible(w: World, event: Event)
  {
    && w.clock <= event.at
    && if event.step.Register? then event.step.id !in w.minted else event.step.id in w.loops
  }

  function Next(w: World, event: Event): (w': World)
  {
    var now := event.at;
    match event.step
    case Register(id) => World(w.rows[id := now], w.loops[id := Loop(now, now)], w.minted + {id}, now)
    case Tick(id, beats, deletes) =>
      if id !in w.loops then w
      else
        var (rows, loop) := Ticked(w.rows, w.loops[id], id, now, beats, deletes);
        World(rows, w.loops[id := loop], w.minted, now)
    case Stop(id) => World(w.rows - {id}, w.loops - {id}, w.minted, now)
  }

  function After(run: seq<Event>): (w: World)
  {
    if run == [] then INITIAL else Next(After(run[..|run| - 1]), run[|run| - 1])
  }

  predicate AdmissibleRun(run: seq<Event>)
  {
    run == [] || (AdmissibleRun(run[..|run| - 1]) && Admissible(After(run[..|run| - 1]), run[|run| - 1]))
  }

  lemma {:induction false} AdmissiblePrefix(run: seq<Event>, i: nat)
    requires AdmissibleRun(run) && i <= |run|
    ensures AdmissibleRun(run[..i])
    decreases |run|
  {
    if i == |run| {
      assert run[..i] == run;
    } else {
      assert run[..|run| - 1][..i] == run[..i];
      AdmissiblePrefix(run[..|run| - 1], i);
    }
  }

  /* ---------- A node that keeps beating stays ---------- */

  /** The last registration or heartbeat of a node that has not stopped, from the history alone. */
  function LastBeat(run: seq<Event>, id: string): (at: Option<int>)
  {
    if run == [] then None
    else
      var last := run[|run| - 1];
      if last.step.id == id && last.step.Stop? then None
      else if last.step.id == id && (last.step.Register? || last.step.beats) then Some(last.at)
      else LastBeat(run[..|run| - 1], id)
  }

  /** Whatever happens in the run happens within a minute of the node's heartbeat before it. */
  predicate BeatsEveryMinute(run: seq<Event>, id: string)
  {
    forall k | 0 <= k < |run| :: WithinMinute(run, id, k)
  }

  predicate WithinMinute(run: seq<Event>, id: string, k: nat)
    requires k < |run|
  {
    LastBeat(run[..k], id).Some? ==> run[k].at <= LastBeat(run[..k], id).value + STALE_AFTER
  }

  lemma {:induction false} LoopsHaveBeaten(run: seq<Event>, id: string)
    requires AdmissibleRun(run) && id in After(run).loops
    ensures LastBeat(run, id).Some? && id in After(run).minted
  {
    var rest, last := run[..|run| - 1], run[|run| - 1];
    if id in After(rest).loops {
      LoopsHaveBeaten(rest, id);
    }
  }

  lemma {:induction false} PrefixBeats(run: seq<Event>, id: string)
    requires run != [] && BeatsEveryMinute(run, id)
    ensures BeatsEveryMinute(run[..|run| - 1], id)
  {
    var rest := run[..|run| - 1];
    forall k | 0 <= k < |rest|
      ensures WithinMinute(rest, id, k)
    {
      assert rest[..k] == run[..k] && WithinMinute(run, id, k);
    }
  }

  /** A node whose heartbeats are at most a minute apart is never reaped: its row holds its last heartbeat. */
  lemma {:induction false} NeverReaped(run: seq<Event>, id: string)
    requires AdmissibleRun(run) && BeatsEveryMinute(run, id) && LastBeat(run, id).Some?
    ensures id in After(run).rows && After(run).rows[id] == LastBeat(run, id).value
  {
    var rest, last := run[..|run| - 1], run[|run| - 1];
    PrefixBeats(run, id);
    assert WithinMinute(run, id, |run| - 1);
    if last.step.id == id && !last.step.Register? {
      LoopsHaveBeaten(rest, id);
    }
    if LastBeat(rest, id).Some? {
      NeverReaped(rest, id);
    }
  }

  /* ---------- A removed node does not come back ---------- */

  lemma {:induction false} RowsAreMinted(run: seq<Event>, id: string)
    requires AdmissibleRun(run) && id in After(run).rows
    ensures id in After(run).minted
  {
    var rest := run[..|run| - 1];
    if id in After(rest).rows {
      RowsAreMinted(rest, id);
    }
  }

  lemma {:induction false} RemovedStaysRemoved(run: seq<Event>, i: nat, id: string)
    requires AdmissibleRun(run) && i <= |run|
    requires id in After(run[..i]).minted && id !in After(run[..i]).rows
    ensures id in After(run).minted && id !in After(run).rows
    decreases |run|
  {
    if i == |run| {
      assert run[..i] == run;
    } else {
      var rest := run[..|run| - 1];
      assert rest[..i] == run[..i];
      RemovedStaysRemoved(rest, i, id);
    }
  }

  lemma {:induction false} MintedStays(run: seq<Event>, i: nat, id: string)
    requires i <= |run| && id in After(run[..i]).minted
    ensures id in After(run).minted
    decreases |run|
  {
    if i == |run| {
      assert run[..i] == run;
    } else {
      assert run[..|run| - 1][..i] == run[..i];
      MintedStays(run[..|run| - 1], i, id);
    }
  }

  /** A node that was in the table and then was not never comes back, even if it goes on beating. */
  lemma RemovedNeverReappears(run: seq<Event>, i: nat, j: nat, id: string)
    requires AdmissibleRun(run) && i <= j <= |run|
    requires id in After(run[..i]).rows && id !in After(run[..j]).rows
    ensures id !in After(run).rows
  {
    AdmissiblePrefix(run, i);
    RowsAreMinted(run[..i], id);
    assert run[..j][..i] == run[..i];
    MintedStays(run[..j], i, id);
    RemovedStaysRemoved(run, j, id);
  }

  /* ---------- A silent node is removed in time ---------- */

  /** From step `i` on the node is running, never more than `gap` after its last tick, and its reaping works. */
  predicate KeepsTicking(run: seq<Event>, i: nat, id: string, gap: int)
  {
    forall k | i <= k < |run| :: TicksAt(run, k, id, gap)
  }

  predicate TicksAt(run: seq<Event>, k: nat, id: string, gap: int)
    requires k < |run|
  {
    var w := After(run[..k]);
    && id in w.loops && run[k].at <= w.loops[id].lastTick + gap
    && (run[k].step.id == id ==> run[k].step.Tick? && run[k].step.deletes)
  }

  predicate Silent(run: seq<Event>, i: nat, id: string)
  {
    forall k | i <= k < |run| :: run[k].step.id == id ==> run[k].step.Tick? && !run[k].step.beats
  }

  /** A loop reaps as soon as a tick finds a minute gone since it last did. */
  lemma {:induction false} ReapsInTime(run: seq<Event>, id: string)
    requires AdmissibleRun(run) && id in After(run).loops
    ensures var loop := After(run).loops[id];
      loop.lastReaped <= loop.lastTick < loop.lastReaped + REAPER_INTERVAL && loop.lastTick <= After(run).clock
  {
    var rest := run[..|run| - 1];
    if id in After(rest).loops {
      ReapsInTime(rest, id);
    }
  }

  /** As long as the silent row is there, the ticking node has not reaped since the row went stale. */
  lemma {:induction false} NotReapedSince(run: seq<Event>, i: nat, silent: string, live: string, gap: int)
    requires AdmissibleRun(run) && i <= |run| && silent != live
    requires Silent(run, i, silent) && KeepsTicking(run, i, live, gap)
    requires silent in After(run[..i]).rows && live in After(run[..i]).loops
    requires After(run[..i]).loops[live].lastReaped <= After(run[..i]).rows[silent] + STALE_AFTER
    requires silent in After(run).rows
    ensures live in After(run).loops && After(run).rows[silent] == After(run[..i]).rows[silent]
    ensures After(run).loops[live].lastReaped <= After(run).rows[silent] + STALE_AFTER
    decreases |run|
  {
    if i == |run| {
      assert run[..i] == run;
    } else {
      var rest, last := run[..|run| - 1], run[|run| - 1];
      assert rest[..i] == run[..i];
      PrefixTicks(run, i, live, gap);
      assert TicksAt(run, |run| - 1, live, gap);
      RowCannotAppear(run, i, silent);
      NotReapedSince(rest, i, silent, live, gap);
    }
  }

  lemma PrefixTicks(run: seq<Event>, i: nat, live: string, gap: int)
    requires run != [] && KeepsTicking(run, i, live, gap)
    ensures KeepsTicking(run[..|run| - 1], i, live, gap)
  {
    var rest := run[..|run| - 1];
    forall k | i <= k < |rest|
      ensures TicksAt(rest, k, live, gap)
    {
      assert rest[..k] == run[..k] && TicksAt(run, k, live, gap);
    }
  }

  lemma RowCannotAppear(run: seq<Event>, i: nat, id: string)
    requires AdmissibleRun(run) && i < |run| && Silent(run, i, id) && id in After(run).rows
    ensures id in After(run[..|run| - 1]).rows
  {
  }

  /**
   With one live node ticking at gaps of at most `gap`, a node that falls silent after its heartbeat
   is gone from the table by two minutes and one gap after that heartbeat.
   */
  lemma SilentNodeIsRemoved(run: seq<Event>, i: nat, silent: string, live: string, gap: int)
    requires AdmissibleRun(run) && i <= |run| && silent != live && gap >= 0
    requires Silent(run, i, silent) && KeepsTicking(run, i, live, gap)
    requires silent in After(run[..i]).rows && live in After(run[..i]).loops
    requires After(run[..i]).clock <= After(run[..i]).rows[silent] + STALE_AFTER
    ensures After(run).clock >= After(run[..i]).rows[silent] + 2 * STALE_AFTER + gap ==> silent !in After(run).rows
  {
    AdmissiblePrefix(run, i);
    ReapsInTime(run[..i], live);
    if i == |run| {
      assert run[..i] == run;
    } else if silent in After(run).rows {
      var rest := run[..|run| - 1];
      assert rest[..i] == run[..i];
      PrefixTicks(run, i, live, gap);
      RowCannotAppear(run, i, silent);
      NotReapedSince(rest, i, silent, live, gap);
      ReapsInTime(rest, live);
      assert TicksAt(run, |run| - 1, live, gap);
    }
  }
}
