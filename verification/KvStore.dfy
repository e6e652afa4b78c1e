/**
 The expiring key-value store kept in the table `core.kv_store`.  Times are microseconds on
 the database clock; each statement reads that clock once.  Expiries are passed in nanoseconds.
 */
module KvStore {
  import opened Wrappers
  import Decimal

  /* ---------- Rows and tables ---------- */

  datatype Row<V> = Row(value: V, expiresAt: int)

  type Table<V> = map<string, Row<V>>

  const DEFAULT_KEY_EXPIRY := 24 * 60 * 60 * 1_000_000
  const NANOSECONDS_PER_SECOND := 1_000_000_000

  /** Non-positive expiries become a day; others are cut to whole microseconds. */
  function Ttl(expiry: int): (microseconds: nat)
  {
    if expiry <= 0 then DEFAULT_KEY_EXPIRY else expiry / 1000
  }

  /** A whole number of seconds is kept, a fraction of a microsecond cut, and no expiry means a day. */
  lemma TtlIs(expiry: int, seconds: int)
    ensures expiry <= 0 ==> Ttl(expiry) == 86_400 * 1_000_000
    ensures expiry > 0 ==> Ttl(expiry) * 1000 <= expiry < Ttl(expiry) * 1000 + 1000
    ensures seconds > 0 ==> Ttl(seconds * NANOSECONDS_PER_SECOND) == seconds * 1_000_000
  {
  }

  predicate IsLive<V>(table: Table<V>, key: string, now: int)
  {
    key in table && table[key].expiresAt > now
  }

  function Lookup<V>(table: Table<V>, key: string, now: int): (r: Option<V>)
  {
    if IsLive(table, key, now) then Some(table[key].value) else None
  }

  function Put<V>(table: Table<V>, key: string, value: V, expiry: int, now: int): (t: Table<V>)
  {
    table[key := Row(value, now + Ttl(expiry))]
  }

  /** What any reader can still see at `now` or later. */
  function Visible<V>(table: Table<V>, now: int): (t: Table<V>)
  {
    map key | key in table && table[key].expiresAt > now :: table[key]
  }

  /* ---------- The statements, one per operation ---------- */

  datatype Op =
    | Get(key: string)
    | MGet(keys: seq<string>)
    | Set(key: string, value: string, expiry: int)
    | MSet(entries: map<string, string>, expiry: int)
    | SetNX(key: string, value: string, expiry: int)
    | Delete(key: string)
    | IncrementBy(key: string, delta: int, expiry: int)
    | Expire(key: string, expiry: int)
    | Sweep

  datatype Reply =
    | Found(value: string)
    | NotFound
    | Many(values: map<string, string>)
    | Done
    | Stored(created: bool)
    | Count(count: int)
    | Failed
    | Swept(removed: nat)

  function MGetValues(table: Table<string>, keys: seq<string>, now: int): (values: map<string, string>)
  {
    map key | key in table && key in keys && table[key].expiresAt > now :: table[key].value
  }

  function MSetRows(entries: map<string, string>, expiry: int, now: int): (rows: Table<string>)
  {
    map key | key in entries :: Row(entries[key], now + Ttl(expiry))
  }

  /** The counter after adding `delta` to a live text, if the bigint arithmetic succeeds. */
  function Added(text: string, delta: int): (r: Option<int>)
  {
    match Decimal.Parse(text)
    case None => None
    case Some(n) =>
      if Decimal.IsBigint(n) && Decimal.IsBigint(n + delta) then Some(n + delta) else None
  }

  function Apply(op: Op, table: Table<string>, now: int): (r: (Table<string>, Reply))
  {
    match op
    case Get(key) =>
      (table, if IsLive(table, key, now) then Found(table[key].value) else NotFound)
    case MGet(keys) =>
      (table, Many(MGetValues(table, keys, now)))
    case Set(key, value, expiry) =>
      (Put(table, key, value, expiry, now), Done)
    case MSet(entries, expiry) =>
      (table + MSetRows(entries, expiry, now), Done)
    case SetNX(key, value, expiry) =>
      if key in table && !(table[key].expiresAt <= now) then (table, Stored(false))
      else (Put(table, key, value, expiry, now), Stored(true))
    case Delete(key) =>
      (table - {key}, Done)
    case IncrementBy(key, delta, expiry) =>
      var count := if IsLive(table, key, now) then Added(table[key].value, delta) else Some(delta);
      if count.None? then (table, Failed)
      else (Put(table, key, Decimal.Format(count.value), expiry, now), Count(count.value))
    case Expire(key, expiry) =>
      if IsLive(table, key, now) then (Put(table, key, table[key].value, expiry, now), Done)
      else (table, NotFound)
    case Sweep =>
      (Visible(table, now), Swept(|set key | key in table && table[key].expiresAt <= now|))
  }

  /** A live counter grows by the delta, a missing or expired one starts at it, and an overflow changes nothing. */
  lemma IncrementCounts(table: Table<string>, key: string, n: int, delta: int, expiry: int, now: int)
    requires IsLive(table, key, now) ==> table[key].value == Decimal.Format(n)
    ensures var (next, reply) := Apply(IncrementBy(key, delta, expiry), table, now);
      if !IsLive(table, key, now) then
        reply == Count(delta) && next == table[key := Row(Decimal.Format(delta), now + Ttl(expiry))]
      else if -0x8000_0000_0000_0000 <= n < 0x8000_0000_0000_0000 && -0x8000_0000_0000_0000 <= n + delta < 0x8000_0000_0000_0000 then
        reply == Count(n + delta) && next == table[key := Row(Decimal.Format(n + delta), now + Ttl(expiry))]
      else next == table && reply == Failed
  {
    Decimal.ParseFormat(n);
  }

  /* ---------- The store object ---------- */

  class DatabaseKVStore {
    var table: Table<string>

    constructor ()
      ensures table == map[]
    {
      table := map[];
    }

    method Get(key: string, now: int) returns (reply: Reply)
      ensures reply == Apply(Op.Get(key), table, now).1
    {
      reply := if key in table && table[key].expiresAt > now then Found(table[key].value) else NotFound;
    }

    method MGet(keys: seq<string>, now: int) returns (values: map<string, string>)
      ensures values == MGetValues(table, keys, now)
    {
      values := map[];
      if |keys| == 0 {
        return;
      }
      var rows := set key | key in table && key in keys && table[key].expiresAt > now;
      while rows != {}
        invariant rows <= MGetValues(table, keys, now).Keys
        invariant values == MGetValues(table, keys, now) - rows
        decreases |rows|
      {
        var key :| key in rows;
        values := values[key := table[key].value];
        rows := rows - {key};
      }
    }

    method Set(key: string, value: string, expiry: int, now: int)
      modifies this
      ensures table == Apply(Op.Set(key, value, expiry), old(table), now).0
    {
      table := table[key := Row(value, now + Ttl(expiry))];
    }

    method MSet(entries: map<string, string>, expiry: int, now: int)
      modifies this
      ensures table == Apply(Op.MSet(entries, expiry), old(table), now).0
    {
      if |entries| == 0 {
        assert table + MSetRows(entries, expiry, now) == table;
        return;
      }
      var keys := [];
      var pending := entries.Keys;
      while pending != {}
        invariant pending <= entries.Keys
        invariant table == old(table)
        invariant forall key :: key in keys <==> key in entries && key !in pending
        decreases |pending|
      {
        var key :| key in pending;
        keys := keys + [key];
        pending := pending - {key};
      }
      assert (set key | key in keys) == entries.Keys;
      MSetInAnyOrder(table, keys, entries, expiry, now);
      for i := 0 to |keys|
        invariant table == PutEach(old(table), keys[..i], entries, expiry, now)
      {
        assert keys[..i + 1][..i] == keys[..i];
        table := Put(table, keys[i], entries[keys[i]], expiry, now);
      }
      assert keys[..|keys|] == keys;
    }

    method SetNX(key: string, value: string, expiry: int, now: int) returns (created: bool)
      modifies this
      ensures (table, Stored(created)) == Apply(Op.SetNX(key, value, expiry), old(table), now)
    {
      created := key !in table || table[key].expiresAt <= now;
      if created {
        table := table[key := Row(value, now + Ttl(expiry))];
      }
    }

    method Delete(key: string)
      modifies this
      ensures forall now :: table == Apply(Op.Delete(key), old(table), now).0
    {
      table := table - {key};
    }

    method IncrementBy(key: string, delta: int, expiry: int, now: int) returns (reply: Reply)
      modifies this
      ensures (table, reply) == Apply(Op.IncrementBy(key, delta, expiry), old(table), now)
    {
      var count := delta;
      if key in table && table[key].expiresAt > now {
        var sum := Added(table[key].value, delta);
        if sum.None? {
          return Failed;
        }
        count := sum.value;
      }
      table := table[key := Row(Decimal.Format(count), now + Ttl(expiry))];
      reply := Count(count);
    }

    method Expire(key: string, expiry: int, now: int) returns (reply: Reply)
      modifies this
      ensures (table, reply) == Apply(Op.Expire(key, expiry), old(table), now)
    {
      if key in table && table[key].expiresAt > now {
        table := table[key := table[key].(expiresAt := now + Ttl(expiry))];
        reply := Done;
      } else {
        reply := NotFound;
      }
    }

    method Sweep(now: int) returns (removed: nat)
      modifies this
      ensures (table, Swept(removed)) == Apply(Op.Sweep, old(table), now)
    {
      var expired := set key | key in table && table[key].expiresAt <= now;
      assert Visible(table, now) == table - expired;
      removed := |expired|;
      table := table - expired;
    }
  }

  /* ---------- MSet is a batch of Sets ---------- */

  function PutEach(table: Table<string>, order: seq<string>, entries: map<string, string>, expiry: int, now: int): (t: Table<string>)
    requires forall key | key in order :: key in entries
  {
    if order == [] then table
    else
      var last := order[|order| - 1];
      Put(PutEach(table, order[..|order| - 1], entries, expiry, now), last, entries[last], expiry, now)
  }

  lemma {:induction false} PutEachAt(table: Table<string>, order: seq<string>, entries: map<string, string>, expiry: int, now: int, key: string)
    requires forall k | k in order :: k in entries
    ensures var t := PutEach(table, order, entries, expiry, now);
      if key in order then key in t && t[key] == Row(entries[key], now + Ttl(expiry))
      else (key in t <==> key in table) && (key in t ==> t[key] == table[key])
  {
    if order != [] {
      var init := order[..|order| - 1];
      PutEachAt(table, init, entries, expiry, now, key);
      assert order == init + [order[|order| - 1]];
    }
  }

  /** MSet equals setting its entries one at a time, in whatever order the map is walked. */
  lemma MSetInAnyOrder(table: Table<string>, order: seq<string>, entries: map<string, string>, expiry: int, now: int)
    requires (set key | key in order) == entries.Keys
    ensures (forall key | key in order :: key in entries)
    ensures PutEach(table, order, entries, expiry, now) == Apply(Op.MSet(entries, expiry), table, now).0
  {
    forall key | key in order
      ensures key in entries
    {
      assert key in (set k | k in order);
    }
    forall key
      ensures var t := PutEach(table, order, entries, expiry, now);
        if key in entries then key in t && t[key] == Row(entries[key], now + Ttl(expiry))
        else (key in t <==> key in table) && (key in t ==> t[key] == table[key])
    {
      PutEachAt(table, order, entries, expiry, now, key);
      assert key in entries ==> key in (set k | k in order);
    }
  }

  /* ---------- Refinement of a timed map ---------- */

  /**
   The simple form: a map that holds live entries only, so that no operation has to look at an
   expiry.  `Sweep` has nothing to do and its count means nothing here.
   */
  function TimedApply(op: Op, live: Table<string>, now: int): (r: (Table<string>, Reply))
  {
    match op
    case Get(key) => (live, if key in live then Found(live[key].value) else NotFound)
    case MGet(keys) => (live, Many(map key | key in live && key in keys :: live[key].value))
    case Set(key, value, expiry) => (live[key := Row(value, now + Ttl(expiry))], Done)
    case MSet(entries, expiry) => (live + MSetRows(entries, expiry, now), Done)
    case SetNX(key, value, expiry) =>
      if key in live then (live, Stored(false))
      else (live[key := Row(value, now + Ttl(expiry))], Stored(true))
    case Delete(key) => (live - {key}, Done)
    case IncrementBy(key, delta, expiry) =>
      var count := if key in live then Added(live[key].value, delta) else Some(delta);
      if count.None? then (live, Failed)
      else (live[key := Row(Decimal.Format(count.value), now + Ttl(expiry))], Count(count.value))
    case Expire(key, expiry) =>
      if key in live then (live[key := live[key].(expiresAt := now + Ttl(expiry))], Done)
      else (live, NotFound)
    case Sweep => (live, Done)
  }

  /** A statement on the table does to the visible part what the timed map does. */
  lemma StatementRefinesTimedMap(op: Op, table: Table<string>, now: int)
    ensures Visible(Apply(op, table, now).0, now) == Visible(TimedApply(op, Visible(table, now), now).0, now)
    ensures !op.Sweep? ==> Apply(op, table, now).1 == TimedApply(op, Visible(table, now), now).1
  {
    if !op.Sweep? {
      SameReply(op, table, now);
    }
    SameTable(op, table, now);
  }

  lemma SameReply(op: Op, table: Table<string>, now: int)
    requires !op.Sweep?
    ensures Apply(op, table, now).1 == TimedApply(op, Visible(table, now), now).1
  {
    if op.MGet? {
      var live := Visible(table, now);
      assert MGetValues(table, op.keys, now) == map key | key in live && key in op.keys :: live[key].value;
    }
  }

  lemma SameTable(op: Op, table: Table<string>, now: int)
    ensures Visible(Apply(op, table, now).0, now) == Visible(TimedApply(op, Visible(table, now), now).0, now)
  {
    VisibleLater(table, now, now);
    if op.MSet? {
      VisibleMerge(table, MSetRows(op.entries, op.expiry, now), now);
    } else if op.Delete? {
      VisibleRemove(table, op.key, now);
    } else if op.Set? || op.SetNX? || op.IncrementBy? || op.Expire? {
      SameWrite(op, table, now);
    }
  }

  lemma SameWrite(op: Op, table: Table<string>, now: int)
    requires op.Set? || op.SetNX? || op.IncrementBy? || op.Expire?
    ensures Visible(Apply(op, table, now).0, now) == Visible(TimedApply(op, Visible(table, now), now).0, now)
  {
    match op
    case Set(key, value, expiry) => VisiblePut(table, key, Row(value, now + Ttl(expiry)), now);
    case SetNX(key, value, expiry) => SameSetNX(key, value, expiry, table, now);
    case IncrementBy(key, delta, expiry) => SameIncrement(key, delta, expiry, table, now);
    case Expire(key, expiry) => SameExpire(key, expiry, table, now);
  }

  lemma SameSetNX(key: string, value: string, expiry: int, table: Table<string>, now: int)
    ensures var op := Op.SetNX(key, value, expiry);
      Visible(Apply(op, table, now).0, now) == Visible(TimedApply(op, Visible(table, now), now).0, now)
  {
    VisibleLater(table, now, now);
    VisiblePut(table, key, Row(value, now + Ttl(expiry)), now);
  }

  lemma SameIncrement(key: string, delta: int, expiry: int, table: Table<string>, now: int)
    ensures var op := Op.IncrementBy(key, delta, expiry);
      Visible(Apply(op, table, now).0, now) == Visible(TimedApply(op, Visible(table, now), now).0, now)
  {
    VisibleLater(table, now, now);
    var count := if IsLive(table, key, now) then Added(table[key].value, delta) else Some(delta);
    if count.Some? {
      VisiblePut(table, key, Row(Decimal.Format(count.value), now + Ttl(expiry)), now);
    }
  }

  lemma SameExpire(key: string, expiry: int, table: Table<string>, now: int)
    ensures var op := Op.Expire(key, expiry);
      Visible(Apply(op, table, now).0, now) == Visible(TimedApply(op, Visible(table, now), now).0, now)
  {
    VisibleLater(table, now, now);
    if IsLive(table, key, now) {
      VisiblePut(table, key, Row(table[key].value, now + Ttl(expiry)), now);
    }
  }

  lemma VisibleMerge(table: Table<string>, rows: Table<string>, now: int)
    ensures Visible(table + rows, now) == Visible(Visible(table, now) + rows, now)
  {
  }

  lemma VisibleRemove(table: Table<string>, key: string, now: int)
    ensures Visible(table - {key}, now) == Visible(Visible(table, now) - {key}, now)
  {
  }

  lemma VisiblePut(table: Table<string>, key: string, row: Row<string>, now: int)
    ensures Visible(table[key := row], now) == Visible(Visible(table, now)[key := row], now)
  {
  }

  datatype Call = Call(at: int, op: Op)

  predicate InOrder(run: seq<Call>, start: int)
  {
    run == [] || (start <= run[0].at && InOrder(run[1..], run[0].at))
  }

  function WithoutSweeps(run: seq<Call>): (r: seq<Call>)
  {
    if run == [] then []
    else (if run[0].op.Sweep? then [] else [run[0]]) + WithoutSweeps(run[1..])
  }

  /** The replies callers get; the sweeper's own count goes to nobody. */
  function Observed(run: seq<Call>, table: Table<string>): (replies: seq<Reply>)
  {
    if run == [] then []
    else
      var (next, reply) := Apply(run[0].op, table, run[0].at);
      (if run[0].op.Sweep? then [] else [reply]) + Observed(run[1..], next)
  }

  /** The same calls against the timed map, which forgets expired entries as time passes. */
  function TimedObserved(run: seq<Call>, live: Table<string>): (replies: seq<Reply>)
  {
    if run == [] then []
    else
      var (next, reply) := TimedApply(run[0].op, Visible(live, run[0].at), run[0].at);
      (if run[0].op.Sweep? then [] else [reply]) + TimedObserved(run[1..], next)
  }

  lemma VisibleLater(table: Table<string>, earlier: int, later: int)
    requires earlier <= later
    ensures Visible(Visible(table, earlier), later) == Visible(table, later)
  {
  }

  lemma {:induction false} RunRefinesTimedMap(run: seq<Call>, table: Table<string>, live: Table<string>, start: int)
    requires InOrder(run, start)
    requires Visible(table, start) == Visible(live, start)
    ensures Observed(run, table) == TimedObserved(run, live)
    ensures Observed(WithoutSweeps(run), table) == TimedObserved(run, live)
  {
    if run != [] {
      var op, now := run[0].op, run[0].at;
      VisibleLater(table, start, now);
      VisibleLater(live, start, now);
      StatementRefinesTimedMap(op, table, now);
      var next, timedNext := Apply(op, table, now).0, TimedApply(op, Visible(live, now), now).0;
      RunRefinesTimedMap(run[1..], next, timedNext, now);
      if op.Sweep? {
        assert WithoutSweeps(run) == WithoutSweeps(run[1..]);
        RunRefinesTimedMap(run[1..], table, timedNext, now);
      } else {
        assert WithoutSweeps(run) == [run[0]] + WithoutSweeps(run[1..]);
        assert WithoutSweeps(run)[1..] == WithoutSweeps(run[1..]);
      }
    }
  }

  /** Sweeps placed anywhere in a run change no reply. */
  lemma SweepingIsUnobservable(run: seq<Call>, table: Table<string>, start: int)
    requires InOrder(run, start)
    ensures Observed(run, table) == Observed(WithoutSweeps(run), table)
  {
    RunRefinesTimedMap(run, table, table, start);
  }

  /* ---------- Leases ---------- */

  function After(run: seq<Call>, table: Table<string>): (t: Table<string>)
  {
    if run == [] then table else After(run[1..], Apply(run[0].op, table, run[0].at).0)
  }

  /** The call leaves `key` to the lease protocol: it reads, sweeps, tries SetNX, or works elsewhere. */
  predicate RespectsLease(op: Op, key: string)
  {
    match op
    case Set(k, _, _) => k != key
    case MSet(entries, _) => key !in entries
    case Delete(k) => k != key
    case IncrementBy(k, _, _) => k != key
    case Expire(k, _) => k != key
    case _ => true
  }

  ghost predicate SeesHolder(op: Op, reply: Reply, key: string, holder: string)
  {
    && (op.SetNX? && op.key == key ==> reply == Stored(false))
    && (op.Get? && op.key == key ==> reply == Found(holder))
    && (op.MGet? && key in op.keys ==> reply.Many? && key in reply.values && reply.values[key] == holder)
  }

  lemma {:induction false} LeaseHeldThroughout(run: seq<Call>, table: Table<string>, key: string, lease: Row<string>)
    requires key in table && table[key] == lease
    requires forall i | 0 <= i < |run| :: run[i].at < lease.expiresAt && RespectsLease(run[i].op, key)
    ensures key in After(run, table) && After(run, table)[key] == lease
    ensures forall i | 0 <= i < |run| ::
      SeesHolder(run[i].op, Apply(run[i].op, After(run[..i], table), run[i].at).1, key, lease.value)
  {
    if run != [] {
      var next := Apply(run[0].op, table, run[0].at).0;
      LeaseHeldThroughout(run[1..], next, key, lease);
      forall i | 0 <= i < |run|
        ensures SeesHolder(run[i].op, Apply(run[i].op, After(run[..i], table), run[i].at).1, key, lease.value)
      {
        if i > 0 {
          assert run[..i][1..] == run[1..][..i - 1];
          assert run[i] == run[1..][i - 1];
        }
      }
    }
  }

  /** The call leaves the key to its holder, and to nobody new once the lease has run out. */
  predicate LeavesKey(call: Call, key: string, expiresAt: int)
  {
    RespectsLease(call.op, key) && (call.op.SetNX? && call.op.key == key ==> call.at < expiresAt)
  }

  lemma {:induction false} InOrderAt(run: seq<Call>, start: int, i: nat, j: nat)
    requires InOrder(run, start) && i <= j < |run|
    ensures start <= run[i].at <= run[j].at
  {
    if j > 0 {
      InOrderAt(run[1..], run[0].at, if i == 0 then 0 else i - 1, j - 1);
    }
  }

  lemma {:induction false} LeaseOrNothing(run: seq<Call>, table: Table<string>, key: string, lease: Row<string>, start: int)
    requires InOrder(run, start) && (if key in table then table[key] == lease else start >= lease.expiresAt)
    requires forall i | 0 <= i < |run| :: LeavesKey(run[i], key, lease.expiresAt)
    ensures key in After(run, table) ==> After(run, table)[key] == lease
  {
    if run != [] {
      assert LeavesKey(run[0], key, lease.expiresAt);
      LeaseOrNothing(run[1..], Apply(run[0].op, table, run[0].at).0, key, lease, run[0].at);
    }
  }

  lemma LeaseSeenAt(run: seq<Call>, table: Table<string>, key: string, lease: Row<string>, start: int, i: nat)
    requires key in table && table[key] == lease && InOrder(run, start) && i < |run| && run[i].at < lease.expiresAt
    requires forall j | 0 <= j < |run| :: LeavesKey(run[j], key, lease.expiresAt)
    ensures SeesHolder(run[i].op, Apply(run[i].op, After(run[..i], table), run[i].at).1, key, lease.value)
  {
    var front := run[..i + 1];
    forall j | 0 <= j < |front|
      ensures front[j].at < lease.expiresAt && RespectsLease(front[j].op, key)
    {
      InOrderAt(run, start, j, i);
      assert LeavesKey(run[j], key, lease.expiresAt);
    }
    LeaseHeldThroughout(front, table, key, lease);
    assert front[i] == run[i] && front[..i] == run[..i];
  }

  /**
   A successful SetNX holds its key against every other SetNX and shows its value to every reader
   until the expiry instant; the first SetNX from that instant on succeeds, whatever reads and sweeps
   have come in between.
   */
  lemma LeaseIsExclusive(table: Table<string>, key: string, value: string, expiry: int, at: int, run: seq<Call>, rival: string, rivalExpiry: int, later: int)
    requires Apply(Op.SetNX(key, value, expiry), table, at).1 == Stored(true)
    requires InOrder(run, at) && at <= later && forall i | 0 <= i < |run| :: run[i].at <= later
    requires forall i | 0 <= i < |run| :: LeavesKey(run[i], key, at + Ttl(expiry))
    ensures var held := Apply(Op.SetNX(key, value, expiry), table, at).0;
      forall i | 0 <= i < |run| && run[i].at < at + Ttl(expiry) ::
        SeesHolder(run[i].op, Apply(run[i].op, After(run[..i], held), run[i].at).1, key, value)
    ensures var held := Apply(Op.SetNX(key, value, expiry), table, at).0;
      Apply(Op.SetNX(key, rival, rivalExpiry), After(run, held), later).1 == Stored(later >= at + Ttl(expiry))
  {
    var held, lease := Apply(Op.SetNX(key, value, expiry), table, at).0, Row(value, at + Ttl(expiry));
    forall i | 0 <= i < |run| && run[i].at < lease.expiresAt
      ensures SeesHolder(run[i].op, Apply(run[i].op, After(run[..i], held), run[i].at).1, key, value)
    {
      LeaseSeenAt(run, held, key, lease, at, i);
    }
    if later < lease.expiresAt {
      assert forall i | 0 <= i < |run| :: LeavesKey(run[i], key, lease.expiresAt) && run[i].at < lease.expiresAt;
      LeaseHeldThroughout(run, held, key, lease);
    } else {
      LeaseOrNothing(run, held, key, lease, at);
    }
  }
}
