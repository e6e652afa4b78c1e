/**
 Refresh sessions kept in two places: rows of `auth.sessions` and snapshots in the key-value
 store that let a refresh skip the table.  Each handler is one atomic step on a single clock in
 microseconds.  Cache entries are named by the token hash alone; the JSON of a snapshot is its value.
 */
module Sessions {
  import opened Wrappers
  import opened KvStore

  datatype User = User(id: string, lockedUntil: Option<int>, profile: string)

  datatype Session = Session(userId: string, clientId: Option<string>, hash: string, expiresAt: int)

  /** The configuration the handlers read; non-positive durations fall back to defaults. */
  datatype Settings = Settings(fastPath: bool, cacheTtlSeconds: int, refreshExpirySeconds: int)

  const DEFAULT_REFRESH_EXPIRY_SECONDS := 2592000
  const DEFAULT_SESSION_TTL_SECONDS := 900
  const MICROSECONDS_PER_SECOND := 1_000_000

  function RefreshSeconds(settings: Settings): (seconds: int)
  {
    if settings.refreshExpirySeconds <= 0 then DEFAULT_REFRESH_EXPIRY_SECONDS else settings.refreshExpirySeconds
  }

  function CacheSeconds(settings: Settings): (seconds: int)
  {
    if settings.cacheTtlSeconds <= 0 then DEFAULT_SESSION_TTL_SECONDS else settings.cacheTtlSeconds
  }

  datatype Store = Store(users: map<string, User>, sessions: map<string, Session>, cache: Table<User>)

  datatype Reply =
    | Issued(userId: string)
    | Locked
    | Rejected
    | Expired
    | Missing
    | CurrentSessionRequired
    | Revoked(count: nat)
    | NoContent

  predicate IsLocked(user: User, now: int)
  {
    user.lockedUntil.Some? && now < user.lockedUntil.value
  }

  /* ---------- Rows ---------- */

  function RowsWithHash(sessions: map<string, Session>, hash: string): (ids: set<string>)
  {
    set id | id in sessions && sessions[id].hash == hash
  }

  function RowsOfUser(sessions: map<string, Session>, userId: string): (ids: set<string>)
  {
    set id | id in sessions && sessions[id].userId == userId
  }

  function HashesOf(sessions: map<string, Session>, ids: set<string>): (hashes: set<string>)
  {
    set id | id in ids && id in sessions :: sessions[id].hash
  }

  lemma HashesGrow(sessions: map<string, Session>, ids: set<string>, rows: set<string>, id: string)
    requires ids <= sessions.Keys && rows <= ids && id in rows
    ensures HashesOf(sessions, ids - (rows - {id})) == HashesOf(sessions, ids - rows) + {sessions[id].hash}
  {
    assert ids - (rows - {id}) == ids - rows + {id};
  }

  /** Token hashes are random, so at most one row carries a given one. */
  ghost predicate UniqueHashes(sessions: map<string, Session>)
  {
    forall a, b | a in sessions && b in sessions && sessions[a].hash == sessions[b].hash :: a == b
  }

  ghost function SomeOf(ids: set<string>): (id: string)
    requires ids != {}
    ensures id in ids
  {
    var id :| id in ids; id
  }

  /** Rows are dropped together with the cache entries of their non-empty hashes. */
  function Drop(store: Store, ids: set<string>): (s: Store)
  {
    store.(sessions := store.sessions - ids, cache := store.cache - (HashesOf(store.sessions, ids) - {""}))
  }

  /* ---------- Handlers as steps ---------- */

  /** A row, unless the user is gone, and a snapshot when the fast path is on. */
  function Issue(store: Store, settings: Settings, user: User, id: string, hash: string, now: int): (s: Store)
  {
    var row := Session(user.id, None, hash, now + RefreshSeconds(settings) * MICROSECONDS_PER_SECOND);
    Store(store.users,
          if user.id in store.users then store.sessions[id := row] else store.sessions,
          if settings.fastPath then Put(store.cache, hash, user, CacheSeconds(settings) * NANOSECONDS_PER_SECOND, now)
          else store.cache)
  }

  /** The snapshot the fast path would use. */
  function CachedUser(store: Store, settings: Settings, hash: string, now: int): (user: Option<User>)
  {
    if settings.fastPath && IsLive(store.cache, hash, now) && store.cache[hash].value.id != ""
    then Some(store.cache[hash].value) else None
  }

  /** The table branch once the lookup has returned the row `id`. */
  function RefreshRow(store: Store, settings: Settings, id: string, newId: string, newHash: string, now: int): (r: (Store, Reply))
    requires id in store.sessions
  {
    var row := store.sessions[id];
    var rest := store.(sessions := store.sessions - {id});
    if now > row.expiresAt then (rest, Expired)
    else if row.userId !in store.users then (store, Rejected)
    else
      var user := store.users[row.userId];
      if IsLocked(user, now) then (rest, Locked)
      else (Issue(rest, settings, user, newId, newHash, now), Issued(user.id))
  }

  ghost function RefreshFromTable(store: Store, settings: Settings, hash: string, newId: string, newHash: string, now: int): (r: (Store, Reply))
  {
    var ids := RowsWithHash(store.sessions, hash);
    if ids == {} then (store, Rejected) else RefreshRow(store, settings, SomeOf(ids), newId, newHash, now)
  }

  ghost function Refresh(store: Store, settings: Settings, hash: string, newId: string, newHash: string, now: int): (r: (Store, Reply))
  {
    var cached := CachedUser(store, settings, hash, now);
    if cached.None? then RefreshFromTable(store, settings, hash, newId, newHash, now)
    else
      var rest := Store(store.users, store.sessions - RowsWithHash(store.sessions, hash), store.cache - {hash});
      if IsLocked(cached.value, now) then (rest, Locked)
      else (Issue(rest, settings, cached.value, newId, newHash, now), Issued(cached.value.id))
  }

  function SignOut(store: Store, hash: string): (s: Store)
  {
    Store(store.users, store.sessions - RowsWithHash(store.sessions, hash), store.cache - {hash})
  }

  function RevokeOne(store: Store, userId: string, id: string): (r: (Store, Reply))
  {
    if id in store.sessions && store.sessions[id].userId == userId then (Drop(store, {id}), NoContent)
    else (store, Missing)
  }

  /** The caller's own session: the id in the access token if it is a UUID, else a row of the token hash. */
  predicate IsCurrent(store: Store, userId: string, claimedId: Option<string>, hash: string, current: Option<string>)
  {
    var ids := RowsOfUser(store.sessions, userId) * RowsWithHash(store.sessions, hash);
    if claimedId.Some? then current == claimedId
    else if hash == "" || ids == {} then current == None
    else current.Some? && current.value in ids
  }

  ghost function CurrentSession(store: Store, userId: string, claimedId: Option<string>, hash: string): (id: Option<string>)
    ensures IsCurrent(store, userId, claimedId, hash, id)
  {
    var ids := RowsOfUser(store.sessions, userId) * RowsWithHash(store.sessions, hash);
    if claimedId.Some? then claimedId
    else if hash == "" || ids == {} then None
    else Some(SomeOf(ids))
  }

  lemma CurrentIsUnique(store: Store, userId: string, claimedId: Option<string>, hash: string, current: Option<string>)
    requires UniqueHashes(store.sessions) && IsCurrent(store, userId, claimedId, hash, current)
    ensures current == CurrentSession(store, userId, claimedId, hash)
  {
  }

  function RevokeAllBut(store: Store, userId: string, current: Option<string>, now: int): (r: (Store, Reply))
  {
    if current.None? then
      var active := set id | id in store.sessions && store.sessions[id].userId == userId && store.sessions[id].expiresAt > now;
      (store, if |active| <= 1 then Revoked(0) else CurrentSessionRequired)
    else
      var others := RowsOfUser(store.sessions, userId) - {current.value};
      (Drop(store, others), Revoked(|others|))
  }

  ghost function RevokeOthers(store: Store, userId: string, claimedId: Option<string>, hash: string, now: int): (r: (Store, Reply))
  {
    RevokeAllBut(store, userId, CurrentSession(store, userId, claimedId, hash), now)
  }

  function RevokeAll(store: Store, userId: string): (s: Store)
  {
    Drop(store, RowsOfUser(store.sessions, userId))
  }

  function Lock(store: Store, userId: string, until: int): (r: (Store, Reply))
  {
    if userId !in store.users then (store, Missing)
    else
      var user := store.users[userId].(lockedUntil := Some(until));
      (Drop(store, RowsOfUser(store.sessions, userId)).(users := store.users[userId := user]), NoContent)
  }

  function Unlock(store: Store, userId: string): (r: (Store, Reply))
  {
    if userId !in store.users then (store, Missing)
    else (store.(users := store.users[userId := store.users[userId].(lockedUntil := None)]), NoContent)
  }

  /** Cache keys first, then the user row, whose removal cascades to its sessions. */
  function DeleteSelf(store: Store, userId: string): (s: Store)
  {
    var ids := RowsOfUser(store.sessions, userId);
    Store(store.users - {userId},
          if userId in store.users then store.sessions - ids else store.sessions,
          store.cache - HashesOf(store.sessions, ids))
  }

  /* ---------- The handlers ---------- */

  class Handlers {
    var users: map<string, User>
    var sessions: map<string, Session>
    var cache: Table<User>

    function State(): (s: Store)
      reads this
    {
      Store(users, sessions, cache)
    }

    constructor ()
      ensures State() == Store(map[], map[], map[])
    {
      users, sessions, cache := map[], map[], map[];
    }

    method IssueSession(settings: Settings, user: User, id: string, hash: string, now: int)
      modifies this
      ensures State() == Issue(old(State()), settings, user, id, hash, now)
    {
      var expirySeconds := settings.refreshExpirySeconds;
      if expirySeconds <= 0 {
        expirySeconds := DEFAULT_REFRESH_EXPIRY_SECONDS;
      }
      if user.id in users {
        sessions := sessions[id := Session(user.id, None, hash, now + expirySeconds * MICROSECONDS_PER_SECOND)];
      }
      if settings.fastPath {
        var ttlSeconds := settings.cacheTtlSeconds;
        if ttlSeconds <= 0 {
          ttlSeconds := DEFAULT_SESSION_TTL_SECONDS;
        }
        cache := Put(cache, hash, user, ttlSeconds * NANOSECONDS_PER_SECOND, now);
      }
    }

    /** Whichever row of the token the lookup returns, that row decides; with one row per token there is no choice. */
    method HandleRefresh(settings: Settings, hash: string, newId: string, newHash: string, now: int) returns (reply: Reply)
      modifies this
      ensures CachedUser(old(State()), settings, hash, now).Some? || RowsWithHash(old(sessions), hash) == {} ==>
        (State(), reply) == Refresh(old(State()), settings, hash, newId, newHash, now)
      ensures CachedUser(old(State()), settings, hash, now).None? && RowsWithHash(old(sessions), hash) != {} ==>
        exists id | id in RowsWithHash(old(sessions), hash) ::
          (State(), reply) == RefreshRow(old(State()), settings, id, newId, newHash, now)
      ensures UniqueHashes(old(sessions)) ==> (State(), reply) == Refresh(old(State()), settings, hash, newId, newHash, now)
    {
      if settings.fastPath && hash in cache && cache[hash].expiresAt > now {
        var snapshot := cache[hash].value;
        if snapshot.id != "" {
          cache := cache - {hash};
          sessions := sessions - RowsWithHash(sessions, hash);
          if IsLocked(snapshot, now) {
            return Locked;
          }
          IssueSession(settings, snapshot, newId, newHash, now);
          return Issued(snapshot.id);
        }
      }
      var ids := RowsWithHash(sessions, hash);
      if ids == {} {
        return Rejected;
      }
      var id :| id in ids;
      assert UniqueHashes(sessions) ==> ids == {id};
      var row := sessions[id];
      if now > row.expiresAt {
        sessions := sessions - {id};
        return Expired;
      }
      if row.userId !in users {
        return Rejected;
      }
      var user := users[row.userId];
      sessions := sessions - {id};
      if IsLocked(user, now) {
        return Locked;
      }
      IssueSession(settings, user, newId, newHash, now);
      return Issued(user.id);
    }

    method HandleSignOut(hash: string)
      modifies this
      ensures State() == SignOut(old(State()), hash)
    {
      cache := cache - {hash};
      sessions := sessions - RowsWithHash(sessions, hash);
    }

    method HandleRevokeSession(userId: string, id: string) returns (reply: Reply)
      modifies this
      ensures (State(), reply) == RevokeOne(old(State()), userId, id)
    {
      if id !in sessions || sessions[id].userId != userId {
        return Missing;
      }
      var hash := sessions[id].hash;
      assert HashesOf(sessions, {id}) == {hash};
      sessions := sessions - {id};
      if hash != "" {
        cache := cache - {hash};
      }
      assert old(cache) - ({hash} - {""}) == cache;
      return NoContent;
    }

    /** The row loop shared by the revoking handlers: delete the rows, then their cache keys. */
    method DropRows(ids: set<string>)
      requires ids <= sessions.Keys
      modifies this`sessions, this`cache
      ensures State() == Drop(old(State()), ids)
    {
      var deleted := sessions;
      sessions := sessions - ids;
      var rows := ids;
      while rows != {}
        invariant rows <= ids
        invariant sessions == old(sessions) - ids
        invariant cache == old(cache) - (HashesOf(old(sessions), ids - rows) - {""})
        decreases |rows|
      {
        var id :| id in rows;
        var hash := deleted[id].hash;
        HashesGrow(deleted, ids, rows, id);
        if hash != "" {
          cache := cache - {hash};
        }
        rows := rows - {id};
      }
      assert ids - rows == ids;
    }

    method FindCurrent(userId: string, claimedId: Option<string>, hash: string) returns (current: Option<string>)
      ensures IsCurrent(State(), userId, claimedId, hash, current)
    {
      current := claimedId;
      if current.None? && hash != "" {
        var ids := RowsOfUser(sessions, userId) * RowsWithHash(sessions, hash);
        if ids != {} {
          var id :| id in ids;
          current := Some(id);
        }
      }
    }

    method RevokeRowsBut(userId: string, current: Option<string>, now: int) returns (reply: Reply)
      modifies this
      ensures (State(), reply) == RevokeAllBut(old(State()), userId, current, now)
    {
      if current.None? {
        var active := set id | id in sessions && sessions[id].userId == userId && sessions[id].expiresAt > now;
        return if |active| <= 1 then Revoked(0) else CurrentSessionRequired;
      }
      var others := RowsOfUser(sessions, userId) - {current.value};
      DropRows(others);
      return Revoked(|others|);
    }

    method HandleRevokeOthers(userId: string, claimedId: Option<string>, hash: string, now: int) returns (reply: Reply)
      modifies this
      ensures exists current | IsCurrent(old(State()), userId, claimedId, hash, current) ::
        (State(), reply) == RevokeAllBut(old(State()), userId, current, now)
      ensures UniqueHashes(old(sessions)) ==> (State(), reply) == RevokeOthers(old(State()), userId, claimedId, hash, now)
    {
      var current := FindCurrent(userId, claimedId, hash);
      if UniqueHashes(sessions) {
        CurrentIsUnique(State(), userId, claimedId, hash, current);
      }
      reply := RevokeRowsBut(userId, current, now);
    }

    method HandleRevokeUserSessions(userId: string)
      modifies this
      ensures State() == RevokeAll(old(State()), userId)
    {
      DropRows(RowsOfUser(sessions, userId));
    }

    method HandleLockUser(userId: string, until: int) returns (reply: Reply)
      modifies this
      ensures (State(), reply) == Lock(old(State()), userId, until)
    {
      if userId !in users {
        return Missing;
      }
      users := users[userId := users[userId].(lockedUntil := Some(until))];
      DropRows(RowsOfUser(sessions, userId));
      return NoContent;
    }

    method HandleUnlockUser(userId: string) returns (reply: Reply)
      modifies this
      ensures (State(), reply) == Unlock(old(State()), userId)
    {
      if userId !in users {
        return Missing;
      }
      users := users[userId := users[userId].(lockedUntil := None)];
      return NoContent;
    }

    method HandleDeleteSelf(userId: string)
      modifies this
      ensures State() == DeleteSelf(old(State()), userId)
    {
      var ids := RowsOfUser(sessions, userId);
      var rows := ids;
      while rows != {}
        invariant rows <= ids && users == old(users) && sessions == old(sessions)
        invariant cache == old(cache) - HashesOf(sessions, ids - rows)
        decreases |rows|
      {
        var id :| id in rows;
        HashesGrow(sessions, ids, rows, id);
        cache := cache - {sessions[id].hash};
        rows := rows - {id};
      }
      assert ids - rows == ids;
      if userId in users {
        sessions := sessions - ids;
      }
      users := users - {userId};
    }
  }
}
