/** What the answers of the session handlers mean, and what a revocation leaves alone. */
module SessionAnswers {
  import opened Wrappers
  import KvStore
  import opened Sessions
  import opened SessionRuns

  /* ---------- When a refresh is answered with a session ---------- */

  /** The table's primary key is the user's id. */
  ghost predicate KeyedById(users: map<string, User>)
  {
    forall u | u in users :: users[u].id == u
  }

  predicate Unlocked(user: User, now: int)
  {
    user.lockedUntil == None || user.lockedUntil.value <= now
  }

  /** The row `id` lets the token in for `userId`: not expired, and its user stored and not locked. */
  predicate LetsIn(store: Store, token: string, now: int, userId: string, id: string)
  {
    && id in store.sessions
    && store.sessions[id].hash == token && store.sessions[id].userId == userId && now <= store.sessions[id].expiresAt
    && userId in store.users && Unlocked(store.users[userId], now)
  }

  /** Every answer of the table branch, and what it does to the row. */
  lemma TableAnswers(store: Store, settings: Settings, id: string, newId: string, newHash: string, now: int)
    requires UniqueHashes(store.sessions) && KeyedById(store.users) && id in store.sessions && newId !in store.sessions
    ensures var row := store.sessions[id];
      var (next, reply) := RefreshFromTable(store, settings, row.hash, newId, newHash, now);
      && (reply == Expired <==> now > row.expiresAt)
      && (reply == Rejected <==> now <= row.expiresAt && row.userId !in store.users)
      && (reply == Locked <==> now <= row.expiresAt && row.userId in store.users && !Unlocked(store.users[row.userId], now))
      && (reply == Issued(row.userId) <==> LetsIn(store, row.hash, now, row.userId, id))
      && (id in next.sessions <==> reply == Rejected)
  {
    assert RowsWithHash(store.sessions, store.sessions[id].hash) == {id};
  }

  /** The table admits a token for a user exactly when a row of it lets that user in. */
  lemma TableAdmitsExactly(store: Store, settings: Settings, token: string, now: int, userId: string)
    requires UniqueHashes(store.sessions) && KeyedById(store.users)
    ensures TableAdmits(store, settings, token, now) == Some(userId) <==> exists id :: LetsIn(store, token, now, userId, id)
  {
    var ids := RowsWithHash(store.sessions, token);
    if id :| LetsIn(store, token, now, userId, id) {
      assert ids == {id};
    } else if ids != {} {
      var id := SomeOf(ids);
      assert !LetsIn(store, token, now, userId, id);
    }
  }

  predicate HasExpired(store: Store, token: string, now: int, id: string)
  {
    id in store.sessions && store.sessions[id].hash == token && now > store.sessions[id].expiresAt
  }

  lemma TableAnswersTo(store: Store, settings: Settings, token: string, newId: string, newHash: string, now: int, userId: string)
    requires UniqueHashes(store.sessions) && KeyedById(store.users) && newId !in store.sessions
    ensures var (next, reply) := RefreshFromTable(store, settings, token, newId, newHash, now);
      && (reply == Issued(userId) <==> exists id :: LetsIn(store, token, now, userId, id))
      && (reply == Expired <==> exists id :: HasExpired(store, token, now, id))
      && (reply == Expired ==> RowsWithHash(next.sessions, token) == {})
  {
    var ids := RowsWithHash(store.sessions, token);
    forall id | LetsIn(store, token, now, userId, id) || HasExpired(store, token, now, id)
      ensures id in ids
    {
    }
    if ids != {} {
      var id := SomeOf(ids);
      assert ids == {id};
      TableAnswers(store, settings, id, newId, newHash, now);
      assert now > store.sessions[id].expiresAt <==> HasExpired(store, token, now, id);
    }
  }

  /** Over every run, without a live cache entry a refresh is answered by the token's row: exactly when, and what is left of it. */
  lemma RefreshNeedsRow(settings: Settings, run: seq<Event>, i: nat, userId: string)
    requires AdmissibleRun(INITIAL, settings, run) && i < |run| && run[i].step.RefreshToken?
    requires !KvStore.IsLive(After(INITIAL, settings, run[..i]).store.cache, run[i].step.token, run[i].at)
    ensures var store, token, now := After(INITIAL, settings, run[..i]).store, run[i].step.token, run[i].at;
      && (ReplyAt(settings, run, i) == Issued(userId) <==> exists id :: LetsIn(store, token, now, userId, id))
      && (ReplyAt(settings, run, i) == Expired <==> exists id :: HasExpired(store, token, now, id))
      && (ReplyAt(settings, run, i) == Expired ==> RowsWithHash(After(INITIAL, settings, run[..i + 1]).store.sessions, token) == {})
  {
    PrefixIsAdmissible(settings, run, i);
    RunKeepsInv(settings, false, run[..i]);
    NextOfPrefix(settings, run, i);
    TableAnswersTo(After(INITIAL, settings, run[..i]).store, settings, run[i].step.token, run[i].step.id, run[i].step.hash, run[i].at, userId);
  }

  /** With a live cache entry the snapshot's lock alone decides, and the token is used up either way. */
  lemma CacheAnswers(store: Store, settings: Settings, token: string, newId: string, newHash: string, now: int)
    requires settings.fastPath && KvStore.IsLive(store.cache, token, now) && store.cache[token].value.id != "" && newHash != token
    ensures var snapshot := store.cache[token].value;
      var (next, reply) := Refresh(store, settings, token, newId, newHash, now);
      && reply == (if Unlocked(snapshot, now) then Issued(snapshot.id) else Locked)
      && RowsWithHash(next.sessions, token) == {} && token !in next.cache
  {
  }

  /** A session past its refresh expiry is told so exactly when no cache entry outlives it. */
  lemma FreshTokenExpires(w: World, settings: Settings, user: User, id: string, hash: string, newId: string, newHash: string, now: int)
    requires Inv(w, settings, false) && id !in w.ids && hash !in w.hashes && hash != ""
    requires user.id in w.store.users && now > w.clock + RefreshSeconds(settings) * MICROSECONDS_PER_SECOND
    ensures Refresh(Issue(w.store, settings, user, id, hash, w.clock), settings, hash, newId, newHash, now).1 == Expired
      <==> !settings.fastPath || now >= w.clock + CacheSeconds(settings) * MICROSECONDS_PER_SECOND
  {
    var issued := Issue(w.store, settings, user, id, hash, w.clock);
    assert RowsWithHash(issued.sessions, hash) == {id};
  }

  /** The expiries in force: what the settings say if positive, else thirty days and fifteen minutes. */
  lemma ExpiriesAre(settings: Settings)
    ensures RefreshSeconds(settings) == if settings.refreshExpirySeconds > 0 then settings.refreshExpirySeconds else 30 * 24 * 60 * 60
    ensures CacheSeconds(settings) == if settings.cacheTtlSeconds > 0 then settings.cacheTtlSeconds else 15 * 60
  {
  }

  /* ---------- Whose sessions a revocation touches ---------- */

  /** The user for whom a step takes sessions away. */
  function Owner(step: Step): (userId: Option<string>)
  {
    match step
    case RevokeSession(userId, _) => Some(userId)
    case RevokeOtherSessions(userId, _, _) => Some(userId)
    case RevokeUserSessions(userId) => Some(userId)
    case LockUser(userId, _) => Some(userId)
    case DeleteUser(userId) => Some(userId)
    case _ => None
  }

  predicate SameEntry(cache: KvStore.Table<User>, next: KvStore.Table<User>, hash: string)
  {
    (hash in next <==> hash in cache) && (hash in cache ==> next[hash] == cache[hash])
  }

  /** The row and the cache entry of its token are as before. */
  predicate Untouched(store: Store, next: Store, id: string)
    requires id in store.sessions
  {
    id in next.sessions && next.sessions[id] == store.sessions[id] && SameEntry(store.cache, next.cache, store.sessions[id].hash)
  }

  lemma DropLeaves(store: Store, ids: set<string>, id: string)
    requires UniqueHashes(store.sessions) && id in store.sessions && id !in ids
    ensures Untouched(store, Drop(store, ids), id)
  {
    assert store.sessions[id].hash !in HashesOf(store.sessions, ids);
  }

  lemma DeletionLeaves(store: Store, userId: string, id: string)
    requires UniqueHashes(store.sessions) && id in store.sessions && store.sessions[id].userId != userId
    ensures Untouched(store, DeleteSelf(store, userId), id)
  {
    assert store.sessions[id].hash !in HashesOf(store.sessions, RowsOfUser(store.sessions, userId));
  }

  /** Revoking, locking or deleting for one user leaves every session of every other user and its cache entry alone. */
  lemma OthersAreUntouched(store: Store, settings: Settings, step: Step, now: int, id: string)
    requires UniqueHashes(store.sessions) && id in store.sessions
    requires Owner(step).Some? && store.sessions[id].userId != Owner(step).value
    ensures Untouched(store, StoreAfter(store, settings, step, now), id)
  {
    match step
    case RevokeSession(userId, target) =>
      if target != id {
        DropLeaves(store, {target}, id);
      }
    case RevokeOtherSessions(userId, claimedId, hash) =>
      var current := CurrentSession(store, userId, claimedId, hash);
      if current.Some? {
        DropLeaves(store, RowsOfUser(store.sessions, userId) - {current.value}, id);
      }
    case RevokeUserSessions(userId) => DropLeaves(store, RowsOfUser(store.sessions, userId), id);
    case LockUser(userId, _) => DropLeaves(store, RowsOfUser(store.sessions, userId), id);
    case DeleteUser(userId) => DeletionLeaves(store, userId, id);
  }

  /** Signing out with one token leaves every session with another token alone. */
  lemma SignOutTouchesOneToken(store: Store, settings: Settings, token: string, now: int, id: string)
    requires id in store.sessions && store.sessions[id].hash != token
    ensures Untouched(store, StoreAfter(store, settings, SignOutToken(token), now), id)
  {
  }

  /** A session is revoked exactly when it belongs to the caller; otherwise nothing changes. */
  lemma RevokeSessionAnswers(store: Store, userId: string, target: string)
    ensures var (next, reply) := RevokeOne(store, userId, target);
      if target in store.sessions && store.sessions[target].userId == userId
      then reply == NoContent && next.users == store.users && next.sessions == store.sessions - {target}
      else reply == Missing && next == store
  {
  }

  /** The other sessions of the caller go and are counted; the current one stays with its cache entry. */
  lemma RevokeOthersAnswers(store: Store, userId: string, claimedId: Option<string>, hash: string, now: int)
    requires UniqueHashes(store.sessions)
    ensures var current := CurrentSession(store, userId, claimedId, hash);
      var (next, reply) := RevokeOthers(store, userId, claimedId, hash, now);
      current.Some? ==>
        && (current.value in store.sessions ==> Untouched(store, next, current.value))
        && (forall id | id in store.sessions && store.sessions[id].userId == userId && id != current.value :: id !in next.sessions)
        && reply == Revoked(|set id | id in store.sessions && store.sessions[id].userId == userId && id != current.value|)
  {
    var current := CurrentSession(store, userId, claimedId, hash);
    if current.Some? {
      var others := RowsOfUser(store.sessions, userId) - {current.value};
      assert others == set id | id in store.sessions && store.sessions[id].userId == userId && id != current.value;
      if current.value in store.sessions {
        DropLeaves(store, others, current.value);
      }
    }
  }

  /** Without a current session nothing changes, and the caller is told so unless at most one session is left to revoke. */
  lemma NoCurrentSessionAnswers(store: Store, userId: string, hash: string, now: int)
    requires hash == "" || forall id | id in store.sessions && store.sessions[id].userId == userId :: store.sessions[id].hash != hash
    ensures var active := set id | id in store.sessions && store.sessions[id].userId == userId && store.sessions[id].expiresAt > now;
      RevokeOthers(store, userId, None, hash, now) == (store, if |active| <= 1 then Revoked(0) else CurrentSessionRequired)
  {
    assert hash != "" ==> RowsOfUser(store.sessions, userId) * RowsWithHash(store.sessions, hash) == {};
  }

  /** What each of these steps does to the users: a lock or its lifting touches that user's lock alone, a deletion that user. */
  lemma UsersAfter(store: Store, settings: Settings, step: Step, now: int)
    requires Owner(step).Some? || step.UnlockUser? || step.SignOutToken? || step.RefreshToken?
    ensures var users := StoreAfter(store, settings, step, now).users;
      match step
      case LockUser(u, until) =>
        users == if u in store.users then store.users[u := User(store.users[u].id, Some(until), store.users[u].profile)] else store.users
      case UnlockUser(u) =>
        users == if u in store.users then store.users[u := User(store.users[u].id, None, store.users[u].profile)] else store.users
      case DeleteUser(u) => users == store.users - {u}
      case _ => users == store.users
  {
  }

  /** Lifting a lock leaves sessions and cache as they are. */
  lemma UnlockTouchesNoSession(store: Store, settings: Settings, userId: string, now: int)
    ensures var next := StoreAfter(store, settings, UnlockUser(userId), now);
      next.sessions == store.sessions && next.cache == store.cache
  {
  }

  /** After these steps no session of their user is left. */
  lemma NoSessionOfOwnerLeft(store: Store, settings: Settings, step: Step, now: int, id: string)
    requires step.RevokeUserSessions? || step.LockUser? || step.DeleteUser?
    requires Owner(step).value in store.users && id in StoreAfter(store, settings, step, now).sessions
    ensures id in store.sessions && store.sessions[id].userId != Owner(step).value
  {
  }
}
