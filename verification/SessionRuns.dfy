/** What holds over every run of the session handlers under fixed settings. */
module SessionRuns {
  import opened Wrappers
  import opened KvStore
  import opened Sessions

  datatype Step =
    | AddUser(user: User)
    | EditUser(userId: string, profile: string)
    | SignIn(snapshot: User, id: string, hash: string)
    | SignInUncached(userId: string, clientId: Option<string>, expiresAt: int, id: string, hash: string)
    | RefreshToken(token: string, id: string, hash: string)
    | SignOutToken(token: string)
    | RevokeSession(userId: string, target: string)
    | RevokeOtherSessions(userId: string, claimedId: Option<string>, token: string)
    | RevokeUserSessions(userId: string)
    | LockUser(userId: string, until: int)
    | UnlockUser(userId: string)
    | DeleteUser(userId: string)
    | SweepCache

  datatype Event = Event(at: int, step: Step)

  /** The stores, what has been handed out so far, and the clock. */
  datatype World = World(store: Store, ids: set<string>, hashes: set<string>, clock: int)

  const INITIAL := World(Store(map[], map[], map[]), {}, {}, 0)

  ghost function StoreAfter(store: Store, settings: Settings, step: Step, now: int): (s: Store)
  {
    match step
    case AddUser(user) => if user.id in store.users then store else store.(users := store.users[user.id := user])
    case EditUser(userId, profile) =>
      if userId in store.users then store.(users := store.users[userId := store.users[userId].(profile := profile)]) else store
    case SignIn(snapshot, id, hash) => Issue(store, settings, snapshot, id, hash, now)
    case SignInUncached(userId, clientId, expiresAt, id, hash) =>
      if userId in store.users then store.(sessions := store.sessions[id := Session(userId, clientId, hash, expiresAt)]) else store
    case RefreshToken(token, id, hash) => Refresh(store, settings, token, id, hash, now).0
    case SignOutToken(token) => SignOut(store, token)
    case RevokeSession(userId, target) => RevokeOne(store, userId, target).0
    case RevokeOtherSessions(userId, claimedId, token) => RevokeOthers(store, userId, claimedId, token, now).0
    case RevokeUserSessions(userId) => RevokeAll(store, userId)
    case LockUser(userId, until) => Lock(store, userId, until).0
    case UnlockUser(userId) => Unlock(store, userId).0
    case DeleteUser(userId) => DeleteSelf(store, userId)
    case SweepCache => store.(cache := Visible(store.cache, now))
  }

  predicate Mints(step: Step) { step.SignIn? || step.SignInUncached? || step.RefreshToken? }

  ghost function Next(w: World, settings: Settings, event: Event): (w': World)
  {
    World(StoreAfter(w.store, settings, event.step, event.at),
          if Mints(event.step) then w.ids + {event.step.id} else w.ids,
          if Mints(event.step) then w.hashes + {event.step.hash} else w.hashes,
          event.at)
  }

  /** From when on the snapshot, taken at `now` or before, no longer counts as locked. */
  function OpenFrom(snapshot: User, now: int): (t: int)
  {
    if snapshot.lockedUntil.Some? && now < snapshot.lockedUntil.value then snapshot.lockedUntil.value else now
  }

  /** The row's lock ends no later than the snapshot's, as seen from `now`. */
  predicate CarriesLock(snapshot: User, row: User, now: int)
  {
    row.lockedUntil.Some? ==> row.lockedUntil.value <= OpenFrom(snapshot, now)
  }

  /**
   Time does not go back, ids and token hashes are new, users have ids, and a sign-in is for an
   existing user.
   */
  ghost predicate Admissible(w: World, event: Event)
  {
    && w.clock <= event.at
    && (Mints(event.step) ==> event.step.id !in w.ids && event.step.hash !in w.hashes && event.step.hash != "")
    && (event.step.AddUser? ==> event.step.user.id != "")
    && (event.step.SignIn? ==> event.step.snapshot.id in w.store.users)
  }

  /** A sign-in hands the issuer its user together with the lock, as all but the account-linking callback do. */
  ghost predicate HandsOverLock(w: World, event: Event)
  {
    event.step.SignIn? && event.step.snapshot.id in w.store.users ==>
      CarriesLock(event.step.snapshot, w.store.users[event.step.snapshot.id], event.at)
  }

  ghost function After(w: World, settings: Settings, run: seq<Event>): (w': World)
  {
    if run == [] then w else Next(After(w, settings, run[..|run| - 1]), settings, run[|run| - 1])
  }

  ghost predicate AdmissibleRun(w: World, settings: Settings, run: seq<Event>)
  {
    run == [] || (AdmissibleRun(w, settings, run[..|run| - 1])
                  && Admissible(After(w, settings, run[..|run| - 1]), run[|run| - 1]))
  }

  ghost predicate HandsOverLocks(settings: Settings, run: seq<Event>)
  {
    run == [] || (HandsOverLocks(settings, run[..|run| - 1])
                  && HandsOverLock(After(INITIAL, settings, run[..|run| - 1]), run[|run| - 1]))
  }

  /* ---------- The invariant ---------- */

  ghost predicate WellFormed(w: World)
  {
    && UniqueHashes(w.store.sessions)
    && (forall u | u in w.store.users :: w.store.users[u].id == u && u != "")
    && (forall id | id in w.store.sessions ::
          id in w.ids && w.store.sessions[id].hash in w.hashes && w.store.sessions[id].userId in w.store.users)
    && (forall hash | hash in w.store.cache :: hash in w.hashes)
    && "" !in w.hashes
  }

  /**
   The row `id` stands behind the cached snapshot of `hash`: it has the same token and user.  With
   `timed` it also lives as long, and its user's lock ends no later than the snapshot's.
   */
  ghost predicate Backs(store: Store, now: int, hash: string, id: string, timed: bool)
    requires hash in store.cache
  {
    var entry := store.cache[hash];
    && id in store.sessions
    && store.sessions[id].hash == hash
    && store.sessions[id].userId == entry.value.id
    && entry.value.id in store.users
    && (timed ==>
          && entry.expiresAt <= store.sessions[id].expiresAt
          && CarriesLock(entry.value, store.users[entry.value.id], now))
  }

  ghost predicate CacheBacked(w: World, timed: bool)
  {
    forall hash | hash in w.store.cache && w.store.cache[hash].expiresAt > w.clock ::
      exists id :: Backs(w.store, w.clock, hash, id, timed)
  }

  ghost predicate Inv(w: World, settings: Settings, timed: bool)
  {
    WellFormed(w) && CacheBacked(w, timed) && (!settings.fastPath ==> w.store.cache == map[])
  }

  /** The cache must not outlive the session. */
  predicate CacheFits(settings: Settings) { CacheSeconds(settings) <= RefreshSeconds(settings) }

  /* ---------- Steps keep it ---------- */

  lemma LaterKeepsInv(w: World, settings: Settings, timed: bool, at: int)
    requires Inv(w, settings, timed) && w.clock <= at
    ensures Inv(w.(clock := at), settings, timed)
  {
    forall hash | hash in w.store.cache && w.store.cache[hash].expiresAt > at
      ensures exists id :: Backs(w.store, at, hash, id, timed)
    {
      var id :| Backs(w.store, w.clock, hash, id, timed);
      assert Backs(w.store, at, hash, id, timed);
    }
  }

  /** Rows may go as long as no live cache entry keeps one of their hashes. */
  lemma RemovalKeepsInv(w: World, settings: Settings, timed: bool, ids: set<string>, hashes: set<string>)
    requires Inv(w, settings, timed)
    requires forall id | id in ids && id in w.store.sessions ::
      var hash := w.store.sessions[id].hash;
      hash in hashes || !IsLive(w.store.cache, hash, w.clock)
    ensures Inv(w.(store := w.store.(sessions := w.store.sessions - ids, cache := w.store.cache - hashes)), settings, timed)
  {
    var next := w.store.(sessions := w.store.sessions - ids, cache := w.store.cache - hashes);
    forall hash | hash in next.cache && next.cache[hash].expiresAt > w.clock
      ensures exists id :: Backs(next, w.clock, hash, id, timed)
    {
      var id :| Backs(w.store, w.clock, hash, id, timed);
      assert Backs(next, w.clock, hash, id, timed);
    }
  }

  lemma IssueKeepsInv(w: World, settings: Settings, timed: bool, user: User, id: string, hash: string)
    requires Inv(w, settings, timed) && (timed ==> CacheFits(settings))
    requires id !in w.ids && hash !in w.hashes && hash != ""
    requires user.id in w.store.users
    requires timed ==> CarriesLock(user, w.store.users[user.id], w.clock)
    ensures Inv(World(Issue(w.store, settings, user, id, hash, w.clock), w.ids + {id}, w.hashes + {hash}, w.clock), settings, timed)
  {
    var next := Issue(w.store, settings, user, id, hash, w.clock);
    forall h | h in next.cache && next.cache[h].expiresAt > w.clock
      ensures exists i :: Backs(next, w.clock, h, i, timed)
    {
      if h == hash {
        assert Backs(next, w.clock, h, id, timed);
      } else {
        var i :| Backs(w.store, w.clock, h, i, timed);
        assert Backs(next, w.clock, h, i, timed);
      }
    }
  }

  /** Rows may be added without a cache entry. */
  lemma UncachedRowKeepsInv(w: World, settings: Settings, timed: bool, id: string, row: Session)
    requires Inv(w, settings, timed)
    requires id !in w.ids && row.hash !in w.hashes && row.hash != "" && row.userId in w.store.users
    ensures Inv(World(w.store.(sessions := w.store.sessions[id := row]), w.ids + {id}, w.hashes + {row.hash}, w.clock), settings, timed)
  {
    var next := w.store.(sessions := w.store.sessions[id := row]);
    forall h | h in next.cache && next.cache[h].expiresAt > w.clock
      ensures exists i :: Backs(next, w.clock, h, i, timed)
    {
      var i :| Backs(w.store, w.clock, h, i, timed);
      assert Backs(next, w.clock, h, i, timed);
    }
  }

  /** A user row may change if its lock stays, is lifted, or belongs to nobody in the cache. */
  lemma UserUpdateKeepsInv(w: World, settings: Settings, timed: bool, user: User)
    requires Inv(w, settings, timed)
    requires user.id != ""
    requires user.lockedUntil == None
      || user.id !in w.store.users
      || user.lockedUntil == w.store.users[user.id].lockedUntil
      || RowsOfUser(w.store.sessions, user.id) == {}
    ensures Inv(w.(store := w.store.(users := w.store.users[user.id := user])), settings, timed)
  {
    var next := w.store.(users := w.store.users[user.id := user]);
    forall h | h in next.cache && next.cache[h].expiresAt > w.clock
      ensures exists i :: Backs(next, w.clock, h, i, timed)
    {
      var i :| Backs(w.store, w.clock, h, i, timed);
      assert i in RowsOfUser(w.store.sessions, w.store.cache[h].value.id);
      assert Backs(next, w.clock, h, i, timed);
    }
  }

  lemma DropKeepsInv(w: World, settings: Settings, timed: bool, ids: set<string>)
    requires Inv(w, settings, timed)
    ensures Inv(w.(store := Drop(w.store, ids)), settings, timed)
  {
    RemovalKeepsInv(w, settings, timed, ids, HashesOf(w.store.sessions, ids) - {""});
  }

  /** A user without sessions may go. */
  lemma UserRemovalKeepsInv(w: World, settings: Settings, timed: bool, userId: string)
    requires Inv(w, settings, timed) && RowsOfUser(w.store.sessions, userId) == {}
    ensures Inv(w.(store := w.store.(users := w.store.users - {userId})), settings, timed)
  {
    var next := w.store.(users := w.store.users - {userId});
    forall id | id in next.sessions
      ensures next.sessions[id].userId in next.users
    {
      assert id !in RowsOfUser(w.store.sessions, userId);
    }
    forall h | h in next.cache && next.cache[h].expiresAt > w.clock
      ensures exists i :: Backs(next, w.clock, h, i, timed)
    {
      var i :| Backs(w.store, w.clock, h, i, timed);
      assert Backs(next, w.clock, h, i, timed);
    }
  }

  lemma DeleteKeepsInv(w: World, settings: Settings, timed: bool, userId: string)
    requires Inv(w, settings, timed)
    ensures Inv(w.(store := DeleteSelf(w.store, userId)), settings, timed)
  {
    var ids := RowsOfUser(w.store.sessions, userId);
    var removed := w.store.(sessions := w.store.sessions - ids, cache := w.store.cache - HashesOf(w.store.sessions, ids));
    RemovalKeepsInv(w, settings, timed, ids, HashesOf(w.store.sessions, ids));
    assert RowsOfUser(removed.sessions, userId) == {};
    UserRemovalKeepsInv(w.(store := removed), settings, timed, userId);
    if userId !in w.store.users {
      assert ids == {};
      assert w.store.sessions - ids == w.store.sessions;
    }
  }

  lemma SweepKeepsInv(w: World, settings: Settings, timed: bool)
    requires Inv(w, settings, timed)
    ensures Inv(w.(store := w.store.(cache := Visible(w.store.cache, w.clock))), settings, timed)
  {
    var next := w.store.(cache := Visible(w.store.cache, w.clock));
    forall h | h in next.cache && next.cache[h].expiresAt > w.clock
      ensures exists i :: Backs(next, w.clock, h, i, timed)
    {
      var i :| Backs(w.store, w.clock, h, i, timed);
      assert Backs(next, w.clock, h, i, timed);
    }
  }

  lemma RefreshKeepsInv(w: World, settings: Settings, timed: bool, token: string, id: string, hash: string)
    requires Inv(w, settings, timed) && (timed ==> CacheFits(settings))
    requires id !in w.ids && hash !in w.hashes && hash != ""
    ensures Inv(World(Refresh(w.store, settings, token, id, hash, w.clock).0, w.ids + {id}, w.hashes + {hash}, w.clock), settings, timed)
  {
    var now := w.clock;
    var cached := CachedUser(w.store, settings, token, now);
    var grown := w.(ids := w.ids + {id}, hashes := w.hashes + {hash});
    assert Inv(grown, settings, timed);
    if cached.Some? {
      var rowId :| Backs(w.store, w.clock, token, rowId, timed);
      var rows := RowsWithHash(w.store.sessions, token);
      RemovalKeepsInv(grown, settings, timed, rows, {token});
      RemovalKeepsInv(w, settings, timed, rows, {token});
      var rest := w.(store := Store(w.store.users, w.store.sessions - rows, w.store.cache - {token}));
      if !IsLocked(cached.value, now) {
        IssueKeepsInv(rest, settings, timed, cached.value, id, hash);
      }
    } else if RowsWithHash(w.store.sessions, token) != {} {
      var rowId := SomeOf(RowsWithHash(w.store.sessions, token));
      RemovalKeepsInv(grown, settings, timed, {rowId}, {});
      RemovalKeepsInv(w, settings, timed, {rowId}, {});
      assert w.store.cache - {} == w.store.cache;
      var rest := w.(store := w.store.(sessions := w.store.sessions - {rowId}));
      var user := w.store.users[w.store.sessions[rowId].userId];
      if now <= w.store.sessions[rowId].expiresAt && !IsLocked(user, now) {
        IssueKeepsInv(rest, settings, timed, user, id, hash);
      }
    }
  }

  lemma StepKeepsInv(before: World, settings: Settings, timed: bool, event: Event)
    requires Inv(before, settings, timed) && (timed ==> CacheFits(settings))
    requires Admissible(before, event) && (timed ==> HandsOverLock(before, event))
    ensures Inv(Next(before, settings, event), settings, timed)
  {
    LaterKeepsInv(before, settings, timed, event.at);
    var w := before.(clock := event.at);
    if Mints(event.step) {
      MintingKeepsInv(w, settings, timed, event);
    } else if Drops(event.step) {
      DroppingKeepsInv(w, settings, timed, event);
    } else {
      OtherStepKeepsInv(w, settings, timed, event);
    }
  }

  lemma MintingKeepsInv(w: World, settings: Settings, timed: bool, event: Event)
    requires Inv(w, settings, timed) && (timed ==> CacheFits(settings))
    requires Mints(event.step) && Admissible(w, event) && (timed ==> HandsOverLock(w, event)) && w.clock == event.at
    ensures Inv(Next(w, settings, event), settings, timed)
  {
    match event.step
    case SignIn(snapshot, id, hash) =>
      IssueKeepsInv(w, settings, timed, snapshot, id, hash);
    case SignInUncached(userId, clientId, expiresAt, id, hash) =>
      if userId in w.store.users {
        UncachedRowKeepsInv(w, settings, timed, id, Session(userId, clientId, hash, expiresAt));
      } else {
        assert Inv(w.(ids := w.ids + {id}, hashes := w.hashes + {hash}), settings, timed);
      }
    case RefreshToken(token, id, hash) =>
      RefreshKeepsInv(w, settings, timed, token, id, hash);
  }

  predicate Drops(step: Step)
  {
    step.RevokeSession? || step.RevokeOtherSessions? || step.RevokeUserSessions? || step.LockUser?
  }

  lemma DroppingKeepsInv(w: World, settings: Settings, timed: bool, event: Event)
    requires Inv(w, settings, timed) && Drops(event.step) && w.clock == event.at
    ensures Inv(Next(w, settings, event), settings, timed)
  {
    match event.step
    case RevokeSession(userId, target) => DropKeepsInv(w, settings, timed, {target});
    case RevokeOtherSessions(userId, claimedId, token) =>
      var current := CurrentSession(w.store, userId, claimedId, token);
      if current.Some? {
        DropKeepsInv(w, settings, timed, RowsOfUser(w.store.sessions, userId) - {current.value});
      }
    case RevokeUserSessions(userId) => DropKeepsInv(w, settings, timed, RowsOfUser(w.store.sessions, userId));
    case LockUser(userId, until) =>
      if userId in w.store.users {
        LockKeepsInv(w, settings, timed, userId, until);
      }
  }

  lemma LockKeepsInv(w: World, settings: Settings, timed: bool, userId: string, until: int)
    requires Inv(w, settings, timed) && userId in w.store.users
    ensures Inv(w.(store := Lock(w.store, userId, until).0), settings, timed)
  {
    var ids := RowsOfUser(w.store.sessions, userId);
    DropKeepsInv(w, settings, timed, ids);
    assert RowsOfUser(w.store.sessions - ids, userId) == {};
    UserUpdateKeepsInv(w.(store := Drop(w.store, ids)), settings, timed, w.store.users[userId].(lockedUntil := Some(until)));
  }

  lemma OtherStepKeepsInv(w: World, settings: Settings, timed: bool, event: Event)
    requires Inv(w, settings, timed)
    requires !Mints(event.step) && !Drops(event.step) && Admissible(w, event) && w.clock == event.at
    ensures Inv(Next(w, settings, event), settings, timed)
  {
    match event.step
    case AddUser(user) =>
      if user.id !in w.store.users {
        UserUpdateKeepsInv(w, settings, timed, user);
      }
    case EditUser(userId, profile) =>
      if userId in w.store.users {
        UserUpdateKeepsInv(w, settings, timed, w.store.users[userId].(profile := profile));
      }
    case SignOutToken(token) =>
      RemovalKeepsInv(w, settings, timed, RowsWithHash(w.store.sessions, token), {token});
    case UnlockUser(userId) =>
      if userId in w.store.users {
        UserUpdateKeepsInv(w, settings, timed, w.store.users[userId].(lockedUntil := None));
      }
    case DeleteUser(userId) => DeleteKeepsInv(w, settings, timed, userId);
    case SweepCache => SweepKeepsInv(w, settings, timed);
  }

  lemma {:induction false} RunKeepsInv(settings: Settings, timed: bool, run: seq<Event>)
    requires AdmissibleRun(INITIAL, settings, run) && (timed ==> CacheFits(settings) && HandsOverLocks(settings, run))
    ensures Inv(After(INITIAL, settings, run), settings, timed)
  {
    if run != [] {
      RunKeepsInv(settings, timed, run[..|run| - 1]);
      StepKeepsInv(After(INITIAL, settings, run[..|run| - 1]), settings, timed, run[|run| - 1]);
    }
  }

  /* ---------- The fast path is sound ---------- */

  /** Whom the fast path would admit with this token. */
  function CacheAdmits(store: Store, settings: Settings, token: string, now: int): (userId: Option<string>)
  {
    var cached := CachedUser(store, settings, token, now);
    if cached.Some? && !IsLocked(cached.value, now) then Some(cached.value.id) else None
  }

  /** Whom the table lookup would admit with this token. */
  ghost function TableAdmits(store: Store, settings: Settings, token: string, now: int): (userId: Option<string>)
  {
    var reply := RefreshFromTable(store, settings, token, "", "", now).1;
    if reply.Issued? then Some(reply.userId) else None
  }

  lemma InvMakesFastPathSound(w: World, settings: Settings, token: string, now: int)
    requires Inv(w, settings, true) && w.clock <= now
    requires CacheAdmits(w.store, settings, token, now).Some?
    ensures TableAdmits(w.store, settings, token, now) == CacheAdmits(w.store, settings, token, now)
  {
    var id :| Backs(w.store, w.clock, token, id, true);
    assert RowsWithHash(w.store.sessions, token) == {id};
  }

  ghost predicate SoundAt(settings: Settings, run: seq<Event>, token: string, now: int)
  {
    var store := After(INITIAL, settings, run).store;
    CacheAdmits(store, settings, token, now).Some? ==>
      TableAdmits(store, settings, token, now) == CacheAdmits(store, settings, token, now)
  }

  /** Over every run, whatever the cache admits the table admits too, for the same user. */
  lemma FastPathIsSound(settings: Settings, run: seq<Event>, token: string, now: int)
    requires CacheFits(settings)
    requires AdmissibleRun(INITIAL, settings, run) && HandsOverLocks(settings, run)
    requires After(INITIAL, settings, run).clock <= now
    ensures SoundAt(settings, run, token, now)
  {
    RunKeepsInv(settings, true, run);
    var w := After(INITIAL, settings, run);
    if CacheAdmits(w.store, settings, token, now).Some? {
      InvMakesFastPathSound(w, settings, token, now);
    }
  }

  /** One user signing in: enough to tell the two lookups apart when the cache outlives the row. */
  function FirstSignIn(): (run: seq<Event>)
  {
    var user := User("u", None, "");
    [Event(0, AddUser(user)), Event(0, SignIn(user, "s", "h"))]
  }

  lemma FirstSignInIsRun(settings: Settings)
    ensures AdmissibleRun(INITIAL, settings, FirstSignIn()) && HandsOverLocks(settings, FirstSignIn())
    ensures After(INITIAL, settings, FirstSignIn()) == Next(Next(INITIAL, settings, FirstSignIn()[0]), settings, FirstSignIn()[1])
  {
    var run := FirstSignIn();
    var added := run[..1];
    assert added[..0] == [] && added[0] == run[0] && |added| == 1 && |run| == 2;
    assert After(INITIAL, settings, added[..0]) == INITIAL;
    assert After(INITIAL, settings, added) == Next(INITIAL, settings, run[0]);
    assert Admissible(INITIAL, added[0]) && AdmissibleRun(INITIAL, settings, added[..0]);
    assert AdmissibleRun(INITIAL, settings, added);
    assert HandsOverLock(INITIAL, added[0]) && HandsOverLocks(settings, added[..0]);
    assert HandsOverLocks(settings, added);
    var w := After(INITIAL, settings, added);
    assert Admissible(w, run[1]) && HandsOverLock(w, run[1]);
  }

  lemma FirstSignInOutlivesRow(settings: Settings)
    requires settings.fastPath && !CacheFits(settings)
    ensures AdmissibleRun(INITIAL, settings, FirstSignIn()) && HandsOverLocks(settings, FirstSignIn())
    ensures After(INITIAL, settings, FirstSignIn()).clock == 0
    ensures !SoundAt(settings, FirstSignIn(), "h", RefreshSeconds(settings) * MICROSECONDS_PER_SECOND + 1)
  {
    FirstSignInIsRun(settings);
    assert RowsWithHash(After(INITIAL, settings, FirstSignIn()).store.sessions, "h") == {"s"};
  }

  ghost predicate LockedRun(settings: Settings, run: seq<Event>)
  {
    AdmissibleRun(INITIAL, settings, run) && HandsOverLocks(settings, run)
  }

  /** The fast path is sound over all runs exactly when it is off or the cache does not outlive the rows. */
  lemma FastPathSoundExactly(settings: Settings)
    ensures (!settings.fastPath || CacheFits(settings))
        <==> forall run, token, now | LockedRun(settings, run) && After(INITIAL, settings, run).clock <= now ::
               SoundAt(settings, run, token, now)
  {
    if CacheFits(settings) {
      forall run, token, now | LockedRun(settings, run) && After(INITIAL, settings, run).clock <= now
        ensures SoundAt(settings, run, token, now)
      {
        FastPathIsSound(settings, run, token, now);
      }
    } else if settings.fastPath {
      FirstSignInOutlivesRow(settings);
    }
  }

  /**
   A sign-in may hand over a snapshot that lost the lock of its row, as the account-linking callback
   does.  The new token stays sound exactly when the row's lock or the cache entry has run out by
   the time the snapshot opens.
   */
  lemma SnapshotLockExactly(w: World, settings: Settings, snapshot: User, id: string, hash: string)
    requires Inv(w, settings, false) && settings.fastPath && CacheFits(settings)
    requires id !in w.ids && hash !in w.hashes && hash != ""
    requires snapshot.id in w.store.users
    ensures var store := Issue(w.store, settings, snapshot, id, hash, w.clock);
      var opens := OpenFrom(snapshot, w.clock);
      (CarriesLock(snapshot, w.store.users[snapshot.id], w.clock) || store.cache[hash].expiresAt <= opens)
      <==> forall now | w.clock <= now && CacheAdmits(store, settings, hash, now).Some? ::
             TableAdmits(store, settings, hash, now) == Some(snapshot.id)
  {
    var store := Issue(w.store, settings, snapshot, id, hash, w.clock);
    var opens := OpenFrom(snapshot, w.clock);
    var row := w.store.users[snapshot.id];
    assert RowsWithHash(store.sessions, hash) == {id};
    if !CarriesLock(snapshot, row, w.clock) && store.cache[hash].expiresAt > opens {
      assert CacheAdmits(store, settings, hash, opens).Some?;
      assert IsLocked(row, opens);
      assert TableAdmits(store, settings, hash, opens).None?;
    }
  }

  /** A user is locked and then signs in through a callback that hands over no lock. */
  function LinkedSignIn(): (run: seq<Event>)
  {
    var user := User("u", None, "");
    [Event(0, AddUser(user)), Event(1, LockUser("u", 1_000_000_000)), Event(2, SignIn(user, "s", "h"))]
  }

  lemma LinkedSignInIsRun(settings: Settings)
    ensures AdmissibleRun(INITIAL, settings, LinkedSignIn())
    ensures var run := LinkedSignIn();
      After(INITIAL, settings, run) == Next(Next(Next(INITIAL, settings, run[0]), settings, run[1]), settings, run[2])
  {
    var run := LinkedSignIn();
    var added, locked := run[..1], run[..2];
    assert added[..0] == [] && added[0] == run[0] && locked[..1] == added && locked[1] == run[1];
    assert After(INITIAL, settings, added[..0]) == INITIAL && AdmissibleRun(INITIAL, settings, added[..0]);
    var first := After(INITIAL, settings, added);
    assert first == Next(INITIAL, settings, run[0]) && AdmissibleRun(INITIAL, settings, added);
    assert Admissible(first, locked[1]);
    var second := After(INITIAL, settings, locked);
    assert second == Next(first, settings, run[1]) && AdmissibleRun(INITIAL, settings, locked);
    assert Admissible(second, run[2]);
  }

  /** With the default settings the cache then admits the locked user and the table does not. */
  lemma LinkedSignInIsUnsound()
    ensures var settings := Settings(true, 900, 2592000);
      CacheFits(settings) && AdmissibleRun(INITIAL, settings, LinkedSignIn()) && !SoundAt(settings, LinkedSignIn(), "h", 2)
  {
    var settings := Settings(true, 900, 2592000);
    LinkedSignInIsRun(settings);
    var store := After(INITIAL, settings, LinkedSignIn()).store;
    assert RowsWithHash(store.sessions, "h") == {"s"};
    assert CacheAdmits(store, settings, "h", 2) == Some("u");
  }

  /* ---------- Rotation ---------- */

  ghost function ReplyAt(settings: Settings, run: seq<Event>, i: nat): (reply: Sessions.Reply)
    requires i < |run| && run[i].step.RefreshToken?
  {
    var step := run[i].step;
    Refresh(After(INITIAL, settings, run[..i]).store, settings, step.token, step.id, step.hash, run[i].at).1
  }

  ghost predicate Spent(w: World, token: string)
  {
    && token in w.hashes
    && RowsWithHash(w.store.sessions, token) == {}
    && !IsLive(w.store.cache, token, w.clock)
  }

  lemma RefreshSpendsToken(w: World, settings: Settings, event: Event)
    requires Inv(w, settings, false) && Admissible(w, event) && event.step.RefreshToken?
    requires Refresh(w.store, settings, event.step.token, event.step.id, event.step.hash, event.at).1.Issued?
    ensures Spent(Next(w, settings, event), event.step.token)
  {
    var token := event.step.token;
    var ids := RowsWithHash(w.store.sessions, token);
    if CachedUser(w.store, settings, token, event.at).None? {
      var rowId := SomeOf(ids);
      assert ids == {rowId};
    }
    var next := Next(w, settings, event).store;
    assert RowsWithHash(next.sessions, token) == {};
  }

  /** Rows and live cache entries are old ones or carry the hash just minted. */
  lemma MintingAddsOwnHash(w: World, settings: Settings, event: Event, token: string)
    requires Mints(event.step) && event.step.hash != token
    ensures forall id | id in RowsWithHash(StoreAfter(w.store, settings, event.step, event.at).sessions, token) ::
      id in RowsWithHash(w.store.sessions, token) || id == event.step.id
    ensures event.step.id !in RowsWithHash(StoreAfter(w.store, settings, event.step, event.at).sessions, token)
      || event.step.id in RowsWithHash(w.store.sessions, token)
    ensures IsLive(StoreAfter(w.store, settings, event.step, event.at).cache, token, event.at) ==> IsLive(w.store.cache, token, event.at)
  {
  }

  /** Rows of a token can only go when no new row is put in. */
  lemma FewerRows(sessions: map<string, Session>, fewer: map<string, Session>, token: string)
    requires forall id | id in fewer :: id in sessions && fewer[id] == sessions[id]
    ensures RowsWithHash(fewer, token) <= RowsWithHash(sessions, token)
  {
  }

  lemma OtherStepsAddNoRow(w: World, settings: Settings, event: Event, token: string)
    requires !Mints(event.step)
    ensures RowsWithHash(StoreAfter(w.store, settings, event.step, event.at).sessions, token) <= RowsWithHash(w.store.sessions, token)
  {
    var sessions := w.store.sessions;
    var next := StoreAfter(w.store, settings, event.step, event.at).sessions;
    match event.step {
      case SignOutToken(hash) => assert next == sessions - RowsWithHash(sessions, hash);
      case RevokeSession(userId, target) => assert next == sessions || next == sessions - {target};
      case RevokeOtherSessions(userId, claimedId, hash) =>
        var current := CurrentSession(w.store, userId, claimedId, hash);
        assert next == sessions || next == sessions - (RowsOfUser(sessions, userId) - {current.value});
      case RevokeUserSessions(userId) => assert next == sessions - RowsOfUser(sessions, userId);
      case LockUser(userId, _) => assert next == sessions || next == sessions - RowsOfUser(sessions, userId);
      case DeleteUser(userId) => assert next == sessions || next == sessions - RowsOfUser(sessions, userId);
      case _ =>
    }
    FewerRows(sessions, next, token);
  }

  lemma DropAddsNoEntry(store: Store, ids: set<string>, token: string)
    ensures token in Drop(store, ids).cache ==> token in store.cache && Drop(store, ids).cache[token] == store.cache[token]
  {
  }

  lemma OtherStepsAddNoEntry(w: World, settings: Settings, event: Event, token: string)
    requires !Mints(event.step)
    ensures var cache := StoreAfter(w.store, settings, event.step, event.at).cache;
      token in cache ==> token in w.store.cache && cache[token] == w.store.cache[token]
  {
    var store := w.store;
    match event.step
    case RevokeSession(userId, target) => DropAddsNoEntry(store, {target}, token);
    case RevokeOtherSessions(userId, claimedId, hash) =>
      var current := CurrentSession(store, userId, claimedId, hash);
      if current.Some? {
        DropAddsNoEntry(store, RowsOfUser(store.sessions, userId) - {current.value}, token);
      }
    case RevokeUserSessions(userId) => DropAddsNoEntry(store, RowsOfUser(store.sessions, userId), token);
    case LockUser(userId, _) => DropAddsNoEntry(store, RowsOfUser(store.sessions, userId), token);
    case _ =>
  }

  lemma SpentStaysSpent(w: World, settings: Settings, event: Event, token: string)
    requires Spent(w, token) && Admissible(w, event)
    ensures Spent(Next(w, settings, event), token)
  {
    if Mints(event.step) {
      MintingAddsOwnHash(w, settings, event, token);
    } else {
      OtherStepsAddNoRow(w, settings, event, token);
      OtherStepsAddNoEntry(w, settings, event, token);
    }
  }

  lemma {:induction false} SpentThroughRun(settings: Settings, run: seq<Event>, i: nat, token: string)
    requires i <= |run| && AdmissibleRun(INITIAL, settings, run)
    requires Spent(After(INITIAL, settings, run[..i]), token)
    ensures Spent(After(INITIAL, settings, run), token)
  {
    if i == |run| {
      assert run[..i] == run;
    } else {
      var init := run[..|run| - 1];
      assert init[..i] == run[..i];
      SpentThroughRun(settings, init, i, token);
      SpentStaysSpent(After(INITIAL, settings, init), settings, run[|run| - 1], token);
    }
  }

  lemma {:induction false} PrefixIsAdmissible(settings: Settings, run: seq<Event>, i: nat)
    requires i <= |run| && AdmissibleRun(INITIAL, settings, run)
    ensures AdmissibleRun(INITIAL, settings, run[..i])
    ensures i < |run| ==> Admissible(After(INITIAL, settings, run[..i]), run[i])
  {
    if i == |run| {
      assert run[..i] == run;
    } else {
      var init := run[..|run| - 1];
      assert i < |init| ==> run[i] == init[i];
      assert init[..i] == run[..i];
      PrefixIsAdmissible(settings, init, i);
    }
  }

  /** Once a refresh succeeds, no later refresh with the same token does, by either branch. */
  lemma TokenIsConsumedOnce(settings: Settings, run: seq<Event>, i: nat, j: nat)
    requires AdmissibleRun(INITIAL, settings, run)
    requires i < j < |run| && run[i].step.RefreshToken? && run[j].step.RefreshToken?
    requires run[i].step.token == run[j].step.token
    requires ReplyAt(settings, run, i).Issued?
    ensures ReplyAt(settings, run, j) == Rejected
  {
    var token := run[i].step.token;
    PrefixIsAdmissible(settings, run, i);
    RunKeepsInv(settings, false, run[..i]);
    RefreshSpendsToken(After(INITIAL, settings, run[..i]), settings, run[i]);
    assert run[..i + 1][..i] == run[..i] && run[..i + 1][i] == run[i];
    PrefixIsAdmissible(settings, run, j);
    assert run[..j][..i + 1] == run[..i + 1];
    SpentThroughRun(settings, run[..j], i + 1, token);
  }

  /** One row of `userId` gives way to a new one, and nothing else in the table changes. */
  ghost predicate Replaces(before: map<string, Session>, after: map<string, Session>, oldId: string, newId: string, row: Session)
  {
    && oldId in before && newId !in before
    && before[oldId].userId == row.userId
    && after == (before - {oldId})[newId := row]
  }

  lemma ReplacementConservesCounts(before: map<string, Session>, after: map<string, Session>, oldId: string, newId: string, row: Session, user: string)
    requires Replaces(before, after, oldId, newId, row)
    ensures |RowsOfUser(after, user)| == |RowsOfUser(before, user)|
  {
    var rows := RowsOfUser(before, user);
    if user == row.userId {
      assert RowsOfUser(after, user) == (rows - {oldId}) + {newId};
    } else {
      assert RowsOfUser(after, user) == rows;
    }
  }

  lemma RefreshReplacesRow(w: World, settings: Settings, event: Event) returns (oldId: string)
    requires Inv(w, settings, false) && Admissible(w, event) && event.step.RefreshToken?
    requires Refresh(w.store, settings, event.step.token, event.step.id, event.step.hash, event.at).1.Issued?
    ensures oldId in w.store.sessions && w.store.sessions[oldId].hash == event.step.token
    ensures Next(w, settings, event).store.users == w.store.users
    ensures var userId := Refresh(w.store, settings, event.step.token, event.step.id, event.step.hash, event.at).1.userId;
      Replaces(w.store.sessions, Next(w, settings, event).store.sessions, oldId, event.step.id,
               Session(userId, None, event.step.hash, event.at + RefreshSeconds(settings) * MICROSECONDS_PER_SECOND))
  {
    var ids := RowsWithHash(w.store.sessions, event.step.token);
    if CachedUser(w.store, settings, event.step.token, event.at).Some? {
      oldId :| Backs(w.store, w.clock, event.step.token, oldId, false);
    } else {
      oldId := SomeOf(ids);
    }
    assert ids == {oldId};
  }

  ghost predicate SameCounts(before: map<string, Session>, after: map<string, Session>)
  {
    forall user :: |RowsOfUser(after, user)| == |RowsOfUser(before, user)|
  }

  lemma ReplacementConservesAll(before: map<string, Session>, after: map<string, Session>, oldId: string, newId: string, row: Session)
    requires Replaces(before, after, oldId, newId, row)
    ensures SameCounts(before, after)
  {
    forall user
      ensures |RowsOfUser(after, user)| == |RowsOfUser(before, user)|
    {
      ReplacementConservesCounts(before, after, oldId, newId, row, user);
    }
  }

  /** One row of the spent token gives way to one new row of the same user, and nobody's count changes. */
  ghost predicate SwapsRow(before: Store, after: Store, settings: Settings, event: Event, userId: string, oldId: string)
    requires event.step.RefreshToken?
  {
    && after.users == before.users
    && oldId in before.sessions && before.sessions[oldId].hash == event.step.token
    && Replaces(before.sessions, after.sessions, oldId, event.step.id,
                Session(userId, None, event.step.hash, event.at + RefreshSeconds(settings) * MICROSECONDS_PER_SECOND))
    && SameCounts(before.sessions, after.sessions)
  }

  lemma RefreshSwapsRow(w: World, settings: Settings, event: Event, userId: string) returns (oldId: string)
    requires Inv(w, settings, false) && Admissible(w, event) && event.step.RefreshToken?
    requires Refresh(w.store, settings, event.step.token, event.step.id, event.step.hash, event.at).1 == Issued(userId)
    ensures SwapsRow(w.store, Next(w, settings, event).store, settings, event, userId, oldId)
  {
    oldId := RefreshReplacesRow(w, settings, event);
    ReplacementConservesAll(w.store.sessions, Next(w, settings, event).store.sessions, oldId, event.step.id,
      Session(userId, None, event.step.hash, event.at + RefreshSeconds(settings) * MICROSECONDS_PER_SECOND));
  }

  lemma NextOfPrefix(settings: Settings, run: seq<Event>, i: nat)
    requires i < |run|
    ensures After(INITIAL, settings, run[..i + 1]) == Next(After(INITIAL, settings, run[..i]), settings, run[i])
  {
    assert run[..i + 1][..i] == run[..i] && run[..i + 1][i] == run[i];
  }

  /**
   In every run a successful refresh swaps the one row of its token for one new row of the same
   user, leaves the users alone, and so conserves the number of sessions of everybody.
   */
  lemma RefreshReplacesOneRow(settings: Settings, run: seq<Event>, i: nat, userId: string) returns (oldId: string)
    requires AdmissibleRun(INITIAL, settings, run)
    requires i < |run| && run[i].step.RefreshToken? && ReplyAt(settings, run, i) == Issued(userId)
    ensures SwapsRow(After(INITIAL, settings, run[..i]).store, After(INITIAL, settings, run[..i + 1]).store, settings, run[i], userId, oldId)
  {
    PrefixIsAdmissible(settings, run, i);
    RunKeepsInv(settings, false, run[..i]);
    NextOfPrefix(settings, run, i);
    oldId := RefreshSwapsRow(After(INITIAL, settings, run[..i]), settings, run[i], userId);
  }

  /* ---------- Revocation is final ---------- */

  /** The step takes away the session whose token has this hash. */
  ghost predicate Revokes(store: Store, step: Step, token: string)
  {
    match step
    case SignOutToken(hash) => hash == token
    case RevokeSession(userId, target) => target in RowsOfUser(store.sessions, userId) * RowsWithHash(store.sessions, token)
    case RevokeOtherSessions(userId, claimedId, hash) =>
      && CurrentSession(store, userId, claimedId, hash).Some?
      && RowsOfUser(store.sessions, userId) * RowsWithHash(store.sessions, token) != {}
      && CurrentSession(store, userId, claimedId, hash).value !in RowsWithHash(store.sessions, token)
    case RevokeUserSessions(userId) => RowsOfUser(store.sessions, userId) * RowsWithHash(store.sessions, token) != {}
    case LockUser(userId, _) => RowsOfUser(store.sessions, userId) * RowsWithHash(store.sessions, token) != {}
    case DeleteUser(userId) => RowsOfUser(store.sessions, userId) * RowsWithHash(store.sessions, token) != {}
    case _ => false
  }

  /** Dropping the row of a token leaves neither row nor cache entry of it. */
  lemma DropSpends(store: Store, ids: set<string>, token: string)
    requires UniqueHashes(store.sessions) && token != "" && ids * RowsWithHash(store.sessions, token) != {}
    ensures RowsWithHash(Drop(store, ids).sessions, token) == {} && token !in Drop(store, ids).cache
  {
    var id :| id in ids * RowsWithHash(store.sessions, token);
    assert RowsWithHash(store.sessions, token) == {id};
    assert token in HashesOf(store.sessions, ids);
  }

  lemma DeletionSpends(store: Store, userId: string, token: string)
    requires UniqueHashes(store.sessions) && userId in store.users
    requires RowsOfUser(store.sessions, userId) * RowsWithHash(store.sessions, token) != {}
    ensures RowsWithHash(DeleteSelf(store, userId).sessions, token) == {} && token !in DeleteSelf(store, userId).cache
  {
    var id :| id in RowsOfUser(store.sessions, userId) * RowsWithHash(store.sessions, token);
    assert RowsWithHash(store.sessions, token) == {id};
    assert token in HashesOf(store.sessions, RowsOfUser(store.sessions, userId));
  }

  lemma OthersHoldRow(store: Store, userId: string, current: string, token: string)
    requires RowsOfUser(store.sessions, userId) * RowsWithHash(store.sessions, token) != {}
    requires current !in RowsWithHash(store.sessions, token)
    ensures (RowsOfUser(store.sessions, userId) - {current}) * RowsWithHash(store.sessions, token) != {}
  {
    var id :| id in RowsOfUser(store.sessions, userId) * RowsWithHash(store.sessions, token);
    assert id in (RowsOfUser(store.sessions, userId) - {current}) * RowsWithHash(store.sessions, token);
  }

  lemma OwnerExists(w: World, userId: string, token: string)
    requires WellFormed(w) && RowsOfUser(w.store.sessions, userId) * RowsWithHash(w.store.sessions, token) != {}
    ensures userId in w.store.users
  {
    var id :| id in RowsOfUser(w.store.sessions, userId) * RowsWithHash(w.store.sessions, token);
  }

  lemma RevocationSpends(w: World, settings: Settings, event: Event, token: string)
    requires WellFormed(w) && token in w.hashes && Revokes(w.store, event.step, token)
    ensures Spent(Next(w, settings, event), token)
  {
    match event.step
    case SignOutToken(hash) =>
    case RevokeSession(userId, target) =>
      assert target in {target} * RowsWithHash(w.store.sessions, token);
      DropSpends(w.store, {target}, token);
    case RevokeOtherSessions(userId, claimedId, hash) =>
      var current := CurrentSession(w.store, userId, claimedId, hash).value;
      OthersHoldRow(w.store, userId, current, token);
      DropSpends(w.store, RowsOfUser(w.store.sessions, userId) - {current}, token);
    case RevokeUserSessions(userId) => DropSpends(w.store, RowsOfUser(w.store.sessions, userId), token);
    case LockUser(userId, _) =>
      OwnerExists(w, userId, token);
      DropSpends(w.store, RowsOfUser(w.store.sessions, userId), token);
    case DeleteUser(userId) =>
      OwnerExists(w, userId, token);
      DeletionSpends(w.store, userId, token);
  }

  /** A token whose session was signed out, revoked, or taken with its user's lock or deletion never refreshes again. */
  lemma RevokedNeverRefreshes(settings: Settings, run: seq<Event>, i: nat, j: nat, token: string)
    requires AdmissibleRun(INITIAL, settings, run)
    requires i < j < |run| && run[j].step.RefreshToken? && run[j].step.token == token
    requires token in After(INITIAL, settings, run[..i]).hashes
    requires Revokes(After(INITIAL, settings, run[..i]).store, run[i].step, token)
    ensures ReplyAt(settings, run, j) == Rejected
  {
    PrefixIsAdmissible(settings, run, i);
    RunKeepsInv(settings, false, run[..i]);
    RevocationSpends(After(INITIAL, settings, run[..i]), settings, run[i], token);
    NextOfPrefix(settings, run, i);
    PrefixIsAdmissible(settings, run, j);
    assert run[..j][..i + 1] == run[..i + 1];
    SpentThroughRun(settings, run[..j], i + 1, token);
    SpentIsRejected(settings, run, j);
  }

  lemma SpentIsRejected(settings: Settings, run: seq<Event>, j: nat)
    requires j < |run| && run[j].step.RefreshToken? && Spent(After(INITIAL, settings, run[..j]), run[j].step.token)
    requires After(INITIAL, settings, run[..j]).clock <= run[j].at
    ensures ReplyAt(settings, run, j) == Rejected
  {
  }

  /** A new session refreshes, by whichever branch, until it expires or its user is locked. */
  lemma FreshTokenRefreshes(w: World, settings: Settings, user: User, id: string, hash: string, newId: string, newHash: string, now: int)
    requires Inv(w, settings, false) && id !in w.ids && hash !in w.hashes && hash != ""
    requires user.id in w.store.users && w.store.users[user.id] == user
    requires w.clock <= now <= w.clock + RefreshSeconds(settings) * MICROSECONDS_PER_SECOND
    ensures var issued := Issue(w.store, settings, user, id, hash, w.clock);
      Refresh(issued, settings, hash, newId, newHash, now).1 == if IsLocked(user, now) then Locked else Issued(user.id)
  {
    var issued := Issue(w.store, settings, user, id, hash, w.clock);
    assert RowsWithHash(issued.sessions, hash) == {id};
  }

  /** With the fast path switched off and on again a token can be spent twice. */
  lemma SwitchingSettingsReplaysToken()
    ensures var on, off := Settings(true, 60, 3600), Settings(false, 60, 3600);
      var user := User("u", None, "");
      var issued := Issue(Store(map["u" := user], map[], map[]), on, user, "s", "h", 0);
      var (first, reply) := Refresh(issued, off, "h", "s1", "h1", 1);
      reply == Issued("u") && Refresh(first, on, "h", "s2", "h2", 2).1 == Issued("u")
  {
    var on, off := Settings(true, 60, 3600), Settings(false, 60, 3600);
    var user := User("u", None, "");
    var issued := Issue(Store(map["u" := user], map[], map[]), on, user, "s", "h", 0);
    assert RowsWithHash(issued.sessions, "h") == {"s"};
    assert IsLive(issued.cache, "h", 2);
  }
}
