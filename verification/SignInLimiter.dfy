/**
 The sign-in rate limiter: a counter per identifier in the key-value store, renewed by every
 attempt and removed by a correct password.  Its keys are the family `auth:ratelimit:sign_in:`.
 Attempts are requests with an identifier and a password; others are refused before the limiter.
 */
module SignInLimiter {
  import opened Wrappers
  import Decimal
  import KvStore

  const KEY_PREFIX := "auth:ratelimit:sign_in:"

  datatype Settings = Settings(enabled: bool, maxAttempts: int, windowSeconds: int)

  /** The account found for an identifier, and whether the password given matches its hash. */
  datatype Account = Account(lockedUntil: Option<int>, matches: bool)

  datatype Outcome = RateLimited | InvalidCredentials | AccountLocked | Authenticated

  function Key(identifier: string): (key: string)
  {
    KEY_PREFIX + identifier
  }

  function WindowExpiry(settings: Settings): (nanoseconds: int)
  {
    settings.windowSeconds * KvStore.NANOSECONDS_PER_SECOND
  }

  /** The time, in microseconds, after which the counter of a silent identifier is gone. */
  function Window(settings: Settings): (microseconds: nat)
  {
    KvStore.Ttl(WindowExpiry(settings))
  }

  function CheckPassword(account: Option<Account>, now: int): (outcome: Outcome)
  {
    if account.None? then InvalidCredentials
    else if account.value.lockedUntil.Some? && now < account.value.lockedUntil.value then AccountLocked
    else if account.value.matches then Authenticated
    else InvalidCredentials
  }

  function Count(settings: Settings, table: KvStore.Table<string>, identifier: string, now: int): (r: (KvStore.Table<string>, KvStore.Reply))
  {
    KvStore.Apply(KvStore.IncrementBy(Key(identifier), 1, WindowExpiry(settings)), table, now)
  }

  /** One sign-in attempt; a store error lets the attempt through. */
  function SignIn(settings: Settings, table: KvStore.Table<string>, identifier: string, account: Option<Account>, now: int)
    : (r: (KvStore.Table<string>, Outcome))
  {
    var counts := settings.enabled && identifier != "";
    var (counted, reply) := if counts then Count(settings, table, identifier, now) else (table, KvStore.Failed);
    if reply.Count? && reply.count > settings.maxAttempts then (counted, RateLimited)
    else
      var outcome := CheckPassword(account, now);
      (if outcome.Authenticated? && identifier != "" then counted - {Key(identifier)} else counted, outcome)
  }

  method HandleSignIn(store: KvStore.DatabaseKVStore, settings: Settings, identifier: string, account: Option<Account>, now: int) returns (outcome: Outcome)
    modifies store
    ensures (store.table, outcome) == SignIn(settings, old(store.table), identifier, account, now)
  {
    if settings.enabled && identifier != "" {
      var reply := store.IncrementBy(Key(identifier), 1, WindowExpiry(settings), now);
      if reply.Count? && reply.count > settings.maxAttempts {
        return RateLimited;
      }
    }
    if account.None? {
      return InvalidCredentials;
    }
    if account.value.lockedUntil.Some? && now < account.value.lockedUntil.value {
      return AccountLocked;
    }
    if !account.value.matches {
      return InvalidCredentials;
    }
    if identifier != "" {
      ghost var counted := store.table;
      store.Delete(Key(identifier));
      assert store.table == KvStore.Apply(KvStore.Delete(Key(identifier)), counted, now).0;
    }
    return Authenticated;
  }

  /* ---------- Runs ---------- */

  datatype Event =
    | Attempt(at: int, identifier: string, account: Option<Account>)
    | SweepTick(at: int)

  predicate InTime(run: seq<Event>)
  {
    forall i, j | 0 <= i < j < |run| :: run[i].at <= run[j].at
  }

  function Next(settings: Settings, table: KvStore.Table<string>, event: Event): (t: KvStore.Table<string>)
  {
    match event
    case Attempt(at, identifier, account) => SignIn(settings, table, identifier, account, at).0
    case SweepTick(at) => KvStore.Apply(KvStore.Sweep, table, at).0
  }

  function After(settings: Settings, run: seq<Event>): (t: KvStore.Table<string>)
  {
    if run == [] then map[] else Next(settings, After(settings, run[..|run| - 1]), run[|run| - 1])
  }

  predicate IsAttempt(event: Event, identifier: string)
  {
    event.Attempt? && event.identifier == identifier
  }

  /** Attempt `i` of the run gets past the limiter. */
  predicate Passes(settings: Settings, run: seq<Event>, i: int)
    requires 0 <= i < |run| && run[i].Attempt?
  {
    SignIn(settings, After(settings, run[..i]), run[i].identifier, run[i].account, run[i].at).1 != RateLimited
  }

  /* ---------- What the counter should be ---------- */

  /**
   The attempts seen at `now` since the last reset, from the history alone: a reset is a full window
   without an attempt, or an admitted attempt with the right password.
   */
  function Streak(settings: Settings, run: seq<Event>, identifier: string, now: int): (n: nat)
  {
    if run == [] then 0
    else
      var rest, last := run[..|run| - 1], run[|run| - 1];
      if !IsAttempt(last, identifier) then Streak(settings, rest, identifier, now)
      else if last.at + Window(settings) <= now then 0
      else
        var before := Streak(settings, rest, identifier, last.at);
        if before < settings.maxAttempts && CheckPassword(last.account, last.at).Authenticated? then 0 else before + 1
  }

  lemma {:induction false} StreakIsShort(settings: Settings, run: seq<Event>, identifier: string, now: int)
    ensures Streak(settings, run, identifier, now) <= |run|
  {
    if run != [] {
      var rest, last := run[..|run| - 1], run[|run| - 1];
      StreakIsShort(settings, rest, identifier, now);
      StreakIsShort(settings, rest, identifier, last.at);
    }
  }

  lemma KeysDiffer(a: string, b: string)
    requires a != b
    ensures Key(a) != Key(b)
  {
    assert Key(a)[|KEY_PREFIX|..] == a && Key(b)[|KEY_PREFIX|..] == b;
  }

  function Shown(n: nat): (text: Option<string>)
  {
    if n == 0 then None else Some(Decimal.Format(n))
  }

  /** One attempt moves a counter that shows the streak to one that shows the next streak. */
  lemma AttemptCounts(settings: Settings, table: KvStore.Table<string>, identifier: string, account: Option<Account>, at: int, before: nat, now: int)
    requires settings.enabled && identifier != "" && before < Decimal.BIGINT_MAX && at <= now
    requires KvStore.Lookup(table, Key(identifier), at) == Shown(before)
    ensures var (next, outcome) := SignIn(settings, table, identifier, account, at);
      && (outcome != RateLimited <==> before < settings.maxAttempts)
      && KvStore.Lookup(next, Key(identifier), now) ==
           (if at + Window(settings) <= now then None
            else if before < settings.maxAttempts && CheckPassword(account, at).Authenticated? then None
            else Shown(before + 1))
  {
    Decimal.ParseFormat(before);
    var key := Key(identifier);
    assert Count(settings, table, identifier, at) ==
      (KvStore.Put(table, key, Decimal.Format(before + 1), WindowExpiry(settings), at), KvStore.Reply.Count(before + 1));
  }

  lemma OtherAttempt(settings: Settings, table: KvStore.Table<string>, other: string, account: Option<Account>, at: int, identifier: string, now: int)
    requires other != identifier
    ensures KvStore.Lookup(SignIn(settings, table, other, account, at).0, Key(identifier), now) == KvStore.Lookup(table, Key(identifier), now)
  {
    KeysDiffer(other, identifier);
  }

  /** The stored counter shows the streak, for every identifier and at every later instant. */
  lemma {:induction false} CounterShowsStreak(settings: Settings, run: seq<Event>, identifier: string, now: int)
    requires settings.enabled && identifier != "" && |run| < Decimal.BIGINT_MAX
    requires InTime(run) && (run != [] ==> run[|run| - 1].at <= now)
    ensures KvStore.Lookup(After(settings, run), Key(identifier), now) == Shown(Streak(settings, run, identifier, now))
  {
    if run != [] {
      var rest, last := run[..|run| - 1], run[|run| - 1];
      CounterShowsStreak(settings, rest, identifier, now);
      CounterShowsStreak(settings, rest, identifier, last.at);
      if last.Attempt? {
        if last.identifier == identifier {
          StreakIsShort(settings, rest, identifier, last.at);
          AttemptCounts(settings, After(settings, rest), identifier, last.account, last.at, Streak(settings, rest, identifier, last.at), now);
        } else {
          OtherAttempt(settings, After(settings, rest), last.identifier, last.account, last.at, identifier, now);
        }
      }
    }
  }

  /** Past the limiter, an attempt signs in exactly when the account exists, is not locked, and the password is right. */
  lemma SignsInExactly(settings: Settings, table: KvStore.Table<string>, identifier: string, account: Option<Account>, now: int)
    ensures var (next, outcome) := SignIn(settings, table, identifier, account, now);
      && (outcome == Authenticated <==>
            && outcome != RateLimited && account.Some? && account.value.matches
            && (account.value.lockedUntil == None || account.value.lockedUntil.value <= now))
      && (outcome == AccountLocked <==>
            outcome != RateLimited && account.Some? && account.value.lockedUntil.Some? && now < account.value.lockedUntil.value)
      && (!settings.enabled || identifier == "" ==> outcome != RateLimited)
      && (outcome == Authenticated && identifier != "" ==> Key(identifier) !in next)
      && (forall key | key != Key(identifier) :: (key in next <==> key in table) && (key in table ==> next[key] == table[key]))
  {
  }

  /** An attempt gets past the limiter exactly when fewer than the allowed attempts are on its streak. */
  lemma PassesExactly(settings: Settings, run: seq<Event>, i: int)
    requires settings.enabled && |run| < Decimal.BIGINT_MAX && InTime(run)
    requires 0 <= i < |run| && run[i].Attempt? && run[i].identifier != ""
    ensures Passes(settings, run, i) <==> Streak(settings, run[..i], run[i].identifier, run[i].at) < settings.maxAttempts
  {
    var identifier, at := run[i].identifier, run[i].at;
    CounterShowsStreak(settings, run[..i], identifier, at);
    StreakIsShort(settings, run[..i], identifier, at);
    AttemptCounts(settings, After(settings, run[..i]), identifier, run[i].account, at, Streak(settings, run[..i], identifier, at), at);
  }

  /* ---------- Between two resets ---------- */

  /** `k` is the first attempt for the identifier after attempt `j`. */
  predicate Follows(run: seq<Event>, identifier: string, j: int, k: int)
  {
    && 0 <= j < k < |run| && IsAttempt(run[j], identifier) && IsAttempt(run[k], identifier)
    && forall m | j < m < k :: !IsAttempt(run[m], identifier)
  }

  predicate FullWindow(settings: Settings, run: seq<Event>, j: int, k: int)
    requires 0 <= j < k < |run|
  {
    run[j].at + Window(settings) <= run[k].at
  }

  predicate CorrectPassword(settings: Settings, run: seq<Event>, j: int)
    requires 0 <= j < |run| && run[j].Attempt?
  {
    Passes(settings, run, j) && CheckPassword(run[j].account, run[j].at).Authenticated?
  }

  ghost predicate NoReset(settings: Settings, run: seq<Event>, identifier: string, start: int, end: int)
  {
    forall j, k | start <= j && k < end && Follows(run, identifier, j, k) ::
      !FullWindow(settings, run, j, k) && !CorrectPassword(settings, run, j)
  }

  ghost predicate NoFullWindow(settings: Settings, run: seq<Event>, identifier: string, start: int, end: int)
  {
    forall j, k | start <= j && k < end && Follows(run, identifier, j, k) :: !FullWindow(settings, run, j, k)
  }

  function PassCount(settings: Settings, run: seq<Event>, identifier: string, start: nat, end: nat): (n: nat)
    requires start <= end <= |run|
    decreases end
  {
    if start == end then 0
    else
      var passed := IsAttempt(run[end - 1], identifier) && Passes(settings, run, end - 1);
      PassCount(settings, run, identifier, start, end - 1) + if passed then 1 else 0
  }

  /** The streak seen by an attempt, from the attempt just before it. */
  lemma {:induction false} StreakAcross(settings: Settings, run: seq<Event>, identifier: string, j: nat, k: nat, now: int)
    requires j < k <= |run| && IsAttempt(run[j], identifier)
    requires forall m | j < m < k :: !IsAttempt(run[m], identifier)
    ensures Streak(settings, run[..k], identifier, now) == Streak(settings, run[..j + 1], identifier, now)
    decreases k
  {
    if k > j + 1 {
      assert run[..k][..k - 1] == run[..k - 1];
      StreakAcross(settings, run, identifier, j, k - 1, now);
    }
  }

  lemma NextStreak(settings: Settings, run: seq<Event>, identifier: string, j: nat, k: nat)
    requires settings.enabled && |run| < Decimal.BIGINT_MAX && InTime(run) && identifier != ""
    requires Follows(run, identifier, j, k) && !FullWindow(settings, run, j, k) && !CorrectPassword(settings, run, j)
    ensures Streak(settings, run[..k], identifier, run[k].at) == Streak(settings, run[..j], identifier, run[j].at) + 1
  {
    StreakAcross(settings, run, identifier, j, k, run[k].at);
    assert run[..j + 1][..j] == run[..j];
    PassesExactly(settings, run, j);
  }

  /** The last attempt for the identifier in `run[start..end]`, if there is one. */
  lemma {:induction false} LastAttempt(run: seq<Event>, identifier: string, start: nat, end: nat) returns (j: int)
    requires start <= end <= |run|
    ensures j == -1 ==> forall m | start <= m < end :: !IsAttempt(run[m], identifier)
    ensures j != -1 ==> start <= j < end && IsAttempt(run[j], identifier) && forall m | j < m < end :: !IsAttempt(run[m], identifier)
    decreases end
  {
    if start == end {
      j := -1;
    } else if IsAttempt(run[end - 1], identifier) {
      j := end - 1;
    } else {
      j := LastAttempt(run, identifier, start, end - 1);
    }
  }

  lemma {:induction false} NothingPasses(settings: Settings, run: seq<Event>, identifier: string, start: nat, end: nat)
    requires start <= end <= |run|
    requires forall m | start <= m < end :: !IsAttempt(run[m], identifier)
    ensures PassCount(settings, run, identifier, start, end) == 0
    decreases end
  {
    if start < end {
      NothingPasses(settings, run, identifier, start, end - 1);
    }
  }

  lemma {:induction false} PassCountSkips(settings: Settings, run: seq<Event>, identifier: string, start: nat, middle: nat, end: nat)
    requires start <= middle <= end <= |run|
    requires forall m | middle <= m < end :: !IsAttempt(run[m], identifier)
    ensures PassCount(settings, run, identifier, start, end) == PassCount(settings, run, identifier, start, middle)
    decreases end
  {
    if middle < end {
      PassCountSkips(settings, run, identifier, start, middle, end - 1);
    }
  }

  /** Before each attempt, no more have passed since `start` than are on the attempt's streak. */
  lemma {:induction false} PassesAreOnStreak(settings: Settings, run: seq<Event>, identifier: string, start: nat, k: nat)
    requires settings.enabled && |run| < Decimal.BIGINT_MAX && InTime(run) && identifier != ""
    requires NoReset(settings, run, identifier, start, k + 1)
    requires start <= k < |run| && IsAttempt(run[k], identifier)
    ensures PassCount(settings, run, identifier, start, k) <= Streak(settings, run[..k], identifier, run[k].at)
    decreases k
  {
    var j := LastAttempt(run, identifier, start, k);
    if j == -1 {
      NothingPasses(settings, run, identifier, start, k);
    } else {
      PassesAreOnStreak(settings, run, identifier, start, j);
      assert Follows(run, identifier, j, k);
      NextStreak(settings, run, identifier, j, k);
      PassCountSkips(settings, run, identifier, start, j + 1, k);
    }
  }

  /** Between two resets at most the allowed number of attempts get past the limiter. */
  lemma {:induction false} AtMostMaxPass(settings: Settings, run: seq<Event>, identifier: string, start: nat, end: nat)
    requires settings.enabled && |run| < Decimal.BIGINT_MAX && InTime(run) && identifier != ""
    requires start <= end <= |run| && NoReset(settings, run, identifier, start, end)
    ensures PassCount(settings, run, identifier, start, end) <= if settings.maxAttempts > 0 then settings.maxAttempts else 0
    decreases end
  {
    if start < end {
      AtMostMaxPass(settings, run, identifier, start, end - 1);
      if IsAttempt(run[end - 1], identifier) {
        PassesAreOnStreak(settings, run, identifier, start, end - 1);
        PassesExactly(settings, run, end - 1);
      }
    }
  }

  /** Once blocked, an identifier stays blocked for as long as no full window goes by without an attempt. */
  lemma {:induction false} BlockedStaysBlocked(settings: Settings, run: seq<Event>, identifier: string, start: nat, k: nat)
    requires settings.enabled && |run| < Decimal.BIGINT_MAX && InTime(run) && identifier != ""
    requires start <= k < |run| && IsAttempt(run[start], identifier) && IsAttempt(run[k], identifier)
    requires !Passes(settings, run, start) && NoFullWindow(settings, run, identifier, start, k + 1)
    ensures !Passes(settings, run, k)
    decreases k
  {
    if start < k {
      var j := LastAttempt(run, identifier, start, k);
      BlockedStaysBlocked(settings, run, identifier, start, j);
      assert Follows(run, identifier, j, k);
      NextStreak(settings, run, identifier, j, k);
      PassesExactly(settings, run, j);
      PassesExactly(settings, run, k);
    }
  }

  /** After a full window without an attempt the next attempt starts a new streak. */
  lemma FullWindowUnblocks(settings: Settings, run: seq<Event>, identifier: string, j: nat, k: nat)
    requires settings.enabled && |run| < Decimal.BIGINT_MAX && InTime(run) && identifier != ""
    requires Follows(run, identifier, j, k) && FullWindow(settings, run, j, k)
    ensures Passes(settings, run, k) <==> 0 < settings.maxAttempts
  {
    StreakAcross(settings, run, identifier, j, k, run[k].at);
    PassesExactly(settings, run, k);
  }
}
