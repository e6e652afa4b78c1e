/**
 The second factor at sign-in: when it is asked for, the ticket that stands for a passed first
 factor, and the challenge that uses the ticket up.  Each handler is one atomic step on one clock
 in microseconds; tickets are the key family `auth:mfa_ticket:`.
 */
module MfaTickets {
  import opened Wrappers
  import opened KvStore

  const TICKET_TTL := 5 * 60 * NANOSECONDS_PER_SECOND
  const FIVE_MINUTES := 5 * 60 * 1_000_000

  datatype User = User(id: string, mfaEnabled: bool, secret: string, lockedUntil: Option<int>)

  datatype Config = Config(enabled: bool, policy: string, riskTriggers: seq<string>)

  datatype Risk = Risk(level: string, reasons: seq<string>)

  /** A session was `owed` the second factor if the policy asked for it of the user as stored. */
  datatype Entry =
    | TicketIssued(ticket: string, userId: string, at: int)
    | TicketTaken(ticket: string, code: string, at: int)
    | SessionIssued(user: User, owed: bool, via: Option<string>, at: int)

  datatype Flow = Flow(users: map<string, User>, tickets: Table<string>, log: seq<Entry>)

  datatype Reply = MfaRequired(ticket: string) | Session(userId: string) | Refused

  predicate IsLocked(user: User, now: int)
  {
    user.lockedUntil.Some? && now < user.lockedUntil.value
  }

  /* ---------- When the second factor is asked for ---------- */

  predicate RiskTriggers(config: Config, risk: Option<Risk>)
  {
    && risk.Some?
    && (risk.value.level == "medium" || risk.value.level == "high"
        || exists trigger | trigger in config.riskTriggers :: trigger in risk.value.reasons)
  }

  predicate NeedsMfa(config: Config, user: User, risk: Option<Risk>)
  {
    && user.mfaEnabled && config.enabled
    && (config.policy == "always" || config.policy == "" || (config.policy == "adaptive" && RiskTriggers(config, risk)))
  }

  /** The policy asks for the second factor of the user as stored. */
  predicate Owes(users: map<string, User>, config: Config, userId: string, risk: Option<Risk>)
  {
    userId in users && NeedsMfa(config, users[userId], risk)
  }

  method ShouldTriggerMfa(config: Config, user: User, risk: Option<Risk>) returns (trigger: bool)
    ensures trigger == NeedsMfa(config, user, risk)
  {
    trigger := false;
    if !user.mfaEnabled || !config.enabled {
      return;
    }
    if config.policy == "always" || config.policy == "" {
      trigger := true;
    } else if config.policy == "adaptive" && risk.Some? {
      if risk.value.level == "medium" || risk.value.level == "high" {
        trigger := true;
      } else {
        var triggers, reasons := config.riskTriggers, risk.value.reasons;
        for i := 0 to |triggers|
          invariant !trigger
          invariant forall k | 0 <= k < i :: triggers[k] !in reasons
        {
          for j := 0 to |reasons|
            invariant !trigger && triggers[i] !in reasons[..j]
          {
            if triggers[i] == reasons[j] {
              trigger := true;
              assert triggers[i] in config.riskTriggers && triggers[i] in reasons;
              break;
            }
          }
          if trigger {
            break;
          }
          assert reasons[..|reasons|] == reasons;
        }
      }
    }
  }

  /* ---------- Handlers as steps ---------- */

  function CompleteSignIn(flow: Flow, config: Config, user: User, risk: Option<Risk>, ticket: string, now: int): (r: (Flow, Reply))
  {
    if NeedsMfa(config, user, risk) then
      (flow.(tickets := Put(flow.tickets, ticket, user.id, TICKET_TTL, now), log := flow.log + [TicketIssued(ticket, user.id, now)]),
       MfaRequired(ticket))
    else
      (flow.(log := flow.log + [SessionIssued(user, Owes(flow.users, config, user.id, risk), None, now)]), Session(user.id))
  }

  /** The user may go on with this code: present, not locked, enrolled, and the code is right. */
  predicate Passes(flow: Flow, validates: (string, string, int) -> bool, userId: string, code: string, now: int)
  {
    && userId in flow.users
    && var user := flow.users[userId];
       !IsLocked(user, now) && user.secret != "" && validates(user.secret, code, now)
  }

  /**
   A ticket that is found is used up before the code is looked at.  `ticket` and `code` are the
   request's fields after trimming; `validates` decrypts the secret and checks the code at an instant.
   */
  function Challenge(flow: Flow, config: Config, validates: (string, string, int) -> bool, ticket: string, code: string, now: int): (r: (Flow, Reply))
  {
    if !config.enabled || ticket == "" || code == "" then (flow, Refused)
    else if !IsLive(flow.tickets, ticket, now) || flow.tickets[ticket].value == "" then (flow, Refused)
    else
      var userId := flow.tickets[ticket].value;
      var taken := flow.(tickets := flow.tickets - {ticket}, log := flow.log + [TicketTaken(ticket, code, now)]);
      if !Passes(flow, validates, userId, code, now) then (taken, Refused)
      else (taken.(log := taken.log + [SessionIssued(flow.users[userId], true, Some(ticket), now)]), Session(flow.users[userId].id))
  }

  class Handlers {
    var users: map<string, User>
    var tickets: Table<string>
    var log: seq<Entry>

    function State(): (f: Flow)
      reads this
    {
      Flow(users, tickets, log)
    }

    constructor ()
      ensures State() == Flow(map[], map[], [])
    {
      users, tickets, log := map[], map[], [];
    }

    method CompleteSignInFlow(config: Config, user: User, risk: Option<Risk>, ticket: string, now: int) returns (reply: Reply)
      modifies this
      ensures (State(), reply) == CompleteSignIn(old(State()), config, user, risk, ticket, now)
    {
      var trigger := ShouldTriggerMfa(config, user, risk);
      if trigger {
        tickets := Put(tickets, ticket, user.id, TICKET_TTL, now);
        log := log + [TicketIssued(ticket, user.id, now)];
        return MfaRequired(ticket);
      }
      log := log + [SessionIssued(user, Owes(users, config, user.id, risk), None, now)];
      return Session(user.id);
    }

    method HandleChallenge(config: Config, validates: (string, string, int) -> bool, ticket: string, code: string, now: int) returns (reply: Reply)
      modifies this
      ensures (State(), reply) == Challenge(old(State()), config, validates, ticket, code, now)
    {
      if !config.enabled || ticket == "" || code == "" {
        return Refused;
      }
      if ticket !in tickets || tickets[ticket].expiresAt <= now || tickets[ticket].value == "" {
        return Refused;
      }
      var userId := tickets[ticket].value;
      tickets := tickets - {ticket};
      log := log + [TicketTaken(ticket, code, now)];
      if userId !in users {
        return Refused;
      }
      var user := users[userId];
      if IsLocked(user, now) {
        return Refused;
      }
      if user.secret == "" || !validates(user.secret, code, now) {
        return Refused;
      }
      log := log + [SessionIssued(user, true, Some(ticket), now)];
      return Session(user.id);
    }
  }

  /* ---------- Runs ---------- */

  datatype Step =
    | SetUsers(users: map<string, User>)
    | SignInStep(config: Config, user: User, risk: Option<Risk>, ticket: string)
    | ChallengeStep(config: Config, ticket: string, code: string)
    | SweepStep

  datatype Event = Event(at: int, step: Step)

  datatype World = World(flow: Flow, minted: set<string>, clock: int)

  const INITIAL := World(Flow(map[], map[], []), {}, 0)

  function Next(w: World, validates: (string, string, int) -> bool, event: Event): (w': World)
  {
    match event.step
    case SetUsers(users) => w.(flow := w.flow.(users := users), clock := event.at)
    case SignInStep(config, user, risk, ticket) =>
      World(CompleteSignIn(w.flow, config, user, risk, ticket, event.at).0, w.minted + {ticket}, event.at)
    case ChallengeStep(config, ticket, code) =>
      w.(flow := Challenge(w.flow, config, validates, ticket, code, event.at).0, clock := event.at)
    case SweepStep =>
      w.(flow := w.flow.(tickets := Visible(w.flow.tickets, event.at)), clock := event.at)
  }

  /** Time does not go back, tickets are new, and the user table is keyed by user id. */
  predicate Admissible(w: World, event: Event)
  {
    && w.clock <= event.at
    && (event.step.SignInStep? ==> event.step.ticket !in w.minted)
    && (event.step.SetUsers? ==> forall u | u in event.step.users :: event.step.users[u].id == u)
  }

  function After(validates: (string, string, int) -> bool, run: seq<Event>): (w: World)
  {
    if run == [] then INITIAL else Next(After(validates, run[..|run| - 1]), validates, run[|run| - 1])
  }

  predicate AdmissibleRun(validates: (string, string, int) -> bool, run: seq<Event>)
  {
    run == [] || (AdmissibleRun(validates, run[..|run| - 1]) && Admissible(After(validates, run[..|run| - 1]), run[|run| - 1]))
  }

  /** Entry `i` issued the ticket of the session in entry `j`, less than five minutes before, to the same user. */
  predicate LeadsTo(log: seq<Entry>, i: int, j: int)
    requires 0 <= j < |log| && log[j].SessionIssued? && log[j].via.Some?
  {
    && 0 <= i < j && log[i].TicketIssued?
    && Some(log[i].ticket) == log[j].via
    && log[i].userId == log[j].user.id
    && log[i].at <= log[j].at < log[i].at + FIVE_MINUTES
    && (log[j].user.lockedUntil == None || log[j].user.lockedUntil.value <= log[j].at)
  }

  ghost predicate SessionsHaveTickets(log: seq<Entry>)
  {
    forall j | 0 <= j < |log| && log[j].SessionIssued? && log[j].via.Some? :: exists i :: LeadsTo(log, i, j)
  }

  ghost predicate TakenOnce(log: seq<Entry>)
  {
    forall j, k | 0 <= j < k < |log| && log[j].TicketTaken? && log[k].TicketTaken? :: log[j].ticket != log[k].ticket
  }

  /** The entry before `j` took its ticket with a code that was right for its user's secret at that instant. */
  predicate FollowsTaking(log: seq<Entry>, validates: (string, string, int) -> bool, j: int)
    requires 0 <= j < |log| && log[j].SessionIssued? && log[j].via.Some?
  {
    && j > 0 && log[j - 1].TicketTaken?
    && log[j - 1].ticket == log[j].via.value && log[j - 1].at == log[j].at
    && log[j].user.secret != "" && validates(log[j].user.secret, log[j - 1].code, log[j].at)
  }

  /** A session by ticket directly follows the one taking of that ticket, with the right code. */
  ghost predicate SessionsFollowTaking(log: seq<Entry>, validates: (string, string, int) -> bool)
  {
    forall j | 0 <= j < |log| && log[j].SessionIssued? && log[j].via.Some? :: FollowsTaking(log, validates, j)
  }

  predicate NotTaken(log: seq<Entry>, ticket: string)
  {
    forall j | 0 <= j < |log| && log[j].TicketTaken? :: log[j].ticket != ticket
  }

  predicate IssuedAs(log: seq<Entry>, i: int, ticket: string, row: Row<string>)
  {
    0 <= i < |log| && log[i].TicketIssued? && log[i].ticket == ticket && log[i].userId == row.value
    && row.expiresAt == log[i].at + FIVE_MINUTES
  }

  ghost predicate TicketsTied(w: World)
  {
    && (forall t | t in w.flow.tickets ::
          t in w.minted && NotTaken(w.flow.log, t) && exists i :: IssuedAs(w.flow.log, i, t, w.flow.tickets[t]))
    && (forall i | 0 <= i < |w.flow.log| ::
          w.flow.log[i].at <= w.clock && (w.flow.log[i].TicketTaken? ==> w.flow.log[i].ticket in w.minted))
    && (forall u | u in w.flow.users :: w.flow.users[u].id == u)
  }

  ghost predicate Inv(w: World, validates: (string, string, int) -> bool)
  {
    TicketsTied(w) && SessionsHaveTickets(w.flow.log) && TakenOnce(w.flow.log) && SessionsFollowTaking(w.flow.log, validates)
  }

  lemma AppendKeepsSessions(log: seq<Entry>, entry: Entry)
    requires SessionsHaveTickets(log)
    requires entry.SessionIssued? && entry.via.Some? ==> exists i :: LeadsTo(log + [entry], i, |log|)
    ensures SessionsHaveTickets(log + [entry])
  {
    var longer := log + [entry];
    forall j | 0 <= j < |longer| && longer[j].SessionIssued? && longer[j].via.Some?
      ensures exists i :: LeadsTo(longer, i, j)
    {
      if j < |log| {
        var i :| LeadsTo(log, i, j);
        assert LeadsTo(longer, i, j);
      }
    }
  }

  lemma AppendKeepsTied(w: World, entry: Entry)
    requires TicketsTied(w) && entry.at <= w.clock
    requires entry.TicketTaken? ==> entry.ticket in w.minted && entry.ticket !in w.flow.tickets
    ensures TicketsTied(w.(flow := w.flow.(log := w.flow.log + [entry])))
  {
    var longer := w.flow.log + [entry];
    forall t | t in w.flow.tickets
      ensures NotTaken(longer, t) && exists i :: IssuedAs(longer, i, t, w.flow.tickets[t])
    {
      var i :| IssuedAs(w.flow.log, i, t, w.flow.tickets[t]);
      assert IssuedAs(longer, i, t, w.flow.tickets[t]);
    }
  }

  lemma ShrinkKeepsTied(w: World, tickets: Table<string>)
    requires TicketsTied(w)
    requires forall t | t in tickets :: t in w.flow.tickets && tickets[t] == w.flow.tickets[t]
    ensures TicketsTied(w.(flow := w.flow.(tickets := tickets)))
  {
    forall t | t in tickets
      ensures exists i :: IssuedAs(w.flow.log, i, t, tickets[t])
    {
      var i :| IssuedAs(w.flow.log, i, t, w.flow.tickets[t]);
      assert IssuedAs(w.flow.log, i, t, tickets[t]);
    }
  }

  lemma TicketKeepsTied(w: World, ticket: string, userId: string)
    requires TicketsTied(w) && ticket !in w.minted
    ensures TicketsTied(World(
      Flow(w.flow.users, w.flow.tickets[ticket := Row(userId, w.clock + FIVE_MINUTES)], w.flow.log + [TicketIssued(ticket, userId, w.clock)]),
      w.minted + {ticket}, w.clock))
  {
    var entry := TicketIssued(ticket, userId, w.clock);
    var tickets, longer := w.flow.tickets[ticket := Row(userId, w.clock + FIVE_MINUTES)], w.flow.log + [entry];
    AppendKeepsTied(w, entry);
    assert IssuedAs(longer, |w.flow.log|, ticket, tickets[ticket]);
    forall t | t in tickets
      ensures NotTaken(longer, t) && exists i :: IssuedAs(longer, i, t, tickets[t])
    {
      if t != ticket {
        var i :| IssuedAs(longer, i, t, w.flow.tickets[t]);
        assert IssuedAs(longer, i, t, tickets[t]);
      }
    }
  }

  lemma SignInKeepsInv(w: World, validates: (string, string, int) -> bool, config: Config, user: User, risk: Option<Risk>, ticket: string)
    requires Inv(w, validates) && ticket !in w.minted
    ensures Inv(World(CompleteSignIn(w.flow, config, user, risk, ticket, w.clock).0, w.minted + {ticket}, w.clock), validates)
  {
    if NeedsMfa(config, user, risk) {
      AppendKeepsSessions(w.flow.log, TicketIssued(ticket, user.id, w.clock));
      TicketKeepsTied(w, ticket, user.id);
    } else {
      var entry := SessionIssued(user, Owes(w.flow.users, config, user.id, risk), None, w.clock);
      AppendKeepsSessions(w.flow.log, entry);
      AppendKeepsTied(w, entry);
    }
  }

  lemma TakingKeepsInv(w: World, validates: (string, string, int) -> bool, ticket: string, code: string)
    requires Inv(w, validates) && ticket in w.flow.tickets
    ensures Inv(w.(flow := w.flow.(tickets := w.flow.tickets - {ticket}, log := w.flow.log + [TicketTaken(ticket, code, w.clock)])), validates)
  {
    ShrinkKeepsTied(w, w.flow.tickets - {ticket});
    AppendKeepsTied(w.(flow := w.flow.(tickets := w.flow.tickets - {ticket})), TicketTaken(ticket, code, w.clock));
    AppendKeepsSessions(w.flow.log, TicketTaken(ticket, code, w.clock));
  }

  lemma SessionKeepsInv(w: World, validates: (string, string, int) -> bool, user: User, ticket: string, code: string, i: int)
    requires Inv(w, validates) && |w.flow.log| > 0 && w.flow.log[|w.flow.log| - 1] == TicketTaken(ticket, code, w.clock)
    requires !IsLocked(user, w.clock) && user.secret != "" && validates(user.secret, code, w.clock)
    requires 0 <= i < |w.flow.log| && w.flow.log[i].TicketIssued? && w.flow.log[i].ticket == ticket
    requires w.flow.log[i].userId == user.id && w.clock < w.flow.log[i].at + FIVE_MINUTES
    ensures Inv(w.(flow := w.flow.(log := w.flow.log + [SessionIssued(user, true, Some(ticket), w.clock)])), validates)
  {
    var entry := SessionIssued(user, true, Some(ticket), w.clock);
    assert LeadsTo(w.flow.log + [entry], i, |w.flow.log|);
    AppendKeepsSessions(w.flow.log, entry);
    AppendKeepsTied(w, entry);
  }

  lemma ChallengeKeepsInv(w: World, config: Config, validates: (string, string, int) -> bool, ticket: string, code: string)
    requires Inv(w, validates)
    ensures Inv(w.(flow := Challenge(w.flow, config, validates, ticket, code, w.clock).0), validates)
  {
    if Challenge(w.flow, config, validates, ticket, code, w.clock).0 != w.flow {
      var log, row := w.flow.log, w.flow.tickets[ticket];
      var i :| IssuedAs(log, i, ticket, row);
      TakingKeepsInv(w, validates, ticket, code);
      if Passes(w.flow, validates, row.value, code, w.clock) {
        var taken := w.flow.(tickets := w.flow.tickets - {ticket}, log := log + [TicketTaken(ticket, code, w.clock)]);
        SessionKeepsInv(w.(flow := taken), validates, w.flow.users[row.value], ticket, code, i);
      }
    }
  }

  lemma StepKeepsInv(before: World, validates: (string, string, int) -> bool, event: Event)
    requires Inv(before, validates) && Admissible(before, event)
    ensures Inv(Next(before, validates, event), validates)
  {
    var w := before.(clock := event.at);
    assert TicketsTied(w);
    match event.step
    case SetUsers(users) =>
    case SignInStep(config, user, risk, ticket) => SignInKeepsInv(w, validates, config, user, risk, ticket);
    case ChallengeStep(config, ticket, code) => ChallengeKeepsInv(w, config, validates, ticket, code);
    case SweepStep => ShrinkKeepsTied(w, Visible(w.flow.tickets, event.at));
  }

  lemma {:induction false} RunKeepsInv(validates: (string, string, int) -> bool, run: seq<Event>)
    requires AdmissibleRun(validates, run)
    ensures Inv(After(validates, run), validates)
  {
    if run != [] {
      RunKeepsInv(validates, run[..|run| - 1]);
      StepKeepsInv(After(validates, run[..|run| - 1]), validates, run[|run| - 1]);
    }
  }

  /**
   Over every run a ticket is taken at most once, each session by ticket follows the taking of its
   ticket with a code that was right for the user's secret at that instant, so a ticket leads to at
   most one session, and that session is for the user the ticket was issued to, less than five minutes
   later, while that user is not locked.
   */
  lemma TicketsAreTraceable(validates: (string, string, int) -> bool, run: seq<Event>)
    requires AdmissibleRun(validates, run)
    ensures var log := After(validates, run).flow.log;
      && SessionsHaveTickets(log) && TakenOnce(log) && SessionsFollowTaking(log, validates)
      && forall j, k | 0 <= j < k < |log| && log[j].SessionIssued? && log[k].SessionIssued? && log[j].via.Some? ::
           log[j].via != log[k].via
  {
    RunKeepsInv(validates, run);
    var log := After(validates, run).flow.log;
    forall j, k | 0 <= j < k < |log| && log[j].SessionIssued? && log[k].SessionIssued? && log[j].via.Some?
      ensures log[j].via != log[k].via
    {
      assert FollowsTaking(log, validates, j);
      if log[k].via.Some? {
        assert FollowsTaking(log, validates, k);
      }
    }
  }

  /* ---------- Who is asked ---------- */

  /** Under the "always" policy the factor is owed by exactly the stored users that have one. */
  lemma AlwaysPolicyOwes(users: map<string, User>, config: Config, userId: string, risk: Option<Risk>)
    requires config.enabled && (config.policy == "always" || config.policy == "")
    ensures Owes(users, config, userId, risk) <==> userId in users && users[userId].mfaEnabled
  {
  }

  /** The sign-in hands over the factor of the stored user, as all but the account-linking callback do. */
  predicate HandsOverFactor(flow: Flow, step: Step)
  {
    step.SignInStep? && Owes(flow.users, step.config, step.user.id, step.risk) ==> step.user.mfaEnabled
  }

  predicate HandsOverFactors(validates: (string, string, int) -> bool, run: seq<Event>)
  {
    run == [] || (HandsOverFactors(validates, run[..|run| - 1])
                  && HandsOverFactor(After(validates, run[..|run| - 1]).flow, run[|run| - 1].step))
  }

  predicate NoneSkips(log: seq<Entry>)
  {
    forall entry | entry in log && entry.SessionIssued? && entry.owed :: entry.via.Some?
  }

  /** A user who owes the factor gets a ticket at sign-in exactly when the sign-in hands the factor over. */
  lemma AskedExactly(flow: Flow, config: Config, user: User, risk: Option<Risk>, ticket: string, now: int)
    requires Owes(flow.users, config, user.id, risk)
    ensures CompleteSignIn(flow, config, user, risk, ticket, now).1 == (if user.mfaEnabled then MfaRequired(ticket) else Session(user.id))
  {
  }

  /** Nobody else is asked: without the factor, or under a policy that does not ask, a sign-in gets its session and no ticket. */
  lemma NotAskedOtherwise(flow: Flow, config: Config, user: User, risk: Option<Risk>, ticket: string, now: int)
    requires !user.mfaEnabled || !config.enabled
      || (config.policy != "always" && config.policy != "" && (config.policy != "adaptive" || risk.None?))
    ensures var (next, reply) := CompleteSignIn(flow, config, user, risk, ticket, now);
      reply == Session(user.id) && next.users == flow.users && next.tickets == flow.tickets && |next.log| == |flow.log| + 1
  {
  }

  lemma NoneSkipsAppend(log: seq<Entry>, more: seq<Entry>)
    ensures NoneSkips(log + more) <==> NoneSkips(log) && NoneSkips(more)
  {
    assert forall entry :: entry in log + more <==> entry in log || entry in more;
  }

  lemma StepSkipsExactly(w: World, validates: (string, string, int) -> bool, event: Event)
    ensures NoneSkips(Next(w, validates, event).flow.log) <==> NoneSkips(w.flow.log) && HandsOverFactor(w.flow, event.step)
  {
    match event.step
    case SignInStep(config, user, risk, ticket) => SignInSkipsExactly(w.flow, config, user, risk, ticket, event.at);
    case ChallengeStep(config, ticket, code) => ChallengeSkipsNone(w.flow, config, validates, ticket, code, event.at);
    case _ =>
  }

  lemma NoneSkipsEntry(log: seq<Entry>, entry: Entry)
    ensures NoneSkips(log + [entry]) <==> NoneSkips(log) && (entry.SessionIssued? && entry.owed ==> entry.via.Some?)
  {
    NoneSkipsAppend(log, [entry]);
    assert entry in [entry];
  }

  lemma SignInSkipsExactly(flow: Flow, config: Config, user: User, risk: Option<Risk>, ticket: string, now: int)
    ensures NoneSkips(CompleteSignIn(flow, config, user, risk, ticket, now).0.log) <==>
      NoneSkips(flow.log) && (Owes(flow.users, config, user.id, risk) ==> user.mfaEnabled)
  {
    NoneSkipsEntry(flow.log, TicketIssued(ticket, user.id, now));
    NoneSkipsEntry(flow.log, SessionIssued(user, Owes(flow.users, config, user.id, risk), None, now));
  }

  lemma ChallengeSkipsNone(flow: Flow, config: Config, validates: (string, string, int) -> bool, ticket: string, code: string, now: int)
    ensures NoneSkips(Challenge(flow, config, validates, ticket, code, now).0.log) <==> NoneSkips(flow.log)
  {
    var next := Challenge(flow, config, validates, ticket, code, now).0;
    if next != flow {
      var taken := flow.log + [TicketTaken(ticket, code, now)];
      NoneSkipsEntry(flow.log, TicketTaken(ticket, code, now));
      if next.log != taken {
        NoneSkipsEntry(taken, SessionIssued(flow.users[flow.tickets[ticket].value], true, Some(ticket), now));
      }
    }
  }

  /**
   Over every run and under every policy, nobody who owes the second factor gets a session from a
   sign-in without a ticket exactly when every sign-in hands over the factor of its stored user.
   */
  lemma {:induction false} NoneSkipsExactly(validates: (string, string, int) -> bool, run: seq<Event>)
    ensures NoneSkips(After(validates, run).flow.log) <==> HandsOverFactors(validates, run)
  {
    if run != [] {
      NoneSkipsExactly(validates, run[..|run| - 1]);
      StepSkipsExactly(After(validates, run[..|run| - 1]), validates, run[|run| - 1]);
    }
  }

  /** An enrolled user, and a sign-in that hands the user over without the factor, as linking an account does. */
  function LinkedSignIn(): (run: seq<Event>)
  {
    [Event(0, SetUsers(map["u" := User("u", true, "k", None)])),
     Event(0, SignInStep(Config(true, "always", []), User("u", false, "", None), None, "t"))]
  }

  /** That sign-in gets a session without being asked. */
  lemma LinkedAccountSkips(validates: (string, string, int) -> bool)
    ensures AdmissibleRun(validates, LinkedSignIn())
    ensures After(validates, LinkedSignIn()).flow.log == [SessionIssued(User("u", false, "", None), true, None, 0)]
  {
    var run := LinkedSignIn();
    var enrolled := run[..1];
    assert enrolled[..0] == [] && enrolled[0] == run[0];
    assert After(validates, enrolled[..0]) == INITIAL && AdmissibleRun(validates, enrolled[..0]);
    var w := After(validates, enrolled);
    assert w == Next(INITIAL, validates, run[0]) && AdmissibleRun(validates, enrolled);
    assert Owes(w.flow.users, run[1].step.config, "u", None);
    assert After(validates, run) == Next(w, validates, run[1]) && Admissible(w, run[1]);
    assert w.flow.log == [] && [] + [SessionIssued(User("u", false, "", None), true, None, 0)] == [SessionIssued(User("u", false, "", None), true, None, 0)];
  }

  /** The policy that looks at risk asks enrolled stored users on medium or high risk, or for a reason it names. */
  lemma AdaptivePolicyOwes(users: map<string, User>, config: Config, userId: string, risk: Option<Risk>)
    requires config.policy != "always" && config.policy != ""
    ensures Owes(users, config, userId, risk) <==>
      && config.enabled && config.policy == "adaptive" && userId in users && users[userId].mfaEnabled && risk.Some?
      && (risk.value.level in ["medium", "high"] || exists reason | reason in risk.value.reasons :: reason in config.riskTriggers)
  {
    if risk.Some? && risk.value.level !in ["medium", "high"] {
      if trigger :| trigger in config.riskTriggers && trigger in risk.value.reasons {
        assert Owes(users, config, userId, risk) <==> config.enabled && config.policy == "adaptive" && userId in users && users[userId].mfaEnabled;
      }
    }
  }

  /* ---------- What a challenge is answered ---------- */

  /**
   A challenge that finds a ticket spends it, and gives its user a session exactly when that user is
   stored, not locked, enrolled, and the code is right for the stored secret at that instant.
   Afterwards the ticket is refused.
   */
  lemma FoundTicketIsSpent(flow: Flow, config: Config, validates: (string, string, int) -> bool, ticket: string, code: string, now: int,
                           laterConfig: Config, laterCode: string, later: int)
    requires config.enabled && ticket != "" && code != "" && IsLive(flow.tickets, ticket, now) && flow.tickets[ticket].value != ""
    ensures var (next, reply) := Challenge(flow, config, validates, ticket, code, now);
      var userId := flow.tickets[ticket].value;
      && (reply.Session? <==>
            && userId in flow.users && (flow.users[userId].lockedUntil == None || flow.users[userId].lockedUntil.value <= now)
            && flow.users[userId].secret != "" && validates(flow.users[userId].secret, code, now))
      && (reply.Session? ==> reply == Session(flow.users[userId].id))
      && TicketTaken(ticket, code, now) in next.log[|flow.log|..]
      && next.users == flow.users && next.tickets == flow.tickets - {ticket}
      && Challenge(next, laterConfig, validates, ticket, laterCode, later) == (next, Refused)
  {
    var next := Challenge(flow, config, validates, ticket, code, now).0;
    assert next.log[|flow.log|..][0] == TicketTaken(ticket, code, now);
  }

  /** Without a live ticket, or without a code, a challenge is refused and changes nothing. */
  lemma MissingTicketIsRefused(flow: Flow, config: Config, validates: (string, string, int) -> bool, ticket: string, code: string, now: int)
    requires !config.enabled || ticket == "" || code == ""
      || ticket !in flow.tickets || flow.tickets[ticket].expiresAt <= now || flow.tickets[ticket].value == ""
    ensures Challenge(flow, config, validates, ticket, code, now) == (flow, Refused)
  {
  }

  /** A user who is asked at sign-in and then brings the right code gets the session exactly within five minutes. */
  lemma HonestChallengeSucceeds(flow: Flow, config: Config, validates: (string, string, int) -> bool, user: User, risk: Option<Risk>,
                                ticket: string, code: string, t: int, u: int)
    requires CompleteSignIn(flow, config, user, risk, ticket, t).1 == MfaRequired(ticket) && ticket != "" && code != ""
    requires user.id in flow.users && flow.users[user.id] == user && user.id != ""
    requires (user.lockedUntil == None || user.lockedUntil.value <= u) && user.secret != "" && validates(user.secret, code, u)
    ensures var asked := CompleteSignIn(flow, config, user, risk, ticket, t).0;
      Challenge(asked, config, validates, ticket, code, u).1 == (if u < t + FIVE_MINUTES then Session(user.id) else Refused)
  {
    var asked := CompleteSignIn(flow, config, user, risk, ticket, t).0;
    assert asked.tickets[ticket] == Row(user.id, t + FIVE_MINUTES);
  }
}
