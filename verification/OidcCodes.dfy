/**
 The authorization-code flow with PKCE: authorize requests, pending states, codes and their
 redemption (sections 4.1.2 and 4.1.3 of RFC 6749, section 4.6 of RFC 7636).  Each handler is one
 atomic step on one clock in microseconds; states and codes are the key families
 `auth:oidc:state:` and `auth:code:`.
 */
module OidcCodes {
  import opened Wrappers
  import opened KvStore
  import Base64Url

  const STATE_TTL := 10 * 60 * NANOSECONDS_PER_SECOND
  const CODE_TTL := 5 * 60 * NANOSECONDS_PER_SECOND
  const FIVE_MINUTES := 5 * 60 * 1_000_000

  datatype Client = Client(redirectUris: seq<string>, isPublic: bool, secret: string)

  datatype Config = Config(enabled: bool, clients: map<string, Client>)

  datatype Request = Request(
    clientId: string, redirectUri: string, responseType: string, clientState: string,
    challenge: string, challengeMethod: string, scope: string, nonce: string, mode: string)

  datatype StatePayload = StatePayload(
    clientId: string, redirectUri: string, scope: string, challenge: string, challengeMethod: string, nonce: string)

  datatype CodePayload = CodePayload(
    clientId: string, redirectUri: string, userId: string, scope: string,
    challenge: string, challengeMethod: string, nonce: string)

  datatype Redemption = Redemption(
    clientId: string, clientSecret: string, code: string, redirectUri: string, verifier: string)

  /**
   What happened, in order: the evidence the properties are about.  A request goes by the id under
   which its state is stored, if it is; a code from a stored state names that state.
   */
  datatype Entry =
    | Authorized(request: Request, registeredUris: seq<string>, requestId: string, at: int)
    | CodeIssued(code: string, payload: CodePayload, stateId: Option<string>, at: int)
    | CodeRedeemed(code: string, clientId: string, verifier: string, subject: string, nonce: string, at: int)

  datatype Flow = Flow(users: set<string>, states: Table<StatePayload>, codes: Table<CodePayload>, log: seq<Entry>)

  datatype Reply = Refused | Page | Code(code: string) | Tokens(subject: string, nonce: string)

  /* ---------- Handlers as steps ---------- */

  predicate AcceptsRequest(config: Config, request: Request)
  {
    && request.clientId != "" && request.clientId in config.clients
    && request.redirectUri != "" && request.redirectUri in config.clients[request.clientId].redirectUris
    && request.responseType == "code"
    && request.challenge != "" && request.challengeMethod == "S256"
  }

  function IssueCode(flow: Flow, payload: CodePayload, stateId: Option<string>, code: string, now: int): (f: Flow)
  {
    flow.(codes := Put(flow.codes, code, payload, CODE_TTL, now),
          log := flow.log + [CodeIssued(code, payload, stateId, now)])
  }

  function PayloadOf(state: StatePayload, userId: string): (payload: CodePayload)
  {
    CodePayload(state.clientId, state.redirectUri, userId, state.scope, state.challenge, state.challengeMethod, state.nonce)
  }

  function StateOf(request: Request): (state: StatePayload)
  {
    StatePayload(request.clientId, request.redirectUri, request.scope, request.challenge, request.challengeMethod, request.nonce)
  }

  /**
   A signed-in caller gets a code at once.  If the redirect URI then fails to parse as a URL the
   handler goes on to store a state as for anybody else.
   */
  function Authorize(flow: Flow, config: Config, request: Request, activeUser: string, uriParses: bool,
                     stateId: string, code: string, now: int): (r: (Flow, Reply))
  {
    if !config.enabled then (flow, Refused)
    else if request.clientState != "" && request.mode != "" && IsLive(flow.states, request.clientState, now) then (flow, Page)
    else if !AcceptsRequest(config, request) then (flow, Refused)
    else
      var logged := flow.(log := flow.log + [Authorized(request, config.clients[request.clientId].redirectUris, stateId, now)]);
      var issued := if activeUser == "" then logged
                    else IssueCode(logged, PayloadOf(StateOf(request), activeUser), None, code, now);
      if activeUser != "" && uriParses then (issued, Code(code))
      else (issued.(states := Put(issued.states, stateId, StateOf(request), STATE_TTL, now)), Page)
  }

  /** A pending state and a user who has proved who they are become a code; the state is gone. */
  function CompleteState(flow: Flow, stateId: string, userId: string, code: string, now: int): (r: (Flow, Reply))
  {
    if !IsLive(flow.states, stateId, now) then (flow, Refused)
    else
      var payload := PayloadOf(flow.states[stateId].value, userId);
      (IssueCode(flow.(states := flow.states - {stateId}), payload, Some(stateId), code, now), Code(code))
  }

  function Challenge(sha256: string -> seq<Base64Url.byte>, verifier: string): (challenge: string)
  {
    Base64Url.Encode(sha256(verifier))
  }

  predicate ClientAuthenticates(config: Config, redemption: Redemption)
  {
    && redemption.clientId != "" && redemption.clientId in config.clients
    && var client := config.clients[redemption.clientId];
       client.isPublic || (redemption.clientSecret != "" && redemption.clientSecret == client.secret)
  }

  predicate PayloadMatches(sha256: string -> seq<Base64Url.byte>, payload: CodePayload, redemption: Redemption)
  {
    && payload.clientId == redemption.clientId
    && (redemption.redirectUri == "" || payload.redirectUri == redemption.redirectUri)
    && payload.challenge != ""
    && payload.challenge == Challenge(sha256, redemption.verifier)
  }

  /** A code that is found is used up before anything about it is checked. */
  function Redeem(flow: Flow, sha256: string -> seq<Base64Url.byte>, config: Config, redemption: Redemption, now: int): (r: (Flow, Reply))
  {
    if !config.enabled || !ClientAuthenticates(config, redemption) then (flow, Refused)
    else if redemption.code == "" || !IsLive(flow.codes, redemption.code, now) then (flow, Refused)
    else
      var payload := flow.codes[redemption.code].value;
      var used := flow.(codes := flow.codes - {redemption.code});
      if !PayloadMatches(sha256, payload, redemption) || payload.userId !in flow.users then (used, Refused)
      else (used.(log := used.log + [CodeRedeemed(redemption.code, redemption.clientId, redemption.verifier, payload.userId, payload.nonce, now)]),
            Tokens(payload.userId, payload.nonce))
  }

  /* ---------- The handlers ---------- */

  class Handlers {
    var users: set<string>
    var states: Table<StatePayload>
    var codes: Table<CodePayload>
    var log: seq<Entry>

    function State(): (f: Flow)
      reads this
    {
      Flow(users, states, codes, log)
    }

    constructor ()
      ensures State() == Flow({}, map[], map[], [])
    {
      users, states, codes, log := {}, map[], map[], [];
    }

    method IssueAuthorizationCode(payload: CodePayload, stateId: Option<string>, code: string, now: int)
      modifies this`codes, this`log
      ensures State() == IssueCode(old(State()), payload, stateId, code, now)
    {
      codes := Put(codes, code, payload, CODE_TTL, now);
      log := log + [CodeIssued(code, payload, stateId, now)];
    }

    method HandleAuthorize(config: Config, request: Request, activeUser: string, uriParses: bool,
                           stateId: string, code: string, now: int) returns (reply: Reply)
      modifies this
      ensures (State(), reply) == Authorize(old(State()), config, request, activeUser, uriParses, stateId, code, now)
    {
      if !config.enabled {
        return Refused;
      }
      if request.clientState != "" && request.mode != "" {
        if request.clientState in states && states[request.clientState].expiresAt > now {
          return Page;
        }
      }
      if request.clientId == "" || request.clientId !in config.clients || request.redirectUri == "" {
        return Refused;
      }
      var registeredUris := config.clients[request.clientId].redirectUris;
      var validRedirect := false;
      for i := 0 to |registeredUris|
        invariant !validRedirect && request.redirectUri !in registeredUris[..i]
      {
        if registeredUris[i] == request.redirectUri {
          validRedirect := true;
          break;
        }
      }
      assert registeredUris[..|registeredUris|] == registeredUris;
      if !validRedirect || request.responseType != "code" {
        return Refused;
      }
      if request.challenge == "" || request.challengeMethod != "S256" {
        return Refused;
      }
      log := log + [Authorized(request, registeredUris, stateId, now)];
      var state := StateOf(request);
      if activeUser != "" {
        IssueAuthorizationCode(PayloadOf(state, activeUser), None, code, now);
        if uriParses {
          return Code(code);
        }
      }
      states := Put(states, stateId, state, STATE_TTL, now);
      return Page;
    }

    method CompleteAuthorization(stateId: string, userId: string, code: string, now: int) returns (reply: Reply)
      modifies this
      ensures (State(), reply) == CompleteState(old(State()), stateId, userId, code, now)
    {
      if stateId !in states || states[stateId].expiresAt <= now {
        return Refused;
      }
      var state := states[stateId].value;
      states := states - {stateId};
      IssueAuthorizationCode(PayloadOf(state, userId), Some(stateId), code, now);
      return Code(code);
    }

    method HandleRedeem(sha256: string -> seq<Base64Url.byte>, config: Config, redemption: Redemption, now: int) returns (reply: Reply)
      modifies this
      ensures (State(), reply) == Redeem(old(State()), sha256, config, redemption, now)
    {
      if !config.enabled || redemption.clientId == "" || redemption.clientId !in config.clients {
        return Refused;
      }
      var client := config.clients[redemption.clientId];
      if !client.isPublic && (redemption.clientSecret == "" || redemption.clientSecret != client.secret) {
        return Refused;
      }
      if redemption.code == "" || redemption.code !in codes || codes[redemption.code].expiresAt <= now {
        return Refused;
      }
      var payload := codes[redemption.code].value;
      codes := codes - {redemption.code};
      if payload.clientId != redemption.clientId {
        return Refused;
      }
      if redemption.redirectUri != "" && payload.redirectUri != redemption.redirectUri {
        return Refused;
      }
      var challenge := Challenge(sha256, redemption.verifier);
      if payload.challenge == "" || payload.challenge != challenge {
        return Refused;
      }
      if payload.userId !in users {
        return Refused;
      }
      log := log + [CodeRedeemed(redemption.code, redemption.clientId, redemption.verifier, payload.userId, payload.nonce, now)];
      return Tokens(payload.userId, payload.nonce);
    }
  }

  /* ---------- Runs ---------- */

  datatype Step =
    | SetUsers(users: set<string>)
    | AuthorizeStep(config: Config, request: Request, activeUser: string, uriParses: bool, stateId: string, code: string)
    | CompleteStep(pendingId: string, userId: string, code: string)
    | RedeemStep(config: Config, redemption: Redemption)
    | SweepStep

  datatype Event = Event(at: int, step: Step)

  /** The flow together with every state id and code ever minted, and the clock. */
  datatype World = World(flow: Flow, stateIds: set<string>, codes: set<string>, clock: int)

  const INITIAL := World(Flow({}, map[], map[], []), {}, {}, 0)

  function Next(w: World, sha256: string -> seq<Base64Url.byte>, event: Event): (w': World)
  {
    var now := event.at;
    match event.step
    case SetUsers(users) => w.(flow := w.flow.(users := users), clock := now)
    case AuthorizeStep(config, request, activeUser, uriParses, stateId, code) =>
      World(Authorize(w.flow, config, request, activeUser, uriParses, stateId, code, now).0,
            w.stateIds + {stateId}, w.codes + {code}, now)
    case CompleteStep(pendingId, userId, code) =>
      w.(flow := CompleteState(w.flow, pendingId, userId, code, now).0, codes := w.codes + {code}, clock := now)
    case RedeemStep(config, redemption) =>
      w.(flow := Redeem(w.flow, sha256, config, redemption, now).0, clock := now)
    case SweepStep =>
      w.(flow := w.flow.(states := Visible(w.flow.states, now), codes := Visible(w.flow.codes, now)), clock := now)
  }

  /** Time does not go back and identifiers are new. */
  predicate Admissible(w: World, event: Event)
  {
    && w.clock <= event.at
    && (event.step.AuthorizeStep? ==> event.step.stateId !in w.stateIds && event.step.code !in w.codes)
    && (event.step.CompleteStep? ==> event.step.code !in w.codes)
  }

  function After(sha256: string -> seq<Base64Url.byte>, run: seq<Event>): (w: World)
  {
    if run == [] then INITIAL else Next(After(sha256, run[..|run| - 1]), sha256, run[|run| - 1])
  }

  predicate AdmissibleRun(sha256: string -> seq<Base64Url.byte>, run: seq<Event>)
  {
    run == [] || (AdmissibleRun(sha256, run[..|run| - 1]) && Admissible(After(sha256, run[..|run| - 1]), run[|run| - 1]))
  }

  /* ---------- Traceability ---------- */

  /** Entry `a` is the authorize request that the state or code details come from. */
  predicate Grants(log: seq<Entry>, a: int, state: StatePayload)
  {
    && 0 <= a < |log| && log[a].Authorized?
    && log[a].request.clientId == state.clientId && log[a].request.redirectUri == state.redirectUri
    && log[a].request.scope == state.scope && log[a].request.nonce == state.nonce
    && log[a].request.challenge == state.challenge && log[a].request.challengeMethod == state.challengeMethod
    && log[a].request.redirectUri in log[a].registeredUris
    && state.challenge != "" && state.challengeMethod == "S256"
  }

  /** Entry `i` issued the code that entry `j` redeemed, less than five minutes before. */
  predicate Redeems(log: seq<Entry>, sha256: string -> seq<Base64Url.byte>, i: int, j: int)
    requires 0 <= j < |log| && log[j].CodeRedeemed?
  {
    && 0 <= i < j && log[i].CodeIssued?
    && log[i].code == log[j].code
    && log[i].at <= log[j].at < log[i].at + FIVE_MINUTES
    && log[i].payload.clientId == log[j].clientId
    && log[i].payload.challenge == Challenge(sha256, log[j].verifier)
    && log[i].payload.userId == log[j].subject
    && log[i].payload.nonce == log[j].nonce
  }

  function StateOfCode(payload: CodePayload): (state: StatePayload)
  {
    StatePayload(payload.clientId, payload.redirectUri, payload.scope, payload.challenge, payload.challengeMethod, payload.nonce)
  }

  ghost predicate RedeemedWereIssued(log: seq<Entry>, sha256: string -> seq<Base64Url.byte>)
  {
    forall j | 0 <= j < |log| && log[j].CodeRedeemed? :: exists i :: Redeems(log, sha256, i, j)
  }

  /** The request `a` is the one that stored `stateId` or, for a code given at once, the one just before `i`. */
  predicate IsOrigin(log: seq<Entry>, a: int, i: int, payload: CodePayload, stateId: Option<string>)
  {
    && a < i && Grants(log, a, StateOfCode(payload))
    && if stateId.Some? then log[a].requestId == stateId.value else a == i - 1
  }

  ghost predicate IssuedWereAuthorized(log: seq<Entry>)
  {
    forall i | 0 <= i < |log| && log[i].CodeIssued? :: exists a :: IsOrigin(log, a, i, log[i].payload, log[i].stateId)
  }

  ghost predicate AuthorizedOnce(log: seq<Entry>)
  {
    forall a, b | 0 <= a < b < |log| && log[a].Authorized? && log[b].Authorized? :: log[a].requestId != log[b].requestId
  }

  ghost predicate RedeemedOnce(log: seq<Entry>)
  {
    forall j, k | 0 <= j < k < |log| && log[j].CodeRedeemed? && log[k].CodeRedeemed? :: log[j].code != log[k].code
  }

  /** No code is issued twice, and no state leads to two codes. */
  ghost predicate IssuedOnce(log: seq<Entry>)
  {
    forall i, k | 0 <= i < k < |log| && log[i].CodeIssued? && log[k].CodeIssued? ::
      log[i].code != log[k].code && (log[i].stateId.Some? ==> log[i].stateId != log[k].stateId)
  }

  /** What the log promises about every code in it. */
  ghost predicate Traceable(log: seq<Entry>, sha256: string -> seq<Base64Url.byte>)
  {
    RedeemedWereIssued(log, sha256) && IssuedWereAuthorized(log) && AuthorizedOnce(log) && RedeemedOnce(log) && IssuedOnce(log)
  }

  /* ---------- The invariant ---------- */

  predicate IssuedAs(log: seq<Entry>, i: int, code: string, row: Row<CodePayload>)
  {
    && 0 <= i < |log| && log[i].CodeIssued?
    && log[i].code == code && log[i].payload == row.value
    && row.expiresAt == log[i].at + FIVE_MINUTES
  }

  predicate NotRedeemed(log: seq<Entry>, code: string)
  {
    forall j | 0 <= j < |log| && log[j].CodeRedeemed? :: log[j].code != code
  }

  predicate NotCompleted(log: seq<Entry>, stateId: string)
  {
    forall i | 0 <= i < |log| && log[i].CodeIssued? :: log[i].stateId != Some(stateId)
  }

  ghost predicate CodesTied(w: World)
  {
    forall c | c in w.flow.codes ::
      c in w.codes && NotRedeemed(w.flow.log, c) && exists i :: IssuedAs(w.flow.log, i, c, w.flow.codes[c])
  }

  /** Entry `a` is the request that stored the state `s`. */
  predicate Stores(log: seq<Entry>, a: int, s: string, state: StatePayload)
  {
    Grants(log, a, state) && log[a].requestId == s
  }

  ghost predicate StatesTied(w: World)
  {
    forall s | s in w.flow.states ::
      s in w.stateIds && NotCompleted(w.flow.log, s) && exists a :: Stores(w.flow.log, a, s, w.flow.states[s].value)
  }

  ghost predicate LogBounded(w: World)
  {
    forall i | 0 <= i < |w.flow.log| :: EntryBounded(w, w.flow.log[i])
  }

  predicate EntryBounded(w: World, entry: Entry)
  {
    && entry.at <= w.clock
    && (if entry.Authorized? then entry.requestId in w.stateIds else entry.code in w.codes)
    && (entry.CodeIssued? && entry.stateId.Some? ==> entry.stateId.value in w.stateIds)
  }

  ghost predicate Tied(w: World)
  {
    CodesTied(w) && StatesTied(w) && LogBounded(w)
  }

  ghost predicate Inv(w: World, sha256: string -> seq<Base64Url.byte>)
  {
    Tied(w) && Traceable(w.flow.log, sha256)
  }

  lemma AppendKeepsRedeemed(log: seq<Entry>, sha256: string -> seq<Base64Url.byte>, entry: Entry)
    requires RedeemedWereIssued(log, sha256)
    requires entry.CodeRedeemed? ==> exists i :: Redeems(log + [entry], sha256, i, |log|)
    ensures RedeemedWereIssued(log + [entry], sha256)
  {
    var longer := log + [entry];
    forall j | 0 <= j < |longer| && longer[j].CodeRedeemed?
      ensures exists i :: Redeems(longer, sha256, i, j)
    {
      if j < |log| {
        var i :| Redeems(log, sha256, i, j);
        assert Redeems(longer, sha256, i, j);
      }
    }
  }

  lemma AppendKeepsIssued(log: seq<Entry>, entry: Entry)
    requires IssuedWereAuthorized(log)
    requires entry.CodeIssued? ==> exists a :: IsOrigin(log, a, |log|, entry.payload, entry.stateId)
    ensures IssuedWereAuthorized(log + [entry])
  {
    var longer := log + [entry];
    forall i | 0 <= i < |longer| && longer[i].CodeIssued?
      ensures exists a :: IsOrigin(longer, a, i, longer[i].payload, longer[i].stateId)
    {
      var a :| IsOrigin(log, a, i, longer[i].payload, longer[i].stateId);
      assert IsOrigin(longer, a, i, longer[i].payload, longer[i].stateId);
    }
  }

  lemma AppendKeepsAuthorized(log: seq<Entry>, entry: Entry)
    requires AuthorizedOnce(log)
    requires entry.Authorized? ==> NotAuthorized(log, entry.requestId)
    ensures AuthorizedOnce(log + [entry])
  {
  }

  predicate NotAuthorized(log: seq<Entry>, requestId: string)
  {
    forall a | 0 <= a < |log| && log[a].Authorized? :: log[a].requestId != requestId
  }

  lemma AppendKeepsOnce(log: seq<Entry>, entry: Entry)
    requires RedeemedOnce(log) && IssuedOnce(log)
    requires entry.CodeRedeemed? ==> NotRedeemed(log, entry.code)
    requires entry.CodeIssued? ==> forall i | 0 <= i < |log| && log[i].CodeIssued? ::
      log[i].code != entry.code && (log[i].stateId.Some? ==> log[i].stateId != entry.stateId)
    ensures RedeemedOnce(log + [entry]) && IssuedOnce(log + [entry])
  {
  }

  /** An entry that neither issues a known code nor redeems without cause leaves the log traceable. */
  lemma AppendKeepsTraceable(log: seq<Entry>, sha256: string -> seq<Base64Url.byte>, entry: Entry)
    requires Traceable(log, sha256) && (entry.Authorized? ==> NotAuthorized(log, entry.requestId))
    requires entry.CodeRedeemed? ==> NotRedeemed(log, entry.code) && exists i :: Redeems(log + [entry], sha256, i, |log|)
    requires entry.CodeIssued? ==>
      && (exists a :: IsOrigin(log, a, |log|, entry.payload, entry.stateId))
      && (forall i | 0 <= i < |log| && log[i].CodeIssued? ::
            log[i].code != entry.code && (log[i].stateId.Some? ==> log[i].stateId != entry.stateId))
    ensures Traceable(log + [entry], sha256)
  {
    AppendKeepsRedeemed(log, sha256, entry);
    AppendKeepsIssued(log, entry);
    AppendKeepsAuthorized(log, entry);
    AppendKeepsOnce(log, entry);
  }

  /** Codes and states stay tied to a log that grows by an entry about neither of them. */
  lemma AppendKeepsTied(w: World, entry: Entry)
    requires Tied(w) && EntryBounded(w, entry)
    requires entry.CodeRedeemed? ==> entry.code !in w.flow.codes
    requires entry.CodeIssued? && entry.stateId.Some? ==> entry.stateId.value !in w.flow.states
    ensures var longer := w.(flow := w.flow.(log := w.flow.log + [entry]));
      Tied(longer)
  {
    var log := w.flow.log;
    var longer := log + [entry];
    forall c | c in w.flow.codes
      ensures NotRedeemed(longer, c) && exists i :: IssuedAs(longer, i, c, w.flow.codes[c])
    {
      var i :| IssuedAs(log, i, c, w.flow.codes[c]);
      assert IssuedAs(longer, i, c, w.flow.codes[c]);
    }
    forall s | s in w.flow.states
      ensures NotCompleted(longer, s) && exists a :: Stores(longer, a, s, w.flow.states[s].value)
    {
      var a :| Stores(log, a, s, w.flow.states[s].value);
      assert Stores(longer, a, s, w.flow.states[s].value);
    }
  }

  lemma IssuedFlow(flow: Flow, payload: CodePayload, stateId: Option<string>, code: string, now: int)
    ensures IssueCode(flow, payload, stateId, code, now) ==
      Flow(flow.users, flow.states, flow.codes[code := Row(payload, now + FIVE_MINUTES)], flow.log + [CodeIssued(code, payload, stateId, now)])
  {
  }

  lemma IssueKeepsInv(w: World, sha256: string -> seq<Base64Url.byte>, payload: CodePayload, stateId: Option<string>, code: string)
    requires Inv(w, sha256)
    requires code !in w.codes
    requires exists a :: IsOrigin(w.flow.log, a, |w.flow.log|, payload, stateId)
    requires stateId.Some? ==> stateId.value in w.stateIds && stateId.value !in w.flow.states && NotCompleted(w.flow.log, stateId.value)
    ensures Inv(w.(flow := IssueCode(w.flow, payload, stateId, code, w.clock), codes := w.codes + {code}), sha256)
  {
    var entry := CodeIssued(code, payload, stateId, w.clock);
    NewCodeIsTraceable(w, sha256, entry);
    NewCodeIsTied(w, entry);
    IssuedFlow(w.flow, payload, stateId, code, w.clock);
  }

  lemma NewCodeIsTied(w: World, entry: Entry)
    requires Tied(w)
    requires entry.CodeIssued? && entry.at == w.clock && entry.code !in w.codes
    requires entry.stateId.Some? ==> entry.stateId.value in w.stateIds && entry.stateId.value !in w.flow.states
    ensures Tied(World(
      Flow(w.flow.users, w.flow.states, w.flow.codes[entry.code := Row(entry.payload, w.clock + FIVE_MINUTES)], w.flow.log + [entry]),
      w.stateIds, w.codes + {entry.code}, w.clock))
  {
    var longer := w.(codes := w.codes + {entry.code}, flow := w.flow.(log := w.flow.log + [entry]));
    NewCodeKeepsTied(w, entry);
    CodeRowKeepsTied(longer, |w.flow.log|, entry.code, Row(entry.payload, w.clock + FIVE_MINUTES));
  }

  lemma NewCodeKeepsTied(w: World, entry: Entry)
    requires Tied(w)
    requires entry.CodeIssued? && entry.at == w.clock && entry.code !in w.codes
    requires entry.stateId.Some? ==> entry.stateId.value in w.stateIds && entry.stateId.value !in w.flow.states
    ensures var longer := w.(codes := w.codes + {entry.code}, flow := w.flow.(log := w.flow.log + [entry]));
      Tied(longer) && NotRedeemed(longer.flow.log, entry.code)
  {
    var grown := w.(codes := w.codes + {entry.code});
    assert Tied(grown);
    AppendKeepsTied(grown, entry);
    NewCodeIsUnredeemed(w, entry);
  }

  lemma NewCodeIsUnredeemed(w: World, entry: Entry)
    requires LogBounded(w) && entry.CodeIssued? && entry.code !in w.codes
    ensures NotRedeemed(w.flow.log + [entry], entry.code)
  {
  }

  lemma NewCodeIsTraceable(w: World, sha256: string -> seq<Base64Url.byte>, entry: Entry)
    requires LogBounded(w) && Traceable(w.flow.log, sha256)
    requires entry.CodeIssued? && entry.code !in w.codes
    requires exists a :: IsOrigin(w.flow.log, a, |w.flow.log|, entry.payload, entry.stateId)
    requires entry.stateId.Some? ==> NotCompleted(w.flow.log, entry.stateId.value)
    ensures Traceable(w.flow.log + [entry], sha256)
  {
    AppendKeepsTraceable(w.flow.log, sha256, entry);
  }

  lemma CodeRowKeepsTied(w: World, i: nat, code: string, row: Row<CodePayload>)
    requires Tied(w)
    requires code in w.codes && NotRedeemed(w.flow.log, code) && IssuedAs(w.flow.log, i, code, row)
    ensures var next := w.(flow := w.flow.(codes := w.flow.codes[code := row]));
      Tied(next)
  {
    var codes := w.flow.codes[code := row];
    forall c | c in codes
      ensures c in w.codes && NotRedeemed(w.flow.log, c) && exists j :: IssuedAs(w.flow.log, j, c, codes[c])
    {
      if c == code {
        assert IssuedAs(w.flow.log, i, c, codes[c]);
      } else {
        var j :| IssuedAs(w.flow.log, j, c, w.flow.codes[c]);
        assert IssuedAs(w.flow.log, j, c, codes[c]);
      }
    }
  }

  lemma AuthorizedKeepsInv(w: World, sha256: string -> seq<Base64Url.byte>, request: Request, uris: seq<string>, stateId: string)
    requires Inv(w, sha256) && stateId in w.stateIds && NotAuthorized(w.flow.log, stateId)
    requires request.redirectUri in uris && request.challenge != "" && request.challengeMethod == "S256"
    ensures var logged := w.(flow := w.flow.(log := w.flow.log + [Authorized(request, uris, stateId, w.clock)]));
      Inv(logged, sha256) && Stores(logged.flow.log, |w.flow.log|, stateId, StateOf(request))
  {
    AppendKeepsTraceable(w.flow.log, sha256, Authorized(request, uris, stateId, w.clock));
    AppendKeepsTied(w, Authorized(request, uris, stateId, w.clock));
  }

  lemma StateKeepsInv(w: World, sha256: string -> seq<Base64Url.byte>, stateId: string, state: StatePayload)
    requires Inv(w, sha256) && stateId in w.stateIds && NotCompleted(w.flow.log, stateId)
    requires exists a :: Stores(w.flow.log, a, stateId, state)
    ensures Inv(w.(flow := w.flow.(states := Put(w.flow.states, stateId, state, STATE_TTL, w.clock))), sha256)
  {
    var states := Put(w.flow.states, stateId, state, STATE_TTL, w.clock);
    forall s | s in states
      ensures s in w.stateIds && NotCompleted(w.flow.log, s) && exists a :: Stores(w.flow.log, a, s, states[s].value)
    {
      assert s != stateId ==> states[s] == w.flow.states[s];
    }
  }

  lemma NewIdIsUnused(w: World, stateId: string)
    requires LogBounded(w) && stateId !in w.stateIds
    ensures NotCompleted(w.flow.log, stateId) && NotAuthorized(w.flow.log, stateId)
  {
  }

  /** Keys may expire, be swept or be used up. */
  lemma ShrinkKeepsInv(w: World, sha256: string -> seq<Base64Url.byte>, states: Table<StatePayload>, codes: Table<CodePayload>)
    requires Inv(w, sha256)
    requires forall s | s in states :: s in w.flow.states && states[s] == w.flow.states[s]
    requires forall c | c in codes :: c in w.flow.codes && codes[c] == w.flow.codes[c]
    ensures Inv(w.(flow := w.flow.(states := states, codes := codes)), sha256)
  {
    forall c | c in codes
      ensures exists i :: IssuedAs(w.flow.log, i, c, codes[c])
    {
      var i :| IssuedAs(w.flow.log, i, c, w.flow.codes[c]);
      assert IssuedAs(w.flow.log, i, c, codes[c]);
    }
  }

  /** The state of a signed-in caller's request after its code, if any, is issued. */
  lemma ActiveUserKeepsInv(w: World, sha256: string -> seq<Base64Url.byte>, request: Request, activeUser: string, code: string)
    requires Inv(w, sha256) && code !in w.codes
    requires Grants(w.flow.log, |w.flow.log| - 1, StateOf(request))
    ensures var issued := if activeUser == "" then w.flow
                          else IssueCode(w.flow, PayloadOf(StateOf(request), activeUser), None, code, w.clock);
      Inv(w.(flow := issued, codes := w.codes + {code}), sha256)
  {
    if activeUser == "" {
      GrownKeepsInv(w, sha256, {}, {code});
      assert w.stateIds + {} == w.stateIds;
    } else {
      var payload := PayloadOf(StateOf(request), activeUser);
      assert StateOfCode(payload) == StateOf(request);
      assert IsOrigin(w.flow.log, |w.flow.log| - 1, |w.flow.log|, payload, None);
      IssueKeepsInv(w, sha256, payload, None, code);
    }
  }

  lemma AuthorizeKeepsInv(w: World, sha256: string -> seq<Base64Url.byte>, step: Step)
    requires Inv(w, sha256) && step.AuthorizeStep? && Admissible(w, Event(w.clock, step))
    ensures Inv(Next(w, sha256, Event(w.clock, step)), sha256)
  {
    var AuthorizeStep(config, request, activeUser, uriParses, stateId, code) := step;
    if Authorize(w.flow, config, request, activeUser, uriParses, stateId, code, w.clock).0 == w.flow {
      GrownKeepsInv(w, sha256, {stateId}, {code});
    } else {
      AcceptedKeepsInv(w, sha256, request, config.clients[request.clientId].redirectUris, activeUser, uriParses, stateId, code);
    }
  }

  lemma AcceptedKeepsInv(w: World, sha256: string -> seq<Base64Url.byte>, request: Request, uris: seq<string>, activeUser: string,
                         uriParses: bool, stateId: string, code: string)
    requires Inv(w, sha256) && stateId !in w.stateIds && code !in w.codes
    requires request.redirectUri in uris && request.challenge != "" && request.challengeMethod == "S256"
    ensures var logged := w.flow.(log := w.flow.log + [Authorized(request, uris, stateId, w.clock)]);
      var issued := if activeUser == "" then logged
                    else IssueCode(logged, PayloadOf(StateOf(request), activeUser), None, code, w.clock);
      var next := if activeUser != "" && uriParses then issued
                  else issued.(states := Put(issued.states, stateId, StateOf(request), STATE_TTL, w.clock));
      Inv(World(next, w.stateIds + {stateId}, w.codes + {code}, w.clock), sha256)
  {
    var logged := w.flow.(log := w.flow.log + [Authorized(request, uris, stateId, w.clock)]);
    var issued := if activeUser == "" then logged
                  else IssueCode(logged, PayloadOf(StateOf(request), activeUser), None, code, w.clock);
    NewIdIsUnused(w, stateId);
    GrownKeepsInv(w, sha256, {stateId}, {});
    assert w.codes + {} == w.codes;
    var grown := w.(stateIds := w.stateIds + {stateId});
    AuthorizedKeepsInv(grown, sha256, request, uris, stateId);
    ActiveUserKeepsInv(grown.(flow := logged), sha256, request, activeUser, code);
    if !(activeUser != "" && uriParses) {
      assert Stores(issued.log, |w.flow.log|, stateId, StateOf(request));
      StateKeepsInv(World(issued, grown.stateIds, w.codes + {code}, w.clock), sha256, stateId, StateOf(request));
    }
  }

  lemma GrownKeepsInv(w: World, sha256: string -> seq<Base64Url.byte>, stateIds: set<string>, codes: set<string>)
    requires Inv(w, sha256)
    ensures Inv(w.(stateIds := w.stateIds + stateIds, codes := w.codes + codes), sha256)
  {
  }

  lemma LaterKeepsInv(w: World, sha256: string -> seq<Base64Url.byte>, at: int)
    requires Inv(w, sha256) && w.clock <= at
    ensures Inv(w.(clock := at), sha256)
  {
  }

  lemma CompleteKeepsInv(w: World, sha256: string -> seq<Base64Url.byte>, pendingId: string, userId: string, code: string)
    requires Inv(w, sha256) && code !in w.codes
    ensures Inv(w.(flow := CompleteState(w.flow, pendingId, userId, code, w.clock).0, codes := w.codes + {code}), sha256)
  {
    if IsLive(w.flow.states, pendingId, w.clock) {
      var state := w.flow.states[pendingId].value;
      var rest := w.(flow := w.flow.(states := w.flow.states - {pendingId}));
      ShrinkKeepsInv(w, sha256, w.flow.states - {pendingId}, w.flow.codes);
      var a :| Stores(w.flow.log, a, pendingId, state);
      assert IsOrigin(w.flow.log, a, |w.flow.log|, PayloadOf(state, userId), Some(pendingId));
      assert StateOfCode(PayloadOf(state, userId)) == state;
      IssueKeepsInv(rest, sha256, PayloadOf(state, userId), Some(pendingId), code);
    } else {
      GrownKeepsInv(w, sha256, {}, {code});
      assert w.stateIds + {} == w.stateIds;
    }
  }

  lemma RedemptionKeepsInv(w: World, sha256: string -> seq<Base64Url.byte>, redemption: Redemption)
    requires Inv(w, sha256) && IsLive(w.flow.codes, redemption.code, w.clock)
    requires PayloadMatches(sha256, w.flow.codes[redemption.code].value, redemption)
    ensures var payload := w.flow.codes[redemption.code].value;
      var entry := CodeRedeemed(redemption.code, redemption.clientId, redemption.verifier, payload.userId, payload.nonce, w.clock);
      Inv(w.(flow := w.flow.(codes := w.flow.codes - {redemption.code}, log := w.flow.log + [entry])), sha256)
  {
    var code, payload := redemption.code, w.flow.codes[redemption.code].value;
    var entry := CodeRedeemed(code, redemption.clientId, redemption.verifier, payload.userId, payload.nonce, w.clock);
    var i :| IssuedAs(w.flow.log, i, code, w.flow.codes[code]);
    assert Redeems(w.flow.log + [entry], sha256, i, |w.flow.log|);
    AppendKeepsTraceable(w.flow.log, sha256, entry);
    ShrinkKeepsInv(w, sha256, w.flow.states, w.flow.codes - {code});
    AppendKeepsTied(w.(flow := w.flow.(codes := w.flow.codes - {code})), entry);
  }

  lemma RedeemKeepsInv(w: World, sha256: string -> seq<Base64Url.byte>, config: Config, redemption: Redemption)
    requires Inv(w, sha256)
    ensures Inv(w.(flow := Redeem(w.flow, sha256, config, redemption, w.clock).0), sha256)
  {
    var next := Redeem(w.flow, sha256, config, redemption, w.clock).0;
    if next.log != w.flow.log {
      RedemptionKeepsInv(w, sha256, redemption);
    } else if next != w.flow {
      ShrinkKeepsInv(w, sha256, w.flow.states, w.flow.codes - {redemption.code});
    }
  }

  lemma StepKeepsInv(before: World, sha256: string -> seq<Base64Url.byte>, event: Event)
    requires Inv(before, sha256) && Admissible(before, event)
    ensures Inv(Next(before, sha256, event), sha256)
  {
    LaterKeepsInv(before, sha256, event.at);
    var w := before.(clock := event.at);
    match event.step
    case SetUsers(users) =>
    case AuthorizeStep(_, _, _, _, _, _) => AuthorizeKeepsInv(w, sha256, event.step);
    case CompleteStep(pendingId, userId, code) => CompleteKeepsInv(w, sha256, pendingId, userId, code);
    case RedeemStep(config, redemption) => RedeemKeepsInv(w, sha256, config, redemption);
    case SweepStep => ShrinkKeepsInv(w, sha256, Visible(w.flow.states, event.at), Visible(w.flow.codes, event.at));
  }

  lemma {:induction false} RunKeepsInv(sha256: string -> seq<Base64Url.byte>, run: seq<Event>)
    requires AdmissibleRun(sha256, run)
    ensures Inv(After(sha256, run), sha256)
  {
    if run != [] {
      RunKeepsInv(sha256, run[..|run| - 1]);
      StepKeepsInv(After(sha256, run[..|run| - 1]), sha256, run[|run| - 1]);
    }
  }

  /** Over every run, each redemption traces back to one code and that code to the one request that stored its state or got it at once. */
  lemma CodesAreTraceable(sha256: string -> seq<Base64Url.byte>, run: seq<Event>)
    requires AdmissibleRun(sha256, run)
    ensures Traceable(After(sha256, run).flow.log, sha256)
  {
    RunKeepsInv(sha256, run);
  }

  /**
   After any run, tokens are handed out only to a registered client that is public or shows its secret,
   and only for a code never redeemed before, issued less than five minutes ago to the same client,
   from an authorize request whose redirect URI was registered at the time and is the one given now if
   one is, and whose S256 challenge is the digest of the verifier; they are for the subject and nonce
   bound then.
   */
  lemma RedemptionIsTraceable(sha256: string -> seq<Base64Url.byte>, run: seq<Event>, config: Config, redemption: Redemption, now: int)
    requires AdmissibleRun(sha256, run) && After(sha256, run).clock <= now
    requires Redeem(After(sha256, run).flow, sha256, config, redemption, now).1.Tokens?
    ensures var log := After(sha256, run).flow.log;
      var reply := Redeem(After(sha256, run).flow, sha256, config, redemption, now).1;
      && config.enabled && redemption.clientId != "" && redemption.clientId in config.clients
      && (config.clients[redemption.clientId].isPublic
          || (redemption.clientSecret != "" && redemption.clientSecret == config.clients[redemption.clientId].secret))
      && reply.subject in After(sha256, run).flow.users
      && NotRedeemed(log, redemption.code)
      && exists i, a | 0 <= a < i < |log| && log[i].CodeIssued? ::
           && log[i].code == redemption.code
           && log[i].at <= now < log[i].at + FIVE_MINUTES
           && log[i].payload.clientId == redemption.clientId
           && (redemption.redirectUri == "" || redemption.redirectUri == log[i].payload.redirectUri)
           && log[i].payload.userId == reply.subject && log[i].payload.nonce == reply.nonce
           && log[i].payload.challenge == Challenge(sha256, redemption.verifier)
           && IsOrigin(log, a, i, log[i].payload, log[i].stateId)
  {
    RunKeepsInv(sha256, run);
    var w := After(sha256, run);
    var i :| IssuedAs(w.flow.log, i, redemption.code, w.flow.codes[redemption.code]);
    var a :| IsOrigin(w.flow.log, a, i, w.flow.log[i].payload, w.flow.log[i].stateId);
    assert w.flow.log[i].at <= now;
  }

  /** A client that is unknown, or confidential without its own secret, is refused and the code is left as it was. */
  lemma UnauthenticatedClientIsRefused(flow: Flow, sha256: string -> seq<Base64Url.byte>, config: Config, redemption: Redemption, now: int)
    requires !config.enabled || redemption.clientId == "" || redemption.clientId !in config.clients
      || (!config.clients[redemption.clientId].isPublic
          && (redemption.clientSecret == "" || redemption.clientSecret != config.clients[redemption.clientId].secret))
    ensures Redeem(flow, sha256, config, redemption, now) == (flow, Refused)
  {
  }

  /** A redemption touches no user, no pending state and no other code. */
  lemma RedemptionTouchesOneCode(flow: Flow, sha256: string -> seq<Base64Url.byte>, config: Config, redemption: Redemption, now: int, code: string)
    requires code != redemption.code
    ensures var next := Redeem(flow, sha256, config, redemption, now).0;
      && next.users == flow.users && next.states == flow.states
      && (code in next.codes <==> code in flow.codes) && (code in flow.codes ==> next.codes[code] == flow.codes[code])
      && flow.log <= next.log
  {
  }

  /**
   An authorize request is taken up exactly when it names a registered client with one of its redirect
   URIs, asks for a code and brings an S256 challenge; a signed-in caller is then answered with a code
   of their own, and anybody else's state is stored.  Any other request that does not resume a pending state changes nothing.
   */
  lemma AuthorizeAnswers(flow: Flow, config: Config, request: Request, activeUser: string, uriParses: bool,
                         stateId: string, code: string, now: int)
    requires request.clientState == "" || request.mode == "" || request.clientState !in flow.states
      || flow.states[request.clientState].expiresAt <= now
    ensures var (next, reply) := Authorize(flow, config, request, activeUser, uriParses, stateId, code, now);
      if && config.enabled && request.clientId != "" && request.clientId in config.clients
         && request.redirectUri != "" && request.redirectUri in config.clients[request.clientId].redirectUris
         && request.responseType == "code" && request.challenge != "" && request.challengeMethod == "S256"
      then
        && flow.log < next.log && next.log[|flow.log|] == Authorized(request, config.clients[request.clientId].redirectUris, stateId, now)
        && reply == (if activeUser != "" && uriParses then Code(code) else Page)
        && (if activeUser == "" then |next.log| == |flow.log| + 1 else
              && |next.log| == |flow.log| + 2 && next.log[|flow.log| + 1].CodeIssued?
              && next.log[|flow.log| + 1].code == code && next.log[|flow.log| + 1].payload.userId == activeUser
              && code in next.codes && next.codes[code].value == next.log[|flow.log| + 1].payload)
        && (reply == Page ==> next.states.Keys == flow.states.Keys + {stateId}) && (reply != Page ==> next.states == flow.states)
      else next == flow && reply == Refused
  {
  }

  /** A pending state is completed exactly during its ten minutes. */
  lemma StateLastsTenMinutes(flow: Flow, config: Config, request: Request, uriParses: bool, stateId: string, spare: string,
                             userId: string, code: string, t: int, u: int)
    requires Authorize(flow, config, request, "", uriParses, stateId, spare, t).0 != flow
    ensures var asked := Authorize(flow, config, request, "", uriParses, stateId, spare, t).0;
      CompleteState(asked, stateId, userId, code, u).1 == Code(code) <==> u < t + 2 * FIVE_MINUTES
  {
  }

  /** A redemption that finds its code uses it up, whether or not anything else matches. */
  lemma FoundCodeIsSpent(flow: Flow, sha256: string -> seq<Base64Url.byte>, config: Config, redemption: Redemption, now: int,
                         laterConfig: Config, laterRedemption: Redemption, later: int)
    requires config.enabled && ClientAuthenticates(config, redemption) && redemption.code != ""
    requires IsLive(flow.codes, redemption.code, now) && laterRedemption.code == redemption.code
    ensures var (next, reply) := Redeem(flow, sha256, config, redemption, now);
      && (reply.Tokens? <==> PayloadMatches(sha256, flow.codes[redemption.code].value, redemption)
                             && flow.codes[redemption.code].value.userId in flow.users)
      && Redeem(next, sha256, laterConfig, laterRedemption, later) == (next, Refused)
  {
  }

  lemma AbsentStaysAbsent(w: World, sha256: string -> seq<Base64Url.byte>, event: Event, code: string)
    requires Admissible(w, event) && code in w.codes && code !in w.flow.codes
    ensures var next := Next(w, sha256, event); code in next.codes && code !in next.flow.codes
  {
  }

  lemma {:induction false} AbsentThroughRun(sha256: string -> seq<Base64Url.byte>, run: seq<Event>, i: nat, code: string)
    requires AdmissibleRun(sha256, run) && i <= |run|
    requires code in After(sha256, run[..i]).codes && code !in After(sha256, run[..i]).flow.codes
    ensures code in After(sha256, run).codes && code !in After(sha256, run).flow.codes
    decreases |run|
  {
    if i == |run| {
      assert run[..i] == run;
    } else {
      var rest := run[..|run| - 1];
      assert rest[..i] == run[..i];
      AbsentThroughRun(sha256, rest, i, code);
      AbsentStaysAbsent(After(sha256, rest), sha256, run[|run| - 1], code);
    }
  }

  lemma {:induction false} PrefixIsAdmissible(sha256: string -> seq<Base64Url.byte>, run: seq<Event>, i: nat)
    requires AdmissibleRun(sha256, run) && i <= |run|
    ensures AdmissibleRun(sha256, run[..i])
    decreases |run|
  {
    if i == |run| {
      assert run[..i] == run;
    } else {
      assert run[..|run| - 1][..i] == run[..i];
      PrefixIsAdmissible(sha256, run[..|run| - 1], i);
    }
  }

  /** The redemption at step `i` finds its code. */
  predicate FindsCode(sha256: string -> seq<Base64Url.byte>, run: seq<Event>, i: nat)
    requires i < |run| && run[i].step.RedeemStep?
  {
    var config, redemption := run[i].step.config, run[i].step.redemption;
    && config.enabled && ClientAuthenticates(config, redemption) && redemption.code != ""
    && IsLive(After(sha256, run[..i]).flow.codes, redemption.code, run[i].at)
  }

  /** In every run, once a redemption has found a code, successfully or not, every later one with that code is refused. */
  lemma SpentCodeIsRefused(sha256: string -> seq<Base64Url.byte>, run: seq<Event>, i: nat, j: nat)
    requires AdmissibleRun(sha256, run) && i < j < |run| && run[i].step.RedeemStep? && run[j].step.RedeemStep?
    requires run[i].step.redemption.code == run[j].step.redemption.code && FindsCode(sha256, run, i)
    ensures var flow := After(sha256, run[..j]).flow;
      Redeem(flow, sha256, run[j].step.config, run[j].step.redemption, run[j].at) == (flow, Refused)
  {
    var code := run[i].step.redemption.code;
    PrefixIsAdmissible(sha256, run, i);
    RunKeepsInv(sha256, run[..i]);
    var w := After(sha256, run[..i]);
    assert run[..i + 1][..i] == run[..i] && run[..i + 1][i] == run[i];
    assert After(sha256, run[..i + 1]) == Next(w, sha256, run[i]);
    assert code in w.codes;
    PrefixIsAdmissible(sha256, run, j);
    assert run[..j][..i + 1] == run[..i + 1];
    AbsentThroughRun(sha256, run[..j], i + 1, code);
  }

  /**
   The flow works for the honest: an accepted request by a caller not yet signed in, completed by a
   user within ten minutes and redeemed within five more by the same client with the verifier behind
   the challenge, gives tokens for that user with the nonce of the request.
   */
  lemma HonestFlowSucceeds(flow: Flow, sha256: string -> seq<Base64Url.byte>, config: Config, request: Request, uriParses: bool,
                           stateId: string, spare: string, userId: string, code: string, redemption: Redemption, t: int, u: int, v: int)
    requires config.enabled && AcceptsRequest(config, request) && request.challenge == Challenge(sha256, redemption.verifier)
    requires request.mode == "" || !IsLive(flow.states, request.clientState, t)
    requires ClientAuthenticates(config, redemption) && redemption.clientId == request.clientId
    requires redemption.redirectUri == request.redirectUri && redemption.code == code != ""
    requires userId in flow.users && t <= u < t + 2 * FIVE_MINUTES && u <= v < u + FIVE_MINUTES
    ensures var (asked, page) := Authorize(flow, config, request, "", uriParses, stateId, spare, t);
      var (completed, granted) := CompleteState(asked, stateId, userId, code, u);
      && page == Page && granted == Code(code)
      && Redeem(completed, sha256, config, redemption, v).1 == Tokens(userId, request.nonce)
  {
    var asked := Authorize(flow, config, request, "", uriParses, stateId, spare, t).0;
    assert IsLive(asked.states, stateId, u) && asked.states[stateId].value == StateOf(request);
    IssuedFlow(asked.(states := asked.states - {stateId}), PayloadOf(StateOf(request), userId), Some(stateId), code, u);
  }
}
