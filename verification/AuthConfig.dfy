/**
 The authentication settings: validation, the normaliser that every update passes through, and how
 settings survive a failed write and a restart.  Settings no rule looks at are kept as opaque text.
 */
module AuthConfig {
  import opened Wrappers
  import Text

  /* ---------- Settings ---------- */

  datatype Password = Password(
    enabled: bool,
    minLength: int,
    requireNumbers: bool,
    requireSymbols: bool,
    breachCheck: bool,
    breachFailOpen: bool)

  datatype Passkeys = Passkeys(enabled: bool, relyingPartyId: string, relyingPartyName: string)

  datatype Otp = Otp(enabled: bool, expiryMinutes: int)

  /** `None` is the absent list, which is not the empty one. */
  datatype Mfa = Mfa(enabled: bool, policy: string, riskTriggers: Option<seq<string>>, issuer: string)

  datatype Sessions = Sessions(accessSeconds: int, refreshSeconds: int, idleSeconds: int, single: bool)

  datatype Provider = Provider(enabled: bool, details: string)

  datatype Ui = Ui(
    branding: string,
    showSignUp: bool,
    showPassword: bool,
    showPasskeys: bool,
    showOAuth: bool,
    showEmailOtp: bool,
    showSmsOtp: bool)

  datatype Oidc = Oidc(enabled: bool, clients: Option<seq<string>>, resourceServers: Option<seq<string>>, ui: Ui)

  /** The three texts that decide whether templates count as missing, and the rest of them. */
  datatype Templates = Templates(first: string, second: string, third: string, details: string)

  datatype Dispatcher = Dispatcher(settings: string, templates: Templates)

  datatype RateLimiting = RateLimiting(enabled: bool, maxAttempts: int, windowSeconds: int, lockoutSeconds: int)

  datatype Cache = Cache(fastPath: bool, ttlSeconds: int)

  datatype BotProtection = BotProtection(
    enabled: bool,
    provider: string,
    secretKey: string,
    secretConfigured: bool,
    mode: string,
    failedAttempts: int)

  datatype Threat = Threat(bots: BotProtection, notifyOnNewDevice: bool, knownDevicesMaxDays: int)

  datatype Config = Config(
    password: Password,
    passkeys: Passkeys,
    emailOtp: Otp,
    smsOtp: Otp,
    mfa: Mfa,
    anonymous: bool,
    sessions: Sessions,
    oauth: Option<map<string, Provider>>,
    oidc: Oidc,
    email: Dispatcher,
    sms: Dispatcher,
    rateLimiting: RateLimiting,
    cache: Cache,
    threat: Threat)

  /** What the surrounding system supplies: the project name and the default dispatchers. */
  datatype Site = Site(projectName: string, email: Dispatcher, sms: Dispatcher)

  const RISK_TRIGGERS := ["new_device", "new_ip", "excessive_failed_attempts"]

  function DisplayName(site: Site): (name: string)
    ensures name != ""
  {
    if site.projectName == "" then "Layr Auth" else site.projectName
  }

  function Default(site: Site): (config: Config)
  {
    Config(
      Password(true, 8, true, false, false, true),
      Passkeys(true, "localhost", DisplayName(site)),
      Otp(false, 15),
      Otp(false, 15),
      Mfa(true, "always", Some(RISK_TRIGGERS), DisplayName(site)),
      true,
      Sessions(900, 2592000, 604800, false),
      Some(map[
        "google" := Provider(false, "google"),
        "github" := Provider(false, "github"),
        "apple" := Provider(false, "apple"),
        "discord" := Provider(false, "discord")]),
      Oidc(false, Some([]), Some([]), Ui("", false, true, true, false, false, false)),
      site.email,
      site.sms,
      RateLimiting(true, 5, 900, 900),
      Cache(true, 900),
      Threat(BotProtection(false, "turnstile", "", false, "adaptive", 5), true, 30))
  }

  /* ---------- Validation ---------- */

  const PROVIDERS := ["turnstile", "cloudflare", "recaptcha", "google", "hcaptcha"]

  predicate BotsAreValid(bots: BotProtection)
  {
    bots.enabled ==>
      && Text.Lower(Text.TrimSpace(bots.provider)) in PROVIDERS
      && (bots.secretKey != "" || bots.secretConfigured)
      && Text.Lower(Text.TrimSpace(bots.mode)) in ["", "always", "adaptive"]
  }

  predicate IsValid(config: Config)
  {
    && config.sessions.accessSeconds > 0 && config.sessions.refreshSeconds > 0 && config.sessions.idleSeconds > 0
    && config.password.minLength >= 0
    && BotsAreValid(config.threat.bots)
  }

  /* ---------- The normaliser ---------- */

  function Positive(value: int, otherwise: int): (r: int)
    requires otherwise > 0
    ensures r > 0
  {
    if value <= 0 then otherwise else value
  }

  function Named(text: string, otherwise: string): (r: string)
  {
    if text == "" then otherwise else text
  }

  function NormalPassword(password: Password): (r: Password)
  {
    password.(minLength := Positive(password.minLength, 8))
  }

  function NormalPasskeys(site: Site, passkeys: Passkeys): (r: Passkeys)
  {
    passkeys.(relyingPartyName := Named(passkeys.relyingPartyName, DisplayName(site)))
  }

  function NormalOtp(otp: Otp): (r: Otp)
  {
    otp.(expiryMinutes := Positive(otp.expiryMinutes, 15))
  }

  function NormalSessions(sessions: Sessions): (r: Sessions)
  {
    sessions.(accessSeconds := Positive(sessions.accessSeconds, 900), refreshSeconds := Positive(sessions.refreshSeconds, 2592000))
  }

  function NormalOidc(oidc: Oidc): (r: Oidc)
  {
    oidc.(clients := Some(OrNone(oidc.clients)), resourceServers := Some(OrNone(oidc.resourceServers)))
  }

  function NormalMfa(site: Site, mfa: Mfa): (r: Mfa)
  {
    var policy := Named(mfa.policy, "always");
    var noTriggers := mfa.riskTriggers.None? || mfa.riskTriggers.value == [];
    Mfa(mfa.enabled, policy, if policy == "adaptive" && noTriggers then Some(RISK_TRIGGERS) else mfa.riskTriggers, Named(mfa.issuer, DisplayName(site)))
  }

  function NormalRate(rate: RateLimiting): (r: RateLimiting)
  {
    RateLimiting(rate.enabled || rate.maxAttempts == 0, Positive(rate.maxAttempts, 5), Positive(rate.windowSeconds, 900), Positive(rate.lockoutSeconds, 900))
  }

  function NormalCache(cache: Cache): (r: Cache)
  {
    Cache(cache.fastPath || cache.ttlSeconds == 0, Positive(cache.ttlSeconds, 900))
  }

  function NormalThreat(threat: Threat): (r: Threat)
  {
    Threat(
      threat.bots.(mode := Named(threat.bots.mode, "adaptive"), failedAttempts := Positive(threat.bots.failedAttempts, 5)),
      threat.notifyOnNewDevice,
      Positive(threat.knownDevicesMaxDays, 30))
  }

  function NormalDispatcher(dispatcher: Dispatcher, otherwise: Dispatcher): (r: Dispatcher)
  {
    var t := dispatcher.templates;
    if t.first == "" && t.second == "" && t.third == "" then dispatcher.(templates := otherwise.templates) else dispatcher
  }

  function Normal(site: Site, config: Config): (r: Config)
  {
    Config(
      NormalPassword(config.password),
      NormalPasskeys(site, config.passkeys),
      NormalOtp(config.emailOtp),
      NormalOtp(config.smsOtp),
      NormalMfa(site, config.mfa),
      config.anonymous,
      NormalSessions(config.sessions),
      Some(OrEmpty(config.oauth)),
      NormalOidc(config.oidc),
      NormalDispatcher(config.email, site.email),
      NormalDispatcher(config.sms, site.sms),
      NormalRate(config.rateLimiting),
      NormalCache(config.cache),
      NormalThreat(config.threat))
  }

  function OrEmpty(providers: Option<map<string, Provider>>): (r: map<string, Provider>)
  {
    if providers.None? then map[] else providers.value
  }

  function OrNone(list: Option<seq<string>>): (r: seq<string>)
  {
    if list.None? then [] else list.value
  }

  predicate HasOAuth(config: Config)
  {
    exists key | key in OrEmpty(config.oauth) :: OrEmpty(config.oauth)[key].enabled
  }

  /** A method that comes on is shown, one that is off is not, and others are as the update says. */
  function Shows(before: bool, after: bool, asked: bool): (shown: bool)
  {
    after && (!before || asked)
  }

  function Shown(current: Config, updated: Config): (ui: Ui)
  {
    var ui := updated.oidc.ui;
    Ui(ui.branding,
      ui.showSignUp && updated.password.enabled,
      Shows(current.password.enabled, updated.password.enabled, ui.showPassword),
      Shows(current.passkeys.enabled, updated.passkeys.enabled, ui.showPasskeys),
      Shows(HasOAuth(current), HasOAuth(updated), ui.showOAuth),
      Shows(current.emailOtp.enabled, updated.emailOtp.enabled, ui.showEmailOtp),
      Shows(current.smsOtp.enabled, updated.smsOtp.enabled, ui.showSmsOtp))
  }

  function WithUi(config: Config, ui: Ui): (r: Config)
  {
    config.(oidc := config.oidc.(ui := ui))
  }

  /** The active settings after an update. */
  function Applied(site: Site, current: Config, updated: Config): (r: Config)
  {
    var normal := Normal(site, updated);
    WithUi(normal, Shown(current, normal))
  }

  /** Writing to the database and reading back: empty client and server lists come back absent. */
  function Reread(config: Config): (r: Config)
  {
    config.(oidc := config.oidc.(
      clients := if OrNone(config.oidc.clients) == [] then None else config.oidc.clients,
      resourceServers := if OrNone(config.oidc.resourceServers) == [] then None else config.oidc.resourceServers))
  }

  /* ---------- The manager ---------- */

  method AnyEnabled(providers: map<string, Provider>) returns (found: bool)
    ensures found == exists key | key in providers :: providers[key].enabled
  {
    var pending := providers.Keys;
    found := false;
    while pending != {}
      invariant pending <= providers.Keys
      invariant !found && forall key | key in providers && key !in pending :: !providers[key].enabled
      decreases |pending|
    {
      var key :| key in pending;
      if providers[key].enabled {
        found := true;
        break;
      }
      pending := pending - {key};
    }
  }

  method NormaliseMfa(site: Site, mfa: Mfa) returns (r: Mfa)
    ensures r == NormalMfa(site, mfa)
  {
    r := mfa;
    if r.issuer == "" {
      r := r.(issuer := DisplayName(site));
    }
    if r.policy == "" {
      r := r.(policy := "always");
    }
    if r.policy == "adaptive" && (r.riskTriggers.None? || |r.riskTriggers.value| == 0) {
      r := r.(riskTriggers := Some(RISK_TRIGGERS));
    }
  }

  method NormaliseLimits(rate: RateLimiting, cache: Cache) returns (r: RateLimiting, c: Cache)
    ensures r == NormalRate(rate) && c == NormalCache(cache)
  {
    r, c := rate, cache;
    if !r.enabled && r.maxAttempts == 0 {
      r := r.(enabled := true);
    }
    if r.maxAttempts <= 0 {
      r := r.(maxAttempts := 5);
    }
    if r.windowSeconds <= 0 {
      r := r.(windowSeconds := 900);
    }
    if r.lockoutSeconds <= 0 {
      r := r.(lockoutSeconds := 900);
    }
    if !c.fastPath && c.ttlSeconds == 0 {
      c := c.(fastPath := true);
    }
    if c.ttlSeconds <= 0 {
      c := c.(ttlSeconds := 900);
    }
  }

  method NormaliseThreat(threat: Threat) returns (r: Threat)
    ensures r == NormalThreat(threat)
  {
    r := threat;
    if r.knownDevicesMaxDays <= 0 {
      r := r.(knownDevicesMaxDays := 30);
    }
    if r.bots.mode == "" {
      r := r.(bots := r.bots.(mode := "adaptive"));
    }
    if r.bots.failedAttempts <= 0 {
      r := r.(bots := r.bots.(failedAttempts := 5));
    }
  }

  method NormaliseExpiries(sessions: Sessions, emailOtp: Otp, smsOtp: Otp) returns (s: Sessions, e: Otp, m: Otp)
    ensures s == NormalSessions(sessions) && e == NormalOtp(emailOtp) && m == NormalOtp(smsOtp)
  {
    s, e, m := sessions, emailOtp, smsOtp;
    if s.accessSeconds <= 0 {
      s := s.(accessSeconds := 900);
    }
    if s.refreshSeconds <= 0 {
      s := s.(refreshSeconds := 2592000);
    }
    if e.expiryMinutes <= 0 {
      e := e.(expiryMinutes := 15);
    }
    if m.expiryMinutes <= 0 {
      m := m.(expiryMinutes := 15);
    }
  }

  method NormaliseOidc(oidc: Oidc) returns (r: Oidc)
    ensures r == NormalOidc(oidc)
  {
    r := oidc;
    if r.clients.None? {
      r := r.(clients := Some([]));
    }
    if r.resourceServers.None? {
      r := r.(resourceServers := Some([]));
    }
  }

  method NormaliseDispatcher(dispatcher: Dispatcher, otherwise: Dispatcher) returns (r: Dispatcher)
    ensures r == NormalDispatcher(dispatcher, otherwise)
  {
    r := dispatcher;
    if r.templates.first == "" && r.templates.second == "" && r.templates.third == "" {
      r := r.(templates := otherwise.templates);
    }
  }

  method NormaliseCredentials(site: Site, password: Password, passkeys: Passkeys, oauth: Option<map<string, Provider>>)
    returns (p: Password, k: Passkeys, o: Option<map<string, Provider>>)
    ensures p == NormalPassword(password) && k == NormalPasskeys(site, passkeys) && o == Some(OrEmpty(oauth))
  {
    p, k, o := password, passkeys, oauth;
    if p.minLength <= 0 {
      p := p.(minLength := 8);
    }
    if k.relyingPartyName == "" {
      k := k.(relyingPartyName := DisplayName(site));
    }
    if o.None? {
      o := Some(map[]);
    }
  }

  method Normalise(site: Site, updated: Config) returns (r: Config)
    ensures r == Normal(site, updated)
  {
    var sessions, emailOtp, smsOtp := NormaliseExpiries(updated.sessions, updated.emailOtp, updated.smsOtp);
    var password, passkeys, oauth := NormaliseCredentials(site, updated.password, updated.passkeys, updated.oauth);
    var mfa := NormaliseMfa(site, updated.mfa);
    var threat := NormaliseThreat(updated.threat);
    var oidc := NormaliseOidc(updated.oidc);
    var rateLimiting, cache := NormaliseLimits(updated.rateLimiting, updated.cache);
    var email := NormaliseDispatcher(updated.email, site.email);
    var sms := NormaliseDispatcher(updated.sms, site.sms);
    r := Config(password, passkeys, emailOtp, smsOtp, mfa, updated.anonymous, sessions, oauth, oidc, email, sms, rateLimiting, cache, threat);
  }

  method ShowMethods(current: Config, updated: Config) returns (ui: Ui)
    ensures ui == Shown(current, updated)
  {
    var asked := updated.oidc.ui;
    var showSignUp, showPassword, showPasskeys := asked.showSignUp, asked.showPassword, asked.showPasskeys;
    var showEmailOtp, showSmsOtp, showOAuth := asked.showEmailOtp, asked.showSmsOtp, asked.showOAuth;
    var hasOAuthCurrent := AnyEnabled(OrEmpty(current.oauth));
    var hasOAuthNew := AnyEnabled(OrEmpty(updated.oauth));
    if !current.password.enabled && updated.password.enabled {
      showPassword := true;
    }
    if !current.passkeys.enabled && updated.passkeys.enabled {
      showPasskeys := true;
    }
    if !current.emailOtp.enabled && updated.emailOtp.enabled {
      showEmailOtp := true;
    }
    if !current.smsOtp.enabled && updated.smsOtp.enabled {
      showSmsOtp := true;
    }
    if !hasOAuthCurrent && hasOAuthNew {
      showOAuth := true;
    }
    if !updated.password.enabled {
      showPassword, showSignUp := false, false;
    }
    if !updated.passkeys.enabled {
      showPasskeys := false;
    }
    if !updated.emailOtp.enabled {
      showEmailOtp := false;
    }
    if !updated.smsOtp.enabled {
      showSmsOtp := false;
    }
    if !hasOAuthNew {
      showOAuth := false;
    }
    ui := Ui(asked.branding, showSignUp, showPassword, showPasskeys, showOAuth, showEmailOtp, showSmsOtp);
  }

  class ConfigManager {
    const site: Site
    var config: Config
    var stored: Option<Config>

    constructor (site: Site, stored: Option<Config>)
      ensures this.site == site && config == Default(site) && this.stored == stored
    {
      this.site, config, this.stored := site, Default(site), stored;
    }

    method SetMemoryConfig(updated: Config)
      modifies this
      ensures config == Applied(site, old(config), updated) && stored == old(stored)
    {
      var normal := Normalise(site, updated);
      var ui := ShowMethods(config, normal);
      config := WithUi(normal, ui);
    }

    /** `persists` says whether the write to the database goes through. */
    method Set(updated: Config, persists: bool) returns (ok: bool)
      modifies this
      ensures (Snapshot(), ok) == SetTo(site, old(Snapshot()), updated, persists)
    {
      if !IsValid(updated) {
        return false;
      }
      var previous := config;
      SetMemoryConfig(updated);
      if !persists {
        SetMemoryConfig(previous);
        return false;
      }
      stored := Some(Reread(config));
      return true;
    }

    /** With nothing stored the defaults are saved; stored settings have to be valid. */
    method Load(persists: bool) returns (ok: bool)
      modifies this
      ensures (Snapshot(), ok) == Loaded(site, old(Snapshot()), persists)
    {
      if stored.None? {
        ok := Set(Default(site), persists);
        return;
      }
      if !IsValid(stored.value) {
        return false;
      }
      SetMemoryConfig(stored.value);
      return true;
    }

    function Snapshot(): (s: State)
      reads this
    {
      State(config, stored)
    }
  }

  datatype State = State(config: Config, stored: Option<Config>)

  function SetTo(site: Site, s: State, updated: Config, persists: bool): (r: (State, bool))
  {
    if !IsValid(updated) then (s, false)
    else
      var active := Applied(site, s.config, updated);
      if persists then (State(active, Some(Reread(active))), true)
      else (s.(config := Applied(site, active, s.config)), false)
  }

  function Loaded(site: Site, s: State, persists: bool): (r: (State, bool))
  {
    if s.stored.None? then SetTo(site, s, Default(site), persists)
    else if !IsValid(s.stored.value) then (s, false)
    else (s.(config := Applied(site, s.config, s.stored.value)), true)
  }

  /* ---------- Every update ---------- */

  predicate ShowsOnlyEnabled(config: Config)
  {
    var ui := config.oidc.ui;
    && (ui.showPassword || ui.showSignUp ==> config.password.enabled)
    && (ui.showPasskeys ==> config.passkeys.enabled)
    && (ui.showEmailOtp ==> config.emailOtp.enabled)
    && (ui.showSmsOtp ==> config.smsOtp.enabled)
    && (ui.showOAuth ==> HasOAuth(config))
  }

  /** The normaliser has nothing left to do. */
  predicate IsNormal(site: Site, config: Config)
  {
    Normal(site, config) == config && ShowsOnlyEnabled(config)
  }

  lemma NormalIsIdempotent(site: Site, config: Config)
    ensures Normal(site, Normal(site, config)) == Normal(site, config)
  {
    assert NormalMfa(site, NormalMfa(site, config.mfa)) == NormalMfa(site, config.mfa);
  }

  lemma NormalIgnoresUi(site: Site, config: Config, ui: Ui)
    ensures Normal(site, WithUi(config, ui)) == WithUi(Normal(site, config), ui)
    ensures HasOAuth(WithUi(config, ui)) == HasOAuth(config)
  {
  }

  /** Whatever the settings were and whatever the update says, only enabled methods are shown afterwards. */
  lemma AppliedIsNormal(site: Site, current: Config, updated: Config)
    ensures IsNormal(site, Applied(site, current, updated))
  {
    var normal := Normal(site, updated);
    NormalIsIdempotent(site, updated);
    NormalIgnoresUi(site, normal, Shown(current, normal));
  }

  lemma DefaultIsNormal(site: Site)
    ensures IsNormal(site, Default(site)) && IsValid(Default(site)) && !HasOAuth(Default(site))
  {
    var providers := Default(site).oauth.value;
    assert forall key | key in providers :: !providers[key].enabled;
  }

  /** A positive number is kept and any other gives way to the default. */
  predicate KeptOrDefault(given: int, fallback: int, active: int)
  {
    active == if given > 0 then given else fallback
  }

  predicate TextKeptOrDefault(given: string, fallback: string, active: string)
  {
    active == if given != "" then given else fallback
  }

  /** Numbers and names of an update survive it unless they are missing; then the default settings fill in. */
  lemma AppliedKeepsLimits(site: Site, current: Config, updated: Config)
    ensures var r, d := Applied(site, current, updated), Default(site);
      && KeptOrDefault(updated.password.minLength, d.password.minLength, r.password.minLength)
      && TextKeptOrDefault(updated.passkeys.relyingPartyName, d.passkeys.relyingPartyName, r.passkeys.relyingPartyName)
      && KeptOrDefault(updated.emailOtp.expiryMinutes, d.emailOtp.expiryMinutes, r.emailOtp.expiryMinutes)
      && KeptOrDefault(updated.smsOtp.expiryMinutes, d.smsOtp.expiryMinutes, r.smsOtp.expiryMinutes)
      && KeptOrDefault(updated.sessions.accessSeconds, d.sessions.accessSeconds, r.sessions.accessSeconds)
      && KeptOrDefault(updated.sessions.refreshSeconds, d.sessions.refreshSeconds, r.sessions.refreshSeconds)
      && KeptOrDefault(updated.rateLimiting.maxAttempts, d.rateLimiting.maxAttempts, r.rateLimiting.maxAttempts)
      && KeptOrDefault(updated.rateLimiting.windowSeconds, d.rateLimiting.windowSeconds, r.rateLimiting.windowSeconds)
      && KeptOrDefault(updated.rateLimiting.lockoutSeconds, d.rateLimiting.lockoutSeconds, r.rateLimiting.lockoutSeconds)
      && KeptOrDefault(updated.cache.ttlSeconds, d.cache.ttlSeconds, r.cache.ttlSeconds)
      && KeptOrDefault(updated.threat.knownDevicesMaxDays, d.threat.knownDevicesMaxDays, r.threat.knownDevicesMaxDays)
      && KeptOrDefault(updated.threat.bots.failedAttempts, d.threat.bots.failedAttempts, r.threat.bots.failedAttempts)
      && TextKeptOrDefault(updated.threat.bots.mode, d.threat.bots.mode, r.threat.bots.mode)
      && TextKeptOrDefault(updated.mfa.policy, d.mfa.policy, r.mfa.policy)
      && TextKeptOrDefault(updated.mfa.issuer, d.mfa.issuer, r.mfa.issuer)
  {
  }

  /** Everything else in an update is taken over; the limiter and the fast path can only be switched off with a number beside them. */
  lemma AppliedKeepsSwitches(site: Site, current: Config, updated: Config)
    ensures var r := Applied(site, current, updated);
      && r.password == updated.password.(minLength := r.password.minLength)
      && r.passkeys == updated.passkeys.(relyingPartyName := r.passkeys.relyingPartyName)
      && r.emailOtp.enabled == updated.emailOtp.enabled && r.smsOtp.enabled == updated.smsOtp.enabled
      && r.anonymous == updated.anonymous && r.mfa.enabled == updated.mfa.enabled
      && r.sessions == updated.sessions.(accessSeconds := r.sessions.accessSeconds, refreshSeconds := r.sessions.refreshSeconds)
      && (updated.oauth.Some? ==> r.oauth == updated.oauth)
      && r.oidc.enabled == updated.oidc.enabled && r.oidc.ui.branding == updated.oidc.ui.branding
      && (updated.oidc.clients.Some? ==> r.oidc.clients == updated.oidc.clients)
      && (updated.oidc.resourceServers.Some? ==> r.oidc.resourceServers == updated.oidc.resourceServers)
      && (r.rateLimiting.enabled <==> updated.rateLimiting.enabled || updated.rateLimiting.maxAttempts == 0)
      && (r.cache.fastPath <==> updated.cache.fastPath || updated.cache.ttlSeconds == 0)
      && r.threat.notifyOnNewDevice == updated.threat.notifyOnNewDevice
      && r.threat.bots == updated.threat.bots.(mode := r.threat.bots.mode, failedAttempts := r.threat.bots.failedAttempts)
  {
  }

  /** Given risk triggers and message templates survive; the missing ones come from the defaults, triggers only where the policy needs them. */
  lemma AppliedKeepsLists(site: Site, current: Config, updated: Config)
    ensures var r, d := Applied(site, current, updated), Default(site);
      && (updated.mfa.riskTriggers.Some? && updated.mfa.riskTriggers.value != [] ==> r.mfa.riskTriggers == updated.mfa.riskTriggers)
      && (updated.mfa.riskTriggers in [None, Some([])] ==>
            r.mfa.riskTriggers == if updated.mfa.policy == "adaptive" then d.mfa.riskTriggers else updated.mfa.riskTriggers)
      && r.email.settings == updated.email.settings && r.sms.settings == updated.sms.settings
      && r.email.templates == (if Missing(updated.email.templates) then d.email.templates else updated.email.templates)
      && r.sms.templates == (if Missing(updated.sms.templates) then d.sms.templates else updated.sms.templates)
  {
  }

  predicate Missing(templates: Templates)
  {
    templates.first == "" && templates.second == "" && templates.third == ""
  }

  /** An update is refused, and then changes nothing but what a failed write leaves, exactly for these settings. */
  lemma SetAcceptsExactly(site: Site, s: State, updated: Config, persists: bool)
    ensures var (next, ok) := SetTo(site, s, updated, persists);
      var bots := updated.threat.bots;
      var sound := && updated.sessions.accessSeconds > 0 && updated.sessions.refreshSeconds > 0 && updated.sessions.idleSeconds > 0
                   && updated.password.minLength >= 0
                   && (bots.enabled ==>
                         && Text.Lower(Text.TrimSpace(bots.provider)) in ["turnstile", "cloudflare", "recaptcha", "google", "hcaptcha"]
                         && (bots.secretKey != "" || bots.secretConfigured)
                         && Text.Lower(Text.TrimSpace(bots.mode)) in ["", "always", "adaptive"]);
      (ok <==> sound && persists) && (!sound ==> next == s) && (!ok ==> next.stored == s.stored)
  {
  }

  /** Applying the active settings again changes nothing. */
  lemma ReapplyIsNoOp(site: Site, config: Config)
    requires IsNormal(site, config)
    ensures Applied(site, config, config) == config
  {
  }

  /** `config` with the given methods shown whatever it says. */
  function AlsoShowing(config: Config, password: bool, passkeys: bool, oauth: bool, emailOtp: bool, smsOtp: bool): (r: Config)
  {
    var ui := config.oidc.ui;
    WithUi(config, Ui(ui.branding, ui.showSignUp, ui.showPassword || password, ui.showPasskeys || passkeys,
      ui.showOAuth || oauth, ui.showEmailOtp || emailOtp, ui.showSmsOtp || smsOtp))
  }

  /** `config` with the methods shown that it enables and `other` does not. */
  function Restored(config: Config, other: Config): (r: Config)
  {
    AlsoShowing(config,
      config.password.enabled && !other.password.enabled,
      config.passkeys.enabled && !other.passkeys.enabled,
      HasOAuth(config) && !HasOAuth(other),
      config.emailOtp.enabled && !other.emailOtp.enabled,
      config.smsOtp.enabled && !other.smsOtp.enabled)
  }

  /** The active settings come back from another state except that methods off there come back shown. */
  lemma ReapplyOverOther(site: Site, other: Config, config: Config)
    requires IsNormal(site, config)
    ensures Applied(site, other, config) == Restored(config, other)
  {
  }

  /** An update decides which methods are enabled; the normaliser does not. */
  lemma AppliedKeepsMethods(site: Site, current: Config, updated: Config, config: Config)
    ensures Restored(config, Applied(site, current, updated)) == Restored(config, updated)
  {
  }

  /* ---------- Runs ---------- */

  datatype Step = SetStep(updated: Config, persists: bool) | LoadStep(persists: bool) | Restart

  function Next(site: Site, s: State, step: Step): (r: State)
  {
    match step
    case SetStep(updated, persists) => SetTo(site, s, updated, persists).0
    case LoadStep(persists) => Loaded(site, s, persists).0
    case Restart => s.(config := Default(site))
  }

  function After(site: Site, run: seq<Step>): (s: State)
  {
    if run == [] then State(Default(site), None) else Next(site, After(site, run[..|run| - 1]), run[|run| - 1])
  }

  ghost predicate Inv(site: Site, s: State)
  {
    && IsNormal(site, s.config)
    && (s.stored.Some? ==> exists active :: IsNormal(site, active) && IsValid(active) && s.stored.value == Reread(active))
  }

  /** Normalising keeps valid settings valid, so what is stored can be loaded. */
  lemma AppliedIsValid(site: Site, current: Config, updated: Config)
    requires IsValid(updated)
    ensures IsValid(Applied(site, current, updated)) && IsValid(Reread(Applied(site, current, updated)))
  {
    if updated.threat.bots.mode == "" {
      LowerOfAdaptive();
    }
  }

  lemma LowerOfAdaptive()
    ensures Text.Lower(Text.TrimSpace("adaptive")) == "adaptive"
  {
    Text.TrimOfWord("adaptive");
    Text.LowerOfWord("adaptive");
  }

  lemma {:induction false} RunKeepsInv(site: Site, run: seq<Step>)
    ensures Inv(site, After(site, run))
  {
    if run == [] {
      DefaultIsNormal(site);
    } else {
      RunKeepsInv(site, run[..|run| - 1]);
      StepKeepsInv(site, After(site, run[..|run| - 1]), run[|run| - 1]);
    }
  }

  lemma StepKeepsInv(site: Site, s: State, step: Step)
    requires Inv(site, s)
    ensures Inv(site, Next(site, s, step))
  {
    DefaultIsNormal(site);
    match step
    case SetStep(updated, persists) => SetKeepsInv(site, s, updated, persists);
    case LoadStep(persists) =>
      if s.stored.None? {
        SetKeepsInv(site, s, Default(site), persists);
      } else {
        AppliedIsNormal(site, s.config, s.stored.value);
      }
    case Restart =>
  }

  lemma SetKeepsInv(site: Site, s: State, updated: Config, persists: bool)
    requires Inv(site, s)
    ensures Inv(site, SetTo(site, s, updated, persists).0)
  {
    if IsValid(updated) {
      var active := Applied(site, s.config, updated);
      AppliedIsNormal(site, s.config, updated);
      AppliedIsValid(site, s.config, updated);
      AppliedIsNormal(site, active, s.config);
      assert IsNormal(site, active) && IsValid(active) && Reread(active) == Reread(active);
    }
  }

  /* ---------- Main results ---------- */

  /** In every reachable state only enabled methods are shown, and re-applying the settings is a no-op. */
  lemma ReachableIsSettled(site: Site, run: seq<Step>)
    ensures var config := After(site, run).config;
      ShowsOnlyEnabled(config) && Applied(site, config, config) == config
  {
    RunKeepsInv(site, run);
    ReapplyIsNoOp(site, After(site, run).config);
  }

  /**
   A valid update whose write fails leaves the previous settings, except that each method the
   rejected update would have turned off is shown again.
   */
  lemma FailedSetRestores(site: Site, run: seq<Step>, updated: Config)
    requires IsValid(updated)
    ensures var s := After(site, run);
      SetTo(site, s, updated, false) == (s.(config := Restored(s.config, updated)), false)
  {
    RunKeepsInv(site, run);
    var s := After(site, run);
    ReapplyOverOther(site, Applied(site, s.config, updated), s.config);
    AppliedKeepsMethods(site, s.config, updated, s.config);
  }

  lemma RereadIsHarmless(site: Site, current: Config, config: Config)
    ensures Applied(site, current, Reread(config)) == Applied(site, current, config)
    ensures IsValid(Reread(config)) == IsValid(config)
  {
    assert Normal(site, Reread(config)) == Normal(site, config);
  }

  /**
   After a restart, loading brings back what the last successful update left in memory, except that
   Email OTP, SMS OTP and OAuth are shown whenever they are enabled.
   */
  lemma RestartReloads(site: Site, run: seq<Step>, updated: Config, persists: bool)
    requires IsValid(updated)
    ensures var saved := SetTo(site, After(site, run), updated, true).0;
      var c := saved.config;
      Loaded(site, saved.(config := Default(site)), persists) ==
        (saved.(config := AlsoShowing(c, false, false, HasOAuth(c), c.emailOtp.enabled, c.smsOtp.enabled)), true)
  {
    var s := After(site, run);
    var active := Applied(site, s.config, updated);
    AppliedIsNormal(site, s.config, updated);
    AppliedIsValid(site, s.config, updated);
    RereadIsHarmless(site, Default(site), active);
    DefaultIsNormal(site);
    ReapplyOverOther(site, Default(site), active);
  }

  /** Whatever is stored in any run can be loaded. */
  lemma StoredLoads(site: Site, run: seq<Step>, persists: bool)
    requires After(site, run).stored.Some?
    ensures Loaded(site, After(site, run), persists).1
  {
    RunKeepsInv(site, run);
    var s := After(site, run);
    var active :| IsNormal(site, active) && IsValid(active) && s.stored.value == Reread(active);
    RereadIsHarmless(site, s.config, active);
  }
}
