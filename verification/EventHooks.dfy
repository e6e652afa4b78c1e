/**
 Event hooks: the definitions kept by Create and Update, which hooks an event reaches, and the retry
 loop of a delivery.  Function-name and URL checks, encryption and the outcome of each attempt are parameters.
 */
module EventHooks {
  import opened Wrappers
  import Text
  import EventBus

  const DEFAULT_RETRIES := 3
  const MAX_RETRIES := 10
  const DEFAULT_TIMEOUT_SECONDS := 10
  const MAX_TIMEOUT_SECONDS := 60

  datatype Hook = Hook(
    name: string,
    driver: string,
    sqlFunctionName: Option<string>,
    httpTargetUrl: Option<string>,
    secret: Option<string>,
    eventTypes: seq<string>,
    isEnabled: bool,
    maxRetries: int,
    timeoutSeconds: int)

  datatype CreateInput = CreateInput(
    name: string,
    driver: string,
    sqlFunctionName: Option<string>,
    httpTargetUrl: Option<string>,
    signingSecret: string,
    eventTypes: seq<string>,
    isEnabled: Option<bool>,
    maxRetries: Option<int>,
    timeoutSeconds: Option<int>)

  datatype UpdateInput = UpdateInput(
    name: Option<string>,
    driver: Option<string>,
    sqlFunctionName: Option<string>,
    httpTargetUrl: Option<string>,
    signingSecret: Option<string>,
    eventTypes: Option<seq<string>>,
    isEnabled: Option<bool>,
    maxRetries: Option<int>,
    timeoutSeconds: Option<int>)

  datatype Checks = Checks(isIdentifier: string -> bool, isTarget: string -> bool, encrypts: string -> Option<string>)

  /** The hook has exactly the target its driver needs, and its limits are in range. */
  predicate IsValid(hook: Hook)
  {
    && hook.name != "" && 0 <= hook.maxRetries <= MAX_RETRIES && 1 <= hook.timeoutSeconds <= MAX_TIMEOUT_SECONDS
    && (|| (hook.driver == "sql" && Given(hook.sqlFunctionName) && hook.httpTargetUrl.None? && hook.secret.None?)
        || (hook.driver == "http" && Given(hook.httpTargetUrl) && hook.sqlFunctionName.None?))
  }

  /** The targets the hook has were accepted by their checks. */
  predicate IsChecked(checks: Checks, hook: Hook)
  {
    && (hook.sqlFunctionName.Some? ==> checks.isIdentifier(hook.sqlFunctionName.value))
    && (hook.httpTargetUrl.Some? ==> checks.isTarget(hook.httpTargetUrl.value))
  }

  predicate Given(text: Option<string>)
  {
    text.Some? && text.value != ""
  }

  /* ---------- Create and Update ---------- */

  function Trimmed(text: Option<string>): (r: string)
  {
    if text.None? then "" else Text.TrimSpace(text.value)
  }

  function Clamp(value: int, low: int, high: int): (r: int)
    requires low <= high
    ensures low <= r <= high
  {
    if value < low then low else if value > high then high else value
  }

  function Retries(given: Option<int>, otherwise: int): (r: int)
  {
    if given.None? then otherwise else Clamp(given.value, 0, MAX_RETRIES)
  }

  function Timeout(given: Option<int>, otherwise: int): (r: int)
  {
    if given.None? then otherwise else Clamp(given.value, 1, MAX_TIMEOUT_SECONDS)
  }

  function OrElse<T>(given: Option<T>, otherwise: T): (r: T)
  {
    if given.None? then otherwise else given.value
  }

  predicate NoBlank(patterns: seq<string>)
  {
    forall pattern | pattern in patterns :: Text.TrimSpace(pattern) != ""
  }

  /** The target fields of a new hook: function name, URL and encrypted secret. */
  function CreatedTarget(checks: Checks, driver: string, input: CreateInput): (r: Result<(Option<string>, Option<string>, Option<string>)>)
  {
    var sqlName, url := Trimmed(input.sqlFunctionName), Trimmed(input.httpTargetUrl);
    if driver == "sql" then
      if sqlName == "" then Err("sql_function_name is required")
      else if !checks.isIdentifier(sqlName) then Err("invalid sql_function_name")
      else if url != "" then Err("http_target_url must not be provided")
      else if input.signingSecret != "" then Err("signing_secret must not be provided")
      else Ok((Some(sqlName), None, None))
    else if driver == "http" then
      if url == "" then Err("http_target_url is required")
      else if !checks.isTarget(url) then Err("invalid http_target_url")
      else if sqlName != "" then Err("sql_function_name must not be provided")
      else if input.signingSecret == "" then Ok((None, Some(url), None))
      else if checks.encrypts(input.signingSecret).None? then Err("failed to encrypt signing secret")
      else Ok((None, Some(url), checks.encrypts(input.signingSecret)))
    else Err("invalid driver")
  }

  function Created(checks: Checks, input: CreateInput): (r: Result<Hook>)
  {
    var name, driver := Text.TrimSpace(input.name), Text.Lower(Text.TrimSpace(input.driver));
    if name == "" then Err("name is required")
    else
      var target := CreatedTarget(checks, driver, input);
      if target.Err? then Err(target.reason)
      else if input.eventTypes == [] then Err("at least one event_type pattern is required")
      else if !NoBlank(input.eventTypes) then Err("event_types cannot contain empty patterns")
      else Ok(Hook(name, driver, target.value.0, target.value.1, target.value.2, input.eventTypes,
        OrElse(input.isEnabled, true), Retries(input.maxRetries, DEFAULT_RETRIES), Timeout(input.timeoutSeconds, DEFAULT_TIMEOUT_SECONDS)))
  }

  /** An optional text replaces the current one: blank clears it, anything else has to pass the check. */
  function Replaced(current: Option<string>, given: Option<string>, passes: string -> bool): (r: Result<Option<string>>)
  {
    if given.None? then Ok(current)
    else if Text.TrimSpace(given.value) == "" then Ok(None)
    else if !passes(Text.TrimSpace(given.value)) then Err("invalid target")
    else Ok(Some(Text.TrimSpace(given.value)))
  }

  function ReplacedSecret(checks: Checks, current: Option<string>, given: Option<string>): (r: Result<Option<string>>)
  {
    if given.None? then Ok(current)
    else if Text.TrimSpace(given.value) == "" then Ok(None)
    else if checks.encrypts(Text.TrimSpace(given.value)).None? then Err("failed to encrypt signing secret")
    else Ok(checks.encrypts(Text.TrimSpace(given.value)))
  }

  function UpdatedTarget(checks: Checks, hook: Hook, driver: string, input: UpdateInput): (r: Result<(Option<string>, Option<string>, Option<string>)>)
  {
    var sqlName := Replaced(hook.sqlFunctionName, input.sqlFunctionName, checks.isIdentifier);
    var url := Replaced(hook.httpTargetUrl, input.httpTargetUrl, checks.isTarget);
    var secret := ReplacedSecret(checks, hook.secret, input.signingSecret);
    if sqlName.Err? then Err(sqlName.reason)
    else if url.Err? then Err(url.reason)
    else if secret.Err? then Err(secret.reason)
    else if driver == "sql" then
      if Given(sqlName.value) then Ok((sqlName.value, None, None)) else Err("sql_function_name is required")
    else if driver == "http" then
      if Given(url.value) then Ok((None, url.value, secret.value)) else Err("http_target_url is required")
    else Ok((sqlName.value, url.value, secret.value))
  }

  function Updated(checks: Checks, hook: Hook, input: UpdateInput): (r: Result<Hook>)
  {
    var name := if input.name.None? then hook.name else Text.TrimSpace(input.name.value);
    var driver := if input.driver.None? then hook.driver else Text.Lower(Text.TrimSpace(input.driver.value));
    if input.name.Some? && name == "" then Err("name cannot be empty")
    else if input.driver.Some? && driver != "sql" && driver != "http" then Err("invalid driver")
    else
      var target := UpdatedTarget(checks, hook, driver, input);
      if target.Err? then Err(target.reason)
      else Ok(Hook(name, driver, target.value.0, target.value.1, target.value.2,
        OrElse(input.eventTypes, hook.eventTypes), OrElse(input.isEnabled, hook.isEnabled),
        Retries(input.maxRetries, hook.maxRetries), Timeout(input.timeoutSeconds, hook.timeoutSeconds)))
  }

  /** What a new hook takes over from the request, what it is given by default, and what its driver demands. */
  lemma CreatedIs(checks: Checks, input: CreateInput)
    requires Created(checks, input).Ok?
    ensures var hook := Created(checks, input).value;
      && hook.name == Text.TrimSpace(input.name) != "" && hook.driver == Text.Lower(Text.TrimSpace(input.driver))
      && hook.eventTypes == input.eventTypes != [] && NoBlank(input.eventTypes)
      && (hook.isEnabled <==> input.isEnabled != Some(false))
      && (input.maxRetries == None ==> hook.maxRetries == 3)
      && (input.maxRetries.Some? && 0 <= input.maxRetries.value <= 10 ==> hook.maxRetries == input.maxRetries.value)
      && (input.timeoutSeconds == None ==> hook.timeoutSeconds == 10)
      && (input.timeoutSeconds.Some? && 1 <= input.timeoutSeconds.value <= 60 ==> hook.timeoutSeconds == input.timeoutSeconds.value)
      && (hook.driver == "sql" ==>
            && input.sqlFunctionName.Some? && hook.sqlFunctionName == Some(Text.TrimSpace(input.sqlFunctionName.value))
            && (input.httpTargetUrl.Some? ==> Text.TrimSpace(input.httpTargetUrl.value) == "") && input.signingSecret == "")
      && (hook.driver == "http" ==>
            && input.httpTargetUrl.Some? && hook.httpTargetUrl == Some(Text.TrimSpace(input.httpTargetUrl.value))
            && (input.sqlFunctionName.Some? ==> Text.TrimSpace(input.sqlFunctionName.value) == "")
            && hook.secret == (if input.signingSecret == "" then None else checks.encrypts(input.signingSecret)))
  {
  }

  /** An update that gives nothing leaves a valid hook as it is. */
  lemma EmptyUpdateKeeps(checks: Checks, hook: Hook)
    requires IsValid(hook)
    ensures Updated(checks, hook, UpdateInput(None, None, None, None, None, None, None, None, None)) == Ok(hook)
  {
  }

  /** What an update gives is taken over; what it leaves out stays. */
  lemma UpdatedIs(checks: Checks, hook: Hook, input: UpdateInput)
    requires Updated(checks, hook, input).Ok?
    ensures var next := Updated(checks, hook, input).value;
      && next.name == (if input.name.Some? then Text.TrimSpace(input.name.value) else hook.name)
      && next.driver == (if input.driver.Some? then Text.Lower(Text.TrimSpace(input.driver.value)) else hook.driver)
      && next.eventTypes == (if input.eventTypes.Some? then input.eventTypes.value else hook.eventTypes)
      && next.isEnabled == (if input.isEnabled.Some? then input.isEnabled.value else hook.isEnabled)
      && (input.maxRetries == None ==> next.maxRetries == hook.maxRetries)
      && (input.maxRetries.Some? && 0 <= input.maxRetries.value <= 10 ==> next.maxRetries == input.maxRetries.value)
      && (input.timeoutSeconds == None ==> next.timeoutSeconds == hook.timeoutSeconds)
      && (input.timeoutSeconds.Some? && 1 <= input.timeoutSeconds.value <= 60 ==> next.timeoutSeconds == input.timeoutSeconds.value)
      && (next.driver == "sql" && input.sqlFunctionName.Some? ==> next.sqlFunctionName == Some(Text.TrimSpace(input.sqlFunctionName.value)))
      && (next.driver == "sql" && input.sqlFunctionName == None ==> next.sqlFunctionName == hook.sqlFunctionName)
      && (next.driver == "http" && input.httpTargetUrl.Some? ==> next.httpTargetUrl == Some(Text.TrimSpace(input.httpTargetUrl.value)))
      && (next.driver == "http" && input.httpTargetUrl == None ==> next.httpTargetUrl == hook.httpTargetUrl)
  {
  }

  method AllPatternsGiven(patterns: seq<string>) returns (ok: bool)
    ensures ok == NoBlank(patterns)
  {
    for i := 0 to |patterns|
      invariant forall k | 0 <= k < i :: Text.TrimSpace(patterns[k]) != ""
    {
      if Text.TrimSpace(patterns[i]) == "" {
        assert patterns[i] in patterns;
        return false;
      }
    }
    return true;
  }

  method CheckTarget(checks: Checks, driver: string, input: CreateInput)
    returns (r: Result<(Option<string>, Option<string>, Option<string>)>)
    ensures r == CreatedTarget(checks, driver, input)
  {
    if driver != "sql" && driver != "http" {
      return Err("invalid driver");
    }
    if driver == "sql" {
      if input.sqlFunctionName.None? || Text.TrimSpace(input.sqlFunctionName.value) == "" {
        return Err("sql_function_name is required");
      }
      var trimmedFunction := Text.TrimSpace(input.sqlFunctionName.value);
      if !checks.isIdentifier(trimmedFunction) {
        return Err("invalid sql_function_name");
      }
      if input.httpTargetUrl.Some? && Text.TrimSpace(input.httpTargetUrl.value) != "" {
        return Err("http_target_url must not be provided");
      }
      if input.signingSecret != "" {
        return Err("signing_secret must not be provided");
      }
      return Ok((Some(trimmedFunction), None, None));
    }
    if input.httpTargetUrl.None? || Text.TrimSpace(input.httpTargetUrl.value) == "" {
      return Err("http_target_url is required");
    }
    var trimmedUrl := Text.TrimSpace(input.httpTargetUrl.value);
    if !checks.isTarget(trimmedUrl) {
      return Err("invalid http_target_url");
    }
    if input.sqlFunctionName.Some? && Text.TrimSpace(input.sqlFunctionName.value) != "" {
      return Err("sql_function_name must not be provided");
    }
    var secret := None;
    if input.signingSecret != "" {
      secret := checks.encrypts(input.signingSecret);
      if secret.None? {
        return Err("failed to encrypt signing secret");
      }
    }
    return Ok((None, Some(trimmedUrl), secret));
  }

  method ReplaceText(current: Option<string>, given: Option<string>, passes: string -> bool) returns (r: Result<Option<string>>)
    ensures r == Replaced(current, given, passes)
  {
    var text := current;
    if given.Some? {
      var trimmed := Text.TrimSpace(given.value);
      if trimmed != "" {
        if !passes(trimmed) {
          return Err("invalid target");
        }
        text := Some(trimmed);
      } else {
        text := None;
      }
    }
    return Ok(text);
  }

  /** The target fields of an updated hook, each replaced, then the driver's own required and the other's cleared. */
  method ReplaceTarget(checks: Checks, current: Hook, driver: string, input: UpdateInput)
    returns (r: Result<(Option<string>, Option<string>, Option<string>)>)
    ensures r == UpdatedTarget(checks, current, driver, input)
  {
    var replacedName := ReplaceText(current.sqlFunctionName, input.sqlFunctionName, checks.isIdentifier);
    if replacedName.Err? {
      return Err(replacedName.reason);
    }
    var replacedUrl := ReplaceText(current.httpTargetUrl, input.httpTargetUrl, checks.isTarget);
    if replacedUrl.Err? {
      return Err(replacedUrl.reason);
    }
    var sqlFunctionName, httpTargetUrl := replacedName.value, replacedUrl.value;
    var secret := current.secret;
    if input.signingSecret.Some? {
      var secretText := Text.TrimSpace(input.signingSecret.value);
      if secretText != "" {
        secret := checks.encrypts(secretText);
        if secret.None? {
          return Err("failed to encrypt signing secret");
        }
      } else {
        secret := None;
      }
    }
    if driver == "sql" {
      if sqlFunctionName.None? || sqlFunctionName.value == "" {
        return Err("sql_function_name is required");
      }
      httpTargetUrl, secret := None, None;
    } else if driver == "http" {
      if httpTargetUrl.None? || httpTargetUrl.value == "" {
        return Err("http_target_url is required");
      }
      sqlFunctionName := None;
    }
    return Ok((sqlFunctionName, httpTargetUrl, secret));
  }

  method ReplaceRest(current: Hook, input: UpdateInput)
    returns (eventTypes: seq<string>, isEnabled: bool, maxRetries: int, timeoutSeconds: int)
    ensures eventTypes == OrElse(input.eventTypes, current.eventTypes) && isEnabled == OrElse(input.isEnabled, current.isEnabled)
    ensures maxRetries == Retries(input.maxRetries, current.maxRetries)
    ensures timeoutSeconds == Timeout(input.timeoutSeconds, current.timeoutSeconds)
  {
    eventTypes, isEnabled := current.eventTypes, current.isEnabled;
    maxRetries, timeoutSeconds := current.maxRetries, current.timeoutSeconds;
    if input.eventTypes.Some? {
      eventTypes := input.eventTypes.value;
    }
    if input.isEnabled.Some? {
      isEnabled := input.isEnabled.value;
    }
    if input.maxRetries.Some? {
      maxRetries := Clamp(input.maxRetries.value, 0, MAX_RETRIES);
    }
    if input.timeoutSeconds.Some? {
      timeoutSeconds := Clamp(input.timeoutSeconds.value, 1, MAX_TIMEOUT_SECONDS);
    }
  }

  class HookManager {
    var hooks: map<string, Hook>

    constructor ()
      ensures hooks == map[]
    {
      hooks := map[];
    }

    method Create(checks: Checks, id: string, input: CreateInput) returns (r: Result<Hook>)
      modifies this
      ensures r == Created(checks, input)
      ensures hooks == if r.Ok? then old(hooks)[id := r.value] else old(hooks)
    {
      var name := Text.TrimSpace(input.name);
      if name == "" {
        return Err("name is required");
      }
      var driver := Text.Lower(Text.TrimSpace(input.driver));
      var target := CheckTarget(checks, driver, input);
      if target.Err? {
        return Err(target.reason);
      }
      if |input.eventTypes| == 0 {
        return Err("at least one event_type pattern is required");
      }
      var given := AllPatternsGiven(input.eventTypes);
      if !given {
        return Err("event_types cannot contain empty patterns");
      }
      var isEnabled := true;
      if input.isEnabled.Some? {
        isEnabled := input.isEnabled.value;
      }
      var maxRetries := DEFAULT_RETRIES;
      if input.maxRetries.Some? {
        maxRetries := Clamp(input.maxRetries.value, 0, MAX_RETRIES);
      }
      var timeoutSeconds := DEFAULT_TIMEOUT_SECONDS;
      if input.timeoutSeconds.Some? {
        timeoutSeconds := Clamp(input.timeoutSeconds.value, 1, MAX_TIMEOUT_SECONDS);
      }
      var hook := Hook(name, driver, target.value.0, target.value.1, target.value.2, input.eventTypes, isEnabled, maxRetries, timeoutSeconds);
      hooks := hooks[id := hook];
      return Ok(hook);
    }

    method Update(checks: Checks, id: string, input: UpdateInput) returns (r: Result<Hook>)
      modifies this
      ensures r == if id in old(hooks) then Updated(checks, old(hooks)[id], input) else Err("event hook not found")
      ensures hooks == if r.Ok? then old(hooks)[id := r.value] else old(hooks)
    {
      if id !in hooks {
        return Err("event hook not found");
      }
      var current := hooks[id];
      var name := current.name;
      if input.name.Some? {
        var trimmedName := Text.TrimSpace(input.name.value);
        if trimmedName == "" {
          return Err("name cannot be empty");
        }
        name := trimmedName;
      }
      var driver := current.driver;
      if input.driver.Some? {
        driver := Text.Lower(Text.TrimSpace(input.driver.value));
        if driver != "sql" && driver != "http" {
          return Err("invalid driver");
        }
      }
      var target := ReplaceTarget(checks, current, driver, input);
      if target.Err? {
        return Err(target.reason);
      }
      var eventTypes, isEnabled, maxRetries, timeoutSeconds := ReplaceRest(current, input);
      var hook := Hook(name, driver, target.value.0, target.value.1, target.value.2, eventTypes, isEnabled, maxRetries, timeoutSeconds);
      hooks := hooks[id := hook];
      return Ok(hook);
    }

    method Delete(id: string) returns (found: bool)
      modifies this
      ensures found == (id in old(hooks)) && hooks == old(hooks) - {id}
    {
      found := id in hooks;
      hooks := hooks - {id};
    }
  }

  /* ---------- Reachable hooks ---------- */

  datatype Step = CreateStep(id: string, input: CreateInput) | UpdateStep(id: string, change: UpdateInput) | DeleteStep(id: string)

  function Next(checks: Checks, hooks: map<string, Hook>, step: Step): (r: map<string, Hook>)
  {
    match step
    case CreateStep(id, input) =>
      var hook := Created(checks, input);
      if hook.Ok? then hooks[id := hook.value] else hooks
    case UpdateStep(id, change) =>
      if id !in hooks then hooks
      else
        var hook := Updated(checks, hooks[id], change);
        if hook.Ok? then hooks[id := hook.value] else hooks
    case DeleteStep(id) => hooks - {id}
  }

  function After(checks: Checks, run: seq<Step>): (hooks: map<string, Hook>)
  {
    if run == [] then map[] else Next(checks, After(checks, run[..|run| - 1]), run[|run| - 1])
  }

  lemma CreatedIsValid(checks: Checks, input: CreateInput)
    requires Created(checks, input).Ok?
    ensures IsValid(Created(checks, input).value) && IsChecked(checks, Created(checks, input).value)
  {
  }

  lemma UpdatedIsValid(checks: Checks, hook: Hook, change: UpdateInput)
    requires IsValid(hook) && IsChecked(checks, hook) && Updated(checks, hook, change).Ok?
    ensures IsValid(Updated(checks, hook, change).value) && IsChecked(checks, Updated(checks, hook, change).value)
  {
    var driver := if change.driver.None? then hook.driver else Text.Lower(Text.TrimSpace(change.driver.value));
    TargetIsChecked(checks, hook, driver, change);
  }

  lemma TargetIsChecked(checks: Checks, hook: Hook, driver: string, change: UpdateInput)
    requires IsChecked(checks, hook) && UpdatedTarget(checks, hook, driver, change).Ok?
    ensures var (sqlName, url, secret) := UpdatedTarget(checks, hook, driver, change).value;
      (sqlName.Some? ==> checks.isIdentifier(sqlName.value)) && (url.Some? ==> checks.isTarget(url.value))
  {
  }

  /** Every hook that any run of creations, updates and deletions leaves behind is valid and its target was checked. */
  lemma {:induction false} ReachableHooksAreValid(checks: Checks, run: seq<Step>, id: string)
    requires id in After(checks, run)
    ensures IsValid(After(checks, run)[id]) && IsChecked(checks, After(checks, run)[id])
  {
    var rest, step := run[..|run| - 1], run[|run| - 1];
    var hooks := After(checks, rest);
    if id in hooks {
      ReachableHooksAreValid(checks, rest, id);
      if step.UpdateStep? && Updated(checks, hooks[id], step.change).Ok? {
        UpdatedIsValid(checks, hooks[id], step.change);
      }
    }
    if step.CreateStep? && Created(checks, step.input).Ok? {
      CreatedIsValid(checks, step.input);
    }
  }

  /* ---------- Which hooks an event reaches ---------- */

  predicate Wants(hook: Hook, kind: string)
  {
    hook.isEnabled && exists pattern | pattern in hook.eventTypes :: EventBus.Matches(pattern, kind)
  }

  function Wanting(hooks: seq<Hook>, kind: string): (r: seq<Hook>)
  {
    if hooks == [] then []
    else Wanting(hooks[..|hooks| - 1], kind) + if Wants(hooks[|hooks| - 1], kind) then [hooks[|hooks| - 1]] else []
  }

  /** Each enabled hook with a matching pattern is reached once, however many of its patterns match. */
  method MatchedHooks(hooks: seq<Hook>, kind: string) returns (matched: seq<Hook>)
    ensures matched == Wanting(hooks, kind)
  {
    matched := [];
    for i := 0 to |hooks|
      invariant matched == Wanting(hooks[..i], kind)
    {
      var hook := hooks[i];
      assert hooks[..i + 1][..i] == hooks[..i];
      if hook.isEnabled {
        var wanted := false;
        for j := 0 to |hook.eventTypes|
          invariant !wanted && forall k | 0 <= k < j :: !EventBus.Matches(hook.eventTypes[k], kind)
        {
          if EventBus.Matches(hook.eventTypes[j], kind) {
            assert hook.eventTypes[j] in hook.eventTypes;
            wanted := true;
            break;
          }
        }
        if wanted {
          matched := matched + [hook];
        }
      }
    }
    assert hooks[..|hooks|] == hooks;
  }

  /** A hook is reached exactly when it is enabled and one of its patterns matches, and every such hook is. */
  lemma {:induction false} WantingExactly(hooks: seq<Hook>, kind: string, hook: Hook)
    ensures hook in Wanting(hooks, kind) <==>
      hook in hooks && hook.isEnabled && exists i | 0 <= i < |hook.eventTypes| :: EventBus.Matches(hook.eventTypes[i], kind)
    ensures multiset(Wanting(hooks, kind))[hook] <= multiset(hooks)[hook]
  {
    if hooks != [] {
      var init, last := hooks[..|hooks| - 1], hooks[|hooks| - 1];
      assert hooks == init + [last];
      WantingExactly(init, kind, hook);
      WantsExactly(last, kind);
    }
  }

  lemma WantsExactly(hook: Hook, kind: string)
    ensures Wants(hook, kind) <==> hook.isEnabled && exists i | 0 <= i < |hook.eventTypes| :: EventBus.Matches(hook.eventTypes[i], kind)
  {
    if i :| 0 <= i < |hook.eventTypes| && EventBus.Matches(hook.eventTypes[i], kind) {
      assert hook.eventTypes[i] in hook.eventTypes;
    }
  }

  /* ---------- Delivery ---------- */

  datatype SqlTrial = SqlDone | SqlFailed(message: string)

  /** Building the request fails, sending it fails, or a response comes back. */
  datatype HttpTrial = NotSent(message: string) | NoAnswer(message: string) | Answered(status: int)

  /** What happens at one attempt, when, and whether the pause after it runs its course. */
  datatype Trial = Trial(sql: SqlTrial, http: HttpTrial, at: int, pauses: bool)

  /** An attempt of a hook with an unknown driver does nothing. */
  datatype Verdict = Succeeded | Permanent | Transient | Skipped

  datatype Delivery = Delivery(attempts: nat, isDelivered: bool, deliveredAt: Option<int>, failed: bool, pausedMs: nat)

  function Judge(hook: Hook, isTransient: string -> bool, trial: Trial): (v: Verdict)
  {
    if hook.driver == "sql" then
      if !Given(hook.sqlFunctionName) then Permanent else JudgeSql(isTransient, trial.sql)
    else if hook.driver == "http" then
      if !Given(hook.httpTargetUrl) then Permanent else JudgeHttp(trial.http)
    else Skipped
  }

  function JudgeSql(isTransient: string -> bool, trial: SqlTrial): (v: Verdict)
  {
    match trial
    case SqlDone => Succeeded
    case SqlFailed(message) => if isTransient(message) then Transient else Permanent
  }

  function JudgeHttp(trial: HttpTrial): (v: Verdict)
  {
    match trial
    case NotSent(_) => Permanent
    case NoAnswer(_) => Transient
    case Answered(status) =>
      if 200 <= status < 300 then Succeeded
      else if 400 <= status < 500 && status != 429 then Permanent
      else Transient
  }

  /**
   The verdict on an attempt.  SQL succeeds when the call returns and is worth another try on a
   transient error; HTTP succeeds on a 2xx answer and is worth another try without an answer, on 429
   and on anything outside 2xx and 4xx.  A missing target or a request that cannot be built is final.
   */
  lemma VerdictExactly(hook: Hook, isTransient: string -> bool, trial: Trial)
    ensures var v := Judge(hook, isTransient, trial);
      var hasSql := hook.driver == "sql" && hook.sqlFunctionName != None && hook.sqlFunctionName != Some("");
      var hasHttp := hook.driver == "http" && hook.httpTargetUrl != None && hook.httpTargetUrl != Some("");
      && (v.Succeeded? <==> (hasSql && trial.sql == SqlDone) || (hasHttp && trial.http.Answered? && trial.http.status / 100 == 2))
      && (v.Transient? <==>
            || (hasSql && trial.sql.SqlFailed? && isTransient(trial.sql.message))
            || (hasHttp && trial.http.NoAnswer?)
            || (hasHttp && trial.http.Answered? && (trial.http.status == 429 || (trial.http.status / 100 != 2 && trial.http.status / 100 != 4))))
      && (v.Skipped? <==> hook.driver != "sql" && hook.driver != "http")
  {
  }

  function Limit(hook: Hook): (n: int)
  {
    if hook.maxRetries <= 0 then DEFAULT_RETRIES else hook.maxRetries
  }

  function Pow2(n: nat): (p: nat)
  {
    if n == 0 then 1 else 2 * Pow2(n - 1)
  }

  function BackoffMs(attempt: nat): (ms: nat)
  {
    Pow2(attempt) * 100
  }

  /** Delivery goes on after attempt `i`: it failed for a while only and the pause was not cut short. */
  predicate GoesOn(hook: Hook, isTransient: string -> bool, trials: nat -> Trial, i: nat)
  {
    var verdict := Judge(hook, isTransient, trials(i));
    verdict.Skipped? || (verdict.Transient? && trials(i).pauses)
  }

  method Attempt(hook: Hook, isTransient: string -> bool, trial: Trial) returns (v: Verdict)
    ensures v == Judge(hook, isTransient, trial)
  {
    if hook.driver == "sql" {
      if hook.sqlFunctionName.None? || hook.sqlFunctionName.value == "" {
        return Permanent;
      }
      if trial.sql.SqlDone? {
        return Succeeded;
      }
      return if !isTransient(trial.sql.message) then Permanent else Transient;
    } else if hook.driver == "http" {
      var isClientError := hook.httpTargetUrl.None? || hook.httpTargetUrl.value == "" || trial.http.NotSent?;
      if !isClientError && trial.http.Answered? {
        var status := trial.http.status;
        if status >= 200 && status < 300 {
          return Succeeded;
        }
        isClientError := status >= 400 && status < 500 && status != 429;
      }
      return if isClientError then Permanent else Transient;
    }
    return Skipped;
  }

  /**
   The retry loop.  A hook is tried between once and its limit, stops at the first success, permanent
   failure or cut pause, is delivered exactly when its last attempt succeeded, and pauses no longer
   than the sum of the backoffs.
   */
  method Deliver(hook: Hook, isTransient: string -> bool, trials: nat -> Trial) returns (d: Delivery)
    ensures 1 <= d.attempts <= Limit(hook) && (IsValid(hook) ==> Limit(hook) <= MAX_RETRIES)
    ensures forall i: nat | 1 <= i < d.attempts :: GoesOn(hook, isTransient, trials, i)
    ensures d.attempts < Limit(hook) ==> !GoesOn(hook, isTransient, trials, d.attempts)
    ensures d.isDelivered <==> Judge(hook, isTransient, trials(d.attempts)).Succeeded?
    ensures d.deliveredAt == if d.isDelivered then Some(trials(d.attempts).at) else None
    ensures IsValid(hook) ==> (d.failed <==> !d.isDelivered)
    ensures d.pausedMs <= 100 * (Pow2(Limit(hook) + 1) - 2)
  {
    var limit := hook.maxRetries;
    if limit <= 0 {
      limit := DEFAULT_RETRIES;
    }
    var attempt: nat := 0;
    var paused: nat := 0;
    var failed := false;
    while attempt < limit
      invariant attempt <= limit == Limit(hook)
      invariant forall i: nat | 1 <= i <= attempt :: GoesOn(hook, isTransient, trials, i)
      invariant IsValid(hook) ==> (failed <==> attempt > 0)
      invariant paused <= 100 * (Pow2(attempt + 1) - 2)
    {
      attempt := attempt + 1;
      PausesFit(attempt, limit);
      var verdict := Attempt(hook, isTransient, trials(attempt));
      if verdict.Succeeded? {
        return Delivery(attempt, true, Some(trials(attempt).at), false, paused);
      }
      if verdict.Skipped? {
        continue;
      }
      failed := true;
      if verdict.Permanent? {
        return Delivery(attempt, false, None, failed, paused);
      }
      paused := paused + BackoffMs(attempt);
      if !trials(attempt).pauses {
        return Delivery(attempt, false, None, failed, paused);
      }
    }
    assert GoesOn(hook, isTransient, trials, attempt);
    return Delivery(attempt, false, None, failed, paused);
  }

  /** The pauses before and after an attempt within the limit stay within the bound. */
  lemma PausesFit(attempt: nat, limit: int)
    requires 1 <= attempt <= limit
    ensures Pow2(attempt) >= 2
    ensures 100 * (Pow2(attempt) - 2) + BackoffMs(attempt) == 100 * (Pow2(attempt + 1) - 2)
    ensures Pow2(attempt) <= Pow2(attempt + 1) <= Pow2(limit + 1)
  {
    PowGrows(attempt + 1, limit + 1);
    PowGrows(1, attempt);
  }

  lemma {:induction false} PowGrows(a: nat, b: nat)
    requires a <= b
    ensures 1 <= Pow2(a) <= Pow2(b)
    decreases b
  {
    if a < b {
      PowGrows(a, b - 1);
    } else if a > 0 {
      PowGrows(a - 1, b - 1);
    }
  }
}
