/** Permission scopes, the test whether granted scopes satisfy a required one, and the grant of
    scopes to machine clients. */
module Scopes {
  import opened Wrappers
  import opened Text

  const SCOPE_ROOT := "*"

  datatype Scope = Scope(service: string, resource: string, action: string)

  function ParseScope(text: string): (scope: Scope)
  {
    var s := TrimSpace(text);
    if s == SCOPE_ROOT || s == "" then Scope("*", "*", "*")
    else
      var colon := IndexOf(s, ':');
      if colon == |s| then Scope(s, "*", "*")
      else
        var service, rest := s[..colon], s[colon + 1..];
        if rest == "*" then Scope(service, "*", "*")
        else
          var dot := IndexOf(rest, '.');
          if dot == |rest| then Scope(service, rest, "*")
          else Scope(service, rest[..dot], rest[dot + 1..])
  }

  /* ---------- What a grant means ---------- */

  predicate ActionCovers(granted: string, required: string)
  {
    granted == "*" || granted == required || (granted == "write" && required == "read")
  }

  /** A grant on every resource of a service covers that service whatever its action says. */
  predicate Covers(granted: Scope, required: Scope)
  {
    || (granted.resource == "*" && granted.service == required.service)
    || (&& (granted.service == "*" || granted.service == required.service)
        && (granted.resource == "*" || granted.resource == required.resource)
        && ActionCovers(granted.action, required.action))
  }

  predicate Covered(grantedScopes: seq<string>, scope: string)
  {
    exists i | 0 <= i < |grantedScopes| :: Covers(ParseScope(grantedScopes[i]), ParseScope(scope))
  }

  predicate Satisfied(grantedScopes: seq<string>, requiredScope: string)
  {
    grantedScopes != [] && (requiredScope == "" || Covered(grantedScopes, requiredScope))
  }

  lemma {:induction false} ParseOfTrimmed(text: string)
    ensures ParseScope(TrimSpace(text)) == ParseScope(text)
  {
    TrimTwice(text);
  }

  /** One granted scope against the required one, with the early answers of the search. */
  method GrantsScope(grantedScope: string, requiredScope: string, required: Scope) returns (ok: bool)
    requires required == ParseScope(requiredScope)
    ensures ok == Covers(ParseScope(grantedScope), required)
  {
    var granted := TrimSpace(grantedScope);
    ParseOfTrimmed(grantedScope);
    if granted == SCOPE_ROOT || granted == requiredScope {
      return true;
    }
    var scope := ParseScope(granted);
    if scope.service == required.service && scope.resource == "*" {
      return true;
    }
    if scope.service != required.service && scope.service != "*" {
      return false;
    }
    if scope.resource != required.resource && scope.resource != "*" {
      return false;
    }
    if scope.action == required.action || scope.action == "*" {
      return true;
    }
    return scope.action == "write" && required.action == "read";
  }

  /** The search with its early returns decides exactly the covering relation. */
  method HasScope(grantedScopes: seq<string>, requiredScope: string) returns (ok: bool)
    ensures ok == Satisfied(grantedScopes, requiredScope)
  {
    if |grantedScopes| == 0 {
      return false;
    }
    if requiredScope == "" {
      return true;
    }
    var required := ParseScope(requiredScope);
    for i := 0 to |grantedScopes|
      invariant forall j | 0 <= j < i :: !Covers(ParseScope(grantedScopes[j]), required)
    {
      var grants := GrantsScope(grantedScopes[i], requiredScope, required);
      if grants {
        return true;
      }
    }
    return false;
  }

  /* ---------- The covering preorder ---------- */

  lemma CoversIsReflexive(scope: Scope)
    ensures Covers(scope, scope)
  {
  }

  /** The one shape that breaks transitivity: every service, every resource, a single action. */
  predicate IsActionOnly(scope: Scope)
  {
    scope.service == "*" && scope.resource == "*" && scope.action != "*"
  }

  lemma CoversIsTransitive(a: Scope, b: Scope, c: Scope)
    requires !IsActionOnly(a)
    requires Covers(a, b) && Covers(b, c)
    ensures Covers(a, c)
  {
  }

  lemma ParseAtColon(text: string, service: string, rest: string)
    requires text == service + [':'] + rest && TrimSpace(text) == text && IndexOf(text, ':') == |service| && rest != "*"
    ensures ParseScope(text) ==
      var dot := IndexOf(rest, '.');
      if dot == |rest| then Scope(service, rest, "*") else Scope(service, rest[..dot], rest[dot + 1..])
  {
    assert text[|service|] == ':' && text[..|service|] == service && text[|service| + 1..] == rest;
  }

  lemma ParseOfPair(service: string, rest: string)
    requires NoSpace(service) && NoSpace(rest) && ':' !in service && rest != "*"
    ensures ParseScope(service + [':'] + rest) ==
      var dot := IndexOf(rest, '.');
      if dot == |rest| then Scope(service, rest, "*") else Scope(service, rest[..dot], rest[dot + 1..])
  {
    PairIsWord(service, rest);
    ParseAtColon(service + [':'] + rest, service, rest);
  }

  lemma PairIsWord(service: string, rest: string)
    requires NoSpace(service) && NoSpace(rest) && ':' !in service
    ensures var text := service + [':'] + rest; TrimSpace(text) == text && IndexOf(text, ':') == |service|
  {
    TrimOfWord(service + [':'] + rest);
    IndexAfterPrefix(service, ':', rest);
  }

  lemma ParseOfPlain(service: string, resource: string)
    requires NoSpace(service) && NoSpace(resource) && ':' !in service && '.' !in resource && resource != "*"
    ensures ParseScope(service + ":" + resource) == Scope(service, resource, "*")
  {
    ParseOfPair(service, resource);
    IndexAfterPrefix(resource, '.', "");
  }

  /** A service, a resource and an action with no space and no separator in the wrong place. */
  predicate IsPlain(service: string, resource: string, action: string)
  {
    NoSpace(service) && NoSpace(resource) && NoSpace(action) && ':' !in service && '.' !in resource
  }

  function Written(service: string, resource: string, action: string): (text: string)
    ensures text != ""
  {
    service + ":" + resource + "." + action
  }

  lemma ParseOfWritten(service: string, resource: string, action: string)
    requires IsPlain(service, resource, action)
    ensures ParseScope(Written(service, resource, action)) == Scope(service, resource, action)
  {
    var rest := resource + ['.'] + action;
    assert Written(service, resource, action) == service + [':'] + rest;
    assert rest[|resource|] == '.';
    ParseOfPair(service, rest);
    IndexAfterPrefix(resource, '.', action);
    assert rest[..|resource|] == resource && rest[|resource| + 1..] == action;
  }

  lemma SatisfiedByOne(granted: string, required: string)
    requires required != ""
    ensures Satisfied([granted], required) <==> Covers(ParseScope(granted), ParseScope(required))
  {
    assert Covered([granted], required) <==> Covers(ParseScope([granted][0]), ParseScope(required));
  }

  /**
   One written scope satisfies another exactly when it is for all of the service, or reaches its
   service and resource with the same action, any action, or write where read is asked.
   */
  lemma WrittenSatisfiesExactly(service: string, resource: string, action: string, service': string, resource': string, action': string)
    requires IsPlain(service, resource, action) && IsPlain(service', resource', action')
    ensures Satisfied([Written(service, resource, action)], Written(service', resource', action')) <==>
      || (service == service' && resource == "*")
      || (&& (service == "*" || service == service') && (resource == "*" || resource == resource')
          && (action == "*" || action == action' || (action == "write" && action' == "read")))
  {
    ParseOfWritten(service, resource, action);
    ParseOfWritten(service', resource', action');
    SatisfiedByOne(Written(service, resource, action), Written(service', resource', action'));
  }

  /** Writing a resource lets a client read it; reading it does not let it write. */
  lemma WriteImpliesRead(service: string, resource: string)
    requires IsPlain(service, resource, "") && resource != "*"
    ensures Satisfied([Written(service, resource, "write")], Written(service, resource, "read"))
    ensures !Satisfied([Written(service, resource, "read")], Written(service, resource, "write"))
  {
    WrittenSatisfiesExactly(service, resource, "write", service, resource, "read");
    WrittenSatisfiesExactly(service, resource, "read", service, resource, "write");
  }

  lemma ParseOfPlainScope()
    ensures ParseScope("x:y") == Scope("x", "y", "*")
  {
    ParseOfPlain("x", "y");
    assert "x" + ":" + "y" == "x:y";
  }

  /* ---------- The client-credentials grant ---------- */

  function Deduplicated(scopes: seq<string>): (r: seq<string>)
  {
    if scopes == [] then []
    else
      var init, last := scopes[..|scopes| - 1], scopes[|scopes| - 1];
      if last in init then Deduplicated(init) else Deduplicated(init) + [last]
  }

  lemma {:induction false} DeduplicatedKeepsEach(scopes: seq<string>)
    ensures forall scope :: scope in Deduplicated(scopes) <==> scope in scopes
    ensures forall i, j | 0 <= i < j < |Deduplicated(scopes)| :: Deduplicated(scopes)[i] != Deduplicated(scopes)[j]
  {
    if scopes != [] {
      DeduplicatedKeepsEach(scopes[..|scopes| - 1]);
    }
  }

  method Deduplicate(fields: seq<string>) returns (requested: seq<string>)
    ensures requested == Deduplicated(fields)
  {
    var seen: map<string, bool> := map[];
    requested := [];
    for i := 0 to |fields|
      invariant requested == Deduplicated(fields[..i])
      invariant forall scope :: scope in seen <==> scope in fields[..i]
    {
      assert fields[..i + 1][..i] == fields[..i];
      if fields[i] !in seen {
        seen := seen[fields[i] := true];
        requested := requested + [fields[i]];
      }
    }
    assert fields[..|fields|] == fields;
  }

  predicate AllSatisfied(available: seq<string>, scopes: seq<string>)
  {
    forall scope | scope in scopes :: Satisfied(available, scope)
  }

  /**
   The scopes to put in the token.  `available` is what the service account holds for the platform
   audience, and what the resource server defines for any other audience.
   */
  method GrantScopes(available: seq<string>, scopeParameter: string) returns (r: Result<seq<string>>)
    ensures TrimSpace(scopeParameter) == "" ==> r == Ok(available)
    ensures TrimSpace(scopeParameter) != "" ==>
      var requested := Deduplicated(Fields(TrimSpace(scopeParameter)));
      if AllSatisfied(available, requested) then r == Ok(requested) else r.Err?
  {
    var trimmed := TrimSpace(scopeParameter);
    if trimmed == "" {
      return Ok(available);
    }
    var requested := Deduplicate(Fields(trimmed));
    for i := 0 to |requested|
      invariant AllSatisfied(available, requested[..i])
    {
      var ok := HasScope(available, requested[i]);
      if !ok {
        return Err("The requested scope exceeds permissions granted to the client");
      }
    }
    return Ok(requested);
  }

  /** The scope list a verifier reads back from the token: joined by spaces, then split into fields. */
  function TokenScopes(grantedScopes: seq<string>): (scopes: seq<string>)
  {
    Fields(Join(grantedScopes, ' '))
  }

  predicate IsGrantable(scope: string)
  {
    NoSpace(TrimSpace(scope)) && !IsActionOnly(ParseScope(scope))
  }

  lemma TokenScopeIsCovered(account: seq<string>, grantedScopes: seq<string>, word: string)
    requires forall i | 0 <= i < |grantedScopes| :: NoSpace(TrimSpace(grantedScopes[i])) && Covered(account, grantedScopes[i])
    requires word in TokenScopes(grantedScopes)
    ensures Covered(account, word)
  {
    FieldsOfJoinedMembers(grantedScopes, word);
    var i :| 0 <= i < |grantedScopes| && TrimSpace(grantedScopes[i]) == word;
    ParseOfTrimmed(grantedScopes[i]);
  }

  predicate IsGrant(account: seq<string>, grantedScopes: seq<string>)
  {
    || grantedScopes == account
    || forall scope | scope in grantedScopes :: NoSpace(scope) && scope != "" && Satisfied(account, scope)
  }

  lemma GrantedScopesAreCovered(account: seq<string>, grantedScopes: seq<string>, i: nat)
    requires i < |grantedScopes|
    requires forall j | 0 <= j < |account| :: NoSpace(TrimSpace(account[j]))
    requires IsGrant(account, grantedScopes)
    ensures NoSpace(TrimSpace(grantedScopes[i])) && Covered(account, grantedScopes[i])
  {
    if grantedScopes == account {
      CoversIsReflexive(ParseScope(account[i]));
    } else {
      TrimOfWord(grantedScopes[i]);
    }
  }

  const ROOT := Scope("*", "*", "*")

  predicate HoldsRoot(account: seq<string>)
  {
    exists i | 0 <= i < |account| :: ParseScope(account[i]) == ROOT
  }

  /** The account holds root, or no scope of the breaking shape and covers every word its scopes are made of. */
  predicate IsContained(account: seq<string>)
  {
    || HoldsRoot(account)
    || (&& (forall i | 0 <= i < |account| :: !IsActionOnly(ParseScope(account[i])))
        && (forall word | word in TokenScopes(account) :: Covered(account, word)))
  }

  /** Scopes without inner space and not of the breaking shape are contained. */
  lemma GrantableIsContained(account: seq<string>)
    requires forall i | 0 <= i < |account| :: IsGrantable(account[i])
    ensures IsContained(account)
  {
    forall word | word in TokenScopes(account)
      ensures Covered(account, word)
    {
      forall i | 0 <= i < |account|
        ensures NoSpace(TrimSpace(account[i])) && Covered(account, account[i])
      {
        GrantedScopesAreCovered(account, account, i);
      }
      TokenScopeIsCovered(account, account, word);
    }
  }

  lemma GrantedWordIsCovered(account: seq<string>, grantedScopes: seq<string>, word: string)
    requires IsContained(account) && !HoldsRoot(account) && IsGrant(account, grantedScopes) && word in TokenScopes(grantedScopes)
    ensures Covered(account, word)
  {
    if grantedScopes != account {
      FieldsOfJoinedWords(grantedScopes);
    }
  }

  /** Whatever the issued token satisfies, the service account satisfies already. */
  lemma GrantNeverWidens(account: seq<string>, grantedScopes: seq<string>, required: string)
    requires IsContained(account) && IsGrant(account, grantedScopes)
    requires Satisfied(TokenScopes(grantedScopes), required)
    ensures Satisfied(account, required)
  {
    if HoldsRoot(account) {
      var i :| 0 <= i < |account| && ParseScope(account[i]) == ROOT;
      assert Covers(ParseScope(account[i]), ParseScope(required));
    } else {
      var scopes := TokenScopes(grantedScopes);
      var k := if required == "" then 0 else
        var i :| 0 <= i < |scopes| && Covers(ParseScope(scopes[i]), ParseScope(required)); i;
      GrantedWordIsCovered(account, grantedScopes, scopes[k]);
      CoveredIsClosed(account, scopes[k], required);
    }
  }

  ghost predicate NeverWidens(account: seq<string>)
  {
    forall grantedScopes, required | IsGrant(account, grantedScopes) && Satisfied(TokenScopes(grantedScopes), required) ::
      Satisfied(account, required)
  }

  /** No grant to the account ever widens it exactly when the account is contained. */
  lemma NeverWidensExactly(account: seq<string>)
    ensures IsContained(account) <==> NeverWidens(account)
  {
    if IsContained(account) {
      forall grantedScopes, required | IsGrant(account, grantedScopes) && Satisfied(TokenScopes(grantedScopes), required)
        ensures Satisfied(account, required)
      {
        GrantNeverWidens(account, grantedScopes, required);
      }
    } else if word :| word in TokenScopes(account) && !Covered(account, word) {
      FieldsAreWords(Join(account, ' '));
      var k :| 0 <= k < |TokenScopes(account)| && TokenScopes(account)[k] == word;
      CoversIsReflexive(ParseScope(word));
      assert Covered(TokenScopes(account), word);
      assert IsGrant(account, account) && Satisfied(TokenScopes(account), word) && !Satisfied(account, word);
    } else {
      var i :| 0 <= i < |account| && IsActionOnly(ParseScope(account[i]));
      ActionOnlyWidens(account, i);
    }
  }

  /* ---------- The test as a relation between scopes ---------- */

  /** A list satisfies each of its own scopes. */
  lemma HasScopeIsReflexive(granted: seq<string>, i: nat)
    requires i < |granted|
    ensures Satisfied(granted, granted[i])
  {
    CoversIsReflexive(ParseScope(granted[i]));
  }

  /** What a satisfied scope satisfies by itself, the list satisfies: for every middle scope that is not empty. */
  ghost predicate IsTransitive(granted: seq<string>)
  {
    forall b, c | b != "" && Satisfied(granted, b) && Satisfied([b], c) :: Satisfied(granted, c)
  }

  /** The same with the empty middle scope, which every non-empty list satisfies and which by itself satisfies everything. */
  ghost predicate IsTransitiveThroughEmpty(granted: seq<string>)
  {
    forall c | Satisfied(granted, "") && Satisfied([""], c) :: Satisfied(granted, c)
  }

  /** Through non-empty scopes the test is transitive exactly for lists that hold root or no scope of the breaking shape. */
  lemma TransitiveExactly(granted: seq<string>)
    ensures (HoldsRoot(granted) || forall i | 0 <= i < |granted| :: !IsActionOnly(ParseScope(granted[i]))) <==> IsTransitive(granted)
  {
    if HoldsRoot(granted) {
      RootSatisfiesAll(granted);
    } else if i :| 0 <= i < |granted| && IsActionOnly(ParseScope(granted[i])) {
      ActionOnlyWidens(granted, i);
      assert Satisfied(["*"], Foreign(granted)) by {
        assert Covers(ParseScope(["*"][0]), ParseScope(Foreign(granted)));
      }
      assert "*" in ["*"] && Satisfied(granted, "*");
    } else {
      forall b, c | b != "" && Satisfied(granted, b) && Satisfied([b], c)
        ensures Satisfied(granted, c)
      {
        assert c == "" || Covers(ParseScope([b][0]), ParseScope(c));
        CoveredIsClosed(granted, b, c);
      }
    }
  }

  /** Through the empty scope it is transitive exactly for the empty list and lists that hold root. */
  lemma TransitiveThroughEmptyExactly(granted: seq<string>)
    ensures granted == [] || HoldsRoot(granted) <==> IsTransitiveThroughEmpty(granted)
  {
    if HoldsRoot(granted) {
      RootSatisfiesAll(granted);
    } else if granted != [] {
      ForeignNeedsRoot(granted);
      assert Covers(ParseScope([""][0]), ParseScope(Foreign(granted)));
      assert Satisfied(granted, "") && Satisfied([""], Foreign(granted));
    }
  }

  lemma RootSatisfiesAll(granted: seq<string>)
    requires HoldsRoot(granted)
    ensures forall scope :: Satisfied(granted, scope)
  {
    var i :| 0 <= i < |granted| && ParseScope(granted[i]) == ROOT;
    forall scope
      ensures Covered(granted, scope)
    {
      assert Covers(ParseScope(granted[i]), ParseScope(scope));
    }
  }

  lemma SatisfiedAlone(granted: string, required: string)
    ensures Satisfied([granted], required) <==> required == "" || Covers(ParseScope(granted), ParseScope(required))
  {
    assert [granted][0] == granted;
  }

  lemma EmptyMiddleAlone(granted: string, required: string)
    requires required != "" && !Covers(ParseScope(granted), ParseScope(required))
    ensures Satisfied([granted], "") && Satisfied([""], required) && !Satisfied([granted], required)
  {
    SatisfiedAlone(granted, "");
    SatisfiedAlone("", required);
    SatisfiedAlone(granted, required);
  }

  lemma ParseOfForeignScope()
    ensures ParseScope("z:y") == Scope("z", "y", "*")
  {
    ParseOfPlain("z", "y");
    assert "z" + ":" + "y" == "z:y";
  }

  /** A plain scope satisfies the empty one, the empty one a foreign service, and the plain scope not. */
  lemma EmptyMiddleBreaks()
    ensures Satisfied(["x:y"], "") && Satisfied([""], "z:y") && !Satisfied(["x:y"], "z:y")
  {
    ParseOfPlainScope();
    ParseOfForeignScope();
    EmptyMiddleAlone("x:y", "z:y");
  }

  /* ---------- What widens ---------- */

  function LongWord(n: nat): (word: string)
  {
    if n == 0 then "" else "x" + LongWord(n - 1)
  }

  lemma {:induction false} LongWordIsPlain(n: nat)
    ensures |LongWord(n)| == n && NoSpace(LongWord(n)) && ':' !in LongWord(n) && '.' !in LongWord(n) && '*' !in LongWord(n)
  {
    if n > 0 {
      LongWordIsPlain(n - 1);
    }
  }

  lemma PartsAreShort(text: string)
    ensures |ParseScope(text).service| <= |text| + 1 && |ParseScope(text).resource| <= |text| + 1
  {
  }

  function Longest(scopes: seq<string>): (n: nat)
  {
    if scopes == [] then 0
    else
      var rest := Longest(scopes[1..]);
      if |scopes[0]| > rest then |scopes[0]| else rest
  }

  lemma {:induction false} LongestIsLongest(scopes: seq<string>, i: nat)
    requires i < |scopes|
    ensures |scopes[i]| <= Longest(scopes)
  {
    if i > 0 {
      LongestIsLongest(scopes[1..], i - 1);
    }
  }

  /** A scope with names longer than any in the account; only root covers it. */
  function Foreign(account: seq<string>): (scope: string)
  {
    LongWord(Longest(account) + 2) + ":" + LongWord(Longest(account) + 2)
  }

  lemma ForeignNeedsRoot(account: seq<string>)
    requires !HoldsRoot(account)
    ensures !Satisfied(account, Foreign(account))
  {
    var word := LongWord(Longest(account) + 2);
    LongWordIsPlain(Longest(account) + 2);
    assert |word| > |"*"|;
    ParseOfPlain(word, word);
    forall i | 0 <= i < |account|
      ensures !Covers(ParseScope(account[i]), Scope(word, word, "*"))
    {
      LongestIsLongest(account, i);
      PartsAreShort(account[i]);
    }
  }

  /** A scope for one action everywhere is granted root on request, which is wider. */
  lemma ActionOnlyWidens(account: seq<string>, i: nat)
    requires i < |account| && IsActionOnly(ParseScope(account[i])) && !HoldsRoot(account)
    ensures IsGrant(account, ["*"]) && Satisfied(TokenScopes(["*"]), Foreign(account)) && !Satisfied(account, Foreign(account))
  {
    ForeignNeedsRoot(account);
    FieldsOfJoinedWords(["*"]);
    assert Covers(ParseScope(account[i]), ParseScope("*"));
    assert Covers(ParseScope(["*"][0]), ParseScope(Foreign(account)));
  }

  lemma CoveredIsClosed(account: seq<string>, scope: string, required: string)
    requires forall i | 0 <= i < |account| :: !IsActionOnly(ParseScope(account[i]))
    requires Covered(account, scope)
    requires required == "" || Covers(ParseScope(scope), ParseScope(required))
    ensures Satisfied(account, required)
  {
    var i :| 0 <= i < |account| && Covers(ParseScope(account[i]), ParseScope(scope));
    if required != "" {
      CoversIsTransitive(ParseScope(account[i]), ParseScope(scope), ParseScope(required));
    }
  }

  /** The grant, end to end: no request makes the token of a contained account exceed it. */
  method IssuePlatformScopes(account: seq<string>, scopeParameter: string) returns (r: Result<seq<string>>)
    ensures IsContained(account) && r.Ok? ==>
      forall required :: Satisfied(TokenScopes(r.value), required) ==> Satisfied(account, required)
  {
    r := GrantScopes(account, scopeParameter);
    if IsContained(account) && r.Ok? {
      FieldsAreWords(TrimSpace(scopeParameter));
      DeduplicatedKeepsEach(Fields(TrimSpace(scopeParameter)));
      forall required | Satisfied(TokenScopes(r.value), required)
        ensures Satisfied(account, required)
      {
        GrantNeverWidens(account, r.value, required);
      }
    }
  }

  /** A space inside an account scope turns its tail into a scope of its own. */
  lemma InnerSpaceWidens()
    ensures Satisfied(TokenScopes(["a:b x"]), "x:y") && !Satisfied(["a:b x"], "x:y")
  {
    ParseOfPlainScope();
    ParseOfSpacedScope();
    FieldsOfSpacedScope();
    assert Covers(ParseScope(["a:b", "x"][1]), ParseScope("x:y"));
  }

  lemma FieldsOfSpacedScope()
    ensures TokenScopes(["a:b x"]) == ["a:b", "x"]
  {
    var parts := ["a:b", "x"];
    assert Join(parts[1..], ' ') == "x";
    assert Join(parts, ' ') == "a:b x" == Join(["a:b x"], ' ');
    FieldsOfJoinedWords(parts);
  }

  lemma ParseOfSpacedScope()
    ensures ParseScope("x") == Scope("x", "*", "*")
    ensures ParseScope("a:b x").service == "a"
  {
    IndexAfterPrefix("x", ':', "");
    var s := "a:b x";
    assert TrimSpace(s) == s;
    IndexAfterPrefix("a", ':', "b x");
    assert "a" + [':'] + "b x" == s;
    assert s[..1] == "a";
  }
}
