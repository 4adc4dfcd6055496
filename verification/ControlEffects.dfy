/** When a request succeeds, and what a successful request leaves. */
module ControlEffects {
  import opened Text
  import opened Names
  import opened Maps
  import opened Files
  import opened Secrets
  import opened ControlSpec
  import H = HttpRoutes
  import S = SshRoutes

  // ---- what a valid description amounts to ----

  lemma AliasGivesReferences(alias: string)
    requires ValidAlias(alias)
    ensures ValidReference(HttpReference(alias)) && ValidReference(SshReference(alias))
  {
    var h, t := HttpReference(alias), SshReference(alias);
    assert h[0] == 'r' && t[0] == 's' && |"routes/"| == 7 && |"ssh/"| == 4;
    forall i | 0 <= i < |h| ensures ReferenceChar(h[i]) {
      if i >= 7 { assert h[i] == alias[i - 7]; } else { assert h[i] == "routes/"[i]; }
    }
    forall i | 0 <= i < |t| ensures ReferenceChar(t[i]) {
      if i >= 4 { assert t[i] == alias[i - 4]; } else { assert t[i] == "ssh/"[i]; }
    }
  }

  /** A new HTTP route is refused at registration only for its alias or its egress. */
  lemma NewHttpValid(q: Request, digest: H.Digest)
    requires q.CreateHttp?
    ensures H.Valid(NewHttpRoute(q, digest)) <==> ValidAlias(q.alias) && H.ValidEgress(q.egress)
  {
    var r := NewHttpRoute(q, digest);
    assert "GET" in {"GET", "HEAD"} && Upper("GET") in r.policy.methods;
    assert r.target != "" by { assert r.target[0] == 'r'; }
  }

  lemma ModelIsValid(model: string)
    requires AcceptableModel(TrimSpace(model))
    ensures H.ValidModel(TrimSpace(model))
  {
    TrimSpaceIdempotent(model);
    var m := TrimSpace(model);
    assert forall c | c in "\0\r\n\t" :: c !in m;
    assert '\0' in "\0\r\n\t" && '\r' in "\0\r\n\t" && '\n' in "\0\r\n\t" && '\t' in "\0\r\n\t";
  }

  lemma ModelsAreValid(models: seq<string>)
    requires NormalModels(models).Some?
    ensures NormalModels(models).value != {} && forall m :: m in NormalModels(models).value ==> H.ValidModel(m)
  {
    var all := NormalModels(models).value;
    assert TrimSpace(models[0]) in all;
    forall m | m in all ensures H.ValidModel(m) {
      var i :| 0 <= i < |models| && TrimSpace(models[i]) == m;
      ModelIsValid(models[i]);
    }
  }

  lemma LlmPolicyValid(r: H.Route, models: seq<string>, maxOutputTokens: int, requestsPerMinute: int, maxConcurrent: int)
    requires NormalModels(models).Some? && r.provider in {H.OPENAI, H.ANTHROPIC}
    requires ValidLimits(maxOutputTokens, requestsPerMinute, maxConcurrent, false)
    requires var p := H.NewLlmPolicy(r.provider, NormalModels(models).value, maxOutputTokens);
      r.policy == p.(requestsPerMinute := requestsPerMinute, maxConcurrent := maxConcurrent, trackUsage := r.policy.trackUsage)
    ensures H.ValidLlm(r)
  {
    ModelsAreValid(models);
    assert H.OPENAI != H.ANTHROPIC by { assert |H.OPENAI| != |H.ANTHROPIC|; }
    assert "/v1/messages" in r.policy.paths || "/v1/responses" in r.policy.paths;
    assert |{"POST"}| == 1;
  }

  /** A new LLM route whose input was accepted is refused at registration only for its alias. */
  lemma NewLlmValid(q: Request, digest: H.Digest)
    requires q.CreateLlm? && CreateLlmAccepted(q)
    ensures H.Valid(NewLlmRoute(q, digest)) <==> ValidAlias(q.alias)
  {
    var r := NewLlmRoute(q, digest);
    assert r.target != "" by { assert r.target[0] == 'r'; }
    assert H.EffectiveKind(r) == H.KIND_LLM && H.KIND_LLM != H.KIND_HTTP by { assert |H.KIND_LLM| == 3 && |H.KIND_HTTP| == 4; }
    assert |r.policy.methods| == 1;
    assert r.policy.methods != {};
    LlmPolicyValid(r, q.models, q.maxOutputTokens, r.policy.requestsPerMinute, r.policy.maxConcurrent);
  }

  /** A new SSH route is refused at registration exactly for its alias, its user name, a zero digest, its replacement rules or
      its one command. */
  lemma NewSshValid(q: Request, digest: H.Digest)
    requires q.CreateSsh? && CreateSshAccepted(q)
    ensures H.ValidEgress(q.egress)
    ensures S.Valid(NewSshRoute(q, digest)) <==>
      ValidAlias(q.alias) && ValidLocalUsername(if q.localUsername == "" then q.alias else q.localUsername)
      && digest != H.ZERO_DIGEST && S.ValidReplacements(q.replacements) && (q.allowAllCommands || S.ValidCommand(q.allowedCommand))
  {
    var r := NewSshRoute(q, digest);
    assert q.allowedCommand in {q.allowedCommand};
    assert S.NormalizeTimeout(r.timeout).Some?;
  }

  // ---- creations ----

  ghost predicate Free(s: State, alias: string) { alias !in s.http && alias !in s.ssh }

  lemma AddHttpExactly(s: State, route: H.Route, secret: Secret, env: Env)
    requires route.target == HttpReference(route.alias)
    ensures var o := AddHttp(s, route, secret, env);
      (o.ok <==> Free(s, route.alias) && H.Valid(route) && env.put && env.httpSave == Installed)
      && (o.ok ==> o.state.http == s.http[route.alias := route] && o.state.store == s.store[route.target := secret])
  {
    if H.Valid(route) { AliasGivesReferences(route.alias); }
  }

  lemma AddSshExactly(s: State, route: S.Route, secret: Secret, env: Env)
    requires route.target == SshReference(route.alias)
    ensures var o := AddSsh(s, route, secret, env);
      (o.ok <==> Free(s, route.alias) && S.UsernameFree(s.ssh, route.alias, S.Username(route)) && S.Valid(route) && env.put
                 && env.sshSave == Installed)
      && (o.ok ==> o.state.ssh == s.ssh[route.alias := route] && o.state.store == s.store[route.target := secret])
  {
    if S.Valid(route) { AliasGivesReferences(route.alias); }
  }

  /** Exactly when an HTTP route is created; it is then registered disabled under a fresh key, reads only, and its target is the
      one given. */
  lemma CreateHttpExactly(s: State, q: Request, env: Env)
    requires q.CreateHttp?
    ensures var o := Step(s, q, env);
      (o.ok <==> CreateHttpAccepted(q) && env.generated.Some? && Free(s, q.alias) && ValidAlias(q.alias)
                 && H.ValidEgress(q.egress) && env.put && env.httpSave == Installed)
      && (o.ok ==> HttpCreated(o.state, q, env.generated.value))
  {
    if CreateHttpAccepted(q) && env.generated.Some? {
      NewHttpValid(q, env.generated.value);
      AddHttpExactly(s, NewHttpRoute(q, env.generated.value), HttpSecret(q.base.value, q.authorization, ""), env);
      HttpCreatedAs(Step(s, q, env).state, q, env.generated.value);
    }
  }

  lemma HttpCreatedAs(t: State, q: Request, digest: H.Digest)
    requires q.CreateHttp? && q.base.Some?
    ensures var r := NewHttpRoute(q, digest);
      (q.alias in t.http && t.http[q.alias] == r && r.target in t.store
       && t.store[r.target] == HttpSecret(q.base.value, q.authorization, "")) ==> HttpCreated(t, q, digest)
  {
    ReadsOnly();
  }

  lemma ReadsOnly()
    ensures H.NewPolicy({"GET", "HEAD"}, {}).methods == {"GET", "HEAD"}
  {
    assert Upper("T") == "T" && Upper("D") == "D";
    assert "GET"[1..] == "ET" && "ET"[1..] == "T" && "HEAD"[1..] == "EAD" && "EAD"[1..] == "AD" && "AD"[1..] == "D";
    assert Upper("ET") == "ET" && Upper("AD") == "AD";
    assert Upper("EAD") == "EAD";
    assert Upper("GET") == "GET" && Upper("HEAD") == "HEAD";
    var methods := H.NewPolicy({"GET", "HEAD"}, {}).methods;
    forall m ensures m in methods <==> m in {"GET", "HEAD"} {
      if m == "GET" || m == "HEAD" { assert m in {"GET", "HEAD"} && Upper(m) == m; }
    }
  }

  predicate HttpCreated(t: State, q: Request, digest: H.Digest)
    requires q.CreateHttp?
  {
    q.alias in t.http && q.base.Some?
    && var r := t.http[q.alias];
       r.alias == q.alias && r.name == q.name && !r.enabled && r.digest == digest && H.EffectiveKind(r) == H.KIND_HTTP
       && r.policy.methods == {"GET", "HEAD"} && r.policy.queryKeys == {} && r.egress == Egress(q.egress)
       && r.target in t.store && t.store[r.target] == HttpSecret(q.base.value, q.authorization, "")
  }

  /** Exactly when an LLM route is created, and under which limits. */
  lemma CreateLlmExactly(s: State, q: Request, env: Env)
    requires q.CreateLlm?
    ensures var o := Step(s, q, env); var digest := if q.localKey == "" then env.generated else Some(q.keyDigest);
      (o.ok <==> CreateLlmAccepted(q) && digest.Some? && Free(s, q.alias) && ValidAlias(q.alias) && env.put && env.httpSave == Installed)
      && (o.ok ==> LlmCreated(o.state, q, digest.value))
  {
    var digest := KeyDigest(q.localKey, q.keyDigest, env);
    if CreateLlmAccepted(q) && digest.Some? {
      NewLlmValid(q, digest.value);
      LlmBasePathExactly(q.base.value.path);
      AddHttpExactly(s, NewLlmRoute(q, digest.value), LlmSecret(q), env);
    }
  }

  predicate AllSlashes(s: string) { forall c :: c in s ==> c == '/' }

  /** `kept` is what is left of a path without its trailing slashes and then without one final "/v1". */
  ghost predicate CutBack(path: string, kept: string)
  {
    exists slashes :: AllSlashes(slashes)
      && (path == kept + "/v1" + slashes || (path == kept + slashes && !HasSuffix(kept, "/") && !HasSuffix(kept, "/v1")))
  }

  lemma {:induction false} TrimSlashesExactly(path: string) returns (slashes: string)
    ensures AllSlashes(slashes) && path == TrimSlashes(path) + slashes && !HasSuffix(TrimSlashes(path), "/")
  {
    if path != "" && path[|path| - 1] == '/' {
      var less := TrimSlashesExactly(path[..|path| - 1]);
      slashes := less + "/";
      assert path == path[..|path| - 1] + "/";
    } else {
      slashes := "";
    }
  }

  lemma LlmBasePathExactly(path: string)
    ensures CutBack(path, LlmBasePath(path))
  {
    var p := TrimSlashes(path);
    var slashes := TrimSlashesExactly(path);
    if HasSuffix(p, "/v1") {
      assert p == p[..|p| - 3] + "/v1";
      assert path == LlmBasePath(path) + "/v1" + slashes;
    }
  }

  /** The stored path can end in a slash after all: "/a//v1" is cut back to "/a/". */
  lemma SlashCanStay()
    ensures LlmBasePath("/a//v1") == "/a/"
  {
    assert "/a//v1"[..3] == "/a/" && "/a//v1"[3..] == "/v1";
  }

  ghost predicate LlmCreated(t: State, q: Request, digest: H.Digest)
    requires q.CreateLlm?
  {
    q.alias in t.http && q.base.Some? && NormalModels(q.models).Some?
    && var r := t.http[q.alias];
       r.alias == q.alias && !r.enabled && r.digest == digest && r.kind == H.KIND_LLM && r.provider == q.provider
       && r.policy.models == NormalModels(q.models).value && r.policy.maxOutputTokens == q.maxOutputTokens
       && r.policy.requestsPerMinute == (if q.requestsPerMinute > 0 then q.requestsPerMinute else 60)
       && r.policy.maxConcurrent == (if q.maxConcurrent > 0 then q.maxConcurrent else 4)
       && r.policy.trackUsage == q.trackUsage && r.usage == H.NO_USAGE
       && r.target in t.store && t.store[r.target].HttpSecret? && t.store[r.target].authorization == q.authorization
       && t.store[r.target].base == q.base.value.(path := t.store[r.target].base.path)
       && CutBack(q.base.value.path, t.store[r.target].base.path)
  }

  /** Exactly when an SSH route is created, and exactly which commands it then allows. */
  lemma CreateSshExactly(s: State, q: Request, env: Env)
    requires q.CreateSsh?
    ensures var o := Step(s, q, env); var digest := if q.localKey == "" then env.generated else Some(q.keyDigest);
      var user := if q.localUsername == "" then q.alias else q.localUsername;
      (o.ok <==> s.hasSsh && CreateSshAccepted(q) && digest.Some? && digest.value != H.ZERO_DIGEST && Free(s, q.alias)
                 && ValidAlias(q.alias) && ValidLocalUsername(user) && S.UsernameFree(s.ssh, q.alias, user)
                 && S.ValidReplacements(q.replacements) && (q.allowAllCommands || S.ValidCommand(q.allowedCommand))
                 && env.put && env.sshSave == Installed)
      && (o.ok ==> SshCreated(o.state, q, digest.value, user))
  {
    var digest := KeyDigest(q.localKey, q.keyDigest, env);
    if s.hasSsh && CreateSshAccepted(q) && digest.Some? {
      NewSshValid(q, digest.value);
      AddSshExactly(s, NewSshRoute(q, digest.value), SshSecret(q.address.value, q.username, q.password, q.hostKey.value), env);
      SshCreatedAs(Step(s, q, env).state, q, digest.value);
    }
  }

  lemma SshCreatedAs(t: State, q: Request, digest: H.Digest)
    requires q.CreateSsh? && CreateSshAccepted(q)
    ensures var r := NewSshRoute(q, digest);
      (q.alias in t.ssh && t.ssh[q.alias] == r && r.target in t.store
       && t.store[r.target] == SshSecret(q.address.value, q.username, q.password, q.hostKey.value))
      ==> SshCreated(t, q, digest, if q.localUsername == "" then q.alias else q.localUsername)
  {
  }

  /** The policy lets through every valid command, or the one that was named. */
  ghost predicate AllowsJust(policy: S.Policy, all: bool, command: string)
  {
    forall c :: S.AllowsCommand(policy, c) <==> S.ValidCommand(c) && (all || c == command)
  }

  ghost predicate SshCreated(t: State, q: Request, digest: H.Digest, user: string)
    requires q.CreateSsh?
  {
    q.alias in t.ssh && q.address.Some? && q.hostKey.Some?
    && var r := t.ssh[q.alias];
       r.alias == q.alias && S.Username(r) == user && !r.enabled && r.digest == digest && r.replacements == q.replacements
       && AllowsJust(r.policy, q.allowAllCommands, q.allowedCommand) && !r.policy.allowStdin && r.policy.fingerprints == {}
       && r.policy.allowSftp == q.allowSftp && r.policy.allowShell == q.allowShell && r.policy.recordCommands == q.recordCommands
       && r.target in t.store
       && t.store[r.target] == SshSecret(q.address.value, q.username, q.password, q.hostKey.value)
  }

  /** No entry is new or different. */
  predicate NothingNew(before: Store, after: Store)
  {
    forall r :: r in after ==> r in before && after[r] == before[r]
  }

  /** A creation that fails leaves no secret behind, as long as the store lets it be removed again. */
  lemma FailedCreationLeavesNothing(s: State, q: Request, env: Env)
    requires (q.CreateHttp? || q.CreateLlm? || q.CreateSsh?) && !Step(s, q, env).ok && env.delete
    ensures NothingNew(s.store, Step(s, q, env).state.store)
  {
    var plan := PlanOf(s, q, env);
    match plan {
      case Add(route, secret) => FailedAdd(s, route, secret, env);
      case AddSshRoute(route, secret) => FailedAddSsh(s, route, secret, env);
      case _ =>
    }
  }

  lemma FailedAdd(s: State, route: H.Route, secret: Secret, env: Env)
    requires !AddHttp(s, route, secret, env).ok && env.delete
    ensures NothingNew(s.store, AddHttp(s, route, secret, env).state.store)
  {
  }

  lemma FailedAddSsh(s: State, route: S.Route, secret: Secret, env: Env)
    requires !AddSsh(s, route, secret, env).ok && env.delete
    ensures NothingNew(s.store, AddSsh(s, route, secret, env).state.store)
  {
  }

  // ---- changes of one route ----

  lemma LlmPolicyAlwaysValid(r: H.Route, q: Request)
    requires H.Valid(r) && H.EffectiveKind(r) == H.KIND_LLM && q.SetLlmPolicy? && NormalModels(q.models).Some?
    requires ValidLimits(q.maxOutputTokens, q.requestsPerMinute, q.maxConcurrent, false)
    ensures H.Valid(WithLlmPolicy(r, q))
  {
    var t := WithLlmPolicy(r, q);
    assert H.KIND_LLM != H.KIND_HTTP by { assert |H.KIND_LLM| == 3 && |H.KIND_HTTP| == 4; }
    assert H.ValidLlm(r);
    assert |t.policy.methods| == 1;
    assert t.policy.methods != {};
    LlmPolicyValid(t, q.models, q.maxOutputTokens, q.requestsPerMinute, q.maxConcurrent);
  }

  /** An accepted policy of an LLM route is never refused at registration; it changes the policy alone. */
  lemma SetLlmPolicyExactly(s: State, q: Request, env: Env)
    requires Inv(s) && q.SetLlmPolicy?
    ensures var o := Step(s, q, env);
      (o.ok <==> ValidLimits(q.maxOutputTokens, q.requestsPerMinute, q.maxConcurrent, false) && NormalModels(q.models).Some?
                 && IsLlm(s.http, q.alias) && env.httpSave == Installed)
      && (o.ok ==> q.alias in o.state.http && LlmPolicySet(s.http[q.alias], o.state.http[q.alias], q))
  {
    if ValidLimits(q.maxOutputTokens, q.requestsPerMinute, q.maxConcurrent, false) && NormalModels(q.models).Some?
       && IsLlm(s.http, q.alias) {
      RegisteredFacts(s, q.alias);
      LlmPolicyAlwaysValid(s.http[q.alias], q);
    }
  }

  predicate LlmPolicySet(before: H.Route, after: H.Route, q: Request)
    requires q.SetLlmPolicy?
  {
    after == before.(policy := after.policy) && NormalModels(q.models) == Some(after.policy.models)
    && after.policy.maxOutputTokens == q.maxOutputTokens && after.policy.requestsPerMinute == q.requestsPerMinute
    && after.policy.maxConcurrent == q.maxConcurrent && after.policy.trackUsage == q.trackUsage
  }

  lemma DigestIsFree(r: H.Route, digest: H.Digest)
    requires H.Valid(r)
    ensures H.Valid(r.(digest := digest))
  {
    assert H.ValidLlm(r.(digest := digest)) == H.ValidLlm(r);
  }

  /** Rotating an LLM key changes the digest alone. */
  lemma RotateLlmExactly(s: State, q: Request, env: Env)
    requires Inv(s) && q.RotateLlmKey?
    ensures var o := Step(s, q, env); var digest := if q.localKey == "" then env.generated else Some(q.keyDigest);
      (o.ok <==> (q.localKey == "" || ValidLocalKey(q.localKey)) && digest.Some? && IsLlm(s.http, q.alias) && env.httpSave == Installed)
      && (o.ok ==> o.state.http == s.http[q.alias := s.http[q.alias].(digest := digest.value)])
  {
    if IsLlm(s.http, q.alias) {
      RegisteredFacts(s, q.alias);
      var digest := KeyDigest(q.localKey, q.keyDigest, env);
      if digest.Some? { DigestIsFree(s.http[q.alias], digest.value); }
    }
  }

  lemma SshPolicyValid(r: S.Route, q: Request)
    requires S.Valid(r) && q.SetSshPolicy? && SetSshPolicyAccepted(q)
    ensures S.Valid(WithSshPolicy(r, q)) <==>
      ValidLocalUsername(NewUsername(r, q)) && (q.allowAllCommands || S.ValidCommand(q.allowedCommand))
    ensures AllowsJust(WithSshPolicy(r, q).policy, q.allowAllCommands, q.allowedCommand)
    ensures S.Username(WithSshPolicy(r, q)) == NewUsername(r, q)
  {
    assert q.allowedCommand in {q.allowedCommand};
    assert S.Username(r) != "";
  }

  function NewUsername(r: S.Route, q: Request): string
    requires q.SetSshPolicy?
  {
    if q.localUsername == "" then S.Username(r) else q.localUsername
  }

  /** A new SSH policy: exactly when it is taken, exactly which commands it allows, and what it leaves alone. */
  lemma SetSshPolicyExactly(s: State, q: Request, env: Env)
    requires Inv(s) && q.SetSshPolicy?
    ensures var o := Step(s, q, env);
      (o.ok <==> SetSshPolicyAccepted(q) && q.alias in s.ssh && ValidLocalUsername(NewUsername(s.ssh[q.alias], q))
                 && S.UsernameFree(s.ssh, q.alias, NewUsername(s.ssh[q.alias], q))
                 && (q.allowAllCommands || S.ValidCommand(q.allowedCommand)) && env.sshSave == Installed)
      && (o.ok ==> q.alias in o.state.ssh && SshPolicySet(s.ssh[q.alias], o.state.ssh[q.alias], q))
  {
    if SetSshPolicyAccepted(q) && q.alias in s.ssh {
      RegisteredFacts(s, q.alias);
      SshPolicyValid(s.ssh[q.alias], q);
      SshPolicyIsSet(s.ssh[q.alias], q);
      ReplaceSshExactly(s, WithSshPolicy(s.ssh[q.alias], q), env);
    }
  }

  lemma SshPolicyIsSet(r: S.Route, q: Request)
    requires S.Valid(r) && q.SetSshPolicy? && SetSshPolicyAccepted(q)
    ensures SshPolicySet(r, WithSshPolicy(r, q), q)
  {
    SshPolicyValid(r, q);
  }

  lemma ReplaceSshExactly(s: State, route: S.Route, env: Env)
    ensures var o := ReplaceSsh(s, route, env);
      (o.ok <==> S.Valid(route) && S.UsernameFree(s.ssh, route.alias, S.Username(route)) && env.sshSave == Installed)
      && (o.ok ==> o.state.ssh == s.ssh[route.alias := route])
  {
  }

  ghost predicate SshPolicySet(before: S.Route, after: S.Route, q: Request)
    requires q.SetSshPolicy?
  {
    S.Username(after) == NewUsername(before, q) && AllowsJust(after.policy, q.allowAllCommands, q.allowedCommand)
    && after.policy.fingerprints == before.policy.fingerprints && !after.policy.allowStdin
    && after.policy.allowSftp == q.allowSftp && after.policy.allowShell == q.allowShell
    && after.policy.recordCommands == q.recordCommands && after.alias == before.alias && after.target == before.target
    && after.digest == before.digest && after.replacements == before.replacements && after.enabled == before.enabled
    && S.EffectiveTimeout(after) == (if q.timeout == 0 then S.EffectiveTimeout(before) else q.timeout)
  }

  lemma AliasIsNotBlank(alias: string)
    requires ValidAlias(alias)
    ensures TrimSpace(alias) != ""
  {
    assert !IsSpace(alias[0]);
    assert TrimLeft(alias) == alias;
    StaysNonBlank(alias);
  }

  lemma {:induction false} StaysNonBlank(s: string)
    requires s != "" && !IsSpace(s[0])
    ensures TrimRight(s) != ""
  {
    if IsSpace(s[|s| - 1]) { StaysNonBlank(s[..|s| - 1]); }
  }

  /** Valid replacement rules are never refused for a registered route, and change nothing but the rules. */
  lemma SetSshReplacementsExactly(s: State, q: Request, env: Env)
    requires Inv(s) && q.SetSshReplacements?
    ensures var o := Step(s, q, env);
      (o.ok <==> q.alias in s.ssh && S.ValidReplacements(q.replacements) && env.sshSave == Installed)
      && (o.ok ==> o.state.ssh == s.ssh[q.alias := s.ssh[q.alias].(replacements := q.replacements)])
  {
    if q.alias in s.ssh {
      RegisteredFacts(s, q.alias);
      AliasIsNotBlank(q.alias);
      SshStaysValid(s, q.alias, s.ssh[q.alias].(replacements := q.replacements));
    }
  }

  lemma SshStaysValid(s: State, alias: string, r: S.Route)
    requires Inv(s) && alias in s.ssh && r == s.ssh[alias].(replacements := r.replacements, digest := r.digest)
    ensures S.Valid(r) <==> S.ValidReplacements(r.replacements) && r.digest != H.ZERO_DIGEST
    ensures S.UsernameFree(s.ssh, alias, S.Username(r))
  {
    RegisteredFacts(s, alias);
    assert S.Username(r) == S.Username(s.ssh[alias]);
  }

  /** Rotating an SSH credential changes the digest alone. */
  lemma RotateSshExactly(s: State, q: Request, env: Env)
    requires Inv(s) && q.RotateSshCredential?
    ensures var o := Step(s, q, env); var digest := if q.localKey == "" then env.generated else Some(q.keyDigest);
      (o.ok <==> (q.localKey == "" || ValidLocalPassword(q.localKey)) && digest.Some? && digest.value != H.ZERO_DIGEST
                 && q.alias in s.ssh && env.sshSave == Installed)
      && (o.ok ==> o.state.ssh == s.ssh[q.alias := s.ssh[q.alias].(digest := digest.value)])
  {
    var digest := KeyDigest(q.localKey, q.keyDigest, env);
    if q.alias in s.ssh && digest.Some? {
      RegisteredFacts(s, q.alias);
      SshStaysValid(s, q.alias, s.ssh[q.alias].(digest := digest.value));
    }
  }

  /** A deletion succeeds for every registered alias whose registry is saved; the target goes too unless the store refuses. */
  lemma DeleteExactly(s: State, q: Request, env: Env)
    requires Inv(s) && q.DeleteRoute?
    ensures var o := Step(s, q, env);
      (o.ok <==> (q.alias in s.http && env.httpSave == Installed) || (q.alias in s.ssh && env.sshSave == Installed))
      && (o.ok ==> Free(o.state, q.alias))
      && (o.ok && env.delete ==> (if q.alias in s.http then HttpReference(q.alias) else SshReference(q.alias)) !in o.state.store)
  {
    RegisteredFacts(s, q.alias);
    if q.alias in s.http || q.alias in s.ssh { RegisteredAlias(s, q.alias); }
  }

  lemma RegisteredAlias(s: State, alias: string)
    requires Inv(s) && (alias in s.http || alias in s.ssh)
    ensures ValidReference(HttpReference(alias)) && ValidReference(SshReference(alias))
  {
    RegisteredFacts(s, alias);
    AliasGivesReferences(alias);
  }

  // ---- targets, settings, proxy and counters ----

  /** A new SSH target: exactly when it is taken, and that the entry holds what was given and nothing else changes. */
  lemma UpdateSshTargetExactly(s: State, q: Request, env: Env)
    requires Inv(s) && q.UpdateSshTarget?
    ensures var o := Step(s, q, env);
      (o.ok <==> UpdateSshTargetAccepted(q) && q.alias in s.ssh && env.put)
      && (!o.ok ==> o.state == s) && (o.ok ==> TargetUpdated(s, o.state, q))
  {
    RegisteredFacts(s, q.alias);
    if q.alias in s.ssh { RegisteredAlias(s, q.alias); }
  }

  predicate TargetUpdated(s: State, t: State, q: Request)
    requires q.UpdateSshTarget?
  {
    var reference := SshReference(q.alias);
    reference in t.store && t.store[reference].SshSecret?
    && Some(t.store[reference].address) == q.address && t.store[reference].username == q.username
    && t.store[reference].password == q.password && Some(t.store[reference].hostKey) == q.hostKey
    && t == s.(store := s.store[reference := t.store[reference]])
  }

  /** Switching a route succeeds exactly when it is registered and saved; then its setting alone is as asked. */
  lemma SetEnabledExactly(s: State, q: Request, env: Env)
    requires s.http.Keys !! s.ssh.Keys && q.SetEnabled?
    ensures var o := Step(s, q, env);
      (o.ok <==> (q.alias in s.http && env.httpSave == Installed) || (q.alias in s.ssh && env.sshSave == Installed))
      && (o.ok && q.alias in s.http ==> o.state.http == s.http[q.alias := s.http[q.alias].(enabled := q.enabled)])
      && (o.ok && q.alias in s.ssh ==> o.state.ssh == s.ssh[q.alias := s.ssh[q.alias].(enabled := q.enabled)])
      && o.state.store == s.store && o.state.proxy == s.proxy
  {
  }

  /** stopAll succeeds exactly when both registries are saved; then every route is disabled and otherwise as before. */
  lemma StopAllExactly(s: State, q: Request, env: Env)
    requires q.StopAll?
    ensures var o := Step(s, q, env);
      (o.ok <==> env.httpSave == Installed && (!s.hasSsh || env.sshSave == Installed))
      && (o.ok ==> o.state.store == s.store && o.state.proxy == s.proxy && o.state.http.Keys == s.http.Keys
                   && forall a :: a in s.http ==> o.state.http[a] == s.http[a].(enabled := false))
      && (o.ok && s.hasSsh ==> o.state.ssh.Keys == s.ssh.Keys && forall a :: a in s.ssh ==> o.state.ssh[a] == s.ssh[a].(enabled := false))
  {
    StopPlanExactly(s, PlanOf(s, q, env), env);
  }

  lemma StopPlanExactly(s: State, plan: Plan, env: Env)
    requires plan.Stop?
    ensures var o := Execute(s, plan, env);
      (o.ok <==> env.httpSave == Installed && (!s.hasSsh || env.sshSave == Installed))
      && (o.ok ==> o.state.store == s.store && o.state.proxy == s.proxy && o.state.http == H.AllDisabled(s.http))
      && (o.ok && s.hasSsh ==> o.state.ssh == S.AllDisabled(s.ssh))
  {
  }

  /** A proxy is taken exactly when its URL is acceptable and the put works; it is then stored and in use, as given but for the scheme,
      which is one of the four in lower case. */
  lemma ConfigureProxyExactly(s: State, q: Request, env: Env)
    requires q.ConfigureProxy?
    ensures var o := Step(s, q, env);
      (o.ok <==> q.url.Some? && ValidProxy(q.url.value) && env.put) && (!o.ok ==> o.state == s)
      && (o.ok ==> ProxyTaken(s, o.state, q.url.value))
  {
    if q.url.Some? { LowerExactly(q.url.value.scheme); }
  }

  predicate ProxyTaken(s: State, t: State, given: WebUrl)
  {
    t.proxy.Some?
    && var url := t.proxy.value;
       url == given.(scheme := url.scheme) && url.scheme in {"http", "https", "socks5", "socks5h"} && SameLetters(url.scheme, given.scheme)
       && t == s.(store := s.store[PROXY_REFERENCE := ProxySecret(url)], proxy := Some(url))
  }

  /** The proxy goes exactly when the deletion works, from the store and from use. */
  lemma ClearProxyExactly(s: State, q: Request, env: Env)
    requires q.ClearProxy?
    ensures var o := Step(s, q, env);
      o.ok == env.delete && o.state == if o.ok then s.(store := s.store - {PROXY_REFERENCE}, proxy := None) else s
  {
  }

  /** Counting: each counter of a tracked LLM route grows by what was used, modulo 2 to the 64. */
  lemma RecordUsageExactly(s: State, q: Request, env: Env)
    requires Keyed(s.http, H.AliasOf) && q.RecordUsage?
    ensures var o := Step(s, q, env);
      (o.ok <==> IsLlm(s.http, q.alias) && s.http[q.alias].policy.trackUsage) && (!o.ok ==> o.state == s)
      && (o.ok ==> q.alias in o.state.http && UsageGrown(s.http[q.alias].usage, o.state.http[q.alias].usage, q)
                   && o.state == s.(http := s.http[q.alias := s.http[q.alias].(usage := o.state.http[q.alias].usage)]))
  {
    if q.alias in s.http { assert H.AliasOf(s.http[q.alias]) == q.alias; }
  }

  predicate UsageGrown(before: H.LlmUsage, after: H.LlmUsage, q: Request)
    requires q.RecordUsage?
  {
    after.requests == (before.requests + q.requests) % 0x1_0000_0000_0000_0000
    && after.inputTokens == (before.inputTokens + q.inputTokens) % 0x1_0000_0000_0000_0000
    && after.outputTokens == (before.outputTokens + q.outputTokens) % 0x1_0000_0000_0000_0000
  }

  /** Resetting puts the counters of an LLM route to zero. */
  lemma ResetUsageExactly(s: State, q: Request, env: Env)
    requires Keyed(s.http, H.AliasOf) && q.ResetUsage?
    ensures var o := Step(s, q, env);
      o.ok == IsLlm(s.http, q.alias)
      && o.state == if o.ok then s.(http := s.http[q.alias := s.http[q.alias].(usage := H.LlmUsage(0, 0, 0))]) else s
  {
    if q.alias in s.http { assert H.AliasOf(s.http[q.alias]) == q.alias; }
  }

  // ---- everything else stays ----

  predicate SameRoutes(s: State, t: State, alias: string)
  {
    (alias in t.http <==> alias in s.http) && (alias in t.ssh <==> alias in s.ssh)
    && (alias in s.http ==> t.http[alias] == s.http[alias]) && (alias in s.ssh ==> t.ssh[alias] == s.ssh[alias])
  }

  /** The route a plan is about. */
  function Subject(plan: Plan): (r: Option<string>)
  {
    match plan
    case Add(route, _) => Some(route.alias)
    case AddSshRoute(route, _) => Some(route.alias)
    case Replace(route) => Some(route.alias)
    case ReplaceSshRoute(route) => Some(route.alias)
    case Switch(alias, _) => Some(alias)
    case Remove(alias) => Some(alias)
    case Count(route) => Some(route.alias)
    case _ => None
  }

  /** Whatever happens, a request other than stopAll changes no route but the one it names. */
  lemma OthersUntouched(s: State, q: Request, env: Env, alias: string)
    requires Inv(s) && !q.StopAll? && (!q.ConfigureProxy? && !q.ClearProxy? ==> alias != q.alias)
    ensures SameRoutes(s, Step(s, q, env).state, alias)
  {
    SubjectIsNamed(s, q, env);
    ExecuteFrame(s, PlanOf(s, q, env), env, alias);
  }

  lemma SubjectIsNamed(s: State, q: Request, env: Env)
    requires Keyed(s.http, H.AliasOf) && Keyed(s.ssh, S.AliasOf) && !q.StopAll?
    ensures var plan := PlanOf(s, q, env);
      !plan.Stop? && (Subject(plan).Some? ==> !q.ConfigureProxy? && !q.ClearProxy? && Subject(plan).value == q.alias)
  {
    if !q.ConfigureProxy? && !q.ClearProxy? {
      assert q.alias in s.http ==> H.AliasOf(s.http[q.alias]) == q.alias;
      assert q.alias in s.ssh ==> S.AliasOf(s.ssh[q.alias]) == q.alias;
    }
  }

  lemma ExecuteFrame(s: State, plan: Plan, env: Env, alias: string)
    requires !plan.Stop? && Subject(plan) != Some(alias)
    ensures SameRoutes(s, Execute(s, plan, env).state, alias)
  {
    match plan {
      case Add(route, secret) => AddHttpFrame(s, route, secret, env, alias);
      case AddSshRoute(route, secret) => AddSshFrame(s, route, secret, env, alias);
      case _ =>
    }
  }

  lemma AddHttpFrame(s: State, route: H.Route, secret: Secret, env: Env, alias: string)
    requires alias != route.alias
    ensures SameRoutes(s, AddHttp(s, route, secret, env).state, alias)
  {
  }

  lemma AddSshFrame(s: State, route: S.Route, secret: Secret, env: Env, alias: string)
    requires alias != route.alias
    ensures SameRoutes(s, AddSsh(s, route, secret, env).state, alias)
  {
  }
}
