/** What a failed request undoes, what a request may touch in the secret store, and which routes can
    come to be enabled. */
module ControlRollback {
  import opened Text
  import opened Names
  import opened Files
  import opened Secrets
  import opened ControlSpec
  import opened ControlInvariant
  import H = HttpRoutes
  import S = SshRoutes
  import HF = HttpFiles
  import SF = SshFiles

  // ---- errors ----

  /** A request that reports an error, stopAll apart, leaves both registries and the proxy as they were. */
  lemma ErrorRestores(s: State, q: Request, env: Env)
    requires !q.StopAll? && !Step(s, q, env).ok
    ensures var t := Step(s, q, env).state; t.http == s.http && t.ssh == s.ssh && t.proxy == s.proxy
  {
    FailedPlan(s, PlanOf(s, q, env), env);
  }

  lemma FailedPlan(s: State, plan: Plan, env: Env)
    requires !plan.Stop? && !Execute(s, plan, env).ok
    ensures var t := Execute(s, plan, env).state; t.http == s.http && t.ssh == s.ssh && t.proxy == s.proxy
  {
    match plan {
      case Add(route, secret) => AddShape(s, route, secret, env);
      case AddSshRoute(route, secret) => AddSshShape(s, route, secret, env);
      case Remove(gone) => RemoveShape(s, gone, env);
      case _ =>
    }
  }

  lemma AddShape(s: State, route: H.Route, secret: Secret, env: Env)
    ensures var o := AddHttp(s, route, secret, env);
      o.state.ssh == s.ssh && o.state.proxy == s.proxy && o.state.http == if o.ok then s.http[route.alias := route] else s.http
  {
  }

  lemma AddSshShape(s: State, route: S.Route, secret: Secret, env: Env)
    ensures var o := AddSsh(s, route, secret, env);
      o.state.http == s.http && o.state.proxy == s.proxy && o.state.ssh == if o.ok then s.ssh[route.alias := route] else s.ssh
  {
  }

  lemma RemoveShape(s: State, alias: string, env: Env)
    ensures var o := Delete(s, alias, env);
      o.state.proxy == s.proxy && o.state.http == (if o.ok then s.http - {alias} else s.http)
      && (o.state.ssh == s.ssh || (o.ok && o.state.ssh == s.ssh - {alias}))
  {
  }

  ghost predicate NoneEnabled(m: S.Routes) { forall alias :: alias in m ==> !m[alias].enabled }

  lemma DisabledFixpoint(m: S.Routes)
    ensures S.AllDisabled(m) == m <==> NoneEnabled(m)
  {
    var off := S.AllDisabled(m);
    if NoneEnabled(m) {
      assert forall alias :: alias in m ==> off[alias] == m[alias];
    } else {
      var alias :| alias in m && m[alias].enabled;
      assert off[alias] != m[alias];
    }
  }

  /** A failed stopAll always restores the HTTP registry; it restores the SSH registry exactly when it was
      the SSH save that failed, or when no SSH route was enabled. */
  lemma FailedStopAll(s: State, q: Request, env: Env)
    requires q.StopAll? && !Step(s, q, env).ok
    ensures var t := Step(s, q, env).state;
      t.http == s.http && t.store == s.store && t.proxy == s.proxy
      && (t.ssh == s.ssh <==> env.httpSave == Installed || NoneEnabled(s.ssh))
  {
    FailedStopPlan(s, PlanOf(s, q, env), env);
  }

  lemma FailedStopPlan(s: State, plan: Plan, env: Env)
    requires plan.Stop? && !Execute(s, plan, env).ok
    ensures var t := Execute(s, plan, env).state;
      t.http == s.http && t.store == s.store && t.proxy == s.proxy
      && (t.ssh == s.ssh <==> env.httpSave == Installed || NoneEnabled(s.ssh))
  {
    FailedStop(s, env);
  }

  lemma FailedStop(s: State, env: Env)
    requires !StopAllRoutes(s, env).ok
    ensures var t := StopAllRoutes(s, env).state;
      t.http == s.http && t.store == s.store && t.proxy == s.proxy
      && (t.ssh == s.ssh <==> env.httpSave == Installed || NoneEnabled(s.ssh))
  {
    DisabledFixpoint(s.ssh);
  }

  // ---- the secret store ----

  /** The one reference a request may write or delete. */
  function Touched(s: State, plan: Plan): (r: Option<string>)
  {
    match plan
    case Add(route, _) => Some(route.target)
    case AddSshRoute(route, _) => Some(route.target)
    case Retarget(_, reference, _) => Some(reference)
    case Remove(alias) =>
      if alias in s.http then Some(s.http[alias].target) else if alias in s.ssh then Some(s.ssh[alias].target) else None
    case UseProxy(_) => Some(PROXY_REFERENCE)
    case DropProxy => Some(PROXY_REFERENCE)
    case _ => None
  }

  predicate SameAt(a: Store, b: Store, reference: string)
  {
    (reference in a <==> reference in b) && (reference in a ==> a[reference] == b[reference])
  }

  lemma StoreFrame(s: State, plan: Plan, env: Env, reference: string)
    requires Touched(s, plan) != Some(reference)
    ensures SameAt(s.store, Execute(s, plan, env).state.store, reference)
  {
    match plan {
      case Add(route, secret) => AddFrame(s, route, secret, env, reference);
      case AddSshRoute(route, secret) => AddSshFrame(s, route, secret, env, reference);
      case Stop => StopKeepsStore(s, env);
      case _ =>
    }
  }

  lemma AddFrame(s: State, route: H.Route, secret: Secret, env: Env, reference: string)
    requires reference != route.target
    ensures SameAt(s.store, AddHttp(s, route, secret, env).state.store, reference)
  {
  }

  lemma AddSshFrame(s: State, route: S.Route, secret: Secret, env: Env, reference: string)
    requires reference != route.target
    ensures SameAt(s.store, AddSsh(s, route, secret, env).state.store, reference)
  {
  }

  lemma StopKeepsStore(s: State, env: Env)
    ensures StopAllRoutes(s, env).state.store == s.store
  {
  }

  /** The request creates an SSH route under the alias whose reference is the host identity's, and gets as far as
      storing its target. */
  ghost predicate TakesHostIdentity(s: State, q: Request, env: Env)
  {
    q.CreateSsh? && q.alias == HOST_IDENTITY_ALIAS && s.hasSsh && CreateSshAccepted(q)
    && KeyDigest(q.localKey, q.keyDigest, env).Some? && q.alias !in s.http && q.alias !in s.ssh
    && S.UsernameFree(s.ssh, q.alias, if q.localUsername == "" then q.alias else q.localUsername) && env.put
  }

  ghost predicate HasIdentity(s: State)
  {
    HOST_IDENTITY_REFERENCE in s.store && s.store[HOST_IDENTITY_REFERENCE].IdentitySecret?
  }

  lemma IdentityIsNoTarget(s: State, alias: string)
    requires Inv(s) && HasIdentity(s)
    ensures HOST_IDENTITY_ALIAS !in s.ssh
    ensures HttpReference(alias) != HOST_IDENTITY_REFERENCE && PROXY_REFERENCE != HOST_IDENTITY_REFERENCE
    ensures SshReference(alias) == HOST_IDENTITY_REFERENCE <==> alias == HOST_IDENTITY_ALIAS
  {
    ReferencesApart(alias, alias);
    ReferencesApart(HOST_IDENTITY_ALIAS, HOST_IDENTITY_ALIAS);
    assert SshReference(HOST_IDENTITY_ALIAS) == HOST_IDENTITY_REFERENCE;
  }

  /** The stored host identity survives a request exactly when the request is not such a creation. */
  lemma IdentitySurvives(s: State, q: Request, env: Env)
    requires Inv(s) && HasIdentity(s)
    ensures SameAt(s.store, Step(s, q, env).state.store, HOST_IDENTITY_REFERENCE) <==> !TakesHostIdentity(s, q, env)
  {
    PlanIsSensible(s, q, env);
    var plan := PlanOf(s, q, env);
    if q.CreateSsh? {
      IdentityIsNoTarget(s, q.alias);
      if plan.AddSshRoute? && q.alias == HOST_IDENTITY_ALIAS { TakingAdd(s, plan.sshRoute, plan.secret, env); }
      else { StoreFrame(s, plan, env, HOST_IDENTITY_REFERENCE); }
    } else {
      IdentityUntouched(s, q, env);
      StoreFrame(s, plan, env, HOST_IDENTITY_REFERENCE);
    }
  }

  lemma IdentityUntouched(s: State, q: Request, env: Env)
    requires Inv(s) && HasIdentity(s) && !q.CreateSsh?
    ensures Touched(s, PlanOf(s, q, env)) != Some(HOST_IDENTITY_REFERENCE)
  {
    PlanIsSensible(s, q, env);
    var plan := PlanOf(s, q, env);
    assert !plan.AddSshRoute?;
    if plan.Add? { IdentityIsNoTarget(s, plan.httpRoute.alias); }
    if plan.Retarget? || plan.Remove? {
      IdentityIsNoTarget(s, plan.alias);
      RegisteredFacts(s, plan.alias);
    }
  }

  lemma TakingAdd(s: State, route: S.Route, secret: Secret, env: Env)
    requires Inv(s) && HasIdentity(s) && route.target == HOST_IDENTITY_REFERENCE && secret.SshSecret?
    ensures SameAt(s.store, AddSsh(s, route, secret, env).state.store, HOST_IDENTITY_REFERENCE)
      <==> route.alias in s.http || route.alias in s.ssh || !S.UsernameFree(s.ssh, route.alias, S.Username(route)) || !env.put
  {
    assert ValidReference(HOST_IDENTITY_REFERENCE);
  }

  /** No request stores an identity. */
  lemma NoNewIdentity(s: State, q: Request, env: Env)
    requires Inv(s) && HasIdentity(Step(s, q, env).state)
    ensures HasIdentity(s)
  {
    PlanIsSensible(s, q, env);
    PlanStoresNone(s, PlanOf(s, q, env), env);
  }

  lemma PlanStoresNone(s: State, plan: Plan, env: Env)
    requires Sensible(s, plan) && HasIdentity(Execute(s, plan, env).state)
    ensures HasIdentity(s)
  {
    if Touched(s, plan) != Some(HOST_IDENTITY_REFERENCE) {
      StoreFrame(s, plan, env, HOST_IDENTITY_REFERENCE);
    } else {
      match plan {
        case Add(route, secret) => AddStores(s, route, secret, env);
        case AddSshRoute(route, secret) => AddSshStores(s, route, secret, env);
        case _ =>
      }
    }
  }

  lemma AddStores(s: State, route: H.Route, secret: Secret, env: Env)
    ensures var store := AddHttp(s, route, secret, env).state.store;
      store == s.store || store == s.store[route.target := secret] || store == s.store[route.target := secret] - {route.target}
  {
  }

  lemma AddSshStores(s: State, route: S.Route, secret: Secret, env: Env)
    ensures var store := AddSsh(s, route, secret, env).state.store;
      store == s.store || store == s.store[route.target := secret] || store == s.store[route.target := secret] - {route.target}
  {
  }

  /** No turn of the run takes the host identity's reference. */
  ghost predicate Untaken(s: State, turns: seq<Turn>)
    decreases |turns|
  {
    turns == []
    || (!TakesHostIdentity(s, turns[0].request, turns[0].env)
        && Untaken(Step(s, turns[0].request, turns[0].env).state, turns[1..]))
  }

  lemma {:induction false} NoIdentityOverRuns(s: State, turns: seq<Turn>)
    requires Inv(s) && HasIdentity(Run(s, turns))
    ensures HasIdentity(s)
    decreases |turns|
  {
    if turns != [] {
      StepKeeps(s, turns[0].request, turns[0].env);
      NoIdentityOverRuns(Step(s, turns[0].request, turns[0].env).state, turns[1..]);
      NoNewIdentity(s, turns[0].request, turns[0].env);
    }
  }

  /** Over every run the host identity stays what it was if and only if no turn takes its reference: once taken, it never comes back. */
  lemma {:induction false} IdentityOverRuns(s: State, turns: seq<Turn>)
    requires Inv(s) && HasIdentity(s)
    ensures SameAt(s.store, Run(s, turns).store, HOST_IDENTITY_REFERENCE) <==> Untaken(s, turns)
    ensures HasIdentity(Run(s, turns)) <==> Untaken(s, turns)
    decreases |turns|
  {
    if turns != [] {
      var q, env := turns[0].request, turns[0].env;
      var t := Step(s, q, env).state;
      StepKeeps(s, q, env);
      IdentitySurvives(s, q, env);
      if TakesHostIdentity(s, q, env) {
        TakenIsNone(s, q, env);
        if HasIdentity(Run(t, turns[1..])) { NoIdentityOverRuns(t, turns[1..]); }
      } else {
        IdentityOverRuns(t, turns[1..]);
      }
    }
  }

  lemma TakenIsNone(s: State, q: Request, env: Env)
    requires Inv(s) && HasIdentity(s) && TakesHostIdentity(s, q, env)
    ensures !HasIdentity(Step(s, q, env).state)
  {
    IdentityIsNoTarget(s, q.alias);
    TakingPlan(s, q, env);
    var plan := PlanOf(s, q, env);
    TakingAddLoses(s, plan.sshRoute, plan.secret, env);
  }

  lemma TakingPlan(s: State, q: Request, env: Env)
    requires TakesHostIdentity(s, q, env)
    ensures var plan := PlanOf(s, q, env);
      plan.AddSshRoute? && plan.secret.SshSecret? && plan.sshRoute.alias == q.alias && plan.sshRoute.target == SshReference(q.alias)
      && S.Username(plan.sshRoute) == (if q.localUsername == "" then q.alias else q.localUsername)
  {
  }

  lemma TakingAddLoses(s: State, route: S.Route, secret: Secret, env: Env)
    requires HasIdentity(s) && route.target == HOST_IDENTITY_REFERENCE && secret.SshSecret? && env.put
    requires route.alias !in s.http && route.alias !in s.ssh && S.UsernameFree(s.ssh, route.alias, S.Username(route))
    ensures !HasIdentity(AddSsh(s, route, secret, env).state)
  {
    assert ValidReference(HOST_IDENTITY_REFERENCE);
  }

  // ---- enabled routes ----

  ghost predicate IsEnabled(s: State, alias: string)
  {
    (alias in s.http && s.http[alias].enabled) || (alias in s.ssh && s.ssh[alias].enabled)
  }

  /** A request enables no route but the one it names in set_route_enabled. */
  lemma EnabledGrows(s: State, q: Request, env: Env, alias: string)
    requires Inv(s) && IsEnabled(Step(s, q, env).state, alias)
    ensures IsEnabled(s, alias) || q == SetEnabled(alias, true)
  {
    PlanIsSensible(s, q, env);
    var plan := PlanOf(s, q, env);
    PlanEnables(s, plan, env, alias);
    SwitchedBy(s, q, env);
  }

  lemma SwitchedBy(s: State, q: Request, env: Env)
    ensures var plan := PlanOf(s, q, env); plan.Switch? ==> q == SetEnabled(plan.alias, plan.enabled)
  {
  }

  lemma PlanEnables(s: State, plan: Plan, env: Env, alias: string)
    requires (!s.hasSsh ==> s.ssh == map[]) && Sensible(s, plan) && IsEnabled(Execute(s, plan, env).state, alias)
    ensures IsEnabled(s, alias) || plan == Switch(alias, true)
  {
    match plan {
      case Stop => StopAllShape(s, env);
      case Add(route, secret) => AddShape(s, route, secret, env);
      case AddSshRoute(route, secret) => AddSshShape(s, route, secret, env);
      case Remove(gone) => RemoveShape(s, gone, env);
      case _ =>
    }
  }

  ghost predicate Enables(turns: seq<Turn>, alias: string)
  {
    exists i :: 0 <= i < |turns| && turns[i].request == SetEnabled(alias, true)
  }

  lemma {:induction false} EnabledOverRuns(s: State, turns: seq<Turn>, alias: string)
    requires Inv(s) && IsEnabled(Run(s, turns), alias)
    ensures IsEnabled(s, alias) || Enables(turns, alias)
    decreases |turns|
  {
    if turns != [] {
      var q, env := turns[0].request, turns[0].env;
      StepKeeps(s, q, env);
      EnabledOverRuns(Step(s, q, env).state, turns[1..], alias);
      if IsEnabled(Step(s, q, env).state, alias) {
        EnabledGrows(s, q, env, alias);
      } else {
        var i :| 0 <= i < |turns[1..]| && turns[1..][i].request == SetEnabled(alias, true);
        assert turns[i + 1].request == SetEnabled(alias, true);
      }
    }
  }

  /** After a successful stopAll nothing is enabled until a request asks for it. */
  lemma StoppedStaysStopped(s: State, env: Env, turns: seq<Turn>, alias: string)
    requires Inv(s) && Step(s, StopAll, env).ok && !Enables(turns, alias)
    ensures Inv(Step(s, StopAll, env).state) && !IsEnabled(Run(Step(s, StopAll, env).state, turns), alias)
  {
    StepKeeps(s, StopAll, env);
    var t := Step(s, StopAll, env).state;
    assert !IsEnabled(t, alias);
    if IsEnabled(Run(t, turns), alias) { EnabledOverRuns(t, turns, alias); }
  }

  // ---- the two exceptions happen ----

  /** A daemon with one enabled SSH route and a host identity. */
  function Example(): State
  {
    var policy := S.Policy({}, {}, false, true, false, false, false);
    var route := S.Route("a", "a", "a", SshReference("a"), H.Digest(1), policy, "Direct", 20, [], true);
    State(map[], map["a" := route], HF.Absent, SF.Absent,
          map[SshReference("a") := SshSecret("h:22", "u", "p", "k"), HOST_IDENTITY_REFERENCE := IdentitySecret("i")], None, true)
  }

  lemma ExampleInv()
    ensures Inv(Example()) && HasIdentity(Example())
  {
    var s := Example();
    ReferencesApart("a", "a");
    assert "a" != HOST_IDENTITY_ALIAS by { assert |HOST_IDENTITY_ALIAS| > 1; }
    assert S.Valid(s.ssh["a"]) by { assert ValidAlias("a") && ValidLocalUsername("a"); }
    assert PROXY_REFERENCE !in s.store;
  }

  /** stopAll reports an error and yet leaves the SSH route switched off. */
  lemma StopAllCanHalfApply() returns (s: State, q: Request, env: Env)
    ensures Inv(s) && q.StopAll? && !Step(s, q, env).ok && Step(s, q, env).state.ssh != s.ssh
  {
    ExampleInv();
    s, q := Example(), StopAll;
    env := Env(None, true, true, NotInstalled, 0, Installed, 0, Installed, 0);
    assert s.ssh["a"].enabled;
    FailedStopAll(s, q, env);
  }

  /** A creation under the alias host-identity, with everything working. */
  lemma TakingRequest() returns (q: Request, env: Env)
    ensures q.CreateSsh? && q.alias == HOST_IDENTITY_ALIAS && q.localUsername == "" && env.put && env.sshSave == Installed
    ensures env == Env(Some(H.Digest(3)), true, true, Installed, 0, Installed, 0, Installed, 0)
    ensures CreateSshAccepted(q) && KeyDigest(q.localKey, q.keyDigest, env) == Some(H.Digest(3))
    ensures S.Valid(NewSshRoute(q, H.Digest(3)))
  {
    q := CreateSsh("n", HOST_IDENTITY_ALIAS, "", Some("h:22"), 4, "u", "p", "", H.Digest(2), Some("k"), 1, "ls", false, false,
                   false, false, 0, "", []);
    env := Env(Some(H.Digest(3)), true, true, Installed, 0, Installed, 0, Installed, 0);
    NameIsValid();
    HostAliasIsValid();
    assert S.ValidCommand("ls");
  }

  lemma HostAliasIsValid()
    ensures ValidAlias(HOST_IDENTITY_ALIAS) && ValidLocalUsername(HOST_IDENTITY_ALIAS)
  {
    assert |HOST_IDENTITY_ALIAS| == 13;
  }

  /** Creating an SSH route called host-identity replaces the host key. */
  lemma HostIdentityCanBeTaken() returns (s: State, q: Request, env: Env)
    ensures Inv(s) && HasIdentity(s)
    ensures !SameAt(s.store, Step(s, q, env).state.store, HOST_IDENTITY_REFERENCE)
  {
    ExampleInv();
    s := Example();
    q, env := TakingRequest();
    IdentityIsNoTarget(s, HOST_IDENTITY_ALIAS);
    assert S.UsernameFree(s.ssh, HOST_IDENTITY_ALIAS, HOST_IDENTITY_ALIAS) by { assert |HOST_IDENTITY_ALIAS| > 1; }
    assert TakesHostIdentity(s, q, env);
    IdentitySurvives(s, q, env);
  }

  lemma NameIsValid()
    ensures ValidName("n")
  {
    assert TrimLeft("n") == "n" && TrimRight("n") == "n";
  }
}
