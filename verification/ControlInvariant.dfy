/** What every run of control requests keeps, with any call failing. */
module ControlInvariant {
  import opened Text
  import opened Names
  import opened Secrets
  import opened ControlSpec
  import H = HttpRoutes
  import S = SshRoutes
  import HF = HttpFiles
  import SF = SshFiles

  // ---- single changes ----

  lemma HttpPutKeeps(m: H.Routes, r: H.Route)
    requires HF.SavableMap(m) && HF.Savable(r)
    ensures HF.SavableMap(m[r.alias := r])
  {
    var n := m[r.alias := r];
    forall alias | alias in n ensures H.AliasOf(n[alias]) == alias && H.Valid(n[alias]) && n[alias].target == HttpReference(alias) {
      if alias != r.alias { assert H.AliasOf(m[alias]) == alias; }
    }
  }

  lemma HttpDropKeeps(m: H.Routes, alias: string)
    requires HF.SavableMap(m)
    ensures HF.SavableMap(m - {alias})
  {
    var n := m - {alias};
    forall a | a in n ensures H.AliasOf(n[a]) == a && H.Valid(n[a]) && n[a].target == HttpReference(a) {
      assert H.AliasOf(m[a]) == a;
    }
  }

  lemma HttpEnabledIsFree(r: H.Route, enabled: bool)
    ensures HF.Savable(r.(enabled := enabled)) <==> HF.Savable(r)
  {
    var t := r.(enabled := enabled);
    assert H.ValidLlm(t) <==> H.ValidLlm(r);
  }

  lemma HttpUsageIsFree(r: H.Route, usage: H.LlmUsage)
    ensures HF.Savable(r.(usage := usage)) <==> HF.Savable(r)
  {
    var t := r.(usage := usage);
    assert H.ValidLlm(t) <==> H.ValidLlm(r);
  }

  lemma HttpDisabledKeeps(m: H.Routes)
    requires HF.SavableMap(m)
    ensures HF.SavableMap(H.AllDisabled(m))
  {
    var n := H.AllDisabled(m);
    forall a | a in n ensures H.AliasOf(n[a]) == a && H.Valid(n[a]) && n[a].target == HttpReference(a) {
      assert H.AliasOf(m[a]) == a;
      HttpEnabledIsFree(m[a], false);
    }
  }

  ghost predicate Stored(store: Store, http: H.Routes, ssh: S.Routes)
  {
    (forall alias :: alias in http ==> HttpReference(alias) in store && store[HttpReference(alias)].HttpSecret?)
    && (forall alias :: alias in ssh ==> SshReference(alias) in store && store[SshReference(alias)].SshSecret?)
  }

  // ---- transactions ----

  lemma CommitHttpKeeps(s: State, m: H.Routes, env: Env)
    requires Inv(s) && HF.SavableMap(m) && m.Keys !! s.ssh.Keys && Stored(s.store, m, s.ssh)
    ensures Inv(CommitHttp(s, m, env).state)
  {
  }

  lemma CommitSshKeeps(s: State, m: S.Routes, env: Env)
    requires Inv(s) && s.hasSsh && S.WellKept(m) && s.http.Keys !! m.Keys && Stored(s.store, s.http, m)
    ensures Inv(CommitSsh(s, m, env).state)
  {
  }

  /** Writing a reference keeps what the registries and the proxy rely on. */
  lemma StorePutKeeps(s: State, reference: string, secret: Secret)
    requires Inv(s) && reference != PROXY_REFERENCE
    requires forall alias :: alias in s.http && reference == HttpReference(alias) ==> secret.HttpSecret?
    requires forall alias :: alias in s.ssh && reference == SshReference(alias) ==> secret.SshSecret?
    ensures Inv(s.(store := s.store[reference := secret]))
  {
  }

  /** Dropping a reference no route uses keeps the invariant. */
  lemma StoreDropKeeps(s: State, reference: string, works: bool)
    requires Inv(s) && reference != PROXY_REFERENCE
    requires forall alias :: alias in s.http ==> reference != HttpReference(alias)
    requires forall alias :: alias in s.ssh ==> reference != SshReference(alias)
    ensures Inv(s.(store := Drop(s.store, reference, works)))
  {
  }

  lemma AddHttpKeeps(s: State, route: H.Route, secret: Secret, env: Env)
    requires Inv(s) && route.target == HttpReference(route.alias) && secret.HttpSecret?
    ensures Inv(AddHttp(s, route, secret, env).state)
  {
    if route.alias !in s.http && route.alias !in s.ssh && ValidReference(route.target) && env.put {
      forall a ensures route.target != SshReference(a) && (route.target == HttpReference(a) <==> a == route.alias) {
        ReferencesApart(route.alias, a);
      }
      ReferencesApart(route.alias, route.alias);
      StorePutKeeps(s, route.target, secret);
      var stored := s.(store := s.store[route.target := secret]);
      if H.Valid(route) {
        HttpPutKeeps(s.http, route);
        CommitHttpKeeps(stored, s.http[route.alias := route], env);
        var o := CommitHttp(stored, s.http[route.alias := route], env);
        if !o.ok { StoreDropKeeps(o.state, route.target, env.delete); }
      } else {
        StoreDropKeeps(stored, route.target, env.delete);
      }
    }
  }

  lemma AddSshKeeps(s: State, route: S.Route, secret: Secret, env: Env)
    requires Inv(s) && s.hasSsh && route.target == SshReference(route.alias) && secret.SshSecret?
    ensures Inv(AddSsh(s, route, secret, env).state)
  {
    if route.alias !in s.http && route.alias !in s.ssh && S.UsernameFree(s.ssh, route.alias, S.Username(route))
       && ValidReference(route.target) && env.put {
      forall a ensures route.target != HttpReference(a) && (route.target == SshReference(a) <==> a == route.alias) {
        ReferencesApart(a, route.alias);
      }
      ReferencesApart(route.alias, route.alias);
      StorePutKeeps(s, route.target, secret);
      var stored := s.(store := s.store[route.target := secret]);
      if S.Valid(route) {
        S.PutKeeps(s.ssh, route);
        CommitSshKeeps(stored, s.ssh[route.alias := route], env);
        var o := CommitSsh(stored, s.ssh[route.alias := route], env);
        if !o.ok { StoreDropKeeps(o.state, route.target, env.delete); }
      } else {
        StoreDropKeeps(stored, route.target, env.delete);
      }
    }
  }

  lemma ReplaceHttpKeeps(s: State, route: H.Route, env: Env)
    requires Inv(s) && route.alias in s.http && route.target == HttpReference(route.alias)
    ensures Inv(ReplaceHttp(s, route, env).state)
  {
    if H.Valid(route) {
      HttpPutKeeps(s.http, route);
      CommitHttpKeeps(s, s.http[route.alias := route], env);
    }
  }

  lemma ReplaceSshKeeps(s: State, route: S.Route, env: Env)
    requires Inv(s) && s.hasSsh && route.alias in s.ssh
    ensures Inv(ReplaceSsh(s, route, env).state)
  {
    if S.Valid(route) && S.UsernameFree(s.ssh, route.alias, S.Username(route)) {
      S.PutKeeps(s.ssh, route);
      CommitSshKeeps(s, s.ssh[route.alias := route], env);
    }
  }

  lemma DeleteKeeps(s: State, alias: string, env: Env)
    requires Inv(s)
    ensures Inv(Delete(s, alias, env).state)
  {
    forall a, b ensures HttpReference(a) != SshReference(b) && (HttpReference(a) == HttpReference(b) <==> a == b)
      && (SshReference(a) == SshReference(b) <==> a == b)
    { ReferencesApart(a, b); }
    ReferencesApart(alias, alias);
    if alias in s.http {
      RegisteredFacts(s, alias);
      HttpDropKeeps(s.http, alias);
      CommitHttpKeeps(s, s.http - {alias}, env);
      var o := CommitHttp(s, s.http - {alias}, env);
      if o.ok { StoreDropKeeps(o.state, HttpReference(alias), env.delete); }
    } else if alias in s.ssh {
      S.ApplyOpKeeps(s.ssh, S.Op.Delete(alias));
      CommitSshKeeps(s, s.ssh - {alias}, env);
      var o := CommitSsh(s, s.ssh - {alias}, env);
      if o.ok { StoreDropKeeps(o.state, SshReference(alias), env.delete); }
    }
  }

  /** Replacing routes by others under the same aliases. */
  lemma SameAliasesKeep(s: State, http: H.Routes, ssh: S.Routes, httpFile: HF.File, sshFile: SF.File)
    requires Inv(s) && HF.SavableMap(http) && S.WellKept(ssh) && http.Keys == s.http.Keys && ssh.Keys == s.ssh.Keys
    ensures Inv(s.(http := http, ssh := ssh, httpFile := httpFile, sshFile := sshFile))
  {
    var t := s.(http := http, ssh := ssh, httpFile := httpFile, sshFile := sshFile);
    assert TargetsStored(t) by {
      forall alias | alias in http ensures HttpReference(alias) in t.store && t.store[HttpReference(alias)].HttpSecret? {
        assert alias in s.http;
      }
      forall alias | alias in ssh ensures SshReference(alias) in t.store && t.store[SshReference(alias)].SshSecret? {
        assert alias in s.ssh;
      }
    }
  }

  /** Each registry is either left alone or has every route disabled, and nothing but the files changes besides. */
  lemma StopAllShape(s: State, env: Env)
    requires !s.hasSsh ==> s.ssh == map[]
    ensures var t := StopAllRoutes(s, env).state;
      (t.http == s.http || t.http == H.AllDisabled(s.http)) && (t.ssh == s.ssh || t.ssh == S.AllDisabled(s.ssh))
      && t == s.(http := t.http, ssh := t.ssh, httpFile := t.httpFile, sshFile := t.sshFile)
  {
  }

  lemma StopAllKeeps(s: State, env: Env)
    requires Inv(s)
    ensures Inv(StopAllRoutes(s, env).state)
  {
    HttpDisabledKeeps(s.http);
    S.DisabledKeeps(s.ssh);
    StopAllShape(s, env);
    var t := StopAllRoutes(s, env).state;
    assert t.http.Keys == s.http.Keys && t.ssh.Keys == s.ssh.Keys;
    SameAliasesKeep(s, t.http, t.ssh, t.httpFile, t.sshFile);
  }

  lemma SwitchKeeps(s: State, alias: string, enabled: bool, env: Env)
    requires Inv(s)
    ensures Inv(Execute(s, Switch(alias, enabled), env).state)
  {
    RegisteredFacts(s, alias);
    if alias in s.http {
      HttpEnabledIsFree(s.http[alias], enabled);
      HttpPutKeeps(s.http, s.http[alias].(enabled := enabled));
      CommitHttpKeeps(s, H.WithEnabled(s.http, alias, enabled), env);
    } else if alias in s.ssh {
      S.ApplyOpKeeps(s.ssh, S.Op.SetEnabled(alias, enabled));
      CommitSshKeeps(s, S.WithEnabled(s.ssh, alias, enabled), env);
    }
  }

  lemma CountKeeps(s: State, route: H.Route)
    requires Inv(s) && Sensible(s, Count(route))
    ensures Inv(s.(http := s.http[route.alias := route]))
  {
    RegisteredFacts(s, route.alias);
    HttpUsageIsFree(s.http[route.alias], route.usage);
    HttpPutKeeps(s.http, route);
  }

  lemma RetargetKeeps(s: State, alias: string, secret: Secret)
    requires Inv(s) && alias in s.ssh && secret.SshSecret?
    ensures Inv(s.(store := s.store[SshReference(alias) := secret]))
  {
    forall a ensures SshReference(alias) != HttpReference(a) { ReferencesApart(a, alias); }
    ReferencesApart(alias, alias);
    StorePutKeeps(s, SshReference(alias), secret);
  }

  lemma ProxyPutKeeps(s: State, url: WebUrl)
    requires Inv(s) && ValidProxy(url)
    ensures Inv(s.(store := s.store[PROXY_REFERENCE := ProxySecret(url)], proxy := Some(url)))
  {
    ProxyIsNoTarget();
  }

  lemma ProxyDropKeeps(s: State)
    requires Inv(s)
    ensures Inv(s.(store := s.store - {PROXY_REFERENCE}, proxy := None))
  {
    ProxyIsNoTarget();
  }

  lemma ProxyIsNoTarget()
    ensures forall a :: HttpReference(a) != PROXY_REFERENCE && SshReference(a) != PROXY_REFERENCE
  {
    forall a ensures HttpReference(a) != PROXY_REFERENCE && SshReference(a) != PROXY_REFERENCE { ReferencesApart(a, a); }
  }

  lemma ExecuteKeeps(s: State, plan: Plan, env: Env)
    requires Inv(s) && Sensible(s, plan)
    ensures Inv(Execute(s, plan, env).state)
  {
    match plan {
      case Reject =>
      case Add(route, secret) => AddHttpKeeps(s, route, secret, env);
      case AddSshRoute(route, secret) => AddSshKeeps(s, route, secret, env);
      case Replace(route) => ReplaceHttpKeeps(s, route, env);
      case ReplaceSshRoute(route) => ReplaceSshKeeps(s, route, env);
      case Retarget(alias, _, secret) => RetargetKeeps(s, alias, secret);
      case Switch(alias, enabled) => SwitchKeeps(s, alias, enabled, env);
      case Stop => StopAllKeeps(s, env);
      case Remove(alias) => DeleteKeeps(s, alias, env);
      case UseProxy(url) => ProxyPutKeeps(s, url);
      case DropProxy => ProxyDropKeeps(s);
      case Count(route) => CountKeeps(s, route);
    }
  }

  /** Every request, with every outcome of its calls, keeps the invariant. */
  lemma StepKeeps(s: State, q: Request, env: Env)
    requires Inv(s)
    ensures Inv(Step(s, q, env).state)
  {
    PlanIsSensible(s, q, env);
    ExecuteKeeps(s, PlanOf(s, q, env), env);
  }

  // ---- runs ----

  datatype Turn = Turn(request: Request, env: Env)

  ghost function Run(s: State, turns: seq<Turn>): (t: State)
    decreases |turns|
  {
    if turns == [] then s else Run(Step(s, turns[0].request, turns[0].env).state, turns[1..])
  }

  /** Over every run: aliases stay disjoint, user names distinct, routes valid and under their own
      reference, every target stored, and the proxy in use is the stored one. */
  lemma {:induction false} RunKeeps(s: State, turns: seq<Turn>)
    requires Inv(s)
    ensures Inv(Run(s, turns))
    decreases |turns|
  {
    if turns != [] {
      StepKeeps(s, turns[0].request, turns[0].env);
      RunKeeps(Step(s, turns[0].request, turns[0].env).state, turns[1..]);
    }
  }
}
