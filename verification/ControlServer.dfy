/** The control server: the handlers as they run, with their hand-written rollback. */
module ControlServer {
  import opened Text
  import opened Names
  import opened Maps
  import opened Files
  import opened Secrets
  import opened ControlSpec
  import opened ControlInvariant
  import H = HttpRoutes
  import S = SshRoutes
  import HF = HttpFiles
  import SF = SshFiles

  /** Upserting the previous route undoes a replacement. */
  lemma SshPutBack(m: S.Routes, updated: S.Route)
    requires S.WellKept(m) && updated.alias in m
    ensures S.ApplyOp(m[updated.alias := updated], S.Op.Upsert(m[updated.alias])) == m
  {
    var previous, n := m[updated.alias], m[updated.alias := updated];
    assert S.AliasOf(previous) == updated.alias;
    assert S.UsernameFree(n, previous.alias, S.Username(previous));
    assert n[previous.alias := previous] == m;
  }

  lemma HttpPutBack(m: H.Routes, updated: H.Route)
    requires HF.SavableMap(m) && updated.alias in m
    ensures var previous := m[updated.alias];
      H.Valid(previous) && previous.alias == updated.alias && m[updated.alias := updated][previous.alias := previous] == m
  {
    var previous := m[updated.alias];
    assert H.AliasOf(previous) == updated.alias;
    assert m[updated.alias := updated][updated.alias := previous] == m;
  }

  lemma HttpSwitchKeeps(m: H.Routes, alias: string, enabled: bool)
    requires HF.SavableMap(m) && alias in m
    ensures HF.SavableMap(H.WithEnabled(m, alias, enabled))
  {
    assert H.AliasOf(m[alias]) == alias;
    HttpEnabledIsFree(m[alias], enabled);
    HttpPutKeeps(m, m[alias].(enabled := enabled));
  }

  lemma HttpSwitchBack(m: H.Routes, alias: string, enabled: bool)
    requires alias in m
    ensures H.WithEnabled(H.WithEnabled(m, alias, enabled), alias, m[alias].enabled) == m
  {
  }

  /** All routes disabled but those in `done`. */
  function HttpPartly(m: H.Routes, done: set<string>): H.Routes
  {
    map alias | alias in m :: if alias in done then m[alias] else m[alias].(enabled := false)
  }

  lemma HttpPartlyMore(m: H.Routes, done: set<string>, alias: string)
    requires alias in m
    ensures H.WithEnabled(HttpPartly(m, done), alias, m[alias].enabled) == HttpPartly(m, done + {alias})
  {
    var x, y := H.WithEnabled(HttpPartly(m, done), alias, m[alias].enabled), HttpPartly(m, done + {alias});
    forall a | a in m ensures x[a] == y[a] {}
  }

  lemma HttpAllDone(s: seq<H.Route>, m: H.Routes, done: set<string>)
    requires Lists(s, m, H.AliasOf) && Keyed(m, H.AliasOf) && forall j :: 0 <= j < |s| ==> H.AliasOf(s[j]) in done
    ensures HttpPartly(m, done) == m
  {
    forall a | a in m ensures a in done {
      assert m[a] in s;
      var j :| 0 <= j < |s| && s[j] == m[a];
      assert H.AliasOf(s[j]) == a;
    }
  }

  lemma SshSwitchBack(m: S.Routes, alias: string, enabled: bool)
    requires alias in m
    ensures S.WithEnabled(S.WithEnabled(m, alias, enabled), alias, m[alias].enabled) == m
  {
  }

  /** All routes disabled but those in `done`. */
  function SshPartly(m: S.Routes, done: set<string>): S.Routes
  {
    map alias | alias in m :: if alias in done then m[alias] else m[alias].(enabled := false)
  }

  lemma SshPartlyMore(m: S.Routes, done: set<string>, alias: string)
    requires alias in m
    ensures S.WithEnabled(SshPartly(m, done), alias, m[alias].enabled) == SshPartly(m, done + {alias})
  {
    var x, y := S.WithEnabled(SshPartly(m, done), alias, m[alias].enabled), SshPartly(m, done + {alias});
    forall a | a in m ensures x[a] == y[a] {}
  }

  lemma SshAllDone(s: seq<S.Route>, m: S.Routes, done: set<string>)
    requires Lists(s, m, S.AliasOf) && Keyed(m, S.AliasOf) && forall j :: 0 <= j < |s| ==> S.AliasOf(s[j]) in done
    ensures SshPartly(m, done) == m
  {
    forall a | a in m ensures a in done {
      assert m[a] in s;
      var j :| 0 <= j < |s| && s[j] == m[a];
      assert S.AliasOf(s[j]) == a;
    }
  }

  lemma SshRemovedBack(m: S.Routes, alias: string)
    requires S.WellKept(m) && alias in m
    ensures S.ApplyOp(m - {alias}, S.Op.Upsert(m[alias])) == m
  {
    var deleted, n := m[alias], m - {alias};
    assert S.AliasOf(deleted) == alias;
    assert S.UsernameFree(n, alias, S.Username(deleted));
    assert n[alias := deleted] == m;
  }

  /** The requests that need no look at the registries before they start. */
  predicate Plain(q: Request) { q.SetEnabled? || q.StopAll? || q.DeleteRoute? || q.ConfigureProxy? || q.ClearProxy? }

  ghost function Direct(s: State, q: Request, env: Env): Outcome
    requires Plain(q)
  {
    match q
    case SetEnabled(alias, enabled) => SwitchRoute(s, alias, enabled, env)
    case StopAll => ControlSpec.StopAllRoutes(s, env)
    case DeleteRoute(alias) => Delete(s, alias, env)
    case ConfigureProxy(url) => if url.Some? && ValidProxy(url.value) then SetProxy(s, LowerScheme(url.value), env) else Refuse(s)
    case ClearProxy => RemoveProxy(s, env)
  }

  lemma DirectStep(s: State, q: Request, env: Env)
    requires Plain(q)
    ensures Direct(s, q, env) == Step(s, q, env)
  {
  }

  /** What the replacement of one route comes to. */
  ghost function Replaced(s: State, plan: Plan, env: Env): Outcome
    requires plan.Reject? || plan.Replace? || plan.ReplaceSshRoute?
  {
    match plan
    case Reject => Refuse(s)
    case Replace(route) => ReplaceHttp(s, route, env)
    case ReplaceSshRoute(route) => ReplaceSsh(s, route, env)
  }

  lemma ReplacedStep(s: State, q: Request, env: Env)
    requires Updates(q)
    ensures Replaced(s, PlanUpdate(s, q, env), env) == Step(s, q, env)
  {
    assert PlanOf(s, q, env) == PlanUpdate(s, q, env);
  }

  class Server {
    const registry: H.Registry
    const hasSsh: bool
    const ssh: S.Registry
    const persistence: HF.FileStore
    const sshPersistence: SF.FileStore
    const secrets: SecretStore
    const egress: Manager

    constructor (registry: H.Registry, hasSsh: bool, ssh: S.Registry, persistence: HF.FileStore, sshPersistence: SF.FileStore,
                 secrets: SecretStore, egress: Manager)
      ensures this.registry == registry && this.hasSsh == hasSsh && this.ssh == ssh && this.persistence == persistence
      ensures this.sshPersistence == sshPersistence && this.secrets == secrets && this.egress == egress
    {
      this.registry := registry;
      this.hasSsh := hasSsh;
      this.ssh := ssh;
      this.persistence := persistence;
      this.sshPersistence := sshPersistence;
      this.secrets := secrets;
      this.egress := egress;
    }

    ghost function View(): State
      reads registry, ssh, persistence, sshPersistence, secrets, egress
    {
      State(registry.routes, ssh.routes, persistence.file, sshPersistence.file, secrets.entries, egress.proxy, hasSsh)
    }

    /** What the handlers rely on: Inv as far as it concerns the registries. */
    ghost predicate RoutesKept()
      reads registry, ssh
    {
      HF.SavableMap(registry.routes) && S.WellKept(ssh.routes) && (!hasSsh ==> ssh.routes == map[])
    }

    // ---- saving ----

    method SaveHttp(outcome: SaveOutcome, bytes: nat) returns (ok: bool)
      requires HF.SavableMap(registry.routes)
      modifies persistence
      ensures ok <==> outcome == Installed
      ensures persistence.file == SavedHttp(old(persistence.file), registry.routes, outcome, bytes)
    {
      var routes := registry.List();
      HF.RangeSavable(routes, registry.routes);
      HF.EncodeOfRange(routes, registry.routes);
      ok := persistence.Save(routes, outcome, bytes);
    }

    method SaveSsh(outcome: SaveOutcome, bytes: nat) returns (ok: bool)
      requires S.WellKept(ssh.routes)
      modifies sshPersistence
      ensures ok <==> outcome == Installed
      ensures sshPersistence.file == SavedSsh(old(sshPersistence.file), ssh.routes, outcome, bytes)
    {
      var routes := ssh.List();
      SF.RangeSavable(routes, ssh.routes);
      SF.EncodeOfRange(routes, ssh.routes);
      ok := sshPersistence.Save(routes, outcome, bytes);
    }

    // ---- one route in, or replaced, and saved; or everything back ----

    method InstallHttp(route: H.Route, env: Env) returns (upserted: bool, ok: bool)
      requires HF.SavableMap(registry.routes) && route.alias !in registry.routes && route.target == HttpReference(route.alias)
      modifies registry, persistence
      ensures upserted <==> H.Valid(route)
      ensures ok <==> upserted && env.httpSave == Installed
      ensures registry.routes == if ok then old(registry.routes)[route.alias := route] else old(registry.routes)
      ensures persistence.file ==
        if upserted then SavedHttp(old(persistence.file), old(registry.routes)[route.alias := route], env.httpSave, env.httpBytes)
        else old(persistence.file)
    {
      upserted := registry.Upsert(route);
      if !upserted { return false, false; }
      HttpPutKeeps(old(registry.routes), route);
      ok := SaveHttp(env.httpSave, env.httpBytes);
      if !ok {
        PutUndone(old(registry.routes), route.alias, route);
        var _ := registry.Delete(route.alias);
      }
    }

    method InstallSsh(route: S.Route, env: Env) returns (upserted: bool, ok: bool)
      requires S.WellKept(ssh.routes) && route.alias !in ssh.routes && S.UsernameFree(ssh.routes, route.alias, S.Username(route))
      modifies ssh, sshPersistence
      ensures upserted <==> S.Valid(route)
      ensures ok <==> upserted && env.sshSave == Installed
      ensures ssh.routes == if ok then old(ssh.routes)[route.alias := route] else old(ssh.routes)
      ensures sshPersistence.file ==
        if upserted then SavedSsh(old(sshPersistence.file), old(ssh.routes)[route.alias := route], env.sshSave, env.sshBytes)
        else old(sshPersistence.file)
    {
      var result := ssh.Upsert(route);
      upserted := result.Upserted?;
      if !upserted { return false, false; }
      S.PutKeeps(old(ssh.routes), route);
      ok := SaveSsh(env.sshSave, env.sshBytes);
      if !ok {
        PutUndone(old(ssh.routes), route.alias, route);
        var _ := ssh.Delete(route.alias);
      }
    }

    method ReplaceHttpRoute(previous: H.Route, updated: H.Route, env: Env) returns (ok: bool)
      requires HF.SavableMap(registry.routes) && updated.alias in registry.routes && previous == registry.routes[updated.alias]
      requires updated.target == HttpReference(updated.alias)
      modifies registry, persistence
      ensures ok <==> H.Valid(updated) && env.httpSave == Installed
      ensures registry.routes == if ok then old(registry.routes)[updated.alias := updated] else old(registry.routes)
      ensures persistence.file ==
        if H.Valid(updated) then SavedHttp(old(persistence.file), old(registry.routes)[updated.alias := updated], env.httpSave, env.httpBytes)
        else old(persistence.file)
    {
      var upserted := registry.Upsert(updated);
      if !upserted { return false; }
      HttpPutKeeps(old(registry.routes), updated);
      ok := SaveHttp(env.httpSave, env.httpBytes);
      if !ok {
        HttpPutBack(old(registry.routes), updated);
        var _ := registry.Upsert(previous);
      }
    }

    method ReplaceSshRoute(previous: S.Route, updated: S.Route, env: Env) returns (ok: bool)
      requires S.WellKept(ssh.routes) && updated.alias in ssh.routes && previous == ssh.routes[updated.alias]
      modifies ssh, sshPersistence
      ensures var accepted := S.Valid(updated) && S.UsernameFree(old(ssh.routes), updated.alias, S.Username(updated));
        (ok <==> accepted && env.sshSave == Installed)
        && ssh.routes == (if ok then old(ssh.routes)[updated.alias := updated] else old(ssh.routes))
        && sshPersistence.file ==
           if accepted then SavedSsh(old(sshPersistence.file), old(ssh.routes)[updated.alias := updated], env.sshSave, env.sshBytes)
           else old(sshPersistence.file)
    {
      var upserted := ssh.Upsert(updated);
      if !upserted.Upserted? { return false; }
      S.PutKeeps(old(ssh.routes), updated);
      ok := SaveSsh(env.sshSave, env.sshBytes);
      if !ok {
        SshPutBack(old(ssh.routes), updated);
        var _ := ssh.Upsert(previous);
      }
    }

    // ---- creating routes ----

    method AddHttpRoute(route: H.Route, secret: Secret, env: Env) returns (ok: bool)
      requires RoutesKept() && Sensible(View(), Add(route, secret))
      modifies registry, persistence, secrets
      ensures Outcome(View(), ok) == AddHttp(old(View()), route, secret, env)
    {
      var taken := registry.Get(route.alias);
      if taken.Some? { return false; }
      if hasSsh {
        var takenSsh := ssh.Get(route.alias);
        if takenSsh.Some? { return false; }
      }
      var stored := secrets.Store(route.target, secret, env.put);
      if !stored { return false; }
      var upserted;
      upserted, ok := InstallHttp(route, env);
      if !ok { var _ := secrets.DeleteTarget(route.target, env.delete); }
    }

    method AddSshRoute(route: S.Route, secret: Secret, env: Env) returns (ok: bool)
      requires RoutesKept() && Sensible(View(), ControlSpec.AddSshRoute(route, secret))
      modifies ssh, sshPersistence, secrets
      ensures Outcome(View(), ok) == AddSsh(old(View()), route, secret, env)
    {
      var taken := registry.Get(route.alias);
      if taken.Some? { return false; }
      var takenSsh := ssh.Get(route.alias);
      if takenSsh.Some? { return false; }
      var owner := ssh.GetByUsername(S.Username(route));
      assert owner.None? <==> S.UsernameFree(ssh.routes, route.alias, S.Username(route));
      if owner.Some? { return false; }
      var stored := secrets.Store(route.target, secret, env.put);
      if !stored { return false; }
      var upserted;
      upserted, ok := InstallSsh(route, env);
      if !ok { var _ := secrets.DeleteTarget(route.target, env.delete); }
    }

    // ---- switching and stopping routes ----

    method SwitchHttp(alias: string, enabled: bool, env: Env) returns (ok: bool)
      requires HF.SavableMap(registry.routes) && alias in registry.routes
      modifies registry, persistence
      ensures ok <==> env.httpSave == Installed
      ensures registry.routes == if ok then H.WithEnabled(old(registry.routes), alias, enabled) else old(registry.routes)
      ensures persistence.file ==
        SavedHttp(old(persistence.file), H.WithEnabled(old(registry.routes), alias, enabled), env.httpSave, env.httpBytes)
    {
      var previous := registry.routes[alias];
      var _ := registry.SetEnabled(alias, enabled);
      HttpSwitchKeeps(old(registry.routes), alias, enabled);
      ok := SaveHttp(env.httpSave, env.httpBytes);
      if !ok {
        HttpSwitchBack(old(registry.routes), alias, enabled);
        var _ := registry.SetEnabled(alias, previous.enabled);
      }
    }

    method SwitchSsh(alias: string, enabled: bool, env: Env) returns (ok: bool)
      requires S.WellKept(ssh.routes) && alias in ssh.routes
      modifies ssh, sshPersistence
      ensures ok <==> env.sshSave == Installed
      ensures ssh.routes == if ok then S.WithEnabled(old(ssh.routes), alias, enabled) else old(ssh.routes)
      ensures sshPersistence.file ==
        SavedSsh(old(sshPersistence.file), S.WithEnabled(old(ssh.routes), alias, enabled), env.sshSave, env.sshBytes)
    {
      var previous := ssh.routes[alias];
      var _ := ssh.SetEnabled(alias, enabled);
      S.ApplyOpKeeps(old(ssh.routes), S.Op.SetEnabled(alias, enabled));
      ok := SaveSsh(env.sshSave, env.sshBytes);
      if !ok {
        SshSwitchBack(old(ssh.routes), alias, enabled);
        var _ := ssh.SetEnabled(alias, previous.enabled);
      }
    }

    method SetRouteEnabled(alias: string, enabled: bool, env: Env) returns (ok: bool)
      requires RoutesKept()
      modifies registry, persistence, ssh, sshPersistence
      ensures Outcome(View(), ok) == SwitchRoute(old(View()), alias, enabled, env)
    {
      var route := registry.Get(alias);
      if route.Some? {
        ok := SwitchHttp(alias, enabled, env);
        return;
      }
      if !hasSsh { return false; }
      var sshRoute := ssh.Get(alias);
      if sshRoute.None? { return false; }
      ok := SwitchSsh(alias, enabled, env);
    }

    /** The loop that gives each HTTP route its former setting back. */
    method RestoreHttp(previous: seq<H.Route>, ghost m: H.Routes)
      requires Lists(previous, m, H.AliasOf) && Keyed(m, H.AliasOf) && registry.routes == H.AllDisabled(m)
      modifies registry
      ensures registry.routes == m
    {
      ghost var done: set<string> := {};
      assert registry.routes == HttpPartly(m, done);
      for i := 0 to |previous|
        invariant registry.routes == HttpPartly(m, done)
        invariant forall j :: 0 <= j < i ==> H.AliasOf(previous[j]) in done
      {
        assert H.AliasOf(previous[i]) in m && m[H.AliasOf(previous[i])] == previous[i];
        HttpPartlyMore(m, done, previous[i].alias);
        var _ := registry.SetEnabled(previous[i].alias, previous[i].enabled);
        done := done + {previous[i].alias};
      }
      HttpAllDone(previous, m, done);
    }

    method RestoreSsh(previous: seq<S.Route>, ghost m: S.Routes)
      requires Lists(previous, m, S.AliasOf) && Keyed(m, S.AliasOf) && ssh.routes == S.AllDisabled(m)
      modifies ssh
      ensures ssh.routes == m
    {
      ghost var done: set<string> := {};
      assert ssh.routes == SshPartly(m, done);
      for i := 0 to |previous|
        invariant ssh.routes == SshPartly(m, done)
        invariant forall j :: 0 <= j < i ==> S.AliasOf(previous[j]) in done
      {
        assert S.AliasOf(previous[i]) in m && m[S.AliasOf(previous[i])] == previous[i];
        SshPartlyMore(m, done, previous[i].alias);
        var _ := ssh.SetEnabled(previous[i].alias, previous[i].enabled);
        done := done + {previous[i].alias};
      }
      SshAllDone(previous, m, done);
    }

    /** After a failed SSH save: both registries back, and the HTTP file written once more. */
    method RestoreBoth(previous: seq<H.Route>, previousSsh: seq<S.Route>, ghost m: H.Routes, ghost n: S.Routes, env: Env)
      requires Lists(previous, m, H.AliasOf) && HF.SavableMap(m) && registry.routes == H.AllDisabled(m)
      requires Lists(previousSsh, n, S.AliasOf) && S.WellKept(n) && ssh.routes == S.AllDisabled(n)
      modifies registry, ssh, persistence
      ensures registry.routes == m && ssh.routes == n
      ensures persistence.file == SavedHttp(old(persistence.file), m, env.undoSave, env.undoBytes)
    {
      RestoreHttp(previous, m);
      RestoreSsh(previousSsh, n);
      HF.RangeSavable(previous, m);
      HF.EncodeOfRange(previous, m);
      var _ := persistence.Save(previous, env.undoSave, env.undoBytes);
    }

    method StopAllRoutes(env: Env) returns (ok: bool)
      requires RoutesKept()
      modifies registry, persistence, ssh, sshPersistence
      ensures Outcome(View(), ok) == ControlSpec.StopAllRoutes(old(View()), env)
    {
      var previous, previousSsh := DisableAll();
      ok := SaveStoppedHttp(previous, old(registry.routes), env);
      if ok && hasSsh { ok := SaveStoppedSsh(previous, previousSsh, old(registry.routes), old(ssh.routes), env); }
    }

    /** The lists from before, and every route disabled. */
    method DisableAll() returns (previous: seq<H.Route>, previousSsh: seq<S.Route>)
      requires RoutesKept()
      modifies registry, ssh
      ensures Lists(previous, old(registry.routes), H.AliasOf) && registry.routes == H.AllDisabled(old(registry.routes))
      ensures ssh.routes == S.AllDisabled(old(ssh.routes)) && (hasSsh ==> Lists(previousSsh, old(ssh.routes), S.AliasOf))
    {
      previous := registry.List();
      previousSsh := [];
      if hasSsh { previousSsh := ssh.List(); }
      registry.DisableAll();
      if hasSsh { ssh.DisableAll(); }
    }

    /** The HTTP half of stopAll: a failed save brings the HTTP registry back. */
    method SaveStoppedHttp(previous: seq<H.Route>, ghost m: H.Routes, env: Env) returns (ok: bool)
      requires Lists(previous, m, H.AliasOf) && HF.SavableMap(m) && registry.routes == H.AllDisabled(m)
      modifies registry, persistence
      ensures ok <==> env.httpSave == Installed
      ensures registry.routes == if ok then H.AllDisabled(m) else m
      ensures persistence.file == SavedHttp(old(persistence.file), H.AllDisabled(m), env.httpSave, env.httpBytes)
    {
      HttpDisabledKeeps(m);
      ok := SaveHttp(env.httpSave, env.httpBytes);
      if !ok { RestoreHttp(previous, m); }
    }

    /** The SSH half of stopAll, once the HTTP file is saved. */
    method SaveStoppedSsh(previous: seq<H.Route>, previousSsh: seq<S.Route>, ghost m: H.Routes, ghost n: S.Routes, env: Env) returns (ok: bool)
      requires Lists(previous, m, H.AliasOf) && HF.SavableMap(m) && registry.routes == H.AllDisabled(m)
      requires Lists(previousSsh, n, S.AliasOf) && S.WellKept(n) && ssh.routes == S.AllDisabled(n)
      modifies registry, persistence, ssh, sshPersistence
      ensures ok <==> env.sshSave == Installed
      ensures registry.routes == (if ok then H.AllDisabled(m) else m) && ssh.routes == (if ok then S.AllDisabled(n) else n)
      ensures sshPersistence.file == SavedSsh(old(sshPersistence.file), S.AllDisabled(n), env.sshSave, env.sshBytes)
      ensures persistence.file ==
        if ok then old(persistence.file) else SavedHttp(old(persistence.file), m, env.undoSave, env.undoBytes)
    {
      S.DisabledKeeps(n);
      ok := SaveSsh(env.sshSave, env.sshBytes);
      if !ok { RestoreBoth(previous, previousSsh, m, n, env); }
    }

    // ---- deleting a route ----

    method RemoveHttp(alias: string, env: Env) returns (ok: bool)
      requires HF.SavableMap(registry.routes) && alias in registry.routes
      modifies registry, persistence
      ensures ok <==> env.httpSave == Installed
      ensures registry.routes == if ok then old(registry.routes) - {alias} else old(registry.routes)
      ensures persistence.file == SavedHttp(old(persistence.file), old(registry.routes) - {alias}, env.httpSave, env.httpBytes)
    {
      assert H.AliasOf(registry.routes[alias]) == alias;
      var deleted := registry.Delete(alias);
      HttpDropKeeps(old(registry.routes), alias);
      ok := SaveHttp(env.httpSave, env.httpBytes);
      if !ok {
        RemoveUndone(old(registry.routes), alias);
        var _ := registry.Upsert(deleted.value);
      }
    }

    method RemoveSsh(alias: string, env: Env) returns (ok: bool)
      requires S.WellKept(ssh.routes) && alias in ssh.routes
      modifies ssh, sshPersistence
      ensures ok <==> env.sshSave == Installed
      ensures ssh.routes == if ok then old(ssh.routes) - {alias} else old(ssh.routes)
      ensures sshPersistence.file == SavedSsh(old(sshPersistence.file), old(ssh.routes) - {alias}, env.sshSave, env.sshBytes)
    {
      var deleted := ssh.Delete(alias);
      S.ApplyOpKeeps(old(ssh.routes), S.Op.Delete(alias));
      ok := SaveSsh(env.sshSave, env.sshBytes);
      if !ok {
        SshRemovedBack(old(ssh.routes), alias);
        var _ := ssh.Upsert(deleted.value);
      }
    }

    /** A target that cannot be removed is only a warning. */
    method DeleteRoute(alias: string, env: Env) returns (ok: bool)
      requires RoutesKept()
      modifies registry, persistence, ssh, sshPersistence, secrets
      ensures Outcome(View(), ok) == Delete(old(View()), alias, env)
    {
      var route := registry.Get(alias);
      if route.Some? {
        ok := RemoveHttp(alias, env);
        if ok { var _ := secrets.DeleteTarget(route.value.target, env.delete); }
        return;
      }
      if !hasSsh { return false; }
      var sshRoute := ssh.Get(alias);
      if sshRoute.None? { return false; }
      ok := RemoveSsh(alias, env);
      if ok { var _ := secrets.DeleteTarget(sshRoute.value.target, env.delete); }
    }

    // ---- the proxy ----

    method ConfigureProxy(url: Option<WebUrl>, env: Env) returns (ok: bool)
      modifies secrets, egress
      ensures var s, accepted := old(View()), url.Some? && ValidProxy(url.value);
        Outcome(View(), ok) == if accepted then SetProxy(s, LowerScheme(url.value), env) else Refuse(s)
    {
      if url.None? || !ValidProxy(url.value) { return false; }
      LowerIdempotent(url.value.scheme);
      ok := InstallProxy(LowerScheme(url.value), env);
    }

    /** Configure cannot refuse a URL that is valid. */
    method InstallProxy(proxy: WebUrl, env: Env) returns (ok: bool)
      requires ValidProxy(proxy)
      modifies secrets, egress
      ensures ok == env.put && egress.proxy == (if ok then Some(proxy) else old(egress.proxy))
      ensures secrets.entries == if ok then old(secrets.entries)[PROXY_REFERENCE := ProxySecret(proxy)] else old(secrets.entries)
    {
      assert ValidReference(PROXY_REFERENCE);
      var stored := secrets.Store(PROXY_REFERENCE, ProxySecret(proxy), env.put);
      if !stored { return false; }
      ok := egress.Configure(proxy);
    }

    method ClearProxy(env: Env) returns (ok: bool)
      modifies secrets, egress
      ensures Outcome(View(), ok) == RemoveProxy(old(View()), env)
    {
      var deletion := secrets.DeleteTarget(PROXY_REFERENCE, env.delete);
      if deletion.Failed? { return false; }
      egress.Clear();
      ok := true;
    }

    // ---- requests ----

    method CreateHttpRoute(q: Request, env: Env) returns (ok: bool)
      requires RoutesKept() && q.CreateHttp?
      modifies registry, persistence, secrets
      ensures Outcome(View(), ok) == Step(old(View()), q, env)
    {
      if !CreateHttpAccepted(q) || env.generated.None? { return false; }
      ok := AddHttpRoute(NewHttpRoute(q, env.generated.value), HttpSecret(q.base.value, q.authorization, ""), env);
    }

    method CreateLlmRoute(q: Request, env: Env) returns (ok: bool)
      requires RoutesKept() && q.CreateLlm?
      modifies registry, persistence, secrets
      ensures Outcome(View(), ok) == Step(old(View()), q, env)
    {
      if !CreateLlmAccepted(q) { return false; }
      var digest := KeyDigest(q.localKey, q.keyDigest, env);
      if digest.None? { return false; }
      ok := AddHttpRoute(NewLlmRoute(q, digest.value), LlmSecret(q), env);
    }

    method SetLlmPolicy(q: Request, env: Env) returns (ok: bool)
      requires HF.SavableMap(registry.routes) && q.SetLlmPolicy?
      modifies registry, persistence
      ensures Outcome(View(), ok) == Replaced(old(View()), PlanUpdate(old(View()), q, env), env)
    {
      if !ValidLimits(q.maxOutputTokens, q.requestsPerMinute, q.maxConcurrent, false) { return false; }
      var models := NormalizeModels(q.models);
      if models.None? { return false; }
      var previous := registry.Get(q.alias);
      if previous.None? || H.EffectiveKind(previous.value) != H.KIND_LLM { return false; }
      assert H.AliasOf(previous.value) == q.alias;
      ok := ReplaceHttpRoute(previous.value, WithLlmPolicy(previous.value, q), env);
    }

    method RotateLlmKey(q: Request, env: Env) returns (ok: bool)
      requires HF.SavableMap(registry.routes) && q.RotateLlmKey?
      modifies registry, persistence
      ensures Outcome(View(), ok) == Replaced(old(View()), PlanUpdate(old(View()), q, env), env)
    {
      if q.localKey != "" && !ValidLocalKey(q.localKey) { return false; }
      var digest := KeyDigest(q.localKey, q.keyDigest, env);
      if digest.None? { return false; }
      var previous := registry.Get(q.alias);
      if previous.None? || H.EffectiveKind(previous.value) != H.KIND_LLM { return false; }
      assert H.AliasOf(previous.value) == q.alias;
      var updated := previous.value.(digest := digest.value);
      ok := ReplaceHttpRoute(previous.value, updated, env);
    }

    method CreateSshRoute(q: Request, env: Env) returns (ok: bool)
      requires RoutesKept() && q.CreateSsh?
      modifies ssh, sshPersistence, secrets
      ensures Outcome(View(), ok) == Step(old(View()), q, env)
    {
      if !hasSsh || !CreateSshAccepted(q) { return false; }
      var digest := KeyDigest(q.localKey, q.keyDigest, env);
      if digest.None? { return false; }
      var route := NewSshRoute(q, digest.value);
      ok := AddSshRoute(route, SshSecret(q.address.value, q.username, q.password, q.hostKey.value), env);
    }

    method SetSshPolicy(q: Request, env: Env) returns (ok: bool)
      requires S.WellKept(ssh.routes) && q.SetSshPolicy?
      modifies ssh, sshPersistence
      ensures Outcome(View(), ok) == Replaced(old(View()), PlanUpdate(old(View()), q, env), env)
    {
      if !hasSsh || !SetSshPolicyAccepted(q) { return false; }
      var previous := ssh.Get(q.alias);
      if previous.None? { return false; }
      assert S.AliasOf(previous.value) == q.alias;
      ok := ReplaceSshRoute(previous.value, WithSshPolicy(previous.value, q), env);
    }

    method SetSshReplacements(q: Request, env: Env) returns (ok: bool)
      requires S.WellKept(ssh.routes) && q.SetSshReplacements?
      modifies ssh, sshPersistence
      ensures Outcome(View(), ok) == Replaced(old(View()), PlanUpdate(old(View()), q, env), env)
    {
      if !hasSsh || TrimSpace(q.alias) == "" || |q.alias| > 63 || !S.ValidReplacements(q.replacements) { return false; }
      var previous := ssh.Get(q.alias);
      if previous.None? { return false; }
      assert S.AliasOf(previous.value) == q.alias;
      var updated := previous.value.(replacements := q.replacements);
      ok := ReplaceSshRoute(previous.value, updated, env);
    }

    method UpdateSshTarget(q: Request, env: Env) returns (ok: bool)
      requires q.UpdateSshTarget?
      modifies secrets
      ensures Outcome(View(), ok) == Step(old(View()), q, env)
    {
      if !hasSsh || !UpdateSshTargetAccepted(q) { return false; }
      var route := ssh.Get(q.alias);
      if route.None? { return false; }
      ok := secrets.Store(route.value.target, SshSecret(q.address.value, q.username, q.password, q.hostKey.value), env.put);
    }

    method RotateSshCredential(q: Request, env: Env) returns (ok: bool)
      requires S.WellKept(ssh.routes) && q.RotateSshCredential?
      modifies ssh, sshPersistence
      ensures Outcome(View(), ok) == Replaced(old(View()), PlanUpdate(old(View()), q, env), env)
    {
      if !hasSsh || (q.localKey != "" && !ValidLocalPassword(q.localKey)) { return false; }
      var digest := KeyDigest(q.localKey, q.keyDigest, env);
      if digest.None? { return false; }
      var previous := ssh.Get(q.alias);
      if previous.None? { return false; }
      assert S.AliasOf(previous.value) == q.alias;
      ok := ReplaceSshRoute(previous.value, previous.value.(digest := digest.value), env);
    }

    method ResetUsage(q: Request, env: Env) returns (ok: bool)
      requires Keyed(registry.routes, H.AliasOf) && q.ResetUsage?
      modifies registry
      ensures Outcome(View(), ok) == Step(old(View()), q, env)
    {
      if q.alias in registry.routes { assert H.AliasOf(registry.routes[q.alias]) == q.alias; }
      ok := registry.ResetUsage(q.alias);
    }

    method RecordUsage(q: Request, env: Env) returns (ok: bool)
      requires Keyed(registry.routes, H.AliasOf) && q.RecordUsage?
      modifies registry
      ensures Outcome(View(), ok) == Step(old(View()), q, env)
    {
      if q.alias in registry.routes { assert H.AliasOf(registry.routes[q.alias]) == q.alias; }
      ok := registry.RecordUsage(q.alias, q.requests, q.inputTokens, q.outputTokens);
    }

    /** Every request, handled step by step with its rollback, does exactly what the transaction says and keeps the invariant. */
    method Handle(q: Request, env: Env) returns (ok: bool)
      requires Inv(View())
      modifies registry, persistence, ssh, sshPersistence, secrets, egress
      ensures Outcome(View(), ok) == Step(old(View()), q, env) && Inv(View())
    {
      StepKeeps(View(), q, env);
      ok := Dispatch(q, env);
    }

    method Dispatch(q: Request, env: Env) returns (ok: bool)
      requires RoutesKept()
      modifies registry, persistence, ssh, sshPersistence, secrets, egress
      ensures Outcome(View(), ok) == Step(old(View()), q, env)
    {
      if Plain(q) {
        DirectStep(View(), q, env);
        ok := DispatchPlain(q, env);
      } else if Updates(q) {
        ReplacedStep(View(), q, env);
        ok := DispatchUpdate(q, env);
      } else {
        ok := DispatchRoute(q, env);
      }
    }

    /** Requests that go by an alias, concern all routes, or concern none. */
    method DispatchPlain(q: Request, env: Env) returns (ok: bool)
      requires RoutesKept() && Plain(q)
      modifies registry, persistence, ssh, sshPersistence, secrets, egress
      ensures Outcome(View(), ok) == Direct(old(View()), q, env)
    {
      match q {
        case SetEnabled(alias, enabled) => ok := SetRouteEnabled(alias, enabled, env);
        case StopAll => ok := StopAllRoutes(env);
        case DeleteRoute(alias) => ok := DeleteRoute(alias, env);
        case ConfigureProxy(url) => ok := ConfigureProxy(url, env);
        case ClearProxy => ok := ClearProxy(env);
      }
    }

    /** Requests that replace one route. */
    method DispatchUpdate(q: Request, env: Env) returns (ok: bool)
      requires RoutesKept() && Updates(q)
      modifies registry, persistence, ssh, sshPersistence
      ensures Outcome(View(), ok) == Replaced(old(View()), PlanUpdate(old(View()), q, env), env)
    {
      match q {
        case SetLlmPolicy(_, _, _, _, _, _) => ok := SetLlmPolicy(q, env);
        case RotateLlmKey(_, _, _) => ok := RotateLlmKey(q, env);
        case SetSshPolicy(_, _, _, _, _, _, _, _, _, _) => ok := SetSshPolicy(q, env);
        case SetSshReplacements(_, _) => ok := SetSshReplacements(q, env);
        case RotateSshCredential(_, _, _) => ok := RotateSshCredential(q, env);
      }
    }

    /** Requests that create a route, replace a target, or count. */
    method DispatchRoute(q: Request, env: Env) returns (ok: bool)
      requires RoutesKept() && !Plain(q) && !Updates(q)
      modifies registry, persistence, ssh, sshPersistence, secrets
      ensures Outcome(View(), ok) == Step(old(View()), q, env)
    {
      match q {
        case CreateHttp(_, _, _, _, _) => ok := CreateHttpRoute(q, env);
        case CreateLlm(_, _, _, _, _, _, _, _, _, _, _, _, _) => ok := CreateLlmRoute(q, env);
        case ResetUsage(_) => ok := ResetUsage(q, env);
        case RecordUsage(_, _, _, _) => ok := RecordUsage(q, env);
        case CreateSsh(_, _, _, _, _, _, _, _, _, _, _, _, _, _, _, _, _, _, _) => ok := CreateSshRoute(q, env);
        case UpdateSshTarget(_, _, _, _, _, _, _) => ok := UpdateSshTarget(q, env);
      }
    }
  }

  /** normalizeLLMModels: trimmed names, each once; absent when one is not acceptable. */
  method NormalizeModels(models: seq<string>) returns (result: Option<set<string>>)
    ensures result == NormalModels(models)
  {
    if |models| == 0 || |models| > 32 { return None; }
    var seen: set<string> := {};
    for i := 0 to |models|
      invariant seen == set m | m in models[..i] :: TrimSpace(m)
      invariant forall j :: 0 <= j < i ==> AcceptableModel(TrimSpace(models[j]))
    {
      var model := TrimSpace(models[i]);
      if !AcceptableModel(model) { return None; }
      assert models[..i + 1] == models[..i] + [models[i]];
      seen := seen + {model};
    }
    assert models[..|models|] == models;
    result := Some(seen);
  }
}
