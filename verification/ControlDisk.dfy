/** When the metadata files agree with the registries. */
module ControlDisk {
  import opened Text
  import opened Names
  import opened Maps
  import opened Files
  import opened RouteCodec
  import opened ControlSpec
  import opened ControlInvariant
  import opened ControlRollback
  import H = HttpRoutes
  import S = SshRoutes
  import HF = HttpFiles
  import SF = SshFiles

  /** Loading the file gives the registry, after normalisation, in alias order. */
  ghost predicate HttpAgrees(file: HF.File, m: H.Routes) { HF.DecodeFile(file) == Ok(Listing(HF.NormalMap(m))) }

  ghost predicate SshAgrees(file: SF.File, m: S.Routes) { SF.DecodeFile(file) == Ok(Listing(SF.NormalMap(m))) }

  ghost predicate DiskAgrees(s: State)
  {
    HttpAgrees(s.httpFile, s.http) && (s.hasSsh ==> SshAgrees(s.sshFile, s.ssh))
  }

  // ---- one file ----

  /** A file that agrees with one registry agrees with those of the same normalisation, and no others. */
  lemma HttpAgreesWith(file: HF.File, m: H.Routes, n: H.Routes)
    requires Keyed(m, H.AliasOf) && Keyed(n, H.AliasOf) && HttpAgrees(file, m)
    ensures HttpAgrees(file, n) <==> HF.NormalMap(m) == HF.NormalMap(n)
  {
    assert forall k :: k in m ==> H.AliasOf(HF.NormalMap(m)[k]) == H.AliasOf(m[k]);
    assert forall k :: k in n ==> H.AliasOf(HF.NormalMap(n)[k]) == H.AliasOf(n[k]);
    ListingInjective(HF.NormalMap(m), HF.NormalMap(n), H.AliasOf);
  }

  lemma SshAgreesWith(file: SF.File, m: S.Routes, n: S.Routes)
    requires Keyed(m, S.AliasOf) && Keyed(n, S.AliasOf) && SshAgrees(file, m)
    ensures SshAgrees(file, n) <==> SF.NormalMap(m) == SF.NormalMap(n)
  {
    assert forall k :: k in m ==> S.AliasOf(SF.NormalMap(m)[k]) == S.AliasOf(m[k]);
    assert forall k :: k in n ==> S.AliasOf(SF.NormalMap(n)[k]) == S.AliasOf(n[k]);
    ListingInjective(SF.NormalMap(m), SF.NormalMap(n), S.AliasOf);
  }

  /** A save of `m` leaves a file that agrees with registry `n`. */
  ghost predicate HttpFaithful(file: HF.File, m: H.Routes, n: H.Routes, outcome: SaveOutcome, bytes: nat)
  {
    if outcome == NotInstalled then HttpAgrees(file, n)
    else bytes <= MAX_METADATA_BYTES && HF.NormalMap(m) == HF.NormalMap(n)
  }

  ghost predicate SshFaithful(file: SF.File, m: S.Routes, n: S.Routes, outcome: SaveOutcome, bytes: nat)
  {
    if outcome == NotInstalled then SshAgrees(file, n)
    else bytes <= MAX_METADATA_BYTES && SF.NormalMap(m) == SF.NormalMap(n)
  }

  lemma HttpSaveExact(file: HF.File, m: H.Routes, n: H.Routes, outcome: SaveOutcome, bytes: nat)
    requires HF.SavableMap(m) && HF.SavableMap(n)
    ensures HttpAgrees(SavedHttp(file, m, outcome, bytes), n) <==> HttpFaithful(file, m, n, outcome, bytes)
  {
    if outcome != NotInstalled && bytes <= MAX_METADATA_BYTES {
      HF.LoadOfRegistry(m, bytes);
      HttpAgreesWith(HF.Present(Some(HF.DocumentOf(m)), bytes), m, n);
    }
  }

  lemma SshSaveExact(file: SF.File, m: S.Routes, n: S.Routes, outcome: SaveOutcome, bytes: nat)
    requires S.WellKept(m) && S.WellKept(n)
    ensures SshAgrees(SavedSsh(file, m, outcome, bytes), n) <==> SshFaithful(file, m, n, outcome, bytes)
  {
    if outcome != NotInstalled && bytes <= MAX_METADATA_BYTES {
      SF.LoadOfRegistry(m, bytes);
      SshAgreesWith(SF.Present(Some(SF.DocumentOf(m)), bytes), m, n);
    }
  }

  // ---- one request ----

  /** The registry a request tries to save, if it gets that far. */
  datatype Attempt = NoSave | HttpSave(http: H.Routes) | SshSave(ssh: S.Routes)

  ghost function AttemptOf(s: State, plan: Plan, env: Env): (a: Attempt)
  {
    match plan
    case Add(route, _) =>
      if route.alias in s.http || route.alias in s.ssh || !ValidReference(route.target) || !env.put || !H.Valid(route)
      then NoSave else HttpSave(s.http[route.alias := route])
    case AddSshRoute(route, _) =>
      if route.alias in s.http || route.alias in s.ssh || !S.UsernameFree(s.ssh, route.alias, S.Username(route))
         || !ValidReference(route.target) || !env.put || !S.Valid(route)
      then NoSave else SshSave(s.ssh[route.alias := route])
    case Replace(route) => if H.Valid(route) then HttpSave(s.http[route.alias := route]) else NoSave
    case ReplaceSshRoute(route) =>
      if S.Valid(route) && S.UsernameFree(s.ssh, route.alias, S.Username(route)) then SshSave(s.ssh[route.alias := route]) else NoSave
    case Switch(alias, enabled) =>
      if alias in s.http then HttpSave(H.WithEnabled(s.http, alias, enabled))
      else if alias in s.ssh then SshSave(S.WithEnabled(s.ssh, alias, enabled)) else NoSave
    case Remove(alias) =>
      if alias in s.http then HttpSave(s.http - {alias}) else if alias in s.ssh then SshSave(s.ssh - {alias}) else NoSave
    case _ => NoSave
  }

  /** Apart from usage counters, a request changes the registries and the files as the commit of its attempt does. */
  lemma ExecuteIsCommit(s: State, plan: Plan, env: Env)
    requires Sensible(s, plan) && !plan.Stop? && !plan.Count?
    ensures var t := Execute(s, plan, env).state;
      match AttemptOf(s, plan, env)
      case NoSave => t.http == s.http && t.ssh == s.ssh && t.httpFile == s.httpFile && t.sshFile == s.sshFile && t.hasSsh == s.hasSsh
      case HttpSave(m) =>
        var c := CommitHttp(s, m, env).state;
        t.http == c.http && t.httpFile == c.httpFile && t.ssh == s.ssh && t.sshFile == s.sshFile && t.hasSsh == s.hasSsh
      case SshSave(m) =>
        var c := CommitSsh(s, m, env).state;
        t.ssh == c.ssh && t.sshFile == c.sshFile && t.http == s.http && t.httpFile == s.httpFile && t.hasSsh == s.hasSsh
  {
  }

  /** The save of the attempt leaves files that agree with the registries. */
  ghost predicate Faithful(s: State, a: Attempt, env: Env)
  {
    match a
    case NoSave => true
    case HttpSave(m) => HttpFaithful(s.httpFile, m, if env.httpSave == Installed then m else s.http, env.httpSave, env.httpBytes)
    case SshSave(m) => SshFaithful(s.sshFile, m, if env.sshSave == Installed then m else s.ssh, env.sshSave, env.sshBytes)
  }

  ghost predicate AttemptKept(s: State, a: Attempt)
  {
    match a
    case NoSave => true
    case HttpSave(m) => HF.SavableMap(m)
    case SshSave(m) => S.WellKept(m) && s.hasSsh
  }

  lemma AttemptIsKept(s: State, plan: Plan, env: Env)
    requires Inv(s) && Sensible(s, plan)
    ensures AttemptKept(s, AttemptOf(s, plan, env))
  {
    ghost var always := env.(httpSave := Installed, sshSave := Installed);
    ExecuteKeeps(s, plan, always);
    if !plan.Stop? && !plan.Count? { ExecuteIsCommit(s, plan, always); }
  }

  /** Of every request but stopAll, exactly which outcomes of its save keep disk and registries in agreement. */
  lemma DiskAfterRequest(s: State, q: Request, env: Env)
    requires Inv(s) && DiskAgrees(s) && !q.StopAll?
    ensures DiskAgrees(Step(s, q, env).state) <==> Faithful(s, AttemptOf(s, PlanOf(s, q, env), env), env)
  {
    PlanIsSensible(s, q, env);
    NotStop(s, q, env);
    DiskAfterPlan(s, PlanOf(s, q, env), env);
  }

  lemma NotStop(s: State, q: Request, env: Env)
    ensures PlanOf(s, q, env).Stop? <==> q.StopAll?
  {
  }

  lemma DiskAfterPlan(s: State, plan: Plan, env: Env)
    requires Inv(s) && Sensible(s, plan) && DiskAgrees(s) && !plan.Stop?
    ensures DiskAgrees(Execute(s, plan, env).state) <==> Faithful(s, AttemptOf(s, plan, env), env)
  {
    AttemptIsKept(s, plan, env);
    if plan.Count? {
      CountUnseen(s, plan.httpRoute);
    } else {
      ExecuteIsCommit(s, plan, env);
      DiskAfterCommit(s, AttemptOf(s, plan, env), env, Execute(s, plan, env).state);
    }
  }

  lemma DiskAfterCommit(s: State, a: Attempt, env: Env, t: State)
    requires HF.SavableMap(s.http) && S.WellKept(s.ssh) && DiskAgrees(s) && AttemptKept(s, a) && t.hasSsh == s.hasSsh
    requires match a
      case NoSave => t.http == s.http && t.ssh == s.ssh && t.httpFile == s.httpFile && t.sshFile == s.sshFile
      case HttpSave(m) =>
        var c := CommitHttp(s, m, env).state;
        t.http == c.http && t.httpFile == c.httpFile && t.ssh == s.ssh && t.sshFile == s.sshFile
      case SshSave(m) =>
        var c := CommitSsh(s, m, env).state;
        t.ssh == c.ssh && t.sshFile == c.sshFile && t.http == s.http && t.httpFile == s.httpFile
    ensures DiskAgrees(t) <==> Faithful(s, a, env)
  {
    match a {
      case NoSave =>
      case HttpSave(m) => HttpSaveExact(s.httpFile, m, t.http, env.httpSave, env.httpBytes);
      case SshSave(m) => SshSaveExact(s.sshFile, m, t.ssh, env.sshSave, env.sshBytes);
    }
  }

  /** Usage counters are not written to disk. */
  lemma CountUnseen(s: State, route: H.Route)
    requires Sensible(s, Count(route)) && DiskAgrees(s)
    ensures DiskAgrees(s.(http := s.http[route.alias := route]))
  {
    var m := s.http[route.alias := route];
    forall alias | alias in m ensures HF.NormalMap(m)[alias] == HF.NormalMap(s.http)[alias] {}
    assert HF.NormalMap(m) == HF.NormalMap(s.http);
  }

  // ---- stopAll ----

  ghost predicate NoHttpEnabled(m: H.Routes) { forall alias :: alias in m ==> !m[alias].enabled }

  lemma HttpDisabledSeen(m: H.Routes)
    ensures HF.NormalMap(H.AllDisabled(m)) == HF.NormalMap(m) <==> NoHttpEnabled(m)
  {
    var off, seen := HF.NormalMap(H.AllDisabled(m)), HF.NormalMap(m);
    if NoHttpEnabled(m) {
      forall alias | alias in m ensures off[alias] == seen[alias] { assert m[alias].(enabled := false) == m[alias]; }
    } else {
      var alias :| alias in m && m[alias].enabled;
      assert off[alias] != seen[alias];
    }
  }

  lemma SshDisabledSeen(m: S.Routes)
    ensures SF.NormalMap(S.AllDisabled(m)) == SF.NormalMap(m) <==> NoneEnabled(m)
  {
    var off, seen := SF.NormalMap(S.AllDisabled(m)), SF.NormalMap(m);
    if NoneEnabled(m) {
      forall alias | alias in m ensures off[alias] == seen[alias] { assert m[alias].(enabled := false) == m[alias]; }
    } else {
      var alias :| alias in m && m[alias].enabled;
      assert off[alias] != seen[alias];
    }
  }

  /** The outcomes of stopAll's saves that keep disk and registries in agreement. */
  ghost predicate StopFaithful(s: State, env: Env)
  {
    if env.httpSave == NotInstalled then NoneEnabled(s.ssh)
    else if env.httpSave == InstalledButFailed then
      env.httpBytes <= MAX_METADATA_BYTES && NoHttpEnabled(s.http) && NoneEnabled(s.ssh)
    else if !s.hasSsh then env.httpBytes <= MAX_METADATA_BYTES
    else if env.sshSave == Installed then env.httpBytes <= MAX_METADATA_BYTES && env.sshBytes <= MAX_METADATA_BYTES
    else
      (if env.undoSave == NotInstalled then env.httpBytes <= MAX_METADATA_BYTES && NoHttpEnabled(s.http)
       else env.undoBytes <= MAX_METADATA_BYTES)
      && (env.sshSave == InstalledButFailed ==> env.sshBytes <= MAX_METADATA_BYTES && NoneEnabled(s.ssh))
  }

  lemma StopFiles(s: State, env: Env)
    ensures var t, off, offSsh := StopAllRoutes(s, env).state, H.AllDisabled(s.http), S.AllDisabled(s.ssh);
      var saved := SavedHttp(s.httpFile, off, env.httpSave, env.httpBytes);
      var done := env.httpSave == Installed && (!s.hasSsh || env.sshSave == Installed);
      t.http == (if done then off else s.http) && t.hasSsh == s.hasSsh
      && t.httpFile == (if env.httpSave == Installed && !done then SavedHttp(saved, s.http, env.undoSave, env.undoBytes) else saved)
      && (s.hasSsh ==> t.ssh == if env.httpSave != Installed || done then offSsh else s.ssh)
      && (!s.hasSsh || t.sshFile == if env.httpSave == Installed then SavedSsh(s.sshFile, offSsh, env.sshSave, env.sshBytes) else s.sshFile)
  {
  }

  lemma HttpOffExact(file: HF.File, m: H.Routes, outcome: SaveOutcome, bytes: nat)
    requires HF.SavableMap(m) && HttpAgrees(file, m)
    ensures var off := H.AllDisabled(m); var saved := SavedHttp(file, off, outcome, bytes);
      (HttpAgrees(saved, m) <==> outcome == NotInstalled || (bytes <= MAX_METADATA_BYTES && NoHttpEnabled(m)))
      && (outcome == Installed ==> (HttpAgrees(saved, off) <==> bytes <= MAX_METADATA_BYTES))
  {
    var off := H.AllDisabled(m);
    HttpDisabledKeeps(m);
    HttpDisabledSeen(m);
    HttpSaveExact(file, off, m, outcome, bytes);
    HttpSaveExact(file, off, off, outcome, bytes);
  }

  lemma SshOffExact(file: SF.File, m: S.Routes, outcome: SaveOutcome, bytes: nat)
    requires S.WellKept(m) && SshAgrees(file, m)
    ensures var off := S.AllDisabled(m); var saved := SavedSsh(file, off, outcome, bytes);
      (SshAgrees(file, off) <==> NoneEnabled(m))
      && (SshAgrees(saved, m) <==> outcome == NotInstalled || (bytes <= MAX_METADATA_BYTES && NoneEnabled(m)))
      && (outcome == Installed ==> (SshAgrees(saved, off) <==> bytes <= MAX_METADATA_BYTES))
  {
    var off := S.AllDisabled(m);
    S.DisabledKeeps(m);
    SshDisabledSeen(m);
    SshAgreesWith(file, m, off);
    SshSaveExact(file, off, m, outcome, bytes);
    SshSaveExact(file, off, off, outcome, bytes);
  }

  /** Exactly which outcomes of its saves leave disk and registries in agreement after stopAll. */
  lemma DiskAfterStopAll(s: State, q: Request, env: Env)
    requires Inv(s) && DiskAgrees(s) && q.StopAll?
    ensures DiskAgrees(Step(s, q, env).state) <==> StopFaithful(s, env)
  {
    NotStop(s, q, env);
    DiskAfterStop(s, PlanOf(s, q, env), env);
  }

  lemma DiskAfterStop(s: State, plan: Plan, env: Env)
    requires Inv(s) && DiskAgrees(s) && plan.Stop?
    ensures DiskAgrees(Execute(s, plan, env).state) <==> StopFaithful(s, env)
  {
    StopDisk(s, env);
    StopIsStopAll(s, plan, env);
  }

  lemma StopIsStopAll(s: State, plan: Plan, env: Env)
    requires plan.Stop?
    ensures Execute(s, plan, env) == StopAllRoutes(s, env)
  {
  }

  lemma StopDisk(s: State, env: Env)
    requires Inv(s) && DiskAgrees(s)
    ensures DiskAgrees(StopAllRoutes(s, env).state) <==> StopFaithful(s, env)
  {
    StopFiles(s, env);
    HttpOffExact(s.httpFile, s.http, env.httpSave, env.httpBytes);
    var saved := SavedHttp(s.httpFile, H.AllDisabled(s.http), env.httpSave, env.httpBytes);
    HttpSaveExact(saved, s.http, s.http, env.undoSave, env.undoBytes);
    if s.hasSsh { SshOffExact(s.sshFile, s.ssh, env.sshSave, env.sshBytes); } else { assert s.ssh == map[]; }
  }

  // ---- runs ----

  /** Every failing save leaves the old file, and the files fit the size Load accepts. */
  predicate Clean(env: Env)
  {
    env.httpSave != InstalledButFailed && env.sshSave != InstalledButFailed && env.undoSave != InstalledButFailed
    && env.httpBytes <= MAX_METADATA_BYTES && env.sshBytes <= MAX_METADATA_BYTES && env.undoBytes <= MAX_METADATA_BYTES
  }

  /** With clean saves, disk and registries agree after every request but a failed stopAll. */
  lemma CleanStepAgrees(s: State, q: Request, env: Env)
    requires Inv(s) && DiskAgrees(s) && Clean(env)
    requires q.StopAll? ==> Step(s, q, env).ok
    ensures DiskAgrees(Step(s, q, env).state)
  {
    PlanIsSensible(s, q, env);
    NotStop(s, q, env);
    CleanPlanAgrees(s, PlanOf(s, q, env), env);
  }

  lemma CleanPlanAgrees(s: State, plan: Plan, env: Env)
    requires Inv(s) && Sensible(s, plan) && DiskAgrees(s) && Clean(env)
    requires plan.Stop? ==> Execute(s, plan, env).ok
    ensures DiskAgrees(Execute(s, plan, env).state)
  {
    if plan.Stop? {
      DiskAfterStop(s, plan, env);
      StopIsStopAll(s, plan, env);
      CleanStop(s, env);
    } else {
      DiskAfterPlan(s, plan, env);
      AttemptIsKept(s, plan, env);
      CleanIsFaithful(s, AttemptOf(s, plan, env), env);
    }
  }

  lemma CleanIsFaithful(s: State, a: Attempt, env: Env)
    requires DiskAgrees(s) && Clean(env) && AttemptKept(s, a)
    ensures Faithful(s, a, env)
  {
  }

  lemma CleanStop(s: State, env: Env)
    requires Clean(env) && StopAllRoutes(s, env).ok
    ensures StopFaithful(s, env)
  {
  }

  ghost predicate NoFailedStopAll(s: State, turns: seq<Turn>)
    decreases |turns|
  {
    turns == []
    || var o := Step(s, turns[0].request, turns[0].env);
       (turns[0].request.StopAll? ==> o.ok) && NoFailedStopAll(o.state, turns[1..])
  }

  lemma {:induction false} DiskOverRuns(s: State, turns: seq<Turn>)
    requires Inv(s) && DiskAgrees(s) && NoFailedStopAll(s, turns)
    requires forall i :: 0 <= i < |turns| ==> Clean(turns[i].env)
    ensures DiskAgrees(Run(s, turns)) && Inv(Run(s, turns))
    decreases |turns|
  {
    if turns != [] {
      var q, env := turns[0].request, turns[0].env;
      StepKeeps(s, q, env);
      CleanStepAgrees(s, q, env);
      DiskOverRuns(Step(s, q, env).state, turns[1..]);
    }
  }
}
