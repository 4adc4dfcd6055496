/** The control plane as atomic transactions: what each request does to the registries, the
    metadata files, the secret store and the proxy, for every outcome of the calls it makes. */
module ControlSpec {
  import opened Text
  import opened Names
  import opened Files
  import opened Secrets
  import H = HttpRoutes
  import S = SshRoutes
  import HF = HttpFiles
  import SF = SshFiles

  // ---- requests ----

  datatype Request =
    | CreateHttp(name: string, alias: string, base: Option<WebUrl>, authorization: string, egress: string)
    | CreateLlm(name: string, alias: string, base: Option<WebUrl>, authorization: string, egress: string, provider: string,
                models: seq<string>, maxOutputTokens: int, requestsPerMinute: int, maxConcurrent: int, trackUsage: bool,
                localKey: string, keyDigest: H.Digest)
    | SetLlmPolicy(alias: string, models: seq<string>, maxOutputTokens: int, requestsPerMinute: int, maxConcurrent: int,
                   trackUsage: bool)
    | RotateLlmKey(alias: string, localKey: string, keyDigest: H.Digest)
    | ResetUsage(alias: string)
    | CreateSsh(name: string, alias: string, localUsername: string, address: Option<string>, addressBytes: nat,
                username: string, password: string, localKey: string, keyDigest: H.Digest, hostKey: Option<string>,
                hostKeyBytes: nat, allowedCommand: string, allowAllCommands: bool, recordCommands: bool, allowSftp: bool,
                allowShell: bool, timeout: int, egress: string, replacements: seq<S.Replacement>)
    | SetSshPolicy(alias: string, name: string, localUsername: string, allowedCommand: string, allowAllCommands: bool,
                   recordCommands: bool, allowSftp: bool, allowShell: bool, timeout: int, egress: string)
    | SetSshReplacements(alias: string, replacements: seq<S.Replacement>)
    | UpdateSshTarget(alias: string, address: Option<string>, username: string, password: string, hostKey: Option<string>,
                      hostKeyBytes: nat, egress: string)
    | RotateSshCredential(alias: string, localKey: string, keyDigest: H.Digest)
    | SetEnabled(alias: string, enabled: bool)
    | StopAll
    | DeleteRoute(alias: string)
    | ConfigureProxy(url: Option<WebUrl>)
    | ClearProxy
    | RecordUsage(alias: string, requests: nat, inputTokens: nat, outputTokens: nat)

  /** What the environment answers: the generated key digest, whether store calls work, how saves end
      and how large the encoded files are. */
  datatype Env = Env(generated: Option<H.Digest>, put: bool, delete: bool, httpSave: SaveOutcome, httpBytes: nat,
                     sshSave: SaveOutcome, sshBytes: nat, undoSave: SaveOutcome, undoBytes: nat)

  datatype State = State(http: H.Routes, ssh: S.Routes, httpFile: HF.File, sshFile: SF.File, store: Store,
                         proxy: Option<WebUrl>, hasSsh: bool)

  // ---- input checks ----

  predicate NoneOf(s: string, chars: string) { forall c | c in chars :: c !in s }

  predicate ValidName(name: string) { TrimSpace(name) != "" && |name| <= 80 }

  predicate HttpUrl(base: Option<WebUrl>)
  {
    base.Some? && base.value.host != "" && base.value.scheme in {"http", "https"}
  }

  predicate ValidLocalKey(key: string)
  {
    16 <= |key| <= 1024 && '\0' !in key && forall c | c in key :: !IsSpace(c)
  }

  predicate ValidLocalPassword(password: string)
  {
    12 <= |password| <= 1024 && TrimSpace(password) != "" && NoneOf(password, "\0\r\n")
  }

  predicate ValidLimits(maxOutputTokens: int, requestsPerMinute: int, maxConcurrent: int, allowDefaults: bool)
  {
    1 <= maxOutputTokens <= 1_000_000
    && ((allowDefaults && requestsPerMinute == 0 && maxConcurrent == 0)
        || (1 <= requestsPerMinute <= 60_000 && 1 <= maxConcurrent <= 1_024))
  }

  predicate AcceptableModel(model: string) { model != "" && |model| <= 200 && NoneOf(model, "\0\r\n\t") }

  /** Trimmed and without duplicates; absent when one is not acceptable. */
  function NormalModels(models: seq<string>): (r: Option<set<string>>)
  {
    if |models| == 0 || |models| > 32 || exists i :: 0 <= i < |models| && !AcceptableModel(TrimSpace(models[i])) then None
    else Some(set m | m in models :: TrimSpace(m))
  }

  function TrimSlashes(path: string): string
  {
    if path != "" && path[|path| - 1] == '/' then TrimSlashes(path[..|path| - 1]) else path
  }

  /** Trailing slashes and one trailing "/v1" go away. */
  function LlmBasePath(path: string): string
  {
    var p := TrimSlashes(path);
    if HasSuffix(p, "/v1") then p[..|p| - 3] else p
  }

  function Egress(egress: string): string { if egress == "" then "Direct" else egress }

  // ---- the routes a request describes ----

  predicate CreateHttpAccepted(q: Request)
    requires q.CreateHttp?
  {
    ValidName(q.name) && |q.authorization| <= 8192 && NoneOf(q.authorization, "\r\n") && HttpUrl(q.base)
  }

  function NewHttpRoute(q: Request, digest: H.Digest): H.Route
    requires q.CreateHttp?
  {
    H.Route(q.name, q.alias, "", "", HttpReference(q.alias), digest, H.NewPolicy({"GET", "HEAD"}, {}), Egress(q.egress),
            false, H.NO_USAGE)
  }

  predicate CreateLlmAccepted(q: Request)
    requires q.CreateLlm?
  {
    ValidName(q.name) && H.ValidEgress(q.egress) && 0 < |q.authorization| <= 16384 && NoneOf(q.authorization, "\0\r\n")
    && (q.localKey == "" || ValidLocalKey(q.localKey)) && q.provider in {H.OPENAI, H.ANTHROPIC}
    && NormalModels(q.models).Some? && ValidLimits(q.maxOutputTokens, q.requestsPerMinute, q.maxConcurrent, true)
    && HttpUrl(q.base) && !q.base.value.hasUser && q.base.value.query == "" && q.base.value.fragment == ""
  }

  function NewLlmRoute(q: Request, digest: H.Digest): H.Route
    requires q.CreateLlm? && NormalModels(q.models).Some?
  {
    var policy := H.NewLlmPolicy(q.provider, NormalModels(q.models).value, q.maxOutputTokens);
    H.Route(q.name, q.alias, H.KIND_LLM, q.provider, HttpReference(q.alias), digest,
            policy.(requestsPerMinute := if q.requestsPerMinute > 0 then q.requestsPerMinute else policy.requestsPerMinute,
                    maxConcurrent := if q.maxConcurrent > 0 then q.maxConcurrent else policy.maxConcurrent,
                    trackUsage := q.trackUsage),
            Egress(q.egress), false, H.NO_USAGE)
  }

  function LlmSecret(q: Request): Secret
    requires q.CreateLlm? && q.base.Some?
  {
    HttpSecret(q.base.value.(path := LlmBasePath(q.base.value.path)), q.authorization, q.provider)
  }

  function WithLlmPolicy(r: H.Route, q: Request): H.Route
    requires q.SetLlmPolicy? && NormalModels(q.models).Some?
  {
    r.(policy := H.NewLlmPolicy(r.provider, NormalModels(q.models).value, q.maxOutputTokens).(
         requestsPerMinute := q.requestsPerMinute, maxConcurrent := q.maxConcurrent, trackUsage := q.trackUsage))
  }

  predicate CreateSshAccepted(q: Request)
    requires q.CreateSsh?
  {
    ValidName(q.name) && q.addressBytes <= 512 && q.username != "" && |q.username| <= 255
    && 0 < |q.password| <= 8192 && (q.localKey == "" || ValidLocalPassword(q.localKey)) && q.hostKeyBytes <= 16384
    && H.ValidEgress(q.egress) && !(q.allowShell && !q.allowAllCommands) && q.address.Some?
    && S.NormalizeTimeout(q.timeout).Some? && q.hostKey.Some? && q.hostKey.value != ""
  }

  function NewSshRoute(q: Request, digest: H.Digest): S.Route
    requires q.CreateSsh? && S.NormalizeTimeout(q.timeout).Some?
  {
    S.Route(q.name, q.alias, if q.localUsername == "" then q.alias else q.localUsername, SshReference(q.alias), digest,
            S.Policy(if q.allowAllCommands then {} else {q.allowedCommand}, {}, false, q.allowAllCommands,
                     q.recordCommands, q.allowSftp, q.allowShell),
            Egress(q.egress), S.NormalizeTimeout(q.timeout).value, q.replacements, false)
  }

  predicate SetSshPolicyAccepted(q: Request)
    requires q.SetSshPolicy?
  {
    (q.name == "" || ValidName(q.name)) && H.ValidEgress(q.egress) && !(q.allowShell && !q.allowAllCommands)
    && (q.timeout != 0 ==> S.NormalizeTimeout(q.timeout).Some?)
  }

  function WithSshPolicy(r: S.Route, q: Request): S.Route
    requires q.SetSshPolicy? && (q.timeout != 0 ==> S.NormalizeTimeout(q.timeout).Some?)
  {
    r.(localUsername := if q.localUsername == "" then S.Username(r) else q.localUsername,
       timeout := if q.timeout != 0 then S.NormalizeTimeout(q.timeout).value else S.EffectiveTimeout(r),
       policy := S.Policy(if q.allowAllCommands then {} else {q.allowedCommand}, r.policy.fingerprints, false,
                          q.allowAllCommands, q.recordCommands, q.allowSftp, q.allowShell),
       name := if q.name == "" then r.name else TrimSpace(q.name),
       egress := if q.egress == "" then r.egress else q.egress)
  }

  predicate UpdateSshTargetAccepted(q: Request)
    requires q.UpdateSshTarget?
  {
    q.username != "" && |q.username| <= 255 && 0 < |q.password| <= 8192 && q.hostKeyBytes <= 16384
    && H.ValidEgress(q.egress) && q.address.Some? && q.hostKey.Some? && q.hostKey.value != ""
  }

  /** The digest of a chosen key, or of a generated one. */
  function KeyDigest(localKey: string, keyDigest: H.Digest, env: Env): Option<H.Digest>
  {
    if localKey == "" then env.generated else Some(keyDigest)
  }

  // ---- transactions ----

  datatype Outcome = Outcome(state: State, ok: bool)

  function Refuse(s: State): Outcome { Outcome(s, false) }

  ghost function SavedHttp(file: HF.File, m: H.Routes, outcome: SaveOutcome, bytes: nat): HF.File
  {
    if outcome == NotInstalled then file else HF.Present(Some(HF.DocumentOf(m)), bytes)
  }

  ghost function SavedSsh(file: SF.File, m: S.Routes, outcome: SaveOutcome, bytes: nat): SF.File
  {
    if outcome == NotInstalled then file else SF.Present(Some(SF.DocumentOf(m)), bytes)
  }

  /** The registry changes if and only if the save reports success. */
  ghost function CommitHttp(s: State, m: H.Routes, env: Env): Outcome
  {
    Outcome(s.(http := if env.httpSave == Installed then m else s.http,
               httpFile := SavedHttp(s.httpFile, m, env.httpSave, env.httpBytes)),
            env.httpSave == Installed)
  }

  ghost function CommitSsh(s: State, m: S.Routes, env: Env): Outcome
  {
    Outcome(s.(ssh := if env.sshSave == Installed then m else s.ssh,
               sshFile := SavedSsh(s.sshFile, m, env.sshSave, env.sshBytes)),
            env.sshSave == Installed)
  }

  /** After a failed commit the new secret is removed again, if the store lets it. */
  function Undo(o: Outcome, reference: string, env: Env): Outcome
  {
    if o.ok then o else o.(state := o.state.(store := Drop(o.state.store, reference, env.delete)))
  }

  ghost function AddHttp(s: State, route: H.Route, secret: Secret, env: Env): Outcome
  {
    if route.alias in s.http || route.alias in s.ssh then Refuse(s)
    else if !(ValidReference(route.target) && env.put) then Refuse(s)
    else
      var stored := s.(store := s.store[route.target := secret]);
      Undo(if H.Valid(route) then CommitHttp(stored, s.http[route.alias := route], env) else Refuse(stored),
           route.target, env)
  }

  ghost function AddSsh(s: State, route: S.Route, secret: Secret, env: Env): Outcome
  {
    if route.alias in s.http || route.alias in s.ssh || !S.UsernameFree(s.ssh, route.alias, S.Username(route)) then Refuse(s)
    else if !(ValidReference(route.target) && env.put) then Refuse(s)
    else
      var stored := s.(store := s.store[route.target := secret]);
      Undo(if S.Valid(route) then CommitSsh(stored, s.ssh[route.alias := route], env) else Refuse(stored),
           route.target, env)
  }

  ghost function ReplaceHttp(s: State, route: H.Route, env: Env): Outcome
  {
    if H.Valid(route) then CommitHttp(s, s.http[route.alias := route], env) else Refuse(s)
  }

  ghost function ReplaceSsh(s: State, route: S.Route, env: Env): Outcome
  {
    if S.Valid(route) && S.UsernameFree(s.ssh, route.alias, S.Username(route))
    then CommitSsh(s, s.ssh[route.alias := route], env) else Refuse(s)
  }

  /** stopAll: a failed HTTP save restores only the HTTP registry; a failed SSH save restores both
      registries and tries to save the HTTP file once more. */
  ghost function StopAllRoutes(s: State, env: Env): Outcome
  {
    var http, ssh := H.AllDisabled(s.http), S.AllDisabled(s.ssh);
    var httpFile := SavedHttp(s.httpFile, http, env.httpSave, env.httpBytes);
    if env.httpSave != Installed then Outcome(s.(ssh := ssh, httpFile := httpFile), false)
    else if !s.hasSsh then Outcome(s.(http := http, httpFile := httpFile), true)
    else
      var sshFile := SavedSsh(s.sshFile, ssh, env.sshSave, env.sshBytes);
      if env.sshSave == Installed then Outcome(s.(http := http, ssh := ssh, httpFile := httpFile, sshFile := sshFile), true)
      else Outcome(s.(httpFile := SavedHttp(httpFile, s.http, env.undoSave, env.undoBytes), sshFile := sshFile), false)
  }

  ghost function Delete(s: State, alias: string, env: Env): Outcome
  {
    if alias in s.http then
      var o := CommitHttp(s, s.http - {alias}, env);
      if o.ok then o.(state := o.state.(store := Drop(s.store, s.http[alias].target, env.delete))) else o
    else if alias in s.ssh then
      var o := CommitSsh(s, s.ssh - {alias}, env);
      if o.ok then o.(state := o.state.(store := Drop(s.store, s.ssh[alias].target, env.delete))) else o
    else Refuse(s)
  }

  ghost function SwitchRoute(s: State, alias: string, enabled: bool, env: Env): Outcome
  {
    if alias in s.http then CommitHttp(s, H.WithEnabled(s.http, alias, enabled), env)
    else if alias in s.ssh then CommitSsh(s, S.WithEnabled(s.ssh, alias, enabled), env)
    else Refuse(s)
  }

  function SetProxy(s: State, url: WebUrl, env: Env): Outcome
  {
    if !env.put then Refuse(s)
    else Outcome(s.(store := s.store[PROXY_REFERENCE := ProxySecret(url)], proxy := Some(url)), true)
  }

  function RemoveProxy(s: State, env: Env): Outcome
  {
    if !env.delete then Refuse(s) else Outcome(s.(store := s.store - {PROXY_REFERENCE}, proxy := None), true)
  }

  predicate IsLlm(m: H.Routes, alias: string) { alias in m && H.EffectiveKind(m[alias]) == H.KIND_LLM }

  function LowerScheme(url: WebUrl): WebUrl { url.(scheme := Lower(url.scheme)) }

  /** What a request, once its input is accepted, sets out to do. */
  datatype Plan = Reject
                | Add(httpRoute: H.Route, secret: Secret)
                | AddSshRoute(sshRoute: S.Route, secret: Secret)
                | Replace(httpRoute: H.Route)
                | ReplaceSshRoute(sshRoute: S.Route)
                | Retarget(alias: string, reference: string, secret: Secret)
                | Switch(alias: string, enabled: bool)
                | Stop
                | Remove(alias: string)
                | UseProxy(url: WebUrl)
                | DropProxy
                | Count(httpRoute: H.Route)

  /** The requests that replace one route by a changed one. */
  predicate Updates(q: Request)
  {
    q.SetLlmPolicy? || q.RotateLlmKey? || q.SetSshPolicy? || q.SetSshReplacements? || q.RotateSshCredential?
  }

  function PlanUpdate(s: State, q: Request, env: Env): (plan: Plan)
    requires Updates(q)
    ensures plan.Reject? || plan.Replace? || plan.ReplaceSshRoute?
  {
    match q
    case SetLlmPolicy(alias, models, maxOutputTokens, requestsPerMinute, maxConcurrent, _) =>
      if !ValidLimits(maxOutputTokens, requestsPerMinute, maxConcurrent, false) || NormalModels(models).None?
         || !IsLlm(s.http, alias) then Reject
      else Replace(WithLlmPolicy(s.http[alias], q))
    case RotateLlmKey(alias, localKey, keyDigest) =>
      var digest := KeyDigest(localKey, keyDigest, env);
      if (localKey != "" && !ValidLocalKey(localKey)) || digest.None? || !IsLlm(s.http, alias) then Reject
      else Replace(s.http[alias].(digest := digest.value))
    case SetSshPolicy(alias, _, _, _, _, _, _, _, _, _) =>
      if !s.hasSsh || !SetSshPolicyAccepted(q) || alias !in s.ssh then Reject
      else ReplaceSshRoute(WithSshPolicy(s.ssh[alias], q))
    case SetSshReplacements(alias, replacements) =>
      if !s.hasSsh || TrimSpace(alias) == "" || |alias| > 63 || !S.ValidReplacements(replacements) || alias !in s.ssh then Reject
      else ReplaceSshRoute(s.ssh[alias].(replacements := replacements))
    case RotateSshCredential(alias, localKey, keyDigest) =>
      var digest := KeyDigest(localKey, keyDigest, env);
      if !s.hasSsh || (localKey != "" && !ValidLocalPassword(localKey)) || digest.None? || alias !in s.ssh then Reject
      else ReplaceSshRoute(s.ssh[alias].(digest := digest.value))
  }

  /** The input checks and the lookups, before anything changes. */
  function PlanOf(s: State, q: Request, env: Env): (plan: Plan)
  {
    match q
    case CreateHttp(_, alias, base, authorization, _) =>
      if !CreateHttpAccepted(q) || env.generated.None? then Reject
      else Add(NewHttpRoute(q, env.generated.value), HttpSecret(base.value, authorization, ""))
    case CreateLlm(_, _, _, _, _, _, _, _, _, _, _, localKey, keyDigest) =>
      var digest := KeyDigest(localKey, keyDigest, env);
      if !CreateLlmAccepted(q) || digest.None? then Reject else Add(NewLlmRoute(q, digest.value), LlmSecret(q))
    case SetLlmPolicy(_, _, _, _, _, _) => PlanUpdate(s, q, env)
    case RotateLlmKey(_, _, _) => PlanUpdate(s, q, env)
    case ResetUsage(alias) => if IsLlm(s.http, alias) then Count(s.http[alias].(usage := H.NO_USAGE)) else Reject
    case RecordUsage(alias, requests, inputTokens, outputTokens) =>
      if !IsLlm(s.http, alias) || !s.http[alias].policy.trackUsage then Reject
      else Count(H.Counted(s.http[alias], requests, inputTokens, outputTokens))
    case CreateSsh(_, _, _, address, _, username, password, localKey, keyDigest, hostKey, _, _, _, _, _, _, _, _, _) =>
      var digest := KeyDigest(localKey, keyDigest, env);
      if !s.hasSsh || !CreateSshAccepted(q) || digest.None? then Reject
      else AddSshRoute(NewSshRoute(q, digest.value), SshSecret(address.value, username, password, hostKey.value))
    case SetSshPolicy(_, _, _, _, _, _, _, _, _, _) => PlanUpdate(s, q, env)
    case SetSshReplacements(_, _) => PlanUpdate(s, q, env)
    case UpdateSshTarget(alias, address, username, password, hostKey, _, _) =>
      if !s.hasSsh || !UpdateSshTargetAccepted(q) || alias !in s.ssh then Reject
      else Retarget(alias, s.ssh[alias].target, SshSecret(address.value, username, password, hostKey.value))
    case RotateSshCredential(_, _, _) => PlanUpdate(s, q, env)
    case SetEnabled(alias, enabled) => Switch(alias, enabled)
    case StopAll => Stop
    case DeleteRoute(alias) => Remove(alias)
    case ConfigureProxy(url) => if url.None? || !ValidProxy(url.value) then Reject else UseProxy(LowerScheme(url.value))
    case ClearProxy => DropProxy
  }

  /** What a plan may rely on when it comes from a request. */
  predicate Sensible(s: State, plan: Plan)
  {
    match plan
    case Add(route, secret) => route.target == HttpReference(route.alias) && secret.HttpSecret? && !route.enabled
    case AddSshRoute(route, secret) =>
      s.hasSsh && route.target == SshReference(route.alias) && secret.SshSecret? && !route.enabled
    case Replace(route) =>
      route.alias in s.http && route.target == HttpReference(route.alias) && route.enabled == s.http[route.alias].enabled
    case ReplaceSshRoute(route) => s.hasSsh && route.alias in s.ssh && route.enabled == s.ssh[route.alias].enabled
    case Retarget(alias, reference, secret) => alias in s.ssh && reference == SshReference(alias) && secret.SshSecret?
    case UseProxy(url) => ValidProxy(url)
    case Count(route) => route.alias in s.http && route == s.http[route.alias].(usage := route.usage)
    case _ => true
  }

  ghost function Execute(s: State, plan: Plan, env: Env): Outcome
  {
    match plan
    case Reject => Refuse(s)
    case Add(route, secret) => AddHttp(s, route, secret, env)
    case AddSshRoute(route, secret) => AddSsh(s, route, secret, env)
    case Replace(route) => ReplaceHttp(s, route, env)
    case ReplaceSshRoute(route) => ReplaceSsh(s, route, env)
    case Retarget(_, reference, secret) =>
      Outcome(s.(store := Put(s.store, reference, secret, env.put)), ValidReference(reference) && env.put)
    case Switch(alias, enabled) => SwitchRoute(s, alias, enabled, env)
    case Stop => StopAllRoutes(s, env)
    case Remove(alias) => Delete(s, alias, env)
    case UseProxy(url) => SetProxy(s, url, env)
    case DropProxy => RemoveProxy(s, env)
    case Count(route) => Outcome(s.(http := s.http[route.alias := route]), true)
  }

  lemma RegisteredFacts(s: State, alias: string)
    requires Inv(s)
    ensures alias in s.http ==> s.http[alias].alias == alias && HF.Savable(s.http[alias])
    ensures alias in s.ssh ==>
      s.ssh[alias].alias == alias && S.Valid(s.ssh[alias]) && s.ssh[alias].target == SshReference(alias) && s.hasSsh
  {
    if alias in s.http { assert H.AliasOf(s.http[alias]) == alias; }
    if alias in s.ssh { assert S.AliasOf(s.ssh[alias]) == alias; }
  }

  lemma PlanIsSensible(s: State, q: Request, env: Env)
    requires Inv(s)
    ensures Sensible(s, PlanOf(s, q, env))
  {
    if q.SetLlmPolicy? || q.RotateLlmKey? || q.SetSshPolicy? || q.SetSshReplacements?
       || q.RotateSshCredential? || q.ResetUsage? || q.RecordUsage? || q.UpdateSshTarget? {
      RegisteredFacts(s, q.alias);
    }
    if q.ConfigureProxy? && q.url.Some? { LowerIdempotent(q.url.value.scheme); }
  }

  /** One request, with every answer of the environment. */
  ghost function Step(s: State, q: Request, env: Env): Outcome
  {
    Execute(s, PlanOf(s, q, env), env)
  }

  // ---- the invariant ----

  ghost predicate TargetsStored(s: State)
  {
    (forall alias :: alias in s.http ==> HttpReference(alias) in s.store && s.store[HttpReference(alias)].HttpSecret?)
    && (forall alias :: alias in s.ssh ==> SshReference(alias) in s.store && s.store[SshReference(alias)].SshSecret?)
  }

  ghost predicate ProxyAgrees(s: State)
  {
    (s.proxy.Some? <==> PROXY_REFERENCE in s.store)
    && (s.proxy.Some? ==> s.store[PROXY_REFERENCE] == ProxySecret(s.proxy.value) && ValidProxy(s.proxy.value))
  }

  /** What every request keeps, whatever fails. */
  ghost predicate Inv(s: State)
  {
    HF.SavableMap(s.http) && S.WellKept(s.ssh) && s.http.Keys !! s.ssh.Keys && TargetsStored(s) && ProxyAgrees(s)
    && (!s.hasSsh ==> s.ssh == map[])
  }
}
