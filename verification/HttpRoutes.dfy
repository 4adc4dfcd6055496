/** HTTP and LLM routes, their validation, and the in-memory registry. */
module HttpRoutes {
  import opened Text
  import opened Names
  import opened Maps

  const UINT64: nat := 0x1_0000_0000_0000_0000

  const KIND_HTTP := "HTTP"
  const KIND_LLM := "LLM"
  const OPENAI := "openai"
  const ANTHROPIC := "anthropic"

  /** A SHA-256 digest, opaque but for the all-zero one. */
  datatype Digest = Digest(value: nat)
  const ZERO_DIGEST := Digest(0)

  datatype Policy = Policy(methods: set<string>, queryKeys: set<string>, paths: set<string>, models: set<string>,
                           maxRequestBytes: int, maxOutputTokens: int, requestsPerMinute: int, maxConcurrent: int,
                           trackUsage: bool)

  datatype LlmUsage = LlmUsage(requests: nat, inputTokens: nat, outputTokens: nat)
  const NO_USAGE := LlmUsage(0, 0, 0)

  datatype Route = Route(name: string, alias: string, kind: string, provider: string, target: string, digest: Digest,
                         policy: Policy, egress: string, enabled: bool, usage: LlmUsage)

  function EffectiveKind(r: Route): string { if r.kind == "" then KIND_HTTP else r.kind }

  predicate ValidEgress(egress: string) { egress in {"", "Direct", "Proxy", "Auto"} }

  predicate ProviderAllowsPath(provider: string, path: string)
  {
    (provider == OPENAI && (path == "/v1/responses" || path == "/v1/chat/completions"))
    || (provider == ANTHROPIC && path == "/v1/messages")
  }

  predicate ValidModel(model: string)
  {
    TrimSpace(model) == model && model != "" && |model| <= 200
    && '\0' !in model && '\r' !in model && '\n' !in model && '\t' !in model
  }

  predicate ValidLlm(r: Route)
  {
    r.provider in {OPENAI, ANTHROPIC} && r.policy.models != {}
    && 1 <= r.policy.maxRequestBytes <= 0x100_0000 && 1 <= r.policy.maxOutputTokens <= 1_000_000
    && 1 <= r.policy.requestsPerMinute <= 60_000 && 1 <= r.policy.maxConcurrent <= 1_024
    && |r.policy.methods| == 1 && "POST" in r.policy.methods && r.policy.queryKeys == {} && r.policy.paths != {}
    && (forall path :: path in r.policy.paths ==> ProviderAllowsPath(r.provider, path))
    && (forall model :: model in r.policy.models ==> ValidModel(model))
  }

  predicate Valid(r: Route)
  {
    ValidAlias(r.alias) && r.target != "" && r.policy.methods != {} && ValidEgress(r.egress)
    && if EffectiveKind(r) == KIND_HTTP then r.provider == "" else EffectiveKind(r) == KIND_LLM && ValidLlm(r)
  }

  function NewPolicy(methods: set<string>, queryKeys: set<string>): Policy
  {
    Policy(set m | m in methods :: Upper(m), queryKeys, {}, {}, 0, 0, 0, 0, false)
  }

  function NewLlmPolicy(provider: string, models: set<string>, maxOutputTokens: int): Policy
  {
    var paths := if provider == OPENAI then {"/v1/responses", "/v1/chat/completions"}
                 else if provider == ANTHROPIC then {"/v1/messages"} else {};
    Policy({"POST"}, {}, paths, models, 0x20_0000, maxOutputTokens, 60, 4, false)
  }

  type Routes = map<string, Route>

  function AliasOf(r: Route): string { r.alias }

  /** What every registry keeps: routes are stored under their alias and are valid. */
  predicate WellKept(m: Routes)
  {
    Keyed(m, AliasOf) && forall alias :: alias in m ==> Valid(m[alias])
  }

  function WithEnabled(m: Routes, alias: string, enabled: bool): Routes
  {
    if alias in m then m[alias := m[alias].(enabled := enabled)] else m
  }

  function AllDisabled(m: Routes): Routes
  {
    map alias | alias in m :: m[alias].(enabled := false)
  }

  class Registry {
    var routes: Routes

    constructor ()
      ensures routes == map[]
    {
      routes := map[];
    }

    method Upsert(route: Route) returns (ok: bool)
      modifies this
      ensures ok <==> Valid(route)
      ensures routes == if ok then old(routes)[route.alias := route] else old(routes)
    {
      if !Valid(route) { return false; }
      routes := routes[route.alias := route];
      ok := true;
    }

    /** Only enabled routes are found. */
    method Lookup(alias: string) returns (found: Option<Route>)
      ensures found == if alias in routes && routes[alias].enabled then Some(routes[alias]) else None
    {
      found := if alias in routes && routes[alias].enabled then Some(routes[alias]) else None;
    }

    /** Enabled or not. */
    method Get(alias: string) returns (found: Option<Route>)
      ensures found == if alias in routes then Some(routes[alias]) else None
    {
      found := if alias in routes then Some(routes[alias]) else None;
    }

    method List() returns (result: seq<Route>)
      requires Keyed(routes, AliasOf)
      ensures Lists(result, routes, AliasOf)
    {
      result := Range(routes, AliasOf);
    }

    method SetEnabled(alias: string, enabled: bool) returns (ok: bool)
      modifies this
      ensures ok <==> alias in old(routes)
      ensures routes == WithEnabled(old(routes), alias, enabled)
    {
      if alias !in routes { return false; }
      routes := routes[alias := routes[alias].(enabled := enabled)];
      ok := true;
    }

    method RecordUsage(alias: string, requests: nat, inputTokens: nat, outputTokens: nat) returns (ok: bool)
      modifies this
      ensures ok <==> alias in old(routes) && EffectiveKind(old(routes)[alias]) == KIND_LLM && old(routes)[alias].policy.trackUsage
      ensures routes == if ok then old(routes)[alias := Counted(old(routes)[alias], requests, inputTokens, outputTokens)] else old(routes)
    {
      if alias !in routes || EffectiveKind(routes[alias]) != KIND_LLM || !routes[alias].policy.trackUsage { return false; }
      routes := routes[alias := Counted(routes[alias], requests, inputTokens, outputTokens)];
      ok := true;
    }

    method ResetUsage(alias: string) returns (ok: bool)
      modifies this
      ensures ok <==> alias in old(routes) && EffectiveKind(old(routes)[alias]) == KIND_LLM
      ensures routes == if ok then old(routes)[alias := old(routes)[alias].(usage := NO_USAGE)] else old(routes)
    {
      if alias !in routes || EffectiveKind(routes[alias]) != KIND_LLM { return false; }
      routes := routes[alias := routes[alias].(usage := NO_USAGE)];
      ok := true;
    }

    method Delete(alias: string) returns (deleted: Option<Route>)
      modifies this
      ensures deleted == if alias in old(routes) then Some(old(routes)[alias]) else None
      ensures routes == old(routes) - {alias}
    {
      if alias !in routes { return None; }
      deleted := Some(routes[alias]);
      routes := routes - {alias};
    }

    method DisableAll()
      modifies this
      ensures routes == AllDisabled(old(routes))
    {
      var todo := routes.Keys;
      while todo != {}
        invariant routes.Keys == old(routes).Keys && todo <= routes.Keys
        invariant forall alias :: alias in todo ==> routes[alias] == old(routes)[alias]
        invariant forall alias :: alias in routes && alias !in todo ==> routes[alias] == old(routes)[alias].(enabled := false)
      {
        var alias :| alias in todo;
        routes := routes[alias := routes[alias].(enabled := false)];
        todo := todo - {alias};
      }
    }
  }

  /** uint64 counters wrap around. */
  function Counted(r: Route, requests: nat, inputTokens: nat, outputTokens: nat): Route
  {
    r.(usage := LlmUsage((r.usage.requests + requests) % UINT64, (r.usage.inputTokens + inputTokens) % UINT64,
                         (r.usage.outputTokens + outputTokens) % UINT64))
  }
}
