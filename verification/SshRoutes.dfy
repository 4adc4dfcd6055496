/** SSH routes, their validation, and the registry that maps local user names to routes. */
module SshRoutes {
  import opened Text
  import opened Names
  import opened Maps
  import HttpRoutes

  const DEFAULT_TIMEOUT: int := 20
  const MIN_TIMEOUT: int := 3
  const MAX_TIMEOUT: int := 120

  datatype Replacement = Replacement(from_: string, to: string, enabled: bool)

  datatype Policy = Policy(commands: set<string>, fingerprints: set<string>, allowStdin: bool, allowAllCommands: bool,
                           recordCommands: bool, allowSftp: bool, allowShell: bool)

  datatype Route = Route(name: string, alias: string, localUsername: string, target: string, digest: HttpRoutes.Digest,
                         policy: Policy, egress: string, timeout: int, replacements: seq<Replacement>, enabled: bool)

  predicate ValidCommand(command: string)
  {
    command != "" && |command| <= 4096 && '\0' !in command && '\r' !in command && '\n' !in command
  }

  predicate AllowsCommand(p: Policy, command: string)
  {
    ValidCommand(command) && (p.allowAllCommands || command in p.commands)
  }

  predicate ValidReplacements(replacements: seq<Replacement>)
  {
    |replacements| <= 64
    && forall i :: 0 <= i < |replacements| ==>
         var r := replacements[i];
         r.from_ != "" && |r.from_| <= 256 && |r.to| <= 1024
         && forall c | c in "\0\r\n" :: c !in r.from_ && c !in r.to
  }

  function NormalizeTimeout(seconds: int): (r: Option<int>)
    ensures r.Some? ==> MIN_TIMEOUT <= r.value <= MAX_TIMEOUT
  {
    if seconds == 0 then Some(DEFAULT_TIMEOUT)
    else if seconds < MIN_TIMEOUT || seconds > MAX_TIMEOUT then None
    else Some(seconds)
  }

  function EffectiveTimeout(r: Route): int
  {
    var normal := NormalizeTimeout(r.timeout);
    if normal.Some? then normal.value else DEFAULT_TIMEOUT
  }

  function Username(r: Route): string { if r.localUsername == "" then r.alias else r.localUsername }

  function Base64Value(c: char): (r: Option<nat>)
  {
    if 'A' <= c <= 'Z' then Some(c as int - 'A' as int)
    else if 'a' <= c <= 'z' then Some(c as int - 'a' as int + 26)
    else if '0' <= c <= '9' then Some(c as int - '0' as int + 52)
    else if c == '+' then Some(62)
    else if c == '/' then Some(63)
    else None
  }

  /** "SHA256:" and the canonical unpadded base64 text of 32 bytes. */
  predicate ValidFingerprint(s: string)
  {
    "SHA256:" <= s && |s| == 50 && (forall i :: 7 <= i < 50 ==> Base64Value(s[i]).Some?)
    && Base64Value(s[49]).value % 4 == 0
  }

  predicate Valid(r: Route)
  {
    ValidAlias(r.alias) && ValidLocalUsername(Username(r)) && r.target == SshReference(r.alias)
    && r.digest != HttpRoutes.ZERO_DIGEST && NormalizeTimeout(r.timeout).Some? && ValidReplacements(r.replacements)
    && (r.policy.allowAllCommands || r.policy.commands != {})
    && (forall command :: command in r.policy.commands ==> ValidCommand(command))
    && (forall fingerprint :: fingerprint in r.policy.fingerprints ==> ValidFingerprint(fingerprint))
    && HttpRoutes.ValidEgress(r.egress)
  }

  type Routes = map<string, Route>

  function AliasOf(r: Route): string { r.alias }

  /** No other route than `alias` uses the name. */
  predicate UsernameFree(m: Routes, alias: string, username: string)
  {
    forall other :: other in m && other != alias ==> Username(m[other]) != username
  }

  predicate UsernamesDistinct(m: Routes)
  {
    forall a, b :: a in m && b in m && a != b ==> Username(m[a]) != Username(m[b])
  }

  predicate WellKept(m: Routes)
  {
    Keyed(m, AliasOf) && (forall alias :: alias in m ==> Valid(m[alias])) && UsernamesDistinct(m)
  }

  function WithEnabled(m: Routes, alias: string, enabled: bool): Routes
  {
    if alias in m then m[alias := m[alias].(enabled := enabled)] else m
  }

  function AllDisabled(m: Routes): Routes
  {
    map alias | alias in m :: m[alias].(enabled := false)
  }

  // ---- the registry as a sequence of operations ----

  datatype Op = Upsert(route: Route) | SetEnabled(alias: string, enabled: bool) | Delete(alias: string) | DisableAll
              | SetPolicy(alias: string, localUsername: string, policy: Policy)

  function WithPolicy(r: Route, localUsername: string, policy: Policy): Route
  {
    r.(localUsername := if localUsername == "" then Username(r) else localUsername,
       policy := policy.(fingerprints := r.policy.fingerprints, allowStdin := false))
  }

  /** The route is there, stays valid with the new name and policy, and the name is not another's. */
  predicate PolicyFits(m: Routes, alias: string, localUsername: string, policy: Policy)
  {
    alias in m
    && var updated := WithPolicy(m[alias], localUsername, policy);
       Valid(updated) && UsernameFree(m, alias, Username(updated))
  }

  function ApplyOp(m: Routes, op: Op): (r: Routes)
  {
    match op
    case Upsert(route) => if Valid(route) && UsernameFree(m, route.alias, Username(route)) then m[route.alias := route] else m
    case SetEnabled(alias, enabled) => WithEnabled(m, alias, enabled)
    case Delete(alias) => m - {alias}
    case DisableAll => AllDisabled(m)
    case SetPolicy(alias, localUsername, policy) =>
      if alias !in m then m
      else
        var updated := WithPolicy(m[alias], localUsername, policy);
        if UsernameFree(m, alias, updated.localUsername) && Valid(updated) then m[alias := updated] else m
  }

  function ApplyOps(m: Routes, ops: seq<Op>): (r: Routes)
    decreases |ops|
  {
    if ops == [] then m else ApplyOps(ApplyOp(m, ops[0]), ops[1..])
  }

  lemma PutKeeps(m: Routes, r: Route)
    requires WellKept(m) && Valid(r) && UsernameFree(m, r.alias, Username(r))
    ensures WellKept(m[r.alias := r])
  {
    var n := m[r.alias := r];
    assert forall alias :: alias in n ==> Valid(n[alias]);
    forall a, b | a in n && b in n && a != b ensures Username(n[a]) != Username(n[b]) {}
  }

  lemma EnabledIsFree(r: Route, enabled: bool)
    ensures Valid(r.(enabled := enabled)) <==> Valid(r)
    ensures Username(r.(enabled := enabled)) == Username(r)
  {
  }

  lemma DisabledKeeps(m: Routes)
    requires WellKept(m)
    ensures WellKept(AllDisabled(m))
  {
    var n := AllDisabled(m);
    forall alias | alias in n ensures Valid(n[alias]) && AliasOf(n[alias]) == alias && Username(n[alias]) == Username(m[alias]) {
      EnabledIsFree(m[alias], false);
      assert AliasOf(m[alias]) == alias;
    }
  }

  lemma ApplyOpKeeps(m: Routes, op: Op)
    requires WellKept(m)
    ensures WellKept(ApplyOp(m, op))
  {
    match op {
      case Upsert(route) =>
        if Valid(route) && UsernameFree(m, route.alias, Username(route)) { PutKeeps(m, route); }
      case SetEnabled(alias, enabled) =>
        if alias in m {
          assert AliasOf(m[alias]) == alias;
          EnabledIsFree(m[alias], enabled);
          PutKeeps(m, m[alias].(enabled := enabled));
        }
      case Delete(alias) =>
      case DisableAll => DisabledKeeps(m);
      case SetPolicy(alias, localUsername, policy) =>
        if alias in m {
          assert AliasOf(m[alias]) == alias;
          var updated := WithPolicy(m[alias], localUsername, policy);
          if UsernameFree(m, alias, updated.localUsername) && Valid(updated) { PutKeeps(m, updated); }
        }
    }
  }

  /** Over every sequence of registry operations the routes stay valid, keyed by alias, and apart by user name. */
  lemma {:induction false} ApplyOpsKeep(m: Routes, ops: seq<Op>)
    requires WellKept(m)
    ensures WellKept(ApplyOps(m, ops))
    decreases |ops|
  {
    if ops != [] {
      ApplyOpKeeps(m, ops[0]);
      ApplyOpsKeep(ApplyOp(m, ops[0]), ops[1..]);
    }
  }

  /** The one route with the user name, if any. */
  ghost function RouteOf(m: Routes, username: string): (r: Option<Route>)
    ensures r.Some? ==> (exists alias :: alias in m && m[alias] == r.value) && Username(r.value) == username
    ensures r.None? ==> forall alias :: alias in m ==> Username(m[alias]) != username
  {
    if exists alias :: alias in m && Username(m[alias]) == username then
      var alias :| alias in m && Username(m[alias]) == username;
      Some(m[alias])
    else None
  }

  lemma RouteOfUnique(m: Routes, username: string, alias: string)
    requires UsernamesDistinct(m) && alias in m && Username(m[alias]) == username
    ensures RouteOf(m, username) == Some(m[alias])
  {
  }

  datatype UpsertResult = Upserted | InvalidRoute | UsernameInUse

  class Registry {
    var routes: Routes

    constructor ()
      ensures routes == map[] && WellKept(routes)
    {
      routes := map[];
    }

    method Upsert(route: Route) returns (result: UpsertResult)
      modifies this
      ensures routes == ApplyOp(old(routes), Op.Upsert(route))
      ensures result.Upserted? <==> Valid(route) && UsernameFree(old(routes), route.alias, Username(route))
      ensures result.InvalidRoute? <==> !Valid(route)
    {
      if !Valid(route) { return InvalidRoute; }
      var todo := routes.Keys;
      while todo != {}
        invariant todo <= routes.Keys
        invariant forall alias :: alias in routes && alias !in todo && alias != route.alias ==> Username(routes[alias]) != Username(route)
      {
        var alias :| alias in todo;
        if alias != route.alias && Username(routes[alias]) == Username(route) { return UsernameInUse; }
        todo := todo - {alias};
      }
      routes := routes[route.alias := route];
      result := Upserted;
    }

    method Lookup(alias: string) returns (found: Option<Route>)
      ensures found == if alias in routes && routes[alias].enabled then Some(routes[alias]) else None
    {
      found := if alias in routes && routes[alias].enabled then Some(routes[alias]) else None;
    }

    /** The scan, in any order of the map, acts as an index. */
    method LookupByUsername(username: string) returns (found: Option<Route>)
      requires UsernamesDistinct(routes)
      ensures var owner := RouteOf(routes, username);
        found == if owner.Some? && owner.value.enabled then owner else None
    {
      var todo := routes.Keys;
      while todo != {}
        invariant todo <= routes.Keys
        invariant forall alias :: alias in routes && alias !in todo ==> !(routes[alias].enabled && Username(routes[alias]) == username)
      {
        var alias :| alias in todo;
        if routes[alias].enabled && Username(routes[alias]) == username {
          RouteOfUnique(routes, username, alias);
          return Some(routes[alias]);
        }
        todo := todo - {alias};
      }
      found := None;
    }

    method GetByUsername(username: string) returns (found: Option<Route>)
      requires UsernamesDistinct(routes)
      ensures found == RouteOf(routes, username)
    {
      var todo := routes.Keys;
      while todo != {}
        invariant todo <= routes.Keys
        invariant forall alias :: alias in routes && alias !in todo ==> Username(routes[alias]) != username
      {
        var alias :| alias in todo;
        if Username(routes[alias]) == username {
          RouteOfUnique(routes, username, alias);
          return Some(routes[alias]);
        }
        todo := todo - {alias};
      }
      found := None;
    }

    /** Enabled or not. */
    method Get(alias: string) returns (found: Option<Route>)
      ensures found == if alias in routes then Some(routes[alias]) else None
    {
      found := if alias in routes then Some(routes[alias]) else None;
    }

    method List() returns (result: seq<Route>)
      requires Keyed(routes, AliasOf)
      ensures Lists(result, routes, AliasOf)
    {
      result := Range(routes, AliasOf);
    }

    method SetEnabled(alias: string, enabled: bool) returns (ok: bool)
      modifies this
      ensures ok <==> alias in old(routes)
      ensures routes == ApplyOp(old(routes), Op.SetEnabled(alias, enabled))
    {
      if alias !in routes { return false; }
      routes := routes[alias := routes[alias].(enabled := enabled)];
      ok := true;
    }

    method SetLocalUsernameAndCommandPolicy(alias: string, localUsername: string, policy: Policy) returns (ok: bool)
      modifies this
      ensures routes == ApplyOp(old(routes), Op.SetPolicy(alias, localUsername, policy))
      ensures ok <==> PolicyFits(old(routes), alias, localUsername, policy)
    {
      if alias !in routes { return false; }
      var route := routes[alias];
      var updated := WithPolicy(route, localUsername, policy);
      if !UsernameFree(routes, alias, updated.localUsername) || !Valid(updated) { return false; }
      routes := routes[alias := updated];
      ok := true;
    }

    method Delete(alias: string) returns (deleted: Option<Route>)
      modifies this
      ensures deleted == if alias in old(routes) then Some(old(routes)[alias]) else None
      ensures routes == ApplyOp(old(routes), Op.Delete(alias))
    {
      if alias !in routes { return None; }
      deleted := Some(routes[alias]);
      routes := routes - {alias};
    }

    method DisableAll()
      modifies this
      ensures routes == ApplyOp(old(routes), Op.DisableAll)
    {
      var todo := routes.Keys;
      while todo != {}
        invariant routes.Keys == old(routes).Keys && todo <= routes.Keys
        invariant forall alias :: alias in todo ==> routes[alias] == old(routes)[alias]
        invariant forall alias :: alias in routes && alias !in todo ==> routes[alias] == old(routes)[alias].(enabled := false)
      {
        var alias :| alias in todo;
        routes := routes[alias := routes[alias].(enabled := false)];
        todo := todo - {alias};
      }
    }
  }
}
