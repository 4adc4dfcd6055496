/** Starting the daemon from its metadata files and its secret store. */
module Startup {
  import opened Text
  import opened Names
  import opened Order
  import opened Maps
  import opened Files
  import opened Secrets
  import opened RouteCodec
  import opened ControlSpec
  import opened ControlInvariant
  import opened ControlRollback
  import opened ControlDisk
  import H = HttpRoutes
  import S = SshRoutes
  import HF = HttpFiles
  import SF = SshFiles

  /** Registering routes one after the other. */
  function Registered<R>(routes: seq<R>, key: R -> string): (m: map<string, R>)
  {
    if routes == [] then map[] else Registered(routes[..|routes| - 1], key)[key(routes[|routes| - 1]) := routes[|routes| - 1]]
  }

  lemma {:induction false} RegisteredLists<R(!new)>(routes: seq<R>, key: R -> string)
    requires DistinctKeys(routes, key)
    ensures Keyed(Registered(routes, key), key) && Lists(routes, Registered(routes, key), key)
    ensures forall k :: k in Registered(routes, key) ==> exists i :: 0 <= i < |routes| && key(routes[i]) == k
  {
    if routes != [] {
      var front, last := routes[..|routes| - 1], routes[|routes| - 1];
      assert DistinctKeys(front, key);
      RegisteredLists(front, key);
      var m := Registered(routes, key);
      assert routes == front + [last];
      forall i | 0 <= i < |routes| ensures key(routes[i]) in m && m[key(routes[i])] == routes[i] {
        if i < |front| { assert front[i] == routes[i]; }
      }
      forall k | k in m ensures m[k] in routes && exists i :: 0 <= i < |routes| && key(routes[i]) == k {
        if k == key(last) { assert routes[|routes| - 1] == last; }
        else {
          var i :| 0 <= i < |front| && key(front[i]) == k;
          assert routes[i] == front[i];
        }
      }
    }
  }

  lemma RegisteredListing<R(!new)>(m: map<string, R>, key: R -> string)
    requires Keyed(m, key)
    ensures Registered(Listing(m), key) == m
  {
    ListingSorted(m, key);
    RegisteredLists(Listing(m), key);
    var n := Registered(Listing(m), key);
    forall k ensures k in m <==> k in n {
      if k in m { assert m[k] in Listing(m); }
    }
    forall k | k in m ensures n[k] == m[k] { assert m[k] in Listing(m); }
  }

  // ---- what a decoded file guarantees ----

  lemma {:induction false} DecodedEntries<P(!new), R(!new)>(
    stored: seq<P>, aliasOf: P -> string, restore: P -> Option<R>, userOf: R -> string, seen: set<string>, users: set<string>)
    requires DecodeAll(stored, aliasOf, restore, userOf, seen, users).Ok?
    ensures var routes := DecodeAll(stored, aliasOf, restore, userOf, seen, users).routes;
      |routes| == |stored| && DistinctKeys(stored, aliasOf) && DistinctKeys(routes, userOf)
      && (forall i :: 0 <= i < |stored| ==> restore(stored[i]) == Some(routes[i]))
      && (forall i :: 0 <= i < |stored| ==> aliasOf(stored[i]) !in seen && userOf(routes[i]) !in users)
  {
    if stored != [] {
      var route := restore(stored[0]).value;
      DecodedEntries(stored[1..], aliasOf, restore, userOf, seen + {aliasOf(stored[0])}, users + {userOf(route)});
      var rest := DecodeAll(stored[1..], aliasOf, restore, userOf, seen + {aliasOf(stored[0])}, users + {userOf(route)});
      var routes := DecodeAll(stored, aliasOf, restore, userOf, seen, users).routes;
      assert routes == [route] + rest.routes;
      assert stored == [stored[0]] + stored[1..];
    }
  }

  lemma HttpDecoded(file: HF.File)
    requires HF.DecodeFile(file).Ok?
    ensures HF.SavableMap(Registered(HF.DecodeFile(file).routes, H.AliasOf))
  {
    var routes := HF.DecodeFile(file).routes;
    if file.Present? {
      var version := file.document.value.version;
      DecodedEntries(file.document.value.routes, HF.StoredAlias, HF.RestoreV(version), H.AliasOf, {}, {});
      RegisteredLists(routes, H.AliasOf);
      var m := Registered(routes, H.AliasOf);
      forall alias | alias in m ensures H.Valid(m[alias]) && m[alias].target == HttpReference(alias) {
        var i :| 0 <= i < |routes| && H.AliasOf(routes[i]) == alias;
        assert HF.RestoreV(version)(file.document.value.routes[i]) == Some(routes[i]);
      }
    }
  }

  lemma SshDecoded(file: SF.File)
    requires SF.DecodeFile(file).Ok?
    ensures S.WellKept(Registered(SF.DecodeFile(file).routes, S.AliasOf))
  {
    var routes := SF.DecodeFile(file).routes;
    if file.Present? {
      var stored := file.document.value.routes;
      DecodedEntries(stored, SF.StoredAlias, SF.Restore, S.Username, {}, {});
      forall i, j | 0 <= i < j < |routes| ensures S.AliasOf(routes[i]) != S.AliasOf(routes[j]) {
        assert SF.StoredAlias(stored[i]) != SF.StoredAlias(stored[j]);
      }
      RegisteredLists(routes, S.AliasOf);
      DistinctUsers(routes);
    }
  }

  lemma DistinctUsers(routes: seq<S.Route>)
    requires DistinctKeys(routes, S.AliasOf) && DistinctKeys(routes, S.Username) && SF.AllValid(routes)
    requires Lists(routes, Registered(routes, S.AliasOf), S.AliasOf)
    ensures S.UsernamesDistinct(Registered(routes, S.AliasOf)) && S.WellKept(Registered(routes, S.AliasOf))
  {
    var m := Registered(routes, S.AliasOf);
    RegisteredLists(routes, S.AliasOf);
    forall a | a in m ensures S.Valid(m[a]) { assert m[a] in routes; }
    forall a, b | a in m && b in m && a != b ensures S.Username(m[a]) != S.Username(m[b]) {
      assert m[a] in routes && m[b] in routes;
      var i :| 0 <= i < |routes| && routes[i] == m[a];
      var j :| 0 <= j < |routes| && routes[j] == m[b];
      assert i != j by { assert S.AliasOf(m[a]) == a && S.AliasOf(m[b]) == b; }
    }
  }

  // ---- the start ----

  /** The host identity is read, or created and stored; `parses` is whether the stored key is one. */
  function WithIdentity(store: Store, newKey: string, parses: bool, put: bool): (r: Option<Store>)
  {
    match Resolution(store, HOST_IDENTITY_REFERENCE, Identity, true)
    case Found(_) => if parses then Some(store) else None
    case Missing => if put then Some(store[HOST_IDENTITY_REFERENCE := IdentitySecret(newKey)]) else None
    case Broken => None
  }

  ghost function Boot(httpFile: HF.File, sshFile: SF.File, store: Store, newKey: string, parses: bool, put: bool): (r: Option<State>)
  {
    var http, ssh := HF.DecodeFile(httpFile), SF.DecodeFile(sshFile);
    if http.Bad? || ssh.Bad? then None
    else
      var m, n := Registered(http.routes, H.AliasOf), Registered(ssh.routes, S.AliasOf);
      var withIdentity := WithIdentity(store, newKey, parses, put);
      if !(m.Keys !! n.Keys) || withIdentity.None? then None
      else
        match Resolution(withIdentity.value, PROXY_REFERENCE, Proxy, true)
        case Found(secret) =>
          if ValidProxy(secret.url) then Some(State(m, n, httpFile, sshFile, withIdentity.value, Some(secret.url), true)) else None
        case Missing => Some(State(m, n, httpFile, sshFile, withIdentity.value, None, true))
        case Broken => None
  }

  /** Whatever is on disk, a daemon that starts satisfies the whole invariant exactly when every loaded route has its
      target in the store: that alone is not checked at the start. */
  lemma BootSound(httpFile: HF.File, sshFile: SF.File, store: Store, newKey: string, parses: bool, put: bool)
    requires Boot(httpFile, sshFile, store, newKey, parses, put).Some?
    ensures var s := Boot(httpFile, sshFile, store, newKey, parses, put).value; Inv(s) <==> TargetsStored(s)
  {
    HttpDecoded(httpFile);
    SshDecoded(sshFile);
    BootProxy(httpFile, sshFile, store, newKey, parses, put);
  }

  lemma BootProxy(httpFile: HF.File, sshFile: SF.File, store: Store, newKey: string, parses: bool, put: bool)
    requires Boot(httpFile, sshFile, store, newKey, parses, put).Some?
    ensures ProxyAgrees(Boot(httpFile, sshFile, store, newKey, parses, put).value)
  {
    assert ValidReference(PROXY_REFERENCE);
  }

  /** The identity is there and is a key, or is absent and can be stored. */
  predicate IdentityReady(store: Store, parses: bool, put: bool)
  {
    if HOST_IDENTITY_REFERENCE in store then store[HOST_IDENTITY_REFERENCE].IdentitySecret? && parses else put
  }

  function IdentityStore(store: Store, newKey: string): Store
  {
    if HOST_IDENTITY_REFERENCE in store then store else store[HOST_IDENTITY_REFERENCE := IdentitySecret(newKey)]
  }

  /** What a restart brings back. */
  ghost function Restored(s: State, newKey: string): State
  {
    s.(http := HF.NormalMap(s.http), ssh := SF.NormalMap(s.ssh), store := IdentityStore(s.store, newKey))
  }

  /** A restart of a daemon whose disk agrees with its registries comes up if and only if the identity is ready; then with the
      normalised registries, the same proxy, the stored identity or a new one, and its disk agrees again. */
  lemma BootRecovers(s: State, newKey: string, parses: bool, put: bool)
    requires Inv(s) && s.hasSsh && DiskAgrees(s)
    ensures Boot(s.httpFile, s.sshFile, s.store, newKey, parses, put) ==
      if IdentityReady(s.store, parses, put) then Some(Restored(s, newKey)) else None
    ensures IdentityReady(s.store, parses, put) ==> Inv(Restored(s, newKey)) && DiskAgrees(Restored(s, newKey))
  {
    IdentityExactly(s.store, newKey, parses, put);
    if IdentityReady(s.store, parses, put) {
      var t := s.(store := IdentityStore(s.store, newKey));
      IdentityAdded(s, newKey);
      var m, n := HF.NormalMap(s.http), SF.NormalMap(s.ssh);
      NormalKeyed(s.http, s.ssh);
      BootIs(t, s.store, newKey, parses, put, m, n);
      BootKeeps(t, m, n);
      NormalAgrees(t);
    }
  }

  lemma IdentityExactly(store: Store, newKey: string, parses: bool, put: bool)
    ensures WithIdentity(store, newKey, parses, put) ==
      if IdentityReady(store, parses, put) then Some(IdentityStore(store, newKey)) else None
  {
    assert ValidReference(HOST_IDENTITY_REFERENCE);
  }

  lemma IdentityAdded(s: State, newKey: string)
    requires Inv(s)
    ensures Inv(s.(store := IdentityStore(s.store, newKey)))
  {
    forall a ensures HttpReference(a) != HOST_IDENTITY_REFERENCE && PROXY_REFERENCE != HOST_IDENTITY_REFERENCE { ReferencesApart(a, a); }
    StorePutKeeps(s, HOST_IDENTITY_REFERENCE, if HOST_IDENTITY_REFERENCE in s.store then s.store[HOST_IDENTITY_REFERENCE] else IdentitySecret(newKey));
    if HOST_IDENTITY_REFERENCE in s.store {
      assert s.store[HOST_IDENTITY_REFERENCE := s.store[HOST_IDENTITY_REFERENCE]] == s.store;
    }
  }

  /** While a route called host-identity is registered the daemon does not start, whatever is on disk. */
  lemma HostIdentityRouteBlocksStart(s: State, httpFile: HF.File, sshFile: SF.File, newKey: string, parses: bool, put: bool)
    requires Inv(s) && HOST_IDENTITY_ALIAS in s.ssh
    ensures Boot(httpFile, sshFile, s.store, newKey, parses, put) == None
  {
    ReferencesApart(HOST_IDENTITY_ALIAS, HOST_IDENTITY_ALIAS);
    IdentityExactly(s.store, newKey, parses, put);
  }

  lemma NormalKeyed(m: H.Routes, n: S.Routes)
    requires Keyed(m, H.AliasOf) && Keyed(n, S.AliasOf)
    ensures Keyed(HF.NormalMap(m), H.AliasOf) && Keyed(SF.NormalMap(n), S.AliasOf)
  {
    assert forall k :: k in m ==> H.AliasOf(HF.NormalMap(m)[k]) == H.AliasOf(m[k]);
    assert forall k :: k in n ==> S.AliasOf(SF.NormalMap(n)[k]) == S.AliasOf(n[k]);
  }

  lemma NormalAgrees(s: State)
    requires DiskAgrees(s)
    ensures DiskAgrees(s.(http := HF.NormalMap(s.http), ssh := SF.NormalMap(s.ssh)))
  {
    NormalTwice(s.http, s.ssh);
  }

  lemma BootIs(t: State, store: Store, newKey: string, parses: bool, put: bool, m: H.Routes, n: S.Routes)
    requires Keyed(m, H.AliasOf) && Keyed(n, S.AliasOf) && m.Keys !! n.Keys && ProxyAgrees(t) && t.hasSsh
    requires HF.DecodeFile(t.httpFile) == Ok(Listing(m)) && SF.DecodeFile(t.sshFile) == Ok(Listing(n))
    requires WithIdentity(store, newKey, parses, put) == Some(t.store)
    ensures Boot(t.httpFile, t.sshFile, store, newKey, parses, put) == Some(t.(http := m, ssh := n))
  {
    RegisteredListing(m, H.AliasOf);
    RegisteredListing(n, S.AliasOf);
    BootStore(t);
    BootMatch(t, store, newKey, parses, put);
  }

  /** The outcome, once the files, the identity and the proxy are read. */
  lemma BootMatch(t: State, store: Store, newKey: string, parses: bool, put: bool)
    requires HF.DecodeFile(t.httpFile).Ok? && SF.DecodeFile(t.sshFile).Ok? && t.hasSsh
    requires Registered(HF.DecodeFile(t.httpFile).routes, H.AliasOf).Keys !! Registered(SF.DecodeFile(t.sshFile).routes, S.AliasOf).Keys
    requires WithIdentity(store, newKey, parses, put) == Some(t.store) && (t.proxy.Some? ==> ValidProxy(t.proxy.value))
    requires Resolution(t.store, PROXY_REFERENCE, Proxy, true) ==
      if t.proxy.Some? then Found(ProxySecret(t.proxy.value)) else Missing
    ensures Boot(t.httpFile, t.sshFile, store, newKey, parses, put) ==
      Some(t.(http := Registered(HF.DecodeFile(t.httpFile).routes, H.AliasOf),
              ssh := Registered(SF.DecodeFile(t.sshFile).routes, S.AliasOf)))
  {
  }

  lemma BootKeeps(s: State, m: H.Routes, n: S.Routes)
    requires Inv(s) && Keyed(m, H.AliasOf) && Keyed(n, S.AliasOf) && m.Keys == s.http.Keys && n.Keys == s.ssh.Keys
    requires HF.DecodeFile(s.httpFile) == Ok(Listing(m)) && SF.DecodeFile(s.sshFile) == Ok(Listing(n))
    ensures Inv(s.(http := m, ssh := n))
  {
    HttpDecoded(s.httpFile);
    SshDecoded(s.sshFile);
    RegisteredListing(m, H.AliasOf);
    RegisteredListing(n, S.AliasOf);
    SameAliasesKeep(s, m, n, s.httpFile, s.sshFile);
  }

  lemma BootStore(s: State)
    requires ProxyAgrees(s)
    ensures Resolution(s.store, PROXY_REFERENCE, Proxy, true) ==
      if s.proxy.Some? then Found(ProxySecret(s.proxy.value)) else Missing
  {
    assert ValidReference(PROXY_REFERENCE);
  }

  lemma NormalTwice(m: H.Routes, n: S.Routes)
    ensures HF.NormalMap(HF.NormalMap(m)) == HF.NormalMap(m) && SF.NormalMap(SF.NormalMap(n)) == SF.NormalMap(n)
  {
    forall k | k in m ensures HF.NormalMap(HF.NormalMap(m))[k] == HF.NormalMap(m)[k] { HF.NormalIdempotent(m[k]); }
    forall k | k in n ensures SF.NormalMap(SF.NormalMap(n))[k] == SF.NormalMap(n)[k] { SF.NormalIdempotent(n[k]); }
  }

  /** After any run with clean saves and no failed stopAll, a restart comes up if and only if the identity is ready, and recovers what
      the daemon held; over a run that started with an identity, that identity comes back if and only if no turn took its reference. */
  lemma RestartAfterRun(s: State, turns: seq<Turn>, newKey: string, parses: bool, put: bool)
    requires Inv(s) && s.hasSsh && DiskAgrees(s) && NoFailedStopAll(s, turns)
    requires forall i :: 0 <= i < |turns| ==> Clean(turns[i].env)
    ensures var t := Run(s, turns);
      Boot(t.httpFile, t.sshFile, t.store, newKey, parses, put)
        == (if IdentityReady(t.store, parses, put) then Some(Restored(t, newKey)) else None)
      && (HasIdentity(s) ==> (HasIdentity(t) <==> Untaken(s, turns)))
      && (HOST_IDENTITY_ALIAS in t.ssh ==> !IdentityReady(t.store, parses, put))
  {
    DiskOverRuns(s, turns);
    if HasIdentity(s) { IdentityOverRuns(s, turns); }
    SshStays(s, turns);
    var t := Run(s, turns);
    BootRecovers(t, newKey, parses, put);
    if HOST_IDENTITY_ALIAS in t.ssh { HostIdentityRouteBlocksStart(t, t.httpFile, t.sshFile, newKey, parses, put); }
  }

  // ---- the exceptions happen ----

  /** The example daemon with its SSH file as it was saved. */
  ghost function SavedExample(): State
  {
    Example().(sshFile := SF.Present(Some(SF.DocumentOf(Example().ssh)), 0))
  }

  lemma SavedExampleAgrees()
    ensures Inv(SavedExample()) && DiskAgrees(SavedExample()) && HasIdentity(SavedExample())
  {
    ExampleInv();
    SF.LoadOfRegistry(Example().ssh, 0);
    ListingSorted(HF.NormalMap(Example().http), H.AliasOf);
    assert Listing(HF.NormalMap(Example().http)) == [];
  }

  /** Everything works, and from what the request leaves the daemon does not start. */
  lemma CreationBlocksStart(s: State, q: Request, env: Env, newKey: string, parses: bool, put: bool)
    requires Inv(s) && DiskAgrees(s) && Clean(env) && q.CreateSsh? && q.alias == HOST_IDENTITY_ALIAS && Step(s, q, env).ok
    ensures var t := Step(s, q, env).state;
      DiskAgrees(t) && Boot(t.httpFile, t.sshFile, t.store, newKey, parses, put) == None
  {
    StepKeeps(s, q, env);
    CleanStepAgrees(s, q, env);
    CreatedIsRegistered(s, q, env);
    var t := Step(s, q, env).state;
    HostIdentityRouteBlocksStart(t, t.httpFile, t.sshFile, newKey, parses, put);
  }

  lemma CreatedIsRegistered(s: State, q: Request, env: Env)
    requires q.CreateSsh? && Step(s, q, env).ok
    ensures q.alias in Step(s, q, env).state.ssh
  {
    var plan := PlanOf(s, q, env);
    if plan.AddSshRoute? { AddSshShape(s, plan.sshRoute, plan.secret, env); }
  }

  /** One such creation. */
  lemma CreationCanBlockStart() returns (s: State, q: Request, env: Env)
    ensures Inv(s) && DiskAgrees(s) && HasIdentity(s) && Clean(env) && q.CreateSsh? && q.alias == HOST_IDENTITY_ALIAS
    ensures Step(s, q, env).ok
  {
    SavedExampleAgrees();
    s := SavedExample();
    q, env := TakingRequest();
    ExampleLeavesRoom();
    TakingSucceeds(s, q, env, H.Digest(3));
  }

  lemma ExampleLeavesRoom()
    ensures HOST_IDENTITY_ALIAS !in Example().http && HOST_IDENTITY_ALIAS !in Example().ssh && Example().hasSsh
    ensures S.UsernameFree(Example().ssh, HOST_IDENTITY_ALIAS, HOST_IDENTITY_ALIAS)
  {
    assert |HOST_IDENTITY_ALIAS| > 1;
  }

  lemma TakingSucceeds(s: State, q: Request, env: Env, digest: H.Digest)
    requires q.CreateSsh? && q.alias == HOST_IDENTITY_ALIAS && q.localUsername == "" && s.hasSsh && CreateSshAccepted(q)
    requires KeyDigest(q.localKey, q.keyDigest, env) == Some(digest) && S.Valid(NewSshRoute(q, digest))
    requires q.alias !in s.http && q.alias !in s.ssh && S.UsernameFree(s.ssh, q.alias, q.alias)
    requires env.put && env.sshSave == Installed
    ensures Step(s, q, env).ok
  {
    ReferencesApart(HOST_IDENTITY_ALIAS, HOST_IDENTITY_ALIAS);
    assert ValidReference(HOST_IDENTITY_REFERENCE);
  }

  /** A daemon comes up with a route whose target is not stored. */
  lemma StartWithoutTarget(newKey: string) returns (s: State)
    ensures Boot(s.httpFile, s.sshFile, s.store, newKey, true, true) == Some(s) && !Inv(s)
  {
    SavedExampleAgrees();
    var t := SavedExample();
    s := t.(store := map[HOST_IDENTITY_REFERENCE := IdentitySecret("i")], http := HF.NormalMap(t.http), ssh := SF.NormalMap(t.ssh));
    NormalKeyed(t.http, t.ssh);
    IdentityExactly(s.store, newKey, true, true);
    ReferencesApart("a", "a");
    assert "a" != HOST_IDENTITY_ALIAS by { assert |HOST_IDENTITY_ALIAS| > 1; }
    assert "a" in s.ssh && SshReference("a") !in s.store;
    BootIs(s, s.store, newKey, true, true, s.http, s.ssh);
  }

  lemma {:induction false} SshStays(s: State, turns: seq<Turn>)
    ensures Run(s, turns).hasSsh == s.hasSsh
    decreases |turns|
  {
    if turns != [] {
      SshStaysIn(s, PlanOf(s, turns[0].request, turns[0].env), turns[0].env);
      SshStays(Step(s, turns[0].request, turns[0].env).state, turns[1..]);
    }
  }

  lemma SshStaysIn(s: State, plan: Plan, env: Env)
    ensures Execute(s, plan, env).state.hasSsh == s.hasSsh
  {
  }
}
