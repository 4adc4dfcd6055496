/** Moving the secrets from one store to another: the two control requests. */
module Migration {
  import opened Names
  import opened Maps
  import opened Order
  import opened Secrets
  import H = HttpRoutes
  import S = SshRoutes

  /** Which reads of the source, writes and verifying reads of the destination succeed, by reference. */
  datatype CopyEnv = CopyEnv(read: string -> bool, write: string -> bool, verify: string -> bool)

  /** The references a daemon with these routes lives on. */
  function References(http: H.Routes, ssh: S.Routes): set<string>
  {
    {PROXY_REFERENCE, HOST_IDENTITY_REFERENCE} + (set a | a in http :: http[a].target) + (set a | a in ssh :: ssh[a].target)
  }

  /** The proxy, the host identity and the target of every route, and nothing else. */
  lemma ReferencesExactly(http: H.Routes, ssh: S.Routes, r: string)
    ensures r in References(http, ssh) <==>
      r == "egress/default" || r == "ssh/host-identity" || (exists a :: a in http && http[a].target == r) || exists a :: a in ssh && ssh[a].target == r
  {
  }

  predicate CanCopy(source: Store, reference: string, kind: Kind, env: CopyEnv)
  {
    ValidReference(reference) && env.read(reference) && reference in source && KindOf(source[reference]) == kind
    && env.write(reference) && env.verify(reference)
  }

  /** The proxy and the host identity may be absent. */
  predicate CanCopyIfThere(source: Store, reference: string, kind: Kind, env: CopyEnv)
  {
    CanCopy(source, reference, kind, env) || (ValidReference(reference) && env.read(reference) && reference !in source)
  }

  predicate CanMigrate(source: Store, http: H.Routes, ssh: S.Routes, env: CopyEnv)
  {
    (forall a :: a in http ==> CanCopy(source, http[a].target, Http, env))
    && (forall a :: a in ssh ==> CanCopy(source, ssh[a].target, Ssh, env))
    && CanCopyIfThere(source, PROXY_REFERENCE, Proxy, env) && CanCopyIfThere(source, HOST_IDENTITY_REFERENCE, Identity, env)
  }

  /** Entries only change by becoming copies of the source. */
  ghost predicate Copies(source: Store, before: Store, after: Store, references: set<string>)
  {
    (forall r :: r in before ==> r in after)
    && forall r :: r in after ==>
      (r in before && after[r] == before[r]) || (r in references && r in source && after[r] == source[r])
  }

  predicate Copied(source: Store, destination: Store, reference: string)
  {
    reference in source && reference in destination && destination[reference] == source[reference]
  }

  lemma CopiesMore(source: Store, before: Store, after: Store, references: set<string>, reference: string)
    requires Copies(source, before, after, references) && reference in references && reference in source
    ensures Copies(source, before, after[reference := source[reference]], references)
    ensures forall r :: Copied(source, after, r) ==> Copied(source, after[reference := source[reference]], r)
  {
  }

  /** The destination after every reference found in the source was copied. */
  function Overlay(source: Store, before: Store, references: set<string>): Store
  {
    before + map r | r in source && r in references :: source[r]
  }

  lemma CopiesAll(source: Store, before: Store, after: Store, references: set<string>)
    requires Copies(source, before, after, references)
    requires forall r :: r in references && r in source ==> Copied(source, after, r)
    ensures after == Overlay(source, before, references)
  {
  }

  datatype CopyResult = Done | NothingThere | CouldNot

  /** Resolve, put, resolve again. */
  method CopyEntry(source: SecretStore, destination: SecretStore, reference: string, kind: Kind, env: CopyEnv,
                   ghost before: Store, ghost references: set<string>) returns (r: CopyResult)
    requires source != destination && reference in references
    requires Copies(source.entries, before, destination.entries, references)
    modifies destination
    ensures r.Done? <==> CanCopy(source.entries, reference, kind, env)
    ensures r.NothingThere? <==> ValidReference(reference) && env.read(reference) && reference !in source.entries
    ensures r.Done? ==> Copied(source.entries, destination.entries, reference)
    ensures Copies(source.entries, before, destination.entries, references)
    ensures forall q :: Copied(source.entries, old(destination.entries), q) ==> Copied(source.entries, destination.entries, q)
  {
    var resolved := source.Resolve(reference, kind, env.read(reference));
    if resolved.Missing? { return NothingThere; }
    if resolved.Broken? { return CouldNot; }
    CopiesMore(source.entries, before, destination.entries, references, reference);
    var stored := destination.Store(reference, resolved.secret, env.write(reference));
    if !stored { return CouldNot; }
    var verified := destination.Resolve(reference, kind, env.verify(reference));
    r := if verified.Found? then Done else CouldNot;
  }

  method CopyHttp(source: SecretStore, destination: SecretStore, http: H.Routes, env: CopyEnv,
                  ghost before: Store, ghost references: set<string>) returns (ok: bool)
    requires source != destination && Keyed(http, H.AliasOf) && forall a :: a in http ==> http[a].target in references
    requires Copies(source.entries, before, destination.entries, references)
    modifies destination
    ensures ok <==> forall a :: a in http ==> CanCopy(source.entries, http[a].target, Http, env)
    ensures ok ==> forall a :: a in http ==> Copied(source.entries, destination.entries, http[a].target)
    ensures Copies(source.entries, before, destination.entries, references)
  {
    var routes := Range(http, H.AliasOf);
    for i := 0 to |routes|
      invariant Copies(source.entries, before, destination.entries, references)
      invariant forall j :: 0 <= j < i ==>
        CanCopy(source.entries, routes[j].target, Http, env) && Copied(source.entries, destination.entries, routes[j].target)
    {
      assert H.AliasOf(routes[i]) in http && http[H.AliasOf(routes[i])] == routes[i];
      var r := CopyEntry(source, destination, routes[i].target, Http, env, before, references);
      if !r.Done? { return false; }
    }
    forall a | a in http
      ensures CanCopy(source.entries, http[a].target, Http, env) && Copied(source.entries, destination.entries, http[a].target)
    {
      assert http[a] in routes;
      var j :| 0 <= j < |routes| && routes[j] == http[a];
      assert CanCopy(source.entries, routes[j].target, Http, env);
    }
    ok := true;
  }

  method CopySsh(source: SecretStore, destination: SecretStore, ssh: S.Routes, env: CopyEnv,
                 ghost before: Store, ghost references: set<string>) returns (ok: bool)
    requires source != destination && Keyed(ssh, S.AliasOf) && forall a :: a in ssh ==> ssh[a].target in references
    requires Copies(source.entries, before, destination.entries, references)
    modifies destination
    ensures ok <==> forall a :: a in ssh ==> CanCopy(source.entries, ssh[a].target, Ssh, env)
    ensures ok ==> forall a :: a in ssh ==> Copied(source.entries, destination.entries, ssh[a].target)
    ensures Copies(source.entries, before, destination.entries, references)
    ensures forall q :: Copied(source.entries, old(destination.entries), q) ==> Copied(source.entries, destination.entries, q)
  {
    var routes := Range(ssh, S.AliasOf);
    for i := 0 to |routes|
      invariant Copies(source.entries, before, destination.entries, references)
      invariant forall q :: Copied(source.entries, old(destination.entries), q) ==> Copied(source.entries, destination.entries, q)
      invariant forall j :: 0 <= j < i ==>
        CanCopy(source.entries, routes[j].target, Ssh, env) && Copied(source.entries, destination.entries, routes[j].target)
    {
      assert S.AliasOf(routes[i]) in ssh && ssh[S.AliasOf(routes[i])] == routes[i];
      var r := CopyEntry(source, destination, routes[i].target, Ssh, env, before, references);
      if !r.Done? { return false; }
    }
    forall a | a in ssh
      ensures CanCopy(source.entries, ssh[a].target, Ssh, env) && Copied(source.entries, destination.entries, ssh[a].target)
    {
      assert ssh[a] in routes;
      var j :| 0 <= j < |routes| && routes[j] == ssh[a];
      assert CanCopy(source.entries, routes[j].target, Ssh, env);
    }
    ok := true;
  }

  /** What the running daemon does on migrate_secret_store: it succeeds exactly when every secret it lives on can be copied,
      then the destination resolves each of them to the source's value; and whether it succeeds or not, the source is not
      written and the destination loses nothing. */
  method Migrate(source: SecretStore, destination: SecretStore, http: H.Routes, ssh: S.Routes, env: CopyEnv) returns (ok: bool)
    requires source != destination && Keyed(http, H.AliasOf) && Keyed(ssh, S.AliasOf)
    modifies destination
    ensures ok <==> CanMigrate(source.entries, http, ssh, env)
    ensures ok ==> forall r :: r in References(http, ssh) && r in source.entries ==> Copied(source.entries, destination.entries, r)
    ensures ok ==> destination.entries == Overlay(source.entries, old(destination.entries), References(http, ssh))
    ensures Copies(source.entries, old(destination.entries), destination.entries, References(http, ssh))
  {
    ghost var before, references := destination.entries, References(http, ssh);
    ok := CopyHttp(source, destination, http, env, before, references);
    if !ok { return; }
    ok := CopySsh(source, destination, ssh, env, before, references);
    if !ok { return; }
    ok := CopySystem(source, destination, env, before, references);
    if !ok { return; }
    AllCopied(source.entries, destination.entries, http, ssh);
    CopiesAll(source.entries, before, destination.entries, references);
  }

  /** The proxy and the host identity, where there are any. */
  method CopySystem(source: SecretStore, destination: SecretStore, env: CopyEnv, ghost before: Store, ghost references: set<string>)
    returns (ok: bool)
    requires source != destination && PROXY_REFERENCE in references && HOST_IDENTITY_REFERENCE in references
    requires Copies(source.entries, before, destination.entries, references)
    modifies destination
    ensures ok <==> CanCopyIfThere(source.entries, PROXY_REFERENCE, Proxy, env)
                    && CanCopyIfThere(source.entries, HOST_IDENTITY_REFERENCE, Identity, env)
    ensures ok && PROXY_REFERENCE in source.entries ==> Copied(source.entries, destination.entries, PROXY_REFERENCE)
    ensures ok && HOST_IDENTITY_REFERENCE in source.entries ==> Copied(source.entries, destination.entries, HOST_IDENTITY_REFERENCE)
    ensures Copies(source.entries, before, destination.entries, references)
    ensures forall q :: Copied(source.entries, old(destination.entries), q) ==> Copied(source.entries, destination.entries, q)
  {
    var proxy := CopyEntry(source, destination, PROXY_REFERENCE, Proxy, env, before, references);
    if proxy.CouldNot? { return false; }
    var identity := CopyEntry(source, destination, HOST_IDENTITY_REFERENCE, Identity, env, before, references);
    ok := !identity.CouldNot?;
  }

  lemma AllCopied(source: Store, destination: Store, http: H.Routes, ssh: S.Routes)
    requires forall a :: a in http ==> Copied(source, destination, http[a].target)
    requires forall a :: a in ssh ==> Copied(source, destination, ssh[a].target)
    requires PROXY_REFERENCE in source ==> Copied(source, destination, PROXY_REFERENCE)
    requires HOST_IDENTITY_REFERENCE in source ==> Copied(source, destination, HOST_IDENTITY_REFERENCE)
    ensures forall r :: r in References(http, ssh) && r in source ==> Copied(source, destination, r)
  {
  }

  /** What is left of a store once the references whose deletion works are gone. */
  function Cleaned(store: Store, references: set<string>, works: string -> bool): Store
  {
    map r | r in store && !(r in references && ValidReference(r) && works(r)) :: store[r]
  }

  /** cleanup_secret_store: deletes what can be deleted, and warns exactly when something could not be. */
  method Cleanup(store: SecretStore, http: H.Routes, ssh: S.Routes, works: string -> bool) returns (failed: bool)
    requires Keyed(http, H.AliasOf) && Keyed(ssh, S.AliasOf)
    modifies store
    ensures store.entries == Cleaned(old(store.entries), References(http, ssh), works)
    ensures failed <==> exists r :: r in References(http, ssh) && !(ValidReference(r) && works(r))
  {
    var references := Collect(http, ssh);
    failed := false;
    for i := 0 to |references|
      invariant store.entries == Cleaned(old(store.entries), SliceSet(references[..i]), works)
      invariant failed <==> exists j :: 0 <= j < i && !(ValidReference(references[j]) && works(references[j]))
    {
      CleanedMore(old(store.entries), references[..i], references[i], works);
      assert references[..i + 1] == references[..i] + [references[i]];
      var deletion := store.DeleteTarget(references[i], works(references[i]));
      failed := failed || deletion.Failed?;
    }
    assert references[..|references|] == references;
    assert forall r :: r in References(http, ssh) <==> r in SliceSet(references);
  }

  lemma CleanedMore(store: Store, done: seq<string>, reference: string, works: string -> bool)
    ensures Cleaned(store, SliceSet(done + [reference]), works)
      == Drop(Cleaned(store, SliceSet(done), works), reference, works(reference))
  {
  }

  function HttpTarget(r: H.Route): string { r.target }

  function SshTarget(r: S.Route): string { r.target }

  /** The targets along a list of routes. */
  ghost function Targets<R>(routes: seq<R>, target: R -> string): set<string> { set r | r in routes :: target(r) }

  method Collect(http: H.Routes, ssh: S.Routes) returns (references: seq<string>)
    requires Keyed(http, H.AliasOf) && Keyed(ssh, S.AliasOf)
    ensures SliceSet(references) == References(http, ssh)
  {
    references := [PROXY_REFERENCE, HOST_IDENTITY_REFERENCE];
    references := AppendTargets(references, http, H.AliasOf, HttpTarget);
    references := AppendTargets(references, ssh, S.AliasOf, SshTarget);
    ReferencesByTarget(http, ssh);
  }

  method AppendTargets<R(!new)>(before: seq<string>, m: map<string, R>, key: R -> string, target: R -> string)
    returns (references: seq<string>)
    requires Keyed(m, key)
    ensures SliceSet(references) == SliceSet(before) + set k | k in m :: target(m[k])
  {
    references := before;
    var routes := Range(m, key);
    for i := 0 to |routes|
      invariant SliceSet(references) == SliceSet(before) + Targets(routes[..i], target)
    {
      assert routes[..i + 1] == routes[..i] + [routes[i]];
      TargetsSnoc(routes[..i], routes[i], target);
      SliceSetSnoc(references, target(routes[i]));
      references := references + [target(routes[i])];
    }
    assert routes[..|routes|] == routes;
    ListsImage(routes, m, target, key);
  }

  lemma ReferencesByTarget(http: H.Routes, ssh: S.Routes)
    ensures References(http, ssh) == {PROXY_REFERENCE, HOST_IDENTITY_REFERENCE}
      + (set a | a in http :: HttpTarget(http[a])) + (set a | a in ssh :: SshTarget(ssh[a]))
  {
    assert (set a | a in http :: HttpTarget(http[a])) == set a | a in http :: http[a].target;
    assert (set a | a in ssh :: SshTarget(ssh[a])) == set a | a in ssh :: ssh[a].target;
  }

  lemma SliceSetSnoc(s: seq<string>, x: string)
    ensures SliceSet(s + [x]) == SliceSet(s) + {x}
  {
  }

  lemma TargetsSnoc<R(!new)>(s: seq<R>, x: R, target: R -> string)
    ensures Targets(s + [x], target) == Targets(s, target) + {target(x)}
  {
  }
}
