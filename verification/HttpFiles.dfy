/** The HTTP route metadata file: Save and Load as encoding and decoding of a document. */
module HttpFiles {
  import opened Text
  import opened Names
  import opened Order
  import opened Maps
  import opened Files
  import opened RouteCodec
  import opened HttpRoutes

  const VERSION := 2

  /** A stored route; `digest` is absent when its text is not the hexadecimal of 32 bytes. */
  datatype Stored = Stored(name: string, alias: string, kind: string, provider: string, target: string,
                           digest: Option<Digest>, methods: seq<string>, queryKeys: seq<string>, paths: seq<string>,
                           models: seq<string>, maxRequestBytes: int, maxOutputTokens: int, requestsPerMinute: int,
                           maxConcurrent: int, trackUsage: bool, egress: string, enabled: bool)

  datatype Document = Document(version: int, routes: seq<Stored>)

  /** `document` is absent when the text does not decode; `bytes` is the size of the text. */
  datatype File = Absent | Present(document: Option<Document>, bytes: nat)

  function StoredAlias(p: Stored): string { p.alias }

  predicate Savable(r: Route) { Valid(r) && r.target == HttpReference(r.alias) }

  ghost function Persist(r: Route): Stored
  {
    Stored(r.name, r.alias, EffectiveKind(r), r.provider, r.target, Some(r.digest),
           SortedKeys(r.policy.methods), SortedKeys(r.policy.queryKeys), SortedKeys(r.policy.paths),
           SortedKeys(r.policy.models), r.policy.maxRequestBytes, r.policy.maxOutputTokens,
           r.policy.requestsPerMinute, r.policy.maxConcurrent, r.policy.trackUsage, r.egress, r.enabled)
  }

  function RestorePolicy(p: Stored): Policy
  {
    NewPolicy(SliceSet(p.methods), SliceSet(p.queryKeys)).(
      paths := SliceSet(p.paths), models := SliceSet(p.models), maxRequestBytes := p.maxRequestBytes,
      maxOutputTokens := p.maxOutputTokens, requestsPerMinute := p.requestsPerMinute,
      maxConcurrent := p.maxConcurrent, trackUsage := p.trackUsage)
  }

  function Restore(p: Stored, version: int): (r: Option<Route>)
  {
    if p.target != HttpReference(p.alias) || p.digest.None? then None
    else
      var route := Route(p.name, p.alias, if version == 1 then KIND_HTTP else p.kind, p.provider, p.target,
                         p.digest.value, RestorePolicy(p), p.egress, p.enabled, NO_USAGE);
      if Valid(route) then Some(route) else None
  }

  function RestoreV(version: int): Stored -> Option<Route> { p => Restore(p, version) }

  /** What survives the file: the kind is spelled out, methods are upper case, usage counters restart. */
  function Normal(r: Route): Route
  {
    r.(kind := EffectiveKind(r), policy := r.policy.(methods := set m | m in r.policy.methods :: Upper(m)), usage := NO_USAGE)
  }

  /** Nothing but the spelling of the kind, the case of the methods and the counters changes; a route that has its kind spelled out and
      its methods in upper case comes back as it is, without the counters. */
  lemma NormalKeeps(r: Route)
    ensures var n := Normal(r);
      n.(kind := r.kind, policy := n.policy.(methods := r.policy.methods), usage := r.usage) == r && n.usage == LlmUsage(0, 0, 0)
      && EffectiveKind(n) == EffectiveKind(r) && (forall m :: m in n.policy.methods <==> exists o :: o in r.policy.methods && m == Upper(o))
    ensures r.kind != "" && (forall m :: m in r.policy.methods ==> Upper(m) == m) ==> Normal(r) == r.(usage := NO_USAGE)
  {
    assert |KIND_HTTP| == 4;
    if forall m :: m in r.policy.methods ==> Upper(m) == m {
      assert Normal(r).policy.methods == r.policy.methods;
    }
  }

  lemma NormalIdempotent(r: Route)
    ensures Normal(Normal(r)) == Normal(r)
  {
    var once, twice := Normal(r).policy.methods, Normal(Normal(r)).policy.methods;
    forall m ensures m in twice <==> m in once {
      if m in twice {
        var n :| n in once && m == Upper(n);
        var o :| o in r.policy.methods && n == Upper(o);
        UpperIdempotent(o);
      }
      if m in once {
        var o :| o in r.policy.methods && m == Upper(o);
        UpperIdempotent(o);
        assert m == Upper(m);
      }
    }
    assert twice == once;
  }

  lemma NormalValid(r: Route)
    requires Savable(r)
    ensures Savable(Normal(r))
  {
    var n := Normal(r);
    var some :| some in r.policy.methods;
    assert Upper(some) in n.policy.methods;
    assert EffectiveKind(n) == EffectiveKind(r) by { assert |KIND_HTTP| == 4; }
    if EffectiveKind(r) != KIND_HTTP {
      PostOnly(r.policy.methods);
      assert n.policy.methods == {"POST"};
      assert ValidLlm(n);
    }
  }

  lemma PostOnly(methods: set<string>)
    requires |methods| == 1 && "POST" in methods
    ensures (set m | m in methods :: Upper(m)) == {"POST"}
  {
    assert |methods - {"POST"}| == 0;
    assert methods == {"POST"};
    assert Upper("T") == "T" && "ST"[1..] == "T" && "OST"[1..] == "ST" && "POST"[1..] == "OST";
    assert Upper("ST") == "ST";
    assert Upper("OST") == "OST";
    assert Upper("POST") == "POST";
  }

  lemma RestorePersist(r: Route)
    requires Savable(r)
    ensures Restore(Persist(r), VERSION) == Some(Normal(r))
  {
    SliceSetSortedKeys(r.policy.methods);
    SliceSetSortedKeys(r.policy.queryKeys);
    SliceSetSortedKeys(r.policy.paths);
    SliceSetSortedKeys(r.policy.models);
    NormalValid(r);
    assert RestorePolicy(Persist(r)) == Normal(r).policy;
  }

  ghost function Encode(routes: seq<Route>): Document
  {
    Document(VERSION, Sort(Apply(routes, Persist), StoredAlias))
  }

  function DecodeFile(file: File): (r: Loaded<Route>)
  {
    match file
    case Absent => Ok([])
    case Present(document, bytes) =>
      if bytes > MAX_METADATA_BYTES || document.None? then Bad
      else
        var version := document.value.version;
        if version != 1 && version != VERSION then Bad
        else DecodeAll(document.value.routes, StoredAlias, RestoreV(version), AliasOf, {}, {})
  }

  /** Loading what was saved gives the normalised routes in alias order, exactly when the text fits the size limit. */
  lemma LoadOfSave(routes: seq<Route>, bytes: nat)
    requires DistinctKeys(routes, AliasOf) && forall i :: 0 <= i < |routes| ==> Savable(routes[i])
    ensures DecodeFile(Present(Some(Encode(routes)), bytes)) ==
      if bytes <= MAX_METADATA_BYTES then Ok(Sort(Apply(routes, Normal), AliasOf)) else Bad
  {
    var sorted := Sort(routes, AliasOf);
    SortIsSorted(routes, AliasOf);
    SortedDistinct(sorted, AliasOf);
    SameMembers(sorted, routes);
    SortApply(routes, Persist, AliasOf, StoredAlias);
    SortApply(routes, Normal, AliasOf, AliasOf);
    var stored, normal := Apply(sorted, Persist), Apply(sorted, Normal);
    forall i | 0 <= i < |stored| ensures RestoreV(VERSION)(stored[i]) == Some(normal[i]) {
      assert sorted[i] in sorted && sorted[i] in routes;
      RestorePersist(sorted[i]);
    }
    forall i, j | 0 <= i < j < |stored| ensures StoredAlias(stored[i]) != StoredAlias(stored[j]) && AliasOf(normal[i]) != AliasOf(normal[j]) {
      assert AliasOf(sorted[i]) != AliasOf(sorted[j]);
    }
    DecodeAllGives(stored, normal, StoredAlias, RestoreV(VERSION), AliasOf, {}, {});
  }

  /** A version 1 file holds plain HTTP routes, whatever kind it names. */
  lemma VersionOneIsHttp(p: Stored)
    requires Restore(p, 1).Some?
    ensures EffectiveKind(Restore(p, 1).value) == KIND_HTTP && Restore(p, 1).value.provider == ""
  {
  }

  // ---- the file store ----

  class FileStore {
    var file: File

    method Load() returns (result: Loaded<Route>)
      ensures result == DecodeFile(file)
    {
      if file.Absent? { return Ok([]); }
      if file.bytes > MAX_METADATA_BYTES || file.document.None? { return Bad; }
      var document := file.document.value;
      if document.version != 1 && document.version != VERSION { return Bad; }
      result := Decode(document.routes, StoredAlias, RestoreV(document.version), AliasOf);
    }

    /** `bytes` is the size of the encoded text, and `outcome` what the file system does. */
    method Save(routes: seq<Route>, outcome: SaveOutcome, bytes: nat) returns (ok: bool)
      modifies this
      ensures ok <==> AllSavable(routes) && outcome == Installed
      ensures file == if AllSavable(routes) && outcome != NotInstalled then Present(Some(Encode(routes)), bytes) else old(file)
    {
      var document := EncodeRoutes(routes);
      if document.None? { return false; }
      if outcome != NotInstalled { file := Present(document, bytes); }
      ok := outcome == Installed;
    }
  }

  /** Save refuses a list with an invalid route, and sorts what it writes. */
  method EncodeRoutes(routes: seq<Route>) returns (document: Option<Document>)
    ensures document == if AllSavable(routes) then Some(Encode(routes)) else None
  {
    var stored := PersistAll(routes);
    if stored.None? { return None; }
    document := Some(Document(VERSION, Sort(stored.value, StoredAlias)));
  }

  method PersistAll(routes: seq<Route>) returns (result: Option<seq<Stored>>)
    ensures result == if AllSavable(routes) then Some(Apply(routes, Persist)) else None
  {
    var stored: seq<Stored> := [];
    for i := 0 to |routes|
      invariant AllSavable(routes[..i]) && stored == Apply(routes[..i], Persist)
    {
      if !Savable(routes[i]) { return None; }
      var p := PersistRoute(routes[i]);
      ApplySnoc(routes[..i], routes[i], Persist);
      assert routes[..i + 1] == routes[..i] + [routes[i]];
      stored := stored + [p];
    }
    assert routes[..|routes|] == routes;
    result := Some(stored);
  }

  predicate AllSavable(routes: seq<Route>)
  {
    forall i :: 0 <= i < |routes| ==> Savable(routes[i])
  }

  method PersistRoute(r: Route) returns (p: Stored)
    ensures p == Persist(r)
  {
    var methods := RangeSorted(r.policy.methods);
    var queryKeys := RangeSorted(r.policy.queryKeys);
    var paths := RangeSorted(r.policy.paths);
    var models := RangeSorted(r.policy.models);
    p := Stored(r.name, r.alias, EffectiveKind(r), r.provider, r.target, Some(r.digest), methods, queryKeys, paths,
                models, r.policy.maxRequestBytes, r.policy.maxOutputTokens, r.policy.requestsPerMinute,
                r.policy.maxConcurrent, r.policy.trackUsage, r.egress, r.enabled);
  }

  // ---- the file of a registry ----

  predicate SavableMap(m: Routes)
  {
    WellKept(m) && forall alias :: alias in m ==> m[alias].target == HttpReference(alias)
  }

  function NormalMap(m: Routes): Routes
  {
    map alias | alias in m :: Normal(m[alias])
  }

  /** The document a registry is saved as. */
  ghost function DocumentOf(m: Routes): (d: Document)
    ensures Keyed(m, AliasOf) ==> d.version == VERSION && IsStored(d.routes, m, Persist, StoredAlias)
  {
    Document(VERSION, if Keyed(m, AliasOf) then StoredOf(m, Persist, StoredAlias, AliasOf) else [])
  }

  /** What Save writes does not depend on the order in which List enumerates the registry. */
  lemma EncodeOfRange(s: seq<Route>, m: Routes)
    requires Keyed(m, AliasOf) && Lists(s, m, AliasOf)
    ensures Encode(s) == DocumentOf(m)
  {
    StoredOfRange(s, m, Persist, StoredAlias, AliasOf);
  }

  lemma RangeSavable(s: seq<Route>, m: Routes)
    requires SavableMap(m) && Lists(s, m, AliasOf)
    ensures AllSavable(s)
  {
    forall i | 0 <= i < |s| ensures Savable(s[i]) {
      var alias := AliasOf(s[i]);
      assert alias in m && m[alias] == s[i];
    }
  }

  lemma NormalListing(m: Routes)
    requires Keyed(m, AliasOf)
    ensures Sort(Apply(Listing(m), Normal), AliasOf) == Listing(NormalMap(m))
  {
    NormalisedListing(m, NormalMap(m), Normal, AliasOf);
  }

  /** A saved registry is never refused, and loads as its normalisation. */
  lemma LoadOfRegistry(m: Routes, bytes: nat)
    requires SavableMap(m) && bytes <= MAX_METADATA_BYTES
    ensures AllSavable(Listing(m))
    ensures DecodeFile(Present(Some(DocumentOf(m)), bytes)) == Ok(Listing(NormalMap(m)))
  {
    ListingSorted(m, AliasOf);
    RangeSavable(Listing(m), m);
    EncodeOfRange(Listing(m), m);
    LoadOfSave(Listing(m), bytes);
    NormalListing(m);
  }
}
