/** The SSH route metadata file: Save and Load as encoding and decoding of a document. */
module SshFiles {
  import opened Text
  import opened Names
  import opened Order
  import opened Maps
  import opened Files
  import opened RouteCodec
  import opened SshRoutes
  import HttpRoutes

  const VERSION := 1

  /** A stored route; `digest` is absent when its text is not the hexadecimal of 32 bytes. */
  datatype Stored = Stored(name: string, alias: string, localUsername: string, target: string,
                           digest: Option<HttpRoutes.Digest>, commands: seq<string>, fingerprints: seq<string>,
                           allowStdin: bool, allowAllCommands: bool, recordCommands: bool, allowSftp: bool, allowShell: bool,
                           egress: string, timeout: int, replacements: seq<Replacement>, enabled: bool)

  datatype Document = Document(version: int, routes: seq<Stored>)

  datatype File = Absent | Present(document: Option<Document>, bytes: nat)

  function StoredAlias(p: Stored): string { p.alias }

  ghost function Persist(r: Route): Stored
  {
    Stored(r.name, r.alias, Username(r), r.target, Some(r.digest), SortedKeys(r.policy.commands),
           SortedKeys(r.policy.fingerprints), r.policy.allowStdin, r.policy.allowAllCommands, r.policy.recordCommands,
           r.policy.allowSftp, r.policy.allowShell, r.egress, EffectiveTimeout(r), r.replacements, r.enabled)
  }

  function Restore(p: Stored): (r: Option<Route>)
  {
    if p.target != SshReference(p.alias) || p.digest.None? then None
    else
      var policy := Policy(SliceSet(p.commands), SliceSet(p.fingerprints), p.allowStdin, p.allowAllCommands,
                           p.recordCommands, p.allowSftp, p.allowShell);
      var route := Route(p.name, p.alias, p.localUsername, p.target, p.digest.value, policy, p.egress,
                         if p.timeout == 0 then DEFAULT_TIMEOUT else p.timeout, p.replacements, p.enabled);
      if Valid(route) then Some(route) else None
  }

  /** What survives the file: the effective user name and timeout are spelled out. */
  function Normal(r: Route): Route
  {
    r.(localUsername := Username(r), timeout := EffectiveTimeout(r))
  }

  /** Nothing but the spelling of the user name and the timeout changes; a route that has both spelled out comes back as it is. */
  lemma NormalKeeps(r: Route)
    ensures var n := Normal(r);
      n.(localUsername := r.localUsername, timeout := r.timeout) == r && Username(n) == Username(r) && EffectiveTimeout(n) == EffectiveTimeout(r)
    ensures r.localUsername != "" && 3 <= r.timeout <= 120 ==> Normal(r) == r
  {
  }

  lemma NormalIdempotent(r: Route)
    ensures Normal(Normal(r)) == Normal(r) && Username(Normal(r)) == Username(r)
  {
  }

  lemma RestorePersist(r: Route)
    requires Valid(r)
    ensures Valid(Normal(r)) && Restore(Persist(r)) == Some(Normal(r))
  {
    SliceSetSortedKeys(r.policy.commands);
    SliceSetSortedKeys(r.policy.fingerprints);
    NormalIdempotent(r);
    assert NormalizeTimeout(EffectiveTimeout(r)) == Some(EffectiveTimeout(r));
    assert Valid(Normal(r));
  }

  ghost function Encode(routes: seq<Route>): Document
  {
    Document(VERSION, Sort(Apply(routes, Persist), StoredAlias))
  }

  predicate AllValid(routes: seq<Route>)
  {
    forall i :: 0 <= i < |routes| ==> Valid(routes[i])
  }

  predicate AllSavable(routes: seq<Route>)
  {
    AllValid(routes) && forall i, j :: 0 <= i < j < |routes| ==> Username(routes[i]) != Username(routes[j])
  }

  function DecodeFile(file: File): (r: Loaded<Route>)
  {
    match file
    case Absent => Ok([])
    case Present(document, bytes) =>
      if bytes > MAX_METADATA_BYTES || document.None? || document.value.version != VERSION then Bad
      else DecodeAll(document.value.routes, StoredAlias, Restore, Username, {}, {})
  }

  /** Loading what was saved gives the normalised routes in alias order, exactly when the text fits the size limit. */
  lemma LoadOfSave(routes: seq<Route>, bytes: nat)
    requires DistinctKeys(routes, AliasOf) && AllSavable(routes)
    ensures DecodeFile(Present(Some(Encode(routes)), bytes)) ==
      if bytes <= MAX_METADATA_BYTES then Ok(Sort(Apply(routes, Normal), AliasOf)) else Bad
  {
    var sorted := Sort(routes, AliasOf);
    SortApply(routes, Persist, AliasOf, StoredAlias);
    SortApply(routes, Normal, AliasOf, AliasOf);
    var stored, normal := Apply(sorted, Persist), Apply(sorted, Normal);
    SortedFacts(routes);
    forall i | 0 <= i < |stored| ensures Restore(stored[i]) == Some(normal[i]) { RestorePersist(sorted[i]); }
    forall i, j | 0 <= i < j < |stored| ensures StoredAlias(stored[i]) != StoredAlias(stored[j]) && Username(normal[i]) != Username(normal[j]) {
      assert AliasOf(sorted[i]) != AliasOf(sorted[j]) && Username(sorted[i]) != Username(sorted[j]);
      NormalIdempotent(sorted[i]);
      NormalIdempotent(sorted[j]);
    }
    DecodeAllGives(stored, normal, StoredAlias, Restore, Username, {}, {});
  }

  lemma SortedFacts(routes: seq<Route>)
    requires DistinctKeys(routes, AliasOf) && AllSavable(routes)
    ensures var sorted := Sort(routes, AliasOf); AllSavable(sorted) && DistinctKeys(sorted, AliasOf)
  {
    var sorted := Sort(routes, AliasOf);
    SortIsSorted(routes, AliasOf);
    SortedDistinct(sorted, AliasOf);
    SameMembers(sorted, routes);
    forall i | 0 <= i < |sorted| ensures Valid(sorted[i]) && sorted[i] in routes { assert sorted[i] in sorted; }
    forall i, j | 0 <= i < j < |sorted| ensures Username(sorted[i]) != Username(sorted[j]) {
      assert sorted[i] in routes && sorted[j] in routes;
      var k :| 0 <= k < |routes| && routes[k] == sorted[i];
      var l :| 0 <= l < |routes| && routes[l] == sorted[j];
      assert k != l;
    }
  }

  // ---- the file store ----

  class FileStore {
    var file: File

    method Load() returns (result: Loaded<Route>)
      ensures result == DecodeFile(file)
    {
      if file.Absent? { return Ok([]); }
      if file.bytes > MAX_METADATA_BYTES || file.document.None? || file.document.value.version != VERSION { return Bad; }
      result := Decode(file.document.value.routes, StoredAlias, Restore, Username);
    }

    method Save(routes: seq<Route>, outcome: SaveOutcome, bytes: nat) returns (ok: bool)
      modifies this
      ensures ok <==> AllSavable(routes) && outcome == Installed
      ensures file == if AllSavable(routes) && outcome != NotInstalled then Present(Some(Encode(routes)), bytes) else old(file)
    {
      var document := EncodeRoutes(routes);
      if document.None? { return false; }
      if outcome != NotInstalled { file := Present(document, bytes); }
      ok := outcome == Installed;
    }
  }

  /** Save refuses a list with an invalid route or a repeated user name, and sorts what it writes. */
  method EncodeRoutes(routes: seq<Route>) returns (document: Option<Document>)
    ensures document == if AllSavable(routes) then Some(Encode(routes)) else None
  {
    var stored := PersistAll(routes);
    if stored.None? { return None; }
    document := Some(Document(VERSION, Sort(stored.value, StoredAlias)));
  }

  method PersistAll(routes: seq<Route>) returns (result: Option<seq<Stored>>)
    ensures result == if AllSavable(routes) then Some(Apply(routes, Persist)) else None
  {
    var stored: seq<Stored> := [];
    var users: set<string> := {};
    for i := 0 to |routes|
      invariant AllSavable(routes[..i]) && stored == Apply(routes[..i], Persist) && users == Usernames(routes[..i])
    {
      assert routes[..i + 1] == routes[..i] + [routes[i]];
      SavableSnoc(routes[..i], routes[i]);
      if !Valid(routes[i]) || Username(routes[i]) in users {
        assert !AllSavable(routes[..i + 1]);
        return None;
      }
      users := users + {Username(routes[i])};
      var p := PersistRoute(routes[i]);
      ApplySnoc(routes[..i], routes[i], Persist);
      stored := stored + [p];
    }
    assert routes[..|routes|] == routes;
    result := Some(stored);
  }

  function Usernames(routes: seq<Route>): set<string> { set r | r in routes :: Username(r) }

  lemma SavableSnoc(s: seq<Route>, x: Route)
    ensures AllSavable(s + [x]) <==> AllSavable(s) && Valid(x) && Username(x) !in Usernames(s)
    ensures Usernames(s + [x]) == Usernames(s) + {Username(x)}
  {
    var t := s + [x];
    assert t[|s|] == x && forall i :: 0 <= i < |s| ==> t[i] == s[i];
    if AllSavable(s) && Valid(x) && Username(x) !in Usernames(s) {
      forall i | 0 <= i < |s| ensures Username(s[i]) in Usernames(s) { assert s[i] in s; }
    }
  }

  method PersistRoute(r: Route) returns (p: Stored)
    ensures p == Persist(r)
  {
    var commands := RangeSorted(r.policy.commands);
    var fingerprints := RangeSorted(r.policy.fingerprints);
    p := Stored(r.name, r.alias, Username(r), r.target, Some(r.digest), commands, fingerprints, r.policy.allowStdin,
                r.policy.allowAllCommands, r.policy.recordCommands, r.policy.allowSftp, r.policy.allowShell, r.egress,
                EffectiveTimeout(r), r.replacements, r.enabled);
  }

  // ---- the file of a registry ----

  function NormalMap(m: Routes): Routes
  {
    map alias | alias in m :: Normal(m[alias])
  }

  /** The document a registry is saved as. */
  ghost function DocumentOf(m: Routes): (d: Document)
    ensures Keyed(m, AliasOf) ==> d.version == VERSION && IsStored(d.routes, m, Persist, StoredAlias)
  {
    Document(VERSION, if Keyed(m, AliasOf) then StoredOf(m, Persist, StoredAlias, AliasOf) else [])
  }

  /** What Save writes does not depend on the order in which List enumerates the registry. */
  lemma EncodeOfRange(s: seq<Route>, m: Routes)
    requires Keyed(m, AliasOf) && Lists(s, m, AliasOf)
    ensures Encode(s) == DocumentOf(m)
  {
    StoredOfRange(s, m, Persist, StoredAlias, AliasOf);
  }

  lemma RangeSavable(s: seq<Route>, m: Routes)
    requires WellKept(m) && Lists(s, m, AliasOf)
    ensures AllSavable(s)
  {
    forall i | 0 <= i < |s| ensures Valid(s[i]) {
      assert AliasOf(s[i]) in m;
    }
    forall i, j | 0 <= i < j < |s| ensures Username(s[i]) != Username(s[j]) {
      assert AliasOf(s[i]) != AliasOf(s[j]) && m[AliasOf(s[i])] == s[i] && m[AliasOf(s[j])] == s[j];
    }
  }

  lemma NormalListing(m: Routes)
    requires Keyed(m, AliasOf)
    ensures Sort(Apply(Listing(m), Normal), AliasOf) == Listing(NormalMap(m))
  {
    NormalisedListing(m, NormalMap(m), Normal, AliasOf);
  }

  /** A saved registry is never refused, and loads as its normalisation. */
  lemma LoadOfRegistry(m: Routes, bytes: nat)
    requires WellKept(m) && bytes <= MAX_METADATA_BYTES
    ensures AllSavable(Listing(m))
    ensures DecodeFile(Present(Some(DocumentOf(m)), bytes)) == Ok(Listing(NormalMap(m)))
  {
    ListingSorted(m, AliasOf);
    RangeSavable(Listing(m), m);
    EncodeOfRange(Listing(m), m);
    LoadOfSave(Listing(m), bytes);
    NormalListing(m);
  }
}
