/** What the two metadata files share: decoding a list of stored routes with duplicate checks. */
module RouteCodec {
  import opened Text
  import opened Order
  import opened Maps

  datatype Loaded<R> = Ok(routes: seq<R>) | Bad

  /** The loop of Load: a repeated alias, an entry that does not decode, or a repeated user name is an error. */
  function DecodeAll<P, R>(stored: seq<P>, aliasOf: P -> string, restore: P -> Option<R>, userOf: R -> string,
                           seen: set<string>, users: set<string>): (r: Loaded<R>)
  {
    if stored == [] then Ok([])
    else
      var p := stored[0];
      var route := restore(p);
      if aliasOf(p) in seen || route.None? || userOf(route.value) in users then Bad
      else
        var rest := DecodeAll(stored[1..], aliasOf, restore, userOf, seen + {aliasOf(p)}, users + {userOf(route.value)});
        if rest.Bad? then Bad else Ok([route.value] + rest.routes)
  }

  lemma {:induction false} DecodeAllGives<P(!new), R(!new)>(
    stored: seq<P>, routes: seq<R>, aliasOf: P -> string, restore: P -> Option<R>, userOf: R -> string,
    seen: set<string>, users: set<string>)
    requires |stored| == |routes| && forall i :: 0 <= i < |stored| ==> restore(stored[i]) == Some(routes[i])
    requires DistinctKeys(stored, aliasOf) && DistinctKeys(routes, userOf)
    requires forall i :: 0 <= i < |stored| ==> aliasOf(stored[i]) !in seen && userOf(routes[i]) !in users
    ensures DecodeAll(stored, aliasOf, restore, userOf, seen, users) == Ok(routes)
  {
    if stored != [] {
      DecodeAllGives(stored[1..], routes[1..], aliasOf, restore, userOf,
                     seen + {aliasOf(stored[0])}, users + {userOf(routes[0])});
      assert [routes[0]] + routes[1..] == routes;
    } else {
      assert routes == [];
    }
  }

  function Prefixed<R>(routes: seq<R>, rest: Loaded<R>): (r: Loaded<R>)
  {
    if rest.Bad? then Bad else Ok(routes + rest.routes)
  }

  /** One entry that decodes and repeats nothing. */
  lemma DecodeStep<P, R>(stored: seq<P>, i: nat, aliasOf: P -> string, restore: P -> Option<R>, userOf: R -> string,
                         seen: set<string>, users: set<string>, routes: seq<R>)
    requires i < |stored| && aliasOf(stored[i]) !in seen && restore(stored[i]).Some? && userOf(restore(stored[i]).value) !in users
    ensures var route := restore(stored[i]).value;
      Prefixed(routes, DecodeAll(stored[i..], aliasOf, restore, userOf, seen, users))
      == Prefixed(routes + [route], DecodeAll(stored[i + 1..], aliasOf, restore, userOf, seen + {aliasOf(stored[i])}, users + {userOf(route)}))
  {
    var route := restore(stored[i]).value;
    assert stored[i..][1..] == stored[i + 1..];
    var rest := DecodeAll(stored[i + 1..], aliasOf, restore, userOf, seen + {aliasOf(stored[i])}, users + {userOf(route)});
    if rest.Ok? { assert routes + ([route] + rest.routes) == (routes + [route]) + rest.routes; }
  }

  method Decode<P, R>(stored: seq<P>, aliasOf: P -> string, restore: P -> Option<R>, userOf: R -> string)
    returns (result: Loaded<R>)
    ensures result == DecodeAll(stored, aliasOf, restore, userOf, {}, {})
  {
    var routes: seq<R>, seen: set<string>, users: set<string> := [], {}, {};
    for i := 0 to |stored|
      invariant DecodeAll(stored, aliasOf, restore, userOf, {}, {}) ==
        Prefixed(routes, DecodeAll(stored[i..], aliasOf, restore, userOf, seen, users))
    {
      if aliasOf(stored[i]) in seen { return Bad; }
      var route := restore(stored[i]);
      if route.None? || userOf(route.value) in users { return Bad; }
      DecodeStep(stored, i, aliasOf, restore, userOf, seen, users, routes);
      seen := seen + {aliasOf(stored[i])};
      users := users + {userOf(route.value)};
      routes := routes + [route.value];
    }
    assert routes + [] == routes;
    result := Ok(routes);
  }

  // ---- the file of a registry ----

  /** The stored forms of the routes of a registry, in alias order. */
  ghost predicate IsStored<P(!new), R(!new)>(stored: seq<P>, m: map<string, R>, persist: R -> P, aliasOf: P -> string)
  {
    StrictlySorted(stored, aliasOf) && forall p :: p in stored <==> aliasOf(p) in m && p == persist(m[aliasOf(p)])
  }

  lemma StoredMember<P(!new), R(!new)>(s: seq<R>, m: map<string, R>, persist: R -> P, aliasOf: P -> string, key: R -> string, p: P)
    requires Keyed(m, key) && Lists(s, m, key) && forall r :: aliasOf(persist(r)) == key(r)
    ensures p in Apply(s, persist) <==> aliasOf(p) in m && p == persist(m[aliasOf(p)])
  {
    var stored := Apply(s, persist);
    if p in stored {
      var i :| 0 <= i < |stored| && stored[i] == p;
      assert m[key(s[i])] == s[i];
    }
    if aliasOf(p) in m && p == persist(m[aliasOf(p)]) {
      assert m[aliasOf(p)] in s;
      var i :| 0 <= i < |s| && s[i] == m[aliasOf(p)];
      assert stored[i] == p;
    }
  }

  lemma SortIsStored<P(!new), R(!new)>(s: seq<R>, m: map<string, R>, persist: R -> P, aliasOf: P -> string, key: R -> string)
    requires Keyed(m, key) && Lists(s, m, key) && forall r :: aliasOf(persist(r)) == key(r)
    ensures IsStored(Sort(Apply(s, persist), aliasOf), m, persist, aliasOf)
  {
    var stored := Apply(s, persist);
    SortIsSorted(stored, aliasOf);
    SameMembers(Sort(stored, aliasOf), stored);
    forall p ensures p in stored <==> aliasOf(p) in m && p == persist(m[aliasOf(p)]) { StoredMember(s, m, persist, aliasOf, key, p); }
  }

  /** What Save writes of a registry. */
  ghost function StoredOf<P(!new), R(!new)>(m: map<string, R>, persist: R -> P, aliasOf: P -> string, key: R -> string): (stored: seq<P>)
    requires Keyed(m, key) && forall r :: aliasOf(persist(r)) == key(r)
    ensures IsStored(stored, m, persist, aliasOf)
  {
    ListingSorted(m, key);
    SortIsStored(Listing(m), m, persist, aliasOf, key);
    var stored :| IsStored(stored, m, persist, aliasOf); stored
  }

  /** It does not depend on the order in which List enumerates the registry. */
  lemma StoredOfRange<P(!new), R(!new)>(s: seq<R>, m: map<string, R>, persist: R -> P, aliasOf: P -> string, key: R -> string)
    requires Keyed(m, key) && Lists(s, m, key) && forall r :: aliasOf(persist(r)) == key(r)
    ensures Sort(Apply(s, persist), aliasOf) == StoredOf(m, persist, aliasOf, key)
  {
    SortIsStored(s, m, persist, aliasOf, key);
    SortedUnique(Sort(Apply(s, persist), aliasOf), StoredOf(m, persist, aliasOf, key), aliasOf);
  }

  /** Normalising every route of a registry, before or after listing it. */
  lemma NormalisedListing<R(!new)>(m: map<string, R>, n: map<string, R>, normal: R -> R, key: R -> string)
    requires Keyed(m, key) && n.Keys == m.Keys && forall k :: k in m ==> n[k] == normal(m[k]) && key(normal(m[k])) == key(m[k])
    ensures Sort(Apply(Listing(m), normal), key) == Listing(n)
  {
    ListingSorted(m, key);
    ApplyLists(Listing(m), m, normal, n, key);
    SortOfRange(Apply(Listing(m), normal), n, key);
  }
}
