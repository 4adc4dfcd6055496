/** Traversing a registry map in an arbitrary order, and its canonical listing by alias. */
module Maps {
  import opened Order

  /** Every value is stored under its own key. */
  predicate Keyed<R(!new)>(m: map<string, R>, key: R -> string)
  {
    forall k :: k in m ==> key(m[k]) == k
  }

  /** `s` enumerates the values of the map, each once, in any order. */
  ghost predicate Lists<R(!new)>(s: seq<R>, m: map<string, R>, key: R -> string)
  {
    (forall i :: 0 <= i < |s| ==> key(s[i]) in m && m[key(s[i])] == s[i])
    && DistinctKeys(s, key)
    && (forall k :: k in m ==> m[k] in s)
  }

  /** A Go `range` over the map. */
  method Range<R(!new)>(m: map<string, R>, key: R -> string) returns (result: seq<R>)
    requires Keyed(m, key)
    ensures Lists(result, m, key)
  {
    result := [];
    var todo := m;
    while todo != map[]
      invariant forall k :: k in todo ==> k in m && m[k] == todo[k]
      invariant forall i :: 0 <= i < |result| ==> key(result[i]) in m && key(result[i]) !in todo && m[key(result[i])] == result[i]
      invariant DistinctKeys(result, key)
      invariant forall k :: k in m && k !in todo ==> m[k] in result
      decreases |todo|
    {
      var k :| k in todo;
      result := result + [m[k]];
      todo := todo - {k};
    }
  }

  function Apply<R, S>(s: seq<R>, f: R -> S): (r: seq<S>)
    ensures |r| == |s| && forall i :: 0 <= i < |s| ==> r[i] == f(s[i])
  {
    seq(|s|, i requires 0 <= i < |s| => f(s[i]))
  }

  /** The values in increasing order of their keys. */
  ghost function Listing<R(!new)>(m: map<string, R>): (s: seq<R>)
  {
    var keys := SortedKeys(m.Keys);
    seq(|keys|, i requires 0 <= i < |keys| => (assert keys[i] in keys; m[keys[i]]))
  }

  lemma ListingSorted<R(!new)>(m: map<string, R>, key: R -> string)
    requires Keyed(m, key)
    ensures StrictlySorted(Listing(m), key) && Lists(Listing(m), m, key)
    ensures forall x :: x in Listing(m) <==> key(x) in m && m[key(x)] == x
  {
    var keys, s := SortedKeys(m.Keys), Listing(m);
    forall i | 0 <= i < |s| ensures key(s[i]) == keys[i] && keys[i] in m { assert keys[i] in keys; }
    forall k | k in m ensures m[k] in s {
      assert k in keys;
      var i :| 0 <= i < |keys| && keys[i] == k;
      assert s[i] == m[k];
    }
    forall i, j | 0 <= i < j < |s| ensures Less(key(s[i]), key(s[j])) {
      assert Less(Self(keys[i]), Self(keys[j]));
    }
    SortedDistinct(s, key);
  }

  /** The listing determines the map. */
  lemma ListingInjective<R(!new)>(m: map<string, R>, n: map<string, R>, key: R -> string)
    requires Keyed(m, key) && Keyed(n, key)
    ensures Listing(m) == Listing(n) <==> m == n
  {
    if Listing(m) == Listing(n) {
      forall k | k in m ensures k in n && n[k] == m[k] { ListingFinds(m, n, key, k); }
      forall k | k in n ensures k in m { ListingFinds(n, m, key, k); }
      assert m.Keys == n.Keys;
      assert m == n;
    }
  }

  lemma ListingFinds<R(!new)>(m: map<string, R>, n: map<string, R>, key: R -> string, k: string)
    requires Keyed(m, key) && Keyed(n, key) && Listing(m) == Listing(n) && k in m
    ensures k in n && n[k] == m[k]
  {
    ListingSorted(m, key);
    ListingSorted(n, key);
    assert m[k] in Listing(n);
  }

  lemma SortedDistinct<R(!new)>(s: seq<R>, key: R -> string)
    requires StrictlySorted(s, key)
    ensures DistinctKeys(s, key)
  {
    forall i, j | 0 <= i < j < |s| ensures key(s[i]) != key(s[j]) { LessIrreflexive(key(s[i])); }
  }

  /** Sorting any enumeration of the map gives its listing. */
  lemma SortOfRange<R(!new)>(s: seq<R>, m: map<string, R>, key: R -> string)
    requires Keyed(m, key) && Lists(s, m, key)
    ensures Sort(s, key) == Listing(m)
  {
    ListingSorted(m, key);
    SortIsSorted(s, key);
    SameMembers(Sort(s, key), s);
    forall x ensures x in Sort(s, key) <==> x in Listing(m) {
      if x in s { var i :| 0 <= i < |s| && s[i] == x; }
    }
    SortedUnique(Sort(s, key), Listing(m), key);
  }

  /** Changing values without changing keys commutes with sorting. */
  lemma {:induction false} SortApply<R(!new), S(!new)>(s: seq<R>, f: R -> S, keyR: R -> string, keyS: S -> string)
    requires forall i :: 0 <= i < |s| ==> keyS(f(s[i])) == keyR(s[i])
    ensures Sort(Apply(s, f), keyS) == Apply(Sort(s, keyR), f)
  {
    if s == [] {
      assert Apply(s, f) == [];
    } else {
      var front, last := s[..|s| - 1], s[|s| - 1];
      SortApply(front, f, keyR, keyS);
      assert Apply(s, f)[..|s| - 1] == Apply(front, f);
      SameMembers(Sort(front, keyR), front);
      var sorted := Sort(front, keyR);
      forall i | 0 <= i < |sorted| ensures keyS(f(sorted[i])) == keyR(sorted[i]) {
        assert sorted[i] in sorted && sorted[i] in front;
      }
      InsertApply(last, sorted, f, keyR, keyS);
    }
  }

  lemma {:induction false} InsertApply<R(!new), S(!new)>(x: R, s: seq<R>, f: R -> S, keyR: R -> string, keyS: S -> string)
    requires keyS(f(x)) == keyR(x) && forall i :: 0 <= i < |s| ==> keyS(f(s[i])) == keyR(s[i])
    ensures Insert(f(x), Apply(s, f), keyS) == Apply(Insert(x, s, keyR), f)
  {
    if s == [] {
      ApplyCons(x, s, f);
    } else if Less(keyR(x), keyR(s[0])) {
      ApplyCons(x, s, f);
    } else {
      InsertApply(x, s[1..], f, keyR, keyS);
      ApplyCons(s[0], Insert(x, s[1..], keyR), f);
      assert Apply(s, f)[1..] == Apply(s[1..], f);
    }
  }

  lemma ApplySnoc<R, S>(s: seq<R>, x: R, f: R -> S)
    ensures Apply(s + [x], f) == Apply(s, f) + [f(x)]
  {
  }

  lemma ApplyCons<R, S>(x: R, s: seq<R>, f: R -> S)
    ensures Apply([x] + s, f) == [f(x)] + Apply(s, f)
  {
  }

  /** Changing every value without changing its key, in the map and in a listing of it. */
  lemma ApplyLists<R(!new)>(s: seq<R>, m: map<string, R>, f: R -> R, n: map<string, R>, key: R -> string)
    requires Keyed(m, key) && Lists(s, m, key)
    requires n.Keys == m.Keys && forall k :: k in m ==> n[k] == f(m[k]) && key(f(m[k])) == key(m[k])
    ensures Keyed(n, key) && Lists(Apply(s, f), n, key)
  {
    var t := Apply(s, f);
    forall i | 0 <= i < |t| ensures key(t[i]) in n && n[key(t[i])] == t[i] && key(t[i]) == key(s[i]) {
      assert m[key(s[i])] == s[i];
    }
    forall k | k in n ensures n[k] in t {
      assert m[k] in s;
      var i :| 0 <= i < |s| && s[i] == m[k];
      assert t[i] == n[k];
    }
  }

  /** Mapping the values of a registry, by alias or along a listing. */
  lemma ListsImage<R(!new)>(s: seq<R>, m: map<string, R>, f: R -> string, key: R -> string)
    requires Lists(s, m, key)
    ensures (set r | r in s :: f(r)) == set k | k in m :: f(m[k])
  {
    forall r | r in s ensures exists k :: k in m && m[k] == r {
      var j :| 0 <= j < |s| && s[j] == r;
      assert key(s[j]) in m && m[key(s[j])] == r;
    }
  }

  lemma PutUndone<R>(m: map<string, R>, k: string, v: R)
    requires k !in m
    ensures m[k := v] - {k} == m
  {
  }

  lemma RemoveUndone<R>(m: map<string, R>, k: string)
    requires k in m
    ensures (m - {k})[k := m[k]] == m
  {
  }
}
