/** The byte-wise order of Go strings, and sorting by a string key (sort.Slice, sort.Strings). */
module Order {

  predicate Less(a: string, b: string)
  {
    if b == "" then false
    else if a == "" then true
    else if a[0] != b[0] then a[0] < b[0]
    else Less(a[1..], b[1..])
  }

  /** `k` is where the two strings part, and there the first one is over or has the smaller byte. */
  predicate PartsBelow(a: string, b: string, k: int)
  {
    0 <= k <= |a| && k < |b| && a[..k] == b[..k] && (k == |a| || a[k] < b[k])
  }

  lemma SameStart(a: string, b: string, k: int)
    requires PartsBelow(a, b, k)
    ensures k > 0 ==> a[0] == b[0]
  {
    if k > 0 { assert a[..k][0] == b[..k][0]; }
  }

  /** The order is the byte-wise one: a proper prefix, or the smaller byte at the first difference. */
  lemma {:induction false} LessExactly(a: string, b: string)
    ensures Less(a, b) <==> exists k :: PartsBelow(a, b, k)
  {
    if a == "" && b != "" {
      assert PartsBelow(a, b, 0);
    } else if a != "" && b != "" && a[0] != b[0] {
      if a[0] < b[0] { assert PartsBelow(a, b, 0); }
      forall k | PartsBelow(a, b, k) ensures k == 0 { SameStart(a, b, k); }
    } else if a != "" && b != "" {
      LessExactly(a[1..], b[1..]);
      forall k | PartsBelow(a[1..], b[1..], k) ensures PartsBelow(a, b, k + 1) {
        assert a[..k + 1] == [a[0]] + a[1..][..k] && b[..k + 1] == [b[0]] + b[1..][..k];
      }
      forall k | PartsBelow(a, b, k) ensures k > 0 && PartsBelow(a[1..], b[1..], k - 1) {
        if k > 0 { assert a[1..][..k - 1] == a[..k][1..] && b[1..][..k - 1] == b[..k][1..]; }
      }
    }
  }

  lemma {:induction false} LessIrreflexive(a: string)
    ensures !Less(a, a)
  {
    if a != "" { LessIrreflexive(a[1..]); }
  }

  lemma {:induction false} LessTransitive(a: string, b: string, c: string)
    requires Less(a, b) && Less(b, c)
    ensures Less(a, c)
  {
    if a != "" && a[0] == b[0] && b[0] == c[0] {
      LessTransitive(a[1..], b[1..], c[1..]);
    }
  }

  lemma {:induction false} LessTotal(a: string, b: string)
    ensures Less(a, b) || a == b || Less(b, a)
  {
    if a != "" && b != "" && a[0] == b[0] {
      LessTotal(a[1..], b[1..]);
      assert a == [a[0]] + a[1..] && b == [b[0]] + b[1..];
    }
  }

  ghost predicate StrictlySorted<T(!new)>(s: seq<T>, key: T -> string)
  {
    forall i, j :: 0 <= i < j < |s| ==> Less(key(s[i]), key(s[j]))
  }

  ghost predicate DistinctKeys<T(!new)>(s: seq<T>, key: T -> string)
  {
    forall i, j :: 0 <= i < j < |s| ==> key(s[i]) != key(s[j])
  }

  function Insert<T(!new)>(x: T, s: seq<T>, key: T -> string): (r: seq<T>)
    ensures multiset(r) == multiset(s) + multiset{x}
    ensures |r| == |s| + 1
  {
    if s == [] then [x]
    else if Less(key(x), key(s[0])) then [x] + s
    else
      assert s == [s[0]] + s[1..];
      [s[0]] + Insert(x, s[1..], key)
  }

  function Sort<T(!new)>(s: seq<T>, key: T -> string): (r: seq<T>)
    ensures multiset(r) == multiset(s)
  {
    if s == [] then []
    else
      assert s == s[..|s| - 1] + [s[|s| - 1]];
      Insert(s[|s| - 1], Sort(s[..|s| - 1], key), key)
  }

  lemma {:induction false} InsertSorted<T(!new)>(x: T, s: seq<T>, key: T -> string)
    requires StrictlySorted(s, key)
    requires forall i :: 0 <= i < |s| ==> key(s[i]) != key(x)
    ensures StrictlySorted(Insert(x, s, key), key)
  {
    if s == [] {
    } else if Less(key(x), key(s[0])) {
      forall i | 0 < i < |s| ensures Less(key(x), key(s[i])) {
        LessTransitive(key(x), key(s[0]), key(s[i]));
      }
    } else {
      LessTotal(key(x), key(s[0]));
      var tail := Insert(x, s[1..], key);
      InsertSorted(x, s[1..], key);
      forall i | 0 <= i < |tail| ensures Less(key(s[0]), key(tail[i])) {
        assert tail[i] in multiset(tail);
        assert tail[i] == x || tail[i] in s[1..];
      }
    }
  }

  lemma SameMembers<T(!new)>(a: seq<T>, b: seq<T>)
    requires multiset(a) == multiset(b)
    ensures forall x :: x in a <==> x in b
  {
    forall x ensures x in a <==> x in b {
      assert x in a <==> x in multiset(a);
      assert x in b <==> x in multiset(b);
    }
  }

  lemma KeysApart<T(!new)>(s: seq<T>, key: T -> string)
    requires DistinctKeys(s, key) && s != []
    ensures var sorted := Sort(s[..|s| - 1], key);
      forall i :: 0 <= i < |sorted| ==> key(sorted[i]) != key(s[|s| - 1])
  {
    var front := s[..|s| - 1];
    var sorted := Sort(front, key);
    SameMembers(sorted, front);
    forall i | 0 <= i < |sorted| ensures key(sorted[i]) != key(s[|s| - 1]) {
      assert sorted[i] in sorted && sorted[i] in front;
      var j :| 0 <= j < |front| && front[j] == sorted[i];
    }
  }

  /** Sorting a list with distinct keys gives a strictly increasing rearrangement of it. */
  lemma {:induction false} SortIsSorted<T(!new)>(s: seq<T>, key: T -> string)
    requires DistinctKeys(s, key)
    ensures StrictlySorted(Sort(s, key), key)
    ensures multiset(Sort(s, key)) == multiset(s)
  {
    if s != [] {
      var front, last := s[..|s| - 1], s[|s| - 1];
      assert DistinctKeys(front, key);
      SortIsSorted(front, key);
      var sorted := Sort(front, key);
      assert forall i :: 0 <= i < |sorted| ==> key(sorted[i]) != key(last) by {
        KeysApart(s, key);
      }
      InsertSorted(last, sorted, key);
    }
  }

  /** A strictly increasing list is determined by its members. */
  lemma {:induction false} SortedUnique<T(!new)>(a: seq<T>, b: seq<T>, key: T -> string)
    requires StrictlySorted(a, key) && StrictlySorted(b, key)
    requires forall x :: x in a <==> x in b
    ensures a == b
  {
    Inhabited(b);
    if a != [] {
      assert a[0] in b && b[0] in a;
      HeadsAgree(a, b, key);
      forall x ensures x in a[1..] <==> x in b[1..] {
        TailMembers(a, x, key);
        TailMembers(b, x, key);
      }
      SortedUnique(a[1..], b[1..], key);
      assert a == [a[0]] + a[1..] && b == [b[0]] + b[1..];
    }
  }

  lemma Inhabited<T(!new)>(s: seq<T>)
    ensures s != [] ==> exists x :: x in s
  {
    if s != [] { assert s[0] in s; }
  }

  lemma HeadsAgree<T(!new)>(a: seq<T>, b: seq<T>, key: T -> string)
    requires StrictlySorted(a, key) && StrictlySorted(b, key)
    requires a != [] && b != [] && a[0] in b && b[0] in a
    ensures a[0] == b[0]
  {
    var i :| 0 <= i < |a| && a[i] == b[0];
    var j :| 0 <= j < |b| && b[j] == a[0];
    if i > 0 && j > 0 {
      LessTransitive(key(a[0]), key(b[0]), key(a[0]));
      LessIrreflexive(key(a[0]));
    }
  }

  lemma TailMembers<T(!new)>(s: seq<T>, x: T, key: T -> string)
    requires StrictlySorted(s, key) && s != []
    ensures x in s[1..] <==> x in s && x != s[0]
  {
    if x in s[1..] {
      var i :| 0 <= i < |s[1..]| && s[1..][i] == x;
      assert Less(key(s[0]), key(s[i + 1]));
      LessIrreflexive(key(x));
    }
  }

  // ---- string sets as sorted lists (sortedKeys, sortedSet, sliceSet) ----

  function Self(s: string): string { s }

  ghost function SortedKeys(values: set<string>): (keys: seq<string>)
    ensures StrictlySorted(keys, Self)
    ensures forall x :: x in keys <==> x in values
  {
    if values == {} then []
    else
      var x :| x in values;
      var rest := SortedKeys(values - {x});
      assert forall i :: 0 <= i < |rest| ==> rest[i] in rest;
      InsertSorted(x, rest, Self);
      var r := Insert(x, rest, Self);
      InsertMembers(x, rest, Self);
      r
  }

  lemma InsertMembers<T(!new)>(x: T, s: seq<T>, key: T -> string)
    ensures forall y :: y in Insert(x, s, key) <==> y == x || y in s
  {
    SameMembers(Insert(x, s, key), s + [x]);
  }

  function SliceSet(values: seq<string>): (r: set<string>)
  {
    set x | x in values
  }

  lemma SliceSetSortedKeys(values: set<string>)
    ensures SliceSet(SortedKeys(values)) == values
  {
  }

  /** A listing of the map in the arbitrary order of a Go `range`. */
  method RangeSorted(values: set<string>) returns (keys: seq<string>)
    ensures keys == SortedKeys(values)
  {
    keys := [];
    var todo := values;
    while todo != {}
      invariant todo <= values
      invariant StrictlySorted(keys, Self)
      invariant forall x :: x in keys <==> x in values && x !in todo
    {
      var x :| x in todo;
      assert forall i :: 0 <= i < |keys| ==> keys[i] in keys;
      InsertSorted(x, keys, Self);
      InsertMembers(x, keys, Self);
      keys := Insert(x, keys, Self);
      todo := todo - {x};
    }
    SortedUnique(keys, SortedKeys(values), Self);
  }
}
