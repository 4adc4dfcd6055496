/** A run of ordinary creations whose file outgrows what Load accepts. */
module Growth {
  import opened Text
  import opened Names
  import opened Order
  import opened Maps
  import opened Files
  import opened Secrets
  import opened RouteCodec
  import opened ControlSpec
  import opened ControlInvariant
  import opened ControlRollback
  import opened ControlEffects
  import opened Startup
  import H = HttpRoutes
  import S = SshRoutes
  import HF = HttpFiles
  import SF = SshFiles

  // ---- how long a file is at least ----

  /** The text of the replacement rules of a route. */
  function RuleText(rules: seq<S.Replacement>): nat
  {
    if rules == [] then 0 else |rules[0].from_| + |rules[0].to| + RuleText(rules[1..])
  }

  function RoutesText(routes: seq<SF.Stored>): nat
  {
    if routes == [] then 0 else RuleText(routes[0].replacements) + RoutesText(routes[1..])
  }

  lemma {:induction false} RoutesTextAtLeast(routes: seq<SF.Stored>, each: nat)
    requires forall i :: 0 <= i < |routes| ==> RuleText(routes[i].replacements) >= each
    ensures RoutesText(routes) >= each * |routes|
  {
    if routes != [] { RoutesTextAtLeast(routes[1..], each); }
  }

  lemma {:induction false} DistinctSize(keys: seq<string>)
    requires StrictlySorted(keys, Self)
    ensures |SliceSet(keys)| == |keys|
  {
    if keys != [] {
      DistinctSize(keys[1..]);
      TailMembers(keys, keys[0], Self);
      assert SliceSet(keys) == SliceSet(keys[1..]) + {keys[0]};
    }
  }

  lemma ListingSize<R(!new)>(m: map<string, R>)
    ensures |Listing(m)| == |m|
  {
    var keys := SortedKeys(m.Keys);
    DistinctSize(keys);
    assert SliceSet(keys) == m.Keys;
  }

  lemma SortSize<T(!new)>(s: seq<T>, key: T -> string)
    ensures |Sort(s, key)| == |s|
  {
    assert |multiset(Sort(s, key))| == |Sort(s, key)|;
  }

  /** The document of a registry has one entry per route. */
  lemma DocumentSize(m: S.Routes)
    requires Keyed(m, S.AliasOf)
    ensures |SF.DocumentOf(m).routes| == |m|
  {
    ListingSorted(m, S.AliasOf);
    SF.EncodeOfRange(Listing(m), m);
    ListingSize(m);
    SortSize(Apply(Listing(m), SF.Persist), SF.StoredAlias);
  }

  /** Text that contains the rules cannot be shorter than they are, so a registry with enough of them cannot be loaded again. */
  lemma TooLongToLoad(m: S.Routes, each: nat, bytes: nat)
    requires S.WellKept(m) && forall alias :: alias in m ==> RuleText(m[alias].replacements) >= each
    requires each * |m| > MAX_METADATA_BYTES && bytes >= RoutesText(SF.DocumentOf(m).routes)
    ensures SF.DecodeFile(SF.Present(Some(SF.DocumentOf(m)), bytes)) == Bad
  {
    var stored := SF.DocumentOf(m).routes;
    forall i | 0 <= i < |stored| ensures RuleText(stored[i].replacements) >= each { assert stored[i] in stored; }
    RoutesTextAtLeast(stored, each);
    DocumentSize(m);
  }

  // ---- the run ----

  function LongText(): string { seq(1024, i => 'x') }

  function Rule(): S.Replacement { S.Replacement("k", LongText(), true) }

  function Alias(i: nat): string { "a" + Itoa(i) }

  /** An ordinary request of little more than a kilobyte. */
  function Creation(i: nat): Request
  {
    CreateSsh("n", Alias(i), "", Some("h:22"), 4, "u", "p", "", H.Digest(1), Some("k"), 1, "ls", false, false, false, false, 0, "",
              [Rule()])
  }

  /** Everything works; the file has the given length. */
  function Answer(bytes: nat): Env { Env(Some(H.Digest(1)), true, true, Installed, 0, Installed, bytes, Installed, 0) }

  function Turns(from: nat, n: nat, size: nat -> nat): (turns: seq<Turn>)
    requires from <= n
    decreases n - from
  {
    if from == n then [] else [Turn(Creation(from), Answer(size(from)))] + Turns(from + 1, n, size)
  }

  lemma {:induction false} ItoaShort(i: nat, d: nat)
    requires d >= 1 && i < Power(d)
    ensures |Itoa(i)| <= d
    decreases d
  {
    if i >= 10 { ItoaShort(i / 10, d - 1); }
  }

  function Power(d: nat): nat { if d == 0 then 1 else 10 * Power(d - 1) }

  lemma AliasValid(i: nat)
    requires i < 10_000
    ensures ValidAlias(Alias(i)) && ValidLocalUsername(Alias(i))
  {
    assert Power(4) == 10_000;
    ItoaShort(i, 4);
    var a := Alias(i);
    forall k | 0 <= k < |a| ensures LowerAlnum(a[k]) {
      if k > 0 { assert a[k] == Itoa(i)[k - 1] && IsDigit(Itoa(i)[k - 1]); }
    }
  }

  lemma CreationAccepted(i: nat)
    ensures CreateSshAccepted(Creation(i)) && S.ValidReplacements([Rule()]) && S.ValidCommand("ls")
    ensures RuleText([Rule()]) == 1025
  {
    NameIsValid();
    assert [Rule()][1..] == [] && |LongText()| == 1024;
    assert forall k :: 0 <= k < 1024 ==> LongText()[k] == 'x';
    assert RuleText([]) == 0;
  }

  /** `n` routes, one per creation so far. */
  ghost predicate Grown(s: State, n: nat)
  {
    Inv(s) && s.hasSsh && s.http == map[] && RoutesGrown(s.ssh, n, [Rule()])
  }

  ghost predicate RoutesGrown(m: S.Routes, n: nat, rules: seq<S.Replacement>)
  {
    |m| == n && forall a :: a in m ==> AliasBelow(a, n) && m[a].replacements == rules && S.Username(m[a]) == a
  }

  ghost predicate AliasBelow(a: string, n: nat) { exists j :: 0 <= j < n && a == Alias(j) }

  lemma AliasBelowNext(a: string, n: nat)
    requires AliasBelow(a, n) || a == Alias(n)
    ensures AliasBelow(a, n + 1)
  {
    if AliasBelow(a, n) {
      var j :| 0 <= j < n && a == Alias(j);
      assert 0 <= j < n + 1;
    } else {
      assert 0 <= n < n + 1;
    }
  }

  lemma RoutesGrowByOne(m: S.Routes, n: nat, route: S.Route, rules: seq<S.Replacement>)
    requires RoutesGrown(m, n, rules) && Alias(n) !in m && route.replacements == rules && S.Username(route) == Alias(n)
    ensures RoutesGrown(m[Alias(n) := route], n + 1, rules)
  {
    var t := m[Alias(n) := route];
    assert t.Keys == m.Keys + {Alias(n)};
    forall a | a in t ensures AliasBelow(a, n + 1) { AliasBelowNext(a, n); }
  }

  lemma AliasFree(s: State, n: nat)
    requires RoutesGrown(s.ssh, n, [Rule()])
    ensures Alias(n) !in s.ssh && S.UsernameFree(s.ssh, Alias(n), Alias(n))
  {
    forall j | 0 <= j < n ensures Alias(j) != Alias(n) {
      if Alias(j) == Alias(n) {
        assert Itoa(j) == Alias(j)[1..] && Itoa(n) == Alias(n)[1..];
        ItoaInjective(j, n);
      }
    }
  }

  lemma GrowsByOne(s: State, n: nat, bytes: nat)
    requires Grown(s, n) && n < 10_000
    ensures var o := Step(s, Creation(n), Answer(bytes));
      o.ok && Grown(o.state, n + 1) && o.state.sshFile == SF.Present(Some(SF.DocumentOf(o.state.ssh)), bytes)
  {
    var q, env := Creation(n), Answer(bytes);
    AliasFree(s, n);
    AliasValid(n);
    CreationAccepted(n);
    CreateSshExactly(s, q, env);
    StepKeeps(s, q, env);
    GrownShape(s, n, q, env);
  }

  lemma GrownShape(s: State, n: nat, q: Request, env: Env)
    requires RoutesGrown(s.ssh, n, [Rule()]) && q == Creation(n) && env.sshSave == Installed && Step(s, q, env).ok && Alias(n) !in s.ssh
    ensures var t := Step(s, q, env).state;
      RoutesGrown(t.ssh, n + 1, [Rule()]) && t.http == s.http && t.hasSsh == s.hasSsh
      && t.sshFile == SF.Present(Some(SF.DocumentOf(t.ssh)), env.sshBytes)
  {
    var plan := PlanOf(s, q, env);
    PlannedCreation(s, n, q, env);
    AddSshShape(s, plan.sshRoute, plan.secret, env);
    SshFileOf(s, plan.sshRoute, plan.secret, env);
    RoutesGrowByOne(s.ssh, n, plan.sshRoute, [Rule()]);
  }

  lemma PlannedCreation(s: State, n: nat, q: Request, env: Env)
    requires q == Creation(n) && Step(s, q, env).ok
    ensures var plan := PlanOf(s, q, env);
      plan.AddSshRoute? && plan.sshRoute.alias == Alias(n) && plan.sshRoute.replacements == [Rule()]
      && S.Username(plan.sshRoute) == Alias(n)
  {
  }

  lemma SshFileOf(s: State, route: S.Route, secret: Secret, env: Env)
    requires AddSsh(s, route, secret, env).ok
    ensures var t := AddSsh(s, route, secret, env).state;
      t.sshFile == SF.Present(Some(SF.DocumentOf(s.ssh[route.alias := route])), env.sshBytes) && t.hasSsh == s.hasSsh
  {
  }

  /** Every turn of the run succeeds. */
  lemma {:induction false} RunGrows(s: State, from: nat, n: nat, size: nat -> nat)
    requires Grown(s, from) && from < n <= 10_000
    ensures var t := Run(s, Turns(from, n, size));
      Grown(t, n) && t.sshFile == SF.Present(Some(SF.DocumentOf(t.ssh)), size(n - 1))
    decreases n - from
  {
    var turns := Turns(from, n, size);
    assert turns[0] == Turn(Creation(from), Answer(size(from))) && turns[1..] == Turns(from + 1, n, size);
    GrowsByOne(s, from, size(from));
    var t := Step(s, Creation(from), Answer(size(from))).state;
    if from + 1 < n { RunGrows(t, from + 1, n, size); } else { assert Run(t, []) == t; }
  }

  const EMPTY := State(map[], map[], HF.Absent, SF.Absent, map[], None, true)

  /** After 1024 successful creations of about a kilobyte each the daemon cannot start again, whenever the file is at least as long as
      the rules written in it. */
  lemma GrowthBlocksStart(size: nat -> nat, newKey: string, parses: bool, put: bool)
    requires var t := Run(EMPTY, Turns(0, 1024, size)); size(1023) >= RoutesText(SF.DocumentOf(t.ssh).routes)
    ensures var t := Run(EMPTY, Turns(0, 1024, size));
      Inv(t) && |t.ssh| == 1024 && Boot(t.httpFile, t.sshFile, t.store, newKey, parses, put) == None
  {
    assert Grown(EMPTY, 0);
    RunGrows(EMPTY, 0, 1024, size);
    var t := Run(EMPTY, Turns(0, 1024, size));
    CreationAccepted(0);
    TooLongToLoad(t.ssh, 1025, size(1023));
  }
}
