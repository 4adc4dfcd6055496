/** Changing the security settings from the desktop: migrate, save, restart, then clean up or roll back. */
module Settings {
  import opened Text
  import opened Names
  import opened Maps
  import opened Secrets
  import opened Migration
  import opened Startup
  import H = HttpRoutes
  import S = SshRoutes

  const KEYCHAIN := "keychain"
  const LOCAL_FILE := "local_file"

  predicate ValidMode(mode: string) { mode in {KEYCHAIN, LOCAL_FILE} }

  datatype SecuritySettings = SecuritySettings(scope: string, store: string, httpPort: nat, sshPort: nat)

  predicate ValidSettings(s: SecuritySettings)
  {
    s.scope in {"loopback", "lan"} && ValidMode(s.store) && 1024 <= s.httpPort < 0x1_0000 && 1024 <= s.sshPort < 0x1_0000
    && s.httpPort != s.sshPort
  }

  datatype Core = Stopped | Running(mode: string, proxy: Option<WebUrl>)

  /** Both stores, the daemon, and the settings in memory and on disk. */
  datatype Desk = Desk(keychain: Store, localFile: Store, core: Core, settings: SecuritySettings, saved: SecuritySettings,
                       poisoned: bool)

  function StoreAt(d: Desk, mode: string): Store { if mode == KEYCHAIN then d.keychain else d.localFile }

  function WithStore(d: Desk, mode: string, entries: Store): Desk
  {
    if mode == KEYCHAIN then d.(keychain := entries) else d.(localFile := entries)
  }

  /** How one start of the daemon goes: whether it gets to its secrets, whether the stored key is one, whether a new one can
      be stored, and whether it then listens and answers. */
  datatype Start = Start(spawns: bool, parses: bool, puts: bool, newKey: string, listens: bool)

  datatype ChangeEnv = ChangeEnv(confirmed: bool, sent: bool, answers: bool, copy: CopyEnv, saveNext: bool, startNext: Start,
                                 saveBack: bool, startBack: Start, poisons: bool, cleanSent: bool, cleans: string -> bool)

  datatype Launch = Launch(entries: Store, ok: bool, proxy: Option<WebUrl>)

  function LaunchOn(entries: Store, start: Start): (r: Launch)
    ensures forall x :: x in entries ==> x in r.entries && r.entries[x] == entries[x]
  {
    if !start.spawns then Launch(entries, false, None)
    else
      var withIdentity := WithIdentity(entries, start.newKey, start.parses, start.puts);
      if withIdentity.None? then Launch(entries, false, None)
      else
        match Resolution(withIdentity.value, PROXY_REFERENCE, Proxy, true)
        case Found(secret) =>
          if ValidProxy(secret.url) && start.listens then Launch(withIdentity.value, true, Some(secret.url))
          else Launch(withIdentity.value, false, None)
        case Missing => Launch(withIdentity.value, start.listens, None)
        case Broken => Launch(withIdentity.value, false, None)
  }

  function Started(d: Desk, mode: string, start: Start): Desk
  {
    var launch := LaunchOn(StoreAt(d, mode), start);
    WithStore(d, mode, launch.entries).(core := if launch.ok then Running(mode, launch.proxy) else Stopped)
  }

  /** The daemon refuses to clean the store it uses. */
  predicate CleanupRuns(d: Desk, mode: string, env: ChangeEnv)
  {
    d.core.Running? && env.cleanSent && ValidMode(mode) && mode != d.core.mode
  }

  function AfterCleanup(d: Desk, mode: string, references: set<string>, env: ChangeEnv): Desk
  {
    if CleanupRuns(d, mode, env) then WithStore(d, mode, Cleaned(StoreAt(d, mode), references, env.cleans)) else d
  }

  // ---- what must be there ----

  ghost predicate Holds(entries: Store, wanted: Store)
  {
    forall r :: r in wanted ==> r in entries && entries[r] == wanted[r]
  }

  /** The store used by the running daemon holds every secret it lives on. */
  ghost predicate Serves(d: Desk, wanted: Store)
  {
    d.core.Running? ==> Holds(StoreAt(d, d.core.mode), wanted)
  }

  /** So do the stores the settings name, in memory and on disk. */
  ghost predicate Safe(d: Desk, wanted: Store)
  {
    ValidSettings(d.settings) && ValidSettings(d.saved)
    && Holds(StoreAt(d, d.settings.store), wanted) && Holds(StoreAt(d, d.saved.store), wanted) && Serves(d, wanted)
    && (d.core.Running? ==> ValidMode(d.core.mode)) && (d.core.Running? && !d.poisoned ==> d.core.mode == d.settings.store)
  }

  // ---- the change, once the secrets are migrated ----

  /** The states it goes through, one after every effect. */
  function Course(d: Desk, next: SecuritySettings, env: ChangeEnv, references: set<string>): (steps: seq<Desk>)
    ensures |steps| >= 1
  {
    var changed := d.settings.store != next.store;
    if !env.saveNext then [if changed then AfterCleanup(d, next.store, references, env) else d]
    else
      var written := d.(saved := next);
      var stopped := written.(core := Stopped);
      var started := Started(stopped, next.store, env.startNext);
      [written, stopped, started]
      + if started.core.Running? then Finish(started, next, env, references) else RollBack(started, next, env, references)
  }

  function Finish(d: Desk, next: SecuritySettings, env: ChangeEnv, references: set<string>): (steps: seq<Desk>)
    ensures |steps| >= 1
  {
    if env.poisons then [d.(poisoned := true)]
    else
      var done := d.(settings := next);
      [done, if d.settings.store != next.store then AfterCleanup(done, d.settings.store, references, env) else done]
  }

  function RollBack(d: Desk, next: SecuritySettings, env: ChangeEnv, references: set<string>): (steps: seq<Desk>)
    ensures |steps| >= 1
  {
    var written := if env.saveBack then d.(saved := d.settings) else d;
    var started := Started(written, d.settings.store, env.startBack);
    [written, started, if d.settings.store != next.store then AfterCleanup(started, next.store, references, env) else started]
  }

  /** Cleaning takes away something that is wanted. */
  predicate Deletes(env: ChangeEnv, wanted: Store)
  {
    env.cleanSent && exists r :: r in wanted && ValidReference(r) && env.cleans(r)
  }

  /** The settings file is left naming the other store while that store is cleaned. */
  predicate Exposes(d: Desk, next: SecuritySettings, env: ChangeEnv, wanted: Store)
  {
    d.settings.store != next.store && Deletes(env, wanted)
    && if env.saveNext then
         !LaunchOn(StoreAt(d, next.store), env.startNext).ok && !env.saveBack && LaunchOn(StoreAt(d, d.settings.store), env.startBack).ok
       else d.core.Running? && d.saved.store == next.store
  }

  // ---- proofs ----

  lemma CleanedHolds(entries: Store, wanted: Store, references: set<string>, env: ChangeEnv)
    requires Holds(entries, wanted) && wanted.Keys <= references && env.cleanSent
    ensures Holds(Cleaned(entries, references, env.cleans), wanted) <==> !Deletes(env, wanted)
  {
  }

  lemma OtherStore(d: Desk, mode: string, other: string, entries: Store)
    requires ValidMode(mode) && ValidMode(other)
    ensures StoreAt(WithStore(d, mode, entries), mode) == entries
    ensures other != mode ==> StoreAt(WithStore(d, mode, entries), other) == StoreAt(d, other)
  {
  }

  /** Cleaning never touches the store in use. */
  lemma CleanupServes(d: Desk, mode: string, references: set<string>, env: ChangeEnv, wanted: Store)
    requires Serves(d, wanted) && (d.core.Running? ==> ValidMode(d.core.mode))
    ensures Serves(AfterCleanup(d, mode, references, env), wanted)
    ensures d.core.Running? ==> StoreAt(AfterCleanup(d, mode, references, env), d.core.mode) == StoreAt(d, d.core.mode)
  {
    if CleanupRuns(d, mode, env) { OtherStore(d, mode, d.core.mode, Cleaned(StoreAt(d, mode), references, env.cleans)); }
  }

  lemma StartHolds(d: Desk, mode: string, start: Start, wanted: Store, other: string)
    requires ValidMode(mode) && ValidMode(other) && Holds(StoreAt(d, other), wanted)
    ensures Holds(StoreAt(Started(d, mode, start), other), wanted)
    ensures Holds(StoreAt(d, mode), wanted) ==> Serves(Started(d, mode, start), wanted)
  {
    OtherStore(d, mode, other, LaunchOn(StoreAt(d, mode), start).entries);
  }

  /** What the change relies on after the migration: both named stores hold the secrets. */
  ghost predicate Ready(d: Desk, next: SecuritySettings, wanted: Store)
  {
    Safe(d, wanted) && ValidSettings(next) && !d.poisoned && Holds(StoreAt(d, next.store), wanted)
  }

  /** The store that the settings file names holds the secrets, so that a desktop stopped here finds them again. */
  ghost predicate FileHolds(d: Desk, wanted: Store)
  {
    ValidSettings(d.saved) && Holds(StoreAt(d, d.saved.store), wanted)
  }

  ghost predicate AllServe(steps: seq<Desk>, wanted: Store)
  {
    forall i :: 0 <= i < |steps| ==> Serves(steps[i], wanted)
  }

  /** At every step but the last. */
  ghost predicate FileHoldsBefore(steps: seq<Desk>, wanted: Store)
  {
    forall i :: 0 <= i < |steps| - 1 ==> FileHolds(steps[i], wanted)
  }

  lemma FinishKeeps(d: Desk, next: SecuritySettings, env: ChangeEnv, references: set<string>, wanted: Store)
    requires ValidSettings(next) && ValidSettings(d.settings) && d.saved == next && d.core.Running? && d.core.mode == next.store
    requires Holds(StoreAt(d, next.store), wanted) && Holds(StoreAt(d, d.settings.store), wanted)
    ensures var steps := Finish(d, next, env, references);
      AllServe(steps, wanted) && FileHoldsBefore(steps, wanted) && Safe(steps[|steps| - 1], wanted)
  {
    var done := d.(settings := next);
    CleanupServes(done, d.settings.store, references, env, wanted);
    assert StoreAt(done, next.store) == StoreAt(d, next.store);
  }

  lemma RollBackKeeps(d: Desk, next: SecuritySettings, env: ChangeEnv, references: set<string>, wanted: Store)
    requires ValidSettings(next) && ValidSettings(d.settings) && d.saved == next && d.core.Stopped? && !d.poisoned
    requires Holds(StoreAt(d, next.store), wanted) && Holds(StoreAt(d, d.settings.store), wanted) && wanted.Keys <= references
    ensures var steps := RollBack(d, next, env, references); var last := steps[|steps| - 1];
      var exposes := d.settings.store != next.store && Deletes(env, wanted) && !env.saveBack
                     && LaunchOn(StoreAt(d, d.settings.store), env.startBack).ok;
      AllServe(steps, wanted) && FileHoldsBefore(steps, wanted) && (Safe(last, wanted) <==> !exposes)
      && (FileHolds(last, wanted) <==> !exposes)
  {
    var written := if env.saveBack then d.(saved := d.settings) else d;
    RollBackStarts(d, next, env, wanted);
    RollBackCleans(Started(written, d.settings.store, env.startBack), next, references, env, wanted);
  }

  lemma RollBackStarts(d: Desk, next: SecuritySettings, env: ChangeEnv, wanted: Store)
    requires ValidSettings(next) && ValidSettings(d.settings) && d.saved == next
    requires Holds(StoreAt(d, next.store), wanted) && Holds(StoreAt(d, d.settings.store), wanted)
    ensures var written := if env.saveBack then d.(saved := d.settings) else d;
      var started := Started(written, d.settings.store, env.startBack);
      FileHolds(written, wanted) && FileHolds(started, wanted) && Serves(started, wanted)
      && Holds(StoreAt(started, next.store), wanted) && Holds(StoreAt(started, d.settings.store), wanted)
      && started.settings == d.settings && started.saved == written.saved && started.poisoned == d.poisoned
      && (started.core.Running? <==> LaunchOn(StoreAt(d, d.settings.store), env.startBack).ok)
      && (started.core.Running? ==> started.core.mode == d.settings.store)
  {
    var written := if env.saveBack then d.(saved := d.settings) else d;
    assert StoreAt(written, next.store) == StoreAt(d, next.store) && StoreAt(written, d.settings.store) == StoreAt(d, d.settings.store);
    StartHolds(written, d.settings.store, env.startBack, wanted, next.store);
    StartHolds(written, d.settings.store, env.startBack, wanted, d.settings.store);
  }

  lemma RollBackCleans(d: Desk, next: SecuritySettings, references: set<string>, env: ChangeEnv, wanted: Store)
    requires ValidSettings(next) && ValidSettings(d.settings) && ValidSettings(d.saved) && !d.poisoned
    requires d.core.Running? ==> d.core.mode == d.settings.store
    requires Holds(StoreAt(d, d.saved.store), wanted)
    requires Holds(StoreAt(d, next.store), wanted) && Holds(StoreAt(d, d.settings.store), wanted) && wanted.Keys <= references
    ensures var t := if d.settings.store != next.store then AfterCleanup(d, next.store, references, env) else d;
      var exposes := d.settings.store != next.store && Deletes(env, wanted) && d.saved.store == next.store && d.core.Running?;
      Serves(t, wanted) && (Safe(t, wanted) <==> !exposes) && (FileHolds(t, wanted) <==> !exposes)
  {
    CleanupServes(d, next.store, references, env, wanted);
    if d.settings.store != next.store && CleanupRuns(d, next.store, env) {
      var entries := Cleaned(StoreAt(d, next.store), references, env.cleans);
      CleanedHolds(StoreAt(d, next.store), wanted, references, env);
      OtherStore(d, next.store, d.settings.store, entries);
    }
  }

  /** None of the references is left. */
  predicate Emptied(entries: Store, references: set<string>) { forall r :: r in references ==> r !in entries }

  predicate DeletesAll(env: ChangeEnv, references: set<string>)
  {
    env.cleanSent && forall r :: r in references ==> ValidReference(r) && env.cleans(r)
  }

  lemma CleanedEmpties(entries: Store, references: set<string>, env: ChangeEnv)
    requires DeletesAll(env, references)
    ensures Emptied(Cleaned(entries, references, env.cleans), references)
  {
  }

  /** When the store changed and deletions work: after a success the old store holds none of the references any more, and after a
      failure that leaves the old daemon running the new one holds none. */
  ghost predicate LeavesNoCopy(d: Desk, last: Desk, next: SecuritySettings, references: set<string>)
  {
    (last.settings == next ==> Emptied(StoreAt(last, d.settings.store), references))
    && (last.settings == d.settings && !last.poisoned && last.core.Running? ==> Emptied(StoreAt(last, next.store), references))
  }

  lemma ChangeLeavesNoCopy(d: Desk, next: SecuritySettings, env: ChangeEnv, references: set<string>)
    requires ValidSettings(d.settings) && ValidSettings(next) && d.settings.store != next.store && !d.poisoned
    requires d.core.Running? ==> d.core.mode == d.settings.store
    requires DeletesAll(env, references)
    ensures var steps := Course(d, next, env, references); LeavesNoCopy(d, steps[|steps| - 1], next, references)
  {
    if env.saveNext {
      var started := Started(d.(saved := next, core := Stopped), next.store, env.startNext);
      if started.core.Running? { FinishCleans(started, next, env, references); } else { RollBackEmpties(started, next, env, references); }
    } else {
      CleanedEmpties(StoreAt(d, next.store), references, env);
      OtherStore(d, next.store, next.store, Cleaned(StoreAt(d, next.store), references, env.cleans));
    }
  }

  lemma FinishCleans(d: Desk, next: SecuritySettings, env: ChangeEnv, references: set<string>)
    requires ValidSettings(d.settings) && ValidSettings(next) && d.settings.store != next.store
    requires d.core.Running? && d.core.mode == next.store && DeletesAll(env, references)
    ensures var steps := Finish(d, next, env, references); LeavesNoCopy(d, steps[|steps| - 1], next, references)
  {
    var done := d.(settings := next);
    CleanedEmpties(StoreAt(done, d.settings.store), references, env);
    OtherStore(done, d.settings.store, d.settings.store, Cleaned(StoreAt(done, d.settings.store), references, env.cleans));
  }

  lemma RollBackEmpties(d: Desk, next: SecuritySettings, env: ChangeEnv, references: set<string>)
    requires ValidSettings(d.settings) && ValidSettings(next) && d.settings.store != next.store && d.core.Stopped?
    requires DeletesAll(env, references)
    ensures var steps := RollBack(d, next, env, references); LeavesNoCopy(d, steps[|steps| - 1], next, references)
  {
    var written := if env.saveBack then d.(saved := d.settings) else d;
    var started := Started(written, d.settings.store, env.startBack);
    CleanedEmpties(StoreAt(started, next.store), references, env);
    OtherStore(started, next.store, next.store, Cleaned(StoreAt(started, next.store), references, env.cleans));
  }

  /** When the change succeeds. */
  predicate Succeeds(d: Desk, next: SecuritySettings, env: ChangeEnv)
  {
    env.saveNext && LaunchOn(StoreAt(d, next.store), env.startNext).ok && !env.poisons
  }

  lemma ChangeSucceeds(d: Desk, next: SecuritySettings, env: ChangeEnv, references: set<string>)
    requires d.settings != next && ValidSettings(next)
    ensures var steps := Course(d, next, env, references); var last := steps[|steps| - 1];
      (last.settings == next <==> Succeeds(d, next, env)) && (last.settings == next || last.settings == d.settings)
      && (last.settings == next ==> last.saved == next && last.core.Running? && last.core.mode == next.store)
  {
    var stopped := d.(saved := next, core := Stopped);
    assert StoreAt(stopped, next.store) == StoreAt(d, next.store);
    var started := Started(stopped, next.store, env.startNext);
    if env.saveNext {
      if started.core.Running? { FinishSettings(started, next, env, references); } else { RollBackSettings(started, next, env, references); }
    }
  }

  lemma FinishSettings(d: Desk, next: SecuritySettings, env: ChangeEnv, references: set<string>)
    ensures var steps := Finish(d, next, env, references); var last := steps[|steps| - 1];
      last.settings == (if env.poisons then d.settings else next) && last.saved == d.saved && last.core == d.core
  {
  }

  lemma RollBackSettings(d: Desk, next: SecuritySettings, env: ChangeEnv, references: set<string>)
    ensures var steps := RollBack(d, next, env, references); steps[|steps| - 1].settings == d.settings
  {
  }

  /** What a course of steps keeps: the running daemon always has its secrets; the store that the settings file names holds them at
      every step but the last, and at the last one, like everything in Safe, exactly when the change does not expose it. */
  ghost predicate CourseKeeps(steps: seq<Desk>, exposes: bool, wanted: Store)
    requires steps != []
  {
    AllServe(steps, wanted) && FileHoldsBefore(steps, wanted)
    && (Safe(steps[|steps| - 1], wanted) <==> !exposes) && (FileHolds(steps[|steps| - 1], wanted) <==> !exposes)
  }

  lemma ChangeIsSafe(d: Desk, next: SecuritySettings, env: ChangeEnv, references: set<string>, wanted: Store)
    requires Ready(d, next, wanted) && wanted.Keys <= references
    ensures CourseKeeps(Course(d, next, env, references), Exposes(d, next, env, wanted), wanted)
  {
    if env.saveNext {
      RestartIsSafe(d, next, env, references, wanted);
    } else {
      RollBackCleans(d, next, references, env, wanted);
    }
  }

  lemma RestartIsSafe(d: Desk, next: SecuritySettings, env: ChangeEnv, references: set<string>, wanted: Store)
    requires Ready(d, next, wanted) && wanted.Keys <= references && env.saveNext
    ensures CourseKeeps(Course(d, next, env, references), Exposes(d, next, env, wanted), wanted)
  {
    var written := d.(saved := next);
    var stopped := written.(core := Stopped);
    var started := Started(stopped, next.store, env.startNext);
    RestartHolds(d, next, env, wanted);
    RestOfCourse(d, started, next, env, references, wanted);
    var tail := if started.core.Running? then Finish(started, next, env, references) else RollBack(started, next, env, references);
    StepsConcat([written, stopped, started], tail, Exposes(d, next, env, wanted), wanted);
  }

  /** The steps after the new daemon was started, or was not. */
  lemma RestOfCourse(d: Desk, started: Desk, next: SecuritySettings, env: ChangeEnv, references: set<string>, wanted: Store)
    requires ValidSettings(next) && ValidSettings(d.settings) && wanted.Keys <= references && env.saveNext
    requires started.settings == d.settings && started.saved == next && !started.poisoned
    requires started.core.Running? <==> LaunchOn(StoreAt(d, next.store), env.startNext).ok
    requires started.core.Running? ==> started.core.mode == next.store
    requires Holds(StoreAt(started, next.store), wanted) && Holds(StoreAt(started, d.settings.store), wanted)
    requires d.settings.store != next.store ==> StoreAt(started, d.settings.store) == StoreAt(d, d.settings.store)
    ensures CourseKeeps(if started.core.Running? then Finish(started, next, env, references) else RollBack(started, next, env, references),
                        Exposes(d, next, env, wanted), wanted)
  {
    if started.core.Running? {
      FinishKeeps(started, next, env, references, wanted);
    } else {
      RollBackKeeps(started, next, env, references, wanted);
    }
  }

  lemma StepsConcat(a: seq<Desk>, b: seq<Desk>, exposes: bool, wanted: Store)
    requires AllServe(a, wanted) && b != [] && (forall i :: 0 <= i < |a| ==> FileHolds(a[i], wanted)) && CourseKeeps(b, exposes, wanted)
    ensures CourseKeeps(a + b, exposes, wanted)
  {
    forall i | 0 <= i < |a + b| - 1 ensures FileHolds((a + b)[i], wanted) {
      if i >= |a| { assert (a + b)[i] == b[i - |a|]; }
    }
  }

  lemma RestartHolds(d: Desk, next: SecuritySettings, env: ChangeEnv, wanted: Store)
    requires Ready(d, next, wanted)
    ensures var written := d.(saved := next);
      var started := Started(written.(core := Stopped), next.store, env.startNext);
      Serves(written, wanted) && Serves(started, wanted) && FileHolds(written, wanted) && FileHolds(written.(core := Stopped), wanted)
      && FileHolds(started, wanted) && started.settings == d.settings && started.saved == next
      && !started.poisoned && (started.core.Running? <==> LaunchOn(StoreAt(d, next.store), env.startNext).ok)
      && (started.core.Running? ==> started.core.mode == next.store)
      && Holds(StoreAt(started, next.store), wanted) && Holds(StoreAt(started, d.settings.store), wanted)
      && (d.settings.store != next.store ==> StoreAt(started, d.settings.store) == StoreAt(d, d.settings.store))
  {
    var stopped := d.(saved := next, core := Stopped);
    assert StoreAt(stopped, next.store) == StoreAt(d, next.store) && StoreAt(stopped, d.settings.store) == StoreAt(d, d.settings.store);
    StartHolds(stopped, next.store, env.startNext, wanted, next.store);
    StartHolds(stopped, next.store, env.startNext, wanted, d.settings.store);
    OtherStore(stopped, next.store, d.settings.store, LaunchOn(StoreAt(stopped, next.store), env.startNext).entries);
  }

  /** A failed migration, too, leaves every named store with its secrets. */
  lemma MigrationKeeps(d: Desk, mode: string, entries: Store, references: set<string>, wanted: Store)
    requires Safe(d, wanted) && d.core.Running? && !d.poisoned && ValidMode(mode) && mode != d.core.mode
    requires Copies(StoreAt(d, d.core.mode), StoreAt(d, mode), entries, references)
    ensures Safe(WithStore(d, mode, entries), wanted)
  {
    OtherStore(d, mode, d.core.mode, entries);
    OtherStore(d, mode, d.saved.store, entries);
    if Holds(StoreAt(d, mode), wanted) { assert Holds(entries, wanted); }
  }

  lemma MigrationMakesReady(d: Desk, next: SecuritySettings, entries: Store, references: set<string>, wanted: Store)
    requires Safe(d, wanted) && d.core.Running? && !d.poisoned && ValidSettings(next) && next.store != d.core.mode
    requires wanted.Keys <= references && entries == Overlay(StoreAt(d, d.core.mode), StoreAt(d, next.store), references)
    ensures Ready(WithStore(d, next.store, entries), next, wanted)
  {
    var source, before := StoreAt(d, d.core.mode), StoreAt(d, next.store);
    assert Copies(source, before, entries, references);
    MigrationKeeps(d, next.store, entries, references, wanted);
    OtherStore(d, next.store, next.store, entries);
    assert Holds(entries, wanted);
  }

  /** The desktop state the change starts from, when the migration succeeds or is not needed. */
  function Prepared(d: Desk, next: SecuritySettings, references: set<string>): Desk
  {
    if d.settings.store == next.store then d
    else WithStore(d, next.store, Overlay(StoreAt(d, d.settings.store), StoreAt(d, next.store), references))
  }

  /** The change gets past the questions and the migration. */
  predicate Proceeds(d: Desk, next: SecuritySettings, http: H.Routes, ssh: S.Routes, env: ChangeEnv)
  {
    !d.poisoned && ValidSettings(next) && d.settings != next && env.confirmed
    && (d.settings.store == next.store
        || (d.core.Running? && env.sent && env.answers && CanMigrate(StoreAt(d, d.settings.store), http, ssh, env.copy)))
  }

  /** Applying the settings succeeds: they are in force already, or the change goes all the way. */
  predicate Applies(d: Desk, next: SecuritySettings, http: H.Routes, ssh: S.Routes, env: ChangeEnv)
  {
    !d.poisoned && ValidSettings(next)
    && (d.settings == next
        || (Proceeds(d, next, http, ssh, env) && Succeeds(Prepared(d, next, References(http, ssh)), next, env)))
  }

  // ---- the desktop application ----

  class Desktop {
    const keychain: SecretStore
    const localFile: SecretStore
    const http: H.Routes
    const ssh: S.Routes
    var core: Core
    var settings: SecuritySettings
    var saved: SecuritySettings
    var poisoned: bool
    ghost var trace: seq<Desk>

    constructor (keychain: SecretStore, localFile: SecretStore, http: H.Routes, ssh: S.Routes, saved: SecuritySettings)
      ensures this.keychain == keychain && this.localFile == localFile && this.http == http && this.ssh == ssh
      ensures core.Stopped? && settings == saved && this.saved == saved && !poisoned
    {
      this.keychain := keychain;
      this.localFile := localFile;
      this.http := http;
      this.ssh := ssh;
      this.core := Stopped;
      this.settings := saved;
      this.saved := saved;
      this.poisoned := false;
      this.trace := [];
    }

    ghost predicate WellFormed() { keychain != localFile && Keyed(http, H.AliasOf) && Keyed(ssh, S.AliasOf) }

    function StoreFor(mode: string): SecretStore { if mode == KEYCHAIN then keychain else localFile }

    ghost function View(): Desk
      reads this, keychain, localFile
    {
      Desk(keychain.entries, localFile.entries, core, settings, saved, poisoned)
    }

    method StartCore(mode: string, start: Start) returns (ok: bool)
      requires WellFormed() && core.Stopped?
      modifies this`core, this`trace, StoreFor(mode)
      ensures View() == Started(old(View()), mode, start) && ok == core.Running?
      ensures trace == old(trace) + [View()]
    {
      ok := Launch(mode, start);
      trace := trace + [View()];
    }

    method Launch(mode: string, start: Start) returns (ok: bool)
      requires WellFormed() && core.Stopped?
      modifies this`core, StoreFor(mode)
      ensures View() == Started(old(View()), mode, start) && ok == core.Running?
    {
      var store := StoreFor(mode);
      if !start.spawns { return false; }
      var identity := store.Resolve(HOST_IDENTITY_REFERENCE, Identity, true);
      if identity.Broken? || (identity.Found? && !start.parses) { return false; }
      if identity.Missing? {
        var stored := store.Store(HOST_IDENTITY_REFERENCE, IdentitySecret(start.newKey), start.puts);
        if !stored { return false; }
      }
      var proxy := store.Resolve(PROXY_REFERENCE, Proxy, true);
      if proxy.Broken? || (proxy.Found? && !ValidProxy(proxy.secret.url)) || !start.listens { return false; }
      core := Running(mode, if proxy.Found? then Some(proxy.secret.url) else None);
      ok := true;
    }

    method RequestCleanup(mode: string, env: ChangeEnv)
      requires WellFormed()
      modifies this`trace, StoreFor(mode)
      ensures View() == AfterCleanup(old(View()), mode, References(http, ssh), env)
      ensures trace == old(trace) + [View()]
    {
      if core.Running? && env.cleanSent && mode != core.mode && ValidMode(mode) {
        var _ := Cleanup(StoreFor(mode), http, ssh, env.cleans);
      }
      trace := trace + [View()];
    }

    method RequestMigrate(mode: string, env: ChangeEnv) returns (ok: bool)
      requires WellFormed() && (core.Running? ==> ValidMode(core.mode))
      modifies this`trace, StoreFor(mode)
      ensures var d := old(View());
        (ok <==> core.Running? && env.sent && env.answers && mode != core.mode && ValidMode(mode)
                 && CanMigrate(StoreAt(d, core.mode), http, ssh, env.copy))
        && (ok ==> View() == WithStore(d, mode, Overlay(StoreAt(d, core.mode), StoreAt(d, mode), References(http, ssh))))
        && (View() == d
            || (core.Running? && mode != core.mode && ValidMode(mode) && View() == WithStore(d, mode, StoreAt(View(), mode))
                && Copies(StoreAt(d, core.mode), StoreAt(d, mode), StoreAt(View(), mode), References(http, ssh))))
      ensures trace == old(trace) + [View()]
    {
      ok := false;
      if core.Running? && env.sent && mode != core.mode && ValidMode(mode) {
        ok := Migrate(StoreFor(core.mode), StoreFor(mode), http, ssh, env.copy);
        ok := ok && env.answers;
      }
      trace := trace + [View()];
    }

    /** The part of the change after the migration goes through exactly the states of its course. */
    method Change(next: SecuritySettings, env: ChangeEnv) returns (ok: bool)
      requires WellFormed()
      modifies this`core, this`settings, this`saved, this`poisoned, this`trace, keychain, localFile
      ensures var steps := Course(old(View()), next, env, References(http, ssh));
        trace == old(trace) + steps && View() == steps[|steps| - 1]
      ensures settings == if ok then next else old(settings)
      ensures ok ==> saved == next && core.Running? && core.mode == next.store
    {
      var current := settings;
      var changed := current.store != next.store;
      if !env.saveNext {
        if changed { RequestCleanup(next.store, env); } else { trace := trace + [View()]; }
        return false;
      }
      var restarted := SaveAndRestart(next, env);
      if !restarted {
        RollBackTo(current, next, env);
        return false;
      }
      ok := FinishAs(next, env);
    }

    method SaveAndRestart(next: SecuritySettings, env: ChangeEnv) returns (ok: bool)
      requires WellFormed()
      modifies this`core, this`saved, this`trace, StoreFor(next.store)
      ensures var written := old(View()).(saved := next);
        View() == Started(written.(core := Stopped), next.store, env.startNext) && ok == core.Running?
        && trace == old(trace) + [written, written.(core := Stopped), View()]
    {
      saved := next;
      trace := trace + [View()];
      core := Stopped;
      trace := trace + [View()];
      ok := StartCore(next.store, env.startNext);
    }

    method RollBackTo(current: SecuritySettings, next: SecuritySettings, env: ChangeEnv)
      requires WellFormed() && core.Stopped? && current == settings
      modifies this`core, this`saved, this`trace, keychain, localFile
      ensures var steps := RollBack(old(View()), next, env, References(http, ssh));
        trace == old(trace) + steps && View() == steps[|steps| - 1]
    {
      if env.saveBack { saved := current; }
      trace := trace + [View()];
      var restored := StartCore(current.store, env.startBack);
      if restored && current.store != next.store { RequestCleanup(next.store, env); } else { trace := trace + [View()]; }
    }

    method FinishAs(next: SecuritySettings, env: ChangeEnv) returns (ok: bool)
      requires WellFormed() && core.Running?
      modifies this`settings, this`poisoned, this`trace, keychain, localFile
      ensures var steps := Finish(old(View()), next, env, References(http, ssh));
        trace == old(trace) + steps && View() == steps[|steps| - 1]
      ensures settings == if ok then next else old(settings)
    {
      var current := settings;
      if env.poisons {
        poisoned := true;
        trace := trace + [View()];
        return false;
      }
      settings := next;
      trace := trace + [View()];
      if current.store != next.store { RequestCleanup(current.store, env); } else { trace := trace + [View()]; }
      ok := true;
    }

    /** A whole settings change. At every step and failure point the running daemon has its secrets. Afterwards the settings in
        memory and on disk still name stores that hold them, except exactly when the change exposes the other store. */
    method Apply(next: SecuritySettings, env: ChangeEnv, ghost wanted: Store) returns (ok: bool)
      requires WellFormed() && Safe(View(), wanted) && wanted.Keys <= References(http, ssh)
      modifies this`core, this`settings, this`saved, this`poisoned, this`trace, keychain, localFile
      ensures old(trace) <= trace && AllServe(trace[|old(trace)|..], wanted) && FileHoldsBefore(trace[|old(trace)|..], wanted)
      ensures var exposes :=
          Proceeds(old(View()), next, http, ssh, env) && Exposes(Prepared(old(View()), next, References(http, ssh)), next, env, wanted);
        (Safe(View(), wanted) <==> !exposes) && (FileHolds(View(), wanted) <==> !exposes)
      ensures settings == if ok then next else old(settings)
      ensures ok <==> Applies(old(View()), next, http, ssh, env)
      ensures ok && old(settings) != next ==> saved == next && core.Running? && core.mode == next.store
      ensures Proceeds(old(View()), next, http, ssh, env) && old(settings).store != next.store && DeletesAll(env, References(http, ssh)) ==>
        LeavesNoCopy(old(View()), View(), next, References(http, ssh))
    {
      if !ValidSettings(next) || poisoned { return false; }
      if settings == next { return true; }
      if !env.confirmed { return false; }
      var prepared := Prepare(next, env, wanted);
      if !prepared { return false; }
      ok := Continue(next, env, wanted, old(trace));
    }

    /** The change itself, with the steps so far in `trace` after `before`. */
    method Continue(next: SecuritySettings, env: ChangeEnv, ghost wanted: Store, ghost before: seq<Desk>) returns (ok: bool)
      requires WellFormed() && Ready(View(), next, wanted) && wanted.Keys <= References(http, ssh) && settings != next
      requires before <= trace && AllServe(trace[|before|..], wanted)
      requires forall i :: |before| <= i < |trace| ==> FileHolds(trace[i], wanted)
      modifies this`core, this`settings, this`saved, this`poisoned, this`trace, keychain, localFile
      ensures before <= trace && AllServe(trace[|before|..], wanted) && FileHoldsBefore(trace[|before|..], wanted)
      ensures var exposes := Exposes(old(View()), next, env, wanted);
        (Safe(View(), wanted) <==> !exposes) && (FileHolds(View(), wanted) <==> !exposes)
      ensures settings == (if ok then next else old(settings)) && (ok <==> Succeeds(old(View()), next, env))
      ensures ok ==> saved == next && core.Running? && core.mode == next.store
      ensures old(settings).store != next.store && DeletesAll(env, References(http, ssh)) ==>
        LeavesNoCopy(old(View()), View(), next, References(http, ssh))
    {
      ghost var ready, middle := View(), trace;
      ok := ChangeSafely(next, env, wanted);
      ghost var steps := trace[|middle|..];
      assert trace[|before|..] == middle[|before|..] + steps;
      StepsConcat(middle[|before|..], steps, Exposes(ready, next, env, wanted), wanted);
    }

    method ChangeSafely(next: SecuritySettings, env: ChangeEnv, ghost wanted: Store) returns (ok: bool)
      requires WellFormed() && Ready(View(), next, wanted) && wanted.Keys <= References(http, ssh)
      modifies this`core, this`settings, this`saved, this`poisoned, this`trace, keychain, localFile
      ensures |trace| > |old(trace)| && old(trace) <= trace && View() == trace[|trace| - 1]
      ensures CourseKeeps(trace[|old(trace)|..], Exposes(old(View()), next, env, wanted), wanted)
      ensures settings == if ok then next else old(settings)
      ensures old(settings) != next ==> (ok <==> Succeeds(old(View()), next, env))
      ensures old(settings) != next && ok ==> saved == next && core.Running? && core.mode == next.store
      ensures old(settings).store != next.store && DeletesAll(env, References(http, ssh)) ==>
        LeavesNoCopy(old(View()), View(), next, References(http, ssh))
    {
      ghost var d, before := View(), trace;
      ChangeIsSafe(d, next, env, References(http, ssh), wanted);
      if settings != next { ChangeSucceeds(d, next, env, References(http, ssh)); }
      if settings.store != next.store && DeletesAll(env, References(http, ssh)) { ChangeLeavesNoCopy(d, next, env, References(http, ssh)); }
      ok := Change(next, env);
      assert trace[|before|..] == Course(d, next, env, References(http, ssh));
    }

    /** The migration, when the store changes. */
    method Prepare(next: SecuritySettings, env: ChangeEnv, ghost wanted: Store) returns (ok: bool)
      requires WellFormed() && Safe(View(), wanted) && wanted.Keys <= References(http, ssh)
      requires ValidSettings(next) && !poisoned
      modifies this`trace, keychain, localFile
      ensures var d := old(View());
        (ok <==> d.settings.store == next.store
                 || (d.core.Running? && env.sent && env.answers && CanMigrate(StoreAt(d, d.settings.store), http, ssh, env.copy)))
        && (ok ==> View() == Prepared(d, next, References(http, ssh)) && Ready(View(), next, wanted))
        && Safe(View(), wanted)
      ensures old(trace) <= trace && AllServe(trace[|old(trace)|..], wanted)
      ensures forall i :: |old(trace)| <= i < |trace| ==> FileHolds(trace[i], wanted)
    {
      if settings.store == next.store { return true; }
      ghost var d := View();
      ok := RequestMigrate(next.store, env);
      if View() != d { MigrationKeeps(d, next.store, StoreAt(View(), next.store), References(http, ssh), wanted); }
      if ok { MigrationMakesReady(d, next, StoreAt(View(), next.store), References(http, ssh), wanted); }
    }

    /** Starting the application anew, or only its daemon, on the settings it has. */
    method Restart(reload: bool, start: Start, ghost wanted: Store) returns (ok: bool)
      requires WellFormed() && Safe(View(), wanted)
      modifies this`core, this`settings, this`poisoned, this`trace, keychain, localFile
      ensures Safe(View(), wanted)
    {
      if reload { settings, poisoned := saved, false; }
      else if poisoned { return false; }
      core := Stopped;
      ghost var d := View();
      ok := StartCore(settings.store, start);
      StartHolds(d, settings.store, start, wanted, settings.store);
      StartHolds(d, settings.store, start, wanted, saved.store);
    }
  }

  /** The exposure does happen: the new daemon does not come up, writing the old settings back fails, the old daemon comes up
      again and cleans the store that the settings file still names. */
  lemma ExposureHappens() returns (d: Desk, next: SecuritySettings, env: ChangeEnv, references: set<string>, wanted: Store)
    ensures Ready(d, next, wanted) && wanted.Keys <= references
    ensures var steps := Course(d, next, env, references); !Safe(steps[|steps| - 1], wanted)
  {
    var reference := HttpReference("a");
    var url := WebUrl("http", "h", "", false, "", "");
    wanted := map[reference := HttpSecret(url, "", "")];
    var current := SecuritySettings("loopback", KEYCHAIN, 4768, 4770);
    next := current.(store := LOCAL_FILE);
    var all: string -> bool := (r: string) => true;
    var down, up := Start(false, true, true, "k", true), Start(true, true, true, "k", true);
    env := ChangeEnv(true, true, true, CopyEnv(all, all, all), true, down, false, up, false, true, all);
    d := Desk(wanted, wanted, Running(KEYCHAIN, None), current, current, false);
    assert ValidReference(reference) && reference in wanted && env.cleans(reference);
    ReferencesApart("a", "a");
    assert ValidReference(HOST_IDENTITY_REFERENCE) && ValidReference(PROXY_REFERENCE);
    assert LaunchOn(wanted, up).ok;
    references := {reference};
    ChangeIsSafe(d, next, env, references, wanted);
  }

  /** A proxy left over in the destination comes into use. */
  lemma StaleProxyHappens() returns (source: Store, before: Store, references: set<string>, start: Start)
    ensures PROXY_REFERENCE in references && PROXY_REFERENCE !in source
    ensures LaunchOn(Overlay(source, before, references), start).ok && LaunchOn(Overlay(source, before, references), start).proxy.Some?
  {
    var url := WebUrl("http", "h", "", false, "", "");
    source, before := map[HOST_IDENTITY_REFERENCE := IdentitySecret("i")], map[PROXY_REFERENCE := ProxySecret(url)];
    references, start := {PROXY_REFERENCE, HOST_IDENTITY_REFERENCE}, Start(true, true, true, "k", true);
    ReferencesApart("a", "a");
    assert ValidReference(HOST_IDENTITY_REFERENCE) && ValidReference(PROXY_REFERENCE);
    assert PROXY_REFERENCE != HOST_IDENTITY_REFERENCE by { assert PROXY_REFERENCE[0] == 'e'; }
    assert ValidProxy(url) by { assert Lower("http") == "http"; }
  }

  /** The new daemon uses the same proxy as the old one, unless the old store had none and the new one still held one. */
  lemma ProxyCarriedOver(source: Store, before: Store, references: set<string>, start: Start, copy: CopyEnv)
    requires PROXY_REFERENCE in references && CanCopyIfThere(source, PROXY_REFERENCE, Proxy, copy)
    requires LaunchOn(Overlay(source, before, references), start).ok
    ensures LaunchOn(Overlay(source, before, references), start).proxy
        == (if PROXY_REFERENCE in source then Some(source[PROXY_REFERENCE].url) else None)
      <==> PROXY_REFERENCE in source || PROXY_REFERENCE !in before
  {
    assert PROXY_REFERENCE != HOST_IDENTITY_REFERENCE by { assert PROXY_REFERENCE[0] == 'e'; }
  }
}
