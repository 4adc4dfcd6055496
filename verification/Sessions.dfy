/** One SSH session: what a client's channel requests start, and how each is answered. */
module Sessions {
  import opened Text
  import H = HttpRoutes
  import S = SshRoutes

  // ---- authentication ----

  datatype Authentication = Granted(alias: string) | RouteDisabled | Denied

  /** The owner of the user name decides: it must be enabled, and its credential must match. */
  method AuthenticatePassword(registry: S.Registry, username: string, digest: H.Digest) returns (r: Authentication)
    requires S.UsernamesDistinct(registry.routes)
    ensures var owner := S.RouteOf(registry.routes, username);
      (r.RouteDisabled? <==> owner.Some? && !owner.value.enabled)
      && (forall alias :: r == Granted(alias) <==>
            owner.Some? && owner.value.enabled && owner.value.digest == digest && owner.value.alias == alias)
  {
    var route := registry.LookupByUsername(username);
    if route.None? {
      var disabled := registry.GetByUsername(username);
      return if disabled.Some? && !disabled.value.enabled then RouteDisabled else Denied;
    }
    r := if route.value.digest == digest then Granted(route.value.alias) else Denied;
  }

  method AuthenticatePublicKey(registry: S.Registry, username: string, fingerprint: string) returns (r: Authentication)
    requires S.UsernamesDistinct(registry.routes)
    ensures var owner := S.RouteOf(registry.routes, username);
      (r.RouteDisabled? <==> owner.Some? && !owner.value.enabled)
      && (forall alias :: r == Granted(alias) <==>
            owner.Some? && owner.value.enabled && fingerprint in owner.value.policy.fingerprints && owner.value.alias == alias)
  {
    var route := registry.LookupByUsername(username);
    if route.None? {
      var disabled := registry.GetByUsername(username);
      return if disabled.Some? && !disabled.value.enabled then RouteDisabled else Denied;
    }
    r := if fingerprint in route.value.policy.fingerprints then Granted(route.value.alias) else Denied;
  }

  // ---- the session as a state machine ----

  /** A channel request; the payload is absent when it does not decode. */
  datatype ChannelRequest = ChannelRequest(kind: string, wantReply: bool, payload: Option<string>)

  datatype Kind = PtyReq | WindowChange | Exec | ShellRequest | Subsystem | OtherKind

  function KindOf(name: string): Kind
  {
    match name
    case "pty-req" => PtyReq
    case "window-change" => WindowChange
    case "exec" => Exec
    case "shell" => ShellRequest
    case "subsystem" => Subsystem
    case _ => OtherKind
  }

  datatype Action = Command(command: string) | Sftp | Shell

  /** What was started, for which request, and the registry at that moment. */
  datatype Start = Start(index: nat, action: Action, routes: S.Routes)

  datatype Reply = Reply(index: nat, ok: bool)

  datatype Phase = Waiting | Busy | InShell | Ended

  /** The call that execute, executeSFTP or interactiveShell makes next. */
  datatype Stage = Resolving | Dialing | Opening | RequestingPty | Starting | Accepting | Running | Returned

  /** The goroutine that runs what was started for a request; `pty` is whether a terminal was asked for, `calls` how its calls ended. */
  datatype Worker = Worker(index: nat, action: Action, pty: bool, stage: Stage, calls: seq<bool>)

  /** `met` is the registry each dequeued request met, `closed` whether the channel of requests is. */
  datatype State = State(phase: Phase, pty: Option<string>, worker: Option<Worker>, forwarding: bool, closed: bool,
                         dequeued: seq<ChannelRequest>, met: seq<S.Routes>, replies: seq<Reply>, starts: seq<Start>)

  datatype Event = Dequeue(request: ChannelRequest, routes: S.Routes)
                 | WorkerCall(ok: bool)
                 | DoneNoticed
                 | RequestsClosed

  function Taken(s: State, request: ChannelRequest, routes: S.Routes): State
  {
    s.(dequeued := s.dequeued + [request], met := s.met + [routes])
  }

  /** Reply sends nothing when the request wants no reply. */
  function Replied(s: State, index: nat, ok: bool): State
    requires index < |s.dequeued|
  {
    if s.dequeued[index].wantReply then s.(replies := s.replies + [Reply(index, ok)]) else s
  }

  function Answered(s: State, ok: bool): State
    requires s.dequeued != []
  {
    Replied(s, |s.dequeued| - 1, ok)
  }

  function Launched(s: State, action: Action, routes: S.Routes): State
    requires s.dequeued != []
  {
    var index := |s.dequeued| - 1;
    s.(phase := if action.Shell? then InShell else Busy, worker := Some(Worker(index, action, s.pty.Some?, Resolving, [])),
       starts := s.starts + [Start(index, action, routes)])
  }

  /** The enabled route of the authenticated alias, still under the user name of the connection. */
  predicate Current(routes: S.Routes, alias: string, user: string)
  {
    alias in routes && routes[alias].enabled && S.Username(routes[alias]) == user
  }

  lemma Singleton(commands: set<string>)
    requires |commands| == 1
    ensures forall x, y :: x in commands && y in commands ==> x == y
  {
    forall x, y | x in commands && y in commands ensures x == y {
      var others := commands - {x};
      assert |others| == 0;
      assert y !in others;
    }
  }

  function OnlyOne(commands: set<string>): (command: string)
    requires |commands| == 1
    ensures commands == {command}
  {
    Singleton(commands);
    assert commands != {};
    var command :| command in commands;
    command
  }

  /** handleSession's switch, on the request just dequeued while nothing was started. */
  function Decide(s: State, alias: string, user: string, routes: S.Routes): (t: State)
    requires s.dequeued != []
  {
    var request := s.dequeued[|s.dequeued| - 1];
    if !Current(routes, alias, user) then Answered(s, false)
    else DecideKind(s, KindOf(request.kind), request.payload, routes[alias].policy, routes)
  }

  function DecideKind(s: State, kind: Kind, payload: Option<string>, policy: S.Policy, routes: S.Routes): (t: State)
    requires s.dequeued != []
  {
    match kind
    case PtyReq => Answered(if payload.Some? then s.(pty := payload) else s, true)
    case WindowChange => Answered(s, true)
    case Exec =>
      if payload.None? || !S.AllowsCommand(policy, payload.value) then Answered(s, false).(phase := Ended)
      else Launched(s, Command(payload.value), routes)
    case ShellRequest =>
      if policy.allowShell && policy.allowAllCommands then Launched(s, Shell, routes)
      else if !policy.allowAllCommands && |policy.commands| == 1 then
        Launched(s, Command(OnlyOne(policy.commands)), routes)
      else Answered(s, true).(phase := Ended)
    case Subsystem => if payload != Some("sftp") || !policy.allowSftp then Answered(s, false) else Launched(s, Sftp, routes)
    case OtherKind => Answered(s, false)
  }

  function At(s: State, w: Worker, stage: Stage): State { s.(worker := Some(w.(stage := stage))) }

  /** A worker's next call ends, well or not. Resolving the target, dialing, opening a session or channel, replaying a terminal and
      starting the command, subsystem or shell each answer their own failure and return; only then comes the positive answer, after
      which the worker waits for the remote side. A shell forwards requests while it does. */
  function AfterCall(s: State, w: Worker, ok: bool): State
    requires w.index < |s.dequeued| && !w.stage.Returned?
  {
    match w.stage
    case Resolving => if ok then At(s, w, Dialing) else At(Replied(s, w.index, false), w, Returned)
    case Dialing => if ok then At(s, w, Opening) else At(Replied(s, w.index, false), w, Returned)
    case Opening =>
      if ok then At(s, w, if w.action.Shell? && w.pty then RequestingPty else Starting)
      else At(Replied(s, w.index, false), w, Returned)
    case RequestingPty => if ok then At(s, w, Starting) else At(Replied(s, w.index, false), w, Returned)
    case Starting => if ok then At(s, w, Accepting) else At(Replied(s, w.index, false), w, Returned)
    case Accepting =>
      var t := Replied(s, w.index, true);
      if ok || !s.dequeued[w.index].wantReply then At(t, w, Running).(forwarding := w.action.Shell?) else At(t, w, Returned)
    case Running => At(s, w, Returned)
  }

  function Next(s: State, event: Event, alias: string, user: string): (t: State)
  {
    match event
    case Dequeue(request, routes) =>
      var taken := Taken(s, request, routes);
      if s.phase.Waiting? then Decide(taken, alias, user, routes)
      else if s.phase.Busy? then Answered(taken, false)
      else if s.forwarding then Answered(taken, true)
      else s
    case WorkerCall(ok) =>
      if s.worker.None? || s.worker.value.index >= |s.dequeued| || s.worker.value.stage.Returned? then s
      else AfterCall(s, s.worker.value.(calls := s.worker.value.calls + [ok]), ok)
    case DoneNoticed =>
      if s.worker.Some? && s.worker.value.stage.Returned? then s.(phase := Ended) else s
    case RequestsClosed => s.(phase := if s.phase.InShell? then InShell else Ended, forwarding := false, closed := true)
  }

  function RunEvents(s: State, events: seq<Event>, alias: string, user: string): (t: State)
    decreases |events|
  {
    if events == [] then s else RunEvents(Next(s, events[0], alias, user), events[1..], alias, user)
  }

  /** Without an authenticated alias the session ends at once. */
  function Initial(alias: string): State
  {
    State(if alias == "" then Ended else Waiting, None, None, false, false, [], [], [], [])
  }

  // ---- what every run keeps ----

  /** The policy of the enabled route of that alias and user name allows it. */
  predicate Permitted(start: Start, alias: string, user: string)
  {
    Current(start.routes, alias, user)
    && var policy := start.routes[alias].policy;
       match start.action
       case Command(command) => S.AllowsCommand(policy, command)
       case Sftp => policy.allowSftp
       case Shell => policy.allowShell && policy.allowAllCommands
  }

  /** Nothing before the start, one start after it, and it was permitted. */
  predicate StartsOnce(s: State, alias: string, user: string)
  {
    |s.starts| <= 1 && (s.starts == [] <==> s.worker.None?) && (s.phase.Waiting? ==> s.starts == [])
    && (forall i :: 0 <= i < |s.starts| ==> Permitted(s.starts[i], alias, user))
    && (s.worker.Some? ==> s.worker.value.index < |s.dequeued| && s.starts[0].index == s.worker.value.index)
  }

  function Count(replies: seq<Reply>, index: nat): nat
  {
    if replies == [] then 0
    else Count(replies[..|replies| - 1], index) + if replies[|replies| - 1].index == index then 1 else 0
  }

  /** Its worker is still on the way to an answer. */
  predicate Pending(s: State, index: nat)
  {
    s.worker.Some? && s.worker.value.index == index && !s.worker.value.stage.Running? && !s.worker.value.stage.Returned?
  }

  predicate Owed(s: State, index: nat)
  {
    index < |s.dequeued| && s.dequeued[index].wantReply && !Pending(s, index)
  }

  /** Every dequeued request that wants a reply has exactly one, but for the one whose worker is still to answer; no other
      request has any. */
  ghost predicate RepliesOnce(s: State)
  {
    forall index: nat :: Count(s.replies, index) == if Owed(s, index) then 1 else 0
  }

  ghost predicate Kept(s: State, alias: string, user: string)
  {
    StartsOnce(s, alias, user) && RepliesOnce(s)
  }

  lemma CountSnoc(replies: seq<Reply>, reply: Reply, index: nat)
    ensures Count(replies + [reply], index) == Count(replies, index) + if reply.index == index then 1 else 0
  {
    assert (replies + [reply])[..|replies|] == replies;
  }

  /** Answering one request that was owed nothing so far. */
  lemma ReplyKeeps(s: State, index: nat, ok: bool, t: State)
    requires index < |s.dequeued| && t.dequeued == s.dequeued && t.replies == Replied(s, index, ok).replies
    requires forall i: nat :: i != index ==> Count(s.replies, i) == if Owed(t, i) then 1 else 0
    requires Count(s.replies, index) == 0 && !Pending(t, index)
    ensures RepliesOnce(t)
  {
    forall i: nat ensures Count(t.replies, i) == if Owed(t, i) then 1 else 0 {
      CountSnoc(s.replies, Reply(index, ok), i);
    }
  }

  /** A request taken from the channel and answered on the spot. */
  lemma TakeAndAnswer(s: State, request: ChannelRequest, routes: S.Routes, ok: bool, t: State)
    requires RepliesOnce(s) && (s.worker.Some? ==> s.worker.value.index < |s.dequeued|) && t.worker == s.worker
    requires var taken := Taken(s, request, routes);
      t.dequeued == taken.dequeued && t.replies == Answered(taken, ok).replies
    ensures RepliesOnce(t)
  {
    var taken := Taken(s, request, routes);
    forall i: nat | i != |s.dequeued| ensures Count(s.replies, i) == if Owed(t, i) then 1 else 0 {
      assert Owed(t, i) == Owed(s, i);
    }
    assert !Owed(s, |s.dequeued|);
    ReplyKeeps(taken, |s.dequeued|, ok, t);
  }

  /** A request taken from the channel whose answer is left to a worker. */
  lemma TakeAndLaunch(s: State, request: ChannelRequest, action: Action, routes: S.Routes)
    requires RepliesOnce(s) && s.worker.None?
    ensures RepliesOnce(Launched(Taken(s, request, routes), action, routes))
  {
    var t := Launched(Taken(s, request, routes), action, routes);
    forall i: nat ensures Count(t.replies, i) == if Owed(t, i) then 1 else 0 {
      assert Owed(t, i) == Owed(s, i);
    }
  }

  lemma DecideKeeps(s: State, request: ChannelRequest, routes: S.Routes, alias: string, user: string)
    requires Kept(s, alias, user) && s.phase.Waiting? && S.WellKept(routes)
    ensures Kept(Decide(Taken(s, request, routes), alias, user, routes), alias, user)
  {
    var taken := Taken(s, request, routes);
    var t := Decide(taken, alias, user, routes);
    DecideShape(s, request, routes, alias, user);
    if t.worker.None? {
      var ok :| t.replies == Answered(taken, ok).replies;
      TakeAndAnswer(s, request, routes, ok, t);
    } else {
      TakeAndLaunch(s, request, t.starts[0].action, routes);
      assert RepliesOnce(t) by { assert t == Launched(taken, t.starts[0].action, routes); }
    }
  }

  /** The switch either answers at once and starts nothing, or starts one permitted thing and leaves the answer to it. */
  lemma DecideShape(s: State, request: ChannelRequest, routes: S.Routes, alias: string, user: string)
    requires s.worker.None? && s.starts == [] && S.WellKept(routes)
    ensures var taken := Taken(s, request, routes);
      var t := Decide(taken, alias, user, routes);
      t.dequeued == taken.dequeued
      && (if t.worker.None? then t.starts == [] && exists ok :: t.replies == Answered(taken, ok).replies
          else |t.starts| == 1 && t == Launched(taken, t.starts[0].action, routes) && Permitted(t.starts[0], alias, user))
  {
    var taken := Taken(s, request, routes);
    var t := Decide(taken, alias, user, routes);
    AnswersOrLaunches(taken, alias, user, routes);
    if t.worker.None? {
      assert t.replies == Answered(taken, true).replies || t.replies == Answered(taken, false).replies;
    } else {
      LaunchPermitted(taken, alias, user, routes);
    }
  }

  lemma AnswersOrLaunches(taken: State, alias: string, user: string, routes: S.Routes)
    requires taken.dequeued != [] && taken.worker.None? && taken.starts == []
    ensures var t := Decide(taken, alias, user, routes);
      t.dequeued == taken.dequeued
      && if t.worker.None? then
           t.starts == [] && (t.replies == Answered(taken, true).replies || t.replies == Answered(taken, false).replies)
         else |t.starts| == 1 && t == Launched(taken, t.starts[0].action, routes)
  {
    if Current(routes, alias, user) {
      var request := taken.dequeued[|taken.dequeued| - 1];
      KindAnswersOrLaunches(taken, KindOf(request.kind), request.payload, routes[alias].policy, routes);
    }
  }

  /** What a launched action has to do with the policy. */
  predicate Allows(policy: S.Policy, action: Action)
  {
    match action
    case Command(command) => S.AllowsCommand(policy, command) || command in policy.commands
    case Sftp => policy.allowSftp
    case Shell => policy.allowShell && policy.allowAllCommands
  }

  lemma KindAnswersOrLaunches(taken: State, kind: Kind, payload: Option<string>, policy: S.Policy, routes: S.Routes)
    requires taken.dequeued != [] && taken.worker.None? && taken.starts == []
    ensures var t := DecideKind(taken, kind, payload, policy, routes);
      t.dequeued == taken.dequeued
      && if t.worker.None? then
           t.starts == [] && (t.replies == Answered(taken, true).replies || t.replies == Answered(taken, false).replies)
         else |t.starts| == 1 && t == Launched(taken, t.starts[0].action, routes) && Allows(policy, t.starts[0].action)
  {
  }

  lemma LaunchPermitted(taken: State, alias: string, user: string, routes: S.Routes)
    requires taken.dequeued != [] && taken.worker.None? && taken.starts == [] && S.WellKept(routes)
    requires Decide(taken, alias, user, routes).worker.Some?
    ensures |Decide(taken, alias, user, routes).starts| == 1
    ensures Permitted(Decide(taken, alias, user, routes).starts[0], alias, user)
  {
    if Current(routes, alias, user) {
      CommandsAllowed(routes[alias]);
      var request := taken.dequeued[|taken.dequeued| - 1];
      KindAnswersOrLaunches(taken, KindOf(request.kind), request.payload, routes[alias].policy, routes);
    }
  }

  /** The single command of a route counts as allowed, because registered routes are valid. */
  lemma CommandsAllowed(route: S.Route)
    requires S.Valid(route)
    ensures forall command :: command in route.policy.commands ==> S.AllowsCommand(route.policy, command)
  {
  }

  /** A call after which the worker is still on its way, or which follows the answer, sends nothing. */
  lemma SilentKeeps(s: State, t: State, alias: string, user: string)
    requires Kept(s, alias, user) && s.worker.Some? && t.worker.Some? && t.worker.value.index == s.worker.value.index
    requires Pending(t, s.worker.value.index) == Pending(s, s.worker.value.index)
    requires t.dequeued == s.dequeued && t.replies == s.replies && t.starts == s.starts && t.phase == s.phase
    ensures Kept(t, alias, user)
  {
    assert forall i: nat :: Owed(t, i) == Owed(s, i);
  }

  /** The answer on the way out of a pending stage is the first one. */
  lemma AnswerKeeps(s: State, ok: bool, t: State, alias: string, user: string)
    requires Kept(s, alias, user) && s.worker.Some? && t.worker.Some? && t.worker.value.index == s.worker.value.index
    requires Pending(s, s.worker.value.index) && !Pending(t, s.worker.value.index)
    requires t.dequeued == s.dequeued && t.starts == s.starts && t.phase == s.phase
    requires t.replies == Replied(s, s.worker.value.index, ok).replies
    ensures Kept(t, alias, user)
  {
    var index := s.worker.value.index;
    forall i: nat | i != index ensures Count(s.replies, i) == if Owed(t, i) then 1 else 0 {
      assert Owed(t, i) == Owed(s, i);
    }
    assert !Owed(s, index);
    ReplyKeeps(s, index, ok, t);
  }

  /** Where a call leads; `quiet` is whether the request wants no reply. */
  function StageAfter(w: Worker, ok: bool, quiet: bool): Stage
    requires !w.stage.Returned?
  {
    match w.stage
    case Resolving => if ok then Dialing else Returned
    case Dialing => if ok then Opening else Returned
    case Opening => if !ok then Returned else if w.action.Shell? && w.pty then RequestingPty else Starting
    case RequestingPty => if ok then Starting else Returned
    case Starting => if ok then Accepting else Returned
    case Accepting => if ok || quiet then Running else Returned
    case Running => Returned
  }

  lemma CallStage(s: State, w: Worker, ok: bool)
    requires w.index < |s.dequeued| && !w.stage.Returned?
    ensures AfterCall(s, w, ok).worker == Some(w.(stage := StageAfter(w, ok, !s.dequeued[w.index].wantReply)))
    ensures AfterCall(s, w, ok).dequeued == s.dequeued
  {
  }

  /** What a call sends, and whether the worker is still on its way. */
  lemma CallReplies(s: State, w: Worker, ok: bool)
    requires w.index < |s.dequeued| && !w.stage.Returned?
    ensures var t := AfterCall(s, w, ok);
      t.worker.Some? && t.worker.value.index == w.index && t.dequeued == s.dequeued && t.starts == s.starts && t.phase == s.phase
      && var done := t.worker.value.stage.Running? || t.worker.value.stage.Returned?;
         if w.stage.Accepting? then t.replies == Replied(s, w.index, true).replies && done
         else if w.stage.Running? then t.replies == s.replies && done
         else if ok then t.replies == s.replies && !done
         else t.replies == Replied(s, w.index, false).replies && done
  {
  }

  /** Along every path of the worker its request is answered exactly once. */
  lemma WorkerKeeps(s: State, ok: bool, alias: string, user: string)
    requires Kept(s, alias, user)
    ensures Kept(Next(s, WorkerCall(ok), alias, user), alias, user)
  {
    if s.worker.Some? && !s.worker.value.stage.Returned? {
      var w := s.worker.value;
      var t := AfterCall(s, w.(calls := w.calls + [ok]), ok);
      CallReplies(s, w.(calls := w.calls + [ok]), ok);
      if w.stage.Accepting? {
        AnswerKeeps(s, true, t, alias, user);
      } else if ok || w.stage.Running? {
        SilentKeeps(s, t, alias, user);
      } else {
        AnswerKeeps(s, false, t, alias, user);
      }
    }
  }

  lemma QuietKeeps(s: State, event: Event, alias: string, user: string)
    requires Kept(s, alias, user) && (event.DoneNoticed? || event.RequestsClosed?)
    ensures Kept(Next(s, event, alias, user), alias, user)
  {
    var t := Next(s, event, alias, user);
    assert forall i: nat :: Owed(t, i) == Owed(s, i);
  }

  lemma NextKeeps(s: State, event: Event, alias: string, user: string)
    requires Kept(s, alias, user) && (event.Dequeue? ==> S.WellKept(event.routes))
    ensures Kept(Next(s, event, alias, user), alias, user)
  {
    match event {
      case Dequeue(request, routes) =>
        if s.phase.Waiting? {
          DecideKeeps(s, request, routes, alias, user);
        } else if s.phase.Busy? || s.forwarding {
          TakeAndAnswer(s, request, routes, !s.phase.Busy?, Next(s, event, alias, user));
        }
      case WorkerCall(ok) => WorkerKeeps(s, ok, alias, user);
      case _ => QuietKeeps(s, event, alias, user);
    }
  }

  /** Over every sequence of channel requests, each meeting the registry as it then is, and of steps of the worker: at most one
      thing is started, the policy in force at that moment permitted it, and every request is answered exactly as often as it
      wants. */
  lemma {:induction false} SessionKeeps(s: State, events: seq<Event>, alias: string, user: string)
    requires Kept(s, alias, user)
    requires forall i :: 0 <= i < |events| && events[i].Dequeue? ==> S.WellKept(events[i].routes)
    ensures Kept(RunEvents(s, events, alias, user), alias, user)
    decreases |events|
  {
    if events != [] {
      NextKeeps(s, events[0], alias, user);
      SessionKeeps(Next(s, events[0], alias, user), events[1..], alias, user);
    }
  }

  lemma InitialKept(alias: string, user: string)
    ensures Kept(Initial(alias), alias, user)
  {
  }

  /** Once the worker has returned, or when none was started, the session owes nothing: each request it took has exactly the replies
      it wants. */
  lemma FinishedIsAnswered(events: seq<Event>, alias: string, user: string, index: nat)
    requires forall i :: 0 <= i < |events| && events[i].Dequeue? ==> S.WellKept(events[i].routes)
    requires var s := RunEvents(Initial(alias), events, alias, user);
      index < |s.dequeued| && (s.worker.Some? ==> s.worker.value.stage.Returned?)
    ensures var s := RunEvents(Initial(alias), events, alias, user);
      Count(s.replies, index) == if s.dequeued[index].wantReply then 1 else 0
  {
    InitialKept(alias, user);
    SessionKeeps(Initial(alias), events, alias, user);
  }

  /** How many calls a worker has before it at most. */
  function Ahead(stage: Stage): nat
  {
    match stage
    case Resolving => 7
    case Dialing => 6
    case Opening => 5
    case RequestingPty => 4
    case Starting => 3
    case Accepting => 2
    case Running => 1
    case Returned => 0
  }

  function Calls(oks: seq<bool>): seq<Event> { seq(|oks|, i requires 0 <= i < |oks| => WorkerCall(oks[i])) }

  lemma CallAdvances(s: State, ok: bool, alias: string, user: string)
    requires s.worker.Some? && s.worker.value.index < |s.dequeued|
    ensures var t := Next(s, WorkerCall(ok), alias, user);
      t.worker.Some? && t.worker.value.index < |t.dequeued|
      && (Ahead(t.worker.value.stage) < Ahead(s.worker.value.stage) || s.worker.value.stage.Returned?)
      && (s.worker.value.stage.Returned? ==> t.worker.value.stage.Returned?)
  {
    var w := s.worker.value;
    if !w.stage.Returned? {
      CallStage(s, w.(calls := w.calls + [ok]), ok);
      StageAhead(w, ok, !s.dequeued[w.index].wantReply);
    }
  }

  lemma StageAhead(w: Worker, ok: bool, quiet: bool)
    requires !w.stage.Returned?
    ensures Ahead(StageAfter(w, ok, quiet)) < Ahead(w.stage)
  {
  }

  /** However its calls end, a worker returns after seven of them at the latest. */
  lemma {:induction false} WorkerReturns(s: State, oks: seq<bool>, alias: string, user: string)
    requires s.worker.Some? && s.worker.value.index < |s.dequeued| && |oks| >= Ahead(s.worker.value.stage)
    ensures var t := RunEvents(s, Calls(oks), alias, user); t.worker.Some? && t.worker.value.stage.Returned?
    decreases |oks|
  {
    if oks != [] {
      assert Calls(oks)[0] == WorkerCall(oks[0]) && Calls(oks)[1..] == Calls(oks[1..]);
      CallAdvances(s, oks[0], alias, user);
      WorkerReturns(Next(s, WorkerCall(oks[0]), alias, user), oks[1..], alias, user);
    } else {
      assert Calls(oks) == [];
    }
  }

  /** Conversely, what the policy permits at that moment is started: nothing permitted is refused before the first start. */
  lemma PermittedIsStarted(s: State, request: ChannelRequest, routes: S.Routes, alias: string, user: string)
    requires s.phase.Waiting? && s.starts == [] && s.worker.None? && Current(routes, alias, user)
    ensures var t := Next(s, Dequeue(request, routes), alias, user); var policy := routes[alias].policy;
      (t.starts != []) <==>
        (request.kind == "exec" && request.payload.Some? && S.AllowsCommand(policy, request.payload.value))
        || (request.kind == "subsystem" && request.payload == Some("sftp") && policy.allowSftp)
        || (request.kind == "shell" && if policy.allowAllCommands then policy.allowShell else |policy.commands| == 1)
  {
  }

  // ---- what is started and what is answered ----

  /** The request asks for exactly this action: a command as written, the sftp subsystem, or a shell, which on a route with a single
      command and no free choice is that command. */
  predicate Asks(request: ChannelRequest, policy: S.Policy, action: Action)
  {
    (request.kind == "exec" && action.Command? && request.payload == Some(action.command))
    || (request.kind == "subsystem" && request.payload == Some("sftp") && action == Sftp)
    || (request.kind == "shell" && if policy.allowShell && policy.allowAllCommands then action == Shell
                                   else !policy.allowAllCommands && action.Command? && policy.commands == {action.command})
  }

  /** The start belongs to the request at its index and the registry that request met. */
  predicate Matches(s: State, start: Start, alias: string)
  {
    start.index < |s.dequeued| && |s.met| == |s.dequeued| && start.routes == s.met[start.index]
    && alias in start.routes && Asks(s.dequeued[start.index], start.routes[alias].policy, start.action)
  }

  /** What a worker does before it may answer yes. */
  function Path(w: Worker): seq<Stage>
  {
    [Resolving, Dialing, Opening] + (if w.action.Shell? && w.pty then [RequestingPty] else []) + [Starting]
  }

  predicate AllOk(calls: seq<bool>, n: nat) { n <= |calls| && forall i :: 0 <= i < n ==> calls[i] }

  /** Every call up to the start went well. */
  predicate GotStarted(w: Worker) { AllOk(w.calls, |Path(w)|) }

  /** Where a worker is follows from how its calls ended: one after the other along the path, back at the first failure. */
  predicate OnPath(w: Worker)
  {
    var n, k := |w.calls|, |Path(w)|;
    match w.stage
    case Accepting => n == k && AllOk(w.calls, k)
    case Running => n == k + 1 && AllOk(w.calls, k)
    case Returned => (1 <= n <= k && AllOk(w.calls, n - 1) && !w.calls[n - 1]) || (n > k && AllOk(w.calls, k))
    case _ => n < k && Path(w)[n] == w.stage && AllOk(w.calls, n)
  }

  /** What a request gets that is answered on the spot, before anything is started. */
  predicate Spot(s: State, i: int, alias: string, user: string)
    requires 0 <= i < |s.dequeued| && |s.met| == |s.dequeued|
  {
    Current(s.met[i], alias, user) && s.dequeued[i].kind in {"pty-req", "window-change", "shell"}
  }

  /** The answer a request is due: yes for the started one if it got started, afterwards yes from a shell and no otherwise. */
  predicate Due(s: State, i: int, alias: string, user: string)
    requires 0 <= i < |s.dequeued| && |s.met| == |s.dequeued|
  {
    if s.worker.Some? && i == s.worker.value.index then GotStarted(s.worker.value)
    else if s.worker.Some? && i > s.worker.value.index then s.worker.value.action.Shell?
    else Spot(s, i, alias, user)
  }

  predicate AnsweredRight(s: State, alias: string, user: string)
  {
    |s.met| == |s.dequeued|
    && forall i :: 0 <= i < |s.replies| ==> s.replies[i].index < |s.dequeued| && s.replies[i].ok == Due(s, s.replies[i].index, alias, user)
  }

  /** The last terminal asked for among the first `n` requests. */
  function Terminal(s: State, n: nat, alias: string, user: string): Option<string>
    requires n <= |s.dequeued| && |s.met| == |s.dequeued|
  {
    if n == 0 then None
    else if s.dequeued[n - 1].kind == "pty-req" && s.dequeued[n - 1].payload.Some? && Current(s.met[n - 1], alias, user)
    then s.dequeued[n - 1].payload
    else Terminal(s, n - 1, alias, user)
  }

  /** A request after which the session starts something or ends. */
  predicate Final(s: State, i: int, alias: string, user: string)
    requires 0 <= i < |s.dequeued| && |s.met| == |s.dequeued|
  {
    Current(s.met[i], alias, user) && s.dequeued[i].kind in {"exec", "shell"}
  }

  /** The loop listens exactly until something was started, an exec or shell request ended it, or the channel was closed. */
  predicate ListensRight(s: State, alias: string, user: string)
  {
    |s.met| == |s.dequeued|
    && (s.phase.Waiting? <==> alias != "" && !s.closed && s.worker.None?
                              && forall i :: 0 <= i < |s.dequeued| ==> !Final(s, i, alias, user))
  }

  /** The terminal the worker replays is the last one asked for before it was started. */
  predicate TerminalRight(s: State, alias: string, user: string)
  {
    |s.met| == |s.dequeued|
    && if s.worker.Some? then
         s.worker.value.index < |s.dequeued| && s.pty == Terminal(s, s.worker.value.index, alias, user)
         && s.worker.value.pty == s.pty.Some?
       else s.phase.Waiting? ==> s.pty == Terminal(s, |s.dequeued|, alias, user)
  }

  predicate PhaseRight(s: State)
  {
    (s.phase.Busy? ==> s.worker.Some? && !s.worker.value.action.Shell?)
    && (s.phase.InShell? || s.forwarding ==> s.worker.Some? && s.worker.value.action.Shell?)
  }

  /** What the session did, in terms of what it was asked. */
  ghost predicate Right(s: State, alias: string, user: string)
  {
    |s.met| == |s.dequeued| && (forall i :: 0 <= i < |s.starts| ==> Matches(s, s.starts[i], alias))
    && (s.worker.Some? ==> s.starts != [] && s.worker.value.index == s.starts[0].index && s.worker.value.action == s.starts[0].action
                           && OnPath(s.worker.value))
    && AnsweredRight(s, alias, user) && ListensRight(s, alias, user) && TerminalRight(s, alias, user) && PhaseRight(s)
  }

  lemma KindIs(name: string)
    ensures KindOf(name).PtyReq? <==> name == "pty-req"
    ensures KindOf(name).WindowChange? <==> name == "window-change"
    ensures KindOf(name).Exec? <==> name == "exec"
    ensures KindOf(name).ShellRequest? <==> name == "shell"
    ensures KindOf(name).Subsystem? <==> name == "subsystem"
  {
  }

  /** Taking one more request changes nothing about the earlier ones. */
  lemma {:induction false} TerminalSame(s: State, t: State, n: nat, alias: string, user: string)
    requires |s.met| == |s.dequeued| && |t.met| == |t.dequeued| && n <= |s.dequeued| && s.dequeued <= t.dequeued && s.met <= t.met
    ensures Terminal(t, n, alias, user) == Terminal(s, n, alias, user)
  {
    if n > 0 {
      assert t.dequeued[n - 1] == s.dequeued[n - 1] && t.met[n - 1] == s.met[n - 1];
      TerminalSame(s, t, n - 1, alias, user);
    }
  }

  lemma EarlierSame(s: State, t: State, request: ChannelRequest, routes: S.Routes, alias: string, user: string)
    requires |s.met| == |s.dequeued| && t.dequeued == s.dequeued + [request] && t.met == s.met + [routes]
    ensures forall i :: 0 <= i < |s.dequeued| ==>
      Spot(t, i, alias, user) == Spot(s, i, alias, user) && Final(t, i, alias, user) == Final(s, i, alias, user)
    ensures forall n :: 0 <= n <= |s.dequeued| ==> Terminal(t, n, alias, user) == Terminal(s, n, alias, user)
  {
    forall i | 0 <= i < |s.dequeued|
      ensures Spot(t, i, alias, user) == Spot(s, i, alias, user) && Final(t, i, alias, user) == Final(s, i, alias, user)
    {
      assert t.dequeued[i] == s.dequeued[i] && t.met[i] == s.met[i];
    }
    forall n | 0 <= n <= |s.dequeued| ensures Terminal(t, n, alias, user) == Terminal(s, n, alias, user) {
      TerminalSame(s, t, n, alias, user);
    }
  }

  predicate IsTerminal(request: ChannelRequest) { request.kind == "pty-req" && request.payload.Some? }

  /** The switch, request by request. */
  lemma KindMeans(taken: State, request: ChannelRequest, policy: S.Policy, routes: S.Routes)
    requires taken.dequeued != [] && taken.worker.None? && taken.starts == []
    ensures var t := DecideKind(taken, KindOf(request.kind), request.payload, policy, routes);
      if t.worker.None? then
        t == Answered(taken, request.kind in {"pty-req", "window-change", "shell"}).(
               pty := if IsTerminal(request) then request.payload else taken.pty,
               phase := if request.kind in {"exec", "shell"} then Ended else taken.phase)
      else |t.starts| == 1 && t == Launched(taken, t.starts[0].action, routes) && Asks(request, policy, t.starts[0].action)
  {
    KindIs(request.kind);
    KindAnswers(taken, KindOf(request.kind), request.payload, policy, routes);
  }

  /** The same on the decoded kind. */
  predicate KindAsks(kind: Kind, payload: Option<string>, policy: S.Policy, action: Action)
  {
    match kind
    case Exec => action.Command? && payload == Some(action.command)
    case Subsystem => payload == Some("sftp") && action == Sftp
    case ShellRequest =>
      if policy.allowShell && policy.allowAllCommands then action == Shell
      else !policy.allowAllCommands && action.Command? && policy.commands == {action.command}
    case _ => false
  }

  lemma KindAnswers(taken: State, kind: Kind, payload: Option<string>, policy: S.Policy, routes: S.Routes)
    requires taken.dequeued != [] && taken.worker.None? && taken.starts == []
    ensures var t := DecideKind(taken, kind, payload, policy, routes);
      if t.worker.None? then
        t == Answered(taken, kind.PtyReq? || kind.WindowChange? || kind.ShellRequest?).(
               pty := if kind.PtyReq? && payload.Some? then payload else taken.pty,
               phase := if kind.Exec? || kind.ShellRequest? then Ended else taken.phase)
      else |t.starts| == 1 && t == Launched(taken, t.starts[0].action, routes) && KindAsks(kind, payload, policy, t.starts[0].action)
  {
  }

  lemma DecideMeans(s: State, request: ChannelRequest, routes: S.Routes, alias: string, user: string)
    requires s.worker.None? && s.starts == []
    ensures var taken := Taken(s, request, routes); var t := Decide(taken, alias, user, routes); var current := Current(routes, alias, user);
      if t.worker.None? then
        t == Answered(taken, current && request.kind in {"pty-req", "window-change", "shell"}).(
               pty := if current && IsTerminal(request) then request.payload else s.pty,
               phase := if current && request.kind in {"exec", "shell"} then Ended else s.phase)
      else current && |t.starts| == 1 && t == Launched(taken, t.starts[0].action, routes)
           && Asks(request, routes[alias].policy, t.starts[0].action)
  {
    var taken := Taken(s, request, routes);
    if Current(routes, alias, user) { KindMeans(taken, request, routes[alias].policy, routes); }
  }

  lemma DecideRight(s: State, request: ChannelRequest, routes: S.Routes, alias: string, user: string)
    requires Right(s, alias, user) && s.phase.Waiting? && s.starts == []
    ensures Right(Decide(Taken(s, request, routes), alias, user, routes), alias, user)
  {
    var taken := Taken(s, request, routes);
    var t := Decide(taken, alias, user, routes);
    DecideMeans(s, request, routes, alias, user);
    EarlierSame(s, t, request, routes, alias, user);
    if t.worker.None? {
      SpotRight(s, request, routes, t, alias, user);
    } else {
      LaunchRight(s, request, routes, t, alias, user);
    }
  }

  lemma SpotRight(s: State, request: ChannelRequest, routes: S.Routes, t: State, alias: string, user: string)
    requires Right(s, alias, user) && s.phase.Waiting? && s.starts == [] && s.worker.None?
    requires var current := Current(routes, alias, user);
      t == Answered(Taken(s, request, routes), current && request.kind in {"pty-req", "window-change", "shell"}).(
             pty := if current && IsTerminal(request) then request.payload else s.pty,
             phase := if current && request.kind in {"exec", "shell"} then Ended else s.phase)
    ensures Right(t, alias, user)
  {
    EarlierSame(s, t, request, routes, alias, user);
    var last := |s.dequeued|;
    assert t.dequeued[last] == request && t.met[last] == routes;
    assert ListensRight(t, alias, user) by {
      assert Final(t, last, alias, user) <==> Current(routes, alias, user) && request.kind in {"exec", "shell"};
    }
  }

  lemma LaunchRight(s: State, request: ChannelRequest, routes: S.Routes, t: State, alias: string, user: string)
    requires Right(s, alias, user) && s.phase.Waiting? && s.starts == [] && s.worker.None?
    requires |t.starts| == 1 && t == Launched(Taken(s, request, routes), t.starts[0].action, routes)
    requires Current(routes, alias, user) && Asks(request, routes[alias].policy, t.starts[0].action)
    ensures Right(t, alias, user)
  {
    EarlierSame(s, t, request, routes, alias, user);
    assert t.dequeued[|s.dequeued|] == request && t.met[|s.dequeued|] == routes;
    assert Path(t.worker.value)[0] == Resolving;
  }

  /** A request taken while the worker is there. */
  lemma LaterRight(s: State, request: ChannelRequest, routes: S.Routes, ok: bool, alias: string, user: string)
    requires Right(s, alias, user) && s.worker.Some? && ok == s.worker.value.action.Shell?
    ensures Right(Answered(Taken(s, request, routes), ok), alias, user)
  {
    var t := Answered(Taken(s, request, routes), ok);
    EarlierSame(s, t, request, routes, alias, user);
    assert t.dequeued[|s.dequeued|] == request && t.met[|s.dequeued|] == routes;
    forall i | 0 <= i < |s.starts| ensures Matches(t, t.starts[i], alias) { assert Matches(s, s.starts[i], alias); }
  }

  lemma {:induction false} CountZero(replies: seq<Reply>, index: nat)
    requires Count(replies, index) == 0
    ensures forall i :: 0 <= i < |replies| ==> replies[i].index != index
  {
    if replies != [] {
      CountZero(replies[..|replies| - 1], index);
      forall i | 0 <= i < |replies| ensures replies[i].index != index {
        if i < |replies| - 1 { assert replies[..|replies| - 1][i] == replies[i]; }
      }
    }
  }

  lemma AllOkPrefix(calls: seq<bool>, ok: bool, n: nat)
    requires n <= |calls|
    ensures AllOk(calls + [ok], n) == AllOk(calls, n)
  {
    forall i | 0 <= i < n ensures (calls + [ok])[i] == calls[i] {}
  }

  /** One more call moves the worker along its path. */
  lemma PathKept(s: State, w: Worker, ok: bool)
    requires OnPath(w) && !w.stage.Returned? && w.index < |s.dequeued|
    ensures var t := AfterCall(s, w.(calls := w.calls + [ok]), ok);
      t.worker.Some? && OnPath(t.worker.value) && SameTask(w, t.worker.value) && t.worker.value.calls == w.calls + [ok]
  {
    CallStage(s, w.(calls := w.calls + [ok]), ok);
    StageOnPath(w, ok, !s.dequeued[w.index].wantReply);
  }

  lemma StageOnPath(w: Worker, ok: bool, quiet: bool)
    requires OnPath(w) && !w.stage.Returned?
    ensures OnPath(w.(calls := w.calls + [ok], stage := StageAfter(w, ok, quiet)))
  {
    var v := w.(calls := w.calls + [ok], stage := StageAfter(w, ok, quiet));
    var n, k := |w.calls|, |Path(w)|;
    assert Path(v) == Path(w) && v.calls[n] == ok;
    forall m | 0 <= m <= n ensures AllOk(v.calls, m) == AllOk(w.calls, m) { AllOkPrefix(w.calls, ok, m); }
    if n < k && ok && AllOk(w.calls, n) { assert AllOk(v.calls, n + 1); }
  }

  predicate SameTask(v: Worker, w: Worker) { v.index == w.index && v.action == w.action && v.pty == w.pty }

  /** The answer a call brings, if any, says whether the worker got started. */
  lemma CallAnswers(s: State, w: Worker, ok: bool)
    requires OnPath(w) && !w.stage.Returned? && w.index < |s.dequeued|
    ensures var t := AfterCall(s, w.(calls := w.calls + [ok]), ok);
      t.worker.Some?
      && (t.replies == s.replies || t.replies == s.replies + [Reply(w.index, GotStarted(t.worker.value))])
      && (w.stage.Running? ==> GotStarted(t.worker.value) == GotStarted(w) && t.replies == s.replies)
  {
    PathKept(s, w, ok);
    var calls := w.calls + [ok];
    forall n | 0 <= n <= |w.calls| ensures AllOk(calls, n) == AllOk(w.calls, n) { AllOkPrefix(w.calls, ok, n); }
  }

  /** Everything but the worker, its answer and the forwarding stays. */
  lemma CallFrame(s: State, w: Worker, ok: bool)
    requires w.index < |s.dequeued| && !w.stage.Returned?
    ensures var t := AfterCall(s, w, ok);
      t == s.(worker := t.worker, replies := t.replies, forwarding := t.forwarding) && (t.forwarding ==> s.forwarding || w.action.Shell?)
  {
  }

  lemma WorkerRight(s: State, ok: bool, alias: string, user: string)
    requires Right(s, alias, user) && Kept(s, alias, user)
    ensures Right(Next(s, WorkerCall(ok), alias, user), alias, user)
  {
    if s.worker.Some? && !s.worker.value.stage.Returned? {
      var w := s.worker.value;
      var t := AfterCall(s, w.(calls := w.calls + [ok]), ok);
      PathKept(s, w, ok);
      CallAnswers(s, w, ok);
      CallFrame(s, w.(calls := w.calls + [ok]), ok);
      CallRight(s, t, alias, user);
    }
  }

  lemma CallRight(s: State, t: State, alias: string, user: string)
    requires Right(s, alias, user) && Kept(s, alias, user) && s.worker.Some? && !s.worker.value.stage.Returned?
    requires t.worker.Some? && OnPath(t.worker.value) && SameTask(s.worker.value, t.worker.value)
    requires t == s.(worker := t.worker, replies := t.replies, forwarding := t.forwarding)
    requires t.forwarding ==> s.forwarding || s.worker.value.action.Shell?
    requires t.replies == s.replies || t.replies == s.replies + [Reply(s.worker.value.index, GotStarted(t.worker.value))]
    requires s.worker.value.stage.Running? ==> GotStarted(t.worker.value) == GotStarted(s.worker.value)
    ensures Right(t, alias, user)
  {
    var index := s.worker.value.index;
    forall n | 0 <= n <= |s.dequeued| ensures Terminal(t, n, alias, user) == Terminal(s, n, alias, user) { TerminalSame(s, t, n, alias, user); }
    if !s.worker.value.stage.Running? {
      assert Pending(s, index) && !Owed(s, index);
      CountZero(s.replies, index);
    }
    forall i | 0 <= i < |s.replies| ensures s.replies[i].ok == Due(t, s.replies[i].index, alias, user) {
      assert s.replies[i].ok == Due(s, s.replies[i].index, alias, user);
      assert Spot(t, s.replies[i].index, alias, user) == Spot(s, s.replies[i].index, alias, user);
    }
    forall i | 0 <= i < |s.starts| ensures Matches(t, t.starts[i], alias) { assert Matches(s, s.starts[i], alias); }
    forall i | 0 <= i < |s.dequeued| ensures Final(t, i, alias, user) == Final(s, i, alias, user) {}
  }

  lemma QuietRight(s: State, event: Event, alias: string, user: string)
    requires Right(s, alias, user) && (event.DoneNoticed? || event.RequestsClosed?)
    ensures Right(Next(s, event, alias, user), alias, user)
  {
    var t := Next(s, event, alias, user);
    forall n | 0 <= n <= |s.dequeued| ensures Terminal(t, n, alias, user) == Terminal(s, n, alias, user) { TerminalSame(s, t, n, alias, user); }
    forall i | 0 <= i < |s.starts| ensures Matches(t, t.starts[i], alias) { assert Matches(s, s.starts[i], alias); }
    forall i | 0 <= i < |s.dequeued|
      ensures Final(t, i, alias, user) == Final(s, i, alias, user) && Spot(t, i, alias, user) == Spot(s, i, alias, user)
        && Due(t, i, alias, user) == Due(s, i, alias, user)
    {}
  }

  lemma NextRight(s: State, event: Event, alias: string, user: string)
    requires Right(s, alias, user) && Kept(s, alias, user)
    ensures Right(Next(s, event, alias, user), alias, user)
  {
    match event {
      case Dequeue(request, routes) =>
        if s.phase.Waiting? { DecideRight(s, request, routes, alias, user); }
        else if s.phase.Busy? { LaterRight(s, request, routes, false, alias, user); }
        else if s.forwarding { LaterRight(s, request, routes, true, alias, user); }
      case WorkerCall(ok) => WorkerRight(s, ok, alias, user);
      case _ => QuietRight(s, event, alias, user);
    }
  }

  /** Over every run: what is started is what the request at its index asks for under the policy it met; every answer is the one due;
      the worker is where its calls have brought it; the terminal replayed is the last one asked for; and the loop listens exactly
      until a start, an exec or shell request, or the end of the channel. */
  lemma {:induction false} SessionRight(s: State, events: seq<Event>, alias: string, user: string)
    requires Right(s, alias, user) && Kept(s, alias, user)
    requires forall i :: 0 <= i < |events| && events[i].Dequeue? ==> S.WellKept(events[i].routes)
    ensures Right(RunEvents(s, events, alias, user), alias, user)
    decreases |events|
  {
    if events != [] {
      NextRight(s, events[0], alias, user);
      NextKeeps(s, events[0], alias, user);
      SessionRight(Next(s, events[0], alias, user), events[1..], alias, user);
    }
  }

  lemma InitialRight(alias: string, user: string)
    ensures Right(Initial(alias), alias, user)
  {
  }

  // ---- the event loop ----

  class Session {
    const alias: string
    const user: string
    var phase: Phase
    var pty: Option<string>
    var worker: Option<Worker>
    var forwarding: bool
    var closed: bool
    var dequeued: seq<ChannelRequest>
    var met: seq<S.Routes>
    var replies: seq<Reply>
    var starts: seq<Start>

    constructor (alias: string, user: string)
      ensures this.alias == alias && this.user == user && View() == Initial(alias)
    {
      this.alias := alias;
      this.user := user;
      phase := if alias == "" then Ended else Waiting;
      pty, worker, forwarding, closed, dequeued, met, replies, starts := None, None, false, false, [], [], [], [];
    }

    ghost function View(): State
      reads this
    {
      State(phase, pty, worker, forwarding, closed, dequeued, met, replies, starts)
    }

    method Respond(ok: bool)
      requires dequeued != []
      modifies this`replies
      ensures View() == Answered(old(View()), ok)
    {
      var index := |dequeued| - 1;
      if dequeued[index].wantReply { replies := replies + [Reply(index, ok)]; }
    }

    method Launch(action: Action, routes: S.Routes)
      requires dequeued != []
      modifies this`phase, this`worker, this`starts
      ensures View() == Launched(old(View()), action, routes)
    {
      var index := |dequeued| - 1;
      worker := Some(Worker(index, action, pty.Some?, Resolving, []));
      phase := if action.Shell? then InShell else Busy;
      starts := starts + [Start(index, action, routes)];
    }

    method RunCommand(request: ChannelRequest, routes: S.Routes, policy: S.Policy)
      requires dequeued != []
      modifies this`phase, this`worker, this`starts, this`replies
      ensures View() == if request.payload.None? || !S.AllowsCommand(policy, request.payload.value)
                        then Answered(old(View()), false).(phase := Ended)
                        else Launched(old(View()), Command(request.payload.value), routes)
    {
      if request.payload.None? || !S.AllowsCommand(policy, request.payload.value) {
        Respond(false);
        phase := Ended;
        return;
      }
      Launch(Command(request.payload.value), routes);
    }

    method OpenShell(routes: S.Routes, policy: S.Policy)
      requires dequeued != []
      modifies this`phase, this`worker, this`starts, this`replies
      ensures View() ==
        if policy.allowShell && policy.allowAllCommands then Launched(old(View()), Shell, routes)
        else if !policy.allowAllCommands && |policy.commands| == 1 then Launched(old(View()), Command(OnlyOne(policy.commands)), routes)
        else Answered(old(View()), true).(phase := Ended)
    {
      if policy.allowShell && policy.allowAllCommands {
        Launch(Shell, routes);
        return;
      }
      if !policy.allowAllCommands && |policy.commands| == 1 {
        Launch(Command(OnlyOne(policy.commands)), routes);
        return;
      }
      Respond(true);
      phase := Ended;
    }

    method Decided(request: ChannelRequest, routes: S.Routes)
      requires dequeued != [] && dequeued[|dequeued| - 1] == request
      modifies this`phase, this`pty, this`worker, this`starts, this`replies
      ensures View() == Decide(old(View()), alias, user, routes)
    {
      if alias !in routes || !routes[alias].enabled || S.Username(routes[alias]) != user {
        Respond(false);
        return;
      }
      var policy := routes[alias].policy;
      match KindOf(request.kind) {
        case PtyReq =>
          if request.payload.Some? { pty := request.payload; }
          Respond(true);
        case WindowChange => Respond(true);
        case Exec => RunCommand(request, routes, policy);
        case ShellRequest => OpenShell(routes, policy);
        case Subsystem =>
          if request.payload != Some("sftp") { Respond(false); }
          else if !policy.allowSftp { Respond(false); }
          else { Launch(Sftp, routes); }
        case OtherKind => Respond(false);
      }
    }

    /** A request comes out of the channel; `routes` is the registry at that moment. */
    method Take(request: ChannelRequest, routes: S.Routes)
      modifies this
      ensures View() == Next(old(View()), Dequeue(request, routes), alias, user)
    {
      if !phase.Waiting? && !phase.Busy? && !forwarding { return; }
      dequeued, met := dequeued + [request], met + [routes];
      if phase.Waiting? { Decided(request, routes); }
      else if phase.Busy? { Respond(false); }
      else { Respond(true); }
    }

    method Fail(w: Worker)
      requires w.index < |dequeued|
      modifies this`replies, this`worker
      ensures View() == At(Replied(old(View()), w.index, false), w, Returned)
    {
      if dequeued[w.index].wantReply { replies := replies + [Reply(w.index, false)]; }
      worker := Some(w.(stage := Returned));
    }

    /** The worker's next call ends. */
    method Proceed(ok: bool)
      modifies this
      ensures View() == Next(old(View()), WorkerCall(ok), alias, user)
    {
      if worker.None? || worker.value.index >= |dequeued| || worker.value.stage.Returned? { return; }
      var w := worker.value.(calls := worker.value.calls + [ok]);
      match w.stage {
        case Resolving => if ok { worker := Some(w.(stage := Dialing)); } else { Fail(w); }
        case Dialing => if ok { worker := Some(w.(stage := Opening)); } else { Fail(w); }
        case Opening =>
          if !ok { Fail(w); }
          else if w.action.Shell? && w.pty { worker := Some(w.(stage := RequestingPty)); }
          else { worker := Some(w.(stage := Starting)); }
        case RequestingPty => if ok { worker := Some(w.(stage := Starting)); } else { Fail(w); }
        case Starting => if ok { worker := Some(w.(stage := Accepting)); } else { Fail(w); }
        case Accepting =>
          if dequeued[w.index].wantReply {
            replies := replies + [Reply(w.index, true)];
            if !ok {
              worker := Some(w.(stage := Returned));
              return;
            }
          }
          worker, forwarding := Some(w.(stage := Running)), w.action.Shell?;
        case Running => worker := Some(w.(stage := Returned));
      }
    }

    method Handle(events: seq<Event>)
      modifies this
      ensures View() == RunEvents(old(View()), events, alias, user)
    {
      for i := 0 to |events|
        invariant RunEvents(old(View()), events, alias, user) == RunEvents(View(), events[i..], alias, user)
      {
        assert events[i..][1..] == events[i + 1..];
        match events[i] {
          case Dequeue(request, routes) => Take(request, routes);
          case WorkerCall(ok) => Proceed(ok);
          case DoneNoticed => if worker.Some? && worker.value.stage.Returned? { phase := Ended; }
          case RequestsClosed =>
            if !phase.InShell? { phase := Ended; }
            forwarding, closed := false, true;
        }
      }
    }
  }
}
