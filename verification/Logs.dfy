/** The bounded activity log, the bounded command audit with its file, and the merged view of both. */
module Logs {
  import opened Text
  import opened Files
  import HttpRoutes
  import SshRoutes

  const MAX_EVENTS: nat := 200
  const MAX_AUDIT_EVENTS: nat := 100
  const RECENT: nat := 50

  // ---- bounded logs ----

  function Last<T>(s: seq<T>, n: nat): (r: seq<T>)
    ensures |r| == if |s| <= n then |s| else n
  {
    if |s| <= n then s else s[|s| - n..]
  }

  function Reversed<T>(s: seq<T>): (r: seq<T>)
    ensures |r| == |s| && forall i :: 0 <= i < |s| ==> r[i] == s[|s| - 1 - i]
  {
    if s == [] then [] else [s[|s| - 1]] + Reversed(s[..|s| - 1])
  }

  function Take<T>(s: seq<T>, n: nat): (r: seq<T>)
  {
    if |s| <= n then s else s[..n]
  }

  /** Trimming at every append keeps what trimming once would keep. */
  lemma LastAppend<T>(s: seq<T>, n: nat, x: T)
    ensures Last(Last(s, n) + [x], n) == Last(s + [x], n)
  {
    if |s| > n {
      assert s + [x] == s[..|s| - n] + (s[|s| - n..] + [x]);
    }
  }

  /** The newest `limit` entries, newest first; zero and negative limits mean all of them. */
  function Newest<T>(s: seq<T>, limit: int): (r: seq<T>)
  {
    if limit <= 0 then Reversed(s) else Take(Reversed(s), limit)
  }

  /** As many entries as asked for and there are, counted from the end backwards. */
  lemma NewestExactly<T>(s: seq<T>, limit: int)
    ensures var r := Newest(s, limit);
      |r| == (if 0 < limit <= |s| then limit else |s|) && forall i :: 0 <= i < |r| ==> r[i] == s[|s| - 1 - i]
  {
  }

  /** The end of the log, in its order. */
  lemma LastExactly<T>(s: seq<T>, n: nat)
    ensures var r := Last(s, n); |r| == (if |s| <= n then |s| else n) && forall i :: 0 <= i < |r| ==> r[i] == s[|s| - |r| + i]
  {
  }

  method ListNewest<T>(events: seq<T>, limit: int) returns (result: seq<T>)
    ensures result == Newest(events, limit)
  {
    var count := limit;
    if count <= 0 || count > |events| { count := |events|; }
    result := [];
    var index := |events| - 1;
    while index >= |events| - count
      invariant |events| - count - 1 <= index < |events|
      invariant result == Reversed(events)[..|events| - 1 - index]
    {
      result := result + [events[index]];
      index := index - 1;
    }
  }

  datatype Event = Event(id: string, time: Option<int>, routeAlias: string, category: string, eventType: string,
                         caller: string, action: string, result: string, durationMs: int, egress: string)

  predicate ValidResult(result: string) { result in {"allowed", "blocked", "failed"} }

  predicate ValidEvent(e: Event)
  {
    e.routeAlias != "" && |e.routeAlias| <= 63 && e.caller != "" && |e.caller| <= 80
    && TrimSpace(e.action) != "" && |e.action| <= 160 && e.durationMs >= 0
    && e.category in {"HTTP", "SSH", "LLM", "System"} && e.eventType in {"request", "command", "health"}
    && ValidResult(e.result) && HttpRoutes.ValidEgress(e.egress)
  }

  function Stamped(e: Event, id: string, now: int): (r: Event)
  {
    e.(id := if e.id == "" then id else e.id, time := if e.time.None? then Some(now) else e.time)
  }

  class MemoryRecorder {
    var events: seq<Event>
    /** Every event ever accepted. */
    ghost var accepted: seq<Event>

    ghost predicate Valid()
      reads this
    {
      events == Last(accepted, MAX_EVENTS) && forall i :: 0 <= i < |accepted| ==> accepted[i].time.Some?
    }

    constructor ()
      ensures Valid() && accepted == []
    {
      events, accepted := [], [];
    }

    method Record(event: Event, id: string, now: int) returns (ok: bool)
      requires Valid()
      modifies this
      ensures Valid() && (ok <==> ValidEvent(event))
      ensures accepted == if ok then old(accepted) + [Stamped(event, id, now)] else old(accepted)
    {
      if !ValidEvent(event) { return false; }
      var stamped := Stamped(event, id, now);
      LastAppend(accepted, MAX_EVENTS, stamped);
      accepted := accepted + [stamped];
      events := events + [stamped];
      if |events| > MAX_EVENTS { events := events[|events| - MAX_EVENTS..]; }
      ok := true;
    }

    method List(limit: int) returns (result: seq<Event>)
      requires Valid()
      ensures result == Newest(Last(accepted, 200), limit)
    {
      result := ListNewest(events, limit);
    }
  }

  // ---- the command audit ----

  datatype CommandEvent = CommandEvent(id: string, time: Option<int>, routeAlias: string, command: string,
                                       result: string, durationMs: int, egress: string)

  predicate ValidCommandEvent(e: CommandEvent)
  {
    e.id != "" && |e.id| <= 64 && SshRoutes.ValidCommand(e.command) && e.time.Some? && e.routeAlias != ""
    && |e.routeAlias| <= 63 && e.durationMs >= 0 && ValidResult(e.result) && HttpRoutes.ValidEgress(e.egress)
  }

  function StampedCommand(e: CommandEvent, id: string, now: int): (r: CommandEvent)
  {
    e.(id := if e.id == "" then id else e.id, time := if e.time.None? then Some(now) else e.time)
  }

  class FileCommandAudit {
    var events: seq<CommandEvent>
    var file: seq<CommandEvent>
    ghost var accepted: seq<CommandEvent>

    ghost predicate Valid()
      reads this
    {
      events == Last(accepted, MAX_AUDIT_EVENTS) && forall i :: 0 <= i < |accepted| ==> ValidCommandEvent(accepted[i])
    }

    constructor (loaded: seq<CommandEvent>)
      requires |loaded| <= MAX_AUDIT_EVENTS && forall i :: 0 <= i < |loaded| ==> ValidCommandEvent(loaded[i])
      ensures Valid() && accepted == loaded && file == loaded
    {
      events, file, accepted := loaded, loaded, loaded;
    }

    /** A failed save drops only its own event, and a later success rewrites the whole file. */
    method Record(event: CommandEvent, id: string, now: int, outcome: SaveOutcome) returns (ok: bool)
      requires Valid()
      modifies this
      ensures Valid()
      ensures ok <==> ValidCommandEvent(StampedCommand(event, id, now)) && outcome == Installed
      ensures accepted == if ok then old(accepted) + [StampedCommand(event, id, now)] else old(accepted)
      ensures ok ==> file == events
      ensures !ok ==> file == old(file) || file == Last(old(events) + [StampedCommand(event, id, now)], MAX_AUDIT_EVENTS)
      ensures !ok && outcome == NotInstalled ==> file == old(file)
    {
      if !SshRoutes.ValidCommand(event.command) || event.routeAlias == "" || |event.routeAlias| > 63 { return false; }
      var stamped := StampedCommand(event, id, now);
      if !ValidCommandEvent(stamped) { return false; }
      var updated := events + [stamped];
      if |updated| > MAX_AUDIT_EVENTS { updated := updated[|updated| - MAX_AUDIT_EVENTS..]; }
      if outcome != NotInstalled { file := updated; }
      if outcome != Installed { return false; }
      LastAppend(accepted, MAX_AUDIT_EVENTS, stamped);
      accepted := accepted + [stamped];
      events := updated;
      ok := true;
    }

    method List(limit: int) returns (result: seq<CommandEvent>)
      requires Valid()
      ensures result == Newest(Last(accepted, 100), limit)
    {
      result := ListNewest(events, limit);
    }
  }

  // ---- recentActivities ----

  /** A summary line: when it happened, and the event it shows. */
  datatype Summary = Summary(when_: int, source: Source)
  datatype Source = FromActivity(event: Event) | FromAudit(command: CommandEvent)

  ghost predicate Descending(s: seq<Summary>)
  {
    forall i, j :: 0 <= i < j < |s| ==> s[i].when_ >= s[j].when_
  }

  function InsertLater(x: Summary, s: seq<Summary>): (r: seq<Summary>)
    ensures |r| == |s| + 1
  {
    if s == [] then [x]
    else if s[0].when_ >= x.when_ then [s[0]] + InsertLater(x, s[1..])
    else [x] + s
  }

  /** sort.SliceStable with "later first". */
  function StableSort(s: seq<Summary>): (r: seq<Summary>)
    ensures |r| == |s|
  {
    if s == [] then [] else InsertLater(s[|s| - 1], StableSort(s[..|s| - 1]))
  }

  lemma SortSnoc(s: seq<Summary>, x: Summary)
    ensures StableSort(s + [x]) == InsertLater(x, StableSort(s))
  {
    assert (s + [x])[..|s|] == s;
  }

  lemma {:induction false} InsertPermutes(x: Summary, s: seq<Summary>)
    ensures multiset(InsertLater(x, s)) == multiset(s) + multiset{x}
  {
    if s != [] {
      assert s == [s[0]] + s[1..];
      InsertPermutes(x, s[1..]);
    }
  }

  lemma {:induction false} InsertDescending(x: Summary, s: seq<Summary>)
    requires Descending(s)
    ensures Descending(InsertLater(x, s))
  {
    if s != [] && s[0].when_ >= x.when_ {
      InsertDescending(x, s[1..]);
      InsertPermutes(x, s[1..]);
      var r := InsertLater(x, s[1..]);
      forall i | 0 <= i < |r| ensures s[0].when_ >= r[i].when_ {
        assert r[i] in multiset(r);
        assert r[i] == x || r[i] in s[1..];
      }
    }
  }

  /** The sort orders its input and loses none of it. */
  lemma {:induction false} SortDescending(s: seq<Summary>)
    ensures Descending(StableSort(s)) && multiset(StableSort(s)) == multiset(s)
  {
    if s != [] {
      var front, last := s[..|s| - 1], s[|s| - 1];
      assert s == front + [last];
      SortDescending(front);
      InsertDescending(last, StableSort(front));
      InsertPermutes(last, StableSort(front));
    }
  }

  /** Merging two lists that are already newest first, the first one winning ties. */
  function Merge(x: seq<Summary>, y: seq<Summary>): (r: seq<Summary>)
    ensures |r| == |x| + |y|
    decreases |x| + |y|
  {
    if x == [] then y
    else if y == [] then x
    else if x[0].when_ >= y[0].when_ then [x[0]] + Merge(x[1..], y)
    else [y[0]] + Merge(x, y[1..])
  }

  lemma {:induction false} InsertAtEnd(x: Summary, s: seq<Summary>)
    requires forall i :: 0 <= i < |s| ==> s[i].when_ >= x.when_
    ensures InsertLater(x, s) == s + [x]
  {
    if s != [] { InsertAtEnd(x, s[1..]); }
  }

  lemma {:induction false} MergeAppend(x: seq<Summary>, y: seq<Summary>, last: Summary)
    requires forall i :: 0 <= i < |y| ==> y[i].when_ >= last.when_
    ensures InsertLater(last, Merge(x, y)) == Merge(x, y + [last])
    decreases |x| + |y|
  {
    var yl := y + [last];
    if x == [] {
      InsertAtEnd(last, y);
    } else if y == [] {
      MergeOne(x, last);
      assert yl == [last];
    } else if x[0].when_ >= y[0].when_ {
      MergeAppend(x[1..], y, last);
      var m := Merge(x, y);
      assert m[1..] == Merge(x[1..], y) && yl[0] == y[0];
    } else {
      MergeAppend(x, y[1..], last);
      var m := Merge(x, y);
      assert m[1..] == Merge(x, y[1..]) && yl[0] == y[0] && yl[1..] == y[1..] + [last];
    }
  }

  lemma {:induction false} MergeOne(x: seq<Summary>, last: Summary)
    ensures InsertLater(last, x) == Merge(x, [last])
  {
    if x != [] && x[0].when_ >= last.when_ { MergeOne(x[1..], last); }
  }

  lemma {:induction false} SortOfSorted(s: seq<Summary>)
    requires Descending(s)
    ensures StableSort(s) == s
  {
    if s != [] {
      var front := s[..|s| - 1];
      SortOfSorted(front);
      InsertAtEnd(s[|s| - 1], front);
    }
  }

  lemma LastIsLeast(y: seq<Summary>)
    requires Descending(y) && y != []
    ensures var front, last := y[..|y| - 1], y[|y| - 1];
      forall i :: 0 <= i < |front| ==> front[i].when_ >= last.when_
  {
  }

  /** Sorting the concatenation of two newest-first lists merges them. */
  lemma {:induction false} SortIsMerge(x: seq<Summary>, y: seq<Summary>)
    requires Descending(x) && Descending(y)
    ensures StableSort(x + y) == Merge(x, y)
  {
    if y == [] {
      assert x + y == x;
      SortOfSorted(x);
    } else {
      var front, last := y[..|y| - 1], y[|y| - 1];
      assert Descending(front);
      SortIsMerge(x, front);
      SnocAssoc(x, y);
      SortSnoc(x + front, last);
      LastIsLeast(y);
      MergeAppend(x, front, last);
      assert front + [last] == y;
    }
  }

  /** The first `n` of a merge come from the first `n` of each list. */
  lemma {:induction false} MergeTake(x: seq<Summary>, y: seq<Summary>, a: nat, b: nat, n: nat)
    requires n <= a && n <= b
    ensures Take(Merge(Take(x, a), Take(y, b)), n) == Take(Merge(x, y), n)
    decreases n
  {
    if n == 0 {
      assert Take(Merge(x, y), 0) == [];
    } else if x == [] || y == [] {
      TakeTake(x, a, n);
      TakeTake(y, b, n);
    } else {
      MergeHeads(x, y, a, b);
      if x[0].when_ >= y[0].when_ {
        MergeTake(x[1..], y, a - 1, b, n - 1);
        SameTake(x[0], Merge(Take(x[1..], a - 1), Take(y, b)), Merge(x[1..], y), n);
      } else {
        MergeTake(x, y[1..], a, b - 1, n - 1);
        SameTake(y[0], Merge(Take(x, a), Take(y[1..], b - 1)), Merge(x, y[1..]), n);
      }
    }
  }

  lemma SameTake<T>(x: T, s: seq<T>, t: seq<T>, n: nat)
    requires n > 0 && Take(s, n - 1) == Take(t, n - 1)
    ensures Take([x] + s, n) == Take([x] + t, n)
  {
    TakeCons(x, s, n);
    TakeCons(x, t, n);
  }

  lemma MergeHeads(x: seq<Summary>, y: seq<Summary>, a: nat, b: nat)
    requires x != [] && y != [] && a > 0 && b > 0
    ensures Merge(Take(x, a), Take(y, b)) ==
      if x[0].when_ >= y[0].when_ then [x[0]] + Merge(Take(x[1..], a - 1), Take(y, b))
      else [y[0]] + Merge(Take(x, a), Take(y[1..], b - 1))
  {
    TakeTail(x, a);
    TakeTail(y, b);
    assert Take(x, a)[0] == x[0] && Take(y, b)[0] == y[0];
  }

  lemma TakeTake<T>(s: seq<T>, a: nat, n: nat)
    requires n <= a
    ensures Take(Take(s, a), n) == Take(s, n)
  {
  }

  lemma TakeTail<T>(s: seq<T>, n: nat)
    requires s != [] && n > 0
    ensures Take(s, n) != [] && Take(s, n)[1..] == Take(s[1..], n - 1)
  {
  }

  lemma TakeCons<T>(x: T, s: seq<T>, n: nat)
    requires n > 0
    ensures Take([x] + s, n) == [x] + Take(s, n - 1)
  {
  }

  lemma TakeDescending(s: seq<Summary>, n: nat)
    requires Descending(s)
    ensures Descending(Take(s, n))
  {
  }

  /** Cutting each log to its newest 50 before merging loses nothing: the answer is the newest 50
      of everything retained. */
  lemma TruncateBeforeMerge(x: seq<Summary>, y: seq<Summary>, n: nat)
    requires Descending(x) && Descending(y)
    ensures Take(StableSort(Take(x, n) + Take(y, n)), n) == Take(StableSort(x + y), n)
  {
    TakeDescending(x, n);
    TakeDescending(y, n);
    SortIsMerge(x, y);
    SortIsMerge(Take(x, n), Take(y, n));
    MergeTake(x, y, n, n, n);
  }

  // ---- the response's activity list ----

  function ShowEvent(e: Event): Summary
  {
    Summary(if e.time.Some? then e.time.value else 0, FromActivity(e))
  }

  function ShowCommand(e: CommandEvent): Summary
  {
    Summary(if e.time.Some? then e.time.value else 0, FromAudit(e))
  }

  function ShowEvents(s: seq<Event>): (r: seq<Summary>)
  {
    seq(|s|, i requires 0 <= i < |s| => ShowEvent(s[i]))
  }

  function ShowCommands(s: seq<CommandEvent>): (r: seq<Summary>)
  {
    seq(|s|, i requires 0 <= i < |s| => ShowCommand(s[i]))
  }

  ghost predicate Chronological(s: seq<Summary>)
  {
    forall i, j :: 0 <= i < j < |s| ==> s[i].when_ <= s[j].when_
  }

  /** Everything retained in both logs, newest first, activity before audit on ties. */
  function Retained(events: seq<Event>, commands: seq<CommandEvent>): (r: seq<Summary>)
  {
    StableSort(Reversed(ShowEvents(events)) + Reversed(ShowCommands(commands)))
  }

  method RecentActivities(activity: MemoryRecorder, audit: FileCommandAudit) returns (result: seq<Summary>)
    requires activity.Valid() && audit.Valid()
    ensures var events, commands := Last(activity.accepted, 200), Last(audit.accepted, 100);
      result == Take(StableSort(ShowEvents(Newest(events, 50)) + ShowCommands(Newest(commands, 50))), 50)
      && (Chronological(ShowEvents(events)) && Chronological(ShowCommands(commands)) ==>
            result == Take(Retained(events, commands), 50))
  {
    result := [];
    var listed := activity.List(RECENT);
    for i := 0 to |listed|
      invariant result == ShowEvents(listed)[..i]
    {
      result := result + [ShowEvent(listed[i])];
    }
    var recorded := audit.List(RECENT);
    ghost var first := result;
    for i := 0 to |recorded|
      invariant result == first + ShowCommands(recorded)[..i]
    {
      result := result + [ShowCommand(recorded[i])];
    }
    assert result == ShowEvents(listed) + ShowCommands(recorded);
    result := StableSort(result);
    if |result| > RECENT { result := result[..RECENT]; }
    ghost var events, commands := Last(activity.accepted, MAX_EVENTS), Last(audit.accepted, MAX_AUDIT_EVENTS);
    if Chronological(ShowEvents(events)) && Chronological(ShowCommands(commands)) { NewestOfBoth(events, commands); }
  }

  lemma NewestOfBoth(events: seq<Event>, commands: seq<CommandEvent>)
    requires Chronological(ShowEvents(events)) && Chronological(ShowCommands(commands))
    ensures Take(StableSort(ShowEvents(Newest(events, RECENT)) + ShowCommands(Newest(commands, RECENT))), RECENT)
      == Take(Retained(events, commands), RECENT)
  {
    ShowNewestEvents(events, RECENT);
    ShowNewestCommands(commands, RECENT);
    ReversedDescending(ShowEvents(events));
    ReversedDescending(ShowCommands(commands));
    TruncateBeforeMerge(Reversed(ShowEvents(events)), Reversed(ShowCommands(commands)), RECENT);
  }

  lemma ShowNewestEvents(events: seq<Event>, n: nat)
    requires n > 0
    ensures ShowEvents(Newest(events, n)) == Take(Reversed(ShowEvents(events)), n)
  {
    var a, b := ShowEvents(Newest(events, n)), Take(Reversed(ShowEvents(events)), n);
    assert |a| == |b|;
    forall i | 0 <= i < |a| ensures a[i] == b[i] {
      assert Reversed(ShowEvents(events))[i] == ShowEvents(events)[|events| - 1 - i];
    }
  }

  lemma ShowNewestCommands(commands: seq<CommandEvent>, n: nat)
    requires n > 0
    ensures ShowCommands(Newest(commands, n)) == Take(Reversed(ShowCommands(commands)), n)
  {
    var a, b := ShowCommands(Newest(commands, n)), Take(Reversed(ShowCommands(commands)), n);
    assert |a| == |b|;
    forall i | 0 <= i < |a| ensures a[i] == b[i] {
      assert Reversed(ShowCommands(commands))[i] == ShowCommands(commands)[|commands| - 1 - i];
    }
  }

  lemma ReversedDescending(s: seq<Summary>)
    requires Chronological(s)
    ensures Descending(Reversed(s))
  {
  }

  /** No entry left out of the list is newer than one in it. */
  lemma NothingNewerLeftOut(events: seq<Event>, commands: seq<CommandEvent>, i: nat, j: nat)
    requires i < |Take(Retained(events, commands), RECENT)| && RECENT <= j < |Retained(events, commands)|
    ensures Take(Retained(events, commands), RECENT)[i].when_ >= Retained(events, commands)[j].when_
    ensures multiset(Retained(events, commands)) ==
      multiset(Reversed(ShowEvents(events)) + Reversed(ShowCommands(commands)))
  {
    SortDescending(Reversed(ShowEvents(events)) + Reversed(ShowCommands(commands)));
  }
}
