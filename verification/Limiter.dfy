/** The per-route LLM limiter: a concurrency bound and a fixed-window request rate, with release
    closures that may outlive the state they were taken from. Times are nanoseconds. */
module Limiter {
  import opened Text

  const SECOND: int := 1_000_000_000
  const MINUTE: int := 60 * SECOND

  // ---- the history of one limiter state ----

  /** An admitted request: when, and in which window. */
  datatype Admission = Admission(time: int, window: nat)

  /** All windows a state has opened and all requests it has admitted, oldest first. */
  datatype Book = Book(starts: seq<int>, log: seq<Admission>)

  function Current(b: Book): (w: int) { |b.starts| - 1 }

  /** Windows are a minute apart; requests fall into their window, in order, and no window holds
      more than `limit` of them; the last `requests` entries are those of the open window. */
  ghost predicate Sound(b: Book, limit: int, requests: nat, clock: int)
  {
    |b.starts| >= 1 && requests <= |b.log| && b.starts[Current(b)] <= clock
    && (forall k :: 0 <= k < Current(b) ==> b.starts[k] + MINUTE <= b.starts[k + 1])
    && (forall i :: 0 <= i < |b.log| ==> InWindow(b, b.log[i]) && b.log[i].time <= clock)
    && (forall i :: 0 <= i < |b.log| ==> (b.log[i].window == Current(b) <==> i >= |b.log| - requests))
    && Spread(b.log, limit)
  }

  ghost predicate InWindow(b: Book, a: Admission)
  {
    a.window < |b.starts| && b.starts[a.window] <= a.time
    && (a.window + 1 < |b.starts| ==> a.time <= b.starts[a.window + 1])
  }

  ghost predicate Spread(log: seq<Admission>, limit: int)
  {
    forall i, j :: 0 <= i < j < |log| ==>
      log[i].window <= log[j].window && (j - i >= limit ==> log[i].window < log[j].window)
  }

  function OpenWindow(b: Book, now: int): Book { b.(starts := b.starts + [now]) }

  function Admit(b: Book, now: int): Book
    requires |b.starts| >= 1
  {
    b.(log := b.log + [Admission(now, |b.starts| - 1)])
  }

  lemma OpenWindowSound(b: Book, limit: int, requests: nat, clock: int, now: int)
    requires Sound(b, limit, requests, clock) && clock <= now && b.starts[Current(b)] + MINUTE <= now
    ensures Sound(OpenWindow(b, now), limit, 0, now)
  {
    var c := OpenWindow(b, now);
    forall i | 0 <= i < |c.log| ensures InWindow(c, c.log[i]) && c.log[i].window < Current(c) {
      assert InWindow(b, b.log[i]);
    }
  }

  lemma AdmitSound(b: Book, limit: int, requests: nat, clock: int, now: int)
    requires Sound(b, limit, requests, clock) && clock <= now && requests < limit
    ensures Sound(Admit(b, now), limit, requests + 1, now)
  {
    var c := Admit(b, now);
    forall i | 0 <= i < |b.log| ensures InWindow(c, c.log[i]) && c.log[i].window <= Current(b) {
      assert InWindow(b, b.log[i]);
    }
    forall i, j | 0 <= i < j < |c.log|
      ensures c.log[i].window <= c.log[j].window && (j - i >= limit ==> c.log[i].window < c.log[j].window)
    {
      assert b.log[i].window <= Current(b);
    }
  }

  lemma {:induction false} StartsApart(b: Book, limit: int, requests: nat, clock: int, v: nat, w: nat)
    requires Sound(b, limit, requests, clock) && v <= w < |b.starts|
    ensures b.starts[v] + (w - v) * MINUTE <= b.starts[w]
  {
    if v < w { StartsApart(b, limit, requests, clock, v, w - 1); }
  }

  /** Requests that lie `2 * limit` places apart lie at least a minute apart, so no half-open
      minute contains more than `2 * limit` of them; and no window contains more than `limit`. */
  lemma RateBound(b: Book, limit: int, requests: nat, clock: int, i: nat, j: nat)
    requires Sound(b, limit, requests, clock) && limit >= 1 && i <= j < |b.log|
    ensures b.log[j].time < b.log[i].time + MINUTE ==> j - i < 2 * limit
    ensures b.log[i].window == b.log[j].window ==> j - i < limit
  {
    assert InWindow(b, b.log[i]) && InWindow(b, b.log[j]);
    if j - i >= 2 * limit {
      var k := i + limit;
      assert b.log[i].window < b.log[k].window < b.log[j].window;
      var next := b.log[i].window + 1;
      StartsApart(b, limit, requests, clock, next, b.log[j].window);
    }
  }

  // ---- the limiter as a machine over values ----

  /** What a limiter state counts. */
  datatype Counters = Counters(windowStarted: int, requests: nat, current: nat)

  /** Its past; the last time seen under the lock; and whether times never went back so far. */
  datatype History = History(book: Book, clock: int, timely: bool)

  datatype Limit = Limit(digest: string, requestsPerMinute: int, maxConcurrent: int, counters: Counters, history: History)

  /** An acquire, with the key and the policy the route has at that time. `now` is read before the lock is taken; `later` is the second
      reading of the clock, for Retry-After. A release calls the closure of the `index`-th grant. */
  datatype Event = Acquiring(alias: string, isLlm: bool, digest: string, requestsPerMinute: int, maxConcurrent: int, now: int, later: int)
                 | Releasing(index: nat)

  /** Every state ever created, the one each alias has now, the state behind each grant, and the grants released. */
  datatype Model = Model(states: seq<Limit>, at: map<string, nat>, granted: seq<nat>, released: set<nat>)

  const EMPTY := Model([], map[], [], {})

  /** The alias has a state for this key and policy. */
  predicate Known(m: Model, e: Event)
    requires e.Acquiring?
  {
    e.alias in m.at && m.at[e.alias] < |m.states|
    && var s := m.states[m.at[e.alias]];
       s.digest == e.digest && s.requestsPerMinute == e.requestsPerMinute && s.maxConcurrent == e.maxConcurrent
  }

  function Index(m: Model, e: Event): nat
    requires e.Acquiring?
  {
    if Known(m, e) then m.at[e.alias] else |m.states|
  }

  function Created(e: Event): Limit
    requires e.Acquiring?
  {
    Limit(e.digest, e.requestsPerMinute, e.maxConcurrent, Counters(e.now, 0, 0), History(Book([e.now], []), e.now, true))
  }

  /** The state an acquire meets. */
  function Met(m: Model, e: Event): Limit
    requires e.Acquiring?
  {
    if Known(m, e) then m.states[m.at[e.alias]] else Created(e)
  }

  /** A new window opens once a minute has passed since the last one did. */
  function Rolled(c: Counters, now: int): Counters
  {
    if now - c.windowStarted >= MINUTE then c.(windowStarted := now, requests := 0) else c
  }

  function RolledHistory(h: History, c: Counters, now: int): History
  {
    History(if now - c.windowStarted >= MINUTE then OpenWindow(h.book, now) else h.book, now, h.timely && h.clock <= now)
  }

  predicate Full(c: Counters, limit: Limit) { c.current >= limit.maxConcurrent }

  predicate Spent(c: Counters, limit: Limit) { c.requests >= limit.requestsPerMinute }

  predicate Grants(m: Model, e: Event)
    requires e.Acquiring?
  {
    var limit := Met(m, e);
    var c := Rolled(limit.counters, e.now);
    e.isLlm && !Full(c, limit) && !Spent(c, limit)
  }

  /** The state after the window check and, when granted, the request. */
  function Used(limit: Limit, now: int, granted: bool): Limit
    requires |limit.history.book.starts| >= 1
  {
    var c, h := Rolled(limit.counters, now), RolledHistory(limit.history, limit.counters, now);
    limit.(counters := if granted then c.(requests := c.requests + 1, current := c.current + 1) else c,
           history := if granted then h.(book := Admit(h.book, now)) else h)
  }

  function Acquired(m: Model, e: Event): Model
    requires e.Acquiring? && |Met(m, e).history.book.starts| >= 1
  {
    if !e.isLlm then m
    else
      Recorded(m, Index(m, e), e.alias, Used(Met(m, e), e.now, Grants(m, e)), Grants(m, e))
  }

  function Recorded(m: Model, k: nat, alias: string, after: Limit, granted: bool): Model
    requires k <= |m.states|
  {
    m.(states := if k < |m.states| then m.states[k := after] else m.states + [after], at := m.at[alias := k],
       granted := if granted then m.granted + [k] else m.granted)
  }

  /** The closure lowers the count unless it is zero already. */
  function Lowered(limit: Limit): Limit
  {
    if limit.counters.current > 0 then limit.(counters := limit.counters.(current := limit.counters.current - 1)) else limit
  }

  predicate CanRelease(m: Model, index: nat)
  {
    index < |m.granted| && index !in m.released && m.granted[index] < |m.states|
  }

  function Released(m: Model, index: nat): Model
    requires CanRelease(m, index)
  {
    var k := m.granted[index];
    m.(states := m.states[k := Lowered(m.states[k])], released := m.released + {index})
  }

  /** Closures are called once; other release events do not occur. */
  ghost function Next(m: Model, e: Event): Model
    requires Good(m)
  {
    match e
    case Acquiring(_, _, _, _, _, _, _) => Acquired(m, e)
    case Releasing(index) => if CanRelease(m, index) then Released(m, index) else m
  }

  // ---- what every run keeps ----

  /** The grants of a state that are not released yet. */
  function Outstanding(m: Model, k: nat): set<nat>
  {
    set i | 0 <= i < |m.granted| && m.granted[i] == k && i !in m.released
  }

  predicate WithinLimits(limit: Limit)
  {
    (limit.counters.current == 0 || limit.counters.current <= limit.maxConcurrent)
    && (limit.counters.requests == 0 || limit.counters.requests <= limit.requestsPerMinute)
  }

  /** The requests admitted in the open window. */
  function OpenAdmissions(b: Book): set<nat>
  {
    set i | 0 <= i < |b.log| && b.log[i].window == |b.starts| - 1
  }

  /** The open window is the last one opened, and `requests` counts what was admitted in it. */
  predicate Tallied(b: Book, c: Counters)
  {
    |b.starts| >= 1 && c.windowStarted == b.starts[|b.starts| - 1] && c.requests == |OpenAdmissions(b)|
    && forall i :: 0 <= i < |b.log| ==> b.log[i].window < |b.starts|
  }

  /** As long as the time does not go back, the history is sound besides. */
  ghost predicate Kept(limit: Limit)
  {
    var h := limit.history;
    Tallied(h.book, limit.counters) && (h.timely ==> Sound(h.book, limit.requestsPerMinute, limit.counters.requests, h.clock))
  }

  lemma TalliedNext(b: Book, c: Counters, now: int, granted: bool)
    requires Tallied(b, c)
    ensures var rolled := if now - c.windowStarted >= MINUTE then OpenWindow(b, now) else b;
      Tallied(rolled, Rolled(c, now))
      && (granted ==> Tallied(Admit(rolled, now), Rolled(c, now).(requests := Rolled(c, now).requests + 1, current := c.current + 1)))
  {
    var rolled := if now - c.windowStarted >= MINUTE then OpenWindow(b, now) else b;
    if now - c.windowStarted >= MINUTE { assert OpenAdmissions(rolled) == {}; }
    assert OpenAdmissions(Admit(rolled, now)) == OpenAdmissions(rolled) + {|rolled.log|};
  }

  /** In every state, replaced ones included, `current` is the number of its outstanding grants, and both limits hold. */
  ghost predicate Good(m: Model)
  {
    (forall alias :: alias in m.at ==> m.at[alias] < |m.states|)
    && (forall i :: 0 <= i < |m.granted| ==> m.granted[i] < |m.states|)
    && (forall i :: i in m.released ==> i < |m.granted|)
    && (forall k :: 0 <= k < |m.states| ==>
          m.states[k].counters.current == |Outstanding(m, k)| && WithinLimits(m.states[k]) && Kept(m.states[k]))
  }

  lemma UsedKept(limit: Limit, now: int, granted: bool)
    requires Kept(limit) && WithinLimits(limit)
    requires var c := Rolled(limit.counters, now); granted ==> !Full(c, limit) && !Spent(c, limit)
    ensures Kept(Used(limit, now, granted)) && WithinLimits(Used(limit, now, granted))
  {
    var c, h := Rolled(limit.counters, now), RolledHistory(limit.history, limit.counters, now);
    TalliedNext(limit.history.book, limit.counters, now, granted);
    if h.timely {
      if now - limit.counters.windowStarted >= MINUTE {
        OpenWindowSound(limit.history.book, limit.requestsPerMinute, limit.counters.requests, limit.history.clock, now);
      } else {
        SoundLater(limit.history.book, limit.requestsPerMinute, limit.counters.requests, limit.history.clock, now);
      }
      if granted { AdmitSound(h.book, limit.requestsPerMinute, c.requests, now, now); }
    }
  }

  lemma SoundLater(b: Book, limit: int, requests: nat, clock: int, now: int)
    requires Sound(b, limit, requests, clock) && clock <= now
    ensures Sound(b, limit, requests, now)
  {
  }

  lemma OutstandingGranted(m: Model, k: nat, j: nat)
    requires forall i :: i in m.released ==> i < |m.granted|
    ensures var n := m.(granted := m.granted + [k]); |Outstanding(n, j)| == |Outstanding(m, j)| + if j == k then 1 else 0
  {
    var n := m.(granted := m.granted + [k]);
    if j == k {
      assert Outstanding(n, j) == Outstanding(m, j) + {|m.granted|};
    } else {
      assert Outstanding(n, j) == Outstanding(m, j);
    }
  }

  lemma OutstandingReleased(m: Model, index: nat, j: nat)
    requires CanRelease(m, index)
    ensures var n := m.(released := m.released + {index});
      |Outstanding(n, j)| == |Outstanding(m, j)| - if j == m.granted[index] then 1 else 0
    ensures |Outstanding(m, m.granted[index])| > 0
  {
    var n := m.(released := m.released + {index});
    assert index in Outstanding(m, m.granted[index]);
    if j == m.granted[index] {
      assert Outstanding(m, j) == Outstanding(n, j) + {index};
    } else {
      assert Outstanding(n, j) == Outstanding(m, j);
    }
  }

  lemma NothingOutstanding(m: Model)
    requires forall i :: 0 <= i < |m.granted| ==> m.granted[i] < |m.states|
    ensures Outstanding(m, |m.states|) == {}
  {
  }

  lemma AcquiredGood(m: Model, e: Event)
    requires Good(m) && e.Acquiring?
    ensures Kept(Met(m, e)) && WithinLimits(Met(m, e)) && Met(m, e).counters.current == |Outstanding(m, Index(m, e))|
    ensures Good(Acquired(m, e))
  {
    NothingOutstanding(m);
    var n := Acquired(m, e);
    if e.isLlm {
      UsedKept(Met(m, e), e.now, Grants(m, e));
      forall j | 0 <= j < |n.states|
        ensures n.states[j].counters.current == |Outstanding(n, j)| && WithinLimits(n.states[j]) && Kept(n.states[j])
      {
        OutstandingGranted(m, Index(m, e), j);
        assert Outstanding(n, j) == Outstanding(m.(granted := n.granted), j);
      }
    }
  }

  /** A closure finds the count above zero, so its guard never fails. */
  lemma ReleasedGood(m: Model, index: nat)
    requires Good(m) && CanRelease(m, index)
    ensures m.states[m.granted[index]].counters.current > 0 && Good(Released(m, index))
  {
    var n := Released(m, index);
    forall j | 0 <= j < |n.states|
      ensures n.states[j].counters.current == |Outstanding(n, j)| && WithinLimits(n.states[j]) && Kept(n.states[j])
    {
      OutstandingReleased(m, index, j);
      assert Outstanding(n, j) == Outstanding(m.(released := n.released), j);
    }
    OutstandingReleased(m, index, m.granted[index]);
  }

  lemma NextGood(m: Model, e: Event)
    requires Good(m)
    ensures Good(Next(m, e))
  {
    match e {
      case Acquiring(_, _, _, _, _, _, _) => AcquiredGood(m, e);
      case Releasing(index) => if CanRelease(m, index) { ReleasedGood(m, index); }
    }
  }

  ghost function Run(m: Model, events: seq<Event>): (r: Model)
    requires Good(m)
    ensures Good(r)
    decreases |events|
  {
    if events == [] then m
    else
      NextGood(m, events[0]);
      Run(Next(m, events[0]), events[1..])
  }

  // ---- the rate ----

  /** The clock does not go back in lock order. */
  predicate InOrder(events: seq<Event>)
  {
    forall i, j :: 0 <= i < j < |events| && events[i].Acquiring? && events[j].Acquiring? ==> events[i].now <= events[j].now
  }

  /** No state has seen the time go back, or a time after `t`. */
  predicate OnTime(m: Model, t: int)
  {
    forall k :: 0 <= k < |m.states| ==> m.states[k].history.timely && m.states[k].history.clock <= t
  }

  predicate Timely(m: Model) { forall k :: 0 <= k < |m.states| ==> m.states[k].history.timely }

  /** With such a clock, the history of every state stays sound over every run. */
  lemma {:induction false} RunTimely(m: Model, events: seq<Event>)
    requires Good(m) && Timely(m) && InOrder(events)
    requires forall i :: 0 <= i < |events| && events[i].Acquiring? ==> OnTime(m, events[i].now)
    ensures Timely(Run(m, events))
    decreases |events|
  {
    if events != [] {
      var e, n := events[0], Next(m, events[0]);
      NextGood(m, e);
      assert Timely(n);
      forall i | 0 <= i < |events[1..]| && events[1..][i].Acquiring? ensures OnTime(n, events[1..][i].now) {
        assert OnTime(m, events[i + 1].now);
      }
      RunTimely(n, events[1..]);
    }
  }

  /** Any interleaving of acquires, rotations and releases, from the start: in every state, replaced ones included, `current` is the
      number of grants not released, at most the concurrency limit, and `requests` is at most the rate. When the clock does not go
      back, no minute holds more than twice the rate of admitted requests, and no window more than the rate. */
  lemma RunKeeps(events: seq<Event>, k: nat, i: nat, j: nat)
    requires k < |Run(EMPTY, events).states|
    ensures var m := Run(EMPTY, events);
      m.states[k].counters.current == |Outstanding(m, k)| && WithinLimits(m.states[k])
    ensures var s := Run(EMPTY, events).states[k];
      InOrder(events) && s.requestsPerMinute >= 1 && i <= j < |s.history.book.log| ==>
        var log := s.history.book.log;
        (log[j].time < log[i].time + MINUTE ==> j - i < 2 * s.requestsPerMinute)
        && (log[i].window == log[j].window ==> j - i < s.requestsPerMinute)
  {
    var s := Run(EMPTY, events).states[k];
    if InOrder(events) && s.requestsPerMinute >= 1 && i <= j < |s.history.book.log| {
      RunTimely(EMPTY, events);
      RateBound(s.history.book, s.requestsPerMinute, s.counters.requests, s.history.clock, i, j);
    }
  }

  // ---- the handler's objects ----

  datatype Grant = Unlimited | Granted(release: Release) | ConcurrencyLimit | RateLimit(retryAfter: int)

  /** How many of its grants are outstanding. */
  function InFlight(m: Model, e: Event): nat
    requires e.Acquiring?
  {
    if Known(m, e) then |Outstanding(m, m.at[e.alias])| else 0
  }

  /** When its open window began, if that is less than a minute ago. */
  function OpenSince(m: Model, e: Event): Option<int>
    requires e.Acquiring?
  {
    if !Known(m, e) then None
    else
      var starts := m.states[m.at[e.alias]].history.book.starts;
      if starts == [] || e.now >= starts[|starts| - 1] + 60_000_000_000 then None else Some(starts[|starts| - 1])
  }

  /** How many requests were admitted in the open window. */
  function AdmittedNow(m: Model, e: Event): nat
    requires e.Acquiring?
  {
    if OpenSince(m, e).None? then 0 else |OpenAdmissions(m.states[m.at[e.alias]].history.book)|
  }

  /** An LLM acquire is granted exactly when a slot and a place in the window are free; otherwise the limit that is reached answers,
      concurrency first, and Retry-After leads past the end of the window. */
  ghost predicate Answers(grant: Grant, m: Model, e: Event)
    requires e.Acquiring?
  {
    (grant.Unlimited? <==> !e.isLlm)
    && (grant.Granted? <==> e.isLlm && InFlight(m, e) < e.maxConcurrent && AdmittedNow(m, e) < e.requestsPerMinute)
    && (grant.ConcurrencyLimit? <==> e.isLlm && InFlight(m, e) >= e.maxConcurrent)
    && (grant.RateLimit? <==> e.isLlm && InFlight(m, e) < e.maxConcurrent && AdmittedNow(m, e) >= e.requestsPerMinute)
    && (grant.RateLimit? ==> IsRetryAfter(grant.retryAfter, WindowStart(m, e) + 60_000_000_000 - e.later))
  }

  /** At least one second, enough whole seconds to pass the time left, and not one more. */
  predicate IsRetryAfter(seconds: int, left: int)
  {
    seconds >= 1 && seconds * 1_000_000_000 > left && (seconds == 1 || (seconds - 1) * 1_000_000_000 <= left)
  }

  /** When the window began that the acquire falls into. */
  function WindowStart(m: Model, e: Event): int
    requires e.Acquiring?
  {
    if OpenSince(m, e).Some? then OpenSince(m, e).value else e.now
  }

  /** The same, on the counters. */
  ghost predicate CountsAnswer(grant: Grant, m: Model, e: Event)
    requires e.Acquiring? && e.isLlm
  {
    var limit := Met(m, e);
    var c := Rolled(limit.counters, e.now);
    !grant.Unlimited? && (grant.Granted? <==> Grants(m, e)) && (grant.ConcurrencyLimit? <==> Full(c, limit))
    && (grant.RateLimit? <==> !Full(c, limit) && Spent(c, limit))
    && (grant.RateLimit? ==> IsRetryAfter(grant.retryAfter, c.windowStarted + MINUTE - e.later))
  }

  /** The counters say what the grants and the history say. */
  lemma CountersTell(m: Model, e: Event)
    requires Good(m) && e.Acquiring?
    ensures var c := Rolled(Met(m, e).counters, e.now);
      c.current == InFlight(m, e) && c.requests == AdmittedNow(m, e)
      && c.windowStarted == WindowStart(m, e)
    ensures Met(m, e).maxConcurrent == e.maxConcurrent && Met(m, e).requestsPerMinute == e.requestsPerMinute
  {
  }

  /** Over every run, an LLM acquire takes a slot if and only if one is free and the window has room. */
  lemma GrantedExactly(events: seq<Event>, e: Event)
    requires e.Acquiring?
    ensures var m := Run(EMPTY, events);
      Next(m, e).granted == (if e.isLlm && InFlight(m, e) < e.maxConcurrent && AdmittedNow(m, e) < e.requestsPerMinute
                             then m.granted + [Index(m, e)] else m.granted)
    ensures var m := Run(EMPTY, events); var n := Next(m, e);
      n.granted != m.granted ==> Index(m, e) < |n.states| && LastLogged(n.states[Index(m, e)].history.book, e.now)
  {
    CountersTell(Run(EMPTY, events), e);
  }

  /** The last admission on record happened at that time, in the open window. */
  predicate LastLogged(b: Book, now: int)
  {
    b.log != [] && b.starts != [] && b.log[|b.log| - 1] == Admission(now, |b.starts| - 1)
  }

  /** An LLM acquire goes on with the state its alias has if and only if key and both limits are those of that state; otherwise a new
      one takes its place. */
  lemma StateKeptExactly(m: Model, e: Event)
    requires Good(m) && e.Acquiring? && e.isLlm && e.alias in m.at
    ensures var n, s := Next(m, e), m.states[m.at[e.alias]];
      (n.at[e.alias] == m.at[e.alias] <==>
         s.digest == e.digest && s.requestsPerMinute == e.requestsPerMinute && s.maxConcurrent == e.maxConcurrent)
      && (n.at[e.alias] != m.at[e.alias] ==> n.at[e.alias] == |m.states| && n.states[..|m.states|] == m.states)
  {
  }

  /** A route that allows anything serves its first request. */
  lemma FirstIsGranted(e: Event)
    requires e.Acquiring? && e.isLlm && e.maxConcurrent >= 1 && e.requestsPerMinute >= 1
    ensures |Next(EMPTY, e).granted| == 1
  {
    CountersTell(EMPTY, e);
  }

  /** Go's conversion of a quotient to int: towards zero. */
  function Truncated(value: int, unit: int): (q: int)
    requires unit > 0
    ensures value >= 0 ==> q * unit <= value < (q + 1) * unit
    ensures value < 0 ==> q <= 0
  {
    if value >= 0 then value / unit else -((-value) / unit)
  }

  /** Whoever comes back after Retry-After finds a new window. */
  lemma RetryOpensWindow(m: Model, e: Event, grant: Grant, now: int)
    requires Good(m) && e.Acquiring? && Answers(grant, m, e) && grant.RateLimit? && now >= e.later + grant.retryAfter * SECOND
    ensures var again := e.(now := now); OpenSince(Acquired(m, e), again).None? && AdmittedNow(Acquired(m, e), again) == 0
  {
    CountersTell(m, e);
    AcquiredGood(m, e);
    CountersTell(Acquired(m, e), e.(now := now));
  }

  class LimitState {
    const digest: string
    const requestsPerMinute: int
    const maxConcurrent: int
    var windowStarted: int
    var requests: nat
    var current: nat

    ghost predicate Is(limit: Limit)
      reads this
    {
      digest == limit.digest && requestsPerMinute == limit.requestsPerMinute && maxConcurrent == limit.maxConcurrent
      && Counters(windowStarted, requests, current) == limit.counters
    }

    constructor (e: Event)
      requires e.Acquiring?
      ensures Is(Created(e))
    {
      digest := e.digest;
      requestsPerMinute := e.requestsPerMinute;
      maxConcurrent := e.maxConcurrent;
      windowStarted, requests, current := e.now, 0, 0;
    }

    method Roll(now: int)
      modifies this
      ensures Counters(windowStarted, requests, current) == Rolled(old(Counters(windowStarted, requests, current)), now)
    {
      if now - windowStarted >= MINUTE { windowStarted, requests := now, 0; }
    }
  }

  /** The closure that acquireLLMRequest hands out; `index` is which grant it was. */
  class Release {
    const state: LimitState
    ghost const index: nat

    constructor (state: LimitState, ghost index: nat)
      ensures this.state == state && this.index == index
    {
      this.state := state;
      this.index := index;
    }

    method Call()
      modifies state
      ensures state.current == if old(state.current) > 0 then old(state.current) - 1 else 0
      ensures state.windowStarted == old(state.windowStarted) && state.requests == old(state.requests)
    {
      if state.current > 0 { state.current := state.current - 1; }
    }
  }

  class Limits {
    var limits: map<string, LimitState>
    /** The objects behind the states of the model. */
    ghost var objects: seq<LimitState>
    ghost var model: Model

    ghost predicate Valid()
      reads this, objects
    {
      Good(model) && Follows()
    }

    /** The objects have the values of the model. */
    ghost predicate Follows()
      reads this, objects
    {
      (forall alias :: alias in model.at ==> model.at[alias] < |model.states|)
      && |objects| == |model.states| && (forall i, j :: 0 <= i < j < |objects| ==> objects[i] != objects[j])
      && (forall k :: 0 <= k < |objects| ==> objects[k].Is(model.states[k]))
      && limits.Keys == model.at.Keys && forall alias :: alias in limits ==> limits[alias] == objects[model.at[alias]]
    }

    constructor ()
      ensures Valid() && model == EMPTY
    {
      limits, objects, model := map[], [], EMPTY;
    }

    /** The closure came from here. */
    ghost predicate Handed(release: Release)
      reads this
    {
      release.index < |model.granted| && model.granted[release.index] < |objects|
      && release.state == objects[model.granted[release.index]]
    }

    /** A matching state is kept; a changed key or policy puts a new one in its place and leaves the old one alone. */
    method StateFor(e: Event) returns (state: LimitState)
      requires Follows() && e.Acquiring?
      modifies this`limits, this`objects
      ensures limits == old(limits)[e.alias := state] && state.Is(Met(model, e))
      ensures if Known(model, e) then objects == old(objects) && state == objects[Index(model, e)]
              else fresh(state) && objects == old(objects) + [state]
    {
      if e.alias in limits {
        state := limits[e.alias];
        if state.digest == e.digest && state.requestsPerMinute == e.requestsPerMinute && state.maxConcurrent == e.maxConcurrent { return; }
      }
      state := new LimitState(e);
      limits := limits[e.alias := state];
      objects := objects + [state];
    }

    /** The checks under the lock, on the state found. */
    method TryAcquire(state: LimitState, e: Event, ghost m: Model) returns (grant: Grant)
      requires e.Acquiring? && e.isLlm && state.Is(Met(m, e)) && |Met(m, e).history.book.starts| >= 1
      modifies state
      ensures CountsAnswer(grant, m, e) && state.Is(Used(Met(m, e), e.now, Grants(m, e)))
      ensures grant.Granted? ==> fresh(grant.release) && grant.release.state == state && grant.release.index == |m.granted|
    {
      state.Roll(e.now);
      if state.current >= state.maxConcurrent { return ConcurrencyLimit; }
      if state.requests >= state.requestsPerMinute {
        var retryAfter := Truncated(state.windowStarted + MINUTE - e.later, SECOND) + 1;
        if retryAfter < 1 { retryAfter := 1; }
        return RateLimit(retryAfter);
      }
      state.requests := state.requests + 1;
      state.current := state.current + 1;
      var release := new Release(state, |m.granted|);
      grant := Granted(release);
    }

    /** acquireLLMRequest does one step of the model and touches no state but the one it finds. */
    method Acquire(e: Event) returns (grant: Grant)
      requires Valid() && e.Acquiring?
      modifies this, if Known(model, e) then {objects[Index(model, e)]} else {}
      ensures Valid() && model == Acquired(old(model), e) && Answers(grant, old(model), e)
      ensures old(objects) <= objects && forall k :: |old(objects)| <= k < |objects| ==> fresh(objects[k])
      ensures grant.Granted? ==> fresh(grant.release) && grant.release.index == |old(model.granted)| && Handed(grant.release)
      ensures old(model.granted) <= model.granted && |model.granted| == |old(model.granted)| + if grant.Granted? then 1 else 0
      ensures model.released == old(model.released)
    {
      AcquiredGood(model, e);
      CountersTell(model, e);
      if !e.isLlm { return Unlimited; }
      grant := AcquireLlm(e);
    }

    method AcquireLlm(e: Event) returns (grant: Grant)
      requires Follows() && e.Acquiring? && e.isLlm && |Met(model, e).history.book.starts| >= 1
      modifies this, if Known(model, e) then {objects[Index(model, e)]} else {}
      ensures Follows() && model == Acquired(old(model), e) && CountsAnswer(grant, old(model), e)
      ensures old(objects) <= objects && forall k :: |old(objects)| <= k < |objects| ==> fresh(objects[k])
      ensures grant.Granted? ==> fresh(grant.release) && grant.release.index == |old(model.granted)| && Handed(grant.release)
    {
      var state := StateFor(e);
      ghost var k := Index(model, e);
      grant := TryAcquire(state, e, model);
      Record(k, e.alias, Used(Met(model, e), e.now, Grants(model, e)), grant.Granted?, old(limits));
    }

    /** The model takes up the state that was changed or created. */
    ghost method Record(k: nat, alias: string, after: Limit, granted: bool, before: map<string, LimitState>)
      requires k <= |model.states| && |objects| == (if k == |model.states| then k + 1 else |model.states|)
      requires forall a :: a in model.at ==> model.at[a] < |model.states|
      requires forall i, j :: 0 <= i < j < |objects| ==> objects[i] != objects[j]
      requires objects[k].Is(after) && forall j :: 0 <= j < |objects| && j != k ==> objects[j].Is(model.states[j])
      requires before.Keys == model.at.Keys && limits == before[alias := objects[k]]
      requires forall a :: a in before ==> before[a] == objects[model.at[a]]
      modifies this`model
      ensures model == Recorded(old(model), k, alias, after, granted) && Follows()
    {
      model := Recorded(model, k, alias, after, granted);
    }

    /** A release at any later time, of the present state or of a replaced one, finds the count above zero and touches only its own
        state. */
    method Finish(release: Release)
      requires Valid() && Handed(release) && release.index !in model.released
      modifies this`model, release.state
      ensures Valid() && model == Released(old(model), release.index) && old(release.state.current) > 0
    {
      ReleasedGood(model, release.index);
      release.Call();
      model := Released(model, release.index);
    }
  }

  /** The clients hold one closure per grant, and know which they have called. */
  ghost predicate Held(l: Limits, granted: seq<Release>, released: set<nat>)
    reads l
  {
    |granted| == |l.model.granted| && released == l.model.released
    && forall i :: 0 <= i < |granted| ==> granted[i].index == i && l.Handed(granted[i])
  }

  method AcquireOne(l: Limits, e: Event, before: seq<Release>, ghost called: set<nat>) returns (granted: seq<Release>)
    requires l.Valid() && Held(l, before, called) && e.Acquiring?
    modifies l, l.objects
    ensures l.Valid() && l.model == Acquired(old(l.model), e) && Held(l, granted, called)
    ensures old(l.objects) <= l.objects && forall k :: |old(l.objects)| <= k < |l.objects| ==> fresh(l.objects[k])
  {
    var grant := l.Acquire(e);
    granted := if grant.Granted? then before + [grant.release] else before;
    forall i | 0 <= i < |granted| ensures granted[i].index == i && l.Handed(granted[i]) {
      if i < |before| { assert granted[i] == before[i]; }
    }
  }

  method ServeOne(l: Limits, e: Event, before: seq<Release>, called: set<nat>) returns (granted: seq<Release>, released: set<nat>)
    requires l.Valid() && Held(l, before, called)
    modifies l, l.objects
    ensures l.Valid() && l.model == Next(old(l.model), e) && Held(l, granted, released)
    ensures old(l.objects) <= l.objects && forall k :: |old(l.objects)| <= k < |l.objects| ==> fresh(l.objects[k])
  {
    granted, released := before, called;
    match e {
      case Acquiring(_, _, _, _, _, _, _) => granted := AcquireOne(l, e, before, called);
      case Releasing(index) =>
        if index < |granted| && index !in released {
          l.Finish(granted[index]);
          released := released + {index};
        }
    }
  }

  /** The objects follow the machine over every run. */
  method Serve(l: Limits, events: seq<Event>) returns (granted: seq<Release>, released: set<nat>)
    requires l.Valid() && l.model == EMPTY
    modifies l
    ensures l.Valid() && l.model == Run(EMPTY, events) && Held(l, granted, released)
  {
    granted, released := [], {};
    assert events[0..] == events;
    for i := 0 to |events|
      invariant l.Valid() && Held(l, granted, released) && forall k :: 0 <= k < |l.objects| ==> fresh(l.objects[k])
      invariant Run(l.model, events[i..]) == Run(EMPTY, events)
    {
      RunStep(l.model, events, i);
      granted, released := ServeOne(l, events[i], granted, released);
    }
  }

  lemma RunStep(m: Model, events: seq<Event>, i: nat)
    requires Good(m) && i < |events|
    ensures Good(Next(m, events[i])) && Run(m, events[i..]) == Run(Next(m, events[i]), events[i + 1..])
  {
    assert events[i..][1..] == events[i + 1..] && events[i..][0] == events[i];
    NextGood(m, events[i]);
  }
}
