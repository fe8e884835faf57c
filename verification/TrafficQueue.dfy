/**
 Everybody at a limiter at once: newcomers, waiters that poll again once their window
 has reopened, and the sweeps in between.
 */
module TrafficQueue {
  import opened Options
  import opened FiniteSets
  import opened TrafficControl

  /** A request inside `acquire`, asleep until `reopens`. */
  datatype Waiter = Waiter(partition: string, reopens: int)

  /** An admission, with the start of the window it was counted in. */
  datatype Permit = Permit(partition: string, time: int, started: int)

  /**
   The limiter, the requests waiting at it, and two histories: the start of the window each
   partition last admitted a newcomer in, and every admission so far.
   */
  datatype Crowd = Crowd(
    limiter: Limiter,
    clock: int,
    waiting: map<int, Waiter>,
    lastNewcomer: map<string, int>,
    log: seq<Permit>)

  /** One pass of `acquire`'s loop. */
  datatype Event =
    | Arrive(request: int, partition: string, now: int)
    | Poll(waiter: int, at: int)

  function TimeOf(e: Event): int {
    match e case Arrive(_, _, now) => now case Poll(_, at) => at
  }

  predicate Enabled(c: Crowd, e: Event)
  {
    && c.clock <= TimeOf(e)
    && match e
       case Arrive(request, _, _) => request !in c.waiting
       case Poll(waiter, at) => waiter in c.waiting && c.waiting[waiter].reopens <= at
  }

  function RequestOf(e: Event): int {
    match e case Arrive(request, _, _) => request case Poll(waiter, _) => waiter
  }

  function PartitionOf(c: Crowd, e: Event): string
    requires Enabled(c, e)
  {
    match e case Arrive(_, partition, _) => partition case Poll(waiter, _) => c.waiting[waiter].partition
  }

  function ArrivalOf(e: Event): Arrival {
    if e.Arrive? then New else Queued
  }

  function Answer(options: RateLimitOptions, c: Crowd, e: Event): Admission
    requires Enabled(c, e)
  {
    Admit(options, c.limiter, PartitionOf(c, e), TimeOf(e), ArrivalOf(e)).1
  }

  function Next(options: RateLimitOptions, c: Crowd, e: Event): Crowd
    requires Enabled(c, e)
  {
    var p, now := PartitionOf(c, e), TimeOf(e);
    var (limiter, answer) := Admit(options, c.limiter, p, now, ArrivalOf(e));
    var started := limiter.windows[p].started;
    match answer
    case Admitted =>
      Crowd(limiter, now, c.waiting - {RequestOf(e)},
            if e.Arrive? then c.lastNewcomer[p := started] else c.lastNewcomer,
            c.log + [Permit(p, now, started)])
    case Wait(reopens) =>
      c.(limiter := limiter, clock := now, waiting := c.waiting[RequestOf(e) := Waiter(p, reopens)])
    case Refused => c.(limiter := limiter, clock := now)
  }

  predicate Legal(options: RateLimitOptions, c: Crowd, events: seq<Event>)
    decreases |events|
  {
    events == [] || (Enabled(c, events[0]) && Legal(options, Next(options, c, events[0]), events[1..]))
  }

  function Run(options: RateLimitOptions, c: Crowd, events: seq<Event>): Crowd
    requires Legal(options, c, events)
    decreases |events|
  {
    if events == [] then c else Run(options, Next(options, c, events[0]), events[1..])
  }

  function Empty(clock: int): Crowd {
    Crowd(Limiter(map[], None), clock, map[], map[], [])
  }

  // ------------------------------------------------------------------
  // The invariant
  // ------------------------------------------------------------------

  function WaitingAt(waiting: map<int, Waiter>, p: string): set<int> {
    set w | w in waiting && waiting[w].partition == p
  }

  /** The waiters at `p` that may poll while the window that reopens at `reopens` is open. */
  function Entitled(waiting: map<int, Waiter>, p: string, reopens: int): set<int> {
    set w | w in waiting && waiting[w].partition == p && waiting[w].reopens < reopens
  }

  function QueuedAt(limiter: Limiter, p: string): nat {
    if p in limiter.windows then limiter.windows[p].queued else 0
  }

  /** `queued` counts the outstanding waiters, and the queue stays within its limit. */
  ghost predicate QueueCounts(options: RateLimitOptions, c: Crowd)
  {
    forall p :: QueuedAt(c.limiter, p) == |WaitingAt(c.waiting, p)| <= options.queueLimit
  }

  ghost predicate WindowsSound(options: RateLimitOptions, c: Crowd)
  {
    && (forall p :: p in c.limiter.windows ==> c.limiter.windows[p].started <= c.clock)
    && (forall w :: w in c.waiting && c.waiting[w].partition in c.limiter.windows ==>
          c.waiting[w].reopens <= c.limiter.windows[c.waiting[w].partition].started + options.window)
    && (forall p :: p in c.lastNewcomer ==>
          if p in c.limiter.windows then c.lastNewcomer[p] <= c.limiter.windows[p].started
          else c.lastNewcomer[p] + options.window <= c.clock)
  }

  /** A newcomer gets a permit only out of what the entitled waiters leave. */
  ghost predicate WaitersCovered(options: RateLimitOptions, c: Crowd)
  {
    forall p :: p in c.limiter.windows && p in c.lastNewcomer && c.lastNewcomer[p] == c.limiter.windows[p].started ==>
      var w := c.limiter.windows[p];
      w.used + |Entitled(c.waiting, p, w.started + options.window)| <= options.permitLimit
  }

  ghost predicate Sound(options: RateLimitOptions, c: Crowd)
  {
    QueueCounts(options, c) && WindowsSound(options, c) && WaitersCovered(options, c)
  }

  /** Taking a sweep out of a step: the crowd just before the decision. */
  function AfterSweep(options: RateLimitOptions, c: Crowd, now: int): Crowd {
    c.(limiter := SweptIfDue(options, c.limiter, now), clock := now)
  }

  lemma SweepKeepsSound(options: RateLimitOptions, c: Crowd, now: int)
    requires Sound(options, c) && c.clock <= now
    ensures Sound(options, AfterSweep(options, c, now))
  {
    var s := AfterSweep(options, c, now);
    forall p ensures QueuedAt(s.limiter, p) == QueuedAt(c.limiter, p) {
    }
    forall p | p in c.lastNewcomer
      ensures if p in s.limiter.windows then c.lastNewcomer[p] <= s.limiter.windows[p].started
              else c.lastNewcomer[p] + options.window <= now
    {
    }
  }

  /** Then the window as the decision finds it put in place. */
  function AfterRestart(options: RateLimitOptions, c: Crowd, p: string): Crowd {
    c.(limiter := c.limiter.(windows := c.limiter.windows[p := Current(options, c.limiter.windows, p, c.clock)]))
  }

  lemma RestartKeepsSound(options: RateLimitOptions, c: Crowd, p: string)
    requires options.window > 0 && Sound(options, c)
    ensures Sound(options, AfterRestart(options, c, p))
    ensures var w := AfterRestart(options, c, p).limiter.windows[p];
            w.started <= c.clock < w.started + options.window
  {
    var r := AfterRestart(options, c, p);
    forall q ensures QueuedAt(r.limiter, q) == QueuedAt(c.limiter, q) {
    }
    NobodyWaitsUnlisted(options, c);
  }

  lemma NobodyWaitsUnlisted(options: RateLimitOptions, c: Crowd)
    requires QueueCounts(options, c)
    ensures forall w :: w in c.waiting ==> c.waiting[w].partition in c.limiter.windows
  {
    forall w | w in c.waiting ensures c.waiting[w].partition in c.limiter.windows {
      var q := c.waiting[w].partition;
      assert w in WaitingAt(c.waiting, q);
      assert QueuedAt(c.limiter, q) == |WaitingAt(c.waiting, q)|;
    }
  }

  lemma DecisionInSteps(options: RateLimitOptions, c: Crowd, e: Event)
    requires Enabled(c, e)
    ensures var p := PartitionOf(c, e);
            var ready := AfterRestart(options, AfterSweep(options, c, TimeOf(e)), p);
            var decided := Decide(options, ready.limiter.windows[p], ArrivalOf(e));
            Answer(options, c, e) == decided.1
            && Next(options, c, e).limiter == ready.limiter.(windows := ready.limiter.windows[p := decided.0])
  {
  }

  /** One waiter leaves, joins, or is sent back to the end of the current window. */
  lemma WaitersChange(waiting: map<int, Waiter>, request: int, p: string, reopens: int, q: string, bound: int)
    ensures WaitingAt(waiting - {request}, q) == WaitingAt(waiting, q) - {request}
    ensures Entitled(waiting - {request}, q, bound) == Entitled(waiting, q, bound) - {request}
    ensures WaitingAt(waiting[request := Waiter(p, reopens)], q)
         == if q == p then WaitingAt(waiting, q) + {request} else WaitingAt(waiting, q) - {request}
    ensures Entitled(waiting[request := Waiter(p, reopens)], q, bound)
         == if q == p && reopens < bound then Entitled(waiting, q, bound) + {request}
            else Entitled(waiting, q, bound) - {request}
  {
  }

  /** What one decision does to the crowd that is ready for it. */
  ghost predicate Decided(
    options: RateLimitOptions, ready: Crowd, after: Crowd, request: int, p: string, arrival: Arrival)
  {
    && p in ready.limiter.windows
    && ready.limiter.windows[p].started <= ready.clock < ready.limiter.windows[p].started + options.window
    && var decided := Decide(options, ready.limiter.windows[p], arrival);
    && after.limiter.windows == ready.limiter.windows[p := decided.0]
    && after.clock == ready.clock
    && after.waiting == (match decided.1
                         case Wait(reopens) => ready.waiting[request := Waiter(p, reopens)]
                         case _ => ready.waiting - {request})
    && after.lastNewcomer == (if decided.1 == Admitted && arrival == New
                              then ready.lastNewcomer[p := decided.0.started] else ready.lastNewcomer)
  }

  ghost predicate Asks(ready: Crowd, request: int, p: string, arrival: Arrival)
  {
    match arrival
    case New => request !in ready.waiting
    case Queued =>
      request in ready.waiting && ready.waiting[request].partition == p
      && ready.waiting[request].reopens <= ready.clock
  }

  /** A decision leaves the other partitions' windows, waiters and newcomers alone. */
  lemma DecisionIsLocal(
    options: RateLimitOptions, ready: Crowd, after: Crowd, request: int,
    p: string, arrival: Arrival, q: string, bound: int)
    requires Decided(options, ready, after, request, p, arrival) && Asks(ready, request, p, arrival) && q != p
    ensures QueuedAt(after.limiter, q) == QueuedAt(ready.limiter, q)
    ensures WaitingAt(after.waiting, q) == WaitingAt(ready.waiting, q)
    ensures Entitled(after.waiting, q, bound) == Entitled(ready.waiting, q, bound)
  {
    WaitersChange(ready.waiting, request, p, ready.limiter.windows[p].started + options.window, q, bound);
  }

  lemma Joins(waiting: map<int, Waiter>, request: int, p: string, reopens: int)
    requires request !in waiting
    ensures var joined := waiting[request := Waiter(p, reopens)];
            |WaitingAt(joined, p)| == |WaitingAt(waiting, p)| + 1
            && Entitled(joined, p, reopens) == Entitled(waiting, p, reopens)
  {
    WaitersChange(waiting, request, p, reopens, p, reopens);
    assert request !in WaitingAt(waiting, p) && request !in Entitled(waiting, p, reopens);
  }

  lemma Leaves(waiting: map<int, Waiter>, request: int, p: string, bound: int)
    requires request in waiting && waiting[request].partition == p && waiting[request].reopens < bound
    ensures |WaitingAt(waiting - {request}, p)| == |WaitingAt(waiting, p)| - 1
    ensures |Entitled(waiting - {request}, p, bound)| == |Entitled(waiting, p, bound)| - 1
  {
    WaitersChange(waiting, request, p, 0, p, bound);
    assert request in WaitingAt(waiting, p) && request in Entitled(waiting, p, bound);
  }

  lemma WaitsAgain(waiting: map<int, Waiter>, request: int, p: string, reopens: int)
    requires request in waiting && waiting[request].partition == p && waiting[request].reopens < reopens
    ensures var back := waiting[request := Waiter(p, reopens)];
            WaitingAt(back, p) == WaitingAt(waiting, p)
            && |Entitled(back, p, reopens)| == |Entitled(waiting, p, reopens)| - 1
  {
    WaitersChange(waiting, request, p, reopens, p, reopens);
    assert request in WaitingAt(waiting, p) && request in Entitled(waiting, p, reopens);
  }

  /**
   At its own partition a request that waits is one more waiter, one that is let in one fewer, and a
   waiter that polls uses up its place among the entitled, whatever the answer.
   */
  lemma DecisionMovesOne(
    options: RateLimitOptions, ready: Crowd, after: Crowd, request: int, p: string, arrival: Arrival)
    requires Decided(options, ready, after, request, p, arrival) && Asks(ready, request, p, arrival)
    ensures var bound := ready.limiter.windows[p].started + options.window;
            var answer := Decide(options, ready.limiter.windows[p], arrival).1;
            && |WaitingAt(after.waiting, p)| == |WaitingAt(ready.waiting, p)|
                 + (if answer.Wait? && arrival == New then 1
                     else if answer == Admitted && arrival == Queued then -1 else 0)
            && |Entitled(after.waiting, p, bound)|
               == |Entitled(ready.waiting, p, bound)| - (if arrival == Queued then 1 else 0)
  {
    var bound := ready.limiter.windows[p].started + options.window;
    var answer := Decide(options, ready.limiter.windows[p], arrival).1;
    if arrival == New {
      if answer.Wait? {
        Joins(ready.waiting, request, p, bound);
      } else {
        assert after.waiting == ready.waiting;
      }
    } else if answer.Wait? {
      WaitsAgain(ready.waiting, request, p, bound);
    } else {
      Leaves(ready.waiting, request, p, bound);
    }
  }

  lemma DecisionKeepsCount(
    options: RateLimitOptions, ready: Crowd, after: Crowd, request: int, p: string, arrival: Arrival, q: string)
    requires QueueCounts(options, ready) && Decided(options, ready, after, request, p, arrival)
    requires Asks(ready, request, p, arrival)
    ensures QueuedAt(after.limiter, q) == |WaitingAt(after.waiting, q)| <= options.queueLimit
  {
    assert QueuedAt(ready.limiter, q) == |WaitingAt(ready.waiting, q)|;
    if q != p {
      DecisionIsLocal(options, ready, after, request, p, arrival, q, 0);
    } else {
      DecisionMovesOne(options, ready, after, request, p, arrival);
      assert arrival == Queued ==> request in WaitingAt(ready.waiting, p);
    }
  }

  lemma DecisionKeepsCover(
    options: RateLimitOptions, ready: Crowd, after: Crowd, request: int, p: string, arrival: Arrival, q: string)
    requires Sound(options, ready) && Decided(options, ready, after, request, p, arrival)
    requires Asks(ready, request, p, arrival) && q in after.limiter.windows
    requires q in after.lastNewcomer && after.lastNewcomer[q] == after.limiter.windows[q].started
    ensures var v := after.limiter.windows[q];
            v.used + |Entitled(after.waiting, q, v.started + options.window)| <= options.permitLimit
  {
    var bound := ready.limiter.windows[q].started + options.window;
    if q != p {
      DecisionIsLocal(options, ready, after, request, p, arrival, q, bound);
    } else {
      DecisionMovesOne(options, ready, after, request, p, arrival);
      assert QueuedAt(ready.limiter, p) == |WaitingAt(ready.waiting, p)|;
      SubsetSize(Entitled(ready.waiting, p, bound), WaitingAt(ready.waiting, p));
    }
  }

  lemma DecisionKeepsSound(
    options: RateLimitOptions, ready: Crowd, after: Crowd, request: int, p: string, arrival: Arrival)
    requires Sound(options, ready) && Decided(options, ready, after, request, p, arrival)
    requires Asks(ready, request, p, arrival)
    ensures Sound(options, after)
  {
    forall q ensures QueuedAt(after.limiter, q) == |WaitingAt(after.waiting, q)| <= options.queueLimit {
      DecisionKeepsCount(options, ready, after, request, p, arrival, q);
    }
    forall q | q in after.limiter.windows && q in after.lastNewcomer
               && after.lastNewcomer[q] == after.limiter.windows[q].started
      ensures var v := after.limiter.windows[q];
              v.used + |Entitled(after.waiting, q, v.started + options.window)| <= options.permitLimit
    {
      DecisionKeepsCover(options, ready, after, request, p, arrival, q);
    }
  }

  lemma SoundKept(options: RateLimitOptions, c: Crowd, e: Event)
    requires options.window > 0 && Sound(options, c) && Enabled(c, e)
    ensures Sound(options, Next(options, c, e))
  {
    var p := PartitionOf(c, e);
    var swept := AfterSweep(options, c, TimeOf(e));
    SweepKeepsSound(options, c, TimeOf(e));
    RestartKeepsSound(options, swept, p);
    DecisionInSteps(options, c, e);
    DecisionKeepsSound(options, AfterRestart(options, swept, p), Next(options, c, e), RequestOf(e), p, ArrivalOf(e));
  }

  lemma EmptyIsSound(options: RateLimitOptions, clock: int)
    ensures Sound(options, Empty(clock))
  {
    assert forall p :: WaitingAt(map[], p) == {};
  }

  /**
   Over every run: `queued` is the number of outstanding waiters and stays within `queueLimit`.
   */
  lemma {:induction false} SoundAlways(options: RateLimitOptions, c: Crowd, events: seq<Event>)
    requires options.window > 0 && Sound(options, c) && Legal(options, c, events)
    ensures Sound(options, Run(options, c, events))
    decreases |events|
  {
    if events != [] {
      SoundKept(options, c, events[0]);
      SoundAlways(options, Next(options, c, events[0]), events[1..]);
    }
  }

  /**
   Waiters first: a waiter that polls in a window in which its partition has admitted a newcomer
   is admitted, never sent back.
   */
  lemma WaitersGoFirst(options: RateLimitOptions, c: Crowd, waiter: int, now: int)
    requires options.window > 0 && Sound(options, c) && Enabled(c, Poll(waiter, now))
    requires var p := c.waiting[waiter].partition;
             p in c.lastNewcomer
             && c.lastNewcomer[p] == Next(options, c, Poll(waiter, now)).limiter.windows[p].started
    ensures Answer(options, c, Poll(waiter, now)) == Admitted
  {
    var e := Poll(waiter, now);
    var p := PartitionOf(c, e);
    var swept := AfterSweep(options, c, now);
    SweepKeepsSound(options, c, now);
    RestartKeepsSound(options, swept, p);
    DecisionInSteps(options, c, e);
    var since := AfterRestart(options, swept, p).limiter.windows[p].started;
    assert waiter in Entitled(c.waiting, p, since + options.window);
  }

  /** The same from a limiter nobody has used, over every run. */
  lemma NobodyOvertakesAWaiter(options: RateLimitOptions, clock: int, events: seq<Event>, waiter: int, now: int)
    requires options.window > 0 && Legal(options, Empty(clock), events)
    ensures var c := Run(options, Empty(clock), events);
            && QueueCounts(options, c)
            && (Enabled(c, Poll(waiter, now))
                && c.waiting[waiter].partition in c.lastNewcomer
                && c.lastNewcomer[c.waiting[waiter].partition]
                   == Next(options, c, Poll(waiter, now)).limiter.windows[c.waiting[waiter].partition].started
                ==> Answer(options, c, Poll(waiter, now)) == Admitted)
  {
    EmptyIsSound(options, clock);
    SoundAlways(options, Empty(clock), events);
    var c := Run(options, Empty(clock), events);
    if Enabled(c, Poll(waiter, now)) {
      var p := c.waiting[waiter].partition;
      if p in c.lastNewcomer && c.lastNewcomer[p] == Next(options, c, Poll(waiter, now)).limiter.windows[p].started {
        WaitersGoFirst(options, c, waiter, now);
      }
    }
  }
}
