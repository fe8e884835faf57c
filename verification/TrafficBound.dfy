/** How many requests a partition can get through in one window length, wherever it begins. */
module TrafficBound {
  import opened TrafficControl
  import opened TrafficQueue

  function Matching(log: seq<Permit>, f: Permit -> bool): nat {
    if log == [] then 0 else Matching(log[..|log| - 1], f) + (if f(log[|log| - 1]) then 1 else 0)
  }

  function InWindow(p: string, started: int): Permit -> bool {
    (x: Permit) => x.partition == p && x.started == started
  }

  /** The admissions of `p` in `[from, from + length)`. */
  function Within(p: string, from: int, length: nat): Permit -> bool {
    (x: Permit) => x.partition == p && from <= x.time < from + length
  }

  /** Two window starts of one partition are equal or at least a window length apart. */
  predicate Apart(window: nat, earlier: int, later: int) {
    earlier == later || earlier + window <= later
  }

  ghost predicate LogSound(options: RateLimitOptions, c: Crowd)
  {
    && (forall i :: 0 <= i < |c.log| ==> c.log[i].started <= c.log[i].time < c.log[i].started + options.window)
    && (forall i, j :: 0 <= i < j < |c.log| && c.log[i].partition == c.log[j].partition ==>
          Apart(options.window, c.log[i].started, c.log[j].started))
    && (forall i :: 0 <= i < |c.log| ==>
          if c.log[i].partition in c.limiter.windows
          then Apart(options.window, c.log[i].started, c.limiter.windows[c.log[i].partition].started)
          else c.log[i].started + options.window <= c.clock)
    && (forall p :: p in c.limiter.windows ==> c.limiter.windows[p].started <= c.clock)
  }

  /** `used` is the number of admissions its window has given, and no window gives more than the limit. */
  ghost predicate UseCounted(options: RateLimitOptions, c: Crowd)
  {
    && (forall p :: p in c.limiter.windows ==>
          c.limiter.windows[p].used == Matching(c.log, InWindow(p, c.limiter.windows[p].started)))
    && (forall p, started :: Matching(c.log, InWindow(p, started)) <= options.permitLimit)
  }

  ghost predicate Bounded(options: RateLimitOptions, c: Crowd) {
    LogSound(options, c) && UseCounted(options, c)
  }

  lemma {:induction false} NoneMatching(log: seq<Permit>, f: Permit -> bool)
    requires forall i :: 0 <= i < |log| ==> !f(log[i])
    ensures Matching(log, f) == 0
  {
    if log != [] {
      NoneMatching(log[..|log| - 1], f);
    }
  }

  lemma SweepKeepsBounded(options: RateLimitOptions, c: Crowd, now: int)
    requires Bounded(options, c) && c.clock <= now
    ensures Bounded(options, AfterSweep(options, c, now))
  {
  }

  lemma RestartKeepsBounded(options: RateLimitOptions, c: Crowd, p: string)
    requires options.window > 0 && Bounded(options, c)
    ensures Bounded(options, AfterRestart(options, c, p))
    ensures var w := AfterRestart(options, c, p).limiter.windows[p];
            w.started <= c.clock < w.started + options.window
  {
    var r := AfterRestart(options, c, p);
    if r.limiter.windows[p].started == c.clock {
      if p in c.limiter.windows && c.limiter.windows[p].started == c.clock {
      } else {
        NoneMatching(c.log, InWindow(p, c.clock));
      }
    }
  }

  lemma MatchingOneMore(log: seq<Permit>, x: Permit, f: Permit -> bool)
    ensures Matching(log + [x], f) == Matching(log, f) + (if f(x) then 1 else 0)
  {
    assert (log + [x])[..|log|] == log;
  }

  /** An admission counted in the open window of its partition. */
  lemma PermitKeepsBounded(options: RateLimitOptions, c: Crowd, after: Crowd, p: string)
    requires Bounded(options, c) && p in c.limiter.windows && c.limiter.windows[p].used < options.permitLimit
    requires c.limiter.windows[p].started <= c.clock < c.limiter.windows[p].started + options.window
    requires p in after.limiter.windows
    requires after.limiter.windows[p].started == c.limiter.windows[p].started
    requires after.limiter.windows[p].used == c.limiter.windows[p].used + 1
    requires after.limiter.windows == c.limiter.windows[p := after.limiter.windows[p]] && after.clock == c.clock
    requires after.log == c.log + [Permit(p, c.clock, c.limiter.windows[p].started)]
    ensures Bounded(options, after)
  {
    var x := after.log[|c.log|];
    forall q, started ensures Matching(after.log, InWindow(q, started))
                           == Matching(c.log, InWindow(q, started)) + (if q == p && started == x.started then 1 else 0)
    {
      MatchingOneMore(c.log, x, InWindow(q, started));
    }
    assert LogSound(options, after);
  }

  lemma BoundedKept(options: RateLimitOptions, c: Crowd, e: Event)
    requires options.window > 0 && Bounded(options, c) && Enabled(c, e)
    ensures Bounded(options, Next(options, c, e))
  {
    var p := PartitionOf(c, e);
    var swept := AfterSweep(options, c, TimeOf(e));
    SweepKeepsBounded(options, c, TimeOf(e));
    RestartKeepsBounded(options, swept, p);
    DecisionInSteps(options, c, e);
    var ready := AfterRestart(options, swept, p);
    var after := Next(options, c, e);
    if Answer(options, c, e) == Admitted {
      PermitKeepsBounded(options, ready, after, p);
    } else {
      WaitKeepsBounded(options, ready, after, p);
    }
  }

  lemma WaitKeepsBounded(options: RateLimitOptions, c: Crowd, after: Crowd, p: string)
    requires Bounded(options, c) && p in c.limiter.windows && p in after.limiter.windows
    requires after.limiter.windows[p].started == c.limiter.windows[p].started
    requires after.limiter.windows[p].used == c.limiter.windows[p].used
    requires after.limiter.windows == c.limiter.windows[p := after.limiter.windows[p]] && after.clock == c.clock
    requires after.log == c.log
    ensures Bounded(options, after)
  {
  }

  lemma {:induction false} BoundedAlways(options: RateLimitOptions, c: Crowd, events: seq<Event>)
    requires options.window > 0 && Bounded(options, c) && Legal(options, c, events)
    ensures Bounded(options, Run(options, c, events))
    decreases |events|
  {
    if events != [] {
      BoundedKept(options, c, events[0]);
      BoundedAlways(options, Next(options, c, events[0]), events[1..]);
    }
  }

  lemma {:induction false} MatchingEither(log: seq<Permit>, f: Permit -> bool, g: Permit -> bool, h: Permit -> bool)
    requires forall i :: 0 <= i < |log| && f(log[i]) ==> g(log[i]) || h(log[i])
    ensures Matching(log, f) <= Matching(log, g) + Matching(log, h)
  {
    if log != [] {
      MatchingEither(log[..|log| - 1], f, g, h);
    }
  }

  /** Half-open intervals of one window length meet at most two windows of a partition. */
  lemma AtMostTwoWindows(options: RateLimitOptions, c: Crowd, p: string, from: int)
    returns (first: int, second: int)
    requires LogSound(options, c)
    ensures forall i :: 0 <= i < |c.log| && Within(p, from, options.window)(c.log[i]) ==>
              c.log[i].started == first || c.log[i].started == second
  {
    first, second := from, from;
    if i :| 0 <= i < |c.log| && Within(p, from, options.window)(c.log[i]) {
      first, second := c.log[i].started, c.log[i].started;
      if j :| 0 <= j < |c.log| && Within(p, from, options.window)(c.log[j]) && c.log[j].started != first {
        second := c.log[j].started;
      }
    }
  }

  /**
   From a limiter nobody has used, over every run: no more than twice `permitLimit` admissions
   of one partition fall into any half-open interval of one window length.
   */
  lemma AtMostTwiceTheLimit(options: RateLimitOptions, clock: int, events: seq<Event>, p: string, from: int)
    requires options.window > 0 && Legal(options, Empty(clock), events)
    ensures Matching(Run(options, Empty(clock), events).log, Within(p, from, options.window)) <= 2 * options.permitLimit
  {
    BoundedAlways(options, Empty(clock), events);
    var c := Run(options, Empty(clock), events);
    var first, second := AtMostTwoWindows(options, c, p, from);
    MatchingEither(c.log, Within(p, from, options.window), InWindow(p, first), InWindow(p, second));
  }
}
