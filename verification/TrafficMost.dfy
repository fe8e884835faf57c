/** The most a partition can get through in one window length, for every policy. */
module TrafficMost {
  import opened TrafficControl
  import opened TrafficQueue
  import opened TrafficBound

  /** The most admissions of one partition that any half-open interval of one window length can hold. */
  function TheMost(options: RateLimitOptions): nat {
    if options.window <= 1 || options.permitLimit == 0 then options.permitLimit
    else if options.queueLimit < options.permitLimit then 2 * options.permitLimit - 1
    else 2 * options.permitLimit
  }

  // ------------------------------------------------------------------
  // With less queue than permits, a window opens with an admission
  // ------------------------------------------------------------------

  ghost predicate OpensAt(log: seq<Permit>, p: string, started: int) {
    exists i :: 0 <= i < |log| && log[i] == Permit(p, started, started)
  }

  ghost predicate AllOpened(c: Crowd)
  {
    && (forall p :: p in c.limiter.windows ==> OpensAt(c.log, p, c.limiter.windows[p].started))
    && (forall i :: 0 <= i < |c.log| ==> OpensAt(c.log, c.log[i].partition, c.log[i].started))
  }

  lemma OpensAtStays(log: seq<Permit>, x: Permit, p: string, started: int)
    requires OpensAt(log, p, started)
    ensures OpensAt(log + [x], p, started)
  {
    var i :| 0 <= i < |log| && log[i] == Permit(p, started, started);
    assert (log + [x])[i] == Permit(p, started, started);
  }

  /** The request that starts a window is let in: at most `queueLimit` waiters are ahead of it. */
  lemma OpenerIsAdmitted(options: RateLimitOptions, c: Crowd, e: Event)
    requires options.window > 0 && options.queueLimit < options.permitLimit && Sound(options, c) && Enabled(c, e)
    ensures var p := PartitionOf(c, e);
            var started := Next(options, c, e).limiter.windows[p].started;
            (p in c.limiter.windows && started == c.limiter.windows[p].started)
            || (started == TimeOf(e) && Answer(options, c, e) == Admitted)
  {
    var p := PartitionOf(c, e);
    var swept := AfterSweep(options, c, TimeOf(e));
    SweepKeepsSound(options, c, TimeOf(e));
    RestartKeepsSound(options, swept, p);
    DecisionInSteps(options, c, e);
    var ready := AfterRestart(options, swept, p);
    assert QueuedAt(ready.limiter, p) <= options.queueLimit;
  }

  /** An admission at `now`, in a window that was open or that it opens. */
  lemma PermitKeepsOpened(log: seq<Permit>, x: Permit)
    requires forall i :: 0 <= i < |log| ==> OpensAt(log, log[i].partition, log[i].started)
    requires x.started == x.time || OpensAt(log, x.partition, x.started)
    ensures var after := log + [x];
            && (forall i :: 0 <= i < |after| ==> OpensAt(after, after[i].partition, after[i].started))
            && (forall q, s :: OpensAt(log, q, s) ==> OpensAt(after, q, s))
  {
    var after := log + [x];
    forall q, s | OpensAt(log, q, s) ensures OpensAt(after, q, s) {
      OpensAtStays(log, x, q, s);
    }
    assert after[|log|] == x;
    forall i | 0 <= i < |after| ensures OpensAt(after, after[i].partition, after[i].started) {
      if i < |log| {
        assert after[i] == log[i];
      }
    }
  }

  lemma AllOpenedKept(options: RateLimitOptions, c: Crowd, e: Event)
    requires options.window > 0 && options.queueLimit < options.permitLimit && Sound(options, c) && Enabled(c, e)
    requires AllOpened(c)
    ensures AllOpened(Next(options, c, e))
  {
    var p, after := PartitionOf(c, e), Next(options, c, e);
    var started := after.limiter.windows[p].started;
    OpenerIsAdmitted(options, c, e);
    OtherWindowsStay(options, c, e);
    if Answer(options, c, e) == Admitted {
      PermitKeepsOpened(c.log, Permit(p, TimeOf(e), started));
      assert after.log[|c.log|] == Permit(p, TimeOf(e), started);
      assert OpensAt(after.log, p, started);
    }
  }

  lemma OtherWindowsStay(options: RateLimitOptions, c: Crowd, e: Event)
    requires Enabled(c, e)
    ensures var p, after := PartitionOf(c, e), Next(options, c, e);
            && (forall q :: q in after.limiter.windows && q != p ==>
                  q in c.limiter.windows && after.limiter.windows[q] == c.limiter.windows[q])
            && p in after.limiter.windows
            && after.log == (if Answer(options, c, e) == Admitted
                             then c.log + [Permit(p, TimeOf(e), after.limiter.windows[p].started)] else c.log)
  {
  }

  lemma {:induction false} AllOpenedAlways(options: RateLimitOptions, c: Crowd, events: seq<Event>)
    requires options.window > 0 && options.queueLimit < options.permitLimit && Sound(options, c) && AllOpened(c)
    requires Legal(options, c, events)
    ensures AllOpened(Run(options, c, events))
    decreases |events|
  {
    if events != [] {
      SoundKept(options, c, events[0]);
      AllOpenedKept(options, c, events[0]);
      AllOpenedAlways(options, Next(options, c, events[0]), events[1..]);
    }
  }

  // ------------------------------------------------------------------
  // No interval holds more
  // ------------------------------------------------------------------

  /** An admission outside the interval leaves one fewer of its window inside. */
  lemma {:induction false} OneOutside(log: seq<Permit>, f: Permit -> bool, g: Permit -> bool, i: int)
    requires 0 <= i < |log| && g(log[i]) && !f(log[i])
    requires forall k :: 0 <= k < |log| && f(log[k]) ==> g(log[k])
    ensures Matching(log, f) < Matching(log, g)
  {
    var n := |log| - 1;
    if i < n {
      OneOutside(log[..n], f, g, i);
    } else {
      MatchingEither(log[..n], f, g, (_: Permit) => false);
      NoneMatching(log[..n], (_: Permit) => false);
    }
  }

  function Both(f: Permit -> bool, g: Permit -> bool): Permit -> bool {
    (x: Permit) => f(x) && g(x)
  }

  /** Where two windows of a partition both reach into the interval, the earlier one began before it. */
  lemma EarlierBeganBefore(options: RateLimitOptions, c: Crowd, p: string, from: int, i: int, j: int)
    requires LogSound(options, c) && 0 <= i < |c.log| && 0 <= j < |c.log|
    requires Within(p, from, options.window)(c.log[i]) && Within(p, from, options.window)(c.log[j])
    requires c.log[i].started < c.log[j].started
    ensures c.log[i].started < from
  {
    assert i < j ==> Apart(options.window, c.log[i].started, c.log[j].started);
    assert j < i ==> Apart(options.window, c.log[j].started, c.log[i].started);
  }

  lemma OneWindowOnly(options: RateLimitOptions, c: Crowd, p: string, from: int, started: int)
    requires UseCounted(options, c)
    requires forall i :: 0 <= i < |c.log| && Within(p, from, options.window)(c.log[i]) ==> c.log[i].started == started
    ensures Matching(c.log, Within(p, from, options.window)) <= options.permitLimit
  {
    SubsetMatches(c.log, Within(p, from, options.window), InWindow(p, started));
  }

  lemma {:induction false} SubsetMatches(log: seq<Permit>, f: Permit -> bool, g: Permit -> bool)
    requires forall i :: 0 <= i < |log| && f(log[i]) ==> g(log[i])
    ensures Matching(log, f) <= Matching(log, g)
  {
    if log != [] {
      SubsetMatches(log[..|log| - 1], f, g);
    }
  }

  lemma TwoWindowsShort(options: RateLimitOptions, c: Crowd, p: string, from: int, earlier: int, later: int, i: int)
    requires LogSound(options, c) && UseCounted(options, c) && AllOpened(c) && earlier < from
    requires 0 <= i < |c.log| && c.log[i].partition == p && c.log[i].started == earlier
    requires forall k :: 0 <= k < |c.log| && Within(p, from, options.window)(c.log[k]) ==>
               c.log[k].started == earlier || c.log[k].started == later
    ensures Matching(c.log, Within(p, from, options.window)) < 2 * options.permitLimit
  {
    var inside := Within(p, from, options.window);
    var early := Both(inside, InWindow(p, earlier));
    assert OpensAt(c.log, p, earlier);
    var opener :| 0 <= opener < |c.log| && c.log[opener] == Permit(p, earlier, earlier);
    OneOutside(c.log, early, InWindow(p, earlier), opener);
    MatchingEither(c.log, inside, early, InWindow(p, later));
    assert Matching(c.log, InWindow(p, earlier)) <= options.permitLimit;
    assert Matching(c.log, InWindow(p, later)) <= options.permitLimit;
  }

  /** With less queue than permits, never twice the limit. */
  lemma LessThanTwice(options: RateLimitOptions, c: Crowd, p: string, from: int)
    requires options.queueLimit < options.permitLimit && Bounded(options, c) && AllOpened(c)
    ensures Matching(c.log, Within(p, from, options.window)) < 2 * options.permitLimit
  {
    var first, second := AtMostTwoWindows(options, c, p, from);
    var inside := Within(p, from, options.window);
    if i, j :| 0 <= i < |c.log| && 0 <= j < |c.log| && inside(c.log[i]) && inside(c.log[j])
               && c.log[i].started < c.log[j].started
    {
      EarlierBeganBefore(options, c, p, from, i, j);
      TwoWindowsShort(options, c, p, from, c.log[i].started, c.log[j].started, i);
    } else if i :| 0 <= i < |c.log| && inside(c.log[i]) {
      OneWindowOnly(options, c, p, from, c.log[i].started);
    } else {
      OneWindowOnly(options, c, p, from, from);
    }
  }

  /** An interval as long as one instant meets one window. */
  lemma OneInstant(options: RateLimitOptions, c: Crowd, p: string, from: int)
    requires options.window == 1 && Bounded(options, c)
    ensures Matching(c.log, Within(p, from, options.window)) <= options.permitLimit
  {
    OneWindowOnly(options, c, p, from, from);
  }

  lemma NeverMoreThanTheMost(options: RateLimitOptions, clock: int, events: seq<Event>, p: string, from: int)
    requires options.window > 0 && Legal(options, Empty(clock), events)
    ensures Matching(Run(options, Empty(clock), events).log, Within(p, from, options.window)) <= TheMost(options)
  {
    BoundedAlways(options, Empty(clock), events);
    var c := Run(options, Empty(clock), events);
    AtMostTwiceTheLimit(options, clock, events, p, from);
    if options.window == 1 {
      OneInstant(options, c, p, from);
    } else if options.queueLimit < options.permitLimit {
      EmptyIsSound(options, clock);
      AllOpenedAlways(options, Empty(clock), events);
      LessThanTwice(options, c, p, from);
    }
  }
}
