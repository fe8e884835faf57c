/** For every policy, a run that gets as many requests through in one window length as any can. */
module TrafficReach {
  import opened TrafficControl
  import opened TrafficQueue
  import opened TrafficBound
  import opened TrafficMost

  const P: string := "p"

  // ------------------------------------------------------------------
  // One partition, step by step
  // ------------------------------------------------------------------

  /** The window the partition's next decision finds. */
  function Finds(options: RateLimitOptions, c: Crowd, now: int): Window {
    Current(options, c.limiter.windows, P, now)
  }

  /** Its open window at `now`, and its waiters: `lo` up to `hi`, all of them until `reopens`. */
  ghost predicate Sees(options: RateLimitOptions, c: Crowd, now: int, w: Window, lo: int, hi: int, reopens: int)
  {
    && c.clock <= now && Finds(options, c, now) == w
    && w.started <= now < w.started + options.window && w.queued == hi - lo
    && (forall k :: k in c.waiting <==> lo <= k < hi)
    && (forall k :: k in c.waiting ==> c.waiting[k] == Waiter(P, reopens))
  }

  ghost predicate Stored(c: Crowd, w: Window) {
    P in c.limiter.windows && c.limiter.windows[P] == w
  }

  /** A step decides on the window found, stores it, and logs an admission. */
  lemma StepDecides(options: RateLimitOptions, c: Crowd, e: Event)
    requires Enabled(c, e) && PartitionOf(c, e) == P
    ensures var (w, answer) := Decide(options, Finds(options, c, TimeOf(e)), ArrivalOf(e));
            && Answer(options, c, e) == answer && Stored(Next(options, c, e), w)
            && Next(options, c, e).log
               == (if answer == Admitted then c.log + [Permit(P, TimeOf(e), w.started)] else c.log)
  {
  }

  function Many(x: Permit, n: nat): seq<Permit> {
    seq(n, _ => x)
  }

  lemma OneMore(x: Permit, n: nat)
    requires n > 0
    ensures [x] + Many(x, n - 1) == Many(x, n)
  {
  }

  lemma StepThenRun(options: RateLimitOptions, c: Crowd, e: Event, rest: seq<Event>)
    requires Enabled(c, e) && Legal(options, Next(options, c, e), rest)
    ensures Legal(options, c, [e] + rest)
    ensures Run(options, c, [e] + rest) == Run(options, Next(options, c, e), rest)
  {
    assert ([e] + rest)[1..] == rest;
  }

  lemma {:induction false} RunThenRun(options: RateLimitOptions, c: Crowd, a: seq<Event>, b: seq<Event>)
    requires Legal(options, c, a) && Legal(options, Run(options, c, a), b)
    ensures Legal(options, c, a + b) && Run(options, c, a + b) == Run(options, Run(options, c, a), b)
    decreases |a|
  {
    if a == [] {
      assert a + b == b;
    } else {
      assert (a + b)[1..] == a[1..] + b;
      RunThenRun(options, Next(options, c, a[0]), a[1..], b);
    }
  }

  // ------------------------------------------------------------------
  // Many steps of a kind
  // ------------------------------------------------------------------

  lemma OneAdmitted(options: RateLimitOptions, c: Crowd, now: int, w: Window, lo: int, hi: int, reopens: int)
    requires Sees(options, c, now, w, lo, hi, reopens) && w.used + w.queued < options.permitLimit
    ensures var e := Arrive(hi, P, now);
            && Enabled(c, e) && Sees(options, Next(options, c, e), now, w.(used := w.used + 1), lo, hi, reopens)
            && Stored(Next(options, c, e), w.(used := w.used + 1))
            && Next(options, c, e).log == c.log + [Permit(P, now, w.started)]
  {
    StepDecides(options, c, Arrive(hi, P, now));
  }

  /** Newcomers that find room for all of them and all of the waiters. */
  lemma {:induction false} ManyAdmitted(
    options: RateLimitOptions, c: Crowd, now: int, w: Window, lo: int, hi: int, reopens: int, n: nat)
    returns (events: seq<Event>)
    requires Sees(options, c, now, w, lo, hi, reopens) && w.used + w.queued + n <= options.permitLimit
    ensures Legal(options, c, events)
    ensures var d := Run(options, c, events);
            && Sees(options, d, now, w.(used := w.used + n), lo, hi, reopens)
            && (n > 0 || Stored(c, w) ==> Stored(d, w.(used := w.used + n)))
            && d.log == c.log + Many(Permit(P, now, w.started), n)
    decreases n
  {
    events := [];
    if n > 0 {
      var e := Arrive(hi, P, now);
      OneAdmitted(options, c, now, w, lo, hi, reopens);
      var rest := ManyAdmitted(options, Next(options, c, e), now, w.(used := w.used + 1), lo, hi, reopens, n - 1);
      StepThenRun(options, c, e, rest);
      OneMore(Permit(P, now, w.started), n);
      events := [e] + rest;
    }
  }

  lemma OneJoins(options: RateLimitOptions, c: Crowd, now: int, w: Window, lo: int, hi: int)
    requires Sees(options, c, now, w, lo, hi, w.started + options.window)
    requires w.used + w.queued >= options.permitLimit && w.queued < options.queueLimit
    ensures var e := Arrive(hi, P, now);
            && Enabled(c, e)
            && Sees(options, Next(options, c, e), now, w.(queued := w.queued + 1), lo, hi + 1,
                    w.started + options.window)
            && Stored(Next(options, c, e), w.(queued := w.queued + 1)) && Next(options, c, e).log == c.log
  {
    StepDecides(options, c, Arrive(hi, P, now));
  }

  /** Newcomers to a full window, with room for them in the queue. */
  lemma {:induction false} ManyJoin(options: RateLimitOptions, c: Crowd, now: int, w: Window, lo: int, hi: int, n: nat)
    returns (events: seq<Event>)
    requires Sees(options, c, now, w, lo, hi, w.started + options.window)
    requires w.used >= options.permitLimit && w.queued + n <= options.queueLimit
    ensures Legal(options, c, events)
    ensures var d := Run(options, c, events);
            && Sees(options, d, now, w.(queued := w.queued + n), lo, hi + n, w.started + options.window)
            && (n > 0 || Stored(c, w) ==> Stored(d, w.(queued := w.queued + n)))
            && d.log == c.log
    decreases n
  {
    events := [];
    if n > 0 {
      var e := Arrive(hi, P, now);
      OneJoins(options, c, now, w, lo, hi);
      var rest := ManyJoin(options, Next(options, c, e), now, w.(queued := w.queued + 1), lo, hi + 1, n - 1);
      StepThenRun(options, c, e, rest);
      events := [e] + rest;
    }
  }

  lemma OnePolls(options: RateLimitOptions, c: Crowd, now: int, w: Window, lo: int, hi: int, reopens: int)
    requires Sees(options, c, now, w, lo, hi, reopens) && lo < hi && reopens <= now && w.used < options.permitLimit
    ensures var e := Poll(lo, now);
            && Enabled(c, e)
            && Sees(options, Next(options, c, e), now, w.(used := w.used + 1, queued := w.queued - 1),
                    lo + 1, hi, reopens)
            && Stored(Next(options, c, e), w.(used := w.used + 1, queued := w.queued - 1))
            && Next(options, c, e).log == c.log + [Permit(P, now, w.started)]
  {
    assert lo in c.waiting;
    StepDecides(options, c, Poll(lo, now));
  }

  /** Waiters that poll while the window has room for them. */
  lemma {:induction false} ManyPoll(
    options: RateLimitOptions, c: Crowd, now: int, w: Window, lo: int, hi: int, reopens: int, n: nat)
    returns (events: seq<Event>)
    requires Sees(options, c, now, w, lo, hi, reopens) && n <= hi - lo && reopens <= now
    requires w.used + n <= options.permitLimit
    ensures Legal(options, c, events)
    ensures var d := Run(options, c, events);
            && Sees(options, d, now, w.(used := w.used + n, queued := w.queued - n), lo + n, hi, reopens)
            && (n > 0 || Stored(c, w) ==> Stored(d, w.(used := w.used + n, queued := w.queued - n)))
            && d.log == c.log + Many(Permit(P, now, w.started), n)
    decreases n
  {
    events := [];
    if n > 0 {
      var e := Poll(lo, now);
      OnePolls(options, c, now, w, lo, hi, reopens);
      var next := w.(used := w.used + 1, queued := w.queued - 1);
      var rest := ManyPoll(options, Next(options, c, e), now, next, lo + 1, hi, reopens, n - 1);
      StepThenRun(options, c, e, rest);
      OneMore(Permit(P, now, w.started), n);
      events := [e] + rest;
    }
  }

  /** A newcomer to a full queue opens the window and is refused. */
  lemma OneRefused(options: RateLimitOptions, c: Crowd, now: int, w: Window, lo: int, hi: int, reopens: int)
    requires Sees(options, c, now, w, lo, hi, reopens) && w.queued >= options.permitLimit
            && w.queued >= options.queueLimit
    ensures var e := Arrive(hi, P, now);
            && Enabled(c, e) && Sees(options, Next(options, c, e), now, w, lo, hi, reopens)
            && Stored(Next(options, c, e), w) && Next(options, c, e).log == c.log
  {
    StepDecides(options, c, Arrive(hi, P, now));
  }

  /** Time passes, inside the window or to the start of another. */
  lemma Later(options: RateLimitOptions, c: Crowd, now: int, w: Window, lo: int, hi: int, reopens: int, later: int)
    requires Sees(options, c, now, w, lo, hi, reopens) && Stored(c, w) && now <= later
    ensures later < w.started + options.window ==> Sees(options, c, later, w, lo, hi, reopens)
    ensures w.started + options.window <= later ==> Sees(options, c, later, Window(later, 0, w.queued), lo, hi, reopens)
  {
  }

  // ------------------------------------------------------------------
  // Counting
  // ------------------------------------------------------------------

  lemma {:induction false} MatchingBoth(a: seq<Permit>, b: seq<Permit>, f: Permit -> bool)
    ensures Matching(a + b, f) == Matching(a, f) + Matching(b, f)
  {
    if b == [] {
      assert a + b == a;
    } else {
      var n := |b| - 1;
      assert (a + b)[..|a| + n] == a + b[..n];
      MatchingBoth(a, b[..n], f);
    }
  }

  lemma {:induction false} MatchingMany(x: Permit, n: nat, f: Permit -> bool)
    requires f(x)
    ensures Matching(Many(x, n), f) == n
  {
    if n > 0 {
      assert Many(x, n)[..n - 1] == Many(x, n - 1);
      MatchingMany(x, n - 1, f);
    }
  }

  lemma CountTwoGroups(log: seq<Permit>, x: Permit, m: nat, y: Permit, n: nat, f: Permit -> bool)
    requires f(x) && f(y)
    ensures Matching(log + Many(x, m) + Many(y, n), f) >= m + n
  {
    MatchingBoth(log + Many(x, m), Many(y, n), f);
    MatchingBoth(log, Many(x, m), f);
    MatchingMany(x, m, f);
    MatchingMany(y, n, f);
  }

  // ------------------------------------------------------------------
  // The runs
  // ------------------------------------------------------------------

  lemma StartsEmpty(options: RateLimitOptions)
    requires options.window > 0
    ensures Sees(options, Empty(0), 0, Window(0, 0, 0), 0, 0, options.window)
  {
  }

  /** One newcomer opens a window, the others come at its end, and the next window admits at once. */
  lemma ShortQueueRun(options: RateLimitOptions) returns (events: seq<Event>)
    requires options.window > 1 && options.permitLimit > 0
    ensures Legal(options, Empty(0), events)
    ensures Matching(Run(options, Empty(0), events).log, Within(P, options.window - 1, options.window))
         >= 2 * options.permitLimit - 1
  {
    var l, n := options.window, options.permitLimit;
    StartsEmpty(options);
    var first := ManyAdmitted(options, Empty(0), 0, Window(0, 0, 0), 0, 0, l, 1);
    var c1 := Run(options, Empty(0), first);
    Later(options, c1, 0, Window(0, 1, 0), 0, 0, l, l - 1);
    var second := ManyAdmitted(options, c1, l - 1, Window(0, 1, 0), 0, 0, l, n - 1);
    var c2 := Run(options, c1, second);
    Later(options, c2, l - 1, Window(0, n, 0), 0, 0, l, l);
    var third := ManyAdmitted(options, c2, l, Window(l, 0, 0), 0, 0, l, n);
    RunThenRun(options, c1, second, third);
    RunThenRun(options, Empty(0), first, second + third);
    events := first + (second + third);
    CountTwoGroups(c1.log, Permit(P, l - 1, 0), n - 1, Permit(P, l, l), n, Within(P, l - 1, l));
  }

  /** A full window and a full queue: a newcomer opens the next window without entering it. */
  lemma LongQueueOpens(options: RateLimitOptions) returns (events: seq<Event>)
    requires options.window > 1 && options.queueLimit >= options.permitLimit > 0
    ensures Legal(options, Empty(0), events)
    ensures var c, l, q := Run(options, Empty(0), events), options.window, options.queueLimit;
            Sees(options, c, l, Window(l, 0, q), 0, q, l) && Stored(c, Window(l, 0, q))
  {
    var l, n, q := options.window, options.permitLimit, options.queueLimit;
    StartsEmpty(options);
    var first := ManyAdmitted(options, Empty(0), 0, Window(0, 0, 0), 0, 0, l, n);
    var c1 := Run(options, Empty(0), first);
    Later(options, c1, 0, Window(0, n, 0), 0, 0, l, 1);
    var second := ManyJoin(options, c1, 1, Window(0, n, 0), 0, 0, q);
    var c2 := Run(options, c1, second);
    Later(options, c2, 1, Window(0, n, q), 0, q, l, l);
    OneRefused(options, c2, l, Window(l, 0, q), 0, q, l);
    var opener := Arrive(q, P, l);
    StepThenRun(options, c2, opener, []);
    assert [opener] + [] == [opener];
    RunThenRun(options, c1, second, [opener]);
    RunThenRun(options, Empty(0), first, second + [opener]);
    events := first + (second + [opener]);
  }

  /** A new window's permits go to the waiters there are, and the rest to newcomers. */
  lemma WindowFills(
    options: RateLimitOptions, c: Crowd, now: int, lo: int, hi: int, reopens: int)
    returns (events: seq<Event>)
    requires lo <= hi && Sees(options, c, now, Window(now, 0, hi - lo), lo, hi, reopens) && reopens <= now
    ensures Legal(options, c, events)
    ensures Run(options, c, events).log == c.log + Many(Permit(P, now, now), options.permitLimit)
  {
    if options.permitLimit <= hi - lo {
      events := ManyPoll(options, c, now, Window(now, 0, hi - lo), lo, hi, reopens, options.permitLimit);
    } else {
      events := WaitersAndNewcomers(options, c, now, lo, hi, reopens);
    }
  }

  lemma WaitersAndNewcomers(
    options: RateLimitOptions, c: Crowd, now: int, lo: int, hi: int, reopens: int)
    returns (events: seq<Event>)
    requires lo <= hi && Sees(options, c, now, Window(now, 0, hi - lo), lo, hi, reopens) && reopens <= now
    requires hi - lo < options.permitLimit
    ensures Legal(options, c, events)
    ensures Run(options, c, events).log == c.log + Many(Permit(P, now, now), options.permitLimit)
  {
    var k, n := hi - lo, options.permitLimit;
    var polls := ManyPoll(options, c, now, Window(now, 0, k), lo, hi, reopens, k);
    var d := Run(options, c, polls);
    var newcomers := ManyAdmitted(options, d, now, Window(now, k, 0), hi, hi, reopens, n - k);
    RunThenRun(options, c, polls, newcomers);
    events := polls + newcomers;
    ManyAndMany(Permit(P, now, now), k, n - k);
    assert c.log + Many(Permit(P, now, now), k) + Many(Permit(P, now, now), n - k)
        == c.log + (Many(Permit(P, now, now), k) + Many(Permit(P, now, now), n - k));
  }

  lemma ManyAndMany(x: Permit, m: nat, n: nat)
    ensures Many(x, m) + Many(x, n) == Many(x, m + n)
  {
  }

  /** The waiters take that window's permits at its very end. */
  lemma LongQueuePolls(options: RateLimitOptions, c: Crowd, end: int) returns (events: seq<Event>)
    requires options.window > 1 && options.queueLimit >= options.permitLimit > 0 && end == 2 * options.window
    requires var l, q := options.window, options.queueLimit;
             Sees(options, c, l, Window(l, 0, q), 0, q, l) && Stored(c, Window(l, 0, q))
    ensures Legal(options, c, events)
    ensures var d, l, n, q := Run(options, c, events), options.window, options.permitLimit, options.queueLimit;
            && Sees(options, d, end, Window(end, 0, q - n), n, q, l)
            && d.log == c.log + Many(Permit(P, end - 1, l), n)
  {
    var l, n, q := options.window, options.permitLimit, options.queueLimit;
    Later(options, c, l, Window(l, 0, q), 0, q, l, end - 1);
    events := ManyPoll(options, c, end - 1, Window(l, 0, q), 0, q, l, n);
    Later(options, Run(options, c, events), end - 1, Window(l, n, q - n), n, q, l, end);
  }

  /** And the next window admits at once. */
  lemma LongQueueCloses(options: RateLimitOptions, c: Crowd, end: int) returns (events: seq<Event>)
    requires options.window > 1 && options.queueLimit >= options.permitLimit > 0 && end == 2 * options.window
    requires var l, q := options.window, options.queueLimit;
             Sees(options, c, l, Window(l, 0, q), 0, q, l) && Stored(c, Window(l, 0, q))
    ensures Legal(options, c, events)
    ensures var n := options.permitLimit;
            Run(options, c, events).log
                == c.log + Many(Permit(P, end - 1, options.window), n) + Many(Permit(P, end, end), n)
  {
    var polls := LongQueuePolls(options, c, end);
    var d := Run(options, c, polls);
    var more := WindowFills(options, d, end, options.permitLimit, options.queueLimit, options.window);
    RunThenRun(options, c, polls, more);
    events := polls + more;
  }

  lemma LongQueueRun(options: RateLimitOptions, end: int) returns (events: seq<Event>)
    requires options.window > 1 && options.queueLimit >= options.permitLimit > 0 && end == 2 * options.window
    ensures Legal(options, Empty(0), events)
    ensures Matching(Run(options, Empty(0), events).log, Within(P, end - 1, options.window)) >= 2 * options.permitLimit
  {
    var opening := LongQueueOpens(options);
    var c := Run(options, Empty(0), opening);
    var closing := LongQueueCloses(options, c, end);
    RunThenRun(options, Empty(0), opening, closing);
    events := opening + closing;
    var l, n := options.window, options.permitLimit;
    CountTwoGroups(c.log, Permit(P, end - 1, l), n, Permit(P, end, end), n, Within(P, end - 1, l));
  }

  lemma OneWindowRun(options: RateLimitOptions) returns (events: seq<Event>)
    requires options.window > 0
    ensures Legal(options, Empty(0), events)
    ensures Matching(Run(options, Empty(0), events).log, Within(P, 0, options.window)) >= options.permitLimit
  {
    StartsEmpty(options);
    events := ManyAdmitted(options, Empty(0), 0, Window(0, 0, 0), 0, 0, options.window, options.permitLimit);
    CountTwoGroups([], Permit(P, 0, 0), options.permitLimit, Permit(P, 0, 0), 0, Within(P, 0, options.window));
    var log := Many(Permit(P, 0, 0), options.permitLimit);
    assert [] + log + Many(Permit(P, 0, 0), 0) == log;
    assert Empty(0).log + log == log;
  }

  /** For every policy some run and some interval of one window length hold exactly the most. */
  lemma TheMostIsReached(options: RateLimitOptions) returns (events: seq<Event>, from: int)
    requires options.window > 0
    ensures Legal(options, Empty(0), events)
    ensures Matching(Run(options, Empty(0), events).log, Within(P, from, options.window)) == TheMost(options)
  {
    if options.window == 1 || options.permitLimit == 0 {
      events := OneWindowRun(options);
      from := 0;
    } else if options.queueLimit < options.permitLimit {
      events := ShortQueueRun(options);
      from := options.window - 1;
    } else {
      events := LongQueueRun(options, 2 * options.window);
      from := 2 * options.window - 1;
    }
    NeverMoreThanTheMost(options, 0, events, P, from);
  }

  /** Some run gets more than `bound` requests of a partition through in one window length. */
  ghost predicate CanExceed(options: RateLimitOptions, bound: int)
  {
    exists clock, events, p, from :: Legal(options, Empty(clock), events)
      && Matching(Run(options, Empty(clock), events).log, Within(p, from, options.window)) > bound
  }

  lemma ExceedsUpToTheMost(options: RateLimitOptions, bound: int)
    requires options.window > 0
    ensures CanExceed(options, bound) <==> bound < TheMost(options)
  {
    if CanExceed(options, bound) {
      var clock, events, p, from :| Legal(options, Empty(clock), events)
        && Matching(Run(options, Empty(clock), events).log, Within(p, from, options.window)) > bound;
      NeverMoreThanTheMost(options, clock, events, p, from);
    }
    if bound < TheMost(options) {
      var events, from := TheMostIsReached(options);
      assert Legal(options, Empty(0), events)
          && Matching(Run(options, Empty(0), events).log, Within(P, from, options.window)) > bound;
    }
  }

  /**
   Exactly when a window length can hold more than the limit, and exactly when twice the limit: a
   policy with less queue than permits never reaches it.
   */
  lemma WhenTheLimitIsExceeded(options: RateLimitOptions)
    requires options.window > 0
    ensures CanExceed(options, options.permitLimit)
       <==> options.window > 1 && options.permitLimit > 0 && (options.permitLimit > 1 || options.queueLimit > 0)
    ensures options.permitLimit > 0 ==>
              (CanExceed(options, 2 * options.permitLimit - 1)
               <==> options.window > 1 && options.queueLimit >= options.permitLimit)
    ensures !CanExceed(options, 2 * options.permitLimit)
  {
    ExceedsUpToTheMost(options, options.permitLimit);
    ExceedsUpToTheMost(options, 2 * options.permitLimit - 1);
    ExceedsUpToTheMost(options, 2 * options.permitLimit);
  }
}
