/**
 A fixed-window rate limiter per partition, with a waiting queue and a sweep of closed
 windows. Instants and durations are integers in one unit.
 */
module TrafficControl {
  import opened Options

  datatype RateLimitOptions = RateLimitOptions(permitLimit: nat, window: nat, queueLimit: nat)

  datatype Window = Window(started: int, used: nat, queued: nat)

  datatype Arrival = New | Queued

  datatype Admission = Admitted | Wait(reopens: int) | Refused

  datatype Limiter = Limiter(windows: map<string, Window>, lastSweep: Option<int>)

  /** `now.duration_since(earlier)`, which is zero when `earlier` is later. */
  function Since(now: int, earlier: int): nat {
    if now >= earlier then now - earlier else 0
  }

  // ------------------------------------------------------------------
  // One decision
  // ------------------------------------------------------------------

  /** The partition's window as the decision finds it: looked up or new, and restarted if it has closed. */
  function Current(options: RateLimitOptions, windows: map<string, Window>, partition: string, now: int): Window
  {
    var w := if partition in windows then windows[partition] else Window(now, 0, 0);
    if Since(now, w.started) >= options.window then w.(started := now, used := 0) else w
  }

  function Decide(options: RateLimitOptions, w: Window, arrival: Arrival): (Window, Admission)
  {
    var reopens := w.started + options.window;
    var waitingAhead := if arrival == New then w.queued else 0;
    if w.used + waitingAhead < options.permitLimit then
      (w.(used := w.used + 1, queued := if arrival == Queued && w.queued > 0 then w.queued - 1 else w.queued), Admitted)
    else if arrival == Queued then
      (w, Wait(reopens))
    else if w.queued < options.queueLimit then
      (w.(queued := w.queued + 1), Wait(reopens))
    else
      (w, Refused)
  }

  /** The windows a sweep keeps: those still open, and those with requests waiting. */
  function Swept(options: RateLimitOptions, windows: map<string, Window>, now: int): map<string, Window>
  {
    map p | p in windows && (windows[p].queued > 0 || Since(now, windows[p].started) < options.window) :: windows[p]
  }

  function SweptIfDue(options: RateLimitOptions, limiter: Limiter, now: int): Limiter
  {
    if limiter.lastSweep.Some? && Since(now, limiter.lastSweep.value) < options.window then limiter
    else Limiter(Swept(options, limiter.windows, now), Some(now))
  }

  function Admit(options: RateLimitOptions, limiter: Limiter, partition: string, now: int, arrival: Arrival)
    : (Limiter, Admission)
  {
    var swept := SweptIfDue(options, limiter, now);
    var (w, answer) := Decide(options, Current(options, swept.windows, partition, now), arrival);
    (swept.(windows := swept.windows[partition := w]), answer)
  }

  /** The window has closed and nobody waits in it. */
  predicate Disposable(options: RateLimitOptions, w: Window, now: int) {
    w.queued == 0 && (options.window == 0 || w.started + options.window <= now)
  }

  /** The windows but for those that have closed and have nobody waiting. */
  ghost predicate WithoutDisposable(
    options: RateLimitOptions, before: map<string, Window>, after: map<string, Window>, now: int)
  {
    && (forall p :: p in after <==> p in before && !Disposable(options, before[p], now))
    && (forall p :: p in after ==> after[p] == before[p])
  }

  lemma SweptDropsDisposable(options: RateLimitOptions, windows: map<string, Window>, now: int)
    ensures WithoutDisposable(options, windows, Swept(options, windows, now), now)
  {
  }

  /** The window a request of the partition meets: its own, a new one, or a new turn of its own with its waiters. */
  ghost predicate Meets(options: RateLimitOptions, windows: map<string, Window>, partition: string, now: int, w: Window)
  {
    if partition !in windows then w == Window(now, 0, 0)
    else if options.window == 0 || windows[partition].started + options.window <= now then
      w == Window(now, 0, windows[partition].queued)
    else w == windows[partition]
  }

  /**
   The decision on a request that meets the window `w`: a permit, when those used and the waiters ahead
   of a newcomer leave one; else a wait until the window reopens, for a newcomer only if the queue has
   room; else a refusal.
   */
  ghost predicate Decided(options: RateLimitOptions, w: Window, arrival: Arrival, after: Window, answer: Admission)
  {
    if arrival == New then
      if w.used + w.queued < options.permitLimit then
        answer == Admitted && after == Window(w.started, w.used + 1, w.queued)
      else if w.queued < options.queueLimit then
        answer == Wait(w.started + options.window) && after == Window(w.started, w.used, w.queued + 1)
      else answer == Refused && after == w
    else if w.used < options.permitLimit then
      answer == Admitted && after == Window(w.started, w.used + 1, if w.queued == 0 then 0 else w.queued - 1)
    else answer == Wait(w.started + options.window) && after == w
  }

  /** The limiter's state changed in place. */
  class RateLimiter {
    const options: RateLimitOptions
    var windows: map<string, Window>
    var lastSweep: Option<int>

    constructor (options: RateLimitOptions)
      ensures this.options == options && State() == Limiter(map[], None)
    {
      this.options := options;
      windows, lastSweep := map[], None;
    }

    function State(): Limiter
      reads this
    {
      Limiter(windows, lastSweep)
    }

    /** Drops every partition whose window has closed and has no waiters, returning how many. */
    method SweepClosedWindows(now: int) returns (dropped: nat)
      modifies this`windows
      ensures windows == Swept(options, old(windows), now)
      ensures WithoutDisposable(options, old(windows), windows, now)
      ensures dropped == |old(windows)| - |windows|
    {
      var before := windows;
      var left := windows.Keys;
      dropped := 0;
      while left != {}
        invariant left <= before.Keys && windows.Keys <= before.Keys
        invariant forall p :: p in windows ==> windows[p] == before[p]
        invariant forall p :: p in left ==> p in windows
        invariant forall p :: p in before && p !in left ==>
                    (p in windows <==> before[p].queued > 0 || Since(now, before[p].started) < options.window)
        invariant dropped == |before| - |windows|
        decreases left
      {
        var p :| p in left;
        left := left - {p};
        var w := windows[p];
        if !(w.queued > 0 || Since(now, w.started) < options.window) {
          ghost var smaller := windows - {p};
          assert smaller.Keys == windows.Keys - {p};
          windows := windows - {p};
          dropped := dropped + 1;
        }
      }
    }

    /** Sweeps, but at most once per window. */
    method SweepIfDue(now: int)
      modifies this
      ensures State() == SweptIfDue(options, old(State()), now)
      ensures if old(lastSweep).Some? && now < old(lastSweep).value + options.window && options.window > 0
              then State() == old(State())
              else lastSweep == Some(now) && WithoutDisposable(options, old(windows), windows, now)
    {
      if lastSweep.Some? && Since(now, lastSweep.value) < options.window {
        return;
      }
      lastSweep := Some(now);
      var _ := SweepClosedWindows(now);
    }

    /** Decides one request against its partition's window. */
    method TryAdmit(partition: string, now: int, arrival: Arrival) returns (answer: Admission)
      modifies this
      ensures (State(), answer) == Admit(options, old(State()), partition, now, arrival)
      ensures partition in windows
      ensures forall w :: Meets(options, old(windows), partition, now, w) ==>
                Decided(options, w, arrival, windows[partition], answer)
      ensures forall p :: p in windows && p != partition ==> p in old(windows) && windows[p] == old(windows)[p]
      ensures forall p :: p in old(windows) && p !in windows ==> Disposable(options, old(windows)[p], now)
    {
      SweepIfDue(now);
      var entry := if partition in windows then windows[partition] else Window(now, 0, 0);
      if Since(now, entry.started) >= options.window {
        entry := entry.(started := now, used := 0);
      }
      var reopens := entry.started + options.window;
      var waitingAhead := match arrival case New => entry.queued case Queued => 0;
      if entry.used + waitingAhead < options.permitLimit {
        entry := entry.(used := entry.used + 1);
        if arrival == Queued {
          entry := entry.(queued := if entry.queued > 0 then entry.queued - 1 else 0);
        }
        answer := Admitted;
      } else if arrival == Queued {
        answer := Wait(reopens);
      } else if entry.queued < options.queueLimit {
        entry := entry.(queued := entry.queued + 1);
        answer := Wait(reopens);
      } else {
        answer := Refused;
      }
      windows := windows[partition := entry];
    }
  }

  // ------------------------------------------------------------------
  // The sweep is unobservable
  // ------------------------------------------------------------------

  datatype Call = Call(partition: string, now: int, arrival: Arrival)

  function Answers(options: RateLimitOptions, limiter: Limiter, calls: seq<Call>): seq<Admission>
    decreases |calls|
  {
    if calls == [] then []
    else
      var (next, answer) := Admit(options, limiter, calls[0].partition, calls[0].now, calls[0].arrival);
      [answer] + Answers(options, next, calls[1..])
  }

  /** The answers of a limiter that never forgets a partition. */
  function UnsweptAnswers(options: RateLimitOptions, windows: map<string, Window>, calls: seq<Call>): seq<Admission>
    decreases |calls|
  {
    if calls == [] then []
    else
      var call := calls[0];
      var (w, answer) := Decide(options, Current(options, windows, call.partition, call.now), call.arrival);
      [answer] + UnsweptAnswers(options, windows[call.partition := w], calls[1..])
  }

  predicate InTimeOrder(calls: seq<Call>, from: int)
  {
    calls == [] || (from <= calls[0].now && InTimeOrder(calls[1..], calls[0].now))
  }

  /** What the sweep has dropped by `now` holds no waiter and would restart anyway. */
  ghost predicate Forgot(options: RateLimitOptions, swept: map<string, Window>, all: map<string, Window>, now: int)
  {
    && (forall p :: p in swept ==> p in all && all[p] == swept[p])
    && (forall p :: p in all && p !in swept ==> all[p].queued == 0 && all[p].started + options.window <= now)
    && (forall p :: p in all ==> all[p].started <= now)
  }

  lemma SweepForgets(options: RateLimitOptions, limiter: Limiter, all: map<string, Window>, from: int, now: int)
    requires Forgot(options, limiter.windows, all, from) && from <= now
    ensures Forgot(options, SweptIfDue(options, limiter, now).windows, all, now)
  {
  }

  lemma SameDecision(
    options: RateLimitOptions, swept: map<string, Window>, all: map<string, Window>, p: string, now: int)
    requires Forgot(options, swept, all, now)
    ensures Current(options, swept, p, now) == Current(options, all, p, now)
  {
  }

  /** For every sequence of arrivals in time order, sweeping changes no answer. */
  lemma {:induction false} SweepUnobservable(
    options: RateLimitOptions, limiter: Limiter, all: map<string, Window>, calls: seq<Call>, from: int)
    requires Forgot(options, limiter.windows, all, from) && InTimeOrder(calls, from)
    ensures Answers(options, limiter, calls) == UnsweptAnswers(options, all, calls)
    decreases |calls|
  {
    if calls != [] {
      var call := calls[0];
      SweepForgets(options, limiter, all, from, call.now);
      var swept := SweptIfDue(options, limiter, call.now);
      SameDecision(options, swept.windows, all, call.partition, call.now);
      var (w, _) := Decide(options, Current(options, all, call.partition, call.now), call.arrival);
      SweepUnobservable(options, swept.(windows := swept.windows[call.partition := w]), all[call.partition := w],
                        calls[1..], call.now);
    }
  }

  lemma FreshLimitersAgree(options: RateLimitOptions, calls: seq<Call>, from: int)
    requires InTimeOrder(calls, from)
    ensures Answers(options, Limiter(map[], None), calls) == UnsweptAnswers(options, map[], calls)
  {
    SweepUnobservable(options, Limiter(map[], None), map[], calls, from);
  }
}
