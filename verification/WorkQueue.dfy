/**
 A module's bounded work queue: any number of callers and one consumer, step by step, while
 the consumer runs.
 */
module WorkQueue {
  type CallId = int

  /** What the work comes to: its value, or the panic the wrapper turned into an error. */
  datatype Outcome = Done(value: int) | Panicked

  /** A queued item: the caller's reply channel and its work. */
  datatype Item = Item(reply: CallId, work: int)

  datatype Consumer = Receiving | Took(item: Item) | Running(item: Item)

  /**
   Callers hold a channel permit from reserving it until the consumer receives their item.
   `sent` and `finished` are histories.
   */
  datatype Queue = Queue(
    capacity: nat,
    waiting: int,
    reserved: map<CallId, int>,
    counted: map<CallId, int>,
    channel: seq<Item>,
    consumer: Consumer,
    replies: map<CallId, Outcome>,
    sent: seq<Item>,
    finished: seq<Item>)

  datatype Step =
    | Reserve(call: CallId, work: int)
    | Count(call: CallId)
    | Send(call: CallId)
    | Receive
    | Uncount
    | Finish

  function Permits(q: Queue): nat {
    |q.reserved| + |q.counted| + |q.channel|
  }

  predicate Known(q: Queue, call: CallId) {
    call in q.reserved || call in q.counted || exists i :: 0 <= i < |q.sent| && q.sent[i].reply == call
  }

  predicate Enabled(q: Queue, step: Step)
  {
    match step
    case Reserve(call, _) => !Known(q, call) && Permits(q) < q.capacity
    case Count(call) => call in q.reserved
    case Send(call) => call in q.counted
    case Receive => q.consumer.Receiving? && q.channel != []
    case Uncount => q.consumer.Took?
    case Finish => q.consumer.Running?
  }

  /** `exec` is what each piece of work comes to. */
  function Next(exec: int -> Outcome, q: Queue, step: Step): Queue
    requires Enabled(q, step)
  {
    match step
    case Reserve(call, work) => q.(reserved := q.reserved[call := work])
    case Count(call) =>
      q.(waiting := q.waiting + 1, counted := q.counted[call := q.reserved[call]], reserved := q.reserved - {call})
    case Send(call) =>
      var item := Item(call, q.counted[call]);
      q.(counted := q.counted - {call}, channel := q.channel + [item], sent := q.sent + [item])
    case Receive => q.(channel := q.channel[1..], consumer := Took(q.channel[0]))
    case Uncount => q.(waiting := q.waiting - 1, consumer := Running(q.consumer.item))
    case Finish =>
      var item := q.consumer.item;
      q.(consumer := Receiving, replies := q.replies[item.reply := exec(item.work)], finished := q.finished + [item])
  }

  predicate Legal(exec: int -> Outcome, q: Queue, steps: seq<Step>)
    decreases |steps|
  {
    steps == [] || (Enabled(q, steps[0]) && Legal(exec, Next(exec, q, steps[0]), steps[1..]))
  }

  function Run(exec: int -> Outcome, q: Queue, steps: seq<Step>): Queue
    requires Legal(exec, q, steps)
    decreases |steps|
  {
    if steps == [] then q else Run(exec, Next(exec, q, steps[0]), steps[1..])
  }

  function Idle(capacity: nat): Queue {
    Queue(capacity, 0, map[], map[], [], Receiving, map[], [], [])
  }

  // ------------------------------------------------------------------
  // The invariant
  // ------------------------------------------------------------------

  /** The item in the consumer's hands, if any. */
  function InHand(q: Queue): seq<Item> {
    if q.consumer.Receiving? then [] else [q.consumer.item]
  }

  ghost predicate Bounded(q: Queue)
  {
    && q.waiting == |q.counted| + |q.channel| + (if q.consumer.Took? then 1 else 0)
    && Permits(q) <= q.capacity
  }

  /** Items are run one at a time in the order they were sent. */
  ghost predicate InOrder(q: Queue) {
    q.sent == q.finished + InHand(q) + q.channel
  }

  /** Each call sends one item, and no caller that is still reserving or counting has sent one. */
  ghost predicate OneItemEach(q: Queue)
  {
    && (forall i, j :: 0 <= i < j < |q.sent| ==> q.sent[i].reply != q.sent[j].reply)
    && (forall i :: 0 <= i < |q.sent| ==> q.sent[i].reply !in q.reserved && q.sent[i].reply !in q.counted)
    && q.reserved.Keys !! q.counted.Keys
  }

  /** A caller has a reply exactly when its item has finished, and it is what its own work came to. */
  ghost predicate OwnReplies(exec: int -> Outcome, q: Queue)
  {
    && (forall call :: call in q.replies <==> exists i :: 0 <= i < |q.finished| && q.finished[i].reply == call)
    && (forall i :: 0 <= i < |q.finished| ==>
          q.finished[i].reply in q.replies && q.replies[q.finished[i].reply] == exec(q.finished[i].work))
  }

  ghost predicate Sound(exec: int -> Outcome, q: Queue) {
    Bounded(q) && InOrder(q) && OneItemEach(q) && OwnReplies(exec, q)
  }

  lemma MapWithout<T>(m: map<CallId, T>, k: CallId)
    requires k in m
    ensures |m - {k}| == |m| - 1
  {
    assert (m - {k}).Keys == m.Keys - {k};
  }

  lemma MapWith<T>(m: map<CallId, T>, k: CallId, v: T)
    requires k !in m
    ensures |m[k := v]| == |m| + 1
  {
    assert m[k := v].Keys == m.Keys + {k};
  }

  lemma BoundedKept(exec: int -> Outcome, q: Queue, step: Step)
    requires Bounded(q) && OneItemEach(q) && Enabled(q, step)
    ensures Bounded(Next(exec, q, step))
  {
    match step
    case Reserve(call, work) => MapWith(q.reserved, call, work);
    case Count(call) =>
      MapWithout(q.reserved, call);
      MapWith(q.counted, call, q.reserved[call]);
    case Send(call) => MapWithout(q.counted, call);
    case _ =>
  }

  lemma InOrderKept(exec: int -> Outcome, q: Queue, step: Step)
    requires InOrder(q) && Enabled(q, step)
    ensures InOrder(Next(exec, q, step))
  {
    var after := Next(exec, q, step);
    if step.Receive? {
      Regrouped(q.finished, [q.channel[0]], q.channel[1..]);
      assert q.channel == [q.channel[0]] + q.channel[1..];
      assert InHand(q) == [] && InHand(after) == [q.channel[0]];
    } else if step.Finish? {
      assert InHand(q) == [q.consumer.item] && InHand(after) == [];
      assert after.finished + [] == after.finished;
    } else {
      assert InHand(after) == InHand(q) && after.finished == q.finished;
    }
  }

  lemma Regrouped(a: seq<Item>, b: seq<Item>, c: seq<Item>)
    ensures a + [] + (b + c) == a + b + c
  {
  }

  lemma OneItemEachKept(exec: int -> Outcome, q: Queue, step: Step)
    requires OneItemEach(q) && Enabled(q, step)
    ensures OneItemEach(Next(exec, q, step))
  {
  }

  /** What has finished was sent before what is in hand, so it has another reply channel. */
  lemma OwnRepliesKept(exec: int -> Outcome, q: Queue, step: Step)
    requires InOrder(q) && OneItemEach(q) && OwnReplies(exec, q) && Enabled(q, step)
    ensures OwnReplies(exec, Next(exec, q, step))
  {
    if step.Finish? {
      assert q.sent[|q.finished|] == q.consumer.item;
      forall i | 0 <= i < |q.finished| ensures q.finished[i].reply != q.consumer.item.reply {
        assert q.sent[i] == q.finished[i];
      }
      FinishReplies(exec, q, Next(exec, q, step));
    }
  }

  /** The item in hand finishes, and its caller, who had no reply, has one. */
  lemma FinishReplies(exec: int -> Outcome, q: Queue, after: Queue)
    requires OwnReplies(exec, q) && q.consumer.Running?
    requires forall i :: 0 <= i < |q.finished| ==> q.finished[i].reply != q.consumer.item.reply
    requires after.finished == q.finished + [q.consumer.item]
    requires after.replies == q.replies[q.consumer.item.reply := exec(q.consumer.item.work)]
    ensures OwnReplies(exec, after)
  {
    var n := |q.finished|;
    assert after.finished[n] == q.consumer.item;
    assert forall i :: 0 <= i < n ==> after.finished[i] == q.finished[i];
    forall call | call in q.replies ensures exists i :: 0 <= i < |after.finished| && after.finished[i].reply == call {
      var i :| 0 <= i < n && q.finished[i].reply == call;
      assert after.finished[i].reply == call;
    }
  }

  lemma {:induction false} SoundAlways(exec: int -> Outcome, q: Queue, steps: seq<Step>)
    requires Sound(exec, q) && Legal(exec, q, steps)
    ensures Sound(exec, Run(exec, q, steps)) && Run(exec, q, steps).capacity == q.capacity
    decreases |steps|
  {
    if steps != [] {
      BoundedKept(exec, q, steps[0]);
      InOrderKept(exec, q, steps[0]);
      OneItemEachKept(exec, q, steps[0]);
      OwnRepliesKept(exec, q, steps[0]);
      SoundAlways(exec, Next(exec, q, steps[0]), steps[1..]);
    }
  }

  /**
   Under every interleaving of callers and consumer: `waiting` stays between zero and one more
   than the capacity, and passes the capacity exactly while the consumer has taken an item it has
   not counted off and every place is held by a call already counted; items are run one at a time
   in the order sent, and a caller's reply is what its own work came to.
   */
  lemma QueueAlways(exec: int -> Outcome, capacity: nat, steps: seq<Step>)
    requires Legal(exec, Idle(capacity), steps)
    ensures var q := Run(exec, Idle(capacity), steps);
            && 0 <= q.waiting <= capacity + 1
            && (q.waiting > capacity <==> q.consumer.Took? && |q.counted| + |q.channel| == capacity)
            && q.sent == q.finished + InHand(q) + q.channel
            && (forall i :: 0 <= i < |q.sent| && q.sent[i].reply in q.replies ==>
                  q.replies[q.sent[i].reply] == exec(q.sent[i].work))
            && (forall i :: 0 <= i < |q.sent| ==> (q.sent[i].reply in q.replies <==> i < |q.finished|))
  {
    SoundAlways(exec, Idle(capacity), steps);
    var q := Run(exec, Idle(capacity), steps);
    forall i | 0 <= i < |q.sent|
      ensures q.sent[i].reply in q.replies <==> i < |q.finished|
      ensures q.sent[i].reply in q.replies ==> q.replies[q.sent[i].reply] == exec(q.sent[i].work)
    {
      assert forall j :: 0 <= j < |q.finished| ==> q.finished[j] == q.sent[j];
    }
  }

  // ------------------------------------------------------------------
  // The bound is met: the documented depth, "not counting the one running", can pass the capacity
  // ------------------------------------------------------------------

  /** `n` callers, from `first` on, have queued an item each, and the consumer has done nothing. */
  ghost predicate Filled(q: Queue, capacity: nat, n: nat, first: int)
  {
    && q.capacity == capacity && q.waiting == n + (if q.consumer.Took? then 1 else 0)
    && q.reserved == map[] && q.counted == map[] && |q.channel| == n
    && (forall i :: 0 <= i < |q.sent| ==> q.sent[i].reply < first)
  }

  lemma QueueOne(exec: int -> Outcome, q: Queue, capacity: nat, n: nat, call: int) returns (steps: seq<Step>)
    requires Filled(q, capacity, n, call) && n < capacity
    ensures Legal(exec, q, steps)
    ensures Filled(Run(exec, q, steps), capacity, n + 1, call + 1)
    ensures Run(exec, q, steps).consumer == q.consumer
  {
    steps := [Reserve(call, 0), Count(call), Send(call)];
    var q1 := Next(exec, q, steps[0]);
    assert q1.reserved == map[call := 0];
    var q2 := Next(exec, q1, steps[1]);
    assert q2.reserved == map[] && q2.counted == map[call := 0];
    var q3 := Next(exec, q2, steps[2]);
    assert q3.counted == map[];
    StepThenRun(exec, q2, Send(call), []);
    StepThenRun(exec, q1, Count(call), [Send(call)]);
    StepThenRun(exec, q, Reserve(call, 0), [Count(call), Send(call)]);
    assert [Send(call)] + [] == [Send(call)];
    assert steps == [Reserve(call, 0)] + [Count(call), Send(call)];
    assert [Count(call), Send(call)] == [Count(call)] + [Send(call)];
  }

  lemma StepThenRun(exec: int -> Outcome, q: Queue, step: Step, rest: seq<Step>)
    requires Enabled(q, step) && Legal(exec, Next(exec, q, step), rest)
    ensures Legal(exec, q, [step] + rest)
    ensures Run(exec, q, [step] + rest) == Run(exec, Next(exec, q, step), rest)
  {
    assert ([step] + rest)[1..] == rest;
  }

  lemma {:induction false} RunTwo(exec: int -> Outcome, q: Queue, a: seq<Step>, b: seq<Step>)
    requires Legal(exec, q, a) && Legal(exec, Run(exec, q, a), b)
    ensures Legal(exec, q, a + b) && Run(exec, q, a + b) == Run(exec, Run(exec, q, a), b)
    decreases |a|
  {
    if a == [] {
      assert a + b == b;
    } else {
      assert (a + b)[1..] == a[1..] + b;
      RunTwo(exec, Next(exec, q, a[0]), a[1..], b);
    }
  }

  lemma {:induction false} QueueMany(
    exec: int -> Outcome, q: Queue, capacity: nat, n: nat, first: int)
    returns (steps: seq<Step>)
    requires Filled(q, capacity, n, first) && n <= capacity
    ensures Legal(exec, q, steps)
    ensures Run(exec, q, steps).consumer == q.consumer
    ensures exists last :: Filled(Run(exec, q, steps), capacity, capacity, last)
    decreases capacity - n
  {
    steps := [];
    if n < capacity {
      var one := QueueOne(exec, q, capacity, n, first);
      var rest := QueueMany(exec, Run(exec, q, one), capacity, n + 1, first + 1);
      RunTwo(exec, q, one, rest);
      steps := one + rest;
    }
  }

  /**
   For every capacity some interleaving leaves `waiting` at one more: the consumer has taken an item
   and not yet counted it off.
   */
  lemma CapacityPlusOneIsReached(exec: int -> Outcome, capacity: nat) returns (steps: seq<Step>)
    requires capacity > 0
    ensures Legal(exec, Idle(capacity), steps)
    ensures Run(exec, Idle(capacity), steps).waiting == capacity + 1
  {
    var idle := Idle(capacity);
    var one := QueueOne(exec, idle, capacity, 0, 0);
    var queued := Run(exec, idle, one);
    var took := Next(exec, queued, Receive);
    assert [Receive][1..] == [];
    assert Run(exec, queued, [Receive]) == took;
    RunTwo(exec, idle, one, [Receive]);
    var rest := QueueMany(exec, took, capacity, 0, 1);
    RunTwo(exec, idle, one + [Receive], rest);
    steps := one + [Receive] + rest;
  }
}
