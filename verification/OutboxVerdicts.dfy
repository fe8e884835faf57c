/** What a committed batch rules on each of its rows, read off what its handlers answered. */
module OutboxVerdicts {
  import opened Options
  import opened OrdersContracts
  import opened OutboxTables
  import opened OutboxSystem
  import opened OutboxInvariants
  import opened OutboxDelivery

  // ------------------------------------------------------------------
  // Success and failure, as the moves and the columns show them
  // ------------------------------------------------------------------

  /**
   What the handlers of the batch's row `i` answered, in turn: the handler moves `d` made after it
   had settled `i` rows and before it settled the next.
   */
  function Answers(moves: seq<Step>, d: int, i: nat): seq<bool>
    decreases |moves|
  {
    if moves == [] then []
    else if moves[0] == Settle(d) then
      if i == 0 then [] else Answers(moves[1..], d, i - 1)
    else
      (if i == 0 && moves[0].RunHandler? && moves[0].d == d then [moves[0].ok] else []) + Answers(moves[1..], d, i)
  }

  /** The event decodes, and every module subscribed to it has a database. */
  ghost predicate Reachable(host: Host, message: Message)
  {
    && message.eventType in host.decoders && message.payload.Readable?
    && forall s :: s in host.subscriptions && s.eventType == message.eventType ==> s.moduleKey in host.databases
  }

  /** The row was processed between the two instants, and its attempts and schedule are as they were. */
  ghost predicate Published(before: Row, after: Row, from: Instant, to: Instant)
  {
    && after.processedAt.Some? && from <= after.processedAt.value <= to
    && after.attempts == before.attempts && after.nextAttemptAt == before.nextAttemptAt
    && after.deadLetteredAt == before.deadLetteredAt && after.failures == before.failures
  }

  /**
   One failure more between the two instants: another attempt 1, 5, 30, 120 and 600 seconds after the
   first five, and the dead letter at the sixth.
   */
  ghost predicate FailedAgain(before: Row, after: Row, from: Instant, to: Instant)
  {
    && |after.failures| == |before.failures| + 1 && after.failures[..|before.failures|] == before.failures
    && after.processedAt == before.processedAt
    && after.attempts == before.attempts + 1
    && var at := after.failures[|before.failures|];
       && from <= at <= to
       && (0 <= before.attempts < 5 ==> after.deadLetteredAt == before.deadLetteredAt)
       && (before.attempts == 0 ==> after.nextAttemptAt == at + 1_000_000)
       && (before.attempts == 1 ==> after.nextAttemptAt == at + 5_000_000)
       && (before.attempts == 2 ==> after.nextAttemptAt == at + 30_000_000)
       && (before.attempts == 3 ==> after.nextAttemptAt == at + 120_000_000)
       && (before.attempts == 4 ==> after.nextAttemptAt == at + 600_000_000)
       && (!(0 <= before.attempts < 5) ==>
             after.deadLetteredAt == Some(at) && after.nextAttemptAt == before.nextAttemptAt)
  }

  /** The row came out as its delivery went. */
  ghost predicate Ruled(success: bool, before: Row, after: Row, from: Instant, to: Instant)
  {
    if success then Published(before, after, from, to) else FailedAgain(before, after, from, to)
  }

  /** `Failed` and `Processed`, column by column. */
  lemma VerdictColumns(row: Row, now: Instant)
    ensures Published(row, Processed(row, now), now, now)
    ensures FailedAgain(row, Failed(row, now), now, now)
  {
    var after := Failed(row, now);
    assert after.failures == row.failures + [now];
  }

  // ------------------------------------------------------------------
  // From any point of a batch on
  // ------------------------------------------------------------------

  /** Only its own moves change a batch. */
  lemma BatchUntouched(host: Host, s: System, step: Step, d: int)
    requires Enabled(host, s, step) && d in s.batches
    requires step != Settle(d) && !(step.RunHandler? && step.d == d) && step != Commit(d) && step != Abort(d)
    ensures d in Apply(host, s, step).batches && Apply(host, s, step).batches[d] == s.batches[d]
  {
    if IsQuiet(step) && !step.Abort? {
      FeedAndTickKeepBatches(host, s, step);
    } else if step.Commit? || step.Abort? {
      OtherBatchStays(host, s, step, d);
    }
  }

  lemma BatchMove(host: Host, s: System, step: Step, d: int)
    requires Enabled(host, s, step) && (step == Settle(d) || (step.RunHandler? && step.d == d))
    ensures var t := Apply(host, s, step);
            t.messages == s.messages && t.rows == s.rows && t.now == s.now && d in t.batches
    ensures step.RunHandler? ==>
              var b := s.batches[d];
              var subscription := Handlers(host, s.messages[b.ids[b.at]].eventType)[b.sub];
              Apply(host, s, step).batches[d] ==
              b.(sub := b.sub + 1, failed := b.failed || !step.ok || subscription.moduleKey !in host.databases)
  {
  }

  /** A verdict once written stays until the batch ends. */
  lemma {:induction false} VerdictStays(host: Host, s: System, d: int, moves: seq<Step>, id: EventId)
    requires Structure(s) && d in s.batches && id in s.batches[d].updates
    requires Legal(host, s, moves) && Commit(d) !in moves && Abort(d) !in moves
    ensures var u := Run(host, s, moves);
            d in u.batches && id in u.batches[d].updates && u.batches[d].updates[id] == s.batches[d].updates[id]
    decreases |moves|
  {
    if moves != [] {
      var step := moves[0];
      assert step in moves;
      StructureKept(host, s, step);
      if step == Settle(d) {
        RowNotRuledYet(s, d);
      } else if step.RunHandler? && step.d == d {
        BatchMove(host, s, step, d);
      } else {
        BatchUntouched(host, s, step, d);
      }
      VerdictStays(host, Apply(host, s, step), d, moves[1..], id);
    }
  }

  lemma RowNotRuledYet(s: System, d: int)
    requires Structure(s) && InBatch(s, d)
    ensures s.batches[d].ids[s.batches[d].at] !in s.batches[d].updates
  {
    var b := s.batches[d];
    forall id | id in b.updates ensures id != b.ids[b.at] {
      var j :| 0 <= j < b.at && b.ids[..b.at][j] == id;
      assert b.ids[j] != b.ids[b.at];
    }
  }

  /** The batch has row `i` still to rule on. */
  ghost predicate Unruled(host: Host, s: System, d: int, i: nat)
  {
    && d in s.batches && s.batches[d].at <= i < |s.batches[d].ids|
    && s.batches[d].ids[i] in s.messages && s.batches[d].ids[i] in s.rows
    && (i == s.batches[d].at ==> s.batches[d].sub <= |Handlers(host, s.messages[s.batches[d].ids[i]].eventType)|)
  }

  /** Of the handlers of row `i`, those the batch has yet to run. */
  function StillToRun(host: Host, s: System, d: int, i: nat): seq<Subscription>
    requires d in s.batches && i < |s.batches[d].ids| && s.batches[d].ids[i] in s.messages
  {
    var b := s.batches[d];
    var handlers := Handlers(host, s.messages[b.ids[i]].eventType);
    if i == b.at && b.sub <= |handlers| then handlers[b.sub..] else handlers
  }

  /** Row `i` will be processed, should its remaining handlers answer so. */
  ghost predicate Succeeding(host: Host, s: System, d: int, i: nat, answers: seq<bool>)
    requires d in s.batches && i < |s.batches[d].ids| && s.batches[d].ids[i] in s.messages
  {
    && !(i == s.batches[d].at && s.batches[d].failed)
    && Decodes(host, s.messages[s.batches[d].ids[i]])
    && (forall h :: h in StillToRun(host, s, d, i) ==> h.moduleKey in host.databases)
    && false !in answers
  }

  /** What stands before row `i`'s verdict in `s` is `first`, and then what stands before it in `t`. */
  ghost predicate ProspectsKept(
    host: Host, s: System, t: System, d: int, i: nat, answers: seq<bool>, left: seq<bool>)
    requires Unruled(host, s, d, i)
  {
    var id := s.batches[d].ids[i];
    && Unruled(host, t, d, i) && t.batches[d].ids[i] == id && s.now <= t.now
    && t.rows[id] == s.rows[id] && t.messages[id] == s.messages[id]
    && (Succeeding(host, s, d, i, answers) <==> Succeeding(host, t, d, i, left))
    && (Decodes(host, s.messages[id]) ==>
          |answers| - |left| == |StillToRun(host, s, d, i)| - |StillToRun(host, t, d, i)|)
  }

  lemma OthersKeepProspects(host: Host, s: System, t: System, d: int, i: nat, left: seq<bool>)
    requires Unruled(host, s, d, i) && d in t.batches && t.batches[d] == s.batches[d] && s.now <= t.now
    requires var id := s.batches[d].ids[i];
             id in t.rows && t.rows[id] == s.rows[id] && id in t.messages && t.messages[id] == s.messages[id]
    ensures ProspectsKept(host, s, t, d, i, left, left)
  {
  }

  lemma SettleKeepsProspects(host: Host, s: System, t: System, d: int, i: nat, left: seq<bool>)
    requires Unruled(host, s, d, i) && i > s.batches[d].at && d in t.batches && s.now <= t.now
    requires t.messages == s.messages && t.rows == s.rows && t.batches[d].ids == s.batches[d].ids
    requires t.batches[d].at == s.batches[d].at + 1 && t.batches[d].sub == 0 && !t.batches[d].failed
    ensures ProspectsKept(host, s, t, d, i, left, left)
  {
  }

  lemma HandlerKeepsProspects(host: Host, s: System, t: System, d: int, i: nat, ok: bool, left: seq<bool>)
    requires Unruled(host, s, d, i) && Enabled(host, s, RunHandler(d, ok)) && d in t.batches && s.now <= t.now
    requires t.messages == s.messages && t.rows == s.rows
    requires var b := s.batches[d];
             var subscription := Handlers(host, s.messages[b.ids[b.at]].eventType)[b.sub];
             t.batches[d] ==
             b.(sub := b.sub + 1, failed := b.failed || !ok || subscription.moduleKey !in host.databases)
    ensures ProspectsKept(host, s, t, d, i, (if i == s.batches[d].at then [ok] else []) + left, left)
  {
    if i == s.batches[d].at {
      var handlers, sub := Handlers(host, s.messages[s.batches[d].ids[i]].eventType), s.batches[d].sub;
      assert handlers[sub..] == [handlers[sub]] + handlers[sub + 1..];
    } else {
      assert [] + left == left;
    }
  }

  lemma SettleMovesOn(host: Host, s: System, d: int)
    requires Enabled(host, s, Settle(d))
    ensures var t, b := Apply(host, s, Settle(d)), s.batches[d];
            && t.messages == s.messages && t.rows == s.rows && t.now == s.now && d in t.batches
            && t.batches[d].ids == b.ids && t.batches[d].at == b.at + 1
            && t.batches[d].sub == 0 && !t.batches[d].failed
  {
  }

  /** Settling a row writes the verdict its handlers have come to. */
  lemma SettledNow(host: Host, s: System, d: int)
    requires Structure(s) && RowsSound(s) && Enabled(host, s, Settle(d))
    ensures var b := s.batches[d];
            var id := b.ids[b.at];
            var t := Apply(host, s, Settle(d));
            && Structure(t) && d in t.batches && id in t.batches[d].updates && t.now == s.now
            && Ruled(Succeeding(host, s, d, b.at, []), s.rows[id], t.batches[d].updates[id], s.now, s.now)
            && (Decodes(host, s.messages[id]) ==> StillToRun(host, s, d, b.at) == [])
  {
    var b := s.batches[d];
    LockedRowIsDue(s, d, b.ids[b.at]);
    VerdictColumns(s.rows[b.ids[b.at]], s.now);
    StructureKept(host, s, Settle(d));
  }

  lemma {:induction false} ClockRuns(host: Host, s: System, moves: seq<Step>)
    requires Legal(host, s, moves)
    ensures s.now <= Run(host, s, moves).now
    decreases |moves|
  {
    if moves != [] {
      OneTick(host, s, moves[0]);
      ClockRuns(host, Apply(host, s, moves[0]), moves[1..]);
    }
  }

  lemma OneTick(host: Host, s: System, step: Step)
    requires Enabled(host, s, step)
    ensures s.now <= Apply(host, s, step).now
  {
    if IsQuiet(step) {
      QuietStep(host, s, step);
    }
  }

  lemma RuledWithin(success: bool, before: Row, after: Row, from: Instant, to: Instant, wider: Instant, later: Instant)
    requires Ruled(success, before, after, from, to) && wider <= from && to <= later
    ensures Ruled(success, before, after, wider, later)
  {
  }

  /** By `u`, the batch that `s` has under way has ruled on its row `i` as `success` says. */
  ghost predicate RuledBy(s: System, u: System, d: int, i: nat, success: bool)
    requires d in s.batches && i < |s.batches[d].ids| && s.batches[d].ids[i] in s.rows
  {
    var id := s.batches[d].ids[i];
    d in u.batches && id in u.batches[d].updates
    && Ruled(success, s.rows[id], u.batches[d].updates[id], s.now, u.now)
  }

  /** Row `i` comes out of the moves, at `u`, with the verdict its remaining handlers' answers call for. */
  ghost predicate RuledByAnswers(host: Host, s: System, u: System, d: int, moves: seq<Step>, i: nat)
    requires Unruled(host, s, d, i)
  {
    var answers := Answers(moves, d, i - s.batches[d].at);
    && RuledBy(s, u, d, i, Succeeding(host, s, d, i, answers))
    && (Decodes(host, s.messages[s.batches[d].ids[i]]) ==> |answers| == |StillToRun(host, s, d, i)|)
  }

  lemma RuledAtOnce(host: Host, s: System, d: int, moves: seq<Step>)
    requires Structure(s) && RowsSound(s) && Legal(host, s, moves) && Commit(d) !in moves && Abort(d) !in moves
    requires moves != [] && moves[0] == Settle(d) && Unruled(host, s, d, s.batches[d].at)
    ensures RuledByAnswers(host, s, Run(host, s, moves), d, moves, s.batches[d].at)
  {
    var rest, t, u := moves[1..], Apply(host, s, moves[0]), Run(host, s, moves);
    var b := s.batches[d];
    var id := b.ids[b.at];
    assert forall m :: m in rest ==> m in moves;
    ClockRuns(host, t, rest);
    SettledNow(host, s, d);
    VerdictStays(host, t, d, rest, id);
    RuledWithin(Succeeding(host, s, d, b.at, []), s.rows[id], t.batches[d].updates[id], s.now, s.now, s.now, u.now);
  }

  lemma HandlerMovesOn(host: Host, s: System, d: int, ok: bool, later: seq<Step>, i: nat)
    requires Unruled(host, s, d, i) && Enabled(host, s, RunHandler(d, ok))
    ensures var t := Apply(host, s, RunHandler(d, ok));
            && d in t.batches && t.batches[d].at <= i
            && ProspectsKept(host, s, t, d, i, Answers([RunHandler(d, ok)] + later, d, i - s.batches[d].at),
                             Answers(later, d, i - t.batches[d].at))
  {
    var step := RunHandler(d, ok);
    BatchMove(host, s, step, d);
    assert ([step] + later)[1..] == later;
    HandlerKeepsProspects(host, s, Apply(host, s, step), d, i, ok, Answers(later, d, i - s.batches[d].at));
  }

  lemma SettleMovesOnTo(host: Host, s: System, d: int, later: seq<Step>, i: nat)
    requires Unruled(host, s, d, i) && Enabled(host, s, Settle(d)) && i > s.batches[d].at
    ensures var t := Apply(host, s, Settle(d));
            && d in t.batches && t.batches[d].at <= i
            && ProspectsKept(host, s, t, d, i, Answers([Settle(d)] + later, d, i - s.batches[d].at),
                             Answers(later, d, i - t.batches[d].at))
  {
    SettleMovesOn(host, s, d);
    assert ([Settle(d)] + later)[1..] == later;
    SettleKeepsProspects(host, s, Apply(host, s, Settle(d)), d, i, Answers(later, d, i - s.batches[d].at - 1));
  }

  lemma OtherMovesOn(host: Host, s: System, d: int, step: Step, later: seq<Step>, i: nat)
    requires Structure(s) && Unruled(host, s, d, i) && Enabled(host, s, step)
    requires step != Settle(d) && !(step.RunHandler? && step.d == d) && step != Commit(d) && step != Abort(d)
    ensures var t := Apply(host, s, step);
            && d in t.batches && t.batches[d].at <= i
            && ProspectsKept(host, s, t, d, i, Answers([step] + later, d, i - s.batches[d].at),
                             Answers(later, d, i - t.batches[d].at))
  {
    OneTick(host, s, step);
    BatchUntouched(host, s, step, d);
    EveryStepGrows(host, s, step);
    LockedRowStays(host, s, step, d, s.batches[d].ids[i]);
    var left := Answers(later, d, i - s.batches[d].at);
    assert ([step] + later)[1..] == later && [] + left == left;
    OthersKeepProspects(host, s, Apply(host, s, step), d, i, left);
  }

  /** A move that does not settle row `i` leaves its prospects to the moves after it. */
  lemma MoveOn(host: Host, s: System, d: int, step: Step, later: seq<Step>, i: nat)
    requires Structure(s) && Unruled(host, s, d, i) && Enabled(host, s, step)
    requires step != Commit(d) && step != Abort(d) && !(step == Settle(d) && i == s.batches[d].at)
    ensures var t := Apply(host, s, step);
            && d in t.batches && t.batches[d].at <= i
            && ProspectsKept(host, s, t, d, i, Answers([step] + later, d, i - s.batches[d].at),
                             Answers(later, d, i - t.batches[d].at))
  {
    if step == Settle(d) {
      SettleMovesOnTo(host, s, d, later, i);
    } else if step.RunHandler? && step.d == d {
      HandlerMovesOn(host, s, d, step.ok, later, i);
    } else {
      OtherMovesOn(host, s, d, step, later, i);
    }
  }

  lemma RuledLater(host: Host, s: System, t: System, u: System, d: int, moves: seq<Step>, i: nat)
    requires moves != [] && Unruled(host, s, d, i) && Unruled(host, t, d, i)
    requires ProspectsKept(host, s, t, d, i, Answers(moves, d, i - s.batches[d].at),
                           Answers(moves[1..], d, i - t.batches[d].at))
    requires RuledByAnswers(host, t, u, d, moves[1..], i)
    ensures RuledByAnswers(host, s, u, d, moves, i)
  {
    var id := s.batches[d].ids[i];
    var success := Succeeding(host, t, d, i, Answers(moves[1..], d, i - t.batches[d].at));
    RuledWithin(success, s.rows[id], u.batches[d].updates[id], t.now, u.now, s.now, u.now);
  }

  lemma FirstMove(host: Host, s: System, d: int, moves: seq<Step>, i: nat) returns (t: System)
    requires Structure(s) && RowsSound(s) && Unruled(host, s, d, i) && moves != [] && Legal(host, s, moves)
    requires moves[0] != Commit(d) && moves[0] != Abort(d) && !(moves[0] == Settle(d) && i == s.batches[d].at)
    ensures t == Apply(host, s, moves[0]) && Unruled(host, t, d, i)
    ensures Structure(t) && RowsSound(t)
  {
    t := Apply(host, s, moves[0]);
    MoveOn(host, s, d, moves[0], moves[1..], i);
    StructureKept(host, s, moves[0]);
    RowsSoundKept(host, s, moves[0]);
  }

  lemma RuledAfterMove(host: Host, s: System, t: System, u: System, d: int, moves: seq<Step>, i: nat)
    requires Structure(s) && Unruled(host, s, d, i) && moves != [] && Enabled(host, s, moves[0])
    requires moves[0] != Commit(d) && moves[0] != Abort(d) && !(moves[0] == Settle(d) && i == s.batches[d].at)
    requires t == Apply(host, s, moves[0]) && Unruled(host, t, d, i)
    requires RuledByAnswers(host, t, u, d, moves[1..], i)
    ensures RuledByAnswers(host, s, u, d, moves, i)
  {
    MoveOn(host, s, d, moves[0], moves[1..], i);
    assert [moves[0]] + moves[1..] == moves;
    RuledLater(host, s, t, u, d, moves, i);
  }

  /** Whatever is still to come, rows not yet ruled on get the verdict their remaining handlers' answers call for. */
  lemma {:induction false} VerdictsAhead(host: Host, s: System, d: int, moves: seq<Step>, i: nat)
    requires Structure(s) && RowsSound(s) && Unruled(host, s, d, i)
    requires Legal(host, s, moves) && Commit(d) !in moves && Abort(d) !in moves
    requires d in Run(host, s, moves).batches && i < Run(host, s, moves).batches[d].at
    ensures RuledByAnswers(host, s, Run(host, s, moves), d, moves, i)
    decreases |moves|
  {
    if moves[0] == Settle(d) && i == s.batches[d].at {
      RuledAtOnce(host, s, d, moves);
    } else {
      assert moves[0] in moves && forall m :: m in moves[1..] ==> m in moves;
      var t := FirstMove(host, s, d, moves, i);
      VerdictsAhead(host, t, d, moves[1..], i);
      RuledAfterMove(host, s, t, Run(host, t, moves[1..]), d, moves, i);
    }
  }

  // ------------------------------------------------------------------
  // Whole batches
  // ------------------------------------------------------------------

  /**
   Every row of the batch came out as its delivery went: processed exactly when its event decodes,
   every module subscribed to it has a database, and every one of its handlers answered so; one
   failure more otherwise. An event that decodes was handed to each of its subscribers once.
   */
  ghost predicate BatchRuled(host: Host, s: System, t: System, d: int, ids: seq<EventId>, moves: seq<Step>)
  {
    forall i :: 0 <= i < |ids| ==>
      && ids[i] in s.messages && ids[i] in s.rows && ids[i] in t.rows
      && Ruled(Reachable(host, s.messages[ids[i]]) && false !in Answers(moves, d, i),
               s.rows[ids[i]], t.rows[ids[i]], s.now, t.now)
      && (s.messages[ids[i]].eventType in host.decoders && s.messages[ids[i]].payload.Readable? ==>
            |Answers(moves, d, i)| == |Handlers(host, s.messages[ids[i]].eventType)|)
  }

  /** When all its rows are settled, the batch holds each row's verdict and the row is as it was. */
  lemma RuledWithinBatch(host: Host, s: System, d: int, ids: seq<EventId>, moves: seq<Step>, i: nat)
    requires Structure(s) && RowsSound(s) && Enabled(host, s, Begin(d, ids)) && i < |ids|
    requires Legal(host, Apply(host, s, Begin(d, ids)), moves) && Commit(d) !in moves && Abort(d) !in moves
    requires Enabled(host, Run(host, Apply(host, s, Begin(d, ids)), moves), Commit(d))
    ensures var begun := Apply(host, s, Begin(d, ids));
            && Unruled(host, begun, d, i) && RuledByAnswers(host, begun, Run(host, begun, moves), d, moves, i)
            && ids[i] in Run(host, begun, moves).rows
  {
    var begun := Apply(host, s, Begin(d, ids));
    StructureKept(host, s, Begin(d, ids));
    RowsSoundKept(host, s, Begin(d, ids));
    forall id | id in ids ensures id in s.rows && id in s.messages {
      assert id in Deliverable(s);
    }
    assert ids[i] in ids;
    StillHolding(host, s, begun, d, ids, moves);
    VerdictsAhead(host, begun, d, moves, i);
  }

  /** With none of its handlers run yet, a row succeeds when it can be reached and no handler answers otherwise. */
  lemma SucceedingAtFirst(host: Host, s: System, d: int, ids: seq<EventId>, i: nat, answers: seq<bool>)
    requires d in s.batches && s.batches[d] == Batch(ids, 0, 0, false, map[])
    requires i < |ids| && ids[i] in s.messages
    ensures Succeeding(host, s, d, i, answers) <==> Reachable(host, s.messages[ids[i]]) && false !in answers
    ensures StillToRun(host, s, d, i) == Handlers(host, s.messages[ids[i]].eventType)
  {
    assert StillToRun(host, s, d, i) == Handlers(host, s.messages[ids[i]].eventType);
  }

  lemma RowRuled(host: Host, s: System, d: int, ids: seq<EventId>, moves: seq<Step>, i: nat)
    requires Structure(s) && RowsSound(s) && Enabled(host, s, Begin(d, ids)) && i < |ids|
    requires Legal(host, Apply(host, s, Begin(d, ids)), moves) && Commit(d) !in moves && Abort(d) !in moves
    requires Enabled(host, Run(host, Apply(host, s, Begin(d, ids)), moves), Commit(d))
    ensures var t := Apply(host, Run(host, Apply(host, s, Begin(d, ids)), moves), Commit(d));
            && ids[i] in s.messages && ids[i] in s.rows && ids[i] in t.rows
            && Ruled(Reachable(host, s.messages[ids[i]]) && false !in Answers(moves, d, i),
                     s.rows[ids[i]], t.rows[ids[i]], s.now, t.now)
            && (Decodes(host, s.messages[ids[i]]) ==>
                  |Answers(moves, d, i)| == |Handlers(host, s.messages[ids[i]].eventType)|)
  {
    var begun := Apply(host, s, Begin(d, ids));
    RuledWithinBatch(host, s, d, ids, moves, i);
    SucceedingAtFirst(host, begun, d, ids, i, Answers(moves, d, i));
    CommitWritesVerdict(host, begun, Run(host, begun, moves), d, i,
                        Succeeding(host, begun, d, i, Answers(moves, d, i)));
  }

  lemma CommitWritesVerdict(host: Host, s: System, u: System, d: int, i: nat, success: bool)
    requires d in s.batches && i < |s.batches[d].ids| && s.batches[d].ids[i] in s.rows
    requires RuledBy(s, u, d, i, success) && s.batches[d].ids[i] in u.rows && Enabled(host, u, Commit(d))
    ensures var t, id := Apply(host, u, Commit(d)), s.batches[d].ids[i];
            id in t.rows && Ruled(success, s.rows[id], t.rows[id], s.now, t.now)
  {
  }

  /** Whoever else acts in between, a batch that commits rules on every row as its delivery went. */
  lemma BatchVerdicts(host: Host, s: System, d: int, ids: seq<EventId>, moves: seq<Step>)
    requires Structure(s) && RowsSound(s) && Enabled(host, s, Begin(d, ids))
    requires Legal(host, Apply(host, s, Begin(d, ids)), moves) && Commit(d) !in moves && Abort(d) !in moves
    requires Enabled(host, Run(host, Apply(host, s, Begin(d, ids)), moves), Commit(d))
    ensures BatchRuled(host, s, Apply(host, Run(host, Apply(host, s, Begin(d, ids)), moves), Commit(d)), d, ids, moves)
  {
    forall i | 0 <= i < |ids|
      ensures var t := Apply(host, Run(host, Apply(host, s, Begin(d, ids)), moves), Commit(d));
              && ids[i] in s.messages && ids[i] in s.rows && ids[i] in t.rows
              && Ruled(Reachable(host, s.messages[ids[i]]) && false !in Answers(moves, d, i),
                       s.rows[ids[i]], t.rows[ids[i]], s.now, t.now)
              && (Decodes(host, s.messages[ids[i]]) ==>
                    |Answers(moves, d, i)| == |Handlers(host, s.messages[ids[i]].eventType)|)
    {
      RowRuled(host, s, d, ids, moves, i);
    }
  }

  // ------------------------------------------------------------------
  // Which rows a batch takes
  // ------------------------------------------------------------------

  /** Neither processed nor dead, its next attempt come, and in no dispatcher's batch. */
  ghost predicate Waiting(s: System, id: EventId)
  {
    && id in s.rows && s.rows[id].processedAt == None && s.rows[id].deadLetteredAt == None
    && s.rows[id].nextAttemptAt <= s.now
    && forall e :: e in s.batches ==> id !in s.batches[e].ids
  }

  ghost function WaitingRows(s: System): set<EventId> {
    set id | id in s.rows && Waiting(s, id)
  }

  lemma DeliverableAreWaiting(s: System)
    requires Structure(s)
    ensures Deliverable(s) == WaitingRows(s)
  {
  }

  /** A batch takes the earliest fifty of the waiting rows. */
  lemma BatchTakesEarliest(host: Host, s: System, d: int, ids: seq<EventId>)
    requires Structure(s) && Enabled(host, s, Begin(d, ids))
    ensures EarliestFifty(s.messages, WaitingRows(s), ids)
  {
    DeliverableAreWaiting(s);
    FirstBatchIsEarliest(s.messages, Deliverable(s), ids);
  }

  // ------------------------------------------------------------------
  // Bursts of a dispatcher that has the database to itself
  // ------------------------------------------------------------------

  lemma {:induction false} NoneAnsweredFalse(moves: seq<Step>, d: int, i: nat)
    requires RunHandler(d, false) !in moves
    ensures false !in Answers(moves, d, i)
    decreases |moves|
  {
    if moves != [] {
      assert moves[0] in moves && forall m :: m in moves[1..] ==> m in moves;
      NoneAnsweredFalse(moves[1..], d, i);
      if i > 0 {
        NoneAnsweredFalse(moves[1..], d, i - 1);
      }
    }
  }

  /**
   From `s` to `t` the rows still waiting are as they were and each other row that waited had one
   verdict, which is the right one unless a handler answered that it failed; no other row changed.
   */
  ghost predicate Drained(host: Host, s: System, t: System, d: int, moves: seq<Step>)
  {
    && t.now == s.now && t.messages == s.messages && Deliverable(t) <= Deliverable(s)
    && t.rows.Keys == s.rows.Keys
    && (forall id :: id in s.rows && (id in Deliverable(t) || id !in Deliverable(s)) ==> t.rows[id] == s.rows[id])
    && (forall id :: id in Deliverable(s) && id !in Deliverable(t) ==>
          && (Published(s.rows[id], t.rows[id], s.now, s.now) || FailedAgain(s.rows[id], t.rows[id], s.now, s.now))
          && (RunHandler(d, false) !in moves ==>
                Ruled(Reachable(host, s.messages[id]), s.rows[id], t.rows[id], s.now, s.now)))
  }

  lemma DrainedFurther(
    host: Host, s: System, t: System, u: System, d: int, moves: seq<Step>, more: seq<Step>)
    requires Drained(host, s, t, d, moves) && Drained(host, t, u, d, more)
    ensures Drained(host, s, u, d, moves + more)
  {
    assert forall m :: m in moves || m in more ==> m in moves + more;
    forall id | id in Deliverable(s) && id !in Deliverable(u)
      ensures Published(s.rows[id], u.rows[id], s.now, s.now) || FailedAgain(s.rows[id], u.rows[id], s.now, s.now)
      ensures RunHandler(d, false) !in moves + more ==>
                Ruled(Reachable(host, s.messages[id]), s.rows[id], u.rows[id], s.now, s.now)
    {
      if id in Deliverable(t) {
        assert t.rows[id] == s.rows[id];
      } else {
        assert u.rows[id] == t.rows[id];
      }
    }
  }

  lemma DrainedBesides(host: Host, s: System, t: System, d: int, moves: seq<Step>, steps: seq<Step>)
    requires Drained(host, s, t, d, moves) && forall step :: step in moves ==> step in steps
    ensures Drained(host, s, t, d, steps)
  {
  }
}
