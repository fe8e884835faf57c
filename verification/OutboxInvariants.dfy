/** What every step of the outbox system keeps, whatever the interleaving. */
module OutboxInvariants {
  import opened OrdersContracts
  import opened OutboxTables
  import opened OutboxSystem

  // ------------------------------------------------------------------
  // Locks and batches
  // ------------------------------------------------------------------

  ghost predicate BatchShape(s: System, b: Batch)
  {
    && b.at <= |b.ids|
    && (forall i, j :: 0 <= i < j < |b.ids| ==> b.ids[i] != b.ids[j])
    && (forall i :: 0 <= i < |b.ids| ==> b.ids[i] in s.rows && Due(s.rows[b.ids[i]], s.now))
    && (forall id :: id in b.updates <==> id in b.ids[..b.at])
  }

  /** No row is locked by two batches. */
  ghost predicate LocksExclusive(batches: map<int, Batch>)
  {
    forall d, e, id :: d in batches && e in batches && d != e && id in batches[d].ids ==> id !in batches[e].ids
  }

  ghost predicate Structure(s: System)
  {
    && s.messages.Keys == s.rows.Keys
    && (forall d :: d in s.batches ==> BatchShape(s, s.batches[d]))
    && LocksExclusive(s.batches)
  }

  lemma LockedIsLocked(batches: map<int, Batch>, d: int, id: EventId)
    requires d in batches && id in batches[d].ids
    ensures id in LockedBy(batches)
  {
  }

  /** A batch is untouched by a step that leaves its own rows and the past alone. */
  lemma BatchShapeFrame(s: System, t: System, b: Batch)
    requires BatchShape(s, b)
    requires forall id :: id in b.ids ==> id in t.rows && (id in s.rows ==> t.rows[id] == s.rows[id])
    requires s.now <= t.now
    ensures BatchShape(t, b)
  {
    forall i | 0 <= i < |b.ids| ensures b.ids[i] in t.rows && Due(t.rows[b.ids[i]], t.now) {
      assert b.ids[i] in b.ids;
    }
  }

  lemma BeginShape(s: System, ids: seq<EventId>)
    requires Structure(s)
    requires IsFirstBatch(s.messages, Deliverable(s), ids)
    ensures BatchShape(s, Batch(ids, 0, 0, false, map[]))
    ensures forall d, id :: d in s.batches && id in s.batches[d].ids ==> id !in ids
  {
    forall i, j | 0 <= i < j < |ids| ensures ids[i] != ids[j] {
      assert Before(s.messages, ids[i], ids[j]);
    }
    forall i | 0 <= i < |ids| ensures ids[i] in s.rows && Due(s.rows[ids[i]], s.now) {
      assert ids[i] in Deliverable(s);
    }
    forall d, i | d in s.batches && 0 <= i < |ids| ensures ids[i] !in s.batches[d].ids {
      assert ids[i] in Deliverable(s);
      if ids[i] in s.batches[d].ids {
        LockedIsLocked(s.batches, d, ids[i]);
      }
    }
  }

  /** A step that opens no batch and leaves the locked rows alone keeps the structure. */
  lemma StructureFrame(s: System, t: System)
    requires Structure(s)
    requires t.messages.Keys == t.rows.Keys && s.now <= t.now
    requires forall e :: e in t.batches ==> e in s.batches && t.batches[e] == s.batches[e]
    requires forall e, id :: e in t.batches && id in s.batches[e].ids ==> id in t.rows && t.rows[id] == s.rows[id]
    ensures Structure(t)
  {
    forall e | e in t.batches ensures BatchShape(t, t.batches[e]) {
      forall id | id in t.batches[e].ids ensures id in t.rows && t.rows[id] == s.rows[id] {
      }
      BatchShapeFrame(s, t, t.batches[e]);
    }
  }

  lemma LockedRowIsDue(s: System, d: int, id: EventId)
    requires Structure(s) && d in s.batches && id in s.batches[d].ids
    ensures id in s.rows && Due(s.rows[id], s.now)
  {
    var i :| 0 <= i < |s.batches[d].ids| && s.batches[d].ids[i] == id;
  }

  lemma BeginKeepsStructure(host: Host, s: System, d: int, ids: seq<EventId>)
    requires Structure(s) && Enabled(host, s, Begin(d, ids))
    ensures Structure(Apply(host, s, Begin(d, ids)))
  {
    var t := Apply(host, s, Begin(d, ids));
    BeginShape(s, ids);
    forall e | e in t.batches ensures BatchShape(t, t.batches[e]) {
      if e != d {
        BatchShapeFrame(s, t, s.batches[e]);
      }
    }
    forall e, f, id | e in t.batches && f in t.batches && e != f && id in t.batches[e].ids
      ensures id !in t.batches[f].ids
    {
      if e == d {
        assert id in ids && id !in s.batches[f].ids;
      } else if f == d {
        assert id !in ids;
      }
    }
  }

  lemma BatchMoveKeepsStructure(s: System, t: System, d: int)
    requires Structure(s) && d in s.batches && d in t.batches
    requires t.messages == s.messages && t.rows == s.rows && t.now == s.now
    requires t.batches == s.batches[d := t.batches[d]] && t.batches[d].ids == s.batches[d].ids
    requires BatchShape(s, t.batches[d])
    ensures Structure(t)
  {
    forall e | e in t.batches ensures BatchShape(t, t.batches[e]) {
      BatchShapeFrame(s, t, t.batches[e]);
    }
  }

  lemma SettleKeepsStructure(host: Host, s: System, d: int)
    requires Structure(s) && Enabled(host, s, Settle(d))
    ensures Structure(Apply(host, s, Settle(d)))
  {
    var b := s.batches[d];
    assert b.ids[..b.at + 1] == b.ids[..b.at] + [b.ids[b.at]];
    BatchMoveKeepsStructure(s, Apply(host, s, Settle(d)), d);
  }

  lemma CommitKeepsStructure(host: Host, s: System, d: int)
    requires Structure(s) && Enabled(host, s, Commit(d))
    ensures Structure(Apply(host, s, Commit(d)))
  {
    var t := Apply(host, s, Commit(d));
    var b := s.batches[d];
    assert b.ids[..b.at] == b.ids;
    forall e, id | e in t.batches && id in s.batches[e].ids
      ensures id in t.rows && t.rows[id] == s.rows[id]
    {
      LockedRowIsDue(s, e, id);
      assert id !in b.ids && id !in b.updates;
    }
    StructureFrame(s, t);
  }

  lemma RunHandlerKeepsStructure(host: Host, s: System, d: int, ok: bool)
    requires Structure(s) && Enabled(host, s, RunHandler(d, ok))
    ensures Structure(Apply(host, s, RunHandler(d, ok)))
  {
    var t := Apply(host, s, RunHandler(d, ok));
    assert t.messages == s.messages && t.rows == s.rows && t.now == s.now;
    BatchMoveKeepsStructure(s, t, d);
  }

  lemma SendBackKeepsStructure(host: Host, s: System, letter: EventId)
    requires Structure(s) && Enabled(host, s, SendBack(letter))
    ensures Structure(Apply(host, s, SendBack(letter)))
  {
    var t := Apply(host, s, SendBack(letter));
    forall e, id | e in t.batches && id in s.batches[e].ids
      ensures id in t.rows && t.rows[id] == s.rows[id]
    {
      LockedRowIsDue(s, e, id);
    }
    StructureFrame(s, t);
  }

  /** A step that keeps every row, and no batch it did not find. */
  lemma RowsKeptKeepsStructure(s: System, t: System)
    requires Structure(s)
    requires t.messages.Keys == t.rows.Keys && s.now <= t.now
    requires forall id :: id in s.rows ==> id in t.rows && t.rows[id] == s.rows[id]
    requires forall e :: e in t.batches ==> e in s.batches && t.batches[e] == s.batches[e]
    ensures Structure(t)
  {
    forall e, id | e in t.batches && id in s.batches[e].ids
      ensures id in t.rows && t.rows[id] == s.rows[id]
    {
      LockedRowIsDue(s, e, id);
    }
    StructureFrame(s, t);
  }

  lemma PublishKeepsStructure(host: Host, s: System, step: Step)
    requires Structure(s) && Enabled(host, s, step) && (step.Finalize? || step.Publish?)
    ensures Structure(Apply(host, s, step))
  {
    RowsKeptKeepsStructure(s, Apply(host, s, step));
  }

  lemma StructureKept(host: Host, s: System, step: Step)
    requires Structure(s) && Enabled(host, s, step)
    ensures Structure(Apply(host, s, step))
  {
    match step
    case Begin(d, ids) => BeginKeepsStructure(host, s, d, ids);
    case RunHandler(d, ok) => RunHandlerKeepsStructure(host, s, d, ok);
    case Settle(d) => SettleKeepsStructure(host, s, d);
    case Commit(d) => CommitKeepsStructure(host, s, d);
    case SendBack(letter) => SendBackKeepsStructure(host, s, letter);
    case Finalize(_, _, _, _) => PublishKeepsStructure(host, s, step);
    case Publish(_, _, _) => PublishKeepsStructure(host, s, step);
    case _ =>
      QuietStep(host, s, step);
      RowsKeptKeepsStructure(s, Apply(host, s, step));
  }
}
