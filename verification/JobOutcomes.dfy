/** When each operation of the job manager is granted, and what it then leaves behind. */
module JobOutcomes {
  import opened Wrappers
  import opened Unicode
  import opened Jobs

  /** Some execution is under way, in the background or not. */
  ghost predicate Occupied(m: Manager) { m.syncActive || exists id :: Unfinished(m, id) }

  lemma OccupiedIs(m: Manager)
    requires Ok(m)
    ensures SlotTaken(m) <==> Occupied(m)
    ensures !Occupied(m) ==> m.lease.None? && m.active.None?
  {
    hide JobOk;
  }

  /** A start succeeds exactly when it is valid, nothing is under way, the workspace grants
      its lease and the thread starts; the new job then waits, holds the lease and is empty. */
  lemma {:induction false} StartDue(m: Manager, id: Id, taskLength: nat, valid: bool, answer: Lease, threadStarts: bool,
                                    now: nat)
    requires Ok(m) && id !in m.issued
    ensures var (n, a) := Apply(m, StartJob(id, taskLength, valid, answer, threadStarts, now));
            && a == (if !valid then Invalid else if Occupied(m) then Busy
                     else match answer
                          case HeldElsewhere => Busy
                          case Unavailable => LeaseFailed
                          case PendingRecords => RecoveryRequired
                          case Granted => if threadStarts then Done else NoThread)
            && (a.Done? || a.NoThread? ==> id in n.issued)
            && (a.Done? ==>
                  && id in n.jobs && n.active == Some(id) && n.lease == Some(Worker(id)) && Occupied(n)
                  && n.jobs[id] == Job(taskLength, Queued, now, None, None, None, false, false, false, false,
                                       [], 0, true))
  {
    OccupiedIs(m);
    var f := FreeSlot(m);
    var k := f.(order := f.order + [id], jobs := f.jobs[id := NewJob(taskLength, now)], active := Some(id),
                lease := Some(Worker(id)), issued := f.issued + {id});
    KeptByPruning(k, id);
    assert !Prunable(k, id);
    if Apply(m, StartJob(id, taskLength, valid, answer, threadStarts, now)).1.Done? {
      assert Unfinished(Apply(m, StartJob(id, taskLength, valid, answer, threadStarts, now)).0, id);
    }
    hide Ok, Pruned;
  }

  /** A synchronous run likewise, and its end leaves the slot and the lease free. */
  lemma {:induction false} RunSyncDue(m: Manager, valid: bool, answer: Lease)
    requires Ok(m)
    ensures var (n, a) := Apply(m, Op.RunSync(valid, answer));
            && a == (if !valid then Invalid else if Occupied(m) then Busy
                     else match answer
                          case HeldElsewhere => Busy
                          case Unavailable => LeaseFailed
                          case PendingRecords => RecoveryRequired
                          case Granted => Done)
            && (a.Done? ==> n.syncActive && n.lease == Some(Sync) && n.jobs == m.jobs)
    ensures m.syncActive ==>
              var n := Apply(m, EndSync).0; !Occupied(n) && n.lease.None? && n.jobs == m.jobs
  {
    OccupiedIs(m);
    hide JobOk;
  }

  // A run

  lemma BeginDue(m: Manager, id: Id)
    requires Enabled(m, BeginRun(id))
    ensures var n := Apply(m, BeginRun(id)).0;
            n.jobs == m.jobs[id := m.jobs[id].(status := Running)] && n.(jobs := m.jobs) == m
  {
  }

  /** A run that was not cancelled stores what it handed back, and frees slot and lease. */
  lemma {:induction false} FinishDue(m: Manager, id: Id, o: Outcome, now: nat)
    requires Ok(m) && Enabled(m, FinishRun(id, o, now)) && !m.jobs[id].cancelSet && !o.status.Cancelled?
    ensures var n := Apply(m, FinishRun(id, o, now)).0;
            && id in n.jobs && !Occupied(n) && n.lease.None?
            && var j := n.jobs[id];
               && j.status == o.status && j.finished == Some(now) && !j.cancelSet
               && j.taskLength == m.jobs[id].taskLength
               && (if o.status.Completed? then j.result == o.result else j.result.None?)
               && (if o.error.Some? then j.error == Some(Reported(o.error.value)) else j.error.None?)
  {
    FinishOk(m, id, o, now);
    var n := Apply(m, FinishRun(id, o, now)).0;
    OccupiedIs(n);
    assert m.active == Some(id);
    assert Slot(n) && n.active.None? && !n.syncActive;
    hide MailboxOk;
  }

  /** What such a run stored is what the job shows from then on, whatever operations follow. */
  lemma {:induction false} ResultIsKept(m: Manager, ops: seq<Op>, id: Id, o: Outcome, now: nat)
    requires Ok(m) && Possible(m, [FinishRun(id, o, now)] + ops) && !m.jobs[id].cancelSet && !o.status.Cancelled?
    ensures var n := Run(m, [FinishRun(id, o, now)] + ops);
            id in n.jobs ==>
              && n.jobs[id].status == o.status && n.jobs[id].finished == Some(now)
              && (o.status.Completed? ==> n.jobs[id].result == o.result)
              && (o.error.Some? ==> n.jobs[id].error == Some(Reported(o.error.value)))
  {
    var all := [FinishRun(id, o, now)] + ops;
    assert all[0] == FinishRun(id, o, now) && all[1..] == ops;
    FinishDue(m, id, o, now);
    ApplyOk(m, FinishRun(id, o, now));
    var n := Apply(m, FinishRun(id, o, now)).0;
    hide Ok, Apply, Enabled;
    TerminalIsFinal(n, ops, id);
  }

  /** A cancelled run keeps no result. Its error lists the mutations that it would have
      returned, or is its own, if it must be preserved or tells of the cancellation. */
  lemma {:induction false} CancelledFinishDue(m: Manager, id: Id, o: Outcome, now: nat)
    requires Ok(m) && Enabled(m, FinishRun(id, o, now)) && (m.jobs[id].cancelSet || o.status.Cancelled?)
    ensures var n := Apply(m, FinishRun(id, o, now)).0;
            && id in n.jobs && !Occupied(n) && n.lease.None?
            && var j := n.jobs[id];
               && j.status.Cancelled? && j.result.None? && j.finished == Some(now) && j.cancelSet
               && j.error == (if o.result.Some? && o.result.value.mutated then Some(NeedsReview(o.result.value))
                              else if !o.preserve && !o.status.Cancelled? then Some(CancelledByParent)
                              else if o.error.Some? then Some(Reported(o.error.value))
                              else None)
  {
    FinishOk(m, id, o, now);
    var n := Apply(m, FinishRun(id, o, now)).0;
    OccupiedIs(n);
    assert m.active == Some(id);
    assert Slot(n) && n.active.None? && !n.syncActive;
    hide MailboxOk;
  }

  /** A cancellation is accepted exactly for a job that is stored, not finished and not yet
      cancelled; its mailbox is then empty and closed. */
  lemma {:induction false} CancelDue(m: Manager, id: Id)
    ensures var (n, a) := Apply(m, Op.Cancel(id));
            && a == (if id !in m.jobs then NotFound
                     else CancelAnswer(!Terminal(m.jobs[id].status) && !m.jobs[id].cancelSet))
            && (a == CancelAnswer(true) ==>
                  && id in n.jobs && n.jobs[id].cancelSet && n.jobs[id].messages == [] && !n.jobs[id].accepting
                  && n.jobs[id].status == m.jobs[id].status)
            && (a != CancelAnswer(true) ==> n == m)
  {
  }

  // The mailbox

  /** A message to a running job is queued, after those that wait, exactly when it is text
      within 64 KiB, the mailbox is open, and it holds fewer than 32 messages and has room
      for this one within 256 KiB. */
  lemma {:induction false} SendDue(m: Manager, id: Id, message: Text)
    requires Ok(m) && id in m.jobs && !Terminal(m.jobs[id].status)
    ensures var (n, a) := Apply(m, Op.SendMessage(id, message)); var j := m.jobs[id];
            && (a == Message(Queue) <==>
                && !Blank(message) && Encodable(message) && Utf8(message) <= MAX_STEERING_MESSAGE_BYTES
                && j.accepting && |j.messages| < MAX_QUEUED_MESSAGES
                && Bytes(j.messages) + Utf8(message) <= MAX_QUEUED_MESSAGE_BYTES)
            && (if a == Message(Queue) then id in n.jobs && n.jobs[id].messages == j.messages + [message]
                else n == m)
            && (Blank(message) ==> a == Message(EmptyMessage))
            && (!Blank(message) && !j.accepting && Encodable(message) && Utf8(message) <= MAX_STEERING_MESSAGE_BYTES ==>
                  a == Message(Closed))
  {
    LengthWithinBytes(message);
    hide Blank, Encodable, Utf8, Bytes;
    assert JobOk(m.jobs[id]);
    assert m.jobs[id := m.jobs[id]] == m.jobs;
  }

  /** No other job takes a message. */
  lemma SendElsewhere(m: Manager, id: Id, message: Text)
    requires id !in m.jobs || Terminal(m.jobs[id].status)
    ensures Apply(m, Op.SendMessage(id, message)) == (m, if id in m.jobs then AlreadyTerminal else NotFound)
  {
  }

  /** A drain hands out everything that waits; one that finds nothing and finalizes closes
      the mailbox. */
  lemma DrainDue(m: Manager, id: Id, finalize: bool)
    requires Enabled(m, Op.DrainMessages(id, finalize))
    ensures var (n, a) := Apply(m, Op.DrainMessages(id, finalize)); var j := m.jobs[id];
            && a == Batch(j.messages) && id in n.jobs && n.jobs[id].messages == []
            && (n.jobs[id].accepting <==> j.accepting && !(finalize && j.messages == []))
  {
  }

  lemma ClosedStep(m: Manager, op: Op, id: Id)
    requires Ok(m) && Enabled(m, op) && id in m.jobs && !m.jobs[id].accepting
    ensures var (n, a) := Apply(m, op);
            && (op.SendMessage? && op.id == id ==> a != Message(Queue))
            && (id in n.jobs ==> !n.jobs[id].accepting)
  {
    Jobs.OneStep(m, op, id);
    hide Ok, Pruned, StartedJob;
  }

  /** After a drain that found nothing and finalized, no message is ever accepted again. */
  lemma {:induction false} ClosedForGood(m: Manager, ops: seq<Op>, id: Id, i: nat)
    requires Ok(m) && Possible(m, ops) && id in m.jobs && !m.jobs[id].accepting
    requires i < |ops| && ops[i].SendMessage? && ops[i].id == id
    ensures Answers(m, ops)[i] != Message(Queue)
    decreases |ops|
  {
    var n := Apply(m, ops[0]).0;
    ApplyOk(m, ops[0]);
    ClosedStep(m, ops[0], id);
    IssuedGrows(m, ops[0]);
    assert id in m.issued;
    hide Ok, Apply, Enabled;
    if i > 0 {
      if id in n.jobs {
        ClosedForGood(n, ops[1..], id, i - 1);
      } else {
        NothingWhenGone(n, ops[1..], id, i - 1);
      }
    }
  }

  lemma {:induction false} NothingWhenGone(m: Manager, ops: seq<Op>, id: Id, i: nat)
    requires Ok(m) && Possible(m, ops) && id in m.issued && id !in m.jobs
    requires i < |ops| && ops[i].SendMessage? && ops[i].id == id
    ensures Answers(m, ops)[i] != Message(Queue)
    decreases |ops|
  {
    ApplyOk(m, ops[0]);
    OnceIssued(m, ops[0], id);
    hide Ok, Enabled;
    if i > 0 {
      hide Apply;
      NothingWhenGone(Apply(m, ops[0]).0, ops[1..], id, i - 1);
    }
  }

  // Usage

  /** The usage of a completed job is handed out, with exactly its task length and result,
      while nobody holds or has recorded it. */
  lemma {:induction false} ClaimDue(m: Manager, id: Id)
    requires Ok(m)
    ensures var (n, a) := Apply(m, Op.ClaimUsage(id));
            && (a.NotFound? <==> id !in m.jobs)
            && (id in m.jobs ==>
                  var j := m.jobs[id];
                  if j.status.Completed? && !j.usageRecorded && !j.usageRecording then
                    && j.result.Some? && a == Claim(Some((j.taskLength, j.result.value)))
                    && n == m.(jobs := m.jobs[id := j.(usageRecording := true)])
                  else a == Claim(None) && n == m)
  {
    assert id in m.jobs ==> JobOk(m.jobs[id]);
  }

  /** Who holds it gives it back recorded, and it is never handed out again, or not recorded,
      and it can be claimed like before. */
  lemma {:induction false} FinishUsageDue(m: Manager, id: Id, persisted: bool)
    requires Ok(m) && id in m.jobs && m.jobs[id].usageRecording
    ensures var n := Apply(m, Op.FinishUsage(id, persisted)).0; var j := m.jobs[id];
            && n == m.(jobs := m.jobs[id := j.(usageRecording := false, usageRecorded := persisted)])
            && (!persisted ==> j.result.Some?
                               && Apply(n, Op.ClaimUsage(id)).1 == Claim(Some((j.taskLength, j.result.value))))
  {
    assert JobOk(m.jobs[id]);
  }

  // Every job of every run

  /** What can be relied on for any job that the manager shows, at any time. */
  lemma {:induction false} EveryJob(ops: seq<Op>, id: Id)
    requires Possible(Empty, ops) && id in Run(Empty, ops).jobs
    ensures var j := Run(Empty, ops).jobs[id];
            var ended := j.status.Completed? || j.status.Failed? || j.status.Cancelled?;
            && (j.finished.Some? <==> ended) && (j.finishedSet <==> ended)
            && (j.result.Some? <==> j.status.Completed?) && (ended ==> (j.cancelSet <==> j.status.Cancelled?))
            && (ended || j.cancelSet ==> !j.accepting && j.messages == [])
            && (!j.accepting ==> j.messages == [])
            && |j.messages| <= 32 && j.queuedBytes == Bytes(j.messages) <= 256 * 1024
            && (forall message | message in j.messages :: Encodable(message) && 0 < Utf8(message) <= 64 * 1024)
            && (j.usageRecording ==> j.status.Completed? && !j.usageRecorded)
            && (j.usageRecorded ==> j.status.Completed?)
  {
    RunOk(Empty, ops);
    var j := Run(Empty, ops).jobs[id];
    hide Run, Possible, Slot, Indexed;
    assert JobOk(j) && MailboxOk(j);
    forall message | message in j.messages ensures Encodable(message) && 0 < Utf8(message) <= 64 * 1024 {
      var i :| 0 <= i < |j.messages| && j.messages[i] == message;
      assert !Blank(j.messages[i]) && Encodable(j.messages[i]);
      LengthWithinBytes(message);
    }
  }

  // Pruning

  /** Ended, and nobody is recording its usage. */
  predicate Spare(j: Job) { !j.status.Queued? && !j.status.Running? && !j.usageRecording }

  function Spares(m: Manager): set<Id> { set id | id in m.jobs && Spare(m.jobs[id]) }

  /** Ended earlier, or at the same time and started earlier. */
  predicate EndedBefore(m: Manager, a: Id, b: Id)
    requires a in m.order && b in m.order && a in m.jobs && b in m.jobs
  {
    match (m.jobs[a].finished, m.jobs[b].finished)
    case (Some(s), Some(t)) => s < t || (s == t && Place(m.order, a) < Place(m.order, b))
    case _ => false
  }

  /** Pruning does nothing to fewer than 20 spare jobs, and leaves the 19 of them that ended
      last of more; every other job stays as it is. */
  lemma {:induction false} PruneDue(m: Manager)
    requires Ok(m)
    ensures var n, spares := Pruned(m), Spares(m);
            && (if |spares| < 20 then Spares(n) == spares else |Spares(n)| == 19 && Spares(n) <= spares)
            && (forall id :: id in n.jobs <==> id in m.jobs && (id in spares ==> id in Spares(n)))
            && (forall id | id in n.jobs :: n.jobs[id] == m.jobs[id])
            && (forall a, b | a in spares && a !in n.jobs && b in Spares(n) ::
                  a in m.order && b in m.order && EndedBefore(m, a, b))
  {
    PruneRemovesOldest(m);
    PruneLeaves(m);
    PrunedOk(m);
    var n := Pruned(m);
    SparesAre(m);
    SparesAre(n);
    hide Pruned, Place, Spares, Candidates;
    assert forall id | id in m.jobs :: JobOk(m.jobs[id]) && id in m.order;
    forall id ensures id in n.jobs <==> id in m.jobs && (id in Spares(m) ==> id in Spares(n)) {
      SpareIs(m, id);
      SpareIs(n, id);
    }
    forall a, b | a in Spares(m) && a !in n.jobs && b in Spares(n)
      ensures a in m.order && b in m.order && EndedBefore(m, a, b)
    {
      SpareIs(m, a);
      SpareIs(n, b);
      assert Older(m, m.order, a, b);
    }
    if |Spares(m)| < 20 {
      forall id | id in Spares(n) ensures id in Spares(m) {
        SpareIs(m, id);
        SpareIs(n, id);
      }
      SameSize(Spares(n), Spares(m));
    }
  }

  lemma SparesAre(m: Manager)
    ensures Spares(m) == Candidates(m)
  {
  }

  lemma SpareIs(m: Manager, id: Id)
    ensures id in Spares(m) <==> id in m.jobs && Spare(m.jobs[id])
    ensures id in m.jobs ==> (Spare(m.jobs[id]) <==> Prunable(m, id))
  {
  }

  lemma SameSize<T>(a: set<T>, b: set<T>)
    requires a <= b && |a| == |b|
    ensures a == b
  {
    assert b == a + (b - a);
    assert |b| == |a| + |b - a|;
  }
}
