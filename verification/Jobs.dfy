/** The background job manager (`job_manager.py`): one execution slot per manager, the
    steering mailbox of each job, cancellation, usage claims and pruning. Every operation
    runs under the manager lock; a run of the manager is a sequence of operations. */
module Jobs {
  import opened Wrappers
  import opened Unicode

  const MAX_RETAINED_JOBS := 20
  const MAX_STEERING_MESSAGE_BYTES := 64 * 1024
  const MAX_QUEUED_MESSAGES := 32
  const MAX_QUEUED_MESSAGE_BYTES := 256 * 1024

  type Id = nat

  datatype Status = Queued | Running | Completed | Failed | Cancelled

  /** A result payload; `mutated` when it lists mutation records. */
  datatype Result = Result(content: nat, mutated: bool)

  datatype Problem = Reported(error: nat) | CancelledByParent | NeedsReview(records: Result)

  datatype Job = Job(
    taskLength: nat, status: Status, created: nat, finished: Option<nat>,
    result: Option<Result>, error: Option<Problem>,
    usageRecorded: bool, usageRecording: bool, cancelSet: bool, finishedSet: bool,
    messages: seq<Text>, queuedBytes: nat, accepting: bool)

  predicate Terminal(s: Status) { s.Completed? || s.Failed? || s.Cancelled? }

  // The mailbox

  datatype Queueing = Queue | EmptyMessage | TooLong | NotUnicode | Closed | TooMany | TooManyBytes

  /** `_bounded_text_bytes`, then the mailbox limits, in the order of the source. */
  function Admission(j: Job, message: Text): Queueing {
    if Blank(message) then EmptyMessage
    else if |message| > MAX_STEERING_MESSAGE_BYTES then TooLong
    else if !Encodable(message) then NotUnicode
    else if Utf8(message) > MAX_STEERING_MESSAGE_BYTES then TooLong
    else if !j.accepting then Closed
    else if |j.messages| >= MAX_QUEUED_MESSAGES then TooMany
    else if j.queuedBytes + Utf8(message) > MAX_QUEUED_MESSAGE_BYTES then TooManyBytes
    else Queue
  }

  function Enqueued(j: Job, message: Text): Job {
    if Admission(j, message).Queue?
    then j.(messages := j.messages + [message], queuedBytes := j.queuedBytes + Utf8(message))
    else j
  }

  function Drained(j: Job, finalizeIfEmpty: bool): Job {
    if j.messages != [] then j.(messages := [], queuedBytes := 0)
    else if finalizeIfEmpty then j.(accepting := false)
    else j
  }

  function Shut(j: Job): Job { j.(accepting := false, messages := [], queuedBytes := 0) }

  function Bytes(messages: seq<Text>): nat {
    if messages == [] then 0 else Bytes(messages[..|messages| - 1]) + Utf8(messages[|messages| - 1])
  }

  /** Count and byte total match the contents and their limits; a closed box is empty. */
  predicate MailboxOk(j: Job) {
    && j.queuedBytes == Bytes(j.messages) <= MAX_QUEUED_MESSAGE_BYTES
    && |j.messages| <= MAX_QUEUED_MESSAGES
    && (forall i | 0 <= i < |j.messages| ::
          !Blank(j.messages[i]) && Encodable(j.messages[i]) && Utf8(j.messages[i]) <= MAX_STEERING_MESSAGE_BYTES)
    && (!j.accepting ==> j.messages == [])
  }

  lemma EnqueuedKept(j: Job, message: Text)
    requires MailboxOk(j)
    ensures MailboxOk(Enqueued(j, message))
  {
    hide Blank, Encodable, Utf8;
    var all := j.messages + [message];
    assert all[..|j.messages|] == j.messages && all[|all| - 1] == message;
    assert Bytes(all) == Bytes(j.messages) + Utf8(message);
    hide Bytes;
  }

  lemma DrainedKept(j: Job, finalizeIfEmpty: bool)
    requires MailboxOk(j)
    ensures MailboxOk(Drained(j, finalizeIfEmpty)) && MailboxOk(Shut(j))
  {
    hide Blank, Encodable, Utf8;
    assert Bytes([]) == 0;
    hide Bytes;
  }

  // One job

  datatype Outcome = Outcome(status: Status, result: Option<Result>, error: Option<nat>, preserve: bool)

  /** What a run of the agent can hand back. */
  predicate Proper(o: Outcome) {
    && Terminal(o.status)
    && (o.status.Completed? <==> o.result.Some?)
    && (!o.status.Completed? ==> o.error.Some?)
  }

  function Report(error: Option<nat>): Option<Problem> { if error.Some? then Some(Reported(error.value)) else None }

  /** `_apply_cancelled_outcome`: the error of a cancelled job. */
  function CancelledError(o: Outcome): Option<Problem> {
    if o.result.Some? && o.result.value.mutated then Some(NeedsReview(o.result.value))
    else if o.preserve then Report(o.error)
    else if o.status.Cancelled? then Report(o.error)
    else Some(CancelledByParent)
  }

  function Finished(j: Job, o: Outcome, now: nat): Job {
    var ended :=
      if j.cancelSet || o.status.Cancelled?
      then j.(cancelSet := true, status := Cancelled, result := None, error := CancelledError(o))
      else j.(status := o.status, result := if o.status.Completed? then o.result else None, error := Report(o.error));
    Shut(ended.(finished := Some(now))).(finishedSet := true)
  }

  function NewJob(taskLength: nat, now: nat): Job {
    Job(taskLength, Queued, now, None, None, None, false, false, false, false, [], 0, true)
  }

  predicate JobOk(j: Job) {
    && MailboxOk(j)
    && (j.finished.Some? <==> Terminal(j.status)) && (j.finishedSet <==> Terminal(j.status))
    && (Terminal(j.status) ==> !j.accepting)
    && (j.result.Some? <==> j.status.Completed?)
    && (Terminal(j.status) ==> (j.cancelSet <==> j.status.Cancelled?))
    && (j.cancelSet ==> !j.accepting)
    && (j.usageRecording ==> j.status.Completed? && !j.usageRecorded)
    && (j.usageRecorded ==> j.status.Completed?)
  }

  // The manager

  datatype Owner = Sync | Worker(id: Id)

  /** `order` is the insertion order of the dictionary; `issued` are all ids ever drawn. */
  datatype Manager = Manager(
    order: seq<Id>, jobs: map<Id, Job>, active: Option<Id>, syncActive: bool,
    lease: Option<Owner>, issued: set<Id>)

  /** How the workspace answers an attempt to take its lease and pass the pending check. */
  datatype Lease = Granted | HeldElsewhere | Unavailable | PendingRecords

  datatype Op =
    | RunSync(valid: bool, answer: Lease)
    | EndSync
    | StartJob(id: Id, taskLength: nat, valid: bool, answer: Lease, threadStarts: bool, now: nat)
    | BeginRun(id: Id)
    | FinishRun(id: Id, outcome: Outcome, now: nat)
    | SendMessage(id: Id, message: Text)
    | DrainMessages(id: Id, finalizeIfEmpty: bool)
    | Cancel(id: Id)
    | ClaimUsage(id: Id)
    | FinishUsage(id: Id, persisted: bool)

  datatype Answer =
    | Done
    | Invalid
    | Busy
    | LeaseFailed
    | RecoveryRequired
    | NoThread
    | NotFound
    | AlreadyTerminal
    | Message(queueing: Queueing)
    | Batch(messages: seq<Text>)
    | CancelAnswer(accepted: bool)
    | Claim(claimed: Option<(nat, Result)>)

  predicate Unfinished(m: Manager, id: Id) { id in m.jobs && !Terminal(m.jobs[id].status) }

  predicate SlotTaken(m: Manager) {
    m.syncActive || (m.active.Some? && Unfinished(m, m.active.value))
  }

  function FreeSlot(m: Manager): Manager { m.(active := None) }

  /** A second open of the lock file conflicts with a lease of one's own too. */
  function Answered(m: Manager, answer: Lease): Lease {
    if m.lease.Some? then HeldElsewhere else answer
  }

  function Rejection(a: Lease): Answer {
    match a
    case Granted => Done
    case HeldElsewhere => Busy
    case Unavailable => LeaseFailed
    case PendingRecords => RecoveryRequired
  }

  function Key(j: Job): nat { if j.finished.Some? then j.finished.value else j.created }

  predicate Prunable(m: Manager, id: Id) {
    id in m.jobs && Terminal(m.jobs[id].status) && !m.jobs[id].usageRecording
  }

  function Prunables(m: Manager, order: seq<Id>): seq<Id> {
    if order == [] then []
    else (if Prunable(m, order[0]) then [order[0]] else []) + Prunables(m, order[1..])
  }

  /** The stable sort by finishing time. */
  function Insert(m: Manager, id: Id, sorted: seq<Id>): seq<Id>
    requires id in m.jobs && forall x | x in sorted :: x in m.jobs
  {
    if sorted == [] || Key(m.jobs[id]) <= Key(m.jobs[sorted[0]]) then [id] + sorted
    else [sorted[0]] + Insert(m, id, sorted[1..])
  }

  function Sorted(m: Manager, ids: seq<Id>): (r: seq<Id>)
    requires forall x | x in ids :: x in m.jobs
    ensures |r| == |ids| && forall id :: id in r <==> id in ids
  {
    if ids == [] then [] else
      var rest := Sorted(m, ids[1..]);
      InsertMembers(m, ids[0], rest);
      Insert(m, ids[0], rest)
  }

  lemma {:induction false} InsertMembers(m: Manager, id: Id, sorted: seq<Id>)
    requires id in m.jobs && forall x | x in sorted :: x in m.jobs
    ensures |Insert(m, id, sorted)| == |sorted| + 1
    ensures forall x :: x in Insert(m, id, sorted) <==> x == id || x in sorted
  {
    if !(sorted == [] || Key(m.jobs[id]) <= Key(m.jobs[sorted[0]])) {
      InsertMembers(m, id, sorted[1..]);
    }
  }

  lemma {:induction false} PrunablesMembers(m: Manager, order: seq<Id>)
    ensures forall id :: id in Prunables(m, order) <==> id in order && Prunable(m, id)
  {
    if order != [] {
      PrunablesMembers(m, order[1..]);
      assert order == [order[0]] + order[1..];
    }
  }

  function Without(order: seq<Id>, gone: set<Id>): (r: seq<Id>) {
    if order == [] then []
    else (if order[0] in gone then [] else [order[0]]) + Without(order[1..], gone)
  }

  function Oldest(m: Manager): seq<Id> {
    var candidates := Prunables(m, m.order);
    PrunablesMembers(m, m.order);
    if |candidates| < MAX_RETAINED_JOBS then []
    else Sorted(m, candidates)[..|candidates| - MAX_RETAINED_JOBS + 1]
  }

  function Gone(m: Manager): set<Id> { set id | id in Oldest(m) }

  function Pruned(m: Manager): Manager {
    var gone := Gone(m);
    m.(order := Without(m.order, gone), jobs := map id | id in m.jobs && id !in gone :: m.jobs[id])
  }

  function Update(m: Manager, id: Id, j: Job): Manager { m.(jobs := m.jobs[id := j]) }

  /** The worker thread's own steps come in its program order. */
  predicate Enabled(m: Manager, op: Op) {
    match op
    case EndSync => m.syncActive
    case StartJob(id, _, _, _, _, _) => id !in m.issued
    case BeginRun(id) => id in m.jobs && m.jobs[id].status.Queued?
    case DrainMessages(id, _) => id in m.jobs && m.jobs[id].status.Running?
    case FinishRun(id, outcome, _) => id in m.jobs && m.jobs[id].status.Running? && Proper(outcome)
    case _ => true
  }

  function Claimable(j: Job): bool { j.status.Completed? && j.result.Some? && !j.usageRecorded && !j.usageRecording }

  function StartedJob(m: Manager, id: Id, taskLength: nat, threadStarts: bool, now: nat): (Manager, Answer) {
    if !threadStarts then (m.(issued := m.issued + {id}), NoThread)
    else
      (Pruned(m.(order := m.order + [id], jobs := m.jobs[id := NewJob(taskLength, now)], active := Some(id),
                 lease := Some(Worker(id)), issued := m.issued + {id})), Done)
  }

  function Apply(m: Manager, op: Op): (Manager, Answer)
    requires Enabled(m, op)
  {
    match op
    case RunSync(valid, answer) =>
      if !valid then (m, Invalid)
      else if SlotTaken(m) then (m, Busy)
      else if Answered(m, answer) != Granted then (FreeSlot(m), Rejection(Answered(m, answer)))
      else (FreeSlot(m).(syncActive := true, lease := Some(Sync)), Done)
    case EndSync => (m.(syncActive := false, lease := None), Done)
    case StartJob(id, taskLength, valid, answer, threadStarts, now) =>
      if !valid then (m, Invalid)
      else if SlotTaken(m) then (m, Busy)
      else if Answered(m, answer) != Granted then (FreeSlot(m), Rejection(Answered(m, answer)))
      else StartedJob(FreeSlot(m), id, taskLength, threadStarts, now)
    case BeginRun(id) => (Update(m, id, m.jobs[id].(status := Running)), Done)
    case FinishRun(id, outcome, now) =>
      (Update(m, id, Finished(m.jobs[id], outcome, now))
       .(lease := None, active := if m.active == Some(id) then None else m.active), Done)
    case SendMessage(id, message) =>
      if id !in m.jobs then (m, NotFound)
      else if Terminal(m.jobs[id].status) then (m, AlreadyTerminal)
      else (Update(m, id, Enqueued(m.jobs[id], message)), Message(Admission(m.jobs[id], message)))
    case DrainMessages(id, finalizeIfEmpty) =>
      (Update(m, id, Drained(m.jobs[id], finalizeIfEmpty)), Batch(m.jobs[id].messages))
    case Cancel(id) =>
      if id !in m.jobs then (m, NotFound)
      else if Terminal(m.jobs[id].status) || m.jobs[id].cancelSet then (m, CancelAnswer(false))
      else (Update(m, id, Shut(m.jobs[id].(cancelSet := true))), CancelAnswer(true))
    case ClaimUsage(id) =>
      if id !in m.jobs then (m, NotFound)
      else if !Claimable(m.jobs[id]) then (m, Claim(None))
      else (Update(m, id, m.jobs[id].(usageRecording := true)),
            Claim(Some((m.jobs[id].taskLength, m.jobs[id].result.value))))
    case FinishUsage(id, persisted) =>
      if id !in m.jobs then (m, NotFound)
      else if !m.jobs[id].usageRecording then (m, Done)
      else
        var recorded := persisted || m.jobs[id].usageRecorded;
        (Update(m, id, m.jobs[id].(usageRecording := false, usageRecorded := recorded)), Done)
  }

  // The invariant

  predicate Distinct(order: seq<Id>) { forall i, j | 0 <= i < j < |order| :: order[i] != order[j] }

  /** The one unfinished execution, if any, holds the lease. */
  predicate Slot(m: Manager) {
    && (forall id | id in m.jobs && !Terminal(m.jobs[id].status) :: m.active == Some(id))
    && (m.active.Some? ==> Unfinished(m, m.active.value))
    && !(m.syncActive && m.active.Some?)
    && m.lease == (if m.syncActive then Some(Sync) else if m.active.Some? then Some(Worker(m.active.value)) else None)
  }

  ghost predicate Indexed(m: Manager) {
    && Distinct(m.order) && (forall id :: id in m.order <==> id in m.jobs) && m.jobs.Keys <= m.issued
  }

  ghost predicate Ok(m: Manager) {
    Slot(m) && Indexed(m) && forall id | id in m.jobs :: JobOk(m.jobs[id])
  }

  lemma FinishedOk(j: Job, o: Outcome, now: nat)
    requires JobOk(j) && j.status.Running? && Proper(o)
    ensures JobOk(Finished(j, o, now))
  {
  }

  lemma SameJobs(m: Manager, n: Manager)
    requires Ok(m) && n.order == m.order && n.jobs == m.jobs && m.issued <= n.issued && Slot(n)
    ensures Ok(n)
  {
  }

  lemma UpdateOk(m: Manager, id: Id, j: Job)
    requires Ok(m) && id in m.jobs && JobOk(j) && (Terminal(j.status) <==> Terminal(m.jobs[id].status))
    ensures Ok(Update(m, id, j))
  {
    hide JobOk;
    var n := Update(m, id, j);
    assert m.jobs[id].status == m.jobs[id].status;
    forall x ensures Unfinished(n, x) <==> Unfinished(m, x) { }
    assert n.jobs.Keys == m.jobs.Keys;
  }

  lemma {:induction false} FinishOk(m: Manager, id: Id, o: Outcome, now: nat)
    requires Ok(m) && Enabled(m, FinishRun(id, o, now))
    ensures Ok(Apply(m, FinishRun(id, o, now)).0)
  {
    FinishedOk(m.jobs[id], o, now);
    hide JobOk, Finished;
    assert m.active == Some(id);
  }

  // Pruning

  lemma {:induction false} WithoutKeeps(order: seq<Id>, gone: set<Id>, id: Id)
    ensures id in Without(order, gone) <==> id in order && id !in gone
  {
    if order != [] {
      WithoutKeeps(order[1..], gone, id);
      assert order == [order[0]] + order[1..];
    }
  }

  lemma {:induction false} WithoutMembers(order: seq<Id>, gone: set<Id>)
    requires Distinct(order)
    ensures Distinct(Without(order, gone))
    ensures forall id :: id in Without(order, gone) <==> id in order && id !in gone
  {
    forall id ensures id in Without(order, gone) <==> id in order && id !in gone { WithoutKeeps(order, gone, id); }
    if order != [] {
      DistinctTail(order);
      WithoutMembers(order[1..], gone);
      if order[0] !in gone {
        assert order[0] !in Without(order[1..], gone);
        DistinctCons(order[0], Without(order[1..], gone));
      }
    }
  }

  lemma DistinctCons(id: Id, order: seq<Id>)
    requires Distinct(order) && id !in order
    ensures Distinct([id] + order)
  {
    var all := [id] + order;
    forall i, j | 0 <= i < j < |all| ensures all[i] != all[j] {
      assert all[j] == order[j - 1];
      assert i > 0 ==> all[i] == order[i - 1];
    }
  }

  lemma DistinctTail(order: seq<Id>)
    requires Distinct(order) && order != []
    ensures Distinct(order[1..]) && order[0] !in order[1..]
  {
    forall i, j | 0 <= i < j < |order[1..]| ensures order[1..][i] != order[1..][j] {
      assert order[i + 1] != order[j + 1];
    }
  }

  lemma PrunedOk(m: Manager)
    requires Ok(m)
    ensures Ok(Pruned(m))
  {
    hide JobOk, Oldest, Without;
    OldestArePrunable(m);
    WithoutMembers(m.order, set id | id in Oldest(m));
  }

  lemma OldestArePrunable(m: Manager)
    ensures forall id | id in Oldest(m) :: Prunable(m, id)
  {
    PrunablesMembers(m, m.order);
  }

  function Place(order: seq<Id>, id: Id): nat
    requires id in order
  {
    if order[0] == id then 0 else 1 + Place(order[1..], id)
  }

  /** Finished earlier, or at the same time but inserted earlier. */
  predicate Older(m: Manager, order: seq<Id>, a: Id, b: Id)
    requires a in order && b in order && a in m.jobs && b in m.jobs
  {
    Key(m.jobs[a]) < Key(m.jobs[b]) || (Key(m.jobs[a]) == Key(m.jobs[b]) && Place(order, a) < Place(order, b))
  }

  ghost predicate InOrder(m: Manager, order: seq<Id>, ids: seq<Id>) {
    && (forall i | 0 <= i < |ids| :: ids[i] in order && ids[i] in m.jobs)
    && forall i, j | 0 <= i < j < |ids| :: Older(m, order, ids[i], ids[j])
  }

  lemma {:induction false} InsertInOrder(m: Manager, order: seq<Id>, id: Id, sorted: seq<Id>)
    requires InOrder(m, order, sorted) && id in order && id in m.jobs
    requires forall i | 0 <= i < |sorted| :: Place(order, id) < Place(order, sorted[i])
    ensures InOrder(m, order, Insert(m, id, sorted))
  {
    hide Place;
    InsertMembers(m, id, sorted);
    if !(sorted == [] || Key(m.jobs[id]) <= Key(m.jobs[sorted[0]])) {
      InsertInOrder(m, order, id, sorted[1..]);
      InsertMembers(m, id, sorted[1..]);
      var rest := Insert(m, id, sorted[1..]);
      forall j | 0 <= j < |rest| ensures rest[j] in order && rest[j] in m.jobs && Older(m, order, sorted[0], rest[j]) {
        assert rest[j] in rest;
        if rest[j] != id {
          assert rest[j] in sorted[1..];
          var k :| 0 <= k < |sorted[1..]| && sorted[1..][k] == rest[j];
          assert sorted[k + 1] == rest[j];
        }
      }
    }
  }

  ghost predicate Increasing(order: seq<Id>, ids: seq<Id>) {
    && (forall i | 0 <= i < |ids| :: ids[i] in order)
    && forall i, j | 0 <= i < j < |ids| :: Place(order, ids[i]) < Place(order, ids[j])
  }

  lemma {:induction false} SortedInOrder(m: Manager, order: seq<Id>, ids: seq<Id>)
    requires forall x | x in ids :: x in m.jobs
    requires Increasing(order, ids)
    ensures InOrder(m, order, Sorted(m, ids))
  {
    hide Place, Older;
    if ids != [] {
      SortedInOrder(m, order, ids[1..]);
      var rest := Sorted(m, ids[1..]);
      forall i | 0 <= i < |rest| ensures Place(order, ids[0]) < Place(order, rest[i]) {
        assert rest[i] in rest && rest[i] in ids[1..];
        var k :| 0 <= k < |ids[1..]| && ids[1..][k] == rest[i];
        assert ids[k + 1] == rest[i];
      }
      InsertInOrder(m, order, ids[0], rest);
    }
  }

  lemma {:induction false} PrunablesIncreasing(m: Manager, order: seq<Id>)
    requires Distinct(order)
    ensures Increasing(order, Prunables(m, order))
  {
    if order != [] {
      DistinctTail(order);
      PrunablesIncreasing(m, order[1..]);
      PrunablesMembers(m, order[1..]);
      var rest := Prunables(m, order[1..]);
      forall i | 0 <= i < |rest| ensures rest[i] in order && Place(order, rest[i]) == 1 + Place(order[1..], rest[i]) {
        assert rest[i] in rest;
      }
    }
  }

  lemma {:induction false} SplitAt(ids: seq<Id>, cut: nat, id: Id)
    requires Distinct(ids) && cut <= |ids|
    ensures id in ids <==> id in ids[..cut] || id in ids[cut..]
    ensures !(id in ids[..cut] && id in ids[cut..])
    ensures Distinct(ids[cut..])
  {
    assert ids == ids[..cut] + ids[cut..];
  }

  function Candidates(m: Manager): set<Id> { set id | id in m.jobs && Prunable(m, id) }

  /** The sorted candidates: all of them, oldest first. */
  lemma SortedCandidates(m: Manager) returns (sorted: seq<Id>, cut: nat)
    requires Ok(m)
    ensures Distinct(sorted) && cut <= |sorted| && Oldest(m) == sorted[..cut]
    ensures InOrder(m, m.order, sorted)
    ensures forall id :: id in sorted <==> id in Candidates(m)
    ensures cut == if |sorted| < MAX_RETAINED_JOBS then 0 else |sorted| - MAX_RETAINED_JOBS + 1
  {
    hide JobOk, Slot;
    var candidates := Prunables(m, m.order);
    PrunablesMembers(m, m.order);
    PrunablesIncreasing(m, m.order);
    SortedInOrder(m, m.order, candidates);
    sorted, cut := Sorted(m, candidates), |Oldest(m)|;
    InOrderDistinct(m, m.order, sorted);
  }

  lemma PrunedIs(m: Manager)
    requires Ok(m)
    ensures Pruned(m).jobs.Keys == set id | id in m.jobs && id !in Oldest(m)
    ensures forall id | id in Pruned(m).jobs :: Pruned(m).jobs[id] == m.jobs[id]
  {
    hide Oldest, Without, JobOk;
  }

  /** Pruning removes exactly the oldest terminal jobs whose usage nobody is recording, and
      keeps every other job as it is. */
  lemma PruneRemovesOldest(m: Manager)
    requires Ok(m)
    ensures var n := Pruned(m);
            && (forall id | id in m.jobs && id !in n.jobs :: Prunable(m, id))
            && (forall id | id in n.jobs :: id in m.jobs && n.jobs[id] == m.jobs[id])
            && (forall a, b | a in m.jobs && a !in n.jobs && b in n.jobs && Prunable(m, b) :: Older(m, m.order, a, b))
  {
    var sorted, cut := SortedCandidates(m);
    PrunedIs(m);
    OldestArePrunable(m);
    hide Pruned, Place, Oldest, JobOk, Slot, Key, Older, Prunable;
    var n := Pruned(m);
    forall a, b | a in m.jobs && a !in n.jobs && b in n.jobs && Prunable(m, b)
      ensures a in m.order && b in m.order && Older(m, m.order, a, b)
    {
      var i :| 0 <= i < cut && sorted[..cut][i] == a;
      assert b in Candidates(m);
      SplitAt(sorted, cut, b);
      var j :| 0 <= j < |sorted| - cut && sorted[cut..][j] == b;
      assert sorted[i] == a && sorted[cut + j] == b;
    }
  }

  /** It leaves at most 19 of them. */
  lemma PruneLeaves(m: Manager)
    requires Ok(m)
    ensures var count := |Candidates(m)|;
            |Candidates(Pruned(m))| == if count < MAX_RETAINED_JOBS then count else MAX_RETAINED_JOBS - 1
  {
    var sorted, cut := SortedCandidates(m);
    PrunedIs(m);
    var n := Pruned(m);
    forall id ensures id in Candidates(n) <==> id in Candidates(m) && id !in Oldest(m) { }
    hide Pruned, Candidates, Oldest, Ok, InOrder;
    forall id ensures id in Candidates(n) <==> id in sorted[cut..] { SplitAt(sorted, cut, id); }
    SplitAt(sorted, cut, 0);
    SizeOf(Candidates(m), sorted);
    SizeOf(Candidates(n), sorted[cut..]);
  }

  lemma InOrderDistinct(m: Manager, order: seq<Id>, ids: seq<Id>)
    requires InOrder(m, order, ids)
    ensures Distinct(ids)
  {
    forall i, j | 0 <= i < j < |ids| ensures ids[i] != ids[j] {
      assert Older(m, order, ids[i], ids[j]);
    }
  }

  lemma {:induction false} SizeOf(s: set<Id>, ids: seq<Id>)
    requires Distinct(ids) && forall id :: id in s <==> id in ids
    ensures |s| == |ids|
  {
    if ids != [] {
      DistinctTail(ids);
      assert ids == [ids[0]] + ids[1..];
      SizeOf(s - {ids[0]}, ids[1..]);
    }
  }

  // What every operation keeps

  lemma StartOk(m: Manager, id: Id, taskLength: nat, threadStarts: bool, now: nat)
    requires Ok(m) && m.lease.None? && m.active.None? && id !in m.issued
    ensures Ok(StartedJob(m, id, taskLength, threadStarts, now).0)
  {
    hide Pruned;
    if !threadStarts {
      SameJobs(m, m.(issued := m.issued + {id}));
    } else {
      var n := m.(order := m.order + [id], jobs := m.jobs[id := NewJob(taskLength, now)], active := Some(id),
                  lease := Some(Worker(id)), issued := m.issued + {id});
      LaunchedOk(m, n, id, taskLength, now);
      PrunedOk(n);
    }
  }

  lemma SlotOpOk(m: Manager, op: Op)
    requires Ok(m) && Enabled(m, op) && (op.RunSync? || op.EndSync? || op.StartJob?)
    ensures Ok(Apply(m, op).0)
  {
    hide JobOk, StartedJob;
    if op.StartJob? && op.valid && !SlotTaken(m) && Answered(m, op.answer) == Granted {
      StartOk(FreeSlot(m), op.id, op.taskLength, op.threadStarts, op.now);
    }
  }

  lemma {:induction false} JobOpOk(m: Manager, op: Op)
    requires Ok(m) && Enabled(m, op) && !op.RunSync? && !op.EndSync? && !op.StartJob? && !op.FinishRun?
    ensures Ok(Apply(m, op).0)
  {
    var id := op.id;
    if id in m.jobs {
      var j := m.jobs[id];
      assert JobOk(j);
      DrainedKept(j, true);
      DrainedKept(j, false);
      if op.SendMessage? { EnqueuedKept(j, op.message); }
      if Apply(m, op).0 != m {
        hide Ok, MailboxOk, Admission;
        UpdateOk(m, id, Apply(m, op).0.jobs[id]);
      }
    }
  }

  lemma {:induction false} ApplyOk(m: Manager, op: Op)
    requires Ok(m) && Enabled(m, op)
    ensures Ok(Apply(m, op).0)
  {
    hide Ok, Apply;
    match op
    case RunSync(_, _) => SlotOpOk(m, op);
    case EndSync => SlotOpOk(m, op);
    case StartJob(_, _, _, _, _, _) => SlotOpOk(m, op);
    case FinishRun(id, outcome, now) => FinishOk(m, id, outcome, now);
    case _ => JobOpOk(m, op);
  }

  // Runs of the manager

  const Empty := Manager([], map[], None, false, None, {})

  predicate Possible(m: Manager, ops: seq<Op>)
    decreases |ops|
  {
    ops == [] || (Enabled(m, ops[0]) && Possible(Apply(m, ops[0]).0, ops[1..]))
  }

  function Run(m: Manager, ops: seq<Op>): Manager
    requires Possible(m, ops)
    decreases |ops|
  {
    if ops == [] then m else Run(Apply(m, ops[0]).0, ops[1..])
  }

  function Answers(m: Manager, ops: seq<Op>): (r: seq<Answer>)
    requires Possible(m, ops)
    ensures |r| == |ops|
    decreases |ops|
  {
    if ops == [] then [] else [Apply(m, ops[0]).1] + Answers(Apply(m, ops[0]).0, ops[1..])
  }

  lemma {:induction false} RunOk(m: Manager, ops: seq<Op>)
    requires Ok(m) && Possible(m, ops)
    ensures Ok(Run(m, ops))
    decreases |ops|
  {
    hide Ok, Apply, Enabled;
    if ops != [] {
      ApplyOk(m, ops[0]);
      RunOk(Apply(m, ops[0]).0, ops[1..]);
    }
  }

  /** In every run: at most one unfinished execution, background or synchronous, and the
      lease is held exactly while there is one, by that one. */
  lemma OneExecution(ops: seq<Op>)
    requires Possible(Empty, ops)
    ensures var m := Run(Empty, ops);
            && (forall a, b | Unfinished(m, a) && Unfinished(m, b) :: a == b)
            && (forall a | Unfinished(m, a) :: !m.syncActive && m.lease == Some(Worker(a)))
            && (m.syncActive ==> m.lease == Some(Sync))
            && (m.lease.Some? ==> m.syncActive || exists a :: Unfinished(m, a))
  {
    RunOk(Empty, ops);
    hide Run, Possible, JobOk;
  }

  /** A start that is refused, for whatever reason, leaves every job and the lease alone. */
  lemma RefusedStartChangesNothing(m: Manager, op: Op)
    requires Ok(m) && Enabled(m, op) && (op.StartJob? || op.RunSync?) && Apply(m, op).1 != Done
    ensures Apply(m, op).0.(issued := m.issued) == m
  {
    hide JobOk, Pruned;
  }

  /** What one operation can do to one job that stays. */
  lemma OneStep(m: Manager, op: Op, id: Id)
    requires Ok(m) && Enabled(m, op) && id in m.jobs
    ensures var n := Apply(m, op).0;
            && (id !in n.jobs ==> op.StartJob? && Prunable(m, id))
            && (id in n.jobs && (op.RunSync? || op.EndSync? || op.StartJob?) ==> n.jobs[id] == m.jobs[id])
            && (id in n.jobs && !op.RunSync? && !op.EndSync? && !op.StartJob? && op.id != id ==>
                n.jobs[id] == m.jobs[id])
  {
    hide JobOk, Pruned, Finished, Enqueued, Drained, Shut;
    if op.StartJob? && op.valid && !SlotTaken(m) && Answered(m, op.answer) == Granted && op.threadStarts {
      var f := FreeSlot(m);
      var k := f.(order := f.order + [op.id], jobs := f.jobs[op.id := NewJob(op.taskLength, op.now)],
                  active := Some(op.id), lease := Some(Worker(op.id)), issued := f.issued + {op.id});
      KeptByPruning(k, id);
      assert Prunable(k, id) <==> Prunable(m, id);
    }
  }

  lemma KeptByPruning(k: Manager, id: Id)
    requires id in k.jobs
    ensures id in Pruned(k).jobs ==> Pruned(k).jobs[id] == k.jobs[id]
    ensures id !in Pruned(k).jobs ==> Prunable(k, id)
  {
    OldestArePrunable(k);
    hide Oldest, Without, Prunable;
  }

  lemma OnceIssued(m: Manager, op: Op, id: Id)
    requires Ok(m) && Enabled(m, op) && id in m.issued && id !in m.jobs
    ensures id in Apply(m, op).0.issued && id !in Apply(m, op).0.jobs
  {
    hide JobOk, Oldest, Without;
  }

  lemma IssuedGrows(m: Manager, op: Op)
    requires Enabled(m, op)
    ensures m.issued <= Apply(m, op).0.issued
  {
    hide Oldest, Without, Finished;
  }

  /** A pruned job never comes back. */
  lemma {:induction false} GoneForGood(m: Manager, ops: seq<Op>, id: Id)
    requires Ok(m) && Possible(m, ops) && id in m.issued && id !in m.jobs
    ensures id !in Run(m, ops).jobs
    decreases |ops|
  {
    hide Ok, Apply, Enabled;
    if ops != [] {
      ApplyOk(m, ops[0]);
      OnceIssued(m, ops[0], id);
      GoneForGood(Apply(m, ops[0]).0, ops[1..], id);
    }
  }

  /** What a caller can see of an ending. */
  function Ending(j: Job): (Status, Option<Result>, Option<Problem>, Option<nat>, bool) {
    (j.status, j.result, j.error, j.finished, j.cancelSet)
  }

  lemma TerminalStep(m: Manager, op: Op, id: Id)
    requires Ok(m) && Enabled(m, op) && id in m.jobs && Terminal(m.jobs[id].status)
    ensures var n := Apply(m, op).0; id in n.jobs ==> Ending(n.jobs[id]) == Ending(m.jobs[id])
  {
    OneStep(m, op, id);
    hide Ok, Pruned, Finished, Shut, Enqueued, Drained, StartedJob;
  }

  /** A terminal state never changes, whatever operations follow. */
  lemma {:induction false} TerminalIsFinal(m: Manager, ops: seq<Op>, id: Id)
    requires Ok(m) && Possible(m, ops) && id in m.jobs && Terminal(m.jobs[id].status)
    ensures var n := Run(m, ops); id in n.jobs ==> Ending(n.jobs[id]) == Ending(m.jobs[id])
    decreases |ops|
  {
    if ops != [] {
      var n := Apply(m, ops[0]).0;
      ApplyOk(m, ops[0]);
      TerminalStep(m, ops[0], id);
      IssuedGrows(m, ops[0]);
      assert id in m.issued;
      hide Ok, Apply, Enabled;
      if id in n.jobs {
        TerminalIsFinal(n, ops[1..], id);
      } else {
        GoneForGood(n, ops[1..], id);
      }
    }
  }

  lemma CancelStep(m: Manager, op: Op, id: Id)
    requires Ok(m) && Enabled(m, op) && id in m.jobs && m.jobs[id].cancelSet
    ensures var n := Apply(m, op).0; id in n.jobs ==> n.jobs[id].cancelSet
  {
    OneStep(m, op, id);
    hide Ok, Pruned, StartedJob;
  }

  lemma {:induction false} CancelledStays(m: Manager, ops: seq<Op>, id: Id)
    requires Ok(m) && Possible(m, ops) && id in m.jobs && m.jobs[id].cancelSet
    ensures var n := Run(m, ops);
            id in n.jobs && Terminal(n.jobs[id].status) ==> n.jobs[id].status.Cancelled? && n.jobs[id].result.None?
    decreases |ops|
  {
    if ops == [] {
      assert JobOk(m.jobs[id]);
    } else {
      var n := Apply(m, ops[0]).0;
      ApplyOk(m, ops[0]);
      CancelStep(m, ops[0], id);
      IssuedGrows(m, ops[0]);
      assert id in m.issued;
      hide Ok, Apply, Enabled;
      if id in n.jobs {
        CancelledStays(n, ops[1..], id);
      } else {
        GoneForGood(n, ops[1..], id);
      }
    }
  }

  /** A cancellation that was answered as accepted ends as cancelled and without a result,
      whatever follows, even when the run itself completes in the meantime. */
  lemma {:induction false} AcceptedCancelWins(m: Manager, ops: seq<Op>, id: Id)
    requires Ok(m) && Possible(m, [Cancel(id)] + ops) && Apply(m, Cancel(id)).1 == CancelAnswer(true)
    ensures var n := Run(m, [Cancel(id)] + ops);
            id in n.jobs && Terminal(n.jobs[id].status) ==> n.jobs[id].status.Cancelled? && n.jobs[id].result.None?
  {
    var all := [Cancel(id)] + ops;
    assert all[0] == Cancel(id) && all[1..] == ops;
    CancelAcceptedSets(m, id);
    ApplyOk(m, Cancel(id));
    var n := Apply(m, Cancel(id)).0;
    hide Ok, Apply, Enabled;
    CancelledStays(n, ops, id);
  }

  lemma CancelAcceptedSets(m: Manager, id: Id)
    requires Apply(m, Cancel(id)).1 == CancelAnswer(true)
    ensures id in Apply(m, Cancel(id)).0.jobs && Apply(m, Cancel(id)).0.jobs[id].cancelSet
  {
  }

  /** A cancelled job still tells its parent about the mutations of its run. */
  lemma CancelKeepsReport(m: Manager, id: Id, o: Outcome, now: nat)
    requires Enabled(m, FinishRun(id, o, now)) && m.jobs[id].cancelSet
    ensures var j := Apply(m, FinishRun(id, o, now)).0.jobs[id];
            && (o.result.Some? && o.result.value.mutated ==> j.error == Some(NeedsReview(o.result.value)))
            && (o.preserve && o.result.None? ==> j.error == Some(Reported(o.error.value)))
  {
  }

  // Usage claims

  predicate IsGrant(a: Answer) { a.Claim? && a.claimed.Some? }

  lemma ClaimStep(m: Manager, op: Op, id: Id)
    requires Ok(m) && Enabled(m, op) && id in m.jobs && (m.jobs[id].usageRecording || m.jobs[id].usageRecorded)
    ensures var n := Apply(m, op).0;
            && (op == ClaimUsage(id) ==> !IsGrant(Apply(m, op).1))
            && (m.jobs[id].usageRecording && !(op.FinishUsage? && op.id == id) ==>
                id in n.jobs && n.jobs[id].usageRecording)
            && (m.jobs[id].usageRecording && op == FinishUsage(id, true) ==> id in n.jobs && n.jobs[id].usageRecorded)
            && (m.jobs[id].usageRecorded && id in n.jobs ==> n.jobs[id].usageRecorded)
  {
    OneStep(m, op, id);
    assert JobOk(m.jobs[id]);
    hide Ok, Pruned, StartedJob, MailboxOk;
  }

  /** While a claim is held, the job is not pruned and nobody else gets the claim, unless
      the holder gave it back unrecorded in between. */
  lemma {:induction false} ClaimIsExclusive(m: Manager, ops: seq<Op>, id: Id, i: nat)
    requires Ok(m) && Possible(m, ops) && id in m.jobs && m.jobs[id].usageRecording
    requires i < |ops| && ops[i] == ClaimUsage(id) && IsGrant(Answers(m, ops)[i])
    ensures exists k :: 0 <= k < i && ops[k] == FinishUsage(id, false)
    decreases |ops|
  {
    var n := Apply(m, ops[0]).0;
    ApplyOk(m, ops[0]);
    ClaimStep(m, ops[0], id);
    hide Ok, Apply, Enabled;
    if ops[0] != FinishUsage(id, false) {
      if ops[0] == FinishUsage(id, true) {
        RecordedOnce(n, ops[1..], id, i - 1);
      } else {
        ClaimIsExclusive(n, ops[1..], id, i - 1);
        var k :| 0 <= k < i - 1 && ops[1..][k] == FinishUsage(id, false);
        assert ops[k + 1] == FinishUsage(id, false);
      }
    }
  }

  /** A recorded usage is never handed out again. */
  lemma {:induction false} RecordedOnce(m: Manager, ops: seq<Op>, id: Id, i: nat)
    requires Ok(m) && Possible(m, ops) && id in m.jobs && m.jobs[id].usageRecorded
    requires i < |ops| && ops[i] == ClaimUsage(id)
    ensures !IsGrant(Answers(m, ops)[i])
    decreases |ops|
  {
    var n := Apply(m, ops[0]).0;
    ApplyOk(m, ops[0]);
    ClaimStep(m, ops[0], id);
    IssuedGrows(m, ops[0]);
    assert id in m.issued;
    hide Ok, Enabled;
    if i > 0 {
      hide Apply;
      if id in n.jobs {
        RecordedOnce(n, ops[1..], id, i - 1);
      } else {
        NoClaimWhenGone(n, ops[1..], id, i - 1);
      }
    }
  }

  lemma {:induction false} NoClaimWhenGone(m: Manager, ops: seq<Op>, id: Id, i: nat)
    requires Ok(m) && Possible(m, ops) && id in m.issued && id !in m.jobs
    requires i < |ops| && ops[i] == ClaimUsage(id)
    ensures !IsGrant(Answers(m, ops)[i])
    decreases |ops|
  {
    ApplyOk(m, ops[0]);
    OnceIssued(m, ops[0], id);
    hide Ok, Enabled;
    if i > 0 {
      hide Apply;
      NoClaimWhenGone(Apply(m, ops[0]).0, ops[1..], id, i - 1);
    }
  }

  // Steering

  function Accepted(ops: seq<Op>, answers: seq<Answer>, id: Id): seq<Text>
    requires |ops| == |answers|
  {
    if ops == [] then []
    else (if ops[0].SendMessage? && ops[0].id == id && answers[0] == Message(Queue) then [ops[0].message] else [])
         + Accepted(ops[1..], answers[1..], id)
  }

  function Delivered(ops: seq<Op>, answers: seq<Answer>, id: Id): seq<Text>
    requires |ops| == |answers|
  {
    if ops == [] then []
    else (if ops[0].DrainMessages? && ops[0].id == id && answers[0].Batch? then answers[0].messages else [])
         + Delivered(ops[1..], answers[1..], id)
  }

  /** The messages one operation puts in and takes out. */
  lemma MailStep(m: Manager, op: Op, id: Id)
    requires Ok(m) && Enabled(m, op) && id in m.jobs
    ensures var (n, a) := Apply(m, op);
            id in n.jobs && !n.jobs[id].cancelSet && !Terminal(n.jobs[id].status) ==>
              && !m.jobs[id].cancelSet && !Terminal(m.jobs[id].status)
              && Delivered([op], [a], id) + n.jobs[id].messages == m.jobs[id].messages + Accepted([op], [a], id)
  {
    OneStep(m, op, id);
    assert Accepted([], [], id) == [] && Delivered([], [], id) == [];
    hide Ok, Pruned, StartedJob, Admission;
  }

  lemma FirstMail(ops: seq<Op>, answers: seq<Answer>, id: Id)
    requires |ops| == |answers| > 0
    ensures Accepted(ops, answers, id) == Accepted([ops[0]], [answers[0]], id) + Accepted(ops[1..], answers[1..], id)
    ensures Delivered(ops, answers, id) == Delivered([ops[0]], [answers[0]], id) + Delivered(ops[1..], answers[1..], id)
  {
  }

  lemma Chain<T>(before: seq<T>, between: seq<T>, after: seq<T>, in1: seq<T>, in2: seq<T>, out1: seq<T>, out2: seq<T>)
    requires out1 + between == before + in1 && out2 + after == between + in2
    ensures (out1 + out2) + after == before + (in1 + in2)
  {
    calc {
      (out1 + out2) + after;
      out1 + (out2 + after);
      out1 + (between + in2);
      (out1 + between) + in2;
      (before + in1) + in2;
      before + (in1 + in2);
    }
  }

  /** Until a job ends or is cancelled, what it was sent and accepted is what was
      delivered to the agent, in order, followed by what still waits. */
  lemma {:induction false} NothingIsDropped(m: Manager, ops: seq<Op>, id: Id)
    requires Ok(m) && Possible(m, ops) && id in m.jobs
    ensures var n := Run(m, ops); var answers := Answers(m, ops);
            id in n.jobs && !n.jobs[id].cancelSet && !Terminal(n.jobs[id].status) ==>
              Delivered(ops, answers, id) + n.jobs[id].messages == m.jobs[id].messages + Accepted(ops, answers, id)
    decreases |ops|
  {
    if ops != [] {
      var (n, a) := Apply(m, ops[0]);
      ApplyOk(m, ops[0]);
      MailStep(m, ops[0], id);
      IssuedGrows(m, ops[0]);
      assert id in m.issued;
      FirstMail(ops, Answers(m, ops), id);
      hide Ok, Apply, Enabled, Accepted, Delivered;
      assert Answers(m, ops)[0] == a && Answers(m, ops)[1..] == Answers(n, ops[1..]);
      if id in n.jobs {
        NothingIsDropped(n, ops[1..], id);
        if n.jobs[id].cancelSet || Terminal(n.jobs[id].status) {
          StaysEnded(n, ops[1..], id);
        } else if id in Run(m, ops).jobs && !Run(m, ops).jobs[id].cancelSet && !Terminal(Run(m, ops).jobs[id].status) {
          Chain(m.jobs[id].messages, n.jobs[id].messages, Run(m, ops).jobs[id].messages,
                Accepted([ops[0]], [a], id), Accepted(ops[1..], Answers(n, ops[1..]), id),
                Delivered([ops[0]], [a], id), Delivered(ops[1..], Answers(n, ops[1..]), id));
        }
      } else {
        GoneForGood(n, ops[1..], id);
      }
    }
  }

  lemma {:induction false} StaysEnded(m: Manager, ops: seq<Op>, id: Id)
    requires Ok(m) && Possible(m, ops) && id in m.jobs && (m.jobs[id].cancelSet || Terminal(m.jobs[id].status))
    ensures var n := Run(m, ops); id in n.jobs ==> n.jobs[id].cancelSet || Terminal(n.jobs[id].status)
    decreases |ops|
  {
    if ops != [] {
      var n := Apply(m, ops[0]).0;
      ApplyOk(m, ops[0]);
      if m.jobs[id].cancelSet {
        CancelStep(m, ops[0], id);
      } else {
        TerminalStep(m, ops[0], id);
      }
      IssuedGrows(m, ops[0]);
      assert id in m.issued;
      hide Ok, Apply, Enabled;
      if id in n.jobs {
        StaysEnded(n, ops[1..], id);
      } else {
        GoneForGood(n, ops[1..], id);
      }
    }
  }

  // The objects

  class JobRecord {
    const taskLength: nat
    const created: nat
    var status: Status
    var finished: Option<nat>
    var result: Option<Result>
    var error: Option<Problem>
    var usageRecorded: bool
    var usageRecording: bool
    var cancelSet: bool
    var finishedSet: bool
    var messages: seq<Text>
    var queuedBytes: nat
    var accepting: bool

    constructor (taskLength: nat, now: nat)
      ensures View() == NewJob(taskLength, now)
    {
      this.taskLength, this.created := taskLength, now;
      status, finished, result, error := Status.Queued, None, None, None;
      usageRecorded, usageRecording, cancelSet, finishedSet := false, false, false, false;
      messages, queuedBytes, accepting := [], 0, true;
    }

    function View(): Job
      reads this
    {
      Job(taskLength, status, created, finished, result, error, usageRecorded, usageRecording, cancelSet, finishedSet,
          messages, queuedBytes, accepting)
    }

    method QueueMessage(message: Text) returns (q: Queueing)
      modifies this
      ensures q == Admission(old(View()), message) && View() == Enqueued(old(View()), message)
    {
      q := Admission(View(), message);
      if q.Queue? {
        messages := messages + [message];
        queuedBytes := queuedBytes + Utf8(message);
      }
    }

    method DrainMessages(finalizeIfEmpty: bool) returns (drained: seq<Text>)
      modifies this
      ensures drained == old(messages) && View() == Drained(old(View()), finalizeIfEmpty)
    {
      if messages != [] {
        drained := messages;
        messages, queuedBytes := [], 0;
        return;
      }
      if finalizeIfEmpty {
        accepting := false;
      }
      return [];
    }

    method CloseMessages()
      modifies this
      ensures View() == Shut(old(View()))
    {
      accepting, messages, queuedBytes := false, [], 0;
    }

    method ApplyCancelledOutcome(o: Outcome)
      modifies this
      ensures View() == old(View()).(cancelSet := true, status := Cancelled, result := None, error := CancelledError(o))
    {
      cancelSet, status, result := true, Cancelled, None;
      if o.result.Some? && o.result.value.mutated {
        error := Some(NeedsReview(o.result.value));
      } else if o.preserve {
        error := Report(o.error);
      } else {
        error := if o.status.Cancelled? then Report(o.error) else Some(CancelledByParent);
      }
    }

    method Finish(o: Outcome, now: nat)
      modifies this
      ensures View() == Finished(old(View()), o, now)
    {
      if cancelSet || o.status.Cancelled? {
        ApplyCancelledOutcome(o);
      } else {
        status := o.status;
        result := if o.status.Completed? then o.result else None;
        error := Report(o.error);
      }
      finished := Some(now);
      CloseMessages();
      finishedSet := true;
    }
  }

  /** Every method has the effect and the answer of the operation it stands for. */
  class JobManager {
    var order: seq<Id>
    var jobs: map<Id, JobRecord>
    var active: Option<Id>
    var syncActive: bool
    var lease: Option<Owner>
    var issued: set<Id>

    constructor ()
      ensures Valid() && View() == Empty && fresh(jobs.Values)
    {
      order, jobs, active, syncActive, lease, issued := [], map[], None, false, None, {};
    }

    /** Distinct ids name distinct records. */
    ghost predicate Valid()
      reads this
    {
      forall a, b | a in jobs && b in jobs && jobs[a] == jobs[b] :: a == b
    }

    function View(): Manager
      reads this, jobs.Values
    {
      Manager(order, map id | id in jobs :: jobs[id].View(), active, syncActive, lease, issued)
    }

    method EnsureSlotAvailable() returns (free: bool)
      requires Valid()
      modifies this
      ensures Valid() && jobs == old(jobs) && free == !SlotTaken(old(View()))
      ensures View() == if free then FreeSlot(old(View())) else old(View())
    {
      if syncActive {
        return false;
      }
      if active.None? {
        return true;
      }
      if active.value in jobs && !Terminal(jobs[active.value].status) {
        return false;
      }
      active := None;
      return true;
    }

    method RunSync(valid: bool, answer: Lease) returns (a: Answer)
      requires Valid()
      modifies this
      ensures Valid() && jobs == old(jobs) && (View(), a) == Apply(old(View()), Op.RunSync(valid, answer))
    {
      if !valid {
        return Invalid;
      }
      var free := EnsureSlotAvailable();
      if !free {
        return Busy;
      }
      var taken := if lease.Some? then HeldElsewhere else answer;
      if taken != Granted {
        return Rejection(taken);
      }
      lease, syncActive := Some(Sync), true;
      assert View().jobs == old(View()).jobs;
      return Done;
    }

    method EndSync()
      requires Valid() && Enabled(View(), Op.EndSync)
      modifies this
      ensures Valid() && jobs == old(jobs) && View() == Apply(old(View()), Op.EndSync).0
    {
      lease, syncActive := None, false;
    }

    method CandidateIds() returns (ids: seq<Id>)
      requires Valid() && Ok(View())
      ensures ids == Prunables(View(), order)
    {
      ids := [];
      var i := |order|;
      while i > 0
        invariant 0 <= i <= |order| && ids == Prunables(View(), order[i..])
      {
        i := i - 1;
        var id := order[i];
        assert id in order && id in View().jobs;
        assert order[i..][0] == id && order[i..][1..] == order[i + 1..];
        if Terminal(jobs[id].status) && !jobs[id].usageRecording {
          ids := [id] + ids;
        }
      }
      assert order[0..] == order;
    }

    method Drop(gone: set<Id>)
      requires Valid()
      modifies this
      ensures Valid() && jobs.Values <= old(jobs.Values)
      ensures View() == old(View()).(order := Without(old(order), gone),
                                     jobs := map id | id in old(View()).jobs && id !in gone :: old(View()).jobs[id])
    {
      order := Without(order, gone);
      jobs := map id | id in jobs && id !in gone :: jobs[id];
      assert View().jobs == map id | id in old(View()).jobs && id !in gone :: old(View()).jobs[id];
    }

    method Prune()
      requires Valid() && Ok(View())
      modifies this
      ensures Valid() && View() == Pruned(old(View())) && jobs.Values <= old(jobs.Values)
    {
      hide Ok, Prunables, Sorted, Without;
      var terminal := CandidateIds();
      if |terminal| < MAX_RETAINED_JOBS {
        PrunedNothing(View());
        return;
      }
      PrunablesMembers(View(), order);
      var removed := Sorted(View(), terminal)[..|terminal| - MAX_RETAINED_JOBS + 1];
      assert removed == Oldest(View());
      var gone := set id | id in removed;
      assert gone == Gone(View());
      Drop(gone);
    }

    method Add(id: Id, job: JobRecord)
      requires Valid() && id !in jobs && job !in jobs.Values
      modifies this
      ensures Valid() && jobs == old(jobs)[id := job] && order == old(order) + [id]
      ensures View() == old(View()).(order := old(order) + [id], jobs := old(View()).jobs[id := job.View()],
                                     active := Some(id), lease := Some(Worker(id)), issued := old(issued) + {id})
    {
      order := order + [id];
      jobs := jobs[id := job];
      active, lease, issued := Some(id), Some(Worker(id)), issued + {id};
      assert View().jobs == old(View()).jobs[id := job.View()];
    }

    method TakeBack(id: Id)
      requires Valid() && |order| > 0
      modifies this
      ensures Valid() && jobs == old(jobs) - {id}
      ensures View() == old(View()).(order := old(order)[..|old(order)| - 1], jobs := old(View()).jobs - {id},
                                     active := None, lease := None)
    {
      order := order[..|order| - 1];
      jobs := jobs - {id};
      active, lease := None, None;
      assert View().jobs == old(View()).jobs - {id};
    }

    /** Insert the record, start the thread, take everything back if it cannot start. */
    method Launch(id: Id, job: JobRecord, threadStarts: bool, now: nat) returns (a: Answer)
      requires Valid() && Ok(View()) && id !in issued && active.None? && lease.None?
      requires job !in jobs.Values && job.View() == NewJob(job.taskLength, now)
      modifies this
      ensures Valid() && jobs.Values <= old(jobs.Values) + {job}
      ensures (View(), a) == StartedJob(old(View()), id, job.taskLength, threadStarts, now)
    {
      ghost var before := View();
      IssuedAll(before, id);
      hide Ok, Pruned, NewJob;
      Add(id, job);
      if !threadStarts {
        AddedAndTakenBack(before, id, job.View());
        TakeBack(id);
        return NoThread;
      }
      ghost var added := View();
      LaunchedOk(before, added, id, job.taskLength, now);
      Prune();
      return Done;
    }

    method Start(id: Id, taskLength: nat, valid: bool, answer: Lease, threadStarts: bool, now: nat) returns (a: Answer)
      requires Valid() && Ok(View()) && id !in issued
      modifies this
      ensures Valid() && fresh(jobs.Values - old(jobs.Values))
      ensures (View(), a) == Apply(old(View()), StartJob(id, taskLength, valid, answer, threadStarts, now))
    {
      if !valid {
        return Invalid;
      }
      var free := EnsureSlotAvailable();
      assert View().jobs == old(View()).jobs;
      if !free {
        return Busy;
      }
      var taken := if lease.Some? then HeldElsewhere else answer;
      if taken != Granted {
        return Rejection(taken);
      }
      var job := new JobRecord(taskLength, now);
      a := Launch(id, job, threadStarts, now);
    }

    /** The worker thread reports that it runs. */
    method BeginRun(id: Id)
      requires Valid() && Enabled(View(), Op.BeginRun(id))
      modifies jobs[id]
      ensures View() == Apply(old(View()), Op.BeginRun(id)).0
    {
      jobs[id].status := Running;
      assert View().jobs == old(View()).jobs[id := jobs[id].View()];
    }

    method FinishRun(id: Id, o: Outcome, now: nat)
      requires Valid() && Enabled(View(), Op.FinishRun(id, o, now))
      modifies this, jobs[id]
      ensures Valid() && jobs == old(jobs) && View() == Apply(old(View()), Op.FinishRun(id, o, now)).0
    {
      lease := None;
      jobs[id].Finish(o, now);
      if active == Some(id) {
        active := None;
      }
      assert View().jobs == old(View()).jobs[id := jobs[id].View()];
    }

    method SendMessage(id: Id, message: Text) returns (a: Answer)
      requires Valid()
      modifies jobs.Values
      ensures (View(), a) == Apply(old(View()), Op.SendMessage(id, message))
    {
      if id !in jobs {
        return NotFound;
      }
      if Terminal(jobs[id].status) {
        return AlreadyTerminal;
      }
      var q := jobs[id].QueueMessage(message);
      assert View().jobs == old(View()).jobs[id := jobs[id].View()];
      return Message(q);
    }

    method Cancel(id: Id) returns (a: Answer)
      requires Valid()
      modifies jobs.Values
      ensures (View(), a) == Apply(old(View()), Op.Cancel(id))
    {
      if id !in jobs {
        return NotFound;
      }
      if Terminal(jobs[id].status) {
        assert View().jobs == old(View()).jobs;
        return CancelAnswer(false);
      }
      var accepted := !jobs[id].cancelSet;
      if accepted {
        jobs[id].cancelSet := true;
        jobs[id].CloseMessages();
        assert View().jobs == old(View()).jobs[id := jobs[id].View()];
      }
      return CancelAnswer(accepted);
    }

    method ClaimUsage(id: Id) returns (a: Answer)
      requires Valid()
      modifies jobs.Values
      ensures (View(), a) == Apply(old(View()), Op.ClaimUsage(id))
    {
      if id !in jobs {
        return NotFound;
      }
      var job := jobs[id];
      if !job.status.Completed? || job.result.None? || job.usageRecorded || job.usageRecording {
        return Claim(None);
      }
      job.usageRecording := true;
      assert View().jobs == old(View()).jobs[id := job.View()];
      return Claim(Some((job.taskLength, job.result.value)));
    }

    method FinishUsage(id: Id, persisted: bool) returns (a: Answer)
      requires Valid()
      modifies jobs.Values
      ensures (View(), a) == Apply(old(View()), Op.FinishUsage(id, persisted))
    {
      if id !in jobs {
        return NotFound;
      }
      if !jobs[id].usageRecording {
        return Done;
      }
      jobs[id].usageRecording := false;
      if persisted {
        jobs[id].usageRecorded := true;
      }
      assert View().jobs == old(View()).jobs[id := jobs[id].View()];
      return Done;
    }
  }

  lemma LaunchedOk(m: Manager, n: Manager, id: Id, taskLength: nat, now: nat)
    requires Ok(m) && m.lease.None? && m.active.None? && id !in m.issued
    requires n == m.(order := m.order + [id], jobs := m.jobs[id := NewJob(taskLength, now)], active := Some(id),
                     lease := Some(Worker(id)), issued := m.issued + {id})
    ensures Ok(n)
  {
    assert Bytes([]) == 0;
  }

  lemma IssuedAll(m: Manager, id: Id)
    requires Ok(m) && id !in m.issued
    ensures id !in m.jobs
  {
  }

  lemma AddedAndTakenBack(m: Manager, id: Id, j: Job)
    requires id !in m.jobs
    ensures (m.order + [id])[..|m.order + [id]| - 1] == m.order && m.jobs[id := j] - {id} == m.jobs
  {
    assert forall x | x in m.jobs :: x != id;
  }

  lemma PrunedNothing(m: Manager)
    requires Oldest(m) == []
    ensures Pruned(m) == m
  {
    assert Gone(m) == {};
    hide Oldest, Without, Gone;
    WithoutNothing(m.order);
    assert Pruned(m).jobs == m.jobs;
  }

  lemma {:induction false} WithoutNothing(order: seq<Id>)
    ensures Without(order, {}) == order
  {
    if order != [] {
      WithoutNothing(order[1..]);
    }
  }
}
