/** The crash-safe mutation protocol of one workspace, over every interleaving of any
    number of servers: the lease (`execution_lock.py`), the pending check and the
    acknowledgement under it (`transaction_recovery.py`, `job_manager.py`), the tool
    children that inherit its descriptor (`tool_process.py`, `tool_child.py`).

    A lease is a locked open file description: it stays locked until its last descriptor
    is closed, and a killed process closes its own. Every session and every child may be
    killed at any step, and a parent may fail to stop its child. */
module Recovery {
  import opened Wrappers

  const MAX_RECORDS := 128
  const MAX_CALLS := 128

  type Tx = nat
  type SessionId = nat

  datatype Intent = Intent(path: nat, digest: nat)

  datatype Session =
    | Checking                                      // holds the lease, has not read the journal
    | Running(calls: nat, current: Option<Tx>)      // a delegation
    | Acknowledging(ids: set<Tx>)
    | Over

  datatype Phase = Started | Recorded | Announced | Swapped

  datatype Child = Child(session: SessionId, intent: Intent, phase: Phase, alive: bool)

  datatype Holder = Parent(session: SessionId) | Inherited(tx: Tx)

  datatype Journaled = Journaled(intent: Intent, warnings: nat)

  datatype State = State(
    holders: set<Holder>,              // the open descriptors of the locked description
    sessions: map<SessionId, Session>,
    children: map<Tx, Child>,
    journal: map<Tx, Journaled>,
    acked: set<Tx>,
    swapped: map<Tx, Intent>,          // what ever became visible in the workspace
    reported: set<Tx>                  // what the parents told their hosts
  )

  const Start := State({}, map[], map[], map[], {}, map[], {})

  datatype Step =
    | OpenDelegation(s: SessionId)
    | OpenAcknowledgement(s: SessionId, ids: set<Tx>)
    | Busy(s: SessionId)
    | PassCheck(s: SessionId)
    | Spawn(s: SessionId, tx: Tx, intent: Intent)
    | Record(tx: Tx)
    | Announce(tx: Tx)
    | Swap(tx: Tx)
    | Warn(tx: Tx)
    | ChildGone(tx: Tx)                // exits or is killed
    | Reap(s: SessionId, report: bool) // the call ended cleanly enough to go on
    | Abandon(s: SessionId, report: bool)  // the call failed, or its child could not be stopped
    | Acknowledge(s: SessionId, tx: Tx)
    | Close(s: SessionId)              // finishes, is refused, fails or is killed

  predicate Open(a: State, s: SessionId) { s in a.sessions && a.sessions[s] != Over }

  predicate Alive(a: State, tx: Tx) { tx in a.children && a.children[tx].alive }

  predicate Written(c: Child) { !c.phase.Started? }

  predicate Told(c: Child) { c.phase.Announced? || c.phase.Swapped? }

  predicate Enabled(a: State, step: Step) {
    match step
    case OpenDelegation(s) => s !in a.sessions && a.holders == {}
    case OpenAcknowledgement(s, ids) => s !in a.sessions && a.holders == {}
    case Busy(s) => s !in a.sessions && a.holders != {}
    case PassCheck(s) => s in a.sessions && a.sessions[s].Checking? && a.journal == map[]
    case Spawn(s, tx, intent) =>
      && s in a.sessions && a.sessions[s].Running? && a.sessions[s].current.None?
      && a.sessions[s].calls < MAX_CALLS && tx !in a.children
    case Record(tx) => Alive(a, tx) && a.children[tx].phase.Started?
    case Announce(tx) => Alive(a, tx) && a.children[tx].phase.Recorded?
    case Swap(tx) => Alive(a, tx) && a.children[tx].phase.Announced?
    case Warn(tx) => Alive(a, tx) && a.children[tx].phase.Swapped?
    case ChildGone(tx) => Alive(a, tx)
    case Reap(s, report) =>
      && s in a.sessions && a.sessions[s].Running? && a.sessions[s].current.Some?
      && var tx := a.sessions[s].current.value;
         tx in a.children && !a.children[tx].alive && (report ==> Told(a.children[tx]))
    case Abandon(s, report) =>
      && s in a.sessions && a.sessions[s].Running? && a.sessions[s].current.Some?
      && var tx := a.sessions[s].current.value;
         tx in a.children && (report ==> Told(a.children[tx]))
    case Acknowledge(s, tx) =>
      s in a.sessions && a.sessions[s].Acknowledging? && tx in a.sessions[s].ids && tx in a.journal
    case Close(s) => Open(a, s)
  }

  function Ended(a: State, s: SessionId): State {
    a.(sessions := a.sessions[s := Over], holders := a.holders - {Parent(s)})
  }

  function Moved(a: State, tx: Tx, phase: Phase): State
    requires tx in a.children
  {
    a.(children := a.children[tx := a.children[tx].(phase := phase)])
  }

  function Next(a: State, step: Step): State
    requires Enabled(a, step)
  {
    match step
    case OpenDelegation(s) => a.(sessions := a.sessions[s := Checking], holders := {Parent(s)})
    case OpenAcknowledgement(s, ids) =>
      a.(sessions := a.sessions[s := Acknowledging(ids)], holders := {Parent(s)})
    case Busy(s) => a.(sessions := a.sessions[s := Over])
    case PassCheck(s) => a.(sessions := a.sessions[s := Running(0, None)])
    case Spawn(s, tx, intent) =>
      a.(sessions := a.sessions[s := Running(a.sessions[s].calls + 1, Some(tx))],
         children := a.children[tx := Child(s, intent, Started, true)],
         holders := a.holders + {Inherited(tx)})
    case Record(tx) =>
      if |a.journal| >= MAX_RECORDS then a
      else Moved(a, tx, Recorded).(journal := a.journal[tx := Journaled(a.children[tx].intent, 0)])
    case Announce(tx) => Moved(a, tx, Announced)
    case Swap(tx) => Moved(a, tx, Swapped).(swapped := a.swapped[tx := a.children[tx].intent])
    case Warn(tx) =>
      if tx !in a.journal then a
      else a.(journal := a.journal[tx := a.journal[tx].(warnings := a.journal[tx].warnings + 1)])
    case ChildGone(tx) =>
      a.(children := a.children[tx := a.children[tx].(alive := false)], holders := a.holders - {Inherited(tx)})
    case Reap(s, report) =>
      a.(sessions := a.sessions[s := a.sessions[s].(current := None)],
         reported := if report then a.reported + {a.sessions[s].current.value} else a.reported)
    case Abandon(s, report) =>
      Ended(a, s).(reported := if report then a.reported + {a.sessions[s].current.value} else a.reported)
    case Acknowledge(s, tx) => a.(journal := a.journal - {tx}, acked := a.acked + {tx})
    case Close(s) => Ended(a, s)
  }

  predicate Possible(a: State, steps: seq<Step>)
    decreases |steps|
  {
    steps == [] || (Enabled(a, steps[0]) && Possible(Next(a, steps[0]), steps[1..]))
  }

  function Run(a: State, steps: seq<Step>): State
    requires Possible(a, steps)
    decreases |steps|
  {
    if steps == [] then a else Run(Next(a, steps[0]), steps[1..])
  }

  // The invariant

  function CallsOf(a: State, s: SessionId): set<Tx> { set tx | tx in a.children && a.children[tx].session == s }

  function SessionOf(a: State, h: Holder): SessionId {
    match h
    case Parent(s) => s
    case Inherited(tx) => if tx in a.children then a.children[tx].session else 0
  }

  ghost predicate LeasedAt(a: State, s: SessionId, tx: Tx) {
    && (Parent(s) in a.holders <==> Open(a, s))
    && (Inherited(tx) in a.holders <==> Alive(a, tx))
  }

  ghost predicate SameOwner(a: State, h: Holder, g: Holder) {
    h in a.holders && g in a.holders ==> SessionOf(a, h) == SessionOf(a, g)
  }

  /** An open descriptor for each live process, and all of them belong to one session. */
  ghost predicate Leased(a: State) {
    && (forall s, tx :: LeasedAt(a, s, tx))
    && (forall h, g :: SameOwner(a, h, g))
  }

  /** A child belongs to a delegation; a running one has no live child but its current. */
  ghost predicate OwnedAt(a: State, s: SessionId, tx: Tx) {
    && (tx in a.children ==>
          var p := a.children[tx].session;
          p in a.sessions && (a.sessions[p].Running? || a.sessions[p].Over?))
    && (s in a.sessions && a.sessions[s].Running? ==>
          && (Alive(a, tx) && a.children[tx].session == s ==> a.sessions[s].current == Some(tx))
          && (a.sessions[s].current == Some(tx) ==> tx in a.children && a.children[tx].session == s))
  }

  ghost predicate Owned(a: State) { forall s, tx :: OwnedAt(a, s, tx) }

  /** What was recorded is in the journal or was acknowledged, never both. */
  ghost predicate AccountedAt(a: State, tx: Tx) {
    && (tx in a.journal || tx in a.acked <==> tx in a.children && Written(a.children[tx]))
    && !(tx in a.journal && tx in a.acked)
    && (tx in a.journal && tx in a.children ==> a.journal[tx].intent == a.children[tx].intent)
    && (tx in a.acked ==> !Alive(a, tx))
    && (tx in a.acked && tx in a.children ==>
          var p := a.children[tx].session; p in a.sessions && a.sessions[p].Over?)
    && (tx in a.swapped <==> tx in a.children && a.children[tx].phase.Swapped?)
    && (tx in a.swapped && tx in a.children ==> a.swapped[tx] == a.children[tx].intent)
    && (tx in a.reported ==> tx in a.children && Told(a.children[tx]))
  }

  ghost predicate Accounted(a: State) { forall tx :: AccountedAt(a, tx) }

  /** While a delegation runs or one of its children lives, the journal is its own. */
  ghost predicate ExclusiveAt(a: State, s: SessionId, c: Tx, tx: Tx) {
    tx in a.journal && tx in a.children ==>
      && (s in a.sessions && a.sessions[s].Running? ==> a.children[tx].session == s)
      && (Alive(a, c) ==> a.children[tx].session == a.children[c].session)
  }

  ghost predicate Exclusive(a: State) { forall s, c, tx :: ExclusiveAt(a, s, c, tx) }

  ghost predicate CountedAt(a: State, s: SessionId) {
    && |CallsOf(a, s)| <= MAX_CALLS
    && (s in a.sessions && a.sessions[s].Running? ==> |CallsOf(a, s)| == a.sessions[s].calls)
  }

  ghost predicate Counted(a: State) { forall s :: CountedAt(a, s) }

  ghost predicate Inv(a: State) { Leased(a) && Owned(a) && Accounted(a) && Exclusive(a) && Counted(a) }

  lemma StartInv()
    ensures Inv(Start)
  {
    forall s ensures CallsOf(Start, s) == {} { }
  }

  /** Whoever is open owns every live child. */
  lemma OneOwner(a: State, s: SessionId, tx: Tx)
    requires Leased(a) && Owned(a) && Open(a, s) && Alive(a, tx)
    ensures a.children[tx].session == s && a.sessions[s].Running?
  {
    assert LeasedAt(a, s, tx) && SameOwner(a, Parent(s), Inherited(tx)) && OwnedAt(a, s, tx);
  }

  lemma OneSession(a: State, s: SessionId, t: SessionId)
    requires Leased(a) && Open(a, s) && Open(a, t)
    ensures s == t
  {
    assert LeasedAt(a, s, 0) && LeasedAt(a, t, 0) && SameOwner(a, Parent(s), Parent(t));
  }

  lemma OneRun(a: State, c: Tx, d: Tx)
    requires Leased(a) && Alive(a, c) && Alive(a, d)
    ensures a.children[c].session == a.children[d].session
  {
    assert LeasedAt(a, 0, c) && LeasedAt(a, 0, d) && SameOwner(a, Inherited(c), Inherited(d));
  }

  lemma LeasedAtNext(a: State, step: Step, s: SessionId, tx: Tx)
    requires Leased(a) && Enabled(a, step)
    ensures LeasedAt(Next(a, step), s, tx)
  {
    assert LeasedAt(a, s, tx);
  }

  lemma SameOwnerNext(a: State, step: Step, h: Holder, g: Holder)
    requires Leased(a) && Enabled(a, step)
    ensures SameOwner(Next(a, step), h, g)
  {
    hide Told, Written;
    assert SameOwner(a, h, g);
    assert forall tx :: LeasedAt(a, 0, tx);
    if step.Spawn? {
      assert LeasedAt(a, step.s, step.tx) && SameOwner(a, h, Parent(step.s)) && SameOwner(a, Parent(step.s), g);
    }
  }

  /** Whose transaction is acknowledged has ended: only one session is open. */
  lemma AcknowledgedIsOver(a: State, s: SessionId, tx: Tx)
    requires Leased(a) && Owned(a) && AccountedAt(a, tx) && Enabled(a, Acknowledge(s, tx))
    ensures tx in a.children
    ensures var p := a.children[tx].session; p in a.sessions && a.sessions[p].Over?
  {
    assert OwnedAt(a, s, tx);
    var p := a.children[tx].session;
    if Open(a, p) { OneSession(a, p, s); }
  }

  lemma AccountedAtNext(a: State, step: Step, tx: Tx)
    requires Leased(a) && Owned(a) && Accounted(a) && Enabled(a, step)
    ensures AccountedAt(Next(a, step), tx)
  {
    assert AccountedAt(a, tx);
    if step.Acknowledge? {
      if Alive(a, step.tx) { OneOwner(a, step.s, step.tx); }
      if step.tx == tx { AcknowledgedIsOver(a, step.s, tx); }
    }
    hide Leased, Owned, Accounted;
  }

  lemma ExclusiveAtNext(a: State, step: Step, s: SessionId, c: Tx, tx: Tx)
    requires Leased(a) && Owned(a) && Accounted(a) && Exclusive(a) && Enabled(a, step)
    ensures ExclusiveAt(Next(a, step), s, c, tx)
  {
    assert ExclusiveAt(a, s, c, tx) && AccountedAt(a, tx);
    match step
    case Spawn(p, t, intent) =>
      assert AccountedAt(a, t) && ExclusiveAt(a, p, c, tx);
    case Record(t) =>
      if Alive(a, c) { OneRun(a, c, t); }
      if Open(a, s) { OneOwner(a, s, t); }
    case PassCheck(p) =>
    case _ =>
  }

  lemma CallsNext(a: State, step: Step, s: SessionId)
    requires Owned(a) && Enabled(a, step)
    ensures CallsOf(Next(a, step), s) ==
            if step.Spawn? && step.s == s then CallsOf(a, s) + {step.tx} else CallsOf(a, s)
    ensures step.Spawn? ==> step.tx !in CallsOf(a, s)
    ensures (step.PassCheck? && step.s == s) || s !in a.sessions ==> CallsOf(a, s) == {}
  {
    hide Told, Written;
    var b := Next(a, step);
    if (step.PassCheck? && step.s == s) || s !in a.sessions {
      forall tx ensures tx !in CallsOf(a, s) { assert OwnedAt(a, s, tx); }
    }
    forall tx ensures tx in b.children && b.children[tx].session == s <==>
                      (tx in a.children && a.children[tx].session == s) || (step.Spawn? && step.s == s && tx == step.tx)
    {
    }
  }

  lemma CountedAtNext(a: State, step: Step, s: SessionId)
    requires Owned(a) && Counted(a) && Enabled(a, step)
    ensures CountedAt(Next(a, step), s)
  {
    CallsNext(a, step, s);
    assert CountedAt(a, s);
    hide Owned, Counted, CallsOf, Told, Written, Alive;
  }

  lemma OwnedAtNext(a: State, step: Step, s: SessionId, tx: Tx)
    requires Leased(a) && Owned(a) && Enabled(a, step)
    ensures OwnedAt(Next(a, step), s, tx)
  {
    hide Told, Written;
    assert OwnedAt(a, s, tx);
    if tx in a.children {
      assert OwnedAt(a, a.children[tx].session, tx);
    }
    hide Leased, Owned;
  }

  lemma NextInv(a: State, step: Step)
    requires Inv(a) && Enabled(a, step)
    ensures Inv(Next(a, step))
  {
    hide Next, Enabled;
    forall s, tx ensures LeasedAt(Next(a, step), s, tx) { LeasedAtNext(a, step, s, tx); }
    forall h, g ensures SameOwner(Next(a, step), h, g) { SameOwnerNext(a, step, h, g); }
    forall tx ensures AccountedAt(Next(a, step), tx) { AccountedAtNext(a, step, tx); }
    forall s, c, tx ensures ExclusiveAt(Next(a, step), s, c, tx) { ExclusiveAtNext(a, step, s, c, tx); }
    forall s ensures CountedAt(Next(a, step), s) { CountedAtNext(a, step, s); }
    forall s, tx ensures OwnedAt(Next(a, step), s, tx) { OwnedAtNext(a, step, s, tx); }
  }

  lemma {:induction false} RunInv(a: State, steps: seq<Step>)
    requires Inv(a) && Possible(a, steps)
    ensures Inv(Run(a, steps))
    decreases |steps|
  {
    hide Next, Enabled, Inv;
    if steps != [] {
      NextInv(a, steps[0]);
      RunInv(Next(a, steps[0]), steps[1..]);
    }
  }

  // What holds in every reachable state

  ghost predicate Reachable(a: State) { exists steps :: Possible(Start, steps) && Run(Start, steps) == a }

  lemma ReachableInv(a: State)
    requires Reachable(a)
    ensures Inv(a)
  {
    var steps :| Possible(Start, steps) && Run(Start, steps) == a;
    StartInv();
    RunInv(Start, steps);
  }

  /** The recovery gate. When a delegation passes its check, no tool child at all is alive,
      no other session is open, and every transaction ever recorded was acknowledged. */
  lemma Gate(a: State, s: SessionId)
    requires Reachable(a) && Enabled(a, PassCheck(s))
    ensures forall tx :: !Alive(a, tx)
    ensures forall t | Open(a, t) :: t == s
    ensures forall tx | tx in a.children && Written(a.children[tx]) :: tx in a.acked
    ensures forall tx | tx in a.swapped :: tx in a.acked
  {
    ReachableInv(a);
    hide Counted, Exclusive, Reachable;
    forall tx | tx in a.children && Written(a.children[tx]) ensures tx in a.acked {
      assert AccountedAt(a, tx) && tx !in a.journal;
    }
    forall tx | tx in a.swapped ensures tx in a.acked {
      assert AccountedAt(a, tx) && tx !in a.journal;
    }
    forall tx ensures !Alive(a, tx) {
      if Alive(a, tx) { OneOwner(a, s, tx); }
    }
    forall t | Open(a, t) ensures t == s { OneSession(a, s, t); }
  }

  /** No transaction is acknowledged while its child lives, hence could still commit. */
  lemma AcknowledgedIsDead(a: State, s: SessionId, tx: Tx)
    requires Reachable(a) && Enabled(a, Acknowledge(s, tx))
    ensures forall c :: !Alive(a, c)
  {
    ReachableInv(a);
    forall c ensures !Alive(a, c) {
      if Alive(a, c) { OneOwner(a, s, c); }
    }
  }

  /** While a child lives, even after its parent was killed or gave up on it, nobody can
      open a delegation or an acknowledgement. */
  lemma OrphanHoldsLease(a: State, s: SessionId, ids: set<Tx>, tx: Tx)
    requires Reachable(a) && Alive(a, tx)
    ensures !Enabled(a, OpenDelegation(s)) && !Enabled(a, OpenAcknowledgement(s, ids))
  {
    ReachableInv(a);
    assert LeasedAt(a, 0, tx);
  }

  /** At most one delegation or recovery session is open, over all servers. */
  lemma AtMostOneSession(a: State, s: SessionId, t: SessionId)
    requires Reachable(a) && Open(a, s) && Open(a, t)
    ensures s == t
  {
    ReachableInv(a);
    OneSession(a, s, t);
  }

  /** What ever became visible is journaled with its exact intent until its own id is
      acknowledged; what was reported was recorded. */
  lemma EffectIsJournaled(a: State, tx: Tx)
    requires Reachable(a)
    ensures tx in a.swapped ==> tx in a.acked || (tx in a.journal && a.journal[tx].intent == a.swapped[tx])
    ensures tx in a.reported ==> tx in a.acked || tx in a.journal
  {
    ReachableInv(a);
    assert AccountedAt(a, tx);
  }

  /** The capacity error cannot happen: a child that is about to record finds room. */
  lemma {:induction false} RoomToRecord(a: State, tx: Tx)
    requires Reachable(a) && Enabled(a, Record(tx))
    ensures |a.journal| < MAX_RECORDS
    ensures tx in Next(a, Record(tx)).journal
  {
    ReachableInv(a);
    Room(a, tx);
  }

  lemma {:induction false} Room(a: State, tx: Tx)
    requires Inv(a) && Enabled(a, Record(tx))
    ensures |a.journal| < MAX_RECORDS
  {
    var mine := CallsOf(a, a.children[tx].session);
    assert AccountedAt(a, tx) && CountedAt(a, a.children[tx].session);
    forall t | t in a.journal ensures t in mine - {tx} {
      assert AccountedAt(a, t) && ExclusiveAt(a, 0, tx, t);
    }
    Smaller(a.journal.Keys, mine - {tx});
  }

  lemma {:induction false} Smaller<T>(a: set<T>, b: set<T>)
    requires a <= b
    ensures |a| <= |b|
  {
    if a != {} {
      var x :| x in a;
      Smaller(a - {x}, b - {x});
    }
  }

  /** A child that warns after its commit still finds its record. */
  lemma WarningFindsRecord(a: State, tx: Tx)
    requires Reachable(a) && Enabled(a, Step.Warn(tx))
    ensures tx in a.journal && Next(a, Step.Warn(tx)).journal[tx].warnings == a.journal[tx].warnings + 1
  {
    ReachableInv(a);
    assert AccountedAt(a, tx);
  }

  /** An acknowledgement takes exactly its own record out of the journal. */
  lemma AcknowledgedGoes(a: State, s: SessionId, tx: Tx)
    requires Enabled(a, Acknowledge(s, tx))
    ensures var b := Next(a, Acknowledge(s, tx));
            && tx in b.acked && tx !in b.journal
            && (forall t | t != tx :: (t in b.acked <==> t in a.acked) && (t in b.journal <==> t in a.journal))
            && (forall t | t in b.journal :: b.journal[t] == a.journal[t])
            && b.(journal := a.journal, acked := a.acked) == a
  {
  }

  lemma AcknowledgedStays(a: State, tx: Tx)
    requires Inv(a) && tx in a.acked
    ensures tx !in a.journal && !Alive(a, tx)
  {
    assert AccountedAt(a, tx);
  }

  lemma AcknowledgedStep(a: State, step: Step, tx: Tx)
    requires Inv(a) && tx in a.acked && Enabled(a, step)
    ensures var b := Next(a, step);
            && tx in b.acked && (tx in b.swapped <==> tx in a.swapped)
            && (tx in a.swapped ==> b.swapped[tx] == a.swapped[tx])
            && (tx in b.reported <==> tx in a.reported)
  {
    AcknowledgedStays(a, tx);
    if step.Reap? || step.Abandon? {
      assert AccountedAt(a, tx) && OwnedAt(a, step.s, tx);
    }
    hide Inv;
  }

  /** After its acknowledgement a transaction never changes the workspace, the journal or
      the reports again, whatever happens later. */
  lemma {:induction false} AcknowledgedIsFinal(a: State, steps: seq<Step>, tx: Tx)
    requires Inv(a) && tx in a.acked && Possible(a, steps)
    ensures var b := Run(a, steps);
            && tx in b.acked && tx !in b.journal
            && (tx in b.swapped <==> tx in a.swapped) && (tx in a.swapped ==> b.swapped[tx] == a.swapped[tx])
            && (tx in b.reported <==> tx in a.reported)
    decreases |steps|
  {
    hide Inv;
    AcknowledgedStays(a, tx);
    if steps != [] {
      var b := Next(a, steps[0]);
      NextInv(a, steps[0]);
      AcknowledgedStep(a, steps[0], tx);
      hide Next, Enabled;
      AcknowledgedIsFinal(b, steps[1..], tx);
    }
  }

  /** Nothing leaves the journal but by an acknowledgement that names it. */
  lemma {:induction false} LeavesOnlyByName(a: State, steps: seq<Step>, tx: Tx)
    requires Possible(a, steps) && tx in a.journal && tx !in Run(a, steps).journal
    ensures exists i :: 0 <= i < |steps| && steps[i].Acknowledge? && steps[i].tx == tx
    decreases |steps|
  {
    var b := Next(a, steps[0]);
    if tx in b.journal {
      LeavesOnlyByName(b, steps[1..], tx);
      var i :| 0 <= i < |steps[1..]| && steps[1..][i].Acknowledge? && steps[1..][i].tx == tx;
      assert steps[i + 1] == steps[1..][i];
    } else {
      assert steps[0].Acknowledge? && steps[0].tx == tx;
    }
  }

  /** Between a journaled transaction and any later delegation lies an acknowledgement
      that names that very transaction. */
  lemma NamedBeforeNextDelegation(a: State, steps: seq<Step>, tx: Tx, s: SessionId)
    requires Possible(a, steps) && tx in a.journal && Enabled(Run(a, steps), PassCheck(s))
    ensures exists i :: 0 <= i < |steps| && steps[i].Acknowledge? && steps[i].tx == tx
  {
    assert tx !in Run(a, steps).journal;
    LeavesOnlyByName(a, steps, tx);
  }

  lemma {:induction false} OverIsFinal(a: State, steps: seq<Step>, s: SessionId)
    requires Possible(a, steps) && s in a.sessions && a.sessions[s].Over?
    ensures !Open(Run(a, steps), s)
    decreases |steps|
  {
    if steps != [] {
      OverStep(a, steps[0], s);
      hide Next, Enabled;
      OverIsFinal(Next(a, steps[0]), steps[1..], s);
    }
  }

  lemma OverStep(a: State, step: Step, s: SessionId)
    requires Enabled(a, step) && s in a.sessions && a.sessions[s].Over?
    ensures s in Next(a, step).sessions && Next(a, step).sessions[s].Over?
  {
  }

  /** A session that found the workspace busy is over for good. */
  lemma {:induction false} RefusedNeverOpens(a: State, steps: seq<Step>, s: SessionId)
    requires Possible(a, [Busy(s)] + steps)
    ensures !Open(Run(a, [Busy(s)] + steps), s)
  {
    assert ([Busy(s)] + steps)[1..] == steps;
    OverIsFinal(Next(a, Busy(s)), steps, s);
  }

  /** The capacity is a bound of its own, whatever state a run starts from. */
  lemma CapacityHolds(a: State, step: Step)
    requires Enabled(a, step) && |a.journal| <= MAX_RECORDS
    ensures |Next(a, step).journal| <= MAX_RECORDS
  {
    if step.Acknowledge? {
      assert Next(a, step).journal.Keys == a.journal.Keys - {step.tx};
      Smaller(Next(a, step).journal.Keys, a.journal.Keys);
    }
    if step.Warn? && step.tx in a.journal {
      assert Next(a, step).journal.Keys == a.journal.Keys;
    }
  }

  // What can always be done

  lemma {:induction false} RunThen(a: State, first: seq<Step>, next: seq<Step>)
    requires Possible(a, first) && Possible(Run(a, first), next)
    ensures Possible(a, first + next) && Run(a, first + next) == Run(Run(a, first), next)
    decreases |first|
  {
    hide Next, Enabled;
    if first == [] {
      assert first + next == next;
    } else {
      RunThen(Next(a, first[0]), first[1..], next);
      assert (first + next)[0] == first[0] && (first + next)[1..] == first[1..] + next;
    }
  }

  lemma OneStep(a: State, step: Step)
    requires Enabled(a, step)
    ensures Possible(a, [step]) && Run(a, [step]) == Next(a, step)
  {
    hide Next, Enabled;
    assert [step][1..] == [];
    assert Possible(Next(a, step), []);
  }

  /** One call of a delegation, from its spawn to its report. */
  function CallSteps(s: SessionId, tx: Tx, intent: Intent): seq<Step> {
    [Spawn(s, tx, intent), Record(tx), Announce(tx), Step.Swap(tx), ChildGone(tx), Reap(s, true)]
  }

  function Spawned(a: State, s: SessionId, calls: nat, tx: Tx, intent: Intent): State {
    a.(sessions := a.sessions[s := Running(calls + 1, Some(tx))],
       children := a.children[tx := Child(s, intent, Started, true)], holders := a.holders + {Inherited(tx)})
  }

  function InPhase(a: State, s: SessionId, tx: Tx, intent: Intent, phase: Phase): State {
    a.(children := a.children[tx := Child(s, intent, phase, true)], journal := a.journal[tx := Journaled(intent, 0)])
  }

  lemma SpawnThenRecord(a: State, s: SessionId, calls: nat, tx: Tx, intent: Intent)
    requires s in a.sessions && a.sessions[s] == Running(calls, None) && calls < MAX_CALLS && tx !in a.children
    ensures Enabled(a, Spawn(s, tx, intent)) && Next(a, Spawn(s, tx, intent)) == Spawned(a, s, calls, tx, intent)
    ensures var b := Spawned(a, s, calls, tx, intent);
            Enabled(b, Record(tx)) &&
            (|b.journal| < MAX_RECORDS ==> Next(b, Record(tx)) == InPhase(b, s, tx, intent, Recorded))
  {
  }

  lemma AnnounceThenSwap(b: State, s: SessionId, tx: Tx, intent: Intent)
    ensures var c, d := InPhase(b, s, tx, intent, Recorded), InPhase(b, s, tx, intent, Announced);
            Enabled(c, Announce(tx)) && Next(c, Announce(tx)) == d
    ensures var d, e := InPhase(b, s, tx, intent, Announced), InPhase(b, s, tx, intent, Swapped);
            Enabled(d, Step.Swap(tx)) && Next(d, Step.Swap(tx)) == e.(swapped := e.swapped[tx := intent])
  {
  }

  lemma GoneThenReaped(e: State, s: SessionId, calls: nat, tx: Tx, intent: Intent)
    requires s in e.sessions && e.sessions[s] == Running(calls, Some(tx))
    requires tx in e.children && e.children[tx] == Child(s, intent, Swapped, true)
    ensures Enabled(e, ChildGone(tx))
    ensures var f := Next(e, ChildGone(tx));
            && f == e.(children := e.children[tx := Child(s, intent, Swapped, false)],
                       holders := e.holders - {Inherited(tx)})
            && Enabled(f, Reap(s, true))
            && Next(f, Reap(s, true)) ==
               f.(sessions := f.sessions[s := Running(calls, None)], reported := f.reported + {tx})
  {
  }

  /** A delegation that has calls left can always make one, and a call that nothing
      disturbs journals its intent, makes it visible and reports it, and nothing else. */
  lemma {:induction false} CallSucceeds(a: State, s: SessionId, tx: Tx, intent: Intent)
    requires Reachable(a) && s in a.sessions && a.sessions[s].Running? && a.sessions[s].current.None?
    requires a.sessions[s].calls < MAX_CALLS && tx !in a.children
    ensures Possible(a, CallSteps(s, tx, intent))
    ensures Run(a, CallSteps(s, tx, intent)) ==
            a.(sessions := a.sessions[s := Running(a.sessions[s].calls + 1, None)],
               children := a.children[tx := Child(s, intent, Swapped, false)],
               journal := a.journal[tx := Journaled(intent, 0)],
               swapped := a.swapped[tx := intent], reported := a.reported + {tx})
  {
    hide Inv, Reachable, Possible, Run, Next, Enabled, Leased, Alive, Spawned, InPhase;
    var calls := a.sessions[s].calls;
    SpawnThenRecord(a, s, calls, tx, intent);
    RoomAfterSpawn(a, s, calls, tx, intent);
    var b := Spawned(a, s, calls, tx, intent);
    AnnounceThenSwap(b, s, tx, intent);
    CallHalf(a, s, calls, tx, intent);
    var c, d, w := InPhase(b, s, tx, intent, Recorded), InPhase(b, s, tx, intent, Announced),
                   InPhase(b, s, tx, intent, Swapped);
    var e := w.(swapped := w.swapped[tx := intent]);
    GoneThenReaped(e, s, calls + 1, tx, intent);
    var f := Next(e, ChildGone(tx));
    SixSteps(a, Spawn(s, tx, intent), Record(tx), Announce(tx), Step.Swap(tx), ChildGone(tx), Reap(s, true));
    CallEnds(a, s, calls, tx, intent);
  }

  lemma RoomAfterSpawn(a: State, s: SessionId, calls: nat, tx: Tx, intent: Intent)
    requires Reachable(a) && s in a.sessions && a.sessions[s] == Running(calls, None)
    requires calls < MAX_CALLS && tx !in a.children
    ensures Inherited(tx) !in a.holders && |Spawned(a, s, calls, tx, intent).journal| < MAX_RECORDS
  {
    ReachableInv(a);
    assert LeasedAt(a, s, tx);
    hide Inv, Reachable, Next, Enabled, Spawned, Leased;
    SpawnThenRecord(a, s, calls, tx, intent);
    NextInv(a, Spawn(s, tx, intent));
    Room(Spawned(a, s, calls, tx, intent), tx);
  }

  /** The state in which the child has made its write visible. */
  lemma CallHalf(a: State, s: SessionId, calls: nat, tx: Tx, intent: Intent)
    ensures var w := InPhase(Spawned(a, s, calls, tx, intent), s, tx, intent, Swapped);
            var e := w.(swapped := w.swapped[tx := intent]);
            && s in e.sessions && e.sessions[s] == Running(calls + 1, Some(tx))
            && tx in e.children && e.children[tx] == Child(s, intent, Swapped, true)
  {
  }

  lemma CallEnds(a: State, s: SessionId, calls: nat, tx: Tx, intent: Intent)
    requires Inherited(tx) !in a.holders
    ensures var w := InPhase(Spawned(a, s, calls, tx, intent), s, tx, intent, Swapped);
            var e := w.(swapped := w.swapped[tx := intent]);
            var f := e.(children := e.children[tx := Child(s, intent, Swapped, false)],
                        holders := e.holders - {Inherited(tx)});
            f.(sessions := f.sessions[s := Running(calls + 1, None)], reported := f.reported + {tx}) ==
            a.(sessions := a.sessions[s := Running(calls + 1, None)],
               children := a.children[tx := Child(s, intent, Swapped, false)],
               journal := a.journal[tx := Journaled(intent, 0)],
               swapped := a.swapped[tx := intent], reported := a.reported + {tx})
  {
    assert a.holders + {Inherited(tx)} - {Inherited(tx)} == a.holders;
  }

  lemma SixSteps(a: State, p: Step, q: Step, r: Step, s: Step, t: Step, u: Step)
    requires Enabled(a, p) && Enabled(Next(a, p), q) && Enabled(Next(Next(a, p), q), r)
    requires var d := Next(Next(Next(a, p), q), r);
             Enabled(d, s) && Enabled(Next(d, s), t) && Enabled(Next(Next(d, s), t), u)
    ensures Possible(a, [p, q, r, s, t, u])
    ensures Run(a, [p, q, r, s, t, u]) == Next(Next(Next(Next(Next(Next(a, p), q), r), s), t), u)
  {
    hide Next, Enabled;
    var b, c := Next(a, p), Next(Next(a, p), q);
    var d := Next(c, r);
    OneStep(Next(Next(d, s), t), u);
    StepThen(Next(d, s), t, [u]);
    StepThen(d, s, [t, u]);
    StepThen(c, r, [s, t, u]);
    StepThen(b, q, [r, s, t, u]);
    StepThen(a, p, [q, r, s, t, u]);
    hide Possible, Run;
  }

  lemma StepThen(a: State, step: Step, rest: seq<Step>)
    requires Enabled(a, step) && Possible(Next(a, step), rest)
    ensures Possible(a, [step] + rest) && Run(a, [step] + rest) == Run(Next(a, step), rest)
  {
    hide Next, Enabled;
    assert ([step] + rest)[1..] == rest;
  }

  /** A parent that gives up on its child ends its session and lets go of the lease; the
      child, if it lives, goes on and holds it. */
  lemma AbandonedLives(a: State, s: SessionId, report: bool)
    requires Reachable(a) && Enabled(a, Abandon(s, report))
    ensures var b, tx := Next(a, Abandon(s, report)), a.sessions[s].current.value;
            && !Open(b, s) && Parent(s) !in b.holders
            && b.children == a.children && b.journal == a.journal && b.swapped == a.swapped
            && (Alive(a, tx) <==> b.holders == {Inherited(tx)}) && (!Alive(a, tx) <==> b.holders == {})
            && b.reported == if report then a.reported + {tx} else a.reported
  {
    ReachableInv(a);
    hide Reachable, Accounted, Exclusive, Counted;
    var b, tx := Next(a, Abandon(s, report)), a.sessions[s].current.value;
    forall h | h in b.holders ensures h == Inherited(tx) && Alive(a, tx) {
      match h
      case Parent(q) => assert LeasedAt(a, q, tx); OneSession(a, q, s);
      case Inherited(c) =>
        assert LeasedAt(a, s, c);
        OneOwner(a, s, c);
        assert OwnedAt(a, s, c);
    }
    assert LeasedAt(a, s, tx);
  }

  /** From every state the processes can all end, and then the lease is free; that changes
      neither the journal nor the workspace nor what was reported. */
  lemma {:induction false} LeaseComesFree(a: State) returns (steps: seq<Step>)
    requires Inv(a)
    ensures Possible(a, steps) && forall i | 0 <= i < |steps| :: steps[i].ChildGone? || steps[i].Close?
    ensures var b := Run(a, steps);
            && Inv(b) && b.holders == {}
            && b.journal == a.journal && b.acked == a.acked && b.swapped == a.swapped && b.reported == a.reported
            && b.sessions.Keys == a.sessions.Keys && b.children.Keys == a.children.Keys
    decreases |a.holders|
  {
    if a.holders == {} {
      steps := [];
    } else {
      var h :| h in a.holders;
      assert h.Parent? ==> LeasedAt(a, h.session, 0);
      assert h.Inherited? ==> LeasedAt(a, 0, h.tx);
      var step := match h case Parent(s) => Close(s) case Inherited(tx) => ChildGone(tx);
      var b := Next(a, step);
      assert b.holders == a.holders - {h};
      assert b.sessions.Keys == a.sessions.Keys && b.children.Keys == a.children.Keys;
      NextInv(a, step);
      hide Inv, Enabled;
      var rest := LeaseComesFree(b);
      steps := [step] + rest;
      assert steps[1..] == rest;
    }
  }

  lemma AcknowledgeStep(a: State, s: SessionId, tx: Tx)
    requires s in a.sessions && a.sessions[s].Acknowledging? && tx in a.sessions[s].ids && tx in a.journal
    ensures Enabled(a, Acknowledge(s, tx))
    ensures Next(a, Acknowledge(s, tx)) == a.(journal := a.journal - {tx}, acked := a.acked + {tx})
  {
  }

  lemma {:induction false} AcknowledgeAll(a: State, s: SessionId) returns (steps: seq<Step>)
    requires s in a.sessions && a.sessions[s].Acknowledging? && a.journal.Keys <= a.sessions[s].ids
    ensures Possible(a, steps) && forall i | 0 <= i < |steps| :: steps[i].Acknowledge? && steps[i].s == s
    ensures Run(a, steps) == a.(journal := map[], acked := a.acked + a.journal.Keys)
    decreases |a.journal|
  {
    if a.journal == map[] {
      steps := [];
    } else {
      var tx :| tx in a.journal;
      AcknowledgeStep(a, s, tx);
      hide Next, Enabled;
      var b := Next(a, Acknowledge(s, tx));
      assert b.journal.Keys == a.journal.Keys - {tx};
      var rest := AcknowledgeAll(b, s);
      steps := [Acknowledge(s, tx)] + rest;
      assert steps[1..] == rest;
      assert a.acked + {tx} + b.journal.Keys == a.acked + a.journal.Keys;
    }
  }

  lemma Opens(b: State, r: SessionId, ids: set<Tx>)
    requires b.holders == {} && r !in b.sessions
    ensures Enabled(b, OpenAcknowledgement(r, ids))
    ensures Next(b, OpenAcknowledgement(r, ids)) ==
            b.(sessions := b.sessions[r := Acknowledging(ids)], holders := {Parent(r)})
  {
  }

  lemma Reopens(d: State, r: SessionId, s: SessionId, ids: set<Tx>)
    requires r in d.sessions && d.sessions[r] == Acknowledging(ids) && s !in d.sessions
    requires d.holders == {Parent(r)} && d.journal == map[]
    ensures Enabled(d, Close(r)) && Enabled(Next(d, Close(r)), OpenDelegation(s))
    ensures var f := Next(Next(d, Close(r)), OpenDelegation(s));
            && Enabled(f, PassCheck(s)) && Next(f, PassCheck(s)) == f.(sessions := f.sessions[s := Running(0, None)])
            && f.acked == d.acked && f.swapped == d.swapped && f.reported == d.reported
  {
    assert d.holders - {Parent(r)} == {};
  }

  /** Recovery works: from every reachable state, whatever crashed, the processes can end,
      one acknowledgement that names the records of the journal empties it, and a delegation
      opened after it passes its check, with the workspace as it was. */
  lemma {:induction false} RecoveryReopens(a: State, r: SessionId, s: SessionId)
      returns (steps: seq<Step>, acks: seq<Step>)
    requires Reachable(a) && r !in a.sessions && s !in a.sessions && r != s
    ensures forall i | 0 <= i < |steps| :: steps[i].ChildGone? || steps[i].Close?
    ensures forall i | 0 <= i < |acks| :: acks[i].Acknowledge? && acks[i].s == r
    ensures var all := steps + [OpenAcknowledgement(r, a.journal.Keys)] + acks + [Close(r), OpenDelegation(s)];
            && Possible(a, all)
            && var b := Run(a, all);
               && Enabled(b, PassCheck(s)) && Next(b, PassCheck(s)) == b.(sessions := b.sessions[s := Running(0, None)])
               && b.acked == a.acked + a.journal.Keys && b.swapped == a.swapped && b.reported == a.reported
  {
    ReachableInv(a);
    hide Inv, Possible, Run, Reachable, Next, Enabled;
    steps := LeaseComesFree(a);
    var b := Run(a, steps);
    var open := OpenAcknowledgement(r, a.journal.Keys);
    Opens(b, r, a.journal.Keys);
    OneStep(b, open);
    var c := Next(b, open);
    acks := AcknowledgeAll(c, r);
    var d := Run(c, acks);
    Reopens(d, r, s, a.journal.Keys);
    OneStep(d, Close(r));
    OneStep(Next(d, Close(r)), OpenDelegation(s));
    RunThen(a, steps, [open]);
    RunThen(a, steps + [open], acks);
    RunThen(a, steps + [open] + acks, [Close(r)]);
    RunThen(a, steps + [open] + acks + [Close(r)], [OpenDelegation(s)]);
    assert steps + [open] + acks + [Close(r)] + [OpenDelegation(s)] ==
           steps + [open] + acks + [Close(r), OpenDelegation(s)];
  }
}
