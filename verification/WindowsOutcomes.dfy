/** When each outcome of the Windows commits is due, over the failures, the names drawn and
    what the target shows at each step. */
module WindowsOutcomes {
  import opened Files
  import opened Wrappers
  import opened WindowsCommit

  // One replacement

  /** What the target shows when a replacement that starts at tick `t` takes effect. */
  function Met(e: Env, t: nat, shown: Option<Version>): Option<Version> { Turn(e, t + 1, Turn(e, t, shown)) }

  /** Whether a replacement of the target by `source` can take effect at all. */
  predicate Possible(e: Env, d: Directory, t: nat, source: Name, backup: Name) {
    Met(e, t, Get(d, Target)).Some? && source in d && backup !in d
  }

  /** The end of a replacement from tick `t` on. One that stops half-way is finished, when it
      is a rollback, by moving the source to the target, which is vacant by then. */
  function ReplaceOutcome(e: Env, d: Directory, t: nat, source: Name, backup: Name, rollback: bool): Replacement {
    if !e.fault(t).NoFault? then Unresolved
    else if e.fault(t + 1).NoFault? && Possible(e, d, t, source, backup) then
      if e.fault(t + 2).NoFault? then Replaced else if rollback then RollbackUnsure else CommittedUnsure
    else if e.fault(t + 1).Partial? && Possible(e, d, t, source, backup) && rollback then
      if e.fault(t + 2).NoFault? && Turn(e, t + 2, None).None? then Replaced else RollbackUnsure
    else if rollback then CommittedUnsure
    else Raised
  }

  /** A replacement, as names and versions. */
  lemma ReplaceTaken(e: Env, w: World, source: Name, backup: Name)
    requires source.Private? && backup.Private? && source in w.disk.dir
    ensures var (w', io) := Attempt(e, w, Replace(source, backup)); var x := Turn(e, w.tick, Get(w.disk.dir, Target));
            && w'.tick == w.tick + 1
            && (io.Done? <==> e.fault(w.tick).NoFault? && x.Some? && backup !in w.disk.dir)
            && (!io.Done? ==> io == if e.fault(w.tick).NoFault? then Absent else Failed(e.fault(w.tick)))
            && (!io.Done? ==> Get(w'.disk.dir, Target) == x
                              && forall m: Name | m.Private? :: Get(w'.disk.dir, m) == Get(w.disk.dir, m))
            && (io.Done? ==>
                  && Get(w'.disk.dir, Target) == Some(w.disk.dir[source]) && Get(w'.disk.dir, backup) == x
                  && source !in w'.disk.dir
                  && forall m: Name | m.Private? && m != source && m != backup ::
                       Get(w'.disk.dir, m) == Get(w.disk.dir, m))
            && (!io.Done? ==> (Legal(w'.disk.dir, Replace(source, backup)) <==> x.Some? && backup !in w.disk.dir))
  {
    TurnTaken(e, w);
    assert Get(Interfere(e, w).disk.dir, source) == Get(w.disk.dir, source);
    assert Get(Interfere(e, w).disk.dir, backup) == Get(w.disk.dir, backup);
    hide Interfere;
  }

  /** The target set aside under a free private name. */
  lemma SetAside(w: World, backup: Name)
    requires backup.Private? && backup !in w.disk.dir && Target in w.disk.dir
    ensures var w' := Do(w, Move(Target, backup));
            && w'.tick == w.tick && Target !in w'.disk.dir && Get(w'.disk.dir, backup) == Get(w.disk.dir, Target)
            && forall m: Name | m.Private? && m != backup :: Get(w'.disk.dir, m) == Get(w.disk.dir, m)
  {
  }

  /** A private file moved to the target, the close after it included. */
  lemma PublishTaken(e: Env, w: World, from: Name)
    requires from.Private? && from in w.disk.dir
    ensures var (w', io) := MoveRun(e, w, from, Target); var x := Turn(e, w.tick, Get(w.disk.dir, Target));
            && w'.tick == w.tick + 1
            && io == (if e.fault(w.tick).NoFault? then (if x.None? then Done else Exists)
                      else if e.fault(w.tick).Partial? && x.Some? then Exists
                      else Failed(e.fault(w.tick)))
            && (if (e.fault(w.tick).NoFault? || e.fault(w.tick).Partial?) && x.None? then
                  Get(w'.disk.dir, Target) == Get(w.disk.dir, from) && from !in w'.disk.dir
                else Get(w'.disk.dir, Target) == x && Get(w'.disk.dir, from) == Get(w.disk.dir, from))
            && forall m: Name | m.Private? && m != from :: Get(w'.disk.dir, m) == Get(w.disk.dir, m)
  {
    TurnTaken(e, w);
    assert Get(Interfere(e, w).disk.dir, from) == Get(w.disk.dir, from);
    hide Interfere;
  }

  lemma SyncTaken(e: Env, w: World)
    ensures var (w', ok) := Sync(e, w);
            && w'.tick == w.tick + 1 && (ok <==> e.fault(w.tick).NoFault?)
            && Get(w'.disk.dir, Target) == Turn(e, w.tick, Get(w.disk.dir, Target))
            && forall m: Name | m.Private? :: Get(w'.disk.dir, m) == Get(w.disk.dir, m)
  {
    TurnTaken(e, w);
    hide Interfere;
  }

  /** Every end of a replacement has its reason; after one that took effect the backup name
      holds what the target showed and the source is gone. */
  lemma {:induction false} ReplaceDue(e: Env, w: World, source: Name, backup: Name, rollback: bool)
    requires source.Private? && backup.Private? && source in w.disk.dir
    ensures var (w', r) := ReplaceRun(e, w, source, backup, rollback); var d := w.disk.dir;
            && r == ReplaceOutcome(e, d, w.tick, source, backup, rollback)
            && (r.Replaced? ==>
                  && w'.tick == w.tick + 3 && Get(w'.disk.dir, backup) == Met(e, w.tick, Get(d, Target))
                  && source !in w'.disk.dir
                  && forall m: Name | m.Private? && m != source && m != backup :: Get(w'.disk.dir, m) == Get(d, m))
            && (r.Replaced? && !rollback ==> Get(w'.disk.dir, Target) == Turn(e, w.tick + 2, Some(d[source])))
  {
    SyncTaken(e, w);
    var w1 := Sync(e, w).0;
    assert Get(w1.disk.dir, source) == Get(w.disk.dir, source) && Get(w1.disk.dir, backup) == Get(w.disk.dir, backup);
    ReplaceTaken(e, w1, source, backup);
    var (w2, io) := Attempt(e, w1, Replace(source, backup));
    SyncTaken(e, w2);
    if io == Failed(Partial) && Legal(w2.disk.dir, Replace(source, backup)) {
      SetAside(w2, backup);
      var w3 := Do(w2, Move(Target, backup));
      PublishTaken(e, w3, if rollback then source else backup);
    }
    hide Sync, Attempt, MoveRun, Do;
  }

  /** A replacement that stops half-way is undone by itself when nothing else goes wrong. */
  lemma {:induction false} PartialUndone(e: Env, w: World, source: Name, backup: Name)
    requires source.Private? && backup.Private? && source in w.disk.dir && backup !in w.disk.dir
    requires source != backup && Target in w.disk.dir
    requires forall i :: e.rival(i).None?
    requires e.fault(w.tick).NoFault? && e.fault(w.tick + 1).Partial? && e.fault(w.tick + 2).NoFault?
    ensures var (w', r) := ReplaceRun(e, w, source, backup, false); r.Raised? && w'.disk.dir == w.disk.dir
    ensures var (w', r) := ReplaceRun(e, w, source, backup, true); var d := w.disk.dir;
            r.Replaced? && w'.disk.dir == (d - {source})[backup := d[Target]][Target := d[source]]
  {
    var d, w2 := w.disk.dir, w.(tick := w.tick + 2);
    assert Attempt(e, w.(tick := w.tick + 1), Replace(source, backup)) == (w2, Failed(Partial));
    var w3 := Do(w2, Move(Target, backup));
    assert w3.disk.dir == (d - {Target})[backup := d[Target]];
    assert MoveRun(e, w3, backup, Target).0.disk.dir == d;
    assert MoveRun(e, w3, source, Target).0.disk.dir == (d - {source})[backup := d[Target]][Target := d[source]];
  }

  // The audit and the rollback

  /** The end of the removal of `x` if it is as `id` says. */
  ghost function RemovalOutcome(e: Env, t: nat, x: Option<Version>, id: Identity): Removal {
    if e.fault(t).Rejected? then InputRaised
    else if !e.fault(t).NoFault? then OsRaised
    else if x.None? then Kept
    else if !x.value.regular then InputRaised
    else if !Matches(x.value, id) then Kept
    else if e.fault(t + 1).NoFault? then Removed
    else OsRaised
  }

  /** The removal is tried, at the next tick. */
  ghost predicate Tried(e: Env, t: nat, x: Option<Version>, id: Identity) {
    e.fault(t).NoFault? && x.Some? && x.value.regular && Matches(x.value, id)
  }

  lemma RemoveTaken(e: Env, w: World, n: Name)
    requires n.Private? && n in w.disk.dir
    ensures var (w', io) := RemoveRun(e, w, n); var fault := e.fault(w.tick);
            && w'.tick == w.tick + 1 && (io.Done? <==> fault.NoFault?)
            && (n !in w'.disk.dir <==> fault.NoFault? || fault.Partial?)
            && (n in w'.disk.dir ==> w'.disk.dir[n] == w.disk.dir[n])
            && Get(w'.disk.dir, Target) == Turn(e, w.tick, Get(w.disk.dir, Target))
            && forall m: Name | m.Private? && m != n :: Get(w'.disk.dir, m) == Get(w.disk.dir, m)
  {
    TurnTaken(e, w);
    assert Get(Interfere(e, w).disk.dir, n) == Get(w.disk.dir, n);
    hide Interfere;
  }

  lemma {:induction false} RemovalDue(e: Env, w: World, n: Name, id: Identity)
    requires n.Private?
    ensures var (w', gone) := DiscardRun(e, w, n, id); var t, x := w.tick, Get(w.disk.dir, n);
            var shown := Turn(e, t, Get(w.disk.dir, Target));
            var tried := Tried(e, t, x, id);
            && gone == RemovalOutcome(e, t, x, id)
            && w'.tick == (if tried then t + 2 else t + 1)
            && (n !in w'.disk.dir <==> x.None? || (tried && (e.fault(t + 1).NoFault? || e.fault(t + 1).Partial?)))
            && (n in w'.disk.dir ==> Get(w'.disk.dir, n) == x)
            && Get(w'.disk.dir, Target) == (if tried then Turn(e, t + 1, shown) else shown)
            && forall m: Name | m.Private? && m != n :: Get(w'.disk.dir, m) == Get(w.disk.dir, m)
  {
    LookTaken(e, w, n);
    var w1 := Inspect(e, w, n).0;
    assert Get(w1.disk.dir, n) == Get(w.disk.dir, n);
    if n in w.disk.dir {
      RemoveTaken(e, w1, n);
    }
    hide Inspect, RemoveRun;
  }

  /** The directory after it. */
  ghost function AfterRemoval(e: Env, d: Directory, t: nat, n: Name, id: Identity): Directory {
    var shown := Turn(e, t, Get(d, Target));
    if !Tried(e, t, Get(d, n), id) then Set(d, Target, shown)
    else if e.fault(t + 1).NoFault? || e.fault(t + 1).Partial? then Set(d - {n}, Target, Turn(e, t + 1, shown))
    else Set(d, Target, Turn(e, t + 1, shown))
  }

  lemma RemovalLeaves(e: Env, w: World, n: Name, id: Identity)
    requires n.Private?
    ensures DiscardRun(e, w, n, id).0.disk.dir == AfterRemoval(e, w.disk.dir, w.tick, n, id)
  {
    RemovalDue(e, w, n, id);
    hide DiscardRun, RemovalOutcome, Matches, Turn;
    SameDirectory(DiscardRun(e, w, n, id).0.disk.dir, AfterRemoval(e, w.disk.dir, w.tick, n, id));
  }

  /** The end of a rollback from tick `t` on that should give `displaced` back. */
  ghost function RollbackOutcome(e: Env, d: Directory, t: nat, displaced: Name, repl: Identity, conflict: bool)
    : Outcome
  {
    match ReplaceOutcome(e, d, t, displaced, Private(e.token(t)), true)
    case Unresolved => Refused(RollbackUnresolved)
    case RollbackUnsure => Refused(RolledBackUnsure)
    case CommittedUnsure => Warned
    case _ =>
      var removed := RemovalOutcome(e, t + 3, Met(e, t, Get(d, Target)), repl).Removed?;
      Refused(if conflict then Cause.Conflict(removed) else AuditFailed(removed))
  }

  lemma {:induction false} RollbackDue(e: Env, w: World, displaced: Name, repl: Identity, conflict: bool)
    requires displaced.Private?
    ensures RestoreRun(e, w, displaced, repl, conflict).1 ==
            RollbackOutcome(e, w.disk.dir, w.tick, displaced, repl, conflict)
  {
    hide ReplaceRun, DiscardRun, RemovalOutcome, Met, ReplaceOutcome, RestoreRun;
    if displaced in w.disk.dir {
      FullRollbackDue(e, w, displaced, repl, conflict);
    } else {
      NothingRestored(e, w, displaced, repl, conflict);
      VacantRollback(e, w.disk.dir, w.tick, displaced);
    }
  }

  lemma VacantRollback(e: Env, d: Directory, t: nat, displaced: Name)
    requires displaced !in d
    ensures ReplaceOutcome(e, d, t, displaced, Private(e.token(t)), true) ==
            if e.fault(t).NoFault? then CommittedUnsure else Unresolved
  {
  }

  lemma {:induction false} FullRollbackDue(e: Env, w: World, displaced: Name, repl: Identity, conflict: bool)
    requires displaced.Private? && displaced in w.disk.dir
    ensures RestoreRun(e, w, displaced, repl, conflict).1 ==
            RollbackOutcome(e, w.disk.dir, w.tick, displaced, repl, conflict)
  {
    hide ReplaceRun, DiscardRun, RemovalOutcome, Met, ReplaceOutcome;
    var recovery := Fresh(e, w);
    ReplaceDue(e, w, displaced, recovery, true);
    RaisedIsForward(e, w.disk.dir, w.tick, displaced, recovery);
    RemovalDue(e, ReplaceRun(e, w, displaced, recovery, true).0, recovery, repl);
  }

  lemma RaisedIsForward(e: Env, d: Directory, t: nat, source: Name, backup: Name)
    ensures !ReplaceOutcome(e, d, t, source, backup, true).Raised?
  {
  }

  /** The end of the audit of `x`, set aside as `displaced`, from tick `t` on. */
  ghost function AuditOutcome(e: Env, d: Directory, t: nat, displaced: Name, x: Version, id: Identity, repl: Identity)
    : Outcome
  {
    var left, next := AfterRemoval(e, d, t, displaced, id), if Tried(e, t, Some(x), id) then t + 2 else t + 1;
    match RemovalOutcome(e, t, Some(x), id)
    case Removed => Returned
    case InputRaised => Refused(DisplacedRejected)
    case Kept => RollbackOutcome(e, left, next, displaced, repl, true)
    case OsRaised => RollbackOutcome(e, left, next, displaced, repl, false)
  }

  lemma {:induction false} AuditDue(e: Env, w: World, displaced: Name, id: Identity, repl: Identity)
    requires displaced.Private? && displaced in w.disk.dir
    ensures AuditRun(e, w, displaced, id, repl).1 ==
            AuditOutcome(e, w.disk.dir, w.tick, displaced, w.disk.dir[displaced], id, repl)
  {
    hide DiscardRun, RestoreRun, RollbackOutcome, AfterRemoval, RemovalOutcome, Tried, Turn;
    RemovalDue(e, w, displaced, id);
    RemovalLeaves(e, w, displaced, id);
    var (w1, gone) := DiscardRun(e, w, displaced, id);
    RollbackDue(e, w1, displaced, repl, gone.Kept?);
  }

  /** The outcome of a commit from tick `t` on. */
  ghost function CommitOutcome(e: Env, d: Directory, t: nat, temp: Name, baseline: Option<Identity>, repl: Identity)
    : Outcome
    requires temp in d
  {
    match baseline
    case None =>
      var free := Turn(e, t, Get(d, Target)).None?;
      if e.fault(t).NoFault? then (if free then Returned else Refused(TargetAppeared))
      else if e.fault(t).Partial? then (if free then Warned else Refused(TargetAppeared))
      else Refused(PublishRaised)
    case Some(id) =>
      var displaced, x := Private(e.token(t)), Met(e, t, Get(d, Target));
      match ReplaceOutcome(e, d, t, temp, displaced, false)
      case CommittedUnsure => Warned
      case Replaced =>
        if x.None? then Refused(ReplaceRaised)
        else
          var after := Set((d - {temp})[displaced := x.value], Target, Turn(e, t + 2, Some(d[temp])));
          AuditOutcome(e, after, t + 3, displaced, x.value, id, repl)
      case _ => Refused(ReplaceRaised)
  }

  /** Every outcome of a commit, whatever rivals and failures do, has its reason. */
  lemma {:induction false} CommitDue(e: Env, w: World, temp: Name, baseline: Option<Identity>, repl: Identity)
    requires temp.Private? && temp in w.disk.dir
    ensures CommitRun(e, w, temp, baseline, repl).1 ==
            CommitOutcome(e, w.disk.dir, w.tick, temp, baseline, repl)
  {
    hide ReplaceRun, AuditRun, MoveRun, AuditOutcome;
    if baseline.None? {
      PublishTaken(e, w, temp);
    } else {
      var d, displaced := w.disk.dir, Fresh(e, w);
      ReplaceDue(e, w, temp, displaced, false);
      var (w1, r) := ReplaceRun(e, w, temp, displaced, false);
      if r.Replaced? {
        var x := w1.disk.dir[displaced];
        SameDirectory(w1.disk.dir, Set((d - {temp})[displaced := x], Target, Get(w1.disk.dir, Target)));
        AuditDue(e, w1, displaced, baseline.value, repl);
      }
    }
  }

  /** Alone, a creation publishes over an absent target only, and a replacement of a target
      that is gone does nothing. */
  lemma {:induction false} CommitElsewhere(e: Env, w: World, temp: Name, baseline: Option<Identity>, repl: Identity)
    requires temp.Private? && temp in w.disk.dir && Undisturbed(e, w.disk.dir)
    requires baseline.None? || Target !in w.disk.dir
    ensures var (w', o) := CommitRun(e, w, temp, baseline, repl); var d := w.disk.dir;
            if baseline.Some? then o == Refused(ReplaceRaised) && w'.disk.dir == d
            else if Target in d then o == Refused(TargetAppeared) && w'.disk.dir == d
            else o.Returned? && w'.disk.dir == (d - {temp})[Target := d[temp]]
  {
  }

  // The Codex compare-and-swap

  /** The end of one replacement of the compare-and-swap. */
  function SwapOutcome(e: Env, d: Directory, t: nat, source: Name, backup: Name): Swap {
    if e.fault(t).Rejected? then PathChanged
    else if e.fault(t).NoFault? && e.fault(t + 1).NoFault? && Possible(e, d, t, source, backup) then Swapped
    else SwapRaised
  }

  /** It stops with the target set aside. */
  predicate StopsHalfway(e: Env, d: Directory, t: nat, source: Name, backup: Name) {
    e.fault(t).NoFault? && e.fault(t + 1).Partial? && Possible(e, d, t, source, backup)
  }

  /** The directory after it. */
  function Swept(e: Env, d: Directory, t: nat, source: Name, backup: Name): Directory {
    var x := Met(e, t, Get(d, Target));
    if source in d && SwapOutcome(e, d, t, source, backup).Swapped? then
      Set(Set(d - {source}, backup, x), Target, Some(d[source]))
    else if StopsHalfway(e, d, t, source, backup) then Set(d - {Target}, backup, x)
    else Set(d, Target, if e.fault(t).NoFault? then x else Turn(e, t, Get(d, Target)))
  }

  lemma {:induction false} SwapDue(e: Env, w: World, source: Name, backup: Name)
    requires source.Private? && backup.Private? && source in w.disk.dir
    ensures var (w', swap) := SwapRun(e, w, source, backup); var d := w.disk.dir;
            && swap == SwapOutcome(e, d, w.tick, source, backup)
            && w'.tick == (if e.fault(w.tick).NoFault? then w.tick + 2 else w.tick + 1)
            && w'.disk.dir == Swept(e, d, w.tick, source, backup)
  {
    var d := w.disk.dir;
    SyncTaken(e, w);
    var (w1, steady) := Sync(e, w);
    assert Get(w1.disk.dir, source) == Get(d, source) && Get(w1.disk.dir, backup) == Get(d, backup);
    ReplaceTaken(e, w1, source, backup);
    var (w2, io) := Attempt(e, w1, Replace(source, backup));
    if steady && io == Failed(Partial) && Legal(w2.disk.dir, Replace(source, backup)) {
      SetAside(w2, backup);
    }
    hide Sync, Attempt, Do;
    SameDirectory(SwapRun(e, w, source, backup).0.disk.dir, Swept(e, d, w.tick, source, backup));
  }

  /** The recovery from tick `t` on returns: it reads a target that is there, or the file
      that was set aside. */
  predicate Recovers(e: Env, t: nat, shown: Option<Version>, saved: Option<Version>) {
    var now := Turn(e, t, shown);
    Reads(e, t, now) && (now.Some? || Reads(e, t + 1, saved))
  }

  lemma {:induction false} RecoverDue(e: Env, w: World, backup: Name)
    requires backup.Private?
    ensures var (w', returned) := RecoverFailedRun(e, w, backup); var d, t := w.disk.dir, w.tick;
            && (returned <==> Recovers(e, t, Get(d, Target), Get(d, backup)))
            && (returned && backup !in d ==> w'.tick <= t + 2)
            && (returned && (forall i :: e.rival(i).None?) && Target !in d && backup in d ==>
                  w'.disk.dir == if e.fault(t + 2).NoFault? || e.fault(t + 2).Partial? then
                                   (d - {backup})[Target := d[backup]]
                                 else d)
  {
    SnapshotTaken(e, w, Target);
    var (w1, shown) := SnapshotRun(e, w, Target);
    SnapshotTaken(e, w1, backup);
    var (w2, saved) := SnapshotRun(e, w1, backup);
    assert Get(w2.disk.dir, backup) == Get(w1.disk.dir, backup) == Get(w.disk.dir, backup);
    if backup in w.disk.dir {
      PublishTaken(e, w2, backup);
    }
    hide SnapshotRun, MoveRun;
    var (w', returned) := RecoverFailedRun(e, w, backup);
    if returned && (forall i :: e.rival(i).None?) && Target !in w.disk.dir && backup in w.disk.dir {
      var d := w.disk.dir;
      var moved := e.fault(w.tick + 2).NoFault? || e.fault(w.tick + 2).Partial?;
      assert shown == Some(None) && saved == Some(Get(d, backup)) && w' == MoveRun(e, w2, backup, Target).0;
      SameDirectory(w'.disk.dir, if moved then (d - {backup})[Target := d[backup]] else d);
    }
  }

  /** The end of the second replacement, which takes the transaction back, from tick `t` on. */
  ghost function SwapBackOutcome(e: Env, d: Directory, t: nat, backup: Name, tx: Version): Verdict {
    var recovery := Private(e.token(t));
    var y, after := Met(e, t, Get(d, Target)), Swept(e, d, t, backup, recovery);
    match SwapOutcome(e, d, t, backup, recovery)
    case PathChanged => AuditRaised
    case SwapRaised =>
      var u := if e.fault(t).NoFault? then t + 2 else t + 1;
      if Recovers(e, u, Get(after, Target), Get(after, recovery)) then Changed(Some(backup)) else AuditRaised
    case Swapped =>
      if !Reads(e, t + 2, y) then AuditRaised
      else Changed(if Shows(y, tx) then None else Some(recovery))
  }

  lemma {:induction false} SwapBackDue(e: Env, w: World, backup: Name, tx: Version)
    requires backup.Private? && backup in w.disk.dir
    ensures SwapBackRun(e, w, backup, tx).1 == SwapBackOutcome(e, w.disk.dir, w.tick, backup, tx)
  {
    var recovery := Fresh(e, w);
    SwapDue(e, w, backup, recovery);
    var w1 := SwapRun(e, w, backup, recovery).0;
    RecoverDue(e, w1, recovery);
    SnapshotTaken(e, w1, recovery);
    hide SwapRun, RecoverFailedRun, SnapshotRun, RemoveRun, Met, Possible;
  }

  /** The end after another file than the expected one was displaced, from tick `t` on. */
  ghost function SecondRaceOutcome(e: Env, d: Directory, t: nat, backup: Name, tx: Version): Verdict {
    var now, recovery := Turn(e, t, Get(d, Target)), Private(e.token(t + 1));
    if !Reads(e, t, now) then AuditRaised
    else if Shows(now, tx) then SwapBackOutcome(e, Set(d, Target, now), t + 1, backup, tx)
    else Changed(Some(if e.fault(t + 1).NoFault? && recovery !in d then recovery else backup))
  }

  lemma PreserveDue(e: Env, w: World, source: Name)
    requires source.Private? && source in w.disk.dir
    ensures PreserveNameRun(e, w, source).1 ==
            if e.fault(w.tick).NoFault? && Fresh(e, w) !in w.disk.dir then Fresh(e, w) else source
  {
    MoveTaken(e, w, source, Fresh(e, w));
    hide Attempt;
  }

  lemma {:induction false} SecondRaceDue(e: Env, w: World, backup: Name, tx: Version)
    requires backup.Private? && backup in w.disk.dir
    ensures SecondRaceRun(e, w, backup, tx).1 == SecondRaceOutcome(e, w.disk.dir, w.tick, backup, tx)
  {
    SnapshotTaken(e, w, Target);
    var w1 := SnapshotRun(e, w, Target).0;
    assert Get(w1.disk.dir, backup) == Get(w.disk.dir, backup);
    assert Get(w1.disk.dir, Fresh(e, w1)) == Get(w.disk.dir, Fresh(e, w1));
    SameDirectory(w1.disk.dir, Set(w.disk.dir, Target, Get(w1.disk.dir, Target)));
    SwapBackDue(e, w1, backup, tx);
    PreserveDue(e, w1, backup);
    hide SnapshotRun, SwapBackRun, PreserveNameRun, SwapBackOutcome;
  }

  /** The verdict of the compare-and-swap from tick `t` on. */
  ghost function CasOutcome(e: Env, d: Directory, t: nat, temp: Name, expected: Version, tx: Version): Verdict {
    var backup, x := Private(e.token(t)), Met(e, t, Get(d, Target));
    if !SwapOutcome(e, d, t, temp, backup).Swapped? then NotSwapped
    else if !Reads(e, t + 2, x) then AuditRaised
    else if Shows(x, expected) then Committed
    else
      var after := Swept(e, d, t, temp, backup);
      SecondRaceOutcome(e, Set(after, Target, Turn(e, t + 2, Get(after, Target))), t + 3, backup, tx)
  }

  /** Every verdict of a compare-and-swap has its reason. */
  lemma {:induction false} CasDue(e: Env, w: World, temp: Name, expected: Version, tx: Version)
    requires temp.Private? && temp in w.disk.dir
    ensures CasRun(e, w, temp, expected, tx).1 == CasOutcome(e, w.disk.dir, w.tick, temp, expected, tx)
  {
    var backup := Fresh(e, w);
    SwapDue(e, w, temp, backup);
    var (w1, swap) := SwapRun(e, w, temp, backup);
    if swap.Swapped? {
      SnapshotTaken(e, w1, backup);
      var w2 := SnapshotRun(e, w1, backup).0;
      assert Get(w2.disk.dir, backup) == Get(w1.disk.dir, backup);
      SameDirectory(w2.disk.dir, Set(w1.disk.dir, Target, Get(w2.disk.dir, Target)));
      SecondRaceDue(e, w2, backup, tx);
    }
    hide SwapRun, RecoverFailedRun, SnapshotRun, SecondRaceRun, RemoveRun, SecondRaceOutcome;
  }

  /** Alone, the compare-and-swap swaps over exactly the expected regular file, takes itself
      back over any other and leaves no private file; and a missing target stays missing. */
  lemma {:induction false} CasUndisturbed(e: Env, w: World, temp: Name, expected: Version, tx: Version)
    requires temp.Private? && temp in w.disk.dir && Shows(Some(w.disk.dir[temp]), tx) && w.disk.dir[temp].regular
    requires Undisturbed(e, w.disk.dir) && (Target in w.disk.dir ==> w.disk.dir[Target].regular)
    ensures var (w', verdict) := CasRun(e, w, temp, expected, tx); var d := w.disk.dir;
            if Target !in d then verdict.NotSwapped? && w'.disk.dir == d
            else if Shows(Some(d[Target]), expected) then
              verdict.Committed? && w'.disk.dir == (d - {temp})[Target := d[temp]]
            else verdict == Changed(None) && w'.disk.dir == d - {temp}
  {
    hide SwapRun, RecoverFailedRun, RemoveRun;
    var d, t, backup := w.disk.dir, w.tick, Fresh(e, w);
    SwapDue(e, w, temp, backup);
    var (w1, swap) := SwapRun(e, w, temp, backup);
    if Target in d {
      assert w1.disk.dir == (d - {temp})[backup := d[Target]][Target := d[temp]];
      var w2 := SnapshotRun(e, w1, backup).0;
      assert w2.disk.dir == w1.disk.dir && w2.tick == t + 3;
      if Shows(Some(d[Target]), expected) {
        RemovedAlone(e, w2, backup);
      } else {
        var w3 := SnapshotRun(e, w2, Target).0;
        assert w3.disk.dir == w1.disk.dir && w3.tick == t + 4;
        var recovery := Fresh(e, w3);
        assert recovery != backup;
        SwapDue(e, w3, backup, recovery);
        var w4 := SwapRun(e, w3, backup, recovery).0;
        assert w4.disk.dir == (d - {temp})[recovery := d[temp]];
        var w5 := SnapshotRun(e, w4, recovery).0;
        RemovedAlone(e, w5, recovery);
      }
    } else {
      RecoverDue(e, w1, backup);
      NothingRecovered(e, w1, backup);
    }
  }

  lemma RemovedAlone(e: Env, w: World, n: Name)
    requires n.Private? && n in w.disk.dir && e.rival(w.tick).None? && e.fault(w.tick).NoFault?
    ensures RemoveRun(e, w, n).0.disk.dir == w.disk.dir - {n}
  {
  }

  lemma NothingRecovered(e: Env, w: World, backup: Name)
    requires (forall i :: e.rival(i).None?) && backup !in w.disk.dir
    ensures RecoverFailedRun(e, w, backup).0.disk == w.disk
  {
  }

  /** A first replacement that stops half-way is undone when nothing else goes wrong. */
  lemma {:induction false} HalfwayUndone(e: Env, w: World, temp: Name, expected: Version, tx: Version)
    requires temp.Private? && temp in w.disk.dir && Fresh(e, w) !in w.disk.dir
    requires Target in w.disk.dir && w.disk.dir[Target].regular && (forall i :: e.rival(i).None?)
    requires forall i :: e.fault(i) == if i == w.tick + 1 then Partial else NoFault
    ensures var (w', verdict) := CasRun(e, w, temp, expected, tx); verdict.NotSwapped? && w'.disk.dir == w.disk.dir
  {
    var d, backup := w.disk.dir, Fresh(e, w);
    SwapDue(e, w, temp, backup);
    var w1 := SwapRun(e, w, temp, backup).0;
    assert w1.disk.dir == (d - {Target})[backup := d[Target]] && w1.tick == w.tick + 2;
    RecoverDue(e, w1, backup);
    hide SwapRun, RecoverFailedRun;
    assert (w1.disk.dir - {backup})[Target := w1.disk.dir[backup]] == d;
  }
}
