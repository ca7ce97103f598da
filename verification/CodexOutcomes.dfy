/** When each outcome of the Codex transaction is due, over the failures, the names drawn
    and what the target shows at each step. */
module CodexOutcomes {
  import opened Files
  import opened Wrappers
  import opened CodexCommit

  /** Where data that is moved away from `source` at tick `t` is then. */
  function KeptAt(e: Env, d: Directory, t: nat, source: Name): Name {
    if e.fault(t).NoFault? && Private(e.token(t)) !in d then Private(e.token(t)) else source
  }

  /** The rollback from tick `t` on, over a target that shows `shown`. */
  function RollbackOutcome(e: Env, d: Directory, t: nat, shown: Option<Version>, temp: Name, tx: Version): (o: Outcome)
    ensures o.Refused? && !o.cause.NoAtomicExchange? && !o.cause.ExchangeRaised?
  {
    var now := Turn(e, t, shown);
    var back := Turn(e, t + 1, now);
    if !Reads(e, t, now) then Refused(RecoverRaised)
    else if now != Some(tx) then Refused(Superseded(KeptAt(e, d, t + 1, temp)))
    else if !e.fault(t + 1).NoFault? || back.None? then Refused(RollbackRaised)
    else if !Reads(e, t + 2, back) then Refused(RecheckRaised)
    else if back != Some(tx) then Refused(Conflict(Some(KeptAt(e, d, t + 3, temp))))
    else Refused(if e.fault(t + 3).NoFault? then Conflict(None) else UncleanRollback)
  }

  /** The replacement from tick `t` on. */
  function ReplaceOutcome(e: Env, d: Directory, t: nat, temp: Name, baseline: Version, tx: Version): Outcome {
    var x := Turn(e, t, Get(d, Target));
    if e.fault(t).Unsupported? then Refused(NoAtomicExchange)
    else if !e.fault(t).NoFault? || x.None? then Refused(ExchangeRaised)
    else if !Reads(e, t + 1, x) then Refused(AuditRaised)
    else if x != Some(baseline) then RollbackOutcome(e, d, t + 2, Turn(e, t + 1, Some(tx)), temp, tx)
    else if e.fault(t + 2).NoFault? then Returned
    else Refused(CleanupRaised)
  }

  /** The private names but `temp` are as in `d`, which holds `temp` too. */
  ghost predicate Names(d: Directory, d': Directory, temp: Name) {
    temp.Private? && temp in d && forall m: Name | m.Private? && m != temp :: Get(d', m) == Get(d, m)
  }

  lemma PreserveDue(e: Env, d: Directory, w: World, source: Name)
    requires Names(d, w.disk.dir, source) && source in w.disk.dir
    ensures PreserveRun(e, w, source).1 == KeptAt(e, d, w.tick, source)
  {
    MoveTaken(e, w, source, Fresh(e, w));
    assert Fresh(e, w) != source ==> Get(w.disk.dir, Fresh(e, w)) == Get(d, Fresh(e, w));
    hide Attempt;
  }

  lemma {:induction false} RecheckDue(e: Env, d: Directory, w: World, temp: Name, tx: Version)
    requires Names(d, w.disk.dir, temp) && temp in w.disk.dir
    ensures var back := w.disk.dir[temp]; var (w', o) := RecheckRun(e, w, temp, tx);
            && o == (if !Reads(e, w.tick, Some(back)) then Refused(RecheckRaised)
                     else if back != tx then Refused(Conflict(Some(KeptAt(e, d, w.tick + 1, temp))))
                     else Refused(if e.fault(w.tick + 1).NoFault? then Conflict(None) else UncleanRollback))
            && (o == Refused(Conflict(None)) ==> temp !in w'.disk.dir)
  {
    SnapshotTaken(e, w, temp);
    var w1 := SnapshotRun(e, w, temp).0;
    DiscardTaken(e, w1, temp);
    PreserveDue(e, d, w1, temp);
    hide SnapshotRun, PreserveRun, Attempt;
  }

  lemma {:induction false} RecoverDue(e: Env, d: Directory, w: World, temp: Name, tx: Version)
    requires Names(d, w.disk.dir, temp) && temp in w.disk.dir
    ensures var (w', o) := RecoverRun(e, w, temp, tx);
            && o == RollbackOutcome(e, d, w.tick, Get(w.disk.dir, Target), temp, tx)
            && (o == Refused(Conflict(None)) ==> temp !in w'.disk.dir)
  {
    SnapshotTaken(e, w, Target);
    var w1 := SnapshotRun(e, w, Target).0;
    PreserveDue(e, d, w1, temp);
    ExchangeTaken(e, w1, temp);
    var (w2, io) := Attempt(e, w1, Exchange(temp, Target));
    if io.Done? {
      RecheckDue(e, d, w2, temp, tx);
    }
    hide SnapshotRun, PreserveRun, Attempt, RecheckRun;
  }

  /** Every outcome of a replacement has its reason, and a replacement that succeeds, or
      reports a conflict without newer content, leaves no private file behind. */
  lemma {:induction false} ReplaceDue(e: Env, w: World, temp: Name, baseline: Version, tx: Version)
    requires temp.Private? && Get(w.disk.dir, temp) == Some(tx)
    ensures var (w', o) := CommitExistingRun(e, w, temp, baseline, tx);
            && o == ReplaceOutcome(e, w.disk.dir, w.tick, temp, baseline, tx)
            && (o.Returned? || o == Refused(Conflict(None)) ==> temp !in w'.disk.dir)
            && (o == Refused(NoAtomicExchange) ==> (temp !in w'.disk.dir <==> e.fault(w.tick + 1).NoFault?))
  {
    hide Attempt, AuditRun, RollbackOutcome;
    ExchangeTaken(e, w, temp);
    var (w1, io) := Attempt(e, w, Exchange(temp, Target));
    DiscardTaken(e, w1, temp);
    AuditDue(e, w.disk.dir, w1, temp, baseline, tx);
  }

  lemma {:induction false} AuditDue(e: Env, d: Directory, w: World, temp: Name, baseline: Version, tx: Version)
    requires Names(d, w.disk.dir, temp) && temp in w.disk.dir
    ensures var (w', o) := AuditRun(e, w, temp, baseline, tx); var x := w.disk.dir[temp];
            && o == (if !Reads(e, w.tick, Some(x)) then Refused(AuditRaised)
                     else if x != baseline then
                       RollbackOutcome(e, d, w.tick + 1, Turn(e, w.tick, Get(w.disk.dir, Target)), temp, tx)
                     else if e.fault(w.tick + 1).NoFault? then Returned
                     else Refused(CleanupRaised))
            && (o.Returned? || o == Refused(Conflict(None)) ==> temp !in w'.disk.dir)
  {
    hide SnapshotRun, Attempt, RecoverRun, RollbackOutcome;
    SnapshotTaken(e, w, temp);
    var w1 := SnapshotRun(e, w, temp).0;
    assert Get(w1.disk.dir, temp) == Get(w.disk.dir, temp);
    DiscardTaken(e, w1, temp);
    RecoverDue(e, d, w1, temp, tx);
  }

  // Creation and the whole operation

  function CreateOutcome(e: Env, t: nat, shown: Option<Version>): Creation {
    if !e.fault(t).NoFault? then LinkRaised
    else if Turn(e, t, shown).Some? then CreatedBefore
    else if e.fault(t + 1).NoFault? then Created
    else CreatedUnclean
  }

  /** Every outcome of a creation has its reason. */
  lemma {:induction false} CreateDue(e: Env, w: World, temp: Name)
    requires temp.Private? && temp in w.disk.dir
    ensures var (w', c) := CommitNewRun(e, w, temp);
            && c == CreateOutcome(e, w.tick, Get(w.disk.dir, Target))
            && (!c.LinkRaised? ==> (temp !in w'.disk.dir <==> e.fault(w.tick + 1).NoFault?))
            && (c.LinkRaised? ==> w'.tick == w.tick + 1) && (!c.LinkRaised? ==> w'.tick == w.tick + 2)
  {
    TurnTaken(e, w);
    LinkLeaves(e, w, temp);
    var w1 := Attempt(e, w, Link(temp, Target)).0;
    assert w1.tick == w.tick + 1;
    DiscardTaken(e, w1, temp);
  }

  /** The whole operation succeeds if and only if each of its steps does. */
  lemma {:induction false} InstalledIff(e: Env, w: World, temp: Name, baseline: Option<Version>, tx: Version)
    requires temp.Private? && Get(w.disk.dir, temp) == Some(tx)
    ensures var d, t := w.disk.dir, w.tick;
            InstallRun(e, w, temp, baseline, tx).1 ==
            match baseline
            case Some(b) =>
              var o := ReplaceOutcome(e, d, t, temp, b, tx);
              if o.Refused? then NotReplaced(o.cause) else if e.fault(t + 3).NoFault? then Installed else Unsynced
            case None =>
              var c := CreateOutcome(e, t, Get(d, Target));
              if !c.Created? then NotCreated(c) else if e.fault(t + 2).NoFault? then Installed else Unsynced
  {
    match baseline
    case Some(b) =>
      ReplaceDue(e, w, temp, b, tx);
      ReturnedIff(e, w, temp, b, tx);
    case None => CreateDue(e, w, temp);
    hide CommitExistingRun, CommitNewRun, ReplaceOutcome, CreateOutcome, Replaces;
  }

  // Deletion

  /** What becomes of a file in quarantine that is not deleted, from tick `t` on. */
  function ReturnOutcome(e: Env, d: Directory, t: nat, shown: Option<Version>, quarantine: Name): Deletion {
    if !e.fault(t).NoFault? then Preserved(quarantine)
    else if Turn(e, t, shown).None? then Restored
    else Preserved(KeptAt(e, d, t + 1, quarantine))
  }

  function DeleteOutcome(e: Env, d: Directory, t: nat, quarantine: Name, expected: Version): Deletion {
    var x := Turn(e, t, Get(d, Target));
    if !e.fault(t).NoFault? || x.None? || quarantine in d then NotMoved
    else if !Reads(e, t + 1, x) || x != Some(expected) then
      ReturnOutcome(e, d[quarantine := x.value], t + 2, Turn(e, t + 1, None), quarantine)
    else if !e.fault(t + 2).NoFault? then Unlinked(quarantine)
    else if e.fault(t + 3).NoFault? then Deleted
    else DeletedUnsynced
  }

  /** A target that exists moves to a free private name. */
  lemma QuarantineTaken(e: Env, w: World, quarantine: Name)
    requires quarantine.Private?
    ensures var (w', io) := Attempt(e, w, Move(Target, quarantine)); var x := Turn(e, w.tick, Get(w.disk.dir, Target));
            && w'.tick == w.tick + 1
            && (io.Done? <==> e.fault(w.tick).NoFault? && x.Some? && quarantine !in w.disk.dir)
            && (io.Done? ==> Get(w'.disk.dir, quarantine) == x && Target !in w'.disk.dir)
            && (forall m: Name | m.Private? && m != quarantine :: Get(w'.disk.dir, m) == Get(w.disk.dir, m))
            && (!io.Done? ==> Get(w'.disk.dir, Target) == x)
            && (!io.Done? ==> Get(w'.disk.dir, quarantine) == Get(w.disk.dir, quarantine))
  {
    TurnTaken(e, w);
    assert Get(Interfere(e, w).disk.dir, quarantine) == Get(w.disk.dir, quarantine);
    hide Interfere;
  }

  lemma ReturnTaken(e: Env, w: World, quarantine: Name)
    requires quarantine.Private? && quarantine in w.disk.dir
    ensures var (w', io) := Attempt(e, w, Move(quarantine, Target)); var x := Turn(e, w.tick, Get(w.disk.dir, Target));
            && w'.tick == w.tick + 1
            && (io.Done? <==> e.fault(w.tick).NoFault? && x.None?)
            && (io.Exists? <==> e.fault(w.tick).NoFault? && x.Some?)
            && (!io.Done? ==> forall m: Name | m.Private? :: Get(w'.disk.dir, m) == Get(w.disk.dir, m))
  {
    TurnTaken(e, w);
    assert Get(Interfere(e, w).disk.dir, quarantine) == Get(w.disk.dir, quarantine);
    hide Interfere;
  }

  lemma {:induction false} ReturnDue(e: Env, d: Directory, w: World, quarantine: Name)
    requires Names(d, w.disk.dir, quarantine) && quarantine in w.disk.dir
    ensures RestoreQuarantineRun(e, w, quarantine).1 ==
            ReturnOutcome(e, d, w.tick, Get(w.disk.dir, Target), quarantine)
  {
    ReturnTaken(e, w, quarantine);
    var (w1, io) := Attempt(e, w, Move(quarantine, Target));
    if io.Exists? {
      assert Get(w1.disk.dir, quarantine) == Get(w.disk.dir, quarantine);
      PreserveDue(e, d, w1, quarantine);
    }
    hide Attempt, PreserveRun;
  }

  /** Every outcome of a deletion has its reason: it succeeds if and only if the target can
      be moved away, can be read, is the expected version and can be unlinked, and the
      directory sync works. */
  lemma {:induction false} DeleteDue(e: Env, w: World, quarantine: Name, expected: Version)
    requires quarantine.Private?
    ensures var (w', o) := DeleteRun(e, w, quarantine, expected);
            && o == DeleteOutcome(e, w.disk.dir, w.tick, quarantine, expected)
            && (o.Deleted? || o.DeletedUnsynced? ==> quarantine !in w'.disk.dir)
  {
    var d := w.disk.dir;
    QuarantineTaken(e, w, quarantine);
    var (w1, io) := Attempt(e, w, Move(Target, quarantine));
    if io.Done? {
      SnapshotTaken(e, w1, quarantine);
      var w2 := SnapshotRun(e, w1, quarantine).0;
      assert Get(w2.disk.dir, quarantine) == Get(w1.disk.dir, quarantine);
      DiscardTaken(e, w2, quarantine);
      TurnTaken(e, Attempt(e, w2, Discard(quarantine)).0);
      ReturnDue(e, d[quarantine := w1.disk.dir[quarantine]], w2, quarantine);
    }
    hide Attempt, SnapshotRun, RestoreQuarantineRun, Interfere, ReturnOutcome;
  }

  /** Alone, a deletion removes exactly the expected regular file and leaves anything else
      where it is. */
  lemma {:induction false} DeleteUndisturbed(e: Env, w: World, quarantine: Name, expected: Version)
    requires quarantine.Private? && quarantine !in w.disk.dir
    requires forall i :: e.rival(i).None? && e.fault(i).NoFault?
    ensures var (w', o) := DeleteRun(e, w, quarantine, expected); var d := w.disk.dir;
            if Target !in d then o.NotMoved? && w'.disk.dir == d
            else if d[Target].regular && d[Target] == expected then o.Deleted? && w'.disk.dir == d - {Target}
            else o.Restored? && w'.disk.dir == d
  {
    var d := w.disk.dir;
    var (w1, io) := Attempt(e, w, Move(Target, quarantine));
    if io.Done? {
      assert w1.disk.dir == (d - {Target})[quarantine := d[Target]];
      var w2 := SnapshotRun(e, w1, quarantine).0;
      assert w2.disk.dir == w1.disk.dir;
      assert Attempt(e, w2, Discard(quarantine)).0.disk.dir == d - {Target};
      assert Attempt(e, w2, Move(quarantine, Target)).0.disk.dir == d;
    }
  }
}
