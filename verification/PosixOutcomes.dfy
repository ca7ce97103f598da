/** When each outcome of a POSIX commit and of the write around it is due, over the
    failures, the signals, the names drawn and what the target shows at each step. */
module PosixOutcomes {
  import opened Files
  import opened Wrappers
  import opened PosixCommit

  /** What the target shows after `n` turns of the rival from tick `t` on. */
  function Later(e: Env, t: nat, n: nat, shown: Option<Version>): Option<Version> {
    if n == 0 then shown else Turn(e, t + n - 1, Later(e, t, n - 1, shown))
  }

  // Parking

  /** The `n`-th try, counted from 0 at tick `t`, is the first that is not refused because
      its name is taken, and it works. */
  ghost predicate Parks(e: Env, d: Directory, t: nat, n: nat) {
    && (forall i | t <= i < t + n :: e.fault(i).NoFault? && Private(e.token(i)) in d)
    && e.fault(t + n).NoFault? && Private(e.token(t + n)) !in d
  }

  /** After `n` tries there is no other: the last one failed, or it was the third and its
      name was taken like the others. */
  ghost predicate GivesUp(e: Env, d: Directory, t: nat, n: nat, tries: nat) {
    && 0 < n <= tries
    && (forall i | t <= i < t + n - 1 :: e.fault(i).NoFault? && Private(e.token(i)) in d)
    && if e.fault(t + n - 1).NoFault? then n == tries && Private(e.token(t + n - 1)) in d else true
  }

  ghost predicate SameNames(d: Directory, d': Directory) { forall i: nat :: Private(i) in d <==> Private(i) in d' }

  lemma LaterTry(e: Env, d: Directory, d': Directory, t: nat, n: nat, tries: nat)
    requires SameNames(d, d') && e.fault(t).NoFault? && Private(e.token(t)) in d
    ensures Parks(e, d', t + 1, n) ==> Parks(e, d, t, n + 1)
    ensures GivesUp(e, d', t + 1, n, tries) ==> GivesUp(e, d, t, n + 1, tries + 1)
  {
  }

  lemma OnlyTry(e: Env, d: Directory, t: nat, tries: nat)
    requires tries > 0
    ensures Parks(e, d, t, 0) <==> e.fault(t).NoFault? && Private(e.token(t)) !in d
    ensures GivesUp(e, d, t, 1, tries) <==> if e.fault(t).NoFault? then tries == 1 && Private(e.token(t)) in d else true
  {
  }

  /** The first try: it parks the file, it is the last, or it is followed by the others. */
  lemma FirstTry(e: Env, w: World, temp: Name, tries: nat)
    requires temp.Private? && temp in w.disk.dir && tries > 0
    ensures var (w', parked) := ParkRun(e, w, temp, tries); var d, next := w.disk.dir, Fresh(e, w);
            var w1 := Attempt(e, w, Move(temp, next)).0;
            && w1.tick == w.tick + 1 && Get(w1.disk.dir, Target) == Turn(e, w.tick, Get(d, Target))
            && (if e.fault(w.tick).NoFault? && next !in d then w' == w1 && parked == Some(next)
                else
                  && Get(w1.disk.dir, temp) == Get(d, temp) && SameNames(d, w1.disk.dir)
                  && (if e.fault(w.tick).NoFault? then (w', parked) == ParkRun(e, w1, temp, tries - 1)
                      else w' == w1 && parked.None?))
  {
    MoveTaken(e, w, temp, Fresh(e, w));
    var (w1, io) := Attempt(e, w, Move(temp, Fresh(e, w)));
    hide Attempt;
    if !io.Done? {
      forall i: nat ensures Private(i) in w1.disk.dir <==> Private(i) in w.disk.dir {
        assert Get(w1.disk.dir, Private(i)) == Get(w.disk.dir, Private(i));
      }
    }
  }

  /** Which of the tries takes the displaced file away, or that none does. */
  lemma {:induction false} ParkDue(e: Env, w: World, temp: Name, tries: nat) returns (n: nat)
    requires temp.Private? && temp in w.disk.dir && tries > 0
    ensures var (w', parked) := ParkRun(e, w, temp, tries); var d := w.disk.dir;
            && n <= tries
            && (if parked.Some? then
                  && n < tries && Parks(e, d, w.tick, n) && parked.value == Private(e.token(w.tick + n))
                  && w'.tick == w.tick + n + 1
                else
                  && GivesUp(e, d, w.tick, n, tries) && w'.tick == w.tick + n)
    decreases tries
  {
    FirstTry(e, w, temp, tries);
    var w1 := Attempt(e, w, Move(temp, Fresh(e, w))).0;
    assert tries == 1 ==> ParkRun(e, w1, temp, 0) == (w1, None);
    OnlyTry(e, w.disk.dir, w.tick, tries);
    hide Attempt, ParkRun, SameNames, Parks, GivesUp;
    if !e.fault(w.tick).NoFault? {
      n := 1;
    } else if Fresh(e, w) !in w.disk.dir {
      n := 0;
    } else if tries == 1 {
      n := 1;
    } else {
      var m := ParkDue(e, w1, temp, tries - 1);
      n := m + 1;
      LaterTry(e, w.disk.dir, w1.disk.dir, w.tick, m, tries - 1);
    }
  }

  lemma {:induction false} ParkShows(e: Env, w: World, temp: Name, tries: nat)
    requires temp.Private? && temp in w.disk.dir
    ensures var w' := ParkRun(e, w, temp, tries).0;
            && w.tick <= w'.tick
            && Get(w'.disk.dir, Target) == Later(e, w.tick, w'.tick - w.tick, Get(w.disk.dir, Target))
    decreases tries
  {
    if tries > 0 {
      FirstTry(e, w, temp, tries);
      var w1 := Attempt(e, w, Move(temp, Fresh(e, w))).0;
      hide Attempt, ParkRun, SameNames;
      LaterShift(e, w.tick, 1, Get(w.disk.dir, Target));
      if e.fault(w.tick).NoFault? && Fresh(e, w) in w.disk.dir {
        ParkShows(e, w1, temp, tries - 1);
        LaterShift(e, w.tick, ParkRun(e, w, temp, tries).0.tick - w.tick, Get(w.disk.dir, Target));
      }
    }
  }

  lemma {:induction false} LaterShift(e: Env, t: nat, n: nat, shown: Option<Version>)
    requires n > 0
    ensures Later(e, t, n, shown) == Later(e, t + 1, n - 1, Turn(e, t, shown))
  {
    if n > 1 {
      LaterShift(e, t, n - 1, shown);
    }
  }

  // The audit of the parked file

  /** How a rollback from tick `t` on ends, over a target that shows `shown`; `raised` when
      the reading raised instead of telling a conflict. What comes back is removed if it can
      be read and is the replacement. */
  ghost predicate RolledBack(e: Env, t: nat, shown: Option<Version>, repl: Identity, raised: bool, cause: Cause) {
    var back := Turn(e, t, shown);
    && e.fault(t).NoFault? && back.Some?
    && var mine := e.fault(t + 1).NoFault? && Identifies(repl, back.value);
       var removed := mine && e.fault(t + 2).NoFault?;
       var synced := e.fault(if mine then t + 3 else t + 2).NoFault?;
       if !synced then cause == SyncFailed
       else cause == if raised then AuditFailed(removed) else Cause.Conflict(removed)
  }

  lemma {:induction false} RestoreDue(e: Env, w: World, recovery: Name, repl: Identity, conflict: bool)
    requires recovery.Private? && recovery in w.disk.dir
    ensures var (w', o) := RestoreRun(e, w, recovery, repl, conflict); var shown := Get(w.disk.dir, Target);
            match o
            case Returned => false
            case Warned(n) => n == recovery && (!e.fault(w.tick).NoFault? || Turn(e, w.tick, shown).None?)
            case Refused(cause) =>
              && RolledBack(e, w.tick, shown, repl, !conflict, cause)
              && (cause == AuditFailed(true) || cause == Cause.Conflict(true) ==> recovery !in w'.disk.dir)
  {
    ExchangeTaken(e, w, recovery);
    var (w1, io) := Attempt(e, w, Exchange(recovery, Target));
    if io.Done? {
      LookTaken(e, w1, recovery);
      var (w2, r) := Inspect(e, w1, recovery);
      DiscardTaken(e, w2, recovery);
      TurnTaken(e, DiscardRun(e, w1, recovery, repl).0);
    }
    hide Interfere, Attempt, Inspect;
  }

  /** How the audit of the parked file `x` from tick `t` on ends, over a target that shows
      `shown`: it returns exactly when the file can be read, is the baseline and can be
      removed, and warns exactly when its last step then fails: the removal, or the exchange
      back that is due for any other file. */
  ghost predicate Audited(e: Env, t: nat, x: Version, shown: Option<Version>, at: Name, baseline: Identity,
                          repl: Identity, o: Outcome) {
    var now := Turn(e, t, shown);
    var matched := e.fault(t).NoFault? && Identifies(baseline, x);
    match o
    case Returned => matched && e.fault(t + 1).NoFault?
    case Warned(n) => n == at && (!e.fault(t + 1).NoFault? || (!matched && Turn(e, t + 1, now).None?))
    case Refused(cause) =>
      !matched && RolledBack(e, t + 1, now, repl, !e.fault(t).NoFault? && !e.fault(t).Rejected?, cause)
  }

  lemma {:induction false} AuditDue(e: Env, w: World, recovery: Name, baseline: Identity, repl: Identity)
    requires recovery.Private? && recovery in w.disk.dir
    ensures var (w', o) := AuditRun(e, w, recovery, baseline, repl);
            && Audited(e, w.tick, w.disk.dir[recovery], Get(w.disk.dir, Target), recovery, baseline, repl, o)
            && (o.Returned? ==> recovery !in w'.disk.dir)
  {
    LookTaken(e, w, recovery);
    var (w1, r) := Inspect(e, w, recovery);
    DiscardTaken(e, w1, recovery);
    hide Attempt, Inspect;
    RestoreDue(e, w1, recovery, repl, true);
    RestoreDue(e, w1, recovery, repl, false);
    hide RestoreRun;
  }

  // The commit

  /** The `n`-th try parks the displaced file and the audit follows. */
  ghost predicate ParkedThen(e: Env, d: Directory, t: nat, x: Version, mine: Version, n: nat, baseline: Identity,
                             repl: Identity, o: Outcome) {
    && n < 3 && Parks(e, d, t, n)
    && Audited(e, t + n + 1, x, Later(e, t, n + 1, Some(mine)), Private(e.token(t + n)), baseline, repl, o)
  }

  /** Nothing is parked in `n` tries, and the exchange is undone at once. */
  ghost predicate UnparkedThen(e: Env, d: Directory, t: nat, mine: Version, n: nat, temp: Name, o: Outcome) {
    && GivesUp(e, d, t, n, 3)
    && o == if e.fault(t + n).NoFault? && Later(e, t, n + 1, Some(mine)).Some? then Refused(ParkFailed)
            else Warned(temp)
  }

  /** The outcome of a commit of `mine` from tick `t` on, over a target that shows `shown`. */
  ghost predicate CommitEnds(e: Env, d: Directory, t: nat, temp: Name, mine: Version, baseline: Option<Identity>,
                             repl: Identity, o: Outcome) {
    var x := Turn(e, t, Get(d, Target));
    match baseline
    case None =>
      o == if !e.fault(t).NoFault? then Refused(PublishFailed) else if x.Some? then Refused(TargetAppeared)
           else Returned
    case Some(id) =>
      if !e.fault(t).NoFault? || x.None? then o == Refused(ExchangeFailed)
      else ExchangedThen(e, d, t + 1, x.value, temp, mine, id, repl, o)
  }

  /** What follows an exchange that displaced `x`, from tick `t` on. */
  ghost predicate ExchangedThen(e: Env, d: Directory, t: nat, x: Version, temp: Name, mine: Version,
                                baseline: Identity, repl: Identity, o: Outcome) {
    || (exists n :: ParkedThen(e, d, t, x, mine, n, baseline, repl, o))
    || (exists n :: UnparkedThen(e, d, t, mine, n, temp, o))
  }

  /** Every outcome of a commit, whatever rivals and failures do, has its reason. */
  lemma {:induction false} CommitDue(e: Env, w: World, temp: Name, baseline: Option<Identity>, repl: Identity)
    requires temp.Private? && temp in w.disk.dir
    ensures CommitEnds(e, w.disk.dir, w.tick, temp, w.disk.dir[temp], baseline, repl,
                       CommitRun(e, w, temp, baseline, repl).1)
  {
    if baseline.None? {
      TurnTaken(e, w);
    } else {
      SwapDue(e, w, temp, baseline.value, repl);
    }
    hide SwapRun, ExchangedThen;
  }

  lemma NamesStay(e: Env, w: World, w1: World, temp: Name, n: nat)
    requires temp in w.disk.dir && temp in w1.disk.dir
    requires forall m: Name | m.Private? && m != temp :: Get(w1.disk.dir, m) == Get(w.disk.dir, m)
    ensures Parks(e, w1.disk.dir, w.tick + 1, n) ==> Parks(e, w.disk.dir, w.tick + 1, n)
    ensures GivesUp(e, w1.disk.dir, w.tick + 1, n, 3) ==> GivesUp(e, w.disk.dir, w.tick + 1, n, 3)
  {
    forall i: nat ensures Private(i) in w1.disk.dir <==> Private(i) in w.disk.dir {
      assert Private(i) != temp ==> Get(w1.disk.dir, Private(i)) == Get(w.disk.dir, Private(i));
    }
  }

  lemma {:induction false} SwapDue(e: Env, w: World, temp: Name, baseline: Identity, repl: Identity)
    requires temp.Private? && temp in w.disk.dir
    ensures CommitEnds(e, w.disk.dir, w.tick, temp, w.disk.dir[temp], Some(baseline), repl,
                       SwapRun(e, w, temp, baseline, repl).1)
  {
    hide Attempt, ParkRun, AuditRun, Audited, Parks, GivesUp;
    ExchangeTaken(e, w, temp);
    var (w1, io) := Attempt(e, w, Exchange(temp, Target));
    var d, mine, t := w.disk.dir, w.disk.dir[temp], w.tick + 1;
    if io.Done? {
      ParkMoves(e, w1, temp, 3);
      ParkShows(e, w1, temp, 3);
      var n := ParkDue(e, w1, temp, 3);
      NamesStay(e, w, w1, temp, n);
      var (w2, parked) := ParkRun(e, w1, temp, 3);
      var o := SwapRun(e, w, temp, baseline, repl).1;
      if parked.Some? {
        AuditDue(e, w2, parked.value, baseline, repl);
        assert ParkedThen(e, d, t, w1.disk.dir[temp], mine, n, baseline, repl, o);
      } else {
        ExchangeTaken(e, w2, temp);
        assert UnparkedThen(e, d, t, mine, n, temp, o);
      }
      assert ExchangedThen(e, d, t, w1.disk.dir[temp], temp, mine, baseline, repl, o);
      assert Turn(e, w.tick, Get(d, Target)) == Some(w1.disk.dir[temp]);
      hide ExchangedThen, SwapRun, Turn;
    }
  }

  // The write around it

  /** The target is as expected, judged by its metadata. */
  ghost predicate Fits(shown: Option<Version>, x: Expected) {
    match x
    case Anything => shown.Some? ==> shown.value.regular
    case MustBeMissing => shown.None?
    case MustBe(id) =>
      && shown.Some? && shown.value.regular
      && var v := shown.value; id == Identity(v.device, v.inode, v.mode, v.size, v.modified, id.digest)
  }

  /** The baseline of a write: what was expected, or what was seen, whose content is unknown. */
  ghost function Seen(shown: Option<Version>, x: Expected): Option<Identity> {
    if x.MustBe? then Some(x.id)
    else if shown.None? then None
    else var v := shown.value; Some(Identity(v.device, v.inode, v.mode, v.size, v.modified, None))
  }

  lemma BaselineDue(r: Reading, x: Expected)
    ensures var shown := if r.Saw? then Some(r.version) else None;
            && (Baseline(r, x).Some? <==> !r.Unreadable? && Fits(shown, x))
            && (Baseline(r, x).Some? ==> Baseline(r, x).value == Seen(shown, x))
  {
  }

  /** Tick `i` passes without a failure and without a signal. */
  predicate Calm(e: Env, i: nat) { e.fault(i).NoFault? && !e.stop(i) }

  /** The second look, from tick `t`, still finds what the first one found. */
  ghost predicate Unmoved(e: Env, t: nat, shown: Option<Version>, baseline: Option<Identity>) {
    e.fault(t).NoFault? && Fits(Turn(e, t, shown), if baseline.Some? then MustBe(baseline.value) else MustBeMissing)
  }

  /** The preparation: it goes on exactly when the file is filled, the intent recorded and
      the target unmoved; otherwise the first step that failed is its reason, and the
      private file is gone unless the last step of the cleanup failed. */
  lemma {:induction false} PrepareDue(e: Env, w: World, temp: Name, full: Version, baseline: Option<Identity>)
    requires temp.Private? && temp in w.disk.dir && full.regular
    ensures var (w', stopped) := PrepareRun(e, w, temp, full, baseline); var t := w.tick;
            var shown := Later(e, t, 2, Get(w.disk.dir, Target));
            && stopped ==
               (if !Calm(e, t) then Some(if e.stop(t) then Terminated else DraftFailed)
                else if !Calm(e, t + 1) then Some(if e.stop(t + 1) then Terminated else IntentFailed)
                else if e.stop(t + 2) then Some(Terminated)
                else if !Unmoved(e, t + 2, shown, baseline) then Some(TargetMoved)
                else None)
            && (stopped.Some? ==> w'.tick > w.tick && (temp !in w'.disk.dir <==> e.fault(w'.tick - 1).NoFault?))
            && (stopped.None? ==> w'.tick == w.tick + 3 && Get(w'.disk.dir, Target) == Turn(e, t + 2, shown))
            && (forall m: Name | m.Private? && m != temp :: Get(w'.disk.dir, m) == Get(w.disk.dir, m))
  {
    hide Attempt, IntendRun, Later, Turn, Unmoved;
    FillTaken(e, w, temp, full);
    var (w1, filled) := Attempt(e, w, Fill(temp, full));
    LaterTwo(e, w.tick, Get(w.disk.dir, Target));
    if filled.Done? {
      IntendDue(e, w1, temp, full, baseline);
    }
    DiscardTaken(e, w1, temp);
  }

  lemma LaterTwo(e: Env, t: nat, shown: Option<Version>)
    ensures Later(e, t, 2, shown) == Turn(e, t + 1, Turn(e, t, shown))
  {
    assert Later(e, t, 1, shown) == Turn(e, t, Later(e, t, 0, shown));
  }

  lemma FillTaken(e: Env, w: World, temp: Name, full: Version)
    requires temp.Private? && temp in w.disk.dir
    ensures var (w', io) := Attempt(e, w, Fill(temp, full));
            && w'.tick == w.tick + 1 && (io.Done? <==> e.fault(w.tick).NoFault?)
            && Get(w'.disk.dir, Target) == Turn(e, w.tick, Get(w.disk.dir, Target))
            && Get(w'.disk.dir, temp) == Some(if io.Done? then full else w.disk.dir[temp])
            && forall m: Name | m.Private? && m != temp :: Get(w'.disk.dir, m) == Get(w.disk.dir, m)
  {
    TurnTaken(e, w);
  }

  lemma {:induction false} IntendDue(e: Env, w: World, temp: Name, full: Version, baseline: Option<Identity>)
    requires temp.Private? && Get(w.disk.dir, temp) == Some(full) && full.regular
    ensures var (w', stopped) := IntendRun(e, w, temp, full, baseline); var t := w.tick;
            var shown := Turn(e, t, Get(w.disk.dir, Target));
            && stopped ==
               (if !Calm(e, t) then Some(if e.stop(t) then Terminated else IntentFailed)
                else if e.stop(t + 1) then Some(Terminated)
                else if !Unmoved(e, t + 1, shown, baseline) then Some(TargetMoved)
                else None)
            && (stopped.Some? ==> w'.tick > w.tick && (temp !in w'.disk.dir <==> e.fault(w'.tick - 1).NoFault?))
            && (stopped.None? ==> w'.tick == w.tick + 2 && Get(w'.disk.dir, Target) == Turn(e, t + 1, shown))
            && (forall m: Name | m.Private? && m != temp :: Get(w'.disk.dir, m) == Get(w.disk.dir, m))
  {
    RecordTaken(e, w, full.digest);
    var (w1, recorded) := RecordRun(e, w, full.digest);
    LookTaken(e, w1, Target);
    var (w2, r) := Inspect(e, w1, Target);
    BaselineDue(r, Again(baseline));
    hide RecordRun, Baseline, Fits;
    CleanupDue(e, w1, temp, full);
    CleanupDue(e, w2, temp, full);
    hide Inspect, DiscardRun;
  }

  /** A record is published at tick `t`, even when the call then raises. */
  predicate Records(e: Env, t: nat) { e.fault(t).NoFault? || e.fault(t).Partial? }

  lemma RecordTaken(e: Env, w: World, digest: nat)
    ensures var (w', recorded) := RecordRun(e, w, digest);
            && (Intent(digest) in w'.log <==> Intent(digest) in w.log || Records(e, w.tick))
            && w'.tick == w.tick + 1 && (recorded <==> e.fault(w.tick).NoFault?)
            && Get(w'.disk.dir, Target) == Turn(e, w.tick, Get(w.disk.dir, Target))
            && forall m: Name | m.Private? :: Get(w'.disk.dir, m) == Get(w.disk.dir, m)
  {
    TurnTaken(e, w);
    assert Intent(digest) in Interfere(e, w).log <==> Intent(digest) in w.log;
    hide Interfere;
  }

  /** The intent is on record exactly when the file was filled without a signal and the
      record was published, and also when publishing it raised. */
  lemma {:induction false} RecordDue(e: Env, w: World, temp: Name, full: Version, baseline: Option<Identity>)
    requires temp.Private? && temp in w.disk.dir && Intent(full.digest) !in w.log
    ensures Intent(full.digest) in PrepareRun(e, w, temp, full, baseline).0.log <==>
            Calm(e, w.tick) && Records(e, w.tick + 1)
  {
    FillTaken(e, w, temp, full);
    var (w1, filled) := Attempt(e, w, Fill(temp, full));
    AttemptSilent(e, w, Fill(temp, full));
    NoIntent(w, w1, full.digest);
    AttemptSilent(e, w1, Discard(temp));
    NoIntent(w1, Attempt(e, w1, Discard(temp)).0, full.digest);
    IntendRecords(e, w1, temp, full, baseline);
    hide Attempt, IntendRun, Silent, Records;
  }

  lemma {:induction false} IntendRecords(e: Env, w: World, temp: Name, full: Version, baseline: Option<Identity>)
    requires Intent(full.digest) !in w.log
    ensures Intent(full.digest) in IntendRun(e, w, temp, full, baseline).0.log <==> Records(e, w.tick)
  {
    RecordTaken(e, w, full.digest);
    var w1 := RecordRun(e, w, full.digest).0;
    var w2 := Inspect(e, w1, Target).0;
    InterfereSilent(e, w1);
    NoIntent(w1, w2, full.digest);
    DiscardSilent(e, w1, temp, IdentityOf(full));
    NoIntent(w1, DiscardRun(e, w1, temp, IdentityOf(full)).0, full.digest);
    DiscardSilent(e, w2, temp, IdentityOf(full));
    NoIntent(w2, DiscardRun(e, w2, temp, IdentityOf(full)).0, full.digest);
    hide RecordRun, DiscardRun, Silent, Interfere, Baseline;
  }

  lemma NoIntent(w: World, w': World, digest: nat)
    requires Silent(w, w')
    ensures Intent(digest) in w'.log <==> Intent(digest) in w.log
  {
    SilentLog(w, w');
  }

  /** The removal of the own file: it is gone unless the last step failed. */
  lemma {:induction false} CleanupDue(e: Env, w: World, temp: Name, full: Version)
    requires temp.Private? && Get(w.disk.dir, temp) == Some(full) && full.regular
    ensures var (w', removed) := DiscardRun(e, w, temp, IdentityOf(full));
            && w'.tick > w.tick && (temp !in w'.disk.dir <==> e.fault(w'.tick - 1).NoFault?)
            && (removed <==> temp !in w'.disk.dir)
            && (forall m: Name | m.Private? && m != temp :: Get(w'.disk.dir, m) == Get(w.disk.dir, m))
  {
    LookTaken(e, w, temp);
    var w1 := Inspect(e, w, temp).0;
    DiscardTaken(e, w1, temp);
    hide Attempt, Inspect;
  }

  /** What follows a commit: a normal write needs a clean `fsync` and a clean or interrupted
      close; every other end is reported, and the write raises exactly when a report does. */
  lemma {:induction false} SettleDue(e: Env, w: World, o: Outcome, temp: Name, repl: Identity)
    ensures var result := SettleRun(e, w, o, temp, repl).1;
            var t := if o.Warned? then w.tick + 1 else w.tick;
            var synced := e.fault(t).NoFault?;
            var u := if synced then t + 1 else t + 2;
            var closed := e.fault(u).NoFault? || e.stop(u);
            if o.Refused? then result == NotWritten(CommitRefused(o.cause))
            else if || (o.Warned? && !e.fault(w.tick).NoFault?)
                    || (!synced && !e.fault(t + 1).NoFault?)
                    || (!closed && !e.fault(u + 1).NoFault?)
            then result == NotWritten(WarningLost)
            else result == if o.Returned? && synced && closed then Ok else OkWithWarning
  {
    hide DiscardRun;
  }

  ghost predicate Follows(o: Outcome, result: Written) {
    match result
    case Ok => o.Returned?
    case OkWithWarning => !o.Refused?
    case NotWritten(reason) => if o.Refused? then reason == CommitRefused(o.cause) else reason.WarningLost?
  }

  /** The directory when the commit begins. */
  ghost function Prepared(e: Env, d: Directory, temp: Name, full: Version): Directory {
    Set(d[temp := full], Target, Later(e, 0, 5, Get(d, Target)))
  }

  /** Every result of a write has its reason: the first of its five steps that fails or is
      interrupted, a signal after them, or the outcome of the commit. */
  lemma {:induction false} WriteDue(e: Env, disk: Disk, temp: Name, draft: Version, full: Version, x: Expected)
    requires temp.Private? && full.regular
    ensures var (w', result) := WriteRun(e, World(disk, [], 0), temp, draft, full, x);
            var shown := Get(disk.dir, Target);
            var now := Turn(e, 0, shown);
            if e.stop(0) then result == NotWritten(Terminated)
            else if !e.fault(0).NoFault? || !Fits(now, x) then result == NotWritten(BaselineRefused)
            else if e.stop(1) then result == NotWritten(Terminated)
            else if !e.fault(1).NoFault? || temp in disk.dir then result == NotWritten(CreateRefused)
            else if !Calm(e, 2) then result == NotWritten(if e.stop(2) then Terminated else DraftFailed)
            else if !Calm(e, 3) then result == NotWritten(if e.stop(3) then Terminated else IntentFailed)
            else if e.stop(4) then result == NotWritten(Terminated)
            else if !Unmoved(e, 4, Later(e, 0, 4, shown), Seen(now, x)) then result == NotWritten(TargetMoved)
            else if Pending(e, 5, w'.tick) then result == NotWritten(Terminated)
            else exists o :: Follows(o, result)
                          && CommitEnds(e, Prepared(e, disk.dir, temp, full), 5, temp, full, Seen(now, x),
                                        Identity(full.device, full.inode, full.mode, full.size, full.modified,
                                                 Some(full.digest)), o)
  {
    hide PrepareRun, FinishRun, Attempt, Baseline, Fits, Inspect, Unmoved, CommitEnds, Pending;
    var w := World(disk, [], 0);
    LookTaken(e, w, Target);
    var (w1, r) := Inspect(e, w, Target);
    BaselineDue(r, x);
    CreateTaken(e, w1, temp, draft);
    var (w2, created) := Attempt(e, w1, Create(temp, draft));
    LaterFirst(e, Get(disk.dir, Target));
    if created.Done? && Baseline(r, x).Some? {
      PrepareDue(e, w2, temp, full, Baseline(r, x).value);
      PrepareLeaves(e, w2, temp, full, Baseline(r, x).value);
      var (w3, stopped) := PrepareRun(e, w2, temp, full, Baseline(r, x).value);
      if stopped.None? {
        SameDirectory(w3.disk.dir, Prepared(e, disk.dir, temp, full));
        FinishDue(e, w3, temp, Baseline(r, x).value, full);
      }
    }
  }

  lemma LaterFirst(e: Env, shown: Option<Version>)
    ensures Later(e, 0, 1, shown) == Turn(e, 0, shown)
    ensures Later(e, 0, 2, shown) == Turn(e, 1, Later(e, 0, 1, shown))
    ensures Later(e, 0, 4, shown) == Later(e, 2, 2, Later(e, 0, 2, shown))
    ensures Later(e, 0, 5, shown) == Turn(e, 4, Later(e, 0, 4, shown))
  {
    var two := Later(e, 0, 2, shown);
    assert Later(e, 0, 3, shown) == Turn(e, 2, two) == Later(e, 2, 1, two);
  }

  lemma CreateTaken(e: Env, w: World, temp: Name, draft: Version)
    requires temp.Private?
    ensures var (w', io) := Attempt(e, w, Create(temp, draft));
            && w'.tick == w.tick + 1 && (io.Done? <==> e.fault(w.tick).NoFault? && temp !in w.disk.dir)
            && Get(w'.disk.dir, Target) == Turn(e, w.tick, Get(w.disk.dir, Target))
            && (io.Done? ==> temp in w'.disk.dir)
            && forall m: Name | m.Private? && (m != temp || !io.Done?) :: Get(w'.disk.dir, m) == Get(w.disk.dir, m)
  {
    TurnTaken(e, w);
    assert Get(Interfere(e, w).disk.dir, temp) == Get(w.disk.dir, temp);
    hide Interfere;
  }

  lemma {:induction false} FinishDue(e: Env, w: World, temp: Name, baseline: Option<Identity>, full: Version)
    requires temp.Private? && Get(w.disk.dir, temp) == Some(full)
    ensures var (w', result) := FinishRun(e, w, temp, baseline, IdentityOf(full));
            if Pending(e, w.tick, w'.tick) then result == NotWritten(Terminated)
            else exists o :: Follows(o, result)
                          && CommitEnds(e, w.disk.dir, w.tick, temp, full, baseline,
                                        Identity(full.device, full.inode, full.mode, full.size, full.modified,
                                                 Some(full.digest)), o)
  {
    hide CommitRun, SettleRun, CommitEnds, Pending;
    CommitDue(e, w, temp, baseline, IdentityOf(full));
    var (w1, o) := CommitRun(e, w, temp, baseline, IdentityOf(full));
    SettleResult(e, w1, o, temp, IdentityOf(full));
    assert Follows(o, SettleRun(e, w1, o, temp, IdentityOf(full)).1);
  }

  // A write that nothing disturbs

  ghost predicate Undisturbed(e: Env, d: Directory, temp: Name) {
    && (forall i :: e.rival(i).None? && e.fault(i).NoFault? && !e.stop(i))
    && (forall i :: Private(e.token(i)) !in d && Private(e.token(i)) != temp)
    && temp !in d
  }

  /** Alone, a write is the sequential compare-and-swap: it writes over exactly what it
      expects, records its intent and leaves no other trace. Otherwise the target stays as
      it is, and a target whose metadata alone is as expected is found at the commit. */
  lemma {:induction false} WriteUndisturbed(e: Env, disk: Disk, temp: Name, draft: Version, full: Version, x: Expected)
    requires temp.Private? && full.regular && Undisturbed(e, disk.dir, temp)
    ensures var (w', result) := WriteRun(e, World(disk, [], 0), temp, draft, full, x);
            var d, now := disk.dir, Get(disk.dir, Target);
            if !Fits(now, x) then result == NotWritten(BaselineRefused) && w'.disk.dir == d && w'.log == []
            else if now.None? || (x.MustBe? && Identifies(x.id, now.value)) then
              result == Ok && w'.disk.dir == d[Target := full] && Intent(full.digest) in w'.log
            else result == NotWritten(CommitRefused(Cause.Conflict(true))) && w'.disk.dir == d
  {
    hide CommitRun, PrepareRun, SettleRun, Fits, Attempt, Inspect, Baseline;
    var w, d, shown := World(disk, [], 0), disk.dir, Get(disk.dir, Target);
    LookTaken(e, w, Target);
    var (w1, r) := Inspect(e, w, Target);
    assert w1 == World(disk, [], 1) by { Unseen(e, w); }
    BaselineDue(r, x);
    if Fits(shown, x) {
      var b := Seen(shown, x);
      CreateTaken(e, w1, temp, draft);
      var w2 := Attempt(e, w1, Create(temp, draft)).0;
      PrepareDue(e, w2, temp, full, b);
      PrepareLeaves(e, w2, temp, full, b);
      UnmovedStill(e, shown, x);
      var w5 := PrepareRun(e, w2, temp, full, b).0;
      LaterStill(e, 2, 2, shown);
      SameDirectory(w5.disk.dir, d[temp := full]);
      CommitUndisturbed(e, w5, temp, b, IdentityOf(full));
      var (w6, o) := CommitRun(e, w5, temp, b, IdentityOf(full));
      SettleStill(e, w6, o, temp, IdentityOf(full));
      WriteLog(e, disk, temp, draft, full, x);
    }
  }

  lemma Unseen(e: Env, w: World)
    requires e.rival(w.tick).None?
    ensures Inspect(e, w, Target).0 == w.(tick := w.tick + 1)
  {
  }

  lemma {:induction false} LaterStill(e: Env, t: nat, n: nat, shown: Option<Version>)
    requires forall i :: e.rival(i).None?
    ensures Later(e, t, n, shown) == shown
  {
    if n > 0 {
      LaterStill(e, t, n - 1, shown);
    }
  }

  lemma UnmovedStill(e: Env, shown: Option<Version>, x: Expected)
    requires (forall i :: e.rival(i).None? && e.fault(i).NoFault?) && Fits(shown, x)
    ensures Unmoved(e, 4, Later(e, 2, 2, shown), Seen(shown, x))
    ensures shown.Some? <==> Seen(shown, x).Some?
  {
    LaterStill(e, 2, 2, shown);
  }

  lemma SettleStill(e: Env, w: World, o: Outcome, temp: Name, repl: Identity)
    requires (forall i :: e.rival(i).None? && e.fault(i).NoFault? && !e.stop(i)) && temp !in w.disk.dir && !o.Warned?
    ensures var (w', result) := SettleRun(e, w, o, temp, repl);
            && w'.disk.dir == w.disk.dir
            && result == if o.Returned? then Ok else NotWritten(CommitRefused(o.cause))
  {
    assert DiscardRun(e, w, temp, repl).0.disk == w.disk;
    var w1 := ConfirmRun(e, w).0;
    assert w1.disk == w.disk && CloseRun(e, w1).0.disk == w1.disk;
  }
}
