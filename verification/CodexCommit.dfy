/** The Codex configuration transaction on POSIX (`adapters/codex/configure.py`):
    replacement by exchange and recovery, creation by link, deletion by
    quarantine. All refine swap-or-preserve. */
module CodexCommit {
  import opened Files
  import opened Wrappers
  import opened SwapOrPreserve

  datatype Cause =
    | NoAtomicExchange | ExchangeRaised                   // the target was not touched
    | AuditRaised | CleanupRaised | RecoverRaised | RollbackRaised | Superseded(at: Name) // not taken back
    | RecheckRaised | UncleanRollback | Conflict(kept: Option<Name>)                      // taken back

  datatype Outcome = Returned | Refused(cause: Cause)

  /** `_preserve_recovery`: where the data is, whether or not the move worked. */
  function PreserveRun(e: Env, w: World, source: Name): (World, Name) {
    var recovery := Fresh(e, w);
    var (w1, io) := Attempt(e, w, Move(source, recovery));
    (w1, if io.Done? then recovery else source)
  }

  /** After the exchange back: the transaction is discarded, anything else is kept. */
  function RecheckRun(e: Env, w: World, temp: Name, tx: Version): (World, Outcome) {
    var (w1, back) := SnapshotRun(e, w, temp);
    if back.None? then (w1, Refused(RecheckRaised))
    else if back.value == Some(tx) then
      var (w2, gone) := Attempt(e, w1, Discard(temp));
      (w2, Refused(if gone.Done? then Conflict(None) else UncleanRollback))
    else
      var (w2, at) := PreserveRun(e, w1, temp);
      (w2, Refused(Conflict(Some(at))))
  }

  function RecoverRun(e: Env, w: World, temp: Name, tx: Version): (World, Outcome) {
    var (w1, shown) := SnapshotRun(e, w, Target);
    if shown.None? then (w1, Refused(RecoverRaised))
    else if shown.value != Some(tx) then
      var (w2, at) := PreserveRun(e, w1, temp);
      (w2, Refused(Superseded(at)))
    else
      var (w2, io) := Attempt(e, w1, Exchange(temp, Target));
      if !io.Done? then (w2, Refused(RollbackRaised)) else RecheckRun(e, w2, temp, tx)
  }

  function AuditRun(e: Env, w: World, temp: Name, baseline: Version, tx: Version): (World, Outcome) {
    var (w1, displaced) := SnapshotRun(e, w, temp);
    if displaced.None? then (w1, Refused(AuditRaised))
    else if displaced.value == Some(baseline) then
      var (w2, io) := Attempt(e, w1, Discard(temp));
      (w2, if io.Done? then Returned else Refused(CleanupRaised))
    else RecoverRun(e, w1, temp, tx)
  }

  function CommitExistingRun(e: Env, w: World, temp: Name, baseline: Version, tx: Version): (World, Outcome) {
    var (w1, io) := Attempt(e, w, Exchange(temp, Target));
    if io == Failed(Unsupported) then (Attempt(e, w1, Discard(temp)).0, Refused(NoAtomicExchange))
    else if !io.Done? then (w1, Refused(ExchangeRaised))
    else AuditRun(e, w1, temp, baseline, tx)
  }

  method PreserveRecovery(f: Folder, source: Name) returns (at: Name)
    modifies f
    ensures (f.View(), at) == PreserveRun(f.env, old(f.View()), source)
  {
    var recovery := f.FreshName();
    var io := f.Try(Move(source, recovery));
    at := if io.Done? then recovery else source;
  }

  method RecoverExchange(f: Folder, temp: Name, tx: Version) returns (o: Outcome)
    modifies f
    ensures (f.View(), o) == RecoverRun(f.env, old(f.View()), temp, tx)
  {
    var shown := Snapshot(f, Target);
    if shown.None? {
      return Refused(RecoverRaised);
    }
    if shown.value != Some(tx) {
      var at := PreserveRecovery(f, temp);
      return Refused(Superseded(at));
    }
    var io := f.Try(Exchange(temp, Target));
    if !io.Done? {
      return Refused(RollbackRaised);
    }
    var back := Snapshot(f, temp);
    if back.None? {
      return Refused(RecheckRaised);
    }
    if back.value == Some(tx) {
      io := f.Try(Discard(temp));
      return Refused(if io.Done? then Conflict(None) else UncleanRollback);
    }
    var at := PreserveRecovery(f, temp);
    return Refused(Conflict(Some(at)));
  }

  method CommitExisting(f: Folder, temp: Name, baseline: Version, tx: Version) returns (o: Outcome)
    modifies f
    ensures (f.View(), o) == CommitExistingRun(f.env, old(f.View()), temp, baseline, tx)
  {
    var io := f.Try(Exchange(temp, Target));
    if io == Failed(Unsupported) {
      io := f.Try(Discard(temp));
      return Refused(NoAtomicExchange);
    }
    if !io.Done? {
      return Refused(ExchangeRaised);
    }
    var displaced := Snapshot(f, temp);
    if displaced.None? {
      return Refused(AuditRaised);
    }
    if displaced.value == Some(baseline) {
      io := f.Try(Discard(temp));
      return if io.Done? then Returned else Refused(CleanupRaised);
    }
    o := RecoverExchange(f, temp, tx);
  }

  ghost function Replacing(baseline: Version, tx: Version): Terms {
    Terms(v => v == baseline, v => v == tx, false)
  }

  lemma RecoverKeeps(t: Terms, start: Disk, e: Env, w: World, temp: Name, tx: Version)
    requires Faithful(t, start, w) && temp.Private? && t.ours(tx)
    ensures Faithful(t, start, RecoverRun(e, w, temp, tx).0)
  {
    hide Faithful;
    InterfereKeeps(t, start, e, w);
    var (w1, shown) := SnapshotRun(e, w, Target);
    if shown == Some(Some(tx)) {
      MoveKeeps(t, start, e, w1, Exchange(temp, Target));
      var (w2, io) := Attempt(e, w1, Exchange(temp, Target));
      if io.Done? {
        RecheckKeeps(t, start, e, w2, temp, tx);
        hide RecheckRun;
      }
    } else {
      MoveKeeps(t, start, e, w1, Move(temp, Fresh(e, w1)));
    }
  }

  lemma RecheckKeeps(t: Terms, start: Disk, e: Env, w: World, temp: Name, tx: Version)
    requires Faithful(t, start, w) && temp.Private? && t.ours(tx)
    ensures Faithful(t, start, RecheckRun(e, w, temp, tx).0)
  {
    hide Faithful;
    InterfereKeeps(t, start, e, w);
    var (w1, back) := SnapshotRun(e, w, temp);
    if back == Some(Some(tx)) {
      DropKeeps(t, start, e, w1, temp, tx);
    } else {
      MoveKeeps(t, start, e, w1, Move(temp, Fresh(e, w1)));
    }
  }

  lemma AuditKeeps(t: Terms, start: Disk, e: Env, w: World, temp: Name, baseline: Version, tx: Version)
    requires Faithful(t, start, w) && temp.Private? && Published(t, w.disk)
    requires t.baseline(baseline) && t.ours(tx)
    ensures Faithful(t, start, AuditRun(e, w, temp, baseline, tx).0)
  {
    hide Faithful;
    InterfereKeeps(t, start, e, w);
    var (w1, displaced) := SnapshotRun(e, w, temp);
    assert Interfere(e, w1).disk.puts == w.disk.puts;
    if displaced == Some(Some(baseline)) {
      AttemptKeeps(t, start, e, w1, Discard(temp));
    } else {
      RecoverKeeps(t, start, e, w1, temp, tx);
    }
  }

  /** The replacement refines swap-or-preserve. */
  lemma CommitExistingKeeps(e: Env, disk: Disk, temp: Name, baseline: Version, tx: Version)
    requires temp.Private? && Get(disk.dir, temp) == Some(tx)
    ensures Faithful(Replacing(baseline, tx), disk,
                     CommitExistingRun(e, World(disk, [], 0), temp, baseline, tx).0)
  {
    var t, w := Replacing(baseline, tx), World(disk, [], 0);
    StartFaithful(t, disk);
    hide Faithful;
    hide AuditRun, Attempt, Published;
    MoveKeeps(t, disk, e, w, Exchange(temp, Target));
    var (w1, io) := Attempt(e, w, Exchange(temp, Target));
    if io.Done? {
      ExchangePublishes(t, e, w, temp, tx);
      AuditKeeps(t, disk, e, w1, temp, baseline, tx);
    } else {
      ExchangeFails(e, w, temp, tx);
      DropKeeps(t, disk, e, w1, temp, tx);
    }
  }

  lemma ExchangePublishes(t: Terms, e: Env, w: World, temp: Name, tx: Version)
    requires temp.Private? && Get(w.disk.dir, temp) == Some(tx) && t.ours(tx)
    requires Attempt(e, w, Exchange(temp, Target)).1.Done?
    ensures Published(t, Attempt(e, w, Exchange(temp, Target)).0.disk)
  {
    assert Attempt(e, w, Exchange(temp, Target)).0.disk.puts[|w.disk.puts|].installed == Some(tx);
  }

  lemma ExchangeFails(e: Env, w: World, temp: Name, tx: Version)
    requires temp.Private? && Get(w.disk.dir, temp) == Some(tx)
    requires !Attempt(e, w, Exchange(temp, Target)).1.Done?
    ensures Get(Attempt(e, w, Exchange(temp, Target)).0.disk.dir, temp) == Some(tx)
  {
  }

  /** No version is lost by the replacement at any moment of it. */
  lemma {:induction false} CommitExistingLosesNothing(e: Env, disk: Disk, temp: Name, baseline: Version, tx: Version,
                                   j: nat, k: nat, v: Version)
    requires temp.Private? && Get(disk.dir, temp) == Some(tx)
    requires var log := CommitExistingRun(e, World(disk, [], 0), temp, baseline, tx).0.log;
             j <= k <= |log| && v in Replay(disk, log[..j]).dir.Values
    ensures var log := CommitExistingRun(e, World(disk, [], 0), temp, baseline, tx).0.log;
            Accounted(Replacing(baseline, tx), disk, log, j, k, v)
  {
    CommitExistingKeeps(e, disk, temp, baseline, tx);
    NoLostVersion(Replacing(baseline, tx), disk,
                  CommitExistingRun(e, World(disk, [], 0), temp, baseline, tx).0.log, j, k, v);
  }

  /** Which exceptions leave the transaction in place, and where data is kept. */
  ghost predicate Honest(puts: seq<Put>, after: Directory, o: Outcome, temp: Name, baseline: Version, tx: Version) {
    var once := |puts| == 1 && puts[0].installed == Some(tx) && puts[0].displaced.Some?;
    var back := |puts| == 2 && puts[0].installed == Some(tx) && puts[0].displaced.Some? &&
                puts[1].installed == puts[0].displaced;
    match o
    case Returned => once && puts[0].displaced == Some(baseline)
    case Refused(cause) =>
      match cause
      case NoAtomicExchange => puts == []
      case ExchangeRaised => puts == [] && Get(after, temp) == Some(tx)
      case Superseded(at) => once && Get(after, at) == puts[0].displaced
      case RecheckRaised => back && Get(after, temp) == puts[1].displaced
      case UncleanRollback => back
      case Conflict(kept) => back && (kept.Some? ==> Get(after, kept.value) == puts[1].displaced)
      case _ => once && Get(after, temp) == puts[0].displaced
  }

  lemma PreserveHolds(e: Env, w: World, source: Name)
    requires source.Private?
    ensures var (w', at) := PreserveRun(e, w, source);
            w'.disk.puts == w.disk.puts && Get(w'.disk.dir, at) == Get(w.disk.dir, source)
  {
  }

  /** The rest of a replacement that has displaced `x` into `temp`. */
  ghost predicate Settled(w: World, w': World, o: Outcome, temp: Name, x: Version, baseline: Version) {
    var kept := w'.disk.puts == w.disk.puts;
    match o
    case Returned => kept && x == baseline
    case Refused(cause) =>
      match cause
      case NoAtomicExchange => false
      case ExchangeRaised => false
      case Superseded(at) => kept && Get(w'.disk.dir, at) == Some(x)
      case RecheckRaised => exists y :: w'.disk.puts == w.disk.puts + [Put(Some(x), y)] && Get(w'.disk.dir, temp) == y
      case UncleanRollback => exists y :: w'.disk.puts == w.disk.puts + [Put(Some(x), y)]
      case Conflict(at) =>
        exists y :: w'.disk.puts == w.disk.puts + [Put(Some(x), y)] && (at.Some? ==> Get(w'.disk.dir, at.value) == y)
      case _ => kept && Get(w'.disk.dir, temp) == Some(x)
  }

  lemma {:induction false} RecoverSettles(e: Env, w: World, temp: Name, baseline: Version, tx: Version)
    requires temp.Private? && temp in w.disk.dir
    ensures var (w', o) := RecoverRun(e, w, temp, tx);
            !o.Returned? && Settled(w, w', o, temp, w.disk.dir[temp], baseline)
  {
    var (w1, shown) := SnapshotRun(e, w, Target);
    assert w1.disk.puts == w.disk.puts && Get(w1.disk.dir, temp) == Get(w.disk.dir, temp);
    if shown == Some(Some(tx)) {
      var (w2, io) := Attempt(e, w1, Exchange(temp, Target));
      if io.Done? {
        assert w2.disk.puts == w.disk.puts + [Put(Some(w.disk.dir[temp]), Get(w2.disk.dir, temp))];
        RecheckSettles(e, w2, temp, tx);
        hide RecheckRun;
      }
    } else {
      PreserveHolds(e, w1, temp);
      hide PreserveRun;
    }
  }

  lemma RecheckSettles(e: Env, w: World, temp: Name, tx: Version)
    requires temp.Private?
    ensures var (w', o) := RecheckRun(e, w, temp, tx);
            && w'.disk.puts == w.disk.puts && o.Refused?
            && match o.cause
               case RecheckRaised => Get(w'.disk.dir, temp) == Get(w.disk.dir, temp)
               case Conflict(at) => at.Some? ==> Get(w'.disk.dir, at.value) == Get(w.disk.dir, temp)
               case UncleanRollback => true
               case _ => false
  {
    PreserveHolds(e, SnapshotRun(e, w, temp).0, temp);
    hide PreserveRun;
  }

  lemma {:induction false} AuditSettles(e: Env, w: World, temp: Name, baseline: Version, tx: Version)
    requires temp.Private? && temp in w.disk.dir
    ensures var (w', o) := AuditRun(e, w, temp, baseline, tx);
            Settled(w, w', o, temp, w.disk.dir[temp], baseline)
  {
    var (w1, displaced) := SnapshotRun(e, w, temp);
    assert w1.disk.puts == w.disk.puts && Get(w1.disk.dir, temp) == Get(w.disk.dir, temp);
    if displaced.Some? && displaced.value != Some(baseline) {
      RecoverSettles(e, w1, temp, baseline, tx);
    }
  }

  lemma SettledHonest(before: seq<Put>, w: World, w': World, o: Outcome, temp: Name, x: Version, baseline: Version,
                      tx: Version)
    requires w.disk.puts == before + [Put(Some(tx), Some(x))] && Settled(w, w', o, temp, x, baseline)
    ensures before <= w'.disk.puts && Honest(w'.disk.puts[|before|..], w'.disk.dir, o, temp, baseline, tx)
  {
  }

  /** What each outcome means. An exception leaves the transaction published in the cases
      `AuditRaised`, `CleanupRaised`, `RecoverRaised`, `RollbackRaised` and `Superseded`;
      in each the displaced data is still there, where stated. */
  lemma {:induction false} CommitExistingHonest(e: Env, w: World, temp: Name, baseline: Version, tx: Version)
    requires temp.Private? && Get(w.disk.dir, temp) == Some(tx)
    ensures var (w', o) := CommitExistingRun(e, w, temp, baseline, tx);
            && w.disk.puts <= w'.disk.puts
            && Honest(w'.disk.puts[|w.disk.puts|..], w'.disk.dir, o, temp, baseline, tx)
  {
    var (w1, io) := Attempt(e, w, Exchange(temp, Target));
    if io.Done? {
      var x := w1.disk.dir[temp];
      assert w1.disk.puts == w.disk.puts + [Put(Some(tx), Some(x))];
      AuditSettles(e, w1, temp, baseline, tx);
      var (w2, o) := AuditRun(e, w1, temp, baseline, tx);
      SettledHonest(w.disk.puts, w1, w2, o, temp, x, baseline, tx);
    } else {
      assert w1.disk.puts == w.disk.puts && Get(w1.disk.dir, temp) == Some(tx);
      assert Attempt(e, w1, Discard(temp)).0.disk.puts == w1.disk.puts;
    }
  }

  // Which runs leave the transaction published

  /** The rollback from tick `t` on, over a target that shows `shown`, does not happen: the
      target cannot be read, no longer shows the transaction, or cannot be exchanged back. */
  predicate NotTakenBack(e: Env, t: nat, shown: Option<Version>, tx: Version) {
    var now := Turn(e, t, shown);
    || !e.fault(t).NoFault? || now != Some(tx) || !tx.regular
    || !e.fault(t + 1).NoFault? || Turn(e, t + 1, now).None?
  }

  /** The exchange takes effect and afterwards the displaced file cannot be read, or it is
      the baseline and cannot be removed, or it is not and the rollback does not happen. */
  predicate LeftInPlace(e: Env, t: nat, shown: Option<Version>, baseline: Version, tx: Version) {
    var x := Turn(e, t, shown);
    && e.fault(t).NoFault? && x.Some?
    && (|| !e.fault(t + 1).NoFault? || !x.value.regular
        || (x.value == baseline && !e.fault(t + 2).NoFault?)
        || (x.value != baseline && NotTakenBack(e, t + 2, Turn(e, t + 1, Some(tx)), tx)))
  }

  lemma {:induction false} RecoverLeftIff(e: Env, w: World, temp: Name, baseline: Version, tx: Version)
    requires temp.Private? && temp in w.disk.dir
    ensures RecoverRun(e, w, temp, tx).0.disk.puts == w.disk.puts <==>
            NotTakenBack(e, w.tick, Get(w.disk.dir, Target), tx)
  {
    TurnTaken(e, w);
    var (w1, shown) := SnapshotRun(e, w, Target);
    TurnTaken(e, w1);
    assert Get(w1.disk.dir, temp) == Get(w.disk.dir, temp);
    if shown == Some(Some(tx)) {
      var (w2, io) := Attempt(e, w1, Exchange(temp, Target));
      assert io.Done? ==> |w2.disk.puts| == |w.disk.puts| + 1;
      RecheckSettles(e, w2, temp, tx);
      hide RecheckRun;
    } else {
      PreserveHolds(e, w1, temp);
      hide PreserveRun;
    }
  }

  lemma {:induction false} AuditLeftIff(e: Env, w: World, temp: Name, baseline: Version, tx: Version)
    requires temp.Private? && temp in w.disk.dir
    ensures var x := w.disk.dir[temp]; var (w', o) := AuditRun(e, w, temp, baseline, tx);
            o.Refused? && w'.disk.puts == w.disk.puts <==>
            || !e.fault(w.tick).NoFault? || !x.regular
            || (x == baseline && !e.fault(w.tick + 1).NoFault?)
            || (x != baseline && NotTakenBack(e, w.tick + 1, Turn(e, w.tick, Get(w.disk.dir, Target)), tx))
  {
    var x := w.disk.dir[temp];
    TurnTaken(e, w);
    var (w1, displaced) := SnapshotRun(e, w, temp);
    TurnTaken(e, w1);
    assert Get(w1.disk.dir, temp) == Some(x) && w1.disk.puts == w.disk.puts;
    if displaced.Some? && x != baseline {
      RecoverLeftIff(e, w1, temp, baseline, tx);
      RecoverSettles(e, w1, temp, baseline, tx);
    } else {
      var (w2, io) := Attempt(e, w1, Discard(temp));
      assert io.Done? <==> e.fault(w1.tick).NoFault?;
      assert w2.disk.puts == w1.disk.puts;
    }
    hide RecoverRun, Attempt, NotTakenBack;
  }

  /** The exact condition, over the oracle and what the target shows: the replacement
      raises and leaves the transaction published if and only if it is `LeftInPlace`. */
  lemma {:induction false} CommitExistingLeftIff(e: Env, w: World, temp: Name, baseline: Version, tx: Version)
    requires temp.Private? && Get(w.disk.dir, temp) == Some(tx)
    ensures var (w', o) := CommitExistingRun(e, w, temp, baseline, tx);
            && w.disk.puts <= w'.disk.puts
            && (o.Refused? && |w'.disk.puts| == |w.disk.puts| + 1 <==>
                LeftInPlace(e, w.tick, Get(w.disk.dir, Target), baseline, tx))
  {
    hide AuditRun, Attempt, Honest, NotTakenBack, Turn;
    CommitExistingHonest(e, w, temp, baseline, tx);
    ExchangeFacts(e, w, temp, tx);
    var (w1, io) := Attempt(e, w, Exchange(temp, Target));
    if io.Done? {
      AuditLeftIff(e, w1, temp, baseline, tx);
      SettledLonger(e, w1, temp, baseline, tx);
    }
  }

  lemma {:induction false} ExchangeFacts(e: Env, w: World, temp: Name, tx: Version)
    requires temp.Private? && Get(w.disk.dir, temp) == Some(tx)
    ensures var (w', io) := Attempt(e, w, Exchange(temp, Target));
            var x := Turn(e, w.tick, Get(w.disk.dir, Target));
            && (io.Done? <==> e.fault(w.tick).NoFault? && x.Some?) && w'.tick == w.tick + 1
            && (io.Done? ==>
                  Get(w'.disk.dir, temp) == x && Get(w'.disk.dir, Target) == Some(tx)
                  && |w'.disk.puts| == |w.disk.puts| + 1)
            && (!io.Done? ==> w'.disk.puts == w.disk.puts && Attempt(e, w', Discard(temp)).0.disk.puts == w.disk.puts)
  {
    TurnTaken(e, w);
  }

  lemma SettledLonger(e: Env, w: World, temp: Name, baseline: Version, tx: Version)
    requires temp.Private? && temp in w.disk.dir
    ensures var w' := AuditRun(e, w, temp, baseline, tx).0;
            w'.disk.puts == w.disk.puts || |w'.disk.puts| == |w.disk.puts| + 1
  {
    AuditSettles(e, w, temp, baseline, tx);
    hide AuditRun;
  }

  function Theirs(inode: nat): Version { Version(true, 0, inode, 420, 5, 0, inode) }

  /** A start and an oracle for the examples: the transaction is file 7, the baseline file
      8, the target shows file `shown`, the rival and the faults are as given. */
  function Example(shown: nat, rival: nat -> Option<Option<Version>>, fault: nat -> Fault): (Env, World) {
    (Env(rival, fault, i => i + 1, _ => false),
     World(Disk(map[Private(0) := Theirs(7), Target := Theirs(shown)], []), [], 0))
  }

  /** The displaced baseline cannot be read. */
  lemma AuditRaisedExample()
    ensures var (e, w) := Example(8, _ => None, i => if i == 1 then OsFault else NoFault);
            var (w', o) := CommitExistingRun(e, w, Private(0), Theirs(8), Theirs(7));
            o == Refused(AuditRaised) && Get(w'.disk.dir, Target) == Some(Theirs(7))
  {
    var (e, w) := Example(8, _ => None, i => if i == 1 then OsFault else NoFault);
    var (w1, io) := Attempt(e, w, Exchange(Private(0), Target));
    assert io.Done? && w1.tick == 1 && w1.disk.dir == map[Private(0) := Theirs(8), Target := Theirs(7)];
  }

  /** The displaced baseline cannot be removed. */
  lemma CleanupRaisedExample()
    ensures var (e, w) := Example(8, _ => None, i => if i == 2 then OsFault else NoFault);
            var (w', o) := CommitExistingRun(e, w, Private(0), Theirs(8), Theirs(7));
            o == Refused(CleanupRaised) && Get(w'.disk.dir, Target) == Some(Theirs(7))
  {
    var (e, w) := Example(8, _ => None, i => if i == 2 then OsFault else NoFault);
    var (w1, io) := Attempt(e, w, Exchange(Private(0), Target));
    assert io.Done? && w1.tick == 1 && w1.disk.dir == map[Private(0) := Theirs(8), Target := Theirs(7)];
  }

  /** Another file was displaced, and the target cannot be read. */
  lemma RecoverRaisedExample()
    ensures var (e, w) := Example(9, _ => None, i => if i == 2 then OsFault else NoFault);
            var (w', o) := CommitExistingRun(e, w, Private(0), Theirs(8), Theirs(7));
            o == Refused(RecoverRaised) && Get(w'.disk.dir, Target) == Some(Theirs(7))
  {
    var (e, w) := Example(9, _ => None, i => if i == 2 then OsFault else NoFault);
    var (w1, io) := Attempt(e, w, Exchange(Private(0), Target));
    assert io.Done? && w1.tick == 1 && w1.disk.dir == map[Private(0) := Theirs(9), Target := Theirs(7)];
    var w2 := SnapshotRun(e, w1, Private(0)).0;
    assert w2.tick == 2 && w2.disk == w1.disk;
  }

  /** Another file was displaced, and the exchange back fails. */
  lemma RollbackRaisedExample()
    ensures var (e, w) := Example(9, _ => None, i => if i == 3 then OsFault else NoFault);
            var (w', o) := CommitExistingRun(e, w, Private(0), Theirs(8), Theirs(7));
            o == Refused(RollbackRaised) && Get(w'.disk.dir, Target) == Some(Theirs(7))
  {
    var (e, w) := Example(9, _ => None, i => if i == 3 then OsFault else NoFault);
    var (w1, io) := Attempt(e, w, Exchange(Private(0), Target));
    assert io.Done? && w1.tick == 1 && w1.disk.dir == map[Private(0) := Theirs(9), Target := Theirs(7)];
    var w2 := SnapshotRun(e, w1, Private(0)).0;
    assert w2.tick == 2 && w2.disk == w1.disk;
  }

  /** Another file was displaced, and a rival writes a third one before the rollback. */
  lemma SupersededExample()
    ensures var (e, w) := Example(9, i => if i == 2 then Some(Some(Theirs(10))) else None, _ => NoFault);
            var (w', o) := CommitExistingRun(e, w, Private(0), Theirs(8), Theirs(7));
            && o == Refused(Superseded(Private(4)))
            && Get(w'.disk.dir, Target) == Some(Theirs(10)) && Get(w'.disk.dir, Private(4)) == Some(Theirs(9))
  {
    var (e, w) := Example(9, i => if i == 2 then Some(Some(Theirs(10))) else None, _ => NoFault);
    var (w1, io) := Attempt(e, w, Exchange(Private(0), Target));
    assert io.Done? && w1.tick == 1 && w1.disk.dir == map[Private(0) := Theirs(9), Target := Theirs(7)];
    var w2 := SnapshotRun(e, w1, Private(0)).0;
    assert w2.tick == 2 && w2.disk == w1.disk;
    var (w3, shown) := SnapshotRun(e, w2, Target);
    assert w3.tick == 3 && shown == Some(Some(Theirs(10)));
    assert Fresh(e, w3) == Private(4) && Get(w3.disk.dir, Private(0)) == Some(Theirs(9));
  }

  /** With no rival, no failure and unused names, replacement is exactly the
      sequential compare-and-swap. */
  lemma CommitExistingUndisturbed(e: Env, w: World, temp: Name, baseline: Version, tx: Version)
    requires temp.Private? && Get(w.disk.dir, temp) == Some(tx) && tx.regular
    requires Target in w.disk.dir && w.disk.dir[Target].regular
    requires forall i :: e.rival(i).None? && e.fault(i).NoFault? && Private(e.token(i)) !in w.disk.dir
    ensures var (w', o) := CommitExistingRun(e, w, temp, baseline, tx);
            var d := w.disk.dir;
            if d[Target] == baseline then o.Returned? && w'.disk.dir == (d - {temp})[Target := tx]
            else o == Refused(Conflict(None)) && w'.disk.dir == d - {temp}
  {
    var d := w.disk.dir;
    var (w1, io) := Attempt(e, w, Exchange(temp, Target));
    assert io.Done? && w1.disk.dir == d[temp := d[Target]][Target := tx];
    var w2 := SnapshotRun(e, w1, temp).0;
    if d[Target] == baseline {
      assert Attempt(e, w2, Discard(temp)).0.disk.dir == (d - {temp})[Target := tx];
    } else {
      var w3 := SnapshotRun(e, w2, Target).0;
      var (w4, back) := Attempt(e, w3, Exchange(temp, Target));
      assert back.Done? && w4.disk.dir == d;
      var w5 := SnapshotRun(e, w4, temp).0;
      assert Attempt(e, w5, Discard(temp)).0.disk.dir == d - {temp};
    }
  }

  // Creation

  datatype Creation = Created | CreatedUnclean | CreatedBefore | LinkRaised

  function CommitNewRun(e: Env, w: World, temp: Name): (World, Creation) {
    var (w1, io) := Attempt(e, w, Link(temp, Target));
    if io.Exists? then (Attempt(e, w1, Discard(temp)).0, CreatedBefore)
    else if !io.Done? then (w1, LinkRaised)
    else
      var (w2, gone) := Attempt(e, w1, Discard(temp));
      (w2, if gone.Done? then Created else CreatedUnclean)
  }

  method CommitNew(f: Folder, temp: Name) returns (c: Creation)
    modifies f
    ensures (f.View(), c) == CommitNewRun(f.env, old(f.View()), temp)
  {
    var io := f.Try(Link(temp, Target));
    if io.Exists? {
      io := f.Try(Discard(temp));
      return CreatedBefore;
    }
    if !io.Done? {
      return LinkRaised;
    }
    io := f.Try(Discard(temp));
    return if io.Done? then Created else CreatedUnclean;
  }

  /** Creation refines swap-or-preserve. */
  lemma CommitNewKeeps(e: Env, disk: Disk, temp: Name, tx: Version)
    requires temp.Private? && Get(disk.dir, temp) == Some(tx)
    ensures Faithful(Creating(tx), disk, CommitNewRun(e, World(disk, [], 0), temp).0)
  {
    hide Faithful, Attempt;
    var t, w := Creating(tx), World(disk, [], 0);
    StartFaithful(t, disk);
    MoveKeeps(t, disk, e, w, Link(temp, Target));
    LinkLeaves(e, w, temp);
    DropKeeps(t, disk, e, Attempt(e, w, Link(temp, Target)).0, temp, tx);
  }

  lemma LinkLeaves(e: Env, w: World, temp: Name)
    requires temp.Private?
    ensures Get(Attempt(e, w, Link(temp, Target)).0.disk.dir, temp) == Get(w.disk.dir, temp)
  {
  }

  ghost function Creating(tx: Version): Terms {
    Terms(v => false, v => v == tx, false)
  }

  /** Creation publishes only over an absent target. */
  lemma CommitNewHonest(e: Env, w: World, temp: Name, tx: Version)
    requires temp.Private? && Get(w.disk.dir, temp) == Some(tx)
    ensures var (w', c) := CommitNewRun(e, w, temp);
            w'.disk.puts == w.disk.puts + if c.Created? || c.CreatedUnclean? then [Put(Some(tx), None)] else []
  {
    var (w1, io) := Attempt(e, w, Link(temp, Target));
    assert w1.disk.puts == w.disk.puts + if io.Done? then [Put(Some(tx), None)] else [];
    assert Attempt(e, w1, Discard(temp)).0.disk.puts == w1.disk.puts;
  }

  // The whole replacement, with the directory sync

  datatype Installation =
    | Installed
    | Unsynced                       // committed, but the directory sync raised
    | NotReplaced(cause: Cause)
    | NotCreated(creation: Creation)

  function PublishRun(e: Env, w: World, temp: Name, baseline: Option<Version>, tx: Version): (World, Installation) {
    match baseline
    case Some(b) =>
      var (w1, o) := CommitExistingRun(e, w, temp, b, tx);
      (w1, if o.Returned? then Installed else NotReplaced(o.cause))
    case None =>
      var (w1, c) := CommitNewRun(e, w, temp);
      (w1, if c.Created? then Installed else NotCreated(c))
  }

  function InstallRun(e: Env, w: World, temp: Name, baseline: Option<Version>, tx: Version): (World, Installation) {
    var (w1, i) := PublishRun(e, w, temp, baseline, tx);
    if !i.Installed? then (w1, i)
    else var (w2, synced) := Sync(e, w1); (w2, if synced then Installed else Unsynced)
  }

  method Install(f: Folder, temp: Name, baseline: Option<Version>, tx: Version) returns (i: Installation)
    modifies f
    ensures (f.View(), i) == InstallRun(f.env, old(f.View()), temp, baseline, tx)
  {
    if baseline.Some? {
      var o := CommitExisting(f, temp, baseline.value, tx);
      if !o.Returned? {
        return NotReplaced(o.cause);
      }
    } else {
      var c := CommitNew(f, temp);
      if !c.Created? {
        return NotCreated(c);
      }
    }
    var synced := f.Flush();
    return if synced then Installed else Unsynced;
  }

  /** The whole replacement or creation refines swap-or-preserve. */
  lemma InstallKeeps(e: Env, disk: Disk, temp: Name, baseline: Option<Version>, tx: Version)
    requires temp.Private? && Get(disk.dir, temp) == Some(tx)
    ensures Faithful(if baseline.Some? then Replacing(baseline.value, tx) else Creating(tx), disk,
                     InstallRun(e, World(disk, [], 0), temp, baseline, tx).0)
  {
    hide Faithful, CommitExistingRun, CommitNewRun;
    var t := if baseline.Some? then Replacing(baseline.value, tx) else Creating(tx);
    if baseline.Some? {
      CommitExistingKeeps(e, disk, temp, baseline.value, tx);
    } else {
      CommitNewKeeps(e, disk, temp, tx);
    }
    InterfereKeeps(t, disk, e, PublishRun(e, World(disk, [], 0), temp, baseline, tx).0);
  }

  /** The exchange, the audit and the cleanup from tick `t` on succeed over the baseline. */
  predicate Replaces(e: Env, t: nat, shown: Option<Version>, baseline: Version) {
    && e.fault(t).NoFault? && e.fault(t + 1).NoFault? && e.fault(t + 2).NoFault?
    && Turn(e, t, shown) == Some(baseline) && baseline.regular
  }

  /** The replacement stops with the transaction in place, or commits and cannot be synced;
      a creation links the transaction and cannot unlink its private name or be synced. */
  predicate LeftInstalled(e: Env, t: nat, shown: Option<Version>, baseline: Option<Version>, tx: Version) {
    match baseline
    case Some(b) =>
      LeftInPlace(e, t, shown, b, tx) || (Replaces(e, t, shown, b) && !e.fault(t + 3).NoFault?)
    case None =>
      && e.fault(t).NoFault? && Turn(e, t, shown).None?
      && (!e.fault(t + 1).NoFault? || !e.fault(t + 2).NoFault?)
  }

  lemma {:induction false} ReturnedIff(e: Env, w: World, temp: Name, baseline: Version, tx: Version)
    requires temp.Private? && Get(w.disk.dir, temp) == Some(tx)
    ensures var (w', o) := CommitExistingRun(e, w, temp, baseline, tx);
            && (o.Returned? <==> Replaces(e, w.tick, Get(w.disk.dir, Target), baseline))
            && (o.Returned? ==> w'.tick == w.tick + 3)
  {
    ExchangeFacts(e, w, temp, tx);
    var (w1, io) := Attempt(e, w, Exchange(temp, Target));
    if io.Done? {
      TurnTaken(e, w1);
      var (w2, displaced) := SnapshotRun(e, w1, temp);
      assert Get(w2.disk.dir, temp) == Get(w1.disk.dir, temp);
      if displaced == Some(Some(baseline)) {
        assert Attempt(e, w2, Discard(temp)).1.Done? <==> e.fault(w2.tick).NoFault?;
      } else {
        RecoverSettles(e, w2, temp, baseline, tx);
      }
    }
    hide Attempt, RecoverRun;
  }

  lemma {:induction false} CreatedIff(e: Env, w: World, temp: Name, tx: Version)
    requires temp.Private? && Get(w.disk.dir, temp) == Some(tx)
    ensures var (w', c) := CommitNewRun(e, w, temp);
            && (c.Created? || c.CreatedUnclean? <==>
                e.fault(w.tick).NoFault? && Turn(e, w.tick, Get(w.disk.dir, Target)).None?)
            && (c.CreatedUnclean? ==> !e.fault(w.tick + 1).NoFault?)
            && (c.Created? ==> e.fault(w.tick + 1).NoFault? && w'.tick == w.tick + 2)
  {
    TurnTaken(e, w);
    LinkLeaves(e, w, temp);
  }

  /** The exact condition for the whole operation: it raises with the transaction as the
      only change it made to the target if and only if it is `LeftInstalled`. */
  lemma {:induction false} InstallLeftIff(e: Env, w: World, temp: Name, baseline: Option<Version>, tx: Version)
    requires temp.Private? && Get(w.disk.dir, temp) == Some(tx)
    ensures var (w', i) := InstallRun(e, w, temp, baseline, tx);
            && w.disk.puts <= w'.disk.puts
            && (!i.Installed? && |w'.disk.puts| == |w.disk.puts| + 1 <==>
                LeftInstalled(e, w.tick, Get(w.disk.dir, Target), baseline, tx))
  {
    hide CommitExistingRun, CommitNewRun, LeftInPlace, Replaces;
    match baseline
    case Some(b) =>
      CommitExistingLeftIff(e, w, temp, b, tx);
      CommitExistingHonest(e, w, temp, b, tx);
      ReturnedIff(e, w, temp, b, tx);
      var (w1, o) := CommitExistingRun(e, w, temp, b, tx);
      assert Interfere(e, w1).disk.puts == w1.disk.puts;
      assert o.Returned? ==> |w1.disk.puts[|w.disk.puts|..]| == 1;
    case None =>
      CommitNewHonest(e, w, temp, tx);
      CreatedIff(e, w, temp, tx);
  }

  /** Nothing fails but the directory sync. */
  lemma UnsyncedExample()
    ensures var (e, w) := Example(8, _ => None, i => if i == 3 then OsFault else NoFault);
            var (w', i) := InstallRun(e, w, Private(0), Some(Theirs(8)), Theirs(7));
            i == Unsynced && Get(w'.disk.dir, Target) == Some(Theirs(7))
  {
    var (e, w) := Example(8, _ => None, i => if i == 3 then OsFault else NoFault);
    var (w1, io) := Attempt(e, w, Exchange(Private(0), Target));
    assert io.Done? && w1.tick == 1 && w1.disk.dir == map[Private(0) := Theirs(8), Target := Theirs(7)];
    var w2 := SnapshotRun(e, w1, Private(0)).0;
    assert w2.tick == 2 && w2.disk == w1.disk;
    var (w3, gone) := Attempt(e, w2, Discard(Private(0)));
    assert gone.Done? && w3.tick == 3 && w3.disk.dir == map[Target := Theirs(7)];
  }

  // Deletion

  datatype Deletion =
    | Deleted
    | DeletedUnsynced              // deleted, but the directory sync raised
    | NotMoved                     // the target was not touched
    | Unlinked(at: Name)           // the final unlink raised; the expected version is in quarantine
    | Restored                     // put back under the target
    | Preserved(at: Name)          // kept under a private name

  function RestoreQuarantineRun(e: Env, w: World, quarantine: Name): (World, Deletion) {
    var (w1, io) := Attempt(e, w, Move(quarantine, Target));
    if io.Done? then (w1, Restored)
    else if io.Exists? then
      var (w2, at) := PreserveRun(e, w1, quarantine);
      (w2, Preserved(at))
    else (w1, Preserved(quarantine))
  }

  function DeleteRun(e: Env, w: World, quarantine: Name, expected: Version): (World, Deletion) {
    var (w1, io) := Attempt(e, w, Move(Target, quarantine));
    if !io.Done? then (w1, NotMoved)
    else
      var (w2, displaced) := SnapshotRun(e, w1, quarantine);
      if displaced != Some(Some(expected)) then RestoreQuarantineRun(e, w2, quarantine)
      else
        var (w3, gone) := Attempt(e, w2, Discard(quarantine));
        if !gone.Done? then (w3, Unlinked(quarantine))
        else var (w4, synced) := Sync(e, w3); (w4, if synced then Deleted else DeletedUnsynced)
  }

  method RestoreQuarantine(f: Folder, quarantine: Name) returns (d: Deletion)
    modifies f
    ensures (f.View(), d) == RestoreQuarantineRun(f.env, old(f.View()), quarantine)
  {
    var io := f.Try(Move(quarantine, Target));
    if io.Done? {
      return Restored;
    }
    if !io.Exists? {
      return Preserved(quarantine);
    }
    var at := PreserveRecovery(f, quarantine);
    return Preserved(at);
  }

  method Delete(f: Folder, quarantine: Name, expected: Version) returns (d: Deletion)
    modifies f
    ensures (f.View(), d) == DeleteRun(f.env, old(f.View()), quarantine, expected)
  {
    var io := f.Try(Move(Target, quarantine));
    if !io.Done? {
      return NotMoved;
    }
    var displaced := Snapshot(f, quarantine);
    if displaced != Some(Some(expected)) {
      d := RestoreQuarantine(f, quarantine);
      return;
    }
    io := f.Try(Discard(quarantine));
    if !io.Done? {
      return Unlinked(quarantine);
    }
    var synced := f.Flush();
    return if synced then Deleted else DeletedUnsynced;
  }

  ghost function Deleting(expected: Version): Terms {
    Terms(v => v == expected, _ => false, true)
  }

  /** Deletion refines swap-or-preserve: only the expected version is destroyed. */
  lemma DeleteKeeps(e: Env, disk: Disk, quarantine: Name, expected: Version)
    requires quarantine.Private?
    ensures Faithful(Deleting(expected), disk, DeleteRun(e, World(disk, [], 0), quarantine, expected).0)
  {
    hide Faithful, Attempt, RestoreQuarantineRun;
    var t, w := Deleting(expected), World(disk, [], 0);
    StartFaithful(t, disk);
    MoveKeeps(t, disk, e, w, Move(Target, quarantine));
    var (w1, io) := Attempt(e, w, Move(Target, quarantine));
    if io.Done? {
      InterfereKeeps(t, disk, e, w1);
      var (w2, displaced) := SnapshotRun(e, w1, quarantine);
      if displaced == Some(Some(expected)) {
        DropKeeps(t, disk, e, w2, quarantine, expected);
        InterfereKeeps(t, disk, e, Attempt(e, w2, Discard(quarantine)).0);
      } else {
        RestoreQuarantineKeeps(t, disk, e, w2, quarantine);
      }
    }
  }

  lemma RestoreQuarantineKeeps(t: Terms, start: Disk, e: Env, w: World, quarantine: Name)
    requires Faithful(t, start, w)
    ensures Faithful(t, start, RestoreQuarantineRun(e, w, quarantine).0)
  {
    hide Faithful, Attempt;
    MoveKeeps(t, start, e, w, Move(quarantine, Target));
    var w1 := Attempt(e, w, Move(quarantine, Target)).0;
    MoveKeeps(t, start, e, w1, Move(quarantine, Fresh(e, w1)));
  }

  lemma RestoreQuarantineHonest(e: Env, w: World, quarantine: Name)
    requires quarantine.Private? && quarantine in w.disk.dir
    ensures var (w', d) := RestoreQuarantineRun(e, w, quarantine);
            var x := w.disk.dir[quarantine];
            match d
            case Restored => w'.disk.puts == w.disk.puts + [Put(Some(x), None)]
            case Preserved(at) => w'.disk.puts == w.disk.puts && Get(w'.disk.dir, at) == Some(x)
            case _ => false
  {
    var (w1, io) := Attempt(e, w, Move(quarantine, Target));
    if io.Exists? {
      PreserveHolds(e, w1, quarantine);
    }
  }

  /** Honest deletion: it succeeds only over the expected version; otherwise what
      was taken is back under the target or where the outcome says it is. */
  lemma {:induction false} DeleteHonest(e: Env, w: World, quarantine: Name, expected: Version)
    requires quarantine.Private?
    ensures var (w', d) := DeleteRun(e, w, quarantine, expected);
            && w.disk.puts <= w'.disk.puts
            && var puts := w'.disk.puts[|w.disk.puts|..];
               match d
               case NotMoved => puts == []
               case Deleted => puts == [Put(None, Some(expected))]
               case DeletedUnsynced => puts == [Put(None, Some(expected))]
               case Unlinked(at) => puts == [Put(None, Some(expected))] && Get(w'.disk.dir, at) == Some(expected)
               case Restored =>
                 && |puts| == 2 && puts[0].installed.None? && puts[0].displaced.Some?
                 && puts[1] == Put(puts[0].displaced, None)
               case Preserved(at) =>
                 && |puts| == 1 && puts[0].installed.None? && puts[0].displaced.Some?
                 && Get(w'.disk.dir, at) == puts[0].displaced
  {
    var (w1, io) := Attempt(e, w, Move(Target, quarantine));
    if io.Done? {
      var x := w1.disk.dir[quarantine];
      assert w1.disk.puts == w.disk.puts + [Put(None, Some(x))];
      var (w2, displaced) := SnapshotRun(e, w1, quarantine);
      assert w2.disk.puts == w1.disk.puts && Get(w2.disk.dir, quarantine) == Some(x);
      if displaced == Some(Some(expected)) {
        var (w3, gone) := Attempt(e, w2, Discard(quarantine));
        assert Sync(e, w3).0.disk.puts == w2.disk.puts;
        assert w3.disk.puts == w2.disk.puts && (gone.Done? || Get(w3.disk.dir, quarantine) == Some(x));
      } else {
        RestoreQuarantineHonest(e, w2, quarantine);
      }
    } else {
      assert w1.disk.puts == w.disk.puts;
    }
  }
}
