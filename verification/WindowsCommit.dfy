/** The Windows commits over `ReplaceFileW`: the workspace commit with partial
    replacement in either direction (`windows_atomic_commit.py`,
    `windows_workspace_write.py`) and the Codex compare-and-swap with second-race
    recovery (`adapters/codex/atomic_commit.py`). */
module WindowsCommit {
  import opened Files
  import opened Wrappers
  import opened SwapOrPreserve

  /** `same_version`: an unknown inode on either side is not held against it. */
  predicate Same(v: Version, id: Identity) {
    && (v.inode == 0 || id.inode == 0 || (v.device == id.device && v.inode == id.inode))
    && v.mode == id.mode && v.size == id.size && v.modified == id.modified && id.digest == Some(v.digest)
  }

  /** What that says of the fields of a file. */
  ghost predicate Matches(v: Version, id: Identity) {
    && (v.inode > 0 && id.inode > 0 ==> (v.device, v.inode) == (id.device, id.inode))
    && (v.mode, v.size, v.modified, Some(v.digest)) == (id.mode, id.size, id.modified, id.digest)
  }

  /** Rename by handle; the close after it can fail once the rename is done. */
  function MoveRun(e: Env, w: World, from: Name, to: Name): (World, Io) {
    var (w1, io) := Attempt(e, w, Move(from, to));
    if io != Failed(Partial) then (w1, io)
    else if Legal(w1.disk.dir, Move(from, to)) then (Do(w1, Move(from, to)), io)
    else (w1, Refusal(w1.disk.dir, Move(from, to)))
  }

  /** Deletion by handle: likewise, the mark can be set and the close still fail. */
  function RemoveRun(e: Env, w: World, n: Name): (World, Io) {
    var (w1, io) := Attempt(e, w, Discard(n));
    if io == Failed(Partial) && Legal(w1.disk.dir, Discard(n)) then (Do(w1, Discard(n)), io) else (w1, io)
  }

  datatype Replacement =
    | Replaced | Raised
    | Unresolved         // the parent path could not be resolved before the call
    | RollbackUnsure     // RollbackCompletedWarning
    | CommittedUnsure    // MutationCommittedWarning

  /** `_recover_partial`, after error 1177 moved the target to the backup. */
  function PartialRun(e: Env, w: World, source: Name, backup: Name, rollback: bool): (World, Replacement) {
    var (w1, io) := MoveRun(e, w, if rollback then source else backup, Target);
    (w1, if !rollback then Raised else if io.Done? then Replaced else RollbackUnsure)
  }

  function ReplaceRun(e: Env, w: World, source: Name, backup: Name, rollback: bool): (World, Replacement) {
    var (w1, resolved) := Sync(e, w);
    if !resolved then (w1, Unresolved)
    else
      var (w2, io) := Attempt(e, w1, Replace(source, backup));
      if io == Failed(Partial) && Legal(w2.disk.dir, Replace(source, backup)) then
        PartialRun(e, Do(w2, Move(Target, backup)), source, backup, rollback)
      else if !io.Done? then (w2, if rollback then CommittedUnsure else Raised)
      else
        var (w3, steady) := Sync(e, w2);
        (w3, if steady then Replaced else if rollback then RollbackUnsure else CommittedUnsure)
  }

  datatype Removal = Removed | Kept | OsRaised | InputRaised

  /** `_discard_if_version`: content the bounded reader refuses raises an input error. */
  function DiscardRun(e: Env, w: World, n: Name, id: Identity): (World, Removal) {
    var (w1, r) := Inspect(e, w, n);
    match r
    case Missing => (w1, Kept)
    case Unreadable(f) => (w1, if f.Rejected? then InputRaised else OsRaised)
    case Saw(v) =>
      if !v.regular then (w1, InputRaised)
      else if !Same(v, id) then (w1, Kept)
      else
        var (w2, io) := RemoveRun(e, w1, n);
        (w2, if io.Done? then Removed else OsRaised)
  }

  datatype Cause =
    | TargetAppeared | PublishRaised | ReplaceRaised
    | DisplacedRejected     // the displaced file could not be read as bounded content
    | RollbackUnresolved    // the parent path could not be resolved for the rollback
    | RolledBackUnsure | Conflict(removed: bool) | AuditFailed(removed: bool)

  datatype Outcome = Returned | Warned | Refused(cause: Cause)

  function RestoreRun(e: Env, w: World, displaced: Name, repl: Identity, conflict: bool): (World, Outcome) {
    var recovery := Fresh(e, w);
    var (w1, r) := ReplaceRun(e, w, displaced, recovery, true);
    match r
    case Unresolved => (w1, Refused(RollbackUnresolved))
    case RollbackUnsure => (w1, Refused(RolledBackUnsure))
    case CommittedUnsure => (w1, Warned)
    case _ =>
      var (w2, gone) := DiscardRun(e, w1, recovery, repl);
      (w2, Refused(if conflict then Conflict(gone.Removed?) else AuditFailed(gone.Removed?)))
  }

  function AuditRun(e: Env, w: World, displaced: Name, baseline: Identity, repl: Identity): (World, Outcome) {
    var (w1, gone) := DiscardRun(e, w, displaced, baseline);
    match gone
    case Removed => (w1, Returned)
    case InputRaised => (w1, Refused(DisplacedRejected))
    case OsRaised => RestoreRun(e, w1, displaced, repl, false)
    case Kept => RestoreRun(e, w1, displaced, repl, true)
  }

  function CommitRun(e: Env, w: World, temp: Name, baseline: Option<Identity>, repl: Identity): (World, Outcome) {
    match baseline
    case None =>
      var (w1, io) := MoveRun(e, w, temp, Target);
      (w1, if io.Done? then Returned else if io.Exists? then Refused(TargetAppeared)
           else if io == Failed(Partial) then Warned else Refused(PublishRaised))
    case Some(id) =>
      var displaced := Fresh(e, w);
      var (w1, r) := ReplaceRun(e, w, temp, displaced, false);
      if r.Replaced? then AuditRun(e, w1, displaced, id, repl)
      else (w1, if r.CommittedUnsure? then Warned else Refused(ReplaceRaised))
  }

  // The routines

  method PublishName(f: Folder, source: Name, target: Name) returns (io: Io)
    modifies f
    ensures (f.View(), io) == MoveRun(f.env, old(f.View()), source, target)
  {
    io := f.Try(Move(source, target));
    if io == Failed(Partial) {
      if Legal(f.disk.dir, Move(source, target)) {
        f.disk, f.log := Effect(f.disk, Move(source, target)), f.log + [Move(source, target)];
      } else {
        io := Refusal(f.disk.dir, Move(source, target));
      }
    }
  }

  method RemoveName(f: Folder, n: Name) returns (io: Io)
    modifies f
    ensures (f.View(), io) == RemoveRun(f.env, old(f.View()), n)
  {
    io := f.Try(Discard(n));
    if io == Failed(Partial) && Legal(f.disk.dir, Discard(n)) {
      f.disk, f.log := Effect(f.disk, Discard(n)), f.log + [Discard(n)];
    }
  }

  method ReplaceWithBackup(f: Folder, source: Name, backup: Name, rollback: bool) returns (r: Replacement)
    modifies f
    ensures (f.View(), r) == ReplaceRun(f.env, old(f.View()), source, backup, rollback)
  {
    var resolved := f.Flush();
    if !resolved {
      return Unresolved;
    }
    var io := f.Try(Replace(source, backup));
    if io == Failed(Partial) && Legal(f.disk.dir, Replace(source, backup)) {
      f.disk, f.log := Effect(f.disk, Move(Target, backup)), f.log + [Move(Target, backup)];
      var back := PublishName(f, if rollback then source else backup, Target);
      return if !rollback then Raised else if back.Done? then Replaced else RollbackUnsure;
    }
    if !io.Done? {
      return if rollback then CommittedUnsure else Raised;
    }
    var steady := f.Flush();
    return if steady then Replaced else if rollback then RollbackUnsure else CommittedUnsure;
  }

  method DiscardIfVersion(f: Folder, n: Name, id: Identity) returns (gone: Removal)
    modifies f
    ensures (f.View(), gone) == DiscardRun(f.env, old(f.View()), n, id)
  {
    var r := f.Read(n);
    if r.Missing? {
      return Kept;
    }
    if r.Unreadable? {
      return if r.fault.Rejected? then InputRaised else OsRaised;
    }
    if !r.version.regular {
      return InputRaised;
    }
    if !Same(r.version, id) {
      return Kept;
    }
    var io := RemoveName(f, n);
    return if io.Done? then Removed else OsRaised;
  }

  method Restore(f: Folder, displaced: Name, repl: Identity, conflict: bool) returns (o: Outcome)
    modifies f
    ensures (f.View(), o) == RestoreRun(f.env, old(f.View()), displaced, repl, conflict)
  {
    var recovery := f.FreshName();
    var r := ReplaceWithBackup(f, displaced, recovery, true);
    if r.Unresolved? {
      return Refused(RollbackUnresolved);
    }
    if r.RollbackUnsure? {
      return Refused(RolledBackUnsure);
    }
    if r.CommittedUnsure? {
      return Warned;
    }
    var gone := DiscardIfVersion(f, recovery, repl);
    return Refused(if conflict then Conflict(gone.Removed?) else AuditFailed(gone.Removed?));
  }

  method Commit(f: Folder, temp: Name, baseline: Option<Identity>, repl: Identity) returns (o: Outcome)
    modifies f
    ensures (f.View(), o) == CommitRun(f.env, old(f.View()), temp, baseline, repl)
  {
    if baseline.None? {
      var io := PublishName(f, temp, Target);
      return if io.Done? then Returned else if io.Exists? then Refused(TargetAppeared)
             else if io == Failed(Partial) then Warned else Refused(PublishRaised);
    }
    var displaced := f.FreshName();
    var r := ReplaceWithBackup(f, temp, displaced, false);
    if !r.Replaced? {
      return if r.CommittedUnsure? then Warned else Refused(ReplaceRaised);
    }
    var gone := DiscardIfVersion(f, displaced, baseline.value);
    match gone
    case Removed => o := Returned;
    case InputRaised => o := Refused(DisplacedRejected);
    case OsRaised => o := Restore(f, displaced, repl, false);
    case Kept => o := Restore(f, displaced, repl, true);
  }

  // Safety

  lemma MoveRunKeeps(t: Terms, start: Disk, e: Env, w: World, from: Name, to: Name)
    requires Faithful(t, start, w)
    ensures Faithful(t, start, MoveRun(e, w, from, to).0)
  {
    hide Faithful;
    MoveKeeps(t, start, e, w, Move(from, to));
    var w1 := Attempt(e, w, Move(from, to)).0;
    if Legal(w1.disk.dir, Move(from, to)) {
      DoKeeps(t, start, w1, Move(from, to));
    }
  }

  lemma RemoveRunKeeps(t: Terms, start: Disk, e: Env, w: World, n: Name, v: Version)
    requires Faithful(t, start, w) && n.Private? && Get(w.disk.dir, n) == Some(v)
    requires t.ours(v) || (t.baseline(v) && Published(t, w.disk))
    ensures Faithful(t, start, RemoveRun(e, w, n).0)
  {
    hide Faithful;
    DropKeeps(t, start, e, w, n, v);
    var (w1, io) := Attempt(e, w, Discard(n));
    if io == Failed(Partial) {
      assert w1.disk.puts == w.disk.puts && Get(w1.disk.dir, n) == Some(v);
      DoKeeps(t, start, w1, Discard(n));
    }
  }

  lemma ReplaceKeeps(t: Terms, start: Disk, e: Env, w: World, source: Name, backup: Name, rollback: bool)
    requires Faithful(t, start, w)
    ensures Faithful(t, start, ReplaceRun(e, w, source, backup, rollback).0)
  {
    hide Faithful, MoveRun, Attempt, Interfere;
    InterfereKeeps(t, start, e, w);
    var w1 := Sync(e, w).0;
    MoveKeeps(t, start, e, w1, Replace(source, backup));
    var (w2, io) := Attempt(e, w1, Replace(source, backup));
    if io == Failed(Partial) && Legal(w2.disk.dir, Replace(source, backup)) {
      DoKeeps(t, start, w2, Move(Target, backup));
      MoveRunKeeps(t, start, e, Do(w2, Move(Target, backup)), if rollback then source else backup, Target);
    } else {
      InterfereKeeps(t, start, e, w2);
    }
  }

  lemma DiscardKeeps(t: Terms, start: Disk, e: Env, w: World, n: Name, id: Identity)
    requires Faithful(t, start, w) && n.Private?
    requires forall v :: Matches(v, id) ==> t.ours(v) || (t.baseline(v) && Published(t, w.disk))
    ensures Faithful(t, start, DiscardRun(e, w, n, id).0)
  {
    hide Faithful, Published, RemoveRun;
    InterfereKeeps(t, start, e, w);
    var (w1, r) := Inspect(e, w, n);
    TurnTaken(e, w);
    PublishedSame(t, w.disk, w1.disk);
    if r.Saw? && r.version.regular && Matches(r.version, id) {
      RemoveRunKeeps(t, start, e, w1, n, r.version);
    }
  }

  lemma PublishedSame(t: Terms, k: Disk, l: Disk)
    requires k.puts == l.puts
    ensures Published(t, k) == Published(t, l)
  {
  }

  lemma {:induction false} RestoreKeeps(t: Terms, start: Disk, e: Env, w: World, displaced: Name, repl: Identity,
                                        conflict: bool)
    requires Faithful(t, start, w)
    requires forall v :: Matches(v, repl) ==> t.ours(v)
    ensures Faithful(t, start, RestoreRun(e, w, displaced, repl, conflict).0)
  {
    var recovery := Fresh(e, w);
    ReplaceKeeps(t, start, e, w, displaced, recovery, true);
    DiscardKeeps(t, start, e, ReplaceRun(e, w, displaced, recovery, true).0, recovery, repl);
  }

  ghost function Transaction(baseline: Option<Identity>, repl: Identity): Terms {
    Terms(v => baseline.Some? && Matches(v, baseline.value), v => Matches(v, repl), false)
  }

  /** A successful replacement installs the source and backs up what it displaced. */
  lemma {:induction false} ReplacedPuts(e: Env, w: World, source: Name, backup: Name)
    requires source.Private? && backup.Private? && source in w.disk.dir
    ensures var (w', r) := ReplaceRun(e, w, source, backup, false);
            match r
            case Replaced => BackedUp(w, w', source, backup)
            case CommittedUnsure => BackedUp(w, w', source, backup)
            case Unresolved => w'.disk.puts == w.disk.puts
            case RollbackUnsure => false
            case Raised => ReplaceUndone(w.disk.puts, w'.disk.puts)
  {
    var w1 := Sync(e, w).0;
    assert w1.disk.puts == w.disk.puts;
    var (w2, io) := Attempt(e, w1, Replace(source, backup));
    if io == Failed(Partial) && Legal(w2.disk.dir, Replace(source, backup)) {
      var w3 := Do(w2, Move(Target, backup));
      assert w3.disk.puts == w.disk.puts + [Put(None, Get(w3.disk.dir, backup))];
      MovePuts(e, w3, backup);
    }
  }

  ghost predicate BackedUp(w: World, w': World, source: Name, backup: Name) {
    && source in w.disk.dir && backup in w'.disk.dir
    && w'.disk.puts == w.disk.puts + [Put(Some(w.disk.dir[source]), Some(w'.disk.dir[backup]))]
  }

  /** A failed replacement did nothing, or took the target away, and then put
      the same version back or left it under the backup name. */
  ghost predicate ReplaceUndone(before: seq<Put>, after: seq<Put>) {
    || after == before
    || (exists x :: after == before + [Put(None, Some(x))])
    || (exists x :: after == before + [Put(None, Some(x)), Put(Some(x), None)])
  }

  lemma MovePuts(e: Env, w: World, from: Name)
    requires from.Private? && from in w.disk.dir
    ensures var (w', io) := MoveRun(e, w, from, Target);
            if io.Done? || io == Failed(Partial) then w'.disk.puts == w.disk.puts + [Put(Some(w.disk.dir[from]), None)]
            else w'.disk.puts == w.disk.puts && Get(w'.disk.dir, from) == Get(w.disk.dir, from)
  {
  }

  lemma {:induction false} AuditKeeps(t: Terms, start: Disk, e: Env, w: World, displaced: Name, baseline: Identity,
                                      repl: Identity)
    requires Faithful(t, start, w) && displaced.Private? && Published(t, w.disk)
    requires forall v :: (Matches(v, baseline) ==> t.baseline(v)) && (Matches(v, repl) ==> t.ours(v))
    ensures Faithful(t, start, AuditRun(e, w, displaced, baseline, repl).0)
  {
    DiscardKeeps(t, start, e, w, displaced, baseline);
    var (w1, gone) := DiscardRun(e, w, displaced, baseline);
    if gone.Kept? || gone.OsRaised? {
      RestoreKeeps(t, start, e, w1, displaced, repl, gone.Kept?);
    }
  }

  /** The commit refines swap-or-preserve, partial replacements included. */
  lemma {:induction false} CommitKeeps(e: Env, disk: Disk, temp: Name, baseline: Option<Identity>, repl: Identity)
    requires temp.Private? && temp in disk.dir && Matches(disk.dir[temp], repl)
    ensures Faithful(Transaction(baseline, repl), disk, CommitRun(e, World(disk, [], 0), temp, baseline, repl).0)
  {
    var t, w := Transaction(baseline, repl), World(disk, [], 0);
    match baseline
    case None => MoveRunKeeps(t, disk, e, w, temp, Target);
    case Some(id) =>
      var displaced := Fresh(e, w);
      ReplaceKeeps(t, disk, e, w, temp, displaced, false);
      ReplacedPuts(e, w, temp, displaced);
      var (w1, r) := ReplaceRun(e, w, temp, displaced, false);
      if r.Replaced? {
        assert w1.disk.puts[|disk.puts|].installed == Some(disk.dir[temp]);
        AuditKeeps(t, disk, e, w1, displaced, id, repl);
      }
  }

  /** No version is lost by the workspace commit, at any moment of it. */
  lemma {:induction false} CommitLosesNothing(e: Env, disk: Disk, temp: Name, baseline: Option<Identity>,
                                              repl: Identity, j: nat, k: nat, v: Version)
    requires temp.Private? && temp in disk.dir && Matches(disk.dir[temp], repl)
    requires var log := CommitRun(e, World(disk, [], 0), temp, baseline, repl).0.log;
             j <= k <= |log| && v in Replay(disk, log[..j]).dir.Values
    ensures var log := CommitRun(e, World(disk, [], 0), temp, baseline, repl).0.log;
            Accounted(Transaction(baseline, repl), disk, log, j, k, v)
  {
    CommitKeeps(e, disk, temp, baseline, repl);
    var log := CommitRun(e, World(disk, [], 0), temp, baseline, repl).0.log;
    NoLostVersion(Transaction(baseline, repl), disk, log, j, k, v);
  }

  // Honest outcomes

  /** Only a matching version goes; an error may come after it went. */
  lemma DiscardPuts(e: Env, w: World, n: Name, id: Identity)
    requires n.Private?
    ensures var (w', gone) := DiscardRun(e, w, n, id);
            && w'.disk.puts == w.disk.puts
            && (gone.Removed? || n !in w'.disk.dir ==> n !in w.disk.dir || Matches(w.disk.dir[n], id))
            && (gone.Removed? ==> n in w.disk.dir)
            && (n in w'.disk.dir ==> Get(w'.disk.dir, n) == Get(w.disk.dir, n))
            && (gone.Kept? || gone.InputRaised? ==> Get(w'.disk.dir, n) == Get(w.disk.dir, n))
            && (gone.OsRaised? && n in w.disk.dir ==>
                  (n !in w'.disk.dir <==> e.fault(w.tick).NoFault? && e.fault(w.tick + 1).Partial?))
  {
    TurnTaken(e, w);
    TurnTaken(e, Inspect(e, w, n).0);
  }

  /** A rollback that ran took whatever the target showed away, and gave the
      displaced version back, at once, after a partial failure, or not at all
      when even that failed; it never installs anything else. */
  ghost predicate RolledBack(before: seq<Put>, after: seq<Put>, x: Version) {
    || (exists y :: after == before + [Put(Some(x), y)])
    || (exists y :: after == before + [Put(None, y)])
    || (exists y :: after == before + [Put(None, y), Put(Some(x), None)])
  }

  lemma {:induction false} RollbackPuts(e: Env, w: World, displaced: Name, recovery: Name)
    requires displaced.Private? && recovery.Private? && displaced in w.disk.dir
    ensures var (w', r) := ReplaceRun(e, w, displaced, recovery, true);
            var x := w.disk.dir[displaced];
            match r
            case Raised => false
            case Unresolved => w'.disk.puts == w.disk.puts && Get(w'.disk.dir, displaced) == Some(x)
            case CommittedUnsure => w'.disk.puts == w.disk.puts && Get(w'.disk.dir, displaced) == Some(x)
            case _ => RolledBack(w.disk.puts, w'.disk.puts, x)
  {
    var w1 := Sync(e, w).0;
    assert w1.disk.puts == w.disk.puts && Get(w1.disk.dir, displaced) == Get(w.disk.dir, displaced);
    var (w2, io) := Attempt(e, w1, Replace(displaced, recovery));
    if io == Failed(Partial) && Legal(w2.disk.dir, Replace(displaced, recovery)) {
      var w3 := Do(w2, Move(Target, recovery));
      assert w3.disk.puts == w.disk.puts + [Put(None, Get(w3.disk.dir, recovery))];
      assert Get(w3.disk.dir, displaced) == Get(w.disk.dir, displaced);
      MovePuts(e, w3, displaced);
    }
  }

  lemma {:induction false} RestoreOutcome(e: Env, w: World, displaced: Name, repl: Identity, conflict: bool)
    requires displaced.Private?
    ensures var (w', o) := RestoreRun(e, w, displaced, repl, conflict);
            match o
            case Returned => false
            case Warned => w'.disk.puts == w.disk.puts && Get(w'.disk.dir, displaced) == Get(w.disk.dir, displaced)
            case Refused(c) =>
              if c.RollbackUnresolved? then
                w'.disk.puts == w.disk.puts && Get(w'.disk.dir, displaced) == Get(w.disk.dir, displaced)
              else
                !c.DisplacedRejected? && displaced in w.disk.dir
                && RolledBack(w.disk.puts, w'.disk.puts, w.disk.dir[displaced])
  {
    var recovery := Fresh(e, w);
    if displaced in w.disk.dir {
      RollbackPuts(e, w, displaced, recovery);
    } else {
      NothingToRollBack(e, w, displaced, recovery);
    }
    DiscardPuts(e, ReplaceRun(e, w, displaced, recovery, true).0, recovery, repl);
    hide ReplaceRun, DiscardRun, RolledBack;
  }

  lemma NothingToRollBack(e: Env, w: World, displaced: Name, recovery: Name)
    requires displaced.Private? && displaced !in w.disk.dir
    ensures var (w', r) := ReplaceRun(e, w, displaced, recovery, true);
            && (r.Unresolved? || r.CommittedUnsure?)
            && w'.disk.puts == w.disk.puts && displaced !in w'.disk.dir
            && ((forall i :: e.rival(i).None?) ==> w'.disk == w.disk)
  {
    TurnTaken(e, w);
    TurnTaken(e, Sync(e, w).0);
  }

  /** Swapped once and for all. The displaced version is saved somewhere, unless it is
      exactly the baseline, was deleted, and only the close after that failed. */
  ghost predicate Standing(puts: seq<Put>, after: Directory, v: Version, baseline: Option<Identity>, partial: bool) {
    && |puts| == 1 && puts[0].installed == Some(v)
    && (puts[0].displaced.Some? ==>
          || (exists n: Name :: n.Private? && Get(after, n) == puts[0].displaced)
          || (partial && baseline.Some? && Matches(puts[0].displaced.value, baseline.value)))
  }

  ghost predicate Honest(before: seq<Put>, after: Disk, o: Outcome, v: Version, baseline: Option<Identity>,
                         partial: bool) {
    && before <= after.puts
    && var puts := after.puts[|before|..];
       match o
       case Returned =>
         && |puts| == 1 && puts[0].installed == Some(v)
         && (if baseline.None? then puts[0].displaced.None?
             else puts[0].displaced.Some? && Matches(puts[0].displaced.value, baseline.value))
       case Warned => Standing(puts, after.dir, v, baseline, partial)
       case Refused(c) =>
         if c.DisplacedRejected? || c.RollbackUnresolved? then Standing(puts, after.dir, v, baseline, partial)
         else
           || ReplaceUndone(before, after.puts)
           || (exists x :: RolledBack(before + [Put(Some(v), Some(x))], after.puts, x))
  }

  /** Honest outcomes on Windows. A warning means that the replacement is published. An
      exception leaves it published in exactly two cases (`CommitLeftIff`); in every other
      case the protocol's last action on the target was to take it away or to give the
      displaced version back. */
  lemma {:induction false} CommitHonest(e: Env, w: World, temp: Name, baseline: Option<Identity>, repl: Identity)
    requires temp.Private? && temp in w.disk.dir && Matches(w.disk.dir[temp], repl)
    ensures var (w', o) := CommitRun(e, w, temp, baseline, repl);
            Honest(w.disk.puts, w'.disk, o, w.disk.dir[temp], baseline, e.fault(w.tick + 4).Partial?)
  {
    hide ReplaceRun, AuditRun, MoveRun, Honest, BackedUp, ReplaceUndone;
    if baseline.None? {
      CreationHonest(e, w, temp, repl, e.fault(w.tick + 4).Partial?);
    } else {
      var displaced := Fresh(e, w);
      ReplacedPuts(e, w, temp, displaced);
      ReplaceTicks(e, w, temp, displaced);
      var (w1, r) := ReplaceRun(e, w, temp, displaced, false);
      if r.Replaced? {
        BackedUpIs(w, w1, temp, displaced);
        AuditHonest(e, w.disk.puts, w1, displaced, baseline.value, repl, w.disk.dir[temp]);
      } else {
        NotReplacedHonest(w, w1, r, temp, displaced, baseline, e.fault(w.tick + 4).Partial?);
      }
    }
  }

  lemma BackedUpIs(w: World, w': World, source: Name, backup: Name)
    requires BackedUp(w, w', source, backup)
    ensures source in w.disk.dir && backup in w'.disk.dir
    ensures w'.disk.puts == w.disk.puts + [Put(Some(w.disk.dir[source]), Some(w'.disk.dir[backup]))]
  {
  }

  lemma CreationHonest(e: Env, w: World, temp: Name, repl: Identity, partial: bool)
    requires temp.Private? && temp in w.disk.dir
    ensures var (w', o) := CommitRun(e, w, temp, None, repl);
            Honest(w.disk.puts, w'.disk, o, w.disk.dir[temp], None, partial)
  {
    MovePuts(e, w, temp);
    hide MoveRun;
  }

  lemma NotReplacedHonest(w: World, w': World, r: Replacement, temp: Name, displaced: Name, baseline: Option<Identity>,
                          partial: bool)
    requires temp in w.disk.dir && displaced.Private?
    requires match r
             case CommittedUnsure => BackedUp(w, w', temp, displaced)
             case Unresolved => w'.disk.puts == w.disk.puts
             case Raised => ReplaceUndone(w.disk.puts, w'.disk.puts)
             case _ => false
    ensures Honest(w.disk.puts, w'.disk, if r.CommittedUnsure? then Warned else Refused(ReplaceRaised),
                   w.disk.dir[temp], baseline, partial)
  {
    if r.CommittedUnsure? {
      assert Get(w'.disk.dir, displaced) == w'.disk.puts[|w.disk.puts|].displaced;
    }
  }

  lemma ReplaceTicks(e: Env, w: World, source: Name, backup: Name)
    ensures var (w', r) := ReplaceRun(e, w, source, backup, false);
            r.Replaced? ==> w'.tick == w.tick + 3
  {
  }

  lemma {:induction false} AuditHonest(e: Env, before: seq<Put>, w: World, displaced: Name, baseline: Identity,
                                       repl: Identity, v: Version)
    requires displaced.Private? && displaced in w.disk.dir
    requires w.disk.puts == before + [Put(Some(v), Some(w.disk.dir[displaced]))]
    ensures var (w', o) := AuditRun(e, w, displaced, baseline, repl);
            Honest(before, w'.disk, o, v, Some(baseline), e.fault(w.tick + 1).Partial?)
  {
    var x := w.disk.dir[displaced];
    DiscardPuts(e, w, displaced, baseline);
    var (w1, gone) := DiscardRun(e, w, displaced, baseline);
    hide DiscardRun, RestoreRun;
    if gone.Kept? || gone.OsRaised? {
      RestoreOutcome(e, w1, displaced, repl, gone.Kept?);
      var (w2, o) := RestoreRun(e, w1, displaced, repl, gone.Kept?);
      assert o.Refused? && !o.cause.RollbackUnresolved? ==>
          RolledBack(before + [Put(Some(v), Some(x))], w2.disk.puts, x);
      assert before <= w2.disk.puts;
      assert displaced in w1.disk.dir ==> Get(w1.disk.dir, displaced) == Some(x);
    }
  }

  // Which runs leave the replacement published

  /** The audit of the displaced file `x` from tick `t` on ends with the replacement in
      place: the bounded reader refuses the file, or a rollback is due (after a reading
      error, for another version, or after a failed removal) whose first step, resolving
      the parent path, fails. */
  ghost predicate AuditLeaves(e: Env, t: nat, x: Version, id: Identity) {
    if e.fault(t).Rejected? then true
    else if !e.fault(t).NoFault? then !e.fault(t + 1).NoFault?
    else if !x.regular then true
    else if !Matches(x, id) then !e.fault(t + 1).NoFault?
    else !e.fault(t + 1).NoFault? && !e.fault(t + 2).NoFault?
  }

  /** The replacement takes effect in full and the audit leaves it. */
  ghost predicate LeftInPlace(e: Env, t: nat, shown: Option<Version>, unused: bool, id: Identity) {
    var x := Turn(e, t + 1, Turn(e, t, shown));
    && e.fault(t).NoFault? && e.fault(t + 1).NoFault? && e.fault(t + 2).NoFault?
    && unused && x.Some? && AuditLeaves(e, t + 3, x.value, id)
  }

  lemma {:induction false} ReplaceCause(e: Env, w: World, temp: Name, backup: Name)
    requires temp.Private? && backup.Private? && temp in w.disk.dir
    ensures var (w', r) := ReplaceRun(e, w, temp, backup, false);
            var x := Turn(e, w.tick + 1, Turn(e, w.tick, Get(w.disk.dir, Target)));
            && (r.Replaced? <==>
                && e.fault(w.tick).NoFault? && e.fault(w.tick + 1).NoFault? && e.fault(w.tick + 2).NoFault?
                && backup !in w.disk.dir && x.Some?)
            && (r.Replaced? ==> Get(w'.disk.dir, backup) == x && w'.tick == w.tick + 3)
  {
    TurnTaken(e, w);
    var w1 := Sync(e, w).0;
    TurnTaken(e, w1);
    assert Get(Interfere(e, w1).disk.dir, backup) == Get(w.disk.dir, backup);
    assert Get(Interfere(e, w1).disk.dir, temp) == Get(w.disk.dir, temp);
    var (w2, io) := Attempt(e, w1, Replace(temp, backup));
    TurnTaken(e, w2);
    hide Interfere, PartialRun;
  }

  lemma RestoreCause(e: Env, w: World, displaced: Name, repl: Identity, conflict: bool)
    ensures var o := RestoreRun(e, w, displaced, repl, conflict).1;
            && (o == Refused(RollbackUnresolved) <==> !e.fault(w.tick).NoFault?)
            && o != Refused(DisplacedRejected)
  {
    hide DiscardRun, MoveRun;
  }

  lemma {:induction false} AuditCause(e: Env, w: World, displaced: Name, baseline: Identity, repl: Identity)
    requires displaced.Private? && displaced in w.disk.dir
    ensures var o := AuditRun(e, w, displaced, baseline, repl).1;
            o == Refused(DisplacedRejected) || o == Refused(RollbackUnresolved) <==>
            AuditLeaves(e, w.tick, w.disk.dir[displaced], baseline)
  {
    hide RestoreRun, RemoveRun, Interfere;
    TurnTaken(e, w);
    var w1 := Inspect(e, w, displaced).0;
    RemoveTicks(e, w1, displaced);
    var (w3, gone) := DiscardRun(e, w, displaced, baseline);
    RestoreCause(e, w3, displaced, repl, gone.Kept?);
  }

  lemma RemoveTicks(e: Env, w: World, n: Name)
    requires n.Private? && n in w.disk.dir
    ensures var (w', io) := RemoveRun(e, w, n);
            w'.tick == w.tick + 1 && (io.Done? <==> e.fault(w.tick).NoFault?)
  {
    TurnTaken(e, w);
  }

  /** The exact condition, over the oracle and what the target shows: the commit raises an
      ordinary exception with the replacement at the target if and only if it is
      `LeftInPlace`. */
  lemma {:induction false} CommitLeftIff(e: Env, w: World, temp: Name, baseline: Option<Identity>, repl: Identity)
    requires temp.Private? && temp in w.disk.dir && Matches(w.disk.dir[temp], repl)
    ensures var (w', o) := CommitRun(e, w, temp, baseline, repl);
            && w.disk.puts <= w'.disk.puts
            && var puts := w'.disk.puts[|w.disk.puts|..];
               o.Refused? && |puts| == 1 && puts[0].installed == Some(w.disk.dir[temp]) <==>
               baseline.Some?
               && LeftInPlace(e, w.tick, Get(w.disk.dir, Target), Fresh(e, w) !in w.disk.dir, baseline.value)
  {
    hide ReplaceRun, AuditRun, MoveRun, Turn, AuditLeaves, Honest;
    CommitHonest(e, w, temp, baseline, repl);
    var (w', o) := CommitRun(e, w, temp, baseline, repl);
    StandsIff(w.disk.puts, w'.disk, o, w.disk.dir[temp], baseline, e.fault(w.tick + 4).Partial?);
    if baseline.Some? {
      var displaced := Fresh(e, w);
      ReplaceCause(e, w, temp, displaced);
      var (w1, r) := ReplaceRun(e, w, temp, displaced, false);
      if r.Replaced? {
        AuditCause(e, w1, displaced, baseline.value, repl);
      }
    }
  }

  /** Read off the history of the target: the two causes are those that leave it. */
  lemma StandsIff(before: seq<Put>, after: Disk, o: Outcome, v: Version, baseline: Option<Identity>, partial: bool)
    requires Honest(before, after, o, v, baseline, partial)
    ensures before <= after.puts
    ensures o.Refused? ==>
              var puts := after.puts[|before|..];
              |puts| == 1 && puts[0].installed == Some(v) <==> o.cause.DisplacedRejected? || o.cause.RollbackUnresolved?
  {
    assert before + after.puts[|before|..] == after.puts;
  }

  /** The exact condition for the other broken promise. A warning, and the exception for an
      unresolved parent path, both say that the original is retained under the backup name.
      They are wrong if and only if the baseline was deleted and only the close after that
      failed; it is the warning only when the parent path could then be resolved. */
  lemma {:induction false} WarnedNameExact(e: Env, w: World, displaced: Name, baseline: Identity, repl: Identity)
    requires displaced.Private? && displaced in w.disk.dir
    ensures var x := w.disk.dir[displaced]; var (w', o) := AuditRun(e, w, displaced, baseline, repl);
            && ((o.Warned? || o == Refused(RollbackUnresolved)) && displaced !in w'.disk.dir <==>
                && e.fault(w.tick).NoFault? && x.regular && Matches(x, baseline) && e.fault(w.tick + 1).Partial?)
            && (displaced !in w'.disk.dir ==> (o.Warned? ==> e.fault(w.tick + 2).NoFault?))
  {
    DiscardPuts(e, w, displaced, baseline);
    DiscardTicks(e, w, displaced, baseline);
    var (w1, gone) := DiscardRun(e, w, displaced, baseline);
    if gone.Kept? || gone.OsRaised? {
      RestoreOutcome(e, w1, displaced, repl, gone.Kept?);
      RestoreCause(e, w1, displaced, repl, gone.Kept?);
      if displaced !in w1.disk.dir {
        NothingRestored(e, w1, displaced, repl, gone.Kept?);
      }
    }
    hide DiscardRun, RestoreRun;
  }

  lemma DiscardTicks(e: Env, w: World, n: Name, id: Identity)
    requires n.Private? && n in w.disk.dir
    ensures var (w', gone) := DiscardRun(e, w, n, id);
            var due := w.disk.dir[n].regular && Matches(w.disk.dir[n], id);
            && (n !in w'.disk.dir && gone.OsRaised? ==> w'.tick == w.tick + 2 && due)
            && (due && e.fault(w.tick).NoFault? && !e.fault(w.tick + 1).NoFault? ==>
                  gone.OsRaised? && w'.tick == w.tick + 2)
  {
    TurnTaken(e, w);
    TurnTaken(e, Inspect(e, w, n).0);
    hide Interfere;
  }

  lemma RestoreStill(e: Env, w: World, displaced: Name, repl: Identity)
    requires displaced.Private? && displaced !in w.disk.dir && forall i :: e.rival(i).None?
    ensures RestoreRun(e, w, displaced, repl, false).0.disk == w.disk
  {
    NothingToRollBack(e, w, displaced, Fresh(e, w));
    hide ReplaceRun, DiscardRun;
  }

  lemma NothingRestored(e: Env, w: World, displaced: Name, repl: Identity, conflict: bool)
    requires displaced.Private? && displaced !in w.disk.dir
    ensures RestoreRun(e, w, displaced, repl, conflict).1 ==
            if e.fault(w.tick).NoFault? then Warned else Refused(RollbackUnresolved)
  {
    TurnTaken(e, w);
    TurnTaken(e, Sync(e, w).0);
    hide Interfere;
  }

  ghost predicate Undisturbed(e: Env, d: Directory) {
    && (forall i :: e.rival(i).None? && e.fault(i).NoFault? && Private(e.token(i)) !in d)
    && (forall i, j :: i != j ==> e.token(i) != e.token(j))
  }

  /** With no rival, no failure and unused names, the commit over an existing
      regular file is exactly the sequential compare-and-swap. */
  lemma CommitUndisturbed(e: Env, w: World, temp: Name, baseline: Identity, repl: Identity)
    requires temp.Private? && temp in w.disk.dir && Matches(w.disk.dir[temp], repl) && w.disk.dir[temp].regular
    requires Target in w.disk.dir && w.disk.dir[Target].regular && Undisturbed(e, w.disk.dir)
    ensures var (w', o) := CommitRun(e, w, temp, Some(baseline), repl);
            var d := w.disk.dir;
            if Matches(d[Target], baseline) then o.Returned? && w'.disk.dir == (d - {temp})[Target := d[temp]]
            else o == Refused(Conflict(true)) && w'.disk.dir == d - {temp}
  {
    var d, displaced := w.disk.dir, Fresh(e, w);
    var (w1, r) := ReplaceRun(e, w, temp, displaced, false);
    assert r.Replaced? && w1.tick == w.tick + 3;
    assert w1.disk.dir == (d - {temp})[displaced := d[Target]][Target := d[temp]];
    var (w2, gone) := DiscardRun(e, w1, displaced, baseline);
    if gone.Kept? {
      var recovery := Fresh(e, w2);
      var (w3, back) := ReplaceRun(e, w2, displaced, recovery, true);
      assert back.Replaced? && w3.disk.dir == (d - {temp})[recovery := d[temp]];
      var (w4, cleaned) := DiscardRun(e, w3, recovery, repl);
      assert cleaned.Removed? && w4.disk.dir == d - {temp};
    } else {
      assert gone.Removed? && w2.disk.dir == (d - {temp})[Target := d[temp]];
    }
  }

  /** A start for the examples: the replacement is file 7 and the target shows `shown`. */
  function Example(shown: Version, fault: nat -> Fault): (Env, World) {
    (Env(_ => None, fault, i => i + 1, _ => false),
     World(Disk(map[Private(0) := Version(true, 0, 7, 420, 5, 0, 99), Target := shown], []), [], 0))
  }

  const OURS: Version := Version(true, 0, 7, 420, 5, 0, 99)
  const OURS_ID: Identity := Identity(0, 7, 420, 5, 0, Some(99))
  const BASE: Version := Version(true, 0, 6, 420, 5, 0, 98)
  const BASE_ID: Identity := Identity(0, 6, 420, 5, 0, Some(98))

  /** The replacement, up to the audit. */
  lemma {:induction false} ExampleReplaced(shown: Version, fault: nat -> Fault)
    requires forall i | 0 <= i < 3 :: fault(i).NoFault?
    ensures var (e, w) := Example(shown, fault); var (w1, r) := ReplaceRun(e, w, Private(0), Private(1), false);
            && Fresh(e, w) == Private(1) && r.Replaced? && w1.tick == 3
            && w1.disk.dir == map[Private(1) := shown, Target := OURS]
  {
    var (e, w) := Example(shown, fault);
    var w0 := Sync(e, w).0;
    var (w1, io) := Attempt(e, w0, Replace(Private(0), Private(1)));
    assert io.Done? && w1.disk.dir == map[Private(1) := shown, Target := OURS];
  }

  /** A rival's file is displaced, the bounded reader refuses it, and the caller sees an
      input error with the replacement published. */
  lemma {:induction false} DisplacedRejectedExample()
    ensures var theirs := Version(true, 0, 8, 420, 6000000, 0, 11);
            var (e, w) := Example(theirs, i => if i == 3 then Rejected else NoFault);
            var (w', o) := CommitRun(e, w, Private(0), Some(BASE_ID), OURS_ID);
            o == Refused(DisplacedRejected) && Get(w'.disk.dir, Target) == Some(OURS)
  {
    var fault := i => if i == 3 then Rejected else NoFault;
    ExampleReplaced(Version(true, 0, 8, 420, 6000000, 0, 11), fault);
    hide ReplaceRun;
  }

  /** A rival's file is displaced, and the parent path cannot be resolved for the rollback. */
  lemma {:induction false} RollbackUnresolvedExample()
    ensures var theirs := Version(true, 0, 8, 420, 5, 0, 11);
            var (e, w) := Example(theirs, i => if i == 4 then OsFault else NoFault);
            var (w', o) := CommitRun(e, w, Private(0), Some(BASE_ID), OURS_ID);
            o == Refused(RollbackUnresolved) && Get(w'.disk.dir, Target) == Some(OURS)
  {
    var theirs := Version(true, 0, 8, 420, 5, 0, 11);
    var fault := i => if i == 4 then OsFault else NoFault;
    ExampleReplaced(theirs, fault);
    var (e, w) := Example(theirs, fault);
    var w1 := ReplaceRun(e, w, Private(0), Private(1), false).0;
    var (w2, gone) := DiscardRun(e, w1, Private(1), BASE_ID);
    assert gone.Kept? && w2.tick == 4 && w2.disk.dir == w1.disk.dir;
  }

  /** The baseline is deleted, its handle does not close, the rollback has nothing to put
      back, and the warning says that the original is retained. */
  lemma {:induction false} MissingOriginalExample()
    ensures var (e, w) := Example(BASE, i => if i == 4 then Partial else NoFault);
            var (w', o) := CommitRun(e, w, Private(0), Some(BASE_ID), OURS_ID);
            o.Warned? && w'.disk.dir == map[Target := OURS]
  {
    var fault := i => if i == 4 then Partial else NoFault;
    ExampleReplaced(BASE, fault);
    var (e, w) := Example(BASE, fault);
    hide ReplaceRun, AuditRun;
    var w1 := ReplaceRun(e, w, Private(0), Private(1), false).0;
    MissingOriginal(e, w1);
  }

  lemma {:induction false} MissingOriginal(e: Env, w: World)
    requires (forall i :: e.rival(i).None?) && forall i :: e.fault(i) == if i == 4 then Partial else NoFault
    requires w.tick == 3 && w.disk.dir == map[Private(1) := BASE, Target := OURS]
    ensures var (w', o) := AuditRun(e, w, Private(1), BASE_ID, OURS_ID);
            o.Warned? && w'.disk.dir == map[Target := OURS]
  {
    var (w1, gone) := DiscardRun(e, w, Private(1), BASE_ID);
    assert gone.OsRaised? && w1.tick == 5 && w1.disk.dir == map[Target := OURS];
    hide DiscardRun, RestoreRun;
    NothingRestored(e, w1, Private(1), OURS_ID, false);
    RestoreStill(e, w1, Private(1), OURS_ID);
  }

  // The temporary name

  /** The step puts nothing under `n`. */
  predicate NeverInto(s: Step, n: Name) {
    match s
    case Create(m, _) => m != n
    case Fill(m, _) => m != n
    case Exchange(a, b) => a != n && b != n
    case Move(_, to) => to != n
    case Link(_, to) => to != n
    case Replace(_, backup) => backup != n
    case _ => true
  }

  ghost predicate Avoids(w: World, w': World, n: Name) {
    && w.log <= w'.log
    && forall i | |w.log| <= i < |w'.log| :: NeverInto(w'.log[i], n)
  }

  lemma {:induction false} OnlyOurs(start: Disk, log: seq<Step>, n: Name)
    requires n.Private? && forall i | 0 <= i < |log| :: NeverInto(log[i], n)
    ensures n in Replay(start, log).dir ==> n in start.dir && Replay(start, log).dir[n] == start.dir[n]
    decreases |log|
  {
    if log != [] {
      OnlyOurs(start, log[..|log| - 1], n);
    }
  }

  lemma PartialAvoids(e: Env, w: World, source: Name, backup: Name, rollback: bool, n: Name)
    requires n.Private?
    ensures Avoids(w, PartialRun(e, w, source, backup, rollback).0, n)
  {
  }

  lemma {:induction false} ReplaceAvoids(e: Env, w: World, source: Name, backup: Name, rollback: bool, n: Name)
    requires n.Private? && backup != n
    ensures Avoids(w, ReplaceRun(e, w, source, backup, rollback).0, n)
  {
    var w1 := Sync(e, w).0;
    assert Avoids(w, w1, n);
    var (w2, io) := Attempt(e, w1, Replace(source, backup));
    assert Avoids(w, w2, n);
    if io == Failed(Partial) && Legal(w2.disk.dir, Replace(source, backup)) {
      var w3 := Do(w2, Move(Target, backup));
      assert Avoids(w, w3, n);
      PartialAvoids(e, w3, source, backup, rollback, n);
    } else {
      assert Avoids(w2, Sync(e, w2).0, n);
    }
  }

  lemma DiscardAvoids(e: Env, w: World, m: Name, id: Identity, n: Name)
    requires n.Private?
    ensures Avoids(w, DiscardRun(e, w, m, id).0, n)
  {
  }

  lemma {:induction false} RestoreAvoids(e: Env, w: World, displaced: Name, repl: Identity, conflict: bool, n: Name)
    requires n.Private? && Fresh(e, w) != n
    ensures Avoids(w, RestoreRun(e, w, displaced, repl, conflict).0, n)
  {
    var recovery := Fresh(e, w);
    ReplaceAvoids(e, w, displaced, recovery, true, n);
    DiscardAvoids(e, ReplaceRun(e, w, displaced, recovery, true).0, recovery, repl, n);
  }

  lemma {:induction false} AuditAvoids(e: Env, w: World, displaced: Name, baseline: Identity, repl: Identity, n: Name)
    requires n.Private? && forall i :: Private(e.token(i)) != n
    ensures Avoids(w, AuditRun(e, w, displaced, baseline, repl).0, n)
  {
    DiscardAvoids(e, w, displaced, baseline, n);
    var (w1, gone) := DiscardRun(e, w, displaced, baseline);
    RestoreAvoids(e, w1, displaced, repl, gone.Kept?, n);
  }

  lemma {:induction false} CommitAvoids(e: Env, w: World, temp: Name, baseline: Option<Identity>, repl: Identity,
                                        n: Name)
    requires n.Private? && forall i :: Private(e.token(i)) != n
    ensures Avoids(w, CommitRun(e, w, temp, baseline, repl).0, n)
  {
    if baseline.Some? {
      var displaced := Fresh(e, w);
      ReplaceAvoids(e, w, temp, displaced, false, n);
      AuditAvoids(e, ReplaceRun(e, w, temp, displaced, false).0, displaced, baseline.value, repl, n);
    }
  }

  /** At every moment of a Windows commit the temporary name holds the
      replacement or nothing, so the parent may remove it without looking. */
  lemma {:induction false} TemporaryIsOurs(e: Env, disk: Disk, temp: Name, baseline: Option<Identity>, repl: Identity,
                                           k: nat)
    requires temp.Private? && forall i :: Private(e.token(i)) != temp
    requires k <= |CommitRun(e, World(disk, [], 0), temp, baseline, repl).0.log|
    ensures var d := Replay(disk, CommitRun(e, World(disk, [], 0), temp, baseline, repl).0.log[..k]).dir;
            temp in d ==> temp in disk.dir && d[temp] == disk.dir[temp]
  {
    CommitAvoids(e, World(disk, [], 0), temp, baseline, repl, temp);
    OnlyOurs(disk, CommitRun(e, World(disk, [], 0), temp, baseline, repl).0.log[..k], temp);
  }

  // The Codex compare-and-swap

  /** The identity tuple: device, inode, size, time and digest, but not the mode. */
  predicate SameTuple(v: Option<Version>, x: Version) {
    && v.Some? && v.value.device == x.device && v.value.inode == x.inode
    && v.value.size == x.size && v.value.modified == x.modified && v.value.digest == x.digest
  }

  ghost predicate Shows(v: Option<Version>, x: Version) {
    v.Some? && var y := v.value; (y.device, y.inode, y.size, y.modified, y.digest) ==
                                 (x.device, x.inode, x.size, x.modified, x.digest)
  }

  datatype Swap =
    | Swapped
    | SwapRaised         // an OSError, with no effect or stopped half-way
    | PathChanged        // the directory is no longer where it was: another kind of error

  /** The replacement: the path is checked, then swapped whole, not at all, or half-way. */
  function SwapRun(e: Env, w: World, source: Name, backup: Name): (World, Swap) {
    var (w1, steady) := Sync(e, w);
    if !steady then (w1, if e.fault(w.tick).Rejected? then PathChanged else SwapRaised)
    else
      var (w2, io) := Attempt(e, w1, Replace(source, backup));
      if io.Done? then (w2, Swapped)
      else if io == Failed(Partial) && Legal(w2.disk.dir, Replace(source, backup)) then
        (Do(w2, Move(Target, backup)), SwapRaised)
      else (w2, SwapRaised)
  }

  /** `_recover_failed_replace`, and whether it returned: its reads may raise. */
  function RecoverFailedRun(e: Env, w: World, backup: Name): (World, bool) {
    var (w1, shown) := SnapshotRun(e, w, Target);
    if shown.None? then (w1, false)
    else if shown.value.Some? then (w1, true)
    else
      var (w2, saved) := SnapshotRun(e, w1, backup);
      if saved.None? then (w2, false)
      else if saved.value.None? then (w2, true)
      else (MoveRun(e, w2, backup, Target).0, true)
  }

  /** `_preserve_name`: a rename that worked counts as failed when its handle does not close. */
  function PreserveNameRun(e: Env, w: World, source: Name): (World, Name) {
    var recovery := Fresh(e, w);
    var (w1, io) := MoveRun(e, w, source, recovery);
    (w1, if io.Done? then recovery else source)
  }

  datatype Verdict =
    | Committed
    | NotSwapped                       // the first replacement raised
    | AuditRaised                      // anything after the first replacement raised
    | Changed(kept: Option<Name>)      // a conflict, with newer content kept where stated

  function SwapBackRun(e: Env, w: World, backup: Name, tx: Version): (World, Verdict) {
    var recovery := Fresh(e, w);
    var (w1, swap) := SwapRun(e, w, backup, recovery);
    match swap
    case PathChanged => (w1, AuditRaised)
    case SwapRaised =>
      var (w2, returned) := RecoverFailedRun(e, w1, recovery);
      (w2, if returned then Changed(Some(backup)) else AuditRaised)
    case Swapped =>
      var (w2, again) := SnapshotRun(e, w1, recovery);
      if again.None? then (w2, AuditRaised)
      else if SameTuple(again.value, tx) then (RemoveRun(e, w2, recovery).0, Changed(None))
      else (w2, Changed(Some(recovery)))
  }

  function SecondRaceRun(e: Env, w: World, backup: Name, tx: Version): (World, Verdict) {
    var (w1, shown) := SnapshotRun(e, w, Target);
    if shown.None? then (w1, AuditRaised)
    else if SameTuple(shown.value, tx) then SwapBackRun(e, w1, backup, tx)
    else
      var (w2, kept) := PreserveNameRun(e, w1, backup);
      (w2, Changed(Some(kept)))
  }

  function CasAuditRun(e: Env, w: World, backup: Name, expected: Version, tx: Version): (World, Verdict) {
    var (w1, displaced) := SnapshotRun(e, w, backup);
    if displaced.None? then (w1, AuditRaised)
    else if SameTuple(displaced.value, expected) then (RemoveRun(e, w1, backup).0, Committed)
    else SecondRaceRun(e, w1, backup, tx)
  }

  function CasRun(e: Env, w: World, temp: Name, expected: Version, tx: Version): (World, Verdict) {
    var backup := Fresh(e, w);
    var (w1, swap) := SwapRun(e, w, temp, backup);
    match swap
    case Swapped => CasAuditRun(e, w1, backup, expected, tx)
    case SwapRaised => (RecoverFailedRun(e, w1, backup).0, NotSwapped)
    case PathChanged => (w1, NotSwapped)
  }

  method SwapNames(f: Folder, source: Name, backup: Name) returns (swap: Swap)
    modifies f
    ensures (f.View(), swap) == SwapRun(f.env, old(f.View()), source, backup)
  {
    var fault := f.env.fault(f.tick);
    var steady := f.Flush();
    if !steady {
      return if fault.Rejected? then PathChanged else SwapRaised;
    }
    var io := f.Try(Replace(source, backup));
    if io == Failed(Partial) && Legal(f.disk.dir, Replace(source, backup)) {
      f.disk, f.log := Effect(f.disk, Move(Target, backup)), f.log + [Move(Target, backup)];
    }
    return if io.Done? then Swapped else SwapRaised;
  }

  method RecoverFailedReplace(f: Folder, backup: Name) returns (returned: bool)
    modifies f
    ensures (f.View(), returned) == RecoverFailedRun(f.env, old(f.View()), backup)
  {
    var shown := Snapshot(f, Target);
    if shown.None? || shown.value.Some? {
      return shown.Some?;
    }
    var saved := Snapshot(f, backup);
    if saved.None? || saved.value.None? {
      return saved.Some?;
    }
    var _ := PublishName(f, backup, Target);
    return true;
  }

  method PreserveName(f: Folder, source: Name) returns (at: Name)
    modifies f
    ensures (f.View(), at) == PreserveNameRun(f.env, old(f.View()), source)
  {
    var recovery := f.FreshName();
    var io := PublishName(f, source, recovery);
    at := if io.Done? then recovery else source;
  }

  /** The second replacement, which takes the transaction back. */
  method SwapBack(f: Folder, backup: Name, tx: Version) returns (verdict: Verdict)
    modifies f
    ensures (f.View(), verdict) == SwapBackRun(f.env, old(f.View()), backup, tx)
  {
    var recovery := f.FreshName();
    var swap := SwapNames(f, backup, recovery);
    if swap.PathChanged? {
      return AuditRaised;
    }
    if swap.SwapRaised? {
      var returned := RecoverFailedReplace(f, recovery);
      return if returned then Changed(Some(backup)) else AuditRaised;
    }
    var again := Snapshot(f, recovery);
    if again.None? {
      return AuditRaised;
    }
    if SameTuple(again.value, tx) {
      var _ := RemoveName(f, recovery);
      return Changed(None);
    }
    return Changed(Some(recovery));
  }

  method ReplaceCas(f: Folder, temp: Name, expected: Version, tx: Version) returns (verdict: Verdict)
    modifies f
    ensures (f.View(), verdict) == CasRun(f.env, old(f.View()), temp, expected, tx)
  {
    hide SwapRun, RecoverFailedRun, SwapBackRun, RemoveRun, PreserveNameRun;
    var backup := f.FreshName();
    var swap := SwapNames(f, temp, backup);
    if swap.PathChanged? {
      return NotSwapped;
    }
    if swap.SwapRaised? {
      var _ := RecoverFailedReplace(f, backup);
      return NotSwapped;
    }
    var displaced := Snapshot(f, backup);
    if displaced.None? {
      return AuditRaised;
    }
    if SameTuple(displaced.value, expected) {
      var _ := RemoveName(f, backup);
      return Committed;
    }
    var shown := Snapshot(f, Target);
    if shown.None? {
      return AuditRaised;
    }
    if !SameTuple(shown.value, tx) {
      var kept := PreserveName(f, backup);
      return Changed(Some(kept));
    }
    verdict := SwapBack(f, backup, tx);
  }

  ghost function Swapping(expected: Version, tx: Version): Terms {
    Terms(v => Shows(Some(v), expected), v => Shows(Some(v), tx), false)
  }

  lemma SwapKeeps(t: Terms, start: Disk, e: Env, w: World, source: Name, backup: Name)
    requires Faithful(t, start, w)
    ensures Faithful(t, start, SwapRun(e, w, source, backup).0)
  {
    hide Faithful, Attempt, Interfere;
    InterfereKeeps(t, start, e, w);
    var w1 := Sync(e, w).0;
    MoveKeeps(t, start, e, w1, Replace(source, backup));
    var w2 := Attempt(e, w1, Replace(source, backup)).0;
    if Legal(w2.disk.dir, Replace(source, backup)) {
      DoKeeps(t, start, w2, Move(Target, backup));
    }
  }

  lemma RecoverFailedKeeps(t: Terms, start: Disk, e: Env, w: World, backup: Name)
    requires Faithful(t, start, w)
    ensures Faithful(t, start, RecoverFailedRun(e, w, backup).0)
  {
    hide Faithful, MoveRun, Interfere;
    InterfereKeeps(t, start, e, w);
    var w1 := SnapshotRun(e, w, Target).0;
    InterfereKeeps(t, start, e, w1);
    MoveRunKeeps(t, start, e, SnapshotRun(e, w1, backup).0, backup, Target);
  }

  lemma {:induction false} SwapBackKeeps(t: Terms, start: Disk, e: Env, w: World, backup: Name, tx: Version)
    requires Faithful(t, start, w)
    requires forall v :: Shows(Some(v), tx) ==> t.ours(v)
    ensures Faithful(t, start, SwapBackRun(e, w, backup, tx).0)
  {
    hide Faithful, SwapRun, RecoverFailedRun, RemoveRun;
    var recovery := Fresh(e, w);
    SwapKeeps(t, start, e, w, backup, recovery);
    var w1 := SwapRun(e, w, backup, recovery).0;
    RecoverFailedKeeps(t, start, e, w1, recovery);
    InterfereKeeps(t, start, e, w1);
    var (w2, again) := SnapshotRun(e, w1, recovery);
    if again.Some? && Shows(again.value, tx) {
      RemoveRunKeeps(t, start, e, w2, recovery, again.value.value);
    }
  }

  lemma SecondRaceKeeps(t: Terms, start: Disk, e: Env, w: World, backup: Name, tx: Version)
    requires Faithful(t, start, w)
    requires forall v :: Shows(Some(v), tx) ==> t.ours(v)
    ensures Faithful(t, start, SecondRaceRun(e, w, backup, tx).0)
  {
    hide Faithful, SwapBackRun, MoveRun;
    InterfereKeeps(t, start, e, w);
    var w1 := SnapshotRun(e, w, Target).0;
    MoveRunKeeps(t, start, e, w1, backup, Fresh(e, w1));
    SwapBackKeeps(t, start, e, w1, backup, tx);
  }

  lemma {:induction false} CasAuditKeeps(t: Terms, start: Disk, e: Env, w: World, backup: Name, expected: Version,
                                         tx: Version)
    requires Faithful(t, start, w) && backup.Private? && Published(t, w.disk)
    requires forall v :: (Shows(Some(v), tx) ==> t.ours(v)) && (Shows(Some(v), expected) ==> t.baseline(v))
    ensures Faithful(t, start, CasAuditRun(e, w, backup, expected, tx).0)
  {
    hide Faithful, SecondRaceRun, RemoveRun, Published;
    InterfereKeeps(t, start, e, w);
    var (w1, displaced) := SnapshotRun(e, w, backup);
    TurnTaken(e, w);
    PublishedSame(t, w.disk, w1.disk);
    if displaced.Some? && Shows(displaced.value, expected) {
      RemoveRunKeeps(t, start, e, w1, backup, displaced.value.value);
    } else {
      SecondRaceKeeps(t, start, e, w1, backup, tx);
    }
  }

  /** What a replacement does to the target and to the two names. */
  lemma {:induction false} SwapPuts(e: Env, w: World, source: Name, backup: Name)
    requires source.Private? && backup.Private? && source in w.disk.dir
    ensures var (w', swap) := SwapRun(e, w, source, backup);
            match swap
            case Swapped => BackedUp(w, w', source, backup)
            case PathChanged => w'.disk.puts == w.disk.puts && Get(w'.disk.dir, source) == Get(w.disk.dir, source)
            case SwapRaised =>
              && Get(w'.disk.dir, source) == Get(w.disk.dir, source)
              && (|| (w'.disk.puts == w.disk.puts && Get(w'.disk.dir, backup) == Get(w.disk.dir, backup))
                  || (&& backup !in w.disk.dir && backup in w'.disk.dir
                      && w'.disk.puts == w.disk.puts + [Put(None, Get(w'.disk.dir, backup))]))
  {
    TurnTaken(e, w);
    var w1 := Sync(e, w).0;
    TurnTaken(e, w1);
    hide Interfere;
  }

  /** The compare-and-swap refines swap-or-preserve, second race included. */
  lemma {:induction false} CasKeeps(e: Env, disk: Disk, temp: Name, expected: Version, tx: Version)
    requires temp.Private? && temp in disk.dir && Shows(Get(disk.dir, temp), tx)
    ensures Faithful(Swapping(expected, tx), disk, CasRun(e, World(disk, [], 0), temp, expected, tx).0)
  {
    hide Faithful, SwapRun, RecoverFailedRun, CasAuditRun;
    var t, w := Swapping(expected, tx), World(disk, [], 0);
    StartFaithful(t, disk);
    var backup := Fresh(e, w);
    SwapKeeps(t, disk, e, w, temp, backup);
    SwapPuts(e, w, temp, backup);
    var (w1, swap) := SwapRun(e, w, temp, backup);
    RecoverFailedKeeps(t, disk, e, w1, backup);
    if swap.Swapped? {
      assert Published(t, w1.disk);
      CasAuditKeeps(t, disk, e, w1, backup, expected, tx);
    }
  }

  /** No version is lost by the compare-and-swap, at any moment of it. */
  lemma {:induction false} CasLosesNothing(e: Env, disk: Disk, temp: Name, expected: Version, tx: Version,
                                           j: nat, k: nat, v: Version)
    requires temp.Private? && temp in disk.dir && Shows(Get(disk.dir, temp), tx)
    requires var log := CasRun(e, World(disk, [], 0), temp, expected, tx).0.log;
             j <= k <= |log| && v in Replay(disk, log[..j]).dir.Values
    ensures var log := CasRun(e, World(disk, [], 0), temp, expected, tx).0.log;
            Accounted(Swapping(expected, tx), disk, log, j, k, v)
  {
    CasKeeps(e, disk, temp, expected, tx);
    NoLostVersion(Swapping(expected, tx), disk, CasRun(e, World(disk, [], 0), temp, expected, tx).0.log, j, k, v);
  }

  /** The reported name is right exactly unless the handle fails to close after
      the rename: then the data is under the other name. */
  lemma {:induction false} PreserveNameExact(e: Env, w: World, source: Name)
    requires source.Private? && source in w.disk.dir
    ensures var (w', at) := PreserveNameRun(e, w, source);
            && w'.disk.puts == w.disk.puts
            && (Get(w'.disk.dir, at) == Get(w.disk.dir, source) <==>
                !(e.fault(w.tick).Partial? && Fresh(e, w) !in w.disk.dir))
            && (at in w'.disk.dir ==> w'.disk.dir[at] == w.disk.dir[source])
  {
    TurnTaken(e, w);
    hide Interfere;
  }

  /** A concrete case: the data is moved to a recovery name, the handle does not close, and
      the conflict names the name that has just become vacant. */
  lemma {:induction false} PreserveNameExample()
    ensures var theirs := Version(true, 0, 8, 420, 5, 0, 11);
            var e := Env(_ => None, _ => Partial, i => i + 1, _ => false);
            var (w', at) := PreserveNameRun(e, World(Disk(map[Private(0) := theirs], []), [], 0), Private(0));
            at == Private(0) && Private(0) !in w'.disk.dir && Get(w'.disk.dir, Private(1)) == Some(theirs)
  {
  }

  lemma {:induction false} RecoverFailedLeaves(e: Env, w: World, backup: Name, n: Name)
    requires n.Private? && backup.Private? && n != backup
    ensures var w' := RecoverFailedRun(e, w, backup).0;
            Get(w'.disk.dir, n) == Get(w.disk.dir, n)
  {
    TurnTaken(e, w);
    var w1 := SnapshotRun(e, w, Target).0;
    TurnTaken(e, w1);
    var w2 := SnapshotRun(e, w1, backup).0;
    TurnTaken(e, w2);
    hide Interfere;
  }

  /** A recovery gives back what the half-done replacement had taken, or does nothing. */
  lemma {:induction false} RecoverFailedPuts(e: Env, w: World, backup: Name)
    requires backup.Private?
    ensures var w' := RecoverFailedRun(e, w, backup).0;
            || w'.disk.puts == w.disk.puts
            || (backup in w.disk.dir && w'.disk.puts == w.disk.puts + [Put(Get(w.disk.dir, backup), None)])
    ensures var w' := RecoverFailedRun(e, w, backup).0;
            backup in w'.disk.dir ==> Get(w'.disk.dir, backup) == Get(w.disk.dir, backup)
  {
    TurnTaken(e, w);
    var w1 := SnapshotRun(e, w, Target).0;
    TurnTaken(e, w1);
    var (w2, saved) := SnapshotRun(e, w1, backup);
    if saved.Some? && saved.value.Some? {
      MovePuts(e, w2, backup);
      TurnTaken(e, w2);
    }
    hide Interfere;
  }

  /** The handle of a private file did not close after a rename or a deletion. */
  predicate Unclosed(e: Env, from: nat, to: nat) { exists i | from <= i < to :: e.fault(i).Partial? }

  /** The name that the second replacement draws at random is already taken, by a file of
      `d` or by the backup. */
  predicate Clash(e: Env, at: nat, d: Directory, backup: Name) {
    Private(e.token(at)) == backup || Private(e.token(at)) in d
  }

  /** What followed a swap that displaced `x` into the backup: `more` are the later changes
      of the target. The transaction still stands when there are none, it was taken back
      when `x` was installed again, and it was taken away or put back when the second
      replacement stopped half-way. The name a conflict reports holds what was displaced.
      After a clash of names a target that a rival had removed may be filled instead. */
  ghost predicate Told(before: seq<Put>, w': World, verdict: Verdict, x: Version, tx: Version, clash: bool,
                       unclosed: bool) {
    && before <= w'.disk.puts
    && var more := w'.disk.puts[|before|..];
       var takenBack := |more| == 1 && more[0].installed == Some(x);
       var filled := clash && |more| == 1 && more[0].installed.Some? && more[0].displaced.None?;
       match verdict
       case Committed => more == []
       case NotSwapped => false
       case AuditRaised => takenBack || ReplaceUndone([], more) || filled
       case Changed(kept) =>
         match kept
         case None => takenBack && Shows(more[0].displaced, tx)
         case Some(n) =>
           || (takenBack && Get(w'.disk.dir, n) == more[0].displaced)
           || (ReplaceUndone([], more) && (Get(w'.disk.dir, n) == Some(x) || (unclosed && n !in w'.disk.dir)))
           || filled
  }

  lemma {:induction false} SwapBackHonest(e: Env, w: World, backup: Name, tx: Version)
    requires backup.Private? && backup in w.disk.dir
    ensures var (w', verdict) := SwapBackRun(e, w, backup, tx);
            && w.tick < w'.tick && (verdict.AuditRaised? || verdict.Changed?)
            && Told(w.disk.puts, w', verdict, w.disk.dir[backup], tx, Fresh(e, w) in w.disk.dir, false)
  {
    hide SwapRun, RecoverFailedRun, RemoveRun, Interfere;
    var x, recovery := w.disk.dir[backup], Fresh(e, w);
    SwapPuts(e, w, backup, recovery);
    SwapTicks(e, w, backup, recovery);
    var (w1, swap) := SwapRun(e, w, backup, recovery);
    if swap.Swapped? {
      TurnTaken(e, w1);
      var w2 := SnapshotRun(e, w1, recovery).0;
      RemovePuts(e, w2, recovery);
      assert w1.disk.puts[|w.disk.puts|..] == [Put(Some(x), Some(w1.disk.dir[recovery]))];
    } else if swap.SwapRaised? {
      RecoverFailedPuts(e, w1, recovery);
      RecoverFailedTicks(e, w1, recovery);
      var w2 := RecoverFailedRun(e, w1, recovery).0;
      if recovery !in w.disk.dir {
        RecoverFailedLeaves(e, w1, recovery, backup);
        UndoneBy(w.disk.puts, w1.disk.puts, w2.disk.puts, Get(w1.disk.dir, recovery));
      } else if w2.disk.puts == w1.disk.puts {
        assert w2.disk.puts[|w.disk.puts|..] == [];
        StillThere(e, w1, recovery, backup);
      } else {
        assert w2.disk.puts[|w.disk.puts|..] == [Put(Get(w1.disk.dir, recovery), None)];
      }
    } else {
      assert w1.disk.puts[|w.disk.puts|..] == [];
    }
  }

  /** A recovery that changes nothing at the target changes no private name either. */
  lemma {:induction false} StillThere(e: Env, w: World, backup: Name, n: Name)
    requires n.Private? && backup.Private? && RecoverFailedRun(e, w, backup).0.disk.puts == w.disk.puts
    ensures Get(RecoverFailedRun(e, w, backup).0.disk.dir, n) == Get(w.disk.dir, n)
  {
    TurnTaken(e, w);
    var w1 := SnapshotRun(e, w, Target).0;
    TurnTaken(e, w1);
    var w2 := SnapshotRun(e, w1, backup).0;
    TurnTaken(e, w2);
    if backup in w2.disk.dir { MovePuts(e, w2, backup); }
    hide Interfere;
  }

  lemma UndoneBy(a: seq<Put>, b: seq<Put>, c: seq<Put>, y: Option<Version>)
    requires b == a || (y.Some? && b == a + [Put(None, y)])
    requires c == b || (y.Some? && b != a && c == b + [Put(y, None)])
    ensures a <= c && ReplaceUndone([], c[|a|..])
  {
    var more := c[|a|..];
    if b != a && c == b {
      assert more == [] + [Put(None, Some(y.value))];
    } else if b != a {
      assert more == [] + [Put(None, Some(y.value)), Put(Some(y.value), None)];
    }
  }

  lemma SwapTicks(e: Env, w: World, source: Name, backup: Name)
    ensures w.tick < SwapRun(e, w, source, backup).0.tick
    ensures SwapRun(e, w, source, backup).1.Swapped? ==> SwapRun(e, w, source, backup).0.tick == w.tick + 2
  {
  }

  lemma RecoverFailedTicks(e: Env, w: World, backup: Name)
    ensures w.tick < RecoverFailedRun(e, w, backup).0.tick
  {
  }

  lemma RemovePuts(e: Env, w: World, n: Name)
    requires n.Private?
    ensures RemoveRun(e, w, n).0.disk.puts == w.disk.puts && w.tick < RemoveRun(e, w, n).0.tick
  {
  }

  lemma {:induction false} SecondRaceHonest(e: Env, w: World, backup: Name, tx: Version)
    requires backup.Private? && backup in w.disk.dir
    ensures var (w', verdict) := SecondRaceRun(e, w, backup, tx);
            && w.tick < w'.tick && (verdict.AuditRaised? || verdict.Changed?)
            && Told(w.disk.puts, w', verdict, w.disk.dir[backup], tx,
                    Clash(e, w.tick + 1, w.disk.dir, backup), Unclosed(e, w.tick, w'.tick))
  {
    hide SwapBackRun, PreserveNameRun, Interfere;
    TurnTaken(e, w);
    var (w1, shown) := SnapshotRun(e, w, Target);
    assert w1.disk.puts == w.disk.puts && w1.tick == w.tick + 1 && Get(w1.disk.dir, backup) == Get(w.disk.dir, backup);
    var w' := SecondRaceRun(e, w, backup, tx).0;
    if shown.Some? && Shows(shown.value, tx) {
      SwapBackHonest(e, w1, backup, tx);
      assert Get(w1.disk.dir, Fresh(e, w1)) == Get(w.disk.dir, Fresh(e, w1));
    } else if shown.Some? {
      PreserveNameExact(e, w1, backup);
      PreserveTicks(e, w1, backup);
      assert w'.disk.puts[|w.disk.puts|..] == [];
      if e.fault(w1.tick).Partial? {
        assert Unclosed(e, w.tick, w'.tick);
      }
    } else {
      assert w'.disk.puts[|w.disk.puts|..] == [];
    }
  }

  lemma PreserveTicks(e: Env, w: World, source: Name)
    ensures PreserveNameRun(e, w, source).0.tick == w.tick + 1
  {
  }

  lemma ToldLater(before: seq<Put>, w': World, verdict: Verdict, x: Version, tx: Version,
                  clash: bool, clash': bool, unclosed: bool, unclosed': bool)
    requires Told(before, w', verdict, x, tx, clash, unclosed)
    requires (clash ==> clash') && (unclosed ==> unclosed')
    ensures Told(before, w', verdict, x, tx, clash', unclosed') && before <= w'.disk.puts
  {
  }

  lemma {:induction false} CasAuditHonest(e: Env, w: World, backup: Name, expected: Version, tx: Version)
    requires backup.Private? && backup in w.disk.dir
    ensures var (w', verdict) := CasAuditRun(e, w, backup, expected, tx);
            && w.tick < w'.tick
            && Told(w.disk.puts, w', verdict, w.disk.dir[backup], tx,
                    Clash(e, w.tick + 2, w.disk.dir, backup), Unclosed(e, w.tick, w'.tick))
            && (verdict.Committed? ==> Shows(Some(w.disk.dir[backup]), expected))
            && (verdict.Changed? ==> !Shows(Some(w.disk.dir[backup]), expected))
  {
    hide SecondRaceRun, RemoveRun, Interfere, Told;
    TurnTaken(e, w);
    var (w1, displaced) := SnapshotRun(e, w, backup);
    assert w1.disk.puts == w.disk.puts && Get(w1.disk.dir, backup) == Get(w.disk.dir, backup);
    var (w', verdict) := CasAuditRun(e, w, backup, expected, tx);
    if displaced.Some? && !Shows(displaced.value, expected) {
      SecondRaceHonest(e, w1, backup, tx);
      ClashLater(e, w, w1, w.tick + 2, w'.tick, backup);
      ToldLater(w.disk.puts, w', verdict, w.disk.dir[backup], tx,
                Clash(e, w1.tick + 1, w1.disk.dir, backup), Clash(e, w.tick + 2, w.disk.dir, backup),
                Unclosed(e, w1.tick, w'.tick), Unclosed(e, w.tick, w'.tick));
    } else {
      RemovePuts(e, w1, backup);
      ToldAtOnce(w, w', verdict, w.disk.dir[backup], tx, Clash(e, w.tick + 2, w.disk.dir, backup),
                 Unclosed(e, w.tick, w'.tick));
    }
  }

  lemma ToldAtOnce(w: World, w': World, verdict: Verdict, x: Version, tx: Version, clash: bool, unclosed: bool)
    requires w'.disk.puts == w.disk.puts && (verdict.Committed? || verdict.AuditRaised?)
    ensures Told(w.disk.puts, w', verdict, x, tx, clash, unclosed)
  {
    assert w'.disk.puts[|w.disk.puts|..] == [];
  }

  lemma ClashLater(e: Env, w: World, w1: World, at: nat, to: nat, backup: Name)
    requires w.tick <= w1.tick && forall n: Name | n.Private? && n in w1.disk.dir :: n in w.disk.dir || n == backup
    ensures Clash(e, at, w1.disk.dir, backup) ==> Clash(e, at, w.disk.dir, backup)
    ensures Unclosed(e, w1.tick, to) ==> Unclosed(e, w.tick, to)
  {
  }

  /** Honest verdicts. `Committed`: the transaction displaced exactly the expected version
      and stands. A failed first replacement left the target alone or gave it back. A
      conflict or a later failure means that something else was displaced, and `Told` says
      whether the transaction still stands and what the reported name holds. */
  lemma {:induction false} CasHonest(e: Env, w: World, temp: Name, expected: Version, tx: Version)
    requires temp.Private? && temp in w.disk.dir && Shows(Get(w.disk.dir, temp), tx)
    requires Fresh(e, w) !in w.disk.dir
    ensures var (w', verdict) := CasRun(e, w, temp, expected, tx);
            && w.disk.puts <= w'.disk.puts
            && (verdict.NotSwapped? ==> ReplaceUndone(w.disk.puts, w'.disk.puts))
            && (!verdict.NotSwapped? ==>
                exists x ::
                  && Told(w.disk.puts + [Put(Some(w.disk.dir[temp]), Some(x))], w', verdict, x, tx,
                          Clash(e, w.tick + 4, w.disk.dir, Fresh(e, w)), Unclosed(e, w.tick, w'.tick))
                  && (verdict.Committed? ==> Shows(Some(x), expected))
                  && (verdict.Changed? ==> !Shows(Some(x), expected)))
  {
    hide SwapRun, RecoverFailedRun, CasAuditRun, Told;
    var backup := Fresh(e, w);
    SwapPuts(e, w, temp, backup);
    SwapTicks(e, w, temp, backup);
    SwapNamesKept(e, w, temp, backup);
    var (w1, swap) := SwapRun(e, w, temp, backup);
    var (w', verdict) := CasRun(e, w, temp, expected, tx);
    if swap.Swapped? {
      CasAuditHonest(e, w1, backup, expected, tx);
      var x := w1.disk.dir[backup];
      ClashLater(e, w, w1, w.tick + 4, w'.tick, backup);
      ToldLater(w1.disk.puts, w', verdict, x, tx,
                Clash(e, w1.tick + 2, w1.disk.dir, backup), Clash(e, w.tick + 4, w.disk.dir, backup),
                Unclosed(e, w1.tick, w'.tick), Unclosed(e, w.tick, w'.tick));
      assert w1.disk.puts == w.disk.puts + [Put(Some(w.disk.dir[temp]), Some(x))];
    } else if swap.SwapRaised? {
      RecoverFailedPuts(e, w1, backup);
      UndoneBy(w.disk.puts, w1.disk.puts, w'.disk.puts, Get(w1.disk.dir, backup));
      UndoneFrom(w.disk.puts, w'.disk.puts);
    }
  }

  lemma UndoneFrom(a: seq<Put>, c: seq<Put>)
    requires a <= c && ReplaceUndone([], c[|a|..])
    ensures ReplaceUndone(a, c)
  {
    assert a + c[|a|..] == c;
  }

  lemma SwapNamesKept(e: Env, w: World, source: Name, backup: Name)
    ensures var d := SwapRun(e, w, source, backup).0.disk.dir;
            forall n: Name | n.Private? && n in d :: n in w.disk.dir || n == backup
  {
    TurnTaken(e, w);
    TurnTaken(e, Sync(e, w).0);
    var d := SwapRun(e, w, source, backup).0.disk.dir;
    forall n: Name | n.Private? && n in d ensures n in w.disk.dir || n == backup {
      assert Get(Sync(e, w).0.disk.dir, n) == Get(w.disk.dir, n);
    }
    hide Interfere;
  }

  // Which runs leave the transaction published without success

  /** The second replacement, from tick `t` on over a target that shows `shown`, changes
      nothing: the path check fails, or the replacement fails whole or finds no target. */
  predicate SwapBackLeaves(e: Env, t: nat, shown: Option<Version>) {
    || !e.fault(t).NoFault?
    || !(e.fault(t + 1).NoFault? || e.fault(t + 1).Partial?)
    || Turn(e, t + 1, Turn(e, t, shown)).None?
  }

  /** The first replacement takes effect, and then the displaced file cannot be read, or it
      is not the expected one and the transaction cannot be taken back: the target cannot be
      read, shows something else, or the second replacement changes nothing. */
  ghost predicate CasLeaves(e: Env, t: nat, shown: Option<Version>, mine: Version, expected: Version, tx: Version) {
    var x := Turn(e, t + 1, Turn(e, t, shown));
    var now := Turn(e, t + 3, Turn(e, t + 2, Some(mine)));
    && e.fault(t).NoFault? && e.fault(t + 1).NoFault? && x.Some?
    && (|| !e.fault(t + 2).NoFault? || !x.value.regular
        || (!Shows(x, expected) && NotSwappedBack(e, t + 3, now, tx)))
  }

  ghost predicate NotSwappedBack(e: Env, t: nat, now: Option<Version>, tx: Version) {
    || !e.fault(t).NoFault? || !Shows(now, tx) || !now.value.regular || SwapBackLeaves(e, t + 1, now)
  }

  lemma {:induction false} SwapIff(e: Env, w: World, source: Name, backup: Name)
    requires source.Private? && backup.Private? && source in w.disk.dir && backup !in w.disk.dir
    ensures var (w', swap) := SwapRun(e, w, source, backup);
            var shown := Get(w.disk.dir, Target);
            var x := Turn(e, w.tick + 1, Turn(e, w.tick, shown));
            && (swap.Swapped? <==> e.fault(w.tick).NoFault? && e.fault(w.tick + 1).NoFault? && x.Some?)
            && (swap.Swapped? ==>
                  Get(w'.disk.dir, backup) == x && Get(w'.disk.dir, Target) == Some(w.disk.dir[source]))
            && (w'.disk.puts == w.disk.puts <==> SwapBackLeaves(e, w.tick, shown))
            && w.disk.puts <= w'.disk.puts
            && (w'.disk.puts == w.disk.puts ==> Get(w'.disk.dir, backup) == None)
  {
    TurnTaken(e, w);
    var w1 := Sync(e, w).0;
    TurnTaken(e, w1);
    assert Get(Interfere(e, w1).disk.dir, backup) == Get(w.disk.dir, backup);
    assert Get(Interfere(e, w1).disk.dir, source) == Get(w.disk.dir, source);
    hide Interfere;
  }

  lemma {:induction false} SwapBackLeftIff(e: Env, w: World, backup: Name, tx: Version)
    requires backup.Private? && backup in w.disk.dir && Fresh(e, w) !in w.disk.dir
    ensures SwapBackRun(e, w, backup, tx).0.disk.puts == w.disk.puts <==>
            SwapBackLeaves(e, w.tick, Get(w.disk.dir, Target))
  {
    hide SwapRun, RecoverFailedRun, RemoveRun, Interfere, SwapBackLeaves;
    var recovery := Fresh(e, w);
    SwapIff(e, w, backup, recovery);
    SwapPuts(e, w, backup, recovery);
    var (w1, swap) := SwapRun(e, w, backup, recovery);
    TurnTaken(e, w1);
    RemovePuts(e, SnapshotRun(e, w1, recovery).0, recovery);
    RecoverFailedPuts(e, w1, recovery);
  }

  lemma {:induction false} SecondRaceLeftIff(e: Env, w: World, backup: Name, tx: Version)
    requires backup.Private? && backup in w.disk.dir && !Clash(e, w.tick + 1, w.disk.dir, backup)
    ensures SecondRaceRun(e, w, backup, tx).0.disk.puts == w.disk.puts <==>
            NotSwappedBack(e, w.tick, Turn(e, w.tick, Get(w.disk.dir, Target)), tx)
  {
    hide SwapBackRun, PreserveNameRun, Interfere, SwapBackLeaves;
    TurnTaken(e, w);
    var (w1, shown) := SnapshotRun(e, w, Target);
    assert Get(w1.disk.dir, backup) == Get(w.disk.dir, backup);
    assert Get(w1.disk.dir, Fresh(e, w1)) == Get(w.disk.dir, Fresh(e, w1));
    SwapBackLeftIff(e, w1, backup, tx);
    PreserveNameExact(e, w1, backup);
  }

  lemma {:induction false} CasAuditLeftIff(e: Env, w: World, backup: Name, expected: Version, tx: Version)
    requires backup.Private? && backup in w.disk.dir && !Clash(e, w.tick + 2, w.disk.dir, backup)
    ensures var x := w.disk.dir[backup]; var (w', verdict) := CasAuditRun(e, w, backup, expected, tx);
            !verdict.Committed? && w'.disk.puts == w.disk.puts <==>
            || !e.fault(w.tick).NoFault? || !x.regular
            || (!Shows(Some(x), expected)
                && NotSwappedBack(e, w.tick + 1, Turn(e, w.tick + 1, Turn(e, w.tick, Get(w.disk.dir, Target))), tx))
  {
    hide SecondRaceRun, RemoveRun, Interfere, NotSwappedBack;
    TurnTaken(e, w);
    var (w1, displaced) := SnapshotRun(e, w, backup);
    assert Get(w1.disk.dir, backup) == Get(w.disk.dir, backup);
    assert Get(w1.disk.dir, Private(e.token(w.tick + 2))) == Get(w.disk.dir, Private(e.token(w.tick + 2)));
    SecondRaceLeftIff(e, w1, backup, tx);
    SecondRaceKind(e, w1, backup, tx);
  }

  lemma {:induction false} SecondRaceKind(e: Env, w: World, backup: Name, tx: Version)
    ensures !SecondRaceRun(e, w, backup, tx).1.Committed?
  {
    hide SwapRun, RecoverFailedRun, RemoveRun;
  }

  /** The exact condition, over the oracle and what the target shows: the compare-and-swap
      ends without success and with the transaction as its only change of the target if and
      only if it is `CasLeaves`, unless the second name drawn at random was taken. */
  lemma {:induction false} CasLeftIff(e: Env, w: World, temp: Name, expected: Version, tx: Version)
    requires temp.Private? && temp in w.disk.dir && Shows(Get(w.disk.dir, temp), tx)
    requires Fresh(e, w) !in w.disk.dir
    ensures var (w', verdict) := CasRun(e, w, temp, expected, tx);
            && w.disk.puts <= w'.disk.puts
            && (!Clash(e, w.tick + 4, w.disk.dir, Fresh(e, w)) ==>
                var puts := w'.disk.puts[|w.disk.puts|..];
                !verdict.Committed? && |puts| == 1 && puts[0].installed == Some(w.disk.dir[temp]) <==>
                CasLeaves(e, w.tick, Get(w.disk.dir, Target), w.disk.dir[temp], expected, tx))
  {
    hide SwapRun, RecoverFailedRun, CasAuditRun, Told, NotSwappedBack;
    CasHonest(e, w, temp, expected, tx);
    var backup := Fresh(e, w);
    SwapIff(e, w, temp, backup);
    SwapPuts(e, w, temp, backup);
    SwapTicks(e, w, temp, backup);
    SwapNamesKept(e, w, temp, backup);
    var (w1, swap) := SwapRun(e, w, temp, backup);
    var (w', verdict) := CasRun(e, w, temp, expected, tx);
    if swap.Swapped? && !Clash(e, w.tick + 4, w.disk.dir, backup) {
      ClashLater(e, w, w1, w.tick + 4, w'.tick, backup);
      CasAuditLeftIff(e, w1, backup, expected, tx);
      CasAuditHonest(e, w1, backup, expected, tx);
      ToldLater(w1.disk.puts, w', verdict, w1.disk.dir[backup], tx,
                Clash(e, w1.tick + 2, w1.disk.dir, backup), true, Unclosed(e, w1.tick, w'.tick), true);
      OnlyChange(w.disk.puts, w1.disk.puts, w'.disk.puts);
    } else if !swap.Swapped? {
      UndoneIs(w.disk.puts, w'.disk.puts);
    }
  }

  /** The case happens: a rival's file is displaced, the second replacement fails as a whole,
      and the conflict is reported with the transaction at the target. */
  lemma {:induction false} NotTakenBackExample()
    ensures var theirs := Version(true, 0, 8, 420, 5, 0, 11);
            var (e, w) := Example(theirs, i => if i == 5 then OsFault else NoFault);
            var (w', verdict) := CasRun(e, w, Private(0), BASE, OURS);
            && verdict == Changed(Some(Private(1)))
            && w'.disk.dir == map[Private(1) := theirs, Target := OURS]
  {
    var theirs := Version(true, 0, 8, 420, 5, 0, 11);
    var (e, w) := Example(theirs, i => if i == 5 then OsFault else NoFault);
    var d := map[Private(1) := theirs, Target := OURS];
    var (w1, swap) := SwapRun(e, w, Private(0), Private(1));
    assert swap.Swapped? && w1.tick == 2 && w1.disk.dir == d;
    var (w2, displaced) := SnapshotRun(e, w1, Private(1));
    assert displaced == Some(Some(theirs)) && w2.tick == 3 && w2.disk.dir == d;
    var (w3, shown) := SnapshotRun(e, w2, Target);
    assert shown == Some(Some(OURS)) && w3.tick == 4 && w3.disk.dir == d;
    var (w4, back) := SwapRun(e, w3, Private(1), Fresh(e, w3));
    assert back.SwapRaised? && w4.tick == 6 && w4.disk.dir == d;
    assert RecoverFailedRun(e, w4, Fresh(e, w3)) == (w4.(tick := 7), true);
    hide SwapRun, RecoverFailedRun;
  }

  lemma OnlyChange(a: seq<Put>, b: seq<Put>, c: seq<Put>)
    requires a <= b <= c && |b| == |a| + 1
    ensures |c[|a|..]| == 1 <==> c == b
    ensures c[|a|..][0] == b[|a|]
  {
  }

  lemma UndoneIs(a: seq<Put>, c: seq<Put>)
    requires ReplaceUndone(a, c)
    ensures a <= c && (c == a || c[|a|..][0].installed.None?)
  {
  }
}
