/** `posix_atomic_commit.commit` and its caller `_write_posix`: publish a
    temporary file only over the baseline, with atomic exchange and rollback. */
module PosixCommit {
  import opened Files
  import opened Wrappers
  import opened SwapOrPreserve

  // Identity checks

  predicate SameMetadata(v: Version, id: Identity) {
    && v.regular && v.device == id.device && v.inode == id.inode
    && v.mode == id.mode && v.size == id.size && v.modified == id.modified
  }

  predicate Same(v: Version, id: Identity) {
    SameMetadata(v, id) && id.digest == Some(v.digest)
  }

  /** What an identity says of a file, field by field. */
  ghost predicate Identifies(id: Identity, v: Version) {
    v.regular && id == Identity(v.device, v.inode, v.mode, v.size, v.modified, Some(v.digest))
  }

  datatype Check = Yes | No | Error

  /** `_same_version`: content that changes under the reader counts as different. */
  function Judge(r: Reading, id: Identity): Check {
    match r
    case Missing => No
    case Saw(v) => if Same(v, id) then Yes else No
    case Unreadable(f) => if f.Rejected? then No else Error
  }

  datatype Cause =
    | TargetAppeared | PublishFailed | ExchangeFailed      // nothing was swapped
    | ParkFailed | AuditFailed(removed: bool) | Conflict(removed: bool) | SyncFailed // swapped and swapped back

  /** A normal return, `MutationCommittedWarning`, or any other exception. */
  datatype Outcome = Returned | Warned(retained: Name) | Refused(cause: Cause)

  // The run of each routine, as a function of the oracle and the world

  function ParkRun(e: Env, w: World, temp: Name, tries: nat): (World, Option<Name>)
    decreases tries
  {
    if tries == 0 then (w, None)
    else
      var recovery := Fresh(e, w);
      var (w1, io) := Attempt(e, w, Move(temp, recovery));
      if io.Done? then (w1, Some(recovery))
      else if io.Exists? then ParkRun(e, w1, temp, tries - 1)
      else (w1, None)
  }

  function DiscardRun(e: Env, w: World, n: Name, id: Identity): (World, bool) {
    var (w1, r) := Inspect(e, w, n);
    if Judge(r, id).Yes? then
      var (w2, io) := Attempt(e, w1, Discard(n));
      (w2, io.Done?)
    else (w1, false)
  }

  function RestoreRun(e: Env, w: World, recovery: Name, repl: Identity, conflict: bool): (World, Outcome) {
    var (w1, io) := Attempt(e, w, Exchange(recovery, Target));
    if !io.Done? then (w1, Warned(recovery))
    else
      var (w2, removed) := DiscardRun(e, w1, recovery, repl);
      var (w3, synced) := Sync(e, w2);
      (w3, Refused(if !synced then SyncFailed else if conflict then Conflict(removed) else AuditFailed(removed)))
  }

  function AuditRun(e: Env, w: World, recovery: Name, baseline: Identity, repl: Identity): (World, Outcome) {
    var (w1, r) := Inspect(e, w, recovery);
    match Judge(r, baseline)
    case Error => RestoreRun(e, w1, recovery, repl, false)
    case No => RestoreRun(e, w1, recovery, repl, true)
    case Yes =>
      var (w2, io) := Attempt(e, w1, Discard(recovery));
      (w2, if io.Done? || io.Absent? then Returned else Warned(recovery))
  }

  function SwapRun(e: Env, w: World, temp: Name, baseline: Identity, repl: Identity): (World, Outcome) {
    var (w1, io) := Attempt(e, w, Exchange(temp, Target));
    if !io.Done? then (w1, Refused(ExchangeFailed))
    else
      var (w2, parked) := ParkRun(e, w1, temp, 3);
      if parked.Some? then AuditRun(e, w2, parked.value, baseline, repl)
      else
        var (w3, back) := Attempt(e, w2, Exchange(temp, Target));
        (w3, if back.Done? then Refused(ParkFailed) else Warned(temp))
  }

  /** A baseline of `None` is the missing file. */
  function CommitRun(e: Env, w: World, temp: Name, baseline: Option<Identity>, repl: Identity): (World, Outcome) {
    match baseline
    case Some(id) => SwapRun(e, w, temp, id, repl)
    case None =>
      var (w1, io) := Attempt(e, w, Move(temp, Target));
      (w1, if io.Done? then Returned else Refused(if io.Exists? then TargetAppeared else PublishFailed))
  }

  // The routines

  method ParkDisplaced(f: Folder, temp: Name) returns (parked: Option<Name>)
    modifies f
    ensures (f.View(), parked) == ParkRun(f.env, old(f.View()), temp, 3)
  {
    for i := 0 to 3
      invariant ParkRun(f.env, old(f.View()), temp, 3) == ParkRun(f.env, f.View(), temp, 3 - i)
    {
      var recovery := f.FreshName();
      var io := f.Try(Move(temp, recovery));
      if io.Done? {
        return Some(recovery);
      }
      if !io.Exists? {
        return None;
      }
    }
    return None;
  }

  method DiscardOwned(f: Folder, n: Name, id: Identity) returns (removed: bool)
    modifies f
    ensures (f.View(), removed) == DiscardRun(f.env, old(f.View()), n, id)
  {
    var r := f.Read(n);
    if !Judge(r, id).Yes? {
      return false;
    }
    var io := f.Try(Discard(n));
    return io.Done?;
  }

  method Restore(f: Folder, recovery: Name, repl: Identity, conflict: bool) returns (o: Outcome)
    modifies f
    ensures (f.View(), o) == RestoreRun(f.env, old(f.View()), recovery, repl, conflict)
  {
    var io := f.Try(Exchange(recovery, Target));
    if !io.Done? {
      return Warned(recovery);
    }
    var removed := DiscardOwned(f, recovery, repl);
    var synced := f.Flush();
    if !synced {
      return Refused(SyncFailed);
    }
    return Refused(if conflict then Conflict(removed) else AuditFailed(removed));
  }

  method Commit(f: Folder, temp: Name, baseline: Option<Identity>, repl: Identity) returns (o: Outcome)
    modifies f
    ensures (f.View(), o) == CommitRun(f.env, old(f.View()), temp, baseline, repl)
  {
    if baseline.None? {
      var io := f.Try(Move(temp, Target));
      if io.Done? {
        return Returned;
      }
      return Refused(if io.Exists? then TargetAppeared else PublishFailed);
    }
    var io := f.Try(Exchange(temp, Target));
    if !io.Done? {
      return Refused(ExchangeFailed);
    }
    var parked := ParkDisplaced(f, temp);
    if parked.None? {
      var back := f.Try(Exchange(temp, Target));
      return if back.Done? then Refused(ParkFailed) else Warned(temp);
    }
    var r := f.Read(parked.value);
    match Judge(r, baseline.value)
    case Error =>
      o := Restore(f, parked.value, repl, false);
    case No =>
      o := Restore(f, parked.value, repl, true);
    case Yes =>
      var gone := f.Try(Discard(parked.value));
      o := if gone.Done? || gone.Absent? then Returned else Warned(parked.value);
  }

  // What one commit does to the target

  /** The terms of a transaction: what it may discard. */
  ghost predicate Covers(t: Terms, baseline: Option<Identity>, repl: Identity) {
    && (baseline.Some? ==> forall v :: Identifies(baseline.value, v) ==> t.baseline(v))
    && (forall v :: Identifies(repl, v) ==> t.ours(v))
  }

  function Since(k: Disk, before: Disk): seq<Put>
    requires |before.puts| <= |k.puts|
  {
    k.puts[|before.puts|..]
  }

  lemma ParkKeeps(t: Terms, start: Disk, e: Env, w: World, temp: Name, tries: nat)
    requires Faithful(t, start, w)
    ensures Faithful(t, start, ParkRun(e, w, temp, tries).0)
    decreases tries
  {
    if tries > 0 {
      AttemptKeeps(t, start, e, w, Move(temp, Fresh(e, w)));
      ParkKeeps(t, start, e, Attempt(e, w, Move(temp, Fresh(e, w))).0, temp, tries - 1);
    }
  }

  /** Parking moves the private file or leaves it, and never touches the target. */
  lemma {:induction false} ParkMoves(e: Env, w: World, temp: Name, tries: nat)
    requires temp.Private? && temp in w.disk.dir
    ensures var (w', parked) := ParkRun(e, w, temp, tries);
            && w'.disk.puts == w.disk.puts
            && var n := if parked.Some? then parked.value else temp;
            n.Private? && n in w'.disk.dir && w'.disk.dir[n] == w.disk.dir[temp]
    decreases tries
  {
    if tries > 0 {
      var (w1, io) := Attempt(e, w, Move(temp, Fresh(e, w)));
      if io.Exists? {
        ParkMoves(e, w1, temp, tries - 1);
      }
    }
  }

  lemma {:induction false} DiscardKeeps(t: Terms, start: Disk, e: Env, w: World, n: Name, id: Identity)
    requires Faithful(t, start, w) && n.Private?
    requires forall v :: Identifies(id, v) ==> t.ours(v)
    ensures Faithful(t, start, DiscardRun(e, w, n, id).0)
  {
    InterfereKeeps(t, start, e, w);
    var (w1, r) := Inspect(e, w, n);
    if Judge(r, id).Yes? {
      AttemptKeeps(t, start, e, w1, Discard(n));
    }
  }

  lemma RestoreKeeps(t: Terms, start: Disk, e: Env, w: World, recovery: Name, repl: Identity, conflict: bool)
    requires Faithful(t, start, w) && recovery.Private?
    requires forall v :: Identifies(repl, v) ==> t.ours(v)
    ensures Faithful(t, start, RestoreRun(e, w, recovery, repl, conflict).0)
  {
    AttemptKeeps(t, start, e, w, Exchange(recovery, Target));
    var w1 := Attempt(e, w, Exchange(recovery, Target)).0;
    DiscardKeeps(t, start, e, w1, recovery, repl);
    InterfereKeeps(t, start, e, DiscardRun(e, w1, recovery, repl).0);
  }

  lemma AuditKeeps(t: Terms, start: Disk, e: Env, w: World, recovery: Name, baseline: Identity, repl: Identity)
    requires Faithful(t, start, w) && recovery.Private? && Published(t, w.disk)
    requires Covers(t, Some(baseline), repl)
    ensures Faithful(t, start, AuditRun(e, w, recovery, baseline, repl).0)
  {
    InterfereKeeps(t, start, e, w);
    var (w1, r) := Inspect(e, w, recovery);
    match Judge(r, baseline)
    case Error => RestoreKeeps(t, start, e, w1, recovery, repl, false);
    case No => RestoreKeeps(t, start, e, w1, recovery, repl, true);
    case Yes =>
      assert Interfere(e, w1).disk.puts == w.disk.puts;
      AttemptKeeps(t, start, e, w1, Discard(recovery));
  }

  /** The commit refines swap-or-preserve, whatever rivals and failures do. */
  lemma CommitKeeps(t: Terms, start: Disk, e: Env, w: World, temp: Name, baseline: Option<Identity>, repl: Identity)
    requires Faithful(t, start, w) && Covers(t, baseline, repl)
    requires temp.Private? && temp in w.disk.dir && Identifies(repl, w.disk.dir[temp])
    ensures Faithful(t, start, CommitRun(e, w, temp, baseline, repl).0)
  {
    hide Faithful, AuditRun, ParkRun;
    match baseline
    case None => MoveKeeps(t, start, e, w, Move(temp, Target));
    case Some(id) =>
      MoveKeeps(t, start, e, w, Exchange(temp, Target));
      var (w1, io) := Attempt(e, w, Exchange(temp, Target));
      if io.Done? {
        assert Published(t, w1.disk);
        ParkKeeps(t, start, e, w1, temp, 3);
        ParkMoves(e, w1, temp, 3);
        var (w2, parked) := ParkRun(e, w1, temp, 3);
        if parked.Some? {
          AuditKeeps(t, start, e, w2, parked.value, id, repl);
        } else {
          MoveKeeps(t, start, e, w2, Exchange(temp, Target));
        }
      }
  }

  /** Every version that was ever in the directory is there at each later moment
      of the commit, or a rival overwrote it, or it was the replacement, or it
      was the baseline and the replacement had been published. */
  lemma {:induction false} CommitLosesNothing(e: Env, disk: Disk, temp: Name, baseline: Option<Identity>,
                                              repl: Identity, j: nat, k: nat, v: Version)
    requires temp.Private? && temp in disk.dir && Identifies(repl, disk.dir[temp])
    requires var log := CommitRun(e, World(disk, [], 0), temp, baseline, repl).0.log;
             j <= k <= |log| && v in Replay(disk, log[..j]).dir.Values
    ensures var log := CommitRun(e, World(disk, [], 0), temp, baseline, repl).0.log;
            Accounted(Transaction(baseline, repl), disk, log, j, k, v)
  {
    var t := Transaction(baseline, repl);
    CommitKeeps(t, disk, e, World(disk, [], 0), temp, baseline, repl);
    NoLostVersion(t, disk, CommitRun(e, World(disk, [], 0), temp, baseline, repl).0.log, j, k, v);
  }

  ghost function Transaction(baseline: Option<Identity>, repl: Identity): Terms {
    Terms(v => baseline.Some? && Identifies(baseline.value, v), v => Identifies(repl, v), false)
  }

  // Honest outcomes

  /** One swap over exactly the baseline. */
  ghost predicate Swapped(puts: seq<Put>, v: Version, baseline: Option<Identity>) {
    && |puts| == 1 && puts[0].installed == Some(v)
    && match baseline
       case None => puts[0].displaced.None?
       case Some(id) => puts[0].displaced.Some? && Identifies(id, puts[0].displaced.value)
  }

  /** One swap, displacing `x`, and `x` put back. */
  ghost predicate SwappedBack(puts: seq<Put>, v: Version) {
    && |puts| == 2 && puts[0].installed == Some(v)
    && puts[0].displaced.Some? && puts[1].installed == puts[0].displaced
  }

  lemma RestoreOutcome(e: Env, w: World, recovery: Name, repl: Identity, conflict: bool)
    requires recovery.Private? && recovery in w.disk.dir
    ensures var (w', o) := RestoreRun(e, w, recovery, repl, conflict);
            match o
            case Returned => false
            case Warned(n) => n == recovery && w'.disk.puts == w.disk.puts && Get(w'.disk.dir, n) == Get(w.disk.dir, n)
            case Refused(c) =>
              && (c.SyncFailed? || c.Conflict? || c.AuditFailed?)
              && |w'.disk.puts| == |w.disk.puts| + 1 && w.disk.puts <= w'.disk.puts
              && w'.disk.puts[|w.disk.puts|].installed == Some(w.disk.dir[recovery])
  {
  }

  /** What the audit of a parked version leads to. */
  lemma {:induction false} AuditOutcome(e: Env, w: World, recovery: Name, baseline: Identity, repl: Identity)
    requires recovery.Private? && recovery in w.disk.dir
    ensures var (w', o) := AuditRun(e, w, recovery, baseline, repl);
            match o
            case Returned => w'.disk.puts == w.disk.puts && Identifies(baseline, w.disk.dir[recovery])
            case Warned(n) => n == recovery && w'.disk.puts == w.disk.puts && Get(w'.disk.dir, n) == Get(w.disk.dir, n)
            case Refused(c) =>
              && (c.SyncFailed? || c.Conflict? || c.AuditFailed?)
              && |w'.disk.puts| == |w.disk.puts| + 1 && w.disk.puts <= w'.disk.puts
              && w'.disk.puts[|w.disk.puts|].installed == Some(w.disk.dir[recovery])
  {
    var (w1, r) := Inspect(e, w, recovery);
    RestoreOutcome(e, w1, recovery, repl, !Judge(r, baseline).Error?);
  }

  /** Honest outcomes, as a predicate over one commit. */
  ghost predicate Honest(before: Disk, after: Disk, o: Outcome, v: Version, baseline: Option<Identity>) {
    && before.puts <= after.puts
    && var puts := Since(after, before);
       match o
       case Returned => Swapped(puts, v, baseline)
       case Warned(n) =>
         && |puts| == 1 && puts[0].installed == Some(v)
         && puts[0].displaced.Some? && Get(after.dir, n) == puts[0].displaced
       case Refused(c) =>
         if c.TargetAppeared? || c.PublishFailed? || c.ExchangeFailed? then puts == []
         else SwappedBack(puts, v)
  }

  /** Commit is a compare-and-swap with honest outcomes: a normal return swapped
      the replacement over exactly the baseline and nothing else; a warning left
      it swapped and names where the displaced data is; any other exception
      either did nothing to the target or put back the version it displaced. */
  lemma {:induction false} CommitHonest(e: Env, w: World, temp: Name, baseline: Option<Identity>, repl: Identity)
    requires temp.Private? && temp in w.disk.dir && Identifies(repl, w.disk.dir[temp])
    ensures var (w', o) := CommitRun(e, w, temp, baseline, repl);
            Honest(w.disk, w'.disk, o, w.disk.dir[temp], baseline)
  {
    if baseline.Some? {
      SwapHonest(e, w, temp, baseline.value, repl);
    }
  }

  lemma {:induction false} SwapHonest(e: Env, w: World, temp: Name, baseline: Identity, repl: Identity)
    requires temp.Private? && temp in w.disk.dir
    ensures var (w', o) := SwapRun(e, w, temp, baseline, repl);
            Honest(w.disk, w'.disk, o, w.disk.dir[temp], Some(baseline))
  {
    hide Attempt, ParkRun, AuditRun;
    ExchangePuts(e, w, temp);
    var (w1, io) := Attempt(e, w, Exchange(temp, Target));
    if io.Done? {
      ParkMoves(e, w1, temp, 3);
      var (w2, parked) := ParkRun(e, w1, temp, 3);
      if parked.Some? {
        AuditOutcome(e, w2, parked.value, baseline, repl);
      } else {
        ExchangePuts(e, w2, temp);
      }
    }
  }

  lemma ExchangePuts(e: Env, w: World, temp: Name)
    requires temp.Private? && temp in w.disk.dir
    ensures var (w', io) := Attempt(e, w, Exchange(temp, Target));
            if io.Done? then
              temp in w'.disk.dir
              && w'.disk.puts == w.disk.puts + [Put(Some(w.disk.dir[temp]), Some(w'.disk.dir[temp]))]
            else w'.disk.puts == w.disk.puts && Get(w'.disk.dir, temp) == Get(w.disk.dir, temp)
  {
  }

  /** With no rival, no failure and unused recovery names, commit is exactly the
      sequential compare-and-swap on the directory. */
  lemma CommitUndisturbed(e: Env, w: World, temp: Name, baseline: Option<Identity>, repl: Identity)
    requires temp.Private? && temp in w.disk.dir && Identifies(repl, w.disk.dir[temp])
    requires forall i :: e.rival(i).None? && e.fault(i).NoFault? && Private(e.token(i)) !in w.disk.dir
    ensures var (w', o) := CommitRun(e, w, temp, baseline, repl);
            var d, now := w.disk.dir, Get(w.disk.dir, Target);
            if if baseline.None? then now.None? else now.Some? && Identifies(baseline.value, now.value) then
              o.Returned? && w'.disk.dir == (d - {temp})[Target := d[temp]]
            else if baseline.Some? && now.Some? then
              o == Refused(Conflict(true)) && w'.disk.dir == d - {temp}
            else
              o == Refused(if baseline.None? then TargetAppeared else ExchangeFailed) && w'.disk.dir == d
  {
    if baseline.Some? && Target in w.disk.dir {
      var w1 := Attempt(e, w, Exchange(temp, Target)).0;
      var w2 := Attempt(e, w1, Move(temp, Fresh(e, w1))).0;
      assert ParkRun(e, w1, temp, 3) == (w2, Some(Fresh(e, w1)));
    }
  }

  // The caller: `_write_posix`

  datatype Expected = Anything | MustBeMissing | MustBe(id: Identity)

  /** `write_baseline`: the identity to swap over, or nothing when the target is not as expected. */
  function Baseline(r: Reading, x: Expected): Option<Option<Identity>> {
    match r
    case Unreadable(_) => None
    case Missing => if x.MustBe? then None else Some(None)
    case Saw(v) =>
      if !v.regular || x.MustBeMissing? then None
      else if x.MustBe? then (if SameMetadata(v, x.id) then Some(Some(x.id)) else None)
      else Some(Some(Identity(v.device, v.inode, v.mode, v.size, v.modified, None)))
  }

  function Again(baseline: Option<Identity>): Expected {
    if baseline.None? then MustBeMissing else MustBe(baseline.value)
  }

  function IdentityOf(v: Version): Identity {
    Identity(v.device, v.inode, v.mode, v.size, v.modified, Some(v.digest))
  }

  datatype Reason =
    | BaselineRefused | CreateRefused | DraftFailed | IntentFailed | TargetMoved
    | CommitRefused(cause: Cause)
    | WarningLost                 // the reporter of a post-commit warning raised
    | Terminated                  // a termination signal raised

  datatype Written = Ok | OkWithWarning | NotWritten(reason: Reason)

  /** A signal that arrives during a primitive raises when it returns, whether or not
      it took effect, and takes the place of the primitive's own error. */
  function Stopped(e: Env, w: World, reason: Reason): Reason { if e.stop(w.tick) then Terminated else reason }

  /** `mutation_ready`: a record can be published and the call still raise. */
  function RecordRun(e: Env, w: World, digest: nat): (World, bool) {
    var (w1, io) := Attempt(e, w, Intent(digest));
    if io == Failed(Partial) then (Do(w1, Intent(digest)), false) else (w1, io.Done?)
  }

  function ReportRun(e: Env, w: World): (World, bool) {
    var ok := e.fault(w.tick).NoFault?;
    (Do(Interfere(e, w), Warn(ok)), ok)
  }

  /** A system call whose failure is only a warning: `fsync` and the final `close`. */
  function ConfirmRun(e: Env, w: World): (World, Option<bool>) {
    var (w1, ok) := Sync(e, w);
    if ok then (w1, None)
    else var (w2, told) := ReportRun(e, w1); (w2, Some(told))
  }

  /** There was something to report, and reporting it raised. */
  predicate Unheard(told: Option<bool>) { told.Some? && !told.value }

  /** The final `close`: an interrupted one is not reported. */
  function CloseRun(e: Env, w: World): (World, Option<bool>) {
    if e.stop(w.tick) then (Sync(e, w).0, None) else ConfirmRun(e, w)
  }

  /** What follows a commit: the report of its warning, `fsync`, `close`, cleanup. */
  function SettleRun(e: Env, w: World, o: Outcome, temp: Name, repl: Identity): (World, Written) {
    if o.Refused? then (DiscardRun(e, w, temp, repl).0, NotWritten(CommitRefused(o.cause)))
    else
      var (w1, told) := if o.Warned? then ReportRun(e, w) else (w, true);
      if !told then (DiscardRun(e, w1, temp, repl).0, NotWritten(WarningLost))
      else
        var (w2, synced) := ConfirmRun(e, w1);
        var (w3, closed) := CloseRun(e, w2);
        (w3, if Unheard(synced) || Unheard(closed) then NotWritten(WarningLost)
             else if o.Returned? && synced.None? && closed.None? then Ok
             else OkWithWarning)
  }

  /** The commit and its reports run with the termination signal blocked; one that
      arrived meanwhile raises when the mask is restored, and a later one at once. */
  function FinishRun(e: Env, w: World, temp: Name, baseline: Option<Identity>, repl: Identity): (World, Written) {
    var (w1, o) := CommitRun(e, w, temp, baseline, repl);
    var (w2, result) := SettleRun(e, w1, o, temp, repl);
    (w2, if Pending(e, w.tick, w2.tick) then NotWritten(Terminated) else result)
  }

  /** The intent record, then the last look at the target. */
  function IntendRun(e: Env, w: World, temp: Name, full: Version, baseline: Option<Identity>): (World, Option<Reason>) {
    var (w1, recorded) := RecordRun(e, w, full.digest);
    if e.stop(w.tick) || !recorded then
      (DiscardRun(e, w1, temp, IdentityOf(full)).0, Some(Stopped(e, w, IntentFailed)))
    else
      var (w2, r) := Inspect(e, w1, Target);
      if e.stop(w1.tick) || Baseline(r, Again(baseline)).None? then
        (DiscardRun(e, w2, temp, IdentityOf(full)).0, Some(Stopped(e, w1, TargetMoved)))
      else (w2, None)
  }

  function PrepareRun(e: Env, w: World, temp: Name, full: Version, baseline: Option<Identity>)
    : (World, Option<Reason>)
  {
    var (w1, filled) := Attempt(e, w, Fill(temp, full));
    if filled.Done? && !e.stop(w.tick) then IntendRun(e, w1, temp, full, baseline)
    else (Attempt(e, w1, Discard(temp)).0, Some(Stopped(e, w, DraftFailed)))
  }

  /** A creation that is interrupted after its effect leaves the empty file behind. */
  function WriteRun(e: Env, w: World, temp: Name, draft: Version, full: Version, x: Expected): (World, Written) {
    var (w1, r) := Inspect(e, w, Target);
    var b := Baseline(r, x);
    if e.stop(w.tick) || b.None? then (w1, NotWritten(Stopped(e, w, BaselineRefused)))
    else
      var (w2, created) := Attempt(e, w1, Create(temp, draft));
      if e.stop(w1.tick) || !created.Done? then (w2, NotWritten(Stopped(e, w1, CreateRefused)))
      else
        var (w3, stopped) := PrepareRun(e, w2, temp, full, b.value);
        if stopped.Some? then (w3, NotWritten(stopped.value))
        else FinishRun(e, w3, temp, b.value, IdentityOf(full))
  }

  method Report(f: Folder) returns (ok: bool)
    modifies f
    ensures (f.View(), ok) == ReportRun(f.env, old(f.View()))
  {
    ok := f.env.fault(f.tick).NoFault?;
    f.Rivals();
    f.disk, f.log := Effect(f.disk, Warn(ok)), f.log + [Warn(ok)];
  }

  method Confirm(f: Folder) returns (told: Option<bool>)
    modifies f
    ensures (f.View(), told) == ConfirmRun(f.env, old(f.View()))
  {
    var ok := f.Flush();
    if ok {
      return None;
    }
    var heard := Report(f);
    return Some(heard);
  }

  method RecordIntent(f: Folder, digest: nat) returns (ok: bool)
    modifies f
    ensures (f.View(), ok) == RecordRun(f.env, old(f.View()), digest)
  {
    var io := f.Try(Intent(digest));
    if io == Failed(Partial) {
      f.disk, f.log := Effect(f.disk, Intent(digest)), f.log + [Intent(digest)];
    }
    ok := io.Done?;
  }

  method Close(f: Folder) returns (told: Option<bool>)
    modifies f
    ensures (f.View(), told) == CloseRun(f.env, old(f.View()))
  {
    if f.env.stop(f.tick) {
      var _ := f.Flush();
      return None;
    }
    told := Confirm(f);
  }

  /** The commit, the report of its warning, `fsync`, and the cleanup after an exception. */
  method Settle(f: Folder, o: Outcome, temp: Name, repl: Identity) returns (result: Written)
    modifies f
    ensures (f.View(), result) == SettleRun(f.env, old(f.View()), o, temp, repl)
  {
    if o.Refused? {
      var _ := DiscardOwned(f, temp, repl);
      return NotWritten(CommitRefused(o.cause));
    }
    if o.Warned? {
      var told := Report(f);
      if !told {
        var _ := DiscardOwned(f, temp, repl);
        return NotWritten(WarningLost);
      }
    }
    var synced := Confirm(f);
    var closed := Close(f);
    if Unheard(synced) || Unheard(closed) {
      return NotWritten(WarningLost);
    }
    return if o.Returned? && synced.None? && closed.None? then Ok else OkWithWarning;
  }

  method FinishPosixCommit(f: Folder, temp: Name, baseline: Option<Identity>, repl: Identity) returns (result: Written)
    modifies f
    ensures (f.View(), result) == FinishRun(f.env, old(f.View()), temp, baseline, repl)
  {
    var blocked := f.tick;
    var o := Commit(f, temp, baseline, repl);
    result := Settle(f, o, temp, repl);
    if Pending(f.env, blocked, f.tick) {
      result := NotWritten(Terminated);
    }
  }

  /** The temporary file, the intent record and the last look at the target. */
  method Prepare(f: Folder, temp: Name, full: Version, baseline: Option<Identity>) returns (stopped: Option<Reason>)
    modifies f
    ensures (f.View(), stopped) == PrepareRun(f.env, old(f.View()), temp, full, baseline)
  {
    var stop := f.env.stop(f.tick);
    var io := f.Try(Fill(temp, full));
    if !io.Done? || stop {
      io := f.Try(Discard(temp));
      return Some(if stop then Terminated else DraftFailed);
    }
    stop := f.env.stop(f.tick);
    var recorded := RecordIntent(f, full.digest);
    if stop || !recorded {
      var _ := DiscardOwned(f, temp, IdentityOf(full));
      return Some(if stop then Terminated else IntentFailed);
    }
    stop := f.env.stop(f.tick);
    var r := f.Read(Target);
    if stop || Baseline(r, Again(baseline)).None? {
      var _ := DiscardOwned(f, temp, IdentityOf(full));
      return Some(if stop then Terminated else TargetMoved);
    }
    return None;
  }

  method WritePosix(f: Folder, temp: Name, draft: Version, full: Version, x: Expected) returns (result: Written)
    modifies f
    ensures (f.View(), result) == WriteRun(f.env, old(f.View()), temp, draft, full, x)
  {
    var stop := f.env.stop(f.tick);
    var r := f.Read(Target);
    var b := Baseline(r, x);
    if stop || b.None? {
      return NotWritten(if stop then Terminated else BaselineRefused);
    }
    stop := f.env.stop(f.tick);
    var io := f.Try(Create(temp, draft));
    if stop || !io.Done? {
      return NotWritten(if stop then Terminated else CreateRefused);
    }
    var stopped := Prepare(f, temp, full, b.value);
    if stopped.Some? {
      return NotWritten(stopped.value);
    }
    result := FinishPosixCommit(f, temp, b.value, IdentityOf(full));
  }

  // What a write promises

  ghost function Writing(draft: Version, full: Version, x: Expected): Terms {
    Terms(v => x.MustBe? && Identifies(x.id, v), v => v == draft || v == full, false)
  }

  lemma BaselineMeaning(r: Reading, x: Expected)
    ensures var b := Baseline(r, x);
            b.Some? ==>
              && (x.MustBe? ==> b.value == Some(x.id))
              && (x.MustBeMissing? ==> b.value.None?)
              && (x.Anything? && b.value.Some? ==> b.value.value.digest.None?)
  {
  }

  lemma RecordKeeps(t: Terms, start: Disk, e: Env, w: World, digest: nat)
    requires Faithful(t, start, w)
    ensures Faithful(t, start, RecordRun(e, w, digest).0)
  {
    AttemptKeeps(t, start, e, w, Intent(digest));
    DoKeeps(t, start, Attempt(e, w, Intent(digest)).0, Intent(digest));
  }

  lemma IntendKeeps(t: Terms, start: Disk, e: Env, w: World, temp: Name, full: Version, baseline: Option<Identity>)
    requires Faithful(t, start, w) && temp.Private?
    requires forall v :: Identifies(IdentityOf(full), v) ==> t.ours(v)
    ensures Faithful(t, start, IntendRun(e, w, temp, full, baseline).0)
  {
    RecordKeeps(t, start, e, w, full.digest);
    var (w1, recorded) := RecordRun(e, w, full.digest);
    DiscardKeeps(t, start, e, w1, temp, IdentityOf(full));
    InterfereKeeps(t, start, e, w1);
    DiscardKeeps(t, start, e, Inspect(e, w1, Target).0, temp, IdentityOf(full));
  }

  /** Cleanup and reporting leave the target and its history alone. */
  lemma DiscardPuts(e: Env, w: World, n: Name, id: Identity)
    ensures DiscardRun(e, w, n, id).0.disk.puts == w.disk.puts
  {
  }

  lemma IntendLeaves(e: Env, w: World, temp: Name, full: Version, baseline: Option<Identity>)
    requires temp.Private?
    ensures var (w', stopped) := IntendRun(e, w, temp, full, baseline);
            && w'.disk.puts == w.disk.puts
            && (stopped.None? ==> Get(w'.disk.dir, temp) == Get(w.disk.dir, temp))
  {
    var w1 := RecordRun(e, w, full.digest).0;
    assert w1.disk.puts == w.disk.puts && Get(w1.disk.dir, temp) == Get(w.disk.dir, temp);
    DiscardPuts(e, w1, temp, IdentityOf(full));
    DiscardPuts(e, Inspect(e, w1, Target).0, temp, IdentityOf(full));
  }

  lemma {:induction false} PrepareKeeps(t: Terms, start: Disk, e: Env, w: World, temp: Name, full: Version,
                                        baseline: Option<Identity>)
    requires Faithful(t, start, w) && temp.Private? && temp in w.disk.dir
    requires t.ours(w.disk.dir[temp]) && full.regular && forall v :: Identifies(IdentityOf(full), v) ==> t.ours(v)
    ensures Faithful(t, start, PrepareRun(e, w, temp, full, baseline).0)
  {
    hide Faithful, IntendRun;
    AttemptKeeps(t, start, e, w, Fill(temp, full));
    var (w1, filled) := Attempt(e, w, Fill(temp, full));
    IntendKeeps(t, start, e, w1, temp, full, baseline);
    assert Identifies(IdentityOf(full), full) && w1.disk.dir[temp] == if filled.Done? then full else w.disk.dir[temp];
    DropKeeps(t, start, e, w1, temp, w1.disk.dir[temp]);
  }

  lemma {:induction false} PrepareLeaves(e: Env, w: World, temp: Name, full: Version, baseline: Option<Identity>)
    requires temp.Private? && temp in w.disk.dir
    ensures var (w', stopped) := PrepareRun(e, w, temp, full, baseline);
            && w'.disk.puts == w.disk.puts
            && (stopped.None? ==> Get(w'.disk.dir, temp) == Some(full))
  {
    hide IntendRun;
    var (w1, filled) := Attempt(e, w, Fill(temp, full));
    if filled.Done? {
      IntendLeaves(e, w1, temp, full, baseline);
    }
  }

  lemma ReportKeeps(t: Terms, start: Disk, e: Env, w: World)
    requires Faithful(t, start, w)
    ensures Faithful(t, start, ReportRun(e, w).0)
  {
    InterfereKeeps(t, start, e, w);
    DoKeeps(t, start, Interfere(e, w), Warn(ReportRun(e, w).1));
  }

  lemma ConfirmKeeps(t: Terms, start: Disk, e: Env, w: World)
    requires Faithful(t, start, w)
    ensures Faithful(t, start, ConfirmRun(e, w).0)
  {
    InterfereKeeps(t, start, e, w);
    ReportKeeps(t, start, e, Sync(e, w).0);
  }

  lemma ConfirmTwiceKeeps(t: Terms, start: Disk, e: Env, w: World)
    requires Faithful(t, start, w)
    ensures var w' := CloseRun(e, ConfirmRun(e, w).0).0;
            Faithful(t, start, w')
  {
    hide Faithful;
    ConfirmKeeps(t, start, e, w);
    var w1 := ConfirmRun(e, w).0;
    InterfereKeeps(t, start, e, w1);
    ConfirmKeeps(t, start, e, w1);
  }

  lemma SettleKeeps(t: Terms, start: Disk, e: Env, w: World, o: Outcome, temp: Name, repl: Identity)
    requires Faithful(t, start, w) && temp.Private?
    requires forall v :: Identifies(repl, v) ==> t.ours(v)
    ensures var w' := SettleRun(e, w, o, temp, repl).0;
            Faithful(t, start, w')
  {
    if o.Warned? {
      ReportKeeps(t, start, e, w);
      var w1 := ReportRun(e, w).0;
      DiscardKeeps(t, start, e, w1, temp, repl);
      ConfirmTwiceKeeps(t, start, e, w1);
    } else {
      DiscardKeeps(t, start, e, w, temp, repl);
      ConfirmTwiceKeeps(t, start, e, w);
    }
  }

  lemma Created(e: Env, w: World, temp: Name, draft: Version)
    ensures var (w', io) := Attempt(e, w, Create(temp, draft));
            io.Done? ==> Get(w'.disk.dir, temp) == Some(draft)
  {
  }

  /** The whole write refines swap-or-preserve: the temporary file is removed
      only while it is the draft or the exact replacement. */
  lemma {:induction false} WriteKeeps(e: Env, disk: Disk, temp: Name, draft: Version, full: Version, x: Expected)
    requires temp.Private? && full.regular
    ensures Faithful(Writing(draft, full, x), disk, WriteRun(e, World(disk, [], 0), temp, draft, full, x).0)
  {
    hide Faithful, PrepareRun, FinishRun, Attempt, Interfere, Baseline, IdentityOf;
    var t, w := Writing(draft, full, x), World(disk, [], 0);
    StartFaithful(t, disk);
    InterfereKeeps(t, disk, e, w);
    var (w1, r) := Inspect(e, w, Target);
    BaselineMeaning(r, x);
    var b := Baseline(r, x);
    MoveKeeps(t, disk, e, w1, Create(temp, draft));
    Created(e, w1, temp, draft);
    var (w2, created) := Attempt(e, w1, Create(temp, draft));
    if b.Some? && created.Done? {
      WritingTerms(draft, full, x, b.value);
      PrepareKeeps(t, disk, e, w2, temp, full, b.value);
      PrepareLeaves(e, w2, temp, full, b.value);
      var (w3, stopped) := PrepareRun(e, w2, temp, full, b.value);
      if stopped.None? {
        FinishKeeps(t, disk, e, w3, temp, b.value, IdentityOf(full));
      }
    }
  }

  lemma WritingTerms(draft: Version, full: Version, x: Expected, baseline: Option<Identity>)
    requires full.regular
    requires x.MustBe? ==> baseline == Some(x.id)
    requires !x.MustBe? && baseline.Some? ==> baseline.value.digest.None?
    ensures var t := Writing(draft, full, x);
            t.ours(draft) && Covers(t, baseline, IdentityOf(full)) && Identifies(IdentityOf(full), full)
  {
  }

  lemma {:induction false} FinishKeeps(t: Terms, start: Disk, e: Env, w: World, temp: Name, baseline: Option<Identity>,
                                       repl: Identity)
    requires Faithful(t, start, w) && Covers(t, baseline, repl)
    requires temp.Private? && temp in w.disk.dir && Identifies(repl, w.disk.dir[temp])
    ensures Faithful(t, start, FinishRun(e, w, temp, baseline, repl).0)
  {
    hide Faithful, CommitRun, SettleRun, Pending;
    CommitKeeps(t, start, e, w, temp, baseline, repl);
    var (w1, o) := CommitRun(e, w, temp, baseline, repl);
    SettleKeeps(t, start, e, w1, o, temp, repl);
  }

  /** No version is lost by a write, at any moment at which it may be killed. */
  lemma {:induction false} WriteLosesNothing(e: Env, disk: Disk, temp: Name, draft: Version, full: Version, x: Expected,
                          j: nat, k: nat, v: Version)
    requires temp.Private? && full.regular
    requires var log := WriteRun(e, World(disk, [], 0), temp, draft, full, x).0.log;
             j <= k <= |log| && v in Replay(disk, log[..j]).dir.Values
    ensures var log := WriteRun(e, World(disk, [], 0), temp, draft, full, x).0.log;
            Accounted(Writing(draft, full, x), disk, log, j, k, v)
  {
    WriteKeeps(e, disk, temp, draft, full, x);
    NoLostVersion(Writing(draft, full, x), disk, WriteRun(e, World(disk, [], 0), temp, draft, full, x).0.log, j, k, v);
  }

  /** What a write did to the target, by its outcome. An exception means the
      target was left alone or given back, unless a warning was lost or a
      termination signal came after the commit. */
  ghost predicate WriteHonest(puts: seq<Put>, result: Written, full: Version, x: Expected) {
    match result
    case Ok =>
      && |puts| == 1 && puts[0].installed == Some(full)
      && (if x.MustBe? then puts[0].displaced.Some? && Identifies(x.id, puts[0].displaced.value)
          else puts[0].displaced.None?)
    case OkWithWarning => |puts| == 1 && puts[0].installed == Some(full)
    case NotWritten(reason) =>
      var kept := |puts| == 1 && puts[0].installed == Some(full);
      if reason.WarningLost? then kept
      else puts == [] || SwappedBack(puts, full) || (reason.Terminated? && kept)
  }

  lemma {:induction false} SettlePuts(e: Env, w: World, o: Outcome, temp: Name, repl: Identity)
    ensures SettleRun(e, w, o, temp, repl).0.disk.puts == w.disk.puts
  {
    var w1 := if o.Warned? then ReportRun(e, w).0 else w;
    assert w1.disk.puts == w.disk.puts;
    DiscardPuts(e, w1, temp, repl);
    ConfirmPuts(e, w1);
    ConfirmPuts(e, ConfirmRun(e, w1).0);
  }

  lemma ConfirmPuts(e: Env, w: World)
    ensures ConfirmRun(e, w).0.disk.puts == w.disk.puts
  {
  }

  /** The result of settling, by the outcome of the commit. */
  lemma SettleResult(e: Env, w: World, o: Outcome, temp: Name, repl: Identity)
    ensures match SettleRun(e, w, o, temp, repl).1
            case Ok => o.Returned?
            case OkWithWarning => !o.Refused?
            case NotWritten(reason) => if o.Refused? then reason == CommitRefused(o.cause) else reason.WarningLost?
  {
  }

  lemma SettleHonest(before: Disk, after: Disk, o: Outcome, result: Written, baseline: Option<Identity>,
                     full: Version, x: Expected)
    requires Honest(before, after, o, full, baseline)
    requires x.MustBe? ==> baseline == Some(x.id)
    requires !x.MustBe? && baseline.Some? ==> baseline.value.digest.None?
    requires match result
             case Ok => o.Returned?
             case OkWithWarning => !o.Refused?
             case NotWritten(reason) => if o.Refused? then reason == CommitRefused(o.cause) else reason.WarningLost?
    ensures WriteHonest(Since(after, before), result, full, x)
  {
  }

  lemma {:induction false} FinishHonest(e: Env, w: World, temp: Name, baseline: Option<Identity>, full: Version,
                                        x: Expected)
    requires temp.Private? && Get(w.disk.dir, temp) == Some(full) && full.regular
    requires x.MustBe? ==> baseline == Some(x.id)
    requires !x.MustBe? && baseline.Some? ==> baseline.value.digest.None?
    ensures var (w', result) := FinishRun(e, w, temp, baseline, IdentityOf(full));
            w.disk.puts <= w'.disk.puts && WriteHonest(Since(w'.disk, w.disk), result, full, x)
  {
    CommitHonest(e, w, temp, baseline, IdentityOf(full));
    var (w1, o) := CommitRun(e, w, temp, baseline, IdentityOf(full));
    SettleResult(e, w1, o, temp, IdentityOf(full));
    var (w2, result) := SettleRun(e, w1, o, temp, IdentityOf(full));
    SettleHonest(w.disk, w1.disk, o, result, baseline, full, x);
    SettlePuts(e, w1, o, temp, IdentityOf(full));
    hide CommitRun, SettleRun, Honest, Pending;
  }

  lemma {:induction false} WriteIsHonest(e: Env, disk: Disk, temp: Name, draft: Version, full: Version, x: Expected)
    requires temp.Private? && full.regular
    ensures var (w', result) := WriteRun(e, World(disk, [], 0), temp, draft, full, x);
            disk.puts <= w'.disk.puts && WriteHonest(Since(w'.disk, disk), result, full, x)
  {
    var (w1, r) := Inspect(e, World(disk, [], 0), Target);
    BaselineMeaning(r, x);
    var b := Baseline(r, x);
    var (w2, created) := Attempt(e, w1, Create(temp, draft));
    assert w1.disk.puts == disk.puts && w2.disk.puts == disk.puts && (created.Done? ==> temp in w2.disk.dir);
    hide Attempt, Inspect, PrepareRun, FinishRun, WriteHonest, Baseline;
    if b.Some? && created.Done? {
      PrepareLeaves(e, w2, temp, full, b.value);
      PrepareStops(e, w2, temp, full, b.value);
      var (w3, stopped) := PrepareRun(e, w2, temp, full, b.value);
      if stopped.None? {
        FinishHonest(e, w3, temp, b.value, full, x);
      }
    }
    UnpublishedHonest(full, x);
  }

  lemma UnpublishedHonest(full: Version, x: Expected)
    ensures forall reason: Reason :: !reason.WarningLost? ==> WriteHonest([], NotWritten(reason), full, x)
  {
  }

  lemma PrepareStops(e: Env, w: World, temp: Name, full: Version, baseline: Option<Identity>)
    ensures var stopped := PrepareRun(e, w, temp, full, baseline).1;
            stopped.Some? ==> !stopped.value.WarningLost?
  {
    hide Attempt, DiscardRun, RecordRun, Inspect;
  }

  // When the exception is dishonest

  /** The log grew, and by nothing that was reported or recorded. */
  ghost predicate Silent(w: World, w': World) {
    && w.log <= w'.log
    && forall i | |w.log| <= i < |w'.log| :: !w'.log[i].Warn? && !w'.log[i].Intent?
  }

  lemma SilentTrans(w1: World, w2: World, w3: World)
    requires Silent(w1, w2) && Silent(w2, w3)
    ensures Silent(w1, w3)
  {
  }

  lemma InterfereSilent(e: Env, w: World)
    ensures Silent(w, Interfere(e, w))
  {
  }

  lemma AttemptSilent(e: Env, w: World, s: Step)
    requires !s.Warn? && !s.Intent?
    ensures Silent(w, Attempt(e, w, s).0)
  {
    InterfereSilent(e, w);
    hide Interfere;
  }

  lemma DiscardSilent(e: Env, w: World, n: Name, id: Identity)
    ensures Silent(w, DiscardRun(e, w, n, id).0)
  {
    InterfereSilent(e, w);
    var w1 := Inspect(e, w, n).0;
    AttemptSilent(e, w1, Discard(n));
    SilentTrans(w, w1, Attempt(e, w1, Discard(n)).0);
    hide Silent, Attempt, Interfere;
  }

  lemma ParkSilent(e: Env, w: World, temp: Name, tries: nat)
    ensures Silent(w, ParkRun(e, w, temp, tries).0)
    decreases tries
  {
    if tries > 0 {
      AttemptSilent(e, w, Move(temp, Fresh(e, w)));
      var w1 := Attempt(e, w, Move(temp, Fresh(e, w))).0;
      ParkSilent(e, w1, temp, tries - 1);
      SilentTrans(w, w1, ParkRun(e, w1, temp, tries - 1).0);
    }
  }

  lemma {:induction false} RestoreSilent(e: Env, w: World, recovery: Name, repl: Identity, conflict: bool)
    ensures Silent(w, RestoreRun(e, w, recovery, repl, conflict).0)
  {
    var w1 := Attempt(e, w, Exchange(recovery, Target)).0;
    AttemptSilent(e, w, Exchange(recovery, Target));
    var w2 := DiscardRun(e, w1, recovery, repl).0;
    DiscardSilent(e, w1, recovery, repl);
    InterfereSilent(e, w2);
    SilentTrans(w, w1, w2);
    SilentTrans(w, w2, Sync(e, w2).0);
    hide Silent, Attempt, DiscardRun, Interfere;
  }

  lemma {:induction false} AuditSilent(e: Env, w: World, recovery: Name, baseline: Identity, repl: Identity)
    ensures Silent(w, AuditRun(e, w, recovery, baseline, repl).0)
  {
    var w1 := Inspect(e, w, recovery).0;
    InterfereSilent(e, w);
    RestoreSilent(e, w1, recovery, repl, true);
    RestoreSilent(e, w1, recovery, repl, false);
    SilentTrans(w, w1, RestoreRun(e, w1, recovery, repl, true).0);
    SilentTrans(w, w1, RestoreRun(e, w1, recovery, repl, false).0);
    AttemptSilent(e, w1, Discard(recovery));
    SilentTrans(w, w1, Attempt(e, w1, Discard(recovery)).0);
    hide Silent, RestoreRun, Attempt, Interfere, Sync;
  }

  lemma {:induction false} SwapSilent(e: Env, w: World, temp: Name, baseline: Identity, repl: Identity)
    ensures Silent(w, SwapRun(e, w, temp, baseline, repl).0)
  {
    AttemptSilent(e, w, Exchange(temp, Target));
    var w1 := Attempt(e, w, Exchange(temp, Target)).0;
    ParkSilent(e, w1, temp, 3);
    var (w2, parked) := ParkRun(e, w1, temp, 3);
    SilentTrans(w, w1, w2);
    hide Silent, Attempt, ParkRun;
    if parked.Some? {
      AuditSilent(e, w2, parked.value, baseline, repl);
      SilentTrans(w, w2, AuditRun(e, w2, parked.value, baseline, repl).0);
    } else {
      AttemptSilent(e, w2, Exchange(temp, Target));
      SilentTrans(w, w2, Attempt(e, w2, Exchange(temp, Target)).0);
    }
  }

  lemma {:induction false} CommitSilent(e: Env, w: World, temp: Name, baseline: Option<Identity>, repl: Identity)
    ensures Silent(w, CommitRun(e, w, temp, baseline, repl).0)
  {
    if baseline.Some? {
      SwapSilent(e, w, temp, baseline.value, repl);
    } else {
      AttemptSilent(e, w, Move(temp, Target));
    }
    hide Silent, SwapRun, Attempt;
  }

  lemma ConfirmWarns(e: Env, w: World)
    ensures w.log <= ConfirmRun(e, w).0.log
    ensures Warn(false) in ConfirmRun(e, w).0.log <==> Warn(false) in w.log || Unheard(ConfirmRun(e, w).1)
  {
    var w1 := Sync(e, w).0;
    assert Warn(false) in w1.log <==> Warn(false) in w.log;
  }

  lemma {:induction false} SettleWarns(e: Env, w: World, o: Outcome, temp: Name, repl: Identity)
    requires Warn(false) !in w.log
    ensures var (w', result) := SettleRun(e, w, o, temp, repl);
            w.log <= w'.log && (result == NotWritten(WarningLost) <==> Warn(false) in w'.log)
  {
    var (w1, told) := if o.Warned? then ReportRun(e, w) else (w, true);
    assert w.log <= w1.log && (Warn(false) in w1.log <==> !told);
    hide ReportRun, DiscardRun, ConfirmRun, CloseRun, Interfere;
    DiscardSilent(e, w1, temp, repl);
    ConfirmWarns(e, w1);
    CloseWarns(e, ConfirmRun(e, w1).0);
  }

  lemma CloseWarns(e: Env, w: World)
    ensures w.log <= CloseRun(e, w).0.log
    ensures Warn(false) in CloseRun(e, w).0.log <==> Warn(false) in w.log || Unheard(CloseRun(e, w).1)
  {
    ConfirmWarns(e, w);
    InterfereSilent(e, w);
    hide ConfirmRun, Interfere;
  }

  /** Preparation reports no warning, leaves the target alone, and goes on only
      with the intent on record. */
  ghost predicate Prepared(w: World, w': World, digest: nat, going: bool) {
    && w.log <= w'.log
    && (forall i | |w.log| <= i < |w'.log| ::
          !w'.log[i].Warn? && !TouchesTarget(w'.log[i]) && (w'.log[i].Intent? ==> w'.log[i] == Intent(digest)))
    && (going ==> Intent(digest) in w'.log)
  }

  lemma PreparedTrans(w1: World, w2: World, w3: World, digest: nat, going: bool)
    requires Prepared(w1, w2, digest, going) && Prepared(w2, w3, digest, false)
    ensures Prepared(w1, w3, digest, going)
  {
  }

  lemma PreparedLater(w1: World, w2: World, w3: World, digest: nat, going: bool)
    requires Prepared(w1, w2, digest, false) && Prepared(w2, w3, digest, going)
    ensures Prepared(w1, w3, digest, going)
  {
  }

  lemma InterfereGrows(e: Env, w: World, digest: nat)
    ensures Prepared(w, Interfere(e, w), digest, false)
  {
  }

  lemma AttemptGrows(e: Env, w: World, s: Step, digest: nat)
    requires !s.Warn? && !TouchesTarget(s) && !s.Intent?
    ensures Prepared(w, Attempt(e, w, s).0, digest, false)
  {
    InterfereGrows(e, w, digest);
    hide Interfere;
  }

  lemma RecordGrows(e: Env, w: World, digest: nat)
    ensures Prepared(w, RecordRun(e, w, digest).0, digest, RecordRun(e, w, digest).1)
  {
  }

  lemma DiscardGrows(e: Env, w: World, n: Name, id: Identity, digest: nat)
    requires n.Private?
    ensures Prepared(w, DiscardRun(e, w, n, id).0, digest, false)
  {
    InterfereGrows(e, w, digest);
    var w1 := Inspect(e, w, n).0;
    AttemptGrows(e, w1, Discard(n), digest);
    PreparedTrans(w, w1, Attempt(e, w1, Discard(n)).0, digest, false);
    hide Prepared, Attempt, Interfere;
  }

  lemma {:induction false} IntendGrows(e: Env, w: World, temp: Name, full: Version, baseline: Option<Identity>)
    requires temp.Private?
    ensures var (w', stopped) := IntendRun(e, w, temp, full, baseline);
            Prepared(w, w', full.digest, stopped.None?)
  {
    RecordGrows(e, w, full.digest);
    var (w1, recorded) := RecordRun(e, w, full.digest);
    DiscardGrows(e, w1, temp, IdentityOf(full), full.digest);
    var w2 := Inspect(e, w1, Target).0;
    InterfereGrows(e, w1, full.digest);
    DiscardGrows(e, w2, temp, IdentityOf(full), full.digest);
    PreparedTrans(w, w1, w2, full.digest, recorded);
    PreparedTrans(w, w1, DiscardRun(e, w1, temp, IdentityOf(full)).0, full.digest, recorded);
    PreparedTrans(w, w2, DiscardRun(e, w2, temp, IdentityOf(full)).0, full.digest, recorded);
    PreparedWeaker(w, DiscardRun(e, w2, temp, IdentityOf(full)).0, full.digest, recorded);
    hide Prepared, RecordRun, DiscardRun, Interfere;
  }

  lemma PreparedWeaker(w1: World, w2: World, digest: nat, going: bool)
    requires Prepared(w1, w2, digest, going)
    ensures Prepared(w1, w2, digest, false)
  {
  }

  lemma {:induction false} PrepareGrows(e: Env, w: World, temp: Name, full: Version, baseline: Option<Identity>)
    requires temp.Private?
    ensures var (w', stopped) := PrepareRun(e, w, temp, full, baseline);
            Prepared(w, w', full.digest, stopped.None?)
  {
    var w1 := Attempt(e, w, Fill(temp, full)).0;
    AttemptGrows(e, w, Fill(temp, full), full.digest);
    IntendGrows(e, w1, temp, full, baseline);
    var (w2, stopped) := IntendRun(e, w1, temp, full, baseline);
    PreparedLater(w, w1, w2, full.digest, stopped.None?);
    var w3 := Attempt(e, w1, Discard(temp)).0;
    AttemptGrows(e, w1, Discard(temp), full.digest);
    PreparedTrans(w, w1, w3, full.digest, false);
    hide Prepared, Attempt, IntendRun;
  }

  /** A preparation that goes on was not interrupted. */
  lemma PrepareCalm(e: Env, w: World, temp: Name, full: Version, baseline: Option<Identity>)
    ensures var (w', stopped) := PrepareRun(e, w, temp, full, baseline);
            stopped.None? ==> w'.tick == w.tick + 3 && !Pending(e, w.tick, w'.tick)
  {
    hide DiscardRun;
    var w1 := Attempt(e, w, Fill(temp, full)).0;
    assert w1.tick == w.tick + 1;
    var w2 := RecordRun(e, w1, full.digest).0;
    assert w2.tick == w.tick + 2;
  }

  /** Once the commit began: if the replacement stays published, the write raises exactly
      when a report raised or a termination signal arrived. */
  lemma {:induction false} FinishDishonestIff(e: Env, w: World, temp: Name, baseline: Option<Identity>, full: Version)
    requires temp.Private? && Get(w.disk.dir, temp) == Some(full) && full.regular && Warn(false) !in w.log
    ensures var (w', result) := FinishRun(e, w, temp, baseline, IdentityOf(full));
            && w.disk.puts <= w'.disk.puts
            && (Warn(false) in w'.log ==> |Since(w'.disk, w.disk)| == 1)
            && (|Since(w'.disk, w.disk)| == 1 ==>
                  (result.NotWritten? <==> Warn(false) in w'.log || Pending(e, w.tick, w'.tick)))
  {
    CommitHonest(e, w, temp, baseline, IdentityOf(full));
    CommitSilent(e, w, temp, baseline, IdentityOf(full));
    var (w1, o) := CommitRun(e, w, temp, baseline, IdentityOf(full));
    assert Warn(false) !in w1.log;
    SettleWarns(e, w1, o, temp, IdentityOf(full));
    SettleResult(e, w1, o, temp, IdentityOf(full));
    SettlePuts(e, w1, o, temp, IdentityOf(full));
    assert |Since(w1.disk, w.disk)| == 1 <==> !o.Refused?;
    hide CommitRun, SettleRun, Honest, Pending;
  }

  lemma {:induction false} WriteStart(e: Env, disk: Disk, temp: Name, draft: Version)
    ensures var w1 := Inspect(e, World(disk, [], 0), Target).0;
            var (w2, created) := Attempt(e, w1, Create(temp, draft));
            && w1.tick == 1 && w2.tick == 2 && w1.disk.puts == disk.puts && w2.disk.puts == disk.puts
            && (created.Done? ==> temp in w2.disk.dir)
            && forall s :: s in w1.log || s in w2.log ==> !s.Warn? && !s.Intent?
  {
  }

  lemma PendingFrom(e: Env, from: nat, mid: nat, to: nat)
    requires !Pending(e, from, mid) && from <= mid
    ensures Pending(e, from, to) <==> Pending(e, mid, to)
  {
  }

  /** The exact condition: a write whose replacement stays published raises if and only if
      the reporter of a post-commit warning raised or a termination signal arrived during
      the write; and such a report is never made of a replacement that was taken back. */
  lemma {:induction false} WriteDishonestIff(e: Env, disk: Disk, temp: Name, draft: Version, full: Version, x: Expected)
    requires temp.Private? && full.regular
    ensures var (w', result) := WriteRun(e, World(disk, [], 0), temp, draft, full, x);
            && disk.puts <= w'.disk.puts
            && (Warn(false) in w'.log ==> |Since(w'.disk, disk)| == 1)
            && (|Since(w'.disk, disk)| == 1 ==>
                  (result.NotWritten? <==> Warn(false) in w'.log || Pending(e, 0, w'.tick)))
  {
    var w := World(disk, [], 0);
    var (w1, r) := Inspect(e, w, Target);
    var b := Baseline(r, x);
    var (w2, created) := Attempt(e, w1, Create(temp, draft));
    WriteStart(e, disk, temp, draft);
    hide PrepareRun, FinishRun, Attempt, Inspect, Interfere, Baseline;
    if b.Some? && created.Done? && !e.stop(0) && !e.stop(1) {
      assert !Pending(e, 0, 2);
      PrepareGrows(e, w2, temp, full, b.value);
      PrepareLeaves(e, w2, temp, full, b.value);
      PrepareCalm(e, w2, temp, full, b.value);
      var (w3, stopped) := PrepareRun(e, w2, temp, full, b.value);
      assert Warn(false) !in w3.log;
      if stopped.None? {
        FinishDishonestIff(e, w3, temp, b.value, full);
        PendingFrom(e, 0, 2, 5);
        PendingFrom(e, 0, 5, FinishRun(e, w3, temp, b.value, IdentityOf(full)).0.tick);
      }
    }
  }

  /** A concrete case: a new file is published, `fsync` fails, the warning cannot
      be persisted, and the caller sees an ordinary exception. */
  lemma {:induction false} LostWarningExample()
    ensures var full := Version(true, 0, 7, 420, 5, 0, 99);
            var e := Env(_ => None, i => if i == 6 || i == 7 then OsFault else NoFault, i => i + 1, _ => false);
            var (w', result) := WriteRun(e, World(Disk(map[], []), [], 0), Private(0),
                                         full.(size := 0, digest := 0), full, MustBeMissing);
            result == NotWritten(WarningLost) && Get(w'.disk.dir, Target) == Some(full)
  {
    var full := Version(true, 0, 7, 420, 5, 0, 99);
    var e := Env(_ => None, i => if i == 6 || i == 7 then OsFault else NoFault, i => i + 1, _ => false);
    LostWarning(e, Private(0), full.(size := 0, digest := 0), full);
  }

  /** The other case: the same write with no failure at all, but a termination signal
      while the file is being moved to the target. Nothing warns of it. */
  lemma {:induction false} TerminatedExample()
    ensures var full := Version(true, 0, 7, 420, 5, 0, 99);
            var e := Env(_ => None, _ => NoFault, i => i + 1, i => i == 5);
            var (w', result) := WriteRun(e, World(Disk(map[], []), [], 0), Private(0),
                                         full.(size := 0, digest := 0), full, MustBeMissing);
            result == NotWritten(Terminated) && Get(w'.disk.dir, Target) == Some(full) && Warn(false) !in w'.log
  {
    var full := Version(true, 0, 7, 420, 5, 0, 99);
    var draft, temp := full.(size := 0, digest := 0), Private(0);
    var e := Env(_ => None, _ => NoFault, i => i + 1, i => i == 5);
    QuietWrite(e, temp, draft, full);
    assert e.stop(5) && Pending(e, 5, 8);
  }

  lemma LostWarning(e: Env, temp: Name, draft: Version, full: Version)
    requires forall i :: e.rival(i).None? && !e.stop(i)
    requires (forall i | 0 <= i < 6 :: e.fault(i).NoFault?) && e.fault(6).OsFault? && e.fault(7).OsFault?
    requires temp.Private?
    ensures var (w', result) := WriteRun(e, World(Disk(map[], []), [], 0), temp, draft, full, MustBeMissing);
            result == NotWritten(WarningLost) && Get(w'.disk.dir, Target) == Some(full)
  {
    var w := QuietStart(e, temp, draft, full);
    LostWarningSettles(e, w, temp, IdentityOf(full));
    hide SettleRun, WriteRun;
  }

  /** A new file with neither rivals nor failures: written unless a signal arrives. */
  lemma QuietWrite(e: Env, temp: Name, draft: Version, full: Version)
    requires forall i :: e.rival(i).None? && e.fault(i).NoFault?
    requires (forall i | 0 <= i < 5 :: !e.stop(i)) && temp.Private?
    ensures var (w', result) := WriteRun(e, World(Disk(map[], []), [], 0), temp, draft, full, MustBeMissing);
            && result == (if Pending(e, 5, 8) then NotWritten(Terminated) else Ok)
            && Get(w'.disk.dir, Target) == Some(full) && w'.disk.puts == [Put(Some(full), None)]
            && (forall s :: s in w'.log ==> !s.Warn?)
  {
    var w := QuietStart(e, temp, draft, full);
    QuietSettles(e, w, temp, IdentityOf(full));
    hide SettleRun, WriteRun, Pending;
  }

  /** Such a write up to the rename. */
  lemma QuietStart(e: Env, temp: Name, draft: Version, full: Version) returns (w: World)
    requires (forall i :: e.rival(i).None?) && forall i | 0 <= i < 6 :: e.fault(i).NoFault?
    requires (forall i | 0 <= i < 5 :: !e.stop(i)) && temp.Private?
    ensures w.tick == 6 && Get(w.disk.dir, Target) == Some(full) && w.disk.puts == [Put(Some(full), None)]
    ensures forall s :: s in w.log ==> !s.Warn?
    ensures WriteRun(e, World(Disk(map[], []), [], 0), temp, draft, full, MustBeMissing) ==
            var (w', result) := SettleRun(e, w, Returned, temp, IdentityOf(full));
            (w', if Pending(e, 5, w'.tick) then NotWritten(Terminated) else result)
  {
    hide SettleRun, Pending;
    var w1 := World(Disk(map[], []), [], 1);
    var (w2, created) := Attempt(e, w1, Create(temp, draft));
    assert created.Done? && w2.disk.dir == map[temp := draft] && w2.tick == 2;
    QuietPreparation(e, w2, temp, full);
    var w5 := PrepareRun(e, w2, temp, full, None).0;
    var moved: Io;
    w, moved := Attempt(e, w5, Move(temp, Target)).0, Attempt(e, w5, Move(temp, Target)).1;
    assert moved.Done? && Get(w.disk.dir, Target) == Some(full);
    hide PrepareRun;
    assert FinishRun(e, w5, temp, None, IdentityOf(full)).0 == SettleRun(e, w, Returned, temp, IdentityOf(full)).0;
    hide Attempt;
  }

  lemma QuietPreparation(e: Env, w: World, temp: Name, full: Version)
    requires forall i :: e.rival(i).None?
    requires forall i | w.tick <= i < w.tick + 3 :: e.fault(i).NoFault? && !e.stop(i)
    requires temp.Private? && temp in w.disk.dir && w.disk.dir.Keys == {temp} && forall s :: s in w.log ==> !s.Warn?
    ensures var (w', stopped) := PrepareRun(e, w, temp, full, None);
            && stopped.None? && w'.disk.dir == map[temp := full] && w'.tick == w.tick + 3
            && w'.disk.puts == w.disk.puts && forall s :: s in w'.log ==> !s.Warn?
  {
    var (w1, filled) := Attempt(e, w, Fill(temp, full));
    assert filled.Done? && w1.disk.dir == map[temp := full] && w1.tick == w.tick + 1;
    var (w2, recorded) := RecordRun(e, w1, full.digest);
    assert recorded && w2.disk.dir == w1.disk.dir && w2.tick == w.tick + 2;
    assert IntendRun(e, w1, temp, full, None) == (w2.(tick := w.tick + 3), None);
  }

  lemma QuietSettles(e: Env, w: World, temp: Name, repl: Identity)
    requires forall i :: e.rival(i).None? && e.fault(i).NoFault?
    ensures SettleRun(e, w, Returned, temp, repl) == (w.(tick := w.tick + 2), Ok)
  {
    assert ConfirmRun(e, w) == (w.(tick := w.tick + 1), None);
    var w1 := w.(tick := w.tick + 1);
    assert CloseRun(e, w1) == (w.(tick := w.tick + 2), None);
  }

  lemma LostWarningSettles(e: Env, w: World, temp: Name, repl: Identity)
    requires forall i :: e.rival(i).None? && !e.stop(i)
    requires e.fault(w.tick).OsFault? && e.fault(w.tick + 1).OsFault?
    ensures var (w', result) := SettleRun(e, w, Returned, temp, repl);
            result == NotWritten(WarningLost) && w'.disk == w.disk
  {
    var (w1, told) := ConfirmRun(e, w);
    assert told == Some(false) && w1.disk == w.disk;
    assert ConfirmRun(e, w1).0.disk == w1.disk;
  }

  // Intent before effect

  ghost predicate NoPuts(start: Disk, log: seq<Step>) {
    forall k | 0 <= k <= |log| :: Replay(start, log[..k]).puts == start.puts
  }

  lemma NoPutsGrows(start: Disk, log: seq<Step>, more: seq<Step>)
    requires NoPuts(start, log) && log <= more
    requires forall i | |log| <= i < |more| :: !TouchesTarget(more[i])
    ensures NoPuts(start, more)
    decreases |more|
  {
    if |log| < |more| {
      NoPutsGrows(start, log, more[..|more| - 1]);
      forall k | 0 <= k <= |more| ensures Replay(start, more[..k]).puts == start.puts {
        if k < |more| {
          assert more[..k] == more[..|more| - 1][..k];
        } else {
          assert more[..k] == more && more[..|more| - 1] == more[..|more| - 1][..|more| - 1];
        }
      }
    } else {
      assert log == more;
    }
  }

  lemma NoPutsPrefix(start: Disk, log: seq<Step>, more: seq<Step>, k: nat)
    requires NoPuts(start, log) && log <= more && k <= |log|
    ensures Replay(start, more[..k]).puts == start.puts
  {
    assert more[..k] == log[..k];
  }

  /** At every moment of a write, also when it is killed there: if the protocol
      has ever touched the target, the journal already holds the intent record
      with the digest of the replacement. */
  lemma IntentBeforeEffect(e: Env, disk: Disk, temp: Name, draft: Version, full: Version, x: Expected, k: nat)
    requires var log := WriteRun(e, World(disk, [], 0), temp, draft, full, x).0.log;
             k <= |log| && |Replay(disk, log[..k]).puts| > |disk.puts|
    ensures var log := WriteRun(e, World(disk, [], 0), temp, draft, full, x).0.log;
            Intent(full.digest) in log[..k]
  {
    var w := World(disk, [], 0);
    var (w1, r) := Inspect(e, w, Target);
    var b := Baseline(r, x);
    var (w2, created) := Attempt(e, w1, Create(temp, draft));
    var log := WriteRun(e, w, temp, draft, full, x).0.log;
    NoPutsGrows(disk, [], w1.log);
    NoPutsGrows(disk, [], w2.log);
    if b.Some? && created.Done? {
      PrepareGrows(e, w2, temp, full, b.value);
      var (w3, stopped) := PrepareRun(e, w2, temp, full, b.value);
      NoPutsGrows(disk, w2.log, w3.log);
      if stopped.None? {
        FinishGrows(e, w3, temp, b.value, IdentityOf(full));
        NoPutsPrefix(disk, w3.log, log, if k <= |w3.log| then k else 0);
        assert w3.log <= log[..k];
      }
    }
  }

  /** What a child's log says once its write has returned. */
  lemma {:induction false} WriteLog(e: Env, disk: Disk, temp: Name, draft: Version, full: Version, x: Expected)
    requires temp.Private? && full.regular
    ensures var (w', result) := WriteRun(e, World(disk, [], 0), temp, draft, full, x);
            && (!result.NotWritten? ==> Intent(full.digest) in w'.log)
            && (result.OkWithWarning? ==> Warn(true) in w'.log)
            && (forall s :: s in w'.log && s.Intent? ==> s == Intent(full.digest))
  {
    var w := World(disk, [], 0);
    var (w1, r) := Inspect(e, w, Target);
    var b := Baseline(r, x);
    var (w2, created) := Attempt(e, w1, Create(temp, draft));
    WriteStart(e, disk, temp, draft);
    hide PrepareRun, FinishRun, Attempt, Inspect, Interfere, Baseline;
    if b.Some? && created.Done? && !e.stop(0) && !e.stop(1) {
      PrepareGrows(e, w2, temp, full, b.value);
      var (w3, stopped) := PrepareRun(e, w2, temp, full, b.value);
      assert forall s :: s in w3.log && s.Intent? ==> s == Intent(full.digest);
      if stopped.None? {
        FinishLog(e, w3, temp, b.value, IdentityOf(full));
      }
    }
  }

  lemma {:induction false} FinishLog(e: Env, w: World, temp: Name, baseline: Option<Identity>, repl: Identity)
    ensures var (w', result) := FinishRun(e, w, temp, baseline, repl);
            && (forall s :: s in w.log ==> s in w'.log)
            && (forall s :: s in w'.log && s.Intent? ==> s in w.log)
            && (result.OkWithWarning? ==> Warn(true) in w'.log)
  {
    CommitSilent(e, w, temp, baseline, repl);
    var (w1, o) := CommitRun(e, w, temp, baseline, repl);
    SettleLog(e, w1, o, temp, repl);
    hide CommitRun, SettleRun, Pending;
  }

  lemma {:induction false} SettleLog(e: Env, w: World, o: Outcome, temp: Name, repl: Identity)
    ensures var (w', result) := SettleRun(e, w, o, temp, repl);
            && (forall s :: s in w.log ==> s in w'.log)
            && (forall s :: s in w'.log && s.Intent? ==> s in w.log)
            && (result.OkWithWarning? ==> Warn(true) in w'.log)
  {
    hide ReportRun, DiscardRun, ConfirmRun, CloseRun, Silent;
    ReportLog(e, w);
    var (w1, told) := if o.Warned? then ReportRun(e, w) else (w, true);
    DiscardSilent(e, w1, temp, repl);
    SilentLog(w1, DiscardRun(e, w1, temp, repl).0);
    ConfirmLog(e, w1);
    var (w2, synced) := ConfirmRun(e, w1);
    CloseLog(e, w2);
    var (w3, closed) := CloseRun(e, w2);
    assert Warn(true) in w1.log ==> Warn(true) in w2.log;
    assert Warn(true) in w2.log ==> Warn(true) in w3.log;
    if SettleRun(e, w, o, temp, repl).1.OkWithWarning? {
      assert o.Warned? || synced.Some? || closed.Some?;
      assert Warn(true) in w3.log;
      assert SettleRun(e, w, o, temp, repl).0 == w3;
    }
  }

  lemma SilentLog(w: World, w': World)
    requires Silent(w, w')
    ensures (forall s :: s in w.log ==> s in w'.log) && (forall s :: s in w'.log && s.Intent? ==> s in w.log)
  {
  }

  lemma CloseLog(e: Env, w: World)
    ensures var (w', told) := CloseRun(e, w);
            && (forall s :: s in w.log ==> s in w'.log) && (forall s :: s in w'.log && s.Intent? ==> s in w.log)
            && (told.Some? && !Unheard(told) ==> Warn(true) in w'.log)
  {
    ConfirmLog(e, w);
    InterfereSilent(e, w);
    SilentLog(w, Sync(e, w).0);
    hide ConfirmRun, Interfere, Silent;
  }

  lemma ReportLog(e: Env, w: World)
    ensures var (w', told) := ReportRun(e, w);
            && (forall s :: s in w.log ==> s in w'.log) && (forall s :: s in w'.log && s.Intent? ==> s in w.log)
            && (told ==> Warn(true) in w'.log)
  {
    InterfereSilent(e, w);
  }

  lemma ConfirmLog(e: Env, w: World)
    ensures var (w', told) := ConfirmRun(e, w);
            && (forall s :: s in w.log ==> s in w'.log) && (forall s :: s in w'.log && s.Intent? ==> s in w.log)
            && (told.Some? && !Unheard(told) ==> Warn(true) in w'.log)
  {
    InterfereSilent(e, w);
    ReportLog(e, Sync(e, w).0);
    hide ReportRun;
  }

  lemma {:induction false} SettleGrows(e: Env, w: World, o: Outcome, temp: Name, repl: Identity)
    ensures w.log <= SettleRun(e, w, o, temp, repl).0.log
  {
    var w1 := if o.Warned? then ReportRun(e, w).0 else w;
    assert w.log <= w1.log;
    DiscardSilent(e, w1, temp, repl);
    ConfirmWarns(e, w1);
    ConfirmWarns(e, ConfirmRun(e, w1).0);
  }

  lemma {:induction false} FinishGrows(e: Env, w: World, temp: Name, baseline: Option<Identity>, repl: Identity)
    ensures w.log <= FinishRun(e, w, temp, baseline, repl).0.log
  {
    CommitSilent(e, w, temp, baseline, repl);
    var (w1, o) := CommitRun(e, w, temp, baseline, repl);
    SettleGrows(e, w1, o, temp, repl);
  }

  // The tool around the write

  /** A tool whose write ended with a warning reports it once more before it answers
      (`_committed_result`); that report may raise or be interrupted like the others. */
  function ToolRun(e: Env, w: World, temp: Name, draft: Version, full: Version, x: Expected): (World, Written) {
    var (w1, result) := WriteRun(e, w, temp, draft, full, x);
    if !result.OkWithWarning? then (w1, result)
    else
      var (w2, told) := ReportRun(e, w1);
      (w2, if e.stop(w1.tick) then NotWritten(Terminated) else if told then OkWithWarning else NotWritten(WarningLost))
  }

  method ExecuteWrite(f: Folder, temp: Name, draft: Version, full: Version, x: Expected) returns (result: Written)
    modifies f
    ensures (f.View(), result) == ToolRun(f.env, old(f.View()), temp, draft, full, x)
  {
    result := WritePosix(f, temp, draft, full, x);
    if result.OkWithWarning? {
      var stop := f.env.stop(f.tick);
      var told := Report(f);
      if stop || !told {
        result := NotWritten(if stop then Terminated else WarningLost);
      }
    }
  }

  /** What the second report adds to a run. */
  lemma ReportAdds(e: Env, w: World)
    ensures var (w', told) := ReportRun(e, w);
            && w'.disk.puts == w.disk.puts && w'.tick == w.tick + 1 && w.log <= w'.log
            && (forall i | |w.log| <= i < |w'.log| :: w'.log[i].Rival? || w'.log[i] == Warn(told))
            && Warn(told) in w'.log
  {
  }

  /** The log of a tool's run: a success has its intent on record, and a success with a
      warning has reported it twice, by the write and by the tool. */
  lemma {:induction false} ToolLog(e: Env, disk: Disk, temp: Name, draft: Version, full: Version, x: Expected)
    requires temp.Private? && full.regular
    ensures var (w', result) := ToolRun(e, World(disk, [], 0), temp, draft, full, x);
            && (!result.NotWritten? ==> Intent(full.digest) in w'.log)
            && (result.OkWithWarning? ==>
                  Warn(true) in w'.log && exists i, j | 0 <= i < j < |w'.log| :: w'.log[i] == w'.log[j] == Warn(true))
            && (forall s :: s in w'.log && s.Intent? ==> s == Intent(full.digest))
  {
    hide WriteRun, ReportRun;
    WriteLog(e, disk, temp, draft, full, x);
    var (w1, result) := WriteRun(e, World(disk, [], 0), temp, draft, full, x);
    ReportAdds(e, w1);
    if result.OkWithWarning? && ReportRun(e, w1).1 {
      var log := ReportRun(e, w1).0.log;
      var i :| 0 <= i < |w1.log| && w1.log[i] == Warn(true);
      var j := ReportedLast(e, w1);
      assert log[i] == log[j] == Warn(true);
    }
  }

  lemma ReportedLast(e: Env, w: World) returns (j: nat)
    ensures var (w', told) := ReportRun(e, w); |w.log| <= j < |w'.log| && w'.log[j] == Warn(told)
  {
    j := |ReportRun(e, w).0.log| - 1;
  }

  /** What a tool's run did to the target, by its result. */
  lemma {:induction false} ToolIsHonest(e: Env, disk: Disk, temp: Name, draft: Version, full: Version, x: Expected)
    requires temp.Private? && full.regular
    ensures var (w', result) := ToolRun(e, World(disk, [], 0), temp, draft, full, x);
            disk.puts <= w'.disk.puts && WriteHonest(Since(w'.disk, disk), result, full, x)
  {
    hide WriteRun, ReportRun;
    WriteIsHonest(e, disk, temp, draft, full, x);
    ReportAdds(e, WriteRun(e, World(disk, [], 0), temp, draft, full, x).0);
  }

  /** The exact condition for the whole tool: if the replacement stays published, the tool
      fails if and only if a report raised, the second one included, or a signal arrived. */
  lemma {:induction false} ToolDishonestIff(e: Env, disk: Disk, temp: Name, draft: Version, full: Version, x: Expected)
    requires temp.Private? && full.regular
    ensures var (w', result) := ToolRun(e, World(disk, [], 0), temp, draft, full, x);
            && disk.puts <= w'.disk.puts
            && (|Since(w'.disk, disk)| == 1 ==>
                  (result.NotWritten? <==> Warn(false) in w'.log || Pending(e, 0, w'.tick)))
  {
    hide WriteRun, ReportRun, WriteHonest;
    WriteDishonestIff(e, disk, temp, draft, full, x);
    WriteIsHonest(e, disk, temp, draft, full, x);
    WarnedIsPublished(e, disk, temp, draft, full, x);
    var (w1, result) := WriteRun(e, World(disk, [], 0), temp, draft, full, x);
    ReportAdds(e, w1);
    var w2 := ReportRun(e, w1).0;
    if result.OkWithWarning? {
      assert Warn(false) in w2.log <==> !ReportRun(e, w1).1 by {
        assert forall s :: s in w2.log ==> s in w1.log || s.Rival? || s == Warn(ReportRun(e, w1).1);
      }
    }
  }

  lemma {:induction false} WarnedIsPublished(e: Env, disk: Disk, temp: Name, draft: Version, full: Version, x: Expected)
    requires temp.Private? && full.regular
    ensures var (w', result) := WriteRun(e, World(disk, [], 0), temp, draft, full, x);
            disk.puts <= w'.disk.puts && (result.OkWithWarning? ==> |Since(w'.disk, disk)| == 1)
  {
    hide WriteRun;
    WriteIsHonest(e, disk, temp, draft, full, x);
  }

  lemma {:induction false} PutsSame(start: Disk, log: seq<Step>, more: seq<Step>)
    requires log <= more && forall i | |log| <= i < |more| :: !TouchesTarget(more[i])
    ensures Replay(start, more).puts == Replay(start, log).puts
    decreases |more|
  {
    if |log| < |more| {
      PutsSame(start, log, more[..|more| - 1]);
    } else {
      assert log == more;
    }
  }

  /** Intent before effect, to the end of the tool's run. */
  lemma {:induction false} ToolIntentBeforeEffect(e: Env, disk: Disk, temp: Name, draft: Version, full: Version,
                                                  x: Expected, k: nat)
    requires var log := ToolRun(e, World(disk, [], 0), temp, draft, full, x).0.log;
             k <= |log| && |Replay(disk, log[..k]).puts| > |disk.puts|
    ensures var log := ToolRun(e, World(disk, [], 0), temp, draft, full, x).0.log;
            Intent(full.digest) in log[..k]
  {
    hide WriteRun, ReportRun, Replay;
    var w1 := WriteRun(e, World(disk, [], 0), temp, draft, full, x).0;
    var log := ToolRun(e, World(disk, [], 0), temp, draft, full, x).0.log;
    ReportAdds(e, w1);
    assert w1.log <= log;
    if k <= |w1.log| {
      assert log[..k] == w1.log[..k];
      IntentBeforeEffect(e, disk, temp, draft, full, x, k);
    } else {
      assert w1.log <= log[..k] && w1.log[..|w1.log|] == w1.log;
      PutsSame(disk, w1.log, log[..k]);
      IntentBeforeEffect(e, disk, temp, draft, full, x, |w1.log|);
    }
  }

  /** A concrete warned run: a new file, only the directory `fsync` fails, and the warning
      is reported twice. */
  lemma WarnedWrite(e: Env, temp: Name, draft: Version, full: Version)
    requires (forall i :: e.rival(i).None? && !e.stop(i)) && temp.Private?
    requires forall i :: e.fault(i) == if i == 6 then OsFault else NoFault
    ensures var (w', result) := ToolRun(e, World(Disk(map[], []), [], 0), temp, draft, full, MustBeMissing);
            && result == OkWithWarning && Get(w'.disk.dir, Target) == Some(full)
            && |w'.log| >= 2 && w'.log[|w'.log| - 2..] == [Warn(true), Warn(true)]
  {
    var w := QuietStart(e, temp, draft, full);
    assert ConfirmRun(e, w) == (Do(w, Warn(true)).(tick := w.tick + 2), Some(true));
    var w1 := ConfirmRun(e, w).0;
    assert CloseRun(e, w1) == (w1.(tick := w1.tick + 1), None);
    var w2 := w1.(tick := w1.tick + 1);
    assert SettleRun(e, w, Returned, temp, IdentityOf(full)) == (w2, OkWithWarning);
    assert !Pending(e, 5, w2.tick);
    hide WriteRun, SettleRun;
    assert ReportRun(e, w2) == (Do(w2, Warn(true)).(tick := w2.tick + 1), true);
  }
}
