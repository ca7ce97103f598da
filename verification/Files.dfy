/** One directory as the commit protocols see it: names, file versions, a rival
    that may act on the target name before every primitive, and primitives that
    may fail. Everything the environment decides comes from an `Env` oracle, so
    a statement about all oracles is a statement about all interleavings. */
module Files {
  import opened Wrappers

  /** A file object: its metadata and its content, the latter named by its
      SHA-256 digest. Renaming a file does not change its version. */
  datatype Version = Version(
    regular: bool, device: nat, inode: nat, mode: nat, size: nat, modified: nat, digest: nat)

  /** `FileIdentity`; a baseline taken from metadata alone carries no digest. */
  datatype Identity = Identity(
    device: nat, inode: nat, mode: nat, size: nat, modified: nat, digest: Option<nat>)

  /** The target is shared with rivals; every other name is private to the
      protocol that chose it. */
  datatype Name = Target | Private(token: nat)

  type Directory = map<Name, Version>

  function Get(d: Directory, n: Name): Option<Version> {
    if n in d then Some(d[n]) else None
  }

  function Set(d: Directory, n: Name, v: Option<Version>): Directory {
    if v.None? then d - {n} else d[n := v.value]
  }

  lemma SameDirectory(a: Directory, b: Directory)
    requires forall n: Name :: Get(a, n) == Get(b, n)
    ensures a == b
  {
    forall n: Name ensures n in a <==> n in b { assert Get(a, n) == Get(b, n); }
    forall n | n in a ensures a[n] == b[n] { assert Get(a, n) == Get(b, n); }
  }

  /** What reaches the disk or the journal, one atomic effect at a time. */
  datatype Step =
    | Rival(after: Option<Version>)                     // a rival rewrites, creates or removes the target
    | Create(name: Name, draft: Version)                // exclusive creation
    | Fill(name: Name, full: Version)                   // the draft receives its content
    | Exchange(a: Name, b: Name)                        // atomic swap of two existing names
    | Move(from: Name, to: Name)                        // rename that refuses an existing destination
    | Link(from: Name, to: Name)                        // second name for one file
    | Replace(source: Name, backup: Name)               // ReplaceFileW: target to backup, source to target
    | Discard(name: Name)                               // unlink
    | Intent(digest: nat)                               // intent record published in the journal
    | Warn(persisted: bool)                             // post-commit warning handed to the reporter

  /** One protocol action on the target: what it installed and what it displaced. */
  datatype Put = Put(installed: Option<Version>, displaced: Option<Version>)

  datatype Disk = Disk(dir: Directory, puts: seq<Put>)

  predicate Legal(d: Directory, s: Step) {
    match s
    case Rival(_) => true
    case Create(n, _) => n.Private? && n !in d
    case Fill(n, _) => n.Private? && n in d
    case Exchange(a, b) => a != b && a in d && b in d
    case Move(from, to) => from != to && from in d && to !in d
    case Link(from, to) => from != to && from in d && to !in d
    case Replace(source, backup) =>
      source.Private? && backup.Private? && source != backup && Target in d && source in d && backup !in d
    case Discard(n) => n.Private? && n in d
    case Intent(_) => true
    case Warn(_) => true
  }

  function Apply(d: Directory, s: Step): Directory
    requires Legal(d, s)
  {
    match s
    case Rival(after) => Set(d, Target, after)
    case Create(n, draft) => d[n := draft]
    case Fill(n, full) => d[n := full]
    case Exchange(a, b) => d[a := d[b]][b := d[a]]
    case Move(from, to) => (d - {from})[to := d[from]]
    case Link(from, to) => d[to := d[from]]
    case Replace(source, backup) => (d - {source})[backup := d[Target]][Target := d[source]]
    case Discard(n) => d - {n}
    case Intent(_) => d
    case Warn(_) => d
  }

  predicate TouchesTarget(s: Step) {
    match s
    case Exchange(a, b) => a == Target || b == Target
    case Move(from, to) => from == Target || to == Target
    case Link(_, to) => to == Target
    case Replace(_, _) => true
    case _ => false
  }

  /** A step that is not legal where it is tried has no effect. */
  function Effect(k: Disk, s: Step): Disk {
    if !Legal(k.dir, s) then k
    else
      var d := Apply(k.dir, s);
      Disk(d, if TouchesTarget(s) then k.puts + [Put(Get(d, Target), Get(k.dir, Target))] else k.puts)
  }

  function Replay(start: Disk, log: seq<Step>): Disk {
    if log == [] then start else Effect(Replay(start, log[..|log| - 1]), log[|log| - 1])
  }

  datatype Fault =
    | NoFault
    | OsFault         // any OSError
    | Unsupported     // the filesystem lacks the primitive
    | Partial         // ReplaceFileW error 1177; an effect, and then an error from closing or syncing
    | Rejected        // content the reader refuses: too large, not regular, changed while read

  /** All decisions of the environment, by primitive number. */
  datatype Env = Env(
    rival: nat -> Option<Option<Version>>,
    fault: nat -> Fault,
    token: nat -> nat,
    stop: nat -> bool)   // a termination signal arrives during this primitive

  /** A termination signal arrived while the primitives in this range ran. */
  predicate Pending(e: Env, from: nat, to: nat) { exists i | from <= i < to :: e.stop(i) }

  datatype World = World(disk: Disk, log: seq<Step>, tick: nat)

  function Do(w: World, s: Step): World {
    w.(disk := Effect(w.disk, s), log := w.log + [s])
  }

  /** The rival's turn before a primitive. */
  function Interfere(e: Env, w: World): World {
    var w1 := match e.rival(w.tick)
              case None => w
              case Some(after) => Do(w, Rival(after));
    w1.(tick := w.tick + 1)
  }

  /** What a target that shows `shown` shows after the rival's turn `i`. */
  function Turn(e: Env, i: nat, shown: Option<Version>): Option<Version> {
    match e.rival(i)
    case None => shown
    case Some(after) => after
  }

  lemma TurnTaken(e: Env, w: World)
    ensures var w' := Interfere(e, w);
            && w'.tick == w.tick + 1 && w'.disk.puts == w.disk.puts
            && Get(w'.disk.dir, Target) == Turn(e, w.tick, Get(w.disk.dir, Target))
            && forall n: Name | n.Private? :: Get(w'.disk.dir, n) == Get(w.disk.dir, n)
  {
  }

  datatype Io = Done | Exists | Absent | Failed(fault: Fault)

  function Refusal(d: Directory, s: Step): Io {
    match s
    case Create(n, _) => Exists
    case Move(from, to) => if to in d then Exists else Absent
    case Link(from, to) => if to in d then Exists else Absent
    case _ => Absent
  }

  /** One primitive: the rival acts, then the step fails whole or happens whole. */
  function Attempt(e: Env, w: World, s: Step): (World, Io) {
    var w1 := Interfere(e, w);
    if !e.fault(w.tick).NoFault? then (w1, Failed(e.fault(w.tick)))
    else if !Legal(w1.disk.dir, s) then (w1, Refusal(w1.disk.dir, s))
    else (Do(w1, s), Done)
  }

  datatype Reading = Missing | Saw(version: Version) | Unreadable(fault: Fault)

  /** Read one name: stat, content digest, and a check that neither moved. */
  function Inspect(e: Env, w: World, n: Name): (World, Reading) {
    var w1 := Interfere(e, w);
    (w1,
     if !e.fault(w.tick).NoFault? then Unreadable(e.fault(w.tick))
     else if n in w1.disk.dir then Saw(w1.disk.dir[n])
     else Missing)
  }

  /** A system call with no effect on names, such as `fsync`. */
  function Sync(e: Env, w: World): (World, bool) {
    (Interfere(e, w), e.fault(w.tick).NoFault?)
  }

  // What one primitive does, in terms of what the names show

  /** An exchange of a private file with the target. */
  lemma ExchangeTaken(e: Env, w: World, n: Name)
    requires n.Private? && n in w.disk.dir
    ensures var (w', io) := Attempt(e, w, Exchange(n, Target)); var shown := Turn(e, w.tick, Get(w.disk.dir, Target));
            && w'.tick == w.tick + 1 && (io.Done? <==> e.fault(w.tick).NoFault? && shown.Some?)
            && Get(w'.disk.dir, Target) == (if io.Done? then Some(w.disk.dir[n]) else shown)
            && Get(w'.disk.dir, n) == (if io.Done? then shown else Some(w.disk.dir[n]))
            && (forall m: Name | m.Private? && m != n :: Get(w'.disk.dir, m) == Get(w.disk.dir, m))
            && (!io.Done? ==> io == if e.fault(w.tick).NoFault? then Absent else Failed(e.fault(w.tick)))
  {
    TurnTaken(e, w);
  }

  /** A move between private names. */
  lemma MoveTaken(e: Env, w: World, from: Name, to: Name)
    requires from.Private? && to.Private? && from in w.disk.dir
    ensures var (w', io) := Attempt(e, w, Move(from, to));
            && w'.tick == w.tick + 1
            && (io.Done? <==> e.fault(w.tick).NoFault? && to !in w.disk.dir)
            && (io.Exists? <==> e.fault(w.tick).NoFault? && to in w.disk.dir)
            && Get(w'.disk.dir, Target) == Turn(e, w.tick, Get(w.disk.dir, Target))
            && Get(w'.disk.dir, if io.Done? then to else from) == Some(w.disk.dir[from])
            && (io.Done? ==> from !in w'.disk.dir)
            && (forall m: Name | m.Private? && (!io.Done? || (m != from && m != to)) ::
                  Get(w'.disk.dir, m) == Get(w.disk.dir, m))
  {
    TurnTaken(e, w);
    assert Get(Interfere(e, w).disk.dir, to) == Get(w.disk.dir, to);
    assert Get(Interfere(e, w).disk.dir, from) == Get(w.disk.dir, from);
    hide Interfere;
  }

  /** A move or link that is refused says that its destination exists exactly when it does. */
  lemma RefusedTaken(e: Env, w: World, from: Name, to: Name)
    requires from.Private? && from != to && e.fault(w.tick).NoFault?
    ensures var there := (if to.Private? then Get(w.disk.dir, to) else Turn(e, w.tick, Get(w.disk.dir, Target))).Some?;
            forall s | s == Move(from, to) || s == Link(from, to) ::
              && (Attempt(e, w, s).1.Exists? <==> there)
              && (Attempt(e, w, s).1.Absent? <==> !there && from !in w.disk.dir)
  {
    TurnTaken(e, w);
    assert Get(Interfere(e, w).disk.dir, from) == Get(w.disk.dir, from);
    assert to.Private? ==> Get(Interfere(e, w).disk.dir, to) == Get(w.disk.dir, to);
    hide Interfere;
  }

  /** A look at one name. */
  lemma LookTaken(e: Env, w: World, n: Name)
    ensures var (w', r) := Inspect(e, w, n);
            && w'.tick == w.tick + 1 && w'.disk.puts == w.disk.puts
            && Get(w'.disk.dir, Target) == Turn(e, w.tick, Get(w.disk.dir, Target))
            && (forall m: Name | m.Private? :: Get(w'.disk.dir, m) == Get(w.disk.dir, m))
            && var x := if n.Private? then Get(w.disk.dir, n) else Turn(e, w.tick, Get(w.disk.dir, Target));
               r == if !e.fault(w.tick).NoFault? then Unreadable(e.fault(w.tick))
                    else if x.Some? then Saw(x.value) else Missing
  {
    TurnTaken(e, w);
    assert Get(Interfere(e, w).disk.dir, n) == if n.Private? then Get(w.disk.dir, n)
                                               else Turn(e, w.tick, Get(w.disk.dir, Target));
    hide Interfere;
  }

  /** The removal of a private file. */
  lemma DiscardTaken(e: Env, w: World, n: Name)
    requires n.Private? && n in w.disk.dir
    ensures var (w', io) := Attempt(e, w, Discard(n));
            && w'.tick == w.tick + 1 && w'.disk.puts == w.disk.puts
            && (io.Done? <==> e.fault(w.tick).NoFault?) && (io.Done? <==> n !in w'.disk.dir)
            && (!io.Done? ==> io == Failed(e.fault(w.tick)) && Get(w'.disk.dir, n) == Get(w.disk.dir, n))
            && Get(w'.disk.dir, Target) == Turn(e, w.tick, Get(w.disk.dir, Target))
            && (forall m: Name | m.Private? && m != n :: Get(w'.disk.dir, m) == Get(w.disk.dir, m))
  {
    TurnTaken(e, w);
    assert Get(Interfere(e, w).disk.dir, n) == Get(w.disk.dir, n);
    hide Interfere;
  }

  /** The whole of one file: nothing when reading raises, otherwise what the name shows. */
  function SnapshotRun(e: Env, w: World, n: Name): (World, Option<Option<Version>>) {
    var (w1, r) := Inspect(e, w, n);
    (w1,
     match r
     case Missing => Some(None)
     case Saw(v) => if v.regular then Some(Some(v)) else None
     case Unreadable(_) => None)
  }

  /** A file is read at tick `t`. */
  predicate Reads(e: Env, t: nat, x: Option<Version>) { e.fault(t).NoFault? && (x.Some? ==> x.value.regular) }

  lemma SnapshotTaken(e: Env, w: World, n: Name)
    ensures var (w', s) := SnapshotRun(e, w, n); var shown := Turn(e, w.tick, Get(w.disk.dir, Target));
            var x := if n.Private? then Get(w.disk.dir, n) else shown;
            && w'.tick == w.tick + 1 && Get(w'.disk.dir, Target) == shown
            && (forall m: Name | m.Private? :: Get(w'.disk.dir, m) == Get(w.disk.dir, m))
            && s == if Reads(e, w.tick, x) then Some(x) else None
  {
    LookTaken(e, w, n);
    hide Inspect;
  }

  function Fresh(e: Env, w: World): Name { Private(e.token(w.tick)) }

  method Snapshot(f: Folder, n: Name) returns (s: Option<Option<Version>>)
    modifies f
    ensures (f.View(), s) == SnapshotRun(f.env, old(f.View()), n)
  {
    var r := f.Read(n);
    match r
    case Missing => s := Some(None);
    case Saw(v) => s := if v.regular then Some(Some(v)) else None;
    case Unreadable(_) => s := None;
  }

  /** The directory descriptor the protocols act through. */
  class Folder {
    const env: Env
    var disk: Disk
    var tick: nat
    ghost var log: seq<Step>

    constructor (env: Env, disk: Disk)
      ensures this.env == env && View() == World(disk, [], 0)
    {
      this.env, this.disk, this.tick, this.log := env, disk, 0, [];
    }

    ghost function View(): World
      reads this
    {
      World(disk, log, tick)
    }

    method Rivals()
      modifies this
      ensures View() == Interfere(env, old(View()))
    {
      var turn := env.rival(tick);
      if turn.Some? {
        disk, log := Effect(disk, Rival(turn.value)), log + [Rival(turn.value)];
      }
      tick := tick + 1;
    }

    method Try(s: Step) returns (io: Io)
      modifies this
      ensures (View(), io) == Attempt(env, old(View()), s)
    {
      var fault := env.fault(tick);
      Rivals();
      if !fault.NoFault? {
        return Failed(fault);
      }
      if !Legal(disk.dir, s) {
        return Refusal(disk.dir, s);
      }
      disk, log := Effect(disk, s), log + [s];
      return Done;
    }

    method Read(n: Name) returns (r: Reading)
      modifies this
      ensures (View(), r) == Inspect(env, old(View()), n)
    {
      var fault := env.fault(tick);
      Rivals();
      if !fault.NoFault? {
        return Unreadable(fault);
      }
      return if n in disk.dir then Saw(disk.dir[n]) else Missing;
    }

    method Flush() returns (ok: bool)
      modifies this
      ensures (View(), ok) == Sync(env, old(View()))
    {
      ok := env.fault(tick).NoFault?;
      Rivals();
    }

    method FreshName() returns (n: Name)
      ensures n == Fresh(env, View())
    {
      n := Private(env.token(tick));
    }
  }
}
