/** The specification all commit protocols share, and what it is worth: a
    version never vanishes unless a rival overwrote it, or it is the protocol's
    own file, or it is exactly the baseline of a transaction that stands published. */
module SwapOrPreserve {
  import opened Files
  import opened Wrappers

  /** What one transaction may destroy. */
  datatype Terms = Terms(baseline: Version -> bool, ours: Version -> bool, deletes: bool)

  /** The abstract state: what the target shows, what is saved under private
      names, and whether the transaction stands: the protocol published it and
      has not taken it back. */
  datatype Abs = Abs(shown: Option<Version>, saved: set<Version>, published: bool)

  datatype Actor = Environment | Protocol

  ghost predicate Holds(a: Abs, v: Version) { a.shown == Some(v) || v in a.saved }

  ghost predicate Droppable(t: Terms, a: Abs, v: Version) {
    t.ours(v) || (t.baseline(v) && (t.deletes || a.published))
  }

  /** Swap or preserve. The environment owns the target and nothing else; the
      protocol may rearrange anything but drops only what it may drop. */
  ghost predicate Next(t: Terms, who: Actor, a: Abs, b: Abs) {
    match who
    case Environment => b.saved == a.saved && b.published == a.published
    case Protocol =>
      && (forall v: Version :: Holds(a, v) && !Holds(b, v) ==> Droppable(t, a, v))
      && ((b.published == a.published && b.shown == a.shown) ||
          (b.published <==> b.shown.Some? && t.ours(b.shown.value)))
  }

  ghost predicate Behaviour(t: Terms, states: seq<Abs>, actors: seq<Actor>) {
    && |states| == |actors| + 1
    && forall i | 0 <= i < |actors| :: Next(t, actors[i], states[i], states[i + 1])
  }

  ghost predicate Overwritten(states: seq<Abs>, actors: seq<Actor>, i: nat, v: Version)
    requires |states| == |actors| + 1 && i < |actors|
  {
    actors[i] == Environment && states[i].shown == Some(v)
  }

  ghost predicate Dropped(t: Terms, states: seq<Abs>, actors: seq<Actor>, i: nat, v: Version)
    requires |states| == |actors| + 1 && i < |actors|
  {
    actors[i] == Protocol && Droppable(t, states[i], v)
  }

  /** In any behaviour, whatever is held at one moment is held at every later
      moment, or there is a step between them that accounts for it. */
  lemma {:induction false} NothingVanishes(t: Terms, states: seq<Abs>, actors: seq<Actor>, j: nat, k: nat, v: Version)
    requires Behaviour(t, states, actors)
    requires j <= k < |states| && Holds(states[j], v)
    ensures || Holds(states[k], v)
            || (exists i :: j <= i < k && (Overwritten(states, actors, i, v) || Dropped(t, states, actors, i, v)))
    decreases k - j
  {
    if j < k {
      assert Next(t, actors[j], states[j], states[j + 1]);
      if Holds(states[j + 1], v) {
        NothingVanishes(t, states, actors, j + 1, k, v);
      } else {
        assert Overwritten(states, actors, j, v) || Dropped(t, states, actors, j, v);
      }
    }
  }

  // Concrete runs

  /** The protocol's last change of the target installed the transaction. */
  ghost predicate Published(t: Terms, k: Disk) {
    k.puts != [] && var last := k.puts[|k.puts| - 1]; last.installed.Some? && t.ours(last.installed.value)
  }

  ghost function Abstract(t: Terms, k: Disk): Abs {
    Abs(Get(k.dir, Target), set n | n in k.dir && n != Target :: k.dir[n], Published(t, k))
  }

  function ActorOf(s: Step): Actor { if s.Rival? then Environment else Protocol }

  ghost predicate Permitted(t: Terms, k: Disk, s: Step) {
    match s
    case Fill(n, _) => n in k.dir ==> t.ours(k.dir[n])
    case Discard(n) => n in k.dir ==> Droppable(t, Abstract(t, k), k.dir[n])
    case _ => true
  }

  /** Every step of the log happened, and every deletion was permitted. */
  ghost predicate Safe(t: Terms, start: Disk, log: seq<Step>) {
    log == [] ||
    (var before := Replay(start, log[..|log| - 1]);
     && Safe(t, start, log[..|log| - 1])
     && Legal(before.dir, log[|log| - 1])
     && Permitted(t, before, log[|log| - 1]))
  }

  ghost predicate Faithful(t: Terms, start: Disk, w: World) {
    Safe(t, start, w.log) && Replay(start, w.log) == w.disk
  }

  lemma StartFaithful(t: Terms, start: Disk)
    ensures Faithful(t, start, World(start, [], 0))
  {
  }

  lemma DoKeeps(t: Terms, start: Disk, w: World, s: Step)
    requires Faithful(t, start, w)
    requires Legal(w.disk.dir, s) && Permitted(t, w.disk, s)
    ensures Faithful(t, start, Do(w, s))
  {
    var log := w.log + [s];
    assert log[..|log| - 1] == w.log && log[|log| - 1] == s;
  }

  lemma InterfereKeeps(t: Terms, start: Disk, e: Env, w: World)
    requires Faithful(t, start, w)
    ensures Faithful(t, start, Interfere(e, w))
  {
    if e.rival(w.tick).Some? {
      DoKeeps(t, start, w, Rival(e.rival(w.tick).value));
    }
  }

  lemma AttemptKeeps(t: Terms, start: Disk, e: Env, w: World, s: Step)
    requires Faithful(t, start, w)
    requires Permitted(t, Interfere(e, w).disk, s)
    ensures Faithful(t, start, Attempt(e, w, s).0)
  {
    InterfereKeeps(t, start, e, w);
    if Attempt(e, w, s).1.Done? {
      DoKeeps(t, start, Interfere(e, w), s);
    }
  }

  /** A step that destroys nothing is always permitted. */
  lemma MoveKeeps(t: Terms, start: Disk, e: Env, w: World, s: Step)
    requires Faithful(t, start, w) && !s.Discard? && !s.Fill?
    ensures Faithful(t, start, Attempt(e, w, s).0)
  {
    hide Faithful;
    AttemptKeeps(t, start, e, w, s);
  }

  /** Discarding a private name is judged by what it held when it was last looked at. */
  lemma DropKeeps(t: Terms, start: Disk, e: Env, w: World, n: Name, v: Version)
    requires Faithful(t, start, w) && n.Private? && Get(w.disk.dir, n) == Some(v)
    requires t.ours(v) || (t.baseline(v) && (t.deletes || Published(t, w.disk)))
    ensures Faithful(t, start, Attempt(e, w, Discard(n)).0)
  {
    hide Faithful;
    assert Interfere(e, w).disk.puts == w.disk.puts && Get(Interfere(e, w).disk.dir, n) == Some(v);
    AttemptKeeps(t, start, e, w, Discard(n));
  }

  /** The abstract behaviour of a log. */
  ghost function States(t: Terms, start: Disk, log: seq<Step>): seq<Abs> {
    seq(|log| + 1, i requires 0 <= i <= |log| => Abstract(t, Replay(start, log[..i])))
  }

  ghost function Actors(log: seq<Step>): seq<Actor> {
    seq(|log|, i requires 0 <= i < |log| => ActorOf(log[i]))
  }

  lemma HeldByName(t: Terms, k: Disk, v: Version)
    ensures Holds(Abstract(t, k), v) <==> exists n :: n in k.dir && k.dir[n] == v
  {
    if n :| n in k.dir && k.dir[n] == v {
      if n != Target {
        assert v in Abstract(t, k).saved;
      }
    }
  }

  lemma PrivateSaved(t: Terms, k: Disk, l: Disk)
    requires forall n: Name | n != Target :: Get(k.dir, n) == Get(l.dir, n)
    ensures Abstract(t, k).saved == Abstract(t, l).saved
  {
    forall v: Version ensures v in Abstract(t, k).saved <==> v in Abstract(t, l).saved {
      if n :| n in k.dir && n != Target && k.dir[n] == v {
        assert Get(k.dir, n) == Get(l.dir, n);
      }
      if n :| n in l.dir && n != Target && l.dir[n] == v {
        assert Get(k.dir, n) == Get(l.dir, n);
      }
    }
  }

  lemma StepPublishes(t: Terms, k: Disk, s: Step)
    requires Legal(k.dir, s)
    ensures var shown := Get(Effect(k, s).dir, Target);
            if TouchesTarget(s) then Published(t, Effect(k, s)) <==> shown.Some? && t.ours(shown.value)
            else Published(t, Effect(k, s)) == Published(t, k) && (!s.Rival? ==> shown == Get(k.dir, Target))
  {
  }

  /** Where a version that survives a step is afterwards. */
  function Whither(s: Step, n: Name): Name {
    match s
    case Exchange(a, b) => if n == a then b else if n == b then a else n
    case Move(from, to) => if n == from then to else n
    case Replace(source, backup) => if n == Target then backup else if n == source then Target else n
    case _ => n
  }

  /** Each permitted step of a protocol is a step of the specification. */
  lemma StepRefines(t: Terms, k: Disk, s: Step)
    requires Legal(k.dir, s) && Permitted(t, k, s)
    ensures Next(t, ActorOf(s), Abstract(t, k), Abstract(t, Effect(k, s)))
  {
    var l := Effect(k, s);
    StepPublishes(t, k, s);
    if s.Rival? {
      PrivateSaved(t, k, l);
    } else {
      forall v: Version | Holds(Abstract(t, k), v) && !Holds(Abstract(t, l), v)
        ensures Droppable(t, Abstract(t, k), v)
      {
        HeldByName(t, k, v);
        HeldByName(t, l, v);
        var n :| n in k.dir && k.dir[n] == v;
        assert Whither(s, n) in l.dir ==> l.dir[Whither(s, n)] != v;
      }
    }
  }

  lemma {:induction false} SafePrefix(t: Terms, start: Disk, log: seq<Step>, i: nat)
    requires Safe(t, start, log) && i < |log|
    ensures Legal(Replay(start, log[..i]).dir, log[i]) && Permitted(t, Replay(start, log[..i]), log[i])
    ensures Replay(start, log[..i + 1]) == Effect(Replay(start, log[..i]), log[i])
    decreases |log|
  {
    assert log[..i + 1][..i] == log[..i];
    if i < |log| - 1 {
      SafePrefix(t, start, log[..|log| - 1], i);
      assert log[..|log| - 1][..i] == log[..i];
    } else {
      assert log[..i] == log[..|log| - 1];
    }
  }

  /** Refinement: every safe log is a behaviour of the specification. */
  lemma Refines(t: Terms, start: Disk, log: seq<Step>)
    requires Safe(t, start, log)
    ensures Behaviour(t, States(t, start, log), Actors(log))
  {
    var states, actors := States(t, start, log), Actors(log);
    forall i | 0 <= i < |actors| ensures Next(t, actors[i], states[i], states[i + 1]) {
      SafePrefix(t, start, log, i);
      StepRefines(t, Replay(start, log[..i]), log[i]);
    }
  }

  /** The account of a version between two moments of a run, a moment being any
      prefix of its log, so also any point at which the process was killed. */
  ghost predicate Accounted(t: Terms, start: Disk, log: seq<Step>, j: nat, k: nat, v: Version)
    requires j <= k <= |log|
  {
    || v in Replay(start, log[..k]).dir.Values
    || exists i :: j <= i < k && LostAt(t, start, log, i, v)
  }

  ghost predicate LostAt(t: Terms, start: Disk, log: seq<Step>, i: nat, v: Version)
    requires i < |log|
  {
    var at := Replay(start, log[..i]);
    if log[i].Rival? then Get(at.dir, Target) == Some(v)
    else t.ours(v) || (t.baseline(v) && (t.deletes || Published(t, at)))
  }

  /** No lost versions, at every moment of every safe run. */
  lemma NoLostVersion(t: Terms, start: Disk, log: seq<Step>, j: nat, k: nat, v: Version)
    requires Safe(t, start, log)
    requires j <= k <= |log| && v in Replay(start, log[..j]).dir.Values
    ensures Accounted(t, start, log, j, k, v)
  {
    Refines(t, start, log);
    var states, actors := States(t, start, log), Actors(log);
    HeldByName(t, Replay(start, log[..j]), v);
    NothingVanishes(t, states, actors, j, k, v);
    if Holds(states[k], v) {
      HeldByName(t, Replay(start, log[..k]), v);
    } else {
      var i :| j <= i < k && (Overwritten(states, actors, i, v) || Dropped(t, states, actors, i, v));
      assert LostAt(t, start, log, i, v);
    }
  }
}
