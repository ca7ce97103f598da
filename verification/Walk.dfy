/** The bounded walk (`workspace_walk.py`, `walk_support.py`) over a fixed finite tree:
    an explicit stack of directory iterators with limits on entries, directories, depth
    and time, and the plain recursive listing it stands for. */
module Walk {
  import opened Glob

  const MAX_WALK_ENTRIES := 10_000
  const MAX_WALK_DIRECTORIES := 1_000
  const MAX_WALK_DEPTH := 64
  const MAX_REPORTED_PRUNED_DIRECTORIES := 5

  datatype Node = File | Other | Link | Dir(entries: seq<Entry>)

  datatype Entry = Entry(name: Name, node: Node)

  /** What the walk is asked: the pattern, and which paths are protected host state. */
  datatype Query = Query(pattern: Pattern, guarded: Path -> bool)

  function SegmentOf(e: Entry): Segment { Segment(e.name, e.node.Dir? && e.name in PRUNED_DIRECTORY_NAMES) }

  predicate Matching(q: Query, path: Path) { Matches(q.pattern, 0, path) }

  // The listing

  /** Everything that matches below `path`, in directory order, parents first. */
  function Listing(q: Query, path: Path, entries: seq<Entry>): seq<Path>
    decreases entries
  {
    if entries == [] then [] else ListingOf(q, path, entries[0]) + Listing(q, path, entries[1..])
  }

  function ListingOf(q: Query, path: Path, e: Entry): seq<Path>
    decreases e
  {
    var here := path + [SegmentOf(e)];
    if e.node.Link? || q.guarded(here) then []
    else
      (if Matching(q, here) then [here] else [])
      + (match e.node
         case Dir(entries) => Listing(q, here, entries)
         case _ => [])
  }

  /** `rest` names something below `entries` that is reached through real directories. */
  predicate Present(entries: seq<Entry>, rest: Path)
    decreases |rest|
  {
    rest != [] && exists i | 0 <= i < |entries| :: PresentIn(entries[i], rest)
  }

  predicate PresentIn(e: Entry, rest: Path)
    requires rest != []
    decreases |rest|, 0
  {
    && !e.node.Link? && rest[0].name == e.name
    && (rest[0].generated <==>
          e.node.Dir? && (e.name == "build" || e.name == "node_modules" || e.name == "__pycache__"))
    && (|rest| == 1 || (e.node.Dir? && Present(e.node.entries, rest[1..])))
  }

  ghost predicate Unguarded(q: Query, path: Path, rest: Path) {
    forall n | 0 < n <= |rest| :: !q.guarded(path + rest[..n])
  }

  /** What belongs in the listing: present, unguarded on the way, matching. */
  ghost predicate Belongs(q: Query, path: Path, entries: seq<Entry>, rest: Path) {
    Present(entries, rest) && Unguarded(q, path, rest) && Matching(q, path + rest)
  }

  ghost predicate BelongsTo(q: Query, path: Path, e: Entry, rest: Path) {
    rest != [] && PresentIn(e, rest) && Unguarded(q, path, rest) && Matching(q, path + rest)
  }

  lemma {:induction false} ListingHas(q: Query, path: Path, entries: seq<Entry>, found: Path)
    ensures found in Listing(q, path, entries) <==> path <= found && Belongs(q, path, entries, found[|path|..])
    decreases entries
  {
    if entries != [] {
      ListingOfHas(q, path, entries[0], found);
      ListingHas(q, path, entries[1..], found);
      if path <= found && |found| > |path| {
        PresentSplit(entries, found[|path|..]);
      }
    }
  }

  lemma PresentSplit(entries: seq<Entry>, rest: Path)
    requires entries != [] && rest != []
    ensures Present(entries, rest) <==> PresentIn(entries[0], rest) || Present(entries[1..], rest)
  {
    if Present(entries, rest) && !PresentIn(entries[0], rest) {
      var i :| 0 <= i < |entries| && PresentIn(entries[i], rest);
      assert entries[1..][i - 1] == entries[i];
    }
    if Present(entries[1..], rest) {
      var i :| 0 <= i < |entries[1..]| && PresentIn(entries[1..][i], rest);
      assert entries[i + 1] == entries[1..][i];
    }
  }

  lemma {:induction false} ListingOfHas(q: Query, path: Path, e: Entry, found: Path)
    ensures found in ListingOf(q, path, e) <==> path <= found && BelongsTo(q, path, e, found[|path|..])
    decreases e
  {
    var here := path + [SegmentOf(e)];
    if path <= found && |found| > |path| {
      var rest := found[|path|..];
      assert rest[..1] == [rest[0]];
      if rest[0] == SegmentOf(e) {
        assert path + rest[..1] == here;
      }
    }
    if e.node.Dir? {
      ListingHas(q, here, e.node.entries, found);
    }
    if here <= found && !e.node.Link? && !q.guarded(here) {
      var rest := found[|path|..];
      assert found == path + rest && rest[0] == SegmentOf(e);
      if |rest| == 1 {
        assert found == here;
        assert Unguarded(q, path, rest);
      } else {
        assert found[|here|..] == rest[1..];
        UnguardedStep(q, path, rest);
        assert here + rest[1..] == found;
      }
    }
  }

  lemma UnguardedStep(q: Query, path: Path, rest: Path)
    requires rest != []
    ensures Unguarded(q, path, rest) <==> !q.guarded(path + [rest[0]]) && Unguarded(q, path + [rest[0]], rest[1..])
  {
    if Unguarded(q, path, rest) {
      assert rest[..1] == [rest[0]];
      forall n | 0 < n <= |rest[1..]| ensures !q.guarded(path + [rest[0]] + rest[1..][..n]) {
        assert path + [rest[0]] + rest[1..][..n] == path + rest[..n + 1];
      }
    }
    if !q.guarded(path + [rest[0]]) && Unguarded(q, path + [rest[0]], rest[1..]) {
      forall n | 0 < n <= |rest| ensures !q.guarded(path + rest[..n]) {
        if n == 1 {
          assert rest[..1] == [rest[0]];
        } else {
          assert path + rest[..n] == path + [rest[0]] + rest[1..][..n - 1];
        }
      }
    }
  }

  /** Sibling names differ, everywhere in the tree. */
  predicate Proper(entries: seq<Entry>) {
    && (forall i, j | 0 <= i < j < |entries| :: entries[i].name != entries[j].name)
    && forall i | 0 <= i < |entries| :: ProperNode(entries[i].node)
  }

  predicate ProperNode(n: Node) { n.Dir? ==> Proper(n.entries) }

  ghost predicate NoRepeats<T>(s: seq<T>) { forall i, j | 0 <= i < j < |s| :: s[i] != s[j] }

  lemma {:induction false} ListingDistinct(q: Query, path: Path, entries: seq<Entry>)
    requires Proper(entries)
    ensures NoRepeats(Listing(q, path, entries))
    decreases entries
  {
    if entries != [] {
      var e := entries[0];
      assert Proper(entries[1..]) by {
        forall i, j | 0 <= i < j < |entries[1..]| ensures entries[1..][i].name != entries[1..][j].name {
          assert entries[i + 1].name != entries[j + 1].name;
        }
      }
      ListingDistinct(q, path, entries[1..]);
      var here := path + [SegmentOf(e)];
      if e.node.Dir? {
        ListingDistinct(q, here, e.node.entries);
        ListingHas(q, here, e.node.entries, here);
        assert here[|here|..] == [];
      }
      assert NoRepeats(ListingOf(q, path, e));
      forall x | x in ListingOf(q, path, e) ensures x !in Listing(q, path, entries[1..]) {
        ListingOfHas(q, path, e, x);
        ListingHas(q, path, entries[1..], x);
        forall i | 0 <= i < |entries[1..]| ensures entries[1..][i].name != e.name {
          assert entries[1..][i] == entries[i + 1];
        }
        NotPresent(entries[1..], x[|path|..], e.name);
      }
      Disjoint(ListingOf(q, path, e), Listing(q, path, entries[1..]));
    }
  }

  lemma NotPresent(entries: seq<Entry>, rest: Path, name: Name)
    requires rest != [] && rest[0].name == name && forall i | 0 <= i < |entries| :: entries[i].name != name
    ensures !Present(entries, rest)
  {
  }

  lemma Disjoint<T>(a: seq<T>, b: seq<T>)
    requires NoRepeats(a) && NoRepeats(b) && forall x | x in a :: x !in b
    ensures NoRepeats(a + b)
  {
    forall i, j | 0 <= i < j < |a + b| ensures (a + b)[i] != (a + b)[j] {
      if i < |a| <= j {
        assert a[i] in a && b[j - |a|] in b;
      }
    }
  }

  // Sub-sequences

  ghost predicate Sub<T>(a: seq<T>, b: seq<T>)
    decreases |b|
  {
    a == [] || (b != [] && (Sub(a, b[1..]) || (a[0] == b[0] && Sub(a[1..], b[1..]))))
  }

  lemma {:induction false} SubRefl<T>(a: seq<T>)
    ensures Sub(a, a)
  {
    if a != [] { SubRefl(a[1..]); }
  }

  /** Dropping a middle piece leaves a sub-sequence. */
  lemma {:induction false} SubDrop<T>(a: seq<T>, cut: seq<T>, c: seq<T>, b: seq<T>)
    requires Sub(a + cut + c, b)
    ensures Sub(a + c, b)
    decreases |b|
  {
    var all := a + cut + c;
    if b == [] {
      assert a + c == all;
    } else if all == [] {
      assert a + c == [];
    } else if Sub(all, b[1..]) {
      SubDrop(a, cut, c, b[1..]);
      if a + c != [] { assert Sub(a + c, b[1..]); }
    } else if a != [] {
      assert all[1..] == a[1..] + cut + c;
      SubDrop(a[1..], cut, c, b[1..]);
      assert (a + c)[1..] == a[1..] + c;
    } else if cut != [] {
      assert all[1..] == [] + cut[1..] + c;
      SubDrop([], cut[1..], c, b[1..]);
      assert a + c == [] + c;
    } else {
      assert all == a + c;
    }
  }

  lemma {:induction false} SubMembers<T>(a: seq<T>, b: seq<T>)
    requires Sub(a, b) && NoRepeats(b)
    ensures NoRepeats(a) && forall x | x in a :: x in b
    decreases |b|
  {
    if a != [] {
      assert b == [b[0]] + b[1..];
      if Sub(a, b[1..]) {
        SubMembers(a, b[1..]);
      } else {
        SubMembers(a[1..], b[1..]);
        assert b[0] !in b[1..];
        assert a == [a[0]] + a[1..];
      }
    }
  }

  // The walk

  /** A directory being read: `rest` is what its iterator has left. */
  datatype Frame = Frame(rest: seq<Entry>, path: Path, states: States, depth: nat)

  /** What the stack still has to yield, innermost directory first. */
  function Remaining(q: Query, stack: seq<Frame>): seq<Path> {
    if stack == [] then []
    else
      var top := stack[|stack| - 1];
      Listing(q, top.path, top.rest) + Remaining(q, stack[..|stack| - 1])
  }

  function Height(entries: seq<Entry>): nat
    decreases entries
  {
    if entries == [] then 0
    else
      var first, rest := HeightOf(entries[0]), Height(entries[1..]);
      if first < rest then rest else first
  }

  function HeightOf(e: Entry): nat
    decreases e
  {
    if e.node.Dir? then 1 + Height(e.node.entries) else 0
  }

  /** The height is the length of the longest chain of nested directories. */
  lemma {:induction false} HeightIsReached(entries: seq<Entry>) returns (chain: seq<Entry>)
    ensures |chain| == Height(entries) && Nested(entries, chain)
    decreases entries
  {
    if entries == [] {
      chain := [];
    } else {
      var first, rest := HeightOf(entries[0]), Height(entries[1..]);
      if first <= rest {
        chain := HeightIsReached(entries[1..]);
        if chain != [] {
          assert chain[0] in entries;
        }
      } else {
        var below := HeightIsReached(entries[0].node.entries);
        chain := [entries[0]] + below;
      }
    }
  }

  lemma {:induction false} NoneIsLonger(entries: seq<Entry>, chain: seq<Entry>)
    requires Nested(entries, chain)
    ensures |chain| <= Height(entries)
    decreases |chain|
  {
    if chain != [] {
      NoneIsLonger(chain[0].node.entries, chain[1..]);
      MemberHeight(entries, chain[0]);
    }
  }

  lemma {:induction false} MemberHeight(entries: seq<Entry>, e: Entry)
    requires e in entries
    ensures HeightOf(e) <= Height(entries)
  {
    if e != entries[0] {
      assert e in entries[1..];
      MemberHeight(entries[1..], e);
    }
  }

  /** Directories, each inside the one before it. */
  predicate Nested(entries: seq<Entry>, chain: seq<Entry>)
    decreases |chain|
  {
    chain == [] || (chain[0] in entries && chain[0].node.Dir? && Nested(chain[0].node.entries, chain[1..]))
  }

  ghost predicate FrameOk(q: Query, root: seq<Entry>, f: Frame) {
    && f.states == StatesAfter(q.pattern, f.path)
    && f.depth == |f.path| <= MAX_WALK_DEPTH
    && f.depth + Height(f.rest) <= Height(root)
  }

  /** Nothing below a dead path is listed. */
  lemma {:induction false} DeadListing(q: Query, path: Path, entries: seq<Entry>)
    requires forall rest: Path | rest != [] :: !Matching(q, path + rest)
    ensures Listing(q, path, entries) == []
    decreases entries
  {
    if entries != [] {
      var e := entries[0];
      var here := path + [SegmentOf(e)];
      if e.node.Dir? {
        forall rest: Path | rest != [] ensures !Matching(q, here + rest) {
          assert here + rest == path + ([SegmentOf(e)] + rest);
        }
        DeadListing(q, here, e.node.entries);
      }
      DeadListing(q, path, entries[1..]);
    }
  }

  /** What the automaton's states say about one entry. */
  lemma EntryVerdict(q: Query, path: Path, e: Entry)
    ensures var here := path + [SegmentOf(e)]; var states := StatesAfter(q.pattern, here);
            && (IsMatch(q.pattern, states) <==> Matching(q, here))
            && (states == {} ==> ListingOf(q, path, e) == [])
            && (!CanDescend(q.pattern, states) && e.node.Dir? ==> Listing(q, here, e.node.entries) == [])
  {
    var here := path + [SegmentOf(e)];
    var states := StatesAfter(q.pattern, here);
    AutomatonDecides(q.pattern, here);
    if !CanDescend(q.pattern, states) && e.node.Dir? {
      forall rest: Path | rest != [] ensures !Matching(q, here + rest) {
        NoDescentIsDead(q.pattern, here, rest);
      }
      DeadListing(q, here, e.node.entries);
    }
  }

  /** The agreement of what was yielded and what is left with the whole, through one step. */
  lemma StaysOnCourse<T>(yielded: seq<T>, matched: seq<T>, below: seq<T>, all: seq<T>, rest: seq<T>, total: seq<T>,
                         was: bool, now: bool)
    requires if was then Sub(yielded + (all + rest), total) else yielded + (all + rest) == total
    requires matched <= all && (matched + below == all || (now && below == [])) && (was ==> now)
    ensures if now then Sub(yielded + matched + (below + rest), total) else yielded + matched + (below + rest) == total
  {
    if !was { SubRefl(total); }
    hide Sub;
    if matched + below == all {
      Regroup(yielded, matched, below, rest);
    } else {
      var cut := all[|matched|..];
      assert matched + cut == all;
      Regroup(yielded, matched, cut, rest);
      assert yielded + matched + (cut + rest) == (yielded + matched) + cut + rest;
      SubDrop(yielded + matched, cut, rest, total);
      assert below + rest == rest;
    }
  }

  lemma Regroup<T>(a: seq<T>, b: seq<T>, c: seq<T>, d: seq<T>)
    ensures a + (b + c + d) == a + b + (c + d)
  {
  }

  lemma RemainingNext(q: Query, stack: seq<Frame>)
    requires stack != [] && stack[|stack| - 1].rest != []
    ensures var top := stack[|stack| - 1];
            Remaining(q, stack) == ListingOf(q, top.path, top.rest[0])
                                   + (Listing(q, top.path, top.rest[1..]) + Remaining(q, stack[..|stack| - 1]))
  {
  }

  lemma RemainingPushed(q: Query, stack: seq<Frame>, child: seq<Frame>)
    requires stack != [] && stack[|stack| - 1].rest != [] && |child| <= 1
    ensures var top := stack[|stack| - 1]; var below := stack[..|stack| - 1];
            Remaining(q, stack[|stack| - 1 := top.(rest := top.rest[1..])] + child) ==
            Remaining(q, child) + (Listing(q, top.path, top.rest[1..]) + Remaining(q, below))
  {
    var top := stack[|stack| - 1];
    var advanced := stack[|stack| - 1 := top.(rest := top.rest[1..])];
    assert advanced[..|advanced| - 1] == stack[..|stack| - 1];
    if child == [] {
      assert advanced + child == advanced;
    } else {
      assert (advanced + child)[..|advanced|] == advanced;
      assert child[..0] == [];
    }
  }

  class WorkspaceWalk {
    const query: Query
    const root: seq<Entry>
    var truncated: bool
    var entries: nat
    var directories: nat
    var prunedCount: nat
    var prunedPaths: seq<Path>
    var yielded: seq<Path>

    constructor (query: Query, root: seq<Entry>)
      ensures this.query == query && this.root == root
      ensures !truncated && entries == 0 && directories == 0 && yielded == [] && prunedPaths == []
    {
      this.query, this.root := query, root;
      truncated, entries, directories, prunedCount, prunedPaths, yielded := false, 0, 0, 0, [], [];
    }

    /** `PrunedDirectories.advance`: `**` stays out of generated directories. */
    method AdvancePruned(parent: Frame, e: Entry) returns (states: States)
      requires FrameOk(query, root, parent) && |prunedPaths| <= MAX_REPORTED_PRUNED_DIRECTORIES
      modifies this`prunedCount, this`prunedPaths
      ensures states == StatesAfter(query.pattern, parent.path + [SegmentOf(e)])
      ensures |prunedPaths| <= MAX_REPORTED_PRUNED_DIRECTORIES && old(prunedPaths) <= prunedPaths
      ensures prunedPaths == old(prunedPaths) +
              if prunedCount > old(prunedCount) && |old(prunedPaths)| < MAX_REPORTED_PRUNED_DIRECTORIES
              then [parent.path + [SegmentOf(e)]] else []
      ensures prunedCount == old(prunedCount) +
              if SegmentOf(e).generated && states != Advance(query.pattern, parent.states, e.name, false) then 1 else 0
    {
      var here := parent.path + [SegmentOf(e)];
      assert here[..|here| - 1] == parent.path && here[|here| - 1] == SegmentOf(e);
      states := AdvanceStates(query.pattern, parent.states, e.name, false);
      if !e.node.Dir? || e.name !in PRUNED_DIRECTORY_NAMES {
        return;
      }
      var pruned := AdvanceStates(query.pattern, parent.states, e.name, true);
      if pruned != states {
        prunedCount := prunedCount + 1;
        if |prunedPaths| < MAX_REPORTED_PRUNED_DIRECTORIES {
          prunedPaths := prunedPaths + [here];
        }
      }
      return pruned;
    }

    predicate Limited()
      reads this
    {
      directories <= MAX_WALK_DIRECTORIES && |prunedPaths| <= MAX_REPORTED_PRUNED_DIRECTORIES
    }

    /** `_inspect_entry`: what the entry yields itself, and the frame for what is below it. */
    method InspectEntry(parent: Frame, e: Entry) returns (matched: seq<Path>, child: seq<Frame>)
      requires FrameOk(query, root, parent) && parent.rest != [] && parent.rest[0] == e && Limited()
      modifies this`truncated, this`directories, this`prunedCount, this`prunedPaths
      ensures Limited() && (old(truncated) ==> truncated)
      ensures |child| <= 1 && (forall f | f in child :: FrameOk(query, root, f))
      ensures forall path | path in matched :: |path| <= MAX_WALK_DEPTH + 1
      ensures truncated ==> old(truncated) || directories == MAX_WALK_DIRECTORIES || Height(root) > MAX_WALK_DEPTH
      ensures old(directories) <= directories
      ensures var all := ListingOf(query, parent.path, e);
              matched <= all && (matched + Remaining(query, child) == all || (truncated && child == []))
    {
      if e.node.Link? {
        return [], [];
      }
      var states := AdvancePruned(parent, e);
      EntryVerdict(query, parent.path, e);
      var here := parent.path + [SegmentOf(e)];
      if states == {} || query.guarded(here) {
        return [], [];
      }
      matched := if IsMatch(query.pattern, states) then [here] else [];
      child := [];
      if e.node.Dir? {
        child := ChildFrame(parent, e, states);
      }
    }

    method ChildFrame(parent: Frame, e: Entry, states: States) returns (child: seq<Frame>)
      requires FrameOk(query, root, parent) && parent.rest != [] && parent.rest[0] == e && Limited() && e.node.Dir?
      requires states == StatesAfter(query.pattern, parent.path + [SegmentOf(e)])
      modifies this`truncated, this`directories
      ensures Limited() && (old(truncated) ==> truncated)
      ensures |child| <= 1 && (forall f | f in child :: FrameOk(query, root, f))
      ensures truncated ==> old(truncated) || directories == MAX_WALK_DIRECTORIES || Height(root) > MAX_WALK_DEPTH
      ensures old(directories) <= directories
      ensures var here := parent.path + [SegmentOf(e)];
              !truncated || child != [] ==> Remaining(query, child) == Listing(query, here, e.node.entries)
    {
      var here := parent.path + [SegmentOf(e)];
      EntryVerdict(query, parent.path, e);
      assert 1 + Height(e.node.entries) == HeightOf(e) <= Height(parent.rest);
      if forall k | k in states :: k >= |query.pattern.parts| {
        return [];
      }
      if parent.depth >= MAX_WALK_DEPTH || directories >= MAX_WALK_DIRECTORIES {
        truncated := true;
        return [];
      }
      directories := directories + 1;
      child := [Frame(e.node.entries, here, states, parent.depth + 1)];
    }

    /** What was yielded is part of the listing at any moment. */
    lemma OnCourseSub(stack: seq<Frame>)
      requires OnCourse(stack)
      ensures Sub(yielded, Listing(query, [], root))
    {
      var total, left := Listing(query, [], root), Remaining(query, stack);
      if !truncated { SubRefl(total); }
      assert yielded + left == yielded + left + [];
      SubDrop(yielded, left, [], total);
      assert yielded + [] == yielded;
    }

    /** What holds on the way, and at its end. */
    lemma CourseLimits(stack: seq<Frame>)
      requires OnCourse(stack)
      ensures Limited() && (forall path | path in yielded :: |path| <= MAX_WALK_DEPTH + 1)
      ensures truncated ==> directories == MAX_WALK_DIRECTORIES || Height(root) > MAX_WALK_DEPTH
      ensures stack == [] && !truncated ==> yielded == Listing(query, [], root)
    {
      assert stack == [] ==> yielded + Remaining(query, stack) == yielded;
    }

    lemma Started(stack: seq<Frame>)
      requires stack == [Frame(root, [], InitialStates(query.pattern), 0)]
      requires !truncated && directories == 1 && yielded == [] && prunedPaths == []
      ensures OnCourse(stack)
    {
      assert stack[..0] == [];
      assert Remaining(query, stack) == Listing(query, [], root) + [];
      assert [] + Remaining(query, stack) == Listing(query, [], root);
    }

    lemma PartOfListing(paths: seq<Path>)
      requires Sub(paths, Listing(query, [], root)) && Proper(root)
      ensures NoRepeats(paths) && forall path | path in paths :: Belongs(query, [], root, path)
    {
      hide Listing, Sub, Belongs;
      ListingDistinct(query, [], root);
      SubMembers(paths, Listing(query, [], root));
      forall path | path in paths ensures Belongs(query, [], root, path) {
        ListingHas(query, [], root, path);
        assert path[0..] == path;
      }
    }

    /** A directory that has been read leaves the stack. */
    lemma Popped(stack: seq<Frame>)
      requires OnCourse(stack) && stack != [] && stack[|stack| - 1].rest == []
      ensures OnCourse(stack[..|stack| - 1])
    {
      assert Remaining(query, stack) == Remaining(query, stack[..|stack| - 1]);
    }

    ghost predicate OnCourse(stack: seq<Frame>)
      reads this
    {
      && Limited() && (forall path | path in yielded :: |path| <= MAX_WALK_DEPTH + 1)
      && (truncated ==> directories == MAX_WALK_DIRECTORIES || Height(root) > MAX_WALK_DEPTH)
      && (forall f | f in stack :: FrameOk(query, root, f))
      && (if truncated then Sub(yielded + Remaining(query, stack), Listing(query, [], root))
          else yielded + Remaining(query, stack) == Listing(query, [], root))
    }

    /** Take the next entry of the innermost directory: yield it if it matches, and go
        into it if something below it can match. */
    method Visit(stack: seq<Frame>) returns (next: seq<Frame>)
      requires OnCourse(stack) && stack != [] && stack[|stack| - 1].rest != []
      modifies this`truncated, this`directories, this`prunedCount, this`prunedPaths, this`yielded
      ensures OnCourse(next)
    {
      var top := stack[|stack| - 1];
      var e := top.rest[0];
      assert FrameOk(query, root, top) && FrameOk(query, root, top.(rest := top.rest[1..]));
      hide Listing, ListingOf, Sub, FrameOk, StatesAfter;
      ghost var total := Listing(query, [], root);
      ghost var rest := Listing(query, top.path, top.rest[1..]) + Remaining(query, stack[..|stack| - 1]);
      RemainingNext(query, stack);
      ghost var wasTruncated := truncated;
      var matched, child := InspectEntry(top, e);
      next := stack[|stack| - 1 := top.(rest := top.rest[1..])] + child;
      assert Remaining(query, next) == Remaining(query, child) + rest by {
        RemainingPushed(query, stack, child);
      }
      StaysOnCourse(yielded, matched, Remaining(query, child), ListingOf(query, top.path, e), rest, total,
                    wasTruncated, truncated);
      yielded := yielded + matched;
    }

    /** The whole walk. `late(n)` says whether the deadline has passed at the n-th look.
        Unless it reports truncation it yields the listing, exactly and in order; in any
        case each path at most once, and never one that does not belong. */
    method Walk(late: nat -> bool)
      requires !truncated && entries == 0 && directories == 0 && yielded == [] && prunedPaths == [] && Proper(root)
      modifies this
      ensures !truncated ==> yielded == Listing(query, [], root)
      ensures Sub(yielded, Listing(query, [], root)) && NoRepeats(yielded)
      ensures forall path | path in yielded :: Belongs(query, [], root, path)
      ensures entries <= MAX_WALK_ENTRIES && directories <= MAX_WALK_DIRECTORIES
      ensures forall path | path in yielded :: |path| <= MAX_WALK_DEPTH + 1
      ensures forall n: nat | late(n) :: entries <= n
      ensures truncated ==> || entries == MAX_WALK_ENTRIES || directories == MAX_WALK_DIRECTORIES
                            || Height(root) > MAX_WALK_DEPTH || exists n :: late(n)
    {
      directories := 1;
      var stack := [Frame(root, [], InitialStates(query.pattern), 0)];
      Started(stack);
      hide Listing, Sub, FrameOk, Height, Belongs, NoRepeats, Proper, OnCourse, Remaining, StatesAfter;
      OnCourseSub(stack);
      CourseLimits(stack);
      var looks := 0;
      while stack != []
        invariant OnCourse(stack) && entries <= MAX_WALK_ENTRIES && entries <= looks
        invariant forall n: nat | late(n) :: looks <= n
        invariant Sub(yielded, Listing(query, [], root)) && Limited()
        invariant forall path | path in yielded :: |path| <= MAX_WALK_DEPTH + 1
        invariant truncated ==> directories == MAX_WALK_DIRECTORIES || Height(root) > MAX_WALK_DEPTH
        invariant stack == [] && !truncated ==> yielded == Listing(query, [], root)
        decreases MAX_WALK_ENTRIES - entries, |stack|
      {
        if entries >= MAX_WALK_ENTRIES || late(looks) {
          truncated := true;
          break;
        }
        looks := looks + 1;
        if stack[|stack| - 1].rest == [] {
          Popped(stack);
          stack := stack[..|stack| - 1];
        } else {
          entries := entries + 1;
          stack := Visit(stack);
        }
        OnCourseSub(stack);
        CourseLimits(stack);
      }
      PartOfListing(yielded);
    }
  }
}
