/** The state-set glob automaton of the workspace walk (`workspace_walk.py`,
    `walk_support.py`) and the relation it decides. `fnmatch` on one segment is any
    predicate. */
module Glob {
  type Name = string

  const PRUNED_DIRECTORY_NAMES: set<Name> := {"build", "node_modules", "__pycache__"}

  /** One path segment; `generated` for a directory that `**` does not enter. */
  datatype Segment = Segment(name: Name, generated: bool)

  type Path = seq<Segment>

  datatype Pattern = Pattern(parts: seq<Name>, fits: (Name, Name) -> bool)

  predicate Hidden(name: Name) { name != "" && name[0] == '.' }

  predicate SegmentMatches(p: Pattern, name: Name, part: Name) {
    !(Hidden(name) && !Hidden(part)) && p.fits(name, part)
  }

  predicate Deep(p: Pattern, k: nat) { k < |p.parts| && p.parts[k] == "**" }

  /** The relation: `**` takes zero or more segments that are neither hidden nor
      generated directories, any other part takes one segment. */
  predicate Matches(p: Pattern, k: nat, path: Path)
    decreases |path|, |p.parts| - k
  {
    if k >= |p.parts| then path == []
    else if Deep(p, k) then
      Matches(p, k + 1, path)
      || (path != [] && !Hidden(path[0].name) && !path[0].generated && Matches(p, k, path[1..]))
    else path != [] && SegmentMatches(p, path[0].name, p.parts[k]) && Matches(p, k + 1, path[1..])
  }

  /** One part takes a piece of the path: `**` any segments that do not start with a dot and
      are no generated directories, any other part one segment, with a leading dot only if
      it has one itself. */
  predicate Takes(part: Name, piece: Path, fits: (Name, Name) -> bool) {
    if part == "**" then forall s | s in piece :: !("." <= s.name) && !s.generated
    else |piece| == 1 && fits(piece[0].name, part) && ("." <= piece[0].name ==> "." <= part)
  }

  function Flat(pieces: seq<Path>): Path {
    if pieces == [] then [] else pieces[0] + Flat(pieces[1..])
  }

  /** The path is cut into one piece for each part. */
  ghost predicate Divided(parts: seq<Name>, fits: (Name, Name) -> bool, path: Path, pieces: seq<Path>) {
    && |pieces| == |parts| && Flat(pieces) == path
    && forall k | 0 <= k < |parts| :: Takes(parts[k], pieces[k], fits)
  }

  lemma {:induction false} MatchDivides(p: Pattern, k: nat, path: Path) returns (pieces: seq<Path>)
    requires k <= |p.parts| && Matches(p, k, path)
    ensures Divided(p.parts[k..], p.fits, path, pieces)
    decreases |path|, |p.parts| - k
  {
    if k == |p.parts| {
      pieces := [];
    } else {
      var part := p.parts[k];
      assert p.parts[k..] == [part] + p.parts[k + 1..];
      if Deep(p, k) && !Matches(p, k + 1, path) {
        var rest := MatchDivides(p, k, path[1..]);
        pieces := [[path[0]] + rest[0]] + rest[1..];
        assert Flat(pieces) == [path[0]] + Flat(rest) == path;
        assert Takes(part, rest[0], p.fits) && Takes(part, pieces[0], p.fits);
        forall i | 0 < i < |pieces| ensures Takes(p.parts[k..][i], pieces[i], p.fits) { assert pieces[i] == rest[i]; }
      } else {
        var taken := if Deep(p, k) then [] else path[..1];
        var rest := MatchDivides(p, k + 1, path[|taken|..]);
        pieces := [taken] + rest;
        assert pieces[1..] == rest && taken + path[|taken|..] == path;
      }
    }
  }

  lemma {:induction false} DividedMatches(p: Pattern, k: nat, path: Path, pieces: seq<Path>)
    requires k <= |p.parts| && Divided(p.parts[k..], p.fits, path, pieces)
    ensures Matches(p, k, path)
    decreases |path|, |p.parts| - k
  {
    if k < |p.parts| {
      var part := p.parts[k];
      assert p.parts[k..] == [part] + p.parts[k + 1..] && Takes(part, pieces[0], p.fits);
      if Deep(p, k) && pieces[0] != [] {
        var rest := [pieces[0][1..]] + pieces[1..];
        assert path[0] == pieces[0][0] && path[1..] == Flat(rest);
        forall i | 0 < i < |rest| ensures Takes(p.parts[k..][i], rest[i], p.fits) { assert rest[i] == pieces[i]; }
        DividedMatches(p, k, path[1..], rest);
      } else {
        assert path[|pieces[0]|..] == Flat(pieces[1..]);
        forall i | 0 <= i < |pieces[1..]| ensures Takes(p.parts[k + 1..][i], pieces[1..][i], p.fits) {
          assert Takes(p.parts[k..][i + 1], pieces[i + 1], p.fits);
        }
        DividedMatches(p, k + 1, path[|pieces[0]|..], pieces[1..]);
      }
    }
  }

  /** What the relation means: a path matches if and only if it can be cut into pieces that
      the parts take, one each. */
  lemma {:induction false} MatchesIff(p: Pattern, path: Path)
    ensures Matches(p, 0, path) <==> exists pieces :: Divided(p.parts, p.fits, path, pieces)
  {
    assert p.parts[0..] == p.parts;
    if Matches(p, 0, path) {
      var pieces := MatchDivides(p, 0, path);
    }
    if pieces :| Divided(p.parts, p.fits, path, pieces) {
      DividedMatches(p, 0, path, pieces);
    }
  }

  // The automaton

  type States = set<nat>

  ghost predicate Closed(p: Pattern, s: States) { forall k | k in s && Deep(p, k) :: k + 1 in s }

  /** The least superset that takes every `**` as empty. */
  ghost predicate IsClosure(p: Pattern, s: States, r: States) {
    && s <= r && Closed(p, r)
    && forall k | k in r && k !in s :: k > 0 && k - 1 in r && Deep(p, k - 1)
  }

  function Closure(p: Pattern, s: States): States { ClosureTo(p, s, |p.parts|) }

  function ClosureTo(p: Pattern, s: States, n: nat): States {
    if n == 0 then s
    else
      var r := ClosureTo(p, s, n - 1);
      if n - 1 in r && Deep(p, n - 1) then r + {n} else r
  }

  /** `_closure`: one ascending pass suffices. */
  method CloseStates(p: Pattern, s: States) returns (expanded: States)
    ensures expanded == Closure(p, s)
    ensures IsClosure(p, s, expanded)
  {
    expanded := s;
    for index := 0 to |p.parts|
      invariant expanded == ClosureTo(p, s, index)
      invariant s <= expanded
      invariant forall k | k in expanded && k < index && Deep(p, k) :: k + 1 in expanded
      invariant forall k | k in expanded && k !in s :: 0 < k <= index && k - 1 in expanded && Deep(p, k - 1)
    {
      if index in expanded && p.parts[index] == "**" {
        expanded := expanded + {index + 1};
      }
    }
  }

  lemma {:induction false} ClosureToIs(p: Pattern, s: States, n: nat)
    requires n <= |p.parts|
    ensures var r := ClosureTo(p, s, n);
            && s <= r
            && (forall k | k in r && k < n && Deep(p, k) :: k + 1 in r)
            && (forall k | k in r && k !in s :: 0 < k <= n && k - 1 in r && Deep(p, k - 1))
  {
    if n > 0 {
      ClosureToIs(p, s, n - 1);
    }
  }

  lemma ClosureIs(p: Pattern, s: States)
    ensures IsClosure(p, s, Closure(p, s))
  {
    ClosureToIs(p, s, |p.parts|);
  }

  function Moves(p: Pattern, s: States, name: Name, prune: bool): States {
    (set k | k in s && Deep(p, k) && !Hidden(name) && !prune :: k)
    + (set k | k in s && k < |p.parts| && !Deep(p, k) && SegmentMatches(p, name, p.parts[k]) :: k + 1)
  }

  function Advance(p: Pattern, s: States, name: Name, prune: bool): States { Closure(p, Moves(p, s, name, prune)) }

  function InitialStates(p: Pattern): States { Closure(p, {0}) }

  predicate IsMatch(p: Pattern, s: States) { |p.parts| in s }

  predicate CanDescend(p: Pattern, s: States) { exists k | k in s :: k < |p.parts| }

  /** `advance`: visits the states in any order. */
  method AdvanceStates(p: Pattern, s: States, name: Name, prune: bool) returns (r: States)
    ensures r == Advance(p, s, name, prune)
  {
    var advanced: States := {};
    var left := s;
    while left != {}
      invariant left <= s && advanced == Moves(p, s - left, name, prune)
      decreases left
    {
      var index :| index in left;
      ghost var seen := s - left;
      left := left - {index};
      assert s - left == seen + {index};
      if index < |p.parts| {
        if p.parts[index] == "**" && !Hidden(name) && !prune {
          advanced := advanced + {index};
        } else if p.parts[index] != "**" && SegmentMatches(p, name, p.parts[index]) {
          advanced := advanced + {index + 1};
        }
      }
    }
    assert s - left == s;
    r := CloseStates(p, advanced);
  }

  function StatesAfter(p: Pattern, path: Path): States {
    if path == [] then InitialStates(p)
    else
      var last := path[|path| - 1];
      Advance(p, StatesAfter(p, path[..|path| - 1]), last.name, last.generated)
  }

  // The automaton decides the relation

  ghost predicate Accepts(p: Pattern, s: States, path: Path) { exists k :: k in s && Matches(p, k, path) }

  /** A closure accepts what its kernel accepts. */
  lemma ClosureAccepts(p: Pattern, s: States, path: Path)
    ensures Accepts(p, Closure(p, s), path) <==> Accepts(p, s, path)
  {
    ClosureIs(p, s);
    var r := Closure(p, s);
    if Accepts(p, r, path) {
      var k :| k in r && Matches(p, k, path);
      while k !in s
        invariant k in r && Matches(p, k, path)
        decreases k
      {
        assert Deep(p, k - 1);
        k := k - 1;
      }
      assert Accepts(p, s, path);
    }
    if Accepts(p, s, path) {
      var k :| k in s && Matches(p, k, path);
      assert k in r;
    }
  }

  lemma ClosureIsClosed(p: Pattern, s: States)
    ensures Closed(p, Closure(p, s))
  {
    ClosureIs(p, s);
  }

  /** In a closed set, what is accepted is accepted by a state that consumes. */
  lemma {:induction false} Consumer(p: Pattern, s: States, k: nat, path: Path) returns (j: nat)
    requires Closed(p, s) && k in s && Matches(p, k, path)
    ensures j in s && Matches(p, j, path)
    ensures Deep(p, j) ==> path != [] && !Hidden(path[0].name) && !path[0].generated && Matches(p, j, path[1..])
    decreases |p.parts| - k
  {
    if Deep(p, k) && Matches(p, k + 1, path) {
      j := Consumer(p, s, k + 1, path);
    } else {
      j := k;
    }
  }

  lemma StepAccepts(p: Pattern, s: States, path: Path)
    requires Closed(p, s) && path != []
    ensures Accepts(p, s, path) <==> Accepts(p, Moves(p, s, path[0].name, path[0].generated), path[1..])
  {
    var moved := Moves(p, s, path[0].name, path[0].generated);
    if Accepts(p, s, path) {
      var k :| k in s && Matches(p, k, path);
      var j := Consumer(p, s, k, path);
      if Deep(p, j) {
        assert j in moved;
      } else {
        assert j + 1 in moved;
      }
    }
    if Accepts(p, moved, path[1..]) {
      var m :| m in moved && Matches(p, m, path[1..]);
      if m in s && Deep(p, m) && !Hidden(path[0].name) && !path[0].generated {
        assert Matches(p, m, path);
      } else {
        assert Matches(p, m - 1, path);
      }
    }
  }

  /** After a prefix, the state set accepts exactly the ways to complete it. */
  lemma {:induction false} StatesAccept(p: Pattern, path: Path, rest: Path)
    ensures Accepts(p, StatesAfter(p, path), rest) <==> Matches(p, 0, path + rest)
    decreases |path|
  {
    if path == [] {
      ClosureAccepts(p, {0}, rest);
      assert [] + rest == rest;
      assert Accepts(p, {0}, rest) <==> Matches(p, 0, rest) by {
        if Matches(p, 0, rest) { assert 0 in {0}; }
      }
    } else {
      var last, front := path[|path| - 1], path[..|path| - 1];
      var s := StatesAfter(p, front);
      StatesClosed(p, front);
      StepAccepts(p, s, [last] + rest);
      assert ([last] + rest)[1..] == rest;
      ClosureAccepts(p, Moves(p, s, last.name, last.generated), rest);
      StatesAccept(p, front, [last] + rest);
      assert front + ([last] + rest) == path + rest;
    }
  }

  lemma StatesClosed(p: Pattern, path: Path)
    ensures Closed(p, StatesAfter(p, path))
  {
    if path == [] {
      ClosureIsClosed(p, {0});
    } else {
      var last := path[|path| - 1];
      ClosureIsClosed(p, Moves(p, StatesAfter(p, path[..|path| - 1]), last.name, last.generated));
    }
  }

  lemma {:induction false} AcceptsEmpty(p: Pattern, s: States)
    requires Closed(p, s) && (forall k | k in s :: k <= |p.parts|)
    ensures Accepts(p, s, []) <==> IsMatch(p, s)
  {
    if Accepts(p, s, []) {
      var k :| k in s && Matches(p, k, []);
      var j := Consumer(p, s, k, []);
    }
    if IsMatch(p, s) {
      assert Matches(p, |p.parts|, []);
    }
  }

  lemma {:induction false} StatesBounded(p: Pattern, path: Path)
    ensures forall k | k in StatesAfter(p, path) :: k <= |p.parts|
    decreases |path|
  {
    if path == [] {
      ClosureIs(p, {0});
    } else {
      var last, front := path[|path| - 1], path[..|path| - 1];
      StatesBounded(p, front);
      ClosureIs(p, Moves(p, StatesAfter(p, front), last.name, last.generated));
    }
  }

  /** The automaton agrees with the relation. */
  lemma AutomatonDecides(p: Pattern, path: Path)
    ensures IsMatch(p, StatesAfter(p, path)) <==> Matches(p, 0, path)
  {
    StatesClosed(p, path);
    StatesBounded(p, path);
    AcceptsEmpty(p, StatesAfter(p, path));
    StatesAccept(p, path, []);
    assert path + [] == path;
  }

  /** An empty state set: nothing that starts with this path can match. */
  lemma EmptyIsDead(p: Pattern, path: Path, rest: Path)
    requires StatesAfter(p, path) == {}
    ensures !Matches(p, 0, path + rest)
  {
    StatesAccept(p, path, rest);
  }

  /** A set that cannot descend: no proper extension of this path can match. */
  lemma NoDescentIsDead(p: Pattern, path: Path, rest: Path)
    requires !CanDescend(p, StatesAfter(p, path)) && rest != []
    ensures !Matches(p, 0, path + rest)
  {
    StatesAccept(p, path, rest);
  }
}
