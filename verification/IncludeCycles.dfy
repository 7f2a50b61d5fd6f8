/** When the worklist ends. It keeps scanned paths as they are spelled, so a source that is reached
    again through a detour is another path; the paths stay finite exactly when no cycle of includes
    spells a detour. */
module IncludeCycles {
  import opened Wrappers
  import opened Includes
  import opened Worklist

  /** A literal of several parts lengthens the path of the source it includes. */
  predicate Long(l: Path) { |l| > 1 }

  /** A chain of includes of Rust sources. */
  ghost predicate RustTrail(tree: Tree, c: Path, literals: seq<Path>) {
    FileTrail(tree, c, literals) && forall i :: 0 <= i < |literals| ==> Rust(literals[i])
  }

  ghost predicate Leads(tree: Tree, c: Path, d: Path) {
    exists literals :: RustTrail(tree, c, literals) && FileEnd(tree, c, literals) == d
  }

  /** Sources that the worklist scans. */
  ghost predicate ScannedFile(tree: Tree, seeds: set<Path>, c: Path) {
    exists s :: s in seeds && Rust(s) && Resolve(tree, s).Some? && Leads(tree, Resolve(tree, s).value, c)
  }

  ghost predicate DetourCycle(tree: Tree, c: Path, literals: seq<Path>) {
    && RustTrail(tree, c, literals) && FileEnd(tree, c, literals) == c
    && exists i :: 0 <= i < |literals| && Long(literals[i])
  }

  /** A scanned source that includes itself, at any remove, through a literal of several parts. */
  ghost predicate Growing(tree: Tree, seeds: set<Path>) {
    exists c, literals :: ScannedFile(tree, seeds, c) && DetourCycle(tree, c, literals)
  }

  // ----- chains of file includes -----

  lemma RustTrailCons(tree: Tree, c: Path, l: Path, rest: seq<Path>)
    ensures RustTrail(tree, c, [l] + rest)
       <==> && l in Literals(tree, c) && Target(tree, c, l).Some? && Rust(l)
            && RustTrail(tree, Target(tree, c, l).value, rest)
    ensures Target(tree, c, l).Some? ==> FileEnd(tree, c, [l] + rest) == FileEnd(tree, Target(tree, c, l).value, rest)
  {
    hide Target, Literals, Rust;
    var all := [l] + rest;
    assert all[0] == l && all[1..] == rest;
    assert forall i :: 0 <= i < |rest| ==> all[i + 1] == rest[i];
  }

  lemma {:induction false} FileTrailAppend(tree: Tree, c: Path, a: seq<Path>, b: seq<Path>)
    requires RustTrail(tree, c, a) && RustTrail(tree, FileEnd(tree, c, a), b)
    ensures RustTrail(tree, c, a + b) && FileEnd(tree, c, a + b) == FileEnd(tree, FileEnd(tree, c, a), b)
    decreases |a|
  {
    hide *;
    if a == [] {
      EmptyEnd(tree, c);
      assert [] + b == b;
    } else {
      var l, rest := a[0], a[1..];
      assert a == [l] + rest;
      assert a + b == [l] + (rest + b);
      RustTrailCons(tree, c, l, rest);
      FileTrailAppend(tree, Target(tree, c, l).value, rest, b);
      RustTrailCons(tree, c, l, rest + b);
    }
  }

  lemma EmptyEnd(tree: Tree, c: Path)
    ensures FileEnd(tree, c, []) == c
  {
  }

  lemma LeadsSelf(tree: Tree, c: Path)
    ensures Leads(tree, c, c)
  {
    assert RustTrail(tree, c, []) && FileEnd(tree, c, []) == c;
  }

  lemma LeadsOn(tree: Tree, c: Path, d: Path, l: Path)
    requires Leads(tree, c, d) && l in Literals(tree, d) && Target(tree, d, l).Some? && Rust(l)
    ensures Leads(tree, c, Target(tree, d, l).value)
  {
    var literals :| RustTrail(tree, c, literals) && FileEnd(tree, c, literals) == d;
    SingleTrail(tree, d, l);
    FileTrailAppend(tree, c, literals, [l]);
  }

  lemma SingleTrail(tree: Tree, d: Path, l: Path)
    requires l in Literals(tree, d) && Target(tree, d, l).Some? && Rust(l)
    ensures RustTrail(tree, d, [l]) && FileEnd(tree, d, [l]) == Target(tree, d, l).value
  {
    assert [l][1..] == [];
  }

  lemma ScannedOn(tree: Tree, seeds: set<Path>, d: Path, l: Path)
    requires ScannedFile(tree, seeds, d) && l in Literals(tree, d) && Target(tree, d, l).Some? && Rust(l)
    ensures ScannedFile(tree, seeds, Target(tree, d, l).value)
  {
    var s :| s in seeds && Rust(s) && Resolve(tree, s).Some? && Leads(tree, Resolve(tree, s).value, d);
    LeadsOn(tree, Resolve(tree, s).value, d, l);
  }

  /** Returning through a long literal to where one came from closes a growing cycle. */
  lemma LongReturn(tree: Tree, seeds: set<Path>, d: Path, c: Path, l: Path)
    requires ScannedFile(tree, seeds, c) && Leads(tree, d, c)
    requires l in Literals(tree, c) && Target(tree, c, l) == Some(d) && Rust(l) && Long(l)
    ensures Growing(tree, seeds)
  {
    var literals :| RustTrail(tree, d, literals) && FileEnd(tree, d, literals) == c;
    SingleTrail(tree, c, l);
    FileTrailAppend(tree, d, literals, [l]);
    FileTrailAppend(tree, c, [l], literals + [l]);
    FileTrailAppend(tree, c, [l], literals);
    var cycle := [l] + literals;
    assert cycle[0] == l;
    assert DetourCycle(tree, c, cycle);
  }

  // ----- without such a cycle, few literals are long -----

  function Longs(literals: seq<Path>): nat {
    if literals == [] then 0 else (if Long(literals[0]) then 1 else 0) + Longs(literals[1..])
  }

  lemma SubtractOne(v: set<Path>, x: set<Path>, d: Path)
    requires d in v && d !in x
    ensures |v - (x + {d})| + 1 == |v - x|
  {
    assert v - x == (v - (x + {d})) + {d};
  }

  /** Each long literal but the last of a chain reaches a file that no earlier long literal reached. */
  lemma {:induction false} FewLongs(tree: Tree, seeds: set<Path>, c: Path, literals: seq<Path>, met: set<Path>)
    requires !Growing(tree, seeds) && ScannedFile(tree, seeds, c) && FileTrail(tree, c, literals)
    requires forall x :: x in met ==> Leads(tree, x, c)
    ensures Longs(literals) <= |tree.Keys - met| + 1
    decreases |literals|
  {
    hide Growing, ScannedFile, Leads, Resolve, Literals;
    if literals != [] {
      var l, rest := literals[0], literals[1..];
      var d := Target(tree, c, l).value;
      if |literals| == 1 {
        assert rest == [];
      } else {
        ScannedOn(tree, seeds, c, l);
        forall x | x in met ensures Leads(tree, x, d) {
          LeadsOn(tree, x, c, l);
        }
        if Long(l) {
          LeadsSelf(tree, d);
          NotMet(tree, seeds, c, l, met);
          SubtractOne(tree.Keys, met, d);
          FewLongs(tree, seeds, d, rest, met + {d});
        } else {
          FewLongs(tree, seeds, d, rest, met);
        }
      }
    }
  }

  lemma NotMet(tree: Tree, seeds: set<Path>, c: Path, l: Path, met: set<Path>)
    requires !Growing(tree, seeds) && ScannedFile(tree, seeds, c)
    requires l in Literals(tree, c) && Target(tree, c, l).Some? && Rust(l) && Long(l)
    requires forall x :: x in met ==> Leads(tree, x, c)
    ensures Target(tree, c, l).value in tree && Target(tree, c, l).value !in met
  {
    hide Growing, ScannedFile, Leads, Literals;
    var d := Target(tree, c, l).value;
    if d in met {
      LongReturn(tree, seeds, d, c, l);
      assert false;
    }
  }

  // ----- so paths stay short -----

  /** No member is longer. */
  ghost predicate Within(paths: set<Path>, n: nat) {
    forall p :: p in paths ==> |p| <= n
  }

  ghost function Longest(paths: set<Path>): (n: nat)
    ensures Within(paths, n)
  {
    if paths == {} then 0
    else
      var p :| p in paths;
      var n := Longest(paths - {p});
      assert paths == (paths - {p}) + {p};
      if |p| > n then |p| else n
  }

  function AllLiterals(tree: Tree): set<Path> {
    set c, l | c in tree && tree[c].File? && l in tree[c].includes :: l
  }

  lemma LiteralKnown(tree: Tree, p: Path, l: Path)
    requires l in Literals(tree, p)
    ensures l in AllLiterals(tree)
  {
  }

  lemma CountOne(n: nat, literals: seq<Path>)
    requires literals != []
    ensures n * Longs(literals) == (if Long(literals[0]) then n else 0) + n * Longs(literals[1..])
  {
    assert n * (1 + Longs(literals[1..])) == n + n * Longs(literals[1..]);
  }

  /** A path grows only by long literals, each by less than the longest. */
  lemma {:induction false} EndLength(tree: Tree, p: Path, literals: seq<Path>, n: nat)
    requires Trail(tree, p, literals) && Within(AllLiterals(tree), n)
    ensures |End(p, literals)| <= |p| + n * Longs(literals)
    decreases |literals|
  {
    hide Literals, Longs, AllLiterals;
    if literals != [] {
      var l, rest := literals[0], literals[1..];
      LiteralKnown(tree, p, l);
      SourceNamed(tree, p, l);
      EndLength(tree, Child(p, l), rest, n);
      CountOne(n, literals);
    }
  }

  lemma SourceNamed(tree: Tree, p: Path, l: Path)
    requires l in Literals(tree, p)
    ensures p != []
  {
  }

  lemma {:induction false} LongsAppend(literals: seq<Path>, l: Path)
    ensures Longs(literals + [l]) <= Longs(literals) + 1
  {
    if literals == [] {
      assert [] + [l] == [l] && [l][1..] == [];
    } else {
      assert (literals + [l])[1..] == literals[1..] + [l];
      LongsAppend(literals[1..], l);
    }
  }

  lemma {:induction false} TrailFront(tree: Tree, p: Path, front: seq<Path>, l: Path)
    requires Trail(tree, p, front + [l])
    ensures Trail(tree, p, front) && AllResolve(tree, p, front) && Rust(p)
    decreases |front|
  {
    hide Resolve, Rust, Child;
    if front == [] {
      assert (front + [l])[0] == l;
    } else {
      assert (front + [l])[1..] == front[1..] + [l] && (front + [l])[0] == front[0];
      TrailFront(tree, Child(p, front[0]), front[1..], l);
    }
  }

  function Times(a: nat, b: nat): nat { a * b }

  ghost function Bound(tree: Tree, seeds: set<Path>): nat {
    Longest(seeds) + Times(Longest(AllLiterals(tree)), |tree.Keys| + 2)
  }

  lemma TimesAtMost(n: nat, a: nat, b: nat)
    requires a <= b
    ensures n * a <= n * b
  {
  }

  lemma TrailLength(tree: Tree, seeds: set<Path>, s: Path, literals: seq<Path>)
    requires TreeSound(tree) && !Growing(tree, seeds) && s in seeds && Trail(tree, s, literals)
    ensures Longs(literals) <= |tree.Keys| + 2
  {
    hide Growing, ScannedFile, Leads, Resolve, Literals, TreeSound, Trail, FileTrail, AllResolve;
    if literals != [] {
      var front, l := literals[..|literals| - 1], literals[|literals| - 1];
      assert literals == front + [l];
      TrailFront(tree, s, front, l);
      FirstResolves(tree, s, front);
      TrailFiles(tree, s, front);
      FirstScanned(tree, seeds, s);
      FewLongs(tree, seeds, Resolve(tree, s).value, front, {});
      assert tree.Keys - {} == tree.Keys;
      LongsAppend(front, l);
    }
  }

  lemma FirstResolves(tree: Tree, p: Path, literals: seq<Path>)
    requires AllResolve(tree, p, literals)
    ensures Resolve(tree, p).Some?
  {
  }

  lemma FirstScanned(tree: Tree, seeds: set<Path>, s: Path)
    requires s in seeds && Rust(s) && Resolve(tree, s).Some?
    ensures ScannedFile(tree, seeds, Resolve(tree, s).value)
  {
    LeadsSelf(tree, Resolve(tree, s).value);
  }

  lemma ReachedLength(tree: Tree, seeds: set<Path>, p: Path)
    requires TreeSound(tree) && !Growing(tree, seeds) && Reached(tree, seeds, p)
    ensures |p| <= Bound(tree, seeds)
  {
    hide Growing, TreeSound, Trail;
    var s, literals :| s in seeds && Trail(tree, s, literals) && End(s, literals) == p;
    var n := Longest(AllLiterals(tree));
    TrailLength(tree, seeds, s, literals);
    EndLength(tree, s, literals, n);
    TimesAtMost(n, Longs(literals), |tree.Keys| + 2);
  }

  // ----- and are made of known parts -----

  function PartsOf(paths: set<Path>): set<string> {
    set p, x | p in paths && x in p :: x
  }

  ghost function Alphabet(tree: Tree, seeds: set<Path>): set<string> {
    PartsOf(seeds) + PartsOf(AllLiterals(tree))
  }

  ghost predicate Over(p: Path, letters: set<string>) {
    forall x :: x in p ==> x in letters
  }

  lemma {:induction false} EndOver(tree: Tree, p: Path, literals: seq<Path>, letters: set<string>)
    requires Trail(tree, p, literals) && Over(p, letters) && PartsOf(AllLiterals(tree)) <= letters
    ensures Over(End(p, literals), letters)
    decreases |literals|
  {
    hide Literals;
    if literals != [] {
      LiteralKnown(tree, p, literals[0]);
      assert forall x :: x in literals[0] ==> x in PartsOf(AllLiterals(tree));
      EndOver(tree, Child(p, literals[0]), literals[1..], letters);
    }
  }

  ghost function Words(letters: set<string>, n: nat): set<Path> {
    if n == 0 then {[]}
    else Words(letters, n - 1) + set w, x | w in Words(letters, n - 1) && x in letters :: w + [x]
  }

  lemma {:induction false} WordIn(letters: set<string>, n: nat, p: Path)
    requires |p| <= n && Over(p, letters)
    ensures p in Words(letters, n)
  {
    if p == [] {
      if n > 0 {
        WordIn(letters, n - 1, p);
      }
    } else {
      var front := Parent(p);
      assert p == front + [Last(p)] && Last(p) in p;
      WordIn(letters, n - 1, front);
    }
  }

  ghost function Universe(tree: Tree, seeds: set<Path>): set<Path> {
    set p | p in Words(Alphabet(tree, seeds), Bound(tree, seeds)) && Reached(tree, seeds, p)
  }

  lemma ReachedOver(tree: Tree, seeds: set<Path>, p: Path)
    requires Reached(tree, seeds, p)
    ensures Over(p, Alphabet(tree, seeds))
  {
    hide Trail;
    var s, literals :| s in seeds && Trail(tree, s, literals) && End(s, literals) == p;
    assert Over(s, PartsOf(seeds));
    EndOver(tree, s, literals, Alphabet(tree, seeds));
  }

  lemma UniverseClosed(tree: Tree, seeds: set<Path>)
    requires TreeSound(tree) && !Growing(tree, seeds)
    ensures Closed(tree, seeds, Universe(tree, seeds))
  {
    hide Reached, Growing, TreeSound, Words, Alphabet, Bound, Child, Literals;
    forall p | Reached(tree, seeds, p) ensures p in Universe(tree, seeds) {
      ReachedLength(tree, seeds, p);
      ReachedOver(tree, seeds, p);
      WordIn(Alphabet(tree, seeds), Bound(tree, seeds), p);
    }
    forall s | s in seeds ensures Reached(tree, seeds, s) {
      ReachedSeed(tree, seeds, s);
    }
    forall p, l | p in Universe(tree, seeds) && l in Literals(tree, p) ensures Reached(tree, seeds, Child(p, l)) {
      ReachedStep(tree, seeds, p, l);
    }
  }

  // ----- with such a cycle, paths grow without end -----

  lemma {:induction false} EndLonger(p: Path, literals: seq<Path>)
    requires Rust(p) && forall i :: 0 <= i < |literals| ==> Rust(literals[i])
    ensures Rust(End(p, literals)) && |End(p, literals)| >= |p|
    ensures (exists i :: 0 <= i < |literals| && Long(literals[i])) ==> |End(p, literals)| > |p|
    decreases |literals|
  {
    if literals != [] {
      var l := literals[0];
      assert l != [] && p != [];
      RustChild(p, l);
      EndLonger(Child(p, l), literals[1..]);
      assert forall i :: 1 <= i < |literals| ==> literals[i] == literals[1..][i - 1];
    }
  }

  /** Some path of at least this length is reached and names the source. */
  ghost predicate ReachedAt(tree: Tree, seeds: set<Path>, c: Path, n: nat) {
    exists p :: Reached(tree, seeds, p) && Rust(p) && Resolve(tree, p) == Some(c) && |p| >= n
  }

  lemma {:induction false} ReachedTrail(tree: Tree, seeds: set<Path>, p: Path, literals: seq<Path>)
    requires Reached(tree, seeds, p) && Trail(tree, p, literals)
    ensures Reached(tree, seeds, End(p, literals))
    decreases |literals|
  {
    hide Reached;
    if literals != [] {
      ReachedStep(tree, seeds, p, literals[0]);
      ReachedTrail(tree, seeds, Child(p, literals[0]), literals[1..]);
    }
  }

  lemma ReachedAlong(tree: Tree, seeds: set<Path>, p: Path, literals: seq<Path>)
    requires TreeSound(tree) && Reached(tree, seeds, p) && Rust(p) && Resolve(tree, p).Some?
    requires RustTrail(tree, Resolve(tree, p).value, literals)
    ensures Reached(tree, seeds, End(p, literals)) && Rust(End(p, literals))
    ensures Resolve(tree, End(p, literals)) == Some(FileEnd(tree, Resolve(tree, p).value, literals))
  {
    FilesTrail(tree, p, literals);
    TrailFiles(tree, p, literals);
    ReachedTrail(tree, seeds, p, literals);
    EndLonger(p, literals);
  }

  lemma ScannedReached(tree: Tree, seeds: set<Path>, c: Path)
    requires TreeSound(tree) && ScannedFile(tree, seeds, c)
    ensures ReachedAt(tree, seeds, c, 0)
  {
    hide Reached, TreeSound;
    var s :| s in seeds && Rust(s) && Resolve(tree, s).Some? && Leads(tree, Resolve(tree, s).value, c);
    var literals :| RustTrail(tree, Resolve(tree, s).value, literals)
        && FileEnd(tree, Resolve(tree, s).value, literals) == c;
    ReachedSeed(tree, seeds, s);
    ReachedAlong(tree, seeds, s, literals);
  }

  lemma {:induction false} EverLonger(tree: Tree, seeds: set<Path>, c: Path, cycle: seq<Path>, n: nat)
    requires TreeSound(tree) && ScannedFile(tree, seeds, c) && DetourCycle(tree, c, cycle)
    ensures ReachedAt(tree, seeds, c, n)
  {
    hide Reached, TreeSound, ScannedFile;
    if n == 0 {
      ScannedReached(tree, seeds, c);
    } else {
      EverLonger(tree, seeds, c, cycle, n - 1);
      var p :| Reached(tree, seeds, p) && Rust(p) && Resolve(tree, p) == Some(c) && |p| >= n - 1;
      ReachedAlong(tree, seeds, p, cycle);
      EndLonger(p, cycle);
    }
  }

  lemma NeverClosed(tree: Tree, seeds: set<Path>, paths: set<Path>)
    requires TreeSound(tree) && Growing(tree, seeds)
    ensures !Closed(tree, seeds, paths)
  {
    hide Reached, TreeSound, ScannedFile, DetourCycle;
    var c, cycle :| ScannedFile(tree, seeds, c) && DetourCycle(tree, c, cycle);
    if Closed(tree, seeds, paths) {
      EverLonger(tree, seeds, c, cycle, Longest(paths) + 1);
      ClosedReached(tree, seeds, paths);
    }
  }

  // ----- the exact condition -----

  /** There is a finite set that no include leaves exactly when no cycle of scanned sources goes through
      an include of several parts. */
  lemma FiniteExactly(tree: Tree, seeds: set<Path>)
    requires TreeSound(tree)
    ensures (exists universe :: Closed(tree, seeds, universe)) <==> !Growing(tree, seeds)
  {
    hide Closed, Growing;
    if Growing(tree, seeds) {
      forall universe ensures !Closed(tree, seeds, universe) {
        NeverClosed(tree, seeds, universe);
      }
    } else {
      UniverseClosed(tree, seeds);
    }
  }

  // ----- the worklist ends -----

  /** The iterations stay inside any set that no include leaves. */
  lemma IterateWithin(tree: Tree, seeds: set<Path>, w: Work, universe: set<Path>)
    requires Invariant(tree, seeds, w) && w.paths <= universe && Closed(tree, seeds, universe)
    ensures Iterate(tree, w).paths <= universe
  {
    hide Reached, Resolve, Literals, Child, Rust;
    if Going(w) {
      var last := |w.pending| - 1;
      var p := w.pending[last];
      assert p in w.pending;
      AddedExact(p, Literals(tree, p), w.paths, w.pending[..last]);
    }
  }

  /** Each iteration scans one more path of the set or has one path less waiting. */
  lemma IterateShrinks(tree: Tree, seeds: set<Path>, w: Work)
    requires Invariant(tree, seeds, w) && Going(w) && !Iterate(tree, w).failed
    ensures var v := Iterate(tree, w);
            w.scanned < v.scanned || (v.scanned == w.scanned && |v.pending| < |w.pending|)
  {
    hide Reached, Resolve, Literals, Child, Rust, Added;
  }

  lemma {:induction false} IterationsAfter(tree: Tree, w: Work, n: nat)
    ensures Iterations(tree, Iterate(tree, w), n) == Iterations(tree, w, n + 1)
  {
    hide Iterate;
    if n > 0 {
      IterationsAfter(tree, w, n - 1);
    } else {
      assert Iterations(tree, w, 0) == w;
    }
  }

  lemma EndsWithin(tree: Tree, seeds: set<Path>, w: Work, universe: set<Path>) returns (n: nat)
    requires Invariant(tree, seeds, w) && w.paths <= universe && Closed(tree, seeds, universe)
    ensures !Going(Iterations(tree, w, n))
    decreases universe - w.scanned, |w.pending|, !w.failed
  {
    hide Invariant, Closed, Iterate;
    n := 0;
    if Going(w) {
      var v := Iterate(tree, w);
      IterateInvariant(tree, seeds, w);
      IterateWithin(tree, seeds, w, universe);
      InvariantScanned(tree, seeds, v);
      if v.failed {
        n := 1;
        assert Iterations(tree, w, 0) == w;
      } else {
        IterateShrinks(tree, seeds, w);
        var m := EndsWithin(tree, seeds, v, universe);
        IterationsAfter(tree, w, m);
        n := m + 1;
      }
    }
  }

  lemma InvariantScanned(tree: Tree, seeds: set<Path>, w: Work)
    requires Invariant(tree, seeds, w)
    ensures w.scanned <= w.paths
  {
  }

  /** Every Rust source among the reached paths can be read. */
  ghost predicate SourcesResolve(tree: Tree, seeds: set<Path>) {
    forall p :: Reached(tree, seeds, p) && Rust(p) ==> Resolve(tree, p).Some?
  }

  /** Nothing waits any more, and no source was refused. */
  predicate Done(w: Work) { !w.failed && w.pending == [] }

  /** Without a detour cycle the worklist stops, whatever the order of its work. */
  lemma Stops(tree: Tree, seeds: set<Path>, order: seq<Path>)
    requires TreeSound(tree) && !Growing(tree, seeds) && forall p :: p in order <==> p in seeds
    ensures exists n :: !Going(Iterations(tree, Begin(seeds, order), n))
  {
    hide Growing, TreeSound, Closed, Invariant, Universe;
    UniverseClosed(tree, seeds);
    BeginInvariant(tree, seeds, order);
    SeedsWithin(tree, seeds, Universe(tree, seeds));
    var n := EndsWithin(tree, seeds, Begin(seeds, order), Universe(tree, seeds));
  }

  lemma SeedsWithin(tree: Tree, seeds: set<Path>, universe: set<Path>)
    requires Closed(tree, seeds, universe)
    ensures seeds <= universe
  {
  }

  /** The worklist finishes exactly when no cycle of scanned sources goes through a literal of several
      parts and every source it reaches can be read. */
  lemma FinishesExactly(tree: Tree, seeds: set<Path>, order: seq<Path>)
    requires TreeSound(tree) && forall p :: p in order <==> p in seeds
    ensures (exists n :: Done(Iterations(tree, Begin(seeds, order), n)))
       <==> !Growing(tree, seeds) && SourcesResolve(tree, seeds)
  {
    hide Growing, TreeSound, Closed, Reached, Invariant, Iterations, Resolve, Rust;
    if exists n :: Done(Iterations(tree, Begin(seeds, order), n)) {
      var n :| Done(Iterations(tree, Begin(seeds, order), n));
      var w := Iterations(tree, Begin(seeds, order), n);
      IterationsInvariant(tree, seeds, order, n);
      StoppedExact(tree, seeds, w);
      assert !Growing(tree, seeds) by {
        if Growing(tree, seeds) {
          NeverClosed(tree, seeds, w.paths);
        }
      }
    }
    if !Growing(tree, seeds) && SourcesResolve(tree, seeds) {
      Stops(tree, seeds, order);
      var n :| !Going(Iterations(tree, Begin(seeds, order), n));
      IterationsInvariant(tree, seeds, order, n);
      NotFailed(tree, seeds, Iterations(tree, Begin(seeds, order), n));
      assert Done(Iterations(tree, Begin(seeds, order), n));
    }
  }

  lemma NotFailed(tree: Tree, seeds: set<Path>, w: Work)
    requires Invariant(tree, seeds, w) && SourcesResolve(tree, seeds)
    ensures !w.failed
  {
    hide Reached, Resolve, Rust;
  }

  /** With such a cycle, and every reached source readable, no number of iterations leaves nothing to do. */
  lemma NeverEnds(tree: Tree, seeds: set<Path>, order: seq<Path>, n: nat)
    requires TreeSound(tree) && forall p :: p in order <==> p in seeds
    requires Growing(tree, seeds) && SourcesResolve(tree, seeds)
    ensures Going(Iterations(tree, Begin(seeds, order), n))
  {
    hide Growing, TreeSound, Reached, Invariant, Iterations, SourcesResolve;
    var w := Iterations(tree, Begin(seeds, order), n);
    IterationsInvariant(tree, seeds, order, n);
    NotFailed(tree, seeds, w);
    if w.pending == [] {
      assert Done(w);
      FinishesExactly(tree, seeds, order);
      assert false;
    }
  }

  const SELF: Path := ["crates", "a.rs"]
  const DETOUR: Path := ["..", "crates", "a.rs"]
  const SELF_TREE: Tree := map[SELF := File(0, [DETOUR])]

  /** One source that includes itself through its parent directory keeps the worklist busy for ever. */
  lemma SelfIncludeNeverEnds(n: nat)
    ensures Going(Iterations(SELF_TREE, Begin({SELF}, [SELF]), n))
  {
    hide Rust, Resolve, TreeSound, Iterations, Growing, SourcesResolve;
    SelfResolves();
    var cycle := [DETOUR];
    SingleTrail(SELF_TREE, SELF, DETOUR);
    assert DetourCycle(SELF_TREE, SELF, cycle) by {
      assert Long(cycle[0]);
    }
    FirstScanned(SELF_TREE, {SELF}, SELF);
    SelfGrows(cycle);
    SelfSources();
    NeverEnds(SELF_TREE, {SELF}, [SELF], n);
  }

  lemma SelfGrows(cycle: seq<Path>)
    requires ScannedFile(SELF_TREE, {SELF}, SELF) && DetourCycle(SELF_TREE, SELF, cycle)
    ensures Growing(SELF_TREE, {SELF})
  {
  }

  lemma {:induction false} SelfTrail(p: Path, literals: seq<Path>)
    requires Rust(p) && Resolve(SELF_TREE, p) == Some(SELF) && Trail(SELF_TREE, p, literals)
    ensures Resolve(SELF_TREE, End(p, literals)) == Some(SELF)
    decreases |literals|
  {
    if literals != [] {
      hide Rust, Resolve, Child;
      SelfResolves();
      LiteralsResolve(SELF_TREE, p);
      assert literals[0] == DETOUR;
      ChildResolves(SELF_TREE, p, DETOUR);
      RustChild(p, DETOUR);
      SelfTrail(Child(p, DETOUR), literals[1..]);
    }
  }

  lemma SelfSources()
    ensures SourcesResolve(SELF_TREE, {SELF})
  {
    hide Rust, Resolve, Trail;
    SelfResolves();
    forall p | Reached(SELF_TREE, {SELF}, p) ensures Resolve(SELF_TREE, p).Some? {
      var s, literals :| s in {SELF} && Trail(SELF_TREE, s, literals) && End(s, literals) == p;
      SelfTrail(SELF, literals);
    }
  }

  lemma SelfWalks()
    ensures WalkFrom(SELF_TREE, [], SELF) == Some(SELF) && WalkFrom(SELF_TREE, [], ["crates"] + DETOUR) == Some(SELF)
  {
    assert SELF[1..] == ["a.rs"] && ["a.rs"][1..] == [] && ["crates"][1..] == [] && DETOUR[1..] == SELF;
    assert [] + ["crates"] == ["crates"] && ["crates"] + ["a.rs"] == SELF && Parent(["crates"]) == [];
    assert WalkFrom(SELF_TREE, SELF, []) == Some(SELF);
    assert WalkFrom(SELF_TREE, ["crates"], ["a.rs"]) == Some(SELF);
    assert WalkFrom(SELF_TREE, [], SELF) == Some(SELF);
    assert WalkFrom(SELF_TREE, ["crates"], DETOUR) == Some(SELF);
    assert WalkFrom(SELF_TREE, [], ["crates"]) == WalkFrom(SELF_TREE, ["crates"], []) == Some(["crates"]);
    WalkAppend(SELF_TREE, [], ["crates"], DETOUR);
  }

  lemma SelfResolves()
    ensures TreeSound(SELF_TREE) && Rust(SELF) && Rust(DETOUR) && Resolve(SELF_TREE, SELF) == Some(SELF)
    ensures Literals(SELF_TREE, SELF) == [DETOUR] && Target(SELF_TREE, SELF, DETOUR) == Some(SELF)
  {
    hide WalkFrom, Private, Rust, TreeSound;
    SelfWalks();
    NotPrivate();
    assert Child(SELF, DETOUR) == ["crates"] + DETOUR;
    assert Parent(SELF) == ["crates"];
    assert Last(SELF) == "a.rs";
    OneFileSound(SELF, File(0, [DETOUR]));
  }

  lemma OneFileSound(c: Path, e: Entry)
    requires c != []
    ensures TreeSound(map[c := e])
  {
    var tree := map[c := e];
    assert tree.Keys == {c};
    assert |Parent(c)| != |c|;
    forall d | d in tree.Keys ensures d != [] && Parent(d) !in tree.Keys {
      assert d == c;
      assert Parent(d) != c;
    }
  }

  lemma NotPrivate()
    ensures !Private("a.rs") && Rust(SELF) && Rust(DETOUR)
  {
    SourceNotPrivate("a.rs");
    assert "a.rs"[1..] == ".rs";
  }
}
