/** A tree whose capture is smaller than its include closure: a literal that ends in a parent step names a
    Rust source, and what that source includes is left out. */
module LostSource {
  import opened Wrappers
  import opened Includes
  import opened Selection
  import opened Recapture

  const SEED := ["crates", "a.rs"]
  const SOURCE := ["gen", "b.rs"]
  const LOST := ["gen", "c.rs"]
  const DETOUR := ["..", "gen", "b.rs", "x", ".."]
  const HIDDEN := ["crates", "..", "gen", "b.rs", "x", ".."]

  const TREE: Tree := map[SEED := File(0, [DETOUR]), SOURCE := File(1, [["c.rs"]]), LOST := File(2, [])]

  function Start(): set<Path> { Seeds(TREE, {}, {}) }

  lemma TreeWhole()
    ensures SEED != SOURCE && SEED != LOST && SOURCE != LOST
    ensures TREE[SEED].includes == [DETOUR] && TREE[SOURCE].includes == [["c.rs"]] && TREE[LOST].includes == []
    ensures TreeSound(TREE) && forall c :: c in TREE ==> |c| == 2 && TREE[c].File?
  {
    assert SEED[0] != SOURCE[0] && SEED[0] != LOST[0] && SOURCE[1] != LOST[1];
    forall c | c in TREE ensures c != [] && Parent(c) !in TREE {
      assert |Parent(c)| == 1;
    }
  }

  lemma StartIsSeed()
    ensures Start() == {SEED}
  {
    TreeWhole();
    assert SEED[0] == "crates" && SOURCE[0] == "gen" && LOST[0] == "gen";
    forall c | c in Start() ensures c == SEED {
      assert c in TREE && UnderCrates(c);
    }
  }

  // ----- where the spelled paths lead -----

  lemma NamesItself(tree: Tree, c: Path)
    requires (forall c :: c in tree ==> tree[c].File?) && c in tree && UP !in c
    requires |c| == 2 && |c[0]| < 10 && |c[1]| == 4 && c[1][1..] == ".rs" && c[1][0] != '.'
    ensures WalkFrom(tree, [], c) == Some(c)
    ensures Resolve(tree, c) == Some(c) && Captured(tree, c) && Rust(c)
  {
    PlainWalks(tree, c);
    SourceNotPrivate(c[1]);
    assert c == [c[0], c[1]] && c[..1] == [c[0]];
  }

  lemma ResolveSource(c: Path)
    requires c in TREE
    ensures WalkFrom(TREE, [], c) == Some(c)
    ensures Resolve(TREE, c) == Some(c) && Captured(TREE, c) && Rust(c)
  {
    TreeWhole();
    assert c == [c[0], c[1]] && c[1][1..] == ".rs";
    hide WalkFrom, Resolve, Captured, Rust;
    NamesItself(TREE, c);
  }

  lemma ResolveHidden()
    ensures Resolve(TREE, HIDDEN) == Some(SOURCE) && !Rust(HIDDEN) && Captured(TREE, HIDDEN)
    ensures Child(SEED, DETOUR) == HIDDEN && Child(SOURCE, ["c.rs"]) == LOST
  {
    assert Child(SEED, DETOUR) == HIDDEN && Child(SOURCE, ["c.rs"]) == LOST;
    var beyond := SOURCE + ["x"];
    assert Parent(beyond) == SOURCE && beyond !in TREE;
    assert HIDDEN[1..][0] == UP && HIDDEN[1..][1..] == SOURCE + ["x", UP];
    assert WalkFrom(TREE, [], HIDDEN) == WalkFrom(TREE, [], SOURCE + ["x", UP]);
    ResolveSource(SOURCE);
    WalkAppend(TREE, [], SOURCE, ["x", UP]);
    assert ["x", UP][1..] == [UP] && [UP][1..] == [];
  }

  // ----- the selection against the closure -----

  /** The reached paths are the seed and the one spelled path it includes. */
  lemma ReachedTwo()
    ensures forall p :: Reached(TREE, Start(), p) <==> p == SEED || p == HIDDEN
  {
    StartIsSeed();
    TwoLiterals();
    hide Start, Reached, Literals, Child, TREE, SEED, HIDDEN, DETOUR;
    ReachedSeed(TREE, Start(), SEED);
    ReachedStep(TREE, Start(), SEED, DETOUR);
    ClosedReached(TREE, Start(), {SEED, HIDDEN});
  }

  lemma TwoLiterals()
    ensures Literals(TREE, SEED) == [DETOUR] && Literals(TREE, HIDDEN) == [] && Child(SEED, DETOUR) == HIDDEN
  {
    TreeWhole();
    ResolveSource(SEED);
    ResolveHidden();
    hide Resolve, Rust;
  }

  /** The include closure reaches the source through the detour and the file it includes. */
  lemma LostInClosure()
    ensures InClosure(TREE, Start(), LOST)
  {
    TreeWhole();
    StartIsSeed();
    ResolveSource(SEED);
    ResolveSource(SOURCE);
    ResolveSource(LOST);
    ResolveHidden();
    hide Resolve, Rust;
    assert Literals(TREE, SEED) == [DETOUR] && Literals(TREE, SOURCE) == [["c.rs"]];
    assert InClosure(TREE, Start(), SEED) by {
      assert SourceTrail(TREE, SEED, []) && FileEnd(TREE, SEED, []) == SEED;
    }
    ClosureStep(TREE, Start(), SEED, DETOUR);
    ClosureStep(TREE, Start(), SOURCE, ["c.rs"]);
  }

  lemma Loses(tree: Tree, seeds: set<Path>, s: Path, hidden: Path, source: Path, lost: Path)
    requires forall p :: Reached(tree, seeds, p) <==> p == s || p == hidden
    requires Resolve(tree, s) == Some(s) && Resolve(tree, hidden) == Some(source) && s != source
    requires Captured(tree, s) && Captured(tree, hidden) && Last(hidden) == UP && !Rust(hidden) && Rust(source)
    requires lost != s && lost != source
    ensures AllCaptured(tree, seeds) && Named(tree, seeds, source) && !Named(tree, seeds, lost)
    ensures !NoLostSource(tree, seeds)
  {
    hide Reached, Resolve, Rust, Captured, Last;
    assert Reached(tree, seeds, hidden);
  }

  /** Every reached path of this tree can be captured, the source's file is captured, and the file that it
      includes is in the include closure and is not captured. */
  lemma SourceLost()
    ensures TreeSound(TREE) && AllCaptured(TREE, Start()) && Named(TREE, Start(), SOURCE)
    ensures InClosure(TREE, Start(), LOST) && !Named(TREE, Start(), LOST)
    ensures !NoLostSource(TREE, Start())
  {
    TreeWhole();
    LostInClosure();
    ReachedTwo();
    ResolveSource(SEED);
    ResolveSource(SOURCE);
    ResolveHidden();
    Loses(TREE, Start(), SEED, HIDDEN, SOURCE, LOST);
  }
}
