/** Selecting again on the captured files: the check after the build finds the same inputs. */
module Recapture {
  import opened Wrappers
  import opened Includes
  import opened IncludeCycles
  import opened Selection

  // ----- the seeds -----

  predicate UnderCrates(c: Path) { c != [] && c[0] == "crates" && !(|c| > 2 && c[2] == "target") }

  predicate IsFile(e: Entry) { e.File? || e.toFile }

  /** Every file of the crates but their build output, the fixed inputs, and the optional ones there are. */
  function Seeds(tree: Tree, fixed: set<Path>, optional: set<Path>): set<Path> {
    (set c | c in tree && IsFile(tree[c]) && UnderCrates(c)) + fixed + set p | p in optional && p in tree
  }

  /** What the capture directory holds. */
  function CaptureTree(tree: Tree, files: set<Path>): Tree {
    map c | c in files && c in tree :: tree[c]
  }

  predicate NoUp(p: Path) { UP !in p }

  ghost predicate Spelled(tree: Tree, fixed: set<Path>) {
    (forall c :: c in tree ==> NoUp(c)) && forall p :: p in fixed ==> NoUp(p)
  }

  // ----- resolving in the capture -----

  lemma {:induction false} WalkNoUp(tree: Tree, cursor: Path, p: Path)
    requires NoUp(p) && WalkFrom(tree, cursor, p).Some?
    ensures WalkFrom(tree, cursor, p) == Some(cursor + p)
    decreases |p|
  {
    if p == [] {
      assert cursor + p == cursor;
    } else {
      assert p[0] in p;
      WalkNoUp(tree, cursor + [p[0]], p[1..]);
      assert cursor + [p[0]] + p[1..] == cursor + p;
    }
  }

  lemma SeedNamesItself(tree: Tree, p: Path)
    requires NoUp(p) && Resolve(tree, p).Some?
    ensures Resolve(tree, p) == Some(p)
  {
    WalkNoUp(tree, [], p);
    assert [] + p == p;
  }

  /** With fewer links a walk that succeeded still does. */
  lemma {:induction false} WalkCaptured(tree: Tree, capture: Tree, cursor: Path, p: Path)
    requires WalkFrom(tree, cursor, p).Some? && forall c :: c in capture ==> capture[c].File?
    ensures WalkFrom(capture, cursor, p) == WalkFrom(tree, cursor, p)
    decreases |p|
  {
    if p != [] {
      WalkCaptured(tree, capture, if p[0] == UP then Parent(cursor) else cursor + [p[0]], p[1..]);
    }
  }

  ghost predicate CaptureOf(tree: Tree, seeds: set<Path>, files: set<Path>) {
    forall c :: c in files <==> Named(tree, seeds, c)
  }

  lemma NamedFile(tree: Tree, seeds: set<Path>, c: Path)
    requires Named(tree, seeds, c)
    ensures c in tree && tree[c].File?
  {
  }

  lemma CaptureFiles(tree: Tree, seeds: set<Path>, files: set<Path>)
    requires CaptureOf(tree, seeds, files)
    ensures var capture := CaptureTree(tree, files);
            && (forall c :: c in capture <==> c in files)
            && forall c :: c in capture ==> capture[c] == tree[c] && capture[c].File?
  {
    hide Named;
    forall c | c in files ensures c in tree && tree[c].File? {
      NamedFile(tree, seeds, c);
    }
  }

  lemma SameResolve(tree: Tree, seeds: set<Path>, files: set<Path>, p: Path)
    requires AllCaptured(tree, seeds) && CaptureOf(tree, seeds, files) && Reached(tree, seeds, p)
    ensures var capture := CaptureTree(tree, files);
            && Resolve(capture, p) == Resolve(tree, p) && Captured(capture, p)
               && Literals(capture, p) == Literals(tree, p)
  {
    hide Reached;
    var capture := CaptureTree(tree, files);
    assert Captured(tree, p);
    assert Named(tree, seeds, Resolve(tree, p).value);
    CaptureFiles(tree, seeds, files);
    WalkCaptured(tree, capture, [], p);
  }

  // ----- the same paths -----

  lemma {:induction false} SameTrail(tree: Tree, seeds: set<Path>, files: set<Path>, p: Path, literals: seq<Path>)
    requires AllCaptured(tree, seeds) && CaptureOf(tree, seeds, files) && Reached(tree, seeds, p)
    ensures Trail(CaptureTree(tree, files), p, literals) <==> Trail(tree, p, literals)
    decreases |literals|
  {
    hide Reached, AllCaptured, CaptureOf;
    SameResolve(tree, seeds, files, p);
    if literals != [] && literals[0] in Literals(tree, p) {
      ReachedStep(tree, seeds, p, literals[0]);
      SameTrail(tree, seeds, files, Child(p, literals[0]), literals[1..]);
    }
  }

  lemma SameReached(tree: Tree, seeds: set<Path>, files: set<Path>, p: Path)
    requires AllCaptured(tree, seeds) && CaptureOf(tree, seeds, files)
    ensures Reached(CaptureTree(tree, files), seeds, p) <==> Reached(tree, seeds, p)
  {
    var capture := CaptureTree(tree, files);
    if Reached(capture, seeds, p) {
      var s, literals :| s in seeds && Trail(capture, s, literals) && End(s, literals) == p;
      ReachedSeed(tree, seeds, s);
      SameTrail(tree, seeds, files, s, literals);
    }
    if Reached(tree, seeds, p) {
      var s, literals :| s in seeds && Trail(tree, s, literals) && End(s, literals) == p;
      ReachedSeed(tree, seeds, s);
      SameTrail(tree, seeds, files, s, literals);
    }
  }

  /** The capture leads to the same paths, all of which can be captured again, naming the same files. */
  lemma SameCapture(tree: Tree, seeds: set<Path>, files: set<Path>)
    requires AllCaptured(tree, seeds) && CaptureOf(tree, seeds, files)
    ensures var capture := CaptureTree(tree, files);
            && AllCaptured(capture, seeds) && forall c :: Named(capture, seeds, c) <==> c in files
  {
    hide Reached, Captured;
    var capture := CaptureTree(tree, files);
    forall p ensures Reached(capture, seeds, p) <==> Reached(tree, seeds, p) {
      SameReached(tree, seeds, files, p);
    }
    forall p | Reached(tree, seeds, p) ensures Captured(capture, p) && Resolve(capture, p) == Resolve(tree, p) {
      SameResolve(tree, seeds, files, p);
    }
  }

  lemma SeedCaptured(tree: Tree, seeds: set<Path>, files: set<Path>, s: Path)
    requires AllCaptured(tree, seeds) && CaptureOf(tree, seeds, files) && s in seeds && NoUp(s)
    ensures s in files && s in tree && tree[s].File?
  {
    hide Reached;
    ReachedSeed(tree, seeds, s);
    assert Captured(tree, s);
    SeedNamesItself(tree, s);
    assert Named(tree, seeds, s);
  }

  /** The capture has the same seeds. */
  lemma SameSeeds(tree: Tree, fixed: set<Path>, optional: set<Path>, files: set<Path>)
    requires var seeds := Seeds(tree, fixed, optional); AllCaptured(tree, seeds) && CaptureOf(tree, seeds, files)
    requires Spelled(tree, fixed)
    ensures Seeds(CaptureTree(tree, files), fixed, optional) == Seeds(tree, fixed, optional)
  {
    hide AllCaptured, CaptureOf, NoUp;
    var seeds, capture := Seeds(tree, fixed, optional), CaptureTree(tree, files);
    CaptureFiles(tree, seeds, files);
    forall s | s in seeds ensures s in files && s in tree && tree[s].File? {
      assert NoUp(s);
      SeedCaptured(tree, seeds, files, s);
    }
  }

  /** A set that no include of the tree leaves holds one that no include of the capture leaves. */
  lemma SameClosed(tree: Tree, capture: Tree, seeds: set<Path>, universe: set<Path>)
    requires Closed(tree, seeds, universe)
    requires forall p :: Reached(tree, seeds, p) ==> Literals(capture, p) == Literals(tree, p)
    ensures exists smaller :: Closed(capture, seeds, smaller)
  {
    hide Reached, Literals, Child;
    var smaller := set p | p in universe && Reached(tree, seeds, p);
    forall s | s in seeds ensures s in smaller {
      ReachedSeed(tree, seeds, s);
    }
    forall p, l | p in smaller && l in Literals(capture, p) ensures Child(p, l) in smaller {
      ReachedStep(tree, seeds, p, l);
    }
    assert Closed(capture, seeds, smaller);
  }

  /** The worklist on the capture ends exactly when the one on the tree does. */
  lemma SameGrowing(tree: Tree, seeds: set<Path>, files: set<Path>)
    requires TreeSound(tree) && AllCaptured(tree, seeds) && CaptureOf(tree, seeds, files)
    ensures Growing(CaptureTree(tree, files), seeds) <==> Growing(tree, seeds)
  {
    hide Reached, Closed, Growing, Literals, AllCaptured, Named, CaptureOf;
    var capture := CaptureTree(tree, files);
    CaptureFiles(tree, seeds, files);
    assert TreeSound(capture);
    forall p ensures Reached(capture, seeds, p) <==> Reached(tree, seeds, p) {
      SameReached(tree, seeds, files, p);
    }
    forall p | Reached(tree, seeds, p) ensures Literals(capture, p) == Literals(tree, p) {
      SameResolve(tree, seeds, files, p);
    }
    FiniteExactly(tree, seeds);
    FiniteExactly(capture, seeds);
    if universe :| Closed(tree, seeds, universe) {
      SameClosed(tree, capture, seeds, universe);
    }
    if universe :| Closed(capture, seeds, universe) {
      SameClosed(capture, tree, seeds, universe);
    }
  }

  /** Selecting on the capture captures the same files, and the same again; it ends exactly when
      selecting on the tree does. */
  lemma RecaptureSame(tree: Tree, fixed: set<Path>, optional: set<Path>, files: set<Path>)
    requires TreeSound(tree) && Spelled(tree, fixed)
    requires var seeds := Seeds(tree, fixed, optional);
             AllCaptured(tree, seeds) && forall c :: c in files <==> InFollowed(tree, seeds, c)
    ensures var capture := CaptureTree(tree, files);
            var seeds := Seeds(capture, fixed, optional);
            && AllCaptured(capture, seeds) && (forall c :: c in files <==> InFollowed(capture, seeds, c))
            && (forall c :: c in files ==> c in capture && c in tree && capture[c] == tree[c])
            && CaptureTree(capture, files) == capture
            && (Growing(capture, seeds) <==> Growing(tree, Seeds(tree, fixed, optional)))
  {
    hide AllCaptured, InFollowed, Named, Growing;
    var seeds, capture := Seeds(tree, fixed, optional), CaptureTree(tree, files);
    forall c ensures Named(tree, seeds, c) <==> c in files {
      FollowedExact(tree, seeds, c);
    }
    SameSeeds(tree, fixed, optional, files);
    SameCapture(tree, seeds, files);
    SameGrowing(tree, seeds, files);
    CaptureFiles(tree, seeds, files);
    assert TreeSound(capture);
    forall c ensures c in files <==> InFollowed(capture, seeds, c) {
      FollowedExact(capture, seeds, c);
    }
  }
}
