/** The worklist that captures the build inputs, and what it captures. */
module Selection {
  import opened Wrappers
  import opened Includes
  import opened Worklist
  import opened IncludeCycles

  /** Everything the seeds lead to, as spelled, can be captured. */
  ghost predicate AllCaptured(tree: Tree, seeds: set<Path>) {
    forall p :: Reached(tree, seeds, p) ==> Captured(tree, p)
  }

  // ----- what is captured -----

  lemma {:induction false} TrailResolves(tree: Tree, seeds: set<Path>, p: Path, literals: seq<Path>)
    requires AllCaptured(tree, seeds) && Reached(tree, seeds, p) && Trail(tree, p, literals)
    ensures AllResolve(tree, p, literals) && Reached(tree, seeds, End(p, literals))
    decreases |literals|
  {
    hide Reached;
    if literals != [] {
      ReachedStep(tree, seeds, p, literals[0]);
      TrailResolves(tree, seeds, Child(p, literals[0]), literals[1..]);
    }
  }

  ghost predicate Named(tree: Tree, seeds: set<Path>, c: Path) {
    exists p :: Reached(tree, seeds, p) && Resolve(tree, p) == Some(c)
  }

  /** The files that reached paths name are those that scanning follows from file to file, whatever
      detours the paths spell. */
  lemma FollowedExact(tree: Tree, seeds: set<Path>, c: Path)
    requires TreeSound(tree) && AllCaptured(tree, seeds)
    ensures Named(tree, seeds, c) <==> InFollowed(tree, seeds, c)
  {
    if Named(tree, seeds, c) {
      var p :| Reached(tree, seeds, p) && Resolve(tree, p) == Some(c);
      var s, literals :| s in seeds && Trail(tree, s, literals) && End(s, literals) == p;
      ReachedSeed(tree, seeds, s);
      TrailResolves(tree, seeds, s, literals);
      TrailFiles(tree, s, literals);
    }
    if InFollowed(tree, seeds, c) {
      var s, literals :| s in seeds && Resolve(tree, s).Some? && (literals != [] ==> Rust(s))
        && FileTrail(tree, Resolve(tree, s).value, literals) && FileEnd(tree, Resolve(tree, s).value, literals) == c;
      FilesTrail(tree, s, literals);
      TrailFiles(tree, s, literals);
      assert Reached(tree, seeds, End(s, literals));
    }
  }

  // ----- when that is the include closure -----

  lemma {:induction false} FollowedTrail(tree: Tree, c: Path, literals: seq<Path>)
    requires FileTrail(tree, c, literals)
    ensures SourceTrail(tree, c, literals)
    decreases |literals|
  {
    hide Target, Literals, Rust;
    if literals != [] {
      FollowedTrail(tree, Target(tree, c, literals[0]).value, literals[1..]);
    }
  }

  /** Everything captured is in the closure. */
  lemma NamedInClosure(tree: Tree, seeds: set<Path>, c: Path)
    requires TreeSound(tree) && AllCaptured(tree, seeds) && Named(tree, seeds, c)
    ensures InClosure(tree, seeds, c)
  {
    hide Target, Literals, Rust, Resolve, Reached;
    FollowedExact(tree, seeds, c);
    var s, literals :| s in seeds && Resolve(tree, s).Some? && (literals != [] ==> Rust(s))
      && FileTrail(tree, Resolve(tree, s).value, literals) && FileEnd(tree, Resolve(tree, s).value, literals) == c;
    FollowedTrail(tree, Resolve(tree, s).value, literals);
  }

  /** A reached path spelled as a Rust source names the file, so its includes are followed. */
  ghost predicate ScannedAs(tree: Tree, seeds: set<Path>, c: Path) {
    exists p :: Reached(tree, seeds, p) && Rust(p) && Resolve(tree, p) == Some(c)
  }

  /** A captured Rust source whose includes are not followed. */
  ghost predicate Unscanned(tree: Tree, seeds: set<Path>, c: Path) {
    Named(tree, seeds, c) && Rust(c) && !ScannedAs(tree, seeds, c)
  }

  /** Whatever an unscanned source includes is captured on another account. */
  ghost predicate UnscannedCovered(tree: Tree, seeds: set<Path>) {
    forall c, l :: Unscanned(tree, seeds, c) && l in Literals(tree, c) && Target(tree, c, l).Some?
      ==> Named(tree, seeds, Target(tree, c, l).value)
  }

  lemma NamedStep(tree: Tree, seeds: set<Path>, c: Path, l: Path)
    requires UnscannedCovered(tree, seeds) && Named(tree, seeds, c)
    requires l in Literals(tree, c) && Target(tree, c, l).Some?
    ensures Named(tree, seeds, Target(tree, c, l).value)
  {
    hide Reached, Resolve;
    if ScannedAs(tree, seeds, c) {
      var p :| Reached(tree, seeds, p) && Rust(p) && Resolve(tree, p) == Some(c);
      LiteralsResolve(tree, p);
      ReachedStep(tree, seeds, p, l);
      ChildResolves(tree, p, l);
    } else {
      assert Unscanned(tree, seeds, c);
    }
  }

  lemma {:induction false} NamedTrail(tree: Tree, seeds: set<Path>, c: Path, literals: seq<Path>)
    requires UnscannedCovered(tree, seeds) && Named(tree, seeds, c) && SourceTrail(tree, c, literals)
    ensures Named(tree, seeds, FileEnd(tree, c, literals))
    decreases |literals|
  {
    hide Named, UnscannedCovered, Target, Literals;
    if literals != [] {
      NamedStep(tree, seeds, c, literals[0]);
      NamedTrail(tree, seeds, Target(tree, c, literals[0]).value, literals[1..]);
    }
  }

  lemma ClosureNamed(tree: Tree, seeds: set<Path>, c: Path)
    requires AllCaptured(tree, seeds) && UnscannedCovered(tree, seeds) && InClosure(tree, seeds, c)
    ensures Named(tree, seeds, c)
  {
    hide Reached, Resolve, UnscannedCovered, SourceTrail;
    var s, literals :| s in seeds && Resolve(tree, s).Some?
      && SourceTrail(tree, Resolve(tree, s).value, literals) && FileEnd(tree, Resolve(tree, s).value, literals) == c;
    ReachedSeed(tree, seeds, s);
    NamedTrail(tree, seeds, Resolve(tree, s).value, literals);
  }

  lemma {:induction false} SourceTrailSnoc(tree: Tree, c: Path, literals: seq<Path>, l: Path)
    requires SourceTrail(tree, c, literals)
    requires l in Literals(tree, FileEnd(tree, c, literals)) && Target(tree, FileEnd(tree, c, literals), l).Some?
    ensures SourceTrail(tree, c, literals + [l])
    ensures FileEnd(tree, c, literals + [l]) == Target(tree, FileEnd(tree, c, literals), l).value
    decreases |literals|
  {
    hide Target, Literals;
    if literals == [] {
      assert ([] + [l])[1..] == [] && ([] + [l])[0] == l;
    } else {
      assert (literals + [l])[1..] == literals[1..] + [l] && (literals + [l])[0] == literals[0];
      SourceTrailSnoc(tree, Target(tree, c, literals[0]).value, literals[1..], l);
    }
  }

  lemma ClosureStep(tree: Tree, seeds: set<Path>, c: Path, l: Path)
    requires InClosure(tree, seeds, c) && l in Literals(tree, c) && Target(tree, c, l).Some?
    ensures InClosure(tree, seeds, Target(tree, c, l).value)
  {
    hide Target, Literals, Resolve, SourceTrail, FileEnd;
    var s, literals :| s in seeds && Resolve(tree, s).Some?
      && SourceTrail(tree, Resolve(tree, s).value, literals) && FileEnd(tree, Resolve(tree, s).value, literals) == c;
    SourceTrailSnoc(tree, Resolve(tree, s).value, literals, l);
  }

  /** The selection is the include closure exactly when whatever an unscanned source includes is captured
      on another account. */
  lemma ClosureExact(tree: Tree, seeds: set<Path>)
    requires TreeSound(tree) && AllCaptured(tree, seeds)
    ensures (forall c :: Named(tree, seeds, c) <==> InClosure(tree, seeds, c)) <==> UnscannedCovered(tree, seeds)
  {
    hide Named, InClosure, TreeSound, AllCaptured, Literals, Target, ScannedAs;
    if forall c :: Named(tree, seeds, c) <==> InClosure(tree, seeds, c) {
      forall c, l | Unscanned(tree, seeds, c) && l in Literals(tree, c) && Target(tree, c, l).Some?
        ensures Named(tree, seeds, Target(tree, c, l).value)
      {
        ClosureStep(tree, seeds, c, l);
      }
    }
    if UnscannedCovered(tree, seeds) {
      forall c ensures Named(tree, seeds, c) <==> InClosure(tree, seeds, c) {
        if Named(tree, seeds, c) {
          NamedInClosure(tree, seeds, c);
        }
        if InClosure(tree, seeds, c) {
          ClosureNamed(tree, seeds, c);
        }
      }
    }
  }

  /** Every captured Rust source is scanned. */
  ghost predicate AllScanned(tree: Tree, seeds: set<Path>) {
    forall c :: Named(tree, seeds, c) && Rust(c) ==> ScannedAs(tree, seeds, c)
  }

  /** No reached path that ends in a parent step names a Rust source that is not also reached as one. */
  ghost predicate NoLostSource(tree: Tree, seeds: set<Path>) {
    forall p :: Reached(tree, seeds, p) && Last(p) == UP && Resolve(tree, p).Some? && Rust(Resolve(tree, p).value)
      ==> ScannedAs(tree, seeds, Resolve(tree, p).value)
  }

  /** Only a path that ends in a parent step hides the suffix of the file it names. */
  lemma SuffixHidden(tree: Tree, p: Path)
    requires Resolve(tree, p).Some? && Last(p) != UP && TreeSound(tree)
    ensures Rust(p) == Rust(Resolve(tree, p).value)
  {
    ParentResolves(tree, p);
  }

  /** Every captured Rust source is scanned exactly when no path that ends in a parent step loses one. */
  lemma AllScannedExact(tree: Tree, seeds: set<Path>)
    requires TreeSound(tree)
    ensures AllScanned(tree, seeds) <==> NoLostSource(tree, seeds)
  {
    hide Reached, Resolve, Rust, TreeSound;
    if AllScanned(tree, seeds) {
      forall p | Reached(tree, seeds, p) && Last(p) == UP && Resolve(tree, p).Some? && Rust(Resolve(tree, p).value)
        ensures ScannedAs(tree, seeds, Resolve(tree, p).value)
      {
        assert Named(tree, seeds, Resolve(tree, p).value);
      }
    }
    if NoLostSource(tree, seeds) {
      forall c | Named(tree, seeds, c) && Rust(c) ensures ScannedAs(tree, seeds, c) {
        var p :| Reached(tree, seeds, p) && Resolve(tree, p) == Some(c);
        if Last(p) != UP {
          SuffixHidden(tree, p);
        }
      }
    }
  }

  /** When every captured Rust source is scanned, the selection is the include closure. */
  lemma ScannedClosure(tree: Tree, seeds: set<Path>)
    requires TreeSound(tree) && AllCaptured(tree, seeds) && AllScanned(tree, seeds)
    ensures forall c :: Named(tree, seeds, c) <==> InClosure(tree, seeds, c)
  {
    hide Named, InClosure, TreeSound, AllCaptured, Literals, Target, ScannedAs;
    forall c | Unscanned(tree, seeds, c) ensures false {
    }
    ClosureExact(tree, seeds);
  }

  /** No seed and no include literal of the tree ends in a parent step. */
  ghost predicate PlainEnds(tree: Tree, seeds: set<Path>) {
    && (forall s :: s in seeds ==> Last(s) != UP)
    && forall c, l :: c in tree && tree[c].File? && l in tree[c].includes ==> Last(l) != UP
  }

  lemma UnresolvedEnds(tree: Tree, p: Path, literals: seq<Path>)
    requires Resolve(tree, p).None? && Trail(tree, p, literals)
    ensures End(p, literals) == p
  {
  }

  lemma {:induction false} PlainTrail(tree: Tree, seeds: set<Path>, p: Path, literals: seq<Path>)
    requires TreeSound(tree) && PlainEnds(tree, seeds) && Last(p) != UP && Trail(tree, p, literals)
    ensures Last(End(p, literals)) != UP || Resolve(tree, End(p, literals)).None?
    decreases |literals|
  {
    if literals != [] {
      var l := literals[0];
      hide Resolve, Rust, TreeSound;
      if l == [] {
        ChildOfNothing(tree, p);
        UnresolvedEnds(tree, Child(p, l), literals[1..]);
      } else {
        assert Last(Child(p, l)) == Last(l);
        PlainTrail(tree, seeds, Child(p, l), literals[1..]);
      }
    }
  }

  /** A tree whose literals end in names loses no source, so its selection is the include closure. */
  lemma PlainEndsScanned(tree: Tree, seeds: set<Path>)
    requires TreeSound(tree) && PlainEnds(tree, seeds)
    ensures AllScanned(tree, seeds)
  {
    hide Resolve, Rust, TreeSound, PlainEnds, Trail, ScannedAs;
    forall p | Reached(tree, seeds, p) && Resolve(tree, p).Some? ensures Last(p) != UP {
      var s, literals :| s in seeds && Trail(tree, s, literals) && End(s, literals) == p;
      PlainSeed(tree, seeds, s);
      PlainTrail(tree, seeds, s, literals);
    }
    AllScannedExact(tree, seeds);
  }

  lemma PlainSeed(tree: Tree, seeds: set<Path>, s: Path)
    requires PlainEnds(tree, seeds) && s in seeds
    ensures Last(s) != UP
  {
  }

  // ----- the worklist -----

  /** Add the children of one source that are not known yet. */
  method Scan(tree: Tree, p: Path, paths: set<Path>, pending: seq<Path>) returns (known: set<Path>, waiting: seq<Path>)
    ensures (known, waiting) == Added(p, Literals(tree, p), paths, pending)
  {
    known, waiting := paths, pending;
    var literals := Literals(tree, p);
    for i := 0 to |literals|
      invariant (known, waiting) == Added(p, literals[..i], paths, pending)
    {
      assert literals[..i + 1][..i] == literals[..i];
      var child := Child(p, literals[i]);
      if child !in known {
        known, waiting := known + {child}, waiting + [child];
      }
    }
    assert literals[..|literals|] == literals;
  }

  /** The worklist as the loop it is: each pass is one iteration, and where it stops it has the reached
      paths, or has met a source that cannot be read. */
  method Follow(tree: Tree, seeds: set<Path>, order: seq<Path>) returns (r: Option<set<Path>>)
    requires TreeSound(tree) && !Growing(tree, seeds) && forall p :: p in order <==> p in seeds
    ensures exists n :: Stopped(Iterations(tree, Begin(seeds, order), n), r)
    ensures r.Some? <==> SourcesResolve(tree, seeds)
    ensures r.Some? ==> forall p :: p in r.value <==> Reached(tree, seeds, p)
  {
    hide Reached, Resolve, Literals, Child, Rust, Growing, TreeSound, Universe, Added;
    UniverseClosed(tree, seeds);
    ghost var universe, n := Universe(tree, seeds), 0;
    SeedsWithin(tree, seeds, universe);
    BeginInvariant(tree, seeds, order);
    var paths, pending, scanned := seeds, order, {};
    while pending != []
      invariant Work(paths, pending, scanned, false) == Iterations(tree, Begin(seeds, order), n)
      invariant Invariant(tree, seeds, Work(paths, pending, scanned, false)) && paths <= universe
      decreases universe - scanned, |pending|
    {
      ghost var w := Work(paths, pending, scanned, false);
      IterateInvariant(tree, seeds, w);
      IterateWithin(tree, seeds, w, universe);
      var last := |pending| - 1;
      var p := pending[last];
      n := n + 1;
      if p in scanned || !Rust(p) {
        pending := pending[..last];
      } else if Resolve(tree, p).None? {
        assert Stopped(Iterations(tree, Begin(seeds, order), n), None);
        return None;
      } else {
        paths, pending := Scan(tree, p, paths, pending[..last]);
        scanned := scanned + {p};
      }
    }
    StoppedExact(tree, seeds, Work(paths, pending, scanned, false));
    assert Stopped(Iterations(tree, Begin(seeds, order), n), Some(paths));
    r := Some(paths);
  }

  /** The worklist has stopped with this result. */
  ghost predicate Stopped(w: Work, r: Option<set<Path>>) {
    !Going(w) && r == if w.failed then None else Some(w.paths)
  }

  /** The captured files by their own paths. */
  method Capture(tree: Tree, paths: set<Path>) returns (r: Option<map<Path, nat>>)
    ensures r.Some? <==> forall p :: p in paths ==> Captured(tree, p)
    ensures r.Some? ==> forall c :: c in r.value <==> exists p :: p in paths && Resolve(tree, p) == Some(c)
    ensures r.Some? ==> forall c :: c in r.value ==> c in tree && tree[c].File? && r.value[c] == tree[c].bytes
  {
    hide Resolve;
    var files: map<Path, nat> := map[];
    var rest := paths;
    while rest != {}
      invariant rest <= paths
      invariant forall p :: p in paths - rest ==> Captured(tree, p)
      invariant forall c :: c in files <==> exists p :: p in paths - rest && Resolve(tree, p) == Some(c)
      invariant forall c :: c in files ==> c in tree && tree[c].File? && files[c] == tree[c].bytes
    {
      var p :| p in rest;
      if !Captured(tree, p) {
        return None;
      }
      var c := Resolve(tree, p).value;
      files := files[c := tree[c].bytes];
      rest := rest - {p};
    }
    assert paths - rest == paths;
    r := Some(files);
  }

  /** The whole selection: the files that scanning follows, with their bytes, or nothing exactly when a
      reached path cannot be captured; and the include closure when every source is scanned. */
  method Selected(tree: Tree, seeds: set<Path>, order: seq<Path>) returns (r: Option<map<Path, nat>>)
    requires TreeSound(tree) && !Growing(tree, seeds) && forall p :: p in order <==> p in seeds
    ensures r.Some? <==> AllCaptured(tree, seeds)
    ensures r.Some? ==> forall c :: c in r.value <==> InFollowed(tree, seeds, c)
    ensures r.Some? && AllScanned(tree, seeds) ==> forall c :: c in r.value <==> InClosure(tree, seeds, c)
    ensures r.Some? ==> forall c :: c in r.value ==> c in tree && tree[c].File? && r.value[c] == tree[c].bytes
  {
    hide Reached, Resolve, InFollowed, InClosure, TreeSound, Growing, AllScanned, Iterations, Rust;
    var paths := Follow(tree, seeds, order);
    if paths.None? {
      return None;
    }
    r := Capture(tree, paths.value);
    if r.Some? {
      forall c ensures c in r.value <==> InFollowed(tree, seeds, c) {
        FollowedExact(tree, seeds, c);
      }
      if AllScanned(tree, seeds) {
        ScannedClosure(tree, seeds);
        forall c ensures c in r.value <==> InClosure(tree, seeds, c) {
          FollowedExact(tree, seeds, c);
        }
      }
    }
  }
}
