/** The worklist of the capture, one iteration at a time: a path is taken from the end, and a Rust source
    that was not scanned yet adds its children. Nothing here assumes that it ends. */
module Worklist {
  import opened Wrappers
  import opened Includes

  // ----- what holds of its tables -----

  /** A path waits, is scanned, or is no Rust source. */
  ghost predicate Pending(paths: set<Path>, pending: seq<Path>, scanned: set<Path>) {
    forall p :: p in paths ==> p in pending || p in scanned || !Rust(p)
  }

  /** Scanned paths are valid sources whose children are known. */
  ghost predicate Scanned(tree: Tree, paths: set<Path>, scanned: set<Path>) {
    forall p :: p in scanned ==> Resolve(tree, p).Some? && forall l :: l in Literals(tree, p) ==> Child(p, l) in paths
  }

  ghost predicate Known(tree: Tree, seeds: set<Path>, paths: set<Path>) {
    seeds <= paths && forall p :: p in paths ==> Reached(tree, seeds, p)
  }

  lemma Finished(tree: Tree, seeds: set<Path>, paths: set<Path>, scanned: set<Path>)
    requires Known(tree, seeds, paths) && Pending(paths, [], scanned) && Scanned(tree, paths, scanned)
    ensures Closed(tree, seeds, paths) && forall p :: p in paths <==> Reached(tree, seeds, p)
  {
    hide Reached, Resolve;
    ClosedReached(tree, seeds, paths);
  }

  // ----- one iteration -----

  /** The worklist's tables; `failed` once a source could not be validated. */
  datatype Work = Work(paths: set<Path>, pending: seq<Path>, scanned: set<Path>, failed: bool)

  function Begin(seeds: set<Path>, order: seq<Path>): Work { Work(seeds, order, {}, false) }

  predicate Going(w: Work) { !w.failed && w.pending != [] }

  /** The children of `p` by these literals, added to the known and the waiting paths unless known. */
  function Added(p: Path, literals: seq<Path>, paths: set<Path>, pending: seq<Path>): (set<Path>, seq<Path>) {
    if literals == [] then (paths, pending)
    else
      var last := |literals| - 1;
      var (known, waiting) := Added(p, literals[..last], paths, pending);
      var child := Child(p, literals[last]);
      if child in known then (known, waiting) else (known + {child}, waiting + [child])
  }

  function Iterate(tree: Tree, w: Work): Work {
    if !Going(w) then w
    else
      var last := |w.pending| - 1;
      var p, rest := w.pending[last], w.pending[..last];
      if p in w.scanned || !Rust(p) then w.(pending := rest)
      else if Resolve(tree, p).None? then w.(failed := true)
      else
        var (paths, pending) := Added(p, Literals(tree, p), w.paths, rest);
        Work(paths, pending, w.scanned + {p}, false)
  }

  function Iterations(tree: Tree, w: Work, n: nat): Work {
    if n == 0 then w else Iterate(tree, Iterations(tree, w, n - 1))
  }

  // ----- what every iteration keeps -----

  lemma {:induction false} AddedExact(p: Path, literals: seq<Path>, paths: set<Path>, pending: seq<Path>)
    requires forall q :: q in pending ==> q in paths
    ensures var (known, waiting) := Added(p, literals, paths, pending);
            && known == paths + (set l | l in literals :: Child(p, l))
            && (forall q :: q in waiting ==> q in known) && (forall q :: q in pending ==> q in waiting)
            && (forall q :: q in known && q !in paths ==> q in waiting)
  {
    hide Child;
    if literals != [] {
      var last := |literals| - 1;
      AddedExact(p, literals[..last], paths, pending);
      assert literals == literals[..last] + [literals[last]];
    }
  }

  ghost predicate Invariant(tree: Tree, seeds: set<Path>, w: Work) {
    && Known(tree, seeds, w.paths) && Pending(w.paths, w.pending, w.scanned) && Scanned(tree, w.paths, w.scanned)
    && w.scanned <= w.paths && (forall p :: p in w.pending ==> p in w.paths)
    && (w.failed ==> exists p :: Reached(tree, seeds, p) && Rust(p) && Resolve(tree, p).None?)
  }

  lemma BeginInvariant(tree: Tree, seeds: set<Path>, order: seq<Path>)
    requires forall p :: p in order <==> p in seeds
    ensures Invariant(tree, seeds, Begin(seeds, order))
  {
    hide Resolve, Literals;
    forall s | s in seeds ensures Reached(tree, seeds, s) {
      ReachedSeed(tree, seeds, s);
    }
  }

  lemma TakenInvariant(tree: Tree, seeds: set<Path>, w: Work)
    requires Invariant(tree, seeds, w) && Going(w)
    requires var p := w.pending[|w.pending| - 1]; p in w.scanned || !Rust(p)
    ensures Invariant(tree, seeds, Iterate(tree, w))
  {
    hide Reached, Resolve, Literals, Child, Rust;
    var last := |w.pending| - 1;
    assert w.pending == w.pending[..last] + [w.pending[last]];
  }

  lemma ScannedInvariant(tree: Tree, seeds: set<Path>, w: Work)
    requires Invariant(tree, seeds, w) && Going(w)
    requires var p := w.pending[|w.pending| - 1]; p !in w.scanned && Rust(p) && Resolve(tree, p).Some?
    ensures Invariant(tree, seeds, Iterate(tree, w))
  {
    hide Reached, Resolve, Literals, Child, Rust;
    var last := |w.pending| - 1;
    var p := w.pending[last];
    assert w.pending == w.pending[..last] + [p];
    AddedExact(p, Literals(tree, p), w.paths, w.pending[..last]);
    forall l | l in Literals(tree, p) ensures Reached(tree, seeds, Child(p, l)) {
      ReachedStep(tree, seeds, p, l);
    }
  }

  lemma IterateInvariant(tree: Tree, seeds: set<Path>, w: Work)
    requires Invariant(tree, seeds, w)
    ensures Invariant(tree, seeds, Iterate(tree, w))
  {
    hide Invariant, Rust, Resolve, Added, Literals;
    if Going(w) {
      var p := w.pending[|w.pending| - 1];
      if p in w.scanned || !Rust(p) {
        TakenInvariant(tree, seeds, w);
      } else if Resolve(tree, p).Some? {
        ScannedInvariant(tree, seeds, w);
      } else {
        FailedInvariant(tree, seeds, w);
      }
    }
  }

  lemma FailedInvariant(tree: Tree, seeds: set<Path>, w: Work)
    requires Invariant(tree, seeds, w) && Going(w)
    requires var p := w.pending[|w.pending| - 1]; p !in w.scanned && Rust(p) && Resolve(tree, p).None?
    ensures Invariant(tree, seeds, Iterate(tree, w))
  {
    hide Reached, Resolve, Literals, Child, Rust;
    var p := w.pending[|w.pending| - 1];
    assert p in w.pending;
  }

  /** The invariant holds after any number of iterations, whether or not they ever end. */
  lemma {:induction false} IterationsInvariant(tree: Tree, seeds: set<Path>, order: seq<Path>, n: nat)
    requires forall p :: p in order <==> p in seeds
    ensures Invariant(tree, seeds, Iterations(tree, Begin(seeds, order), n))
  {
    hide Invariant, Iterate;
    if n == 0 {
      BeginInvariant(tree, seeds, order);
    } else {
      IterationsInvariant(tree, seeds, order, n - 1);
      IterateInvariant(tree, seeds, Iterations(tree, Begin(seeds, order), n - 1));
    }
  }

  /** Where the worklist stops without a failure, it knows exactly the reached paths, and every source
      among them resolves. */
  lemma StoppedExact(tree: Tree, seeds: set<Path>, w: Work)
    requires Invariant(tree, seeds, w) && w.pending == []
    ensures Closed(tree, seeds, w.paths) && (forall p :: p in w.paths <==> Reached(tree, seeds, p))
    ensures forall p :: Reached(tree, seeds, p) && Rust(p) ==> Resolve(tree, p).Some?
  {
    hide Reached, Resolve, Rust;
    Finished(tree, seeds, w.paths, w.scanned);
  }
}
