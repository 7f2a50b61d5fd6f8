/** The walk from the core package over the resolved dependency graph, which may be cyclic. */
module DependencyWalk {

  type Id = nat

  /** The packages' names and the nodes' dependencies, as two tables keyed by package. */
  datatype Metadata = Metadata(packages: map<Id, string>, nodes: map<Id, seq<Id>>)

  const DENIED_CORE: seq<string> := [
    "sqlx", "tokio", "axum", "hyper", "reqwest", "ureq", "reqwest",
    "getrandom", "rand", "mio", "rustls", "openssl", "async-std", "surf"]

  const FORBIDDEN: set<string> := {"ledgerlab", "ledgerlab-cli", "ledgerlab-testkit"}

  /** The name itself, or a package of its family. */
  predicate Family(name: string, n: string) { name == n || n + "-" <= name }

  predicate Denied(name: string) {
    (exists i | 0 <= i < |DENIED_CORE| :: Family(name, DENIED_CORE[i])) || name in FORBIDDEN
  }

  predicate Outside(name: string) {
    name in {"sqlx", "tokio", "axum", "hyper", "reqwest", "ureq", "getrandom", "rand", "mio", "rustls", "openssl",
             "async-std", "surf"}
  }

  /** One of the outside names, a dash and anything more. */
  ghost predicate OutsideFamily(name: string) {
    exists head, rest :: name == head + "-" + rest && Outside(head)
  }

  lemma ListedOutside(name: string)
    ensures name in DENIED_CORE <==> Outside(name)
  {
  }

  /** The core may depend on no outside package listed or of a listed family, and on none of its own three
      by their very names. */
  lemma DeniedExact(name: string)
    ensures Denied(name)
       <==> Outside(name) || OutsideFamily(name) || name in {"ledgerlab", "ledgerlab-cli", "ledgerlab-testkit"}
  {
    hide Outside;
    forall head ensures head in DENIED_CORE <==> Outside(head) {
      ListedOutside(head);
    }
    if i :| 0 <= i < |DENIED_CORE| && Family(name, DENIED_CORE[i]) {
      var head := DENIED_CORE[i];
      assert head in DENIED_CORE;
      if name != head {
        assert name == head + "-" + name[|head| + 1..];
      }
    }
    if head, rest :| name == head + "-" + rest && Outside(head) {
      var i :| 0 <= i < |DENIED_CORE| && DENIED_CORE[i] == head;
      assert head + "-" <= name;
    }
    if Outside(name) {
      var i :| 0 <= i < |DENIED_CORE| && DENIED_CORE[i] == name;
    }
  }

  // ----- what the walk is about -----

  function Children(m: Metadata, x: Id): seq<Id> { if x in m.nodes then m.nodes[x] else [] }

  ghost predicate Path(m: Metadata, p: seq<Id>) {
    p != [] && forall i :: 0 <= i < |p| - 1 ==> p[i + 1] in Children(m, p[i])
  }

  ghost predicate Reachable(m: Metadata, from: Id, to: Id) {
    exists p :: Path(m, p) && p[0] == from && p[|p| - 1] == to
  }

  /** Listed in both tables, under a name that the core may depend on. */
  predicate Clean(m: Metadata, x: Id) {
    x in m.packages && !Denied(m.packages[x]) && x in m.nodes
  }

  lemma ReachableSelf(m: Metadata, x: Id)
    ensures Reachable(m, x, x)
  {
    assert Path(m, [x]) && [x][0] == x;
  }

  lemma ReachableStep(m: Metadata, x: Id, y: Id, z: Id)
    requires y in Children(m, x) && Reachable(m, y, z)
    ensures Reachable(m, x, z)
  {
    var p :| Path(m, p) && p[0] == y && p[|p| - 1] == z;
    var q := [x] + p;
    forall i | 0 <= i < |q| - 1 ensures q[i + 1] in Children(m, q[i]) {
      assert i > 0 ==> p[i - 1 + 1] in Children(m, p[i - 1]);
    }
    assert q[0] == x && q[|q| - 1] == z;
  }

  ghost predicate Closed(m: Metadata, s: set<Id>) {
    forall x, y :: x in s && y in Children(m, x) ==> y in s
  }

  /** A closed set holds everything reachable from it. */
  lemma {:induction false} ClosedPath(m: Metadata, s: set<Id>, p: seq<Id>)
    requires Closed(m, s) && Path(m, p) && p[0] in s
    ensures p[|p| - 1] in s
  {
    if |p| > 1 {
      assert p[0 + 1] in Children(m, p[0]);
      forall i | 0 <= i < |p[1..]| - 1 ensures p[1..][i + 1] in Children(m, p[1..][i]) {
        assert p[i + 1 + 1] in Children(m, p[i + 1]);
      }
      ClosedPath(m, s, p[1..]);
    }
  }

  lemma ClosedReachable(m: Metadata, s: set<Id>, from: Id)
    requires Closed(m, s) && from in s
    ensures forall x :: Reachable(m, from, x) ==> x in s
  {
    forall x | Reachable(m, from, x) ensures x in s {
      var p :| Path(m, p) && p[0] == from && p[|p| - 1] == x;
      ClosedPath(m, s, p);
    }
  }

  // ----- the walk -----

  /** Everything seen between `before` and `after` is clean and reachable from the key, and, but for the
      key while it is still open, has all its children seen. */
  ghost predicate Explored(m: Metadata, before: set<Id>, after: set<Id>, key: Id, open: bool) {
    && before <= after
    && (forall x :: x in after - before ==> Clean(m, x) && Reachable(m, key, x))
    && (forall x, y :: x in after - before && !(open && x == key) && y in Children(m, x) ==> y in after)
  }

  lemma ExploredStart(m: Metadata, before: set<Id>, key: Id)
    requires Clean(m, key)
    ensures Explored(m, before, before + {key}, key, true)
  {
    ReachableSelf(m, key);
  }

  lemma ExploredMore(m: Metadata, before: set<Id>, middle: set<Id>, after: set<Id>, key: Id, child: Id)
    requires Explored(m, before, middle, key, true) && Explored(m, middle, after, child, false)
    requires key in middle && child in Children(m, key)
    ensures Explored(m, before, after, key, true)
  {
    hide Reachable, Clean, Children;
    forall x | x in after - before ensures Clean(m, x) && Reachable(m, key, x) {
      if x !in middle {
        ReachableStep(m, key, child, x);
      }
    }
    forall x, y | x in after - before && x != key && y in Children(m, x) ensures y in after {
      assert x in middle - before || x in after - middle;
    }
  }

  lemma ExploredEnd(m: Metadata, before: set<Id>, after: set<Id>, key: Id)
    requires Explored(m, before, after, key, true) && forall y :: y in Children(m, key) ==> y in after
    ensures Explored(m, before, after, key, false)
  {
  }

  lemma ExploredGrows(m: Metadata, before: set<Id>, after: set<Id>, key: Id)
    requires Explored(m, before, after, key, false)
    ensures before <= after
  {
  }

  lemma NothingNew(m: Metadata, seen: set<Id>, key: Id)
    ensures Explored(m, seen, seen, key, false)
  {
  }

  class Walker {
    const metadata: Metadata
    var seen: set<Id>

    constructor (metadata: Metadata)
      ensures this.metadata == metadata && seen == {}
    {
      this.metadata := metadata;
      seen := {};
    }

    /** Depth first, through the shared set of seen packages; the first package that is not clean ends
        the whole walk. */
    method Walk(key: Id) returns (passed: bool)
      modifies this`seen
      ensures passed ==> key in seen && Explored(metadata, old(seen), seen, key, false)
      ensures !passed ==> exists x :: Reachable(metadata, key, x) && !Clean(metadata, x)
      decreases metadata.packages.Keys - seen
    {
      hide Reachable, Explored, Denied;
      if key in seen {
        NothingNew(metadata, seen, key);
        return true;
      }
      ghost var before := seen;
      seen := seen + {key};
      ReachableSelf(metadata, key);
      if key !in metadata.packages {
        return false;
      }
      var name := metadata.packages[key];
      if Denied(name) {
        return false;
      }
      if key !in metadata.nodes {
        return false;
      }
      ExploredStart(metadata, before, key);
      var children := metadata.nodes[key];
      for i := 0 to |children|
        invariant before + {key} <= seen && Explored(metadata, before, seen, key, true)
        invariant forall j :: 0 <= j < i ==> children[j] in seen
      {
        ghost var middle := seen;
        passed := Walk(children[i]);
        if !passed {
          ghost var x :| Reachable(metadata, children[i], x) && !Clean(metadata, x);
          ReachableStep(metadata, key, children[i], x);
          return false;
        }
        ExploredMore(metadata, before, middle, seen, key, children[i]);
        ExploredGrows(metadata, middle, seen, children[i]);
      }
      ExploredEnd(metadata, before, seen, key);
      passed := true;
    }

    /** From a fresh walker, the walk ends on every graph, and it passes exactly when everything
        reachable is clean; then it has seen exactly what is reachable. */
    method WalkCore(core: Id) returns (passed: bool)
      requires seen == {}
      modifies this`seen
      ensures passed <==> forall x :: Reachable(metadata, core, x) ==> Clean(metadata, x)
      ensures passed ==> forall x :: x in seen <==> Reachable(metadata, core, x)
    {
      passed := Walk(core);
      if passed {
        assert Closed(metadata, seen);
        ClosedReachable(metadata, seen, core);
      }
    }
  }
}
