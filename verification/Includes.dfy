/** Which files a build captures: the seeds and, through the static includes of their Rust sources,
    everything those reach. Paths are spelled as written; a parent step is not collapsed until a path
    is validated. */
module Includes {
  import opened Wrappers

  type Path = seq<string>

  const UP := ".."
  const MAX_PATH := 1024

  /** A file with its bytes and the include literals found in its text, or a symbolic link. */
  datatype Entry = File(bytes: nat, includes: seq<Path>) | Link(toFile: bool)

  /** What lies under the root; everything that is not listed is a directory or missing. */
  type Tree = map<Path, Entry>

  // ----- names -----

  predicate EndsWith(name: string, suffix: string) {
    |suffix| < |name| && name[|name| - |suffix|..] == suffix
  }

  function LowerChar(c: char): char { if 'A' <= c <= 'Z' then (c as int + 32) as char else c }

  function Lower(s: string): string { seq(|s|, i requires 0 <= i < |s| => LowerChar(s[i])) }

  const PRIVATE: seq<string> := [".db", ".sqlite", ".sqlite3", ".pem", ".key", ".p12"]

  predicate Private(name: string) {
    (exists i | 0 <= i < |PRIVATE| :: EndsWith(Lower(name), PRIVATE[i])) || ".env" <= name
  }

  function Last(p: Path): string { if p == [] then "" else p[|p| - 1] }

  function Parent(p: Path): Path { if p == [] then [] else p[..|p| - 1] }

  predicate Rust(p: Path) { EndsWith(Last(p), ".rs") }

  lemma EndsOtherwise(name: string, suffix: string)
    requires name != "" && suffix != "" && name[|name| - 1] != suffix[|suffix| - 1]
    ensures !EndsWith(name, suffix)
  {
    if |suffix| < |name| {
      assert name[|name| - |suffix|..][|suffix| - 1] == name[|name| - 1];
    }
  }

  /** A name that ends in "s" and starts with no dot is not private. */
  lemma SourceNotPrivate(name: string)
    requires name != "" && name[|name| - 1] == 's' && name[0] != '.'
    ensures !Private(name)
  {
    var low := Lower(name);
    assert |low| == |name| && low[|low| - 1] == 's';
    forall i | 0 <= i < |PRIVATE| ensures !EndsWith(low, PRIVATE[i]) {
      assert PRIVATE[i] != "" && PRIVATE[i][|PRIVATE[i]| - 1] != 's';
      EndsOtherwise(low, PRIVATE[i]);
    }
    assert ".env"[0] == '.';
  }

  // ----- validating a spelled path -----

  /** Follow the parts from a directory under the root, never above it and never through a link. */
  function WalkFrom(tree: Tree, cursor: Path, parts: Path): Option<Path>
    decreases |parts|
  {
    if parts == [] then Some(cursor)
    else if parts[0] == UP then
      if cursor == [] then None else WalkFrom(tree, Parent(cursor), parts[1..])
    else
      var deeper := cursor + [parts[0]];
      if deeper in tree && tree[deeper].Link? then None else WalkFrom(tree, deeper, parts[1..])
  }

  /** The file that a spelled path names. */
  function Resolve(tree: Tree, p: Path): (r: Option<Path>)
    ensures r.Some? ==> r.value in tree && tree[r.value].File?
  {
    match WalkFrom(tree, [], p)
    case None => None
    case Some(c) => if c in tree && tree[c].File? && !Private(Last(c)) then Some(c) else None
  }

  function Posix(p: Path): string {
    if p == [] then "" else if |p| == 1 then p[0] else Posix(p[..|p| - 1]) + "/" + p[|p| - 1]
  }

  predicate Captured(tree: Tree, p: Path) {
    Resolve(tree, p).Some? && |Posix(Resolve(tree, p).value)| <= MAX_PATH
  }

  // ----- what a path includes -----

  function Child(p: Path, literal: Path): Path { Parent(p) + literal }

  /** The literals that scanning a path follows. */
  function Literals(tree: Tree, p: Path): seq<Path> {
    if Rust(p) && Resolve(tree, p).Some? then tree[Resolve(tree, p).value].includes else []
  }

  /** A chain of include literals that scanning would follow from a path. */
  ghost predicate Trail(tree: Tree, p: Path, literals: seq<Path>)
    decreases |literals|
  {
    literals != [] ==> literals[0] in Literals(tree, p) && Trail(tree, Child(p, literals[0]), literals[1..])
  }

  function End(p: Path, literals: seq<Path>): Path
    decreases |literals|
  {
    if literals == [] then p else End(Child(p, literals[0]), literals[1..])
  }

  /** Spelled paths that the seeds lead to. */
  ghost predicate Reached(tree: Tree, seeds: set<Path>, p: Path) {
    exists s, literals :: s in seeds && Trail(tree, s, literals) && End(s, literals) == p
  }

  /** A set with the seeds in it that no include leaves. */
  ghost predicate Closed(tree: Tree, seeds: set<Path>, paths: set<Path>) {
    seeds <= paths && forall p, l :: p in paths && l in Literals(tree, p) ==> Child(p, l) in paths
  }

  lemma {:induction false} TrailSnoc(tree: Tree, p: Path, literals: seq<Path>, l: Path)
    requires Trail(tree, p, literals) && l in Literals(tree, End(p, literals))
    ensures Trail(tree, p, literals + [l]) && End(p, literals + [l]) == Child(End(p, literals), l)
    decreases |literals|
  {
    if literals == [] {
      assert ([] + [l])[1..] == [];
    } else {
      assert (literals + [l])[1..] == literals[1..] + [l];
      TrailSnoc(tree, Child(p, literals[0]), literals[1..], l);
    }
  }

  lemma ReachedStep(tree: Tree, seeds: set<Path>, p: Path, l: Path)
    requires Reached(tree, seeds, p) && l in Literals(tree, p)
    ensures Reached(tree, seeds, Child(p, l))
  {
    var s, literals :| s in seeds && Trail(tree, s, literals) && End(s, literals) == p;
    TrailSnoc(tree, s, literals, l);
  }

  lemma ReachedSeed(tree: Tree, seeds: set<Path>, s: Path)
    requires s in seeds
    ensures Reached(tree, seeds, s)
  {
    assert Trail(tree, s, []) && End(s, []) == s;
  }

  lemma {:induction false} ClosedTrail(tree: Tree, seeds: set<Path>, paths: set<Path>, p: Path, literals: seq<Path>)
    requires Closed(tree, seeds, paths) && p in paths && Trail(tree, p, literals)
    ensures End(p, literals) in paths
    decreases |literals|
  {
    if literals != [] {
      ClosedTrail(tree, seeds, paths, Child(p, literals[0]), literals[1..]);
    }
  }

  lemma ClosedReached(tree: Tree, seeds: set<Path>, paths: set<Path>)
    requires Closed(tree, seeds, paths)
    ensures forall p :: Reached(tree, seeds, p) ==> p in paths
  {
    forall p | Reached(tree, seeds, p) ensures p in paths {
      var s, literals :| s in seeds && Trail(tree, s, literals) && End(s, literals) == p;
      ClosedTrail(tree, seeds, paths, s, literals);
    }
  }

  // ----- the same graph on files -----

  /** The file that a literal in a file's text names. */
  function Target(tree: Tree, c: Path, literal: Path): Option<Path> {
    Resolve(tree, Child(c, literal))
  }

  /** A chain of includes from file to file; only a literal that ends in a Rust name is scanned on. */
  ghost predicate FileTrail(tree: Tree, c: Path, literals: seq<Path>)
    decreases |literals|
  {
    literals != [] ==>
      && literals[0] in Literals(tree, c) && Target(tree, c, literals[0]).Some?
      && (|literals| > 1 ==> Rust(literals[0]))
      && FileTrail(tree, Target(tree, c, literals[0]).value, literals[1..])
  }

  function FileEnd(tree: Tree, c: Path, literals: seq<Path>): Path
    decreases |literals|
  {
    if literals == [] then c
    else if Target(tree, c, literals[0]).None? then c
    else FileEnd(tree, Target(tree, c, literals[0]).value, literals[1..])
  }

  /** The files that scanning follows from the seeds' files. */
  ghost predicate InFollowed(tree: Tree, seeds: set<Path>, c: Path) {
    exists s, literals :: s in seeds && Resolve(tree, s).Some? && (literals != [] ==> Rust(s))
      && FileTrail(tree, Resolve(tree, s).value, literals) && FileEnd(tree, Resolve(tree, s).value, literals) == c
  }

  /** A chain of includes from Rust source to Rust source, however the literals spell them. */
  ghost predicate SourceTrail(tree: Tree, c: Path, literals: seq<Path>)
    decreases |literals|
  {
    literals != [] ==>
      && literals[0] in Literals(tree, c) && Target(tree, c, literals[0]).Some?
      && SourceTrail(tree, Target(tree, c, literals[0]).value, literals[1..])
  }

  /** The static include closure: what the seeds' files reach through the includes of Rust sources. */
  ghost predicate InClosure(tree: Tree, seeds: set<Path>, c: Path) {
    exists s, literals :: s in seeds && Resolve(tree, s).Some?
      && SourceTrail(tree, Resolve(tree, s).value, literals) && FileEnd(tree, Resolve(tree, s).value, literals) == c
  }

  // ----- resolving is compositional -----

  lemma {:induction false} WalkAppend(tree: Tree, cursor: Path, a: Path, b: Path)
    ensures WalkFrom(tree, cursor, a + b)
         == match WalkFrom(tree, cursor, a) case None => None case Some(c) => WalkFrom(tree, c, b)
    decreases |a|
  {
    if a == [] {
      assert a + b == b;
    } else {
      assert (a + b)[1..] == a[1..] + b;
      if a[0] == UP {
        if cursor != [] {
          WalkAppend(tree, Parent(cursor), a[1..], b);
        }
      } else {
        var deeper := cursor + [a[0]];
        if !(deeper in tree && tree[deeper].Link?) {
          WalkAppend(tree, deeper, a[1..], b);
        }
      }
    }
  }

  predicate PlainAt(tree: Tree, c: Path, n: nat)
    requires n < |c|
  {
    c[n] != UP && !(c[..n + 1] in tree && tree[c[..n + 1]].Link?)
  }

  /** A path without parent steps and links, which therefore names itself. */
  ghost predicate Plain(tree: Tree, c: Path) {
    forall n :: 0 <= n < |c| ==> PlainAt(tree, c, n)
  }

  lemma PlainGrows(tree: Tree, c: Path, part: string)
    ensures Plain(tree, c + [part]) <==> Plain(tree, c) && part != UP && !(c + [part] in tree && tree[c + [part]].Link?)
  {
    var deeper := c + [part];
    assert deeper[..|c| + 1] == deeper && deeper[|c|] == part;
    forall n | 0 <= n < |c| ensures PlainAt(tree, deeper, n) == PlainAt(tree, c, n) {
      assert deeper[..n + 1] == c[..n + 1];
    }
    assert Plain(tree, deeper) ==> PlainAt(tree, deeper, |c|);
  }

  lemma {:induction false} WalkPlain(tree: Tree, cursor: Path, parts: Path)
    requires Plain(tree, cursor) && WalkFrom(tree, cursor, parts).Some?
    ensures Plain(tree, WalkFrom(tree, cursor, parts).value)
    decreases |parts|
  {
    hide Plain;
    if parts != [] {
      if parts[0] == UP {
        PlainGrows(tree, Parent(cursor), Last(cursor));
        assert cursor == Parent(cursor) + [Last(cursor)];
        WalkPlain(tree, Parent(cursor), parts[1..]);
      } else {
        PlainGrows(tree, cursor, parts[0]);
        WalkPlain(tree, cursor + [parts[0]], parts[1..]);
      }
    }
  }

  lemma {:induction false} PlainWalks(tree: Tree, c: Path)
    requires Plain(tree, c)
    ensures WalkFrom(tree, [], c) == Some(c)
    ensures c != [] ==> Last(c) != UP
    decreases |c|
  {
    hide Plain;
    if c != [] {
      var front := Parent(c);
      assert c == front + [Last(c)];
      PlainGrows(tree, front, Last(c));
      PlainWalks(tree, front);
      WalkAppend(tree, [], front, [Last(c)]);
      assert [Last(c)][1..] == [];
    }
  }

  /** A file's own path resolves to it. */
  lemma ResolveTwice(tree: Tree, p: Path)
    requires Resolve(tree, p).Some?
    ensures Resolve(tree, Resolve(tree, p).value) == Resolve(tree, p)
  {
    WalkPlain(tree, [], p);
    PlainWalks(tree, Resolve(tree, p).value);
  }

  /** A path that names a Rust source by a name, not by a parent step, has the parent it seems to have. */
  lemma ParentResolves(tree: Tree, p: Path)
    requires p != [] && Last(p) != UP && WalkFrom(tree, [], p).Some?
    ensures WalkFrom(tree, [], Parent(p)) == Some(Parent(WalkFrom(tree, [], p).value))
    ensures WalkFrom(tree, [], p).value != [] && Last(WalkFrom(tree, [], p).value) == Last(p)
  {
    assert p == Parent(p) + [Last(p)];
    WalkAppend(tree, [], Parent(p), [Last(p)]);
    assert [Last(p)][1..] == [];
    var q := WalkFrom(tree, [], Parent(p)).value;
    assert Parent(q + [Last(p)]) == q;
  }

  /** Following a literal from a spelled path or from the file it names leads to the same file. */
  lemma ChildResolves(tree: Tree, p: Path, l: Path)
    requires Rust(p) && Resolve(tree, p).Some?
    ensures Rust(Resolve(tree, p).value)
    ensures Resolve(tree, Child(p, l)) == Target(tree, Resolve(tree, p).value, l)
  {
    var c := Resolve(tree, p).value;
    ParentResolves(tree, p);
    WalkPlain(tree, [], p);
    PlainWalks(tree, c);
    assert Last(c) != UP;
    ParentResolves(tree, c);
    WalkAppend(tree, [], Parent(p), l);
    WalkAppend(tree, [], Parent(c), l);
  }

  lemma LiteralsResolve(tree: Tree, p: Path)
    requires Resolve(tree, p).Some?
    ensures Rust(p) ==> Literals(tree, p) == Literals(tree, Resolve(tree, p).value)
  {
    ResolveTwice(tree, p);
    if Rust(p) {
      ChildResolves(tree, p, []);
    }
  }

  // ----- spelled trails and file trails -----

  /** Nothing lies under a file or a link. */
  ghost predicate TreeSound(tree: Tree) {
    forall c :: c in tree ==> c != [] && Parent(c) !in tree
  }

  lemma ChildOfNothing(tree: Tree, p: Path)
    requires TreeSound(tree) && Rust(p) && Resolve(tree, p).Some?
    ensures Resolve(tree, Child(p, [])).None?
  {
    ChildResolves(tree, p, []);
    var c := Resolve(tree, p).value;
    WalkPlain(tree, [], p);
    PlainWalks(tree, c);
    ParentResolves(tree, c);
    assert Child(c, []) == Parent(c);
  }

  lemma RustChild(p: Path, l: Path)
    requires l != []
    ensures Rust(Child(p, l)) == Rust(l)
  {
  }

  /** Every file that the trail names exists. */
  ghost predicate AllResolve(tree: Tree, p: Path, literals: seq<Path>)
    decreases |literals|
  {
    Resolve(tree, p).Some? && (literals != [] ==> AllResolve(tree, Child(p, literals[0]), literals[1..]))
  }

  /** A trail of spelled paths is a trail of the files they name. */
  lemma {:induction false} TrailFiles(tree: Tree, p: Path, literals: seq<Path>)
    requires TreeSound(tree) && AllResolve(tree, p, literals) && Trail(tree, p, literals)
    ensures FileTrail(tree, Resolve(tree, p).value, literals) && (literals != [] ==> Rust(p))
    ensures Resolve(tree, End(p, literals)) == Some(FileEnd(tree, Resolve(tree, p).value, literals))
    decreases |literals|
  {
    if literals != [] {
      hide Resolve, Rust, TreeSound, Child;
      var l := literals[0];
      assert Rust(p);
      LiteralsResolve(tree, p);
      ChildResolves(tree, p, l);
      TrailFiles(tree, Child(p, l), literals[1..]);
      if l == [] {
        ChildOfNothing(tree, p);
      } else {
        RustChild(p, l);
      }
    }
  }

  /** And back: each file trail is spelled from any path of its first file. */
  lemma {:induction false} FilesTrail(tree: Tree, p: Path, literals: seq<Path>)
    requires TreeSound(tree) && Resolve(tree, p).Some? && FileTrail(tree, Resolve(tree, p).value, literals)
    requires literals != [] ==> Rust(p)
    ensures Trail(tree, p, literals) && AllResolve(tree, p, literals)
    decreases |literals|
  {
    if literals != [] {
      hide Resolve, Rust, TreeSound, Child;
      var l := literals[0];
      LiteralsResolve(tree, p);
      ChildResolves(tree, p, l);
      if l == [] {
        ChildOfNothing(tree, p);
      } else {
        RustChild(p, l);
      }
      FilesTrail(tree, Child(p, l), literals[1..]);
    }
  }
}
