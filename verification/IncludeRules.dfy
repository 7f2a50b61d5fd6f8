/** The rules of the capture told outright: which names are private, which are Rust sources, what a path may
    be captured as, and where the capture starts. */
module IncludeRules {
  import opened Wrappers
  import opened Includes
  import opened Recapture

  /** The same letters, of either case. */
  predicate SameLetters(a: string, b: string) {
    && |a| == |b|
    && forall i | 0 <= i < |a| :: a[i] == b[i] || ('A' <= a[i] <= 'Z' && a[i] as int + 32 == b[i] as int)
  }

  /** Something before an ending. */
  ghost predicate Ends(name: string, ending: string) {
    exists base, end :: name == base + end && base != "" && SameLetters(end, ending)
  }

  ghost predicate Hidden(name: string) {
    || Ends(name, ".db") || Ends(name, ".sqlite") || Ends(name, ".sqlite3") || Ends(name, ".pem") || Ends(name, ".key")
    || Ends(name, ".p12") || (exists rest :: name == ".env" + rest)
  }

  lemma LowerLetters(a: string, b: string)
    requires forall i :: 0 <= i < |b| ==> !('A' <= b[i] <= 'Z')
    ensures Lower(a) == b <==> SameLetters(a, b)
  {
    if Lower(a) == b {
      forall i | 0 <= i < |a| ensures a[i] == b[i] || ('A' <= a[i] <= 'Z' && a[i] as int + 32 == b[i] as int) {
        assert Lower(a)[i] == LowerChar(a[i]);
      }
    }
  }

  lemma EndsLower(name: string, ending: string)
    requires forall i :: 0 <= i < |ending| ==> !('A' <= ending[i] <= 'Z')
    ensures EndsWith(Lower(name), ending) <==> Ends(name, ending)
  {
    if |ending| < |name| {
      var at := |name| - |ending|;
      assert Lower(name)[at..] == Lower(name[at..]);
      LowerLetters(name[at..], ending);
      assert name == name[..at] + name[at..];
    }
    if base, end :| name == base + end && base != "" && SameLetters(end, ending) {
      assert name[|name| - |ending|..] == end;
    }
  }

  /** Databases, keys and certificates by their endings, and everything that begins with `.env`. */
  lemma PrivateExact(name: string)
    ensures Private(name) <==> Hidden(name)
  {
    hide Ends, Lower, EndsWith;
    EndsLower(name, ".db");
    EndsLower(name, ".sqlite");
    EndsLower(name, ".sqlite3");
    EndsLower(name, ".pem");
    EndsLower(name, ".key");
    EndsLower(name, ".p12");
    assert PRIVATE[0] == ".db" && PRIVATE[1] == ".sqlite" && PRIVATE[2] == ".sqlite3" && PRIVATE[3] == ".pem"
      && PRIVATE[4] == ".key" && PRIVATE[5] == ".p12" && |PRIVATE| == 6;
    StartsExact(name);
  }

  lemma StartsExact(name: string)
    ensures ".env" <= name <==> exists rest :: name == ".env" + rest
  {
    if ".env" <= name {
      assert name == ".env" + name[4..];
    }
  }

  lemma RustExact(p: Path)
    ensures Rust(p) <==> p != [] && exists base :: base != "" && p[|p| - 1] == base + ".rs"
  {
    var name := Last(p);
    if Rust(p) {
      assert name == name[..|name| - 3] + ".rs";
    }
  }

  /** A path names a file when it leads to one that is not private. */
  lemma ResolveExact(tree: Tree, p: Path, c: Path)
    ensures Resolve(tree, p) == Some(c)
       <==> && WalkFrom(tree, [], p) == Some(c) && c in tree && tree[c].File?
            && !Hidden(if c == [] then "" else c[|c| - 1])
  {
    hide Hidden, Private;
    PrivateExact(Last(c));
  }

  function Letters(p: Path): nat { if p == [] then 0 else |p[0]| + Letters(p[1..]) }

  lemma {:induction false} LettersSnoc(p: Path, part: string)
    ensures Letters(p + [part]) == Letters(p) + |part|
  {
    if p == [] {
      assert [part][1..] == [];
    } else {
      assert (p + [part])[1..] == p[1..] + [part];
      LettersSnoc(p[1..], part);
    }
  }

  lemma {:induction false} PosixLength(p: Path)
    ensures |Posix(p)| == Letters(p) + (if p == [] then 0 else |p| - 1)
  {
    if |p| > 1 {
      var n := |p| - 1;
      PosixLength(p[..n]);
      LettersSnoc(p[..n], p[n]);
      assert p == p[..n] + [p[n]];
    } else if |p| == 1 {
      assert p[1..] == [];
    }
  }

  /** What it names is captured if its path is not too long, separators included. */
  lemma CapturedExact(tree: Tree, p: Path)
    ensures Captured(tree, p)
       <==> && Resolve(tree, p).Some?
            && var c := Resolve(tree, p).value; Letters(c) + |c| <= 1024 + (if c == [] then 0 else 1)
  {
    hide Resolve;
    if Resolve(tree, p).Some? {
      PosixLength(Resolve(tree, p).value);
    }
  }

  /** The capture starts from the files of the crates but their build output, links to files included, from
      the fixed inputs, and from the optional ones there are. */
  lemma SeedsExact(tree: Tree, fixed: set<Path>, optional: set<Path>, p: Path)
    ensures p in Seeds(tree, fixed, optional)
       <==> || p in fixed || (p in optional && p in tree)
            || (p in tree && (tree[p].File? || tree[p] == Link(true)) && p != [] && p[0] == "crates"
                && (|p| >= 3 ==> p[2] != "target"))
  {
  }
}
