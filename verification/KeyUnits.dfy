/** The order of keys told by UTF-16 code units alone: the first unit in which two keys differ decides, and a
    key stands before every longer key that begins with it. */
module KeyUnits {
  import opened Wrappers
  import opened Unicode

  /** A character of the basic plane is one unit; any other is a high and a low surrogate. */
  function UnitsOf(c: CodePoint): seq<int> {
    if c <= 0xFFFF then [c] else [0xD800 + (c - 0x1_0000) / 1024, 0xDC00 + (c - 0x1_0000) % 1024]
  }

  function Units(s: Text): seq<int> {
    if s == [] then [] else UnitsOf(s[0]) + Units(s[1..])
  }

  ghost predicate Precedes(a: seq<int>, b: seq<int>) {
    || (|a| < |b| && a == b[..|a|])
    || exists i :: 0 <= i < |a| && i < |b| && a[..i] == b[..i] && a[i] < b[i]
  }

  predicate AllUnits(us: seq<int>) {
    forall i | 0 <= i < |us| :: 0 <= us[i] <= 0xFFFF
  }

  /** The units with the more significant byte first. */
  function Bytes(us: seq<int>): seq<Byte>
    requires AllUnits(us)
  {
    if us == [] then [] else [us[0] / 256, us[0] % 256] + Bytes(us[1..])
  }

  lemma {:induction false} BytesAppend(us: seq<int>, vs: seq<int>)
    requires AllUnits(us) && AllUnits(vs)
    ensures AllUnits(us + vs) && Bytes(us + vs) == Bytes(us) + Bytes(vs)
  {
    if us == [] {
      assert us + vs == vs;
    } else {
      BytesAppend(us[1..], vs);
      assert (us + vs)[1..] == us[1..] + vs;
    }
  }

  lemma OneUnits(c: CodePoint)
    ensures AllUnits(UnitsOf(c)) && Bytes(UnitsOf(c)) == Utf16One(c)
  {
    var us := UnitsOf(c);
    if |us| == 2 {
      assert Bytes(us) == [us[0] / 256, us[0] % 256] + ([us[1] / 256, us[1] % 256] + Bytes(us[1..][1..]));
    } else {
      assert Bytes(us) == [us[0] / 256, us[0] % 256] + Bytes(us[1..]);
    }
  }

  lemma {:induction false} Utf16Units(s: Text)
    ensures AllUnits(Units(s)) && Utf16(s) == Bytes(Units(s))
  {
    hide UnitsOf, Utf16One;
    if s != [] {
      OneUnits(s[0]);
      Utf16Units(s[1..]);
      BytesAppend(UnitsOf(s[0]), Units(s[1..]));
    }
  }

  lemma SameStart(a: seq<int>, b: seq<int>, n: nat)
    requires n < |a| && n < |b| && a[0] == b[0]
    ensures a[..n + 1] == b[..n + 1] <==> a[1..][..n] == b[1..][..n]
  {
    assert a[..n + 1] == [a[0]] + a[1..][..n] && b[..n + 1] == [b[0]] + b[1..][..n];
    assert a[..n + 1][1..] == a[1..][..n] && b[..n + 1][1..] == b[1..][..n];
  }

  lemma TailPrecedes(a: seq<int>, b: seq<int>)
    requires a != [] && b != [] && a[0] == b[0] && Precedes(a, b)
    ensures Precedes(a[1..], b[1..])
  {
    if |a| < |b| && a == b[..|a|] {
      SameStart(a, b, |a| - 1);
      assert a[..|a|] == a && a[1..][..|a| - 1] == a[1..];
    } else {
      var i :| 0 <= i < |a| && i < |b| && a[..i] == b[..i] && a[i] < b[i];
      SameStart(a, b, i - 1);
      assert a[1..][i - 1] < b[1..][i - 1];
    }
  }

  lemma PrecedesByTail(a: seq<int>, b: seq<int>)
    requires a != [] && b != [] && a[0] == b[0] && Precedes(a[1..], b[1..])
    ensures Precedes(a, b)
  {
    var s, t := a[1..], b[1..];
    if |s| < |t| && s == t[..|s|] {
      SameStart(a, b, |a| - 1);
      assert a[..|a|] == a && s[..|a| - 1] == s;
    } else {
      var i :| 0 <= i < |s| && i < |t| && s[..i] == t[..i] && s[i] < t[i];
      SameStart(a, b, i);
      assert a[i + 1] < b[i + 1];
    }
  }

  lemma HeadDecides(a: seq<int>, b: seq<int>)
    requires a != [] && b != [] && a[0] != b[0]
    ensures Precedes(a, b) <==> a[0] < b[0]
  {
    if a[0] < b[0] {
      assert a[..0] == b[..0];
    }
    forall i | 0 < i <= |a| && i <= |b| ensures a[..i] != b[..i] {
      assert a[..i][0] == a[0] && b[..i][0] == b[0];
    }
    assert a == a[..|a|];
  }

  /** Precedence, unit by unit. */
  lemma PrecedesStep(a: seq<int>, b: seq<int>)
    ensures Precedes(a, b)
       <==> b != [] && (a == [] || a[0] < b[0] || (a[0] == b[0] && Precedes(a[1..], b[1..])))
  {
    if a != [] && b != [] {
      hide Precedes;
      if a[0] != b[0] {
        HeadDecides(a, b);
      } else {
        if Precedes(a, b) {
          TailPrecedes(a, b);
        }
        if Precedes(a[1..], b[1..]) {
          PrecedesByTail(a, b);
        }
      }
    }
  }

  lemma {:induction false} BytesPrecede(us: seq<int>, vs: seq<int>)
    requires AllUnits(us) && AllUnits(vs)
    ensures BytesBelow(Bytes(us), Bytes(vs)) <==> Precedes(us, vs)
  {
    hide Precedes;
    PrecedesStep(us, vs);
    if us != [] && vs != [] {
      BytesPrecede(us[1..], vs[1..]);
      var a, b := Bytes(us), Bytes(vs);
      assert a[1..] == [us[0] % 256] + Bytes(us[1..]) && b[1..] == [vs[0] % 256] + Bytes(vs[1..]);
      assert a[1..][1..] == Bytes(us[1..]) && b[1..][1..] == Bytes(vs[1..]);
      assert BytesBelow(a, b) <==>
        a[0] < b[0] || (a[0] == b[0] && (a[1] < b[1] || (a[1] == b[1] && BytesBelow(a[1..][1..], b[1..][1..]))));
    }
  }

  lemma KeyBelowExact(a: Text, b: Text)
    ensures KeyBelow(a, b) <==> Precedes(Units(a), Units(b))
  {
    Utf16Units(a);
    Utf16Units(b);
    BytesPrecede(Units(a), Units(b));
  }
}
