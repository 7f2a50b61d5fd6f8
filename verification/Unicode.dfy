/** The two encodings the canonical form rests on: strict UTF-8 for its bytes, and big-endian UTF-16
    for the order of its object keys. */
module Unicode {
  import opened Wrappers

  type CodePoint = x: int | 0 <= x < 0x11_0000

  type Byte = x: int | 0 <= x < 0x100

  type Text = seq<CodePoint>

  predicate Surrogate(c: int) { 0xD800 <= c < 0xE000 }

  predicate Scalars(s: Text) {
    forall i | 0 <= i < |s| :: !Surrogate(s[i])
  }

  // ----- UTF-8 -----

  function EncodeOne(c: CodePoint): seq<Byte> {
    if c < 0x80 then [c]
    else if c < 0x800 then [0xC0 + c / 0x40, 0x80 + c % 0x40]
    else if c < 0x1_0000 then [0xE0 + c / 0x1000, 0x80 + c / 0x40 % 0x40, 0x80 + c % 0x40]
    else [0xF0 + c / 0x4_0000, 0x80 + c / 0x1000 % 0x40, 0x80 + c / 0x40 % 0x40, 0x80 + c % 0x40]
  }

  function EncodeAll(s: Text): seq<Byte> {
    if s == [] then [] else EncodeOne(s[0]) + EncodeAll(s[1..])
  }

  /** Strict encoding refuses surrogates. */
  function Encode(s: Text): Option<seq<Byte>> {
    if Scalars(s) then Some(EncodeAll(s)) else None
  }

  predicate Continuation(b: Byte) { 0x80 <= b < 0xC0 }

  /** How many bytes the lead byte announces; none for a byte that cannot lead. */
  function Width(b: Byte): nat {
    if b < 0x80 then 1
    else if 0xC2 <= b < 0xE0 then 2
    else if 0xE0 <= b < 0xF0 then 3
    else if 0xF0 <= b < 0xF5 then 4
    else 0
  }

  function Join2(a: int, b: int): int { 0x40 * (a - 0xC0) + (b - 0x80) }

  function Join3(a: int, b: int, c: int): int {
    0x1000 * (a - 0xE0) + 0x40 * (b - 0x80) + (c - 0x80)
  }

  function Join4(a: int, b: int, c: int, d: int): int {
    0x4_0000 * (a - 0xF0) + 0x1000 * (b - 0x80) + 0x40 * (c - 0x80) + (d - 0x80)
  }

  /** The first code point and how many bytes it took; overlong forms, surrogates and values past
      U+10FFFF are refused. */
  function DecodeOne(b: seq<Byte>): Option<(CodePoint, nat)>
    requires b != []
  {
    var n := Width(b[0]);
    if n == 0 || |b| < n || exists i | 1 <= i < n :: !Continuation(b[i]) then None
    else if n == 1 then Some((b[0], 1))
    else if n == 2 then Some((Join2(b[0], b[1]), 2))
    else if n == 3 then
      var c := Join3(b[0], b[1], b[2]);
      if c < 0x800 || Surrogate(c) then None else Some((c, 3))
    else
      var c := Join4(b[0], b[1], b[2], b[3]);
      if c < 0x1_0000 || 0x11_0000 <= c then None else Some((c, 4))
  }

  function Decode(b: seq<Byte>): Option<Text> {
    if b == [] then Some([])
    else
      match DecodeOne(b)
      case None => None
      case Some((c, n)) =>
        if n == 0 || |b| < n then None
        else
          match Decode(b[n..])
          case None => None
          case Some(rest) => Some([c] + rest)
  }

  lemma Split(c: int)
    requires 0 <= c
    ensures c == 0x40 * (c / 0x40) + c % 0x40
    ensures c / 0x1000 == c / 0x40 / 0x40 && c / 0x4_0000 == c / 0x1000 / 0x40
    ensures c == 0x1000 * (c / 0x1000) + 0x40 * (c / 0x40 % 0x40) + c % 0x40
    ensures c == 0x4_0000 * (c / 0x4_0000) + 0x1000 * (c / 0x1000 % 0x40) + 0x40 * (c / 0x40 % 0x40) + c % 0x40
  {
  }

  lemma DecodeOneEncoded(c: CodePoint, rest: seq<Byte>)
    requires !Surrogate(c)
    ensures DecodeOne(EncodeOne(c) + rest) == Some((c, |EncodeOne(c)|)) && 1 <= |EncodeOne(c)|
  {
    var e := EncodeOne(c);
    var b := e + rest;
    Split(c);
    assert forall i :: 0 <= i < |e| ==> b[i] == e[i];
    assert Width(b[0]) == |e|;
    assert forall i :: 1 <= i < |e| ==> Continuation(e[i]);
  }

  lemma Join2Parts(a: int, b: int)
    requires 0xC2 <= a < 0xE0 && 0x80 <= b < 0xC0
    ensures var c := Join2(a, b); 0x80 <= c < 0x800 && c / 0x40 == a - 0xC0 && c % 0x40 == b - 0x80
  {
  }

  lemma Join3Parts(a: int, b: int, c: int)
    requires 0xE0 <= a < 0xF0 && 0x80 <= b < 0xC0 && 0x80 <= c < 0xC0
    ensures var x := Join3(a, b, c);
            && 0 <= x < 0x1_0000 && x / 0x1000 == a - 0xE0 && x / 0x40 % 0x40 == b - 0x80 && x % 0x40 == c - 0x80
  {
    Split(Join3(a, b, c));
  }

  lemma Join4Parts(a: int, b: int, c: int, d: int)
    requires 0xF0 <= a < 0xF5 && 0x80 <= b < 0xC0 && 0x80 <= c < 0xC0 && 0x80 <= d < 0xC0
    ensures var x := Join4(a, b, c, d);
            && 0 <= x && x / 0x4_0000 == a - 0xF0 && x / 0x1000 % 0x40 == b - 0x80 && x / 0x40 % 0x40 == c - 0x80
               && x % 0x40 == d - 0x80
  {
    Split(Join4(a, b, c, d));
  }

  lemma EncodeOneDecoded(b: seq<Byte>)
    requires b != [] && DecodeOne(b).Some?
    ensures var (c, n) := DecodeOne(b).value;
            !Surrogate(c) && 1 <= n <= |b| && EncodeOne(c) == b[..n]
  {
    var n := Width(b[0]);
    assert forall i :: 1 <= i < n ==> Continuation(b[i]);
    if n == 2 {
      Join2Parts(b[0], b[1]);
    } else if n == 3 {
      Join3Parts(b[0], b[1], b[2]);
    } else if n == 4 {
      Join4Parts(b[0], b[1], b[2], b[3]);
    }
  }

  /** Decoding undoes encoding. */
  lemma {:induction false} DecodeEncoded(s: Text)
    requires Scalars(s)
    ensures Decode(EncodeAll(s)) == Some(s)
  {
    hide DecodeOne, EncodeOne, Surrogate;
    if s != [] {
      DecodeEncoded(s[1..]);
      DecodeOneEncoded(s[0], EncodeAll(s[1..]));
      var b := EncodeAll(s);
      assert b[|EncodeOne(s[0])|..] == EncodeAll(s[1..]);
      assert s == [s[0]] + s[1..];
    }
  }

  /** Encoding undoes decoding: the strict decoder accepts one spelling of every text. */
  lemma {:induction false} EncodeDecoded(b: seq<Byte>)
    requires Decode(b).Some?
    ensures Scalars(Decode(b).value) && EncodeAll(Decode(b).value) == b
  {
    hide DecodeOne, EncodeOne, Surrogate;
    if b != [] {
      var (c, n) := DecodeOne(b).value;
      EncodeOneDecoded(b);
      EncodeDecoded(b[n..]);
      var rest := Decode(b[n..]).value;
      assert Decode(b).value == [c] + rest && ([c] + rest)[1..] == rest;
      assert b == b[..n] + b[n..];
    }
  }

  // ----- UTF-16, big-endian -----

  function Utf16One(c: CodePoint): seq<Byte> {
    if c < 0x1_0000 then [c / 0x100, c % 0x100]
    else
      var high, low := 0xD800 + (c - 0x1_0000) / 0x400, 0xDC00 + (c - 0x1_0000) % 0x400;
      [high / 0x100, high % 0x100, low / 0x100, low % 0x100]
  }

  function Utf16(s: Text): seq<Byte> {
    if s == [] then [] else Utf16One(s[0]) + Utf16(s[1..])
  }

  function Join16(high: int, low: int): int { 0x100 * high + low }

  lemma Utf16Width(c: CodePoint)
    requires !Surrogate(c)
    ensures |Utf16One(c)| == if 0xD8 <= Utf16One(c)[0] < 0xDC then 4 else 2
    ensures |Utf16One(c)| == 2 ==> c == Join16(Utf16One(c)[0], Utf16One(c)[1])
    ensures |Utf16One(c)| == 4 ==>
      c == 0x1_0000 + 0x400 * (Join16(Utf16One(c)[0], Utf16One(c)[1]) - 0xD800)
          + (Join16(Utf16One(c)[2], Utf16One(c)[3]) - 0xDC00)
  {
  }

  /** Two scalars whose encodings agree on their first bytes are the same scalar. */
  lemma Utf16OneInjective(c: CodePoint, d: CodePoint, restC: seq<Byte>, restD: seq<Byte>)
    requires !Surrogate(c) && !Surrogate(d) && Utf16One(c) + restC == Utf16One(d) + restD
    ensures c == d && restC == restD
  {
    var b := Utf16One(c) + restC;
    Utf16Width(c);
    Utf16Width(d);
    assert b[0] == Utf16One(c)[0] == Utf16One(d)[0];
    assert b[1] == Utf16One(c)[1] == Utf16One(d)[1];
    assert |Utf16One(c)| == |Utf16One(d)|;
    if c >= 0x1_0000 {
      assert b[2] == Utf16One(c)[2] == Utf16One(d)[2];
      assert b[3] == Utf16One(c)[3] == Utf16One(d)[3];
    }
    assert restC == b[|Utf16One(c)|..] == restD;
  }

  lemma {:induction false} Utf16Injective(s: Text, t: Text)
    requires Scalars(s) && Scalars(t) && Utf16(s) == Utf16(t)
    ensures s == t
  {
    if s != [] && t != [] {
      Utf16OneInjective(s[0], t[0], Utf16(s[1..]), Utf16(t[1..]));
      Utf16Injective(s[1..], t[1..]);
      assert s == [s[0]] + s[1..] && t == [t[0]] + t[1..];
    }
  }

  // ----- the order of keys -----

  predicate BytesBelow(a: seq<Byte>, b: seq<Byte>) {
    if a == [] then b != []
    else if b == [] then false
    else a[0] < b[0] || (a[0] == b[0] && BytesBelow(a[1..], b[1..]))
  }

  predicate KeyBelow(a: Text, b: Text) { BytesBelow(Utf16(a), Utf16(b)) }

  lemma {:induction false} BytesTotal(a: seq<Byte>, b: seq<Byte>)
    ensures BytesBelow(a, b) || a == b || BytesBelow(b, a)
    ensures !(BytesBelow(a, b) && BytesBelow(b, a)) && !BytesBelow(a, a)
  {
    if a != [] && b != [] {
      BytesTotal(a[1..], b[1..]);
      assert a == [a[0]] + a[1..] && b == [b[0]] + b[1..];
    }
    if a != [] {
      BytesTotal(a[1..], a[1..]);
    }
  }

  lemma {:induction false} BytesTransitive(a: seq<Byte>, b: seq<Byte>, c: seq<Byte>)
    requires BytesBelow(a, b) && BytesBelow(b, c)
    ensures BytesBelow(a, c)
  {
    if a != [] && a[0] == b[0] && b[0] == c[0] {
      BytesTransitive(a[1..], b[1..], c[1..]);
    }
  }

  lemma KeyTotal(a: Text, b: Text)
    requires Scalars(a) && Scalars(b)
    ensures KeyBelow(a, b) || a == b || KeyBelow(b, a)
    ensures !(KeyBelow(a, b) && KeyBelow(b, a)) && !KeyBelow(a, a)
  {
    BytesTotal(Utf16(a), Utf16(b));
    if Utf16(a) == Utf16(b) {
      Utf16Injective(a, b);
    }
  }

  /** The order is by UTF-16 units, not by code points: a supplementary character sorts before the
      private use area above the surrogates. */
  lemma SupplementaryBeforePrivateUse(a: CodePoint, b: CodePoint)
    requires 0x1_0000 <= a && 0xE000 <= b < 0x1_0000
    ensures KeyBelow([a], [b]) && b < a
  {
    assert Utf16([a]) == Utf16One(a) + Utf16([]) && Utf16([b]) == Utf16One(b) + Utf16([]);
    assert Utf16([a])[0] == Utf16One(a)[0] < 0xDC && Utf16([b])[0] == Utf16One(b)[0] >= 0xE0;
  }
}
