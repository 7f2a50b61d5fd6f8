/** JSON texts as a relation, with no reader and no printer in it: which texts spell a value, every layout and
    every spelling included. */
module Grammar {
  import opened Wrappers
  import opened Unicode
  import opened Json

  // ----- white space and tokens -----

  /** Any run of space, tab, line feed and carriage return. */
  predicate Blank(t: Text) {
    forall i | 0 <= i < |t| :: t[i] == 0x20 || t[i] == 0x09 || t[i] == 0x0A || t[i] == 0x0D
  }

  // ----- strings -----

  /** The value of a hexadecimal digit of either case, or 16. */
  function Hex(c: CodePoint): int {
    if 0x30 <= c <= 0x39 then c - 0x30
    else if 0x61 <= c <= 0x66 then c - 0x57
    else if 0x41 <= c <= 0x46 then c - 0x37
    else 16
  }

  /** Backslash, `u` and four hexadecimal digits. */
  predicate SpellsUnit(t: Text, u: int) {
    && |t| == 6 && t[0] == 0x5C && t[1] == 0x75
    && (forall i | 2 <= i < 6 :: Hex(t[i]) < 16)
    && u == 4096 * Hex(t[2]) + 256 * Hex(t[3]) + 16 * Hex(t[4]) + Hex(t[5])
  }

  /** Backslash and one of `"`, `\`, `/`, `b`, `f`, `n`, `r`, `t`. */
  predicate SpellsShort(t: Text, c: CodePoint) {
    && |t| == 2 && t[0] == 0x5C
    && (|| (t[1] == 0x22 && c == 0x22) || (t[1] == 0x5C && c == 0x5C) || (t[1] == 0x2F && c == 0x2F)
        || (t[1] == 0x62 && c == 0x08) || (t[1] == 0x66 && c == 0x0C) || (t[1] == 0x6E && c == 0x0A)
        || (t[1] == 0x72 && c == 0x0D) || (t[1] == 0x74 && c == 0x09))
  }

  /** One character as itself, in short, as one unit, or as the two units of a supplementary character. */
  predicate SpellsChar(t: Text, c: CodePoint) {
    || (t == [c] && c >= 0x20 && c != 0x22 && c != 0x5C)
    || SpellsShort(t, c)
    || (c < 0x1_0000 && SpellsUnit(t, c))
    || (|t| == 12 && c >= 0x1_0000
        && SpellsUnit(t[..6], 0xD800 + (c - 0x1_0000) / 0x400) && SpellsUnit(t[6..], 0xDC00 + (c - 0x1_0000) % 0x400))
  }

  /** Spellings of the characters, one after the other. */
  ghost predicate Spells(t: Text, s: Text)
    decreases |s|
  {
    if s == [] then t == []
    else exists k :: 0 <= k <= |t| && SpellsChar(t[..k], s[0]) && Spells(t[k..], s[1..])
  }

  ghost predicate Quoted(t: Text, s: Text) {
    |t| >= 2 && t[0] == 0x22 && t[|t| - 1] == 0x22 && Spells(t[1..|t| - 1], s)
  }

  // ----- numbers -----

  function Decimal(t: Text): int {
    if t == [] then 0 else 10 * Decimal(t[..|t| - 1]) + (t[|t| - 1] as int) - 0x30
  }

  /** Digits without a leading zero. */
  predicate Numeral(t: Text) {
    && t != [] && (forall i | 0 <= i < |t| :: 0x30 <= t[i] <= 0x39) && (t[0] == 0x30 ==> |t| == 1)
  }

  /** A numeral behind at most one minus sign, never minus zero, and safe. */
  predicate SpellsInt(t: Text, i: int) {
    && -9_007_199_254_740_991 <= i <= 9_007_199_254_740_991
    && if i < 0 then t != [] && t[0] == 0x2D && Numeral(t[1..]) && Decimal(t[1..]) == -i
       else Numeral(t) && Decimal(t) == i
  }

  // ----- values -----

  /** How the text of a list's first element divides off from the rest. */
  datatype Division = Division(before: Text, body: Text, behind: Text, rest: Text)

  /** How the text of an object's member divides: key and value with blanks around the colon. */
  datatype Pairing = Pairing(key: Text, before: Text, behind: Text, value: Text)

  ghost predicate Denotes(t: Text, v: Json)
    decreases v, 2
  {
    match v
    case Null => t == [0x6E, 0x75, 0x6C, 0x6C]
    case Bool(b) => t == if b then [0x74, 0x72, 0x75, 0x65] else [0x66, 0x61, 0x6C, 0x73, 0x65]
    case Int(i) => SpellsInt(t, i)
    case Str(s) => Quoted(t, s)
    case Arr(items) =>
      && |t| >= 2 && t[0] == 0x5B && t[|t| - 1] == 0x5D
      && if items == [] then Blank(t[1..|t| - 1]) else ItemsDenote(t[1..|t| - 1], items)
    case Obj(es) =>
      && |t| >= 2 && t[0] == 0x7B && t[|t| - 1] == 0x7D
      && if es == [] then Blank(t[1..|t| - 1]) else EntriesDenote(t[1..|t| - 1], es)
  }

  /** The elements in order, blanks around each and a comma between two. */
  ghost predicate ItemsDenote(t: Text, items: seq<Json>)
    requires items != []
    decreases items, 1
  {
    exists d: Division :: ItemDivides(t, items, d)
  }

  ghost predicate ItemDivides(t: Text, items: seq<Json>, d: Division)
    requires items != []
    decreases items, 0
  {
    && Blank(d.before) && Denotes(d.body, items[0]) && Blank(d.behind)
    && if |items| == 1 then t == d.before + d.body + d.behind
       else t == d.before + d.body + d.behind + [0x2C] + d.rest && ItemsDenote(d.rest, items[1..])
  }

  ghost predicate EntriesDenote(t: Text, es: seq<Keyed<Json>>)
    requires es != []
    decreases es, 1
  {
    exists d: Division, p: Pairing :: EntryDivides(t, es, d, p)
  }

  ghost predicate EntryDivides(t: Text, es: seq<Keyed<Json>>, d: Division, p: Pairing)
    requires es != []
    decreases es, 0
  {
    && Blank(d.before) && Blank(d.behind) && d.body == p.key + p.before + [0x3A] + p.behind + p.value
    && Quoted(p.key, es[0].key) && Blank(p.before) && Blank(p.behind) && Denotes(p.value, es[0].value)
    && if |es| == 1 then t == d.before + d.body + d.behind
       else t == d.before + d.body + d.behind + [0x2C] + d.rest && EntriesDenote(d.rest, es[1..])
  }

  /** A whole document: a value's text with blanks around it. */
  ghost predicate Document(t: Text, v: Json) {
    exists d: Division :: DocumentDivides(t, v, d)
  }

  ghost predicate DocumentDivides(t: Text, v: Json, d: Division) {
    t == d.before + d.body + d.behind && Blank(d.before) && Denotes(d.body, v) && Blank(d.behind)
  }

  // ----- bytes -----

  /** A continuation byte of section 4 of RFC 3629. */
  predicate Tail(b: Byte) { 0x80 <= b <= 0xBF }

  function Bits(b: int, lead: int): int { b - lead }

  /** One character in UTF-8: the shortest of one to four bytes, never a surrogate. */
  predicate Utf8Char(b: seq<Byte>, c: CodePoint) {
    && !(0xD800 <= c <= 0xDFFF)
    && match |b|
       case 1 => b[0] <= 0x7F && c == b[0]
       case 2 => 0xC0 <= b[0] && Tail(b[1]) && c == 64 * Bits(b[0], 0xC0) + Bits(b[1], 0x80) && 0x80 <= c <= 0x7FF
       case 3 =>
         && 0xE0 <= b[0] && Tail(b[1]) && Tail(b[2])
         && c == 4096 * Bits(b[0], 0xE0) + 64 * Bits(b[1], 0x80) + Bits(b[2], 0x80) && 0x800 <= c <= 0xFFFF
       case 4 =>
         && 0xF0 <= b[0] && Tail(b[1]) && Tail(b[2]) && Tail(b[3])
         && c == 262144 * Bits(b[0], 0xF0) + 4096 * Bits(b[1], 0x80) + 64 * Bits(b[2], 0x80) + Bits(b[3], 0x80)
         && 0x1_0000 <= c
       case _ => false
  }

  ghost predicate Utf8(raw: seq<Byte>, t: Text)
    decreases |t|
  {
    if t == [] then raw == []
    else exists k :: 0 <= k <= |raw| && Utf8Char(raw[..k], t[0]) && Utf8(raw[k..], t[1..])
  }

  // ----- values that may be stored -----

  predicate NoSurrogates(s: Text) {
    forall i | 0 <= i < |s| :: !(0xD800 <= s[i] <= 0xDFFF)
  }

  /** No null, safe integers, no surrogates, no key twice, nothing below level 32. A member's key is on the
      level of its value. */
  ghost predicate Storable(v: Json, depth: nat) {
    && depth <= 32
    && match v
       case Null => false
       case Bool(_) => true
       case Int(i) => -9_007_199_254_740_991 <= i <= 9_007_199_254_740_991
       case Str(s) => NoSurrogates(s)
       case Arr(items) => forall i :: 0 <= i < |items| ==> Storable(items[i], depth + 1)
       case Obj(es) =>
         && (forall i, k :: 0 <= i < k < |es| ==> es[i].key != es[k].key)
         && forall i :: 0 <= i < |es| ==> NoSurrogates(es[i].key) && Storable(es[i].value, depth + 1)
  }
}
