/** JSON values as the audit holds them, and their canonical text: keys in UTF-16 order, minimal
    escapes, safe integers only, at most 32 levels deep. */
module Json {
  import opened Wrappers
  import opened Unicode
  import opened Digits

  const SAFE_INTEGER: int := 9_007_199_254_740_991
  const MAX_DEPTH := 32

  datatype Keyed<+V> = Keyed(key: Text, value: V)

  /** An object keeps its entries in insertion order. */
  datatype Json =
    | Null
    | Bool(b: bool)
    | Int(i: int)
    | Str(s: Text)
    | Arr(items: seq<Json>)
    | Obj(entries: seq<Keyed<Json>>)

  ghost predicate DistinctKeys<V>(es: seq<Keyed<V>>) {
    forall i, j :: 0 <= i < j < |es| ==> es[i].key != es[j].key
  }

  /** A dictionary never holds a key twice. */
  ghost predicate WellFormed(v: Json) {
    match v
    case Arr(items) => forall i :: 0 <= i < |items| ==> WellFormed(items[i])
    case Obj(es) => DistinctKeys(es) && forall i :: 0 <= i < |es| ==> WellFormed(es[i].value)
    case _ => true
  }

  // ----- sorting by key -----

  function InsertKeyed<V>(e: Keyed<V>, es: seq<Keyed<V>>): seq<Keyed<V>> {
    if es == [] || !KeyBelow(es[0].key, e.key) then [e] + es
    else [es[0]] + InsertKeyed(e, es[1..])
  }

  function SortKeyed<V>(es: seq<Keyed<V>>): seq<Keyed<V>> {
    if es == [] then [] else InsertKeyed(es[0], SortKeyed(es[1..]))
  }

  // ----- text -----

  const QUOTE: CodePoint := 0x22
  const BACKSLASH: CodePoint := 0x5C
  const COMMA: CodePoint := 0x2C
  const COLON: CodePoint := 0x3A
  const MINUS: CodePoint := 0x2D
  const OPEN_BRACKET: CodePoint := 0x5B
  const CLOSE_BRACKET: CodePoint := 0x5D
  const OPEN_BRACE: CodePoint := 0x7B
  const CLOSE_BRACE: CodePoint := 0x7D
  const TRUE_TEXT: Text := [0x74, 0x72, 0x75, 0x65]
  const FALSE_TEXT: Text := [0x66, 0x61, 0x6C, 0x73, 0x65]
  const NULL_TEXT: Text := [0x6E, 0x75, 0x6C, 0x6C]

  function HexDigit(d: int): CodePoint
    requires 0 <= d < 16
  {
    if d < 10 then 0x30 + d else 0x61 + d - 10
  }

  /** The two-character escapes; every other control character is spelled in hexadecimal. */
  function ShortEscape(c: CodePoint): Option<CodePoint> {
    if c == QUOTE || c == BACKSLASH then Some(c)
    else if c == 0x08 then Some(0x62)
    else if c == 0x0C then Some(0x66)
    else if c == 0x0A then Some(0x6E)
    else if c == 0x0D then Some(0x72)
    else if c == 0x09 then Some(0x74)
    else None
  }

  function EscapeOne(c: CodePoint): Text {
    match ShortEscape(c)
    case Some(e) => [BACKSLASH, e]
    case None =>
      if c < 0x20 then [BACKSLASH, 0x75, 0x30, 0x30, HexDigit(c / 16), HexDigit(c % 16)] else [c]
  }

  function EscapeAll(s: Text): Text {
    if s == [] then [] else EscapeOne(s[0]) + EscapeAll(s[1..])
  }

  function QuoteText(s: Text): Text { [QUOTE] + EscapeAll(s) + [QUOTE] }

  function DigitChar(d: int): CodePoint
    requires 0 <= d < 10
  {
    0x30 + d
  }

  function DigitText(ds: seq<Digit>): Text {
    seq(|ds|, i requires 0 <= i < |ds| => DigitChar(ds[i]))
  }

  function IntText(i: int): Text {
    if i < 0 then [MINUS] + DigitText(DigitsOf(-i)) else DigitText(DigitsOf(i))
  }

  function Join(ts: seq<Text>): Text {
    if ts == [] then [] else if |ts| == 1 then ts[0] else ts[0] + [COMMA] + Join(ts[1..])
  }

  function Values<V>(es: seq<Keyed<V>>): seq<V> {
    seq(|es|, i requires 0 <= i < |es| => es[i].value)
  }

  // ----- the canonical text -----

  /** A string is a scalar like any other: it needs its own level and encodable code points. */
  function CanonicalString(s: Text, depth: nat): Option<Text> {
    if depth > MAX_DEPTH || !Scalars(s) then None else Some(QuoteText(s))
  }

  function Canonical(v: Json, depth: nat): Option<Text>
    decreases v, 1
  {
    if depth > MAX_DEPTH then None
    else
      match v
      case Null => None
      case Bool(b) => Some(if b then TRUE_TEXT else FALSE_TEXT)
      case Int(i) => if -SAFE_INTEGER <= i <= SAFE_INTEGER then Some(IntText(i)) else None
      case Str(s) => CanonicalString(s, depth)
      case Arr(items) =>
        (match CanonicalItems(items, depth + 1)
         case None => None
         case Some(ts) => Some([OPEN_BRACKET] + Join(ts) + [CLOSE_BRACKET]))
      case Obj(es) =>
        (match CanonicalEntries(es, depth + 1)
         case None => None
         case Some(ps) => Some([OPEN_BRACE] + Join(Values(SortKeyed(ps))) + [CLOSE_BRACE]))
  }

  function CanonicalItems(items: seq<Json>, depth: nat): (r: Option<seq<Text>>)
    ensures r.Some? ==> |r.value| == |items|
    decreases items, 0
  {
    if items == [] then Some([])
    else
      match Canonical(items[0], depth)
      case None => None
      case Some(t) =>
        match CanonicalItems(items[1..], depth)
        case None => None
        case Some(ts) => Some([t] + ts)
  }

  /** Each entry's key with its whole member text, in insertion order. */
  function CanonicalEntries(es: seq<Keyed<Json>>, depth: nat): (r: Option<seq<Keyed<Text>>>)
    ensures r.Some? ==> |r.value| == |es|
    decreases es, 0
  {
    if es == [] then Some([])
    else
      match CanonicalString(es[0].key, depth)
      case None => None
      case Some(k) =>
        match Canonical(es[0].value, depth)
        case None => None
        case Some(t) =>
          match CanonicalEntries(es[1..], depth)
          case None => None
          case Some(ps) => Some([Keyed(es[0].key, k + [COLON] + t)] + ps)
  }

  /** The canonical bytes of a value. */
  function CanonicalBytes(v: Json): Option<seq<Byte>> {
    match Canonical(v, 0)
    case None => None
    case Some(t) => Encode(t)
  }

  // ----- what insertion order does not matter to -----

  /** The value with every object's entries in key order. */
  function Normalize(v: Json): Json
    decreases v, 1
  {
    match v
    case Arr(items) => Arr(NormalizeItems(items))
    case Obj(es) => Obj(SortKeyed(NormalizeEntries(es)))
    case _ => v
  }

  function NormalizeItems(items: seq<Json>): (r: seq<Json>)
    ensures |r| == |items|
    decreases items, 0
  {
    if items == [] then [] else [Normalize(items[0])] + NormalizeItems(items[1..])
  }

  function NormalizeEntries(es: seq<Keyed<Json>>): (r: seq<Keyed<Json>>)
    ensures |r| == |es|
    decreases es, 0
  {
    if es == [] then [] else [Keyed(es[0].key, Normalize(es[0].value))] + NormalizeEntries(es[1..])
  }
}
