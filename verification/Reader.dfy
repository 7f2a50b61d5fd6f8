/** The strict reader: strict UTF-8, the whole JSON grammar, and the refusals of the audit's hooks
    (repeated keys, fractions and exponents, minus zero, unsafe integers), then the canonical check. */
module Reader {
  import opened Wrappers
  import opened Unicode
  import opened Digits
  import opened Json

  const UNICODE_ESCAPE: CodePoint := 0x75
  const SLASH: CodePoint := 0x2F

  predicate Whitespace(c: CodePoint) { c == 0x20 || c == 0x09 || c == 0x0A || c == 0x0D }

  function SkipWhitespace(s: Text): (r: Text)
    ensures |r| <= |s|
  {
    if s != [] && Whitespace(s[0]) then SkipWhitespace(s[1..]) else s
  }

  // ----- strings -----

  function HexValue(c: CodePoint): Option<nat> {
    if 0x30 <= c < 0x3A then Some(c - 0x30)
    else if 0x61 <= c < 0x67 then Some(c - 0x61 + 10)
    else if 0x41 <= c < 0x47 then Some(c - 0x41 + 10)
    else None
  }

  /** Four hexadecimal digits. */
  function ParseUnit(s: Text): (r: Option<nat>)
    ensures r.Some? ==> 4 <= |s| && r.value < 0x1_0000
  {
    if |s| < 4 then None
    else
      match (HexValue(s[0]), HexValue(s[1]), HexValue(s[2]), HexValue(s[3]))
      case (Some(a), Some(b), Some(c), Some(d)) => if a < 16 && b < 16 && c < 16
          && d < 16 then Some(0x1000 * a + 0x100 * b + 0x10 * c + d) else None
      case _ => None
  }

  function SimpleEscape(c: CodePoint): Option<CodePoint> {
    if c == QUOTE || c == BACKSLASH || c == SLASH then Some(c)
    else if c == 0x62 then Some(0x08)
    else if c == 0x66 then Some(0x0C)
    else if c == 0x6E then Some(0x0A)
    else if c == 0x72 then Some(0x0D)
    else if c == 0x74 then Some(0x09)
    else None
  }

  /** A unit after `\u`; a high surrogate joins the low one escaped right behind it. */
  function ParseUnicodeEscape(s: Text): (r: Option<(CodePoint, Text)>)
    ensures r.Some? ==> |r.value.1| < |s|
  {
    match ParseUnit(s)
    case None => None
    case Some(u) =>
      var rest := s[4..];
      if 0xD800 <= u < 0xDC00 && |rest| >= 2 && rest[0] == BACKSLASH && rest[1] == UNICODE_ESCAPE then
        match ParseUnit(rest[2..])
        case None => None
        case Some(low) =>
          if 0xDC00 <= low < 0xE000
              then Some((0x1_0000 + 0x400 * (u - 0xD800) + (low - 0xDC00), rest[6..])) else Some((u, rest))
      else Some((u, rest))
  }

  function ParseEscape(s: Text): (r: Option<(CodePoint, Text)>)
    ensures r.Some? ==> |r.value.1| < |s|
  {
    if s == [] then None
    else if s[0] == UNICODE_ESCAPE then ParseUnicodeEscape(s[1..])
    else
      match SimpleEscape(s[0])
      case None => None
      case Some(c) => Some((c, s[1..]))
  }

  /** The rest of a string after its opening quote. */
  function ParseString(s: Text): (r: Option<(Text, Text)>)
    ensures r.Some? ==> |r.value.1| < |s|
    decreases |s|
  {
    if s == [] || s[0] < 0x20 then None
    else if s[0] == QUOTE then Some(([], s[1..]))
    else if s[0] == BACKSLASH then
      match ParseEscape(s[1..])
      case None => None
      case Some((c, rest)) =>
        (match ParseString(rest)
         case None => None
         case Some((text, after)) => Some(([c] + text, after)))
    else
      match ParseString(s[1..])
      case None => None
      case Some((text, after)) => Some(([s[0]] + text, after))
  }

  // ----- numbers -----

  predicate IsDigit(c: CodePoint) { 0x30 <= c < 0x3A }

  function DigitOf(c: int): Digit
    requires 0x30 <= c < 0x3A
  {
    c - 0x30
  }

  function TakeDigits(s: Text): (r: (seq<Digit>, Text))
    ensures |r.1| + |r.0| == |s|
  {
    if s == [] || !IsDigit(s[0]) then ([], s)
    else
      var (ds, rest) := TakeDigits(s[1..]);
      ([DigitOf(s[0])] + ds, rest)
  }

  /** A fraction or an exponent always ends in a refusal, whether or not its digits follow. */
  predicate Fractional(s: Text) { s != [] && (s[0] == 0x2E || s[0] == 0x65 || s[0] == 0x45) }

  /** An integer token: no leading zero, no minus zero, no fraction, safe range only. */
  function ParseInt(s: Text): (r: Option<(int, Text)>)
    requires s != []
    ensures r.Some? ==> |r.value.1| < |s|
  {
    var negative := s[0] == MINUS;
    var body := if negative then s[1..] else s;
    var (ds, after) := TakeDigits(body);
    if ds == [] then None
    else
      var rest := if ds[0] == 0 then body[1..] else after;
      var magnitude := if ds[0] == 0 then 0 else ValueOf(ds);
      if Fractional(rest) || (negative && magnitude == 0) || magnitude > SAFE_INTEGER then None
      else Some((if negative then -magnitude else magnitude, rest))
  }

  // ----- values -----

  predicate KeyRepeats<V>(es: seq<Keyed<V>>) {
    exists i, j | 0 <= i < j < |es| :: es[i].key == es[j].key
  }

  /** The reader's dictionary filled pair by pair; a repeated key is refused as soon as it comes. */
  method Pairs<V>(items: seq<Keyed<V>>) returns (r: Option<map<Text, V>>)
    ensures r.None? <==> KeyRepeats(items)
    ensures r.Some? ==>
      && (forall k :: k in r.value <==> exists i :: 0 <= i < |items| && items[i].key == k)
      && forall i :: 0 <= i < |items| ==> items[i].key in r.value && r.value[items[i].key] == items[i].value
  {
    var value: map<Text, V> := map[];
    for n := 0 to |items|
      invariant !KeyRepeats(items[..n])
      invariant forall k :: k in value <==> exists i :: 0 <= i < n && items[i].key == k
      invariant forall i :: 0 <= i < n ==> items[i].key in value && value[items[i].key] == items[i].value
    {
      if items[n].key in value {
        return None;
      }
      value := value[items[n].key := items[n].value];
    }
    assert items[..|items|] == items;
    r := Some(value);
  }

  function ParseValue(s: Text): (r: Option<(Json, Text)>)
    ensures r.Some? ==> |r.value.1| < |s|
    decreases |s|, 0
  {
    if s == [] then None
    else if s[0] == QUOTE then
      match ParseString(s[1..])
      case None => None
      case Some((text, rest)) => Some((Str(text), rest))
    else if s[0] == OPEN_BRACKET then
      var body := SkipWhitespace(s[1..]);
      if body != [] && body[0] == CLOSE_BRACKET then Some((Arr([]), body[1..]))
      else
        match ParseItems(body)
        case None => None
        case Some((items, rest)) => Some((Arr(items), rest))
    else if s[0] == OPEN_BRACE then
      var body := SkipWhitespace(s[1..]);
      if body != [] && body[0] == CLOSE_BRACE then Some((Obj([]), body[1..]))
      else
        match ParseEntries(body)
        case None => None
        case Some((es, rest)) => if KeyRepeats(es) then None else Some((Obj(es), rest))
    else if TRUE_TEXT <= s then Some((Bool(true), s[|TRUE_TEXT|..]))
    else if FALSE_TEXT <= s then Some((Bool(false), s[|FALSE_TEXT|..]))
    else if NULL_TEXT <= s then Some((Null, s[|NULL_TEXT|..]))
    else if s[0] == MINUS || IsDigit(s[0]) then
      match ParseInt(s)
      case None => None
      case Some((i, rest)) => Some((Int(i), rest))
    else None
  }

  /** Array items up to the closing bracket. */
  function ParseItems(s: Text): (r: Option<(seq<Json>, Text)>)
    ensures r.Some? ==> |r.value.1| < |s|
    decreases |s|, 1
  {
    match ParseValue(s)
    case None => None
    case Some((v, after)) =>
      var rest := SkipWhitespace(after);
      if rest == [] then None
      else if rest[0] == CLOSE_BRACKET then Some(([v], rest[1..]))
      else if rest[0] != COMMA then None
      else
        match ParseItems(SkipWhitespace(rest[1..]))
        case None => None
        case Some((vs, end)) => Some(([v] + vs, end))
  }

  /** One `"key": value` member. */
  function ParseMember(s: Text): (r: Option<(Keyed<Json>, Text)>)
    ensures r.Some? ==> |r.value.1| < |s|
    decreases |s|, 1
  {
    if s == [] || s[0] != QUOTE then None
    else
      match ParseString(s[1..])
      case None => None
      case Some((key, after)) =>
        var colon := SkipWhitespace(after);
        if colon == [] || colon[0] != COLON then None
        else
          match ParseValue(SkipWhitespace(colon[1..]))
          case None => None
          case Some((v, rest)) => Some((Keyed(key, v), rest))
  }

  /** Object members up to the closing brace. */
  function ParseEntries(s: Text): (r: Option<(seq<Keyed<Json>>, Text)>)
    ensures r.Some? ==> |r.value.1| < |s|
    decreases |s|, 2
  {
    match ParseMember(s)
    case None => None
    case Some((e, after)) =>
      var rest := SkipWhitespace(after);
      if rest == [] then None
      else if rest[0] == CLOSE_BRACE then Some(([e], rest[1..]))
      else if rest[0] != COMMA then None
      else
        match ParseEntries(SkipWhitespace(rest[1..]))
        case None => None
        case Some((es, end)) => Some(([e] + es, end))
  }

  /** A whole document: one value with nothing but whitespace around it. */
  function ParseDocument(s: Text): Option<Json> {
    match ParseValue(SkipWhitespace(s))
    case None => None
    case Some((v, rest)) => if SkipWhitespace(rest) == [] then Some(v) else None
  }

  const BOM: seq<Byte> := [0xEF, 0xBB, 0xBF]

  function StrictJson(raw: seq<Byte>): Option<Json> {
    if BOM <= raw then None
    else
      match Decode(raw)
      case None => None
      case Some(text) =>
        match ParseDocument(text)
        case None => None
        case Some(v) => if CanonicalBytes(v).Some? then Some(v) else None
  }
}
