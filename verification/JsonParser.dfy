/** A reader for the JSON grammar of RFC 8259: whitespace, every escape of its
    section 7 (surrogate pairs included), and numbers as `serde_json` classifies
    them. It shares nothing with the printer but the value type. */
module JsonParser {
  import opened Basics
  import opened Text
  import opened Json

  predicate IsWs(c: char) { c == ' ' || c == '\t' || c == '\n' || c == '\r' }

  function SkipWs(s: string): (r: string)
    ensures |r| <= |s|
    ensures r != "" ==> !IsWs(r[0])
  {
    if s != "" && IsWs(s[0]) then SkipWs(s[1..]) else s
  }

  predicate StartsWith(s: string, word: string) {
    |word| <= |s| && s[..|word|] == word
  }

  // --- strings ---------------------------------------------------------------

  /** One escape, after its backslash. */
  function ParseEscape(s: string): (r: Option<(char, string)>)
    ensures r.Some? ==> |r.value.1| < |s|
  {
    if s == "" then None
    else
      match s[0]
      case '"' => Some(('"', s[1..]))
      case '\\' => Some(('\\', s[1..]))
      case '/' => Some(('/', s[1..]))
      case 'b' => Some((8 as char, s[1..]))
      case 'f' => Some((12 as char, s[1..]))
      case 'n' => Some(('\n', s[1..]))
      case 'r' => Some(('\r', s[1..]))
      case 't' => Some(('\t', s[1..]))
      case 'u' => ParseUnicode(s[1..])
      case _ => None
  }

  function ParseUnicode(s: string): (r: Option<(char, string)>)
    ensures r.Some? ==> |r.value.1| < |s|
  {
    match Hex4(s)
    case None => None
    case Some(code) =>
      if code < 0xD800 || code >= 0xE000 then Some((code as char, s[4..]))
      else if code >= 0xDC00 || !StartsWith(s[4..], "\\u") then None
      else
        match Hex4(s[6..])
        case None => None
        case Some(low) =>
          if 0xDC00 <= low < 0xE000
          then Some(((0x10000 + (code - 0xD800) * 0x400 + (low - 0xDC00)) as char, s[10..]))
          else None
  }

  /** The rest of a string, after its opening quote. */
  function ParseString(s: string): (r: Option<(string, string)>)
    ensures r.Some? ==> |r.value.1| < |s|
    decreases |s|
  {
    if s == "" then None
    else if s[0] == '"' then Some(("", s[1..]))
    else if (s[0] as int) < 0x20 then None
    else
      match if s[0] == '\\' then ParseEscape(s[1..]) else Some((s[0], s[1..]))
      case None => None
      case Some((c, rest)) =>
        match ParseString(rest)
        case None => None
        case Some((tail, rest')) => Some(([c] + tail, rest'))
  }

  // --- numbers ---------------------------------------------------------------

  /** Length of a fraction part; `None` when malformed. */
  function FractionRun(s: string): (r: Option<nat>)
    ensures r.Some? ==> r.value <= |s|
  {
    if s == "" || s[0] != '.' then Some(0)
    else
      var k := DigitRun(s[1..]);
      if k == 0 then None else Some(1 + k)
  }

  function ExponentRun(s: string): (r: Option<nat>)
    ensures r.Some? ==> r.value <= |s|
  {
    if s == "" || (s[0] != 'e' && s[0] != 'E') then Some(0)
    else
      var sign := if |s| > 1 && (s[1] == '+' || s[1] == '-') then 2 else 1;
      var k := DigitRun(s[sign..]);
      if k == 0 then None else Some(sign + k)
  }

  /** Lengths of the integer part and of the fraction and exponent after it. */
  function NumberRun(digits: string): (r: Option<(nat, nat)>)
    ensures r.Some? ==> 0 < r.value.0 <= DigitRun(digits) && r.value.0 + r.value.1 <= |digits|
  {
    var k := DigitRun(digits);
    if k == 0 || (k > 1 && digits[0] == '0') then None
    else
      match FractionRun(digits[k..])
      case None => None
      case Some(f) =>
        match ExponentRun(digits[k + f..])
        case None => None
        case Some(e) => Some((k, f + e))
  }

  function ParseNumber(s: string): (r: Option<(Json, string)>)
    requires s != ""
    ensures r.Some? ==> |r.value.1| < |s|
  {
    var sign := if s[0] == '-' then 1 else 0;
    match NumberRun(s[sign..])
    case None => None
    case Some((k, extra)) =>
      var n := Signed(sign == 1, ValueOf(s[sign..][..k]));
      var rest := s[sign..][k + extra..];
      if extra == 0 && (FitsU64(n) || FitsI64(n)) && !(sign == 1 && n == 0)
      then Some((Int(n), rest))
      else Some((Float(s[..sign + k + extra]), rest))
  }

  // --- values ----------------------------------------------------------------

  function ParseValue(s: string): (r: Option<(Json, string)>)
    ensures r.Some? ==> |r.value.1| < |s|
    decreases |s|, 0
  {
    var t := SkipWs(s);
    if t == "" then None
    else if t[0] == '"' then
      match ParseString(t[1..])
      case None => None
      case Some((text, rest)) => Some((Str(text), rest))
    else if t[0] == '[' then
      var inner := SkipWs(t[1..]);
      if inner != "" && inner[0] == ']' then Some((Arr([]), inner[1..]))
      else
        match ParseItems(t[1..])
        case None => None
        case Some((items, rest)) => Some((Arr(items), rest))
    else if t[0] == '{' then
      var inner := SkipWs(t[1..]);
      if inner != "" && inner[0] == '}' then Some((Obj([]), inner[1..]))
      else
        match ParseMembers(t[1..])
        case None => None
        case Some((members, rest)) => Some((Obj(members), rest))
    else if StartsWith(t, "null") then Some((Null, t[4..]))
    else if StartsWith(t, "true") then Some((Bool(true), t[4..]))
    else if StartsWith(t, "false") then Some((Bool(false), t[5..]))
    else if t[0] == '-' || IsDigit(t[0]) then ParseNumber(t)
    else None
  }

  /** One or more items and the closing bracket. */
  function ParseItems(s: string): (r: Option<(seq<Json>, string)>)
    ensures r.Some? ==> |r.value.1| < |s|
    decreases |s|, 1
  {
    match ParseValue(s)
    case None => None
    case Some((item, rest)) =>
      var t := SkipWs(rest);
      if t == "" then None
      else if t[0] == ']' then Some(([item], t[1..]))
      else if t[0] != ',' then None
      else
        match ParseItems(t[1..])
        case None => None
        case Some((items, rest')) => Some(([item] + items, rest'))
  }

  /** A key and its colon. */
  function ParseKey(s: string): (r: Option<(string, string)>)
    ensures r.Some? ==> |r.value.1| < |s|
  {
    var t := SkipWs(s);
    if t == "" || t[0] != '"' then None
    else
      match ParseString(t[1..])
      case None => None
      case Some((key, rest)) =>
        var u := SkipWs(rest);
        if u == "" || u[0] != ':' then None else Some((key, u[1..]))
  }

  function ParseMembers(s: string): (r: Option<(seq<Member>, string)>)
    ensures r.Some? ==> |r.value.1| < |s|
    decreases |s|, 1
  {
    match ParseKey(s)
    case None => None
    case Some((key, afterKey)) =>
      match ParseValue(afterKey)
      case None => None
      case Some((value, rest)) =>
        var t := SkipWs(rest);
        if t == "" then None
        else if t[0] == '}' then Some(([Member(key, value)], t[1..]))
        else if t[0] != ',' then None
        else
          match ParseMembers(t[1..])
          case None => None
          case Some((members, rest')) => Some(([Member(key, value)] + members, rest'))
  }

  /** A JSON text: one value, whitespace around it, nothing after. */
  function Parse(s: string): Option<Json> {
    match ParseValue(s)
    case None => None
    case Some((v, rest)) => if SkipWs(rest) == "" then Some(v) else None
  }
}
