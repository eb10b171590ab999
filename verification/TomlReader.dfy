/** A reader for TOML v1.0.0: bare, basic-quoted, literal-quoted and dotted keys,
    comments, basic strings with every escape, booleans, decimal integers, arrays
    and tables. It lets some repeated tables pass, and any character in a comment,
    which only adds to what can be read. */
module TomlReader {
  import opened Basics
  import opened Text
  import opened Json

  // --- space, lines and comments ----------------------------------------------------

  predicate IsBlankOrNewline(c: char) { IsBlank(c) || c == '\n' || c == '\r' }

  /** Control characters a string may not hold as they are. */
  predicate IsControl(c: char) { ((c as int) < 0x20 && c != '\t') || c as int == 0x7f }

  function SkipBlank(s: string): (r: string)
    ensures |r| <= |s|
  {
    if s != "" && IsBlank(s[0]) then SkipBlank(s[1..]) else s
  }

  /** Up to the end of the line, which stays. */
  function DropLine(s: string): (r: string)
    ensures |r| <= |s|
  {
    if s == "" || s[0] == '\n' then s else DropLine(s[1..])
  }

  /** Past blanks, line ends and comments. */
  function SkipLines(s: string): (r: string)
    ensures |r| <= |s|
    decreases |s|
  {
    if s != "" && IsBlankOrNewline(s[0]) then SkipLines(s[1..])
    else if s != "" && s[0] == '#' then SkipLines(DropLine(s[1..]))
    else s
  }

  /** Past the end of the line, with a comment or without. */
  function EndLine(s: string): (r: Option<string>)
    ensures r.Some? ==> |r.value| <= |s|
  {
    var t := SkipBlank(s);
    var u := if t != "" && t[0] == '#' then DropLine(t) else t;
    if u == "" then Some(u) else if u[0] == '\n' then Some(u[1..]) else None
  }

  // --- strings ----------------------------------------------------------------------

  predicate IsScalarValue(n: nat) {
    n < 0xD800 || 0xE000 <= n < 0x110000
  }

  function ParseTomlEscape(s: string): (r: Option<(char, string)>)
    ensures r.Some? ==> |r.value.1| < |s|
  {
    if s == "" then None
    else
      match s[0]
      case 'b' => Some((8 as char, s[1..]))
      case 't' => Some(('\t', s[1..]))
      case 'n' => Some(('\n', s[1..]))
      case 'f' => Some((12 as char, s[1..]))
      case 'r' => Some(('\r', s[1..]))
      case '"' => Some(('"', s[1..]))
      case '\\' => Some(('\\', s[1..]))
      case 'u' =>
        (match Hex4(s[1..])
         case None => None
         case Some(code) => if IsScalarValue(code) then Some((code as char, s[5..])) else None)
      case 'U' =>
        (match (Hex4(s[1..]), if |s| >= 5 then Hex4(s[5..]) else None)
         case (Some(high), Some(low)) =>
           if IsScalarValue(high * 0x10000 + low) then Some(((high * 0x10000 + low) as char, s[9..])) else None
         case _ => None)
      case _ => None
  }

  /** The rest of a basic string, after its opening quote. */
  function ParseBasic(s: string): (r: Option<(string, string)>)
    ensures r.Some? ==> |r.value.1| < |s|
    decreases |s|
  {
    if s == "" then None
    else if s[0] == '"' then Some(("", s[1..]))
    else if IsControl(s[0]) then None
    else
      match if s[0] == '\\' then ParseTomlEscape(s[1..]) else Some((s[0], s[1..]))
      case None => None
      case Some((c, rest)) =>
        match ParseBasic(rest)
        case None => None
        case Some((tail, rest')) => Some(([c] + tail, rest'))
  }

  /** The rest of a literal string, after its opening quote. */
  function ParseLiteral(s: string): (r: Option<(string, string)>)
    ensures r.Some? ==> |r.value.1| < |s|
    decreases |s|
  {
    if s == "" then None
    else if s[0] == '\'' then Some(("", s[1..]))
    else if IsControl(s[0]) then None
    else
      match ParseLiteral(s[1..])
      case None => None
      case Some((tail, rest)) => Some(([s[0]] + tail, rest))
  }

  // --- keys -------------------------------------------------------------------------

  predicate IsBare(c: char) {
    'a' <= c <= 'z' || 'A' <= c <= 'Z' || '0' <= c <= '9' || c == '_' || c == '-'
  }

  predicate BareKey(key: string) {
    key != "" && forall i :: 0 <= i < |key| ==> IsBare(key[i])
  }

  function KeyRun(s: string): (k: nat)
    ensures k <= |s|
    ensures forall i :: 0 <= i < k ==> IsBare(s[i])
  {
    if s == "" || !IsBare(s[0]) then 0 else 1 + KeyRun(s[1..])
  }

  function ParseSimpleKey(s: string): (r: Option<(string, string)>)
    ensures r.Some? ==> |r.value.1| < |s|
  {
    if s == "" then None
    else if s[0] == '"' then ParseBasic(s[1..])
    else if s[0] == '\'' then ParseLiteral(s[1..])
    else
      var k := KeyRun(s);
      if k == 0 then None else Some((s[..k], s[k..]))
  }

  /** A key, dotted or not, and the blanks after it. */
  function ParseKey(s: string): (r: Option<(seq<string>, string)>)
    ensures r.Some? ==> |r.value.1| < |s| && r.value.0 != []
    decreases |s|
  {
    match ParseSimpleKey(s)
    case None => None
    case Some((key, rest)) =>
      var t := SkipBlank(rest);
      if t == "" || t[0] != '.' then Some(([key], t))
      else
        match ParseKey(SkipBlank(t[1..]))
        case None => None
        case Some((keys, rest')) => Some(([key] + keys, rest'))
  }

  // --- values -----------------------------------------------------------------------

  /** Every integer in a value is one TOML promises to carry. */
  predicate IntsFit(v: Json) {
    match v
    case Int(n) => FitsI64(n)
    case Arr(items) => forall i :: 0 <= i < |items| ==> IntsFit(items[i])
    case Obj(members) => forall i :: 0 <= i < |members| ==> IntsFit(members[i].value)
    case _ => true
  }

  /** What a value on a line can be: no table, and integers within range. */
  predicate Plain(v: Json) {
    IntsFit(v) && WellKeyed(v) && !v.Obj?
  }

  function ParseTomlInt(s: string): (r: Option<(Json, string)>)
    requires s != ""
    ensures r.Some? ==> |r.value.1| < |s| && r.value.0.Int? && Plain(r.value.0)
  {
    var sign := if s[0] == '-' || s[0] == '+' then 1 else 0;
    var digits := s[sign..];
    var k := DigitRun(digits);
    if k == 0 || (k > 1 && digits[0] == '0') then None
    else
      var n := Signed(s[0] == '-', ValueOf(digits[..k]));
      if FitsI64(n) then Some((Int(n), digits[k..])) else None
  }

  function ParseTomlValue(s: string): (r: Option<(Json, string)>)
    ensures r.Some? ==> |r.value.1| < |s| && Plain(r.value.0)
    decreases |s|, 0
  {
    if s == "" then None
    else if s[0] == '"' then
      if |s| >= 3 && s[1] == '"' && s[2] == '"' then None       // a multi-line string
      else
        match ParseBasic(s[1..])
        case None => None
        case Some((text, rest)) => Some((Str(text), rest))
    else if s[0] == '[' then
      var inner := SkipLines(s[1..]);
      if inner != "" && inner[0] == ']' then Some((Arr([]), inner[1..]))
      else
        match ParseTomlItems(inner)
        case None => None
        case Some((items, rest)) => Some((Arr(items), rest))
    else if |s| >= 4 && s[..4] == "true" then Some((Bool(true), s[4..]))
    else if |s| >= 5 && s[..5] == "false" then Some((Bool(false), s[5..]))
    else if IsDigit(s[0]) || s[0] == '-' || s[0] == '+' then ParseTomlInt(s)
    else None
  }

  /** One or more items, an optional trailing comma, and the closing bracket. */
  function ParseTomlItems(s: string): (r: Option<(seq<Json>, string)>)
    ensures r.Some? ==> |r.value.1| < |s| && forall i :: 0 <= i < |r.value.0| ==> Plain(r.value.0[i])
    decreases |s|, 1
  {
    match ParseTomlValue(s)
    case None => None
    case Some((item, rest)) =>
      var t := SkipLines(rest);
      if t == "" then None
      else if t[0] == ']' then Some(([item], t[1..]))
      else if t[0] != ',' then None
      else
        var u := SkipLines(t[1..]);
        if u != "" && u[0] == ']' then Some(([item], u[1..]))
        else
          match ParseTomlItems(u)
          case None => None
          case Some((items, rest')) => Some(([item] + items, rest'))
  }

  // --- lines and tables ---------------------------------------------------------------

  datatype Field = Field(path: seq<string>, value: Json)

  datatype Table = Table(path: seq<string>, fields: seq<Field>)

  predicate GoodField(f: Field) {
    f.path != [] && Plain(f.value)
  }

  /** One `key = value` line, its end included. */
  function ParseField(s: string): (r: Option<(Field, string)>)
    ensures r.Some? ==> |r.value.1| < |s| && GoodField(r.value.0)
  {
    match ParseKey(s)
    case None => None
    case Some((path, afterKey)) =>
      if afterKey == "" || afterKey[0] != '=' then None
      else
        match ParseTomlValue(SkipBlank(afterKey[1..]))
        case None => None
        case Some((value, rest)) =>
          match EndLine(rest)
          case None => None
          case Some(next) => Some((Field(path, value), next))
  }

  /** Lines up to the next table header or the end. */
  function ParseFields(s: string): (r: Option<(seq<Field>, string)>)
    ensures r.Some? ==> |r.value.1| <= |s| && forall i :: 0 <= i < |r.value.0| ==> GoodField(r.value.0[i])
    decreases |s|
  {
    var t := SkipLines(s);
    if t == "" || t[0] == '[' then Some(([], t))
    else
      match ParseField(t)
      case None => None
      case Some((f, rest)) =>
        match ParseFields(rest)
        case None => None
        case Some((fs, rest')) => Some(([f] + fs, rest'))
  }

  predicate GoodTable(t: Table) {
    t.path != [] && forall i :: 0 <= i < |t.fields| ==> GoodField(t.fields[i])
  }

  /** A header line, its end included. */
  function ParseHeader(s: string): (r: Option<(seq<string>, string)>)
    ensures r.Some? ==> |r.value.1| < |s| && r.value.0 != []
  {
    if s == "" || s[0] != '[' then None
    else
      match ParseKey(SkipBlank(s[1..]))
      case None => None
      case Some((path, rest)) =>
        if rest == "" || rest[0] != ']' then None
        else
          match EndLine(rest[1..])
          case None => None
          case Some(next) => Some((path, next))
  }

  function ParseTables(s: string): (r: Option<seq<Table>>)
    ensures r.Some? ==> forall i :: 0 <= i < |r.value| ==> GoodTable(r.value[i])
    decreases |s|
  {
    if s == "" then Some([])
    else
      match ParseHeader(s)
      case None => None
      case Some((path, body)) =>
        match ParseFields(body)
        case None => None
        case Some((fields, rest)) =>
          match ParseTables(rest)
          case None => None
          case Some(tables) => Some([Table(path, fields)] + tables)
  }

  // --- the tree they spell ------------------------------------------------------------

  function Find(ms: seq<Member>, key: string): (r: Option<nat>)
    ensures r.Some? ==> r.value < |ms| && ms[r.value].key == key
    ensures r.None? ==> forall i :: 0 <= i < |ms| ==> ms[i].key != key
  {
    if ms == [] then None
    else if ms[|ms| - 1].key == key then Some(|ms| - 1)
    else Find(ms[..|ms| - 1], key)
  }

  /** Puts a value at a path, opening tables on the way. A repeated key is an
      error. */
  function Place(ms: seq<Member>, path: seq<string>, v: Json): Option<seq<Member>>
    requires path != []
    decreases |path|
  {
    match Find(ms, path[0])
    case None =>
      if |path| == 1 then Some(ms + [Member(path[0], v)])
      else
        (match Place([], path[1..], v)
         case None => None
         case Some(inner) => Some(ms + [Member(path[0], Obj(inner))]))
    case Some(i) =>
      if |path| == 1 || !ms[i].value.Obj? then None
      else
        match Place(ms[i].value.members, path[1..], v)
        case None => None
        case Some(inner) => Some(ms[i := Member(path[0], Obj(inner))])
  }

  function PlaceAll(ms: seq<Member>, fields: seq<Field>): Option<seq<Member>>
    requires forall i :: 0 <= i < |fields| ==> GoodField(fields[i])
    decreases |fields|
  {
    if fields == [] then Some(ms)
    else
      assert GoodField(fields[0]);
      match Place(ms, fields[0].path, fields[0].value)
      case None => None
      case Some(more) => PlaceAll(more, fields[1..])
  }

  /** Puts fields in the table at a path, opening it if need be. */
  function Enter(ms: seq<Member>, path: seq<string>, fields: seq<Field>): Option<seq<Member>>
    requires forall i :: 0 <= i < |fields| ==> GoodField(fields[i])
    decreases |path|
  {
    if path == [] then PlaceAll(ms, fields)
    else
      match Find(ms, path[0])
      case None =>
        (match Enter([], path[1..], fields)
         case None => None
         case Some(inner) => Some(ms + [Member(path[0], Obj(inner))]))
      case Some(i) =>
        if !ms[i].value.Obj? then None
        else
          match Enter(ms[i].value.members, path[1..], fields)
          case None => None
          case Some(inner) => Some(ms[i := Member(path[0], Obj(inner))])
  }

  function PlaceTables(ms: seq<Member>, tables: seq<Table>): Option<seq<Member>>
    requires forall i :: 0 <= i < |tables| ==> GoodTable(tables[i])
    decreases |tables|
  {
    if tables == [] then Some(ms)
    else
      assert GoodTable(tables[0]);
      match Enter(ms, tables[0].path, tables[0].fields)
      case None => None
      case Some(more) => PlaceTables(more, tables[1..])
  }

  /** A document as the members of its root table. */
  function ParseToml(s: string): Option<seq<Member>> {
    match ParseFields(s)
    case None => None
    case Some((top, rest)) =>
      match ParseTables(rest)
      case None => None
      case Some(tables) =>
        match PlaceAll([], top)
        case None => None
        case Some(root) => PlaceTables(root, tables)
  }

  // --- what a tree always is ------------------------------------------------------------

  /** Distinct keys at every level and integers within range. */
  predicate Tidy(ms: seq<Member>) {
    WellKeyed(Obj(ms)) && IntsFit(Obj(ms))
  }

  lemma {:induction false} PlacedIsTidy(ms: seq<Member>, path: seq<string>, v: Json)
    requires path != [] && Tidy(ms) && WellKeyed(v) && IntsFit(v)
    ensures Place(ms, path, v).Some? ==> Tidy(Place(ms, path, v).value)
    decreases |path|
  {
    if |path| > 1 {
      if Find(ms, path[0]).None? {
        PlacedIsTidy([], path[1..], v);
      } else if ms[Find(ms, path[0]).value].value.Obj? {
        PlacedIsTidy(ms[Find(ms, path[0]).value].value.members, path[1..], v);
      }
    }
  }

  lemma {:induction false} AllPlacedIsTidy(ms: seq<Member>, fields: seq<Field>)
    requires Tidy(ms) && forall i :: 0 <= i < |fields| ==> GoodField(fields[i])
    ensures PlaceAll(ms, fields).Some? ==> Tidy(PlaceAll(ms, fields).value)
    decreases |fields|
  {
    if fields != [] {
      PlacedIsTidy(ms, fields[0].path, fields[0].value);
      if Place(ms, fields[0].path, fields[0].value).Some? {
        AllPlacedIsTidy(Place(ms, fields[0].path, fields[0].value).value, fields[1..]);
      }
    }
  }

  lemma {:induction false} EnteredIsTidy(ms: seq<Member>, path: seq<string>, fields: seq<Field>)
    requires Tidy(ms) && forall i :: 0 <= i < |fields| ==> GoodField(fields[i])
    ensures Enter(ms, path, fields).Some? ==> Tidy(Enter(ms, path, fields).value)
    decreases |path|
  {
    if path == [] {
      AllPlacedIsTidy(ms, fields);
    } else if Find(ms, path[0]).None? {
      EnteredIsTidy([], path[1..], fields);
    } else if ms[Find(ms, path[0]).value].value.Obj? {
      EnteredIsTidy(ms[Find(ms, path[0]).value].value.members, path[1..], fields);
    }
  }

  lemma {:induction false} TablesPlacedAreTidy(ms: seq<Member>, tables: seq<Table>)
    requires Tidy(ms) && forall i :: 0 <= i < |tables| ==> GoodTable(tables[i])
    ensures PlaceTables(ms, tables).Some? ==> Tidy(PlaceTables(ms, tables).value)
    decreases |tables|
  {
    if tables != [] {
      EnteredIsTidy(ms, tables[0].path, tables[0].fields);
      if Enter(ms, tables[0].path, tables[0].fields).Some? {
        TablesPlacedAreTidy(Enter(ms, tables[0].path, tables[0].fields).value, tables[1..]);
      }
    }
  }

  lemma ReadIsTidy(s: string)
    ensures ParseToml(s).Some? ==> Tidy(ParseToml(s).value)
  {
    if ParseToml(s).Some? {
      var (top, rest) := ParseFields(s).value;
      AllPlacedIsTidy([], top);
      TablesPlacedAreTidy(PlaceAll([], top).value, ParseTables(rest).value);
    }
  }
}
