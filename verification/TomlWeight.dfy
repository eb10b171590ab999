/** Why a key that is not bare cannot come back, whatever the document spells.

    Every text has a weight: the number of its characters that quoting or escaping
    adds. Reading never gains weight, and a key that is not bare can only have
    been read out of quotes, which weigh two more than the key. So what is read
    weighs too little to be what was written. */
module TomlWeight {
  import opened Basics
  import opened Text
  import opened Json
  import opened Toml
  import opened TomlReader

  // --- weights ------------------------------------------------------------------------

  /** Quotes and the backslash, the letters of the escapes that stand for a
      character the renderer escapes at more length, and the tab, whose escape
      weighs as much. */
  predicate Heavy(c: char) {
    c == '"' || c == '\'' || c == '\\' || c == 'u' || c == 'U' || c == 'b' || c == 'f' || c == '\t'
  }

  function Weight(s: string): nat {
    if s == "" then 0 else (if Heavy(s[0]) then 1 else 0) + Weight(s[1..])
  }

  lemma {:induction false} WeightAppends(a: string, b: string)
    ensures Weight(a + b) == Weight(a) + Weight(b)
  {
    if a == "" {
      assert a + b == b;
    } else {
      assert (a + b)[1..] == a[1..] + b;
      WeightAppends(a[1..], b);
    }
  }

  lemma SuffixesWeighLess(s: string, k: nat)
    requires k <= |s|
    ensures Weight(s) == Weight(s[..k]) + Weight(s[k..])
  {
    WeightAppends(s[..k], s[k..]);
    assert s == s[..k] + s[k..];
  }

  lemma Weightless(s: string)
    requires forall i :: 0 <= i < |s| ==> !Heavy(s[i])
    ensures Weight(s) == 0
  {
  }

  // --- space, lines and comments --------------------------------------------------------

  lemma {:induction false} BlanksWeigh(s: string)
    ensures Weight(SkipBlank(s)) <= Weight(s)
  {
    if s != "" && IsBlank(s[0]) {
      BlanksWeigh(s[1..]);
    }
  }

  lemma {:induction false} CommentsWeigh(s: string)
    ensures Weight(DropLine(s)) <= Weight(s)
  {
    if s != "" && s[0] != '\n' {
      CommentsWeigh(s[1..]);
    }
  }

  lemma {:induction false} LinesWeigh(s: string)
    ensures Weight(SkipLines(s)) <= Weight(s)
    decreases |s|
  {
    if s != "" && IsBlankOrNewline(s[0]) {
      LinesWeigh(s[1..]);
    } else if s != "" && s[0] == '#' {
      CommentsWeigh(s[1..]);
      LinesWeigh(DropLine(s[1..]));
    }
  }

  lemma LineEndsWeigh(s: string)
    ensures EndLine(s).Some? ==> Weight(EndLine(s).value) <= Weight(s)
  {
    BlanksWeigh(s);
    CommentsWeigh(SkipBlank(s));
  }

  // --- strings --------------------------------------------------------------------------

  lemma ShortEscapesWeigh(c: char)
    ensures Weight([c]) <= Weight(EscapeTomlChar(c)) <= 2
    ensures !IsControl(c) && c != '"' && c != '\\' ==> Weight(EscapeTomlChar(c)) == Weight([c])
  {
    assert [c][1..] == "";
    if |EscapeTomlChar(c)| == 2 {
      assert EscapeTomlChar(c)[1..][1..] == "";
    } else if |EscapeTomlChar(c)| == 6 {
      var hex := "00" + [HexUpper(c as int / 16), HexUpper(c as int % 16)];
      Weightless(hex);
      assert EscapeTomlChar(c) == "\\u" + hex;
      WeightAppends("\\u", hex);
      assert "\\u"[1..][1..] == "";
    }
  }

  lemma CodedEscapesWeigh(s: string)
    requires s != "" && (s[0] == 'u' || s[0] == 'U')
    ensures ParseTomlEscape(s).Some? ==> 1 <= |s| && Weight(s) >= 1 + Weight(ParseTomlEscape(s).value.1)
  {
    if ParseTomlEscape(s).Some? {
      var k := if s[0] == 'u' then 4 else 8;
      SuffixesWeighLess(s[1..], k);
      assert s[1..][k..] == ParseTomlEscape(s).value.1;
    }
  }

  lemma EscapesWeigh(s: string)
    ensures ParseTomlEscape(s).Some? ==>
      var (c, rest) := ParseTomlEscape(s).value;
      1 + Weight(s) >= Weight(EscapeTomlChar(c)) + Weight(rest)
  {
    if ParseTomlEscape(s).Some? {
      var c := ParseTomlEscape(s).value.0;
      ShortEscapesWeigh(c);
      if s[0] == 'u' || s[0] == 'U' {
        CodedEscapesWeigh(s);
      } else {
        NamedEscapesWeigh(s, c);
      }
    }
  }

  /** The one-letter escapes. */
  lemma NamedEscapesWeigh(s: string, c: char)
    requires s != "" && s[0] != 'u' && s[0] != 'U'
    requires ParseTomlEscape(s).Some? && ParseTomlEscape(s).value.0 == c
    ensures ParseTomlEscape(s).value.1 == s[1..]
    ensures 1 + (if Heavy(s[0]) then 1 else 0) >= Weight(EscapeTomlChar(c))
  {
    ShortEscapesWeigh(c);
    if c == '\n' || c == '\r' || c == '\t' {
      assert EscapeTomlChar(c)[1..][1..] == "";
    }
  }

  lemma {:induction false} BasicStringsWeigh(s: string)
    ensures ParseBasic(s).Some? ==>
      var (text, rest) := ParseBasic(s).value;
      Weight(s) >= Weight(EscapeToml(text)) + 1 + Weight(rest)
    decreases |s|
  {
    if ParseBasic(s).Some? && s[0] != '"' {
      var (text, _) := ParseBasic(s).value;
      var (c, rest) := if s[0] == '\\' then ParseTomlEscape(s[1..]).value else (s[0], s[1..]);
      BasicStringsWeigh(rest);
      assert text[0] == c && text[1..] == ParseBasic(rest).value.0;
      WeightAppends(EscapeTomlChar(c), EscapeToml(text[1..]));
      if s[0] == '\\' {
        EscapesWeigh(s[1..]);
      } else {
        ShortEscapesWeigh(c);
        assert Weight([c]) == if Heavy(c) then 1 else 0;
      }
    }
  }

  lemma {:induction false} LiteralStringsWeigh(s: string)
    ensures ParseLiteral(s).Some? ==>
      var (text, rest) := ParseLiteral(s).value;
      Weight(s) >= Weight(text) + 1 + Weight(rest)
    decreases |s|
  {
    if ParseLiteral(s).Some? && s[0] != '\'' {
      LiteralStringsWeigh(s[1..]);
      assert ParseLiteral(s).value.0[1..] == ParseLiteral(s[1..]).value.0;
    }
  }

  lemma {:induction false} EscapingAddsWeight(text: string)
    ensures Weight(EscapeToml(text)) >= Weight(text)
  {
    if text != "" {
      EscapingAddsWeight(text[1..]);
      WeightAppends(EscapeTomlChar(text[0]), EscapeToml(text[1..]));
      ShortEscapesWeigh(text[0]);
      assert Weight([text[0]]) == if Heavy(text[0]) then 1 else 0;
    }
  }

  // --- keys -----------------------------------------------------------------------------

  /** A key that is not bare was read out of quotes. */
  function KeyCost(key: string): nat {
    Weight(key) + if BareKey(key) then 0 else 2
  }

  lemma SimpleKeysWeigh(s: string)
    ensures ParseSimpleKey(s).Some? ==>
      var (key, rest) := ParseSimpleKey(s).value;
      Weight(s) >= KeyCost(key) + Weight(rest)
  {
    if ParseSimpleKey(s).Some? {
      var (key, rest) := ParseSimpleKey(s).value;
      if s[0] == '"' {
        BasicStringsWeigh(s[1..]);
        EscapingAddsWeight(key);
      } else if s[0] == '\'' {
        LiteralStringsWeigh(s[1..]);
      } else {
        SuffixesWeighLess(s, KeyRun(s));
      }
    }
  }

  function PathCost(path: seq<string>): nat {
    if path == [] then 0 else KeyCost(path[0]) + PathCost(path[1..])
  }

  lemma {:induction false} KeysWeigh(s: string)
    ensures ParseKey(s).Some? ==>
      var (path, rest) := ParseKey(s).value;
      Weight(s) >= PathCost(path) + Weight(rest)
    decreases |s|
  {
    if ParseKey(s).Some? {
      SimpleKeysWeigh(s);
      var (key, rest) := ParseSimpleKey(s).value;
      var t := SkipBlank(rest);
      BlanksWeigh(rest);
      if t != "" && t[0] == '.' {
        var u := SkipBlank(t[1..]);
        BlanksWeigh(t[1..]);
        KeysWeigh(u);
        assert ([key] + ParseKey(u).value.0)[1..] == ParseKey(u).value.0;
      } else {
        assert [key][1..] == [];
      }
    }
  }

  // --- values ---------------------------------------------------------------------------

  function Cost(v: Json): nat
    decreases v, 1
  {
    match v
    case Str(s) => Weight(QuoteToml(s))
    case Bool(b) => Weight(if b then "true" else "false")
    case Arr(items) => ItemsCost(items)
    case Obj(members) => MembersCost(members)
    case _ => 0
  }

  function ItemsCost(items: seq<Json>): nat
    decreases items, 0
  {
    if items == [] then 0 else Cost(items[0]) + ItemsCost(items[1..])
  }

  function MembersCost(ms: seq<Member>): nat
    decreases ms, 0
  {
    if ms == [] then 0 else KeyCost(ms[0].key) + Cost(ms[0].value) + MembersCost(ms[1..])
  }

  lemma QuotesWeigh(text: string)
    ensures Weight(QuoteToml(text)) == 2 + Weight(EscapeToml(text))
  {
    WeightAppends("\"" + EscapeToml(text), "\"");
    assert ("\"" + EscapeToml(text))[1..] == EscapeToml(text);
    assert "\""[1..] == "";
  }

  lemma IntsWeigh(s: string)
    requires s != ""
    ensures ParseTomlInt(s).Some? ==> Weight(s) >= Cost(ParseTomlInt(s).value.0) + Weight(ParseTomlInt(s).value.1)
  {
    if ParseTomlInt(s).Some? {
      var sign := if s[0] == '-' || s[0] == '+' then 1 else 0;
      SuffixesWeighLess(s, sign);
      SuffixesWeighLess(s[sign..], DigitRun(s[sign..]));
    }
  }

  lemma {:induction false} ValuesWeigh(s: string)
    ensures ParseTomlValue(s).Some? ==>
      Weight(s) >= Cost(ParseTomlValue(s).value.0) + Weight(ParseTomlValue(s).value.1)
    decreases |s|, 0
  {
    if ParseTomlValue(s).Some? {
      if s[0] == '"' {
        BasicStringsWeigh(s[1..]);
        QuotesWeigh(ParseBasic(s[1..]).value.0);
      } else if s[0] == '[' {
        LinesWeigh(s[1..]);
        var inner := SkipLines(s[1..]);
        if inner == "" || inner[0] != ']' {
          ItemsWeigh(inner);
        }
      } else if |s| >= 4 && s[..4] == "true" {
        SuffixesWeighLess(s, 4);
      } else if |s| >= 5 && s[..5] == "false" {
        SuffixesWeighLess(s, 5);
      } else {
        IntsWeigh(s);
      }
    }
  }

  lemma {:induction false} ItemsWeigh(s: string)
    ensures ParseTomlItems(s).Some? ==>
      Weight(s) >= ItemsCost(ParseTomlItems(s).value.0) + Weight(ParseTomlItems(s).value.1)
    decreases |s|, 1
  {
    if ParseTomlItems(s).Some? {
      ValuesWeigh(s);
      var (item, rest) := ParseTomlValue(s).value;
      var t := SkipLines(rest);
      LinesWeigh(rest);
      assert ItemsCost([item]) == Cost(item) by {
        assert [item][1..] == [];
      }
      if t[0] == ',' {
        var u := SkipLines(t[1..]);
        LinesWeigh(t[1..]);
        if u == "" || u[0] != ']' {
          ItemsWeigh(u);
          assert ([item] + ParseTomlItems(u).value.0)[1..] == ParseTomlItems(u).value.0;
        }
      }
    }
  }

  // --- lines and tables -------------------------------------------------------------------

  function FieldsCost(fs: seq<Field>): nat {
    if fs == [] then 0 else PathCost(fs[0].path) + Cost(fs[0].value) + FieldsCost(fs[1..])
  }

  function TablesCost(ts: seq<Table>): nat {
    if ts == [] then 0 else PathCost(ts[0].path) + FieldsCost(ts[0].fields) + TablesCost(ts[1..])
  }

  lemma FieldLinesWeigh(s: string)
    ensures ParseField(s).Some? ==>
      var (f, rest) := ParseField(s).value;
      Weight(s) >= PathCost(f.path) + Cost(f.value) + Weight(rest)
  {
    if ParseField(s).Some? {
      KeysWeigh(s);
      var afterKey := ParseKey(s).value.1;
      BlanksWeigh(afterKey[1..]);
      ValuesWeigh(SkipBlank(afterKey[1..]));
      LineEndsWeigh(ParseTomlValue(SkipBlank(afterKey[1..])).value.1);
    }
  }

  lemma {:induction false} FieldsWeigh(s: string)
    ensures ParseFields(s).Some? ==>
      Weight(s) >= FieldsCost(ParseFields(s).value.0) + Weight(ParseFields(s).value.1)
    decreases |s|
  {
    if ParseFields(s).Some? {
      LinesWeigh(s);
      var t := SkipLines(s);
      if t != "" && t[0] != '[' {
        FieldLinesWeigh(t);
        var (f, rest) := ParseField(t).value;
        FieldsWeigh(rest);
        assert ParseFields(s).value.0[1..] == ParseFields(rest).value.0;
      }
    }
  }

  lemma HeadersWeigh(s: string)
    ensures ParseHeader(s).Some? ==>
      Weight(s) >= PathCost(ParseHeader(s).value.0) + Weight(ParseHeader(s).value.1)
  {
    if ParseHeader(s).Some? {
      BlanksWeigh(s[1..]);
      KeysWeigh(SkipBlank(s[1..]));
      LineEndsWeigh(ParseKey(SkipBlank(s[1..])).value.1[1..]);
    }
  }

  lemma {:induction false} TablesWeigh(s: string)
    ensures ParseTables(s).Some? ==> Weight(s) >= TablesCost(ParseTables(s).value)
    decreases |s|
  {
    if ParseTables(s).Some? && s != "" {
      HeadersWeigh(s);
      var body := ParseHeader(s).value.1;
      FieldsWeigh(body);
      TablesWeigh(ParseFields(body).value.1);
      assert ParseTables(s).value[1..] == ParseTables(ParseFields(body).value.1).value;
    }
  }

  // --- the tree ---------------------------------------------------------------------------

  function MemberCost(m: Member): nat {
    KeyCost(m.key) + Cost(m.value)
  }

  lemma {:induction false} AppendingCosts(ms: seq<Member>, m: Member)
    ensures MembersCost(ms + [m]) == MembersCost(ms) + MemberCost(m)
  {
    if ms == [] {
      assert ms + [m] == [m] && [m][1..] == [];
    } else {
      assert (ms + [m])[1..] == ms[1..] + [m];
      AppendingCosts(ms[1..], m);
    }
  }

  lemma {:induction false} UpdatingCosts(ms: seq<Member>, i: nat, m: Member)
    requires i < |ms|
    ensures MembersCost(ms[i := m]) + MemberCost(ms[i]) == MembersCost(ms) + MemberCost(m)
  {
    if i == 0 {
      assert ms[0 := m][1..] == ms[1..];
    } else {
      assert ms[i := m][1..] == ms[1..][i - 1 := m];
      UpdatingCosts(ms[1..], i - 1, m);
    }
  }

  lemma {:induction false} PlacingCosts(ms: seq<Member>, path: seq<string>, v: Json)
    requires path != []
    ensures Place(ms, path, v).Some? ==>
      MembersCost(Place(ms, path, v).value) <= MembersCost(ms) + PathCost(path) + Cost(v)
    decreases |path|
  {
    if Place(ms, path, v).Some? {
      assert |path| == 1 ==> path[1..] == [];
      if Find(ms, path[0]).None? {
        if |path| == 1 {
          AppendingCosts(ms, Member(path[0], v));
        } else {
          PlacingCosts([], path[1..], v);
          AppendingCosts(ms, Member(path[0], Obj(Place([], path[1..], v).value)));
        }
      } else {
        var i := Find(ms, path[0]).value;
        PlacingCosts(ms[i].value.members, path[1..], v);
        UpdatingCosts(ms, i, Member(path[0], Obj(Place(ms[i].value.members, path[1..], v).value)));
      }
    }
  }

  lemma {:induction false} PlacingAllCosts(ms: seq<Member>, fields: seq<Field>)
    requires forall i :: 0 <= i < |fields| ==> GoodField(fields[i])
    ensures PlaceAll(ms, fields).Some? ==>
      MembersCost(PlaceAll(ms, fields).value) <= MembersCost(ms) + FieldsCost(fields)
    decreases |fields|
  {
    if PlaceAll(ms, fields).Some? && fields != [] {
      PlacingCosts(ms, fields[0].path, fields[0].value);
      PlacingAllCosts(Place(ms, fields[0].path, fields[0].value).value, fields[1..]);
    }
  }

  lemma {:induction false} EnteringCosts(ms: seq<Member>, path: seq<string>, fields: seq<Field>)
    requires forall i :: 0 <= i < |fields| ==> GoodField(fields[i])
    ensures Enter(ms, path, fields).Some? ==>
      MembersCost(Enter(ms, path, fields).value) <= MembersCost(ms) + PathCost(path) + FieldsCost(fields)
    decreases |path|
  {
    if Enter(ms, path, fields).Some? {
      if path == [] {
        PlacingAllCosts(ms, fields);
      } else if Find(ms, path[0]).None? {
        EnteringCosts([], path[1..], fields);
        AppendingCosts(ms, Member(path[0], Obj(Enter([], path[1..], fields).value)));
      } else {
        var i := Find(ms, path[0]).value;
        EnteringCosts(ms[i].value.members, path[1..], fields);
        UpdatingCosts(ms, i, Member(path[0], Obj(Enter(ms[i].value.members, path[1..], fields).value)));
      }
    }
  }

  lemma {:induction false} PlacingTablesCosts(ms: seq<Member>, tables: seq<Table>)
    requires forall i :: 0 <= i < |tables| ==> GoodTable(tables[i])
    ensures PlaceTables(ms, tables).Some? ==>
      MembersCost(PlaceTables(ms, tables).value) <= MembersCost(ms) + TablesCost(tables)
    decreases |tables|
  {
    if PlaceTables(ms, tables).Some? && tables != [] {
      EnteringCosts(ms, tables[0].path, tables[0].fields);
      PlacingTablesCosts(Enter(ms, tables[0].path, tables[0].fields).value, tables[1..]);
    }
  }

  /** MAIN. Reading never gains weight: whatever any text is read as, it weighs at
      least what it was read as, with two more for each key that is not bare. */
  lemma ReadingGainsNoWeight(s: string)
    ensures ParseToml(s).Some? ==> MembersCost(ParseToml(s).value) <= Weight(s)
  {
    if ParseToml(s).Some? {
      FieldsWeigh(s);
      var (top, rest) := ParseFields(s).value;
      TablesWeigh(rest);
      PlacingAllCosts([], top);
      PlacingTablesCosts(PlaceAll([], top).value, ParseTables(rest).value);
    }
  }

  // --- what is written -------------------------------------------------------------------

  /** Members as written: keys as they are. */
  function Written(ms: seq<Member>): nat
    decreases ms
  {
    if ms == [] then 0
    else
      Weight(ms[0].key) + (if ms[0].value.Obj? then Written(ms[0].value.members) else Cost(ms[0].value))
      + Written(ms[1..])
  }

  function WrittenOne(m: Member): nat {
    Weight(m.key) + if m.value.Obj? then Written(m.value.members) else Cost(m.value)
  }

  lemma {:induction false} WritingAppends(ms: seq<Member>, m: Member)
    ensures Written(ms + [m]) == Written(ms) + WrittenOne(m)
  {
    if ms == [] {
      assert ms + [m] == [m] && [m][1..] == [];
    } else {
      assert (ms + [m])[1..] == ms[1..] + [m];
      WritingAppends(ms[1..], m);
    }
  }

  lemma {:induction false} ValueTextsWeigh(v: Json)
    requires Supported(v)
    ensures Weight(ValueText(v)) == Cost(v)
    decreases v, 1
  {
    match v
    case Int(n) =>
      DecimalReadsBack(if n < 0 then -n else n);
      Weightless(Integer(n));
    case Arr(items) =>
      ItemTextsWeigh(items);
      WeightAppends("[" + ItemsText(items), "]");
      WeightAppends("[", ItemsText(items));
      Weightless("[");
      Weightless("]");
    case _ =>
  }

  lemma {:induction false} ItemTextsWeigh(items: seq<Json>)
    requires forall i :: 0 <= i < |items| ==> Supported(items[i])
    ensures Weight(ItemsText(items)) == ItemsCost(items)
    decreases items, 0
  {
    if items != [] {
      ValueTextsWeigh(items[0]);
      ItemTextsWeigh(items[1..]);
      Weightless(", ");
      WeightAppends(ValueText(items[0]) + ", ", ItemsText(items[1..]));
      WeightAppends(ValueText(items[0]), ", ");
    }
  }

  lemma LineTextsWeigh(m: Member)
    requires Supported(m.value)
    ensures Weight(Line(m)) == WrittenOne(m)
  {
    ValueTextsWeigh(m.value);
    Weightless(" = ");
    Weightless("\n");
    WeightAppends(m.key + " = " + ValueText(m.value), "\n");
    WeightAppends(m.key + " = ", ValueText(m.value));
    WeightAppends(m.key, " = ");
  }

  lemma {:induction false} LinesTextsWeigh(ms: seq<Member>)
    requires forall i :: 0 <= i < |ms| ==> Supported(ms[i].value)
    ensures Weight(Lines(ms)) == Written(ms)
  {
    if ms != [] {
      LineTextsWeigh(ms[0]);
      LinesTextsWeigh(ms[1..]);
      WeightAppends(Line(ms[0]), Lines(ms[1..]));
    }
  }

  lemma TableTextsWeigh(m: Member)
    requires m.value.Obj? && SupportedField(m)
    ensures Weight(TableText(m)) == WrittenOne(m)
  {
    LinesTextsWeigh(m.value.members);
    Weightless("\n[");
    Weightless("]\n");
    WeightAppends("\n[" + m.key + "]\n", Lines(m.value.members));
    WeightAppends("\n[" + m.key, "]\n");
    WeightAppends("\n[", m.key);
  }

  lemma GrowingWeighs(halves: (string, string), m: Member)
    requires SupportedField(m)
    ensures Weight(Grown(halves, m).0) + Weight(Grown(halves, m).1)
         == Weight(halves.0) + Weight(halves.1) + WrittenOne(m)
  {
    if m.value.Obj? {
      TableTextsWeigh(m);
      WeightAppends(halves.1, TableText(m));
    } else {
      LineTextsWeigh(m);
      WeightAppends(halves.0, Line(m));
    }
  }

  lemma {:induction false} HalvesWeigh(ms: seq<Member>, k: nat)
    requires k <= |ms| && forall i :: 0 <= i < |ms| ==> SupportedField(ms[i])
    ensures Weight(Halves(ms, k).0) + Weight(Halves(ms, k).1) == Written(ms[..k])
  {
    if k > 0 {
      HalvesWeigh(ms, k - 1);
      GrowingWeighs(Halves(ms, k - 1), ms[k - 1]);
      WritingAppends(ms[..k - 1], ms[k - 1]);
      assert ms[..k] == ms[..k - 1] + [ms[k - 1]];
    }
  }

  lemma DocumentsWeigh(ms: seq<Member>)
    requires Renderable(Obj(ms))
    ensures Weight(Document(ms)) == Written(ms)
  {
    HalvesWeigh(ms, |ms|);
    HalvesAreWritten(ms, |ms|);
    assert ms[..|ms|] == ms;
    WeightAppends(Lines(Scalars(ms)), TablesText(Tables(ms)));
  }

  // --- cost does not depend on order --------------------------------------------------------

  lemma {:induction false} InsertingCosts(ms: seq<Member>, m: Member)
    ensures MembersCost(Insert(ms, m)) == MembersCost(ms) + MemberCost(m)
  {
    if ms == [] {
      assert [m][1..] == [];
    } else if Less(m.key, ms[0].key) {
      assert ([m] + ms)[1..] == ms;
    } else {
      InsertingCosts(ms[1..], m);
      assert Insert(ms, m)[1..] == Insert(ms[1..], m);
    }
  }

  lemma {:induction false} SortingCosts(ms: seq<Member>)
    ensures MembersCost(Sort(ms)) == MembersCost(ms)
  {
    if ms != [] {
      var prefix, last := ms[..|ms| - 1], ms[|ms| - 1];
      SortingCosts(prefix);
      InsertingCosts(Sort(prefix), last);
      AppendingCosts(prefix, last);
      assert ms == prefix + [last];
    }
  }

  lemma {:induction false} NormalisingCosts(v: Json)
    ensures Cost(Norm(v)) == Cost(v)
    decreases v, 1
  {
    match v
    case Arr(items) => NormalisingItemsCosts(items);
    case Obj(members) =>
      NormalisingMembersCosts(members);
      SortingCosts(NormMembers(members));
    case _ =>
  }

  lemma {:induction false} NormalisingItemsCosts(items: seq<Json>)
    ensures ItemsCost(NormItems(items)) == ItemsCost(items)
    decreases items, 0
  {
    if items != [] {
      NormalisingCosts(items[0]);
      NormalisingItemsCosts(items[1..]);
      assert NormItems(items)[1..] == NormItems(items[1..]);
    }
  }

  lemma {:induction false} NormalisingMembersCosts(ms: seq<Member>)
    ensures MembersCost(NormMembers(ms)) == MembersCost(ms)
    decreases ms, 0
  {
    if ms != [] {
      NormalisingCosts(ms[0].value);
      NormalisingMembersCosts(ms[1..]);
      assert NormMembers(ms)[1..] == NormMembers(ms[1..]);
    }
  }

  // --- keys that are not bare ---------------------------------------------------------------

  /** Every key is bare, here and in the tables. */
  predicate AllBare(ms: seq<Member>)
    decreases ms
  {
    forall i :: 0 <= i < |ms| ==> BareKey(ms[i].key) && (ms[i].value.Obj? ==> AllBare(ms[i].value.members))
  }

  lemma {:induction false} BareKeysCostNothing(ms: seq<Member>)
    ensures Written(ms) <= MembersCost(ms)
    ensures MembersCost(ms) <= Written(ms) ==> AllBare(ms)
    decreases ms
  {
    if ms != [] {
      if ms[0].value.Obj? {
        BareKeysCostNothing(ms[0].value.members);
      }
      BareKeysCostNothing(ms[1..]);
      assert forall i :: 0 < i < |ms| ==> ms[i] == ms[1..][i - 1];
    }
  }

  /** MAIN. Whatever a rendered document spells, if it reads back as its inputs up
      to member order then every key of theirs is bare. */
  lemma OnlyBareKeysComeBack(ms: seq<Member>)
    requires Renderable(Obj(ms)) && WellKeyed(Obj(ms))
    requires ParseToml(Document(ms)).Some? && Same(Obj(ParseToml(Document(ms)).value), Obj(ms))
    ensures AllBare(ms)
  {
    var read := ParseToml(Document(ms)).value;
    ReadIsTidy(Document(ms));
    SameIffOneNorm(Obj(read), Obj(ms));
    NormalisingCosts(Obj(read));
    NormalisingCosts(Obj(ms));
    ReadingGainsNoWeight(Document(ms));
    DocumentsWeigh(ms);
    BareKeysCostNothing(ms);
  }
}
