/** A rendered `Prover.toml` reads back as the inputs it was rendered from,
    exactly when its keys are bare and its integers are TOML integers. */
module TomlRoundTrip {
  import opened Basics
  import opened Text
  import opened Json
  import opened Toml
  import opened TomlReader
  import opened TomlWeight

  /** What may follow a value: the end of its line, or more of its array. */
  predicate Ends(rest: string) {
    rest != "" && (rest[0] == '\n' || rest[0] == ',' || rest[0] == ']')
  }

  // --- strings ------------------------------------------------------------------

  lemma EscapedCharReadsBack(c: char, rest: string)
    ensures var text := EscapeTomlChar(c) + rest;
      && text != "" && text[0] != '"' && text[0] as int >= 0x20 && text[0] as int != 0x7f
      && (if text[0] == '\\' then ParseTomlEscape(text[1..]) == Some((c, rest)) else text[0] == c && text[1..] == rest)
  {
    var text := EscapeTomlChar(c) + rest;
    if |EscapeTomlChar(c)| == 6 {
      HexReadsBack(c as int / 16);
      HexReadsBack(c as int % 16);
      var tail := text[1..][1..];
      assert tail[0] == '0' && tail[1] == '0';
      assert tail[2] == HexUpper(c as int / 16) && tail[3] == HexUpper(c as int % 16);
      assert Hex4(tail) == Some(c as int);
      assert text[1..][5..] == rest;
    } else {
      assert |EscapeTomlChar(c)| == 2 ==> text[1..][1..] == rest;
      assert |EscapeTomlChar(c)| == 1 ==> text[1..] == rest;
    }
  }

  lemma {:induction false} EscapedReadsBack(s: string, rest: string)
    ensures ParseBasic(EscapeToml(s) + "\"" + rest) == Some((s, rest))
  {
    var text := EscapeToml(s) + "\"" + rest;
    if s == "" {
      assert text == "\"" + rest;
    } else {
      var after := EscapeToml(s[1..]) + "\"" + rest;
      assert text == EscapeTomlChar(s[0]) + after;
      EscapedCharReadsBack(s[0], after);
      EscapedReadsBack(s[1..], rest);
      assert s == [s[0]] + s[1..];
    }
  }

  /** No string opens a multi-line one. */
  lemma QuotedHead(s: string, rest: string)
    requires Ends(rest)
    ensures var text := QuoteToml(s) + rest;
      && |text| >= 3 && text[0] == '"' && text[1..] == EscapeToml(s) + "\"" + rest
      && !(text[1] == '"' && text[2] == '"')
  {
    var text := QuoteToml(s) + rest;
    assert text[1..] == EscapeToml(s) + "\"" + rest;
    if s == "" {
      assert text[2] == rest[0];
    } else {
      EscapedCharReadsBack(s[0], "");
      assert EscapeTomlChar(s[0]) + "" == EscapeTomlChar(s[0]);
      assert text[1] == EscapeTomlChar(s[0])[0];
    }
  }

  lemma TextReadsBack(s: string, rest: string)
    requires Ends(rest)
    ensures ParseTomlValue(QuoteToml(s) + rest) == Some((Str(s), rest))
  {
    QuotedHead(s, rest);
    EscapedReadsBack(s, rest);
  }

  // --- words and numbers ----------------------------------------------------------

  lemma WordReadsBack(b: bool, rest: string)
    ensures ParseTomlValue(ValueText(Bool(b)) + rest) == Some((Bool(b), rest))
  {
    var text := ValueText(Bool(b)) + rest;
    var k := if b then 4 else 5;
    assert text[..k] == ValueText(Bool(b)) && text[k..] == rest;
    assert text[0] == ValueText(Bool(b))[0];
    if !b {
      assert text[..4][0] == 'f';
    }
  }

  /** A run of digits in front of a delimiter. */
  lemma DigitsReadBack(text: string, sign: nat, digits: string, rest: string)
    requires text != "" && sign == (if text[0] == '-' || text[0] == '+' then 1 else 0)
    requires text[sign..] == digits + rest && Ends(rest)
    requires digits != "" && forall i :: 0 <= i < |digits| ==> IsDigit(digits[i])
    requires digits[0] == '0' ==> |digits| == 1
    requires FitsI64(Signed(text[0] == '-', ValueOf(digits)))
    ensures ParseTomlInt(text) == Some((Int(Signed(text[0] == '-', ValueOf(digits))), rest))
  {
    DigitRunStops(digits, rest);
    assert (digits + rest)[..|digits|] == digits && (digits + rest)[|digits|..] == rest;
  }

  lemma NaturalReadsBack(n: nat, rest: string)
    requires FitsI64(n) && Ends(rest)
    ensures var text := Decimal(n) + rest;
      text != "" && IsDigit(text[0]) && ParseTomlInt(text) == Some((Int(n), rest))
  {
    DecimalReadsBack(n);
    DecimalHead(n, rest);
    DigitsReadBack(Decimal(n) + rest, 0, Decimal(n), rest);
  }

  lemma NegativeReadsBack(n: int, rest: string)
    requires n < 0 && FitsI64(n) && Ends(rest)
    ensures var text := "-" + Decimal(-n) + rest;
      text != "" && text[0] == '-' && ParseTomlInt(text) == Some((Int(n), rest))
  {
    DecimalReadsBack(-n);
    DropsSign(Decimal(-n), rest);
    DigitsReadBack("-" + Decimal(-n) + rest, 1, Decimal(-n), rest);
  }

  lemma IntReadsBack(n: int, rest: string)
    requires FitsI64(n) && Ends(rest)
    ensures var text := Integer(n) + rest;
      && text != "" && (IsDigit(text[0]) || text[0] == '-') && ParseTomlInt(text) == Some((Int(n), rest))
  {
    if n < 0 {
      NegativeReadsBack(n, rest);
    } else {
      NaturalReadsBack(n, rest);
    }
  }

  lemma NumberReadsBack(n: int, rest: string)
    requires FitsI64(n) && Ends(rest)
    ensures ParseTomlValue(Integer(n) + rest) == Some((Int(n), rest))
  {
    IntReadsBack(n, rest);
    var text := Integer(n) + rest;
    assert |text| >= 4 ==> text[..4][0] == text[0];
    assert |text| >= 5 ==> text[..5][0] == text[0];
    assert "true"[0] == 't' && "false"[0] == 'f';
  }

  // --- arrays ----------------------------------------------------------------------

  lemma LinesAreAbsent(s: string)
    requires s != "" && !IsBlankOrNewline(s[0]) && s[0] != '#'
    ensures SkipLines(s) == s
  {
  }

  /** How a value in an array begins. */
  predicate StartsItem(c: char) {
    !IsBlankOrNewline(c) && c != '#' && c != ']'
  }

  lemma RenderedHead(v: Json)
    requires Supported(v)
    ensures ValueText(v) != "" && StartsItem(ValueText(v)[0])
  {
    match v
    case Int(n) =>
      DecimalReadsBack(if n < 0 then -n else n);
      assert IsDigit(Decimal(if n < 0 then -n else n)[0]);
    case _ =>
  }

  lemma EmptyReadsBack(rest: string)
    ensures ParseTomlValue("[]" + rest) == Some((Arr([]), rest))
  {
    var text := "[]" + rest;
    assert text[0] == '[' && text[1..] == "]" + rest;
    LinesAreAbsent(text[1..]);
    assert text[1..][1..] == rest;
  }

  lemma BracketReadsBack(body: string, items: seq<Json>, rest: string)
    requires body != "" && StartsItem(body[0])
    requires ParseTomlItems(body) == Some((items, rest))
    ensures ParseTomlValue("[" + body) == Some((Arr(items), rest))
  {
    var text := "[" + body;
    assert text[0] == '[' && text[1..] == body;
    LinesAreAbsent(body);
  }

  /** What follows the first item. */
  function AfterItem(items: seq<Json>, rest: string): string
    requires items != []
  {
    if |items| == 1 then "]" + rest else ", " + (ItemsText(items[1..]) + "]" + rest)
  }

  lemma ItemsSplit(items: seq<Json>, rest: string)
    requires items != []
    ensures ItemsText(items) + "]" + rest == ValueText(items[0]) + AfterItem(items, rest)
  {
    RegroupList(ValueText(items[0]), ", ", if |items| == 1 then "" else ItemsText(items[1..]), "]", rest);
  }

  lemma LastItemReadsBack(item: Json, rest: string, text: string)
    requires ParseTomlValue(text) == Some((item, "]" + rest))
    ensures ParseTomlItems(text) == Some(([item], rest))
  {
    LinesAreAbsent("]" + rest);
    assert ("]" + rest)[1..] == rest;
  }

  lemma CommaIsSkipped(more: string)
    requires more != "" && StartsItem(more[0])
    ensures var after := ", " + more;
      SkipLines(after) == after && after != "" && after[0] == ',' && SkipLines(after[1..]) == more
  {
    var after := ", " + more;
    LinesAreAbsent(after);
    assert after[1..] == " " + more && after[1..][1..] == more;
    LinesAreAbsent(more);
  }

  lemma NextItemReadsBack(item: Json, more: string, text: string, items: seq<Json>, rest: string)
    requires ParseTomlValue(text) == Some((item, ", " + more))
    requires more != "" && StartsItem(more[0])
    requires ParseTomlItems(more) == Some((items, rest))
    ensures ParseTomlItems(text) == Some(([item] + items, rest))
  {
    CommaIsSkipped(more);
  }

  lemma ItemsHead(items: seq<Json>, rest: string)
    requires items != [] && Supported(items[0])
    ensures var body := ItemsText(items) + "]" + rest;
      body != "" && StartsItem(body[0])
  {
    RenderedHead(items[0]);
  }

  /** The first item, given that it and the items after it are read back. */
  lemma MoreItemsReadBack(items: seq<Json>, rest: string, text: string, more: string)
    requires |items| > 1 && more != "" && StartsItem(more[0])
    requires ParseTomlValue(text) == Some((items[0], ", " + more))
    requires ParseTomlItems(more) == Some((items[1..], rest))
    ensures ParseTomlItems(text) == Some((items, rest))
  {
    NextItemReadsBack(items[0], more, text, items[1..], rest);
    assert items == [items[0]] + items[1..];
  }

  lemma {:induction false} ItemsReadBack(items: seq<Json>, rest: string)
    requires items != [] && forall i :: 0 <= i < |items| ==> Supported(items[i]) && IntsFit(items[i])
    ensures ParseTomlItems(ItemsText(items) + "]" + rest) == Some((items, rest))
    decreases items, 0
  {
    ValueReadsBack(items[0], AfterItem(items, rest));
    ItemsSplit(items, rest);
    if |items| == 1 {
      LastItemReadsBack(items[0], rest, ItemsText(items) + "]" + rest);
      assert items == [items[0]];
    } else {
      ItemsReadBack(items[1..], rest);
      ItemsHead(items[1..], rest);
      MoreItemsReadBack(items, rest, ItemsText(items) + "]" + rest, ItemsText(items[1..]) + "]" + rest);
    }
  }

  /** Whatever value is rendered, in front of what may follow one, is read back whole. */
  lemma {:induction false} ValueReadsBack(v: Json, rest: string)
    requires Supported(v) && IntsFit(v) && Ends(rest)
    ensures ParseTomlValue(ValueText(v) + rest) == Some((v, rest))
    decreases v, 1
  {
    match v
    case Bool(b) => WordReadsBack(b, rest);
    case Int(n) => NumberReadsBack(n, rest);
    case Str(s) => TextReadsBack(s, rest);
    case Arr(items) =>
      if items == [] {
        EmptyReadsBack(rest);
        assert ValueText(v) == "[]";
      } else {
        ItemsReadBack(items, rest);
        ItemsHead(items, rest);
        BracketReadsBack(ItemsText(items) + "]" + rest, items, rest);
        assert ValueText(v) + rest == "[" + (ItemsText(items) + "]" + rest);
      }
  }

  // --- lines ----------------------------------------------------------------------

  lemma {:induction false} KeyRunStops(key: string, rest: string)
    requires forall i :: 0 <= i < |key| ==> IsBare(key[i])
    requires rest != "" && !IsBare(rest[0])
    ensures KeyRun(key + rest) == |key|
  {
    if key == "" {
      assert key + rest == rest;
    } else {
      assert (key + rest)[1..] == key[1..] + rest;
      KeyRunStops(key[1..], rest);
    }
  }

  lemma RegroupLine(key: string, value: string, rest: string)
    ensures (key + " = " + value + "\n") + rest == key + (" = " + (value + ("\n" + rest)))
  {
  }

  lemma SkipsToEquals(value: string)
    requires value != "" && !IsBlank(value[0])
    ensures var t := " = " + value; SkipBlank(t)[0..] == "= " + value && SkipBlank(SkipBlank(t)[1..]) == value
  {
    var t := " = " + value;
    assert t[1..] == "= " + value;
    assert ("= " + value)[1..] == " " + value;
    assert (" " + value)[1..] == value;
  }

  /** A bare key, in front of what cannot continue it. */
  lemma KeyReadsBack(key: string, rest: string)
    requires BareKey(key) && rest != "" && !IsBare(rest[0])
    requires SkipBlank(rest) != "" && SkipBlank(rest)[0] != '.'
    ensures ParseKey(key + rest) == Some(([key], SkipBlank(rest)))
  {
    var text := key + rest;
    KeyRunStops(key, rest);
    assert text[0] == key[0] && IsBare(key[0]);
    assert text[..|key|] == key && text[|key|..] == rest;
  }

  function Flat(m: Member): Field {
    Field([m.key], m.value)
  }

  function FlatAll(ms: seq<Member>): (fs: seq<Field>)
    ensures |fs| == |ms| && forall i :: 0 <= i < |ms| ==> fs[i] == Flat(ms[i])
  {
    if ms == [] then [] else [Flat(ms[0])] + FlatAll(ms[1..])
  }

  lemma LineReadsBack(m: Member, rest: string)
    requires BareKey(m.key) && Supported(m.value) && IntsFit(m.value)
    ensures ParseField(Line(m) + rest) == Some((Flat(m), rest))
  {
    var value := ValueText(m.value) + ("\n" + rest);
    RegroupLine(m.key, ValueText(m.value), rest);
    RenderedHead(m.value);
    SkipsToEquals(value);
    KeyReadsBack(m.key, " = " + value);
    ValueReadsBack(m.value, "\n" + rest);
    assert ("\n" + rest)[1..] == rest;
  }

  lemma LineHead(m: Member, rest: string)
    requires BareKey(m.key)
    ensures var text := Line(m) + rest;
      text != "" && !IsBlankOrNewline(text[0]) && text[0] != '[' && text[0] != '#'
  {
    assert (Line(m) + rest)[0] == m.key[0] && IsBare(m.key[0]);
  }

  /** Lines end at the end of the text or at a table header. */
  predicate EndsLines(rest: string) {
    rest == "" || (|rest| >= 2 && rest[0] == '\n' && rest[1] == '[')
  }

  /** Past the blank line before a header. */
  function AtHeader(rest: string): string {
    if rest == "" then "" else rest[1..]
  }

  predicate GoodFields(ms: seq<Member>) {
    forall i :: 0 <= i < |ms| ==> BareKey(ms[i].key) && Supported(ms[i].value) && IntsFit(ms[i].value)
  }

  /** One line, then the lines after it. */
  lemma NextLineReadsBack(f: Field, more: string, text: string)
    requires text != "" && !IsBlankOrNewline(text[0]) && text[0] != '[' && text[0] != '#'
    requires ParseField(text) == Some((f, more)) && ParseFields(more).Some?
    ensures ParseFields(text) == Some(([f] + ParseFields(more).value.0, ParseFields(more).value.1))
  {
    LinesAreAbsent(text);
  }

  lemma NoLinesReadBack(rest: string)
    requires EndsLines(rest)
    ensures ParseFields(rest) == Some(([], AtHeader(rest)))
  {
    if rest != "" {
      LinesAreAbsent(rest[1..]);
    }
  }

  lemma RegroupLines(line: string, lines: string, rest: string)
    ensures (line + lines) + rest == line + (lines + rest)
  {
  }

  lemma {:induction false} LinesReadBack(ms: seq<Member>, rest: string)
    requires GoodFields(ms) && EndsLines(rest)
    ensures ParseFields(Lines(ms) + rest) == Some((FlatAll(ms), AtHeader(rest)))
  {
    if ms == [] {
      NoLinesReadBack(rest);
      assert "" + rest == rest;
    } else {
      var more := Lines(ms[1..]) + rest;
      LinesReadBack(ms[1..], rest);
      LineHead(ms[0], more);
      LineReadsBack(ms[0], more);
      NextLineReadsBack(Flat(ms[0]), more, Line(ms[0]) + more);
      RegroupLines(Line(ms[0]), Lines(ms[1..]), rest);
    }
  }

  // --- tables ----------------------------------------------------------------------

  predicate GoodTables(ms: seq<Member>) {
    forall i :: 0 <= i < |ms| ==>
      ms[i].value.Obj? && BareKey(ms[i].key) && GoodFields(ms[i].value.members) && DistinctKeys(ms[i].value.members)
  }

  function FlatTable(m: Member): Table
    requires m.value.Obj?
  {
    Table([m.key], FlatAll(m.value.members))
  }

  function FlatTables(ms: seq<Member>): (ts: seq<Table>)
    requires forall i :: 0 <= i < |ms| ==> ms[i].value.Obj?
    ensures |ts| == |ms| && forall i :: 0 <= i < |ms| ==> ts[i] == FlatTable(ms[i])
  {
    if ms == [] then [] else [FlatTable(ms[0])] + FlatTables(ms[1..])
  }

  lemma TablesEndLines(ms: seq<Member>)
    requires GoodTables(ms)
    ensures EndsLines(TablesText(ms))
  {
  }

  lemma RegroupTable(key: string, lines: string, rest: string)
    ensures (("\n[" + key + "]\n" + lines) + rest)[1..] == "[" + (key + ("]\n" + (lines + rest)))
  {
  }

  lemma HeaderReadsBack(key: string, body: string)
    requires BareKey(key)
    ensures ParseHeader("[" + (key + ("]\n" + body))) == Some(([key], body))
  {
    var closing := "]\n" + body;
    var text := "[" + (key + closing);
    assert text[0] == '[' && text[1..] == key + closing;
    assert (key + closing)[0] == key[0] && IsBare(key[0]);
    assert SkipBlank(closing) == closing;
    KeyReadsBack(key, closing);
    assert closing[1..] == "\n" + body && ("\n" + body)[1..] == body;
  }

  /** One table: its header, its lines, then whatever follows. */
  lemma TableReadsBack(text: string, path: seq<string>, body: string, fields: seq<Field>, rest: string)
    requires ParseHeader(text) == Some((path, body)) && ParseFields(body) == Some((fields, rest))
    requires ParseTables(rest).Some?
    ensures ParseTables(text) == Some([Table(path, fields)] + ParseTables(rest).value)
  {
  }

  lemma {:induction false} TablesReadBack(ms: seq<Member>)
    requires GoodTables(ms)
    ensures ParseTables(AtHeader(TablesText(ms))) == Some(FlatTables(ms))
  {
    if ms != [] {
      var m := ms[0];
      var more := TablesText(ms[1..]);
      var body := Lines(m.value.members) + more;
      TablesEndLines(ms[1..]);
      TablesReadBack(ms[1..]);
      RegroupTable(m.key, Lines(m.value.members), more);
      LinesReadBack(m.value.members, more);
      HeaderReadsBack(m.key, body);
      TableReadsBack("[" + (m.key + ("]\n" + body)), [m.key], body, FlatAll(m.value.members), AtHeader(more));
    }
  }

  // --- the tree ---------------------------------------------------------------------

  lemma AppendsFresh(ms: seq<Member>, m: Member)
    requires forall i :: 0 <= i < |ms| ==> ms[i].key != m.key
    ensures Find(ms, m.key).None? && Place(ms, [m.key], m.value) == Some(ms + [m])
  {
  }

  lemma {:induction false} FieldsArePlaced(ms: seq<Member>, more: seq<Member>)
    requires DistinctKeys(ms + more) && forall i :: 0 <= i < |more| ==> Plain(more[i].value)
    ensures PlaceAll(ms, FlatAll(more)) == Some(ms + more)
    decreases |more|
  {
    if more == [] {
      assert ms + more == ms;
    } else {
      forall i | 0 <= i < |ms|
        ensures ms[i].key != more[0].key
      {
        assert (ms + more)[i] == ms[i] && (ms + more)[|ms|] == more[0];
      }
      AppendsFresh(ms, more[0]);
      assert (ms + [more[0]]) + more[1..] == ms + more;
      FieldsArePlaced(ms + [more[0]], more[1..]);
    }
  }

  predicate PlainTables(ms: seq<Member>) {
    forall i :: 0 <= i < |ms| ==> ms[i].value.Obj? && PlainTable(ms[i])
  }

  predicate PlainTable(m: Member)
    requires m.value.Obj?
  {
    DistinctKeys(m.value.members) && forall k :: 0 <= k < |m.value.members| ==> Plain(m.value.members[k].value)
  }

  lemma TableIsEntered(ms: seq<Member>, m: Member)
    requires m.value.Obj? && PlainTable(m)
    requires forall i :: 0 <= i < |ms| ==> ms[i].key != m.key
    ensures Enter(ms, [m.key], FlatAll(m.value.members)) == Some(ms + [m])
  {
    FieldsArePlaced([], m.value.members);
    assert [] + m.value.members == m.value.members;
    assert [m.key][1..] == [] && m == Member(m.key, Obj(m.value.members));
  }

  lemma {:induction false} TablesArePlaced(ms: seq<Member>, more: seq<Member>)
    requires DistinctKeys(ms + more) && PlainTables(more)
    ensures PlaceTables(ms, FlatTables(more)) == Some(ms + more)
    decreases |more|
  {
    if more == [] {
      assert ms + more == ms;
    } else {
      forall i | 0 <= i < |ms|
        ensures ms[i].key != more[0].key
      {
        assert (ms + more)[i] == ms[i] && (ms + more)[|ms|] == more[0];
      }
      TableIsEntered(ms, more[0]);
      assert (ms + [more[0]]) + more[1..] == ms + more;
      TablesArePlaced(ms + [more[0]], more[1..]);
    }
  }

  // --- the law ----------------------------------------------------------------------

  /** Bare keys at both levels, and integers TOML promises to carry. */
  predicate CleanMember(m: Member) {
    && BareKey(m.key) && IntsFit(m.value)
    && (m.value.Obj? ==> forall i :: 0 <= i < |m.value.members| ==> BareKey(m.value.members[i].key))
  }

  predicate AllClean(ms: seq<Member>) {
    forall i :: 0 <= i < |ms| ==> CleanMember(ms[i])
  }

  lemma CleanParts(ms: seq<Member>)
    requires AllClean(ms) && Renderable(Obj(ms)) && WellKeyed(Obj(ms))
    ensures GoodFields(Scalars(ms)) && GoodTables(Tables(ms))
  {
    forall i | 0 <= i < |Scalars(ms)|
      ensures CleanMember(Scalars(ms)[i]) && Supported(Scalars(ms)[i].value)
    {
      var m := Scalars(ms)[i];
      assert m in Scalars(ms);
      var j :| 0 <= j < |ms| && ms[j] == m;
      assert SupportedField(ms[j]);
    }
    forall i | 0 <= i < |Tables(ms)|
      ensures CleanMember(Tables(ms)[i]) && SupportedField(Tables(ms)[i]) && DistinctKeys(Tables(ms)[i].value.members)
    {
      var m := Tables(ms)[i];
      assert m in Tables(ms);
      var j :| 0 <= j < |ms| && ms[j] == m;
      assert SupportedField(ms[j]) && WellKeyed(ms[j].value);
    }
  }

  lemma {:induction false} PartsAreDistinct(ms: seq<Member>)
    requires DistinctKeys(ms)
    ensures DistinctKeys(Scalars(ms)) && DistinctKeys(Tables(ms)) && DistinctKeys(Scalars(ms) + Tables(ms))
  {
    if ms != [] {
      var prefix, last := ms[..|ms| - 1], ms[|ms| - 1];
      PartsAreDistinct(prefix);
      forall x | x in Scalars(prefix) + Tables(prefix)
        ensures x.key != last.key
      {
        assert x in prefix;
      }
    }
    forall i, j | 0 <= i < |Scalars(ms)| && 0 <= j < |Tables(ms)|
      ensures Scalars(ms)[i].key != Tables(ms)[j].key
    {
      var a, b := Scalars(ms)[i], Tables(ms)[j];
      assert a in ms && b in ms;
    }
  }

  lemma SupportedIsPlain(v: Json)
    requires Supported(v) && IntsFit(v)
    ensures Plain(v)
  {
    SupportedIsWellKeyed(v);
  }

  lemma {:induction false} SupportedIsWellKeyed(v: Json)
    requires Supported(v)
    ensures WellKeyed(v) && !v.Obj?
    decreases v
  {
    if v.Arr? {
      forall i | 0 <= i < |v.items|
        ensures WellKeyed(v.items[i])
      {
        SupportedIsWellKeyed(v.items[i]);
      }
    }
  }

  lemma GoodFieldsArePlain(ms: seq<Member>)
    requires GoodFields(ms)
    ensures forall i :: 0 <= i < |ms| ==> Plain(ms[i].value)
  {
    forall i | 0 <= i < |ms|
      ensures Plain(ms[i].value)
    {
      SupportedIsPlain(ms[i].value);
    }
  }

  lemma GoodTablesArePlain(ms: seq<Member>)
    requires GoodTables(ms)
    ensures PlainTables(ms)
  {
    forall i | 0 <= i < |ms|
      ensures PlainTable(ms[i])
    {
      GoodFieldsArePlain(ms[i].value.members);
    }
  }

  lemma PartsArePlaced(scalars: seq<Member>, tables: seq<Member>)
    requires (forall i :: 0 <= i < |scalars| ==> Plain(scalars[i].value)) && PlainTables(tables)
    requires DistinctKeys(scalars + tables)
    ensures PlaceAll([], FlatAll(scalars)) == Some(scalars)
    ensures PlaceTables(scalars, FlatTables(tables)) == Some(scalars + tables)
  {
    forall i, j | 0 <= i < j < |scalars|
      ensures scalars[i].key != scalars[j].key
    {
      assert (scalars + tables)[i] == scalars[i] && (scalars + tables)[j] == scalars[j];
    }
    assert [] + scalars == scalars;
    FieldsArePlaced([], scalars);
    TablesArePlaced(scalars, tables);
  }

  lemma PartsReadBack(scalars: seq<Member>, tables: seq<Member>)
    requires GoodFields(scalars) && GoodTables(tables) && DistinctKeys(scalars + tables)
    ensures ParseToml(Lines(scalars) + TablesText(tables)) == Some(scalars + tables)
  {
    TablesEndLines(tables);
    LinesReadBack(scalars, TablesText(tables));
    TablesReadBack(tables);
    GoodFieldsArePlain(scalars);
    GoodTablesArePlain(tables);
    PartsArePlaced(scalars, tables);
  }

  /** The exact result of reading a clean document. */
  lemma CleanDocumentsReadBack(ms: seq<Member>)
    requires AllClean(ms) && Renderable(Obj(ms)) && WellKeyed(Obj(ms))
    ensures ParseToml(Document(ms)) == Some(Scalars(ms) + Tables(ms))
  {
    CleanParts(ms);
    PartsAreDistinct(ms);
    PartsReadBack(Scalars(ms), Tables(ms));
  }

  lemma PartsAreTheSame(ms: seq<Member>)
    ensures Same(Obj(Scalars(ms) + Tables(ms)), Obj(ms))
  {
    var parts := Scalars(ms) + Tables(ms);
    forall i | 0 <= i < |parts|
      ensures HasSame(parts[i], ms)
    {
      assert parts[i] in parts && parts[i] in ms;
      NormalisedSame(parts[i].value, parts[i].value);
    }
    forall j | 0 <= j < |ms|
      ensures HasOriginal(parts, ms[j])
    {
      assert ms[j] in ms && ms[j] in parts;
      NormalisedSame(ms[j].value, ms[j].value);
    }
  }

  lemma {:induction false} SameIntsFit(v: Json, w: Json)
    requires Same(v, w) && IntsFit(v)
    ensures IntsFit(w)
    decreases v
  {
    match v
    case Arr(a) =>
      forall i | 0 <= i < |a|
        ensures IntsFit(w.items[i])
      {
        SameIntsFit(a[i], w.items[i]);
      }
    case Obj(a) =>
      forall j | 0 <= j < |w.members|
        ensures IntsFit(w.members[j].value)
      {
        assert HasOriginal(a, w.members[j]);
        var i :| 0 <= i < |a| && a[i].key == w.members[j].key && Same(a[i].value, w.members[j].value);
        SameIntsFit(a[i].value, w.members[j].value);
      }
    case _ =>
  }

  /** Reading the rendered document gives the inputs back, up to member order. */
  ghost predicate RoundTrips(ms: seq<Member>) {
    var read := ParseToml(Document(ms));
    read.Some? && Same(Obj(read.value), Obj(ms))
  }

  lemma RoundTripsAreClean(ms: seq<Member>)
    requires Renderable(Obj(ms)) && WellKeyed(Obj(ms)) && RoundTrips(ms)
    ensures AllClean(ms)
  {
    ReadIsTidy(Document(ms));
    SameIntsFit(Obj(ParseToml(Document(ms)).value), Obj(ms));
    OnlyBareKeysComeBack(ms);
  }

  /** A key that spells a whole field, a newline, and the key of the next. */
  function Forged(k1: string, v1: Json, k2: string): string {
    k1 + " = " + ValueText(v1) + "\n" + k2
  }

  lemma ForgedLine(k1: string, v1: Json, k2: string, v2: Json)
    ensures Line(Member(Forged(k1, v1, k2), v2)) == Line(Member(k1, v1)) + Line(Member(k2, v2))
  {
  }

  /** MAIN. Why keys must be bare, whoever reads the document: a key is written as
      it is, so one that spells a field and a newline renders as two fields, and
      no reader of any kind can give both inputs back. */
  lemma ForgedKeysInjectFields(k1: string, v1: Json, k2: string, v2: Json, read: string -> Option<seq<Member>>)
    requires Supported(v1) && Supported(v2)
    ensures var forged, honest := [Member(Forged(k1, v1, k2), v2)], [Member(k1, v1), Member(k2, v2)];
      && Renderable(Obj(forged)) && Renderable(Obj(honest))
      && Document(forged) == Document(honest)
      && !(read(Document(forged)) == Some(forged) && read(Document(honest)) == Some(honest))
  {
    var m, a, b := Member(Forged(k1, v1, k2), v2), Member(k1, v1), Member(k2, v2);
    ScalarOnly(m);
    SplitTwo(a, b);
    ForgedLine(k1, v1, k2, v2);
    assert SupportedField(m) && SupportedField(a) && SupportedField(b);
    assert |[m]| != |[a, b]|;
  }

  lemma ScalarOnly(m: Member)
    requires !m.value.Obj?
    ensures Scalars([m]) == [m] && Tables([m]) == [] && Lines([m]) == Line(m) && Document([m]) == Line(m)
  {
    assert [m][..0] == [];
    assert Lines([m]) == Line(m) + "";
  }

  lemma SplitTwo(a: Member, b: Member)
    requires !a.value.Obj? && !b.value.Obj?
    ensures Document([a, b]) == Line(a) + Line(b)
  {
    assert [a, b] == [a] + [b] && [a, b][..1] == [a];
    ScalarOnly(a);
    LinesAppend([a], b);
  }

  /** MAIN. A document reads back as the inputs it was rendered from exactly when
      every key is bare and every integer is within TOML's range, though the reader
      takes quoted keys, dotted keys and comments, and keys are written with
      whatever they hold. So no scalar is captured by a table, and no string,
      whatever it holds, ends early. */
  lemma DocumentsReadBackWhenClean(ms: seq<Member>)
    requires Renderable(Obj(ms)) && WellKeyed(Obj(ms))
    ensures RoundTrips(ms) <==> AllClean(ms)
  {
    if AllClean(ms) {
      CleanDocumentsReadBack(ms);
      PartsAreTheSame(ms);
    }
    if RoundTrips(ms) {
      RoundTripsAreClean(ms);
    }
  }
}
