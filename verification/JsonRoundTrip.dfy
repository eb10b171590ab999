/** Canonical text is uniquely decodable: the reader returns exactly the value
    printed, with its members sorted. */
module JsonRoundTrip {
  import opened Basics
  import opened Text
  import opened Json
  import opened JsonParser

  /** What may follow a value inside canonical text. A number must not run on. */
  predicate Delimited(rest: string) {
    rest == "" || rest[0] == ',' || rest[0] == ']' || rest[0] == '}'
  }

  lemma WsIsAbsent(s: string)
    requires s != "" && !IsWs(s[0])
    ensures SkipWs(s) == s
  {
  }

  // --- strings -----------------------------------------------------------------

  lemma EscapedCharReadsBack(c: char, rest: string)
    ensures var text := EscapeChar(c) + rest;
      && text != "" && text[0] != '"' && text[0] as int >= 0x20
      && (if text[0] == '\\' then ParseEscape(text[1..]) == Some((c, rest)) else text[0] == c && text[1..] == rest)
  {
    var text := EscapeChar(c) + rest;
    if (c as int) < 0x20 && |EscapeChar(c)| == 6 {
      HexReadsBack(c as int / 16);
      HexReadsBack(c as int % 16);
      var tail := text[1..][1..];
      assert tail[0] == '0' && tail[1] == '0';
      assert tail[2] == HexLower(c as int / 16) && tail[3] == HexLower(c as int % 16);
      assert Hex4(tail) == Some(c as int);
      assert tail[4..] == rest;
    } else {
      assert |EscapeChar(c)| == 2 ==> text[1..][1..] == rest;
      assert |EscapeChar(c)| == 1 ==> text[1..] == rest;
    }
  }

  lemma {:induction false} EscapedReadsBack(s: string, rest: string)
    ensures ParseString(Escape(s) + "\"" + rest) == Some((s, rest))
  {
    var text := Escape(s) + "\"" + rest;
    if s == "" {
      assert text == "\"" + rest;
    } else {
      var after := Escape(s[1..]) + "\"" + rest;
      assert text == EscapeChar(s[0]) + after;
      EscapedCharReadsBack(s[0], after);
      EscapedReadsBack(s[1..], rest);
      assert s == [s[0]] + s[1..];
    }
  }

  lemma QuotedReadsBack(s: string, rest: string)
    ensures var text := Quote(s) + rest;
      text != "" && text[0] == '"' && ParseString(text[1..]) == Some((s, rest))
  {
    EscapedReadsBack(s, rest);
    assert (Quote(s) + rest)[1..] == Escape(s) + "\"" + rest;
  }

  // --- numbers -----------------------------------------------------------------

  lemma NumberRunStops(digits: string, rest: string)
    requires digits != "" && forall i :: 0 <= i < |digits| ==> IsDigit(digits[i])
    requires (digits[0] == '0' ==> |digits| == 1) && Delimited(rest)
    ensures NumberRun(digits + rest) == Some((|digits|, 0))
  {
    DigitRunStops(digits, rest);
    assert (digits + rest)[|digits|..] == rest;
    assert FractionRun(rest) == Some(0) && ExponentRun(rest) == Some(0);
  }

  /** A run of digits that is not continued is an integer. */
  lemma DigitsReadBack(text: string, sign: nat, digits: string, rest: string)
    requires text != "" && sign == (if text[0] == '-' then 1 else 0)
    requires text[sign..] == digits + rest && Delimited(rest)
    requires digits != "" && forall i :: 0 <= i < |digits| ==> IsDigit(digits[i])
    requires digits[0] == '0' ==> |digits| == 1
    requires var n := Signed(sign == 1, ValueOf(digits)); (FitsU64(n) || FitsI64(n)) && (sign == 1 ==> n != 0)
    ensures ParseNumber(text) == Some((Int(Signed(sign == 1, ValueOf(digits))), rest))
  {
    NumberRunStops(digits, rest);
    assert (digits + rest)[..|digits|] == digits && (digits + rest)[|digits| + 0..] == rest;
  }

  lemma NaturalReadsBack(n: nat, rest: string)
    requires FitsU64(n) && Delimited(rest)
    ensures var text := Decimal(n) + rest;
      text != "" && IsDigit(text[0]) && ParseNumber(text) == Some((Int(n), rest))
  {
    DecimalReadsBack(n);
    DecimalHead(n, rest);
    DigitsReadBack(Decimal(n) + rest, 0, Decimal(n), rest);
  }

  lemma NegativeReadsBack(n: int, rest: string)
    requires n < 0 && FitsI64(n) && Delimited(rest)
    ensures var text := "-" + Decimal(-n) + rest;
      text != "" && text[0] == '-' && ParseNumber(text) == Some((Int(n), rest))
  {
    DecimalReadsBack(-n);
    DropsSign(Decimal(-n), rest);
    DigitsReadBack("-" + Decimal(-n) + rest, 1, Decimal(-n), rest);
  }

  lemma IntegerReadsBack(n: int, rest: string)
    requires FitsU64(n) || FitsI64(n)
    requires Delimited(rest)
    ensures var text := Integer(n) + rest;
      && text != "" && (text[0] == '-' || IsDigit(text[0]))
      && ParseNumber(text) == Some((Int(n), rest))
  {
    if n < 0 {
      NegativeReadsBack(n, rest);
    } else {
      NaturalReadsBack(n, rest);
    }
  }

  // --- how texts begin -----------------------------------------------------------

  lemma PrintedHead(v: Json)
    requires NoFloat(v)
    ensures Print(v) != "" && !IsWs(Print(v)[0]) && Print(v)[0] != ']' && Print(v)[0] != '}'
  {
    match v
    case Int(n) =>
      DecimalReadsBack(if n < 0 then -n else n);
    case _ =>
  }

  // --- values --------------------------------------------------------------------

  lemma WordReadsBack(v: Json, rest: string)
    requires v.Null? || v.Bool?
    ensures ParseValue(Print(v) + rest) == Some((v, rest))
  {
    var text := Print(v) + rest;
    WsIsAbsent(text);
    var k := |Print(v)|;
    assert text[..k] == Print(v) && text[k..] == rest;
    assert text[0] == Print(v)[0];
    assert StartsWith(text, Print(v));
  }

  lemma NumberReadsBack(n: int, rest: string)
    requires (FitsU64(n) || FitsI64(n)) && Delimited(rest)
    ensures ParseValue(Integer(n) + rest) == Some((Int(n), rest))
  {
    IntegerReadsBack(n, rest);
    var text := Integer(n) + rest;
    WsIsAbsent(text);
    assert !StartsWith(text, "null") && !StartsWith(text, "true") && !StartsWith(text, "false") by {
      assert "null"[0] == 'n' && "true"[0] == 't' && "false"[0] == 'f';
      assert forall word: string :: StartsWith(text, word) && word != "" ==> text[..|word|][0] == word[0] == text[0];
    }
  }

  lemma EmptyReadsBack(rest: string)
    ensures ParseValue("[]" + rest) == Some((Arr([]), rest))
    ensures ParseValue("{}" + rest) == Some((Obj([]), rest))
  {
    var a, o := "[]" + rest, "{}" + rest;
    assert a[0] == '[' && a[1] == ']' && o[0] == '{' && o[1] == '}';
    assert a[1..][1..] == rest && o[1..][1..] == rest;
  }

  lemma ArrayReadsBack(items: seq<Json>, rest: string)
    requires items != [] && NoFloat(items[0])
    requires ParseItems(PrintItems(items) + "]" + rest) == Some((items, rest))
    ensures ParseValue(Print(Arr(items)) + rest) == Some((Arr(items), rest))
  {
    var text := Print(Arr(items)) + rest;
    assert text[0] == '[';
    assert text[1..] == PrintItems(items) + "]" + rest;
    ItemsHead(items, rest);
    WsIsAbsent(text[1..]);
  }

  lemma BraceReadsBack(body: string, ms: seq<Member>, rest: string)
    requires body != "" && body[0] == '"'
    requires ParseMembers(body) == Some((ms, rest))
    ensures ParseValue("{" + body) == Some((Obj(ms), rest))
  {
    var text := "{" + body;
    assert text[0] == '{' && text[1..] == body;
    WsIsAbsent(text);
    WsIsAbsent(body);
  }

  lemma ObjectText(ms: seq<Member>, rest: string)
    ensures Print(Obj(ms)) + rest == "{" + (PrintMembers(ms) + "}" + rest)
  {
  }

  lemma TextReadsBack(s: string, rest: string)
    ensures ParseValue(Quote(s) + rest) == Some((Str(s), rest))
  {
    QuotedReadsBack(s, rest);
    WsIsAbsent(Quote(s) + rest);
  }

  /** Whatever value is printed, in front of a delimiter, is read back whole. */
  lemma {:induction false} PrintedReadsBack(v: Json, rest: string)
    requires NoFloat(v) && Delimited(rest)
    ensures ParseValue(Print(v) + rest) == Some((v, rest))
    decreases v, 1
  {
    match v
    case Null => WordReadsBack(v, rest);
    case Bool(_) => WordReadsBack(v, rest);
    case Int(n) => NumberReadsBack(n, rest);
    case Str(s) => TextReadsBack(s, rest);
    case Arr(items) =>
      if items == [] {
        EmptyReadsBack(rest);
      } else {
        ItemsReadBack(items, rest);
        ArrayReadsBack(items, rest);
      }
    case Obj(members) =>
      if members == [] {
        EmptyReadsBack(rest);
      } else {
        MembersReadBack(members, rest);
        ObjectText(members, rest);
        MembersHead(members, rest);
        BraceReadsBack(PrintMembers(members) + "}" + rest, members, rest);
      }
  }

  lemma ItemsHead(items: seq<Json>, rest: string)
    requires items != [] && NoFloat(items[0])
    ensures var text := PrintItems(items) + "]" + rest;
      text != "" && !IsWs(text[0]) && text[0] != ']'
  {
    PrintedHead(items[0]);
  }

  lemma MembersHead(ms: seq<Member>, rest: string)
    requires ms != []
    ensures var text := PrintMembers(ms) + "}" + rest;
      text != "" && text[0] == '"'
  {
  }

  /** What follows the first item. */
  function AfterItem(items: seq<Json>, rest: string): string
    requires items != []
  {
    if |items| == 1 then "]" + rest else "," + (PrintItems(items[1..]) + "]" + rest)
  }

  lemma ItemsText(items: seq<Json>, rest: string)
    requires items != []
    ensures PrintItems(items) + "]" + rest == Print(items[0]) + AfterItem(items, rest)
  {
    RegroupList(Print(items[0]), ",", if |items| == 1 then "" else PrintItems(items[1..]), "]", rest);
  }

  /** One item, then whatever follows it. */
  lemma ItemReadsBack(item: Json, after: string, text: string)
    requires ParseValue(text) == Some((item, after))
    requires after != "" && !IsWs(after[0])
    ensures after[0] == ']' ==> ParseItems(text) == Some(([item], after[1..]))
    ensures after[0] == ',' && ParseItems(after[1..]).Some? ==>
      ParseItems(text) == Some(([item] + ParseItems(after[1..]).value.0, ParseItems(after[1..]).value.1))
  {
    WsIsAbsent(after);
  }

  lemma {:induction false} ItemsReadBack(items: seq<Json>, rest: string)
    requires items != [] && forall i :: 0 <= i < |items| ==> NoFloat(items[i])
    ensures ParseItems(PrintItems(items) + "]" + rest) == Some((items, rest))
    decreases items, 0
  {
    var after := AfterItem(items, rest);
    ItemsText(items, rest);
    PrintedReadsBack(items[0], after);
    ItemReadsBack(items[0], after, Print(items[0]) + after);
    if |items| == 1 {
      assert after[1..] == rest && items == [items[0]];
    } else {
      assert after[1..] == PrintItems(items[1..]) + "]" + rest;
      ItemsReadBack(items[1..], rest);
      assert items == [items[0]] + items[1..];
    }
  }

  lemma KeyReadsBack(key: string, rest: string)
    ensures ParseKey(Quote(key) + ":" + rest) == Some((key, rest))
  {
    var text := Quote(key) + ":" + rest;
    assert text == Quote(key) + (":" + rest);
    QuotedReadsBack(key, ":" + rest);
    WsIsAbsent(text);
    WsIsAbsent(":" + rest);
    assert (":" + rest)[1..] == rest;
  }

  /** One member, then whatever follows its value. */
  lemma MemberReadsBack(m: Member, after: string, text: string)
    requires text == Quote(m.key) + ":" + (Print(m.value) + after)
    requires ParseValue(Print(m.value) + after) == Some((m.value, after))
    requires after != "" && !IsWs(after[0])
    ensures after[0] == '}' ==> ParseMembers(text) == Some(([m], after[1..]))
    ensures after[0] == ',' && ParseMembers(after[1..]).Some? ==>
      ParseMembers(text) == Some(([m] + ParseMembers(after[1..]).value.0, ParseMembers(after[1..]).value.1))
  {
    KeyReadsBack(m.key, Print(m.value) + after);
    WsIsAbsent(after);
    assert m == Member(m.key, m.value);
  }

  /** What follows the first member's value. */
  function AfterMember(ms: seq<Member>, rest: string): string
    requires ms != []
  {
    if |ms| == 1 then "}" + rest else "," + (PrintMembers(ms[1..]) + "}" + rest)
  }

  lemma Regroup(key: string, value: string, tail: string, rest: string)
    ensures (key + ":" + value) + "}" + rest == key + ":" + (value + ("}" + rest))
    ensures (key + ":" + value + "," + tail) + "}" + rest == key + ":" + (value + ("," + (tail + "}" + rest)))
  {
  }

  lemma MembersText(ms: seq<Member>, rest: string)
    requires ms != []
    ensures PrintMembers(ms) + "}" + rest == Quote(ms[0].key) + ":" + (Print(ms[0].value) + AfterMember(ms, rest))
  {
    Regroup(Quote(ms[0].key), Print(ms[0].value), if |ms| == 1 then "" else PrintMembers(ms[1..]), rest);
  }

  lemma {:induction false} MembersReadBack(ms: seq<Member>, rest: string)
    requires ms != [] && forall i :: 0 <= i < |ms| ==> NoFloat(ms[i].value)
    ensures ParseMembers(PrintMembers(ms) + "}" + rest) == Some((ms, rest))
    decreases ms, 0
  {
    var after := AfterMember(ms, rest);
    MembersText(ms, rest);
    PrintedReadsBack(ms[0].value, after);
    MemberReadsBack(ms[0], after, PrintMembers(ms) + "}" + rest);
    if |ms| == 1 {
      assert after[1..] == rest && ms == [ms[0]];
    } else {
      assert after[1..] == PrintMembers(ms[1..]) + "}" + rest;
      MembersReadBack(ms[1..], rest);
      assert ms == [ms[0]] + ms[1..];
    }
  }

  // --- the laws --------------------------------------------------------------------

  /** MAIN. Reading canonical text gives the value back with its members sorted,
      and canonicalising what was read gives the same text. */
  lemma CanonicalReadsBack(v: Json)
    requires NoFloat(v) && WellKeyed(v)
    ensures Parse(Canonical(v)) == Some(Norm(v))
    ensures Canonical(Norm(v)) == Canonical(v)
    ensures Same(v, Norm(v))
  {
    NormKeeps(v);
    PrintedReadsBack(Norm(v), "");
    assert Print(Norm(v)) + "" == Print(Norm(v));
    SameIffOneNorm(v, Norm(v));
  }

  /** MAIN. Canonical text is a unique encoding: two accepted inputs have one
      text exactly when they are the same up to member order. */
  lemma CanonicalIsUnique(v: Json, w: Json)
    requires NoFloat(v) && WellKeyed(v) && NoFloat(w) && WellKeyed(w)
    ensures Canonical(v) == Canonical(w) <==> Same(v, w)
  {
    CanonicalReadsBack(v);
    CanonicalReadsBack(w);
    SameIffOneNorm(v, w);
  }
}
