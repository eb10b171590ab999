/** Canonical text holds nothing that can be left out: no space, no longer escape,
    no other spelling of a number. Whatever text reads as the value, up to the
    order of members, is at least as long. */
module JsonShortest {
  import opened Basics
  import opened Text
  import opened Json
  import opened JsonParser
  import opened JsonRoundTrip

  // --- numbers ----------------------------------------------------------------------

  lemma {:induction false} LeadingDigitStays(digits: string)
    requires digits != "" && forall i :: 0 <= i < |digits| ==> IsDigit(digits[i])
    requires digits[0] != '0'
    ensures ValueOf(digits) > 0
  {
    if |digits| > 1 {
      LeadingDigitStays(digits[..|digits| - 1]);
    } else {
      assert digits[..0] == "";
    }
  }

  /** Digits without a leading zero are the decimal text of their value. */
  lemma {:induction false} DigitsAreDecimal(digits: string)
    requires digits != "" && forall i :: 0 <= i < |digits| ==> IsDigit(digits[i])
    requires digits[0] == '0' ==> |digits| == 1
    ensures Decimal(ValueOf(digits)) == digits
  {
    var k := |digits| - 1;
    assert IsDigit(digits[k]) && digits == digits[..k] + [digits[k]];
    if k == 0 {
      assert digits[..0] == "";
    } else {
      DigitsAreDecimal(digits[..k]);
      LeadingDigitStays(digits[..k]);
      assert ValueOf(digits) / 10 == ValueOf(digits[..k]);
    }
  }

  lemma NumbersAreNoShorter(s: string)
    requires s != ""
    ensures ParseNumber(s).Some? ==> |s| >= |Print(ParseNumber(s).value.0)| + |ParseNumber(s).value.1|
  {
    if ParseNumber(s).Some? && ParseNumber(s).value.0.Int? {
      var sign := if s[0] == '-' then 1 else 0;
      var k := DigitRun(s[sign..]);
      assert NumberRun(s[sign..]).value.0 == k;
      DigitsAreDecimal(s[sign..][..k]);
      var n := ParseNumber(s).value.0.n;
      assert |Integer(n)| == sign + k;
    }
  }

  // --- strings ----------------------------------------------------------------------

  lemma EscapesAreNoShorter(s: string)
    ensures ParseEscape(s).Some? ==>
      1 + |s| >= |EscapeChar(ParseEscape(s).value.0)| + |ParseEscape(s).value.1|
  {
  }

  lemma {:induction false} StringsAreNoShorter(s: string)
    ensures ParseString(s).Some? ==> |s| >= |Escape(ParseString(s).value.0)| + 1 + |ParseString(s).value.1|
    decreases |s|
  {
    if ParseString(s).Some? && s[0] != '"' {
      var (c, rest) := if s[0] == '\\' then ParseEscape(s[1..]).value else (s[0], s[1..]);
      StringsAreNoShorter(rest);
      assert ParseString(s).value.0[1..] == ParseString(rest).value.0;
      if s[0] == '\\' {
        EscapesAreNoShorter(s[1..]);
      }
    }
  }

  // --- values -----------------------------------------------------------------------

  lemma {:induction false} ValuesAreNoShorter(s: string)
    ensures ParseValue(s).Some? ==> |s| >= |Print(ParseValue(s).value.0)| + |ParseValue(s).value.1|
    decreases |s|, 0
  {
    if ParseValue(s).Some? {
      var t := SkipWs(s);
      if t[0] == '"' {
        StringsAreNoShorter(t[1..]);
      } else if t[0] == '[' {
        var inner := SkipWs(t[1..]);
        if inner == "" || inner[0] != ']' {
          ItemsAreNoShorter(t[1..]);
        }
      } else if t[0] == '{' {
        var inner := SkipWs(t[1..]);
        if inner == "" || inner[0] != '}' {
          MembersAreNoShorter(t[1..]);
        }
      } else if !StartsWith(t, "null") && !StartsWith(t, "true") && !StartsWith(t, "false") {
        NumbersAreNoShorter(t);
      }
    }
  }

  lemma MoreItems(item: Json, items: seq<Json>)
    requires items != []
    ensures |PrintItems([item] + items)| == |Print(item)| + 1 + |PrintItems(items)|
  {
    assert ([item] + items)[1..] == items;
  }

  lemma {:induction false} ItemsAreNoShorter(s: string)
    ensures ParseItems(s).Some? ==>
      ParseItems(s).value.0 != [] && |s| >= |PrintItems(ParseItems(s).value.0)| + 1 + |ParseItems(s).value.1|
    decreases |s|, 1
  {
    if ParseItems(s).Some? {
      ValuesAreNoShorter(s);
      var (item, rest) := ParseValue(s).value;
      var t := SkipWs(rest);
      if t[0] == ',' {
        ItemsAreNoShorter(t[1..]);
        MoreItems(item, ParseItems(t[1..]).value.0);
      }
    }
  }

  lemma KeysAreNoShorter(s: string)
    ensures ParseKey(s).Some? ==> |s| >= |Quote(ParseKey(s).value.0)| + 1 + |ParseKey(s).value.1|
  {
    if ParseKey(s).Some? {
      StringsAreNoShorter(SkipWs(s)[1..]);
    }
  }

  function MemberLength(m: Member): nat {
    |Quote(m.key)| + 1 + |Print(m.value)|
  }

  lemma MoreMembers(m: Member, ms: seq<Member>)
    requires ms != []
    ensures |PrintMembers([m] + ms)| == MemberLength(m) + 1 + |PrintMembers(ms)|
  {
    assert ([m] + ms)[1..] == ms;
  }

  lemma {:induction false} MembersAreNoShorter(s: string)
    ensures ParseMembers(s).Some? ==>
      ParseMembers(s).value.0 != [] && |s| >= |PrintMembers(ParseMembers(s).value.0)| + 1 + |ParseMembers(s).value.1|
    decreases |s|, 1
  {
    if ParseMembers(s).Some? {
      KeysAreNoShorter(s);
      var (key, afterKey) := ParseKey(s).value;
      ValuesAreNoShorter(afterKey);
      var (value, rest) := ParseValue(afterKey).value;
      var t := SkipWs(rest);
      if t[0] == ',' {
        MembersAreNoShorter(t[1..]);
        MoreMembers(Member(key, value), ParseMembers(t[1..]).value.0);
      }
    }
  }

  // --- order does not matter ----------------------------------------------------------

  function Lengths(ms: seq<Member>): nat {
    if ms == [] then 0 else MemberLength(ms[0]) + Lengths(ms[1..])
  }

  lemma {:induction false} MembersLength(ms: seq<Member>)
    ensures |PrintMembers(ms)| == Lengths(ms) + if ms == [] then 0 else |ms| - 1
  {
    if |ms| > 1 {
      MembersLength(ms[1..]);
    } else if |ms| == 1 {
      assert ms[1..] == [];
    }
  }

  lemma {:induction false} InsertLengths(ms: seq<Member>, m: Member)
    ensures Lengths(Insert(ms, m)) == Lengths(ms) + MemberLength(m)
  {
    if ms == [] {
      assert [m][1..] == [];
    } else if Less(m.key, ms[0].key) {
      assert ([m] + ms)[1..] == ms;
    } else {
      InsertLengths(ms[1..], m);
      assert Insert(ms, m)[1..] == Insert(ms[1..], m);
    }
  }

  lemma {:induction false} AppendLengths(ms: seq<Member>, m: Member)
    ensures Lengths(ms + [m]) == Lengths(ms) + MemberLength(m)
  {
    if ms == [] {
      assert ms + [m] == [m] && [m][1..] == [];
    } else {
      assert (ms + [m])[1..] == ms[1..] + [m];
      AppendLengths(ms[1..], m);
    }
  }

  lemma {:induction false} SortLengths(ms: seq<Member>)
    ensures Lengths(Sort(ms)) == Lengths(ms)
  {
    if ms != [] {
      var prefix, last := ms[..|ms| - 1], ms[|ms| - 1];
      SortLengths(prefix);
      InsertLengths(Sort(prefix), last);
      AppendLengths(prefix, last);
      assert ms == prefix + [last];
    }
  }

  lemma {:induction false} NormKeepsLength(v: Json)
    ensures |Print(Norm(v))| == |Print(v)|
    decreases v, 1
  {
    match v
    case Arr(items) => NormItemsKeepLength(items);
    case Obj(ms) =>
      NormMembersKeepLengths(ms);
      SortLengths(NormMembers(ms));
      SortHas(NormMembers(ms));
      MembersLength(ms);
      MembersLength(Sort(NormMembers(ms)));
    case _ =>
  }

  lemma {:induction false} NormItemsKeepLength(items: seq<Json>)
    ensures |PrintItems(NormItems(items))| == |PrintItems(items)|
    decreases items, 0
  {
    if items != [] {
      NormKeepsLength(items[0]);
      NormItemsKeepLength(items[1..]);
      assert NormItems(items)[1..] == NormItems(items[1..]);
    }
  }

  lemma {:induction false} NormMembersKeepLengths(ms: seq<Member>)
    ensures Lengths(NormMembers(ms)) == Lengths(ms)
    decreases ms, 0
  {
    if ms != [] {
      NormKeepsLength(ms[0].value);
      NormMembersKeepLengths(ms[1..]);
      assert NormMembers(ms)[1..] == NormMembers(ms[1..]);
    }
  }

  // --- the law ----------------------------------------------------------------------

  /** MAIN. No text that reads as the value, whatever its spacing, escapes and
      member order, is shorter than the canonical one. */
  lemma CanonicalIsShortest(v: Json, text: string)
    requires NoFloat(v) && WellKeyed(v)
    requires Parse(text).Some? && WellKeyed(Parse(text).value) && Same(Parse(text).value, v)
    ensures |Canonical(v)| <= |text|
  {
    var w := Parse(text).value;
    ValuesAreNoShorter(text);
    SameIffOneNorm(w, v);
    NormKeepsLength(w);
  }

  /** The one choice left is the case of hexadecimal digits: it is lower. */
  lemma {:induction false} EscapesAreLowerCase(s: string, i: nat)
    requires i < |Escape(s)| && 'A' <= Escape(s)[i] <= 'Z'
    ensures Escape(s)[i] in s
  {
    var first := EscapeChar(s[0]);
    if i < |first| {
      assert Escape(s)[i] == first[i];
    } else {
      assert Escape(s)[i] == Escape(s[1..])[i - |first|];
      EscapesAreLowerCase(s[1..], i - |first|);
    }
  }
}
