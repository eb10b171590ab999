/** Rendering job inputs as a `Prover.toml`. */
module Toml {
  import opened Basics
  import opened Text
  import opened Json

  datatype ProveError =
    | InputsNotAnObject
    | UnrepresentableInput(field: string)

  function EscapeTomlChar(c: char): string {
    if c == '"' then "\\\""
    else if c == '\\' then "\\\\"
    else if c == '\n' then "\\n"
    else if c == '\r' then "\\r"
    else if c == '\t' then "\\t"
    else if (c as int) < 0x20 || c as int == 0x7f then "\\u00" + [HexUpper(c as int / 16), HexUpper(c as int % 16)]
    else [c]
  }

  function EscapeToml(s: string): string {
    if s == "" then "" else EscapeTomlChar(s[0]) + EscapeToml(s[1..])
  }

  function QuoteToml(s: string): string {
    "\"" + EscapeToml(s) + "\""
  }

  /** The shapes that have a field-element reading. */
  predicate Supported(v: Json) {
    match v
    case Str(_) => true
    case Bool(_) => true
    case Int(n) => FitsI64(n) || FitsU64(n)
    case Arr(items) => forall i :: 0 <= i < |items| ==> Supported(items[i])
    case _ => false
  }

  /** The text of a supported value. */
  function ValueText(v: Json): string
    decreases v, 1
  {
    match v
    case Str(s) => QuoteToml(s)
    case Bool(b) => if b then "true" else "false"
    case Int(n) => Integer(n)
    case Arr(items) => "[" + ItemsText(items) + "]"
    case _ => ""
  }

  function ItemsText(items: seq<Json>): string
    decreases items, 0
  {
    if items == [] then ""
    else if |items| == 1 then ValueText(items[0])
    else ValueText(items[0]) + ", " + ItemsText(items[1..])
  }

  /** `render_value`. */
  function RenderValue(v: Json, field: string): (r: Result<string, ProveError>)
    ensures r.Ok? <==> Supported(v)
    ensures r.Ok? ==> r.value == ValueText(v)
    decreases v, 1
  {
    match v
    case Str(s) => Ok(QuoteToml(s))
    case Bool(b) => Ok(if b then "true" else "false")
    case Int(n) => if FitsI64(n) || FitsU64(n) then Ok(Integer(n)) else Err(UnrepresentableInput(field))
    case Arr(items) =>
      (match RenderItems(items, field, 0)
       case Err(e) => Err(e)
       case Ok(text) => Ok("[" + text + "]"))
    case _ => Err(UnrepresentableInput(field))
  }

  /** Each item from index `from` on, joined by commas; stops at the first error. */
  function RenderItems(items: seq<Json>, field: string, from: nat): (r: Result<string, ProveError>)
    ensures r.Ok? <==> forall i :: 0 <= i < |items| ==> Supported(items[i])
    ensures r.Ok? ==> r.value == ItemsText(items)
    decreases items, 0
  {
    if items == [] then Ok("")
    else
      match RenderValue(items[0], ItemName(field, from))
      case Err(e) => Err(e)
      case Ok(first) =>
        assert forall i :: 0 < i < |items| ==> items[i] == items[1..][i - 1];
        assert forall i :: 0 <= i < |items| - 1 ==> items[1..][i] == items[i + 1];
        match RenderItems(items[1..], field, from + 1)
        case Err(e) => Err(e)
        case Ok(rest) => Ok(if |items| == 1 then first else first + ", " + rest)
  }

  // --- what errors name ------------------------------------------------------------

  /** No field element reads like this. */
  predicate Unrepresentable(v: Json) {
    v.Null? || v.Obj? || v.Float? || (v.Int? && !FitsI64(v.n) && !FitsU64(v.n))
  }

  /** The error names the place of something that has no rendering. */
  ghost predicate Names(e: ProveError, v: Json, field: string) {
    e.UnrepresentableInput? && exists w :: Reaches(v, field, e.field, w) && Unrepresentable(w)
  }

  lemma {:induction false} ValueErrorsName(v: Json, field: string)
    ensures RenderValue(v, field).Err? ==> Names(RenderValue(v, field).error, v, field)
    decreases v, 1
  {
    if v.Arr? {
      ItemErrorsName(v.items, field, 0);
      if RenderValue(v, field).Err? {
        var e := RenderValue(v, field).error;
        var i :| 0 <= i < |v.items| && Names(e, v.items[i], ItemName(field, 0 + i));
        var w :| Reaches(v.items[i], ItemName(field, i), e.field, w) && Unrepresentable(w);
        assert Reaches(v, field, e.field, w);
      }
    } else {
      assert Reaches(v, field, field, v);
    }
  }

  lemma {:induction false} ItemErrorsName(items: seq<Json>, field: string, from: nat)
    ensures var r := RenderItems(items, field, from);
      r.Err? ==> exists i :: 0 <= i < |items| && Names(r.error, items[i], ItemName(field, from + i))
    decreases items, 0
  {
    var r := RenderItems(items, field, from);
    if items != [] && r.Err? {
      ValueErrorsName(items[0], ItemName(field, from));
      if RenderValue(items[0], ItemName(field, from)).Err? {
        assert Names(r.error, items[0], ItemName(field, from + 0));
      } else {
        ItemErrorsName(items[1..], field, from + 1);
        var i :| 0 <= i < |items[1..]| && Names(r.error, items[1..][i], ItemName(field, from + 1 + i));
        assert Names(r.error, items[i + 1], ItemName(field, from + (i + 1)));
      }
    }
  }

  /** The error names something in this field. */
  ghost predicate NamesIn(e: ProveError, m: Member) {
    if m.value.Obj?
    then exists i :: 0 <= i < |m.value.members| && NamesInner(e, m.key, m.value.members[i])
    else Names(e, m.value, m.key)
  }

  ghost predicate NamesInner(e: ProveError, key: string, inner: Member) {
    Names(e, inner.value, MemberName(key, inner.key))
  }

  ghost predicate NamesSome(e: ProveError, ms: seq<Member>) {
    exists i :: 0 <= i < |ms| && NamesIn(e, ms[i])
  }

  /** What the renderer accepts: an object of supported values and of flat
      objects of them. */
  predicate SupportedField(m: Member) {
    if m.value.Obj? then forall i :: 0 <= i < |m.value.members| ==> Supported(m.value.members[i].value)
    else Supported(m.value)
  }

  predicate Renderable(inputs: Json) {
    inputs.Obj? && forall i :: 0 <= i < |inputs.members| ==> SupportedField(inputs.members[i])
  }

  function Line(m: Member): string {
    m.key + " = " + ValueText(m.value) + "\n"
  }

  function Lines(ms: seq<Member>): string {
    if ms == [] then "" else Line(ms[0]) + Lines(ms[1..])
  }

  function TableText(m: Member): string
    requires m.value.Obj?
  {
    "\n[" + m.key + "]\n" + Lines(m.value.members)
  }

  function TablesText(ms: seq<Member>): string
    requires forall i :: 0 <= i < |ms| ==> ms[i].value.Obj?
  {
    if ms == [] then "" else TableText(ms[0]) + TablesText(ms[1..])
  }

  function Scalars(ms: seq<Member>): (r: seq<Member>)
    ensures forall i :: 0 <= i < |r| ==> !r[i].value.Obj?
    ensures forall m :: m in r <==> m in ms && !m.value.Obj?
  {
    if ms == [] then []
    else
      var last := ms[|ms| - 1];
      assert ms == ms[..|ms| - 1] + [last];
      Scalars(ms[..|ms| - 1]) + if last.value.Obj? then [] else [last]
  }

  function Tables(ms: seq<Member>): (r: seq<Member>)
    ensures forall i :: 0 <= i < |r| ==> r[i].value.Obj?
    ensures forall m :: m in r <==> m in ms && m.value.Obj?
  {
    if ms == [] then []
    else
      var last := ms[|ms| - 1];
      assert ms == ms[..|ms| - 1] + [last];
      Tables(ms[..|ms| - 1]) + if last.value.Obj? then [last] else []
  }

  /** The whole document: scalars before the first table header. */
  function Document(ms: seq<Member>): string {
    Lines(Scalars(ms)) + TablesText(Tables(ms))
  }

  lemma {:induction false} LinesAppend(ms: seq<Member>, m: Member)
    ensures Lines(ms + [m]) == Lines(ms) + Line(m)
  {
    if ms == [] {
      assert ms + [m] == [m];
    } else {
      assert (ms + [m])[1..] == ms[1..] + [m];
      LinesAppend(ms[1..], m);
    }
  }

  lemma {:induction false} TablesAppend(ms: seq<Member>, m: Member)
    requires m.value.Obj? && forall i :: 0 <= i < |ms| ==> ms[i].value.Obj?
    ensures TablesText(ms + [m]) == TablesText(ms) + TableText(m)
  {
    if ms == [] {
      assert ms + [m] == [m];
    } else {
      assert (ms + [m])[1..] == ms[1..] + [m];
      TablesAppend(ms[1..], m);
    }
  }

  lemma {:induction false} EscapeTomlAppend(s: string, c: char)
    ensures EscapeToml(s + [c]) == EscapeToml(s) + EscapeTomlChar(c)
  {
    if s == "" {
      assert s + [c] == [c];
    } else {
      assert (s + [c])[1..] == s[1..] + [c];
      EscapeTomlAppend(s[1..], c);
    }
  }

  /** `quote_toml`, as its loop. */
  method WriteQuoted(value: string) returns (out: string)
    ensures out == QuoteToml(value)
  {
    out := "\"";
    for i := 0 to |value|
      invariant out == "\"" + EscapeToml(value[..i])
    {
      EscapeTomlAppend(value[..i], value[i]);
      assert value[..i + 1] == value[..i] + [value[i]];
      out := out + EscapeTomlChar(value[i]);
    }
    assert value[..|value|] == value;
    out := out + "\"";
  }

  /** The lines of one table body. */
  method WriteTable(key: string, members: seq<Member>) returns (r: Result<string, ProveError>)
    ensures r.Ok? <==> forall i :: 0 <= i < |members| ==> Supported(members[i].value)
    ensures r.Ok? ==> r.value == "\n[" + key + "]\n" + Lines(members)
    ensures r.Err? ==> exists i :: 0 <= i < |members| && NamesInner(r.error, key, members[i])
  {
    var header := "\n[" + key + "]\n";
    var lines := "";
    for i := 0 to |members|
      invariant lines == Lines(members[..i])
      invariant forall k :: 0 <= k < i ==> Supported(members[k].value)
    {
      var rendered := RenderValue(members[i].value, key + "." + members[i].key);
      if rendered.Err? {
        ValueErrorsName(members[i].value, key + "." + members[i].key);
        assert NamesInner(rendered.error, key, members[i]);
        return Err(rendered.error);
      }
      LinesAppend(members[..i], members[i]);
      assert members[..i + 1] == members[..i] + [members[i]];
      lines := lines + (members[i].key + " = " + rendered.value + "\n");
    }
    assert members[..|members|] == members;
    return Ok(header + lines);
  }

  /** What the first `k` members contribute to each half. */
  function Halves(ms: seq<Member>, k: nat): (string, string)
    requires k <= |ms|
  {
    if k == 0 then ("", "")
    else Grown(Halves(ms, k - 1), ms[k - 1])
  }

  function Grown(halves: (string, string), m: Member): (string, string) {
    if m.value.Obj? then (halves.0, halves.1 + TableText(m)) else (halves.0 + Line(m), halves.1)
  }

  /** One member: a table goes to the tables, anything else to the scalars. */
  method AddField(m: Member, scalars: string, tables: string) returns (r: Result<(string, string), ProveError>)
    ensures r.Ok? <==> SupportedField(m)
    ensures r.Ok? ==> r.value == Grown((scalars, tables), m)
    ensures r.Err? ==> NamesIn(r.error, m)
  {
    if m.value.Obj? {
      var table := WriteTable(m.key, m.value.members);
      if table.Err? {
        return Err(table.error);
      }
      return Ok((scalars, tables + table.value));
    }
    var rendered := RenderValue(m.value, m.key);
    if rendered.Err? {
      ValueErrorsName(m.value, m.key);
      return Err(rendered.error);
    }
    return Ok((scalars + (m.key + " = " + rendered.value + "\n"), tables));
  }

  lemma ScalarsGrow(ms: seq<Member>, m: Member)
    ensures Lines(Scalars(ms + [m])) == if m.value.Obj? then Lines(Scalars(ms)) else Lines(Scalars(ms)) + Line(m)
  {
    assert (ms + [m])[..|ms|] == ms;
    if m.value.Obj? {
      assert Scalars(ms) + [] == Scalars(ms);
    } else {
      LinesAppend(Scalars(ms), m);
    }
  }

  lemma TablesGrow(ms: seq<Member>, m: Member)
    ensures TablesText(Tables(ms + [m]))
         == if m.value.Obj? then TablesText(Tables(ms)) + TableText(m) else TablesText(Tables(ms))
  {
    assert (ms + [m])[..|ms|] == ms;
    if m.value.Obj? {
      TablesAppend(Tables(ms), m);
    } else {
      assert Tables(ms) + [] == Tables(ms);
    }
  }

  lemma GrownIsWritten(ms: seq<Member>, m: Member)
    ensures Grown((Lines(Scalars(ms)), TablesText(Tables(ms))), m)
         == (Lines(Scalars(ms + [m])), TablesText(Tables(ms + [m])))
  {
    ScalarsGrow(ms, m);
    TablesGrow(ms, m);
  }

  lemma {:induction false} HalvesAreWritten(ms: seq<Member>, k: nat)
    requires k <= |ms|
    ensures Halves(ms, k) == (Lines(Scalars(ms[..k])), TablesText(Tables(ms[..k])))
  {
    if k > 0 {
      var before := ms[..k - 1];
      assert ms[..k] == before + [ms[k - 1]];
      calc {
        Halves(ms, k);
        Grown(Halves(ms, k - 1), ms[k - 1]);
        { HalvesAreWritten(ms, k - 1); }
        Grown((Lines(Scalars(before)), TablesText(Tables(before))), ms[k - 1]);
        { GrownIsWritten(before, ms[k - 1]); }
        (Lines(Scalars(before + [ms[k - 1]])), TablesText(Tables(before + [ms[k - 1]])));
      }
    }
  }

  /** The first `k` members are supported. */
  predicate FirstSupported(ms: seq<Member>, k: nat)
    requires k <= |ms|
  {
    k == 0 || (FirstSupported(ms, k - 1) && SupportedField(ms[k - 1]))
  }

  lemma {:induction false} FirstSupportedMeans(ms: seq<Member>, k: nat)
    requires k <= |ms|
    ensures FirstSupported(ms, k) <==> forall i :: 0 <= i < k ==> SupportedField(ms[i])
  {
    if k > 0 {
      FirstSupportedMeans(ms, k - 1);
    }
  }

  /** `render_prover_toml`: succeeds exactly on the supported shapes. */
  method RenderProverToml(inputs: Json) returns (r: Result<string, ProveError>)
    ensures r.Ok? <==> Renderable(inputs)
    ensures r.Ok? ==> r.value == Document(inputs.members)
    ensures !inputs.Obj? ==> r == Err(InputsNotAnObject)
    ensures inputs.Obj? && r.Err? ==> NamesSome(r.error, inputs.members)
  {
    if !inputs.Obj? {
      return Err(InputsNotAnObject);
    }
    var fields := inputs.members;
    var scalars, tables := "", "";
    FirstSupportedMeans(fields, |fields|);
    for i := 0 to |fields|
      invariant (scalars, tables) == Halves(fields, i)
      invariant FirstSupported(fields, i)
    {
      var added := AddField(fields[i], scalars, tables);
      if added.Err? {
        assert NamesSome(added.error, fields);
        return Err(added.error);
      }
      scalars, tables := added.value.0, added.value.1;
    }
    HalvesAreWritten(fields, |fields|);
    assert fields[..|fields|] == fields;
    return Ok(scalars + tables);
  }
}
