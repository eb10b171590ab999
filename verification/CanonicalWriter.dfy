/** The encoder as it is written: loops appending to one output buffer, and a
    sorted map filled by insertion. */
module CanonicalWriter {
  import opened Basics
  import opened Text
  import opened Json

  datatype CanonicalError =
    | FloatNotAllowed(path: string)
    | DuplicateKey(path: string, key: string)
    | TooDeep(depth: nat, limit: nat)

  /** A number that no 64 bits hold, or no whole number. */
  predicate IsFloat(v: Json) {
    v.Float? || (v.Int? && !FitsU64(v.n) && !FitsI64(v.n))
  }

  predicate Repeats(ms: seq<Member>, key: string) {
    exists i, j :: 0 <= i < j < |ms| && ms[i].key == ms[j].key == key
  }

  /** The error names something that is really wrong with the value, and where. */
  ghost predicate Explains(e: CanonicalError, v: Json, path: string, depth: nat) {
    match e
    case FloatNotAllowed(at) => exists w :: Reaches(v, path, at, w) && IsFloat(w)
    case DuplicateKey(at, key) => exists w :: Reaches(v, path, at, w) && w.Obj? && Repeats(w.members, key)
    case TooDeep(d, limit) => !DepthOk(v, depth) && d == MAX_DEPTH + 1 && limit == MAX_DEPTH
  }

  ghost predicate Writable(v: Json, depth: nat) {
    DepthOk(v, depth) && NoFloat(v) && WellKeyed(v)
  }

  lemma WritableItems(items: seq<Json>, depth: nat)
    requires depth <= MAX_DEPTH
    ensures Writable(Arr(items), depth) <==> forall i :: 0 <= i < |items| ==> Writable(items[i], depth + 1)
  {
  }

  lemma WritableMembers(ms: seq<Member>, depth: nat)
    requires depth <= MAX_DEPTH && DistinctKeys(ms)
    ensures Writable(Obj(ms), depth) <==> forall i :: 0 <= i < |ms| ==> Writable(ms[i].value, depth + 1)
  {
  }

  /** What is wrong with an item is wrong with its array. */
  lemma ItemExplains(e: CanonicalError, items: seq<Json>, i: nat, path: string, depth: nat)
    requires depth <= MAX_DEPTH && i < |items| && Explains(e, items[i], ItemName(path, i), depth + 1)
    ensures Explains(e, Arr(items), path, depth)
  {
    match e
    case FloatNotAllowed(at) =>
      var w :| Reaches(items[i], ItemName(path, i), at, w) && IsFloat(w);
      assert Reaches(Arr(items), path, at, w);
    case DuplicateKey(at, key) =>
      var w :| Reaches(items[i], ItemName(path, i), at, w) && w.Obj? && Repeats(w.members, key);
      assert Reaches(Arr(items), path, at, w);
    case _ =>
  }

  lemma MemberExplains(e: CanonicalError, ms: seq<Member>, m: Member, path: string, depth: nat)
    requires depth <= MAX_DEPTH && m in ms && Explains(e, m.value, MemberName(path, m.key), depth + 1)
    ensures Explains(e, Obj(ms), path, depth)
  {
    var i :| 0 <= i < |ms| && ms[i] == m;
    match e
    case FloatNotAllowed(at) =>
      var w :| Reaches(ms[i].value, MemberName(path, ms[i].key), at, w) && IsFloat(w);
      assert Reaches(Obj(ms), path, at, w);
    case DuplicateKey(at, key) =>
      var w :| Reaches(ms[i].value, MemberName(path, ms[i].key), at, w) && w.Obj? && Repeats(w.members, key);
      assert Reaches(Obj(ms), path, at, w);
    case _ =>
  }

  /** What is wrong with a value itself is wrong at its own place. */
  lemma OwnFaultExplains(v: Json, path: string, depth: nat)
    ensures IsFloat(v) ==> Explains(FloatNotAllowed(path), v, path, depth)
    ensures forall key :: v.Obj? && Repeats(v.members, key) ==> Explains(DuplicateKey(path, key), v, path, depth)
  {
    assert Reaches(v, path, path, v);
  }

  class Output {
    var text: string

    constructor ()
      ensures text == ""
    {
      text := "";
    }

    method Push(s: string)
      modifies this
      ensures text == old(text) + s
    {
      text := text + s;
    }
  }

  // --- prefixes of what is printed -------------------------------------------

  lemma {:induction false} EscapeAppend(s: string, c: char)
    ensures Escape(s + [c]) == Escape(s) + EscapeChar(c)
  {
    if s == "" {
      assert s + [c] == [c] && [c][1..] == "";
    } else {
      assert (s + [c])[1..] == s[1..] + [c];
      EscapeAppend(s[1..], c);
    }
  }

  lemma {:induction false} PrintItemsAppend(items: seq<Json>, item: Json)
    ensures PrintItems(items + [item]) == PrintItems(items) + (if items == [] then "" else ",") + Print(item)
  {
    if items == [] {
      assert items + [item] == [item];
    } else {
      assert (items + [item])[1..] == items[1..] + [item];
      PrintItemsAppend(items[1..], item);
    }
  }

  lemma {:induction false} PrintMembersAppend(ms: seq<Member>, m: Member)
    ensures PrintMembers(ms + [m])
         == PrintMembers(ms) + (if ms == [] then "" else ",") + (Quote(m.key) + ":" + Print(m.value))
  {
    if ms == [] {
      assert ms + [m] == [m];
    } else {
      assert (ms + [m])[1..] == ms[1..] + [m];
      PrintMembersAppend(ms[1..], m);
      Reassociate(Quote(ms[0].key) + ":" + Print(ms[0].value), PrintMembers(ms[1..]),
                  if ms[1..] == [] then "" else ",", Quote(m.key) + ":" + Print(m.value));
    }
  }

  lemma Reassociate(a: string, b: string, c: string, d: string)
    ensures a + "," + (b + c + d) == (a + "," + b) + c + d
    ensures a + "," + ("" + "" + d) == a + "," + d
  {
  }

  /** Sorting and normalising the members commute: only keys decide order. */
  lemma {:induction false} InsertNorm(ms: seq<Member>, m: Member)
    ensures NormMembers(Insert(ms, m)) == Insert(NormMembers(ms), Member(m.key, Norm(m.value)))
  {
    if ms != [] {
      InsertNorm(ms[1..], m);
      assert NormMembers(ms)[1..] == NormMembers(ms[1..]);
    }
  }

  lemma {:induction false} SortNorm(ms: seq<Member>)
    ensures NormMembers(Sort(ms)) == Sort(NormMembers(ms))
  {
    if ms != [] {
      var prefix := ms[..|ms| - 1];
      SortNorm(prefix);
      InsertNorm(Sort(prefix), ms[|ms| - 1]);
      assert NormMembers(ms)[..|ms| - 1] == NormMembers(prefix);
    }
  }

  // --- the encoder -------------------------------------------------------------

  method WriteJsonString(s: string, out: Output)
    modifies out
    ensures out.text == old(out.text) + Quote(s)
  {
    out.Push("\"");
    for i := 0 to |s|
      invariant out.text == old(out.text) + "\"" + Escape(s[..i])
    {
      var c := s[i];
      EscapeAppend(s[..i], c);
      assert s[..i + 1] == s[..i] + [c];
      out.Push(EscapeChar(c));
    }
    assert s[..|s|] == s;
    out.Push("\"");
  }

  lemma FoundIsRepeated(ms: seq<Member>, i: nat, m: Member)
    requires i < |ms| && m in Sort(ms[..i]) && m.key == ms[i].key
    ensures Repeats(ms, ms[i].key) && !DistinctKeys(ms)
  {
    SortHas(ms[..i]);
    var k :| 0 <= k < i && ms[..i][k] == m;
    assert ms[k].key == ms[i].key;
  }

  lemma NewIsDistinct(ms: seq<Member>, i: nat)
    requires i < |ms| && DistinctKeys(ms[..i])
    requires forall m :: m in Sort(ms[..i]) ==> m.key != ms[i].key
    ensures DistinctKeys(ms[..i + 1]) && Sort(ms[..i + 1]) == Insert(Sort(ms[..i]), ms[i])
  {
    SortHas(ms[..i]);
    forall k | 0 <= k < i
      ensures ms[k].key != ms[i].key
    {
      assert ms[..i][k] in Sort(ms[..i]);
    }
    assert ms[..i + 1] == ms[..i] + [ms[i]] && ms[..i + 1][..i] == ms[..i];
  }

  /** A `BTreeMap` filled by insertion, refusing a repeated key: what comes out has
      the same members, rising by the scalar values of their keys. */
  method CollectSorted(members: seq<Member>, path: string) returns (r: Result<seq<Member>, CanonicalError>)
    ensures r.Ok? <==> DistinctKeys(members)
    ensures r.Ok? ==> r.value == Sort(members)
    ensures r.Ok? ==> forall m :: m in r.value <==> m in members
    ensures r.Ok? ==> forall i, j :: 0 <= i < j < |r.value| ==> Rises(r.value[i].key, r.value[j].key)
    ensures r.Err? ==> r.error.DuplicateKey? && r.error.path == path && Repeats(members, r.error.key)
  {
    var sorted: seq<Member> := [];
    for i := 0 to |members|
      invariant sorted == Sort(members[..i]) && DistinctKeys(members[..i])
    {
      if exists m :: m in sorted && m.key == members[i].key {
        var m :| m in sorted && m.key == members[i].key;
        FoundIsRepeated(members, i, m);
        return Err(DuplicateKey(path, members[i].key));
      }
      NewIsDistinct(members, i);
      sorted := Insert(sorted, members[i]);
    }
    assert members[..|members|] == members;
    SortedMembersRise(members);
    return Ok(sorted);
  }

  lemma SortedMembersRise(ms: seq<Member>)
    requires DistinctKeys(ms)
    ensures forall m :: m in Sort(ms) <==> m in ms
    ensures forall i, j :: 0 <= i < j < |Sort(ms)| ==> Rises(Sort(ms)[i].key, Sort(ms)[j].key)
  {
    SortHas(ms);
    SortSorts(ms);
    forall i, j | 0 <= i < j < |Sort(ms)|
      ensures Rises(Sort(ms)[i].key, Sort(ms)[j].key)
    {
      LessIsScalarOrder(Sort(ms)[i].key, Sort(ms)[j].key);
    }
  }

  method WriteCanonical(value: Json, out: Output, path: string, depth: nat) returns (r: Result<(), CanonicalError>)
    requires depth <= MAX_DEPTH + 1
    modifies out
    ensures r.Ok? <==> Writable(value, depth)
    ensures r.Ok? ==> out.text == old(out.text) + Canonical(value)
    ensures r.Err? ==> Explains(r.error, value, path, depth)
    decreases value, 2
  {
    OwnFaultExplains(value, path, depth);
    if depth > MAX_DEPTH {
      return Err(TooDeep(depth, MAX_DEPTH));
    }
    match value
    case Null => out.Push("null"); return Ok(());
    case Bool(b) => out.Push(if b then "true" else "false"); return Ok(());
    case Int(n) =>
      if !FitsU64(n) && !FitsI64(n) {
        return Err(FloatNotAllowed(path));
      }
      out.Push(Integer(n));
      return Ok(());
    case Float(_) => return Err(FloatNotAllowed(path));
    case Str(s) => WriteJsonString(s, out); return Ok(());
    case Arr(items) =>
      WritableItems(items, depth);
      ArrayIsWritten(items);
      r := WriteItems(items, out, path, depth);
    case Obj(members) =>
      r := WriteObject(members, out, path, depth);
  }

  lemma Associates(a: string, b: string, c: string)
    ensures (a + b) + c == a + (b + c)
    ensures a + "" == a
  {
  }

  lemma AssociatesMember(a: string, comma: string, key: string, value: string)
    ensures a + comma + key + ":" + value == a + (comma + (key + ":" + value))
  {
  }

  /** One item with the comma before it, as it stands among its siblings. */
  function ItemText(items: seq<Json>, i: nat): string
    requires i < |items|
  {
    (if i > 0 then "," else "") + Canonical(items[i])
  }

  function MemberText(ms: seq<Member>, i: nat): string
    requires i < |ms|
  {
    (if i > 0 then "," else "") + (Quote(ms[i].key) + ":" + Canonical(ms[i].value))
  }

  /** What is written before item `i`. */
  function ItemsPrefix(items: seq<Json>, i: nat): string
    requires i <= |items|
  {
    if i == 0 then "[" else ItemsPrefix(items, i - 1) + ItemText(items, i - 1)
  }

  function MembersPrefix(ms: seq<Member>, i: nat): string
    requires i <= |ms|
  {
    if i == 0 then "{" else MembersPrefix(ms, i - 1) + MemberText(ms, i - 1)
  }

  lemma {:induction false} ItemsAreWritten(items: seq<Json>, i: nat)
    requires i <= |items|
    ensures ItemsPrefix(items, i) == "[" + PrintItems(NormItems(items[..i]))
  {
    if i > 0 {
      ItemsAreWritten(items, i - 1);
      assert NormItems(items[..i]) == NormItems(items[..i - 1]) + [Norm(items[i - 1])];
      PrintItemsAppend(NormItems(items[..i - 1]), Norm(items[i - 1]));
      Associates("[", PrintItems(NormItems(items[..i - 1])), ItemText(items, i - 1));
    }
  }

  lemma {:induction false} MembersAreWritten(ms: seq<Member>, i: nat)
    requires i <= |ms|
    ensures MembersPrefix(ms, i) == "{" + PrintMembers(NormMembers(ms[..i]))
  {
    if i > 0 {
      MembersAreWritten(ms, i - 1);
      var m := Member(ms[i - 1].key, Norm(ms[i - 1].value));
      assert NormMembers(ms[..i]) == NormMembers(ms[..i - 1]) + [m];
      PrintMembersAppend(NormMembers(ms[..i - 1]), m);
      Associates("{", PrintMembers(NormMembers(ms[..i - 1])), MemberText(ms, i - 1));
    }
  }

  lemma ArrayIsWritten(items: seq<Json>)
    ensures ItemsPrefix(items, |items|) + "]" == Canonical(Arr(items))
  {
    ItemsAreWritten(items, |items|);
    assert items[..|items|] == items;
  }

  lemma ObjectIsWritten(members: seq<Member>)
    ensures |Sort(members)| == |members|
    ensures MembersPrefix(Sort(members), |members|) + "}" == Canonical(Obj(members))
  {
    SortHas(members);
    SortNorm(members);
    MembersAreWritten(Sort(members), |members|);
    assert Sort(members)[..|members|] == Sort(members);
  }

  method WriteItem(items: seq<Json>, i: nat, out: Output, path: string, depth: nat)
    returns (r: Result<(), CanonicalError>)
    requires i < |items| && depth <= MAX_DEPTH
    modifies out
    ensures r.Ok? <==> Writable(items[i], depth + 1)
    ensures r.Ok? ==> out.text == old(out.text) + ItemText(items, i)
    ensures r.Err? ==> Explains(r.error, items[i], ItemName(path, i), depth + 1)
    decreases items, 0
  {
    ghost var comma := if i > 0 then "," else "";
    Associates(out.text, comma, Canonical(items[i]));
    if i > 0 {
      out.Push(",");
    }
    assert out.text == old(out.text) + comma;
    r := WriteCanonical(items[i], out, path + "[" + Decimal(i) + "]", depth + 1);
  }

  method WriteItems(items: seq<Json>, out: Output, path: string, depth: nat) returns (r: Result<(), CanonicalError>)
    requires depth <= MAX_DEPTH
    modifies out
    ensures r.Ok? <==> forall i :: 0 <= i < |items| ==> Writable(items[i], depth + 1)
    ensures r.Ok? ==> out.text == old(out.text) + (ItemsPrefix(items, |items|) + "]")
    ensures r.Err? ==> Explains(r.error, Arr(items), path, depth)
    decreases items, 1
  {
    out.Push("[");
    for i := 0 to |items|
      invariant out.text == old(out.text) + ItemsPrefix(items, i)
      invariant forall k :: 0 <= k < i ==> Writable(items[k], depth + 1)
    {
      var written := WriteItem(items, i, out, path, depth);
      if written.Err? {
        ItemExplains(written.error, items, i, path, depth);
        return written;
      }
      Associates(old(out.text), ItemsPrefix(items, i), ItemText(items, i));
    }
    out.Push("]");
    Associates(old(out.text), ItemsPrefix(items, |items|), "]");
    return Ok(());
  }

  method WriteMember(ms: seq<Member>, i: nat, out: Output, path: string, depth: nat, ghost members: seq<Member>)
    returns (r: Result<(), CanonicalError>)
    requires i < |ms| && ms[i] in members && depth <= MAX_DEPTH
    modifies out
    ensures r.Ok? <==> Writable(ms[i].value, depth + 1)
    ensures r.Ok? ==> out.text == old(out.text) + MemberText(ms, i)
    ensures r.Err? ==> Explains(r.error, ms[i].value, MemberName(path, ms[i].key), depth + 1)
    decreases members, 0
  {
    ghost var comma := if i > 0 then "," else "";
    Associates(out.text, "", "");
    if i > 0 {
      out.Push(",");
    }
    assert out.text == old(out.text) + comma;
    WriteJsonString(ms[i].key, out);
    out.Push(":");
    r := WriteCanonical(ms[i].value, out, path + "." + ms[i].key, depth + 1);
    AssociatesMember(old(out.text), comma, Quote(ms[i].key), Canonical(ms[i].value));
  }

  /** The first `k` members can all be written. */
  ghost predicate FirstWritable(ms: seq<Member>, k: nat, depth: nat)
    requires k <= |ms|
  {
    k == 0 || (FirstWritable(ms, k - 1, depth) && Writable(ms[k - 1].value, depth))
  }

  lemma {:induction false} FirstWritableMeans(ms: seq<Member>, k: nat, depth: nat)
    requires k <= |ms|
    ensures FirstWritable(ms, k, depth) <==> forall i :: 0 <= i < k ==> Writable(ms[i].value, depth)
  {
    if k > 0 {
      FirstWritableMeans(ms, k - 1, depth);
    }
  }

  lemma UnwritableMember(ms: seq<Member>, i: nat, depth: nat)
    requires i < |ms| && !Writable(ms[i].value, depth)
    ensures !FirstWritable(ms, |ms|, depth)
  {
    FirstWritableMeans(ms, |ms|, depth);
  }

  method WriteMembers(sorted: seq<Member>, out: Output, path: string, depth: nat, ghost members: seq<Member>)
    returns (r: Result<(), CanonicalError>)
    requires depth <= MAX_DEPTH
    requires forall i :: 0 <= i < |sorted| ==> sorted[i] in members
    modifies out
    ensures r.Ok? <==> FirstWritable(sorted, |sorted|, depth + 1)
    ensures r.Ok? ==> out.text == old(out.text) + (MembersPrefix(sorted, |sorted|) + "}")
    ensures r.Err? ==> Explains(r.error, Obj(members), path, depth)
    decreases members, 1
  {
    out.Push("{");
    for i := 0 to |sorted|
      invariant out.text == old(out.text) + MembersPrefix(sorted, i)
      invariant FirstWritable(sorted, i, depth + 1)
    {
      assert sorted[i] in members;
      var written := WriteMember(sorted, i, out, path, depth, members);
      if written.Err? {
        UnwritableMember(sorted, i, depth + 1);
        MemberExplains(written.error, members, sorted[i], path, depth);
        return written;
      }
      Associates(old(out.text), MembersPrefix(sorted, i), MemberText(sorted, i));
    }
    out.Push("}");
    Associates(old(out.text), MembersPrefix(sorted, |sorted|), "}");
    return Ok(());
  }

  method WriteObject(members: seq<Member>, out: Output, path: string, depth: nat)
    returns (r: Result<(), CanonicalError>)
    requires depth <= MAX_DEPTH
    modifies out
    ensures r.Ok? <==> Writable(Obj(members), depth)
    ensures r.Ok? ==> out.text == old(out.text) + Canonical(Obj(members))
    ensures r.Err? ==> Explains(r.error, Obj(members), path, depth)
    decreases members, 2
  {
    var collected := CollectSorted(members, path);
    if collected.Err? {
      OwnFaultExplains(Obj(members), path, depth);
      return Err(collected.error);
    }
    SortedMembersMatch(members);
    ObjectIsWritten(members);
    WritableMembers(members, depth);
    FirstWritableMeans(collected.value, |members|, depth + 1);
    r := WriteMembers(collected.value, out, path, depth, members);
    assert forall i :: 0 <= i < |members| ==> collected.value[i] in members;
  }

  lemma SortedMembersMatch(members: seq<Member>)
    ensures |Sort(members)| == |members|
    ensures forall i :: 0 <= i < |members| ==> Sort(members)[i] in members
    ensures forall i :: 0 <= i < |members| ==> members[i] in Sort(members)
  {
    SortHas(members);
    assert forall i :: 0 <= i < |members| ==> Sort(members)[i] in Sort(members);
  }

  /** `canonicalise`: succeeds exactly on values without floats or repeated keys,
      nested no deeper than the limit, and then returns the canonical text. */
  method Canonicalise(value: Json) returns (r: Result<string, CanonicalError>)
    ensures r.Ok? <==> Acceptable(value)
    ensures r.Ok? ==> r.value == Canonical(value)
    ensures r.Err? ==> Explains(r.error, value, "$", 0)
  {
    var out := new Output();
    var written := WriteCanonical(value, out, "$", 0);
    match written
    case Err(e) => return Err(e);
    case Ok(_) => return Ok(out.text);
  }
}
