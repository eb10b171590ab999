/** JSON values, their canonical text, and what it means for two values to be
    the same up to member order. */
module Json {
  import opened Basics
  import opened Text

  datatype Json =
    | Null
    | Bool(b: bool)
    | Int(n: int)            // a number held as u64 or i64
    | Float(lexeme: string)  // any other number
    | Str(s: string)
    | Arr(items: seq<Json>)
    | Obj(members: seq<Member>)

  datatype Member = Member(key: string, value: Json)

  const MAX_DEPTH: nat := 32

  predicate FitsU64(n: int) { 0 <= n < 0x1_0000_0000_0000_0000 }
  predicate FitsI64(n: int) { -0x8000_0000_0000_0000 <= n < 0x8000_0000_0000_0000 }

  // --- what is accepted --------------------------------------------------------

  predicate DepthOk(v: Json, depth: nat)
    decreases v
  {
    && depth <= MAX_DEPTH
    && (v.Arr? ==> forall i :: 0 <= i < |v.items| ==> DepthOk(v.items[i], depth + 1))
    && (v.Obj? ==> forall i :: 0 <= i < |v.members| ==> DepthOk(v.members[i].value, depth + 1))
  }

  predicate NoFloat(v: Json)
    decreases v
  {
    match v
    case Int(n) => FitsU64(n) || FitsI64(n)
    case Float(_) => false
    case Arr(items) => forall i :: 0 <= i < |items| ==> NoFloat(items[i])
    case Obj(members) => forall i :: 0 <= i < |members| ==> NoFloat(members[i].value)
    case _ => true
  }

  predicate DistinctKeys(ms: seq<Member>) {
    forall i, j :: 0 <= i < j < |ms| ==> ms[i].key != ms[j].key
  }

  /** No object repeats a key. */
  predicate WellKeyed(v: Json)
    decreases v
  {
    match v
    case Arr(items) => forall i :: 0 <= i < |items| ==> WellKeyed(items[i])
    case Obj(members) => DistinctKeys(members) && forall i :: 0 <= i < |members| ==> WellKeyed(members[i].value)
    case _ => true
  }

  predicate Acceptable(v: Json) {
    DepthOk(v, 0) && NoFloat(v) && WellKeyed(v)
  }

  /** How far below a value its deepest part lies. */
  function Height(v: Json): nat
    decreases v, 1
  {
    match v
    case Arr(items) => HighestItem(items)
    case Obj(members) => HighestMember(members)
    case _ => 0
  }

  function HighestItem(items: seq<Json>): nat
    decreases items, 0
  {
    if items == [] then 0 else Higher(1 + Height(items[0]), HighestItem(items[1..]))
  }

  function HighestMember(ms: seq<Member>): nat
    decreases ms, 0
  {
    if ms == [] then 0 else Higher(1 + Height(ms[0].value), HighestMember(ms[1..]))
  }

  function Higher(a: nat, b: nat): nat { if a >= b then a else b }

  lemma {:induction false} HighestIsHighest(items: seq<Json>, bound: nat)
    ensures HighestItem(items) <= bound <==> forall i :: 0 <= i < |items| ==> 1 + Height(items[i]) <= bound
  {
    if items != [] {
      HighestIsHighest(items[1..], bound);
      assert forall i :: 0 < i < |items| ==> items[i] == items[1..][i - 1];
      assert forall i :: 0 <= i < |items[1..]| ==> items[1..][i] == items[i + 1];
    }
  }

  lemma {:induction false} HighestMemberIsHighest(ms: seq<Member>, bound: nat)
    ensures HighestMember(ms) <= bound <==> forall i :: 0 <= i < |ms| ==> 1 + Height(ms[i].value) <= bound
  {
    if ms != [] {
      HighestMemberIsHighest(ms[1..], bound);
      assert forall i :: 0 < i < |ms| ==> ms[i] == ms[1..][i - 1];
      assert forall i :: 0 <= i < |ms[1..]| ==> ms[1..][i] == ms[i + 1];
    }
  }

  lemma {:induction false} DepthIsHeight(v: Json, depth: nat)
    ensures DepthOk(v, depth) <==> depth + Height(v) <= 32
    decreases v
  {
    if depth <= 32 {
      match v
      case Arr(items) =>
        forall i | 0 <= i < |items|
          ensures DepthOk(items[i], depth + 1) <==> 1 + Height(items[i]) <= 32 - depth
        {
          DepthIsHeight(items[i], depth + 1);
        }
        HighestIsHighest(items, 32 - depth);
      case Obj(ms) =>
        forall i | 0 <= i < |ms|
          ensures DepthOk(ms[i].value, depth + 1) <==> 1 + Height(ms[i].value) <= 32 - depth
        {
          DepthIsHeight(ms[i].value, depth + 1);
        }
        HighestMemberIsHighest(ms, 32 - depth);
      case _ =>
    }
  }

  /** Of values with neither floats nor repeated keys, the encoder takes exactly
      those at most 32 levels high; and of numbers, exactly the whole ones that 64
      bits hold, signed or not. */
  lemma WhatIsAcceptable(v: Json)
    ensures NoFloat(v) && WellKeyed(v) ==> (Acceptable(v) <==> Height(v) <= 32)
    ensures v.Int? ==> (Acceptable(v) <==> -9223372036854775808 <= v.n <= 18446744073709551615)
    ensures v.Float? ==> !Acceptable(v)
  {
    DepthIsHeight(v, 0);
  }

  // --- places in a value --------------------------------------------------------

  /** From a value called `here`, `path` leads to `w`: `[i]` for an item, `.key` for
      a member. */
  ghost predicate Reaches(v: Json, here: string, path: string, w: Json)
    decreases v
  {
    || (path == here && w == v)
    || (v.Arr? && exists i :: 0 <= i < |v.items| && Reaches(v.items[i], ItemName(here, i), path, w))
    || (v.Obj? && exists i :: 0 <= i < |v.members|
                             && Reaches(v.members[i].value, MemberName(here, v.members[i].key), path, w))
  }

  function ItemName(here: string, i: nat): string { here + "[" + Decimal(i) + "]" }

  function MemberName(here: string, key: string): string { here + "." + key }

  // --- member order --------------------------------------------------------------

  /** Order by Unicode scalar values. */
  predicate Less(a: string, b: string) {
    if b == "" then false
    else if a == "" then true
    else if a[0] != b[0] then a[0] < b[0]
    else Less(a[1..], b[1..])
  }

  lemma {:induction false} LessIsTotal(a: string, b: string)
    ensures (Less(a, b) && a != b && !Less(b, a)) || (a == b && !Less(a, b)) || (Less(b, a) && a != b && !Less(a, b))
  {
    if a != "" && b != "" && a[0] == b[0] {
      LessIsTotal(a[1..], b[1..]);
      assert a == [a[0]] + a[1..] && b == [b[0]] + b[1..];
    }
  }

  lemma {:induction false} LessIsTransitive(a: string, b: string, c: string)
    requires Less(a, b) && Less(b, c)
    ensures Less(a, c)
  {
    if a != "" && a[0] == b[0] == c[0] {
      LessIsTransitive(a[1..], b[1..], c[1..]);
    }
  }

  /** `a` comes before `b`: up to `k` they agree, and there `a` ends or has the
      smaller scalar value. */
  predicate RisesAt(a: string, b: string, k: nat)
    requires k <= |a| && k <= |b|
  {
    a[..k] == b[..k] && k < |b| && (k == |a| || a[k] as int < b[k] as int)
  }

  ghost predicate Rises(a: string, b: string) {
    exists k :: 0 <= k <= |a| && k <= |b| && RisesAt(a, b, k)
  }

  /** The recursive order is the order by scalar values, read off at the first
      place two texts part. */
  lemma {:induction false} LessIsScalarOrder(a: string, b: string)
    ensures Less(a, b) <==> Rises(a, b)
  {
    if a == "" || b == "" {
      assert b != "" ==> RisesAt(a, b, 0) || a != "";
    } else if a[0] != b[0] {
      if Less(a, b) {
        assert RisesAt(a, b, 0);
      }
      forall k | 0 < k <= |a| && k <= |b|
        ensures !RisesAt(a, b, k)
      {
        assert a[..k][0] == a[0] && b[..k][0] == b[0];
      }
    } else {
      LessIsScalarOrder(a[1..], b[1..]);
      if Rises(a, b) {
        var k :| 0 <= k <= |a| && k <= |b| && RisesAt(a, b, k);
        assert a[1..][..k - 1] == a[..k][1..] && b[1..][..k - 1] == b[..k][1..];
        assert RisesAt(a[1..], b[1..], k - 1);
      }
      if Rises(a[1..], b[1..]) {
        var k :| 0 <= k <= |a[1..]| && k <= |b[1..]| && RisesAt(a[1..], b[1..], k);
        assert a[..k + 1] == [a[0]] + a[1..][..k] && b[..k + 1] == [b[0]] + b[1..][..k];
        assert RisesAt(a, b, k + 1);
      }
    }
  }

  predicate Sorted(ms: seq<Member>) {
    forall i, j :: 0 <= i < j < |ms| ==> Less(ms[i].key, ms[j].key)
  }

  function Insert(ms: seq<Member>, m: Member): seq<Member> {
    if ms == [] then [m]
    else if Less(m.key, ms[0].key) then [m] + ms
    else [ms[0]] + Insert(ms[1..], m)
  }

  function Sort(ms: seq<Member>): seq<Member> {
    if ms == [] then [] else Insert(Sort(ms[..|ms| - 1]), ms[|ms| - 1])
  }

  lemma {:induction false} InsertHas(ms: seq<Member>, m: Member)
    ensures |Insert(ms, m)| == |ms| + 1
    ensures forall x :: x in Insert(ms, m) <==> x in ms || x == m
  {
    if ms != [] && !Less(m.key, ms[0].key) {
      InsertHas(ms[1..], m);
      assert ms == [ms[0]] + ms[1..];
    }
  }

  lemma {:induction false} InsertSorts(ms: seq<Member>, m: Member)
    requires Sorted(ms) && forall x :: x in ms ==> x.key != m.key
    ensures Sorted(Insert(ms, m))
  {
    if ms != [] {
      LessIsTotal(m.key, ms[0].key);
      if Less(m.key, ms[0].key) {
        forall j | 0 < j < |ms|
          ensures Less(m.key, ms[j].key)
        {
          LessIsTransitive(m.key, ms[0].key, ms[j].key);
        }
      } else {
        assert ms[0] in ms;
        InsertSorts(ms[1..], m);
        InsertHas(ms[1..], m);
        var tail := Insert(ms[1..], m);
        forall j | 0 <= j < |tail|
          ensures Less(ms[0].key, tail[j].key)
        {
          assert tail[j] in tail;
        }
      }
    }
  }

  lemma {:induction false} SortHas(ms: seq<Member>)
    ensures |Sort(ms)| == |ms|
    ensures forall x :: x in Sort(ms) <==> x in ms
  {
    if ms != [] {
      var prefix, last := ms[..|ms| - 1], ms[|ms| - 1];
      SortHas(prefix);
      InsertHas(Sort(prefix), last);
      assert ms == prefix + [last];
    }
  }

  lemma {:induction false} SortSorts(ms: seq<Member>)
    requires DistinctKeys(ms)
    ensures Sorted(Sort(ms))
  {
    if ms != [] {
      var prefix, last := ms[..|ms| - 1], ms[|ms| - 1];
      SortSorts(prefix);
      SortHas(prefix);
      InsertSorts(Sort(prefix), last);
    }
  }

  /** A sorted sequence is fixed by its members. */
  lemma {:induction false} SortedIsUnique(a: seq<Member>, b: seq<Member>)
    requires Sorted(a) && Sorted(b)
    requires forall x :: x in a <==> x in b
    ensures a == b
  {
    assert a != [] ==> a[0] in b;
    assert b != [] ==> b[0] in a;
    if a != [] && b != [] {
      LeastIsFirst(a, b[0]);
      LeastIsFirst(b, a[0]);
      LessIsTotal(a[0].key, b[0].key);
      forall x
        ensures x in a[1..] <==> x in b[1..]
      {
        TailDropsHead(a, x);
        TailDropsHead(b, x);
      }
      SortedIsUnique(a[1..], b[1..]);
      assert a == [a[0]] + a[1..] && b == [b[0]] + b[1..];
    }
  }

  lemma LeastIsFirst(a: seq<Member>, x: Member)
    requires Sorted(a) && x in a
    ensures x == a[0] || Less(a[0].key, x.key)
  {
  }

  lemma TailDropsHead(a: seq<Member>, x: Member)
    requires Sorted(a) && a != []
    ensures x in a[1..] <==> x in a && x != a[0]
  {
    LessIsTotal(a[0].key, a[0].key);
    if x in a && x != a[0] {
      var i :| 0 <= i < |a| && a[i] == x;
      assert a[1..][i - 1] == x;
    }
    if x in a[1..] {
      var i :| 0 <= i < |a[1..]| && a[1..][i] == x;
      assert a[i + 1] == x && Less(a[0].key, a[i + 1].key);
    }
  }

  lemma SortedStays(ms: seq<Member>)
    requires Sorted(ms)
    ensures Sort(ms) == ms && DistinctKeys(ms)
  {
    forall i, j | 0 <= i < j < |ms|
      ensures ms[i].key != ms[j].key
    {
      LessIsTotal(ms[i].key, ms[j].key);
    }
    SortSorts(ms);
    SortHas(ms);
    SortedIsUnique(Sort(ms), ms);
  }

  // --- the canonical form ----------------------------------------------------------

  /** Members sorted at every level. */
  function Norm(v: Json): Json
    decreases v, 1
  {
    match v
    case Arr(items) => Arr(NormItems(items))
    case Obj(members) => Obj(Sort(NormMembers(members)))
    case _ => v
  }

  function NormItems(items: seq<Json>): (r: seq<Json>)
    ensures |r| == |items|
    ensures forall i :: 0 <= i < |items| ==> r[i] == Norm(items[i])
    decreases items, 0
  {
    if items == [] then [] else [Norm(items[0])] + NormItems(items[1..])
  }

  function NormMembers(ms: seq<Member>): (r: seq<Member>)
    ensures |r| == |ms|
    ensures forall i :: 0 <= i < |ms| ==> r[i] == Member(ms[i].key, Norm(ms[i].value))
    decreases ms, 0
  {
    if ms == [] then [] else [Member(ms[0].key, Norm(ms[0].value))] + NormMembers(ms[1..])
  }

  function EscapeChar(c: char): string {
    if c == '"' then "\\\""
    else if c == '\\' then "\\\\"
    else if c as int == 0x08 then "\\b"
    else if c as int == 0x0c then "\\f"
    else if c == '\n' then "\\n"
    else if c == '\r' then "\\r"
    else if c == '\t' then "\\t"
    else if (c as int) < 0x20 then "\\u00" + [HexLower(c as int / 16), HexLower(c as int % 16)]
    else [c]
  }

  function Escape(s: string): string {
    if s == "" then "" else EscapeChar(s[0]) + Escape(s[1..])
  }

  function Quote(s: string): string {
    "\"" + Escape(s) + "\""
  }

  /** The text of a value, members in the order they are in. */
  function Print(v: Json): string
    decreases v, 1
  {
    match v
    case Null => "null"
    case Bool(b) => if b then "true" else "false"
    case Int(n) => Integer(n)
    case Float(lexeme) => lexeme
    case Str(s) => Quote(s)
    case Arr(items) => "[" + PrintItems(items) + "]"
    case Obj(members) => "{" + PrintMembers(members) + "}"
  }

  function PrintItems(items: seq<Json>): string
    decreases items, 0
  {
    if items == [] then ""
    else if |items| == 1 then Print(items[0])
    else Print(items[0]) + "," + PrintItems(items[1..])
  }

  function PrintMembers(ms: seq<Member>): string
    decreases ms, 0
  {
    if ms == [] then ""
    else if |ms| == 1 then Quote(ms[0].key) + ":" + Print(ms[0].value)
    else Quote(ms[0].key) + ":" + Print(ms[0].value) + "," + PrintMembers(ms[1..])
  }

  /** The canonical text. */
  function Canonical(v: Json): string {
    Print(Norm(v))
  }

  // --- sameness ----------------------------------------------------------------------

  /** Equal up to the order of object members, at every level. */
  ghost predicate Same(v: Json, w: Json)
    decreases v, 0
  {
    match v
    case Arr(a) => w.Arr? && |a| == |w.items| && forall i :: 0 <= i < |a| ==> Same(a[i], w.items[i])
    case Obj(a) =>
      && w.Obj?
      && (forall i :: 0 <= i < |a| ==> HasSame(a[i], w.members))
      && (forall j :: 0 <= j < |w.members| ==> HasOriginal(a, w.members[j]))
    case _ => v == w
  }

  /** Some member of `ms` has `x`'s key and a value like `x`'s. */
  ghost predicate HasSame(x: Member, ms: seq<Member>)
    decreases x.value, 1
  {
    exists j :: 0 <= j < |ms| && ms[j].key == x.key && Same(x.value, ms[j].value)
  }

  ghost predicate HasOriginal(ms: seq<Member>, x: Member)
    decreases ms, 0
  {
    exists i :: 0 <= i < |ms| && ms[i].key == x.key && Same(ms[i].value, x.value)
  }

  /** The same members, possibly in another order. */
  lemma MatchedMembersSort(a: seq<Member>, b: seq<Member>)
    requires DistinctKeys(a) && DistinctKeys(b)
    requires forall x :: x in a <==> x in b
    ensures Sort(a) == Sort(b)
  {
    SortSorts(a);
    SortSorts(b);
    SortHas(a);
    SortHas(b);
    SortedIsUnique(Sort(a), Sort(b));
  }

  lemma {:induction false} SameNormalises(v: Json, w: Json)
    requires WellKeyed(v) && WellKeyed(w) && Same(v, w)
    ensures Norm(v) == Norm(w)
    decreases v
  {
    match v
    case Arr(a) =>
      forall i | 0 <= i < |a|
        ensures NormItems(a)[i] == NormItems(w.items)[i]
      {
        SameNormalises(a[i], w.items[i]);
      }
      assert NormItems(a) == NormItems(w.items);
    case Obj(a) =>
      var b := w.members;
      var na, nb := NormMembers(a), NormMembers(b);
      forall i | 0 <= i < |a|
        ensures na[i] in nb
      {
        assert HasSame(a[i], b);
        var j :| 0 <= j < |b| && b[j].key == a[i].key && Same(a[i].value, b[j].value);
        SameNormalises(a[i].value, b[j].value);
        assert nb[j] == na[i];
      }
      forall j | 0 <= j < |b|
        ensures nb[j] in na
      {
        assert HasOriginal(a, b[j]);
        var i :| 0 <= i < |a| && a[i].key == b[j].key && Same(a[i].value, b[j].value);
        SameNormalises(a[i].value, b[j].value);
        assert na[i] == nb[j];
      }
      MatchedMembersSort(na, nb);
    case _ =>
  }

  lemma {:induction false} NormalisedSame(v: Json, w: Json)
    requires Norm(v) == Norm(w)
    ensures Same(v, w)
    decreases v
  {
    match v
    case Arr(a) =>
      forall i | 0 <= i < |a|
        ensures Same(a[i], w.items[i])
      {
        assert NormItems(a)[i] == NormItems(w.items)[i];
        NormalisedSame(a[i], w.items[i]);
      }
    case Obj(a) =>
      var b := w.members;
      var na, nb := NormMembers(a), NormMembers(b);
      SortHas(na);
      SortHas(nb);
      forall i | 0 <= i < |a|
        ensures HasSame(a[i], b)
      {
        assert na[i] in Sort(nb);
        var j :| 0 <= j < |nb| && nb[j] == na[i];
        NormalisedSame(a[i].value, b[j].value);
      }
      forall j | 0 <= j < |b|
        ensures HasOriginal(a, b[j])
      {
        assert nb[j] in Sort(na);
        var i :| 0 <= i < |na| && na[i] == nb[j];
        NormalisedSame(a[i].value, b[j].value);
      }
    case _ =>
  }

  /** Two values have one canonical form exactly when they are the same up to
      member order. */
  lemma SameIffOneNorm(v: Json, w: Json)
    requires WellKeyed(v) && WellKeyed(w)
    ensures Same(v, w) <==> Norm(v) == Norm(w)
  {
    if Same(v, w) {
      SameNormalises(v, w);
    }
    if Norm(v) == Norm(w) {
      NormalisedSame(v, w);
    }
  }

  /** Sorting keeps a value's acceptability, and sorting again changes nothing. */
  lemma {:induction false} NormKeeps(v: Json)
    requires NoFloat(v) && WellKeyed(v)
    ensures NoFloat(Norm(v)) && WellKeyed(Norm(v)) && Norm(Norm(v)) == Norm(v)
    decreases v
  {
    match v
    case Arr(items) =>
      var ns := NormItems(items);
      forall i | 0 <= i < |items|
        ensures NoFloat(ns[i]) && WellKeyed(ns[i]) && Norm(ns[i]) == ns[i]
      {
        NormKeeps(items[i]);
      }
      assert NormItems(ns) == ns;
    case Obj(members) =>
      var ns := NormMembers(members);
      forall i | 0 <= i < |members|
        ensures NoFloat(ns[i].value) && WellKeyed(ns[i].value) && Norm(ns[i].value) == ns[i].value
      {
        NormKeeps(members[i].value);
      }
      SortSorts(ns);
      SortHas(ns);
      SortedStays(Sort(ns));
      forall i | 0 <= i < |Sort(ns)|
        ensures NoFloat(Sort(ns)[i].value) && WellKeyed(Sort(ns)[i].value)
        ensures Norm(Sort(ns)[i].value) == Sort(ns)[i].value
      {
        assert Sort(ns)[i] in ns;
      }
      assert NormMembers(Sort(ns)) == Sort(ns);
    case _ =>
  }
}
