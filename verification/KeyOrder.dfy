/** Which way members are sorted: by Unicode scalar values, which is also the byte
    order of their UTF-8, at every level of what canonical text says. */
module KeyOrder {
  import opened Basics
  import opened Json
  import opened JsonParser
  import opened JsonRoundTrip
  import opened Utf8

  // --- byte order -------------------------------------------------------------------

  predicate BytesRiseAt(x: seq<Byte>, y: seq<Byte>, k: nat)
    requires k <= |x| && k <= |y|
  {
    x[..k] == y[..k] && k < |y| && (k == |x| || x[k] < y[k])
  }

  /** The order of a map keyed by byte strings. */
  ghost predicate BytesRise(x: seq<Byte>, y: seq<Byte>) {
    exists k :: 0 <= k <= |x| && k <= |y| && BytesRiseAt(x, y, k)
  }

  lemma BytesRiseOneWay(x: seq<Byte>, y: seq<Byte>)
    requires BytesRise(x, y)
    ensures x != y && !BytesRise(y, x)
  {
    var k :| 0 <= k <= |x| && k <= |y| && BytesRiseAt(x, y, k);
    forall m | 0 <= m <= |y| && m <= |x|
      ensures !BytesRiseAt(y, x, m)
    {
      if m < k {
        assert x[..k][m] == x[m] && y[..k][m] == y[m];
      } else if m > k {
        assert x[..m][k] == x[k] && y[..m][k] == y[k];
      }
    }
  }

  /** Where the encodings of two characters part. */
  function PartingByte(c: char, d: char): nat {
    var x, y := EncodeChar(c), EncodeChar(d);
    if x[0] != y[0] then 0
    else if |x| < 2 || |y| < 2 || x[1] != y[1] then 1
    else if |x| < 3 || |y| < 3 || x[2] != y[2] then 2
    else 3
  }

  /** Numbers compare by their leading part, then by their last six bits. */
  lemma SixBits(m: nat, n: nat)
    requires m < n
    ensures m / 64 < n / 64 || (m / 64 == n / 64 && m % 64 < n % 64)
  {
  }

  lemma LongerRises(c: char, d: char)
    requires c as int < d as int && |EncodeChar(c)| != |EncodeChar(d)|
    ensures EncodeChar(c)[0] < EncodeChar(d)[0]
  {
  }

  lemma TwoRise(c: char, d: char)
    requires c as int < d as int && |EncodeChar(c)| == |EncodeChar(d)| <= 2
    ensures PartingByte(c, d) < |EncodeChar(c)|
    ensures EncodeChar(c)[PartingByte(c, d)] < EncodeChar(d)[PartingByte(c, d)]
  {
    SixBits(c as int, d as int);
  }

  lemma Sixes(n: nat)
    ensures n / 64 / 64 == n / 4096 && n / 4096 / 64 == n / 262144
  {
  }

  /** The three parts of a number below 2^16. */
  lemma ThreeParts(m: nat, n: nat)
    requires m < n
    ensures m / 4096 < n / 4096
            || (m / 4096 == n / 4096 && (m / 64 % 64 < n / 64 % 64 || (m / 64 % 64 == n / 64 % 64 && m % 64 < n % 64)))
  {
    SixBits(m, n);
    Sixes(m);
    Sixes(n);
    if m / 64 < n / 64 {
      SixBits(m / 64, n / 64);
    }
  }

  lemma FourParts(m: nat, n: nat)
    requires m < n
    ensures m / 262144 < n / 262144
            || (m / 262144 == n / 262144
                && (m / 4096 % 64 < n / 4096 % 64
                    || (m / 4096 == n / 4096
                        && (m / 64 % 64 < n / 64 % 64 || (m / 64 % 64 == n / 64 % 64 && m % 64 < n % 64)))))
  {
    ThreeParts(m, n);
    Sixes(m);
    Sixes(n);
    if m / 4096 < n / 4096 {
      SixBits(m / 4096, n / 4096);
    }
  }

  lemma ThreeRise(c: char, d: char)
    requires c as int < d as int && |EncodeChar(c)| == |EncodeChar(d)| == 3
    ensures PartingByte(c, d) < 3
    ensures EncodeChar(c)[PartingByte(c, d)] < EncodeChar(d)[PartingByte(c, d)]
  {
    ThreeParts(c as int, d as int);
  }

  lemma FourRise(c: char, d: char)
    requires c as int < d as int && |EncodeChar(c)| == |EncodeChar(d)| == 4
    ensures EncodeChar(c)[PartingByte(c, d)] < EncodeChar(d)[PartingByte(c, d)]
  {
    FourParts(c as int, d as int);
  }

  lemma CharsRise(c: char, d: char)
    requires c as int < d as int
    ensures var x, y, k := EncodeChar(c), EncodeChar(d), PartingByte(c, d);
      k < |x| && k < |y| && x[..k] == y[..k] && x[k] < y[k]
  {
    var x, y := EncodeChar(c), EncodeChar(d);
    if |x| != |y| {
      LongerRises(c, d);
    } else if |x| <= 2 {
      TwoRise(c, d);
    } else if |x| == 3 {
      ThreeRise(c, d);
    } else {
      FourRise(c, d);
    }
  }

  lemma {:induction false} EncodingRises(a: string, b: string)
    requires Less(a, b)
    ensures BytesRise(Encode(a), Encode(b))
  {
    var x, y := Encode(a), Encode(b);
    if a == "" {
      assert BytesRiseAt(x, y, 0);
    } else if a[0] != b[0] {
      CharsRise(a[0], b[0]);
      var k := PartingByte(a[0], b[0]);
      assert x[..k] == EncodeChar(a[0])[..k] && y[..k] == EncodeChar(b[0])[..k];
      assert BytesRiseAt(x, y, k);
    } else {
      EncodingRises(a[1..], b[1..]);
      var x', y', n := Encode(a[1..]), Encode(b[1..]), |EncodeChar(a[0])|;
      var k :| 0 <= k <= |x'| && k <= |y'| && BytesRiseAt(x', y', k);
      assert x[..n + k] == EncodeChar(a[0]) + x'[..k] && y[..n + k] == EncodeChar(a[0]) + y'[..k];
      assert BytesRiseAt(x, y, n + k);
    }
  }

  /** MAIN. The three orders are one: the recursive one the encoder's map uses, the
      one by scalar values, and the byte order of the encoded keys. */
  lemma KeyOrdersAgree(a: string, b: string)
    ensures Less(a, b) <==> Rises(a, b)
    ensures Less(a, b) <==> BytesRise(Encode(a), Encode(b))
  {
    LessIsScalarOrder(a, b);
    LessIsTotal(a, b);
    if Less(a, b) {
      EncodingRises(a, b);
    } else {
      if a != b {
        EncodingRises(b, a);
        BytesRiseOneWay(Encode(b), Encode(a));
      } else if BytesRise(Encode(a), Encode(b)) {
        BytesRiseOneWay(Encode(a), Encode(b));
      }
    }
  }

  // --- every level ------------------------------------------------------------------

  /** The members of every object, however deep, rise by scalar values. */
  ghost predicate RisesEverywhere(v: Json)
    decreases v
  {
    match v
    case Arr(items) => forall i :: 0 <= i < |items| ==> RisesEverywhere(items[i])
    case Obj(ms) =>
      && (forall i, j :: 0 <= i < j < |ms| ==> Rises(ms[i].key, ms[j].key))
      && (forall i :: 0 <= i < |ms| ==> RisesEverywhere(ms[i].value))
    case _ => true
  }

  lemma {:induction false} NormRises(v: Json)
    requires WellKeyed(v)
    ensures RisesEverywhere(Norm(v))
    decreases v
  {
    match v
    case Arr(items) =>
      forall i | 0 <= i < |items|
        ensures RisesEverywhere(NormItems(items)[i])
      {
        NormRises(items[i]);
      }
    case Obj(ms) =>
      var ns := NormMembers(ms);
      SortSorts(ns);
      SortHas(ns);
      forall i, j | 0 <= i < j < |Sort(ns)|
        ensures Rises(Sort(ns)[i].key, Sort(ns)[j].key)
      {
        LessIsScalarOrder(Sort(ns)[i].key, Sort(ns)[j].key);
      }
      forall i | 0 <= i < |Sort(ns)|
        ensures RisesEverywhere(Sort(ns)[i].value)
      {
        assert Sort(ns)[i] in ns;
        var k :| 0 <= k < |ns| && ns[k] == Sort(ns)[i];
        NormRises(ms[k].value);
      }
    case _ =>
  }

  /** MAIN. Whoever reads canonical text finds the members of every object in it,
      at every level, rising by the scalar values of their keys. */
  lemma CanonicalMembersRise(v: Json)
    requires NoFloat(v) && WellKeyed(v)
    ensures Parse(Canonical(v)).Some? && RisesEverywhere(Parse(Canonical(v)).value)
    ensures Same(v, Parse(Canonical(v)).value)
  {
    CanonicalReadsBack(v);
    NormRises(v);
  }
}
