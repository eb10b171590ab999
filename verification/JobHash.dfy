/** The identity of a job: what is hashed, and why it is unique. */
module JobHash {
  import opened Basics
  import opened Text
  import opened Json
  import opened JsonRoundTrip
  import opened CanonicalWriter
  import opened Utf8

  /** The circuit, a zero byte, the canonical inputs. */
  function Preimage(circuit: string, inputs: Json): seq<Byte> {
    Encode(circuit) + [0] + Encode(Canonical(inputs))
  }

  class Hasher {
    ghost var fed: seq<Byte>

    constructor ()
      ensures fed == []
    {
      fed := [];
    }

    method Update(bytes: seq<Byte>)
      modifies this
      ensures fed == old(fed) + bytes
    {
      fed := fed + bytes;
    }
  }

  /** `job_hash`: an accepted input feeds the hasher exactly its preimage; a
      refused one feeds it nothing. */
  method FeedJob(circuit: string, inputs: Json, hasher: Hasher) returns (r: Result<(), CanonicalError>)
    requires hasher.fed == []
    modifies hasher
    ensures r.Ok? <==> Acceptable(inputs)
    ensures hasher.fed == if r.Ok? then Preimage(circuit, inputs) else []
  {
    var canonical := Canonicalise(inputs);
    if canonical.Err? {
      return Err(canonical.error);
    }
    hasher.Update(Encode(circuit));
    hasher.Update([0]);
    hasher.Update(Encode(canonical.value));
    return Ok(());
  }

  // --- no zero byte in canonical text --------------------------------------------

  predicate ZeroFree(s: string) {
    0 as char !in s
  }

  lemma {:induction false} EscapeIsZeroFree(s: string)
    ensures ZeroFree(Escape(s))
  {
    if s != "" {
      EscapeIsZeroFree(s[1..]);
    }
  }

  lemma DigitsAreZeroFree(n: int)
    ensures ZeroFree(Integer(n))
  {
    DecimalReadsBack(if n < 0 then -n else n);
  }

  lemma {:induction false} PrintIsZeroFree(v: Json)
    requires NoFloat(v)
    ensures ZeroFree(Print(v))
    decreases v, 1
  {
    match v
    case Int(n) => DigitsAreZeroFree(n);
    case Str(s) => EscapeIsZeroFree(s);
    case Arr(items) => ItemsAreZeroFree(items);
    case Obj(members) => MembersAreZeroFree(members);
    case _ =>
  }

  lemma {:induction false} ItemsAreZeroFree(items: seq<Json>)
    requires forall i :: 0 <= i < |items| ==> NoFloat(items[i])
    ensures ZeroFree(PrintItems(items))
    decreases items, 0
  {
    if items != [] {
      PrintIsZeroFree(items[0]);
      ItemsAreZeroFree(items[1..]);
    }
  }

  lemma {:induction false} MembersAreZeroFree(ms: seq<Member>)
    requires forall i :: 0 <= i < |ms| ==> NoFloat(ms[i].value)
    ensures ZeroFree(PrintMembers(ms))
    decreases ms, 0
  {
    if ms != [] {
      EscapeIsZeroFree(ms[0].key);
      PrintIsZeroFree(ms[0].value);
      MembersAreZeroFree(ms[1..]);
    }
  }

  // --- the separator ---------------------------------------------------------------

  lemma NoZeroAfter(a: seq<Byte>, x: seq<Byte>)
    requires 0 !in x
    ensures var whole := a + [0] + x;
      whole[|a|] == 0 && forall k :: |a| < k < |whole| ==> whole[k] != 0
  {
    var whole := a + [0] + x;
    forall k | |a| < k < |whole|
      ensures whole[k] != 0
    {
      assert whole[k] == x[k - |a| - 1];
    }
  }

  /** The last zero byte is the separator, whatever comes before it. */
  lemma LastZeroSeparates(a: seq<Byte>, x: seq<Byte>, b: seq<Byte>, y: seq<Byte>)
    requires 0 !in x && 0 !in y
    requires a + [0] + x == b + [0] + y
    ensures a == b && x == y
  {
    NoZeroAfter(a, x);
    NoZeroAfter(b, y);
    assert |a| == |b|;
    var whole := a + [0] + x;
    assert a == whole[..|a|] && b == whole[..|a|];
    assert x == whole[|a| + 1..] && y == whole[|a| + 1..];
  }

  /** MAIN. For any circuit names at all: two accepted submissions feed the hash
      the same bytes exactly when they name one circuit and their inputs are the
      same up to the order of object members. */
  lemma JobsAreIdentifiedByContent(circuit: string, inputs: Json, circuit': string, inputs': Json)
    requires Acceptable(inputs) && Acceptable(inputs')
    ensures Preimage(circuit, inputs) == Preimage(circuit', inputs') <==> circuit == circuit' && Same(inputs, inputs')
  {
    CanonicalIsUnique(inputs, inputs');
    var x, y := Canonical(inputs), Canonical(inputs');
    NormKeeps(inputs);
    NormKeeps(inputs');
    PrintIsZeroFree(Norm(inputs));
    PrintIsZeroFree(Norm(inputs'));
    ZeroesAreZeroes(x);
    ZeroesAreZeroes(y);
    if Preimage(circuit, inputs) == Preimage(circuit', inputs') {
      LastZeroSeparates(Encode(circuit), Encode(x), Encode(circuit'), Encode(y));
      EncodingIsInjective(circuit, circuit');
      EncodingIsInjective(x, y);
    }
  }

  /** With a digest that does not collide on the two preimages, so are jobs. */
  lemma DigestsIdentifyJobs(
    digest: seq<Byte> -> seq<Byte>, circuit: string, inputs: Json, circuit': string, inputs': Json)
    requires Acceptable(inputs) && Acceptable(inputs')
    requires digest(Preimage(circuit, inputs)) == digest(Preimage(circuit', inputs')) ==>
               Preimage(circuit, inputs) == Preimage(circuit', inputs')
    ensures digest(Preimage(circuit, inputs)) == digest(Preimage(circuit', inputs'))
       <==> circuit == circuit' && Same(inputs, inputs')
  {
    JobsAreIdentifiedByContent(circuit, inputs, circuit', inputs');
  }
}
