/** The unit tests of the base module, as concrete facts about the model. */
module BaseTests {
  import opened Base

  /** A future implemented outside the combinator layer whose await gives 100. */
  function MockFuture(): (r: Future<int>)
    ensures r.Terminates() && r.Await() == 100
  {
    ExternalResolution(() => 100);
    External(() => 100)
  }

  /** The value type of the tests that map a number to a vector. */
  datatype Val = Byte(b: nat) | Bytes(items: seq<nat>)

  /** `vec![0; n]`. */
  function Zeros(n: nat): seq<nat>
  {
    seq(n, _ => 0)
  }

  /** The closure of test_map_to_different_type: pushes `len` zeros onto an
      empty vector, one per loop iteration. */
  method PushZeros(len: nat) returns (v: seq<nat>)
    ensures |v| == len
    ensures forall i | 0 <= i < |v| :: v[i] == 0
  {
    v := [];
    var n := 0;
    while n < len
      invariant n <= len
      invariant |v| == n
      invariant forall i | 0 <= i < |v| :: v[i] == 0
    {
      v := v + [0];
      n := n + 1;
    }
  }

  /** The loop and `vec![0; n]` build the same vector. */
  lemma PushZerosIsZeros(len: nat, v: seq<nat>)
    requires |v| == len
    requires forall i | 0 <= i < |v| :: v[i] == 0
    ensures v == Zeros(len)
  {
  }

  /** Interprets a Byte as a vector length, as the tests' closures do. */
  function ZerosOf(x: Val): Val
  {
    match x
    case Byte(n) => Bytes(Zeros(n))
    case Bytes(_) => x
  }

  lemma TestLiftValueIntoFuture()
    ensures Lift(5).Await() == 5
  {
  }

  lemma TestMapToSameType()
    ensures Lift(5).Map(v => 2 * v).Await() == 10
  {
  }

  lemma TestMapToDifferentType()
    ensures Lift(Byte(5)).Map(ZerosOf).Await() == Bytes([0, 0, 0, 0, 0])
  {
  }

  lemma TestChainMap()
    ensures Lift(5).Map(v => 2 * v).Map(v => v + 1).Await() == 11
  {
  }

  lemma TestBindSameInnerType()
    ensures Lift(5).Bind(v => Lift(v + 50)).Await() == 55
  {
  }

  lemma TestBindDifferentInnerType()
    ensures Lift(Byte(5)).Bind(v => Lift(ZerosOf(v))).Await() == Bytes([0, 0, 0, 0, 0])
  {
  }

  lemma TestBindDifferentFutureImpl()
    ensures MockFuture().Bind(v => Lift(v * 2)).Await() == 200
  {
  }
}
