/** core/src/details/uuid_utils.c: three-way comparison of two identifiers. */
module CUuidUtils {
  import opened Common

  /** Lexicographic order on the four elements, as a sign: -1, 0 or 1. */
  function LexSign(x: seq<u32>, y: seq<u32>): int
    requires |x| == |y|
  {
    if |x| == 0 then 0
    else if x[0] < y[0] then -1
    else if x[0] > y[0] then 1
    else LexSign(x[1..], y[1..])
  }

  /** connector_compare_uuid: walks the elements front to back and stops at
      the first one that differs. */
  method CompareUuid(id0: Uuid, id1: Uuid) returns (result: int)
    ensures result == LexSign(id0, id1)
  {
    result := 0;
    var i := 0;
    while i < 4
      invariant 0 <= i <= 4
      invariant result == 0
      invariant id0[..i] == id1[..i]
      invariant LexSign(id0, id1) == LexSign(id0[i..], id1[i..])
    {
      if id0[i] < id1[i] {
        result := -1;
        break;
      } else if id0[i] > id1[i] {
        result := 1;
        break;
      }
      LexStep(id0[i..], id1[i..]);
      assert id0[..i + 1] == id0[..i] + [id0[i]];
      assert id1[..i + 1] == id1[..i] + [id1[i]];
      i := i + 1;
      assert id0[i - 1..][1..] == id0[i..];
      assert id1[i - 1..][1..] == id1[i..];
    }
    if result == 0 {
      assert id0[4..] == [] && id0[..4] == id0 && id1[..4] == id1;
    }
  }

  lemma LexStep(x: seq<u32>, y: seq<u32>)
    requires |x| == |y| > 0 && x[0] == y[0]
    ensures LexSign(x, y) == LexSign(x[1..], y[1..])
  {
  }

  /** The result is always -1, 0 or 1. */
  lemma {:induction false} LexSignRange(x: seq<u32>, y: seq<u32>)
    requires |x| == |y|
    ensures LexSign(x, y) in {-1, 0, 1}
  {
    if |x| > 0 && x[0] == y[0] {
      LexSignRange(x[1..], y[1..]);
    }
  }

  /** Zero exactly when all elements are equal. */
  lemma {:induction false} LexSignZeroIffEqual(x: seq<u32>, y: seq<u32>)
    requires |x| == |y|
    ensures LexSign(x, y) == 0 <==> x == y
  {
    if |x| > 0 {
      LexSignZeroIffEqual(x[1..], y[1..]);
      if x[0] == y[0] {
        assert x == [x[0]] + x[1..] && y == [y[0]] + y[1..];
      }
    }
  }

  /** Swapping the arguments negates the result. */
  lemma {:induction false} LexSignAntisymmetric(x: seq<u32>, y: seq<u32>)
    requires |x| == |y|
    ensures LexSign(x, y) == -LexSign(y, x)
  {
    if |x| > 0 && x[0] == y[0] {
      LexSignAntisymmetric(x[1..], y[1..]);
    }
  }

  /** A non-zero sign comes from the first element at which the two differ. */
  lemma {:induction false} LexSignFirstDifference(x: seq<u32>, y: seq<u32>, k: nat)
    requires |x| == |y| && k < |x|
    requires x[..k] == y[..k] && x[k] != y[k]
    ensures LexSign(x, y) == (if x[k] < y[k] then -1 else 1)
  {
    if k > 0 {
      assert x[0] == x[..k][0] && y[0] == y[..k][0];
      assert x[1..][..k - 1] == x[..k][1..] && y[1..][..k - 1] == y[..k][1..];
      LexSignFirstDifference(x[1..], y[1..], k - 1);
    }
  }
}
