/** module-python/lib/substanceconnector/framework/uuid_utils.py: conversion
    between a Python uuid.UUID (its 128-bit `int`) and the four 32-bit
    integers the native layer uses, most significant first. */
module PyUuidUtils {
  import opened Common
  import opened Arith

  const B32: nat := 0x1_0000_0000
  const B64: nat := 0x1_0000_0000_0000_0000
  const B96: nat := 0x1_0000_0000_0000_0000_0000_0000
  const B128: nat := 0x1_0000_0000_0000_0000_0000_0000_0000_0000

  /** The value range of uuid.UUID.int. */
  predicate IsUuidInt(v: int) {
    0 <= v < B128
  }

  /** Python's `|` on non-negative integers, bit by bit. */
  function BitOr(a: nat, b: nat): (r: nat)
    decreases a + b
  {
    if a == 0 then b
    else if b == 0 then a
    else 2 * BitOr(a / 2, b / 2) + (if a % 2 == 1 || b % 2 == 1 then 1 else 0)
  }

  /** The exceptions convert_integers_to_uuid can raise. */
  datatype PyError =
    | IndexError   // fewer than four integers
    | ValueError   // uuid.UUID(int=...) out of range

  /** convert_uuid_to_integers: `(v & (0xffffffff << k)) >> k` for k = 96, 64,
      32 and 0, that is, the 32 bits of v starting at bit k. The four integers are
      v's digits in base 2**32, most significant first. */
  function ToIntegers(v: int): (r: Uuid)
    requires IsUuidInt(v)
    ensures v == r[0] as int * B96 + r[1] as int * B64 + r[2] as int * B32 + r[3] as int
  {
    Digits(v);
    [((v / B96) % B32) as u32, ((v / B64) % B32) as u32, ((v / B32) % B32) as u32, (v % B32) as u32]
  }

  /** The four elements as the Python list of integers they are. */
  function AsInts(u: Uuid): (r: seq<int>)
    ensures |r| == 4 && forall i :: 0 <= i < 4 ==> r[i] == u[i] as int
  {
    [u[0] as int, u[1] as int, u[2] as int, u[3] as int]
  }

  /** convert_integers_to_uuid on a Python list of integers: element 3,
      or-ed with element 2 shifted left by 32, element 1 by 64 and element 0
      by 96, then uuid.UUID(int=...). A list shorter than four raises
      IndexError; a value outside 0 .. 2**128 - 1 raises ValueError, which is
      always so when an element is negative, since `|` with a negative operand
      gives a negative number. Elements after the fourth are ignored. */
  function FromIntegers(ints: seq<int>): (r: Result<int, PyError>)
    ensures r.Ok? ==> IsUuidInt(r.value)
  {
    if |ints| < 4 then Err(IndexError)
    else if ints[0] < 0 || ints[1] < 0 || ints[2] < 0 || ints[3] < 0 then Err(ValueError)
    else
      var v := BitOr(BitOr(BitOr(ints[3], ints[2] * B32), ints[1] * B64), ints[0] * B96);
      if v >= B128 then Err(ValueError) else Ok(v)
  }

  lemma {:induction false} Pow2Add(a: nat, b: nat)
    ensures Pow2(a + b) == Pow2(a) * Pow2(b)
  {
    if a > 0 {
      Pow2Add(a - 1, b);
      assert Pow2(a + b) == 2 * Pow2(a - 1 + b);
      Double(Pow2(a - 1), Pow2(b));
    }
  }

  lemma Double(x: int, y: int)
    ensures 2 * (x * y) == (2 * x) * y
  {
  }

  lemma Pow2Of32()
    ensures Pow2(32) == B32
  {
    assert Pow2(4) == 16;
    Pow2Add(4, 4);
    Pow2Add(8, 8);
    Pow2Add(16, 16);
  }

  lemma Pow2Of64()
    ensures Pow2(64) == B64
  {
    Pow2Of32();
    Pow2Add(32, 32);
  }

  lemma Pow2Of96()
    ensures Pow2(96) == B96
  {
    Pow2Of32();
    Pow2Of64();
    Pow2Add(64, 32);
  }

  lemma {:induction false} BitOrZero(a: nat)
    ensures BitOr(a, 0) == a && BitOr(0, a) == a
  {
  }

  /** Or-ing a value shifted left by k with one below 2**k adds the two. */
  lemma {:induction false} BitOrShift(lo: nat, hi: nat, k: nat)
    requires lo < Pow2(k)
    ensures BitOr(lo, hi * Pow2(k)) == hi * Pow2(k) + lo
  {
    var h := hi * Pow2(k);
    if lo == 0 || h == 0 {
      BitOrZero(h);
      BitOrZero(lo);
    } else {
      var p := Pow2(k - 1);
      assert Pow2(k) == 2 * p;
      var half := hi * p;
      Twice(hi, p);
      assert h == 2 * half;
      DivModUnique(h, 2, half, 0);
      BitOrShift(lo / 2, hi, k - 1);
      assert BitOr(lo, h) == 2 * BitOr(lo / 2, half) + lo % 2;
    }
  }

  lemma Twice(x: int, y: int)
    ensures x * (2 * y) == 2 * (x * y)
  {
  }

  /** An or is at least as large as each operand. */
  lemma {:induction false} BitOrAtLeast(a: nat, b: nat)
    ensures BitOr(a, b) >= a && BitOr(a, b) >= b
    decreases a + b
  {
    if a != 0 && b != 0 {
      BitOrAtLeast(a / 2, b / 2);
    }
  }

  /** Or-ing the four words into place, as convert_integers_to_uuid does, is
      their positional sum. */
  lemma OrIsSum(w0: nat, w1: nat, w2: nat, w3: nat)
    requires w0 < B32 && w1 < B32 && w2 < B32 && w3 < B32
    ensures BitOr(BitOr(BitOr(w3, w2 * B32), w1 * B64), w0 * B96)
         == w0 * B96 + w1 * B64 + w2 * B32 + w3
  {
    Pow2Of32();
    Pow2Of64();
    Pow2Of96();
    BitOrShift(w3, w2, 32);
    BitOrShift(w2 * B32 + w3, w1, 64);
    BitOrShift(w1 * B64 + w2 * B32 + w3, w0, 96);
  }

  /** Writing v in base 2**32. */
  lemma Digits(v: nat)
    requires v < B128
    ensures v == ((v / B96) % B32) * B96 + ((v / B64) % B32) * B64 + ((v / B32) % B32) * B32 + v % B32
  {
    var q1, w3 := v / B32, v % B32;
    var q2, w2 := q1 / B32, q1 % B32;
    var w0, w1 := q2 / B32, q2 % B32;
    assert v == q1 * B32 + w3;
    assert q1 == q2 * B32 + w2;
    assert q2 == w0 * B32 + w1;
    assert v == w0 * B96 + w1 * B64 + w2 * B32 + w3;
    assert w0 < B32;
    DigitsOfSum(w0, w1, w2, w3);
  }

  /** The base-2**32 digits of a positional sum are its terms. */
  lemma DigitsOfSum(w0: nat, w1: nat, w2: nat, w3: nat)
    requires w0 < B32 && w1 < B32 && w2 < B32 && w3 < B32
    ensures w0 * B96 + w1 * B64 + w2 * B32 + w3 < B128
    ensures var v := w0 * B96 + w1 * B64 + w2 * B32 + w3;
      (v / B96) % B32 == w0 && (v / B64) % B32 == w1 && (v / B32) % B32 == w2 && v % B32 == w3
  {
    var v := w0 * B96 + w1 * B64 + w2 * B32 + w3;
    DivModUnique(v, B96, w0, w1 * B64 + w2 * B32 + w3);
    ModSmall(w0, B32);
    DivModUnique(v, B64, w0 * B32 + w1, w2 * B32 + w3);
    DivModUnique(w0 * B32 + w1, B32, w0, w1);
    DivModUnique(v, B32, w0 * B64 + w1 * B32 + w2, w3);
    DivModUnique(w0 * B64 + w1 * B32 + w2, B32, w0 * B32 + w1, w2);
  }

  /** Converting to integers and back gives the same uuid. */
  lemma IntegersRoundTrip(v: int)
    requires IsUuidInt(v)
    ensures FromIntegers(AsInts(ToIntegers(v))) == Ok(v)
  {
    Digits(v);
    OrIsSum((v / B96) % B32, (v / B64) % B32, (v / B32) % B32, v % B32);
  }

  /** Four 32-bit integers survive the trip to a uuid and back. */
  lemma UuidRoundTrip(ints: Uuid)
    ensures FromIntegers(AsInts(ints)).Ok?
    ensures ToIntegers(FromIntegers(AsInts(ints)).value) == ints
  {
    var w0, w1, w2, w3 := ints[0] as nat, ints[1] as nat, ints[2] as nat, ints[3] as nat;
    var v := WordsToUuid(w0, w1, w2, w3);
    UuidToWords(v, w0, w1, w2, w3);
    assert ints == [w0 as u32, w1 as u32, w2 as u32, w3 as u32];
  }

  /** convert_integers_to_uuid on four 32-bit integers succeeds with their
      positional sum. */
  lemma WordsToUuid(w0: nat, w1: nat, w2: nat, w3: nat) returns (v: nat)
    requires w0 < B32 && w1 < B32 && w2 < B32 && w3 < B32
    ensures v == w0 * B96 + w1 * B64 + w2 * B32 + w3
    ensures FromIntegers([w0, w1, w2, w3]) == Ok(v)
  {
    v := w0 * B96 + w1 * B64 + w2 * B32 + w3;
    OrIsSum(w0, w1, w2, w3);
    DigitsOfSum(w0, w1, w2, w3);
  }

  /** convert_uuid_to_integers on a positional sum gives its four terms. */
  lemma UuidToWords(v: nat, w0: nat, w1: nat, w2: nat, w3: nat)
    requires w0 < B32 && w1 < B32 && w2 < B32 && w3 < B32
    requires v == w0 * B96 + w1 * B64 + w2 * B32 + w3
    ensures IsUuidInt(v)
    ensures ToIntegers(v) == [w0 as u32, w1 as u32, w2 as u32, w3 as u32]
  {
    DigitsOfSum(w0, w1, w2, w3);
  }

  /** Too few integers raise IndexError, and only then. */
  lemma FromIntegersIndexError(ints: seq<int>)
    ensures FromIntegers(ints) == Err(IndexError) <==> |ints| < 4
  {
  }

  /** A first element of 2**32 or more cannot fit in a uuid. */
  lemma FromIntegersOversized(ints: seq<int>)
    requires |ints| >= 4 && ints[0] >= B32
    requires ints[1] >= 0 && ints[2] >= 0 && ints[3] >= 0
    ensures FromIntegers(ints) == Err(ValueError)
  {
    var a := BitOr(BitOr(ints[3], ints[2] * B32), ints[1] * B64);
    BitOrAtLeast(a, ints[0] * B96);
  }
}
