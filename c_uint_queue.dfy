/** core/src/details/uint_queue.c: a fixed-size ring buffer of unsigned
    integers. The write, read and committed ("max") positions are uint32_t
    counters that only ever grow (wrapping at 2**32); a position is turned
    into a slot by taking it modulo the slot count. One thread at a time is
    modelled, so every compare-exchange succeeds at its first attempt. */
module CUintQueue {
  import opened Common
  import opened Arith

  const B32: int := 0x1_0000_0000

  /** uint32_t `x + 1`, wrapping at 2**32. */
  function Inc(x: u32): (r: u32)
    ensures r as int == (x as int + 1) % B32
  {
    if x == 0xFFFF_FFFF then 0 else x + 1
  }

  /** convert_to_index: a position modulo the slot count. */
  function SlotOf(position: u32, size: nat): (r: nat)
    requires size > 0
    ensures r < size
  {
    position as int % size
  }

  /** The queue's fields as a value: the three positions and the slots. */
  datatype Ring = Ring(write: u32, read: u32, max: u32, slots: seq<u32>)

  /** A queue as a single thread sees it between calls: a non-empty slot
      array whose length fits uint32_t, and every written element committed
      (the max index caught up with the write index). */
  predicate Steady(q: Ring) {
    0 < |q.slots| < B32 && q.max == q.write
  }

  /** The number of elements between the read and the write position, as
      uint32_t subtraction computes it. */
  function Count(q: Ring): nat {
    (q.write as int - q.read as int) % B32
  }

  /** The elements in the order pop hands them out. */
  function Contents(q: Ring): seq<u32>
    requires Steady(q)
  {
    seq(Count(q), i requires 0 <= i < Count(q) =>
      q.slots[((q.read as int + i) % B32) % |q.slots|])
  }

  /** connector_uint_queue_push on a non-NULL queue: ERROR when the slot after
      the write position is the read slot; otherwise the element goes into
      the write slot and the write and max positions advance. */
  function Push(q: Ring, elem: u32): (r: (Status, Ring))
    requires Steady(q)
    ensures Steady(r.1) && |r.1.slots| == |q.slots|
  {
    var size := |q.slots|;
    if SlotOf(Inc(q.write), size) == SlotOf(q.read, size) then (Error, q)
    else (Success, Ring(Inc(q.write), q.read, Inc(q.write), q.slots[SlotOf(q.write, size) := elem]))
  }

  /** connector_uint_queue_pop: ERROR, with `*retval` left at `prior`, when the
      read slot is the max slot; otherwise the read slot's element, and the
      read position advances. */
  function Pop(q: Ring, prior: u32): (r: (Status, u32, Ring))
    requires Steady(q)
    ensures Steady(r.2) && r.2.slots == q.slots
  {
    var size := |q.slots|;
    if SlotOf(q.read, size) == SlotOf(q.max, size) then (Error, prior, q)
    else (Success, q.slots[SlotOf(q.read, size)], q.(read := Inc(q.read)))
  }

  /** The positions have not wrapped past 2**32 since the read position, and
      the write position can still advance without wrapping. */
  predicate Unwrapped(q: Ring) {
    q.read <= q.write < 0xFFFF_FFFF
  }

  /** Away from the wrap, push is a FIFO append: it fails exactly when the
      queue holds one element fewer than it has slots, and then changes
      nothing. */
  lemma PushAppends(q: Ring, elem: u32)
    requires Steady(q) && Unwrapped(q) && Count(q) < |q.slots|
    ensures Push(q, elem).0 == Success <==> Count(q) < |q.slots| - 1
    ensures Push(q, elem).0 == Error ==> Push(q, elem).1 == q
    ensures Push(q, elem).0 == Success ==>
      Count(Push(q, elem).1) == Count(q) + 1 && Contents(Push(q, elem).1) == Contents(q) + [elem]
  {
    var size := |q.slots|;
    var w, r := q.write as int, q.read as int;
    ModSmall(w - r, B32);
    assert Inc(q.write) as int == w + 1;
    if Count(q) == size - 1 {
      ModShift(r, size);
      assert w + 1 == r + size;
    } else {
      ModDistinct(r, w + 1, size);
      PushRoom(q, elem);
    }
  }

  lemma PushRoom(q: Ring, elem: u32)
    requires Steady(q) && Unwrapped(q) && Count(q) < |q.slots| - 1
    requires Push(q, elem).0 == Success
    ensures Count(Push(q, elem).1) == Count(q) + 1 && Contents(Push(q, elem).1) == Contents(q) + [elem]
  {
    var size := |q.slots|;
    var w, r := q.write as int, q.read as int;
    var c := Count(q);
    ModSmall(w - r, B32);
    assert c == w - r;
    var q' := Push(q, elem).1;
    assert q'.read == q.read && q'.write as int == w + 1;
    assert q'.slots == q.slots[w % size := elem];
    ModSmall(w + 1 - r, B32);
    assert Count(q') == c + 1;
    forall i | 0 <= i < c
      ensures Contents(q')[i] == Contents(q)[i]
    {
      ModSmall(r + i, B32);
      ModDistinct(r + i, w, size);
    }
    ModSmall(r + c, B32);
    assert Contents(q')[c] == elem;
    assert Contents(q') == Contents(q) + [elem];
  }

  /** Away from the wrap, pop takes the oldest element: it fails exactly when
      the queue is empty, and then hands back `*retval` untouched. */
  lemma PopTakesFront(q: Ring, prior: u32)
    requires Steady(q) && Unwrapped(q) && Count(q) < |q.slots|
    ensures Pop(q, prior).0 == Success <==> Count(q) > 0
    ensures Pop(q, prior).0 == Error ==> Pop(q, prior).1 == prior && Pop(q, prior).2 == q
    ensures Pop(q, prior).0 == Success ==>
      Pop(q, prior).1 == Contents(q)[0] && Contents(Pop(q, prior).2) == Contents(q)[1..]
  {
    var size := |q.slots|;
    var w, r := q.write as int, q.read as int;
    ModSmall(w - r, B32);
    if Count(q) > 0 {
      ModDistinct(r, w, size);
      PopRest(q, prior);
    }
  }

  lemma PopRest(q: Ring, prior: u32)
    requires Steady(q) && Unwrapped(q) && 0 < Count(q) < |q.slots|
    requires Pop(q, prior).0 == Success
    ensures Pop(q, prior).1 == Contents(q)[0] && Contents(Pop(q, prior).2) == Contents(q)[1..]
  {
    var r := q.read as int;
    ModSmall(r, B32);
    var q' := q.(read := Inc(q.read));
    assert Pop(q, prior).2 == q';
    ContentsAfterRead(q, q');
  }

  /** Advancing the read position by one drops the oldest element. */
  lemma ContentsAfterRead(q: Ring, q': Ring)
    requires Steady(q) && Unwrapped(q) && 0 < Count(q) < |q.slots|
    requires q' == q.(read := Inc(q.read))
    ensures Steady(q') && Contents(q') == Contents(q)[1..]
  {
    var w, r := q.write as int, q.read as int;
    ModSmall(w - r, B32);
    var c := Count(q);
    assert q'.read as int == r + 1;
    ModSmall(w - r - 1, B32);
    assert Count(q') == c - 1;
    var a, b := Contents(q'), Contents(q)[1..];
    forall i | 0 <= i < c - 1
      ensures a[i] == b[i]
    {
      ModSmall(r + 1 + i, B32);
    }
  }

  /** Pushing several elements in turn: whether every push succeeded, and the
      final queue. */
  function PushAll(q: Ring, elems: seq<u32>): (r: (bool, Ring))
    requires Steady(q)
    ensures Steady(r.1) && |r.1.slots| == |q.slots|
    decreases |elems|
  {
    if elems == [] then (true, q)
    else
      var (status, next) := Push(q, elems[0]);
      var (rest, last) := PushAll(next, elems[1..]);
      (status == Success && rest, last)
  }

  /** Popping n times in turn: whether every pop succeeded, and the values. */
  function PopAll(q: Ring, n: nat): (r: (bool, seq<u32>))
    requires Steady(q)
    ensures |r.1| == n
    decreases n
  {
    if n == 0 then (true, [])
    else
      var (status, value, next) := Pop(q, 0);
      var (rest, values) := PopAll(next, n - 1);
      (status == Success && rest, [value] + values)
  }

  /** Away from the wrap, n pops in a row all succeed exactly when the queue
      holds at least n elements, and then hand out its first n elements in
      the order they went in. */
  lemma {:induction false} PopAllTakesFront(q: Ring, n: nat)
    requires Steady(q) && Unwrapped(q) && Count(q) < |q.slots|
    ensures PopAll(q, n).0 <==> n <= Count(q)
    ensures n <= Count(q) ==> PopAll(q, n).1 == Contents(q)[..n]
    decreases n
  {
    if n > 0 {
      PopTakesFront(q, 0);
      var next := Pop(q, 0).2;
      if Count(q) > 0 {
        assert next.read as int == q.read as int + 1;
        assert Count(next) == |Contents(q)[1..]| == Count(q) - 1;
        PopAllTakesFront(next, n - 1);
        if n <= Count(q) {
          assert Contents(q)[..n] == [Contents(q)[0]] + Contents(q)[1..][..n - 1];
        }
      }
    }
  }

  /** Away from the wrap, a run of pushes that fits is a FIFO append of the
      whole run. */
  lemma {:induction false} PushAllAppends(q: Ring, elems: seq<u32>)
    requires Steady(q) && q.read <= q.write && q.write as int + |elems| < 0xFFFF_FFFF
    requires Count(q) + |elems| < |q.slots|
    ensures PushAll(q, elems).0
    ensures Contents(PushAll(q, elems).1) == Contents(q) + elems
    ensures PushAll(q, elems).1.read == q.read
    ensures PushAll(q, elems).1.write as int == q.write as int + |elems|
    decreases |elems|
  {
    if elems != [] {
      assert Count(q) == q.write as int - q.read as int;
      PushAppends(q, elems[0]);
      var next := Push(q, elems[0]).1;
      PushAllAppends(next, elems[1..]);
      assert Contents(q) + [elems[0]] + elems[1..] == Contents(q) + elems;
    }
  }

  /** The slot count create allocates for a request of n: n + 1, made even
      (`size += 1 + ((size & 1) ^ 1)`), in uint32_t arithmetic. */
  function SlotCount(n: u32): (r: u32)
  {
    ((n as int + 1 + (if n % 2 == 0 then 1 else 0)) % B32) as u32
  }

  /** The slot count is even and exceeds the request by one or two, so the
      queue holds at least n elements; only requests of 2**32 - 2 and above
      wrap to zero slots. */
  lemma SlotCountBounds(n: u32)
    ensures SlotCount(n) == 0 <==> n >= 0xFFFF_FFFE
    ensures n < 0xFFFF_FFFE ==>
      SlotCount(n) % 2 == 0 && n as int + 1 <= SlotCount(n) as int <= n as int + 2
  {
  }

  /** The queue create(n) sets up: all positions zero, every slot zeroed. */
  function Fresh(n: u32): Ring {
    Ring(0, 0, 0, seq(SlotCount(n) as int, _ => 0))
  }

  /** A freshly created queue takes n elements in a row and gives them back
      in the order they went in. */
  lemma CreatedHoldsRequest(n: u32, elems: seq<u32>)
    requires 0 < n < 0xFFFF_FFFE && |elems| == n as int
    ensures Steady(Fresh(n)) && PushAll(Fresh(n), elems).0
    ensures Contents(PushAll(Fresh(n), elems).1) == elems
  {
    SlotCountBounds(n);
    assert Contents(Fresh(n)) == [];
    PushAllAppends(Fresh(n), elems);
  }

  /** Six slots (a request of four or five), all positions six below the
      uint32_t wrap. */
  const WrapStart: Ring := Ring(0xFFFF_FFFA, 0xFFFF_FFFA, 0xFFFF_FFFA, [0, 0, 0, 0, 0, 0])

  /** WrapStart after seven pushes: the write position has wrapped to one
      and 7 sits in slot zero, where 3 was. */
  const WrapEnd: Ring := Ring(1, 0xFFFF_FFFA, 1, [7, 4, 5, 6, 1, 2])

  /** WrapStart after its first three pushes: slots 4, 5 and 0 are filled. */
  const WrapMid: Ring := Ring(0xFFFF_FFFD, 0xFFFF_FFFA, 0xFFFF_FFFD, [3, 0, 0, 0, 1, 2])

  /** The seven pushes one by one: the first three fill slots 4, 5 and 0
      (2**32 - 4 is a multiple of six), slot 4 comes next only after the
      wrap, and the seventh push finds slot 1 and the read slot 4 apart. */
  lemma WrapPushes()
    ensures PushAll(WrapStart, [1, 2, 3, 4, 5, 6, 7]) == (true, WrapEnd)
  {
    WrapPushesFirst();
    WrapPushesLast();
  }

  /** The first three pushes: positions 2**32 - 6 to 2**32 - 4, slots 4, 5
      and 0. */
  lemma WrapPushesFirst()
    ensures PushAll(WrapStart, [1, 2, 3, 4, 5, 6, 7]) == PushAll(WrapMid, [4, 5, 6, 7])
  {
    var q1 := Ring(0xFFFF_FFFB, 0xFFFF_FFFA, 0xFFFF_FFFB, [0, 0, 0, 0, 1, 0]);
    var q2 := Ring(0xFFFF_FFFC, 0xFFFF_FFFA, 0xFFFF_FFFC, [0, 0, 0, 0, 1, 2]);
    WrapSlots();
    PushStep(WrapStart, 1, q1, [2, 3, 4, 5, 6, 7]);
    PushStep(q1, 2, q2, [3, 4, 5, 6, 7]);
    PushStep(q2, 3, WrapMid, [4, 5, 6, 7]);
  }

  /** The last four pushes: the write position crosses the wrap between the
      sixth and the seventh. */
  lemma WrapPushesLast()
    ensures PushAll(WrapMid, [4, 5, 6, 7]) == (true, WrapEnd)
  {
    var q4 := Ring(0xFFFF_FFFE, 0xFFFF_FFFA, 0xFFFF_FFFE, [3, 4, 0, 0, 1, 2]);
    var q5 := Ring(0xFFFF_FFFF, 0xFFFF_FFFA, 0xFFFF_FFFF, [3, 4, 5, 0, 1, 2]);
    var q6 := Ring(0, 0xFFFF_FFFA, 0, [3, 4, 5, 6, 1, 2]);
    WrapSlots();
    PushStep(WrapMid, 4, q4, [5, 6, 7]);
    PushStep(q4, 5, q5, [6, 7]);
    PushStep(q5, 6, q6, [7]);
    PushStep(q6, 7, WrapEnd, []);
    assert [7] + [] == [7];
  }

  /** The slots of the positions from WrapStart's on, in a six-slot ring. */
  lemma WrapSlots()
    ensures SlotOf(0xFFFF_FFFA, 6) == 4 && SlotOf(0xFFFF_FFFB, 6) == 5
    ensures SlotOf(0xFFFF_FFFC, 6) == 0 && SlotOf(0xFFFF_FFFD, 6) == 1
    ensures SlotOf(0xFFFF_FFFE, 6) == 2 && SlotOf(0xFFFF_FFFF, 6) == 3
    ensures SlotOf(0, 6) == 0 && SlotOf(1, 6) == 1
  {
    DivModUnique(0xFFFF_FFFA, 6, 715827881, 4);
    DivModUnique(0xFFFF_FFFB, 6, 715827881, 5);
    DivModUnique(0xFFFF_FFFC, 6, 715827882, 0);
    DivModUnique(0xFFFF_FFFD, 6, 715827882, 1);
    DivModUnique(0xFFFF_FFFE, 6, 715827882, 2);
    DivModUnique(0xFFFF_FFFF, 6, 715827882, 3);
  }

  /** One successful push into a six-slot ring, as PushAll takes it. */
  lemma PushStep(q: Ring, elem: u32, q': Ring, rest: seq<u32>)
    requires Steady(q) && |q.slots| == 6
    requires SlotOf(Inc(q.write), 6) != SlotOf(q.read, 6)
    requires q' == Ring(Inc(q.write), q.read, Inc(q.write), q.slots[SlotOf(q.write, 6) := elem])
    ensures PushAll(q, [elem] + rest) == PushAll(q', rest)
  {
    assert Push(q, elem) == (Success, q');
    assert ([elem] + rest)[0] == elem && ([elem] + rest)[1..] == rest;
  }

  /** Three pops from WrapEnd: 1, 2 and then 7 from slot zero. */
  lemma WrapPops()
    ensures PopAll(WrapEnd, 3) == (true, [1, 2, 7])
  {
    var p1 := WrapEnd.(read := 0xFFFF_FFFB);
    var p2 := WrapEnd.(read := 0xFFFF_FFFC);
    var p3 := WrapEnd.(read := 0xFFFF_FFFD);
    WrapSlots();
    assert Pop(WrapEnd, 0) == (Success, 1, p1);
    assert Pop(p1, 0) == (Success, 2, p2);
    assert Pop(p2, 0) == (Success, 7, p3);
    assert PopAll(p3, 0) == (true, []);
    assert PopAll(p2, 1) == (true, [7] + PopAll(p3, 0).1);
    assert PopAll(p1, 2) == (true, [2] + PopAll(p2, 1).1);
    assert PopAll(WrapEnd, 3) == (true, [1] + PopAll(p1, 2).1);
    assert [1] + ([2] + ([7] + [])) == [1, 2, 7];
  }

  /** Across the wrap the slot sequence jumps (2**32 is not a multiple of six),
      so the full test stops working: seven pushes into six slots all
      succeed, the seventh overwrites the third element, and the third pop
      returns 7 where 3 was pushed. */
  lemma WrapBreaksFifo()
    ensures Steady(WrapStart)
    ensures PushAll(WrapStart, [1, 2, 3, 4, 5, 6, 7]).0
    ensures PopAll(PushAll(WrapStart, [1, 2, 3, 4, 5, 6, 7]).1, 3) == (true, [1, 2, 7])
  {
    WrapPushes();
    WrapPops();
  }

  /** The evidently intended ring: positions kept below the slot count, so
      that advancing one wraps to slot 0 at the end of the array. */
  predicate SteadyCorrected(q: Ring) {
    Steady(q) && (q.write as int) < |q.slots| && (q.read as int) < |q.slots|
  }

  /** A position advanced by one, wrapping at the slot count. */
  function Next(x: u32, size: nat): (r: u32)
    requires x as int < size < B32
    ensures r as int < size
  {
    if x as int + 1 == size then 0 else x + 1
  }

  lemma NextIsMod(x: u32, size: nat)
    requires x as int < size < B32
    ensures Next(x, size) as int == (x as int + 1) % size
  {
    if x as int + 1 == size {
      DivModUnique(size, size, 1, 0);
    } else {
      ModSmall(x as int + 1, size);
    }
  }

  function CountCorrected(q: Ring): nat
    requires SteadyCorrected(q)
  {
    (q.write as int - q.read as int) % |q.slots|
  }

  function ContentsCorrected(q: Ring): seq<u32>
    requires SteadyCorrected(q)
  {
    seq(CountCorrected(q), i requires 0 <= i < CountCorrected(q) =>
      q.slots[(q.read as int + i) % |q.slots|])
  }

  /** Push with slot positions: full when the next write slot is the read slot. */
  function PushCorrected(q: Ring, elem: u32): (r: (Status, Ring))
    requires SteadyCorrected(q)
    ensures SteadyCorrected(r.1) && |r.1.slots| == |q.slots|
  {
    var size := |q.slots|;
    if Next(q.write, size) == q.read then (Error, q)
    else (Success, Ring(Next(q.write, size), q.read, Next(q.write, size), q.slots[q.write := elem]))
  }

  /** Pop with slot positions: empty when the read slot is the max slot. */
  function PopCorrected(q: Ring, prior: u32): (r: (Status, u32, Ring))
    requires SteadyCorrected(q)
    ensures SteadyCorrected(r.2) && r.2.slots == q.slots
  {
    if q.read == q.max then (Error, prior, q)
    else (Success, q.slots[q.read], q.(read := Next(q.read, |q.slots|)))
  }

  /** Reducing an addend first does not change a remainder. */
  lemma ModAddInner(a: int, b: int, n: int)
    requires 0 <= a && 0 <= b && 0 < n
    ensures (a % n + b) % n == (a + b) % n
  {
    var qa, ra := a / n, a % n;
    assert a == qa * n + ra;
    var qb, rb := (ra + b) / n, (ra + b) % n;
    assert ra + b == qb * n + rb;
    assert a + b == (qa + qb) * n + rb;
    DivModUnique(a + b, n, qa + qb, rb);
  }

  /** Going k slots forward from r and measuring the distance back gives k. */
  lemma OffsetMod(r: int, k: int, n: int)
    requires 0 <= r < n && 0 <= k < n
    ensures ((r + k) % n - r) % n == k
  {
    if r + k < n {
      ModSmall(r + k, n);
      ModSmall(k, n);
    } else {
      DivModUnique(r + k, n, 1, r + k - n);
      DivModUnique(k - n, n, -1, k);
    }
  }

  /** The write slot lies CountCorrected slots after the read slot. */
  lemma WriteAfterRead(q: Ring)
    requires SteadyCorrected(q)
    ensures q.write as int == (q.read as int + CountCorrected(q)) % |q.slots|
  {
    var size, w, r := |q.slots|, q.write as int, q.read as int;
    if w >= r {
      ModSmall(w - r, size);
      ModSmall(w, size);
    } else {
      DivModUnique(w - r, size, -1, w - r + size);
      DivModUnique(w + size, size, 1, w);
    }
  }

  /** The corrected push is a FIFO append in every state: it fails exactly
      when all but one slot are in use. */
  lemma PushCorrectedAppends(q: Ring, elem: u32)
    requires SteadyCorrected(q)
    ensures PushCorrected(q, elem).0 == Success <==> CountCorrected(q) < |q.slots| - 1
    ensures PushCorrected(q, elem).0 == Error ==> PushCorrected(q, elem).1 == q
    ensures PushCorrected(q, elem).0 == Success ==>
      ContentsCorrected(PushCorrected(q, elem).1) == ContentsCorrected(q) + [elem]
  {
    var size, r := |q.slots|, q.read as int;
    var c := CountCorrected(q);
    WriteAfterRead(q);
    ModAddInner(r + c, 1, size);
    NextIsMod(q.write, size);
    assert Next(q.write, size) as int == (r + c + 1) % size;
    if c + 1 == size {
      DivModUnique(r + c + 1, size, 1, r);
    } else {
      ModSmall(r, size);
      ModDistinct(r, r + c + 1, size);
      PushCorrectedRoom(q, elem);
    }
  }

  lemma PushCorrectedRoom(q: Ring, elem: u32)
    requires SteadyCorrected(q) && CountCorrected(q) < |q.slots| - 1
    requires q.write as int == (q.read as int + CountCorrected(q)) % |q.slots|
    requires Next(q.write, |q.slots|) as int == (q.read as int + CountCorrected(q) + 1) % |q.slots|
    requires PushCorrected(q, elem).0 == Success
    ensures ContentsCorrected(PushCorrected(q, elem).1) == ContentsCorrected(q) + [elem]
  {
    var size, r := |q.slots|, q.read as int;
    var c := CountCorrected(q);
    var q' := PushCorrected(q, elem).1;
    OffsetMod(r, c + 1, size);
    assert CountCorrected(q') == c + 1;
    forall i | 0 <= i < c
      ensures ContentsCorrected(q')[i] == ContentsCorrected(q)[i]
    {
      ModDistinct(r + i, r + c, size);
    }
    assert ContentsCorrected(q') == ContentsCorrected(q) + [elem];
  }

  /** The corrected pop takes the oldest element in every state, and fails
      exactly when the queue is empty. */
  lemma PopCorrectedTakesFront(q: Ring, prior: u32)
    requires SteadyCorrected(q)
    ensures PopCorrected(q, prior).0 == Success <==> CountCorrected(q) > 0
    ensures PopCorrected(q, prior).0 == Error ==> PopCorrected(q, prior).1 == prior && PopCorrected(q, prior).2 == q
    ensures PopCorrected(q, prior).0 == Success ==>
      PopCorrected(q, prior).1 == ContentsCorrected(q)[0] &&
      ContentsCorrected(PopCorrected(q, prior).2) == ContentsCorrected(q)[1..]
  {
    var size, r := |q.slots|, q.read as int;
    var c := CountCorrected(q);
    WriteAfterRead(q);
    ModSmall(r, size);
    if c > 0 {
      ModDistinct(r, r + c, size);
      PopCorrectedRest(q, prior);
    }
  }

  lemma PopCorrectedRest(q: Ring, prior: u32)
    requires SteadyCorrected(q) && CountCorrected(q) > 0
    requires q.write as int == (q.read as int + CountCorrected(q)) % |q.slots|
    requires PopCorrected(q, prior).0 == Success
    ensures PopCorrected(q, prior).1 == ContentsCorrected(q)[0]
    ensures ContentsCorrected(PopCorrected(q, prior).2) == ContentsCorrected(q)[1..]
  {
    var size, r := |q.slots|, q.read as int;
    var c := CountCorrected(q);
    ModSmall(r, size);
    var q' := PopCorrected(q, prior).2;
    var r' := q'.read as int;
    NextIsMod(q.read, size);
    assert r' == (r + 1) % size;
    ModAddInner(r + 1, c - 1, size);
    OffsetMod(r', c - 1, size);
    assert CountCorrected(q') == c - 1;
    forall i | 0 <= i < c - 1
      ensures ContentsCorrected(q')[i] == ContentsCorrected(q)[i + 1]
    {
      ModAddInner(r + 1, i, size);
    }
  }

  /** connector_uint_queue_t. `live` is false once the queue has been freed. */
  class UintQueue {
    var writeIndex: u32
    var readIndex: u32
    var maxIndex: u32
    var size: u32
    var slots: array<u32>
    var live: bool
    /** Whether `queue->array` has been assigned at all: until then it holds
        whatever the allocation left there, and `slots` stands for nothing. */
    ghost var arrayAssigned: bool
    /** Whether destroy has freed a pointer it had no right to free: a
        never-assigned `queue->array`, or a queue already freed. */
    ghost var badFree: bool

    /** The fields as a Ring value. */
    function State(): Ring
      reads this, slots
    {
      Ring(writeIndex, readIndex, maxIndex, slots[..])
    }

    ghost predicate Valid()
      reads this, slots
    {
      live && arrayAssigned && slots.Length == size as int && Steady(State())
    }

    /** The bare allocation of the struct: malloc leaves every field
        indeterminate, so nothing is promised about the positions or the
        size, and the array pointer has not been assigned. */
    constructor()
      ensures live && !arrayAssigned && !badFree
    {
      slots := new u32[0];
      live := true;
      arrayAssigned := false;
      badFree := false;
    }
  }

  /** connector_uint_queue_create: allocates the struct and, for a non-zero
      request, assigns `queue->array` the result of allocating SlotCount(size)
      slots, zeroed when the allocation succeeds. When the struct is
      allocated but the request is zero or the array allocation fails, the
      queue is destroyed and the freed pointer returned all the same; for a
      zero request destroy frees the never-assigned array pointer. A request
      of 2**32 - 2 or more wraps the slot count to zero, and when that
      allocation succeeds the queue is returned live but not valid. */
  method Create(size: u32, structAllocated: bool, arrayAllocated: bool) returns (queue: UintQueue?)
    ensures queue == null <==> !structAllocated
    ensures queue != null ==> fresh(queue) && (queue.live <==> size > 0 && arrayAllocated)
    ensures queue != null ==> (queue.badFree <==> size == 0)
    ensures queue != null && queue.live ==>
      fresh(queue.slots) && queue.size == SlotCount(size) &&
      queue.State() == Fresh(size) && (queue.Valid() <==> size < 0xFFFF_FFFE)
  {
    if !structAllocated {
      return null;
    }
    queue := new UintQueue();
    var success := false;
    if size > 0 {
      var slotCount := SlotCount(size);
      queue.arrayAssigned := true;
      if arrayAllocated {
        queue.slots := new u32[slotCount](_ => 0);
        queue.size := slotCount;
        queue.writeIndex, queue.readIndex, queue.maxIndex := 0, 0, 0;
        success := true;
      }
    }
    SlotCountBounds(size);
    if !success {
      var _ := Destroy(queue);
    }
  }

  /** Create as evidently intended: NULL whenever no valid queue could be set
      up, without freeing anything that was never assigned. */
  method CreateCorrected(size: u32, structAllocated: bool, arrayAllocated: bool) returns (queue: UintQueue?)
    ensures queue != null <==> structAllocated && 0 < size < 0xFFFF_FFFE && arrayAllocated
    ensures queue != null ==>
      fresh(queue) && fresh(queue.slots) && queue.Valid() && !queue.badFree &&
      queue.State() == Fresh(size)
  {
    if !structAllocated || size == 0 || size >= 0xFFFF_FFFE || !arrayAllocated {
      return null;
    }
    SlotCountBounds(size);
    var slotCount := SlotCount(size);
    queue := new UintQueue();
    queue.slots := new u32[slotCount](_ => 0);
    queue.arrayAssigned := true;
    queue.size := slotCount;
    queue.writeIndex, queue.readIndex, queue.maxIndex := 0, 0, 0;
  }

  /** connector_uint_queue_push: INVALID for NULL, otherwise Push. */
  method PushElement(queue: UintQueue?, elem: u32) returns (status: Status)
    requires queue != null ==> queue.Valid()
    modifies if queue == null then {} else {queue, queue.slots}
    ensures queue == null ==> status == Invalid
    ensures queue != null ==>
      queue.Valid() && queue.slots == old(queue.slots) && queue.size == old(queue.size) &&
      (status, queue.State()) == Push(old(queue.State()), elem)
  {
    if queue == null {
      return Invalid;
    }
    var w, r := queue.writeIndex, queue.readIndex;
    if SlotOf(Inc(w), queue.size as int) == SlotOf(r, queue.size as int) {
      return Error;
    }
    queue.writeIndex := Inc(w);
    queue.slots[SlotOf(w, queue.size as int)] := elem;
    queue.maxIndex := Inc(w);
    status := Success;
  }

  /** connector_uint_queue_pop: `prior` is the caller's `*retval`. */
  method PopElement(queue: UintQueue, prior: u32) returns (status: Status, retval: u32)
    requires queue.Valid()
    modifies queue
    ensures queue.Valid() && queue.slots == old(queue.slots) && queue.size == old(queue.size)
    ensures (status, retval, queue.State()) == Pop(old(queue.State()), prior)
  {
    var r, m := queue.readIndex, queue.maxIndex;
    if SlotOf(r, queue.size as int) == SlotOf(m, queue.size as int) {
      return Error, prior;
    }
    retval := queue.slots[SlotOf(r, queue.size as int)];
    queue.readIndex := Inc(r);
    status := Success;
  }

  /** connector_uint_queue_destroy: ERROR for NULL, otherwise frees the array
      pointer and the queue. Freeing a never-assigned array pointer, or a
      queue already freed, is recorded in `badFree`. */
  method Destroy(queue: UintQueue?) returns (status: Status)
    modifies queue
    ensures queue == null <==> status == Error
    ensures queue != null ==> !queue.live && status == Success
    ensures queue != null ==>
      queue.badFree == (old(queue.badFree) || !old(queue.arrayAssigned) || !old(queue.live))
    ensures queue != null ==>
      queue.slots == old(queue.slots) && queue.size == old(queue.size) &&
      queue.arrayAssigned == old(queue.arrayAssigned) &&
      queue.writeIndex == old(queue.writeIndex) && queue.readIndex == old(queue.readIndex) &&
      queue.maxIndex == old(queue.maxIndex)
  {
    if queue == null {
      return Error;
    }
    queue.badFree := queue.badFree || !queue.arrayAssigned || !queue.live;
    queue.live := false;
    status := Success;
  }
}
