/** module-cpp/src/framework/uuid.cpp: ordering and equality of identifiers
    and their canonical text form.

    A C++ std::string is a sequence of bytes; here each byte is a `char`
    whose code is below 256. */
module CppUuid {
  import opened Common
  import CUuidUtils
  import opened Arith

  // ---------------------------------------------------------------------
  // operator< and operator== (std::tuple comparison of the four elements)

  /** operator<: the std::tuple order over (e0, e1, e2, e3), which agrees
      with the C core's connector_compare_uuid giving -1. */
  predicate Less(x: Uuid, y: Uuid)
    ensures Less(x, y) <==> CUuidUtils.LexSign(x, y) == -1
  {
    LexSignSteps(x, y);
    x[0] < y[0] || (x[0] == y[0] &&
    (x[1] < y[1] || (x[1] == y[1] &&
    (x[2] < y[2] || (x[2] == y[2] && x[3] < y[3])))))
  }

  /** operator==: the std::tuple equality of the four elements, which is
      identity of the identifiers. */
  predicate Equal(x: Uuid, y: Uuid)
    ensures Equal(x, y) <==> x == y
  {
    assert x == [x[0], x[1], x[2], x[3]] && y == [y[0], y[1], y[2], y[3]];
    x[0] == y[0] && x[1] == y[1] && x[2] == y[2] && x[3] == y[3]
  }

  /** connector_compare_uuid unrolled over the four elements. */
  lemma LexSignSteps(x: Uuid, y: Uuid)
    ensures CUuidUtils.LexSign(x, y) ==
      if x[0] < y[0] then -1 else if x[0] > y[0] then 1 else CUuidUtils.LexSign(x[1..], y[1..])
    ensures CUuidUtils.LexSign(x[1..], y[1..]) ==
      if x[1] < y[1] then -1 else if x[1] > y[1] then 1 else CUuidUtils.LexSign(x[2..], y[2..])
    ensures CUuidUtils.LexSign(x[2..], y[2..]) ==
      if x[2] < y[2] then -1 else if x[2] > y[2] then 1 else CUuidUtils.LexSign(x[3..], y[3..])
    ensures CUuidUtils.LexSign(x[3..], y[3..]) ==
      if x[3] < y[3] then -1 else if x[3] > y[3] then 1 else 0
  {
    assert x[1..][1..] == x[2..] && y[1..][1..] == y[2..];
    assert x[2..][1..] == x[3..] && y[2..][1..] == y[3..];
    assert x[3..][1..] == [] && y[3..][1..] == [];
    assert x[1..][0] == x[1] && x[2..][0] == x[2] && x[3..][0] == x[3];
    assert y[1..][0] == y[1] && y[2..][0] == y[2] && y[3..][0] == y[3];
  }

  /** operator< is a strict total order: irreflexive, transitive, and any two
      unequal identifiers are ordered one way or the other. */
  lemma LessIsStrictTotalOrder(x: Uuid, y: Uuid, z: Uuid)
    ensures !Less(x, x)
    ensures Less(x, y) && Less(y, z) ==> Less(x, z)
    ensures x != y ==> (Less(x, y) != Less(y, x))
  {
    assert x == [x[0], x[1], x[2], x[3]] && y == [y[0], y[1], y[2], y[3]];
  }

  // ---------------------------------------------------------------------
  // Hexadecimal digits

  /** The lower-case digit std::hex prints for d. */
  function HexDigit(d: nat): char
    requires d < 16
  {
    "0123456789abcdef"[d]
  }

  predicate IsHexChar(c: char) {
    ('0' <= c <= '9') || ('a' <= c <= 'f') || ('A' <= c <= 'F')
  }

  function HexValue(c: char): nat
    requires IsHexChar(c)
  {
    if '0' <= c <= '9' then (c as int) - ('0' as int)
    else if 'a' <= c <= 'f' then (c as int) - ('a' as int) + 10
    else (c as int) - ('A' as int) + 10
  }

  lemma HexValueOfDigit(d: nat)
    requires d < 16
    ensures IsHexChar(HexDigit(d)) && HexValue(HexDigit(d)) == d
    ensures HexDigit(d) != '-'
  {
  }

  /** `ss << std::hex << v`: the shortest lower-case hexadecimal form ("0" for 0). */
  function Hex(v: nat): (s: string)
    ensures |s| >= 1
    decreases v
  {
    if v < 16 then [HexDigit(v)] else Hex(v / 16) + [HexDigit(v % 16)]
  }

  /** Exactly w digits of v, most significant first. */
  function FixedHex(v: nat, w: nat): (s: string)
    ensures |s| == w
  {
    if w == 0 then [] else FixedHex(v / 16, w - 1) + [HexDigit(v % 16)]
  }

  function Pow16(w: nat): (r: nat)
    ensures r >= 1
  {
    if w == 0 then 1 else 16 * Pow16(w - 1)
  }

  /** `std::setw(w) << std::setfill('0')` in front of a number: pads on the left
      with '0' up to width w, and never truncates. */
  function PadZero(s: string, w: nat): (r: string)
  {
    if |s| >= w then s else seq(w - |s|, _ => '0') + s
  }

  /** The value of a string of hexadecimal digits. */
  function ParseHex(s: string): nat
    requires forall i :: 0 <= i < |s| ==> IsHexChar(s[i])
  {
    if s == [] then 0 else ParseHex(s[..|s| - 1]) * 16 + HexValue(s[|s| - 1])
  }

  /** The longest run of hexadecimal digits that s starts with. */
  function HexPrefix(s: string): (p: string)
    ensures |p| <= |s| && p == s[..|p|]
    ensures forall i :: 0 <= i < |p| ==> IsHexChar(p[i])
  {
    if s == [] || !IsHexChar(s[0]) then [] else [s[0]] + HexPrefix(s[1..])
  }

  lemma {:induction false} HexLength(v: nat, w: nat)
    requires v < Pow16(w)
    ensures |Hex(v)| <= if w == 0 then 1 else w
  {
    if v >= 16 {
      HexLength(v / 16, w - 1);
    }
  }

  lemma {:induction false} FixedHexDigits(v: nat, w: nat)
    ensures forall i :: 0 <= i < w ==> IsHexChar(FixedHex(v, w)[i]) && FixedHex(v, w)[i] != '-'
  {
    if w > 0 {
      FixedHexDigits(v / 16, w - 1);
      HexValueOfDigit(v % 16);
    }
  }

  /** Reading back w fixed digits gives the value back. */
  lemma {:induction false} ParseFixedHex(v: nat, w: nat)
    requires v < Pow16(w)
    ensures forall i :: 0 <= i < w ==> IsHexChar(FixedHex(v, w)[i])
    ensures ParseHex(FixedHex(v, w)) == v
  {
    FixedHexDigits(v, w);
    if w > 0 {
      var p, c := FixedHex(v / 16, w - 1), HexDigit(v % 16);
      FixedHexStep(v, w);
      ParseFixedHex(v / 16, w - 1);
      HexValueOfDigit(v % 16);
      ParseSnoc(p, c);
    }
  }

  /** Padding the shortest form to width w is the same as printing w digits. */
  lemma {:induction false} PadHexIsFixed(v: nat, w: nat)
    requires w >= 1 && v < Pow16(w)
    ensures PadZero(Hex(v), w) == FixedHex(v, w)
  {
    HexLength(v, w);
    if v < 16 {
      FixedHexZero(w - 1);
      assert FixedHex(v, w) == FixedHex(0, w - 1) + [HexDigit(v)];
    } else {
      PadHexIsFixed(v / 16, w - 1);
      PadZeroSnoc(Hex(v / 16), HexDigit(v % 16), w - 1);
    }
  }

  /** Padding a string with a character after it pads the string. */
  lemma PadZeroSnoc(s: string, c: char, w: nat)
    requires |s| <= w
    ensures PadZero(s + [c], w + 1) == PadZero(s, w) + [c]
  {
    if |s| < w {
      var z := seq(w - |s|, _ => '0');
      assert z + (s + [c]) == (z + s) + [c];
    }
  }

  lemma {:induction false} FixedHexZero(w: nat)
    ensures FixedHex(0, w) == seq(w, _ => '0')
  {
    if w > 0 {
      FixedHexZero(w - 1);
    }
  }

  /** hi shifted left by w hexadecimal digits, that is hi * 16**w. */
  function Shifted(hi: nat, w: nat): (r: nat)
  {
    if w == 0 then hi else 16 * Shifted(hi, w - 1)
  }

  lemma Shifted4(hi: nat)
    ensures Shifted(hi, 4) == hi * 0x10000
  {
    assert Shifted(hi, 1) == 16 * hi;
    assert Shifted(hi, 2) == 256 * hi;
    assert Shifted(hi, 3) == 4096 * hi;
  }

  /** The digits of v, which is hi shifted by w digits plus a value of w
      digits, are the n - w digits of hi followed by the w digits of the
      value. */
  lemma {:induction false} FixedHexSplit(v: nat, hi: nat, lo: nat, w: nat, n: nat)
    requires v == Shifted(hi, w) + lo && lo < Pow16(w) && w <= n
    ensures FixedHex(v, n) == FixedHex(hi, n - w) + FixedHex(lo, w)
  {
    if w > 0 {
      var low := lo / 16;
      var q := Shifted(hi, w - 1) + low;
      DivModUnique(v, 16, q, lo % 16);
      FixedHexSplit(q, hi, low, w - 1, n - 1);
      FixedHexStep(v, n);
      FixedHexStep(lo, w);
      Regroup(FixedHex(v, n), FixedHex(q, n - 1), FixedHex(hi, n - w), FixedHex(low, w - 1),
              FixedHex(lo, w), [HexDigit(lo % 16)]);
    } else {
      assert v == hi && FixedHex(lo, w) == [];
      assert FixedHex(hi, n) + [] == FixedHex(hi, n);
    }
  }

  /** One more digit at the end multiplies the value by 16 and adds the digit. */
  lemma ParseSnoc(p: string, c: char)
    requires forall i :: 0 <= i < |p| ==> IsHexChar(p[i])
    requires IsHexChar(c)
    ensures forall i :: 0 <= i < |p + [c]| ==> IsHexChar((p + [c])[i])
    ensures ParseHex(p + [c]) == ParseHex(p) * 16 + HexValue(c)
  {
    assert (p + [c])[..|p|] == p;
  }

  lemma FixedHexStep(v: nat, n: nat)
    requires n > 0
    ensures FixedHex(v, n) == FixedHex(v / 16, n - 1) + [HexDigit(v % 16)]
  {
  }

  /** Stated as an implication so that callers need not prove sequence
      equalities as goals. */
  lemma Regroup(all: string, front: string, a: string, b: string, back: string, d: string)
    ensures all == front + d && front == a + b && back == b + d ==> all == a + back
  {
    assert (a + b) + d == a + (b + d);
  }

  // ---------------------------------------------------------------------
  // uuidToString

  /** uuidToString: 8-4-4-4-12 lower-case hexadecimal, each group zero-padded:
      element 0, the high and low halves of element 1, the high and low halves
      of element 2, then element 3 written straight after the last half: 36
      characters, dashes at 8, 13, 18 and 23, lower-case hexadecimal digits
      everywhere else. */
  function UuidToString(u: Uuid): (s: string)
    ensures |s| == 36
    ensures forall i :: 0 <= i < 36 ==> (s[i] == '-' <==> (i == 8 || i == 13 || i == 18 || i == 23))
    ensures forall i :: 0 <= i < 36 && i != 8 && i != 13 && i != 18 && i != 23 ==> s[i] in "0123456789abcdef"
  {
    GroupsLayout(u);
    Canonical(PadZero(Hex(u[0] as nat), 8),
              PadZero(Hex(u[1] as nat / 0x10000), 4),
              PadZero(Hex(u[1] as nat % 0x10000), 4),
              PadZero(Hex(u[2] as nat / 0x10000), 4),
              PadZero(Hex(u[2] as nat % 0x10000), 4),
              PadZero(Hex(u[3] as nat), 8))
  }

  /** The six groups as uuidToString streams them: a dash after each of the
      first four, none between the last two. */
  function Canonical(a: string, b: string, c: string, d: string, e: string, f: string): string {
    a + "-" + b + "-" + c + "-" + d + "-" + e + f
  }

  lemma Pow16Values()
    ensures Pow16(4) == 0x10000 && Pow16(8) == 0x1_0000_0000
  {
    assert Pow16(4) == 0x10000;
  }

  /** The text is the fixed-width digit groups joined by dashes. */
  lemma UuidToStringFixed(u: Uuid)
    ensures UuidToString(u) ==
      Canonical(FixedHex(u[0] as nat, 8),
                FixedHex(u[1] as nat / 0x10000, 4),
                FixedHex(u[1] as nat % 0x10000, 4),
                FixedHex(u[2] as nat / 0x10000, 4),
                FixedHex(u[2] as nat % 0x10000, 4),
                FixedHex(u[3] as nat, 8))
  {
    Pow16Values();
    PadHexIsFixed(u[0] as nat, 8);
    PadHexIsFixed(u[1] as nat / 0x10000, 4);
    PadHexIsFixed(u[1] as nat % 0x10000, 4);
    PadHexIsFixed(u[2] as nat / 0x10000, 4);
    PadHexIsFixed(u[2] as nat % 0x10000, 4);
    PadHexIsFixed(u[3] as nat, 8);
  }

  predicate LowerHex(s: string) {
    forall i :: 0 <= i < |s| ==> s[i] in "0123456789abcdef"
  }

  /** The layout of the six zero-padded groups uuidToString joins. */
  lemma GroupsLayout(u: Uuid)
    ensures var s := Canonical(PadZero(Hex(u[0] as nat), 8),
                               PadZero(Hex(u[1] as nat / 0x10000), 4),
                               PadZero(Hex(u[1] as nat % 0x10000), 4),
                               PadZero(Hex(u[2] as nat / 0x10000), 4),
                               PadZero(Hex(u[2] as nat % 0x10000), 4),
                               PadZero(Hex(u[3] as nat), 8));
      && |s| == 36
      && (forall i :: 0 <= i < 36 ==> (s[i] == '-' <==> (i == 8 || i == 13 || i == 18 || i == 23)))
      && (forall i :: 0 <= i < 36 && i != 8 && i != 13 && i != 18 && i != 23 ==> s[i] in "0123456789abcdef")
  {
    Pow16Values();
    PadHexIsFixed(u[0] as nat, 8);
    PadHexIsFixed(u[1] as nat / 0x10000, 4);
    PadHexIsFixed(u[1] as nat % 0x10000, 4);
    PadHexIsFixed(u[2] as nat / 0x10000, 4);
    PadHexIsFixed(u[2] as nat % 0x10000, 4);
    PadHexIsFixed(u[3] as nat, 8);
    FixedLower(u[0] as nat, 8);
    FixedLower(u[1] as nat / 0x10000, 4);
    FixedLower(u[1] as nat % 0x10000, 4);
    FixedLower(u[2] as nat / 0x10000, 4);
    FixedLower(u[2] as nat % 0x10000, 4);
    FixedLower(u[3] as nat, 8);
    CanonicalLayout(FixedHex(u[0] as nat, 8),
                    FixedHex(u[1] as nat / 0x10000, 4),
                    FixedHex(u[1] as nat % 0x10000, 4),
                    FixedHex(u[2] as nat / 0x10000, 4),
                    FixedHex(u[2] as nat % 0x10000, 4),
                    FixedHex(u[3] as nat, 8));
  }

  lemma CanonicalLayout(a: string, b: string, c: string, d: string, e: string, f: string)
    requires |a| == 8 && |b| == 4 && |c| == 4 && |d| == 4 && |e| == 4 && |f| == 8
    requires LowerHex(a) && LowerHex(b) && LowerHex(c) && LowerHex(d) && LowerHex(e) && LowerHex(f)
    ensures |Canonical(a, b, c, d, e, f)| == 36
    ensures forall i :: 0 <= i < 36 ==>
      (Canonical(a, b, c, d, e, f)[i] == '-' <==> (i == 8 || i == 13 || i == 18 || i == 23))
    ensures forall i :: 0 <= i < 36 && i != 8 && i != 13 && i != 18 && i != 23 ==>
      Canonical(a, b, c, d, e, f)[i] in "0123456789abcdef"
  {
    var s := Canonical(a, b, c, d, e, f);
    forall i | 0 <= i < 36
      ensures (s[i] == '-' <==> (i == 8 || i == 13 || i == 18 || i == 23))
      ensures i != 8 && i != 13 && i != 18 && i != 23 ==> s[i] in "0123456789abcdef"
    {
      if i < 8 { assert s[i] == a[i]; }
      else if i == 8 { }
      else if i < 13 { assert s[i] == b[i - 9]; }
      else if i == 13 { }
      else if i < 18 { assert s[i] == c[i - 14]; }
      else if i == 18 { }
      else if i < 23 { assert s[i] == d[i - 19]; }
      else if i == 23 { }
      else if i < 28 { assert s[i] == e[i - 24]; }
      else { assert s[i] == f[i - 28]; }
    }
  }

  lemma {:induction false} FixedLower(v: nat, w: nat)
    ensures LowerHex(FixedHex(v, w)) && DashFree(FixedHex(v, w))
  {
    if w > 0 {
      FixedLower(v / 16, w - 1);
      assert FixedHex(v, w)[w - 1] == "0123456789abcdef"[v % 16];
    }
  }

  // ---------------------------------------------------------------------
  // uuidFromString

  /** The characters of s other than '-'. */
  function NoDashes(s: string): (r: string)
    ensures |r| <= |s|
  {
    if s == [] then [] else (if s[0] == '-' then [] else [s[0]]) + NoDashes(s[1..])
  }

  lemma {:induction false} NoDashesAppend(a: string, b: string)
    ensures NoDashes(a + b) == NoDashes(a) + NoDashes(b)
  {
    if a == [] {
      assert a + b == b;
    } else {
      assert (a + b)[0] == a[0];
      assert (a + b)[1..] == a[1..] + b;
      NoDashesAppend(a[1..], b);
    }
  }

  lemma {:induction false} NoDashesNone(s: string)
    requires forall i :: 0 <= i < |s| ==> s[i] != '-'
    ensures NoDashes(s) == s
  {
    if s != [] {
      NoDashesNone(s[1..]);
    }
  }

  /** `std::istringstream(g) >> std::setbase(16) >> u` on a group of eight
      bytes: the value of the hexadecimal digits it starts with, 0 when it
      starts with none (extraction fails and stores 0). */
  function GroupValue(g: string): nat {
    ParseHex(HexPrefix(g))
  }

  lemma {:induction false} ParseHexBound(s: string)
    requires forall i :: 0 <= i < |s| ==> IsHexChar(s[i])
    ensures ParseHex(s) < Pow16(|s|)
  {
    if s != [] {
      ParseHexBound(s[..|s| - 1]);
    }
  }

  lemma GroupValueBound(g: string)
    requires |g| == 8
    ensures GroupValue(g) < 0x1_0000_0000
  {
    var p := HexPrefix(g);
    ParseHexBound(p);
    Pow16Values();
    Pow16Mono(|p|, 8);
  }

  lemma {:induction false} Pow16Mono(a: nat, b: nat)
    requires a <= b
    ensures Pow16(a) <= Pow16(b)
  {
    if a < b {
      Pow16Mono(a, b - 1);
    }
  }

  /** Element i read from the dash-free digits d: group i of eight, or 0
      when the digits run out before the group is complete. */
  function ElementFrom(d: string, i: nat): u32
  {
    if 8 * i + 8 <= |d| then
      GroupValueBound(d[8 * i..8 * i + 8]);
      GroupValue(d[8 * i..8 * i + 8]) as u32
    else 0
  }

  /** What uuidFromString computes: dashes are skipped, the remaining
      characters are cut into groups of eight, the first four complete groups
      give the four elements, a partial trailing group and anything after the
      fourth group are ignored, and missing elements are 0. */
  function FromStringSpec(s: string): Uuid {
    FromDigits(NoDashes(s))
  }

  /** The four elements read from a string of digits without dashes. */
  function FromDigits(d: string): Uuid {
    [ElementFrom(d, 0), ElementFrom(d, 1), ElementFrom(d, 2), ElementFrom(d, 3)]
  }

  /** uuidFromString, with its accumulator string and element index. */
  method UuidFromString(text: string) returns (uuid: Uuid)
    ensures uuid == FromStringSpec(text)
  {
    uuid := [0, 0, 0, 0];
    var index: nat := 0;
    var current: string := "";
    var i := 0;
    ReadingStart(text);
    while i < |text|
      invariant Reading(text, i, index, current, uuid)
      invariant index < 4
      decreases |text| - i
    {
      if text[i] == '-' {
        SkipDash(text, i, index, current, uuid);
        i := i + 1;
        continue;
      }
      ReadDigit(text, i, index, current, uuid);
      current := current + [text[i]];
      if |current| == 8 {
        var u := GroupValue(current);
        uuid := uuid[index := u as u32];
        index := index + 1;
        current := "";
        if index >= 4 {
          return;
        }
      }
      i := i + 1;
    }
    ReadAll(text, index, current, uuid);
  }

  /** What uuidFromString keeps true after reading i characters: the digits
      read so far are those of text[..i], the complete groups among them
      are the first `index` elements and `current` is the partial group. */
  ghost predicate Reading(text: string, i: nat, index: nat, current: string, uuid: Uuid) {
    i <= |text| && index < 4 &&
    var digits := NoDashes(text[..i]);
    |digits| == 8 * index + |current| && |current| < 8 &&
    current == digits[8 * index..] && uuid == FromDigits(digits)
  }

  lemma ReadingStart(text: string)
    ensures Reading(text, 0, 0, "", [0, 0, 0, 0])
  {
    assert text[..0] == [];
  }

  /** A dash is skipped. */
  lemma SkipDash(text: string, i: nat, index: nat, current: string, uuid: Uuid)
    requires i < |text| && text[i] == '-' && Reading(text, i, index, current, uuid)
    ensures Reading(text, i + 1, index, current, uuid)
  {
    NoDashesSnoc(text, i);
  }

  /** A digit extends the partial group; the eighth completes the element it
      stands for, and the fourth element completes the result. */
  lemma ReadDigit(text: string, i: nat, index: nat, current: string, uuid: Uuid)
    requires i < |text| && text[i] != '-' && Reading(text, i, index, current, uuid)
    ensures |current| < 7 ==> Reading(text, i + 1, index, current + [text[i]], uuid)
    ensures |current| == 7 ==> GroupValue(current + [text[i]]) < 0x1_0000_0000
    ensures |current| == 7 && index < 3 ==>
      Reading(text, i + 1, index + 1, "", uuid[index := GroupValue(current + [text[i]]) as u32])
    ensures |current| == 7 && index == 3 ==>
      uuid[index := GroupValue(current + [text[i]]) as u32] == FromStringSpec(text)
  {
    NoDashesSnoc(text, i);
    DigitStep(NoDashes(text[..i]), text[i], index, current);
    if |current| == 7 && index == 3 {
      FromStringAfterGroups(text, i + 1, NoDashes(text[..i + 1]));
    }
  }

  /** At the end of the text the elements read are the result. */
  lemma ReadAll(text: string, index: nat, current: string, uuid: Uuid)
    requires Reading(text, |text|, index, current, uuid)
    ensures uuid == FromStringSpec(text)
  {
    assert text[..|text|] == text;
  }

  lemma NoDashesSnoc(text: string, i: nat)
    requires i < |text|
    ensures text[i] == '-' ==> NoDashes(text[..i + 1]) == NoDashes(text[..i])
    ensures text[i] != '-' ==> NoDashes(text[..i + 1]) == NoDashes(text[..i]) + [text[i]]
  {
    assert text[..i + 1] == text[..i] + [text[i]];
    NoDashesAppend(text[..i], [text[i]]);
    assert NoDashes(text[..i]) + [] == NoDashes(text[..i]);
  }

  /** One more digit: complete elements stay as they were, and the digit that
      completes a group of eight gives the element that group stands for. */
  lemma DigitStep(digits: string, c: char, index: nat, current: string)
    requires |digits| == 8 * index + |current| && |current| < 8 && index < 4
    requires current == digits[8 * index..]
    ensures current + [c] == (digits + [c])[8 * index..]
    ensures |current| < 7 ==> FromDigits(digits + [c]) == FromDigits(digits)
    ensures |current| == 7 ==>
      (GroupValue(current + [c]) < 0x1_0000_0000 &&
       FromDigits(digits + [c]) == FromDigits(digits)[index := GroupValue(current + [c]) as u32])
  {
    var d := digits + [c];
    PrefixElements(digits, d, index);
    assert d[8 * index..] == current + [c];
    if |current| == 7 {
      GroupValueBound(current + [c]);
      assert d[8 * index..8 * index + 8] == current + [c];
    }
  }

  /** Once four groups are read, the characters still unread change nothing. */
  lemma FromStringAfterGroups(text: string, i: nat, digits: string)
    requires i <= |text| && digits == NoDashes(text[..i]) && |digits| == 32
    ensures FromDigits(digits) == FromStringSpec(text)
  {
    assert text == text[..i] + text[i..];
    NoDashesAppend(text[..i], text[i..]);
    PrefixElements(digits, NoDashes(text), 4);
  }

  /** Extending the digits keeps every element that was already complete. */
  lemma PrefixElements(a: string, b: string, index: nat)
    requires |a| <= |b| && a == b[..|a|]
    requires 8 * index <= |a|
    ensures forall j :: 0 <= j < index ==> ElementFrom(a, j) == ElementFrom(b, j)
  {
    forall j | 0 <= j < index
      ensures ElementFrom(a, j) == ElementFrom(b, j)
    {
      assert a[8 * j..8 * j + 8] == b[8 * j..8 * j + 8];
    }
  }

  predicate DashFree(s: string) {
    forall i :: 0 <= i < |s| ==> s[i] != '-'
  }

  lemma NoDashesDashed(a: string, r: string)
    requires DashFree(a)
    ensures NoDashes(a + ("-" + r)) == a + NoDashes(r)
  {
    NoDashesAppend(a, "-" + r);
    NoDashesDash(r);
    NoDashesNone(a);
  }

  lemma NoDashesDash(r: string)
    ensures NoDashes("-" + r) == NoDashes(r)
  {
    var s := "-" + r;
    assert s[0] == '-' && s[1..] == r;
  }

  /** The text form with its appends grouped from the right. */
  lemma CanonicalNested(a: string, b: string, c: string, d: string, e: string, f: string)
    ensures Canonical(a, b, c, d, e, f) == a + ("-" + (b + ("-" + (c + ("-" + (d + ("-" + (e + f))))))))
  {
  }

  /** Removing the dashes of the text form leaves the six digit groups. */
  lemma NoDashesOfJoin(a: string, b: string, c: string, d: string, e: string, f: string)
    requires DashFree(a) && DashFree(b) && DashFree(c) && DashFree(d) && DashFree(e) && DashFree(f)
    ensures NoDashes(Canonical(a, b, c, d, e, f)) == a + (b + (c + (d + (e + f))))
  {
    var r4 := e + f;
    var r3 := d + ("-" + r4);
    var r2 := c + ("-" + r3);
    var r1 := b + ("-" + r2);
    CanonicalNested(a, b, c, d, e, f);
    NoDashesAppend(e, f);
    NoDashesNone(e);
    NoDashesNone(f);
    NoDashesDashed(d, r4);
    NoDashesDashed(c, r3);
    NoDashesDashed(b, r2);
    NoDashesDashed(a, r1);
  }

  /** Four groups of eight digits give the four elements their values. */
  lemma ElementsOfGroups(d: string, g0: string, g1: string, g2: string, g3: string, v: Uuid)
    requires d == g0 + g1 + g2 + g3
    requires |g0| == 8 && |g1| == 8 && |g2| == 8 && |g3| == 8
    requires GroupValue(g0) == v[0] as nat && GroupValue(g1) == v[1] as nat
    requires GroupValue(g2) == v[2] as nat && GroupValue(g3) == v[3] as nat
    ensures FromDigits(d) == v
  {
    assert d[0..8] == g0 && d[8..16] == g1 && d[16..24] == g2 && d[24..32] == g3;
  }

  /** The eight digits of a 32-bit value are the four of its high half
      followed by the four of its low half. */
  lemma SplitGroup(v: nat)
    requires v < 0x1_0000_0000
    ensures FixedHex(v, 8) == FixedHex(v / 0x10000, 4) + FixedHex(v % 0x10000, 4)
  {
    Pow16Values();
    Shifted4(v / 0x10000);
    FixedHexSplit(v, v / 0x10000, v % 0x10000, 4, 8);
  }

  /** Parsing six dash-free groups joined as uuidToString joins them. */
  lemma RoundTripOfParts(a: string, b: string, c: string, d: string, e: string, f: string, u: Uuid)
    requires DashFree(a) && DashFree(b) && DashFree(c) && DashFree(d) && DashFree(e) && DashFree(f)
    requires |a| == 8 && |b + c| == 8 && |d + e| == 8 && |f| == 8
    requires GroupValue(a) == u[0] as nat && GroupValue(b + c) == u[1] as nat
    requires GroupValue(d + e) == u[2] as nat && GroupValue(f) == u[3] as nat
    ensures FromStringSpec(Canonical(a, b, c, d, e, f)) == u
  {
    NoDashesOfJoin(a, b, c, d, e, f);
    assert a + (b + (c + (d + (e + f)))) == a + (b + c) + (d + e) + f;
    ElementsOfGroups(a + (b + (c + (d + (e + f)))), a, b + c, d + e, f, u);
  }

  /** Parsing the text form gives the identifier back. */
  lemma UuidStringRoundTrip(u: Uuid)
    ensures FromStringSpec(UuidToString(u)) == u
  {
    UuidToStringFixed(u);
    FixedLower(u[0] as nat, 8); FixedLower(u[1] as nat / 0x10000, 4);
    FixedLower(u[1] as nat % 0x10000, 4); FixedLower(u[2] as nat / 0x10000, 4);
    FixedLower(u[2] as nat % 0x10000, 4); FixedLower(u[3] as nat, 8);
    SplitGroup(u[1] as nat);
    SplitGroup(u[2] as nat);
    FullGroup(u[0] as nat);
    FullGroup(u[1] as nat);
    FullGroup(u[2] as nat);
    FullGroup(u[3] as nat);
    RoundTripOfParts(FixedHex(u[0] as nat, 8),
                     FixedHex(u[1] as nat / 0x10000, 4), FixedHex(u[1] as nat % 0x10000, 4),
                     FixedHex(u[2] as nat / 0x10000, 4), FixedHex(u[2] as nat % 0x10000, 4),
                     FixedHex(u[3] as nat, 8), u);
  }

  lemma FullGroup(v: nat)
    requires v < 0x1_0000_0000
    ensures GroupValue(FixedHex(v, 8)) == v
  {
    Pow16Values();
    ParseFixedHex(v, 8);
    AllHexPrefix(FixedHex(v, 8));
  }

  lemma {:induction false} AllHexPrefix(s: string)
    requires forall i :: 0 <= i < |s| ==> IsHexChar(s[i])
    ensures HexPrefix(s) == s
  {
    if s != [] {
      AllHexPrefix(s[1..]);
    }
  }
}
