/** core/src/details/system/pathutils.c: joining path parts with the path
    delimiter, and duplicating a path string.

    The NULL-terminated array of parts is the sequence of the strings before
    its NULL entry; each part is a C string, so it holds no NUL. The POSIX
    build is modelled: the delimiter is '/' and path strings are `char`. */
module CPathUtils {
  import opened Common
  import CStringUtils

  /** CONNECTOR_PATH_DELIM on POSIX */
  const Delim: char := '/'

  /** The parts, each followed by d. */
  function Terminated(parts: seq<string>, d: char): (r: string)
  {
    if parts == [] then [] else Terminated(parts[..|parts| - 1], d) + parts[|parts| - 1] + [d]
  }

  /** The parts with a single d between neighbours and none at the end. */
  function Join(parts: seq<string>, d: char): string
    requires |parts| > 0
  {
    Terminated(parts[..|parts| - 1], d) + parts[|parts| - 1]
  }

  /** The sum of the parts' lengths. */
  function TotalLength(parts: seq<string>): nat
  {
    if parts == [] then 0 else TotalLength(parts[..|parts| - 1]) + |parts[|parts| - 1]|
  }

  lemma {:induction false} TerminatedLength(parts: seq<string>, d: char)
    ensures |Terminated(parts, d)| == TotalLength(parts) + |parts|
  {
    if parts != [] {
      TerminatedLength(parts[..|parts| - 1], d);
    }
  }

  /** The joined length is the sum of the part lengths plus one delimiter
      between each pair of neighbours. */
  lemma JoinLength(parts: seq<string>, d: char)
    requires |parts| > 0
    ensures |Join(parts, d)| == TotalLength(parts) + |parts| - 1
  {
    TerminatedLength(parts[..|parts| - 1], d);
    assert parts[..|parts| - 1] + [parts[|parts| - 1]] == parts;
  }

  /** Cutting s at each d. */
  function Split(s: string, d: char): (r: seq<string>)
    ensures |r| > 0
    decreases |s|
  {
    if d !in s then [s]
    else
      var k := FirstIndex(s, d);
      [s[..k]] + Split(s[k + 1..], d)
  }

  function FirstIndex(s: string, d: char): (k: nat)
    requires d in s
    ensures k < |s| && s[k] == d && d !in s[..k]
  {
    if s[0] == d then 0
    else
      assert s == [s[0]] + s[1..];
      var k := FirstIndex(s[1..], d);
      assert s[..k + 1] == [s[0]] + s[1..][..k];
      k + 1
  }

  lemma {:induction false} TerminatedCons(p: string, rest: seq<string>, d: char)
    ensures Terminated([p] + rest, d) == p + [d] + Terminated(rest, d)
    decreases |rest|
  {
    if rest != [] {
      var front := rest[..|rest| - 1];
      assert ([p] + rest)[..|rest|] == [p] + front;
      TerminatedCons(p, front, d);
    }
  }

  /** Joining parts that hold no delimiter and splitting the result again
      gives the parts back: no information is lost. */
  lemma {:induction false} SplitJoin(parts: seq<string>, d: char)
    requires |parts| > 0
    requires forall i :: 0 <= i < |parts| ==> d !in parts[i]
    ensures Split(Join(parts, d), d) == parts
    decreases |parts|
  {
    if |parts| == 1 {
      assert parts[..0] == [];
      assert Join(parts, d) == parts[0];
    } else {
      var p, rest := parts[0], parts[1..];
      assert parts == [p] + rest;
      assert parts[..|parts| - 1] == [p] + rest[..|rest| - 1];
      TerminatedCons(p, rest[..|rest| - 1], d);
      var s := Join(parts, d);
      assert s == p + [d] + Join(rest, d);
      assert s[|p|] == d;
      assert s[..|p|] == p;
      forall j | 0 <= j < |p|
        ensures s[j] != d
      {
        assert s[j] == p[j];
      }
      FirstIndexUnique(s, d, |p|);
      assert s[|p| + 1..] == Join(rest, d);
      SplitJoin(rest, d);
    }
  }

  lemma FirstIndexUnique(s: string, d: char, k: nat)
    requires k < |s| && s[k] == d
    requires forall j :: 0 <= j < k ==> s[j] != d
    ensures FirstIndex(s, d) == k
  {
    var m := FirstIndex(s, d);
    forall j | 0 <= j < m
      ensures s[j] != d
    {
      assert s[..m][j] == s[j];
    }
  }

  /** connector_path_join. NULL parts or a NULL result pointer give ERROR,
      as does an empty parts list; otherwise a new buffer of
      sum-of-lengths + count - 1 characters and a terminator receives the
      parts with the delimiter between them, and the call returns SUCCESS.
      When ERROR is returned, *result is not written (`null` here). */
  method PathJoin(parts: Option<seq<string>>, resultNonNull: bool)
    returns (retcode: Status, result: array?<char>)
    requires parts.Some? ==> forall i :: 0 <= i < |parts.value| ==> CStringUtils.Nul !in parts.value[i]
    ensures retcode == Success <==> parts.Some? && resultNonNull && |parts.value| > 0
    ensures retcode != Success ==> retcode == Error && result == null
    ensures retcode == Success ==>
      result != null && result[..] == Join(parts.value, Delim) + [CStringUtils.Nul]
  {
    retcode := Error;
    result := null;
    if parts.Some? && resultNonNull {
      var ps := parts.value;
      var size, count := MeasureParts(ps);
      if count > 0 {
        size := size + (count - 1);
        var buffer := new char[size + 1];
        var location := 0;
        var i := 0;
        TotalPrefix(ps, 0);
        while i < count
          invariant 0 <= i <= count
          invariant buffer.Length == TotalLength(ps) + count
          invariant i < count ==> location == |Terminated(ps[..i], Delim)|
          invariant i < count ==> location + |ps[i]| < buffer.Length
          invariant i < count ==> buffer[..location] == Terminated(ps[..i], Delim)
          invariant i == count ==> buffer[..] == Join(ps, Delim) + [CStringUtils.Nul]
        {
          var length := |ps[i]|;
          CopyPart(buffer, location, ps[i]);
          location := location + length;
          assert buffer[..location] == Terminated(ps[..i], Delim) + ps[i];
          assert ps[..i + 1][..i] == ps[..i];
          if i + 1 == count {
            JoinLength(ps, Delim);
            assert Join(ps, Delim) == Terminated(ps[..i], Delim) + ps[i];
            buffer[location] := CStringUtils.Nul;
            assert buffer[..] == buffer[..location] + [CStringUtils.Nul];
          } else {
            buffer[location] := Delim;
            assert buffer[..location + 1] == buffer[..location] + [Delim];
          }
          location := location + 1;
          i := i + 1;
          if i < count {
            NextPartFits(ps, i);
          }
        }
        result := buffer;
        retcode := Success;
      }
    }
  }

  /** The first loop of connector_path_join: walks the parts up to the NULL
      entry, adding up their lengths and counting them. */
  method MeasureParts(ps: seq<string>) returns (size: nat, count: nat)
    ensures size == TotalLength(ps) && count == |ps|
  {
    size, count := 0, 0;
    while count < |ps|
      invariant 0 <= count <= |ps|
      invariant size == TotalLength(ps[..count])
    {
      assert ps[..count + 1][..count] == ps[..count];
      size := size + |ps[count]|;
      count := count + 1;
    }
    assert ps[..count] == ps;
  }

  /** memcpy of one part to buffer[location..]. */
  method CopyPart(buffer: array<char>, location: nat, part: string)
    requires location + |part| <= buffer.Length
    modifies buffer
    ensures buffer[..location] == old(buffer[..location])
    ensures buffer[location..location + |part|] == part
    ensures buffer[..location + |part|] == old(buffer[..location]) + part
  {
    forall j | 0 <= j < |part| {
      buffer[location + j] := part[j];
    }
    assert buffer[..location + |part|] == buffer[..location] + buffer[location..location + |part|];
  }

  /** The written prefix plus part i and one more character fit in the buffer. */
  lemma NextPartFits(ps: seq<string>, i: nat)
    requires 0 < i < |ps|
    ensures |Terminated(ps[..i], Delim)| + |ps[i]| < TotalLength(ps) + |ps|
  {
    TerminatedLength(ps[..i], Delim);
    TotalPrefix(ps, i);
  }

  /** The parts before index i fit in the buffer with room for part i. */
  lemma TotalPrefix(ps: seq<string>, i: nat)
    requires i < |ps|
    ensures TotalLength(ps[..i + 1]) == TotalLength(ps[..i]) + |ps[i]|
    ensures TotalLength(ps[..i + 1]) <= TotalLength(ps)
  {
    assert ps[..i + 1][..i] == ps[..i];
    TotalMono(ps, i + 1);
  }

  lemma {:induction false} TotalMono(ps: seq<string>, k: nat)
    requires k <= |ps|
    ensures TotalLength(ps[..k]) <= TotalLength(ps)
    decreases |ps| - k
  {
    if k < |ps| {
      TotalMono(ps, k + 1);
      assert ps[..k + 1][..k] == ps[..k];
    } else {
      assert ps[..k] == ps;
    }
  }

  /** connector_path_strdup: on POSIX, connector_strdup. */
  method PathStrdup(str: array?<char>) returns (result: array?<char>)
    requires str != null ==> CStringUtils.Nul in str[..]
    ensures str == null <==> result == null
    ensures str != null ==> result[..] == str[..CStringUtils.StrlenOf(str[..]) + 1]
  {
    result := CStringUtils.Strdup(str);
  }
}
