/** core/src/details/string_utils.c: byte-buffer and C-string helpers.

    Buffers are `array<char>`; a C string is a buffer holding a NUL, and
    its length is the index of the first NUL. A NULL pointer is `null`.
    The allocator is assumed to return memory. */
module CStringUtils {
  import opened Common

  const Nul: char := '\0'

  /** strlen over the characters of a buffer: the index of the first NUL. */
  function StrlenOf(s: seq<char>): (n: nat)
    requires Nul in s
    ensures n < |s| && s[n] == Nul && Nul !in s[..n]
  {
    if s[0] == Nul then 0
    else
      assert s == [s[0]] + s[1..];
      var n := StrlenOf(s[1..]);
      assert s[..n + 1] == [s[0]] + s[1..][..n];
      n + 1
  }

  /** The position of the last c among s, if any. */
  function LastIndexOf(s: seq<char>, c: char): (r: Option<nat>)
    ensures r.Some? ==> r.value < |s| && s[r.value] == c
    ensures r.Some? ==> forall j :: r.value < j < |s| ==> s[j] != c
    ensures r.None? <==> c !in s
  {
    if s == [] then None
    else if s[|s| - 1] == c then Some(|s| - 1)
    else
      var r := LastIndexOf(s[..|s| - 1], c);
      assert s == s[..|s| - 1] + [s[|s| - 1]];
      r
  }

  /** connector_memrchr: scans from the last of the first `length`
      characters back to the first and stops at the first c it meets. */
  method Memrchr(buffer: array<char>, c: char, length: nat) returns (result: Option<nat>)
    requires length <= buffer.Length
    ensures result == LastIndexOf(buffer[..length], c)
  {
    result := None;
    var index: int := length - 1;
    while index >= 0
      invariant -1 <= index < length
      invariant result.None?
      invariant LastIndexOf(buffer[..length], c) == LastIndexOf(buffer[..index + 1], c)
      decreases index
    {
      assert buffer[..index + 1][..index] == buffer[..index];
      if buffer[index] == c {
        result := Some(index);
        break;
      }
      index := index - 1;
    }
  }

  /** connector_strdup: NULL gives NULL; otherwise a new buffer of
      strlen(s) + 1 characters holds the string and its terminator. */
  method Strdup(s: array?<char>) returns (result: array?<char>)
    requires s != null ==> Nul in s[..]
    ensures s == null <==> result == null
    ensures s != null ==> result[..] == s[..StrlenOf(s[..]) + 1]
  {
    result := null;
    if s != null {
      var length := StrlenOf(s[..]) + 1;
      result := new char[length];
      forall i | 0 <= i < length {
        result[i] := s[i];
      }
      assert result[..] == s[..length];
      assert s[..] == old(s[..]);
    }
  }

  /** A copy made by connector_strdup is a C string of the same length. */
  lemma StrdupCopiesString(s: seq<char>)
    requires Nul in s
    ensures Nul in s[..StrlenOf(s) + 1]
    ensures StrlenOf(s[..StrlenOf(s) + 1]) == StrlenOf(s)
    ensures s[..StrlenOf(s) + 1][..StrlenOf(s)] == s[..StrlenOf(s)]
  {
    var n := StrlenOf(s);
    var t := s[..n + 1];
    assert t[n] == Nul;
    assert t[..n] == s[..n];
    StrlenUnique(t, n);
  }

  /** The first NUL is the only index with a NUL and none before it. */
  lemma StrlenUnique(s: seq<char>, n: nat)
    requires n < |s| && s[n] == Nul && Nul !in s[..n]
    ensures Nul in s && StrlenOf(s) == n
  {
    var m := StrlenOf(s);
    forall j | 0 <= j < n
      ensures s[j] != Nul
    {
      assert s[..n][j] == s[j];
    }
    forall j | 0 <= j < m
      ensures s[j] != Nul
    {
      assert s[..m][j] == s[j];
    }
  }

  /** What connector_strndup leaves in the new buffer: when n is at most
      strlen(s) + 1, exactly the first n characters, with no terminator
      added; otherwise n characters and a NUL. */
  function StrndupResult(s: seq<char>, n: nat): seq<char>
    requires Nul in s && n <= |s|
  {
    if n <= StrlenOf(s) + 1 then s[..n] else s[..n] + [Nul]
  }

  /** connector_strndup as written. memcpy copies n characters from s either
      way, so s must hold n readable characters. */
  method Strndup(s: array?<char>, n: nat) returns (result: array?<char>)
    requires s != null ==> Nul in s[..] && n <= s.Length
    ensures s == null <==> result == null
    ensures s != null ==> result[..] == StrndupResult(s[..], n)
  {
    result := null;
    if s != null {
      var length := StrlenOf(s[..]) + 1;
      if n <= length {
        result := new char[n];
        forall i | 0 <= i < n {
          result[i] := s[i];
        }
      } else {
        result := new char[n + 1];
        forall i | 0 <= i < n {
          result[i] := s[i];
        }
        result[n] := Nul;
        assert result[..] == s[..n] + [Nul];
      }
    }
  }

  /** Asking connector_strndup for fewer characters than the string has
      gives a buffer with no terminator: `strndup("abc", 2)` holds 'a', 'b'. */
  lemma StrndupUnterminated()
    ensures Nul !in StrndupResult(['a', 'b', 'c', Nul], 2)
  {
    var s := ['a', 'b', 'c', Nul];
    assert StrlenOf(s[1..][1..][1..]) == 0;
    assert StrlenOf(s) == 3;
    assert StrndupResult(s, 2) == ['a', 'b'];
  }

  function Min(a: nat, b: nat): nat {
    if a <= b then a else b
  }

  /** The intended strndup: at most n characters of the string, always
      followed by a terminator. */
  function StrndupIntended(s: seq<char>, n: nat): seq<char>
    requires Nul in s
  {
    s[..Min(n, StrlenOf(s))] + [Nul]
  }

  /** strndup with the terminating NUL always written, and never reading
      past the string's terminator. */
  method StrndupCorrected(s: array?<char>, n: nat) returns (result: array?<char>)
    requires s != null ==> Nul in s[..]
    ensures s == null <==> result == null
    ensures s != null ==> result[..] == StrndupIntended(s[..], n)
  {
    result := null;
    if s != null {
      var length := StrlenOf(s[..]);
      var count := if n < length then n else length;
      result := new char[count + 1];
      forall i | 0 <= i < count {
        result[i] := s[i];
      }
      result[count] := Nul;
      assert result[..] == s[..count] + [Nul];
    }
  }

  /** The corrected copy is a C string whose length is min(n, strlen(s)),
      and it is a prefix of the original. */
  lemma StrndupIntendedTerminated(s: seq<char>, n: nat)
    requires Nul in s
    ensures Nul in StrndupIntended(s, n)
    ensures StrlenOf(StrndupIntended(s, n)) == Min(n, StrlenOf(s))
    ensures StrndupIntended(s, n)[..Min(n, StrlenOf(s))] == s[..Min(n, StrlenOf(s))]
  {
    var k := Min(n, StrlenOf(s));
    var t := StrndupIntended(s, n);
    assert t[k] == Nul;
    assert t[..k] == s[..k];
    assert s[..k] == s[..StrlenOf(s)][..k];
    StrlenUnique(t, k);
  }

  /** The length of the longest run of d that s ends with. */
  function TrailingRun(s: seq<char>, d: char): (k: nat)
    ensures k <= |s|
  {
    if s != [] && s[|s| - 1] == d then TrailingRun(s[..|s| - 1], d) + 1 else 0
  }

  /** The run is made of d only, and it is maximal. */
  lemma {:induction false} TrailingRunMaximal(s: seq<char>, d: char)
    ensures forall j :: |s| - TrailingRun(s, d) <= j < |s| ==> s[j] == d
    ensures TrailingRun(s, d) < |s| ==> s[|s| - TrailingRun(s, d) - 1] != d
  {
    if s != [] && s[|s| - 1] == d {
      TrailingRunMaximal(s[..|s| - 1], d);
    }
  }

  /** s with its characters at n - k .. n - 1 replaced by NUL. */
  function Chomped(s: seq<char>, k: nat, n: nat): (r: seq<char>)
    requires k <= n <= |s|
    ensures |r| == |s|
  {
    seq(|s|, j requires 0 <= j < |s| => if n - k <= j < n then Nul else s[j])
  }

  /** connector_chomp: overwrites the trailing run of delim with NULs,
      back to front, and returns how many it overwrote. */
  method Chomp(s: array<char>, delim: char) returns (amount: nat)
    requires Nul in s[..]
    modifies s
    ensures amount == TrailingRun(old(s[..StrlenOf(s[..])]), delim)
    ensures amount <= old(StrlenOf(s[..]))
    ensures s[..] == Chomped(old(s[..]), amount, old(StrlenOf(s[..])))
  {
    ghost var original := s[..];
    var len := StrlenOf(s[..]);
    var i: int := len - 1;
    amount := 0;
    assert s[..] == Chomped(original, 0, len);
    while i >= 0 && s[i] == delim
      invariant -1 <= i < len && amount == len - 1 - i
      invariant s[..] == Chomped(original, amount, len)
      invariant TrailingRun(original[..len], delim) == TrailingRun(original[..i + 1], delim) + amount
      decreases i
    {
      assert s[i] == original[i];
      assert original[..i + 1][..i] == original[..i];
      s[i] := Nul;
      amount := amount + 1;
      i := i - 1;
      assert s[..] == Chomped(original, amount, len);
    }
    if i >= 0 {
      assert s[i] == original[i];
      assert original[..i + 1][i] == original[i];
    }
  }

  /** After a chomp the string is shorter by the amount returned and no
      longer ends with the delimiter (when delim is not NUL). */
  lemma ChompShortens(s: seq<char>, delim: char)
    requires Nul in s && delim != Nul
    ensures var k := TrailingRun(s[..StrlenOf(s)], delim);
      var t := Chomped(s, k, StrlenOf(s));
      Nul in t && StrlenOf(t) == StrlenOf(s) - k &&
      (StrlenOf(t) > 0 ==> t[StrlenOf(t) - 1] != delim)
  {
    var n := StrlenOf(s);
    var k := TrailingRun(s[..n], delim);
    TrailingRunMaximal(s[..n], delim);
    var t := Chomped(s, k, n);
    assert t[n - k] == Nul;
    forall j | 0 <= j < n - k
      ensures t[j] != Nul
    {
      assert s[..n][j] == s[j];
    }
    StrlenUnique(t, n - k);
    if n - k > 0 {
      assert t[n - k - 1] == s[..n][n - k - 1];
    }
  }

  /** connector_untrusted_strlen: finds the last NUL among the first
      buffer_length characters. SUCCESS, with that index written to
      *length, when there is one and `length` is not NULL; ERROR otherwise,
      with *length untouched (`None`). */
  method UntrustedStrlen(buffer: array<char>, bufferLength: nat, lengthNonNull: bool)
    returns (retcode: Status, length: Option<nat>)
    requires bufferLength <= buffer.Length
    ensures retcode == Success <==> lengthNonNull && Nul in buffer[..bufferLength]
    ensures retcode != Success ==> retcode == Error && length.None?
    ensures retcode == Success ==> length == LastIndexOf(buffer[..bufferLength], Nul)
  {
    retcode := Error;
    length := None;
    var found := Memrchr(buffer, Nul, bufferLength);
    if found.Some? && lengthNonNull {
      length := found;
      retcode := Success;
    }
  }

  /** The length reported is where the last NUL is: nothing after it within
      the buffer is NUL, and it is at least the C string length. */
  lemma UntrustedStrlenIsLastNul(s: seq<char>)
    requires Nul in s
    ensures LastIndexOf(s, Nul).Some?
    ensures StrlenOf(s) <= LastIndexOf(s, Nul).value
  {
    var k := LastIndexOf(s, Nul).value;
    var n := StrlenOf(s);
    forall j | 0 <= j < n
      ensures s[j] != Nul
    {
      assert s[..n][j] == s[j];
    }
  }
}
