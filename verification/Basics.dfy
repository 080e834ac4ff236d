// Small shared vocabulary: optional and fallible values, bytes, and text trimming.
module Basics {
  datatype Option<+T> = None | Some(value: T)

  datatype Result<+T, +E> = Ok(value: T) | Err(error: E)

  type Byte = b: int | 0 <= b < 256

  type Bytes = seq<Byte>

  // The Unicode White_Space characters, which is what Rust's `str::trim` removes.
  predicate IsSpace(c: char) {
    var n := c as int;
    || 9 <= n <= 13 || n == 32 || n == 0x85 || n == 0xA0 || n == 0x1680 || 0x2000 <= n <= 0x200A
    || n == 0x2028 || n == 0x2029 || n == 0x202F || n == 0x205F || n == 0x3000
  }

  function TrimStart(s: string): (r: string)
    ensures |r| <= |s| && (r != [] ==> !IsSpace(r[0]))
    ensures s != [] && !IsSpace(s[0]) ==> r == s
  {
    if s != [] && IsSpace(s[0]) then TrimStart(s[1..]) else s
  }

  function TrimEnd(s: string): (r: string)
    ensures r <= s && (r != [] ==> !IsSpace(r[|r| - 1]))
    ensures s != [] && !IsSpace(s[|s| - 1]) ==> r == s
  {
    if s != [] && IsSpace(s[|s| - 1]) then TrimEnd(s[..|s| - 1]) else s
  }

  function Trim(s: string): string {
    TrimEnd(TrimStart(s))
  }

  // A trimmed text has nothing left to trim, so comparing trimmed texts is stable under a second trim.
  lemma TrimIdempotent(s: string)
    ensures Trim(Trim(s)) == Trim(s)
  {
  }

  // Some character is not white space.
  ghost predicate HasInk(s: string) {
    exists i :: 0 <= i < |s| && !IsSpace(s[i])
  }

  ghost predicate AllSpace(s: string) {
    forall i :: 0 <= i < |s| ==> IsSpace(s[i])
  }

  lemma {:induction false} TrimStartCuts(s: string) returns (k: nat)
    ensures k <= |s| && TrimStart(s) == s[k..] && AllSpace(s[..k])
  {
    k := 0;
    if s != [] && IsSpace(s[0]) {
      k := TrimStartCuts(s[1..]);
      k := k + 1;
      assert s[..k] == [s[0]] + s[1..][..k - 1];
    }
  }

  lemma {:induction false} TrimEndCuts(s: string) returns (k: nat)
    ensures k <= |s| && TrimEnd(s) == s[..k] && AllSpace(s[k..])
  {
    k := |s|;
    if s != [] && IsSpace(s[|s| - 1]) {
      k := TrimEndCuts(s[..|s| - 1]);
      assert forall i :: k <= i < |s| - 1 ==> s[i] == s[..|s| - 1][k..][i - k];
    }
  }

  // Trimming leaves out exactly the white space before the first and behind the last other character.
  lemma TrimExactly(s: string)
    ensures Trim(s) != "" <==> HasInk(s)
    ensures exists i, j :: 0 <= i <= j <= |s| && TrimmedTo(s, i, j)
  {
    var i := TrimStartCuts(s);
    var k := TrimEndCuts(s[i..]);
    assert s[i..][..k] == s[i..i + k] && s[i..][k..] == s[i + k..];
    assert TrimmedTo(s, i, i + k);
    if Trim(s) != "" {
      assert !IsSpace(s[i]);
    }
  }

  ghost predicate TrimmedTo(s: string, i: nat, j: nat)
    requires i <= j <= |s|
  {
    && Trim(s) == s[i..j] && AllSpace(s[..i]) && AllSpace(s[j..])
    && (i < j ==> !IsSpace(s[i]) && !IsSpace(s[j - 1]))
  }
}
