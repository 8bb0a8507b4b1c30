/**
 * Vocabulary shared by every layer of the catalogue: nullable values,
 * identifiers and instants, the three exception kinds the services raise,
 * and the string operations the Java code relies on (trim, case folding,
 * "contains, ignoring case").
 *
 * Case folding is ASCII-only: 'A'..'Z' map to 'a'..'z' and every other
 * character is left alone.
 */
module Common {

  /** A value that Java allows to be null. */
  datatype Option<T> = None | Some(value: T)

  /** The canonical text of a UUID primary key. */
  type Id = string

  /** A point on the server clock (OffsetDateTime compared as an instant). */
  type Instant = int

  /** The exception classes the services throw and the controllers catch. */
  datatype ErrorKind = EntityNotFound | IllegalArgument | IllegalState

  /** A thrown exception: its class and its getMessage() text. */
  datatype Failure = Failure(kind: ErrorKind, message: string)

  /** The outcome of a service call: a value, or the exception it throws. */
  datatype Result<T> = Ok(value: T) | Err(failure: Failure)
  {
    predicate FailedWith(k: ErrorKind) {
      Err? && failure.kind == k
    }
  }

  function Fail<T>(k: ErrorKind, message: string): (r: Result<T>)
    ensures r.FailedWith(k) && r.failure.message == message
  {
    Err(Failure(k, message))
  }

  // ---------------------------------------------------------------- trim

  /** String.trim() removes every character whose code is at most U+0020. */
  predicate IsTrimmable(c: char) {
    c <= ' '
  }

  function TrimStart(s: string): (r: string)
    ensures |r| <= |s| && r == s[|s| - |r|..]
    ensures forall i :: 0 <= i < |s| - |r| ==> IsTrimmable(s[i])
    ensures r == [] || !IsTrimmable(r[0])
  {
    if |s| > 0 && IsTrimmable(s[0]) then TrimStart(s[1..]) else s
  }

  function TrimEnd(s: string): (r: string)
    ensures |r| <= |s| && r == s[..|r|]
    ensures forall i :: |r| <= i < |s| ==> IsTrimmable(s[i])
    ensures r == [] || !IsTrimmable(r[|r| - 1])
  {
    if |s| > 0 && IsTrimmable(s[|s| - 1]) then TrimEnd(s[..|s| - 1]) else s
  }

  /**
   * String.trim(): the longest infix of s that neither starts nor ends with
   * a character at or below U+0020; everything cut off is such a character.
   */
  function Trim(s: string): (r: string)
    ensures exists lo :: InfixAt(s, r, lo)
                         && (forall i :: 0 <= i < lo ==> IsTrimmable(s[i]))
                         && (forall i :: lo + |r| <= i < |s| ==> IsTrimmable(s[i]))
    ensures r == [] || (!IsTrimmable(r[0]) && !IsTrimmable(r[|r| - 1]))
  {
    var left := TrimStart(s);
    var r := TrimEnd(left);
    InfixOfCuts(s, left, r);
    r
  }

  /**
   * Cutting a suffix of trimmable characters off a suffix of s leaves an
   * infix of s, and everything after it in s is trimmable.
   */
  lemma InfixOfCuts(s: string, left: string, r: string)
    requires |left| <= |s| && left == s[|s| - |left|..]
    requires |r| <= |left| && r == left[..|r|]
    requires forall i :: |r| <= i < |left| ==> IsTrimmable(left[i])
    ensures InfixAt(s, r, |s| - |left|)
    ensures forall i :: |s| - |left| + |r| <= i < |s| ==> IsTrimmable(s[i])
  {
    var lo := |s| - |left|;
    forall i | lo <= i < |s|
      ensures s[i] == left[i - lo]
    {
    }
    assert s[lo..lo + |r|] == r;
  }

  /** `x.trim().isEmpty()` */
  predicate IsBlank(s: string) {
    Trim(s) == []
  }

  /** A string with no trimmable character at either end is its own trim. */
  lemma {:induction false} TrimOfTrimmed(s: string)
    requires s == [] || (!IsTrimmable(s[0]) && !IsTrimmable(s[|s| - 1]))
    ensures Trim(s) == s
  {
    assert TrimStart(s) == s;
    assert TrimEnd(s) == s;
  }

  /** Trimming twice is trimming once. */
  lemma TrimIdempotent(s: string)
    ensures Trim(Trim(s)) == Trim(s)
  {
    TrimOfTrimmed(Trim(s));
  }

  /** A string is blank exactly when every character in it is trimmable. */
  lemma {:induction false} BlankIffAllTrimmable(s: string)
    ensures IsBlank(s) <==> forall i :: 0 <= i < |s| ==> IsTrimmable(s[i])
  {
    if |s| > 0 && IsTrimmable(s[0]) {
      BlankIffAllTrimmable(s[1..]);
      assert TrimStart(s) == TrimStart(s[1..]);
      assert forall i :: 1 <= i < |s| ==> s[i] == s[1..][i - 1];
    }
  }

  // ------------------------------------------------------------ case fold

  function LowerChar(c: char): (d: char)
    ensures !('A' <= d <= 'Z')
    ensures !('A' <= c <= 'Z') ==> d == c
  {
    if 'A' <= c <= 'Z' then (c as int - 'A' as int + 'a' as int) as char else c
  }

  function UpperChar(c: char): (d: char)
    ensures !('a' <= d <= 'z')
    ensures !('a' <= c <= 'z') ==> d == c
  {
    if 'a' <= c <= 'z' then (c as int - 'a' as int + 'A' as int) as char else c
  }

  /** SQL LOWER / String.toLowerCase, restricted to ASCII letters. */
  function Lower(s: string): (r: string)
    ensures |r| == |s|
    ensures forall i :: 0 <= i < |r| ==> !('A' <= r[i] <= 'Z')
    ensures forall i :: 0 <= i < |s| && !('A' <= s[i] <= 'Z') ==> r[i] == s[i]
    ensures forall i :: 0 <= i < |s| && 'A' <= s[i] <= 'Z' ==> r[i] as int == s[i] as int + 32
  {
    seq(|s|, i requires 0 <= i < |s| => LowerChar(s[i]))
  }

  /** String.toUpperCase, restricted to ASCII letters. */
  function Upper(s: string): (r: string)
    ensures |r| == |s|
    ensures forall i :: 0 <= i < |r| ==> !('a' <= r[i] <= 'z')
    ensures forall i :: 0 <= i < |s| && !('a' <= s[i] <= 'z') ==> r[i] == s[i]
    ensures forall i :: 0 <= i < |s| && 'a' <= s[i] <= 'z' ==> r[i] as int == s[i] as int - 32
  {
    seq(|s|, i requires 0 <= i < |s| => UpperChar(s[i]))
  }

  /** String.equalsIgnoreCase, and equally `LOWER(a) = LOWER(b)` in a query. */
  predicate EqualsIgnoreCase(a: string, b: string) {
    Lower(a) == Lower(b)
  }

  /** `needle` occurs in `hay` starting at position `lo`. */
  predicate InfixAt(hay: string, needle: string, lo: int) {
    0 <= lo && lo + |needle| <= |hay| && hay[lo..lo + |needle|] == needle
  }

  /** `needle` occurs somewhere in `hay` as a contiguous run. */
  predicate Contains(hay: string, needle: string) {
    exists i :: 0 <= i <= |hay| - |needle| && InfixAt(hay, needle, i)
  }

  /** `LOWER(hay) LIKE LOWER(CONCAT('%', q, '%'))` */
  predicate ContainsIgnoreCase(hay: string, q: string) {
    Contains(Lower(hay), Lower(q))
  }

  /** Every string contains the empty string and itself, whatever the case. */
  lemma ContainsIgnoreCaseTrivial(s: string, q: string)
    requires EqualsIgnoreCase(s, q) || q == []
    ensures ContainsIgnoreCase(s, q)
  {
    assert InfixAt(Lower(s), Lower(q), 0);
  }
}
