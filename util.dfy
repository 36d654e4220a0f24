// Shared vocabulary: optional values, results standing for the exceptions
// the C# code throws, and the decimal rendering TextWriter.Write(int) uses.
module Util {

  datatype Option<T> = None | Some(value: T)

  /** The exceptions of the decompiler, one constructor per kind. */
  datatype Error =
    | EndOfData          // a read past the end of a byte buffer
    | InvalidData        // InvalidDataException
    | NotSupported       // NotSupportedException
    | KeyNotFound        // KeyNotFoundException from a dictionary indexer
    | DuplicateKey       // ArgumentException from Dictionary.Add
    | IndexOutOfRange    // list or array index out of range
    | InvalidCast        // unboxing a constant of another type
    | GuardFailed        // a failed Guard.IsTrue / Guard.IsFalse
    | Overflow           // OverflowException (negative array size)
    | InvalidOperation   // SingleOrDefault with more than one match
    | StackExhausted     // the call stack runs out (unbounded recursion)

  datatype Result<T> = Success(value: T) | Failure(error: Error)
  {
    predicate IsFailure() { Failure? }

    function PropagateFailure<U>(): Result<U>
      requires Failure?
    {
      Failure(error)
    }

    function Extract(): T
      requires Success?
    {
      value
    }
  }

  predicate IsDigit(c: char) { '0' <= c <= '9' }

  function DigitChar(d: nat): (c: char)
    requires d < 10
    ensures IsDigit(c)
  {
    ['0', '1', '2', '3', '4', '5', '6', '7', '8', '9'][d]
  }

  /** Decimal digits of a natural number, most significant first. */
  function NatToString(n: nat): (s: string)
    ensures |s| > 0
    ensures forall k :: 0 <= k < |s| ==> IsDigit(s[k])
  {
    if n < 10 then [DigitChar(n)] else NatToString(n / 10) + [DigitChar(n % 10)]
  }

  /** The invariant-culture text of an int: a minus sign, then the digits. */
  function IntToString(n: int): (s: string)
    ensures |s| > 0 && IsDigit(s[|s| - 1])
    ensures (s[0] == '-') <==> n < 0
    ensures forall k :: 0 < k < |s| ==> IsDigit(s[k])
  {
    if n < 0 then "-" + NatToString(-n) else NatToString(n)
  }

  /** Value of a string of decimal digits; the inverse of NatToString. */
  function DigitsValue(s: string): nat
    requires forall k :: 0 <= k < |s| ==> IsDigit(s[k])
  {
    if |s| == 0 then 0
    else
      assert IsDigit(s[|s| - 1]);
      10 * DigitsValue(s[..|s| - 1]) + ((s[|s| - 1] as int) - ('0' as int))
  }

  lemma {:induction false} NatToStringRoundTrip(n: nat)
    ensures DigitsValue(NatToString(n)) == n
  {
    var s := NatToString(n);
    if n >= 10 {
      NatToStringRoundTrip(n / 10);
      assert s[..|s| - 1] == NatToString(n / 10);
    }
    assert (DigitChar(n % 10) as int) - ('0' as int) == n % 10;
  }

  /** The strings joined with a separator between neighbours (string.Join). */
  function JoinWith(parts: seq<string>, sep: string): string
  {
    if |parts| == 0 then ""
    else if |parts| == 1 then parts[0]
    else JoinWith(parts[..|parts| - 1], sep) + sep + parts[|parts| - 1]
  }

  /**
   * The value a dictionary, listed as its key/value pairs, holds under `k`
   * (the indexer, or KeyNotFound when it answers None).
   */
  function LookupKey<K(==), V>(pairs: seq<(K, V)>, k: K): (r: Option<V>)
    ensures r.Some? <==> exists i :: 0 <= i < |pairs| && pairs[i].0 == k
    ensures r.Some? ==> exists i :: 0 <= i < |pairs| && pairs[i] == (k, r.value)
  {
    if |pairs| == 0 then None
    else if pairs[0].0 == k then Some(pairs[0].1)
    else
      var r := LookupKey(pairs[1..], k);
      assert forall i :: 1 <= i < |pairs| ==> pairs[i] == pairs[1..][i - 1];
      r
  }

  /** A joined string ends with its last part. */
  lemma JoinWithEndsWithLast(parts: seq<string>, sep: string)
    requires |parts| > 0
    ensures EndsWith(JoinWith(parts, sep), parts[|parts| - 1])
  {
    if |parts| > 1 {
      var init := JoinWith(parts[..|parts| - 1], sep) + sep;
      assert JoinWith(parts, sep) == init + parts[|parts| - 1];
      assert (init + parts[|parts| - 1])[|init|..] == parts[|parts| - 1];
    }
  }

  /** The elements in reverse order (List.Reverse). */
  function Reverse<T>(s: seq<T>): (r: seq<T>)
    ensures |r| == |s|
    ensures forall k :: 0 <= k < |s| ==> r[k] == s[|s| - 1 - k]
  {
    if |s| == 0 then [] else [s[|s| - 1]] + Reverse(s[..|s| - 1])
  }

  predicate EndsWith(s: string, suffix: string)
  {
    |suffix| <= |s| && s[|s| - |suffix|..] == suffix
  }

  predicate StartsWith(s: string, prefix: string)
  {
    |prefix| <= |s| && s[..|prefix|] == prefix
  }
}
