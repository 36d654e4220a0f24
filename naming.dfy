// The naming rules the decompiler applies to CLR identifiers: ASCII case
// tests, snake casing, the "beebyted" (obfuscated) name test and suffix
// trimming.  These are the reference definitions the loop implementations in
// Extensions and StringExtensions are proved against.
module Naming {
  import opened Util

  predicate IsAsciiUpper(c: char) { 'A' <= c <= 'Z' }

  predicate IsAsciiLower(c: char) { 'a' <= c <= 'z' }

  /** char.ToLowerInvariant restricted to ASCII letters. */
  function ToLower(c: char): (r: char)
    ensures !IsAsciiUpper(r)
    ensures IsAsciiUpper(c) ==> ToUpper(r) == c
  {
    if IsAsciiUpper(c) then (c as int + 32) as char else c
  }

  /** char.ToUpperInvariant restricted to ASCII letters. */
  function ToUpper(c: char): (r: char)
    ensures !IsAsciiLower(r)
    ensures !IsAsciiLower(c) ==> r == c
  {
    if IsAsciiLower(c) then (c as int - 32) as char else c
  }

  /** ToUpper applied to every character. */
  function MapUpper(s: string): (r: string)
    ensures |r| == |s|
  {
    if |s| == 0 then "" else MapUpper(s[..|s| - 1]) + [ToUpper(s[|s| - 1])]
  }

  /** The number of ASCII upper-case letters in `s`. */
  function UpperCount(s: string): (n: nat)
    ensures n <= |s|
  {
    if |s| == 0 then 0
    else UpperCount(s[..|s| - 1]) + (if IsAsciiUpper(s[|s| - 1]) then 1 else 0)
  }

  lemma {:induction false} UpperCountAppend(a: string, b: string)
    ensures UpperCount(a + b) == UpperCount(a) + UpperCount(b)
  {
    if |b| > 0 {
      assert (a + b)[..|a + b| - 1] == a + b[..|b| - 1];
      UpperCountAppend(a, b[..|b| - 1]);
    } else {
      assert a + b == a;
    }
  }

  /** Every character is upper case exactly when the count is the length. */
  lemma {:induction false} UpperCountAll(s: string)
    ensures UpperCount(s) == |s| <==> forall k :: 0 <= k < |s| ==> IsAsciiUpper(s[k])
  {
    if |s| > 0 {
      UpperCountAll(s[..|s| - 1]);
      var p := s[..|s| - 1];
      assert forall k :: 0 <= k < |p| ==> p[k] == s[k];
    }
  }

  /** Characters after the first, as ToSnakeCaseLower writes them. */
  function LowerTail(t: string): (r: string)
  {
    if |t| == 0 then ""
    else
      var c := t[|t| - 1];
      LowerTail(t[..|t| - 1]) + (if IsAsciiUpper(c) then ['_', ToLower(c)] else [c])
  }

  /** Characters after the first, as ToSnakeCaseUpper writes them. */
  function UpperTail(t: string): (r: string)
  {
    if |t| == 0 then ""
    else
      var c := t[|t| - 1];
      UpperTail(t[..|t| - 1]) + (if IsAsciiUpper(c) then ['_', c] else [ToUpper(c)])
  }

  /**
   * Lower snake case: the first character lowered, every later ASCII
   * capital replaced by '_' and its lower-case letter, everything else kept.
   * The empty string stays empty.
   */
  function SnakeLower(s: string): string
  {
    if |s| == 0 then "" else [ToLower(s[0])] + LowerTail(s[1..])
  }

  /**
   * Upper snake case: the first character raised, every later ASCII capital
   * preceded by '_', everything else raised.
   */
  function SnakeUpper(s: string): string
  {
    if |s| == 0 then "" else [ToUpper(s[0])] + UpperTail(s[1..])
  }

  lemma {:induction false} TailLengths(t: string)
    ensures |LowerTail(t)| == |t| + UpperCount(t)
    ensures |UpperTail(t)| == |t| + UpperCount(t)
  {
    if |t| > 0 { TailLengths(t[..|t| - 1]); }
  }

  /** Both snake cases add one '_' per capital after the first character. */
  lemma SnakeLengths(s: string)
    requires |s| > 0
    ensures |SnakeLower(s)| == |s| + UpperCount(s[1..])
    ensures |SnakeUpper(s)| == |s| + UpperCount(s[1..])
  {
    TailLengths(s[1..]);
  }

  lemma {:induction false} LowerTailHasNoUpper(t: string)
    ensures forall k :: 0 <= k < |LowerTail(t)| ==> !IsAsciiUpper(LowerTail(t)[k])
  {
    if |t| > 0 { LowerTailHasNoUpper(t[..|t| - 1]); }
  }

  lemma {:induction false} UpperTailHasNoLower(t: string)
    ensures forall k :: 0 <= k < |UpperTail(t)| ==> !IsAsciiLower(UpperTail(t)[k])
  {
    if |t| > 0 { UpperTailHasNoLower(t[..|t| - 1]); }
  }

  /** Lower snake case leaves no ASCII capital behind. */
  lemma SnakeLowerHasNoUpper(s: string)
    ensures forall k :: 0 <= k < |SnakeLower(s)| ==> !IsAsciiUpper(SnakeLower(s)[k])
  {
    if |s| > 0 { LowerTailHasNoUpper(s[1..]); }
  }

  /** Upper snake case leaves no ASCII lower-case letter behind. */
  lemma SnakeUpperHasNoLower(s: string)
    ensures forall k :: 0 <= k < |SnakeUpper(s)| ==> !IsAsciiLower(SnakeUpper(s)[k])
  {
    if |s| > 0 { UpperTailHasNoLower(s[1..]); }
  }

  lemma {:induction false} MapUpperAppend(a: string, b: string)
    ensures MapUpper(a + b) == MapUpper(a) + MapUpper(b)
  {
    if |b| > 0 {
      assert (a + b)[..|a + b| - 1] == a + b[..|b| - 1];
      MapUpperAppend(a, b[..|b| - 1]);
    } else {
      assert a + b == a;
    }
  }

  lemma {:induction false} UpperTailIsUpperOfLowerTail(t: string)
    ensures UpperTail(t) == MapUpper(LowerTail(t))
  {
    if |t| > 0 {
      var c := t[|t| - 1];
      UpperTailIsUpperOfLowerTail(t[..|t| - 1]);
      var piece := if IsAsciiUpper(c) then ['_', ToLower(c)] else [c];
      MapUpperAppend(LowerTail(t[..|t| - 1]), piece);
      if IsAsciiUpper(c) {
        assert MapUpper(piece) == MapUpper(['_']) + [ToUpper(ToLower(c))];
        assert MapUpper(piece) == ['_', c];
      } else {
        assert MapUpper(piece) == [ToUpper(c)];
      }
    }
  }

  /** The upper snake case is the lower snake case raised to upper case. */
  lemma SnakeUpperIsUpperOfSnakeLower(s: string)
    ensures SnakeUpper(s) == MapUpper(SnakeLower(s))
  {
    if |s| > 0 {
      UpperTailIsUpperOfLowerTail(s[1..]);
      MapUpperAppend([ToLower(s[0])], LowerTail(s[1..]));
      assert MapUpper([ToLower(s[0])]) == MapUpper([]) + [ToUpper(ToLower(s[0]))];
      assert ToUpper(ToLower(s[0])) == ToUpper(s[0]);
    }
  }

  lemma {:induction false} LowerTailFixed(t: string)
    requires forall k :: 0 <= k < |t| ==> !IsAsciiUpper(t[k])
    ensures LowerTail(t) == t
  {
    if |t| > 0 {
      LowerTailFixed(t[..|t| - 1]);
      assert t == t[..|t| - 1] + [t[|t| - 1]];
    }
  }

  /** Lower snake casing a lower snake cased name changes nothing. */
  lemma SnakeLowerIdempotent(s: string)
    ensures SnakeLower(SnakeLower(s)) == SnakeLower(s)
  {
    var r := SnakeLower(s);
    SnakeLowerHasNoUpper(s);
    if |r| > 0 {
      LowerTailFixed(r[1..]);
      assert r == [r[0]] + r[1..];
    }
  }

  /**
   * A name is "beebyted" (machine-obfuscated) when it is eleven characters,
   * all of them ASCII capitals.
   */
  predicate IsBeebyted(name: string)
  {
    |name| == 11 && UpperCount(name) == 11
  }

  lemma BeebytedMeansElevenCapitals(name: string)
    ensures IsBeebyted(name) <==> |name| == 11 && forall k :: 0 <= k < 11 ==> IsAsciiUpper(name[k])
  {
    UpperCountAll(name);
  }

  /** string.TrimEnd(trimStr) of Extensions: drops one trailing occurrence. */
  function TrimEnd(s: string, suffix: string): (r: string)
    ensures EndsWith(s, suffix) ==> r + suffix == s
    ensures !EndsWith(s, suffix) ==> r == s
  {
    if EndsWith(s, suffix) then s[..|s| - |suffix|] else s
  }

  lemma TrimEndOfAppended(s: string, suffix: string)
    ensures TrimEnd(s + suffix, suffix) == s
  {
    assert (s + suffix)[|s|..] == suffix;
    assert (s + suffix)[..|s|] == s;
  }

  // Steps of the left-to-right loops that build a snake-cased name.

  lemma TailStep(str: string, i: nat)
    requires 1 <= i < |str|
    ensures LowerTail(str[1..i + 1]) == LowerTail(str[1..i]) + (if IsAsciiUpper(str[i]) then ['_', ToLower(str[i])] else [str[i]])
    ensures UpperTail(str[1..i + 1]) == UpperTail(str[1..i]) + (if IsAsciiUpper(str[i]) then ['_', str[i]] else [ToUpper(str[i])])
    ensures UpperCount(str[1..i + 1]) == UpperCount(str[1..i]) + (if IsAsciiUpper(str[i]) then 1 else 0)
  {
    assert str[1..i + 1][..i - 1] == str[1..i];
  }

  lemma CountStep(str: string, i: nat)
    requires i < |str|
    ensures UpperCount(str[i..]) == (if IsAsciiUpper(str[i]) then 1 else 0) + UpperCount(str[i + 1..])
  {
    assert str[i..] == [str[i]] + str[i + 1..];
    UpperCountAppend([str[i]], str[i + 1..]);
    assert UpperCount([str[i]]) == UpperCount([]) + (if IsAsciiUpper(str[i]) then 1 else 0);
  }

  /** One pass of ToSnakeCaseLower's fill loop: character `i` written at `j`. */
  lemma LowerFillStep(str: string, i: nat, j: nat, done: string, piece: string)
    requires 1 <= i < |str|
    requires j == i + UpperCount(str[1..i]) == |done|
    requires done == [ToLower(str[0])] + LowerTail(str[1..i])
    requires piece == if IsAsciiUpper(str[i]) then ['_', ToLower(str[i])] else [str[i]]
    ensures j + |piece| == i + 1 + UpperCount(str[1..i + 1]) == |done + piece|
    ensures done + piece == [ToLower(str[0])] + LowerTail(str[1..i + 1])
    ensures UpperCount(str[1..i]) + UpperCount(str[i..]) == UpperCount(str[1..i + 1]) + UpperCount(str[i + 1..])
    ensures j + |piece| <= |str| + UpperCount(str[1..i]) + UpperCount(str[i..])
  {
    TailStep(str, i);
    CountStep(str, i);
  }

  /** One pass of ToSnakeCaseUpper's fill loop: character `i` written at `j`. */
  lemma UpperFillStep(str: string, i: nat, j: nat, done: string, piece: string)
    requires 1 <= i < |str|
    requires j == i + UpperCount(str[1..i]) == |done|
    requires done == [ToUpper(str[0])] + UpperTail(str[1..i])
    requires piece == if IsAsciiUpper(str[i]) then ['_', str[i]] else [ToUpper(str[i])]
    ensures j + |piece| == i + 1 + UpperCount(str[1..i + 1]) == |done + piece|
    ensures done + piece == [ToUpper(str[0])] + UpperTail(str[1..i + 1])
    ensures UpperCount(str[1..i]) + UpperCount(str[i..]) == UpperCount(str[1..i + 1]) + UpperCount(str[i + 1..])
    ensures j + |piece| <= |str| + UpperCount(str[1..i]) + UpperCount(str[i..])
  {
    TailStep(str, i);
    CountStep(str, i);
  }
}
