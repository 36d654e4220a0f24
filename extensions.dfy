// src/LibProtodec/Extensions.cs: the string and key-value helpers of the
// library, as the loops the C# code runs.
module Extensions {
  import opened Util
  import N = Naming

  /**
   * ContainsDuplicateKey: walks the pairs, adding each key to a set, and
   * stops at the first key the set already holds.
   */
  method ContainsDuplicateKey<K(==), V>(pairs: seq<(K, V)>) returns (found: bool)
    ensures found <==> exists i, j :: 0 <= i < j < |pairs| && pairs[i].0 == pairs[j].0
  {
    var seen: set<K> := {};
    var n := 0;
    while n < |pairs|
      invariant 0 <= n <= |pairs|
      invariant seen == set i | 0 <= i < n :: pairs[i].0
      invariant forall i, j :: 0 <= i < j < n ==> pairs[i].0 != pairs[j].0
    {
      var key := pairs[n].0;
      if key in seen {
        ghost var i :| 0 <= i < n && pairs[i].0 == key;
        assert pairs[i].0 == pairs[n].0;
        return true;
      }
      seen := seen + {key};
      n := n + 1;
    }
    return false;
  }

  /** CountUpper(str, i): the ASCII capitals from index `start` on. */
  method CountUpper(str: string, start: nat) returns (upper: nat)
    ensures upper == if start <= |str| then N.UpperCount(str[start..]) else 0
  {
    upper := 0;
    var i := start;
    if i > |str| { return; }
    while i < |str|
      invariant start <= i <= |str|
      invariant upper + N.UpperCount(str[i..]) == N.UpperCount(str[start..])
    {
      N.CountStep(str, i);
      if N.IsAsciiUpper(str[i]) {
        upper := upper + 1;
      }
      i := i + 1;
    }
  }

  /** IsBeebyted: eleven characters, all of them ASCII capitals. */
  method IsBeebyted(name: string) returns (r: bool)
    ensures r <==> |name| == 11 && forall k :: 0 <= k < 11 ==> N.IsAsciiUpper(name[k])
  {
    r := false;
    if |name| == 11 {
      var upper := CountUpper(name, 0);
      assert name[0..] == name;
      r := upper == 11;
    }
    N.BeebytedMeansElevenCapitals(name);
  }

  /**
   * ToSnakeCaseLower: string.Create of length |str| + capitals after the
   * first character, filled left to right.  string.Create with length zero
   * returns the empty string without running the fill.
   */
  method ToSnakeCaseLower(str: string) returns (r: string)
    ensures r == N.SnakeLower(str)
  {
    var extra := CountUpper(str, 1);
    var length := |str| + extra;
    if length == 0 {
      assert str == [];
      return "";
    }
    var newString := new char[length];
    FillLower(str, newString);
    r := newString[..];
  }

  /** The fill callback of ToSnakeCaseLower's string.Create. */
  method FillLower(str: string, newString: array<char>)
    requires |str| > 0 && newString.Length == |str| + N.UpperCount(str[1..])
    modifies newString
    ensures newString[..] == N.SnakeLower(str)
  {
    newString[0] := N.ToLower(str[0]);
    var i, j := 1, 1;
    ghost var done := [N.ToLower(str[0])];
    while i < |str|
      invariant 1 <= i <= |str|
      invariant j == i + N.UpperCount(str[1..i]) == |done|
      invariant newString.Length == |str| + N.UpperCount(str[1..i]) + N.UpperCount(str[i..])
      invariant done == [N.ToLower(str[0])] + N.LowerTail(str[1..i])
      invariant newString[..j] == done
    {
      var chr := str[i];
      var piece := if N.IsAsciiUpper(chr) then ['_', N.ToLower(chr)] else [chr];
      N.LowerFillStep(str, i, j, done, piece);
      Put(newString, j, piece);
      done := done + piece;
      i, j := i + 1, j + |piece|;
    }
    assert str[i..] == [] && str[1..i] == str[1..];
    assert newString[..] == newString[..j];
  }

  /** ToSnakeCaseUpper: as ToSnakeCaseLower, raising instead of lowering. */
  method ToSnakeCaseUpper(str: string) returns (r: string)
    ensures r == N.SnakeUpper(str)
  {
    var extra := CountUpper(str, 1);
    var length := |str| + extra;
    if length == 0 {
      assert str == [];
      return "";
    }
    var newString := new char[length];
    FillUpper(str, newString);
    r := newString[..];
  }

  /** The fill callback of ToSnakeCaseUpper's string.Create. */
  method FillUpper(str: string, newString: array<char>)
    requires |str| > 0 && newString.Length == |str| + N.UpperCount(str[1..])
    modifies newString
    ensures newString[..] == N.SnakeUpper(str)
  {
    newString[0] := N.ToUpper(str[0]);
    var i, j := 1, 1;
    ghost var done := [N.ToUpper(str[0])];
    while i < |str|
      invariant 1 <= i <= |str|
      invariant j == i + N.UpperCount(str[1..i]) == |done|
      invariant newString.Length == |str| + N.UpperCount(str[1..i]) + N.UpperCount(str[i..])
      invariant done == [N.ToUpper(str[0])] + N.UpperTail(str[1..i])
      invariant newString[..j] == done
    {
      var chr := str[i];
      var piece := if N.IsAsciiUpper(chr) then ['_', chr] else [N.ToUpper(chr)];
      N.UpperFillStep(str, i, j, done, piece);
      Put(newString, j, piece);
      done := done + piece;
      i, j := i + 1, j + |piece|;
    }
    assert str[i..] == [] && str[1..i] == str[1..];
    assert newString[..] == newString[..j];
  }

  /** Writes the one or two characters of `piece` into the buffer at `j`. */
  method Put(buffer: array<char>, j: nat, piece: seq<char>)
    requires 1 <= |piece| <= 2 && j + |piece| <= buffer.Length
    modifies buffer
    ensures buffer[..j + |piece|] == old(buffer[..j]) + piece
  {
    buffer[j] := piece[0];
    if |piece| == 2 {
      buffer[j + 1] := piece[1];
    }
  }
}
