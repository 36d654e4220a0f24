// StringExtensions.cs of the first revision: the same counting and
// snake-casing loops as the library's Extensions, for the original tool.
module StringExtensions {
  import N = Naming
  import E = Extensions

  /** CountUpper(str, i): the ASCII capitals from index `start` on, the library's loop. */
  method CountUpper(str: string, start: nat) returns (upper: nat)
    ensures upper == if start <= |str| then N.UpperCount(str[start..]) else 0
  {
    upper := E.CountUpper(str, start);
  }

  /** IsBeebyted: eleven characters, all of them ASCII capitals, as in the library. */
  method IsBeebyted(name: string) returns (r: bool)
    ensures r <==> |name| == 11 && forall k :: 0 <= k < 11 ==> N.IsAsciiUpper(name[k])
  {
    r := E.IsBeebyted(name);
  }

  /**
   * ToSnakeCaseLower: string.Create of length |str| + capitals after the
   * first character, filled left to right by the same callback as the
   * library's.  string.Create with length zero returns the empty string
   * without running the fill.
   */
  method ToSnakeCaseLower(str: string) returns (r: string)
    ensures r == N.SnakeLower(str)
  {
    var extra := CountUpper(str, 1);
    var length := |str| + extra;
    if length == 0 {
      assert str == [];
      return "";
    }
    var newString := new char[length];
    E.FillLower(str, newString);
    r := newString[..];
  }

  /** ToSnakeCaseUpper: as ToSnakeCaseLower, raising instead of lowering. */
  method ToSnakeCaseUpper(str: string) returns (r: string)
    ensures r == N.SnakeUpper(str)
  {
    var extra := CountUpper(str, 1);
    var length := |str| + extra;
    if length == 0 {
      assert str == [];
      return "";
    }
    var newString := new char[length];
    E.FillUpper(str, newString);
    r := newString[..];
  }
}
