/** The two ethers helpers the encoders rely on: the hex-string test and
    `hexlify` applied to a string. */
module EthersUtils {
  import opened Wrappers
  import Text

  /** The ways `hexlify` rejects a string argument. */
  datatype HexError = OddLength | InvalidHexlifyValue

  predicate IsHexDigit(c: char)
  {
    ('0' <= c <= '9') || ('a' <= c <= 'f') || ('A' <= c <= 'F')
  }

  /** `isHexString(s)`: `0x` followed by hex digits only. */
  predicate IsHexString(s: string)
  {
    |s| >= 2 && s[..2] == "0x" && forall k :: 2 <= k < |s| ==> IsHexDigit(s[k])
  }

  /** `hexlify(s)` for a string `s`: a hex string of even length comes back
      lower-cased; an odd-length one and any other string throw. */
  function Hexlify(s: string): (r: Result<string, HexError>)
    ensures r.Ok? <==> IsHexString(s) && |s| % 2 == 0
    ensures r.Ok? ==> |r.value| == |s| && IsHexString(r.value)
    ensures r.Ok? ==> forall k :: 0 <= k < |s| ==> r.value[k] == Text.LowerChar(s[k])
  {
    if !IsHexString(s) then Err(InvalidHexlifyValue)
    else if |s| % 2 == 1 then Err(OddLength)
    else
      var l := Text.Lower(s);
      assert l[..2] == "0x";
      Ok(l)
  }

  /** On a hex string that is already lower-case, `hexlify` is the identity. */
  lemma HexlifyLowerCase(s: string)
    requires IsHexString(s) && |s| % 2 == 0
    requires forall k :: 0 <= k < |s| ==> !('A' <= s[k] <= 'Z')
    ensures Hexlify(s) == Ok(s)
  {
    assert forall k :: 0 <= k < |s| ==> Text.LowerChar(s[k]) == s[k];
    assert Text.Lower(s) == s;
  }
}
