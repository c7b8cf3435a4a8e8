/**
 * Ethereum addresses as the widget provider handles them. The provider
 * lower-cases addresses before it compares them or hands them to the bZx
 * client, so two addresses denote the same account when they agree up to
 * the case of their ASCII letters.
 */
module Addresses {

  /** The WETH token on Rinkeby, as configured in the provider. */
  const WethAddress: string := "0xc778417e063141139fce010982780140aa0cd5ab"
  /** The bZx protocol contract on Rinkeby. */
  const BzxAddress: string := "0x4db8a61f9cd0cf4998aa4612dd612ab4f4f5a730"
  /** The bZx vault, the spender of every allowance the provider sets. */
  const BzxVaultAddress: string := "0x8f254255592e6e210cc9a464cfa2464da2467df6"
  /** The zero address that `./utils` exports. */
  const ZeroAddress: string := "0x0000000000000000000000000000000000000000"

  predicate IsUpperChar(c: char) {
    'A' <= c <= 'Z'
  }

  function LowerChar(c: char): char {
    if IsUpperChar(c) then (c as int + 32) as char else c
  }

  /** `String.prototype.toLowerCase`, on the ASCII letters an address holds. */
  function ToLower(s: string): (r: string)
    ensures |r| == |s|
    ensures forall i :: 0 <= i < |s| ==> r[i] == LowerChar(s[i])
  {
    seq(|s|, i requires 0 <= i < |s| => LowerChar(s[i]))
  }

  predicate IsLowerCase(s: string) {
    forall i :: 0 <= i < |s| ==> !IsUpperChar(s[i])
  }

  /** Equality of two addresses after both are lower-cased. */
  predicate SameAddress(a: string, b: string) {
    ToLower(a) == ToLower(b)
  }

  /** Lower-casing yields a lower-case string and leaves one unchanged. */
  lemma {:induction false} ToLowerNormalises(s: string)
    ensures IsLowerCase(ToLower(s))
    ensures IsLowerCase(s) ==> ToLower(s) == s
    ensures ToLower(ToLower(s)) == ToLower(s)
  {
    var t := ToLower(s);
    assert forall i :: 0 <= i < |t| ==> !IsUpperChar(t[i]) by {
      forall i | 0 <= i < |t| ensures !IsUpperChar(t[i]) {
        assert t[i] == LowerChar(s[i]);
      }
    }
    if IsLowerCase(s) {
      assert forall i :: 0 <= i < |s| ==> t[i] == s[i];
    }
    assert forall i :: 0 <= i < |t| ==> ToLower(t)[i] == t[i];
  }

  /**
   * `isWethToken`: the address is WETH when, lower-cased, it spells the
   * (lower-case) WETH address character for character.
   */
  function IsWethToken(tokenAddress: string): (r: bool)
    ensures r <==> |tokenAddress| == |WethAddress|
                   && forall i :: 0 <= i < |tokenAddress| ==> LowerChar(tokenAddress[i]) == WethAddress[i]
  {
    WethAddressLowerCase();
    SameAddress(tokenAddress, WethAddress)
  }

  /** The configured WETH address is already lower-case. */
  lemma WethAddressLowerCase()
    ensures ToLower(WethAddress) == WethAddress
  {
    assert IsLowerCase(WethAddress);
    ToLowerNormalises(WethAddress);
  }

  /** `getTokenNameFromAddress`: "WETH" exactly for the WETH token, otherwise "Augur token". */
  function GetTokenNameFromAddress(tokenAddress: string): (r: string)
    ensures r == "WETH" <==> IsWethToken(tokenAddress)
    ensures r == "WETH" || r == "Augur token"
  {
    if SameAddress(tokenAddress, WethAddress) then "WETH" else "Augur token"
  }
}
