/**
 * Mobile numbers: `hideMobile` masks the middle four digits of an 11-digit
 * number, `isPhone` checks the shape of a mainland-China mobile number.
 */
module Mobile {
  import opened Chars

  /** The pattern `/^(\d{3})\d{4}(\d{4})$/`: the whole string is eleven ASCII digits. */
  predicate MobileShape(s: string) {
    |s| == 11 && AllDigits(s)
  }

  /**
   * `mobile.replace(/^(\d{3})\d{4}(\d{4})$/, "$1****$2")`: when the pattern
   * matches, the first capture, four asterisks and the second capture replace
   * the whole string; otherwise `replace` returns the input as it is.
   */
  function HideMobile(s: string): (r: string)
    ensures |r| == |s|
    ensures forall i :: 0 <= i < |s| && !(3 <= i < 7) ==> r[i] == s[i]
    ensures forall i :: 3 <= i < 7 && i < |s| ==> r[i] == if MobileShape(s) then '*' else s[i]
    ensures r == s <==> !MobileShape(s)
  {
    if MobileShape(s) then
      assert s[..3] + "****" + s[7..] != s by {
        assert (s[..3] + "****" + s[7..])[3] == '*';
      }
      s[..3] + "****" + s[7..]
    else
      s
  }

  /** `/^[1][3-9][0-9]{9}$/.test(phoneStr)` */
  predicate IsPhone(s: string) {
    |s| == 11 && s[0] == '1' && '3' <= s[1] <= '9' && AllDigits(s[2..])
  }

  /** Masking a string that matched leaves first three and last four characters around `****`. */
  lemma HideMobileMasks(s: string)
    requires MobileShape(s)
    ensures HideMobile(s) == s[..3] + "****" + s[7..]
    ensures |HideMobile(s)| == 11
  {
  }

  /** A masked number holds `*`, so masking it again changes nothing. */
  lemma HideMobileIdempotent(s: string)
    ensures HideMobile(HideMobile(s)) == HideMobile(s)
  {
  }

  /** Every valid phone number is masked by `hideMobile`, and the mask makes it invalid. */
  lemma PhoneIsMasked(s: string)
    requires IsPhone(s)
    ensures MobileShape(s)
    ensures HideMobile(s) == s[..3] + "****" + s[7..]
    ensures HideMobile(s) != s
    ensures !IsPhone(HideMobile(s))
  {
  }

  /** Being a valid phone number is strictly stronger than having the maskable shape. */
  lemma PhoneStricterThanMobileShape()
    ensures exists s :: MobileShape(s) && !IsPhone(s)
  {
    var s := "12812345678";
    assert MobileShape(s) && s[1] == '2';
  }

  lemma PhoneExamples()
    ensures IsPhone("13812345678")
    ensures !IsPhone("12812345678")
    ensures !IsPhone("1381234567")
    ensures HideMobile("13812345678") == "138****5678"
    ensures HideMobile("1381234567") == "1381234567"
  {
  }
}
