/**
 * `isIdCard`: the layout of the 18-character citizen identity number of
 * GB 11643-1999 (region code, birth date, sequence code, check character).
 *
 * The pattern is
 *   ^[1-9]\d{5}(18|19|20)\d{2}((0[1-9])|(1[0-2]))((0[1-9])|([12][0-9])|(3[01]))\d{3}[\dxX]$
 * Every alternative inside a group has the same length as its siblings, so a
 * match cuts the string at fixed offsets: 6 + 2 + 2 + 2 + 2 + 3 + 1.
 */
module IdCard {
  import opened Chars

  /** `[1-9]\d{5}` */
  predicate IsRegionCode(r: string) {
    |r| == 6 && '1' <= r[0] <= '9' && AllDigits(r[1..])
  }

  /** `(18|19|20)` */
  predicate IsCentury(c: string) {
    c == "18" || c == "19" || c == "20"
  }

  /** `((0[1-9])|(1[0-2]))` */
  predicate IsMonth(m: string) {
    |m| == 2 && ((m[0] == '0' && '1' <= m[1] <= '9') || (m[0] == '1' && '0' <= m[1] <= '2'))
  }

  /** `((0[1-9])|([12][0-9])|(3[01]))` */
  predicate IsDay(d: string) {
    && |d| == 2
    && (|| (d[0] == '0' && '1' <= d[1] <= '9')
        || ((d[0] == '1' || d[0] == '2') && IsDigit(d[1]))
        || (d[0] == '3' && (d[1] == '0' || d[1] == '1')))
  }

  /** `[\dxX]` */
  predicate IsCheckChar(c: char) {
    IsDigit(c) || c == 'x' || c == 'X'
  }

  /** `/^…$/.test(idCardStr)`, the whole pattern at the fixed offsets. */
  predicate IsIdCard(s: string) {
    && |s| == 18
    && IsRegionCode(s[..6])
    && IsCentury(s[6..8])
    && AllDigits(s[8..10])
    && IsMonth(s[10..12])
    && IsDay(s[12..14])
    && AllDigits(s[14..17])
    && IsCheckChar(s[17])
  }

  /** The month alternatives accept exactly the two-digit numbers 01 to 12. */
  lemma MonthRange(m: string)
    ensures IsMonth(m) <==> |m| == 2 && AllDigits(m) && 1 <= Value(m) <= 12
  {
    if |m| == 2 && AllDigits(m) {
      TwoDigitValue(m);
    }
  }

  /** The day alternatives accept exactly the two-digit numbers 01 to 31, whatever the month. */
  lemma DayRange(d: string)
    ensures IsDay(d) <==> |d| == 2 && AllDigits(d) && 1 <= Value(d) <= 31
  {
    if |d| == 2 && AllDigits(d) {
      TwoDigitValue(d);
    }
  }

  /** The century alternatives accept exactly the two-digit numbers 18, 19 and 20. */
  lemma CenturyRange(c: string)
    ensures IsCentury(c) <==> |c| == 2 && AllDigits(c) && 18 <= Value(c) <= 20
  {
    if |c| == 2 && AllDigits(c) {
      TwoDigitValue(c);
      if 18 <= Value(c) <= 20 {
        assert c == [c[0], c[1]];
      }
    }
  }

  lemma {:induction false} AllDigitsSplit(s: string, i: nat, j: nat, k: nat)
    requires i <= j <= k <= |s|
    ensures AllDigits(s[i..k]) <==> AllDigits(s[i..j]) && AllDigits(s[j..k])
  {
    assert forall x :: i <= x < j ==> s[i..j][x - i] == s[x] && s[i..k][x - i] == s[x];
    assert forall x :: j <= x < k ==> s[j..k][x - j] == s[x] && s[i..k][x - i] == s[x];
  }

  /**
   * The pattern, read as numbers: seventeen digits and a check character,
   * a non-zero first digit, the first two digits of the year between 18 and
   * 20, a month from 1 to 12 and a day from 1 to 31. No calendar check is made.
   */
  lemma IdCardFields(s: string)
    ensures IsIdCard(s) <==>
      && |s| == 18
      && AllDigits(s[..17])
      && s[0] != '0'
      && 18 <= Value(s[6..8]) <= 20
      && 1 <= Value(s[10..12]) <= 12
      && 1 <= Value(s[12..14]) <= 31
      && IsCheckChar(s[17])
  {
    if |s| == 18 {
      CenturyRange(s[6..8]);
      MonthRange(s[10..12]);
      DayRange(s[12..14]);
      AllDigitsSplit(s, 0, 6, 17);
      AllDigitsSplit(s, 6, 8, 17);
      AllDigitsSplit(s, 8, 10, 17);
      AllDigitsSplit(s, 10, 12, 17);
      AllDigitsSplit(s, 12, 14, 17);
      assert s[0..17] == s[..17];
      assert s[0..6] == s[..6];
      assert s[..6][1..] == s[1..6];
      AllDigitsSplit(s, 0, 1, 6);
    }
  }

  /** February 31st passes: the day range does not depend on the month. */
  lemma NoCalendarCheck()
    ensures IsIdCard("11010519490231002X")
  {
  }

  lemma IdCardExamples()
    ensures IsIdCard("11010519491231002X")
    ensures IsIdCard("110105194912310021")
    ensures !IsIdCard("11010519491231002")
    ensures !IsIdCard("11010519491331002X")
  {
    var a, b := "11010519491231002X", "110105194912310021";
    assert a[..6] == b[..6] == "110105" && a[..6][1..] == "10105";
    assert IsRegionCode(a[..6]);
  }
}
