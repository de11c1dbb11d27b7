/**
 * `isVehicleNumber`: a province character, a letter and five more plate
 * characters. The pattern has two anchored alternatives,
 *   ^[一-龥]{1}[A-Z]{1}[A-Z_0-9]{5}$
 *   ^[一-龥]{1}[A-Z]{1}[A-Z_0-9]{4}\d$
 * and the test passes when either matches.
 */
module VehiclePlate {
  import opened Chars

  /** `[A-Z_0-9]` */
  predicate IsPlateChar(c: char) {
    IsUpper(c) || c == '_' || IsDigit(c)
  }

  /** `[一-龥]{1}[A-Z]{1}`, the province character and the issuing-office letter. */
  predicate PlatePrefix(s: string) {
    |s| == 7 && IsCjk(s[0]) && IsUpper(s[1])
  }

  /** The first alternative: five plate characters after the prefix. */
  predicate FiveCharTail(s: string) {
    PlatePrefix(s) && forall i :: 2 <= i < 7 ==> IsPlateChar(s[i])
  }

  /** The second alternative: four plate characters and a digit after the prefix. */
  predicate FourCharDigitTail(s: string) {
    PlatePrefix(s) && (forall i :: 2 <= i < 6 ==> IsPlateChar(s[i])) && IsDigit(s[6])
  }

  /** `/^…$|^…$/.test(vehicleNumber)` */
  predicate IsVehicleNumber(s: string) {
    FiveCharTail(s) || FourCharDigitTail(s)
  }

  /** Every string the second alternative matches, the first matches too. */
  lemma SecondAlternativeSubsumed(s: string)
    requires FourCharDigitTail(s)
    ensures FiveCharTail(s)
  {
  }

  /** Hence the plate test is exactly the first alternative, spelled out character by character. */
  lemma VehicleNumberIff(s: string)
    ensures IsVehicleNumber(s) <==>
      && |s| == 7
      && '\U{4E00}' <= s[0] <= '\U{9FA5}'
      && 'A' <= s[1] <= 'Z'
      && forall i :: 2 <= i < 7 ==> ('A' <= s[i] <= 'Z' || s[i] == '_' || '0' <= s[i] <= '9')
  {
  }

  /** A lowercase letter anywhere after the province character makes the plate invalid. */
  lemma LowercaseRejected(s: string, i: nat)
    requires 1 <= i < |s| && IsLower(s[i])
    ensures !IsVehicleNumber(s)
  {
  }

  lemma PlateExamples()
    ensures IsVehicleNumber("京A12345")
    ensures IsVehicleNumber("粤B_Z9X8")
    ensures !IsVehicleNumber("京A1234")
    ensures !IsVehicleNumber("京a12345")
    ensures !IsVehicleNumber("AA12345")
  {
  }
}
