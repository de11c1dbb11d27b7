/**
 * `formatMoney`: keep only the digits of the input, then put a comma in front
 * of every group of three digits counted from the right.
 *
 * The first step is `replace(/\D/g, '')`, modelled by `Digits`. The second is
 * `replace(/\B(?=(\d{3})+(?!\d))/g, ',')`, a global replacement of an empty
 * match: the engine tries every position `p` of the cleaned string from left
 * to right and inserts a comma wherever the pattern matches at `p`. `Punctuate`
 * walks the positions in the same order; `CommaBefore` is the test at one
 * position, and `CommaRuleIsThePattern` shows it agrees with the pattern.
 */
module Money {
  import opened Chars

  /** `s.replace(/\D/g, '')`: the ASCII digits of `s`, in order. */
  function Digits(s: string): (r: string)
    ensures AllDigits(r)
    ensures |r| <= |s|
  {
    if s == [] then []
    else (if IsDigit(s[0]) then [s[0]] else []) + Digits(s[1..])
  }

  // ---------------------------------------------------------------------------
  // The comma pattern, read literally

  /** `\B` at position `p`: the characters on both sides are word characters, or neither is. */
  predicate NotWordBoundary(c: string, p: nat)
    requires p <= |c|
  {
    (p > 0 && IsWordChar(c[p - 1])) == (p < |c| && IsWordChar(c[p]))
  }

  /** `(\d{3})+` matches `k` groups from `p` on and `(?!\d)` holds right after them. */
  predicate GroupsEndAt(c: string, p: nat, k: nat) {
    && 1 <= k
    && p + 3 * k <= |c|
    && AllDigits(c[p..p + 3 * k])
    && (p + 3 * k == |c| || !IsDigit(c[p + 3 * k]))
  }

  /** The lookahead `(?=(\d{3})+(?!\d))` succeeds at `p` when some number of groups fits. */
  ghost predicate DigitGroupsAhead(c: string, p: nat) {
    exists k: nat :: GroupsEndAt(c, p, k)
  }

  /** The comma rule on a digit string: not at either end, and a multiple of three digits follows. */
  predicate CommaBefore(c: string, p: nat) {
    0 < p < |c| && (|c| - p) % 3 == 0
  }

  /** On a string of digits the pattern matches at `p` exactly when `CommaBefore` holds. */
  lemma CommaRuleIsThePattern(c: string, p: nat)
    requires AllDigits(c) && p <= |c|
    ensures NotWordBoundary(c, p) && DigitGroupsAhead(c, p) <==> CommaBefore(c, p)
  {
    if NotWordBoundary(c, p) && DigitGroupsAhead(c, p) {
      var k: nat :| GroupsEndAt(c, p, k);
      assert |c| - p == 3 * k;
      assert |c| > 0 ==> IsWordChar(c[0]);
    }
    if CommaBefore(c, p) {
      var k: nat := (|c| - p) / 3;
      assert p + 3 * k == |c|;
      assert AllDigits(c[p..p + 3 * k]);
      assert GroupsEndAt(c, p, k);
      assert IsWordChar(c[p - 1]) && IsWordChar(c[p]);
    }
  }

  // ---------------------------------------------------------------------------
  // The formatter

  /** The replacement scan from position `p` on: each character, preceded by a comma where the rule says. */
  function Punctuate(c: string, p: nat): string
    requires p <= |c|
    decreases |c| - p
  {
    if p == |c| then []
    else (if CommaBefore(c, p) then [','] else []) + [c[p]] + Punctuate(c, p + 1)
  }

  /** `formatMoney` on a string argument; the default argument is the empty string. */
  function FormatMoney(num: string): string {
    Punctuate(Digits(num), 0)
  }

  /** The string with its commas taken out. */
  function RemoveCommas(r: string): string {
    if r == [] then []
    else (if r[0] == ',' then [] else [r[0]]) + RemoveCommas(r[1..])
  }

  // ---------------------------------------------------------------------------
  // Cleaning keeps exactly the digits

  lemma {:induction false} DigitsAppend(a: string, b: string)
    ensures Digits(a + b) == Digits(a) + Digits(b)
  {
    if a != [] {
      var head := if IsDigit(a[0]) then [a[0]] else [];
      calc {
        Digits(a + b);
        { assert (a + b)[0] == a[0] && (a + b)[1..] == a[1..] + b; }
        head + Digits(a[1..] + b);
        { DigitsAppend(a[1..], b); }
        head + (Digits(a[1..]) + Digits(b));
        (head + Digits(a[1..])) + Digits(b);
        Digits(a) + Digits(b);
      }
    } else {
      assert a + b == b;
    }
  }

  /** A string of digits is left as it is; with `DigitsAppend` this pins `Digits` down. */
  lemma {:induction false} DigitsOfDigits(s: string)
    requires AllDigits(s)
    ensures Digits(s) == s
  {
    if s != [] {
      DigitsOfDigits(s[1..]);
    }
  }

  /** Cleaning yields nothing exactly when the input holds no digit. */
  lemma {:induction false} DigitsEmpty(s: string)
    ensures Digits(s) == [] <==> forall i :: 0 <= i < |s| ==> !IsDigit(s[i])
  {
    if s != [] {
      DigitsEmpty(s[1..]);
      assert forall i :: 1 <= i < |s| ==> s[i] == s[1..][i - 1];
    }
  }

  // ---------------------------------------------------------------------------
  // Commas are only inserted

  lemma {:induction false} PunctuateRemoveCommas(c: string, p: nat)
    requires AllDigits(c) && p <= |c|
    ensures RemoveCommas(Punctuate(c, p)) == c[p..]
    decreases |c| - p
  {
    if p < |c| {
      PunctuateRemoveCommas(c, p + 1);
      var tail := [c[p]] + Punctuate(c, p + 1);
      assert RemoveCommas(tail) == [c[p]] + RemoveCommas(Punctuate(c, p + 1)) by {
        assert tail[1..] == Punctuate(c, p + 1);
      }
      if CommaBefore(c, p) {
        assert ([','] + tail)[1..] == tail;
      }
      assert c[p..] == [c[p]] + c[p + 1..];
    }
  }

  /** Taking the commas out of the result gives back exactly the digits of the input, in order. */
  lemma FormatMoneyKeepsDigits(num: string)
    ensures RemoveCommas(FormatMoney(num)) == Digits(num)
    ensures FormatMoney(num) == [] <==> forall i :: 0 <= i < |num| ==> !IsDigit(num[i])
  {
    var d := Digits(num);
    PunctuateRemoveCommas(d, 0);
    assert d[0..] == d;
    DigitsEmpty(num);
    if d != [] {
      assert FormatMoney(num)[0] == d[0];
    }
  }

  // ---------------------------------------------------------------------------
  // Where commas can stand

  /** Every comma stands between two digits; so none leads, none trails, no two are adjacent. */
  predicate WellSeparated(r: string) {
    && (forall i :: 0 <= i < |r| ==> IsDigit(r[i]) || r[i] == ',')
    && (forall i :: 0 <= i < |r| && r[i] == ',' ==> 0 < i < |r| - 1 && IsDigit(r[i - 1]) && IsDigit(r[i + 1]))
  }

  /** From any position on, the scan emits digits and commas, and each comma is followed by a digit. */
  lemma {:induction false} PunctuateCommaThenDigit(c: string, p: nat)
    requires AllDigits(c) && p <= |c|
    ensures var r := Punctuate(c, p);
      && (forall i :: 0 <= i < |r| ==> IsDigit(r[i]) || r[i] == ',')
      && (forall i :: 0 <= i < |r| && r[i] == ',' ==> i < |r| - 1 && IsDigit(r[i + 1]))
      && (p < |c| ==> r != [] && r[0] == (if CommaBefore(c, p) then ',' else c[p]))
    decreases |c| - p
  {
    if p < |c| {
      PunctuateCommaThenDigit(c, p + 1);
      var rest := Punctuate(c, p + 1);
      var tail := [c[p]] + rest;
      assert forall i :: 1 <= i < |tail| ==> tail[i] == rest[i - 1];
      if CommaBefore(c, p) {
        var r := [','] + tail;
        assert forall i :: 1 <= i < |r| ==> r[i] == tail[i - 1];
      }
    }
  }

  lemma FormatMoneyWellSeparated(num: string)
    ensures WellSeparated(FormatMoney(num))
  {
    var d := Digits(num);
    var r := FormatMoney(num);
    PunctuateCommaThenDigit(d, 0);
    forall i | 0 <= i < |r| && r[i] == ','
      ensures 0 < i < |r| - 1 && IsDigit(r[i - 1]) && IsDigit(r[i + 1])
    {
      assert i != 0;
      assert r[i - 1] != ',';
    }
  }

  // ---------------------------------------------------------------------------
  // Thousands grouping

  /** The digits cut into groups of three from the right; the leftmost group keeps what is left over. */
  function Chunks(d: string): seq<string>
    decreases |d|
  {
    if |d| <= 3 then [d] else Chunks(d[..|d| - 3]) + [d[|d| - 3..]]
  }

  /** The groups written one after another, with a comma between two neighbours. */
  function Join(gs: seq<string>): string
    decreases |gs|
  {
    if |gs| == 0 then []
    else if |gs| == 1 then gs[0]
    else Join(gs[..|gs| - 1]) + "," + gs[|gs| - 1]
  }

  function Concat(gs: seq<string>): string
    decreases |gs|
  {
    if |gs| == 0 then [] else Concat(gs[..|gs| - 1]) + gs[|gs| - 1]
  }

  /** `gs` splits `d` into a first group of one to three characters and further groups of exactly three. */
  predicate GroupedByThousands(gs: seq<string>, d: string) {
    && |gs| >= 1
    && Concat(gs) == d
    && |gs[0]| <= 3
    && (d != [] ==> 1 <= |gs[0]|)
    && (forall i :: 1 <= i < |gs| ==> |gs[i]| == 3)
  }

  lemma {:induction false} ChunksGrouped(d: string)
    ensures GroupedByThousands(Chunks(d), d)
    ensures |Chunks(d)| == if d == [] then 1 else (|d| + 2) / 3
    decreases |d|
  {
    if |d| > 3 {
      var a, b := d[..|d| - 3], d[|d| - 3..];
      ChunksGrouped(a);
      var gs := Chunks(d);
      assert gs[..|gs| - 1] == Chunks(a);
      assert a + b == d;
    } else {
      assert Concat([d]) == Concat([]) + d;
    }
  }

  /** Where `b` has a multiple of three characters, the scan over `a` is unaffected by appending `b`. */
  lemma {:induction false} PunctuatePrefix(a: string, b: string, p: nat)
    requires |b| % 3 == 0 && p <= |a|
    ensures Punctuate(a + b, p) == Punctuate(a, p) + Punctuate(a + b, |a|)
    decreases |a| - p
  {
    var c := a + b;
    var tail := Punctuate(c, |a|);
    if p < |a| {
      var mark: string := if CommaBefore(a, p) then [','] else [];
      calc {
        Punctuate(c, p);
        { assert CommaBefore(c, p) == CommaBefore(a, p) && c[p] == a[p]; }
        mark + [a[p]] + Punctuate(c, p + 1);
        { PunctuatePrefix(a, b, p + 1); }
        mark + [a[p]] + (Punctuate(a, p + 1) + tail);
        (mark + [a[p]] + Punctuate(a, p + 1)) + tail;
        Punctuate(a, p) + tail;
      }
    } else {
      assert Punctuate(a, p) == [];
    }
  }

  /** A final group of three after a non-empty prefix is emitted as a comma and the group. */
  lemma PunctuateLastGroup(a: string, b: string)
    requires |a| > 0 && |b| == 3
    ensures Punctuate(a + b, |a|) == [','] + b
  {
    var c := a + b;
    var n := |a|;
    assert Punctuate(c, n + 3) == [];
    assert Punctuate(c, n + 2) == [c[n + 2]];
    assert Punctuate(c, n + 1) == [c[n + 1], c[n + 2]];
    assert CommaBefore(c, n);
    assert Punctuate(c, n) == [',', c[n], c[n + 1], c[n + 2]];
    assert b == [c[n], c[n + 1], c[n + 2]];
  }

  /** Appending a group of three to a non-empty digit string appends a comma and the group. */
  lemma PunctuateAppendGroup(a: string, b: string)
    requires |a| > 0 && |b| == 3
    ensures Punctuate(a + b, 0) == Punctuate(a, 0) + [','] + b
  {
    var x, y := Punctuate(a, 0), Punctuate(a + b, |a|);
    PunctuatePrefix(a, b, 0);
    PunctuateLastGroup(a, b);
    assert x + y == x + [','] + b;
  }

  /** Up to three characters get no comma at all. */
  lemma {:induction false} PunctuateShort(c: string, p: nat)
    requires |c| <= 3 && p <= |c|
    ensures Punctuate(c, p) == c[p..]
    decreases |c| - p
  {
    if p < |c| {
      PunctuateShort(c, p + 1);
      assert !CommaBefore(c, p);
      assert c[p..] == [c[p]] + c[p + 1..];
    }
  }

  /** The scan inserts exactly the commas that join the thousands groups of the digits. */
  lemma {:induction false} PunctuateIsJoin(d: string)
    ensures Punctuate(d, 0) == Join(Chunks(d))
    ensures d != [] ==> |Punctuate(d, 0)| == |d| + (|d| - 1) / 3
    decreases |d|
  {
    if |d| <= 3 {
      PunctuateShort(d, 0);
      assert d[0..] == d;
    } else {
      var a, b := d[..|d| - 3], d[|d| - 3..];
      assert a + b == d;
      PunctuateIsJoin(a);
      PunctuateAppendGroup(a, b);
      var gs := Chunks(d);
      assert gs == Chunks(a) + [b];
      assert gs[..|gs| - 1] == Chunks(a);
      ChunksGrouped(a);
    }
  }

  /** The result is the cleaned digits cut into thousands groups and joined with commas. */
  lemma FormatMoneyGroups(num: string)
    ensures GroupedByThousands(Chunks(Digits(num)), Digits(num))
    ensures FormatMoney(num) == Join(Chunks(Digits(num)))
    ensures Digits(num) != [] ==> |FormatMoney(num)| == |Digits(num)| + (|Digits(num)| - 1) / 3
  {
    ChunksGrouped(Digits(num));
    PunctuateIsJoin(Digits(num));
  }

  /** Formatting a result again strips its commas and regroups the same digits the same way, so nothing changes. */
  lemma FormatMoneyStable(num: string)
    ensures FormatMoney(FormatMoney(num)) == FormatMoney(num)
  {
    var d := Digits(num);
    var r := FormatMoney(num);
    FormatMoneyKeepsDigits(num);
    FormatMoneyWellSeparated(num);
    DigitsOfRemoveCommas(r);
    assert Digits(r) == d;
  }

  /** On a string of digits and commas, cleaning and removing commas agree. */
  lemma {:induction false} DigitsOfRemoveCommas(r: string)
    requires forall i :: 0 <= i < |r| ==> IsDigit(r[i]) || r[i] == ','
    ensures Digits(r) == RemoveCommas(r)
  {
    if r != [] {
      DigitsOfRemoveCommas(r[1..]);
    }
  }

  lemma FormatMoneyEdgeExamples()
    ensures FormatMoney("") == ""
    ensures FormatMoney("0") == "0"
  {
  }

  lemma FormatMoneyIntegerExample(num: string)
    requires num == "1234567"
    ensures FormatMoney(num) == "1,234,567"
  {
    DigitsOfDigits(num);
    PunctuateSeven(num);
    assert num[..1] == "1" && num[1..4] == "234" && num[4..] == "567";
  }

  /** Seven digits get commas after the first and the fourth. */
  lemma PunctuateSeven(c: string)
    requires |c| == 7
    ensures Punctuate(c, 0) == c[..1] + [','] + c[1..4] + [','] + c[4..]
  {
    PunctuateShort(c[..1], 0);
    assert c[..1] + c[1..4] == c[..4] && c[..4] + c[4..] == c;
    PunctuateAppendGroup(c[..1], c[1..4]);
    PunctuateAppendGroup(c[..4], c[4..]);
  }

  /** The decimal point is dropped with the other non-digits before the commas go in. */
  lemma FormatMoneyFractionExample(num: string)
    requires num == "1234567.89"
    ensures FormatMoney(num) == "123,456,789"
  {
    var d := Digits(num);
    var whole, fraction := num[..7], num[7..];
    assert whole + fraction == num;
    assert Digits(fraction) == fraction[1..] by {
      assert !IsDigit(fraction[0]) && (fraction[..1] + fraction[1..]) == fraction;
      DigitsAppend(fraction[..1], fraction[1..]);
      DigitsOfDigits(fraction[1..]);
    }
    DigitsOfDigits(whole);
    DigitsAppend(whole, fraction);
    assert d == "123456789";
    PunctuateNine(d);
    assert d[..3] == "123" && d[3..6] == "456" && d[6..] == "789";
  }

  /** Nine digits get commas after the third and the sixth. */
  lemma PunctuateNine(c: string)
    requires |c| == 9
    ensures Punctuate(c, 0) == c[..3] + [','] + c[3..6] + [','] + c[6..]
  {
    PunctuateShort(c[..3], 0);
    assert c[..3] + c[3..6] == c[..6] && c[..6] + c[6..] == c;
    PunctuateAppendGroup(c[..3], c[3..6]);
    PunctuateAppendGroup(c[..6], c[6..]);
  }
}
