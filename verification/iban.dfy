/** The MOD-97 check of an Azerbaijan IBAN. The text is taken without white space and in capitals. */
module Iban {

  predicate IsDigit(c: char) { '0' <= c <= '9' }

  predicate IsLetter(c: char) { 'A' <= c <= 'Z' }

  predicate IsAlnum(c: char) { IsDigit(c) || IsLetter(c) }

  predicate Alphanumeric(s: string) {
    forall i :: 0 <= i < |s| ==> IsAlnum(s[i])
  }

  /** A for 10 to Z for 35. */
  function Value(c: char): nat
    requires IsAlnum(c)
  {
    if IsLetter(c) then c as nat - 55 else c as nat - 48
  }

  function Fragment(c: char): seq<nat>
    requires IsAlnum(c)
  {
    if IsLetter(c) then [Value(c) / 10, Value(c) % 10] else [Value(c)]
  }

  /** The number that a row of decimal digits writes. */
  function Number(digits: seq<nat>): nat {
    if digits == [] then 0 else Number(digits[..|digits| - 1]) * 10 + digits[|digits| - 1]
  }

  function Digits(s: string): seq<nat>
    requires Alphanumeric(s)
  {
    if s == [] then [] else Digits(s[..|s| - 1]) + Fragment(s[|s| - 1])
  }

  /** The whole number that the check is about. */
  function Expanded(s: string): nat
    requires Alphanumeric(s)
  {
    Number(Digits(s))
  }

  datatype Verdict = Valid | Empty | BadFormat | ChecksumFailed

  predicate WellFormed(s: string) {
    |s| == 28 && s[0] == 'A' && s[1] == 'Z' && Alphanumeric(s)
  }

  predicate IsValid(s: string) {
    WellFormed(s) && Expanded(s[4..] + s[..4]) % 97 == 1
  }

  lemma {:induction false} NumberAppend(a: seq<nat>, b: seq<nat>)
    ensures Number(a + b) == Number(a) * Pow10(|b|) + Number(b)
  {
    if b == [] {
      assert a + b == a;
    } else {
      var n := |b| - 1;
      NumberAppend(a, b[..n]);
      assert (a + b)[..|a + b| - 1] == a + b[..n];
      calc {
        Number(a + b);
        (Number(a) * Pow10(n) + Number(b[..n])) * 10 + b[n];
        Number(a) * Pow10(n) * 10 + Number(b);
        { assert Number(a) * Pow10(n) * 10 == Number(a) * (10 * Pow10(n)); }
        Number(a) * Pow10(|b|) + Number(b);
      }
    }
  }

  function Pow10(n: nat): nat {
    if n == 0 then 1 else 10 * Pow10(n - 1)
  }

  lemma DigitsStep(s: string, n: nat)
    requires Alphanumeric(s) && |s| == n + 1
    ensures Alphanumeric(s[..n]) && IsAlnum(s[n]) && Digits(s) == Digits(s[..n]) + Fragment(s[n])
  {
  }

  lemma AlphanumericJoin(a: string, b: string)
    requires Alphanumeric(a) && Alphanumeric(b)
    ensures Alphanumeric(a + b)
  {
  }

  lemma {:induction false} DigitsAppend(a: string, b: string)
    requires Alphanumeric(a) && Alphanumeric(b)
    ensures Alphanumeric(a + b) && Digits(a + b) == Digits(a) + Digits(b)
  {
    hide *;
    AlphanumericJoin(a, b);
    if b == [] {
      DigitsOfNone();
      assert a + b == a && Digits(a) + [] == Digits(a);
    } else {
      var n := |b| - 1;
      DigitsStep(b, n);
      DigitsStep(a + b, |a| + n);
      DigitsAppend(a, b[..n]);
      assert (a + b)[..|a| + n] == a + b[..n] && (a + b)[|a| + n] == b[n];
      assert Digits(a) + (Digits(b[..n]) + Fragment(b[n])) == Digits(a) + Digits(b[..n]) + Fragment(b[n]);
    }
  }

  lemma DigitsOfNone()
    ensures Digits([]) == []
  {
  }

  method ValidateAzIban(s: string) returns (v: Verdict)
    ensures v == Valid <==> IsValid(s)
    ensures v == Empty <==> s == ""
    ensures v == BadFormat <==> s != "" && !WellFormed(s)
  {
    if s == "" {
      return Empty;
    }
    if |s| != 28 || s[0] != 'A' || s[1] != 'Z' {
      return BadFormat;
    }
    for i := 0 to |s|
      invariant forall j :: 0 <= j < i ==> IsAlnum(s[j])
    {
      if !IsAlnum(s[i]) {
        return BadFormat;
      }
    }
    var remainder := Remainder(s[4..] + s[..4]);
    return if remainder == 1 then Valid else ChecksumFailed;
  }

  /** Digit by digit, keeping the remainder only. */
  method Remainder(rearranged: string) returns (remainder: nat)
    requires Alphanumeric(rearranged)
    ensures remainder == Expanded(rearranged) % 97
  {
    hide Number, Fragment;
    remainder := 0;
    ghost var digits := [];
    NumberOfNone();
    for i := 0 to |rearranged|
      invariant digits == Digits(rearranged[..i]) && remainder == Number(digits) % 97
    {
      assert rearranged[..i + 1][..i] == rearranged[..i];
      var fragment := Fragment(rearranged[i]);
      assert Digits(rearranged[..i]) + fragment[..0] == Digits(rearranged[..i]);
      for j := 0 to |fragment|
        invariant digits == Digits(rearranged[..i]) + fragment[..j] && remainder == Number(digits) % 97
      {
        assert Digits(rearranged[..i]) + fragment[..j + 1] == digits + [fragment[j]];
        RemainderStep(digits, fragment[j], remainder);
        remainder := (remainder * 10 + fragment[j]) % 97;
        digits := digits + [fragment[j]];
      }
      assert fragment[..|fragment|] == fragment;
    }
    assert rearranged[..|rearranged|] == rearranged;
  }

  lemma NumberOfNone()
    ensures Number([]) == 0
  {
  }

  lemma RemainderStep(digits: seq<nat>, d: nat, remainder: nat)
    requires remainder == Number(digits) % 97
    ensures Number(digits + [d]) % 97 == (remainder * 10 + d) % 97
  {
    NumberStep(digits, d);
    var q := Number(digits) / 97;
    ModShift(remainder * 10 + d, 10 * q);
  }

  lemma ModShift(a: int, k: int)
    ensures (a + 97 * k) % 97 == a % 97
  {
  }

  // ----- Modulo 97

  predicate SameCheck(a: int, b: int) {
    a % 97 == b % 97
  }

  ghost predicate Congruent(a: int, b: int) {
    (a - b) % 97 == 0
  }

  lemma SameRemainder(a: int, b: int)
    ensures SameCheck(a, b) <==> Congruent(a, b)
  {
  }

  /** Ten has an inverse modulo 97, so a factor of ten neither hides nor makes a difference. */
  lemma {:induction false} PowerCancels(x: int, n: nat)
    ensures (x * Pow10(n)) % 97 == 0 <==> x % 97 == 0
  {
    if n > 0 {
      PowerCancels(x, n - 1);
      var y := x * Pow10(n - 1);
      assert x * Pow10(n) == 10 * y;
      TenCancels(y);
    } else {
      assert x * Pow10(0) == x;
    }
  }

  lemma TenCancels(y: int)
    ensures (10 * y) % 97 == 0 <==> y % 97 == 0
  {
  }

  // ----- Which errors the remainder shows

  /** Two texts that differ in the middle only have the same remainder exactly when they have it up to there. */
  lemma MiddleDecides(a: string, b: string, q: string)
    requires Alphanumeric(a) && Alphanumeric(b) && Alphanumeric(q)
    ensures Alphanumeric(a + q) && Alphanumeric(b + q)
    ensures SameCheck(Expanded(a + q), Expanded(b + q)) <==> Congruent(Expanded(a), Expanded(b))
  {
    hide *;
    ExpandedAppend(a, q);
    ExpandedAppend(b, q);
    ShiftDecides(Expanded(a), Expanded(b), |Digits(q)|, Expanded(q));
  }

  lemma ExpandedAppend(a: string, q: string)
    requires Alphanumeric(a) && Alphanumeric(q)
    ensures Alphanumeric(a + q) && Expanded(a + q) == Expanded(a) * Pow10(|Digits(q)|) + Expanded(q)
  {
    DigitsAppend(a, q);
    NumberAppend(Digits(a), Digits(q));
  }

  lemma ShiftDecides(a: int, b: int, n: nat, c: int)
    ensures SameCheck(a * Pow10(n) + c, b * Pow10(n) + c) <==> Congruent(a, b)
  {
    var w := Pow10(n);
    hide Pow10, SameCheck, Congruent;
    SameRemainder(a * w + c, b * w + c);
    assert (a * w + c) - (b * w + c) == (a - b) * w;
    PowerCancels(a - b, n);
    CongruentMeans(a, b);
    CongruentMeans(a * w + c, b * w + c);
  }

  lemma CongruentMeans(a: int, b: int)
    ensures Congruent(a, b) <==> (a - b) % 97 == 0
  {
  }

  /** One more character: a digit shifts by ten, a letter by a hundred. */
  lemma OneMore(p: string, c: char)
    requires Alphanumeric(p) && IsAlnum(c)
    ensures Alphanumeric(p + [c]) && Expanded(p + [c]) == (if IsLetter(c) then 100 else 10) * Expanded(p) + Value(c)
  {
    assert (p + [c])[..|p|] == p;
    var ds := Digits(p);
    if IsLetter(c) {
      var tens, units := Value(c) / 10, Value(c) % 10;
      assert Digits(p + [c]) == ds + [tens] + [units];
      NumberStep(ds, tens);
      NumberStep(ds + [tens], units);
    } else {
      NumberStep(ds, Value(c));
    }
  }

  lemma NumberStep(digits: seq<nat>, d: nat)
    ensures Number(digits + [d]) == Number(digits) * 10 + d
  {
    assert (digits + [d])[..|digits|] == digits;
  }

  /** A digit put for another digit, or a letter for another letter, is always noticed. */
  lemma SubstitutionIsNoticed(p: string, x: char, y: char, q: string)
    requires Alphanumeric(p) && IsAlnum(x) && IsAlnum(y) && Alphanumeric(q)
    requires x != y && IsLetter(x) == IsLetter(y)
    ensures Alphanumeric(p + [x] + q) && Alphanumeric(p + [y] + q)
    ensures !SameCheck(Expanded(p + [x] + q), Expanded(p + [y] + q))
  {
    hide Expanded, SameCheck, Congruent;
    OneMore(p, x);
    OneMore(p, y);
    MiddleDecides(p + [x], p + [y], q);
    SmallDifference(Expanded(p + [x]), Expanded(p + [y]));
  }

  lemma SmallDifference(a: int, b: int)
    requires a != b && -97 < a - b < 97
    ensures !Congruent(a, b)
  {
  }

  /** A digit put for a letter is noticed or not depending on what comes before. */
  lemma DigitForLetter(p: string, d: char, l: char, q: string)
    requires Alphanumeric(p) && IsDigit(d) && IsLetter(l) && Alphanumeric(q)
    ensures Alphanumeric(p + [d] + q) && Alphanumeric(p + [l] + q)
    ensures SameCheck(Expanded(p + [d] + q), Expanded(p + [l] + q)) <==>
            (90 * (Expanded(p) % 97) + Value(l) - Value(d)) % 97 == 0
  {
    hide Expanded, SameCheck, Congruent;
    OneMore(p, d);
    OneMore(p, l);
    MiddleDecides(p + [d], p + [l], q);
    NinetyTimes(Expanded(p), Value(d), Value(l));
  }

  lemma NinetyTimes(n: nat, d: int, l: int)
    ensures Congruent(10 * n + d, 100 * n + l) <==> (90 * (n % 97) + l - d) % 97 == 0
  {
    var x, q := 90 * (n % 97) + l - d, n / 97;
    ModShift(-x, -90 * q);
    Negated(x);
  }

  lemma Negated(x: int)
    ensures (-x) % 97 == 0 <==> x % 97 == 0
  {
  }

  predicate Eleven(d: char, l: char) {
    IsDigit(d) && IsLetter(l) && Value(l) == 11 * Value(d)
  }

  /** Two neighbours swapped are not noticed exactly when one is a digit, the other a letter, and the value of the
      letter is eleven times the digit: 1 with B, 2 with M, 3 with X. */
  lemma SwapIsNoticed(p: string, x: char, y: char, q: string)
    requires Alphanumeric(p) && IsAlnum(x) && IsAlnum(y) && Alphanumeric(q) && x != y
    ensures Alphanumeric(p + [x, y] + q) && Alphanumeric(p + [y, x] + q)
    ensures SameCheck(Expanded(p + [x, y] + q), Expanded(p + [y, x] + q)) <==> Eleven(x, y) || Eleven(y, x)
  {
    hide Expanded, SameCheck, Congruent, Eleven;
    TwoMore(p, x, y);
    TwoMore(p, y, x);
    MiddleDecides(p + [x, y], p + [y, x], q);
    SwappedValues(Expanded(p), x, y);
  }

  function After(n: int, c: char): int
    requires IsAlnum(c)
  {
    (if IsLetter(c) then 100 else 10) * n + Value(c)
  }

  lemma TwoMore(p: string, x: char, y: char)
    requires Alphanumeric(p) && IsAlnum(x) && IsAlnum(y)
    ensures Alphanumeric(p + [x, y]) && Expanded(p + [x, y]) == After(After(Expanded(p), x), y)
  {
    hide Expanded;
    OneMore(p, x);
    OneMore(p + [x], y);
    assert p + [x] + [y] == p + [x, y];
  }

  lemma SwappedValues(n: int, x: char, y: char)
    requires IsAlnum(x) && IsAlnum(y) && x != y
    ensures Congruent(After(After(n, x), y), After(After(n, y), x)) <==> Eleven(x, y) || Eleven(y, x)
  {
    hide Congruent;
    var v, w := Value(x), Value(y);
    if IsLetter(x) && IsLetter(y) {
      SwapOfLetters(10000 * n, v, w);
    } else if IsDigit(x) && IsDigit(y) {
      SmallDifference(100 * n + v * 10 + w, 100 * n + w * 10 + v);
    } else if IsDigit(x) {
      SwapOfBoth(1000 * n, v, w);
    } else {
      SwapOfBoth(1000 * n, w, v);
      Symmetric(1000 * n + v * 10 + w, 1000 * n + w * 100 + v);
    }
  }

  lemma Symmetric(a: int, b: int)
    ensures Congruent(a, b) == Congruent(b, a)
  {
  }

  lemma SwapOfLetters(n: int, v: int, w: int)
    requires 10 <= v <= 35 && 10 <= w <= 35 && v != w
    ensures !Congruent(n + v * 100 + w, n + w * 100 + v)
  {
    assert (n + v * 100 + w) - (n + w * 100 + v) == 97 * (v - w) + 2 * (v - w);
  }

  lemma SwapOfBoth(n: int, digit: int, letter: int)
    requires 0 <= digit <= 9 && 10 <= letter <= 35
    ensures Congruent(n + digit * 100 + letter, n + letter * 10 + digit) <==> letter == 11 * digit
  {
    var x := 11 * digit - letter;
    assert (n + digit * 100 + letter) - (n + letter * 10 + digit) == 9 * x;
    assert -35 <= x <= 89;
  }

  // ----- Whole numbers

  lemma ChangedIban(s: string, i: nat, c: char)
    requires IsValid(s) && 4 <= i < 28 && c != s[i] && IsAlnum(c) && IsLetter(c) == IsLetter(s[i])
    ensures WellFormed(s[i := c]) && !IsValid(s[i := c])
  {
    var p, q := s[4..i], s[i + 1..] + s[..4];
    var t := s[i := c];
    assert s[4..] + s[..4] == p + [s[i]] + q;
    assert t[4..] + t[..4] == p + [c] + q;
    SubstitutionIsNoticed(p, s[i], c, q);
  }

  lemma ChangedCheckDigit(s: string, i: nat, c: char)
    requires IsValid(s) && 2 <= i < 4 && c != s[i] && IsAlnum(c) && IsLetter(c) == IsLetter(s[i])
    ensures WellFormed(s[i := c]) && !IsValid(s[i := c])
  {
    var p, q := s[4..] + s[..i], s[i + 1..4];
    var t := s[i := c];
    assert s[4..] + s[..4] == p + [s[i]] + q;
    assert t[4..] + t[..4] == p + [c] + q;
    SubstitutionIsNoticed(p, s[i], c, q);
  }

  predicate Blind(d: char, l: char) {
    (d == '1' && l == 'B') || (d == '2' && l == 'M') || (d == '3' && l == 'X')
  }

  /** A swap of neighbours in the account part of a valid number leaves it valid exactly when it is of 1 and B,
      2 and M, or 3 and X. */
  lemma SwappedIban(s: string, i: nat)
    requires IsValid(s) && 4 <= i < 27 && s[i] != s[i + 1]
    ensures var t := s[i := s[i + 1]][i + 1 := s[i]];
            WellFormed(t) && (IsValid(t) <==> Blind(s[i], s[i + 1]) || Blind(s[i + 1], s[i]))
  {
    hide Eleven, Expanded, Blind;
    var x, y := s[i], s[i + 1];
    var t := s[i := y][i + 1 := x];
    var p, q := s[4..i], s[i + 2..] + s[..4];
    assert s[4..] + s[..4] == p + [x, y] + q;
    assert t[4..] + t[..4] == p + [y, x] + q;
    SwapIsNoticed(p, x, y, q);
    ElevenTimes(x, y);
    ElevenTimes(y, x);
  }

  lemma ElevenTimes(d: char, l: char)
    ensures Eleven(d, l) <==> Blind(d, l)
  {
  }

  function Pair(k: nat): string
    requires k < 100
  {
    ['0' + (k / 10) as char, '0' + (k % 10) as char]
  }

  /** The check number that belongs to an account part. */
  function CheckOf(bban: string): nat
    requires Alphanumeric(bban)
  {
    DigitsAppend(bban, "AZ00");
    98 - Expanded(bban + "AZ00") % 97
  }

  /** Every account part has exactly one check number from 02 to 98, and of the pairs of digits the check takes
      exactly those that are the same modulo 97: 00 for 97, 01 for 98 and 99 for 02 as well. */
  lemma CheckNumberIsUnique(bban: string, k: nat)
    requires Alphanumeric(bban) && |bban| == 24 && k < 100
    ensures 2 <= CheckOf(bban) <= 98
    ensures IsValid("AZ" + Pair(k) + bban) <==> (k - CheckOf(bban)) % 97 == 0
    ensures 2 <= k <= 98 ==> (IsValid("AZ" + Pair(k) + bban) <==> k == CheckOf(bban))
  {
    hide Expanded;
    var s := "AZ" + Pair(k) + bban;
    assert Alphanumeric(s);
    assert s[4..] + s[..4] == bban + "AZ" + Pair(k);
    WithPair(bban, k);
    WithPair(bban, 0);
    assert bban + "AZ" + Pair(0) == bban + "AZ00";
    CheckArithmetic(100 * Expanded(bban + "AZ"), k);
  }

  lemma CheckArithmetic(n: nat, k: nat)
    ensures (n + k) % 97 == 1 <==> (k - (98 - n % 97)) % 97 == 0
  {
  }

  lemma WithPair(bban: string, k: nat)
    requires Alphanumeric(bban) && k < 100
    ensures Alphanumeric(bban + "AZ") && Alphanumeric(bban + "AZ" + Pair(k))
    ensures Expanded(bban + "AZ" + Pair(k)) == 100 * Expanded(bban + "AZ") + k
  {
    hide Expanded;
    var pair := Pair(k);
    assert bban + "AZ" + pair == bban + "AZ" + [pair[0]] + [pair[1]];
    OneMore(bban + "AZ", pair[0]);
    OneMore(bban + "AZ" + [pair[0]], pair[1]);
  }
}
