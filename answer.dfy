/**
 * The text typed into the Practice answer box: the `onChange` filter that
 * keeps only the characters 0-9 (src/App.tsx:104) and JavaScript's
 * `Number(answer)` on the resulting digit string (src/App.tsx:86-87).
 */
module Answer {

  predicate IsDigit(c: char) {
    '0' <= c <= '9'
  }

  predicate AllDigits(s: string) {
    forall i :: 0 <= i < |s| ==> IsDigit(s[i])
  }

  /** `value.replace(/\D/g, "")`: every character outside 0-9 is removed, the rest keep their order. */
  function StripNonDigits(s: string): (r: string)
    ensures AllDigits(r)
    ensures |r| <= |s|
  {
    if s == [] then []
    else if IsDigit(s[0]) then [s[0]] + StripNonDigits(s[1..])
    else StripNonDigits(s[1..])
  }

  /** A string that is already all digits passes through the filter untouched. */
  lemma {:induction false} StripKeepsDigits(s: string)
    requires AllDigits(s)
    ensures StripNonDigits(s) == s
  {
    if s != [] {
      StripKeepsDigits(s[1..]);
    }
  }

  /** The filter's fixed points are exactly the digit strings. */
  lemma StripFixedPoint(s: string)
    ensures StripNonDigits(s) == s <==> AllDigits(s)
  {
    if AllDigits(s) {
      StripKeepsDigits(s);
    }
  }

  /** Filtering twice is filtering once. */
  lemma StripIdempotent(s: string)
    ensures StripNonDigits(StripNonDigits(s)) == StripNonDigits(s)
  {
    StripKeepsDigits(StripNonDigits(s));
  }

  /**
   * The filter works character by character: filtering a concatenation is
   * concatenating the filtered parts.
   */
  lemma {:induction false} StripAppend(s: string, t: string)
    ensures StripNonDigits(s + t) == StripNonDigits(s) + StripNonDigits(t)
  {
    if s == [] {
      assert s + t == t;
    } else {
      assert (s + t)[0] == s[0] && (s + t)[1..] == s[1..] + t;
      StripAppend(s[1..], t);
    }
  }

  /** Characters outside 0-9 appended to the input change nothing: "12x" is read as "12". */
  lemma StripIgnoresJunk(s: string, junk: string)
    requires forall i :: 0 <= i < |junk| ==> !IsDigit(junk[i])
    ensures StripNonDigits(s + junk) == StripNonDigits(s)
  {
    StripAppend(s, junk);
    NoDigitsStripToEmpty(junk);
  }

  lemma {:induction false} NoDigitsStripToEmpty(junk: string)
    requires forall i :: 0 <= i < |junk| ==> !IsDigit(junk[i])
    ensures StripNonDigits(junk) == []
  {
    if junk != [] {
      NoDigitsStripToEmpty(junk[1..]);
    }
  }

  /** Every digit of the input occurs in the output as often as in the input; nothing else does. */
  lemma {:induction false} StripCounts(s: string, c: char)
    ensures multiset(StripNonDigits(s))[c] == if IsDigit(c) then multiset(s)[c] else 0
  {
    if s != [] {
      assert s == [s[0]] + s[1..];
      StripCounts(s[1..], c);
    }
  }

  function DigitValue(c: char): (d: nat)
    requires IsDigit(c)
    ensures d < 10
  {
    c as int - '0' as int
  }

  function DigitChar(d: nat): (c: char)
    requires d < 10
    ensures IsDigit(c) && DigitValue(c) == d
  {
    ('0' as int + d) as char
  }

  function Pow10(k: nat): (p: nat)
    ensures p >= 1
  {
    if k == 0 then 1 else 10 * Pow10(k - 1)
  }

  /** The natural number a digit string denotes in base 10; leading zeros allowed, "" denotes 0. */
  function DigitsValue(s: string): (n: nat)
    requires AllDigits(s)
    ensures n < Pow10(|s|)
  {
    if s == [] then 0
    else 10 * DigitsValue(s[..|s| - 1]) + DigitValue(s[|s| - 1])
  }

  /** Leading zeros do not change the value ("007" is 7). */
  lemma {:induction false} LeadingZero(s: string)
    requires AllDigits(s)
    ensures AllDigits("0" + s) && DigitsValue("0" + s) == DigitsValue(s)
  {
    if s != [] {
      var z := "0" + s;
      assert z[..|z| - 1] == "0" + s[..|s| - 1];
      LeadingZero(s[..|s| - 1]);
    }
  }

  /** The decimal spelling of n, without leading zeros (what `String(n)` gives for n below 2^53). */
  function Decimal(n: nat): (s: string)
    ensures AllDigits(s) && |s| >= 1
    ensures s[0] != '0' || s == "0"
    decreases n
  {
    if n < 10 then [DigitChar(n)] else Decimal(n / 10) + [DigitChar(n % 10)]
  }

  /** Reading the decimal spelling of n gives n back. */
  lemma {:induction false} DecimalRoundTrip(n: nat)
    ensures DigitsValue(Decimal(n)) == n
    decreases n
  {
    if n >= 10 {
      var s := Decimal(n);
      assert s[..|s| - 1] == Decimal(n / 10);
      DecimalRoundTrip(n / 10);
    }
  }

  lemma {:induction false} LeadingNonZeroPositive(s: string)
    requires AllDigits(s) && s != [] && s[0] != '0'
    ensures DigitsValue(s) >= 1
  {
    if |s| > 1 {
      LeadingNonZeroPositive(s[..|s| - 1]);
    }
  }

  /** A digit string without leading zeros is the decimal spelling of its own value. */
  lemma {:induction false} DecimalOfValue(s: string)
    requires AllDigits(s) && s != [] && s[0] != '0'
    ensures Decimal(DigitsValue(s)) == s
  {
    var p := s[..|s| - 1];
    var n := DigitsValue(s);
    if p != [] {
      LeadingNonZeroPositive(p);
      DecimalOfValue(p);
      assert n / 10 == DigitsValue(p) && n % 10 == DigitValue(s[|s| - 1]);
      assert s == p + [s[|s| - 1]];
    }
  }

  /**
   * The result of `Number(answer)` for a digit string: a finite number, or
   * `Infinity` (which `Number.isFinite` rejects).
   */
  datatype Number = Finite(value: nat) | NotFinite

  /**
   * 2^1024 - 2^970: the least value that ECMAScript's round-to-nearest
   * conversion to a double turns into +Infinity (halfway between the largest
   * finite double, 2^1024 - 2^971, and 2^1024).
   */
  const InfinityBound: nat := 0xFFFFFFFFFFFFFC00_0000000000000000_0000000000000000_0000000000000000_0000000000000000_0000000000000000_0000000000000000_0000000000000000_0000000000000000_0000000000000000_0000000000000000_0000000000000000_0000000000000000_0000000000000000_0000000000000000_0000000000000000

  /** `Number(s)` on a digit string, as far as `Number.isFinite` and `=== correct` can observe it. */
  function ToNumber(s: string): (v: Number)
    requires AllDigits(s)
    ensures v.Finite? <==> DigitsValue(s) < InfinityBound
    ensures v.Finite? ==> v.value == DigitsValue(s)
  {
    var n := DigitsValue(s);
    if n < InfinityBound then Finite(n) else NotFinite
  }

  /** `Number("")` is 0 in JavaScript, not NaN: an empty answer is a finite number. */
  lemma EmptyIsZero()
    ensures ToNumber("") == Finite(0)
  {
  }

  /** Any number written out with at most 308 digits stays finite. */
  lemma {:induction false} ShortIsFinite(s: string)
    requires AllDigits(s) && |s| <= 308
    ensures ToNumber(s).Finite?
  {
    PowMonotone(|s|, 308);
    Pow10Bound();
  }

  lemma {:induction false} PowMonotone(j: nat, k: nat)
    requires j <= k
    ensures Pow10(j) <= Pow10(k)
    decreases k - j
  {
    if j < k {
      PowMonotone(j, k - 1);
    }
  }

  /** 10^308 is below the infinity bound. */
  lemma Pow10Bound()
    ensures Pow10(308) < InfinityBound
  {
    Pow10Sum(1, 1);
    assert Pow10(2) == 100;
    Pow10Sum(2, 2);
    assert Pow10(4) == 10000;
    Pow10Sum(4, 4);
    assert Pow10(8) == 100000000;
    Pow10Sum(8, 8);
    assert Pow10(16) == 10000000000000000;
    Pow10Sum(16, 16);
    assert Pow10(32) == 100000000000000000000000000000000;
    Pow10Sum(32, 32);
    assert Pow10(64) == 10000000000000000000000000000000000000000000000000000000000000000;
    Pow10Sum(64, 64);
    assert Pow10(128) == 100000000000000000000000000000000000000000000000000000000000000000000000000000000000000000000000000000000000000000000000000000000;
    Pow10Sum(128, 128);
    assert Pow10(256) == 10000000000000000000000000000000000000000000000000000000000000000000000000000000000000000000000000000000000000000000000000000000000000000000000000000000000000000000000000000000000000000000000000000000000000000000000000000000000000000000000000000000000000000;
    Pow10Sum(256, 32);
    assert Pow10(288) == 1000000000000000000000000000000000000000000000000000000000000000000000000000000000000000000000000000000000000000000000000000000000000000000000000000000000000000000000000000000000000000000000000000000000000000000000000000000000000000000000000000000000000000000000000000000000000000000000000;
    Pow10Sum(288, 16);
    assert Pow10(304) == 10000000000000000000000000000000000000000000000000000000000000000000000000000000000000000000000000000000000000000000000000000000000000000000000000000000000000000000000000000000000000000000000000000000000000000000000000000000000000000000000000000000000000000000000000000000000000000000000000000000000000000;
    Pow10Sum(304, 4);
    assert Pow10(308) == 100000000000000000000000000000000000000000000000000000000000000000000000000000000000000000000000000000000000000000000000000000000000000000000000000000000000000000000000000000000000000000000000000000000000000000000000000000000000000000000000000000000000000000000000000000000000000000000000000000000000000000000;
  }

  lemma {:induction false} Pow10Sum(j: nat, k: nat)
    ensures Pow10(j + k) == Pow10(j) * Pow10(k)
  {
    if k > 0 {
      Pow10Sum(j, k - 1);
    }
  }
}
