/**
 * The three-character counters of the page header (game.js:351-358): a
 * non-negative integer written in decimal by `toString` and left-padded with
 * zeros to three characters by `padStart(3, '0')`.
 */
module Display {

  predicate IsDigit(ch: char) {
    '0' <= ch <= '9'
  }

  predicate AllDigits(s: string) {
    forall i | 0 <= i < |s| :: IsDigit(s[i])
  }

  function DigitChar(d: nat): (ch: char)
    requires d < 10
    ensures IsDigit(ch) && ch as int - '0' as int == d
  {
    (d + '0' as int) as char
  }

  /** `n.toString()` for a non-negative integer: its decimal digits, no leading zero. */
  function Decimal(n: nat): (s: string)
    ensures 1 <= |s| && AllDigits(s)
    ensures |s| > 1 ==> s[0] != '0'
  {
    if n < 10 then [DigitChar(n)] else Decimal(n / 10) + [DigitChar(n % 10)]
  }

  /** The number a string of decimal digits stands for (the reader's side of `Decimal`). */
  function Value(s: string): nat
    requires AllDigits(s)
  {
    if s == [] then 0 else Value(s[..|s| - 1]) * 10 + (s[|s| - 1] as int - '0' as int)
  }

  /** `s.padStart(k, '0')`: zeros in front up to length `k`; a longer string is left as it is. */
  function PadStart(s: string, k: nat): (r: string)
    ensures |r| == if |s| < k then k else |s|
    ensures r[|r| - |s|..] == s
    ensures forall i | 0 <= i < |r| - |s| :: r[i] == '0'
  {
    if |s| < k then seq(k - |s|, _ => '0') + s else s
  }

  /** Reading back what `Decimal` wrote gives the number. */
  lemma {:induction false} DecimalValue(n: nat)
    ensures Value(Decimal(n)) == n
  {
    if n >= 10 {
      DecimalValue(n / 10);
      var s := Decimal(n);
      assert s[..|s| - 1] == Decimal(n / 10);
    }
  }

  /** Numbers below 1000 take at most three digits. */
  lemma {:induction false} DecimalLength(n: nat)
    ensures n < 10 ==> |Decimal(n)| == 1
    ensures n < 100 ==> |Decimal(n)| <= 2
    ensures n < 1000 ==> |Decimal(n)| <= 3
  {
    if n >= 10 {
      DecimalLength(n / 10);
    }
  }

  /** Leading zeros do not change the value. */
  lemma {:induction false} ZerosValue(z: string, s: string)
    requires AllDigits(s) && forall i | 0 <= i < |z| :: z[i] == '0'
    ensures AllDigits(z) && Value(z) == 0
    ensures AllDigits(z + s) && Value(z + s) == Value(s)
    decreases |s|, |z|
  {
    if s == [] {
      assert z + s == z;
      if z != [] {
        ZerosValue(z[..|z| - 1], []);
        assert z[..|z| - 1] + [] == z[..|z| - 1];
      }
    } else {
      var t := s[..|s| - 1];
      assert (z + s)[..|z + s| - 1] == z + t;
      ZerosValue(z, t);
    }
  }

  /** `n.toString().padStart(3, '0')`: reads back as `n`, and is exactly three characters below 1000. */
  function Counter(n: nat): (s: string)
    ensures AllDigits(s) && Value(s) == n
    ensures n < 1000 ==> |s| == 3
  {
    var d := Decimal(n);
    DecimalValue(n);
    DecimalLength(n);
    var s := PadStart(d, 3);
    ZerosValue(s[..|s| - |d|], d);
    assert s == s[..|s| - |d|] + d;
    s
  }
}
