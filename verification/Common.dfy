/** Small vocabulary shared by the other modules: an optional value and decimal numerals. */
module Common {
  datatype Option<+T> = None | Some(value: T)

  type byte = b: int | 0 <= b < 256

  predicate IsDigit(c: char) {
    '0' <= c <= '9'
  }

  predicate AllDigits(s: string) {
    forall i :: 0 <= i < |s| ==> IsDigit(s[i])
  }

  function DigitChar(d: nat): (c: char)
    requires d < 10
    ensures IsDigit(c) && (c as int) - ('0' as int) == d
  {
    (('0' as int) + d) as char
  }

  /** The shortest decimal numeral of n, as Python's str(n). */
  function Decimal(n: nat): (s: string)
    ensures |s| > 0 && AllDigits(s)
    ensures n != 0 ==> s[0] != '0'
  {
    if n < 10 then [DigitChar(n)] else Decimal(n / 10) + [DigitChar(n % 10)]
  }

  /** The number a run of digits denotes, leading zeros allowed, as Python's int(s). */
  function Number(s: string): nat
    requires AllDigits(s)
  {
    if s == [] then 0 else 10 * Number(s[..|s| - 1]) + ((s[|s| - 1] as int) - ('0' as int))
  }

  lemma {:induction false} NumberOfDecimal(n: nat)
    ensures Number(Decimal(n)) == n
  {
    if n < 10 {
      assert Decimal(n)[..0] == [];
      assert Number([]) == 0;
    } else {
      NumberOfDecimal(n / 10);
      var s := Decimal(n / 10) + [DigitChar(n % 10)];
      assert s[..|s| - 1] == Decimal(n / 10);
    }
  }

  lemma {:induction false} DecimalOfNumber(d: string)
    requires d != "" && AllDigits(d) && (d[0] != '0' || |d| == 1)
    ensures Decimal(Number(d)) == d
    ensures d[0] != '0' ==> Number(d) > 0
  {
    var front := d[..|d| - 1];
    if front == "" {
      assert Number(front) == 0;
      assert d == [d[0]];
    } else {
      assert front[0] == d[0];
      DecimalOfNumber(front);
      assert Number(d) / 10 == Number(front);
      assert d == front + [d[|d| - 1]];
    }
  }

  /** Leading zeros do not change the number denoted. */
  lemma {:induction false} NumberOfPadded(zeros: string, s: string)
    requires AllDigits(s)
    requires forall i :: 0 <= i < |zeros| ==> zeros[i] == '0'
    ensures AllDigits(zeros + s)
    ensures Number(zeros + s) == Number(s)
    decreases |zeros| + |s|
  {
    if s != [] {
      var t := zeros + s;
      assert t[..|t| - 1] == zeros + s[..|s| - 1];
      NumberOfPadded(zeros, s[..|s| - 1]);
    } else if zeros != [] {
      assert zeros + s == zeros;
      assert zeros[..|zeros| - 1] + [] == zeros[..|zeros| - 1];
      NumberOfPadded(zeros[..|zeros| - 1], []);
    }
  }

  /** A number below 10^k has at most k digits: the only cases the id length bound needs. */
  lemma DecimalShort(n: nat)
    requires n <= 999
    ensures |Decimal(n)| <= 3
  {
    if n >= 10 && n >= 100 {
      assert |Decimal(n / 10 / 10)| == 1;
      assert |Decimal(n / 10)| == 2;
    }
  }
}
