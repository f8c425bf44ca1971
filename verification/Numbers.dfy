/** Positional number text (decimal and hexadecimal), as Python prints and reads it. */
module Numbers {
  import opened Basics

  const DIGITS := "0123456789abcdef"

  function DigitValue(c: char): (v: Option<nat>)
    ensures v.Some? ==> v.value < 16 && DIGITS[v.value] == c
    ensures v.None? ==> c !in DIGITS
  {
    if '0' <= c <= '9' then Some((c as int) - ('0' as int))
    else if 'a' <= c <= 'f' then Some((c as int) - ('a' as int) + 10)
    else None
  }

  lemma DigitValueOfDigit(d: nat)
    requires d < 16
    ensures DigitValue(DIGITS[d]) == Some(d)
  {
  }

  /** All but the last digit of n, the last digit, and the number they make up again; split by
      base so that every product has a constant factor. */
  function High(n: nat, base: nat): nat
    requires base == 10 || base == 16
  {
    if base == 10 then n / 10 else n / 16
  }

  function Low(n: nat, base: nat): (d: nat)
    requires base == 10 || base == 16
    ensures d < base
  {
    if base == 10 then n % 10 else n % 16
  }

  function Number(high: nat, low: nat, base: nat): nat
    requires base == 10 || base == 16
  {
    if base == 10 then high * 10 + low else high * 16 + low
  }

  lemma HighLow(n: nat, base: nat)
    requires base == 10 || base == 16
    ensures Number(High(n, base), Low(n, base), base) == n
    ensures n >= base ==> 0 < High(n, base) < n
  {
  }

  lemma NumberParts(high: nat, d: nat, base: nat)
    requires base == 10 || base == 16
    requires d < base
    ensures High(Number(high, d, base), base) == high
    ensures Low(Number(high, d, base), base) == d
    ensures high > 0 ==> Number(high, d, base) >= base
  {
  }

  function Print(n: nat, base: nat): (s: string)
    requires base == 10 || base == 16
    decreases n
    ensures s != []
  {
    if n < base then [DIGITS[n]] else Print(High(n, base), base) + [DIGITS[Low(n, base)]]
  }

  /** int(s, base) for text made of digits only; anything else has no value. */
  function Read(s: string, base: nat): (r: Option<nat>)
    requires base == 10 || base == 16
  {
    if s == [] then None
    else
      var n := |s| - 1;
      var d := DigitValue(s[n]);
      if d.None? || d.value >= base then None
      else if n == 0 then d
      else
        var high := Read(s[..n], base);
        if high.None? then None else Some(Number(high.value, d.value, base))
  }

  lemma {:induction false} ReadPrint(n: nat, base: nat)
    requires base == 10 || base == 16
    ensures Read(Print(n, base), base) == Some(n)
    decreases n
  {
    DigitValueOfDigit(Low(n, base));
    if n >= base {
      HighLow(n, base);
      var high, low := High(n, base), Low(n, base);
      ReadPrint(high, base);
      var s := Print(high, base) + [DIGITS[low]];
      assert s[..|s| - 1] == Print(high, base);
      assert Read(s, base) == Some(Number(high, low, base));
    }
  }

  /** Text that has a value and no superfluous leading zero is the printed form of that value. */
  lemma {:induction false} PrintRead(s: string, base: nat)
    requires base == 10 || base == 16
    requires Read(s, base).Some?
    requires s[0] != '0' || |s| == 1
    ensures Print(Read(s, base).value, base) == s
    ensures s[0] != '0' ==> Read(s, base).value > 0
  {
    hide High;
    hide Low;
    hide Number;
    var n := |s| - 1;
    var d := DigitValue(s[n]).value;
    if n > 0 {
      PrintRead(s[..n], base);
      var high := Read(s[..n], base).value;
      NumberParts(high, d, base);
      Snoc(s);
    } else {
      assert s == [s[0]];
    }
  }

  lemma PrintInjective(m: nat, n: nat, base: nat)
    requires base == 10 || base == 16
    requires Print(m, base) == Print(n, base)
    ensures m == n
  {
    ReadPrint(m, base);
    ReadPrint(n, base);
  }

  /** Only digits of the base appear, and a leading zero only in "0". */
  lemma {:induction false} PrintShape(n: nat, base: nat)
    requires base == 10 || base == 16
    ensures forall c :: c in Print(n, base) ==> c in DIGITS[..base]
    ensures n > 0 ==> Print(n, base)[0] != '0'
    decreases n
  {
    if n < base {
      assert DIGITS[n] == DIGITS[..base][n];
    } else {
      PrintShape(High(n, base), base);
      assert DIGITS[Low(n, base)] == DIGITS[..base][Low(n, base)];
    }
  }

  function Decimal(n: nat): string { Print(n, 10) }

  lemma DecimalDigits(n: nat)
    ensures forall c :: c in Decimal(n) ==> '0' <= c <= '9'
  {
    PrintShape(n, 10);
    forall c | c in Decimal(n)
      ensures '0' <= c <= '9'
    {
      assert c in DIGITS[..10];
    }
  }

  lemma DecimalLength(n: nat)
    ensures n < 10 ==> |Decimal(n)| == 1
    ensures 10 <= n < 100 ==> |Decimal(n)| == 2
    ensures 100 <= n < 1000 ==> |Decimal(n)| == 3
  {
    if 10 <= n < 1000 {
      assert |Decimal(n)| == |Decimal(n / 10)| + 1;
    }
    if 100 <= n < 1000 {
      assert |Decimal(n / 10)| == |Decimal(n / 10 / 10)| + 1;
    }
  }

  // ---- quotients

  lemma Quotient(x: nat, n: nat, q: nat, r: nat)
    requires x == q * n + r && r < n
    ensures x / n == q && x % n == r
  {
    var q', r' := x / n, x % n;
    if q > q' {
      Times(q' + 1, q, n);
    } else if q < q' {
      Times(q + 1, q', n);
    }
  }

  lemma Times(a: nat, b: nat, n: nat)
    requires a <= b
    ensures a * n <= b * n
    ensures (a + 1) * n == a * n + n
  {
    assert b * n == a * n + (b - a) * n;
  }
}
