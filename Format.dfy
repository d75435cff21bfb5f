/** `"{:,.0f}".format(total)` for an integer total: decimal digits with a
    comma between every group of three, counted from the right, and a
    leading minus sign for a negative total. */
module Format {

  predicate IsDigit(c: char) { '0' <= c <= '9' }

  predicate AllDigits(s: string) { forall i :: 0 <= i < |s| ==> IsDigit(s[i]) }

  function DigitChar(d: nat): (c: char)
    requires d < 10
    ensures IsDigit(c) && c as int - '0' as int == d
  {
    (d + '0' as int) as char
  }

  /** Decimal digits of `n`, without leading zeros ("0" for zero). */
  function Decimal(n: nat): (s: string)
    ensures |s| >= 1 && AllDigits(s)
  {
    if n < 10 then [DigitChar(n)] else Decimal(n / 10) + [DigitChar(n % 10)]
  }

  /** Inserts a comma before each group of three digits counted from the right. */
  function Group(ds: string): string
    decreases |ds|
  {
    if |ds| <= 3 then ds else Group(ds[..|ds| - 3]) + "," + ds[|ds| - 3..]
  }

  function FormatThousands(n: int): string
  {
    if n < 0 then "-" + Group(Decimal(-n)) else Group(Decimal(n))
  }

  /** Removes every comma. */
  function StripCommas(s: string): (r: string)
    ensures ',' !in r
  {
    if s == [] then []
    else (if s[0] == ',' then [] else [s[0]]) + StripCommas(s[1..])
  }

  /** Reads a string of digits as a number. */
  function ParseDecimal(s: string): nat
    requires AllDigits(s)
  {
    if s == [] then 0
    else 10 * ParseDecimal(s[..|s| - 1]) + (s[|s| - 1] as int - '0' as int)
  }

  /** Digits, optionally after a minus sign. */
  predicate SignedDigits(s: string)
  {
    s == [] || (s[0] == '-' && AllDigits(s[1..])) || AllDigits(s)
  }

  /** Reads an optionally signed string of digits as a number. */
  function ParseSigned(s: string): int
    requires SignedDigits(s)
  {
    if s != [] && s[0] == '-' && AllDigits(s[1..]) then -(ParseDecimal(s[1..]) as int) else ParseDecimal(s)
  }

  lemma {:induction false} DecimalRoundTrip(n: nat)
    ensures ParseDecimal(Decimal(n)) == n
  {
    if n >= 10 {
      DecimalRoundTrip(n / 10);
      var s := Decimal(n);
      assert s[..|s| - 1] == Decimal(n / 10);
    }
  }

  lemma {:induction false} StripCommasAppend(a: string, b: string)
    ensures StripCommas(a + b) == StripCommas(a) + StripCommas(b)
  {
    if a != [] {
      var head := if a[0] == ',' then [] else [a[0]];
      assert (a + b)[0] == a[0];
      assert (a + b)[1..] == a[1..] + b;
      StripCommasAppend(a[1..], b);
      assert StripCommas(a + b) == head + StripCommas(a[1..] + b);
      assert StripCommas(a) == head + StripCommas(a[1..]);
    } else {
      assert a + b == b;
    }
  }

  lemma {:induction false} StripCommasNone(s: string)
    requires ',' !in s
    ensures StripCommas(s) == s
  {
    if s != [] {
      StripCommasNone(s[1..]);
    }
  }

  /** Removing the separators from a grouped digit string gives the digits. */
  lemma {:induction false} GroupStrip(ds: string)
    requires AllDigits(ds)
    ensures StripCommas(Group(ds)) == ds
  {
    if |ds| <= 3 {
      StripCommasNone(ds);
    } else {
      var p, q := ds[..|ds| - 3], ds[|ds| - 3..];
      GroupStrip(p);
      StripCommasAppend(Group(p) + ",", q);
      StripCommasAppend(Group(p), ",");
      StripCommasNone(q);
      assert ds == p + q;
    }
  }

  /** A comma stands exactly at the positions that are a multiple of four
      from the end, and every other character is a digit. */
  predicate CommasEveryFourth(g: string)
  {
    forall i :: 0 <= i < |g| ==> (g[i] == ',' <==> (|g| - i) % 4 == 0) && (g[i] != ',' ==> IsDigit(g[i]))
  }

  /** Thousands groups: the text opens with a digit and has its commas every
      fourth place from the end, so the leading group has one to three digits
      and every later group exactly three. */
  predicate ThousandsShaped(g: string)
  {
    |g| > 0 && IsDigit(g[0]) && CommasEveryFourth(g)
  }

  lemma {:induction false} GroupCommas(ds: string)
    requires |ds| >= 1 && AllDigits(ds)
    ensures CommasEveryFourth(Group(ds))
  {
    if |ds| > 3 {
      var p, q := ds[..|ds| - 3], ds[|ds| - 3..];
      GroupCommas(p);
      var gp := Group(p);
      var g := Group(ds);
      assert g == gp + "," + q;
      forall i | 0 <= i < |g|
        ensures (g[i] == ',' <==> (|g| - i) % 4 == 0) && (g[i] != ',' ==> IsDigit(g[i]))
      {
        if i < |gp| {
          assert g[i] == gp[i];
          assert (|g| - i) % 4 == (|gp| - i) % 4;
        } else if i > |gp| {
          assert g[i] == q[i - |gp| - 1];
        }
      }
    }
  }

  /** Grouped digits open with a digit, never with a comma. */
  lemma {:induction false} GroupStartsWithDigit(ds: string)
    requires |ds| >= 1 && AllDigits(ds)
    ensures |Group(ds)| > 0 && IsDigit(Group(ds)[0])
  {
    if |ds| > 3 {
      var p := ds[..|ds| - 3];
      GroupStartsWithDigit(p);
      assert Group(ds)[0] == Group(p)[0];
    }
  }

  /** Grouped digits are well-formed thousands groups. */
  lemma GroupShape(ds: string)
    requires |ds| >= 1 && AllDigits(ds)
    ensures ThousandsShaped(Group(ds))
  {
    GroupCommas(ds);
    GroupStartsWithDigit(ds);
  }

  /** The displayed total is the sign, if any, followed by well-formed
      thousands groups. */
  lemma FormatShape(n: int)
    ensures var s := FormatThousands(n);
      if n < 0 then s[0] == '-' && ThousandsShaped(s[1..]) else ThousandsShaped(s)
  {
    var m: nat := if n < 0 then -n else n;
    GroupShape(Decimal(m));
    if n < 0 {
      assert FormatThousands(n)[1..] == Group(Decimal(m));
    }
  }

  /** Without its commas the displayed total is the sign, if any, and the
      decimal digits of its magnitude. */
  lemma FormatDigits(n: int)
    ensures StripCommas(FormatThousands(n)) ==
      if n < 0 then "-" + Decimal(-n) else Decimal(n)
  {
    var m: nat := if n < 0 then -n else n;
    GroupStrip(Decimal(m));
    if n < 0 {
      StripCommasAppend("-", Group(Decimal(m)));
      assert StripCommas("-") == "-";
    }
  }

  /** Removing the commas from the displayed total and reading the digits back
      gives the total. */
  lemma FormatRoundTrip(n: int)
    ensures SignedDigits(StripCommas(FormatThousands(n)))
    ensures ParseSigned(StripCommas(FormatThousands(n))) == n
  {
    var m: nat := if n < 0 then -n else n;
    FormatDigits(n);
    DecimalRoundTrip(m);
    if n < 0 {
      var s := StripCommas(FormatThousands(n));
      assert s[1..] == Decimal(m);
    }
  }

  /** A zero total, as shown for an asset whose GAP values cancel or are all 0. */
  lemma FormatZero()
    ensures FormatThousands(0) == "0"
  {
  }
}
