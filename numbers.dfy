/** Decimal rendering of integers as Python's `str(n)`, `'{:,}'.format(n)` and
    `'{:,.2f} ISK'.format(x)` produce it, together with the parsers that read
    those renderings back. */
module Numbers {
  import opened Wrappers

  predicate IsDigit(c: char) { '0' <= c <= '9' }

  predicate AllDigits(s: string) { forall i :: 0 <= i < |s| ==> IsDigit(s[i]) }

  function DigitValue(c: char): nat
    requires IsDigit(c)
  {
    (c as int) - ('0' as int)
  }

  function DigitChar(d: nat): (c: char)
    requires d < 10
    ensures IsDigit(c) && DigitValue(c) == d
  {
    (('0' as int) + d) as char
  }

  /** `str(n)` for a natural number: its decimal digits, most significant first,
      with no leading zero. */
  function Decimal(n: nat): (s: string)
    ensures |s| > 0 && AllDigits(s)
    ensures s[0] == '0' ==> n == 0 && s == "0"
    decreases n
  {
    if n < 10 then [DigitChar(n)] else Decimal(n / 10) + [DigitChar(n % 10)]
  }

  /** `str(n)` for any integer. */
  function IntToString(n: int): string
  {
    if n < 0 then "-" + Decimal(-n) else Decimal(n)
  }

  /** Reads a non-empty string of decimal digits. */
  function ParseDecimal(s: string): (r: Option<nat>)
    ensures r.Some? <==> |s| > 0 && AllDigits(s)
    decreases |s|
  {
    if |s| == 0 || !IsDigit(s[|s| - 1]) then None
    else if |s| == 1 then Some(DigitValue(s[0]))
    else match ParseDecimal(s[..|s| - 1])
      case None => None
      case Some(p) => Some(p * 10 + DigitValue(s[|s| - 1]))
  }

  /** Reads an optionally negative decimal integer. */
  function ParseInt(s: string): Option<int>
  {
    if |s| > 0 && s[0] == '-' then
      match ParseDecimal(s[1..])
      case None => None
      case Some(m) => Some(-(m as int))
    else
      match ParseDecimal(s)
      case None => None
      case Some(m) => Some(m)
  }

  lemma {:induction false} ParseDecimalOfDecimal(n: nat)
    ensures ParseDecimal(Decimal(n)) == Some(n)
    decreases n
  {
    if n >= 10 {
      ParseDecimalOfDecimal(n / 10);
      var s := Decimal(n);
      assert s[..|s| - 1] == Decimal(n / 10);
    }
  }

  lemma IntToStringRoundTrip(n: int)
    ensures ParseInt(IntToString(n)) == Some(n)
  {
    if n < 0 {
      ParseDecimalOfDecimal(-n);
      assert IntToString(n)[1..] == Decimal(-n);
    } else {
      ParseDecimalOfDecimal(n);
    }
  }

  /** The characters of `s` that are not commas, in order. */
  function RemoveCommas(s: string): (r: string)
    ensures |r| <= |s|
    decreases |s|
  {
    if s == [] then []
    else RemoveCommas(s[..|s| - 1]) + (if s[|s| - 1] == ',' then [] else [s[|s| - 1]])
  }

  lemma {:induction false} RemoveCommasAppend(a: string, b: string)
    ensures RemoveCommas(a + b) == RemoveCommas(a) + RemoveCommas(b)
    decreases |b|
  {
    if b == [] {
      assert a + b == a;
    } else {
      var ab := a + b;
      assert ab[..|ab| - 1] == a + b[..|b| - 1];
      RemoveCommasAppend(a, b[..|b| - 1]);
    }
  }

  lemma {:induction false} RemoveCommasOfDigits(ds: string)
    requires AllDigits(ds)
    ensures RemoveCommas(ds) == ds
    decreases |ds|
  {
    if ds != [] {
      RemoveCommasOfDigits(ds[..|ds| - 1]);
      assert ds[..|ds| - 1] + [ds[|ds| - 1]] == ds;
    }
  }

  /** Inserts a comma before every third digit counted from the right, as the
      `,` option of Python's format specification does. */
  function GroupThousands(ds: string): (r: string)
    ensures |r| == |ds| + (if |ds| == 0 then 0 else (|ds| - 1) / 3)
    decreases |ds|
  {
    if |ds| <= 3 then ds
    else GroupThousands(ds[..|ds| - 3]) + "," + ds[|ds| - 3..]
  }

  /** A grouped digit string: a leading group of one to three digits, then
      groups of exactly three digits, each after a comma. */
  predicate WellGrouped(s: string)
    decreases |s|
  {
    if |s| <= 3 then 0 < |s| && AllDigits(s)
    else s[|s| - 4] == ',' && AllDigits(s[|s| - 3..]) && WellGrouped(s[..|s| - 4])
  }

  /** One grouping step: the last three digits follow a comma. */
  lemma GroupStep(ds: string)
    requires |ds| > 3
    ensures GroupThousands(ds) == GroupThousands(ds[..|ds| - 3]) + "," + ds[|ds| - 3..]
  {
  }

  /** Grouping a digit string gives a leading group of one to three digits and
      groups of exactly three after it. */
  lemma {:induction false} GroupThousandsWellGrouped(ds: string)
    requires |ds| > 0 && AllDigits(ds)
    ensures WellGrouped(GroupThousands(ds))
    decreases |ds|
  {
    if |ds| > 3 {
      var pre, post := ds[..|ds| - 3], ds[|ds| - 3..];
      GroupThousandsWellGrouped(pre);
      var gp := GroupThousands(pre);
      var g := gp + "," + post;
      GroupStep(ds);
      assert g[|g| - 4] == ',';
      assert g[..|g| - 4] == gp;
      assert g[|g| - 3..] == post;
    }
  }

  lemma RemoveCommasOfComma()
    ensures RemoveCommas(",") == []
  {
    assert ","[..0] == [];
  }

  /** Deleting the commas of `a + "," + b` deletes the one in the middle. */
  lemma RemoveCommasAround(a: string, b: string)
    ensures RemoveCommas(a + "," + b) == RemoveCommas(a) + RemoveCommas(b)
  {
    RemoveCommasAppend(a + ",", b);
    RemoveCommasAppend(a, ",");
    RemoveCommasOfComma();
  }

  /** Deleting the commas from a grouped digit string gives the digits back. */
  lemma {:induction false} GroupThousandsRemoveCommas(ds: string)
    requires AllDigits(ds)
    ensures RemoveCommas(GroupThousands(ds)) == ds
    decreases |ds|
  {
    if |ds| <= 3 {
      RemoveCommasOfDigits(ds);
    } else {
      var pre, post := ds[..|ds| - 3], ds[|ds| - 3..];
      assert AllDigits(pre) && AllDigits(post);
      GroupThousandsRemoveCommas(pre);
      RemoveCommasOfDigits(post);
      GroupStep(ds);
      RemoveCommasAround(GroupThousands(pre), post);
      assert pre + post == ds;
    }
  }

  /** `'{:,}'.format(n)`: the sign, then the digits of `|n|` grouped in thousands. */
  function FormatThousands(n: int): string
  {
    (if n < 0 then "-" else "") + GroupThousands(Decimal(if n < 0 then -n else n))
  }

  /** An optional minus sign followed by a well-grouped digit string. */
  predicate SignedWellGrouped(s: string)
  {
    if |s| > 0 && s[0] == '-' then WellGrouped(s[1..]) else WellGrouped(s)
  }

  lemma RemoveCommasOfMinus()
    ensures RemoveCommas("-") == "-"
  {
    assert "-"[..0] == [];
  }

  /** Putting a minus sign in front of a grouped number keeps it readable. */
  lemma SignedGrouped(negative: bool, g: string)
    requires WellGrouped(g) && g[0] != '-'
    ensures var s := (if negative then "-" else "") + g;
      SignedWellGrouped(s) && RemoveCommas(s) == (if negative then "-" else "") + RemoveCommas(g)
  {
    if negative {
      var s := "-" + g;
      assert s[0] == '-' && s[1..] == g;
      RemoveCommasAppend("-", g);
      RemoveCommasOfMinus();
    } else {
      assert "" + g == g;
      assert "" + RemoveCommas(g) == RemoveCommas(g);
    }
  }

  /** Deleting the commas from `'{:,}'.format(n)` gives `str(n)`, every group
      after the first has three digits, and the number reads back. */
  lemma FormatThousandsSpec(n: int)
    ensures SignedWellGrouped(FormatThousands(n))
    ensures RemoveCommas(FormatThousands(n)) == IntToString(n)
    ensures ParseInt(RemoveCommas(FormatThousands(n))) == Some(n)
  {
    var m := if n < 0 then -n else n;
    var ds := Decimal(m);
    var g := GroupThousands(ds);
    GroupThousandsWellGrouped(ds);
    GroupThousandsRemoveCommas(ds);
    GroupFirst(ds);
    SignedGrouped(n < 0, g);
    assert IntToString(n) == (if n < 0 then "-" else "") + ds;
    IntToStringRoundTrip(n);
  }

  /** Grouping keeps the first digit in front. */
  lemma {:induction false} GroupFirst(ds: string)
    requires |ds| > 0
    ensures |GroupThousands(ds)| > 0 && GroupThousands(ds)[0] == ds[0]
    decreases |ds|
  {
    if |ds| > 3 {
      GroupFirst(ds[..|ds| - 3]);
    }
  }

  /** The two digits of a value below one hundred. */
  function TwoDigits(d: nat): string
    requires d < 100
  {
    [DigitChar(d / 10), DigitChar(d % 10)]
  }

  /** `'{:,.2f} ISK'.format(x)` for a value of `cents` hundredths: the sign, the
      whole part grouped in thousands, a point, exactly two decimals, " ISK". */
  function FormatIsk(cents: int): string
  {
    Amount(cents) + " ISK"
  }

  /** Reads a well-grouped digit string. */
  function ParseGrouped(s: string): Option<nat>
  {
    if WellGrouped(s) then ParseDecimal(RemoveCommas(s)) else None
  }

  lemma ParseGroupedOfGroup(n: nat)
    ensures ParseGrouped(GroupThousands(Decimal(n))) == Some(n)
    ensures GroupThousands(Decimal(n))[0] != '-'
  {
    GroupThousandsWellGrouped(Decimal(n));
    GroupThousandsRemoveCommas(Decimal(n));
    ParseDecimalOfDecimal(n);
    GroupFirst(Decimal(n));
  }

  /** Reads a rendering of the shape `FormatIsk` produces back into hundredths. */
  function ParseIsk(s: string): Option<int>
  {
    if |s| < 4 || s[|s| - 4..] != " ISK" then None else ParseAmount(s[..|s| - 4])
  }

  /** Reads `[-]grouped.dd` into hundredths. */
  function ParseAmount(body: string): Option<int>
  {
    if |body| < 3 || body[|body| - 3] != '.' || !IsDigit(body[|body| - 2]) || !IsDigit(body[|body| - 1]) then None
    else
      var whole := body[..|body| - 3];
      var negative := |whole| > 0 && whole[0] == '-';
      match ParseGrouped(if negative then whole[1..] else whole)
      case None => None
      case Some(units) =>
        var c := units * 100 + DigitValue(body[|body| - 2]) * 10 + DigitValue(body[|body| - 1]);
        Some(if negative then -c else c)
  }

  lemma TwoDigitsValue(frac: nat)
    requires frac < 100
    ensures var t := TwoDigits(frac);
      |t| == 2 && IsDigit(t[0]) && IsDigit(t[1]) && DigitValue(t[0]) * 10 + DigitValue(t[1]) == frac
  {
  }

  lemma ParseAmountSpec(negative: bool, g: string, whole: nat, frac: nat)
    requires |g| > 0 && g[0] != '-' && ParseGrouped(g) == Some(whole)
    requires frac < 100
    ensures var c := whole * 100 + frac;
      ParseAmount((if negative then "-" else "") + g + "." + TwoDigits(frac))
        == Some(if negative then -c else c)
  {
    var sign: string := if negative then "-" else "";
    var t := TwoDigits(frac);
    TwoDigitsValue(frac);
    var body := sign + g + "." + t;
    assert body[|body| - 3] == '.' && body[|body| - 2] == t[0] && body[|body| - 1] == t[1];
    var w := body[..|body| - 3];
    assert w == sign + g;
    var neg := |w| > 0 && w[0] == '-';
    assert neg == negative;
    var mag := if neg then w[1..] else w;
    assert mag == g;
  }

  lemma ParseIskOfSuffixed(body: string)
    ensures var s := body + " ISK"; s[|s| - 4..] == " ISK" && ParseIsk(s) == ParseAmount(body)
  {
    var s := body + " ISK";
    assert s[|s| - 4..] == " ISK";
    assert s[..|s| - 4] == body;
  }

  /** The amount before " ISK" has a point and two decimals at its end. */
  function Amount(cents: int): (body: string)
    ensures |body| >= 3 && body[|body| - 3] == '.'
  {
    var m := if cents < 0 then -cents else cents;
    (if cents < 0 then "-" else "") + GroupThousands(Decimal(m / 100)) + "." + TwoDigits(m % 100)
  }

  /** The ISK rendering is a minus sign exactly for a negative value, then the
      whole ISK as grouped digits with no leading zero, then the two decimals. */
  lemma FormatIskShape(cents: int)
    ensures var s := FormatIsk(cents);
      var m := if cents < 0 then -cents else cents;
      var k := if cents < 0 then 1 else 0;
      && |s| >= k + 8
      && (s[0] == '-' <==> cents < 0)
      && WellGrouped(s[k..|s| - 7])
      && RemoveCommas(s[k..|s| - 7]) == Decimal(m / 100)
      && s[|s| - 6..|s| - 4] == TwoDigits(m % 100)
  {
    var m: nat := if cents < 0 then -cents else cents;
    var ds := Decimal(m / 100);
    var g := GroupThousands(ds);
    GroupThousandsWellGrouped(ds);
    GroupThousandsRemoveCommas(ds);
    GroupFirst(ds);
    FormatIskParts(cents);
    RenderingParts(cents < 0, g, TwoDigits(m % 100));
  }

  lemma FormatIskParts(cents: int)
    ensures var m := if cents < 0 then -cents else cents;
      FormatIsk(cents)
        == (if cents < 0 then "-" else "") + GroupThousands(Decimal(m / 100)) + "." + TwoDigits(m % 100) + " ISK"
  {
  }

  /** Where the parts of `[-]whole.dd ISK` sit. */
  lemma RenderingParts(negative: bool, g: string, t: string)
    requires |g| > 0 && g[0] != '-' && |t| == 2
    ensures var s := (if negative then "-" else "") + g + "." + t + " ISK";
      var k := if negative then 1 else 0;
      && |s| >= k + 8
      && (s[0] == '-' <==> negative)
      && s[k..|s| - 7] == g
      && s[|s| - 6..|s| - 4] == t
  {
  }

  /** The ISK rendering ends in " ISK" after exactly two decimals, its whole
      part is the grouped decimal rendering of the whole ISK, and it reads back
      to the value it renders. */
  lemma FormatIskSpec(cents: int)
    ensures |FormatIsk(cents)| >= 7
    ensures FormatIsk(cents)[|FormatIsk(cents)| - 4..] == " ISK"
    ensures FormatIsk(cents)[|FormatIsk(cents)| - 7] == '.'
    ensures var s := FormatIsk(cents);
      var m := if cents < 0 then -cents else cents;
      var k := if cents < 0 then 1 else 0;
      && |s| >= k + 8
      && (s[0] == '-' <==> cents < 0)
      && WellGrouped(s[k..|s| - 7])
      && RemoveCommas(s[k..|s| - 7]) == Decimal(m / 100)
      && s[|s| - 6..|s| - 4] == TwoDigits(m % 100)
    ensures ParseIsk(FormatIsk(cents)) == Some(cents)
  {
    var m: nat := if cents < 0 then -cents else cents;
    var whole, frac := m / 100, m % 100;
    var g := GroupThousands(Decimal(whole));
    var body := Amount(cents);
    assert body == (if cents < 0 then "-" else "") + g + "." + TwoDigits(frac);
    assert FormatIsk(cents) == body + " ISK";
    ParseIskOfSuffixed(body);
    ParseGroupedOfGroup(whole);
    ParseAmountSpec(cents < 0, g, whole, frac);
    assert whole * 100 + frac == m;
    assert ParseAmount(body) == Some(cents);
    FormatIskShape(cents);
  }

  lemma GroupedExample()
    ensures GroupThousands(Decimal(1234567)) == "1,234,567"
  {
    assert Decimal(1234567) == "1234567" by {
      assert Decimal(1) == "1";
      assert Decimal(12) == "12";
      assert Decimal(123) == "123";
      assert Decimal(1234) == "1234";
      assert Decimal(12345) == "12345";
      assert Decimal(123456) == "123456";
    }
    assert GroupThousands("1234") == "1,234";
    assert "1234567"[..4] == "1234" && "1234567"[4..] == "567";
  }

  /** `'{:,}'.format(1234567)` is "1,234,567". */
  lemma FormatThousandsExample()
    ensures FormatThousands(1234567) == "1,234,567"
  {
    GroupedExample();
  }

  /** `'{:,.2f} ISK'.format(1234567.5)` is "1,234,567.50 ISK". */
  lemma FormatIskExample()
    ensures FormatIsk(123456750) == "1,234,567.50 ISK"
  {
    var g := GroupThousands(Decimal(1234567));
    var t := TwoDigits(50);
    assert FormatIsk(123456750) == "" + g + "." + t + " ISK" by {
      FormatIskParts(123456750);
      assert 123456750 / 100 == 1234567 && 123456750 % 100 == 50;
    }
    GroupedExample();
    assert t == "50";
    assert "" + "1,234,567" + "." + "50" + " ISK" == "1,234,567.50 ISK";
  }
}
