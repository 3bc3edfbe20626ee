/** Reading amounts out of price text. Two readers exist in the scraper and
    they disagree on purpose-free details: `_parse_price` keeps every digit,
    period and comma and hands the rest to `float()`, while the aggregator of
    `cerca_prodotto` takes the first `\d+\.?\d*` it can find. Amounts are
    exact decimals (`real`), not binary floating point. */
module PriceText {
  import opened Wrappers
  import opened Text

  predicate IsPriceChar(c: char) { IsDigit(c) || c == '.' || c == ',' }

  /** `re.sub(r'[^\d.,]', '', text)` */
  function KeepPriceChars(s: string): (r: string)
    ensures forall k :: 0 <= k < |r| ==> IsPriceChar(r[k])
  {
    if s == [] then [] else (if IsPriceChar(s[0]) then [s[0]] else []) + KeepPriceChars(s[1..])
  }

  lemma {:induction false} KeepPriceCharsConcat(a: string, b: string)
    ensures KeepPriceChars(a + b) == KeepPriceChars(a) + KeepPriceChars(b)
  {
    if a != [] {
      assert (a + b)[0] == a[0];
      assert (a + b)[1..] == a[1..] + b;
      KeepPriceCharsConcat(a[1..], b);
      var h := if IsPriceChar(a[0]) then [a[0]] else [];
      assert KeepPriceChars(a + b) == h + (KeepPriceChars(a[1..]) + KeepPriceChars(b));
    } else {
      assert a + b == b;
    }
  }

  lemma {:induction false} KeepPriceCharsOfPriceChars(s: string)
    requires forall k :: 0 <= k < |s| ==> IsPriceChar(s[k])
    ensures KeepPriceChars(s) == s
  {
    if s != [] {
      KeepPriceCharsOfPriceChars(s[1..]);
    }
  }

  /** The text `_parse_price` passes to `float()`: price characters only, commas turned into periods. */
  function CleanPrice(s: string): string {
    ReplaceChar(KeepPriceChars(s), ',', '.')
  }

  /** What Python's `float()` accepts among strings of digits and periods:
      at most one period and at least one digit. */
  predicate IsFloatNumeral(t: string) {
    (forall k :: 0 <= k < |t| ==> IsDigit(t[k]) || t[k] == '.')
    && CountChar(t, '.') <= 1
    && (exists k :: 0 <= k < |t| && IsDigit(t[k]))
  }

  /** `float(t)` for a string of digits and periods; `None` stands for the `ValueError`. */
  function FloatOfNumeral(t: string): (r: Option<real>)
    requires forall k :: 0 <= k < |t| ==> IsDigit(t[k]) || t[k] == '.'
    ensures r.Some? <==> IsFloatNumeral(t)
    ensures r.Some? ==> r.value >= 0.0
  {
    if '.' !in t then
      CountCharAbsent(t, '.');
      if t == [] then None
      else
        assert IsDigit(t[0]);
        Some(DecimalValue(t) as real)
    else
      var i := IndexOf(t, '.');
      var ip, fp := t[..i], t[i + 1..];
      CountCharSplit(t, '.', i);
      if '.' in fp then
        CountCharPresent(fp, '.');
        None
      else
        CountCharAbsent(fp, '.');
        if ip == [] && fp == [] then
          assert forall k :: 0 <= k < |t| ==> t[k] == '.';
          None
        else
          assert ip != [] ==> IsDigit(t[0]);
          assert fp != [] ==> IsDigit(t[i + 1]);
          Some(DecimalFraction(ip, fp))
  }

  /** `_parse_price`: the amount, or `None` (never an exception) when what is
      left after cleaning is not a single decimal numeral. */
  function ParsePrice(text: string): (r: Option<real>)
    ensures r.Some? <==> IsFloatNumeral(CleanPrice(text))
    ensures r.Some? ==> r.value >= 0.0
  {
    FloatOfNumeral(CleanPrice(text))
  }

  /** Two-digit cents as they are written after the decimal separator. */
  function TwoDigits(c: nat): (ds: string)
    requires c < 100
    ensures |ds| == 2 && AllDigits(ds) && DecimalValue(ds) == c
  {
    var ds := [DigitChar(c / 10), DigitChar(c % 10)];
    assert ds[..1] == [DigitChar(c / 10)];
    assert ds[..1][..0] == [];
    assert DecimalValue(ds[..1]) == c / 10;
    ds
  }

  lemma {:induction false} FloatOfDecimalPoint(d: string, t: string)
    requires d != [] && AllDigits(d) && AllDigits(t)
    ensures FloatOfNumeral(d + "." + t) == Some(DecimalFraction(d, t))
  {
    var s := d + "." + t;
    var i := IndexOf(s, '.');
    assert s[|d|] == '.';
    assert forall k :: 0 <= k < |d| ==> s[k] == d[k] && s[k] != '.';
    assert i == |d|;
    assert s[..i] == d;
    assert s[i + 1..] == t;
    assert '.' !in t by {
      forall k | 0 <= k < |t| ensures t[k] != '.' { assert IsDigit(t[k]); }
    }
  }

  /** A price written the Italian way, "12,50 €", reads back as units plus cents. */
  lemma {:induction false} ParsePriceItalian(units: nat, cents: nat)
    requires cents < 100
    ensures ParsePrice(NatToDecimal(units) + "," + TwoDigits(cents) + " €")
            == Some(units as real + cents as real / 100.0)
  {
    var d, t := NatToDecimal(units), TwoDigits(cents);
    CleanItalian(d, t);
    FloatOfDecimalPoint(d, t);
    ItalianValue(units, cents);
  }

  lemma {:induction false} ItalianValue(units: nat, cents: nat)
    requires cents < 100
    ensures DecimalFraction(NatToDecimal(units), TwoDigits(cents)) == units as real + cents as real / 100.0
  {
    var t := TwoDigits(cents);
    assert |t| == 2;
    assert Pow10(2) == 100 by {
      assert Pow10(0) == 1;
      assert Pow10(1) == 10;
    }
  }

  lemma {:induction false} CleanItalian(d: string, t: string)
    requires AllDigits(d) && AllDigits(t)
    ensures CleanPrice(d + "," + t + " €") == d + "." + t
  {
    KeepItalian(d, t);
    ReplaceItalian(d, t);
  }

  lemma {:induction false} ReplaceItalian(d: string, t: string)
    requires AllDigits(d) && AllDigits(t)
    ensures ReplaceChar(d + "," + t, ',', '.') == d + "." + t
  {
    var comma := d + ",";
    ReplaceCharConcat(comma, t, ',', '.');
    ReplaceCharConcat(d, ",", ',', '.');
    assert ',' !in d by {
      forall k | 0 <= k < |d| ensures d[k] != ',' { assert IsDigit(d[k]); }
    }
    assert ',' !in t by {
      forall k | 0 <= k < |t| ensures t[k] != ',' { assert IsDigit(t[k]); }
    }
    ReplaceCharAbsent(d, ',', '.');
    ReplaceCharAbsent(t, ',', '.');
    assert ReplaceChar(",", ',', '.') == ".";
  }

  lemma {:induction false} KeepItalian(d: string, t: string)
    requires AllDigits(d) && AllDigits(t)
    ensures KeepPriceChars(d + "," + t + " €") == d + "," + t
  {
    var a := d + ",";
    var b := a + t;
    KeepPriceCharsConcat(b, " €");
    KeepPriceCharsConcat(a, t);
    KeepPriceCharsConcat(d, ",");
    KeepPriceCharsOfPriceChars(d);
    KeepPriceCharsOfPriceChars(t);
    KeepPriceCharsOfPriceChars(",");
    KeepPriceCharsNone(" €");
    assert KeepPriceChars(a) == a;
    assert KeepPriceChars(b) == b;
    assert b + [] == b;
  }

  lemma {:induction false} KeepPriceCharsNone(s: string)
    requires forall k :: 0 <= k < |s| ==> !IsPriceChar(s[k])
    ensures KeepPriceChars(s) == []
  {
    if s != [] {
      KeepPriceCharsNone(s[1..]);
    }
  }

  lemma {:induction false} ParsePriceExampleComma()
    ensures ParsePrice("12,50 €") == Some(12.5)
  {
    assert NatToDecimal(12) == "12";
    assert TwoDigits(50) == "50";
    assert "12,50 €" == NatToDecimal(12) + "," + TwoDigits(50) + " €";
    ParsePriceItalian(12, 50);
  }

  /** A thousands separator is not understood: two periods remain after cleaning. */
  lemma {:induction false} ParsePriceThousands(a: string, b: string, c: string)
    requires AllDigits(a) && AllDigits(b) && AllDigits(c)
    ensures ParsePrice(a + "." + b + "," + c + " €") == None
  {
    ThousandsKept(a, b, c);
    ThousandsReplaced(a, b, c);
    var y := a + "." + b + "." + c;
    assert y == (a + ".") + (b + ".") + c;
    CountCharConcat((a + ".") + (b + "."), c, '.');
    CountCharConcat(a + ".", b + ".", '.');
    CountCharPresent(a + ".", '.');
    CountCharPresent(b + ".", '.');
  }

  lemma {:induction false} ParsePriceExampleThousands()
    ensures ParsePrice("1.234,50 €") == None
  {
    assert "1.234,50 €" == "1" + "." + "234" + "," + "50" + " €";
    ParsePriceThousands("1", "234", "50");
  }

  lemma {:induction false} ThousandsKept(a: string, b: string, c: string)
    requires AllDigits(a) && AllDigits(b) && AllDigits(c)
    ensures KeepPriceChars(a + "." + b + "," + c + " €") == a + "." + b + "," + c
  {
    var x := a + "." + b + "," + c;
    assert forall k :: 0 <= k < |x| ==> IsPriceChar(x[k]) by {
      assert forall k :: 0 <= k < |a| ==> x[k] == a[k];
      assert forall k :: 0 <= k < |b| ==> x[|a| + 1 + k] == b[k];
      assert forall k :: 0 <= k < |c| ==> x[|a| + |b| + 2 + k] == c[k];
    }
    KeepPriceCharsOfPriceChars(x);
    KeepPriceCharsConcat(x, " €");
    assert KeepPriceChars(" €") == [] by {
      assert " €"[1..] == "€";
      assert "€"[1..] == [];
    }
  }

  lemma {:induction false} ThousandsReplaced(a: string, b: string, c: string)
    requires AllDigits(a) && AllDigits(b) && AllDigits(c)
    ensures ReplaceChar(a + "." + b + "," + c, ',', '.') == a + "." + b + "." + c
  {
    DigitsHaveNoComma(a);
    DigitsHaveNoComma(b);
    DigitsHaveNoComma(c);
    ReplaceCharConcat(a + "." + b + ",", c, ',', '.');
    ReplaceCharConcat(a + "." + b, ",", ',', '.');
    ReplaceCharConcat(a + ".", b, ',', '.');
    ReplaceCharConcat(a, ".", ',', '.');
  }

  lemma {:induction false} DigitsHaveNoComma(s: string)
    requires AllDigits(s)
    ensures ReplaceChar(s, ',', '.') == s
  {
    assert ',' !in s by {
      forall k | 0 <= k < |s| ensures s[k] != ',' { assert IsDigit(s[k]); }
    }
    ReplaceCharAbsent(s, ',', '.');
  }

  /** Whether the decimal separator is written as a comma or a period makes no difference. */
  lemma {:induction false} ParsePriceSeparatorInsensitive(text: string)
    ensures ParsePrice(ReplaceChar(text, ',', '.')) == ParsePrice(text)
  {
    assert CleanPrice(ReplaceChar(text, ',', '.')) == CleanPrice(text) by {
      KeepReplaceComma(text);
    }
  }

  lemma {:induction false} KeepReplaceComma(s: string)
    ensures KeepPriceChars(ReplaceChar(s, ',', '.')) == ReplaceChar(KeepPriceChars(s), ',', '.')
  {
    if s != [] {
      var r := ReplaceChar(s, ',', '.');
      assert r[1..] == ReplaceChar(s[1..], ',', '.');
      KeepReplaceComma(s[1..]);
      var k := KeepPriceChars(s[1..]);
      assert ReplaceChar((if IsPriceChar(s[0]) then [s[0]] else []) + k, ',', '.')
          == ReplaceChar(if IsPriceChar(s[0]) then [s[0]] else [], ',', '.') + ReplaceChar(k, ',', '.');
    }
  }

  // ---------------------------------------------------------------------------
  // The aggregator's reading of a price string

  /** The number `re.search(r'\d+\.?\d*', s)` finds when it starts at `x`, as `float()` reads it. */
  function NumberAt(s: string, x: nat): (v: real)
    requires x < |s| && IsDigit(s[x])
    ensures v >= 0.0
  {
    var d := DigitRun(s, x);
    var p := x + d;
    var fp := if p < |s| && s[p] == '.' then s[p + 1..p + 1 + DigitRun(s, p + 1)] else [];
    DecimalFraction(s[x..p], fp)
  }

  /** Leftmost search for the pattern `\d+\.?\d*`, which matches wherever a digit stands. */
  function FirstNumberFrom(s: string, i: nat): (r: Option<real>)
    requires i <= |s|
    ensures r.None? <==> !HasDigit(s[i..])
    ensures r.Some? ==> r.value >= 0.0
    decreases |s| - i
  {
    if i == |s| then None
    else
      assert s[i..][0] == s[i] && s[i..][1..] == s[i + 1..];
      if IsDigit(s[i]) then Some(NumberAt(s, i))
      else FirstNumberFrom(s, i + 1)
  }

  /** The search reads the number that starts at the leftmost digit. */
  lemma {:induction false} FirstNumberIsLeftmost(s: string, i: nat) returns (k: nat)
    requires i <= |s| && HasDigit(s[i..])
    ensures i <= k < |s| && IsDigit(s[k]) && forall j :: i <= j < k ==> !IsDigit(s[j])
    ensures FirstNumberFrom(s, i) == Some(NumberAt(s, k))
    decreases |s| - i
  {
    assert s[i..][0] == s[i] && s[i..][1..] == s[i + 1..];
    if IsDigit(s[i]) {
      k := i;
    } else {
      k := FirstNumberIsLeftmost(s, i + 1);
    }
  }

  /** The amount the aggregator of `cerca_prodotto` reads from one price string:
      drop `€`, turn commas into periods, strip, then take the first number. */
  function AggregatorPrice(p: string): (r: Option<real>)
    ensures r.Some? ==> r.value >= 0.0
  {
    FirstNumberFrom(CleanAggregatorPrice(p), 0)
  }

  function CleanAggregatorPrice(p: string): string {
    Strip(Python, ReplaceChar(RemoveChar(p, '€'), ',', '.'))
  }

  /** The aggregator finds an amount exactly when the text holds a digit. */
  lemma {:induction false} AggregatorPriceDefined(p: string)
    ensures AggregatorPrice(p).Some? <==> HasDigit(p)
  {
    var a := RemoveChar(p, '€');
    var b := ReplaceChar(a, ',', '.');
    RemoveCharKeepsDigits(p, '€');
    ReplaceCommaKeepsDigits(a);
    StripKeepsDigits(b);
    var c := CleanAggregatorPrice(p);
    assert c[0..] == c;
  }

  lemma {:induction false} RemoveCharKeepsDigits(s: string, c: char)
    requires !IsDigit(c)
    ensures HasDigit(RemoveChar(s, c)) <==> HasDigit(s)
  {
    if s != [] {
      RemoveCharKeepsDigits(s[1..], c);
      var head := if s[0] == c then [] else [s[0]];
      HasDigitConcat(head, RemoveChar(s[1..], c));
      assert head != [] ==> head[1..] == [];
    }
  }

  lemma {:induction false} ReplaceCommaKeepsDigits(s: string)
    ensures HasDigit(ReplaceChar(s, ',', '.')) <==> HasDigit(s)
  {
    if s != [] {
      var r := ReplaceChar(s, ',', '.');
      assert r[1..] == ReplaceChar(s[1..], ',', '.');
      ReplaceCommaKeepsDigits(s[1..]);
    }
  }

  lemma {:induction false} StripKeepsDigits(s: string)
    ensures HasDigit(Strip(Python, s)) <==> HasDigit(s)
    decreases |s|
  {
    if s != [] && IsSpace(Python, s[0]) {
      StripKeepsDigits(s[1..]);
    } else if s != [] && IsSpace(Python, s[|s| - 1]) {
      var init := s[..|s| - 1];
      StripKeepsDigits(init);
      assert s == init + [s[|s| - 1]];
      HasDigitConcat(init, [s[|s| - 1]]);
    }
  }

  /** Cleaning a price that ends in " €" and holds no other euro sign or outer white space
      only turns its commas into periods. */
  lemma {:induction false} CleanAggregatorEuroSuffix(s: string)
    requires s != [] && '€' !in s
    requires !IsSpace(Python, s[0]) && !IsSpace(Python, s[|s| - 1])
    ensures CleanAggregatorPrice(s + " €") == ReplaceChar(s, ',', '.')
  {
    RemoveEuroSuffix(s);
    var r := ReplaceChar(s, ',', '.');
    assert ReplaceChar(s + " ", ',', '.') == r + " ";
    StripTrailingSpace(r);
  }

  lemma {:induction false} RemoveEuroSuffix(s: string)
    requires '€' !in s
    ensures RemoveChar(s + " €", '€') == s + " "
  {
    RemoveCharConcat(s + " ", "€", '€');
    assert '€' !in s + " ";
    RemoveCharNoOccurrence(s + " ", '€');
    assert s + " €" == (s + " ") + "€";
  }

  lemma {:induction false} StripTrailingSpace(r: string)
    requires r != [] && !IsSpace(Python, r[0]) && !IsSpace(Python, r[|r| - 1])
    ensures Strip(Python, r + " ") == r
  {
    assert TrimStart(Python, r + " ") == r + " " by {
      assert (r + " ")[0] == r[0];
    }
    assert (r + " ")[..|r + " "| - 1] == r;
  }

  /** `re.search` stops at the end of the digits after the first period. */
  lemma {:induction false} FirstNumberOfNumeral(d: string, t: string, rest: string)
    requires d != [] && AllDigits(d) && AllDigits(t)
    requires rest == [] || !IsDigit(rest[0])
    ensures FirstNumberFrom(d + "." + t + rest, 0) == Some(DecimalFraction(d, t))
  {
    var c := d + "." + t + rest;
    assert c[0] == d[0];
    NumberAtNumeral(d, t, rest);
  }

  lemma {:induction false} NumberAtNumeral(d: string, t: string, rest: string)
    requires d != [] && AllDigits(d) && AllDigits(t)
    requires rest == [] || !IsDigit(rest[0])
    ensures IsDigit((d + "." + t + rest)[0])
    ensures NumberAt(d + "." + t + rest, 0) == DecimalFraction(d, t)
  {
    var c := d + "." + t + rest;
    assert c[0] == d[0];
    assert forall k :: 0 <= k < |d| ==> c[k] == d[k];
    DigitRunExact(c, 0, |d|);
    assert forall k :: 0 <= k < |t| ==> c[|d| + 1 + k] == t[k];
    assert rest != [] ==> c[|d| + 1 + |t|] == rest[0];
    DigitRunExact(c, |d| + 1, |t|);
    assert c[0..|d|] == d;
    assert c[|d| + 1..|d| + 1 + |t|] == t;
  }

  /** The aggregator reads a price with a thousands separator, "a.b,c €", as the number a.b:
      the first number stops at the second period. */
  lemma {:induction false} AggregatorPriceThousands(a: string, b: string, c: string)
    requires a != [] && c != [] && AllDigits(a) && AllDigits(b) && AllDigits(c)
    ensures AggregatorPrice(a + "." + b + "," + c + " €") == Some(DecimalFraction(a, b))
  {
    ThousandsIsTrimmed(a, b, c);
    CleanAggregatorEuroSuffix(a + "." + b + "," + c);
    ThousandsReplaced(a, b, c);
    FirstNumberThousands(a, b, c);
  }

  lemma {:induction false} FirstNumberThousands(a: string, b: string, c: string)
    requires a != [] && AllDigits(a) && AllDigits(b)
    ensures FirstNumberFrom(a + "." + b + "." + c, 0) == Some(DecimalFraction(a, b))
  {
    assert a + "." + b + ("." + c) == a + "." + b + "." + c;
    FirstNumberOfNumeral(a, b, "." + c);
  }

  lemma {:induction false} ThousandsIsTrimmed(a: string, b: string, c: string)
    requires a != [] && c != [] && AllDigits(a) && AllDigits(b) && AllDigits(c)
    ensures var u := a + "." + b + "," + c; '€' !in u && !IsSpace(Python, u[0]) && !IsSpace(Python, u[|u| - 1])
  {
    var u := a + "." + b + "," + c;
    assert u[0] == a[0];
    assert u[|u| - 1] == c[|c| - 1];
    assert forall k :: 0 <= k < |a| ==> u[k] == a[k];
    assert forall k :: 0 <= k < |b| ==> u[|a| + 1 + k] == b[k];
    assert forall k :: 0 <= k < |c| ==> u[|a| + |b| + 2 + k] == c[k];
  }

  lemma {:induction false} AggregatorPriceExampleThousands()
    ensures AggregatorPrice("1.234,50 €") == Some(1.234)
  {
    assert "1.234,50 €" == "1" + "." + "234" + "," + "50" + " €";
    assert AllDigits("1") && AllDigits("234") && AllDigits("50");
    DecimalFractionExample();
    AggregatorPriceThousands("1", "234", "50");
  }

  lemma {:induction false} DecimalFractionExample()
    ensures DecimalFraction("1", "234") == 1.234
  {
    assert DecimalValue("234") == 234 by {
      assert "234"[..2] == "23" && "23"[..1] == "2" && "2"[..0] == [];
    }
    assert DecimalValue("1") == 1 by {
      assert "1"[..0] == [];
    }
    assert Pow10(3) == 1000 by {
      assert Pow10(1) == 10;
      assert Pow10(2) == 100;
    }
  }

  /** On a well-formed Italian price both readers agree. */
  lemma {:induction false} AggregatorPriceItalian(units: nat, cents: nat)
    requires cents < 100
    ensures AggregatorPrice(NatToDecimal(units) + "," + TwoDigits(cents) + " €")
            == ParsePrice(NatToDecimal(units) + "," + TwoDigits(cents) + " €")
  {
    var d, t := NatToDecimal(units), TwoDigits(cents);
    AggregatorPriceOfItalian(d, t);
    CleanItalian(d, t);
    FloatOfDecimalPoint(d, t);
  }

  lemma {:induction false} AggregatorPriceOfItalian(d: string, t: string)
    requires d != [] && t != [] && AllDigits(d) && AllDigits(t)
    ensures AggregatorPrice(d + "," + t + " €") == Some(DecimalFraction(d, t))
  {
    ItalianIsTrimmed(d, t);
    CleanAggregatorEuroSuffix(d + "," + t);
    ReplaceItalian(d, t);
    FirstNumberOfDecimal(d, t);
  }

  lemma {:induction false} FirstNumberOfDecimal(d: string, t: string)
    requires d != [] && AllDigits(d) && AllDigits(t)
    ensures FirstNumberFrom(d + "." + t, 0) == Some(DecimalFraction(d, t))
  {
    FirstNumberOfNumeral(d, t, []);
    assert d + "." + t + [] == d + "." + t;
  }

  /** An Italian price without its euro sign has neither that sign nor outer white space. */
  lemma {:induction false} ItalianIsTrimmed(d: string, t: string)
    requires d != [] && t != [] && AllDigits(d) && AllDigits(t)
    ensures var u := d + "," + t; '€' !in u && !IsSpace(Python, u[0]) && !IsSpace(Python, u[|u| - 1])
  {
    var u := d + "," + t;
    assert u[0] == d[0];
    assert u[|u| - 1] == t[|t| - 1];
    assert forall k :: 0 <= k < |d| ==> u[k] == d[k];
    assert forall k :: 0 <= k < |t| ==> u[|d| + 1 + k] == t[k];
  }
}
