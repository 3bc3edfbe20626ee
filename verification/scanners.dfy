/** The fixed regular expressions of the scraper, each written out as a
    hand-made matcher. Python's backtracking engine leaves no choice for any of
    them: a greedy digit run that stops short is always followed by a digit,
    which the next atom of the pattern rejects, so every pattern has at most one
    match at a given start position, and `re.findall` is a left-to-right scan
    that resumes after each match. */
module Scanners {
  import opened Wrappers
  import opened Text
  import opened PriceText

  // ---------------------------------------------------------------------------
  // Matching at one position

  /** The two patterns `re.findall` is used with. `MlFormat(lo, hi)` is
      `\b\d{lo,hi}\s*(?:ml|ML|mL)\b`; `EuroPrice` is
      `\d{1,3}(?:[.,]\d{3})*(?:[.,]\d{2})\s*€`. */
  datatype Pattern = MlFormat(lo: nat, hi: nat) | EuroPrice

  /** One of the three spellings `ml`, `ML`, `mL` (but not `Ml`) starts at `j`. */
  predicate IsMlUnitAt(s: string, j: nat) {
    j + 2 <= |s| &&
    ((s[j] == 'm' && s[j + 1] == 'l') || (s[j] == 'M' && s[j + 1] == 'L') || (s[j] == 'm' && s[j + 1] == 'L'))
  }

  /** `\b` just before a word character at `i`. */
  predicate WordStartsAt(s: string, i: nat)
    requires i <= |s|
  {
    i == 0 || !IsWordChar(s[i - 1])
  }

  /** `\b` just after a word character that ends at `j`. */
  predicate WordEndsAt(s: string, j: nat)
    requires j <= |s|
  {
    j == |s| || !IsWordChar(s[j])
  }

  predicate IsSeparator(c: char) { c == '.' || c == ',' }

  /** End of the greedy `(?:[.,]\d{3})*` that starts at `p`. */
  function ThousandGroupsEnd(s: string, p: nat): (q: nat)
    requires p <= |s|
    ensures p <= q <= |s| && (q - p) % 4 == 0
    decreases |s| - p
  {
    if p + 4 <= |s| && IsSeparator(s[p]) && IsDigit(s[p + 1]) && IsDigit(s[p + 2]) && IsDigit(s[p + 3])
    then ThousandGroupsEnd(s, p + 4)
    else p
  }

  /** End of the match of `p` that starts at `i`, if there is one. */
  function MatchAt(p: Pattern, s: string, i: nat): (r: Option<nat>)
    requires i <= |s|
    ensures r.Some? ==> i < r.value <= |s| && IsDigit(s[i])
  {
    var n := DigitRun(s, i);
    match p
    case MlFormat(lo, hi) =>
      var j := i + n + SpaceRun(s, i + n);
      if 1 <= n && lo <= n <= hi && WordStartsAt(s, i) && IsMlUnitAt(s, j) && WordEndsAt(s, j + 2)
      then Some(j + 2) else None
    case EuroPrice =>
      if n < 1 || 3 < n then None
      else
        var q := ThousandGroupsEnd(s, i + n);
        if q + 3 <= |s| && IsSeparator(s[q]) && IsDigit(s[q + 1]) && IsDigit(s[q + 2]) then
          var e := q + 3 + SpaceRun(s, q + 3);
          if e < |s| && s[e] == '€' then Some(e + 1) else None
        else None
  }

  // ---------------------------------------------------------------------------
  // re.findall

  /** Where the pattern matches, position by position: entry `i` is the end of
      the match that starts at `i`. */
  function MatchTable(p: Pattern, s: string): (table: seq<Option<nat>>)
    ensures |table| == |s|
    ensures forall i :: 0 <= i < |s| ==> table[i] == MatchAt(p, s, i)
    ensures WellFormed(table)
  {
    seq(|s|, i requires 0 <= i < |s| => MatchAt(p, s, i))
  }

  /** Every match ends after it starts and inside the text. */
  predicate WellFormed(table: seq<Option<nat>>) {
    forall i :: 0 <= i < |table| && table[i].Some? ==> i < table[i].value <= |table|
  }

  /** Position `j` lies inside one of the spans. */
  predicate Covered(spans: seq<(nat, nat)>, j: nat) {
    spans != [] && (spans[0].0 <= j < spans[0].1 || Covered(spans[1..], j))
  }

  /** The left-to-right scan of `re.findall` from position `pos`: try to match
      at each position in turn, and resume after each match. */
  function ScanTable(table: seq<Option<nat>>, pos: nat): (spans: seq<(nat, nat)>)
    requires WellFormed(table) && pos <= |table|
    ensures forall k :: 0 <= k < |spans| ==> pos <= spans[k].0 < spans[k].1 <= |table|
    decreases |table| - pos
  {
    if pos == |table| then []
    else match table[pos]
      case Some(e) => [(pos, e)] + ScanTable(table, e)
      case None => ScanTable(table, pos + 1)
  }

  /** Each reported span is a match, and the spans come in order without overlapping. */
  lemma {:induction false} ScanTableMatches(table: seq<Option<nat>>, pos: nat)
    requires WellFormed(table) && pos <= |table|
    ensures forall k :: 0 <= k < |ScanTable(table, pos)| ==>
      table[ScanTable(table, pos)[k].0] == Some(ScanTable(table, pos)[k].1)
    ensures forall k :: 0 <= k < |ScanTable(table, pos)| - 1 ==>
      ScanTable(table, pos)[k].1 <= ScanTable(table, pos)[k + 1].0
    decreases |table| - pos
  {
    if pos < |table| {
      if table[pos].Some? {
        var e := table[pos].value;
        ScanTableMatches(table, e);
        var spans, rest := ScanTable(table, pos), ScanTable(table, e);
        assert spans == [(pos, e)] + rest;
        assert forall k :: 1 <= k < |spans| ==> spans[k] == rest[k - 1];
      } else {
        ScanTableMatches(table, pos + 1);
      }
    }
  }

  /** Every position where a match could start lies inside a reported span:
      the first match is the leftmost one and none is skipped. */
  lemma {:induction false} ScanTableComplete(table: seq<Option<nat>>, pos: nat, j: nat)
    requires WellFormed(table) && pos <= j < |table| && table[j].Some?
    ensures Covered(ScanTable(table, pos), j)
    decreases |table| - pos
  {
    match table[pos]
    case Some(e) =>
      var spans := ScanTable(table, pos);
      assert spans[1..] == ScanTable(table, e);
      if e <= j {
        ScanTableComplete(table, e, j);
      }
    case None =>
      if pos < j {
        ScanTableComplete(table, pos + 1, j);
      }
  }

  /** The spans `re.findall` reports. */
  function Scan(p: Pattern, s: string): (spans: seq<(nat, nat)>)
    ensures forall k :: 0 <= k < |spans| ==> spans[k].0 < spans[k].1 <= |s|
  {
    ScanTable(MatchTable(p, s), 0)
  }

  /** What `re.findall` promises: each reported span is a match, and the spans
      come in order without overlapping... */
  lemma {:induction false} ScanSpans(p: Pattern, s: string)
    ensures var spans := Scan(p, s);
      (forall k :: 0 <= k < |spans| ==> MatchAt(p, s, spans[k].0) == Some(spans[k].1))
      && (forall k :: 0 <= k < |spans| - 1 ==> spans[k].1 <= spans[k + 1].0)
  {
    var table := MatchTable(p, s);
    var spans := Scan(p, s);
    ScanTableMatches(table, 0);
    forall k | 0 <= k < |spans|
      ensures MatchAt(p, s, spans[k].0) == Some(spans[k].1)
    {
      assert table[spans[k].0] == Some(spans[k].1);
    }
  }

  /** ... and every position where the pattern could start lies inside one of
      them: the first match is the leftmost one and none is skipped. */
  lemma {:induction false} ScanComplete(p: Pattern, s: string, j: nat)
    requires j < |s| && MatchAt(p, s, j).Some?
    ensures Covered(Scan(p, s), j)
  {
    var table := MatchTable(p, s);
    assert table[j].Some?;
    ScanTableComplete(table, 0, j);
  }

  /** `re.findall(pattern, s)` for a pattern without groups: the matched texts. */
  function FindAll(p: Pattern, s: string): seq<string> {
    var spans := Scan(p, s);
    seq(|spans|, k requires 0 <= k < |spans| => s[spans[k].0..spans[k].1])
  }

  /** Each text `re.findall` returns is the text of one reported match, and starts with a digit. */
  lemma {:induction false} FindAllTexts(p: Pattern, s: string)
    ensures |FindAll(p, s)| == |Scan(p, s)|
    ensures forall k :: 0 <= k < |FindAll(p, s)| ==>
      var (b, e) := Scan(p, s)[k];
      FindAll(p, s)[k] == s[b..e] && MatchAt(p, s, b) == Some(e) && IsDigit(FindAll(p, s)[k][0])
  {
    ScanSpans(p, s);
  }

  /** `estrai_prezzo_formato`: the price texts and the 2-3 digit formats of
      one text. The aggregator of `cerca_prodotto` reads an amount from every
      price text and a size from every format it returns. */
  function ExtractPriceAndFormat(text: string): (r: (seq<string>, seq<string>))
    ensures forall k :: 0 <= k < |r.0| ==> AggregatorPrice(r.0[k]).Some?
    ensures forall k :: 0 <= k < |r.1| ==> SizeOfFormat(r.1[k]).Some?
  {
    var prices, formats := FindAll(EuroPrice, text), FindAll(MlFormat(2, 3), text);
    assert forall k :: 0 <= k < |prices| ==> AggregatorPrice(prices[k]).Some? by {
      forall k | 0 <= k < |prices| ensures AggregatorPrice(prices[k]).Some? {
        FoundPriceReadBack(text, k);
      }
    }
    assert forall k :: 0 <= k < |formats| ==> SizeOfFormat(formats[k]).Some? by {
      forall k | 0 <= k < |formats| ensures SizeOfFormat(formats[k]).Some? {
        FoundFormatReadBack(text, k);
      }
    }
    (prices, formats)
  }

  lemma {:induction false} FoundPriceReadBack(text: string, k: nat)
    requires k < |FindAll(EuroPrice, text)|
    ensures AggregatorPrice(FindAll(EuroPrice, text)[k]).Some?
  {
    FindAllTexts(EuroPrice, text);
    var (b, e) := Scan(EuroPrice, text)[k];
    PriceTextHasAmount(text, b);
  }

  lemma {:induction false} FoundFormatReadBack(text: string, k: nat)
    requires k < |FindAll(MlFormat(2, 3), text)|
    ensures SizeOfFormat(FindAll(MlFormat(2, 3), text)[k]).Some?
  {
    FindAllTexts(MlFormat(2, 3), text);
    var (b, e) := Scan(MlFormat(2, 3), text)[k];
    var n := FormatSizeReadBack(2, 3, text, b, e);
  }

  /** The price pattern has no leading `\b`: in "1234,50 €" no match starts at
      the first digit, and the match starts one digit later. */
  lemma {:induction false} EuroPriceInsideNumber()
    ensures MatchAt(EuroPrice, "1234,50 €", 0).None?
    ensures MatchAt(EuroPrice, "1234,50 €", 1) == Some(9)
  {
    var s := "1234,50 €";
    DigitRunExact(s, 0, 4);
    DigitRunExact(s, 1, 3);
    assert ThousandGroupsEnd(s, 4) == 4;
    SpaceRunExact(s, 7, 1);
  }

  /** Every format `estrai_prezzo_formato` finds is also found by `estrai_formati_ml`:
      a run of 2-3 digits is a run of 1-4 digits. */
  lemma {:induction false} ShortFormatIsFormat(s: string, i: nat)
    requires i <= |s| && MatchAt(MlFormat(2, 3), s, i).Some?
    ensures MatchAt(MlFormat(1, 4), s, i) == MatchAt(MlFormat(2, 3), s, i)
  {
  }

  // ---------------------------------------------------------------------------
  // estrai_formati_ml

  /** The formats `estrai_formati_ml` takes from one of its arguments; an empty text is skipped. */
  function FormatsIn(text: string): seq<string> {
    if text != [] then FindAll(MlFormat(1, 4), text) else []
  }

  /** `estrai_formati_ml(*texts)`: every format found in any of the texts, once.
      The order of `list(set(...))` is not modelled. */
  method ExtractFormats(texts: seq<string>) returns (formats: seq<string>)
    ensures NoDups(formats)
    ensures forall f :: f in formats <==> exists k :: 0 <= k < |texts| && f in FormatsIn(texts[k])
  {
    var found: seq<string> := [];
    for i := 0 to |texts|
      invariant forall f :: f in found <==> exists k :: 0 <= k < i && f in FormatsIn(texts[k])
    {
      var more := FormatsIn(texts[i]);
      forall f
        ensures f in found + more <==> exists k :: 0 <= k < i + 1 && f in FormatsIn(texts[k])
      {
        if f in more {
          assert 0 <= i < i + 1 && f in FormatsIn(texts[i]);
        }
      }
      found := found + more;
    }
    formats := Distinct(found);
  }

  // ---------------------------------------------------------------------------
  // The size read back by the aggregator: re.search(r'(\d+)\s*ml', f.lower())

  /** Leftmost search for `(\d+)\s*ml` from `i`; the value is `int()` of the digits. */
  function SearchMlFrom(s: string, i: nat): (r: Option<nat>)
    requires i <= |s|
    decreases |s| - i
  {
    if i == |s| then None
    else
      var n := DigitRun(s, i);
      var j := i + n + SpaceRun(s, i + n);
      if 1 <= n && j + 2 <= |s| && s[j] == 'm' && s[j + 1] == 'l'
      then Some(DecimalValue(s[i..i + n]))
      else SearchMlFrom(s, i + 1)
  }

  /** The size in millilitres the aggregator of `cerca_prodotto` reads from a
      format string; there is one only when the string mentions "ml" in any case. */
  function SizeOfFormat(f: string): (r: Option<nat>)
    ensures r.Some? ==> Contains(Lower(f), "ml")
  {
    SearchMlFound(Lower(f), 0);
    SearchMlFrom(Lower(f), 0)
  }

  lemma {:induction false} SearchMlFound(s: string, i: nat)
    requires i <= |s|
    ensures SearchMlFrom(s, i).Some? ==> Contains(s, "ml")
    decreases |s| - i
  {
    if i < |s| {
      var n := DigitRun(s, i);
      var j := i + n + SpaceRun(s, i + n);
      if 1 <= n && j + 2 <= |s| && s[j] == 'm' && s[j + 1] == 'l' {
        assert s[j..j + 2] == "ml";
        ContainsAt(s, "ml", j);
      } else {
        SearchMlFound(s, i + 1);
      }
    }
  }

  /** Every format the scanners report is read back by the aggregator as the
      number its leading digits spell. */
  lemma {:induction false} FormatSizeReadBack(lo: nat, hi: nat, s: string, i: nat, e: nat) returns (n: nat)
    requires i <= |s| && MatchAt(MlFormat(lo, hi), s, i) == Some(e)
    ensures 1 <= n < e - i && AllDigits(s[i..i + n]) && !IsDigit(s[i + n])
    ensures SizeOfFormat(s[i..e]) == Some(DecimalValue(s[i..i + n]))
  {
    var m;
    n, m := MlMatchShape(lo, hi, s, i);
    UnitTextOfSlice(s, i, n, m, e);
  }

  /** A format match is a digit run, the white space after it, and a unit. */
  lemma {:induction false} MlMatchShape(lo: nat, hi: nat, s: string, i: nat) returns (n: nat, m: nat)
    requires i <= |s| && MatchAt(MlFormat(lo, hi), s, i).Some?
    ensures n == DigitRun(s, i) && i + n <= |s| && m == SpaceRun(s, i + n)
    ensures 1 <= n && MatchAt(MlFormat(lo, hi), s, i) == Some(i + n + m + 2) && IsMlUnitAt(s, i + n + m)
    ensures AllDigits(s[i..i + n]) && !IsDigit(s[i + n])
  {
    n := DigitRun(s, i);
    m := SpaceRun(s, i + n);
    var digits := s[i..i + n];
    assert forall k :: 0 <= k < n ==> digits[k] == s[i + k];
  }

  lemma {:induction false} UnitTextOfSlice(s: string, i: nat, n: nat, m: nat, e: nat)
    requires i <= |s| && n == DigitRun(s, i) && 1 <= n
    requires i + n <= |s| && m == SpaceRun(s, i + n) && IsMlUnitAt(s, i + n + m) && e == i + n + m + 2
    ensures SizeOfFormat(s[i..e]) == Some(DecimalValue(s[i..i + n]))
  {
    var t := s[i..e];
    assert t[..n] == s[i..i + n];
    assert forall k :: 0 <= k < |t| ==> t[k] == s[i + k];
    SizeOfUnitText(t, n, m);
  }

  /** Digits, white space, then one of the unit spellings: lower-casing turns
      the unit into "ml" and leaves the digits and the white space alone. */
  lemma {:induction false} SizeOfUnitText(t: string, n: nat, m: nat)
    requires |t| == n + m + 2 && 1 <= n
    requires forall k :: 0 <= k < n ==> IsDigit(t[k])
    requires forall k :: n <= k < n + m ==> IsSpace(Python, t[k])
    requires IsMlUnitAt(t, n + m)
    ensures SizeOfFormat(t) == Some(DecimalValue(t[..n]))
  {
    LowerUnitText(t, n, m);
    var lt := Lower(t);
    SearchLowerUnitText(lt, n, m);
    assert lt[..n] == t[..n];
  }

  lemma {:induction false} LowerUnitText(t: string, n: nat, m: nat)
    requires |t| == n + m + 2 && 1 <= n
    requires forall k :: 0 <= k < n ==> IsDigit(t[k])
    requires forall k :: n <= k < n + m ==> IsSpace(Python, t[k])
    requires IsMlUnitAt(t, n + m)
    ensures var lt := Lower(t);
      (forall k :: 0 <= k < n + m ==> lt[k] == t[k]) && lt[n + m] == 'm' && lt[n + m + 1] == 'l'
  {
  }

  lemma {:induction false} SearchLowerUnitText(lt: string, n: nat, m: nat)
    requires |lt| == n + m + 2 && 1 <= n
    requires forall k :: 0 <= k < n ==> IsDigit(lt[k])
    requires forall k :: n <= k < n + m ==> IsSpace(Python, lt[k])
    requires lt[n + m] == 'm' && lt[n + m + 1] == 'l'
    ensures SearchMlFrom(lt, 0) == Some(DecimalValue(lt[..n]))
  {
    DigitRunExact(lt, 0, n);
    SpaceRunExact(lt, n, m);
  }

  /** Every price text the scanner reports gives the aggregator a number. */
  lemma {:induction false} PriceTextHasAmount(s: string, i: nat)
    requires i <= |s| && MatchAt(EuroPrice, s, i).Some?
    ensures AggregatorPrice(s[i..MatchAt(EuroPrice, s, i).value]).Some?
  {
    var t := s[i..MatchAt(EuroPrice, s, i).value];
    assert IsDigit(t[0]);
    AggregatorPriceDefined(t);
  }

  // ---------------------------------------------------------------------------
  // The size of a Google Shopping variant: re.search(r'(\d{1,4}) ?ml', title.lower())

  /** Leftmost search for `(\d{1,4}) ?ml` from `i`. A start inside a longer
      digit run is allowed, so "12345ml" reads as 2345. */
  function SearchShortMlFrom(s: string, i: nat): (r: Option<nat>)
    requires i <= |s|
    ensures r.Some? ==> r.value < 10000
    decreases |s| - i
  {
    if i == |s| then None
    else
      var n := if DigitRun(s, i) < 4 then DigitRun(s, i) else 4;
      var p := i + n;
      if 1 <= n && (MlAt(s, p) || (p < |s| && s[p] == ' ' && MlAt(s, p + 1)))
      then
        DecimalBelow(s[i..p]);
        Pow10AtMostFour(n);
        Some(DecimalValue(s[i..p]))
      else SearchShortMlFrom(s, i + 1)
  }

  predicate MlAt(s: string, j: nat) {
    j + 2 <= |s| && s[j] == 'm' && s[j + 1] == 'l'
  }

  lemma {:induction false} DecimalBelow(ds: string)
    requires AllDigits(ds)
    ensures DecimalValue(ds) < Pow10(|ds|)
  {
    if ds != [] {
      DecimalBelow(ds[..|ds| - 1]);
    }
  }

  lemma {:induction false} Pow10AtMostFour(n: nat)
    requires n <= 4
    ensures Pow10(n) <= 10000
  {
    if n > 0 {
      Pow10AtMostFour(n - 1);
    }
  }

  /** The size `_extract_google_variants` reads from a title. */
  function GoogleSize(title: string): (r: Option<nat>)
    ensures r.Some? ==> r.value < 10000
  {
    SearchShortMlFrom(Lower(title), 0)
  }

  /** The search moves one digit to the right when the run is too long. */
  lemma {:induction false} GoogleSizeExample()
    ensures GoogleSize("12345ml") == Some(2345)
  {
    var s := "12345ml";
    LowerOfLower(s);
    GoogleSizeSteps(s);
    DecimalValueExample();
  }

  lemma {:induction false} DecimalValueExample()
    ensures DecimalValue("12345ml"[1..5]) == 2345
  {
    assert "12345ml"[1..5] == "2345";
    assert "2345"[..3] == "234" && "234"[..2] == "23" && "23"[..1] == "2" && "2"[..0] == [];
  }

  lemma {:induction false} GoogleSizeSteps(s: string)
    requires s == "12345ml"
    ensures SearchShortMlFrom(s, 0) == Some(DecimalValue(s[1..5]))
  {
    DigitRunExact(s, 0, 5);
    DigitRunExact(s, 1, 4);
    assert !MlAt(s, 4);
    assert MlAt(s, 5);
  }

  lemma {:induction false} LowerOfLower(s: string)
    requires forall k :: 0 <= k < |s| ==> !IsAsciiUpper(s[k])
    ensures Lower(s) == s
  {
  }

  /** A variant of the Google Shopping results: its title, the size read from
      the title and the price read by `_parse_price`. */
  datatype GoogleVariant = GoogleVariant(title: string, sizeMl: Option<nat>, price: Option<real>)

  /** The variant made from the (title, price) texts of one result element. */
  function VariantFrom(e: (string, string)): GoogleVariant {
    GoogleVariant(e.0, GoogleSize(e.0), ParsePrice(e.1))
  }

  /** Only an element with both texts gives a variant. */
  predicate Usable(e: (string, string)) { e.0 != [] && e.1 != [] }

  /** The variants made from the result elements, in order. */
  function GoogleVariantsOf(elements: seq<(string, string)>): seq<GoogleVariant> {
    if elements == [] then []
    else
      var e := elements[|elements| - 1];
      GoogleVariantsOf(elements[..|elements| - 1]) + (if Usable(e) then [VariantFrom(e)] else [])
  }

  /** Every element's texts were read without an exception. */
  predicate AllRead(elements: seq<Option<(string, string)>>) {
    forall i :: 0 <= i < |elements| ==> elements[i].Some?
  }

  /** The texts of elements that were all read. */
  function ReadTexts(elements: seq<Option<(string, string)>>): (texts: seq<(string, string)>)
    requires AllRead(elements)
    ensures |texts| == |elements|
    ensures forall i :: 0 <= i < |elements| ==> texts[i] == elements[i].value
  {
    seq(|elements|, i requires 0 <= i < |elements| => elements[i].value)
  }

  /** `_extract_google_variants(page)`. `elements` is what the page gives:
      `None` when `query_selector_all` raises, and for each result element its
      title and price texts ('' for a missing node), or `None` when reading
      them raises. Any exception discards the variants collected so far and
      gives the empty list; otherwise only elements with both texts give a
      variant, in order. */
  function ExtractGoogleVariants(elements: Option<seq<Option<(string, string)>>>): (r: seq<GoogleVariant>)
    ensures elements.None? ==> r == []
    ensures elements.Some? && !AllRead(elements.value) ==> r == []
    ensures elements.Some? ==> |r| <= |elements.value|
    ensures elements.Some? && AllRead(elements.value) ==>
      forall i :: 0 <= i < |elements.value| && Usable(elements.value[i].value) ==> VariantFrom(elements.value[i].value) in r
    ensures elements.Some? ==>
      forall v :: v in r ==>
        (exists i :: 0 <= i < |elements.value| && elements.value[i].Some? && Usable(elements.value[i].value) && v == VariantFrom(elements.value[i].value))
  {
    if elements.None? || !AllRead(elements.value) then []
    else
      var es := elements.value;
      var texts := ReadTexts(es);
      GoogleVariantsComplete(texts);
      GoogleVariantsSound(texts);
      assert forall i :: 0 <= i < |es| ==> es[i].value in texts by {
        forall i | 0 <= i < |es| ensures es[i].value in texts {
          assert texts[i] == es[i].value;
        }
      }
      assert forall v :: v in GoogleVariantsOf(texts) ==>
        exists i :: 0 <= i < |es| && es[i].Some? && Usable(es[i].value) && v == VariantFrom(es[i].value) by {
        forall v | v in GoogleVariantsOf(texts)
          ensures exists i :: 0 <= i < |es| && es[i].Some? && Usable(es[i].value) && v == VariantFrom(es[i].value)
        {
          var e :| e in texts && Usable(e) && v == VariantFrom(e);
          var i :| 0 <= i < |texts| && texts[i] == e;
          assert es[i].Some? && es[i].value == e;
        }
      }
      GoogleVariantsOf(texts)
  }

  /** The loop of `_extract_google_variants`; an element whose texts cannot be
      read ends it with the empty list, as the `except` around the loop does. */
  method GoogleVariants(elements: Option<seq<Option<(string, string)>>>) returns (variants: seq<GoogleVariant>)
    ensures variants == ExtractGoogleVariants(elements)
  {
    if elements.None? {
      return [];
    }
    var es := elements.value;
    variants := [];
    for i := 0 to |es|
      invariant AllRead(es[..i])
      invariant variants == GoogleVariantsOf(ReadTexts(es[..i]))
    {
      if es[i].None? {
        assert !AllRead(es);
        return [];
      }
      var (title, price) := es[i].value;
      ghost var before := ReadTexts(es[..i]);
      ghost var after := ReadTexts(es[..i + 1]);
      assert after[..i] == before;
      if title != [] && price != [] {
        variants := variants + [GoogleVariant(title, GoogleSize(title), ParsePrice(price))];
      }
    }
    assert es[..|es|] == es;
  }

  /** Every element with a title and a price text gives its variant, and there
      are never more variants than elements. */
  lemma {:induction false} GoogleVariantsComplete(elements: seq<(string, string)>)
    ensures |GoogleVariantsOf(elements)| <= |elements|
    ensures forall e :: e in elements && Usable(e) ==> VariantFrom(e) in GoogleVariantsOf(elements)
  {
    if elements != [] {
      var init := elements[..|elements| - 1];
      var last := elements[|elements| - 1];
      GoogleVariantsComplete(init);
      assert elements == init + [last];
      ExtendKeeps(GoogleVariantsOf(init), if Usable(last) then [VariantFrom(last)] else []);
    }
  }

  lemma {:induction false} ExtendKeeps(a: seq<GoogleVariant>, b: seq<GoogleVariant>)
    ensures forall v :: v in a ==> v in a + b
    ensures forall v :: v in b ==> v in a + b
  {
  }

  /** Every variant comes from an element with a title and a price text. */
  lemma {:induction false} GoogleVariantsSound(elements: seq<(string, string)>)
    ensures forall v :: v in GoogleVariantsOf(elements) ==> exists e :: e in elements && Usable(e) && v == VariantFrom(e)
  {
    if elements != [] {
      var init := elements[..|elements| - 1];
      var last := elements[|elements| - 1];
      GoogleVariantsSound(init);
      assert elements == init + [last];
      forall v | v in GoogleVariantsOf(elements) ensures exists e :: e in elements && Usable(e) && v == VariantFrom(e) {
        if v in GoogleVariantsOf(init) {
          var e :| e in init && Usable(e) && v == VariantFrom(e);
          assert e in elements;
        } else {
          assert last in elements && Usable(last) && v == VariantFrom(last);
        }
      }
    }
  }
}
