/** What the user types into the scraper: brand headers ending in ':' and
    product lines under them (`parse_user_input`), the way names are tidied
    (`_normalize_text`), and the file names chosen for saved images
    (`_get_unique_filename`). */
module UserInput {
  import opened Text

  // ---------------------------------------------------------------------------
  // _normalize_text

  /** The Italian articles and prepositions that stay lower-case. */
  const StopWords: seq<string> := ["de", "di", "da", "del", "della", "delle", "e", "ed", "la", "le", "il", "lo", "gli", "un", "una", "uno"]

  /** `str.capitalize()`: the first character upper-case, the rest lower-case. */
  function Capitalize(w: string): (r: string)
    ensures |r| == |w|
  {
    if w == [] then [] else [UpperChar(w[0])] + Lower(w[1..])
  }

  /** How one (already lower-cased) word is written back. */
  function NormalWord(w: string): string {
    if w in StopWords then w else Capitalize(w)
  }

  function NormalWords(ws: seq<string>): (out: seq<string>)
    ensures |out| == |ws|
  {
    seq(|ws|, i requires 0 <= i < |ws| => NormalWord(ws[i]))
  }

  /** The words `_normalize_text` works on: those of the stripped, lower-cased text. */
  function LowerWords(text: string): seq<string> {
    SplitWords(Lower(Strip(Python, text)))
  }

  /** `_normalize_text(text)`: the result has no surrounding whitespace, and
      its words are those of the stripped, lower-cased text, with only their
      case changed. */
  function Normalized(text: string): (r: string)
    ensures Strip(Python, r) == r
    ensures text != [] ==> LowerAll(SplitWords(r)) == LowerWords(text)
  {
    if text == [] then text
    else
      var ws := LowerWords(text);
      var r := Join(NormalWords(ws), " ");
      LoweredWords(Lower(Strip(Python, text)));
      NormalWordsAreWords(ws);
      if ws != [] then
        JoinEnds(NormalWords(ws));
        StripOfStripped(Python, r);
        SplitWordsOfJoin(NormalWords(ws));
        LowerNormalWords(ws);
        r
      else
        StripOfStripped(Python, r);
        r
  }

  method NormalizeText(text: string) returns (r: string)
    ensures r == Normalized(text)
  {
    if text == [] {
      return text;
    }
    var words := LowerWords(text);
    var normalized := NormalizeWords(words);
    r := Join(normalized, " ");
  }

  /** The loop of `_normalize_text` over the words. */
  method NormalizeWords(words: seq<string>) returns (normalized: seq<string>)
    ensures normalized == NormalWords(words)
  {
    normalized := [];
    for i := 0 to |words|
      invariant |normalized| == i
      invariant forall j :: 0 <= j < i ==> normalized[j] == NormalWord(words[j])
    {
      var word := words[i];
      var out: string;
      if word in StopWords {
        out := word;
      } else {
        out := Capitalize(word);
      }
      assert out == NormalWord(word);
      normalized := normalized + [out];
      assert normalized[i] == NormalWord(words[i]);
    }
    forall j | 0 <= j < |words| ensures normalized[j] == NormalWords(words)[j] {
    }
  }

  /** Every character of `s` is its own lower-case form. */
  predicate IsLowered(s: string) {
    forall k :: 0 <= k < |s| ==> LowerChar(s[k]) == s[k]
  }

  /** A stop word stays as it is; any other word whose first character is an
      ASCII letter starts with a capital and goes on in lower case. */
  lemma {:induction false} NormalWordShape(w: string)
    requires IsWord(w) && IsLowered(w)
    ensures w in StopWords ==> NormalWord(w) == w
    ensures w !in StopWords && IsAsciiLower(w[0]) ==> IsAsciiUpper(NormalWord(w)[0])
    ensures forall k :: 1 <= k < |w| ==> NormalWord(w)[k] == w[k]
  {
    if w !in StopWords {
      CapitalizeShape(w);
    }
  }

  lemma {:induction false} CapitalizeShape(w: string)
    requires w != [] && IsLowered(w)
    ensures IsAsciiLower(w[0]) ==> IsAsciiUpper(Capitalize(w)[0])
    ensures forall k :: 1 <= k < |w| ==> Capitalize(w)[k] == w[k]
  {
    var tail := w[1..];
    var lowered := Lower(tail);
    assert Capitalize(w) == [UpperChar(w[0])] + lowered;
    forall k | 1 <= k < |w| ensures Capitalize(w)[k] == w[k] {
      assert tail[k - 1] == w[k];
      assert lowered[k - 1] == LowerChar(w[k]);
    }
  }

  /** Normalising an already normalised text changes nothing. */
  lemma {:induction false} NormalizeIdempotent(text: string)
    ensures Normalized(Normalized(text)) == Normalized(text)
  {
    if text != [] {
      var ws := LowerWords(text);
      LoweredWords(Lower(Strip(Python, text)));
      var out := NormalWords(ws);
      var r := Join(out, " ");
      if ws != [] {
        NormalWordsAreWords(ws);
        JoinEnds(out);
        StripOfStripped(Python, r);
        LowerJoin(out);
        LowerNormalWords(ws);
        SplitWordsOfJoin(ws);
      }
    }
  }

  lemma {:induction false} LowerLower(s: string)
    requires IsLowered(s)
    ensures Lower(s) == s
  {
  }

  lemma {:induction false} LoweredWords(s: string)
    requires IsLowered(s)
    ensures forall k :: 0 <= k < |SplitWords(s)| ==> IsLowered(SplitWords(s)[k])
    decreases |s|
  {
    var t := TrimStart(Python, s);
    if t != [] {
      LoweredSlice(s, |s| - |t|, |s|);
      var n := WordLength(t);
      var rest := t[n..];
      LoweredSlice(t, 0, n);
      LoweredSlice(t, n, |t|);
      assert t[n..|t|] == rest;
      LoweredWords(rest);
      LoweredWordsCons(s, t[..n], SplitWords(rest));
    }
  }

  lemma {:induction false} LoweredWordsCons(s: string, w: string, ws: seq<string>)
    requires SplitWords(s) == [w] + ws
    requires IsLowered(w) && forall k :: 0 <= k < |ws| ==> IsLowered(ws[k])
    ensures forall k :: 0 <= k < |SplitWords(s)| ==> IsLowered(SplitWords(s)[k])
  {
    forall k | 0 <= k < |SplitWords(s)| ensures IsLowered(SplitWords(s)[k]) {
      if k > 0 {
        assert SplitWords(s)[k] == ws[k - 1];
      }
    }
  }

  lemma {:induction false} LoweredSlice(s: string, i: nat, j: nat)
    requires IsLowered(s) && i <= j <= |s|
    ensures IsLowered(s[i..j])
  {
    forall k | 0 <= k < j - i ensures LowerChar(s[i..j][k]) == s[i..j][k] {
      assert s[i..j][k] == s[i + k];
    }
  }

  lemma {:induction false} NormalWordIsWord(w: string)
    requires IsWord(w)
    ensures IsWord(NormalWord(w))
  {
    if w !in StopWords {
      var r := Capitalize(w);
      var tail := Lower(w[1..]);
      assert r == [UpperChar(w[0])] + tail;
      forall k | 0 <= k < |r| ensures !IsSpace(Python, r[k]) {
        CaseKeepsSpace(w[k]);
        if k > 0 {
          assert r[k] == tail[k - 1] == LowerChar(w[k]);
        }
      }
    }
  }

  /** Changing the case of a character never makes it whitespace. */
  lemma {:induction false} CaseKeepsSpace(c: char)
    requires !IsSpace(Python, c)
    ensures !IsSpace(Python, LowerChar(c)) && !IsSpace(Python, UpperChar(c))
  {
    if IsAsciiUpper(c) {
      assert IsAsciiLower(LowerChar(c));
    } else if IsAsciiLower(c) {
      assert IsAsciiUpper(UpperChar(c));
    }
  }

  lemma {:induction false} NormalWordsAreWords(ws: seq<string>)
    requires forall k :: 0 <= k < |ws| ==> IsWord(ws[k])
    ensures forall k :: 0 <= k < |ws| ==> IsWord(NormalWords(ws)[k])
  {
    forall k | 0 <= k < |ws| ensures IsWord(NormalWords(ws)[k]) {
      NormalWordIsWord(ws[k]);
    }
  }

  lemma {:induction false} NormalWordLowers(w: string)
    requires IsWord(w) && IsLowered(w)
    ensures Lower(NormalWord(w)) == w
  {
    if w !in StopWords {
      var r := Capitalize(w);
      assert Lower(r)[0] == w[0];
      forall k | 1 <= k < |w| ensures Lower(r)[k] == w[k] {
        assert r[k] == LowerChar(w[k]);
      }
    } else {
      LowerLower(w);
    }
  }

  lemma {:induction false} LowerNormalWords(ws: seq<string>)
    requires forall k :: 0 <= k < |ws| ==> IsWord(ws[k]) && IsLowered(ws[k])
    ensures LowerAll(NormalWords(ws)) == ws
  {
    forall k | 0 <= k < |ws| ensures LowerAll(NormalWords(ws))[k] == ws[k] {
      NormalWordLowers(ws[k]);
    }
  }

  function LowerAll(ws: seq<string>): (r: seq<string>)
    ensures |r| == |ws|
  {
    seq(|ws|, i requires 0 <= i < |ws| => Lower(ws[i]))
  }

  /** Lower-casing a joined text lower-cases each part. */
  lemma {:induction false} LowerJoin(ws: seq<string>)
    ensures Lower(Join(ws, " ")) == Join(LowerAll(ws), " ")
    decreases |ws|
  {
    if |ws| > 1 {
      LowerJoin(ws[1..]);
      assert LowerAll(ws)[1..] == LowerAll(ws[1..]);
      LowerConcat(ws[0] + " ", Join(ws[1..], " "));
      LowerConcat(ws[0], " ");
    }
  }

  lemma {:induction false} LowerConcat(a: string, b: string)
    ensures Lower(a + b) == Lower(a) + Lower(b)
  {
  }

  // ---------------------------------------------------------------------------
  // parse_user_input

  /** One product to look for. */
  datatype Entry = Entry(brand: string, product: string)

  /** The lines of the input: the stripped text cut at line feeds, each line
      stripped, blank ones dropped. */
  function Lines(input: string): seq<string> {
    KeptLines(Split(Strip(Python, input), '\n'))
  }

  function KeptLines(parts: seq<string>): (lines: seq<string>)
    ensures |lines| <= |parts|
  {
    if parts == [] then []
    else
      var line := Strip(Python, parts[|parts| - 1]);
      KeptLines(parts[..|parts| - 1]) + (if line != [] then [line] else [])
  }

  predicate IsHeader(line: string) { ':' in line }

  /** The brand a header names: the line without any ':', stripped. */
  function HeaderBrand(line: string): string {
    Strip(Python, RemoveChar(line, ':'))
  }

  /** The entries for `lines` read one at a time, before normalisation, with
      `brand` the brand in force (empty when none is, since an empty brand
      counts as none): a header changes the brand, any other line under a
      brand is a product of it. */
  function Entries(lines: seq<string>, brand: string): (r: seq<Entry>)
    ensures |r| <= |lines|
    ensures forall k :: 0 <= k < |r| ==> r[k].brand != [] && r[k].product in lines
    decreases |lines|
  {
    if lines == [] then []
    else if IsHeader(lines[0]) then Entries(lines[1..], HeaderBrand(lines[0]))
    else (if brand != [] then [Entry(brand, lines[0])] else []) + Entries(lines[1..], brand)
  }

  /** Both names of an entry passed through `_normalize_text`. */
  function NormalEntry(e: Entry): Entry {
    Entry(Normalized(e.brand), Normalized(e.product))
  }

  function NormalEntries(es: seq<Entry>): (r: seq<Entry>)
    ensures |r| == |es|
  {
    seq(|es|, i requires 0 <= i < |es| => NormalEntry(es[i]))
  }

  function ParsedEntries(input: string): seq<Entry> {
    NormalEntries(Entries(Lines(input), []))
  }

  /** The products gathered under one brand, paired with it. */
  function Pairs(brand: string, products: seq<string>): (r: seq<Entry>)
    ensures |r| == |products|
  {
    seq(|products|, i requires 0 <= i < |products| => Entry(brand, products[i]))
  }

  /** `parse_user_input(input_text)`. */
  method ParseUserInput(input: string) returns (products: seq<Entry>)
    ensures products == ParsedEntries(input)
  {
    var lines := ReadLines(input);
    products := GroupLines(lines);
  }

  /** The loop of `parse_user_input`, which gathers the products of a brand
      and writes them out when the next header or the end comes. */
  method GroupLines(lines: seq<string>) returns (products: seq<Entry>)
    ensures products == NormalEntries(Entries(lines, []))
  {
    products := [];
    ghost var done: seq<Entry> := [];
    var brand: string := [];
    var current: seq<string> := [];
    for k := 0 to |lines|
      invariant current != [] ==> brand != []
      invariant products == NormalEntries(done)
      invariant done + Pairs(brand, current) + Entries(lines[k..], brand) == Entries(lines, [])
    {
      var line := lines[k];
      if ':' in line {
        HeaderInvariant(lines, k, done, brand, current);
        if brand != [] && current != [] {
          var flushed := Flush(brand, current);
          NormalEntriesConcat(done, Pairs(brand, current));
          products := products + flushed;
        }
        done := Flushed(done, brand, current);
        brand := HeaderBrand(line);
        current := [];
      } else {
        ProductInvariant(lines, k, done, brand, current);
        if brand != [] {
          current := current + [line];
        }
      }
    }
    assert lines[|lines|..] == [];
    if brand != [] && current != [] {
      var flushed := Flush(brand, current);
      NormalEntriesConcat(done, Pairs(brand, current));
      products := products + flushed;
    }
    done := Flushed(done, brand, current);
  }

  /** A header writes out the products gathered so far and starts a new brand. */
  lemma {:induction false} HeaderInvariant(lines: seq<string>, k: nat, done: seq<Entry>, brand: string, current: seq<string>)
    requires k < |lines| && IsHeader(lines[k]) && (current != [] ==> brand != [])
    requires done + Pairs(brand, current) + Entries(lines[k..], brand) == Entries(lines, [])
    ensures Flushed(done, brand, current) + Pairs(HeaderBrand(lines[k]), []) + Entries(lines[k + 1..], HeaderBrand(lines[k]))
         == Entries(lines, [])
  {
    var gathered := done + Pairs(brand, current);
    var next := HeaderBrand(lines[k]);
    HeaderStep(lines, k, brand);
    assert Flushed(done, brand, current) == gathered;
    PairsNone(next);
    assert gathered + [] == gathered;
  }

  lemma {:induction false} PairsNone(brand: string)
    ensures Pairs(brand, []) == []
  {
  }

  /** A product line under a brand joins the products gathered for it. */
  lemma {:induction false} ProductInvariant(lines: seq<string>, k: nat, done: seq<Entry>, brand: string, current: seq<string>)
    requires k < |lines| && !IsHeader(lines[k])
    requires done + Pairs(brand, current) + Entries(lines[k..], brand) == Entries(lines, [])
    ensures var current' := if brand != [] then current + [lines[k]] else current;
      done + Pairs(brand, current') + Entries(lines[k + 1..], brand) == Entries(lines, [])
  {
    var rest := Entries(lines[k + 1..], brand);
    ProductStep(lines, k, brand);
    if brand != [] {
      GatherStep(done, brand, current, lines[k], lines[k + 1..]);
    } else {
      assert Entries(lines[k..], brand) == [] + rest == rest;
    }
  }

  /** The entries written out so far once a brand's products are flushed. */
  ghost function Flushed(done: seq<Entry>, brand: string, current: seq<string>): (r: seq<Entry>)
    requires current != [] ==> brand != []
    ensures r == done + Pairs(brand, current)
  {
    if current == [] then (assert Pairs(brand, current) == []; done) else done + Pairs(brand, current)
  }

  lemma {:induction false} GatherStep(done: seq<Entry>, brand: string, current: seq<string>, line: string, rest: seq<string>)
    ensures done + Pairs(brand, current) + ([Entry(brand, line)] + Entries(rest, brand))
         == done + Pairs(brand, current + [line]) + Entries(rest, brand)
  {
    PairsSnoc(brand, current + [line], |current|);
    assert (current + [line])[..|current|] == current;
    assert (current + [line])[..|current| + 1] == current + [line];
  }

  lemma {:induction false} HeaderStep(lines: seq<string>, k: nat, brand: string)
    requires k < |lines| && IsHeader(lines[k])
    ensures Entries(lines[k..], brand) == Entries(lines[k + 1..], HeaderBrand(lines[k]))
  {
    assert lines[k..][1..] == lines[k + 1..];
  }

  lemma {:induction false} ProductStep(lines: seq<string>, k: nat, brand: string)
    requires k < |lines| && !IsHeader(lines[k])
    ensures Entries(lines[k..], brand) == (if brand != [] then [Entry(brand, lines[k])] else []) + Entries(lines[k + 1..], brand)
  {
    assert lines[k..][1..] == lines[k + 1..];
  }

  lemma {:induction false} NormalEntriesConcat(a: seq<Entry>, b: seq<Entry>)
    ensures NormalEntries(a + b) == NormalEntries(a) + NormalEntries(b)
  {
    var l, r := NormalEntries(a + b), NormalEntries(a) + NormalEntries(b);
    forall i | 0 <= i < |l| ensures l[i] == r[i] {
      if i < |a| {
        assert (a + b)[i] == a[i];
      } else {
        assert (a + b)[i] == b[i - |a|];
      }
    }
  }

  /** The entries written out for the products of one brand. */
  method Flush(brand: string, current: seq<string>) returns (out: seq<Entry>)
    ensures out == NormalEntries(Pairs(brand, current))
  {
    out := [];
    for i := 0 to |current|
      invariant out == NormalEntries(Pairs(brand, current[..i]))
    {
      var b := NormalizeText(brand);
      var p := NormalizeText(current[i]);
      PairsSnoc(brand, current, i);
      NormalEntriesConcat(Pairs(brand, current[..i]), [Entry(brand, current[i])]);
      NormalEntriesOne(Entry(brand, current[i]));
      out := out + [Entry(b, p)];
    }
    assert current[..|current|] == current;
  }

  lemma {:induction false} PairsSnoc(brand: string, ps: seq<string>, i: nat)
    requires i < |ps|
    ensures Pairs(brand, ps[..i + 1]) == Pairs(brand, ps[..i]) + [Entry(brand, ps[i])]
  {
    var l, r := Pairs(brand, ps[..i + 1]), Pairs(brand, ps[..i]) + [Entry(brand, ps[i])];
    forall j | 0 <= j <= i ensures l[j] == r[j] {
    }
  }

  lemma {:induction false} NormalEntriesOne(e: Entry)
    ensures NormalEntries([e]) == [NormalEntry(e)]
  {
    assert NormalEntries([e])[0] == NormalEntry(e);
  }

  /** The list comprehension that cuts the input into lines. */
  method ReadLines(input: string) returns (lines: seq<string>)
    ensures lines == Lines(input)
  {
    var parts := Split(Strip(Python, input), '\n');
    lines := [];
    for i := 0 to |parts|
      invariant lines == KeptLines(parts[..i])
    {
      assert parts[..i + 1][..i] == parts[..i];
      var line := Strip(Python, parts[i]);
      if line != [] {
        lines := lines + [line];
      }
    }
    assert parts[..|parts|] == parts;
  }

  /** A line as `parse_user_input` sees it: non-blank, already stripped and
      without a line feed. */
  predicate CleanLine(line: string) {
    line != [] && Strip(Python, line) == line && '\n' !in line
  }

  lemma {:induction false} LinesAreClean(parts: seq<string>)
    requires forall k :: 0 <= k < |parts| ==> '\n' !in parts[k]
    ensures forall k :: 0 <= k < |KeptLines(parts)| ==> CleanLine(KeptLines(parts)[k])
  {
    if parts != [] {
      var init := parts[..|parts| - 1];
      assert forall k :: 0 <= k < |init| ==> init[k] == parts[k];
      LinesAreClean(init);
      var last := parts[|parts| - 1];
      var line := Strip(Python, last);
      StripOfStripped(Python, line);
      StripInside(last, '\n');
      var kept := KeptLines(init);
      var lines := KeptLines(parts);
      assert lines == kept + (if line != [] then [line] else []);
      forall k | 0 <= k < |lines| ensures CleanLine(lines[k]) {
        if k < |kept| {
          assert lines[k] == kept[k];
        } else {
          assert lines[k] == line;
        }
      }
    }
  }

  /** Stripping does not bring in a character. */
  lemma {:induction false} StripInside(s: string, c: char)
    requires c !in s
    ensures c !in Strip(Python, s)
    decreases |s|
  {
    if s != [] && IsSpace(Python, s[0]) {
      StripInside(s[1..], c);
    } else if s != [] && IsSpace(Python, s[|s| - 1]) {
      StripInside(s[..|s| - 1], c);
    }
  }

  /** The lines of the input are non-blank, stripped and free of line feeds. */
  lemma {:induction false} InputLinesAreClean(input: string)
    ensures forall k :: 0 <= k < |Lines(input)| ==> CleanLine(Lines(input)[k])
  {
    LinesAreClean(Split(Strip(Python, input), '\n'));
  }

  /** A header followed by product lines yields one entry per product under
      that header's brand (none when the brand is empty), and the brand stays
      in force for what follows. */
  lemma {:induction false} BlockEntries(header: string, products: seq<string>, rest: seq<string>, brand: string)
    requires IsHeader(header)
    requires forall k :: 0 <= k < |products| ==> !IsHeader(products[k])
    ensures Entries([header] + products + rest, brand)
         == (if HeaderBrand(header) != [] then Pairs(HeaderBrand(header), products) else [])
            + Entries(rest, HeaderBrand(header))
  {
    assert ([header] + products + rest)[1..] == products + rest;
    ProductRun(HeaderBrand(header), products, rest);
  }

  lemma {:induction false} ProductRun(brand: string, products: seq<string>, rest: seq<string>)
    requires forall k :: 0 <= k < |products| ==> !IsHeader(products[k])
    ensures Entries(products + rest, brand)
         == (if brand != [] then Pairs(brand, products) else []) + Entries(rest, brand)
    decreases |products|
  {
    if products == [] {
      assert products + rest == rest;
    } else {
      var whole, tail := products + rest, products[1..];
      assert whole[1..] == tail + rest;
      EntriesOfProduct(whole, brand);
      ProductRun(brand, tail, rest);
      var first, later := Entries(tail + rest, brand), Entries(rest, brand);
      if brand != [] {
        PairsCons(brand, products);
        assert [Entry(brand, products[0])] + first
            == ([Entry(brand, products[0])] + Pairs(brand, tail)) + later;
      }
    }
  }

  lemma {:induction false} EntriesOfProduct(lines: seq<string>, brand: string)
    requires lines != [] && !IsHeader(lines[0])
    ensures Entries(lines, brand) == (if brand != [] then [Entry(brand, lines[0])] else []) + Entries(lines[1..], brand)
  {
  }

  lemma {:induction false} PairsCons(brand: string, products: seq<string>)
    requires products != []
    ensures Pairs(brand, products) == [Entry(brand, products[0])] + Pairs(brand, products[1..])
  {
    var l, r := Pairs(brand, products), [Entry(brand, products[0])] + Pairs(brand, products[1..]);
    forall j | 0 <= j < |l| ensures l[j] == r[j] {
    }
  }

  /** Without a header there is no brand, so there are no products. */
  lemma {:induction false} NoHeaderNoEntries(lines: seq<string>)
    requires forall k :: 0 <= k < |lines| ==> !IsHeader(lines[k])
    ensures Entries(lines, []) == []
  {
    ProductRun([], lines, []);
    assert lines + [] == lines;
  }

  // ---------------------------------------------------------------------------
  // _get_unique_filename

  /** The `counter`-th name tried: the plain name first, then with "_1", "_2", ... */
  function Candidate(base: string, ext: string, counter: nat): string {
    if counter == 0 then base + ext else base + "_" + NatToDecimal(counter) + ext
  }

  lemma {:induction false} CandidateInjective(base: string, ext: string, i: nat, j: nat)
    requires Candidate(base, ext, i) == Candidate(base, ext, j)
    ensures i == j
  {
    if i != 0 && j != 0 {
      var a := Candidate(base, ext, i);
      var di, dj := NatToDecimal(i), NatToDecimal(j);
      assert |di| == |dj|;
      assert a[|base| + 1..|a| - |ext|] == di;
      assert Candidate(base, ext, j)[|base| + 1..|a| - |ext|] == dj;
      NatToDecimalInjective(i, j);
    }
  }

  /** The names tried before the `n`-th. */
  function Tried(base: string, ext: string, n: nat): set<string> {
    if n == 0 then {} else Tried(base, ext, n - 1) + {Candidate(base, ext, n - 1)}
  }

  lemma {:induction false} NotTriedYet(base: string, ext: string, n: nat, m: nat)
    requires n <= m
    ensures Candidate(base, ext, m) !in Tried(base, ext, n)
  {
    if n > 0 {
      NotTriedYet(base, ext, n - 1, m);
      if Candidate(base, ext, n - 1) == Candidate(base, ext, m) {
        CandidateInjective(base, ext, n - 1, m);
      }
    }
  }

  /** `_get_unique_filename(folder, base_name, extension)`, with `existing`
      the names already in the folder: the first candidate name not taken. */
  method UniqueFilename(existing: set<string>, base: string, ext: string) returns (filename: string)
    ensures filename !in existing
    ensures exists c: nat :: filename == Candidate(base, ext, c) && forall i: nat :: i < c ==> Candidate(base, ext, i) in existing
  {
    var counter := 1;
    filename := base + ext;
    ghost var free := existing;
    while filename in existing
      invariant counter >= 1 && filename == Candidate(base, ext, counter - 1)
      invariant free == existing - Tried(base, ext, counter - 1)
      invariant forall i: nat :: i < counter - 1 ==> Candidate(base, ext, i) in existing
      decreases |free|
    {
      NotTriedYet(base, ext, counter - 1, counter - 1);
      assert filename in free;
      free := free - {filename};
      filename := base + "_" + NatToDecimal(counter) + ext;
      counter := counter + 1;
    }
  }
}
