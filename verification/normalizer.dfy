/** The step of `cerca_google_serpapi` that follows the HTTP call: the decoded
    SerpAPI response becomes one bundle of texts per organic result. */
module SearchNormalizer {
  import opened Wrappers
  import opened Text
  import opened Scanners

  // ---------------------------------------------------------------------------
  // The response, as far as the normaliser reads it. A key that is absent is
  // `None`; every value read is a string (numbers in `detected_extensions` are
  // taken as the text they print as).

  /** `detected_extensions` of one part of a rich snippet. */
  datatype Detected = Detected(price: Option<string>, originalPrice: Option<string>, currency: Option<string>)

  /** The "top" or "bottom" part of a rich snippet; an absent part reads as
      `RichPart(Detected(None, None, None), [])`, which is what the source's
      `.get(pos, {})` defaults give. */
  datatype RichPart = RichPart(detected: Detected, extensions: seq<string>)

  datatype RichSnippet = RichSnippet(top: RichPart, bottom: RichPart)

  datatype OrganicResult = OrganicResult(
    title: Option<string>, snippet: Option<string>, thumbnail: Option<string>,
    description: Option<string>, name: Option<string>, rich: RichSnippet)

  datatype KnowledgeGraph = KnowledgeGraph(description: Option<string>, thumbnails: Option<seq<string>>)

  datatype Response = Response(organicResults: Option<seq<OrganicResult>>, knowledgeGraph: Option<KnowledgeGraph>)

  /** One entry of the list `cerca_google_serpapi` returns:
      titolo, descrizioni, prezzi, formati, immagini, main_images. */
  datatype Bundle = Bundle(
    title: string, descriptions: seq<string>, prices: seq<string>, formats: seq<string>,
    images: seq<string>, mainImages: seq<string>)

  // ---------------------------------------------------------------------------
  // What each bundle is made of

  function OrganicResults(response: Response): seq<OrganicResult> {
    response.organicResults.GetOr([])
  }

  /** The knowledge-graph description, when the graph has one. */
  function MainDescription(response: Response): Option<string> {
    if response.knowledgeGraph.Some? then response.knowledgeGraph.value.description else None
  }

  /** The knowledge-graph thumbnails, or none. */
  function MainImages(response: Response): seq<string> {
    if response.knowledgeGraph.Some? && response.knowledgeGraph.value.thumbnails.Some?
    then response.knowledgeGraph.value.thumbnails.value
    else []
  }

  function Title(r: OrganicResult): string { r.title.GetOr("") }

  function Snippet(r: OrganicResult): string { r.snippet.GetOr("") }

  function FieldList(field: Option<string>): seq<string> {
    if field.Some? then [field.value] else []
  }

  /** The descriptions collected for one hit before the empty ones are dropped:
      snippet, title, the knowledge-graph description when it is non-empty,
      then the `description` and `name` fields when present. */
  function DescriptionCandidates(main: Option<string>, r: OrganicResult): seq<string> {
    [Snippet(r), Title(r)] + (if main.Some? && main.value != [] then [main.value] else [])
    + FieldList(r.description) + FieldList(r.name)
  }

  /** `[d for d in ds if d]` */
  function NonEmpty(ds: seq<string>): seq<string> {
    if ds == [] then [] else (if ds[0] != [] then [ds[0]] else []) + NonEmpty(ds[1..])
  }

  /** The price strings one part of a rich snippet contributes, in the order
      the source appends them. */
  function DetectedPrices(d: Detected): seq<string> {
    (if d.price.Some? then [d.price.value + " €"] else [])
    + (if d.originalPrice.Some? then [d.originalPrice.value + " €"] else [])
    + (if d.currency.Some? && d.price.Some? then [d.price.value + " " + d.currency.value] else [])
  }

  /** The price strings of the first parts in `parts`. */
  function DetectedPricesIn(parts: seq<RichPart>): seq<string> {
    if parts == [] then [] else DetectedPricesIn(parts[..|parts| - 1]) + DetectedPrices(parts[|parts| - 1].detected)
  }

  /** The extension strings that carry a euro sign. */
  function ExtensionPrices(exts: seq<string>): seq<string> {
    if exts == [] then []
    else
      var e := exts[|exts| - 1];
      ExtensionPrices(exts[..|exts| - 1]) + (if '€' in e then [e] else [])
  }

  /** The formats found in the extension strings that mention "ml" in any case. */
  function ExtensionFormats(exts: seq<string>): seq<string> {
    if exts == [] then []
    else
      var e := exts[|exts| - 1];
      ExtensionFormats(exts[..|exts| - 1]) + (if Contains(Lower(e), "ml") then FormatsIn(e) else [])
  }

  function FieldFormats(field: Option<string>): seq<string> {
    if field.Some? then FormatsIn(field.value) else []
  }

  function Extensions(r: OrganicResult): seq<string> {
    r.rich.top.extensions + r.rich.bottom.extensions
  }

  /** Every price string collected for one hit, repetitions included. */
  function PriceCandidates(r: OrganicResult): seq<string> {
    FindAll(EuroPrice, Snippet(r)) + DetectedPricesIn([r.rich.top, r.rich.bottom]) + ExtensionPrices(Extensions(r))
  }

  /** Every format string collected for one hit, repetitions included. */
  function FormatCandidates(r: OrganicResult): seq<string> {
    FindAll(MlFormat(2, 3), Snippet(r)) + FormatsIn(Snippet(r)) + FormatsIn(Title(r))
    + ExtensionFormats(Extensions(r)) + FieldFormats(r.description) + FieldFormats(r.name)
  }

  function Images(r: OrganicResult): seq<string> { FieldList(r.thumbnail) }

  /** `b` is the bundle the source builds for hit `r`: prices and formats are
      the collected strings without repetitions, in no particular order, and
      the knowledge-graph images are attached only to a hit without a thumbnail. */
  ghost predicate IsBundleOf(b: Bundle, main: Option<string>, mainImages: seq<string>, r: OrganicResult) {
    && b.title == Title(r)
    && b.descriptions == NonEmpty(DescriptionCandidates(main, r))
    && NoDups(b.prices) && (forall x :: x in b.prices <==> x in PriceCandidates(r))
    && NoDups(b.formats) && (forall x :: x in b.formats <==> x in FormatCandidates(r))
    && b.images == Images(r)
    && b.mainImages == (if Images(r) == [] then mainImages else [])
  }

  // ---------------------------------------------------------------------------
  // The normaliser

  /** `cerca_google_serpapi` from the decoded response on: one bundle per
      organic result, in order. */
  method Normalize(response: Response) returns (bundles: seq<Bundle>)
    ensures |bundles| == |OrganicResults(response)|
    ensures forall i :: 0 <= i < |bundles| ==>
      IsBundleOf(bundles[i], MainDescription(response), MainImages(response), OrganicResults(response)[i])
  {
    var main := MainDescription(response);
    var mainImages := MainImages(response);
    var results := OrganicResults(response);
    bundles := [];
    for i := 0 to |results|
      invariant |bundles| == i
      invariant forall k :: 0 <= k < i ==> IsBundleOf(bundles[k], main, mainImages, results[k])
    {
      var b := NormalizeHit(main, mainImages, results[i]);
      ghost var before := bundles;
      bundles := bundles + [b];
      assert bundles[i] == b;
      assert forall k :: 0 <= k < i ==> bundles[k] == before[k];
    }
  }

  /** The body of the loop over organic results. */
  method NormalizeHit(main: Option<string>, mainImages: seq<string>, r: OrganicResult) returns (b: Bundle)
    ensures IsBundleOf(b, main, mainImages, r)
  {
    var descriptions := CollectDescriptions(main, r);
    var images: seq<string> := [];
    if r.thumbnail.Some? {
      images := images + [r.thumbnail.value];
    }
    var prices := CollectPrices(r);
    var formats := CollectFormats(r);
    var distinctPrices := Distinct(prices);
    var distinctFormats := Distinct(formats);
    b := Bundle(r.title.GetOr(""), NonEmpty(descriptions), distinctPrices, distinctFormats, images,
                if images == [] then mainImages else []);
  }

  /** The descriptions of one hit, before the empty ones are dropped. */
  method CollectDescriptions(main: Option<string>, r: OrganicResult) returns (descriptions: seq<string>)
    ensures descriptions == DescriptionCandidates(main, r)
  {
    descriptions := [r.snippet.GetOr(""), r.title.GetOr("")];
    if main.Some? && main.value != [] {
      descriptions := descriptions + [main.value];
    }
    ghost var head := descriptions;
    if r.description.Some? {
      descriptions := descriptions + [r.description.value];
    }
    assert descriptions == head + FieldList(r.description);
    if r.name.Some? {
      descriptions := descriptions + [r.name.value];
    }
  }

  /** The price strings of one hit, in the order the source appends them. */
  method CollectPrices(r: OrganicResult) returns (prices: seq<string>)
    ensures prices == PriceCandidates(r)
  {
    var found := ExtractPriceAndFormat(Snippet(r));
    var snippetPrices := found.0;
    prices := snippetPrices;
    var parts := [r.rich.top, r.rich.bottom];
    for k := 0 to |parts|
      invariant prices == snippetPrices + DetectedPricesIn(parts[..k])
    {
      var added := DetectedPriceTexts(parts[k].detected);
      DetectedPricesInSnoc(parts, k);
      prices := prices + added;
    }
    assert parts[..|parts|] == parts;
    var detected := DetectedPricesIn(parts);
    assert prices == snippetPrices + detected;
    var added := ExtensionPriceTexts(Extensions(r));
    prices := prices + added;
  }

  lemma {:induction false} DetectedPricesInSnoc(parts: seq<RichPart>, k: nat)
    requires k < |parts|
    ensures DetectedPricesIn(parts[..k + 1]) == DetectedPricesIn(parts[..k]) + DetectedPrices(parts[k].detected)
  {
    var prefix := parts[..k + 1];
    assert prefix[..k] == parts[..k];
    assert prefix[k] == parts[k];
  }

  /** The extension strings that carry a euro sign, in order. */
  method ExtensionPriceTexts(exts: seq<string>) returns (added: seq<string>)
    ensures added == ExtensionPrices(exts)
  {
    added := [];
    for i := 0 to |exts|
      invariant added == ExtensionPrices(exts[..i])
    {
      var e := exts[i];
      assert exts[..i + 1][..i] == exts[..i];
      if '€' in e {
        added := added + [e];
      }
    }
    assert exts[..|exts|] == exts;
  }

  /** The strings one `detected_extensions` entry adds to the prices. */
  method DetectedPriceTexts(d: Detected) returns (added: seq<string>)
    ensures added == DetectedPrices(d)
  {
    added := [];
    if d.price.Some? {
      added := added + [d.price.value + " €"];
    }
    if d.originalPrice.Some? {
      added := added + [d.originalPrice.value + " €"];
    }
    if d.currency.Some? && d.price.Some? {
      added := added + [d.price.value + " " + d.currency.value];
    }
  }

  /** The format strings of one hit: the same strings as the source collects,
      since each call of `estrai_formati_ml` returns its own formats in no
      particular order. */
  method CollectFormats(r: OrganicResult) returns (formats: seq<string>)
    ensures forall f :: f in formats <==> f in FormatCandidates(r)
  {
    var title := r.title.GetOr("");
    var snippet := r.snippet.GetOr("");
    var (_, snippetFormats) := ExtractPriceAndFormat(snippet);
    var more := ExtractFormats([snippet, title]);
    SnippetAndTitleFormats(snippet, title, more);
    var fromExtensions := ExtensionFormatTexts(r.rich.top.extensions + r.rich.bottom.extensions);
    var fromDescription := FieldFormatTexts(r.description);
    var fromName := FieldFormatTexts(r.name);
    formats := snippetFormats + more + fromExtensions + fromDescription + fromName;
  }

  /** The formats of the extension strings that mention "ml". */
  method ExtensionFormatTexts(exts: seq<string>) returns (formats: seq<string>)
    ensures forall f :: f in formats <==> f in ExtensionFormats(exts)
  {
    formats := [];
    for i := 0 to |exts|
      invariant forall f :: f in formats <==> f in ExtensionFormats(exts[..i])
    {
      var e := exts[i];
      assert exts[..i + 1][..i] == exts[..i];
      if Contains(Lower(e), "ml") {
        var found := ExtractFormats([e]);
        OneTextFormats(e, found);
        formats := formats + found;
      }
    }
    assert exts[..|exts|] == exts;
  }

  /** The formats of a `description` or `name` field, when present. */
  method FieldFormatTexts(field: Option<string>) returns (formats: seq<string>)
    ensures forall f :: f in formats <==> f in FieldFormats(field)
  {
    formats := [];
    if field.Some? {
      formats := ExtractFormats([field.value]);
      OneTextFormats(field.value, formats);
    }
  }

  /** What `estrai_formati_ml(snippet, title)` contributes. */
  lemma {:induction false} SnippetAndTitleFormats(snippet: string, title: string, found: seq<string>)
    requires forall f :: f in found <==> exists k :: 0 <= k < |[snippet, title]| && f in FormatsIn([snippet, title][k])
    ensures forall f :: f in found <==> f in FormatsIn(snippet) + FormatsIn(title)
  {
    forall f
      ensures f in found <==> f in FormatsIn(snippet) + FormatsIn(title)
    {
      if f in FormatsIn(snippet) {
        assert [snippet, title][0] == snippet;
      }
      if f in FormatsIn(title) {
        assert [snippet, title][1] == title;
      }
    }
  }

  /** What `estrai_formati_ml(text)` contributes. */
  lemma {:induction false} OneTextFormats(text: string, found: seq<string>)
    requires forall f :: f in found <==> exists k :: 0 <= k < |[text]| && f in FormatsIn([text][k])
    ensures forall f :: f in found <==> f in FormatsIn(text)
  {
    forall f
      ensures f in found <==> f in FormatsIn(text)
    {
      if f in FormatsIn(text) {
        assert [text][0] == text;
      }
    }
  }

  // ---------------------------------------------------------------------------
  // Properties

  /** Dropping the empty descriptions keeps every other one, in order. */
  lemma {:induction false} NonEmptyMembers(ds: seq<string>)
    ensures forall d :: d in NonEmpty(ds) <==> d in ds && d != []
    ensures |NonEmpty(ds)| <= |ds|
  {
    if ds != [] {
      NonEmptyMembers(ds[1..]);
      assert ds == [ds[0]] + ds[1..];
    }
  }

  lemma {:induction false} NonEmptyConcat(a: seq<string>, b: seq<string>)
    ensures NonEmpty(a + b) == NonEmpty(a) + NonEmpty(b)
  {
    if a != [] {
      assert (a + b)[1..] == a[1..] + b;
      NonEmptyConcat(a[1..], b);
    } else {
      assert a + b == b;
    }
  }

  /** When every field is present and non-empty, the descriptions are snippet,
      title, knowledge-graph description, `description` and `name`, in that order. */
  lemma {:induction false} DescriptionsInOrder(main: string, r: OrganicResult)
    requires r.snippet.Some? && r.title.Some? && r.description.Some? && r.name.Some?
    requires r.snippet.value != [] && r.title.value != [] && main != []
    requires r.description.value != [] && r.name.value != []
    ensures NonEmpty(DescriptionCandidates(Some(main), r))
         == [r.snippet.value, r.title.value, main, r.description.value, r.name.value]
  {
    var ds := DescriptionCandidates(Some(main), r);
    assert ds == [r.snippet.value, r.title.value, main, r.description.value, r.name.value];
    NonEmptyOfNonEmpty(ds);
  }

  /** A list without empty strings is kept whole. */
  lemma {:induction false} NonEmptyOfNonEmpty(ds: seq<string>)
    requires forall k :: 0 <= k < |ds| ==> ds[k] != []
    ensures NonEmpty(ds) == ds
  {
    if ds != [] {
      NonEmptyOfNonEmpty(ds[1..]);
    }
  }

  /** A hit without a snippet or title keeps neither among its descriptions. */
  lemma {:induction false} DescriptionsSkipEmpty(main: Option<string>, r: OrganicResult)
    requires r.snippet.None? && r.title.None?
    ensures NonEmpty(DescriptionCandidates(main, r))
         == NonEmpty((if main.Some? && main.value != [] then [main.value] else []) + FieldList(r.description) + FieldList(r.name))
  {
    var rest := (if main.Some? && main.value != [] then [main.value] else []) + FieldList(r.description) + FieldList(r.name);
    assert DescriptionCandidates(main, r) == ["", ""] + rest;
    NonEmptyConcat(["", ""], rest);
  }

  lemma {:induction false} ExtensionPricesMembers(exts: seq<string>)
    ensures forall x :: x in ExtensionPrices(exts) <==> x in exts && '€' in x
  {
    if exts != [] {
      ExtensionPricesMembers(exts[..|exts| - 1]);
      assert exts == exts[..|exts| - 1] + [exts[|exts| - 1]];
    }
  }

  lemma {:induction false} ExtensionFormatsMembers(exts: seq<string>)
    ensures forall f :: f in ExtensionFormats(exts) <==>
      exists e :: e in exts && Contains(Lower(e), "ml") && f in FormatsIn(e)
  {
    if exts != [] {
      var init, last := exts[..|exts| - 1], exts[|exts| - 1];
      ExtensionFormatsMembers(init);
      assert exts == init + [last];
      assert forall e :: e in exts <==> e in init || e == last;
    }
  }

  /** Where the price strings of a hit come from: the "NN,NN €" texts of the
      snippet, "{price} €", "{original_price} €" and "{price} {currency}" of
      either part of the rich snippet, and the extension strings with a euro sign. */
  lemma {:induction false} PriceSources(r: OrganicResult)
    ensures forall x :: x in PriceCandidates(r) <==>
      || x in FindAll(EuroPrice, Snippet(r))
      || x in DetectedPrices(r.rich.top.detected) || x in DetectedPrices(r.rich.bottom.detected)
      || (x in Extensions(r) && '€' in x)
  {
    var parts := [r.rich.top, r.rich.bottom];
    assert DetectedPricesIn([r.rich.top]) == DetectedPrices(r.rich.top.detected) by {
      assert [r.rich.top][..0] == [];
    }
    assert parts[..|parts| - 1] == [r.rich.top];
    assert DetectedPricesIn(parts) == DetectedPrices(r.rich.top.detected) + DetectedPrices(r.rich.bottom.detected);
    ExtensionPricesMembers(Extensions(r));
  }

  /** A price the rich snippet detects is listed with a euro sign, and with its
      currency too when one is given. */
  lemma {:induction false} DetectedPriceListed(d: Detected)
    requires d.price.Some?
    ensures d.price.value + " €" in DetectedPrices(d)
    ensures d.currency.Some? ==> d.price.value + " " + d.currency.value in DetectedPrices(d)
    ensures d.originalPrice.Some? ==> d.originalPrice.value + " €" in DetectedPrices(d)
  {
  }

  /** An original price is listed even without a current price, and a currency
      without a price adds nothing. */
  lemma {:induction false} OriginalPriceAlone(o: string, c: Option<string>)
    ensures DetectedPrices(Detected(None, Some(o), c)) == [o + " €"]
  {
  }

  /** Where the format strings of a hit come from: the 2-3 digit formats of the
      snippet, the 1-4 digit formats of the snippet, the title, the extension
      strings that mention "ml", and the `description` and `name` fields. */
  lemma {:induction false} FormatSources(r: OrganicResult)
    ensures forall f :: f in FormatCandidates(r) <==>
      || f in FindAll(MlFormat(2, 3), Snippet(r)) || f in FormatsIn(Snippet(r)) || f in FormatsIn(Title(r))
      || (exists e :: e in Extensions(r) && Contains(Lower(e), "ml") && f in FormatsIn(e))
      || f in FieldFormats(r.description) || f in FieldFormats(r.name)
  {
    ExtensionFormatsMembers(Extensions(r));
  }

  /** A hit with its own thumbnail carries no knowledge-graph images. */
  lemma {:induction false} ThumbnailHidesMainImages(b: Bundle, main: Option<string>, mainImages: seq<string>, r: OrganicResult)
    requires IsBundleOf(b, main, mainImages, r) && r.thumbnail.Some?
    ensures b.images == [r.thumbnail.value] && b.mainImages == []
  {
  }
}
