/** The body of `cerca_prodotto`: the bundles of one search become one product
    record, with the descriptions joined, each distinct image fetched once, and
    statistics over the prices and the millilitre sizes. */
module Aggregator {
  import opened Wrappers
  import opened Text
  import opened PriceText
  import opened Scanners
  import opened SearchNormalizer

  /** What `_get_image_info` reports for an image it could download. The
      download, the image decoding and the saving are not modelled: a call is
      an oracle from (URL, brand, product, index) to a report or `None`. */
  datatype ImageInfo = ImageInfo(url: string, format: string, contentType: string, savedPath: Option<string>)

  type Fetch = (string, string, string, nat) -> Option<ImageInfo>

  /** The record `cerca_prodotto` returns; the Shopify product it also
      creates is not part of it here. */
  datatype ProductRecord = ProductRecord(
    query: string, brand: string, product: string,
    descriptions: seq<string>, fullDescription: string, images: seq<ImageInfo>,
    prices: seq<string>, meanPrice: Option<real>, minPrice: Option<real>, maxPrice: Option<real>,
    formats: seq<string>, commonFormat: Option<nat>, sizes: seq<nat>)

  // ---------------------------------------------------------------------------
  // Brand and product from the query

  /** The brand: the first word of the query, or "unknown". */
  function QueryBrand(query: string): (brand: string)
    ensures IsWord(brand)
  {
    var parts := SplitWords(query);
    if parts != [] then parts[0] else "unknown"
  }

  /** The product: the other words of the query joined by single spaces, or
      "unknown"; either way a non-empty text without surrounding white space. */
  function QueryProduct(query: string): (product: string)
    ensures product != [] && !IsSpace(Python, product[0]) && !IsSpace(Python, product[|product| - 1])
  {
    var parts := SplitWords(query);
    if |parts| > 1 then
      JoinEnds(parts[1..]);
      Join(parts[1..], " ")
    else "unknown"
  }

  /** The brand is the first word of the query, the product is made of the
      words after it, and a query of one word has the placeholder product. */
  lemma {:induction false} QueryParts(query: string)
    ensures SplitWords(query) != [] ==> QueryBrand(query) == SplitWords(query)[0]
    ensures SplitWords(query) == [] ==> QueryBrand(query) == "unknown" && QueryProduct(query) == "unknown"
    ensures |SplitWords(query)| == 1 ==> QueryProduct(query) == "unknown"
    ensures |SplitWords(query)| > 1 ==> SplitWords(QueryProduct(query)) == SplitWords(query)[1..]
  {
    var parts := SplitWords(query);
    if |parts| > 1 {
      SplitWordsOfJoin(parts[1..]);
    }
  }

  /** A query without any word gives the placeholders. */
  lemma {:induction false} BlankQuery(query: string)
    requires forall k :: 0 <= k < |query| ==> IsSpace(Python, query[k])
    ensures QueryBrand(query) == "unknown" && QueryProduct(query) == "unknown"
  {
    assert TrimStart(Python, query) == [];
  }

  // ---------------------------------------------------------------------------
  // Gathering over the bundles

  datatype Field = DescriptionsField | ImagesField | PricesField | FormatsField

  /** What `cerca_prodotto` reads from one bundle: for images, the hit's own
      images followed by the knowledge-graph images. */
  function FieldOf(b: Bundle, field: Field): seq<string> {
    match field
    case DescriptionsField => b.descriptions
    case ImagesField => b.images + b.mainImages
    case PricesField => b.prices
    case FormatsField => b.formats
  }

  /** The field of every bundle, concatenated in bundle order. */
  function Gather(bs: seq<Bundle>, field: Field): seq<string> {
    if bs == [] then [] else Gather(bs[..|bs| - 1], field) + FieldOf(bs[|bs| - 1], field)
  }

  lemma {:induction false} GatherConcat(a: seq<Bundle>, b: seq<Bundle>, field: Field)
    ensures Gather(a + b, field) == Gather(a, field) + Gather(b, field)
    decreases |b|
  {
    if b == [] {
      assert a + b == a;
    } else {
      var init := b[..|b| - 1];
      var last := b[|b| - 1];
      GatherConcat(a, init, field);
      assert b == init + [last];
      GatherConcatStep(a, init, last, field);
    }
  }

  lemma {:induction false} GatherConcatStep(a: seq<Bundle>, init: seq<Bundle>, last: Bundle, field: Field)
    requires Gather(a + init, field) == Gather(a, field) + Gather(init, field)
    ensures Gather(a + (init + [last]), field) == Gather(a, field) + Gather(init + [last], field)
  {
    var front, back, tail := Gather(a, field), Gather(init, field), FieldOf(last, field);
    var joined := a + init;
    var longer := init + [last];
    assert Gather(longer, field) == back + tail by {
      GatherSnoc(init, last, field);
    }
    assert Gather(a + longer, field) == (front + back) + tail by {
      assert a + longer == joined + [last];
      GatherSnoc(joined, last, field);
    }
    assert (front + back) + tail == front + (back + tail);
  }

  lemma {:induction false} GatherSnoc(bs: seq<Bundle>, last: Bundle, field: Field)
    ensures Gather(bs + [last], field) == Gather(bs, field) + FieldOf(last, field)
  {
    var longer := bs + [last];
    assert longer[..|longer| - 1] == bs;
  }

  /** A string is gathered exactly when some bundle holds it in that field. */
  lemma {:induction false} GatherMembers(bs: seq<Bundle>, field: Field)
    ensures forall x :: x in Gather(bs, field) <==> exists k :: 0 <= k < |bs| && x in FieldOf(bs[k], field)
  {
    if bs != [] {
      var init := bs[..|bs| - 1];
      GatherMembers(init, field);
      forall x
        ensures x in Gather(bs, field) <==> exists k :: 0 <= k < |bs| && x in FieldOf(bs[k], field)
      {
        if exists k :: 0 <= k < |bs| && x in FieldOf(bs[k], field) {
          var k :| 0 <= k < |bs| && x in FieldOf(bs[k], field);
          if k < |init| {
            assert init[k] == bs[k];
          }
        }
        if exists k :: 0 <= k < |init| && x in FieldOf(init[k], field) {
          var k :| 0 <= k < |init| && x in FieldOf(init[k], field);
          assert bs[k] == init[k];
        }
      }
    }
  }

  /** Adding a description puts it after a single space. */
  lemma {:induction false} JoinAppend(ds: seq<string>, d: string)
    ensures Join(ds + [d], " ") == if ds == [] then d else Join(ds, " ") + " " + d
    decreases |ds|
  {
    if |ds| > 1 {
      assert (ds + [d])[1..] == ds[1..] + [d];
      JoinAppend(ds[1..], d);
    } else if |ds| == 1 {
      assert (ds + [d])[1..] == [d];
    }
  }

  // ---------------------------------------------------------------------------
  // Fetching the images

  /** The reports of fetching `urls` in order, numbered from 1; a failed fetch
      adds nothing. */
  function FetchAll(fetch: Fetch, brand: string, product: string, urls: seq<string>): seq<ImageInfo> {
    if urls == [] then []
    else
      var n := |urls|;
      FetchAll(fetch, brand, product, urls[..n - 1])
      + (match fetch(urls[n - 1], brand, product, n) case Some(info) => [info] case None => [])
  }

  lemma {:induction false} FetchAllLength(fetch: Fetch, brand: string, product: string, urls: seq<string>)
    ensures |FetchAll(fetch, brand, product, urls)| <= |urls|
    ensures (forall k :: 0 <= k < |urls| ==> fetch(urls[k], brand, product, k + 1).Some?) ==>
      |FetchAll(fetch, brand, product, urls)| == |urls|
  {
    if urls != [] {
      var init := urls[..|urls| - 1];
      FetchAllLength(fetch, brand, product, init);
      assert forall k :: 0 <= k < |init| ==> init[k] == urls[k];
    }
  }

  // ---------------------------------------------------------------------------
  // Numbers read from prices and formats

  /** The amounts of the price strings that hold a number, in order. */
  function PriceAmounts(prices: seq<string>): seq<real> {
    if prices == [] then []
    else
      var p := prices[|prices| - 1];
      PriceAmounts(prices[..|prices| - 1]) + (if AggregatorPrice(p).Some? then [AggregatorPrice(p).value] else [])
  }

  /** The sizes of the format strings that hold "<digits> ml", in order. */
  function FormatSizes(formats: seq<string>): seq<nat> {
    if formats == [] then []
    else
      var f := formats[|formats| - 1];
      FormatSizes(formats[..|formats| - 1]) + (if SizeOfFormat(f).Some? then [SizeOfFormat(f).value] else [])
  }

  /** No amount is read exactly when no price string holds a digit. */
  lemma {:induction false} PriceAmountsEmpty(prices: seq<string>)
    ensures PriceAmounts(prices) == [] <==> forall k :: 0 <= k < |prices| ==> !HasDigit(prices[k])
    ensures |PriceAmounts(prices)| <= |prices|
  {
    if prices != [] {
      var init, last := prices[..|prices| - 1], prices[|prices| - 1];
      assert forall k :: 0 <= k < |init| ==> init[k] == prices[k];
      assert prices == init + [last];
      PriceAmountsEmpty(init);
      AggregatorPriceDefined(last);
    }
  }

  lemma {:induction false} PriceAmountsNonNegative(prices: seq<string>)
    ensures forall k :: 0 <= k < |PriceAmounts(prices)| ==> PriceAmounts(prices)[k] >= 0.0
  {
    if prices != [] {
      var init := prices[..|prices| - 1];
      PriceAmountsNonNegative(init);
      assert forall k :: 0 <= k < |PriceAmounts(init)| ==> PriceAmounts(prices)[k] == PriceAmounts(init)[k];
    }
  }

  // ---------------------------------------------------------------------------
  // Statistics

  function Sum(xs: seq<real>): real {
    if xs == [] then 0.0 else Sum(xs[..|xs| - 1]) + xs[|xs| - 1]
  }

  /** `min(xs)` */
  function Min(xs: seq<real>): (m: real)
    requires xs != []
    ensures m in xs && forall k :: 0 <= k < |xs| ==> m <= xs[k]
  {
    if |xs| == 1 then xs[0]
    else
      var m := Min(xs[..|xs| - 1]);
      assert forall k :: 0 <= k < |xs| - 1 ==> xs[..|xs| - 1][k] == xs[k];
      if xs[|xs| - 1] < m then xs[|xs| - 1] else m
  }

  /** `max(xs)` */
  function Max(xs: seq<real>): (m: real)
    requires xs != []
    ensures m in xs && forall k :: 0 <= k < |xs| ==> xs[k] <= m
  {
    if |xs| == 1 then xs[0]
    else
      var m := Max(xs[..|xs| - 1]);
      assert forall k :: 0 <= k < |xs| - 1 ==> xs[..|xs| - 1][k] == xs[k];
      if xs[|xs| - 1] > m then xs[|xs| - 1] else m
  }

  /** `statistics.mean(xs)`, computed exactly. */
  function Mean(xs: seq<real>): (m: real)
    requires xs != []
    ensures Min(xs) <= m <= Max(xs)
  {
    SumAtLeast(xs, Min(xs));
    SumAtMost(xs, Max(xs));
    QuotientBetween(Sum(xs), |xs| as real, Min(xs), Max(xs));
    Sum(xs) / |xs| as real
  }

  function MeanOf(xs: seq<real>): Option<real> { if xs == [] then None else Some(Mean(xs)) }

  function MinOf(xs: seq<real>): Option<real> { if xs == [] then None else Some(Min(xs)) }

  function MaxOf(xs: seq<real>): Option<real> { if xs == [] then None else Some(Max(xs)) }

  lemma {:induction false} SumAtLeast(xs: seq<real>, m: real)
    requires forall k :: 0 <= k < |xs| ==> m <= xs[k]
    ensures |xs| as real * m <= Sum(xs)
  {
    if xs != [] {
      var init := xs[..|xs| - 1];
      assert forall k :: 0 <= k < |init| ==> init[k] == xs[k];
      SumAtLeast(init, m);
    }
  }

  lemma {:induction false} SumAtMost(xs: seq<real>, m: real)
    requires forall k :: 0 <= k < |xs| ==> xs[k] <= m
    ensures Sum(xs) <= |xs| as real * m
  {
    if xs != [] {
      var init := xs[..|xs| - 1];
      assert forall k :: 0 <= k < |init| ==> init[k] == xs[k];
      SumAtMost(init, m);
    }
  }

  lemma {:induction false} QuotientBetween(s: real, n: real, lo: real, hi: real)
    requires n > 0.0 && n * lo <= s <= n * hi
    ensures lo <= s / n <= hi
  {
    assert (s / n) * n == s;
  }

  /** One value is its own mean, minimum and maximum. */
  lemma {:induction false} SingleValueStats(x: real)
    ensures Mean([x]) == Min([x]) == Max([x]) == x
  {
    assert [x][..0] == [];
    assert Sum([x]) == x;
  }

  // ---------------------------------------------------------------------------
  // The most common size: statistics.mode

  function Count(xs: seq<nat>, x: nat): nat {
    if xs == [] then 0 else (if xs[0] == x then 1 else 0) + Count(xs[1..], x)
  }

  /** The position of the first `x` in `xs`. */
  function Position(xs: seq<nat>, x: nat): (i: nat)
    requires x in xs
    ensures i < |xs| && xs[i] == x && forall j :: 0 <= j < i ==> xs[j] != x
  {
    if xs[0] == x then 0 else Position(xs[1..], x) + 1
  }

  /** Scanning from position `k`, keep the first value with the highest count. */
  function MostCommonFrom(xs: seq<nat>, k: nat, best: nat): nat
    requires k <= |xs|
    decreases |xs| - k
  {
    if k == |xs| then best
    else MostCommonFrom(xs, k + 1, if Count(xs, xs[k]) > Count(xs, best) then xs[k] else best)
  }

  /** `statistics.mode(xs)`: a value of the list that no value occurs more
      often than, and every value seen before its first occurrence occurs
      strictly less often, so among equally common values the first seen wins. */
  function Mode(xs: seq<nat>): (m: nat)
    requires xs != []
    ensures m in xs
    ensures forall j :: 0 <= j < |xs| ==> Count(xs, xs[j]) <= Count(xs, m)
    ensures forall j :: 0 <= j < Position(xs, m) ==> Count(xs, xs[j]) < Count(xs, m)
  {
    assert xs[..1] == [xs[0]];
    MostCommonFromIsFirstMostCommon(xs, 1, xs[0]);
    MostCommonFrom(xs, 1, xs[0])
  }

  function ModeOf(xs: seq<nat>): Option<nat> { if xs == [] then None else Some(Mode(xs)) }

  lemma {:induction false} MostCommonFromIsFirstMostCommon(xs: seq<nat>, k: nat, best: nat)
    requires 1 <= k <= |xs| && best in xs[..k]
    requires forall j :: 0 <= j < k ==> Count(xs, xs[j]) <= Count(xs, best)
    requires forall j :: 0 <= j < Position(xs, best) ==> Count(xs, xs[j]) < Count(xs, best)
    ensures MostCommonFrom(xs, k, best) in xs
    ensures forall j :: 0 <= j < |xs| ==> Count(xs, xs[j]) <= Count(xs, MostCommonFrom(xs, k, best))
    ensures forall j :: 0 <= j < Position(xs, MostCommonFrom(xs, k, best)) ==>
      Count(xs, xs[j]) < Count(xs, MostCommonFrom(xs, k, best))
    decreases |xs| - k
  {
    if k < |xs| {
      assert xs[..k + 1] == xs[..k] + [xs[k]];
      if Count(xs, xs[k]) > Count(xs, best) {
        assert Position(xs, xs[k]) <= k;
      }
      var next := if Count(xs, xs[k]) > Count(xs, best) then xs[k] else best;
      MostCommonFromIsFirstMostCommon(xs, k + 1, next);
    } else {
      assert xs[..k] == xs;
    }
  }

  /** A tie goes to the value seen first. */
  lemma {:induction false} ModeTie()
    ensures Mode([50, 100, 100, 50]) == 50
  {
    var xs: seq<nat> := [50, 100, 100, 50];
    assert Count(xs, 50) == 2 && Count(xs, 100) == 2;
  }

  // ---------------------------------------------------------------------------
  // cerca_prodotto

  /** `cerca_prodotto(query)` given the bundles of the search and the image
      oracle. `requested` lists the image URLs handed to the oracle, in order. */
  method SearchProduct(query: string, results: seq<Bundle>, fetch: Fetch)
    returns (record: Option<ProductRecord>, requested: seq<string>)
    ensures results == [] <==> record.None?
    ensures NoDups(requested)
    ensures forall u :: u in requested <==> u in Gather(results, ImagesField)
    ensures record.Some? ==>
      && record.value.query == query
      && record.value.brand == QueryBrand(query)
      && record.value.product == QueryProduct(query)
      && record.value.descriptions == Gather(results, DescriptionsField)
      && record.value.fullDescription == Join(Gather(results, DescriptionsField), " ")
      && record.value.images == FetchAll(fetch, QueryBrand(query), QueryProduct(query), requested)
      && record.value.prices == Gather(results, PricesField)
      && record.value.meanPrice == MeanOf(PriceAmounts(Gather(results, PricesField)))
      && record.value.minPrice == MinOf(PriceAmounts(Gather(results, PricesField)))
      && record.value.maxPrice == MaxOf(PriceAmounts(Gather(results, PricesField)))
      && record.value.formats == Gather(results, FormatsField)
      && record.value.sizes == FormatSizes(Gather(results, FormatsField))
      && record.value.commonFormat == ModeOf(FormatSizes(Gather(results, FormatsField)))
  {
    if results == [] {
      return None, [];
    }
    var parts := SplitWords(query);
    var brand := if parts != [] then parts[0] else "unknown";
    var product := if |parts| > 1 then Join(parts[1..], " ") else "unknown";

    var descriptions := GatherField(results, DescriptionsField);
    var images := GatherField(results, ImagesField);

    requested := Distinct(images);
    var infos := FetchImages(fetch, brand, product, requested);

    var prices := GatherField(results, PricesField);
    var formats := GatherField(results, FormatsField);
    var amounts := ReadAmounts(prices);
    var sizes := ReadSizes(formats);

    var full := Join(descriptions, " ");
    record := Some(ProductRecord(query, brand, product, descriptions, full, infos, prices,
                                 MeanOf(amounts), MinOf(amounts), MaxOf(amounts),
                                 formats, ModeOf(sizes), sizes));
  }

  /** One of the gathering loops of `cerca_prodotto`. */
  method GatherField(results: seq<Bundle>, field: Field) returns (gathered: seq<string>)
    ensures gathered == Gather(results, field)
  {
    gathered := [];
    for i := 0 to |results|
      invariant gathered == Gather(results[..i], field)
    {
      assert results[..i + 1][..i] == results[..i];
      gathered := gathered + FieldOf(results[i], field);
    }
    assert results[..|results|] == results;
  }

  /** The loop over the distinct image URLs, numbered from 1. */
  method FetchImages(fetch: Fetch, brand: string, product: string, urls: seq<string>) returns (infos: seq<ImageInfo>)
    ensures infos == FetchAll(fetch, brand, product, urls)
  {
    infos := [];
    for i := 0 to |urls|
      invariant infos == FetchAll(fetch, brand, product, urls[..i])
    {
      assert urls[..i + 1][..i] == urls[..i];
      var info := fetch(urls[i], brand, product, i + 1);
      if info.Some? {
        infos := infos + [info.value];
      }
    }
    assert urls[..|urls|] == urls;
  }

  /** The loop that reads an amount from each price string. */
  method ReadAmounts(prices: seq<string>) returns (amounts: seq<real>)
    ensures amounts == PriceAmounts(prices)
  {
    amounts := [];
    for i := 0 to |prices|
      invariant amounts == PriceAmounts(prices[..i])
    {
      assert prices[..i + 1][..i] == prices[..i] && prices[..i + 1][i] == prices[i];
      var amount := AggregatorPrice(prices[i]);
      if amount.Some? {
        amounts := amounts + [amount.value];
      }
    }
    assert prices[..|prices|] == prices;
  }

  /** The loop that reads a size from each format string. */
  method ReadSizes(formats: seq<string>) returns (sizes: seq<nat>)
    ensures sizes == FormatSizes(formats)
  {
    sizes := [];
    for i := 0 to |formats|
      invariant sizes == FormatSizes(formats[..i])
    {
      assert formats[..i + 1][..i] == formats[..i];
      var size := SizeOfFormat(formats[i]);
      if size.Some? {
        sizes := sizes + [size.value];
      }
    }
    assert formats[..|formats|] == formats;
  }
}
