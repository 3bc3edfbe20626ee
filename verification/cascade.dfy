/** `_extract_dynamic_variants`: the variants of a product page, found by a
    cascade of three phases. First the data-* variant selectors, each element
    activated and priced with the data-* price selectors; then, if none of them
    gave a variant, the site's variant selectors with the site's price
    selectors; and, if still nothing, every element matched by a price
    selector whose text mentions "ml".

    The browser is an oracle: what each selector matches, what each element's
    text is, whether activating an element works, and what each price
    selector shows after an element has been activated. A call that raises
    in the browser is a `None`, `Failure` or `false` answer of the oracle. */
module Cascade {
  import opened Wrappers
  import opened Text
  import opened SiteConfig

  /** What `Price.fromstring` returns; the amount is stored even when it is `None`. */
  datatype Price = Price(amount: Option<real>, currency: Option<string>)

  /** `Price.fromstring`, which the model does not look into; `None` when it raises. */
  type PriceParser = string -> Option<Price>

  /** What waiting for a visible price selector gives after an element was activated. */
  datatype Probe =
    | Timeout          // Playwright's TimeoutError: the next price selector is tried
    | Failure          // any other error, also from reading the text: the element is given up
    | Missing          // the wait returned no element
    | Shown(text: string)

  datatype Page = Page(
    loads: bool,                              // goto and the first waits succeed
    elements: string -> Option<seq<nat>>,     // query_selector_all; None when it raises
    text: nat -> Option<string>,              // text_content of an element; None when it raises
    activates: (nat, string) -> bool,         // scrolling, clicking or selecting and waiting succeed
    appears: string -> bool,                  // wait_for_selector of a site variant selector succeeds
    probe: (nat, string) -> Probe)            // a price selector after activating an element

  /** One entry of the returned list: size, price and currency. */
  datatype Variant = Variant(size: string, amount: Option<real>, currency: Option<string>)

  /** A selector the cascade tried, in order, by phase. */
  datatype Attempt = DataTry(selector: string) | GenericTry(selector: string) | FallbackTry(selector: string)

  /** The state the loops carry: the variants so far, whether `variant_text`
      has ever been assigned (the error handler reads it, and raises
      `UnboundLocalError` when it has not), and the selectors tried. */
  datatype Scan = Scan(variants: seq<Variant>, bound: bool, trace: seq<Attempt>)

  const DataVariantSelectors: seq<string> := ["[data-variant-selector]", "[data-variant]", "[data-option]", "[data-format]"]

  const DataPriceSelectors: seq<string> := ["[data-price]", "[data-product-price]", "[data-current-price]"]

  // ---------------------------------------------------------------------------
  // One element

  /** The loop over price selectors after an element was activated: the first
      shown text that parses, from position `k` on. */
  function ProbeFrom(page: Page, parse: PriceParser, e: nat, sels: seq<string>, k: nat): Option<Price>
    decreases |sels| - k
  {
    if k >= |sels| then None
    else match page.probe(e, sels[k])
      case Timeout => ProbeFrom(page, parse, e, sels, k + 1)
      case Failure => None
      case Missing => ProbeFrom(page, parse, e, sels, k + 1)
      case Shown(t) =>
        var p := parse(Strip(Python, t));
        if p.Some? then p else ProbeFrom(page, parse, e, sels, k + 1)
  }

  datatype Outcome = Skipped | Recorded(variant: Variant) | Escaped

  /** The body of the element loop in the first two phases. An element whose
      text cannot be read is skipped, unless no text was ever read: then the
      error handler itself raises and the rest of the selector is abandoned. */
  function VisitElement(page: Page, parse: PriceParser, sel: string, e: nat, priceSels: seq<string>, bound: bool): Outcome {
    if page.text(e).None? then (if bound then Skipped else Escaped)
    else
      var t := Strip(Python, page.text(e).value);
      if t == [] || !page.activates(e, sel) then Skipped
      else
        var p := ProbeFrom(page, parse, e, priceSels, 0);
        if p.None? then Skipped else Recorded(Variant(t, p.value.amount, p.value.currency))
  }

  datatype ElementsResult = ElementsResult(variants: seq<Variant>, bound: bool, escaped: bool)

  /** The element loop of one selector, from element `k` on. */
  function VisitElementsFrom(page: Page, parse: PriceParser, sel: string, elems: seq<nat>, priceSels: seq<string>,
                             k: nat, vs: seq<Variant>, bound: bool): ElementsResult
    decreases |elems| - k
  {
    if k >= |elems| then ElementsResult(vs, bound, false)
    else
      var bound' := bound || page.text(elems[k]).Some?;
      match VisitElement(page, parse, sel, elems[k], priceSels, bound)
      case Escaped => ElementsResult(vs, bound, true)
      case Skipped => VisitElementsFrom(page, parse, sel, elems, priceSels, k + 1, vs, bound')
      case Recorded(v) => VisitElementsFrom(page, parse, sel, elems, priceSels, k + 1, vs + [v], bound')
  }

  // ---------------------------------------------------------------------------
  // The three phases

  /** One data-* variant selector: query it and, if it matches, visit its
      elements. The flag says whether the phase returns here. */
  function DataStep(page: Page, parse: PriceParser, sel: string, s: Scan): (Scan, bool) {
    var tried := s.trace + [DataTry(sel)];
    match page.elements(sel)
    case None => (Scan(s.variants, s.bound, tried), false)
    case Some(elems) =>
      if elems == [] then (Scan(s.variants, s.bound, tried), false)
      else
        var r := VisitElementsFrom(page, parse, sel, elems, DataPriceSelectors, 0, s.variants, s.bound);
        (Scan(r.variants, r.bound, tried), !r.escaped && r.variants != [])
  }

  /** The loop over the data-* variant selectors, from selector `k` on. */
  function DataPhaseFrom(page: Page, parse: PriceParser, k: nat, s: Scan): (Scan, bool)
    decreases |DataVariantSelectors| - k
  {
    if k >= |DataVariantSelectors| then (s, false)
    else
      var (s', stop) := DataStep(page, parse, DataVariantSelectors[k], s);
      if stop then (s', true) else DataPhaseFrom(page, parse, k + 1, s')
  }

  /** One site variant selector: wait for it, query it and visit its
      elements. The flag says whether the loop breaks here. */
  function GenericStep(page: Page, parse: PriceParser, sel: string, priceSels: seq<string>, s: Scan): (Scan, bool) {
    var tried := s.trace + [GenericTry(sel)];
    if !page.appears(sel) then (Scan(s.variants, s.bound, tried), false)
    else match page.elements(sel)
      case None => (Scan(s.variants, s.bound, tried), false)
      case Some(elems) =>
        if elems == [] then (Scan(s.variants, s.bound, tried), false)
        else
          var r := VisitElementsFrom(page, parse, sel, elems, priceSels, 0, s.variants, s.bound);
          (Scan(r.variants, r.bound, tried), !r.escaped && r.variants != [])
  }

  /** The loop over the site's variant selectors, from selector `k` on. */
  function GenericPhaseFrom(page: Page, parse: PriceParser, sels: seq<string>, priceSels: seq<string>, k: nat, s: Scan): Scan
    decreases |sels| - k
  {
    if k >= |sels| then s
    else
      var (s', breaks) := GenericStep(page, parse, sels[k], priceSels, s);
      if breaks then s' else GenericPhaseFrom(page, parse, sels, priceSels, k + 1, s')
  }

  /** The inner loop of the fallback over the elements of one price selector:
      a text that mentions "ml" and parses is a variant; a text that cannot be
      read ends the selector. */
  function ReadPricesFrom(page: Page, parse: PriceParser, elems: seq<nat>, j: nat, vs: seq<Variant>): seq<Variant>
    decreases |elems| - j
  {
    if j >= |elems| then vs
    else match page.text(elems[j])
      case None => vs
      case Some(raw) =>
        var t := Strip(Python, raw);
        if Contains(Lower(t), "ml") then
          match parse(t)
          case Some(p) => ReadPricesFrom(page, parse, elems, j + 1, vs + [Variant(Strip(Python, t), p.amount, p.currency)])
          case None => ReadPricesFrom(page, parse, elems, j + 1, vs)
        else ReadPricesFrom(page, parse, elems, j + 1, vs)
  }

  /** The fallback loop over price selectors, from selector `k` on. */
  function FallbackFrom(page: Page, parse: PriceParser, sels: seq<string>, k: nat, s: Scan): Scan
    decreases |sels| - k
  {
    if k >= |sels| then s
    else
      var tried := s.trace + [FallbackTry(sels[k])];
      var vs := match page.elements(sels[k])
        case None => s.variants
        case Some(elems) => ReadPricesFrom(page, parse, elems, 0, s.variants);
      FallbackFrom(page, parse, sels, k + 1, Scan(vs, s.bound, tried))
  }

  const Start: Scan := Scan([], false, [])

  /** Every variant has a size. */
  predicate Sized(vs: seq<Variant>) {
    forall i :: 0 <= i < |vs| ==> vs[i].size != []
  }

  /** `_extract_dynamic_variants(page, url)`, with the selectors tried. An
      error that escapes the phases (a page that does not load, a URL that
      `urlparse` rejects) gives the empty list. Every variant returned has a
      size: the element text it was read from is never empty. */
  function ExtractVariants(page: Page, parse: PriceParser, url: string): (r: (seq<Variant>, seq<Attempt>))
    ensures Sized(r.0)
  {
    if !page.loads then ([], [])
    else
      var (d, returned) := DataPhaseFrom(page, parse, 0, Start);
      DataPhaseSized(page, parse, 0, Start);
      if returned then (d.variants, d.trace)
      else match GetSiteConfig(url)
        case None => ([], d.trace)
        case Some(config) =>
          var g := GenericPhaseFrom(page, parse, config.variantSelectors, config.priceSelectors, 0, d);
          GenericPhaseSized(page, parse, config.variantSelectors, config.priceSelectors, 0, d);
          if g.variants != [] then (g.variants, g.trace)
          else
            var f := FallbackFrom(page, parse, config.priceSelectors + DataPriceSelectors, 0, g);
            FallbackSized(page, parse, config.priceSelectors + DataPriceSelectors, 0, g);
            (f.variants, f.trace)
  }

  lemma {:induction false} VisitKeepsSized(page: Page, parse: PriceParser, sel: string, elems: seq<nat>, priceSels: seq<string>,
                                           vs: seq<Variant>, bound: bool)
    requires Sized(vs)
    ensures Sized(VisitElementsFrom(page, parse, sel, elems, priceSels, 0, vs, bound).variants)
  {
    VisitElementsGrows(page, parse, sel, elems, priceSels, 0, vs, bound);
  }

  lemma {:induction false} DataPhaseSized(page: Page, parse: PriceParser, k: nat, s: Scan)
    requires Sized(s.variants)
    ensures Sized(DataPhaseFrom(page, parse, k, s).0.variants)
    decreases |DataVariantSelectors| - k
  {
    if k < |DataVariantSelectors| {
      var sel := DataVariantSelectors[k];
      var (s', stop) := DataStep(page, parse, sel, s);
      if page.elements(sel).Some? && page.elements(sel).value != [] {
        VisitKeepsSized(page, parse, sel, page.elements(sel).value, DataPriceSelectors, s.variants, s.bound);
      }
      if !stop {
        DataPhaseSized(page, parse, k + 1, s');
      }
    }
  }

  lemma {:induction false} GenericPhaseSized(page: Page, parse: PriceParser, sels: seq<string>, priceSels: seq<string>, k: nat, s: Scan)
    requires Sized(s.variants)
    ensures Sized(GenericPhaseFrom(page, parse, sels, priceSels, k, s).variants)
    decreases |sels| - k
  {
    if k < |sels| {
      var sel := sels[k];
      var (s', breaks) := GenericStep(page, parse, sel, priceSels, s);
      if page.appears(sel) && page.elements(sel).Some? && page.elements(sel).value != [] {
        VisitKeepsSized(page, parse, sel, page.elements(sel).value, priceSels, s.variants, s.bound);
      }
      if !breaks {
        GenericPhaseSized(page, parse, sels, priceSels, k + 1, s');
      }
    }
  }

  lemma {:induction false} FallbackSized(page: Page, parse: PriceParser, sels: seq<string>, k: nat, s: Scan)
    requires Sized(s.variants)
    ensures Sized(FallbackFrom(page, parse, sels, k, s).variants)
    decreases |sels| - k
  {
    if k < |sels| {
      var vs := match page.elements(sels[k])
        case None => s.variants
        case Some(elems) => ReadPricesFrom(page, parse, elems, 0, s.variants);
      if page.elements(sels[k]).Some? {
        ReadPricesMentionMl(page, parse, page.elements(sels[k]).value, 0, s.variants);
        forall i | |s.variants| <= i < |vs|
          ensures vs[i].size != []
        {
          assert Contains(Lower(vs[i].size), "ml");
        }
      }
      FallbackSized(page, parse, sels, k + 1, Scan(vs, s.bound, s.trace + [FallbackTry(sels[k])]));
    }
  }

  // ---------------------------------------------------------------------------
  // The imperative cascade

  method ExtractDynamicVariants(page: Page, parse: PriceParser, url: string) returns (variants: seq<Variant>, trace: seq<Attempt>)
    ensures (variants, trace) == ExtractVariants(page, parse, url)
  {
    if !page.loads {
      return [], [];
    }
    var s, returned := DataPhase(page, parse, Start);
    if returned {
      return s.variants, s.trace;
    }
    var config := GetSiteConfig(url);
    if config.None? {
      return [], s.trace;
    }
    s := GenericPhase(page, parse, config.value.variantSelectors, config.value.priceSelectors, s);
    if s.variants == [] {
      s := Fallback(page, parse, config.value.priceSelectors + DataPriceSelectors, s);
    }
    return s.variants, s.trace;
  }

  method DataPhase(page: Page, parse: PriceParser, s0: Scan) returns (s: Scan, returned: bool)
    ensures (s, returned) == DataPhaseFrom(page, parse, 0, s0)
  {
    s := s0;
    var k := 0;
    while k < |DataVariantSelectors|
      invariant k <= |DataVariantSelectors|
      invariant DataPhaseFrom(page, parse, 0, s0) == DataPhaseFrom(page, parse, k, s)
      decreases |DataVariantSelectors| - k
    {
      var sel := DataVariantSelectors[k];
      var tried := s.trace + [DataTry(sel)];
      var elems := page.elements(sel);
      if elems.Some? && elems.value != [] {
        var r := VisitElements(page, parse, sel, elems.value, DataPriceSelectors, s.variants, s.bound);
        s := Scan(r.variants, r.bound, tried);
        if !r.escaped && r.variants != [] {
          return s, true;
        }
      } else {
        s := Scan(s.variants, s.bound, tried);
      }
      k := k + 1;
    }
    return s, false;
  }

  method GenericPhase(page: Page, parse: PriceParser, sels: seq<string>, priceSels: seq<string>, s0: Scan) returns (s: Scan)
    ensures s == GenericPhaseFrom(page, parse, sels, priceSels, 0, s0)
  {
    s := s0;
    var k := 0;
    while k < |sels|
      invariant k <= |sels|
      invariant GenericPhaseFrom(page, parse, sels, priceSels, 0, s0) == GenericPhaseFrom(page, parse, sels, priceSels, k, s)
      decreases |sels| - k
    {
      var sel := sels[k];
      var tried := s.trace + [GenericTry(sel)];
      var elems := if page.appears(sel) then page.elements(sel) else None;
      if elems.Some? && elems.value != [] {
        var r := VisitElements(page, parse, sel, elems.value, priceSels, s.variants, s.bound);
        s := Scan(r.variants, r.bound, tried);
        if !r.escaped && r.variants != [] {
          return;
        }
      } else {
        s := Scan(s.variants, s.bound, tried);
      }
      k := k + 1;
    }
  }

  /** The element loop of one selector in the first two phases. */
  method VisitElements(page: Page, parse: PriceParser, sel: string, elems: seq<nat>, priceSels: seq<string>,
                       vs0: seq<Variant>, bound0: bool) returns (r: ElementsResult)
    ensures r == VisitElementsFrom(page, parse, sel, elems, priceSels, 0, vs0, bound0)
  {
    var vs, bound := vs0, bound0;
    var k := 0;
    while k < |elems|
      invariant k <= |elems|
      invariant VisitElementsFrom(page, parse, sel, elems, priceSels, 0, vs0, bound0)
             == VisitElementsFrom(page, parse, sel, elems, priceSels, k, vs, bound)
      decreases |elems| - k
    {
      var outcome := VisitOne(page, parse, sel, elems[k], priceSels, bound);
      if outcome.Escaped? {
        return ElementsResult(vs, bound, true);
      } else if outcome.Recorded? {
        vs := vs + [outcome.variant];
      }
      bound := bound || page.text(elems[k]).Some?;
      k := k + 1;
    }
    return ElementsResult(vs, bound, false);
  }

  method VisitOne(page: Page, parse: PriceParser, sel: string, e: nat, priceSels: seq<string>, bound: bool) returns (o: Outcome)
    ensures o == VisitElement(page, parse, sel, e, priceSels, bound)
  {
    var raw := page.text(e);
    if raw.None? {
      return if bound then Skipped else Escaped;
    }
    var t := Strip(Python, raw.value);
    if t == [] || !page.activates(e, sel) {
      return Skipped;
    }
    var price := ProbePrices(page, parse, e, priceSels);
    if price.Some? {
      return Recorded(Variant(t, price.value.amount, price.value.currency));
    }
    return Skipped;
  }

  /** The loop over price selectors after an element was activated. */
  method ProbePrices(page: Page, parse: PriceParser, e: nat, sels: seq<string>) returns (price: Option<Price>)
    ensures price == ProbeFrom(page, parse, e, sels, 0)
  {
    var k := 0;
    while k < |sels|
      invariant k <= |sels|
      invariant ProbeFrom(page, parse, e, sels, 0) == ProbeFrom(page, parse, e, sels, k)
      decreases |sels| - k
    {
      var probe := page.probe(e, sels[k]);
      if probe.Failure? {
        return None;
      } else if probe.Shown? {
        var p := parse(Strip(Python, probe.text));
        if p.Some? {
          return p;
        }
      }
      k := k + 1;
    }
    return None;
  }

  method Fallback(page: Page, parse: PriceParser, sels: seq<string>, s0: Scan) returns (s: Scan)
    ensures s == FallbackFrom(page, parse, sels, 0, s0)
  {
    s := s0;
    for k := 0 to |sels|
      invariant FallbackFrom(page, parse, sels, 0, s0) == FallbackFrom(page, parse, sels, k, s)
    {
      var tried := s.trace + [FallbackTry(sels[k])];
      var elems := page.elements(sels[k]);
      var vs := s.variants;
      if elems.Some? {
        vs := ReadPrices(page, parse, elems.value, vs);
      }
      s := Scan(vs, s.bound, tried);
    }
  }

  /** The fallback's loop over the elements of one price selector. */
  method ReadPrices(page: Page, parse: PriceParser, elems: seq<nat>, vs0: seq<Variant>) returns (vs: seq<Variant>)
    ensures vs == ReadPricesFrom(page, parse, elems, 0, vs0)
  {
    vs := vs0;
    var j := 0;
    while j < |elems|
      invariant j <= |elems|
      invariant ReadPricesFrom(page, parse, elems, 0, vs0) == ReadPricesFrom(page, parse, elems, j, vs)
      decreases |elems| - j
    {
      var raw := page.text(elems[j]);
      if raw.None? {
        return;
      }
      var t := Strip(Python, raw.value);
      if Contains(Lower(t), "ml") {
        var price := parse(t);
        if price.Some? {
          vs := vs + [Variant(Strip(Python, t), price.value.amount, price.value.currency)];
        }
      }
      j := j + 1;
    }
  }

  // ---------------------------------------------------------------------------
  // Properties

  /** Whether a price selector lets the probe go on to the next one. */
  predicate PassesOn(page: Page, parse: PriceParser, e: nat, sel: string) {
    match page.probe(e, sel)
    case Timeout => true
    case Missing => true
    case Failure => false
    case Shown(t) => parse(Strip(Python, t)).None?
  }

  /** An element records the price of the first price selector that shows a
      text `Price.fromstring` accepts, every earlier one having timed out,
      shown nothing or shown a text it rejects. */
  lemma {:induction false} ProbeFindsFirst(page: Page, parse: PriceParser, e: nat, sels: seq<string>, k: nat) returns (j: nat)
    requires ProbeFrom(page, parse, e, sels, k).Some?
    ensures k <= j < |sels| && page.probe(e, sels[j]).Shown?
    ensures ProbeFrom(page, parse, e, sels, k) == parse(Strip(Python, page.probe(e, sels[j]).text))
    ensures forall i :: k <= i < j ==> PassesOn(page, parse, e, sels[i])
    decreases |sels| - k
  {
    var probe := page.probe(e, sels[k]);
    if probe.Shown? && parse(Strip(Python, probe.text)).Some? {
      j := k;
    } else {
      assert PassesOn(page, parse, e, sels[k]);
      j := ProbeFindsFirst(page, parse, e, sels, k + 1);
    }
  }

  /** The element loop only appends, at most one variant per element and never
      one with an empty size; it abandons the selector only before any text
      was read, and then it has added nothing. */
  lemma {:induction false} VisitElementsGrows(page: Page, parse: PriceParser, sel: string, elems: seq<nat>, priceSels: seq<string>,
                                              k: nat, vs: seq<Variant>, bound: bool)
    requires k <= |elems|
    ensures var r := VisitElementsFrom(page, parse, sel, elems, priceSels, k, vs, bound);
      && vs <= r.variants && |r.variants| <= |vs| + (|elems| - k)
      && (forall i :: |vs| <= i < |r.variants| ==> r.variants[i].size != [])
      && (r.escaped ==> r.variants == vs && !bound)
    decreases |elems| - k
  {
    if k < |elems| {
      var bound' := bound || page.text(elems[k]).Some?;
      var o := VisitElement(page, parse, sel, elems[k], priceSels, bound);
      if o.Skipped? {
        VisitElementsGrows(page, parse, sel, elems, priceSels, k + 1, vs, bound');
      } else if o.Recorded? {
        RecordedSizeNonEmpty(page, parse, sel, elems[k], priceSels, bound);
        VisitElementsGrows(page, parse, sel, elems, priceSels, k + 1, vs + [o.variant], bound');
      }
    }
  }


  lemma {:induction false} RecordedSizeNonEmpty(page: Page, parse: PriceParser, sel: string, e: nat, priceSels: seq<string>, bound: bool)
    ensures var o := VisitElement(page, parse, sel, e, priceSels, bound);
      o.Recorded? ==> o.variant.size != [] && page.text(e).Some?
  {
  }

  /** The error handler's `UnboundLocalError`: when the first element's text
      cannot be read and no text was read before, the rest of the selector is
      abandoned. */
  lemma {:induction false} UnreadFirstElementAbandons(page: Page, parse: PriceParser, sel: string, elems: seq<nat>, priceSels: seq<string>, vs: seq<Variant>)
    requires elems != [] && page.text(elems[0]).None?
    ensures VisitElementsFrom(page, parse, sel, elems, priceSels, 0, vs, false) == ElementsResult(vs, false, true)
  {
  }

  /** Once a text was read, an unreadable element is only skipped. */
  lemma {:induction false} UnreadLaterElementSkipped(page: Page, parse: PriceParser, sel: string, elems: seq<nat>, priceSels: seq<string>, vs: seq<Variant>)
    requires elems != [] && page.text(elems[0]).None?
    ensures VisitElementsFrom(page, parse, sel, elems, priceSels, 0, vs, true)
         == VisitElementsFrom(page, parse, sel, elems, priceSels, 1, vs, true)
  {
  }

  predicate AllData(trace: seq<Attempt>) { forall i :: 0 <= i < |trace| ==> trace[i].DataTry? }

  predicate NoFallback(trace: seq<Attempt>) { forall i :: 0 <= i < |trace| ==> !trace[i].FallbackTry? }

  /** The data phase tries data-* selectors only, and returns exactly when it
      has found a variant (it starts with none). */
  lemma {:induction false} DataPhaseShape(page: Page, parse: PriceParser, k: nat, s: Scan)
    requires s.variants == [] && AllData(s.trace)
    ensures var (r, returned) := DataPhaseFrom(page, parse, k, s);
      && AllData(r.trace)
      && (returned <==> r.variants != [])
    decreases |DataVariantSelectors| - k
  {
    if k < |DataVariantSelectors| {
      var sel := DataVariantSelectors[k];
      var (s', stop) := DataStep(page, parse, sel, s);
      assert AllData(s.trace + [DataTry(sel)]);
      match page.elements(sel)
      case None =>
        DataPhaseShape(page, parse, k + 1, s');
      case Some(elems) =>
        if elems != [] {
          VisitElementsGrows(page, parse, sel, elems, DataPriceSelectors, 0, s.variants, s.bound);
        }
        if !stop {
          DataPhaseShape(page, parse, k + 1, s');
        }
    }
  }

  /** The generic phase tries the site's selectors in order and stops right
      after the first one whose elements give a variant: it has tried
      `sels[k..m]` and no later one, and it stops early only with a variant. */
  lemma {:induction false} GenericPhaseShape(page: Page, parse: PriceParser, sels: seq<string>, priceSels: seq<string>, k: nat, s: Scan)
    returns (m: nat)
    requires k <= |sels| && s.variants == []
    ensures k <= m <= |sels|
    ensures var r := GenericPhaseFrom(page, parse, sels, priceSels, k, s);
      && |r.trace| == |s.trace| + (m - k) && r.trace[..|s.trace|] == s.trace
      && (forall i :: k <= i < m ==> r.trace[|s.trace| + i - k] == GenericTry(sels[i]))
      && (r.variants == [] ==> m == |sels|)
      && (m < |sels| ==> r.variants != [])
    decreases |sels| - k
  {
    if k == |sels| {
      m := k;
    } else {
      var (s', breaks) := GenericStep(page, parse, sels[k], priceSels, s);
      GenericStepShape(page, parse, sels[k], priceSels, s);
      if breaks {
        m := k + 1;
      } else {
        m := GenericPhaseShape(page, parse, sels, priceSels, k + 1, s');
        var r := GenericPhaseFrom(page, parse, sels, priceSels, k + 1, s');
        assert r.trace[..|s'.trace|] == s'.trace;
        assert r.trace[..|s.trace|] == s'.trace[..|s.trace|];
      }
    }
  }

  /** One selector of the generic phase adds its own trace entry, and it
      stops the phase exactly when it found a variant. */
  lemma {:induction false} GenericStepShape(page: Page, parse: PriceParser, sel: string, priceSels: seq<string>, s: Scan)
    requires s.variants == []
    ensures var (s', breaks) := GenericStep(page, parse, sel, priceSels, s);
      && s'.trace == s.trace + [GenericTry(sel)]
      && (breaks <==> s'.variants != [])
  {
    if page.appears(sel) && page.elements(sel).Some? && page.elements(sel).value != [] {
      VisitElementsGrows(page, parse, sel, page.elements(sel).value, priceSels, 0, s.variants, s.bound);
    }
  }

  /** The fallback keeps what it had and adds only variants whose size
      mentions "ml" in any case. */
  lemma {:induction false} ReadPricesMentionMl(page: Page, parse: PriceParser, elems: seq<nat>, j: nat, vs: seq<Variant>)
    ensures var r := ReadPricesFrom(page, parse, elems, j, vs);
      vs <= r && forall i :: |vs| <= i < |r| ==> Contains(Lower(r[i].size), "ml")
    decreases |elems| - j
  {
    if j < |elems| && page.text(elems[j]).Some? {
      var t := Strip(Python, page.text(elems[j]).value);
      if Contains(Lower(t), "ml") && parse(t).Some? {
        var v := Variant(Strip(Python, t), parse(t).value.amount, parse(t).value.currency);
        StripOfStripped(Python, t);
        ReadPricesMentionMl(page, parse, elems, j + 1, vs + [v]);
      } else {
        ReadPricesMentionMl(page, parse, elems, j + 1, vs);
      }
    }
  }

  /** A page that does not load gives nothing. */
  lemma {:induction false} NotLoadedGivesNothing(page: Page, parse: PriceParser, url: string)
    requires !page.loads
    ensures ExtractVariants(page, parse, url) == ([], [])
  {
  }

  /** When a data-* selector gives a variant, those variants are the result and
      no other selector was tried. */
  lemma {:induction false} DataVariantsReturnedFirst(page: Page, parse: PriceParser, url: string)
    requires page.loads && DataPhaseFrom(page, parse, 0, Start).1
    ensures ExtractVariants(page, parse, url).0 == DataPhaseFrom(page, parse, 0, Start).0.variants
    ensures ExtractVariants(page, parse, url).0 != []
    ensures AllData(ExtractVariants(page, parse, url).1)
  {
    DataPhaseShape(page, parse, 0, Start);
  }

  /** A URL `urlparse` rejects makes the cascade give nothing once the data-*
      selectors have failed. */
  lemma {:induction false} UrlErrorGivesNothing(page: Page, parse: PriceParser, url: string)
    requires GetSiteConfig(url).None?
    requires !DataPhaseFrom(page, parse, 0, Start).1
    ensures ExtractVariants(page, parse, url).0 == []
  {
  }

  /** The fallback runs only when nothing was found: when the site's variant
      selectors give a variant, those variants are the result and no fallback
      selector was tried. */
  lemma {:induction false} GenericVariantsSkipFallback(page: Page, parse: PriceParser, url: string)
    requires page.loads && !DataPhaseFrom(page, parse, 0, Start).1 && GetSiteConfig(url).Some?
    requires var config := GetSiteConfig(url).value;
      GenericPhaseFrom(page, parse, config.variantSelectors, config.priceSelectors, 0, DataPhaseFrom(page, parse, 0, Start).0).variants != []
    ensures var config := GetSiteConfig(url).value;
      var g := GenericPhaseFrom(page, parse, config.variantSelectors, config.priceSelectors, 0, DataPhaseFrom(page, parse, 0, Start).0);
      ExtractVariants(page, parse, url) == (g.variants, g.trace) && NoFallback(g.trace)
  {
    var config := GetSiteConfig(url).value;
    DataPhaseShape(page, parse, 0, Start);
    GenericTrace(page, parse, config.variantSelectors, config.priceSelectors, DataPhaseFrom(page, parse, 0, Start).0);
  }

  /** Conversely, a fallback selector in the trace means that the page loaded,
      the data phase did not return, the site profile was found, and every one
      of its variant selectors was tried, in order, without giving a variant. */
  lemma {:induction false} FallbackAfterEverySiteSelector(page: Page, parse: PriceParser, url: string)
    ensures var tr := ExtractVariants(page, parse, url).1;
      !NoFallback(tr) ==>
        && page.loads && !DataPhaseFrom(page, parse, 0, Start).1 && GetSiteConfig(url).Some?
        && var sels := GetSiteConfig(url).value.variantSelectors;
           var d := DataPhaseFrom(page, parse, 0, Start).0;
           && GenericPhaseFrom(page, parse, sels, GetSiteConfig(url).value.priceSelectors, 0, d).variants == []
           && |d.trace| + |sels| <= |tr|
           && forall j :: 0 <= j < |sels| ==> tr[|d.trace| + j] == GenericTry(sels[j])
  {
    if !page.loads || DataPhaseFrom(page, parse, 0, Start).1 || GetSiteConfig(url).None? {
      EarlyExitNoFallback(page, parse, url);
    } else {
      var config := GetSiteConfig(url).value;
      var sels := config.variantSelectors;
      var d := DataPhaseFrom(page, parse, 0, Start).0;
      var g := GenericPhaseFrom(page, parse, sels, config.priceSelectors, 0, d);
      if g.variants != [] {
        GenericVariantsSkipFallback(page, parse, url);
      } else {
        DataPhaseShape(page, parse, 0, Start);
        GenericTrace(page, parse, sels, config.priceSelectors, d);
        FallbackResult(page, parse, url);
        FallbackKeepsTrace(page, parse, config.priceSelectors + DataPriceSelectors, 0, g);
      }
    }
  }

  /** After data-* selectors that found nothing, the site phase adds only its
      own selectors to the trace, and when it finds nothing it has tried all
      of them in order. */
  lemma {:induction false} GenericTrace(page: Page, parse: PriceParser, sels: seq<string>, priceSels: seq<string>, d: Scan)
    requires d.variants == [] && AllData(d.trace)
    ensures var g := GenericPhaseFrom(page, parse, sels, priceSels, 0, d);
      && NoFallback(g.trace)
      && (g.variants == [] ==>
            |d.trace| + |sels| <= |g.trace| && forall j :: 0 <= j < |sels| ==> g.trace[|d.trace| + j] == GenericTry(sels[j]))
  {
    var m := GenericPhaseShape(page, parse, sels, priceSels, 0, d);
    var g := GenericPhaseFrom(page, parse, sels, priceSels, 0, d);
    forall i | 0 <= i < |g.trace| ensures !g.trace[i].FallbackTry? {
      if i < |d.trace| {
        assert g.trace[i] == g.trace[..|d.trace|][i] == d.trace[i];
      } else {
        assert g.trace[|d.trace| + (i - |d.trace|) - 0] == GenericTry(sels[i - |d.trace|]);
      }
    }
    if g.variants == [] {
      forall j | 0 <= j < |sels| ensures g.trace[|d.trace| + j] == GenericTry(sels[j]) {
        assert g.trace[|d.trace| + j - 0] == GenericTry(sels[j]);
      }
    }
  }

  /** A cascade that ends before the site phase tries no fallback selector. */
  lemma {:induction false} EarlyExitNoFallback(page: Page, parse: PriceParser, url: string)
    requires !page.loads || DataPhaseFrom(page, parse, 0, Start).1 || GetSiteConfig(url).None?
    ensures NoFallback(ExtractVariants(page, parse, url).1)
  {
    DataPhaseShape(page, parse, 0, Start);
  }

  /** With nothing found before it, the cascade's result is the fallback's. */
  lemma {:induction false} FallbackResult(page: Page, parse: PriceParser, url: string)
    requires page.loads && !DataPhaseFrom(page, parse, 0, Start).1 && GetSiteConfig(url).Some?
    requires var config := GetSiteConfig(url).value;
      GenericPhaseFrom(page, parse, config.variantSelectors, config.priceSelectors, 0, DataPhaseFrom(page, parse, 0, Start).0).variants == []
    ensures var config := GetSiteConfig(url).value;
      var g := GenericPhaseFrom(page, parse, config.variantSelectors, config.priceSelectors, 0, DataPhaseFrom(page, parse, 0, Start).0);
      var f := FallbackFrom(page, parse, config.priceSelectors + DataPriceSelectors, 0, g);
      ExtractVariants(page, parse, url) == (f.variants, f.trace)
  {
  }

  /** The fallback only appends to the trace it was given. */
  lemma {:induction false} FallbackKeepsTrace(page: Page, parse: PriceParser, sels: seq<string>, k: nat, s: Scan)
    ensures s.trace <= FallbackFrom(page, parse, sels, k, s).trace
    decreases |sels| - k
  {
    if k < |sels| {
      var vs := match page.elements(sels[k])
        case None => s.variants
        case Some(elems) => ReadPricesFrom(page, parse, elems, 0, s.variants);
      FallbackKeepsTrace(page, parse, sels, k + 1, Scan(vs, s.bound, s.trace + [FallbackTry(sels[k])]));
    }
  }
}
