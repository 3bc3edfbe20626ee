/** The worker side of the desktop tool (shopify_automation.py): reading the
    brand list, deciding what to fill in on a product that already exists,
    and turning the variants the user picked into the payload sent to the
    store. Scraping and the store are parameters: what `scrape_product`
    would return, and what `find_product` found. */
module Automation {
  import opened Wrappers
  import opened Text
  import opened BrandInput
  import opened Catalog

  // ---------------------------------------------------------------------------
  // process_input: the brand list

  /** The parse block of `process_input`: the whole input is stripped, then
      read line by line with the header rule of `parseInput`. */
  method ProcessInputParse(inputText: string) returns (order: seq<string>, brandsProducts: map<string, seq<string>>)
    ensures var g := Group(Classified(Python, Split(Strip(Python, inputText), '\n')));
      order == g.order && brandsProducts == g.products
    ensures NoDups(order) && forall b :: b in order <==> b in brandsProducts
  {
    var stripped := Strip(Python, inputText);
    var lines := Split(stripped, '\n');
    var g := GroupLines(Python, lines);
    GroupValid(Classified(Python, lines));
    order, brandsProducts := g.order, g.products;
  }

  // ---------------------------------------------------------------------------
  // update_existing_product

  /** The keys of `missing_data`. */
  datatype Missing = Missing(description: bool, price: bool, images: bool)

  /** `not v.price`: no price, or a price of zero. */
  predicate FalsyPrice(p: PriceValue) {
    p.NoPrice? || (p.Amount? && p.value == 0.0)
  }

  predicate AnyFalsyPrice(vs: seq<Variant>) {
    exists i :: 0 <= i < |vs| && FalsyPrice(vs[i].price)
  }

  /** What a product lacks: a description when its body is empty, a price
      when it has no variants or one of them has a falsy price, images when
      it has none. */
  function MissingOf(bodyHtml: string, variants: seq<Variant>, hasImages: bool): Missing {
    Missing(bodyHtml == [], variants == [] || AnyFalsyPrice(variants), !hasImages)
  }

  predicate AnyMissing(m: Missing) { m.description || m.price || m.images }

  /** What `scrape_product` returns, when it returns something. */
  datatype Scraped = Scraped(description: Option<string>, variants: Option<seq<VariantData>>)

  /** `update_data`, or `None` when it stays empty or nothing was scraped.
      The update asks only for what is missing and what the scrape has, and
      asks for all of it. */
  function UpdateRequest(m: Missing, scraped: Option<Scraped>): (r: Option<ProductData>)
    ensures r.Some? ==> r.value.title.None? && r.value.vendor.None? && r.value.tags.None?
    ensures r.Some? && r.value.description.Some? <==>
      m.description && scraped.Some? && scraped.value.description.Some? && scraped.value.description.value != []
    ensures r.Some? && r.value.variants.Some? <==>
      m.price && scraped.Some? && scraped.value.variants.Some? && scraped.value.variants.value != []
    ensures r.Some? ==> r.value.description.Some? || r.value.variants.Some?
    ensures r.Some? && r.value.description.Some? ==> r.value.description == scraped.value.description
    ensures r.Some? && r.value.variants.Some? ==> r.value.variants == scraped.value.variants
  {
    if scraped.None? then None
    else
      var s := scraped.value;
      var description := if m.description && s.description.Some? && s.description.value != [] then s.description else None;
      var variants := if m.price && s.variants.Some? && s.variants.value != [] then s.variants else None;
      if description.None? && variants.None? then None
      else Some(ProductData(None, None, None, description, variants))
  }

  /** `update_existing_product(product, vendor, tag)`. `scraped` is what the
      scraper returns for the product, looked at only when something is
      missing. */
  method UpdateExistingProduct(product: Product, hasImages: bool, scraped: Option<Scraped>)
    returns (scrapes: bool, updateData: Option<ProductData>)
    modifies product
    ensures var m := MissingOf(old(product.bodyHtml), old(product.variants), hasImages);
      && (scrapes <==> AnyMissing(m))
      && updateData == (if scrapes then UpdateRequest(m, scraped) else None)
    ensures updateData.None? ==> unchanged(product)
    ensures updateData.Some? ==>
      && product.title == old(product.title) && product.vendor == old(product.vendor) && product.tags == old(product.tags)
      && product.productType == old(product.productType) && product.status == old(product.status)
      && product.bodyHtml == updateData.value.description.GetOr(old(product.bodyHtml))
      && product.variants == (if updateData.value.variants.Some? then MergeAll(old(product.variants), updateData.value.variants.value) else old(product.variants))
  {
    var missing := Missing(false, false, false);
    if product.bodyHtml == [] {
      missing := missing.(description := true);
    }
    if product.variants == [] || AnyFalsyPrice(product.variants) {
      missing := missing.(price := true);
    }
    if !hasImages {
      missing := missing.(images := true);
    }
    scrapes := missing.description || missing.price || missing.images;
    updateData := None;
    if scrapes && scraped.Some? {
      var s := scraped.value;
      var description: Option<string> := None;
      var variants: Option<seq<VariantData>> := None;
      if missing.description && s.description.Some? && s.description.value != [] {
        description := s.description;
      }
      if missing.price && s.variants.Some? && s.variants.value != [] {
        variants := s.variants;
      }
      if description.Some? || variants.Some? {
        updateData := Some(ProductData(None, None, None, description, variants));
        product.Update(updateData.value);
      }
    }
  }

  /** Missing images alone never lead to an update: only a description or
      variants can fill `update_data`. */
  lemma {:induction false} ImagesAloneNeverUpdate(bodyHtml: string, variants: seq<Variant>, scraped: Option<Scraped>)
    requires !MissingOf(bodyHtml, variants, false).description && !MissingOf(bodyHtml, variants, false).price
    ensures AnyMissing(MissingOf(bodyHtml, variants, false))
    ensures UpdateRequest(MissingOf(bodyHtml, variants, false), scraped).None?
  {
  }

  /** A description that was missing and gets filled is no longer missing,
      and variants that get filled leave the product with variants. */
  lemma {:induction false} UpdateFillsWhatWasMissing(m: Missing, scraped: Option<Scraped>, body: string, vs: seq<Variant>)
    requires UpdateRequest(m, scraped).Some?
    ensures var d := UpdateRequest(m, scraped).value;
      && (d.description.Some? ==> d.description.GetOr(body) != [])
      && (d.variants.Some? ==> MergeAll(vs, d.variants.value) != [])
  {
    var d := UpdateRequest(m, scraped).value;
    if d.variants.Some? {
      var ds := d.variants.value;
      MergeKeepsExisting(vs, ds);
      if vs == [] {
        MergeTitles(vs, ds);
        assert ds[0].title in DataTitles(ds);
        assert ds[0].title in Titles(MergeAll(vs, ds));
      }
    }
  }

  // ---------------------------------------------------------------------------
  // The create-variants message

  /** One variant the user picked, as it arrives in the message. */
  datatype Selected = Selected(title: Option<string>, price: Option<PriceValue>, sizeMl: Option<string>)

  /** The fields of a `create-variants` message the worker reads. */
  datatype Message = Message(productTitle: Option<string>, variants: Option<seq<Selected>>)

  /** A JSON line written back to the front end. */
  datatype Reply = ErrorLine(message: string) | Progress(value: nat, message: string)

  const MissingVariantsMessage: string := "Dati varianti mancanti"

  /** What the sku names after the product title: the size when there is
      one, otherwise the variant's title. */
  function Label(v: Selected): string {
    if v.sizeMl.Some? && v.sizeMl.value != [] then v.sizeMl.value else v.title.GetOr("")
  }

  function Sku(productTitle: string, v: Selected): string {
    productTitle + "-" + Label(v)
  }

  /** The entry sent for one picked variant. */
  function Entry(productTitle: string, v: Selected): VariantData {
    VariantData(v.title.GetOr(""), v.price.GetOr(Amount(0.0)), Some(Sku(productTitle, v)))
  }

  function Payload(productTitle: string, vs: seq<Selected>): (ds: seq<VariantData>)
    ensures |ds| == |vs|
    ensures forall i :: 0 <= i < |vs| ==> ds[i] == Entry(productTitle, vs[i])
  {
    if vs == [] then [] else Payload(productTitle, vs[..|vs| - 1]) + [Entry(productTitle, vs[|vs| - 1])]
  }

  /** The loop that fills `update_data['variants']` or `product_data['variants']`. */
  method BuildPayload(productTitle: string, vs: seq<Selected>) returns (ds: seq<VariantData>)
    ensures ds == Payload(productTitle, vs)
  {
    ds := [];
    for j := 0 to |vs|
      invariant ds == Payload(productTitle, vs[..j])
    {
      assert vs[..j + 1][..j] == vs[..j];
      ds := ds + [Entry(productTitle, vs[j])];
    }
    assert vs[..|vs|] == vs;
  }

  predicate Rejected(msg: Message) {
    msg.productTitle.None? || msg.productTitle.value == [] || msg.variants.None? || msg.variants.value == []
  }

  /** The `create-variants` branch of `main`. `existing` is what
      `find_product` returns for the title. A message without a title or
      without variants is answered with an error line and touches nothing;
      otherwise the picked variants are merged into the existing product,
      or a new draft product is made with them. */
  method CreateVariants(msg: Message, existing: Product?) returns (reply: Reply, created: Product?)
    modifies existing
    ensures Rejected(msg) ==> reply == ErrorLine(MissingVariantsMessage) && created == null
    ensures Rejected(msg) && existing != null ==> unchanged(existing)
    ensures !Rejected(msg) && existing != null ==>
      var t := msg.productTitle.value;
      && reply == Progress(100, "Varianti aggiornate per " + t) && created == null
      && existing.variants == MergeAll(old(existing.variants), Payload(t, msg.variants.value))
      && existing.title == old(existing.title) && existing.vendor == old(existing.vendor)
      && existing.tags == old(existing.tags) && existing.bodyHtml == old(existing.bodyHtml)
      && existing.productType == old(existing.productType) && existing.status == old(existing.status)
    ensures !Rejected(msg) && existing == null ==>
      var t := msg.productTitle.value;
      && reply == Progress(100, "Prodotto creato con varianti per " + t)
      && created != null && fresh(created)
      && created.title == t && created.vendor == [] && created.tags == [] && created.bodyHtml == []
      && created.productType == ProductType && created.status == DraftStatus
      && created.variants == NewVariants(Payload(t, msg.variants.value))
  {
    created := null;
    if Rejected(msg) {
      return ErrorLine(MissingVariantsMessage), null;
    }
    var t := msg.productTitle.value;
    var payload := BuildPayload(t, msg.variants.value);
    if existing != null {
      existing.Update(ProductData(None, None, None, None, Some(payload)));
      reply := Progress(100, "Varianti aggiornate per " + t);
    } else {
      created := CreateProduct(ProductData(Some(t), Some([]), Some([]), None, Some(payload)));
      reply := Progress(100, "Prodotto creato con varianti per " + t);
    }
  }

  /** Every variant of a product made from the message carries the
      product title, a dash and its label as sku, with its own title and
      price (zero when none was sent) and a fresh inventory. */
  lemma {:induction false} CreatedVariants(t: string, vs: seq<Selected>)
    ensures var nv := NewVariants(Payload(t, vs));
      && |nv| == |vs|
      && forall i :: 0 <= i < |vs| ==>
           && nv[i].sku == t + "-" + Label(vs[i])
           && nv[i].title == vs[i].title.GetOr("")
           && nv[i].price == vs[i].price.GetOr(Amount(0.0))
           && nv[i].inventoryManagement == InventoryManagement && nv[i].inventoryQuantity == 0
  {
    NewVariantsMatch(Payload(t, vs));
  }

  /** Picked variants with different labels get different skus. */
  lemma {:induction false} DistinctLabelsDistinctSkus(t: string, v: Selected, w: Selected)
    requires Label(v) != Label(w)
    ensures Sku(t, v) != Sku(t, w)
  {
    var p := t + "-";
    assert Label(v) == Sku(t, v)[|p|..];
    assert Label(w) == Sku(t, w)[|p|..];
  }

  /** After the message updates an existing product, every picked title is
      among the product's variant titles, and none of its variants is lost. */
  lemma {:induction false} UpdatedHasPickedTitles(vs0: seq<Variant>, t: string, picked: seq<Selected>)
    ensures var r := MergeAll(vs0, Payload(t, picked));
      && |vs0| <= |r|
      && forall i :: 0 <= i < |picked| ==> picked[i].title.GetOr("") in Titles(r)
  {
    var ds := Payload(t, picked);
    MergeTitles(vs0, ds);
    MergeKeepsExisting(vs0, ds);
    forall i | 0 <= i < |picked| ensures picked[i].title.GetOr("") in Titles(MergeAll(vs0, ds)) {
      assert ds[i].title == picked[i].title.GetOr("");
      assert ds[i].title in DataTitles(ds);
    }
  }
}
