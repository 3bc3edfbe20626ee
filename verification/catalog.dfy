/** The store side of the automation (`ShopifyHandler`): building a product
    with its variants, merging new data into an existing product, and
    finding the products some of whose variants have no price. The calls to
    the store itself (`save`, `find`, sessions) are not part of this model;
    what remains is what happens to the product record. */
module Catalog {
  import opened Wrappers

  /** A variant's `price` as `float()` sees it: absent (`None`), a number, or
      something `float()` rejects with `ValueError`. */
  datatype PriceValue = NoPrice | Amount(value: real) | Unreadable

  /** One variant of a product. */
  datatype Variant = Variant(title: string, price: PriceValue, sku: string, inventoryManagement: string, inventoryQuantity: int)

  /** One entry of `product_data['variants']`; `sku` may be left out. */
  datatype VariantData = VariantData(title: string, price: PriceValue, sku: Option<string>)

  /** The keys a `product_data` dictionary may carry. */
  datatype ProductData = ProductData(
    title: Option<string>,
    vendor: Option<string>,
    tags: Option<string>,
    description: Option<string>,
    variants: Option<seq<VariantData>>)

  const ProductType: string := "Perfume"
  const DraftStatus: string := "draft"
  const InventoryManagement: string := "shopify"

  /** A variant made from incoming data: no sku means the empty one, the
      inventory is managed by the store and starts at zero. */
  function NewVariant(d: VariantData): (v: Variant)
    ensures v.title == d.title && v.price == d.price
    ensures v.sku == (if d.sku.Some? then d.sku.value else "")
    ensures v.inventoryManagement == InventoryManagement && v.inventoryQuantity == 0
  {
    Variant(d.title, d.price, d.sku.GetOr(""), InventoryManagement, 0)
  }

  function NewVariants(ds: seq<VariantData>): (vs: seq<Variant>)
    ensures |vs| == |ds|
  {
    if ds == [] then [] else NewVariants(ds[..|ds| - 1]) + [NewVariant(ds[|ds| - 1])]
  }

  /** The store's product record. */
  class Product {
    var title: string
    var vendor: string
    var productType: string
    var tags: string
    var bodyHtml: string
    var status: string
    var variants: seq<Variant>

    constructor (title: string, vendor: string, tags: string, bodyHtml: string, variants: seq<Variant>)
      ensures this.title == title && this.vendor == vendor && this.tags == tags && this.bodyHtml == bodyHtml
      ensures productType == ProductType && status == DraftStatus
      ensures this.variants == variants
    {
      this.title := title;
      this.vendor := vendor;
      this.productType := ProductType;
      this.tags := tags;
      this.bodyHtml := bodyHtml;
      this.status := DraftStatus;
      this.variants := variants;
    }

    /** `update_product(product, product_data)`: each field given in the data
        is overwritten, the others are kept; the given variants are merged
        into the existing ones by title. */
    method Update(data: ProductData)
      modifies this
      ensures title == (if data.title.Some? then data.title.value else old(title))
      ensures vendor == (if data.vendor.Some? then data.vendor.value else old(vendor))
      ensures tags == (if data.tags.Some? then data.tags.value else old(tags))
      ensures bodyHtml == (if data.description.Some? then data.description.value else old(bodyHtml))
      ensures productType == old(productType) && status == old(status)
      ensures variants == (if data.variants.Some? then MergeAll(old(variants), data.variants.value) else old(variants))
    {
      if data.title.Some? {
        title := data.title.value;
      }
      if data.vendor.Some? {
        vendor := data.vendor.value;
      }
      if data.tags.Some? {
        tags := data.tags.value;
      }
      if data.description.Some? {
        bodyHtml := data.description.value;
      }
      if data.variants.Some? {
        MergeVariants(data.variants.value);
      }
    }

    /** The variant loop of `update_product`: each incoming variant updates
        the first variant with its title, or is appended. */
    method MergeVariants(ds: seq<VariantData>)
      modifies this
      ensures variants == MergeAll(old(variants), ds)
      ensures title == old(title) && vendor == old(vendor) && tags == old(tags) && bodyHtml == old(bodyHtml)
      ensures productType == old(productType) && status == old(status)
    {
      for j := 0 to |ds|
        invariant variants == MergeAll(old(variants), ds[..j])
        invariant title == old(title) && vendor == old(vendor) && tags == old(tags) && bodyHtml == old(bodyHtml)
        invariant productType == old(productType) && status == old(status)
      {
        var d := ds[j];
        var found := FirstWithTitle(variants, d.title, 0);
        if found.Some? {
          var i := found.value;
          variants := variants[i := Updated(variants[i], d)];
        } else {
          variants := variants + [NewVariant(d)];
        }
        assert ds[..j + 1][..j] == ds[..j];
      }
      assert ds[..|ds|] == ds;
    }
  }

  /** `create_product(product_data)`, or `null` for the `KeyError` raised when
      the title, the vendor or the tags are missing. */
  method CreateProduct(data: ProductData) returns (product: Product?)
    ensures product == null <==> data.title.None? || data.vendor.None? || data.tags.None?
    ensures product != null ==>
      && fresh(product)
      && product.title == data.title.value && product.vendor == data.vendor.value && product.tags == data.tags.value
      && product.bodyHtml == data.description.GetOr("")
      && product.productType == ProductType && product.status == DraftStatus
      && product.variants == NewVariants(data.variants.GetOr([]))
  {
    if data.title.None? || data.vendor.None? || data.tags.None? {
      return null;
    }
    var variants := BuildVariants(data.variants.GetOr([]));
    product := new Product(data.title.value, data.vendor.value, data.tags.value, data.description.GetOr(""), variants);
  }

  /** The loop of `create_product` that builds the variants. */
  method BuildVariants(ds: seq<VariantData>) returns (variants: seq<Variant>)
    ensures variants == NewVariants(ds)
  {
    variants := [];
    for j := 0 to |ds|
      invariant variants == NewVariants(ds[..j])
    {
      assert ds[..j + 1][..j] == ds[..j];
      variants := variants + [NewVariant(ds[j])];
    }
    assert ds[..|ds|] == ds;
  }

  /** `create_product` makes one variant per entry, in order, each with the
      entry's title and price, a sku defaulting to "", and a fresh inventory. */
  lemma {:induction false} NewVariantsMatch(ds: seq<VariantData>)
    ensures forall j :: 0 <= j < |ds| ==> NewVariants(ds)[j] == NewVariant(ds[j])
  {
    if ds != [] {
      NewVariantsMatch(ds[..|ds| - 1]);
    }
  }

  // ---------------------------------------------------------------------------
  // Merging variants

  /** `next((v for v in variants if v.title == title), None)`, as a position,
      searching from `k` on. */
  function FirstWithTitle(vs: seq<Variant>, title: string, k: nat): (r: Option<nat>)
    ensures r.Some? ==> k <= r.value < |vs| && vs[r.value].title == title
    ensures r.Some? ==> forall i :: k <= i < r.value ==> vs[i].title != title
    ensures r.None? ==> forall i :: k <= i < |vs| ==> vs[i].title != title
    decreases |vs| - k
  {
    if k >= |vs| then None
    else if vs[k].title == title then Some(k)
    else FirstWithTitle(vs, title, k + 1)
  }

  /** An existing variant after an incoming one with its title: the new
      price, and the new sku only when one is given. */
  function Updated(v: Variant, d: VariantData): Variant {
    v.(price := d.price, sku := if d.sku.Some? then d.sku.value else v.sku)
  }

  /** One incoming variant: the first variant with its title is updated, or a
      new variant is appended. */
  function MergeOne(vs: seq<Variant>, d: VariantData): seq<Variant> {
    match FirstWithTitle(vs, d.title, 0)
    case Some(i) => vs[i := Updated(vs[i], d)]
    case None => vs + [NewVariant(d)]
  }

  /** The incoming variants in order, each searched for in the list as the
      earlier ones have left it. */
  function MergeAll(vs: seq<Variant>, ds: seq<VariantData>): seq<Variant> {
    if ds == [] then vs else MergeOne(MergeAll(vs, ds[..|ds| - 1]), ds[|ds| - 1])
  }

  function Titles(vs: seq<Variant>): set<string> {
    set i | 0 <= i < |vs| :: vs[i].title
  }

  function DataTitles(ds: seq<VariantData>): set<string> {
    set j | 0 <= j < |ds| :: ds[j].title
  }

  /** Whether `v` keeps the title and the inventory of `w`. */
  predicate SameSlot(v: Variant, w: Variant) {
    v.title == w.title && v.inventoryManagement == w.inventoryManagement && v.inventoryQuantity == w.inventoryQuantity
  }

  /** Merging never removes or reorders a variant, nor changes its title or
      inventory; it only appends, at most one variant per incoming one, and
      every appended variant has a store-managed inventory starting at zero. */
  lemma {:induction false} MergeKeepsExisting(vs: seq<Variant>, ds: seq<VariantData>)
    ensures var r := MergeAll(vs, ds);
      && |vs| <= |r| <= |vs| + |ds|
      && (forall i :: 0 <= i < |vs| ==> SameSlot(r[i], vs[i]))
      && (forall i :: |vs| <= i < |r| ==> r[i].inventoryManagement == InventoryManagement && r[i].inventoryQuantity == 0)
  {
    if ds != [] {
      var init := ds[..|ds| - 1];
      MergeKeepsExisting(vs, init);
      var m := MergeAll(vs, init);
      var d := ds[|ds| - 1];
      var r := MergeOne(m, d);
      forall i | 0 <= i < |vs| ensures SameSlot(r[i], vs[i]) {
        assert SameSlot(r[i], m[i]);
      }
      forall i | |vs| <= i < |r|
        ensures r[i].inventoryManagement == InventoryManagement && r[i].inventoryQuantity == 0
      {
        if i < |m| {
          assert SameSlot(r[i], m[i]);
        }
      }
    }
  }

  lemma {:induction false} MergeOneSlots(vs: seq<Variant>, d: VariantData)
    ensures var r := MergeOne(vs, d);
      && |vs| <= |r| <= |vs| + 1
      && (forall i :: 0 <= i < |vs| ==> SameSlot(r[i], vs[i]))
      && (|r| > |vs| ==> r[|vs|] == NewVariant(d))
      && Titles(r) == Titles(vs) + {d.title}
  {
    var r := MergeOne(vs, d);
    var f := FirstWithTitle(vs, d.title, 0);
    if f.Some? {
      forall t | t in Titles(r) ensures t in Titles(vs) + {d.title} {
        var i :| 0 <= i < |r| && r[i].title == t;
        assert r[i].title == vs[i].title;
      }
      forall t | t in Titles(vs) + {d.title} ensures t in Titles(r) {
        if t == d.title {
          assert r[f.value].title == t;
        } else {
          var i :| 0 <= i < |vs| && vs[i].title == t;
          assert r[i].title == t;
        }
      }
    } else {
      forall t | t in Titles(r) ensures t in Titles(vs) + {d.title} {
        var i :| 0 <= i < |r| && r[i].title == t;
        if i < |vs| {
          assert r[i] == vs[i];
        }
      }
      forall t | t in Titles(vs) + {d.title} ensures t in Titles(r) {
        if t == d.title {
          assert r[|vs|].title == t;
        } else {
          var i :| 0 <= i < |vs| && vs[i].title == t;
          assert r[i].title == t;
        }
      }
    }
  }

  /** After merging, the titles are those the product had and those that came in. */
  lemma {:induction false} MergeTitles(vs: seq<Variant>, ds: seq<VariantData>)
    ensures Titles(MergeAll(vs, ds)) == Titles(vs) + DataTitles(ds)
  {
    if ds == [] {
      assert DataTitles(ds) == {};
    } else {
      var init := ds[..|ds| - 1];
      var d := ds[|ds| - 1];
      MergeTitles(vs, init);
      MergeOneSlots(MergeAll(vs, init), d);
      DataTitlesSnoc(ds);
    }
  }

  lemma {:induction false} DataTitlesSnoc(ds: seq<VariantData>)
    requires ds != []
    ensures DataTitles(ds) == DataTitles(ds[..|ds| - 1]) + {ds[|ds| - 1].title}
  {
    var init := ds[..|ds| - 1];
    forall t | t in DataTitles(ds) ensures t in DataTitles(init) + {ds[|ds| - 1].title} {
      var j :| 0 <= j < |ds| && ds[j].title == t;
      if j < |init| {
        assert init[j] == ds[j];
      }
    }
    forall t | t in DataTitles(init) ensures t in DataTitles(ds) {
      var j :| 0 <= j < |init| && init[j].title == t;
      assert ds[j] == init[j];
    }
  }

  predicate UniqueTitles(vs: seq<Variant>) {
    forall i, j :: 0 <= i < j < |vs| ==> vs[i].title != vs[j].title
  }

  /** A product whose variant titles are distinct keeps them distinct: an
      incoming title already present updates, it does not duplicate. */
  lemma {:induction false} MergeKeepsTitlesUnique(vs: seq<Variant>, ds: seq<VariantData>)
    requires UniqueTitles(vs)
    ensures UniqueTitles(MergeAll(vs, ds))
  {
    if ds != [] {
      var init := ds[..|ds| - 1];
      var d := ds[|ds| - 1];
      MergeKeepsTitlesUnique(vs, init);
      var m := MergeAll(vs, init);
      MergeOneSlots(m, d);
      var r := MergeOne(m, d);
      if FirstWithTitle(m, d.title, 0).None? {
        forall i, j | 0 <= i < j < |r| ensures r[i].title != r[j].title {
          if j == |m| {
            assert r[i] == m[i];
          } else {
            assert r[i] == m[i] && r[j] == m[j];
          }
        }
      } else {
        forall i, j | 0 <= i < j < |r| ensures r[i].title != r[j].title {
          assert SameSlot(r[i], m[i]) && SameSlot(r[j], m[j]);
        }
      }
    }
  }

  /** The last incoming variant with a given title decides that title's price:
      the first variant carrying the title ends up with it. */
  lemma {:induction false} LastPriceWins(vs: seq<Variant>, ds: seq<VariantData>, j: nat)
    requires j < |ds|
    requires forall k :: j < k < |ds| ==> ds[k].title != ds[j].title
    ensures var r := MergeAll(vs, ds);
      FirstWithTitle(r, ds[j].title, 0).Some? && r[FirstWithTitle(r, ds[j].title, 0).value].price == ds[j].price
  {
    var init := ds[..|ds| - 1];
    var d := ds[|ds| - 1];
    var m := MergeAll(vs, init);
    var t := ds[j].title;
    if j == |ds| - 1 {
      MergeOneFinds(m, d);
    } else {
      assert forall k :: j < k < |init| ==> init[k] == ds[k];
      LastPriceWins(vs, init, j);
      assert init[j] == ds[j];
      MergeOneElsewhere(m, d, t);
    }
  }

  /** After one incoming variant, the first variant with its title holds its price. */
  lemma {:induction false} MergeOneFinds(vs: seq<Variant>, d: VariantData)
    ensures var r := MergeOne(vs, d);
      FirstWithTitle(r, d.title, 0).Some? && r[FirstWithTitle(r, d.title, 0).value].price == d.price
  {
    var r := MergeOne(vs, d);
    var f := FirstWithTitle(vs, d.title, 0);
    if f.Some? {
      FirstWithTitleAgain(vs, r, d.title, f.value);
    } else {
      FirstWithTitleAgain(vs, r, d.title, |vs|);
    }
  }

  /** A list that agrees with `vs` on titles before position `p`, and has
      the title at `p`, finds it at `p`. */
  lemma {:induction false} FirstWithTitleAgain(vs: seq<Variant>, r: seq<Variant>, title: string, p: nat)
    requires p < |r| && r[p].title == title
    requires p <= |vs|
    requires forall i :: 0 <= i < p ==> vs[i].title != title && r[i].title == vs[i].title
    ensures FirstWithTitle(r, title, 0) == Some(p)
  {
    FirstWithTitleFrom(r, title, 0, p);
  }

  lemma {:induction false} FirstWithTitleFrom(r: seq<Variant>, title: string, k: nat, p: nat)
    requires k <= p < |r| && r[p].title == title
    requires forall i :: k <= i < p ==> r[i].title != title
    ensures FirstWithTitle(r, title, k) == Some(p)
    decreases p - k
  {
    if k < p {
      FirstWithTitleFrom(r, title, k + 1, p);
    }
  }

  /** An incoming variant with another title leaves the first variant with
      `title` where it was and as it was. */
  lemma {:induction false} MergeOneElsewhere(vs: seq<Variant>, d: VariantData, title: string)
    requires d.title != title
    requires FirstWithTitle(vs, title, 0).Some?
    ensures var r := MergeOne(vs, d);
      FirstWithTitle(r, title, 0) == FirstWithTitle(vs, title, 0)
      && r[FirstWithTitle(vs, title, 0).value] == vs[FirstWithTitle(vs, title, 0).value]
  {
    var r := MergeOne(vs, d);
    var p := FirstWithTitle(vs, title, 0).value;
    MergeOneSlots(vs, d);
    var f := FirstWithTitle(vs, d.title, 0);
    if f.Some? {
      assert f.value != p;
    }
    FirstWithTitleAgain(vs, r, title, p);
  }

  // ---------------------------------------------------------------------------
  // get_products_without_prices

  /** A price that counts as missing: `None`, or a number equal to zero. */
  predicate MissingPrice(p: PriceValue) {
    p.NoPrice? || (p.Amount? && p.value == 0.0)
  }

  /** `any(variant.price is None or float(variant.price) == 0 ...)` from
      variant `k` on; `None` when `float()` raises before a missing price is
      found (`any` stops at the first one). */
  function HasMissingPrice(vs: seq<Variant>, k: nat): (r: Option<bool>)
    ensures r == Some(true) ==> exists i :: k <= i < |vs| && MissingPrice(vs[i].price)
    ensures r.None? ==> exists i :: k <= i < |vs| && vs[i].price.Unreadable?
    ensures r == Some(false) ==> forall i :: k <= i < |vs| ==> !MissingPrice(vs[i].price) && !vs[i].price.Unreadable?
    decreases |vs| - k
  {
    if k >= |vs| then Some(false)
    else if MissingPrice(vs[k].price) then Some(true)
    else if vs[k].price.Unreadable? then None
    else HasMissingPrice(vs, k + 1)
  }

  /** With readable prices, a product is flagged exactly when some variant has
      a missing price; a product without variants never is. */
  lemma {:induction false} HasMissingPriceExactly(vs: seq<Variant>, k: nat)
    requires k <= |vs|
    requires forall i :: k <= i < |vs| ==> !vs[i].price.Unreadable?
    ensures HasMissingPrice(vs, k) == Some(exists i :: k <= i < |vs| && MissingPrice(vs[i].price))
    decreases |vs| - k
  {
    if k < |vs| && !MissingPrice(vs[k].price) {
      HasMissingPriceExactly(vs, k + 1);
      assert (exists i :: k <= i < |vs| && MissingPrice(vs[i].price))
         == (exists i :: k + 1 <= i < |vs| && MissingPrice(vs[i].price));
    }
  }

  /** The products kept, in order, or `None` when the check raises for one of them. */
  function WithoutPrices(ps: seq<Product>): (r: Option<seq<Product>>)
    reads set p | p in ps
    ensures r.None? <==> exists i :: 0 <= i < |ps| && HasMissingPrice(ps[i].variants, 0).None?
  {
    if ps == [] then Some([])
    else match WithoutPrices(ps[..|ps| - 1])
      case None => None
      case Some(kept) =>
        var last := ps[|ps| - 1];
        match HasMissingPrice(last.variants, 0)
        case None => None
        case Some(missing) => Some(kept + (if missing then [last] else []))
  }

  /** `get_products_without_prices()` over the products the store returned. */
  method GetProductsWithoutPrices(products: seq<Product>) returns (result: Option<seq<Product>>)
    ensures result == WithoutPrices(products)
  {
    var kept: seq<Product> := [];
    for k := 0 to |products|
      invariant WithoutPrices(products[..k]) == Some(kept)
    {
      ghost var prefix := products[..k + 1];
      assert prefix[..k] == products[..k] && prefix[k] == products[k];
      var product := products[k];
      var missing := HasMissingPrice(product.variants, 0);
      if missing.None? {
        assert WithoutPrices(prefix) == None;
        NoneStaysNone(products, k + 1);
        return None;
      }
      ghost var before := kept;
      assert WithoutPrices(prefix) == Some(before + (if missing.value then [product] else []));
      if missing.value {
        kept := kept + [product];
      } else {
        assert before + [] == before;
      }
    }
    assert products[..|products|] == products;
    return Some(kept);
  }

  lemma {:induction false} NoneStaysNone(ps: seq<Product>, k: nat)
    requires 0 < k <= |ps| && WithoutPrices(ps[..k]) == None
    ensures WithoutPrices(ps) == None
    decreases |ps| - k
  {
    if k < |ps| {
      assert ps[..k + 1][..k] == ps[..k];
      NoneStaysNone(ps, k + 1);
    } else {
      assert ps[..k] == ps;
    }
  }

  /** The kept products are, in order, exactly those some variant of which
      has a missing price. */
  lemma {:induction false} WithoutPricesKeeps(ps: seq<Product>)
    requires WithoutPrices(ps).Some?
    ensures var kept := WithoutPrices(ps).value;
      && |kept| <= |ps|
      && (forall p :: p in kept <==> p in ps && HasMissingPrice(p.variants, 0) == Some(true))
  {
    if ps != [] {
      var init := ps[..|ps| - 1];
      WithoutPricesKeeps(init);
      var last := ps[|ps| - 1];
      assert ps == init + [last];
      var kept := WithoutPrices(ps).value;
      forall p ensures p in kept <==> p in ps && HasMissingPrice(p.variants, 0) == Some(true) {
        if p in init && p != last {
          assert p in WithoutPrices(init).value <==> p in kept;
        }
      }
    }
  }
}
