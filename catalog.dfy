/** The product catalog as the home page sees it: product records, the stock
    label shown on each card, and the search / category / price filters that
    narrow the grid. */
module Catalog {
  import opened Seqs
  import opened Text

  /** One record of the read-only catalog. */
  datatype Product = Product(
    id: int,
    name: string,
    description: string,
    category: string,
    price: real,
    image: string,
    stock: int)

  datatype StockLevel = OutOfStock | LowStock | InStock

  /** The label a product card shows for its stock count: exactly 0 is out of
      stock, anything else up to 10 (negative counts included) is low, above 10
      is plain "in stock". */
  function StockLevelOf(stock: int): (l: StockLevel)
    ensures l == OutOfStock <==> stock == 0
    ensures l == LowStock <==> stock != 0 && stock <= 10
    ensures l == InStock <==> stock > 10
  {
    if stock == 0 then OutOfStock
    else if stock <= 10 then LowStock
    else InStock
  }

  /** The price select: `all`, or a `min-max` pair already converted to
      numbers, where an upper bound of 0 (an empty `max`) means unbounded. */
  datatype PriceRange = AnyPrice | Between(min: real, max: real)

  function InPriceRange(price: real, min: real, max: real): (r: bool)
    ensures r ==> min <= price
    ensures r && max != 0.0 ==> price <= max
  {
    if max != 0.0 then min <= price && price <= max else price >= min
  }

  /** The search box text, lower-cased and then trimmed. */
  function SearchQuery(raw: string): (r: string)
    ensures |r| <= |raw|
    ensures forall i :: 0 <= i < |r| ==> !('A' <= r[i] <= 'Z')
  {
    TrimKeepsLower(Lower(raw));
    Trim(Lower(raw))
  }

  /** A select whose value is empty counts as `all`. */
  function CategoryChoice(category: string): (r: string)
    ensures r != ""
    ensures category != "" ==> r == category
  {
    if category == "" then "all" else category
  }

  /** Case-insensitive substring search over name, description and category. */
  function MatchesSearch(p: Product, query: string): (r: bool)
    ensures query == [] ==> r
  {
    || Includes(Lower(p.name), query)
    || Includes(Lower(p.description), query)
    || Includes(Lower(p.category), query)
  }

  function SearchFilter(query: string): Product -> bool {
    (p: Product) => MatchesSearch(p, query)
  }

  function CategoryFilter(category: string): Product -> bool {
    (p: Product) => p.category == category
  }

  function PriceFilter(min: real, max: real): Product -> bool {
    (p: Product) => InPriceRange(p.price, min, max)
  }

  /** `if (active) filtered = filtered.filter(keep)` */
  function Stage(ps: seq<Product>, active: bool, keep: Product -> bool): seq<Product> {
    if active then Keep(ps, keep) else ps
  }

  /** The home page's `filterProducts`: search, then category, then price. */
  function FilterProducts(products: seq<Product>, search: string, category: string, price: PriceRange): (r: seq<Product>)
    ensures |r| <= |products|
  {
    var query := SearchQuery(search);
    var cat := CategoryChoice(category);
    var bySearch := Stage(products, query != "", SearchFilter(query));
    var byCategory := Stage(bySearch, cat != "all", CategoryFilter(cat));
    match price
    case AnyPrice => byCategory
    case Between(min, max) => Keep(byCategory, PriceFilter(min, max))
  }

  /** A product passes every filter that is switched on. */
  predicate Selected(p: Product, search: string, category: string, price: PriceRange) {
    var query := SearchQuery(search);
    var cat := CategoryChoice(category);
    && (query == "" || MatchesSearch(p, query))
    && (cat == "all" || p.category == cat)
    && (price.AnyPrice? || InPriceRange(p.price, price.min, price.max))
  }

  function SelectedFilter(search: string, category: string, price: PriceRange): Product -> bool {
    (p: Product) => Selected(p, search, category, price)
  }

  /** A stage that may be switched off is a filter that passes everything
      when it is off. */
  lemma StageAsKeep(ps: seq<Product>, active: bool, keep: Product -> bool, g: Product -> bool)
    requires forall p :: g(p) == (!active || keep(p))
    ensures Stage(ps, active, keep) == Keep(ps, g)
  {
    if active {
      KeepExt(ps, keep, g);
    } else {
      KeepAll(ps, g);
    }
  }

  /** The three filters in sequence are one filter by their conjunction. */
  lemma FilterProductsExact(products: seq<Product>, search: string, category: string, price: PriceRange)
    ensures FilterProducts(products, search, category, price) == Keep(products, SelectedFilter(search, category, price))
  {
    var query := SearchQuery(search);
    var cat := CategoryChoice(category);
    var g1 := (p: Product) => query == "" || MatchesSearch(p, query);
    var g2 := (p: Product) => cat == "all" || p.category == cat;
    var g3 := (p: Product) => price.AnyPrice? || InPriceRange(p.price, price.min, price.max);
    var g12 := (p: Product) => g1(p) && g2(p);
    var g123 := (p: Product) => g12(p) && g3(p);

    var bySearch := Stage(products, query != "", SearchFilter(query));
    StageAsKeep(products, query != "", SearchFilter(query), g1);
    var byCategory := Stage(bySearch, cat != "all", CategoryFilter(cat));
    StageAsKeep(bySearch, cat != "all", CategoryFilter(cat), g2);
    KeepKeep(products, g1, g2, g12);
    var byPrice := match price
      case AnyPrice => byCategory
      case Between(min, max) => Keep(byCategory, PriceFilter(min, max));
    match price {
      case AnyPrice => KeepAll(byCategory, g3);
      case Between(min, max) => KeepExt(byCategory, PriceFilter(min, max), g3);
    }
    KeepKeep(products, g12, g3, g123);
    forall p: Product
      ensures g123(p) == SelectedFilter(search, category, price)(p)
    {
      assert g123(p) == (g1(p) && g2(p) && g3(p));
      assert SelectedFilter(search, category, price)(p) == Selected(p, search, category, price);
    }
    KeepExt(products, g123, SelectedFilter(search, category, price));
    assert FilterProducts(products, search, category, price) == byPrice;
  }

  /** Every product shown comes from the catalog, in catalog order, and passes
      every active filter. */
  lemma FilterProductsSound(products: seq<Product>, search: string, category: string, price: PriceRange)
    ensures IsSubsequence(FilterProducts(products, search, category, price), products)
    ensures forall i :: 0 <= i < |FilterProducts(products, search, category, price)| ==>
      Selected(FilterProducts(products, search, category, price)[i], search, category, price)
  {
    FilterProductsExact(products, search, category, price);
    KeepIsSubsequence(products, SelectedFilter(search, category, price));
  }

  /** Every catalog product that passes every active filter is shown. */
  lemma FilterProductsComplete(products: seq<Product>, search: string, category: string, price: PriceRange)
    ensures forall i :: 0 <= i < |products| && Selected(products[i], search, category, price) ==>
      products[i] in FilterProducts(products, search, category, price)
  {
    FilterProductsExact(products, search, category, price);
    KeepMembers(products, SelectedFilter(search, category, price));
  }

  /** With a blank search, category `all` and price `all` the whole catalog
      is shown unchanged. */
  lemma FilterProductsNoFilter(products: seq<Product>, search: string)
    requires SearchQuery(search) == ""
    ensures FilterProducts(products, search, "all", AnyPrice) == products
  {
    FilterProductsExact(products, search, "all", AnyPrice);
    KeepAll(products, SelectedFilter(search, "all", AnyPrice));
  }

  /** The search box is case-insensitive: two inputs that lower-case alike
      show the same products. */
  lemma SearchIgnoresCase(products: seq<Product>, s: string, t: string, category: string, price: PriceRange)
    requires Lower(s) == Lower(t)
    ensures FilterProducts(products, s, category, price) == FilterProducts(products, t, category, price)
  {
  }
}
