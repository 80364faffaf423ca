/**
 * The product catalog page's filter: the entities it works on and the
 * four tests a product must pass (search, category, price range, on sale).
 */
module Catalog {
  import opened Wrappers
  import opened JsText
  import opened Seqs

  /** The fixed set of category names offered by the category selector. */
  const ProductCategories: seq<string> := [
    "Electronics", "Clothing", "Books", "Home & Garden", "Sports & Outdoors",
    "Beauty & Personal Care", "Toys & Games", "Automotive"
  ]

  /** A catalog entry; prices and ratings are exact decimals. */
  datatype Product = Product(
    id: string,
    name: string,
    description: string,
    price: real,
    originalPrice: Option<real>,
    image: string,
    category: string,
    brand: string,
    rating: real,
    reviewCount: nat,
    inStock: bool)

  /** The page's five pieces of query state. */
  datatype Criteria = Criteria(
    searchTerm: string,
    selectedCategory: string,
    sortBy: string,
    priceRange: string,
    showOnSale: bool)

  /** The state the page starts in. */
  const DefaultCriteria := Criteria("", "all", "name", "all", false)

  // ---------------------------------------------------------------------------
  // Search

  /** Case-insensitive search over name, description and brand. */
  predicate MatchesSearch(p: Product, term: string) {
    var t := ToLowerCase(term);
    Includes(ToLowerCase(p.name), t)
    || Includes(ToLowerCase(p.description), t)
    || Includes(ToLowerCase(p.brand), t)
  }

  /** The empty search term matches every product; any other term matches
      exactly when its lower-cased form occurs in one of the three lower-cased
      fields. */
  lemma SearchMeaning(p: Product, term: string)
    ensures term == "" ==> MatchesSearch(p, term)
    ensures MatchesSearch(p, term) <==>
      (exists k :: OccursAt(ToLowerCase(p.name), ToLowerCase(term), k))
      || (exists k :: OccursAt(ToLowerCase(p.description), ToLowerCase(term), k))
      || (exists k :: OccursAt(ToLowerCase(p.brand), ToLowerCase(term), k))
  {
    var t := ToLowerCase(term);
    IncludesIffOccurs(ToLowerCase(p.name), t);
    IncludesIffOccurs(ToLowerCase(p.description), t);
    IncludesIffOccurs(ToLowerCase(p.brand), t);
  }

  /** The search does not depend on the case of the term. */
  lemma SearchIgnoresCase(p: Product, term: string)
    ensures MatchesSearch(p, term) == MatchesSearch(p, ToLowerCase(term))
  {
    ToLowerCaseIdempotent(term);
  }

  // ---------------------------------------------------------------------------
  // Category

  predicate MatchesCategory(p: Product, selected: string) {
    selected == "all" || p.category == selected
  }

  /** The values the category selector can send: "all" or one of the
      listed categories. */
  predicate CategoryOption(selected: string) {
    selected == "all" || selected in ProductCategories
  }

  /** Under a selectable category, a product passes exactly when the option
      is "all" or names its category; a product whose category is not
      listed shows only under "all". */
  lemma CategoryOptionMeaning(p: Product, selected: string)
    requires CategoryOption(selected)
    ensures MatchesCategory(p, selected) <==> selected == "all" || p.category == selected
    ensures p.category !in ProductCategories ==> (MatchesCategory(p, selected) <==> selected == "all")
  {
  }

  // ---------------------------------------------------------------------------
  // Price range

  /** The decoded form of a price-range option string: "all", or the numbers
      `Number` gives for the pieces before and after the first '-'
      (`max` is undefined when there is no '-'). */
  datatype PriceBound = Unbounded | Bounded(min: JsNumber, max: Option<JsNumber>)

  function DecodePriceRange(range: string): PriceBound {
    if range == "all" then Unbounded
    else
      var parts := Split(range, '-');
      Bounded(ToNumber(parts[0]), if |parts| >= 2 then Some(ToNumber(parts[1])) else None)
  }

  /** `price >= min && (max ? price <= max : true)`; comparisons with NaN are
      false, and a missing, NaN or zero `max` is falsy. */
  predicate WithinBound(price: real, bound: PriceBound) {
    match bound
    case Unbounded => true
    case Bounded(min, max) =>
      && (min.Num? && price >= min.value)
      && (if max.Some? && Truthy(max.value) then price <= max.value.value else true)
  }

  predicate MatchesPrice(p: Product, range: string) {
    WithinBound(p.price, DecodePriceRange(range))
  }

  /** "lo-hi" with two digit strings (either may be empty, which `Number`
      reads as 0) keeps lo <= price <= hi, both ends
      inclusive; a zero upper end is ignored. */
  lemma {:induction false} PriceRangeBetween(lo: string, hi: string, price: real)
    requires AllDigits(lo) && AllDigits(hi)
    ensures DecodePriceRange(lo + "-" + hi) == Bounded(Num(DigitsValue(lo) as real), Some(Num(DigitsValue(hi) as real)))
    ensures WithinBound(price, DecodePriceRange(lo + "-" + hi)) <==>
      DigitsValue(lo) as real <= price && (DigitsValue(hi) == 0 || price <= DigitsValue(hi) as real)
  {
    SplitAtSeparator(lo, hi, '-');
    assert (lo + "-" + hi)[|lo|] == '-';
  }

  /** A single digit string "lo" keeps price >= lo with no upper end; the
      empty string keeps every non-negative price. */
  lemma {:induction false} PriceRangeAtLeast(lo: string, price: real)
    requires AllDigits(lo)
    ensures DecodePriceRange(lo) == Bounded(Num(DigitsValue(lo) as real), None)
    ensures WithinBound(price, DecodePriceRange(lo)) <==> DigitsValue(lo) as real <= price
  {
    SplitWithoutSeparator(lo, '-');
    assert |lo| > 0 ==> IsDigit(lo[0]);
  }

  /** The option strings the price selector offers, decoded: "$0 - $25". */
  lemma PriceOption0To25(price: real)
    ensures WithinBound(price, DecodePriceRange("0-25")) <==> 0.0 <= price <= 25.0
  {
    assert "0-25" == "0" + "-" + "25";
    assert DigitsValue("25") == 25 by { assert "25"[..1] == "2"; }
    PriceRangeBetween("0", "25", price);
  }

  /** "$25 - $50". */
  lemma PriceOption25To50(price: real)
    ensures WithinBound(price, DecodePriceRange("25-50")) <==> 25.0 <= price <= 50.0
  {
    assert "25-50" == "25" + "-" + "50";
    assert DigitsValue("25") == 25 by { assert "25"[..1] == "2"; }
    assert DigitsValue("50") == 50 by { assert "50"[..1] == "5"; }
    PriceRangeBetween("25", "50", price);
  }

  /** "$50 - $100". */
  lemma PriceOption50To100(price: real)
    ensures WithinBound(price, DecodePriceRange("50-100")) <==> 50.0 <= price <= 100.0
  {
    assert "50-100" == "50" + "-" + "100";
    assert DigitsValue("50") == 50 by { assert "50"[..1] == "5"; }
    assert DigitsValue("100") == 100 by { assert "100"[..2] == "10"; assert "10"[..1] == "1"; }
    PriceRangeBetween("50", "100", price);
  }

  /** "$100 - $200". */
  lemma PriceOption100To200(price: real)
    ensures WithinBound(price, DecodePriceRange("100-200")) <==> 100.0 <= price <= 200.0
  {
    assert "100-200" == "100" + "-" + "200";
    assert DigitsValue("100") == 100 by { assert "100"[..2] == "10"; assert "10"[..1] == "1"; }
    assert DigitsValue("200") == 200 by { assert "200"[..2] == "20"; assert "20"[..1] == "2"; }
    PriceRangeBetween("100", "200", price);
  }

  /** "$200+": no upper end. */
  lemma PriceOption200Plus(price: real)
    ensures WithinBound(price, DecodePriceRange("200")) <==> 200.0 <= price
  {
    assert DigitsValue("200") == 200 by { assert "200"[..2] == "20"; assert "20"[..1] == "2"; }
    PriceRangeAtLeast("200", price);
  }

  /** A boundary price passes both neighbouring ranges. */
  lemma BoundaryPriceInBothRanges()
    ensures WithinBound(25.0, DecodePriceRange("0-25")) && WithinBound(25.0, DecodePriceRange("25-50"))
  {
    PriceOption0To25(25.0);
    PriceOption25To50(25.0);
  }

  // ---------------------------------------------------------------------------
  // On sale

  /** `!showOnSale || product.originalPrice`: an original price that is
      present and non-zero; it is not compared with the current price. */
  predicate MatchesOnSale(p: Product, showOnSale: bool) {
    !showOnSale || (p.originalPrice.Some? && p.originalPrice.value != 0.0)
  }

  /** The on-sale test never looks at the current price: a product with a
      non-zero original price passes even when it costs as much as, or more
      than, that original price; a product without one fails. */
  lemma OnSaleIgnoresPrice(p: Product, price: real)
    requires p.originalPrice.Some? && p.originalPrice.value != 0.0
    ensures MatchesOnSale(p.(price := price), true)
    ensures !MatchesOnSale(p.(originalPrice := None), true)
    ensures !MatchesOnSale(p.(originalPrice := Some(0.0)), true)
  {
  }

  // ---------------------------------------------------------------------------
  // The whole filter

  predicate Matches(p: Product, c: Criteria) {
    && MatchesSearch(p, c.searchTerm)
    && MatchesCategory(p, c.selectedCategory)
    && MatchesPrice(p, c.priceRange)
    && MatchesOnSale(p, c.showOnSale)
  }

  /** `products.filter(...)`: the passing products, in input order. */
  function FilterProducts(ps: seq<Product>, c: Criteria): seq<Product> {
    Filter(ps, p => Matches(p, c))
  }

  /** Soundness and completeness of the filter: a passing product keeps its
      multiplicity, a failing one is gone, and the survivors keep their
      catalog order. */
  lemma FilterProductsMeaning(ps: seq<Product>, c: Criteria)
    ensures forall p :: p in FilterProducts(ps, c) ==> p in ps && Matches(p, c)
    ensures forall p :: multiset(FilterProducts(ps, c))[p] == if Matches(p, c) then multiset(ps)[p] else 0
    ensures IsSubsequence(FilterProducts(ps, c), ps)
  {
    FilterCounts(ps, p => Matches(p, c));
    FilterIsSubsequence(ps, p => Matches(p, c));
  }

  /** Filtering products that all pass changes nothing. */
  lemma FilterProductsAllPass(ps: seq<Product>, c: Criteria)
    requires forall p :: p in ps ==> Matches(p, c)
    ensures FilterProducts(ps, c) == ps
  {
    FilterAllKept(ps, p => Matches(p, c));
  }

  /** The default criteria let every product through. */
  lemma DefaultMatchesAll(p: Product)
    ensures Matches(p, DefaultCriteria)
  {
    assert ToLowerCase("") == "";
  }
}
