/**
 * The catalog page's `filteredProducts`: filter the catalog with the
 * criteria, then sort the survivors in place with the chosen comparator.
 */
module CatalogQuery {
  import opened Wrappers
  import opened Catalog
  import opened CatalogSort

  /** The sequence the page shows for the given catalog and criteria. */
  function Query(products: seq<Product>, c: Criteria): seq<Product> {
    SortSpec(c.sortBy, FilterProducts(products, c))
  }

  /** The computation itself: `products.filter(...)` copied into a fresh
      array, then `filtered.sort(...)` in place. */
  method FilteredProducts(products: seq<Product>, c: Criteria) returns (r: seq<Product>)
    ensures r == Query(products, c)
    ensures forall p :: p in r ==> p in products && Matches(p, c)
    ensures Sorted(c.sortBy, r)
  {
    var filtered := FilterProducts(products, c);
    var a := new Product[|filtered|](i requires 0 <= i < |filtered| => filtered[i]);
    assert a[..] == filtered;
    SortInPlace(a, c.sortBy);
    r := a[..];
    QuerySound(products, c);
    SortSorted(c.sortBy, filtered);
  }

  /** Soundness: every product shown comes from the catalog and passes all
      four tests. */
  lemma QuerySound(products: seq<Product>, c: Criteria)
    ensures forall p :: p in Query(products, c) ==> p in products && Matches(p, c)
  {
    var f := FilterProducts(products, c);
    SortPermutation(c.sortBy, f);
    FilterProductsMeaning(products, c);
    forall p | p in Query(products, c)
      ensures p in products && Matches(p, c)
    {
      assert p in multiset(Query(products, c));
      assert p in multiset(f);
    }
  }

  /** Completeness: a product passing all four tests is shown as often as it
      occurs in the catalog (once, when catalog entries are distinct); a
      failing product is not shown at all. */
  lemma QueryCounts(products: seq<Product>, c: Criteria)
    ensures forall p :: multiset(Query(products, c))[p] == if Matches(p, c) then multiset(products)[p] else 0
  {
    SortPermutation(c.sortBy, FilterProducts(products, c));
    FilterProductsMeaning(products, c);
  }

  /** The result is ordered by the selected mode (see `SortedMeaning`) and
      products with equal sort keys keep their catalog order. */
  lemma QueryOrdered(products: seq<Product>, c: Criteria, x: Product)
    ensures Sorted(c.sortBy, Query(products, c))
    ensures SameKey(c.sortBy, Query(products, c), x) == SameKey(c.sortBy, FilterProducts(products, c), x)
  {
    SortSorted(c.sortBy, FilterProducts(products, c));
    SortStable(c.sortBy, FilterProducts(products, c), x);
  }

  /** Re-running the query on its own output gives the same sequence. */
  lemma QueryIdempotent(products: seq<Product>, c: Criteria)
    ensures Query(Query(products, c), c) == Query(products, c)
  {
    var q := Query(products, c);
    QuerySound(products, c);
    FilterProductsAllPass(q, c);
    SortSorted(c.sortBy, FilterProducts(products, c));
    SortOfSorted(c.sortBy, q);
  }

  /** With the page's initial criteria the whole catalog is shown, sorted by
      name. */
  lemma DefaultQueryIsNameOrder(products: seq<Product>)
    ensures Query(products, DefaultCriteria) == SortSpec("name", products)
    ensures |Query(products, DefaultCriteria)| == |products|
  {
    forall p | p in products
      ensures Matches(p, DefaultCriteria)
    {
      DefaultMatchesAll(p);
    }
    FilterProductsAllPass(products, DefaultCriteria);
  }

  /** An empty catalog gives an empty result. */
  lemma EmptyCatalog(c: Criteria)
    ensures Query([], c) == []
  {
  }

  function PricedProduct(id: string, price: real): Product {
    Product(id, "Item " + id, "", price, None, "", "Books", "", 4.0, 0, true)
  }

  /** Three products priced 30, 10 and 20, sorted "price-low" without any
      filter, come out as 10, 20, 30. */
  lemma PriceLowExample()
    ensures
      var a, b, c := PricedProduct("a", 30.0), PricedProduct("b", 10.0), PricedProduct("c", 20.0);
      Query([a, b, c], Criteria("", "all", "price-low", "all", false)) == [b, c, a]
  {
    var a, b, c := PricedProduct("a", 30.0), PricedProduct("b", 10.0), PricedProduct("c", 20.0);
    var crit := Criteria("", "all", "price-low", "all", false);
    DefaultMatchesAll(a);
    DefaultMatchesAll(b);
    DefaultMatchesAll(c);
    assert FilterProducts([a, b, c], crit) == [a, b, c] by {
      FilterProductsAllPass([a, b, c], crit);
    }
    assert [a, b, c][..2] == [a, b];
    assert [a, b][..1] == [a];
    assert SortSpec("price-low", [a]) == [a];
    assert SortSpec("price-low", [a, b]) == Insert("price-low", b, [a]) == [b, a];
    assert Insert("price-low", c, [b, a]) == [b, c, a];
  }
}
