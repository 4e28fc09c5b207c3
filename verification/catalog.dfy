/** The product catalog and the two-stage filter that derives the visible
    products from the active main tab and the active sub-filter. */
module Catalog {

  /** The main tab: which kind of product is listed. */
  datatype ProductType = Cookie | Brownie

  /** The sub-category of a product. */
  datatype Category = Classico | Recheado

  /** The sub-filter selector: `All` places no restriction on the category. */
  datatype SubFilter = All | Only(category: Category)

  /** A catalog product; name, description, price and image play no part in
      the page logic and are not modelled. */
  datatype Product = Product(id: string, kind: ProductType, category: Category)

  /** The second-stage predicate: does the sub-filter let this category through? */
  predicate Admits(sub: SubFilter, c: Category)
  {
    sub.All? || sub.category == c
  }

  /** The combined visibility predicate, stated in one place. */
  predicate Visible(tab: ProductType, sub: SubFilter, p: Product)
  {
    p.kind == tab && Admits(sub, p.category)
  }

  /** `s` occurs in `t` in order, possibly with gaps. */
  predicate IsSubsequence<T(==)>(s: seq<T>, t: seq<T>)
    decreases |t|
  {
    if |s| == 0 then true
    else if |t| == 0 then false
    else if s[0] == t[0] then IsSubsequence(s[1..], t[1..])
    else IsSubsequence(s, t[1..])
  }

  /** First stage of the filter: keep the products of the active type. */
  function FilterByType(catalog: seq<Product>, tab: ProductType): (r: seq<Product>)
    ensures |r| <= |catalog|
    ensures forall i :: 0 <= i < |r| ==> r[i].kind == tab
  {
    if |catalog| == 0 then []
    else (if catalog[0].kind == tab then [catalog[0]] else []) + FilterByType(catalog[1..], tab)
  }

  /** Second stage of the filter: keep the products the sub-filter admits. */
  function FilterByCategory(products: seq<Product>, sub: SubFilter): (r: seq<Product>)
    ensures |r| <= |products|
    ensures forall i :: 0 <= i < |r| ==> Admits(sub, r[i].category)
  {
    if |products| == 0 then []
    else (if Admits(sub, products[0].category) then [products[0]] else []) + FilterByCategory(products[1..], sub)
  }

  /** The visible products: the type filter followed by the sub-filter. A
      product is shown exactly when it is in the catalog and passes both
      filters, and the shown products keep the catalog's order. */
  function FilteredProducts(catalog: seq<Product>, tab: ProductType, sub: SubFilter): (r: seq<Product>)
    ensures forall p :: p in r <==> p in catalog && Visible(tab, sub, p)
    ensures IsSubsequence(r, catalog)
  {
    FilteredIsSelect(catalog, tab, sub);
    SelectMembershipAll(catalog, tab, sub);
    SelectIsSubsequence(catalog, tab, sub);
    FilterByCategory(FilterByType(catalog, tab), sub)
  }

  /** Reference definition: a single pass that keeps exactly the visible products. */
  function Select(catalog: seq<Product>, tab: ProductType, sub: SubFilter): seq<Product>
  {
    if |catalog| == 0 then []
    else (if Visible(tab, sub, catalog[0]) then [catalog[0]] else []) + Select(catalog[1..], tab, sub)
  }

  /** The two stages together are the one-pass filter on the combined predicate. */
  lemma {:induction false} FilteredIsSelect(catalog: seq<Product>, tab: ProductType, sub: SubFilter)
    ensures FilterByCategory(FilterByType(catalog, tab), sub) == Select(catalog, tab, sub)
    decreases |catalog|
  {
    if |catalog| > 0 {
      FilteredIsSelect(catalog[1..], tab, sub);
      var head := if catalog[0].kind == tab then [catalog[0]] else [];
      FilterByCategoryAppend(head, FilterByType(catalog[1..], tab), sub);
    }
  }

  /** The category filter distributes over concatenation. */
  lemma {:induction false} FilterByCategoryAppend(a: seq<Product>, b: seq<Product>, sub: SubFilter)
    ensures FilterByCategory(a + b, sub) == FilterByCategory(a, sub) + FilterByCategory(b, sub)
    decreases |a|
  {
    if |a| == 0 {
      assert a + b == b;
    } else {
      var c := a + b;
      assert c[0] == a[0] && c[1..] == a[1..] + b;
      FilterByCategoryAppend(a[1..], b, sub);
    }
  }

  /** A product is shown as often as it occurs in the catalog when it satisfies
      the predicate, and never otherwise. */
  lemma {:induction false} SelectMultiplicity(catalog: seq<Product>, tab: ProductType, sub: SubFilter, p: Product)
    ensures multiset(Select(catalog, tab, sub))[p] == if Visible(tab, sub, p) then multiset(catalog)[p] else 0
    decreases |catalog|
  {
    if |catalog| > 0 {
      var head := if Visible(tab, sub, catalog[0]) then [catalog[0]] else [];
      SelectMultiplicity(catalog[1..], tab, sub, p);
      assert catalog == [catalog[0]] + catalog[1..];
      assert multiset(catalog) == multiset([catalog[0]]) + multiset(catalog[1..]);
      assert multiset(Select(catalog, tab, sub)) == multiset(head) + multiset(Select(catalog[1..], tab, sub));
    }
  }

  /** A product is shown exactly when it is in the catalog and satisfies the predicate. */
  lemma SelectMembership(catalog: seq<Product>, tab: ProductType, sub: SubFilter, p: Product)
    ensures p in Select(catalog, tab, sub) <==> p in catalog && Visible(tab, sub, p)
  {
  }

  /** The membership property, for every product at once. */
  lemma SelectMembershipAll(catalog: seq<Product>, tab: ProductType, sub: SubFilter)
    ensures forall p :: p in Select(catalog, tab, sub) <==> p in catalog && Visible(tab, sub, p)
  {
    forall p
      ensures p in Select(catalog, tab, sub) <==> p in catalog && Visible(tab, sub, p)
    {
      SelectMembership(catalog, tab, sub, p);
    }
  }

  /** The visible products appear in catalog order. */
  lemma {:induction false} SelectIsSubsequence(catalog: seq<Product>, tab: ProductType, sub: SubFilter)
    ensures IsSubsequence(Select(catalog, tab, sub), catalog)
    decreases |catalog|
  {
    if |catalog| > 0 {
      SelectIsSubsequence(catalog[1..], tab, sub);
      var rest := Select(catalog[1..], tab, sub);
      if Visible(tab, sub, catalog[0]) {
        assert ([catalog[0]] + rest)[1..] == rest;
      } else {
        assert [] + rest == rest;
        SubsequenceOfTail(rest, catalog);
      }
    }
  }

  /** A subsequence of the tail is a subsequence of the whole. */
  lemma {:induction false} SubsequenceOfTail<T>(s: seq<T>, t: seq<T>)
    requires |t| > 0 && IsSubsequence(s, t[1..])
    ensures IsSubsequence(s, t)
    decreases |s| + |t|
  {
    if |s| > 0 && s[0] == t[0] {
      SubsequenceDropHead(s, t[1..]);
    }
  }

  /** Dropping the first element of a subsequence keeps it a subsequence. */
  lemma {:induction false} SubsequenceDropHead<T>(s: seq<T>, t: seq<T>)
    requires |s| > 0 && IsSubsequence(s, t)
    ensures IsSubsequence(s[1..], t)
    decreases |s| + |t|
  {
    if s[0] == t[0] {
      if |s| > 1 {
        SubsequenceOfTail(s[1..], t);
      }
    } else {
      SubsequenceDropHead(s, t[1..]);
      if |s| > 1 {
        SubsequenceOfTail(s[1..], t);
      }
    }
  }

  /** Everything the filter promises, stated about the page's own two-stage filter:
      each shown product is from the catalog and matches the tab and the sub-filter,
      every matching catalog product is shown as often as it occurs, and the order
      is the catalog's. */
  lemma FilteredProductsSpec(catalog: seq<Product>, tab: ProductType, sub: SubFilter)
    ensures forall p :: p in FilteredProducts(catalog, tab, sub) <==> p in catalog && Visible(tab, sub, p)
    ensures forall p :: multiset(FilteredProducts(catalog, tab, sub))[p]
                        == if Visible(tab, sub, p) then multiset(catalog)[p] else 0
    ensures IsSubsequence(FilteredProducts(catalog, tab, sub), catalog)
  {
    FilteredIsSelect(catalog, tab, sub);
    forall p
      ensures multiset(Select(catalog, tab, sub))[p] == if Visible(tab, sub, p) then multiset(catalog)[p] else 0
    {
      SelectMultiplicity(catalog, tab, sub, p);
    }
  }

  /** With the sub-filter `All` the second stage changes nothing: the page shows
      every product of the active type. */
  lemma {:induction false} AllShowsWholeType(catalog: seq<Product>, tab: ProductType)
    ensures FilteredProducts(catalog, tab, All) == FilterByType(catalog, tab)
  {
    FilterByCategoryAll(FilterByType(catalog, tab));
  }

  /** `All` admits every product. */
  lemma {:induction false} FilterByCategoryAll(products: seq<Product>)
    ensures FilterByCategory(products, All) == products
    decreases |products|
  {
    if |products| > 0 {
      FilterByCategoryAll(products[1..]);
      assert [products[0]] + products[1..] == products;
    }
  }

  /** The empty-state message is shown exactly when no catalog product matches. */
  lemma EmptyStateExactly(catalog: seq<Product>, tab: ProductType, sub: SubFilter)
    ensures |FilteredProducts(catalog, tab, sub)| == 0
            <==> forall i :: 0 <= i < |catalog| ==> !Visible(tab, sub, catalog[i])
  {
    FilteredProductsSpec(catalog, tab, sub);
    var r := FilteredProducts(catalog, tab, sub);
    if |r| > 0 {
      assert r[0] in r;
    }
    if exists i :: 0 <= i < |catalog| && Visible(tab, sub, catalog[i]) {
      var i :| 0 <= i < |catalog| && Visible(tab, sub, catalog[i]);
      assert catalog[i] in catalog;
    }
  }
}
