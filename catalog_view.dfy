/**
  The catalog view: the products shown for the selected category, and the
  category buttons derived from the loaded products.
 */
module CatalogView {
  import opened Catalog
  import StringOrder

  /** The selection that shows every product. */
  const AllCategories: string := "all"

  /** The products of one category, in catalog order. */
  function InCategory(products: seq<Product>, category: string): (r: seq<Product>)
    ensures forall p :: p in r <==> p in products && p.categorie == category
    ensures |r| <= |products|
  {
    if products == [] then []
    else
      assert forall p :: p in products <==> p == products[0] || p in products[1..];
      (if products[0].categorie == category then [products[0]] else []) + InCategory(products[1..], category)
  }

  /** The products shown: everything for the sentinel, otherwise the products of that category in catalog order. */
  function FilteredProducts(products: seq<Product>, selected: string): (r: seq<Product>)
    ensures selected == AllCategories ==> r == products
    ensures selected != AllCategories ==> forall p :: p in r <==> p in products && p.categorie == selected
  {
    if selected == AllCategories then products else InCategory(products, selected)
  }

  /** Filtering distributes over concatenation, so the kept products keep their relative order. */
  lemma {:induction false} InCategoryAppend(a: seq<Product>, b: seq<Product>, category: string)
    ensures InCategory(a + b, category) == InCategory(a, category) + InCategory(b, category)
    decreases |a|
  {
    if a != [] {
      assert (a + b)[1..] == a[1..] + b;
      InCategoryAppend(a[1..], b, category);
    } else {
      assert a + b == b;
    }
  }

  /** A catalog that lies wholly in the category is shown unchanged. */
  lemma {:induction false} InCategoryAll(products: seq<Product>, category: string)
    requires forall i :: 0 <= i < |products| ==> products[i].categorie == category
    ensures InCategory(products, category) == products
    decreases |products|
  {
    if products != [] {
      InCategoryAll(products[1..], category);
      assert products == [products[0]] + products[1..];
    }
  }

  /** The filtered view is a subsequence of the catalog: removing what it drops gives it back. */
  lemma {:induction false} InCategorySubsequence(products: seq<Product>, category: string)
    ensures IsSubsequence(InCategory(products, category), products)
    decreases |products|
  {
    if products != [] {
      InCategorySubsequence(products[1..], category);
      var r := InCategory(products, category);
      if products[0].categorie != category {
        assert r == InCategory(products[1..], category);
        if r != [] {
          assert r[0] in r;
        }
      }
    }
  }

  /** `a` can be obtained from `b` by deleting elements. */
  predicate IsSubsequence<T(==)>(a: seq<T>, b: seq<T>)
    decreases |b|
  {
    if a == [] then true
    else if b == [] then false
    else if a[0] == b[0] then IsSubsequence(a[1..], b[1..])
    else IsSubsequence(a, b[1..])
  }

  /** The non-empty strings of `xs`, in order. */
  function NonEmpty(xs: seq<string>): (r: seq<string>)
    ensures forall x :: x in r <==> x in xs && x != ""
  {
    if xs == [] then []
    else
      assert forall x :: x in xs <==> x == xs[0] || x in xs[1..];
      (if xs[0] != "" then [xs[0]] else []) + NonEmpty(xs[1..])
  }

  /** The category buttons: the distinct non-empty categories, ascending. */
  function Categories(products: seq<Product>): (cs: seq<string>)
    ensures StringOrder.StrictlySorted(cs)
    ensures StringOrder.Distinct(cs)
    ensures "" !in cs
    ensures forall c :: c in cs <==> c != "" && exists p :: p in products && p.categorie == c
  {
    var values := NonEmpty(CategoryValues(products));
    StringOrder.UniqueSortedSpec(values);
    var cs := StringOrder.UniqueSorted(values);
    StringOrder.StrictlySortedDistinct(cs);
    assert forall c :: c in CategoryValues(products) <==> exists p :: p in products && p.categorie == c by {
      forall c ensures c in CategoryValues(products) ==> exists p :: p in products && p.categorie == c {
        if c in CategoryValues(products) {
          var i :| 0 <= i < |products| && CategoryValues(products)[i] == c;
          assert products[i] in products;
        }
      }
      forall c ensures (exists p :: p in products && p.categorie == c) ==> c in CategoryValues(products) {
        if p :| p in products && p.categorie == c {
          var i :| 0 <= i < |products| && products[i] == p;
          assert CategoryValues(products)[i] == c;
        }
      }
    }
    cs
  }

  /** The category list is the only strictly ascending list of the catalog's non-empty categories. */
  lemma CategoriesUnique(products: seq<Product>, cs: seq<string>)
    requires StringOrder.StrictlySorted(cs)
    requires forall c :: c in cs <==> c != "" && exists p :: p in products && p.categorie == c
    ensures cs == Categories(products)
  {
    StringOrder.StrictlySortedUnique(cs, Categories(products));
  }

  /** The loaded catalog's categories are never empty, so the button list equals the loader's category list. */
  lemma CategoriesOfLoadedCatalog(outcome: FetchOutcome)
    ensures Categories(GetProducts(outcome)) == GetCategories(outcome)
  {
    var ps := GetProducts(outcome);
    forall c ensures c in GetCategories(outcome) <==> c != "" && exists p :: p in ps && p.categorie == c {
      if p :| p in ps && p.categorie == c {
        var i :| 0 <= i < |ps| && ps[i] == p;
      }
    }
    CategoriesUnique(ps, GetCategories(outcome));
  }
}
