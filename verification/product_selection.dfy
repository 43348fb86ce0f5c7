/** The drink grid of the ordering page, filtered by the chosen category. */
module ProductSelection {
  import opened Wrappers
  import opened Types
  import opened Seqs

  const ALL: string := "all"

  /** `filteredProducts`: every product for "all", otherwise the products of
      that category, in their original order. */
  function FilteredProducts(products: seq<Product>, category: string): (r: seq<Product>)
    ensures category == ALL ==> r == products
    ensures category != ALL ==> forall i :: 0 <= i < |r| ==> r[i].category == category && r[i] in products
    ensures category != ALL ==> forall i :: 0 <= i < |products| && products[i].category == category ==> products[i] in r
  {
    if category == ALL then products
    else Filter(products, (p: Product) => p.category == category)
  }

  /** Filtering keeps the original order: it distributes over concatenation. */
  lemma FilteredProductsAppend(a: seq<Product>, b: seq<Product>, category: string)
    ensures FilteredProducts(a + b, category) == FilteredProducts(a, category) + FilteredProducts(b, category)
  {
    if category != ALL {
      FilterAppend(a, b, (p: Product) => p.category == category);
    }
  }

  /** `selectedProductId === product.id`: a card is highlighted when its
      product is the chosen one; with no choice, none is. */
  predicate IsSelectedCard(product: Product, selectedProductId: Option<int>)
  {
    selectedProductId == Some(product.id)
  }

  /** At most one card of a grid with distinct ids is highlighted. */
  lemma OneSelectedCard(products: seq<Product>, selectedProductId: Option<int>, i: nat, j: nat)
    requires i < |products| && j < |products| && products[i].id != products[j].id
    ensures !(IsSelectedCard(products[i], selectedProductId) && IsSelectedCard(products[j], selectedProductId))
  {
  }
}
