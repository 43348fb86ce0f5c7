/** The admin service: catalogue CRUD against the remote store with a
    browser-storage copy per entity, or against that copy alone when the store
    is not configured. The four entities share one shape, modelled once as
    `Table`; only sizes differ, because their rows spell `price_modifier`. */
module AdminService {
  import opened Wrappers
  import opened Types
  import opened Rows
  import opened Text
  import opened ById

  const STORE_HOST: string := "supabase.co"

  const PRODUCT_NOT_FOUND: string := "Product not found"
  const TOPPING_NOT_FOUND: string := "Topping not found"
  const SIZE_NOT_FOUND: string := "Size not found"
  const CATEGORY_NOT_FOUND: string := "Category not found"

  /** `isSupabaseConfigured`: the URL is set, non-empty and mentions the host. */
  predicate IsConfigured(url: Option<string>)
  {
    url.Some? && url.value != [] && Contains(url.value, STORE_HOST)
  }

  /** The store counts as configured exactly when the URL is set and contains
      "supabase.co"; the emptiness test adds nothing. */
  lemma ConfiguredIffHost(url: Option<string>)
    ensures IsConfigured(url) <==> url.Some? && exists i :: OccursAt(url.value, STORE_HOST, i)
  {
    if url.Some? {
      ContainsIffOccurs(url.value, STORE_HOST);
      if url.value == [] {
        assert !Contains(url.value, STORE_HOST);
      }
    }
  }

  // ---------------------------------------------------------------- partial updates

  /** `Partial<Product>` without the id, as the admin panel sends it. */
  datatype ProductPatch = ProductPatch(name: Option<string>, price: Option<int>, image: Option<string>, category: Option<string>)

  datatype ToppingPatch = ToppingPatch(name: Option<string>, price: Option<int>)

  datatype SizePatch = SizePatch(name: Option<string>, priceModifier: Option<int>)

  datatype CategoryPatch = CategoryPatch(name: Option<string>)

  /** `{ ...p, ...patch }`: the given fields win, the id and the rest stay. */
  function PatchProduct(p: Product, patch: ProductPatch): (r: Product)
    ensures r.id == p.id
    ensures r.name == patch.name.GetOr(p.name) && r.price == patch.price.GetOr(p.price)
    ensures r.image == patch.image.GetOr(p.image) && r.category == patch.category.GetOr(p.category)
    ensures patch == ProductPatch(None, None, None, None) ==> r == p
    ensures patch.name.Some? && patch.price.Some? && patch.image.Some? && patch.category.Some? ==>
      r == Product(p.id, patch.name.value, patch.price.value, patch.image.value, patch.category.value)
  {
    Product(p.id, patch.name.GetOr(p.name), patch.price.GetOr(p.price), patch.image.GetOr(p.image), patch.category.GetOr(p.category))
  }

  function PatchTopping(t: Topping, patch: ToppingPatch): (r: Topping)
    ensures r.id == t.id && r.name == patch.name.GetOr(t.name) && r.price == patch.price.GetOr(t.price)
    ensures patch == ToppingPatch(None, None) ==> r == t
    ensures patch.name.Some? && patch.price.Some? ==> r == Topping(t.id, patch.name.value, patch.price.value)
  {
    Topping(t.id, patch.name.GetOr(t.name), patch.price.GetOr(t.price))
  }

  function PatchSize(s: Size, patch: SizePatch): (r: Size)
    ensures r.id == s.id && r.name == patch.name.GetOr(s.name) && r.priceModifier == patch.priceModifier.GetOr(s.priceModifier)
    ensures patch == SizePatch(None, None) ==> r == s
    ensures patch.name.Some? && patch.priceModifier.Some? ==> r == Size(s.id, patch.name.value, patch.priceModifier.value)
  {
    Size(s.id, patch.name.GetOr(s.name), patch.priceModifier.GetOr(s.priceModifier))
  }

  function PatchCategory(c: Category, patch: CategoryPatch): (r: Category)
    ensures r.id == c.id && r.name == patch.name.GetOr(c.name)
    ensures patch == CategoryPatch(None) ==> r == c
    ensures patch.name.Some? ==> r == Category(c.id, patch.name.value)
  {
    Category(c.id, patch.name.GetOr(c.name))
  }

  /** `{ ...a, ...b }`: the fields of `b` win over those of `a`. */
  function ThenProduct(a: ProductPatch, b: ProductPatch): ProductPatch
  {
    ProductPatch(if b.name.Some? then b.name else a.name, if b.price.Some? then b.price else a.price,
                 if b.image.Some? then b.image else a.image, if b.category.Some? then b.category else a.category)
  }

  /** Two successive product updates are one update with the two patches
      spread together. */
  lemma PatchProductThen(p: Product, a: ProductPatch, b: ProductPatch)
    ensures PatchProduct(PatchProduct(p, a), b) == PatchProduct(p, ThenProduct(a, b))
  {
  }

  /** Applying the same product patch twice is applying it once. */
  lemma PatchProductTwice(p: Product, patch: ProductPatch)
    ensures PatchProduct(PatchProduct(p, patch), patch) == PatchProduct(p, patch)
  {
  }

  /** The column update a size patch becomes: only the given fields, with
      `priceModifier` renamed. */
  datatype SizeRowPatch = SizeRowPatch(name: Option<string>, price_modifier: Option<int>)

  function SizeUpdateData(patch: SizePatch): SizeRowPatch
  {
    SizeRowPatch(patch.name, patch.priceModifier)
  }

  /** The store applying a column update to a row. */
  function PatchSizeRow(row: SizeRow, update: SizeRowPatch): SizeRow
  {
    SizeRow(row.id, update.name.GetOr(row.name), update.price_modifier.GetOr(row.price_modifier))
  }

  /** Updating the row remotely and reading it back gives the same size as
      patching the size locally. */
  lemma SizeUpdateCommutes(row: SizeRow, patch: SizePatch)
    ensures SizeFromRow(PatchSizeRow(row, SizeUpdateData(patch))) == PatchSize(SizeFromRow(row), patch)
  {
  }

  /** A size answer from the store, read back with `priceModifier`. */
  function SizeAnswer(answer: Result<SizeRow, string>): (r: Result<Size, string>)
    ensures r.Ok? <==> answer.Ok?
    ensures r.Ok? ==> SizeToRow(r.value) == answer.value
    ensures r.Err? ==> r.error == answer.error
  {
    match answer
    case Ok(row) => Ok(SizeFromRow(row))
    case Err(e) => Err(e)
  }

  /** The size rows a fetch returned, each read back with `priceModifier`;
      `null` becomes `[]`. */
  function SizeRowsAnswer(answer: Result<Option<seq<SizeRow>>, string>): (r: Result<Option<seq<Size>>, string>)
    ensures r.Ok? <==> answer.Ok?
    ensures r.Ok? ==> r.value.Some? && |r.value.value| == |answer.value.GetOr([])|
    ensures r.Ok? ==> forall i :: 0 <= i < |r.value.value| ==> SizeToRow(r.value.value[i]) == answer.value.value[i]
    ensures r.Err? ==> r.error == answer.error
  {
    match answer
    case Ok(rows) => Ok(Some(MapRows(rows, SizeFromRow)))
    case Err(e) => Err(e)
  }

  // ---------------------------------------------------------------- one entity's cache

  /** One entity's stored copy (`adminProducts`, `adminToppings`, `adminSizes`
      or `adminCategories`); a missing key reads as `[]`. The remote store's
      answer to each call is a parameter: `Err` carries the error it threw. */
  class Table<T> {
    var items: seq<T>

    constructor (items: seq<T>)
      ensures this.items == items
    {
      this.items := items;
    }

    /** `fetch*`: without a store, or when the store fails, the stored copy is
        returned. A store answer (`null` read as `[]`) is returned, and
        replaces the stored copy only when it is non-empty. */
    method Fetch(configured: bool, answer: Result<Option<seq<T>>, string>) returns (r: seq<T>)
      modifies this
      ensures !configured || answer.Err? ==> r == old(items) && items == old(items)
      ensures configured && answer.Ok? ==>
        r == answer.value.GetOr([]) && items == if |r| > 0 then r else old(items)
    {
      if !configured {
        return items;
      }
      if answer.Err? {
        return items;
      }
      r := answer.value.GetOr([]);
      if |r| > 0 {
        items := r;
      }
    }

    /** `create*`: without a store the locally built record is appended and
        returned; with one, the record the store returned is appended and
        returned, and a store error is rethrown with the copy untouched. */
    method Create(configured: bool, local: T, answer: Result<T, string>) returns (r: Result<T, string>)
      modifies this
      ensures !configured ==> r == Ok(local) && items == old(items) + [local]
      ensures configured ==> r == answer && items == if answer.Ok? then old(items) + [answer.value] else old(items)
      ensures r.Ok? ==> |items| == |old(items)| + 1
    {
      if !configured {
        items := items + [local];
        return Ok(local);
      }
      r := answer;
      if answer.Ok? {
        items := items + [answer.value];
      }
    }

    /** `update*`: the first stored record with that id is changed in place.
        Without a store it is patched and returned, or `notFound` is thrown
        when no record has the id; with a store the record the store returned
        is stored and returned, and a store error is rethrown. */
    method Update<K(==)>(configured: bool, id: K, key: T -> K, patch: T -> T, answer: Result<T, string>, notFound: string)
      returns (r: Result<T, string>)
      modifies this
      ensures var i := IndexOfKey(old(items), id, key);
        !configured ==>
          if i == -1 then r == Err(notFound) && items == old(items)
          else r == Ok(patch(old(items)[i])) && items == old(items)[i := r.value]
      ensures var i := IndexOfKey(old(items), id, key);
        configured ==> r == answer && items == if answer.Ok? && i != -1 then old(items)[i := answer.value] else old(items)
      ensures |items| == |old(items)|
    {
      var index := IndexOfKey(items, id, key);
      if !configured {
        if index != -1 {
          var updated := patch(items[index]);
          items := items[index := updated];
          return Ok(updated);
        }
        return Err(notFound);
      }
      r := answer;
      if answer.Ok? && index != -1 {
        items := items[index := answer.value];
      }
    }

    /** `delete*`: every stored record with that id is dropped, unless the
        store reported an error, which is rethrown. */
    method Delete<K(==)>(configured: bool, id: K, key: T -> K, answer: Result<(), string>) returns (r: Result<(), string>)
      modifies this
      ensures !configured ==> r == Ok(()) && items == Remove(old(items), id, key)
      ensures configured ==> r == answer && items == if answer.Ok? then Remove(old(items), id, key) else old(items)
    {
      if !configured {
        items := Remove(items, id, key);
        return Ok(());
      }
      r := answer;
      if answer.Ok? {
        items := Remove(items, id, key);
      }
    }
  }
}
