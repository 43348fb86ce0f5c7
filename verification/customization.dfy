/** The customisation step of the ordering page: which steps it shows and how
    it numbers them. Drinks in the fruit-tea, coffee and latte categories come
    in one size only, so the size step is skipped for them. */
module Customization {
  import opened Wrappers
  import opened Types
  import opened OptionSelector

  const SINGLE_SIZE_CATEGORIES: seq<string> := ["fruit-tea", "cafe", "latte"]

  /** `product && !SINGLE_SIZE_CATEGORIES.includes(product.category)`. */
  predicate HasMultipleSizes(product: Option<Product>)
  {
    product.Some? && product.value.category !in SINGLE_SIZE_CATEGORIES
  }

  /** The size selector is rendered only for multi-size drinks. */
  predicate ShowsSizeSelector(order: Order)
  {
    HasMultipleSizes(order.product)
  }

  /** The number in the sugar step's title. */
  function SugarStep(order: Order): int
  {
    if HasMultipleSizes(order.product) then 4 else 3
  }

  /** The number in the ice step's title. */
  function IceStep(order: Order): int
  {
    if HasMultipleSizes(order.product) then 5 else 4
  }

  /** `toppings || []` and `sizes || []`: a missing list of choices is empty. */
  function ChoicesOrEmpty<T>(choices: Option<seq<T>>): seq<T>
  {
    choices.GetOr([])
  }

  /** `getOptionValue` of the size and level buttons. */
  function SizeId(s: Size): int { s.id }

  function LevelId(level: string): string { level }

  /** `order.size ? [order.size] : []`: the size shown as chosen. Exactly the
      size buttons with the order's size id show as chosen. */
  function SelectedSize(order: Order): (r: seq<Size>)
    ensures |r| <= 1
    ensures order.size.Some? ==> r == [order.size.value]
    ensures order.size.None? <==> r == []
    ensures forall s :: IsSelected(s, r, false, SizeId) <==> order.size.Some? && order.size.value.id == s.id
  {
    if order.size.Some? then [order.size.value] else []
  }

  /** `order.sugar ? [order.sugar] : []`, and likewise for ice: an empty
      choice shows nothing as chosen, and otherwise exactly the button of the
      chosen level does. */
  function SelectedLevel(level: string): (r: seq<string>)
    ensures level != [] <==> r == [level]
    ensures level == [] <==> r == []
    ensures forall l :: IsSelected(l, r, false, LevelId) <==> level != [] && l == level
  {
    if level != [] then [level] else []
  }

  datatype SectionKind = ToppingSection | SizeSection | SugarSection | IceSection

  /** One option selector as rendered: the number in its title, whether it
      lets several options be chosen, how many options it offers and how
      many it is given as chosen. */
  datatype Section = Section(kind: SectionKind, step: int, multi: bool, offered: nat, chosen: nat)

  /** The selectors the customisation step renders, top to bottom. Sugar and
      ice offer the app's fixed level lists, whose lengths are parameters. */
  function Sections(order: Order, toppings: Option<seq<Topping>>, sizes: Option<seq<Size>>,
                    sugarLevels: nat, iceLevels: nat): (r: seq<Section>)
    ensures |r| == if ShowsSizeSelector(order) then 4 else 3
    ensures forall i :: 0 <= i < |r| ==> r[i].step == i + 2
    ensures r[0].kind == ToppingSection && r[0].multi
    ensures r[0].offered == (if toppings.Some? then |toppings.value| else 0)
    ensures r[0].chosen == |order.toppings|
    ensures forall i :: 1 <= i < |r| ==> !r[i].multi && r[i].chosen <= 1
    ensures (exists i :: 0 <= i < |r| && r[i].kind == SizeSection) <==> ShowsSizeSelector(order)
    ensures ShowsSizeSelector(order) ==> r[1] == Section(SizeSection, 3, false, if sizes.Some? then |sizes.value| else 0, if order.size.Some? then 1 else 0)
    ensures r[|r| - 2] == Section(SugarSection, |r|, false, sugarLevels, if order.sugar != [] then 1 else 0)
    ensures r[|r| - 1] == Section(IceSection, |r| + 1, false, iceLevels, if order.ice != [] then 1 else 0)
  {
    var toppingSection := Section(ToppingSection, 2, true, |ChoicesOrEmpty(toppings)|, |order.toppings|);
    var sizeSection := if HasMultipleSizes(order.product)
      then [Section(SizeSection, 3, false, |ChoicesOrEmpty(sizes)|, |SelectedSize(order)|)]
      else [];
    var r := [toppingSection] + sizeSection
      + [Section(SugarSection, SugarStep(order), false, sugarLevels, |SelectedLevel(order.sugar)|),
         Section(IceSection, IceStep(order), false, iceLevels, |SelectedLevel(order.ice)|)];
    assert HasMultipleSizes(order.product) ==> r[1].kind == SizeSection;
    r
  }
}
