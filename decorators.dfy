/** The decorator chain: each added topping wraps the current pizza in a layer whose cost is
    fixed when the layer is built. Reads of size and toppings are forwarded by every layer to
    the one base pizza, so a layer only carries its cost. */
module Decorators {
  import opened Menu

  datatype Pizza =
    | Base(basePrice: int)
    | RestToppingDecorator(inner: Pizza, costToAdd: int)
    | CornDecorator(inner: Pizza, costToAdd: int)

  /** Subtotal found by walking the chain: each layer adds its own cost to the inner subtotal. */
  function FindSubTotal(p: Pizza): int {
    match p
    case Base(price) => price
    case RestToppingDecorator(inner, cost) => FindSubTotal(inner) + cost
    case CornDecorator(inner, cost) => FindSubTotal(inner) + cost
  }

  function BasePrice(p: Pizza): int {
    match p
    case Base(price) => price
    case RestToppingDecorator(inner, _) => BasePrice(inner)
    case CornDecorator(inner, _) => BasePrice(inner)
  }

  /** The locked-in cost of every layer, innermost (oldest) first. */
  function Costs(p: Pizza): seq<int> {
    match p
    case Base(_) => []
    case RestToppingDecorator(inner, cost) => Costs(inner) + [cost]
    case CornDecorator(inner, cost) => Costs(inner) + [cost]
  }

  function Sum(s: seq<int>): int {
    if s == [] then 0 else Sum(s[..|s| - 1]) + s[|s| - 1]
  }

  lemma {:induction false} SumNonNegative(s: seq<int>)
    requires forall i :: 0 <= i < |s| ==> s[i] >= 0
    ensures Sum(s) >= 0
  {
    if s != [] {
      SumNonNegative(s[..|s| - 1]);
    }
  }

  /** The chain's subtotal is the base price plus the sum of all locked-in layer costs. */
  lemma {:induction false} SubTotalIsBasePlusCosts(p: Pizza)
    ensures FindSubTotal(p) == BasePrice(p) + Sum(Costs(p))
  {
    match p
    case Base(_) =>
    case RestToppingDecorator(inner, cost) =>
      SubTotalIsBasePlusCosts(inner);
      assert (Costs(inner) + [cost])[..|Costs(inner)|] == Costs(inner);
    case CornDecorator(inner, cost) =>
      SubTotalIsBasePlusCosts(inner);
      assert (Costs(inner) + [cost])[..|Costs(inner)|] == Costs(inner);
  }

  /** A flat-rate layer: price per serving times the servings added by this call. */
  function WrapRest(inner: Pizza, perServingCost: int, servingsAdded: int): (r: Pizza)
    ensures BasePrice(r) == BasePrice(inner)
    ensures Costs(r) == Costs(inner) + [perServingCost * servingsAdded]
    ensures FindSubTotal(r) == FindSubTotal(inner) + perServingCost * servingsAdded
  {
    RestToppingDecorator(inner, perServingCost * servingsAdded)
  }

  /** Cost of a corn layer, from the pizza's size, the servings added by this call and the
      corn servings recorded before this call. */
  function CornCost(size: string, newServings: int, previousCorn: int): int {
    if size == Medium then
      if previousCorn == 0 then
        if newServings == 1 then 50 else 50 + (newServings - 1) * 40
      else newServings * 40
    else if size == Large then newServings * 20
    else newServings * 50
  }

  /** A tiered corn layer; its cost is computed once, here, and never again. */
  function WrapCorn(inner: Pizza, size: string, newServings: int, previousCorn: int): (r: Pizza)
    ensures BasePrice(r) == BasePrice(inner)
    ensures Costs(r) == Costs(inner) + [CornCost(size, newServings, previousCorn)]
    ensures FindSubTotal(r) == FindSubTotal(inner) + CornCost(size, newServings, previousCorn)
  {
    CornDecorator(inner, CornCost(size, newServings, previousCorn))
  }

  /** Reference pricing, unit by unit: on a medium pizza the first unit of a call made while
      the recorded corn count is 0 costs 50 and every other unit 40; on a large pizza every unit costs 20; on any other size
      every unit costs 50. */
  function CornUnitPrice(size: string, firstEver: bool): int {
    if size == Medium then (if firstEver then 50 else 40)
    else if size == Large then 20
    else 50
  }

  /** The price of `count` units bought in one call, summed unit by unit. */
  function CornUnitsPrice(size: string, count: nat, previousCorn: int): int {
    if count == 0 then 0
    else CornUnitsPrice(size, count - 1, previousCorn)
         + CornUnitPrice(size, previousCorn == 0 && count == 1)
  }

  /** For one or more servings, the tier formula agrees with unit-by-unit pricing. */
  lemma {:induction false} CornCostIsUnitPricing(size: string, newServings: nat, previousCorn: int)
    requires newServings >= 1
    ensures CornCost(size, newServings, previousCorn) == CornUnitsPrice(size, newServings, previousCorn)
  {
    if newServings > 1 {
      CornCostIsUnitPricing(size, newServings - 1, previousCorn);
    }
  }

  /** With no servings, a first corn addition on a medium pizza still costs 10 (50 - 40),
      where unit-by-unit pricing charges nothing. */
  lemma CornCostOfNothingOnFreshMedium()
    ensures CornCost(Medium, 0, 0) == 10
    ensures CornUnitsPrice(Medium, 0, 0) == 0
  {
  }

  /** Because the tier is locked in per call, buying corn in two calls (the first of them
      non-empty) costs the same as buying it all at once. */
  lemma CornCostSplits(size: string, first: int, second: int)
    requires first != 0
    ensures CornCost(size, first, 0) + CornCost(size, second, first) == CornCost(size, first + second, 0)
  {
  }
}
