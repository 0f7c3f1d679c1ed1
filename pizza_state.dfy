/** The innermost pizza: base price, size and the cumulative servings of each topping. */
module PizzaState {

  /** Servings of `topping` recorded in `toppings`, 0 when it was never added. */
  function CountOf(toppings: map<string, int>, topping: string): int {
    if topping in toppings then toppings[topping] else 0
  }

  class BasePizza {
    const basePrice: int
    const size: string
    var toppings: map<string, int>

    constructor (basePrice: int, size: string)
      ensures this.basePrice == basePrice && this.size == size
      ensures toppings == map[]
    {
      this.basePrice := basePrice;
      this.size := size;
      toppings := map[];
    }

    /** A topping is present as soon as its key exists, whatever its count (even 0). */
    predicate IsToppingPresent(topping: string)
      reads this
    {
      topping in toppings
    }

    function GetToppingCount(topping: string): (r: int)
      reads this
      ensures !IsToppingPresent(topping) ==> r == 0
    {
      CountOf(toppings, topping)
    }

    /** Adds `servingCount` (any sign, no bound) to the topping's count; nothing else changes. */
    method AddTopping(topping: string, servingCount: int)
      modifies this
      ensures toppings == old(toppings)[topping := CountOf(old(toppings), topping) + servingCount]
      ensures IsToppingPresent(topping)
      ensures GetToppingCount(topping) == old(GetToppingCount(topping)) + servingCount
      ensures forall other :: other != topping ==>
                CountOf(toppings, other) == CountOf(old(toppings), other) &&
                (other in toppings <==> other in old(toppings))
    {
      toppings := toppings[topping := CountOf(toppings, topping) + servingCount];
    }
  }
}
