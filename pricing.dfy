/** The pricing facade: validate, commit the count, wrap the chain; and the final price. */
module Pricing {
  import opened Menu
  import opened PizzaState
  import opened Decorators
  import opened Validation
  import opened Tax

  /** What a call to addTopping ends in: a boolean result, or the null-pointer exception thrown
      when a validated topping has no catalog price. */
  datatype Outcome = Returned(added: bool) | NullPointerThrown

  /** The state of a pricing session as seen through its decorator chain: the base pizza's size
      and toppings, the session's base tax, and the chain itself. */
  datatype Order = Order(size: string, baseTax: int, toppings: map<string, int>, pizza: Pizza)

  datatype AddResult = AddResult(outcome: Outcome, after: Order)

  datatype Request = Request(topping: string, servingsCount: int)

  function NewOrder(basePrice: int, taxPercentage: int, size: string): (o: Order)
    ensures FindSubTotal(o.pizza) == BasePrice(o.pizza) == basePrice && Costs(o.pizza) == []
    ensures o.toppings == map[] && o.size == size && o.baseTax == taxPercentage
  {
    Order(size, taxPercentage, map[], Base(basePrice))
  }

  /** One addTopping call: validation first; on success the previous count is read, the new
      count committed, and the chain wrapped in a corn or flat-rate layer. A topping outside the
      catalog throws after its count was committed, leaving the chain as it was. */
  function AddToppingTo(o: Order, topping: string, servingsCount: int): AddResult {
    if !AllPass(StandardValidators, o.size, o.toppings, topping, servingsCount) then
      AddResult(Returned(false), o)
    else
      var previousCount := CountOf(o.toppings, topping);
      var toppings := o.toppings[topping := previousCount + servingsCount];
      if topping == Corn then
        AddResult(Returned(true),
                  o.(toppings := toppings, pizza := WrapCorn(o.pizza, o.size, servingsCount, previousCount)))
      else if topping in Catalog then
        AddResult(Returned(true),
                  o.(toppings := toppings, pizza := WrapRest(o.pizza, Catalog[topping], servingsCount)))
      else
        AddResult(NullPointerThrown, o.(toppings := toppings))
  }

  /** A sequence of addTopping calls, each made on the state the previous one left (a caller
      that catches the exception carries on from the committed count). */
  function Run(o: Order, requests: seq<Request>): Order
    decreases |requests|
  {
    if requests == [] then o
    else Run(AddToppingTo(o, requests[0].topping, requests[0].servingsCount).after, requests[1..])
  }

  /** The (int) cast of a double: truncation toward zero. */
  function TruncateToInt(x: real): (r: int)
    ensures 0.0 <= x ==> r as real <= x < r as real + 1.0
    ensures x < 0.0 ==> r as real - 1.0 < x <= r as real
  {
    if x >= 0.0 then x.Floor else -((-x).Floor)
  }

  /** Adding one half before truncating rounds a non-negative amount to the nearest integer,
      halves going up. */
  function RoundHalfUp(x: real): (r: int)
    ensures -0.5 <= x ==> r as real - 0.5 <= x < r as real + 0.5
  {
    TruncateToInt(x + 0.5)
  }

  function TotalPrice(subTotal: int, tax: real): real {
    subTotal as real + subTotal as real * tax / 100.0
  }

  function FinalPriceOf(o: Order): int {
    RoundHalfUp(TotalPrice(FindSubTotal(o.pizza), ApplyRules(StandardTaxRules, o.toppings, o.baseTax as real)))
  }

  /** The tax rate the two tax rules leave: base tax, times 1.3 with cheeseburst, times 0.9 with mushroom. */
  function EffectiveTax(o: Order): real {
    o.baseTax as real * CheeseBurstFactor(o.toppings) * MushroomFactor(o.toppings)
  }

  /** Final price = round-half-up of subtotal plus subtotal times effective tax over 100, where
      the subtotal is the base price plus every locked-in layer cost. */
  lemma FinalPriceFormula(o: Order)
    ensures var subTotal := BasePrice(o.pizza) + Sum(Costs(o.pizza));
            FinalPriceOf(o) == RoundHalfUp(TotalPrice(subTotal, EffectiveTax(o)))
  {
    SubTotalIsBasePlusCosts(o.pizza);
    StandardTaxIsScaling(o.toppings, o.baseTax as real);
  }

  /** A call returns false exactly when the rules refuse the addition, and then nothing at all
      changes: counts, chain and hence final price stay as they were. */
  lemma RejectionIsAllOrNothing(o: Order, topping: string, servingsCount: int)
    ensures var r := AddToppingTo(o, topping, servingsCount);
            (r.outcome == Returned(false) <==> !Admissible(o.size, o.toppings, topping, servingsCount)) &&
            (r.outcome == Returned(false) ==> r.after == o)
  {
    StandardPipelineIsAdmissible(o.size, o.toppings, topping, servingsCount);
  }

  /** An accepted call raises that topping's count by exactly the requested servings, makes the
      topping present (even with 0 servings), and changes no other count, the size, the tax or
      the base price. */
  lemma SuccessfulAddChangesOneCount(o: Order, topping: string, servingsCount: int)
    requires Admissible(o.size, o.toppings, topping, servingsCount)
    ensures var r := AddToppingTo(o, topping, servingsCount);
            r.outcome == (if topping in Catalog then Returned(true) else NullPointerThrown) &&
            topping in r.after.toppings &&
            CountOf(r.after.toppings, topping) == CountOf(o.toppings, topping) + servingsCount &&
            (forall other :: other != topping ==>
               CountOf(r.after.toppings, other) == CountOf(o.toppings, other) &&
               (other in r.after.toppings <==> other in o.toppings)) &&
            r.after.size == o.size && r.after.baseTax == o.baseTax &&
            BasePrice(r.after.pizza) == BasePrice(o.pizza)
  {
    StandardPipelineIsAdmissible(o.size, o.toppings, topping, servingsCount);
  }

  /** An accepted call appends exactly one cost to the chain and leaves every earlier cost as it
      was: the catalog price times the servings, or for corn the tiered cost computed from the
      count before this call. */
  lemma SuccessfulAddLocksInOneCost(o: Order, topping: string, servingsCount: int)
    requires Admissible(o.size, o.toppings, topping, servingsCount)
    requires topping in Catalog
    ensures var r := AddToppingTo(o, topping, servingsCount);
            var cost := if topping == Corn then CornCost(o.size, servingsCount, CountOf(o.toppings, Corn))
                        else Catalog[topping] * servingsCount;
            Costs(r.after.pizza) == Costs(o.pizza) + [cost] &&
            FindSubTotal(r.after.pizza) == FindSubTotal(o.pizza) + cost
  {
    StandardPipelineIsAdmissible(o.size, o.toppings, topping, servingsCount);
  }

  /** A name outside the catalog passes every validator, has its count committed, and then makes
      the call throw before any layer is added. */
  lemma UnknownToppingThrowsAfterCommit(o: Order, topping: string, servingsCount: int)
    requires topping !in Catalog
    ensures var r := AddToppingTo(o, topping, servingsCount);
            r.outcome == NullPointerThrown && r.after.pizza == o.pizza &&
            r.after.toppings == o.toppings[topping := CountOf(o.toppings, topping) + servingsCount]
  {
    UngovernedToppingPasses(o.size, o.toppings, topping, servingsCount);
  }

  /** Cheeseburst and mushroom never both present, and the cheeseburst count within the size's cap. */
  predicate CheeseBurstRulesHold(o: Order) {
    !(CheeseBurst in o.toppings && Mushroom in o.toppings) &&
    (o.size == Small ==> CountOf(o.toppings, CheeseBurst) <= 1) &&
    (o.size == Medium ==> CountOf(o.toppings, CheeseBurst) <= 2)
  }

  lemma AddKeepsCheeseBurstRules(o: Order, topping: string, servingsCount: int)
    requires CheeseBurstRulesHold(o)
    ensures CheeseBurstRulesHold(AddToppingTo(o, topping, servingsCount).after)
  {
    StandardPipelineIsAdmissible(o.size, o.toppings, topping, servingsCount);
  }

  lemma {:induction false} RunKeepsCheeseBurstRules(o: Order, requests: seq<Request>)
    requires CheeseBurstRulesHold(o)
    ensures CheeseBurstRulesHold(Run(o, requests))
    decreases |requests|
  {
    if requests != [] {
      AddKeepsCheeseBurstRules(o, requests[0].topping, requests[0].servingsCount);
      RunKeepsCheeseBurstRules(AddToppingTo(o, requests[0].topping, requests[0].servingsCount).after,
                               requests[1..]);
    }
  }

  /** Whatever calls a session receives, of any sign, cheeseburst and mushroom never coexist and a
      small pizza never holds more than one cheeseburst (a medium one, two). */
  lemma SessionKeepsCheeseBurstRules(basePrice: int, taxPercentage: int, size: string, requests: seq<Request>)
    ensures var o := Run(NewOrder(basePrice, taxPercentage, size), requests);
            !(CheeseBurst in o.toppings && Mushroom in o.toppings) &&
            (size == Small ==> CountOf(o.toppings, CheeseBurst) <= 1) &&
            (size == Medium ==> CountOf(o.toppings, CheeseBurst) <= 2)
  {
    RunKeepsCheeseBurstRules(NewOrder(basePrice, taxPercentage, size), requests);
    RunKeepsSize(NewOrder(basePrice, taxPercentage, size), requests);
  }

  lemma {:induction false} RunKeepsSize(o: Order, requests: seq<Request>)
    ensures Run(o, requests).size == o.size
    decreases |requests|
  {
    if requests != [] {
      RunKeepsSize(AddToppingTo(o, requests[0].topping, requests[0].servingsCount).after, requests[1..]);
    }
  }

  /** A chain whose base price and every locked-in cost are non-negative. */
  predicate NonNegativeCosts(o: Order) {
    BasePrice(o.pizza) >= 0 && forall i :: 0 <= i < |Costs(o.pizza)| ==> Costs(o.pizza)[i] >= 0
  }

  lemma TotalPriceMonotone(s1: int, s2: int, t1: real, t2: real)
    requires 0 <= s1 <= s2 && 0.0 <= t1 <= t2
    ensures TotalPrice(s1, t1) <= TotalPrice(s2, t2)
  {
    assert s1 as real * t1 <= s2 as real * t1;
    assert s2 as real * t1 <= s2 as real * t2;
  }

  lemma RoundHalfUpMonotone(x: real, y: real)
    requires 0.0 <= x <= y
    ensures RoundHalfUp(x) <= RoundHalfUp(y)
  {
  }

  /** With non-negative prices, tax and servings, the final price never drops on a call that does
      not make mushroom present for the first time. */
  lemma PriceNeverDropsWithoutNewMushroom(o: Order, topping: string, servingsCount: int)
    requires NonNegativeCosts(o) && o.baseTax >= 0 && servingsCount >= 0
    requires topping != Mushroom || Mushroom in o.toppings
    ensures FinalPriceOf(AddToppingTo(o, topping, servingsCount).after) >= FinalPriceOf(o)
  {
    var after := AddToppingTo(o, topping, servingsCount).after;
    SumNonNegative(Costs(o.pizza));
    SubTotalIsBasePlusCosts(o.pizza);
    var s1, s2 := FindSubTotal(o.pizza), FindSubTotal(after.pizza);
    assert 0 <= s1 <= s2 by {
      StandardPipelineIsAdmissible(o.size, o.toppings, topping, servingsCount);
    }
    StandardTaxIsScaling(o.toppings, o.baseTax as real);
    StandardTaxIsScaling(after.toppings, o.baseTax as real);
    var t1 := ApplyRules(StandardTaxRules, o.toppings, o.baseTax as real);
    var t2 := ApplyRules(StandardTaxRules, after.toppings, after.baseTax as real);
    assert MushroomFactor(after.toppings) == MushroomFactor(o.toppings);
    assert CheeseBurstFactor(o.toppings) <= CheeseBurstFactor(after.toppings);
    assert 0.0 <= t1 <= t2 by {
      var b := o.baseTax as real;
      assert b * CheeseBurstFactor(o.toppings) <= b * CheeseBurstFactor(after.toppings);
    }
    TotalPriceMonotone(s1, s2, t1, t2);
    assert 0.0 <= TotalPrice(s1, t1);
    RoundHalfUpMonotone(TotalPrice(s1, t1), TotalPrice(s2, t2));
  }

  /** Calls with non-negative servings only ever append non-negative costs, and keep the tax. */
  lemma AddKeepsNonNegativeCosts(o: Order, topping: string, servingsCount: int)
    requires NonNegativeCosts(o) && servingsCount >= 0
    ensures var after := AddToppingTo(o, topping, servingsCount).after;
            NonNegativeCosts(after) && after.baseTax == o.baseTax
  {
    if Admissible(o.size, o.toppings, topping, servingsCount) && topping in Catalog {
      SuccessfulAddLocksInOneCost(o, topping, servingsCount);
    } else {
      RejectionIsAllOrNothing(o, topping, servingsCount);
    }
  }

  lemma {:induction false} RunKeepsNonNegativeCosts(o: Order, requests: seq<Request>)
    requires NonNegativeCosts(o)
    requires forall k :: 0 <= k < |requests| ==> requests[k].servingsCount >= 0
    ensures NonNegativeCosts(Run(o, requests)) && Run(o, requests).baseTax == o.baseTax
    decreases |requests|
  {
    if requests != [] {
      AddKeepsNonNegativeCosts(o, requests[0].topping, requests[0].servingsCount);
      RunKeepsNonNegativeCosts(AddToppingTo(o, requests[0].topping, requests[0].servingsCount).after,
                               requests[1..]);
    }
  }

  /** Over any run of calls with non-negative servings that never newly adds mushroom (mushroom is
      already present, or never requested), the final price does not drop. */
  lemma {:induction false} RunPriceNeverDropsWithoutNewMushroom(o: Order, requests: seq<Request>)
    requires NonNegativeCosts(o) && o.baseTax >= 0
    requires forall k :: 0 <= k < |requests| ==> requests[k].servingsCount >= 0
    requires Mushroom in o.toppings || forall k :: 0 <= k < |requests| ==> requests[k].topping != Mushroom
    ensures FinalPriceOf(Run(o, requests)) >= FinalPriceOf(o)
    decreases |requests|
  {
    if requests != [] {
      var r := requests[0];
      var after := AddToppingTo(o, r.topping, r.servingsCount).after;
      PriceNeverDropsWithoutNewMushroom(o, r.topping, r.servingsCount);
      AddKeepsNonNegativeCosts(o, r.topping, r.servingsCount);
      assert Mushroom in o.toppings ==> Mushroom in after.toppings;
      RunPriceNeverDropsWithoutNewMushroom(after, requests[1..]);
    }
  }

  lemma {:induction false} RunAppend(o: Order, first: seq<Request>, second: seq<Request>)
    ensures Run(o, first + second) == Run(Run(o, first), second)
    decreases |first|
  {
    if first == [] {
      assert first + second == second;
    } else {
      assert (first + second)[1..] == first[1..] + second;
      RunAppend(AddToppingTo(o, first[0].topping, first[0].servingsCount).after, first[1..], second);
    }
  }

  /** In a session with non-negative base price and tax, whose calls all have non-negative
      servings and never ask for mushroom, the final price never drops from one call to a later one. */
  lemma SessionPriceNeverDropsWithoutMushroom(basePrice: int, taxPercentage: int, size: string,
                                             requests: seq<Request>, i: nat, j: nat)
    requires basePrice >= 0 && taxPercentage >= 0 && i <= j <= |requests|
    requires forall k :: 0 <= k < |requests| ==>
               requests[k].servingsCount >= 0 && requests[k].topping != Mushroom
    ensures var o := NewOrder(basePrice, taxPercentage, size);
            FinalPriceOf(Run(o, requests[..i])) <= FinalPriceOf(Run(o, requests[..j]))
  {
    var o := NewOrder(basePrice, taxPercentage, size);
    assert requests[..j] == requests[..i] + requests[i..j];
    RunAppend(o, requests[..i], requests[i..j]);
    RunKeepsNonNegativeCosts(o, requests[..i]);
    RunPriceNeverDropsWithoutNewMushroom(Run(o, requests[..i]), requests[i..j]);
  }

  /** The final price is not monotone in general: the first mushroom takes 10% off the tax rate,
      which can outweigh its own price. */
  lemma FirstMushroomCanLowerPrice()
    ensures var o := NewOrder(10000, 100, Small);
            var r := AddToppingTo(o, Mushroom, 1);
            r.outcome == Returned(true) && FinalPriceOf(o) == 20000 && FinalPriceOf(r.after) == 19076
  {
    var o := NewOrder(10000, 100, Small);
    var r := AddToppingTo(o, Mushroom, 1);
    StandardPipelineIsAdmissible(o.size, o.toppings, Mushroom, 1);
    FinalPriceFormula(o);
    FinalPriceFormula(r.after);
    assert Sum(Costs(r.after.pizza)) == Sum([40]) == 40;
  }

  /** Half-up rounding on the two worked examples: 446.25 gives 446 and 1.5 gives 2. */
  lemma RoundingExamples()
    ensures TotalPrice(425, 5.0) == 446.25 && RoundHalfUp(TotalPrice(425, 5.0)) == 446
    ensures TotalPrice(1, 50.0) == 1.5 && RoundHalfUp(TotalPrice(1, 50.0)) == 2
  {
  }

  /** With mushroom present and no cheeseburst, the tax rate is 0.9 times the base tax. */
  lemma PriceWithMushroomOnly(o: Order)
    requires CheeseBurst !in o.toppings && Mushroom in o.toppings
    ensures FinalPriceOf(o)
            == RoundHalfUp(TotalPrice(BasePrice(o.pizza) + Sum(Costs(o.pizza)), o.baseTax as real * 0.9))
  {
    FinalPriceFormula(o);
  }

  /** A small pizza at base 200 and 10% tax: 220; after one mushroom 262; a cheeseburst is then
      refused and the price stays 262; after three onions 360; after two more mushrooms 447. */
  lemma DemoSession()
    ensures var o0 := NewOrder(200, 10, Small);
            var r1 := AddToppingTo(o0, Mushroom, 1);
            var r2 := AddToppingTo(r1.after, CheeseBurst, 1);
            var r3 := AddToppingTo(r2.after, Onion, 3);
            var r4 := AddToppingTo(r3.after, Mushroom, 2);
            FinalPriceOf(o0) == 220 &&
            r1.outcome == Returned(true) && FinalPriceOf(r1.after) == 262 &&
            r2.outcome == Returned(false) && FinalPriceOf(r2.after) == 262 &&
            r3.outcome == Returned(true) && FinalPriceOf(r3.after) == 360 &&
            r4.outcome == Returned(true) && FinalPriceOf(r4.after) == 447
  {
    var o0 := NewOrder(200, 10, Small);
    FinalPriceFormula(o0);
    var r1 := AddToppingTo(o0, Mushroom, 1);
    SuccessfulAddChangesOneCount(o0, Mushroom, 1);
    SuccessfulAddLocksInOneCost(o0, Mushroom, 1);
    PriceWithMushroomOnly(r1.after);
    assert Sum(Costs(r1.after.pizza)) == Sum([40]) == 40;
    var r2 := AddToppingTo(r1.after, CheeseBurst, 1);
    RejectionIsAllOrNothing(r1.after, CheeseBurst, 1);
    var r3 := AddToppingTo(r2.after, Onion, 3);
    SuccessfulAddChangesOneCount(r2.after, Onion, 3);
    SuccessfulAddLocksInOneCost(r2.after, Onion, 3);
    PriceWithMushroomOnly(r3.after);
    assert Sum(Costs(r3.after.pizza)) == Sum([40, 90]) == 130;
    var r4 := AddToppingTo(r3.after, Mushroom, 2);
    SuccessfulAddChangesOneCount(r3.after, Mushroom, 2);
    SuccessfulAddLocksInOneCost(r3.after, Mushroom, 2);
    PriceWithMushroomOnly(r4.after);
    assert Sum(Costs(r4.after.pizza)) == Sum([40, 90, 80]) == 210;
  }

  /** A pricing session. Every decorator forwards size and topping reads and writes to the one
      base pizza, so the session holds that base pizza beside the chain of cost layers. */
  class PizzaPricing {
    var pizza: Pizza
    const base: BasePizza
    const taxEngine: seq<TaxRule>
    const validatorEngine: seq<ToppingValidator>
    const baseTax: int
    const catalog: map<string, int>

    ghost predicate Valid()
      reads this
    {
      BasePrice(pizza) == base.basePrice &&
      taxEngine == StandardTaxRules && validatorEngine == StandardValidators && catalog == Catalog
    }

    ghost function View(): Order
      reads this, base
    {
      Order(base.size, baseTax, base.toppings, pizza)
    }

    constructor (basePrice: int, taxPercentage: int, size: string)
      ensures Valid() && fresh(base)
      ensures View() == NewOrder(basePrice, taxPercentage, size)
    {
      base := new BasePizza(basePrice, size);
      pizza := Base(basePrice);
      taxEngine := StandardTaxRules;
      validatorEngine := StandardValidators;
      baseTax := taxPercentage;
      catalog := Catalog;
    }

    method AddTopping(topping: string, servingsCount: int) returns (outcome: Outcome)
      requires Valid()
      modifies this, base
      ensures Valid()
      ensures AddResult(outcome, View()) == AddToppingTo(old(View()), topping, servingsCount)
    {
      var ok := ValidateAll(validatorEngine, base.size, base.toppings, topping, servingsCount);
      if !ok {
        return Returned(false);
      }
      var previousCount := base.GetToppingCount(topping);
      base.AddTopping(topping, servingsCount);
      if topping == Corn {
        pizza := WrapCorn(pizza, base.size, servingsCount, previousCount);
      } else if topping in catalog {
        pizza := WrapRest(pizza, catalog[topping], servingsCount);
      } else {
        return NullPointerThrown;
      }
      return Returned(true);
    }

    method GetFinalPrice() returns (price: int)
      requires Valid()
      ensures price == FinalPriceOf(View())
    {
      var subTotal := FindSubTotal(pizza);
      var tax := CalculateTax(taxEngine, baseTax, base.toppings);
      var totalPrice := subTotal as real + subTotal as real * tax / 100.0;
      price := TruncateToInt(totalPrice + 0.5);
    }
  }
}
