# Pizza pricing engine, modelled in Dafny

This project models the pricing engine of a customizable pizza order (`PizzaPricing.java`). A pricing
session holds a base pizza with a base price, a size string and a map from topping name to cumulative
servings. It also holds a chain of decorators, each adding a cost fixed when it was built. Two ordered
pipelines complete it: validators that gate every topping addition, and tax rules that adjust the
base tax percentage.

Modules, leaf first:

- `Menu` (`menu.dfy`): topping names, sizes and the per-serving catalog.
- `PizzaState` (`pizza_state.dfy`): class `BasePizza`. Its `toppings` map is updated in place by `AddTopping`.
- `Decorators` (`decorators.dfy`): the chain as a datatype `Base | RestToppingDecorator | CornDecorator`.
  It covers the recursive subtotal, the locked-in cost list, the corn tier formula and a unit-by-unit
  reference price for corn.
- `Validation` (`validation.dfy`): the three validators as datatype variants, and the engine's
  early-return loop `ValidateAll`, proved against `AllPass`. It also gives the rules in closed form (`Admissible`).
- `Tax` (`tax.dfy`): the two tax rules, the engine's accumulating loop `CalculateTax` proved against the
  left fold `ApplyRules`, and the closed form (×1.3 with cheeseburst, then ×0.9 with mushroom).
- `Pricing` (`pricing.dfy`): `AddToppingTo` and `FinalPriceOf` are value-level specifications of the
  facade. The lemmas about them are here, and so is class `PizzaPricing`, whose methods are proved equal to
  those specifications.

Behaviour the model keeps exactly:

- A topping is present as soon as its key exists. A 0-serving add makes it present.
- Negative servings are not rejected anywhere.
- A topping name outside the catalog passes every validator. Its count is committed, and then the call
  throws a null-pointer exception before any layer is added. The model's outcome is `NullPointerThrown`.
- Corn is priced from the count before the call. On a medium pizza the 50 first-unit price applies to
  any call made while the corn count is 0, so it recurs after negative adds bring the count back to 0.
  On a fresh medium pizza, 0 corn servings cost 10
  (50 + (0 − 1)·40), while unit-by-unit pricing gives 0 (`CornCostOfNothingOnFreshMedium`).
- The `(int)` cast truncates toward zero, for negative totals too.

Properties of the final price that follow from the code:

- The final price can decrease: the first mushroom takes 10% off the tax rate, which can outweigh its
  own price. With base 10000, tax 100 and a small pizza, the price goes from 20000 to 19076
  (`FirstMushroomCanLowerPrice`). Given non-negative prices, tax and servings, it never drops on a call
  that does not newly add mushroom (`PriceNeverDropsWithoutNewMushroom`), nor over a whole session that
  never asks for mushroom (`SessionPriceNeverDropsWithoutMushroom`).
- The tax rules apply cheeseburst first, then mushroom (`PizzaPricing.java:23`). In exact arithmetic the
  two rules commute (`TaxRuleOrderIrrelevant`); only binary floating-point rounding could tell the orders apart.

## Model

| member | source | states |
|---|---|---|
| `PizzaState.BasePizza.constructor` | src/main/java/org/example/PizzaPricing.java:164-168 | a new base pizza keeps the given price and size and has no toppings |
| `PizzaState.BasePizza.GetToppingCount` | src/main/java/org/example/PizzaPricing.java:190-193 | an absent topping has count 0 |
| `PizzaState.BasePizza.AddTopping` | src/main/java/org/example/PizzaPricing.java:180-183 | the topping's count rises by the servings given (any sign) and it becomes present; every other count and key is unchanged |
| `Decorators.SubTotalIsBasePlusCosts` | src/main/java/org/example/PizzaPricing.java:171-173 | walking the chain gives the base price plus the sum of every layer's locked-in cost |
| `Decorators.WrapRest` | src/main/java/org/example/PizzaPricing.java:206-214 | a flat-rate layer appends exactly per-serving price × servings to the cost list and to the subtotal |
| `Decorators.WrapCorn` | src/main/java/org/example/PizzaPricing.java:240-259 | a corn layer appends exactly the tiered corn cost, computed once at construction, to the cost list and the subtotal |
| `Decorators.CornCostIsUnitPricing` | src/main/java/org/example/PizzaPricing.java:240-253 | for one or more servings the tier formula equals unit-by-unit pricing: on medium, 50 for the first unit of a call made while the corn count is 0 and 40 for each other unit; on large, 20 a unit; on any other size, 50 a unit |
| `Decorators.CornCostOfNothingOnFreshMedium` | src/main/java/org/example/PizzaPricing.java:244-245 | adding 0 corn to a medium pizza with no corn yet costs 10, where unit pricing gives 0 |
| `Decorators.CornCostSplits` | src/main/java/org/example/PizzaPricing.java:240-253 | buying corn in two calls, the first non-empty, costs the same as buying it all in one call |
| `Validation.ValidateAll` | src/main/java/org/example/PizzaPricing.java:65-70 | the loop returns true exactly when every validator in the list passes, and on false names a failing one |
| `Validation.StandardPipelineIsAdmissible` | src/main/java/org/example/PizzaPricing.java:77-106 | the registered pipeline accepts exactly the additions the per-topping rules allow (both directions) |
| `Validation.CheeseBurstAndMushroomExclusive` | src/main/java/org/example/PizzaPricing.java:85-97 | cheeseburst is refused when the mushroom key exists, and mushroom when the cheeseburst key exists |
| `Validation.CheeseBurstCumulativeCap` | src/main/java/org/example/PizzaPricing.java:99-105 | without mushroom, cheeseburst is accepted exactly when current + requested is within the size's cap |
| `Validation.PineappleRefusedOnlyOnSmall` | src/main/java/org/example/PizzaPricing.java:77-82 | pineapple passes the pipeline exactly when the size is not "small" |
| `Validation.UngovernedToppingPasses` | src/main/java/org/example/PizzaPricing.java:77-97 | any topping other than cheeseburst, mushroom and pineapple passes, whatever the pizza and count |
| `Tax.CalculateTax` | src/main/java/org/example/PizzaPricing.java:121-127 | the loop's result is the rules applied in order, each to the running value left by the previous one |
| `Tax.StandardTaxIsScaling` | src/main/java/org/example/PizzaPricing.java:130-147 | the registered rules turn tax t into t × 1.3 (cheeseburst present) × 0.9 (mushroom present) |
| `Tax.TaxRuleOrderIrrelevant` | src/main/java/org/example/PizzaPricing.java:23 | in exact arithmetic the two rules in either order give the same tax |
| `Pricing.NewOrder` | src/main/java/org/example/PizzaPricing.java:21-30 | a new session has subtotal equal to the base price, no layers and no toppings |
| `Pricing.TruncateToInt` | src/main/java/org/example/PizzaPricing.java:53 | the cast truncates toward zero: below or at x for x ≥ 0, above or at x for x < 0, within 1 |
| `Pricing.RoundHalfUp` | src/main/java/org/example/PizzaPricing.java:53 | for x ≥ −0.5 the result r satisfies r − 0.5 ≤ x < r + 0.5 (nearest integer, halves up) |
| `Pricing.FinalPriceFormula` | src/main/java/org/example/PizzaPricing.java:49-54 | final price = round-half-up of s + s·t/100, where s is base price plus locked-in costs and t is the base tax scaled by the rules |
| `Pricing.RejectionIsAllOrNothing` | src/main/java/org/example/PizzaPricing.java:32-35 | a call returns false exactly when the rules refuse it, and then the whole state (counts, chain, price) is unchanged |
| `Pricing.SuccessfulAddChangesOneCount` | src/main/java/org/example/PizzaPricing.java:37-38 | an accepted call raises that topping's count by exactly the servings and makes it present; no other count or key, nor size, tax or base price, changes |
| `Pricing.SuccessfulAddLocksInOneCost` | src/main/java/org/example/PizzaPricing.java:37-44 | an accepted catalog topping appends one cost and keeps all earlier ones: catalog price × servings, or for corn the tier cost from the count before the call |
| `Pricing.UnknownToppingThrowsAfterCommit` | src/main/java/org/example/PizzaPricing.java:37-43 | a name outside the catalog throws, with its count already committed and the chain unchanged |
| `Pricing.AddKeepsCheeseBurstRules` | src/main/java/org/example/PizzaPricing.java:93-106 | one call, of any outcome, keeps "not both cheeseburst and mushroom, cheeseburst within the size cap" |
| `Pricing.RunKeepsCheeseBurstRules` | src/main/java/org/example/PizzaPricing.java:32-47 | any sequence of calls keeps that invariant |
| `Pricing.SessionKeepsCheeseBurstRules` | src/main/java/org/example/PizzaPricing.java:99-105 | from a new session, whatever calls follow (even negative ones), mushroom and cheeseburst never coexist and a small pizza never holds more than 1 cheeseburst (medium: 2) |
| `Pricing.PriceNeverDropsWithoutNewMushroom` | src/main/java/org/example/PizzaPricing.java:49-54 | with non-negative prices, tax and servings, a call that does not newly add mushroom never lowers the final price |
| `Pricing.AddKeepsNonNegativeCosts` | src/main/java/org/example/PizzaPricing.java:37-44 | a call with non-negative servings appends only a non-negative cost and keeps the base tax |
| `Pricing.RunKeepsNonNegativeCosts` | src/main/java/org/example/PizzaPricing.java:32-47 | any run of calls with non-negative servings keeps every locked-in cost non-negative |
| `Pricing.RunPriceNeverDropsWithoutNewMushroom` | src/main/java/org/example/PizzaPricing.java:49-54 | over a run with non-negative servings that never newly adds mushroom, the final price does not drop |
| `Pricing.RunAppend` | src/main/java/org/example/PizzaPricing.java:32-47 | running two lists of calls one after the other is the same as running their concatenation |
| `Pricing.SessionPriceNeverDropsWithoutMushroom` | src/main/java/org/example/PizzaPricing.java:49-54 | from a new session with non-negative base price and tax, calls with non-negative servings that never ask for mushroom never lower the price from one call to a later one |
| `Pricing.FirstMushroomCanLowerPrice` | src/main/java/org/example/PizzaPricing.java:130-135 | base 10000, tax 100, small: 20000 before and 19076 after one mushroom |
| `Pricing.RoundingExamples` | src/main/java/org/example/PizzaPricing.java:52-53 | a total of 446.25 rounds to 446 and 1.5 rounds to 2 |
| `Pricing.DemoSession` | src/main/java/org/example/Main.java:7-37 | base 200, tax 10, small: 220; mushroom×1 gives 262; cheeseburst×1 is refused and 262 stays; onion×3 gives 360; mushroom×2 gives 447 |
| `Pricing.PizzaPricing.constructor` | src/main/java/org/example/PizzaPricing.java:21-30 | the session starts in the state `NewOrder` describes, with the registered validators, tax rules and catalog |
| `Pricing.PizzaPricing.AddTopping` | src/main/java/org/example/PizzaPricing.java:32-47 | the outcome and the new state (base pizza's map, chain) are exactly those of `AddToppingTo` on the old state |
| `Pricing.PizzaPricing.GetFinalPrice` | src/main/java/org/example/PizzaPricing.java:49-54 | the returned price is `FinalPriceOf` the current state |

## Left out

- Tax arithmetic is exact (`real`). IEEE-754 rounding of the `double` tax and total is not modelled.
- 32-bit `int` overflow is not modelled: counts, costs and subtotals are unbounded integers. On small
  and medium pizzas Java's `current + requested` can wrap to a negative value and pass the cap check: a
  count of 1 on a small pizza plus a request of 2147483647 wraps to −2147483648 ≤ 1 and is accepted,
  while the model refuses it. On other sizes the "no cap" value `Integer.MAX_VALUE` is exactly `Unlimited`.
- `Pricing.TruncateToInt`: the saturation of `(int)` for doubles beyond the `int` range, and NaN, are not modelled.
- Thread safety of the `ConcurrentHashMap` and interleaved calls are not modelled; the map is a plain `map<string, int>`.
- The decorators' forwarding methods (`isToppingPresent`, `addTopping`, `getPizzaSize`, `getToppingCount`
  on each decorator) are not separate members. Each forwards to the single base pizza, so the model reads
  and writes the base pizza directly. Validators and tax rules receive its size and toppings map in place
  of the `Pizza` object.
- `BasePizza.findSubTotal` and `getPizzaSize` are the constant fields `basePrice` and `size`, and the
  `Base` layer of the chain.
- Null topping names and a null size are not modelled. A null name passes all three validators and then
  throws in `getToppingCount` before any count is committed.
- Exception propagation: the null-pointer exception is the outcome `NullPointerThrown`. `Pricing.Run`
  continues after it, as a caller that catches it would.
- `Main.java` prints a scripted session to the console. It is not modelled as a program; its expected
  prices are proved as `Pricing.DemoSession`.
