/** The validator pipeline that gates every topping addition. */
module Validation {
  import opened Menu
  import opened PizzaState

  /** The largest cumulative cheeseburst count allowed on a size; Unlimited means no cap. */
  datatype Cap = Limit(max: int) | Unlimited

  function CheeseBurstCap(size: string): Cap {
    if size == Small then Limit(1)
    else if size == Medium then Limit(2)
    else Unlimited
  }

  /** Each validator looks at the base pizza's size and toppings, and at the requested addition;
      it passes every topping it does not govern. */
  datatype ToppingValidator = CheeseBurstValidator | MushroomValidator | PineappleValidator {

    predicate Validate(size: string, toppings: map<string, int>, topping: string, servingsCount: int) {
      match this
      case PineappleValidator =>
        topping != Pineapple || size != Small
      case MushroomValidator =>
        topping != Mushroom || CheeseBurst !in toppings
      case CheeseBurstValidator =>
        topping != CheeseBurst ||
          (Mushroom !in toppings &&
           match CheeseBurstCap(size)
           case Limit(max) => CountOf(toppings, CheeseBurst) + servingsCount <= max
           case Unlimited => true)
    }
  }

  /** The validators of a pricing session, in their registered order. */
  const StandardValidators: seq<ToppingValidator> :=
    [CheeseBurstValidator, MushroomValidator, PineappleValidator]

  predicate AllPass(validators: seq<ToppingValidator>, size: string, toppings: map<string, int>,
                    topping: string, servingsCount: int)
  {
    forall i :: 0 <= i < |validators| ==> validators[i].Validate(size, toppings, topping, servingsCount)
  }

  /** Runs the validators in order and stops at the first one that fails. */
  method ValidateAll(validators: seq<ToppingValidator>, size: string, toppings: map<string, int>,
                     topping: string, servingsCount: int) returns (ok: bool)
    ensures ok <==> AllPass(validators, size, toppings, topping, servingsCount)
    ensures !ok ==> exists i :: 0 <= i < |validators| &&
                      !validators[i].Validate(size, toppings, topping, servingsCount)
  {
    for i := 0 to |validators|
      invariant forall j :: 0 <= j < i ==> validators[j].Validate(size, toppings, topping, servingsCount)
    {
      if !validators[i].Validate(size, toppings, topping, servingsCount) {
        return false;
      }
    }
    return true;
  }

  /** The rules of the standard pipeline, topping by topping. */
  predicate Admissible(size: string, toppings: map<string, int>, topping: string, servingsCount: int) {
    if topping == CheeseBurst then
      Mushroom !in toppings &&
      (size == Small ==> CountOf(toppings, CheeseBurst) + servingsCount <= 1) &&
      (size == Medium ==> CountOf(toppings, CheeseBurst) + servingsCount <= 2)
    else if topping == Mushroom then CheeseBurst !in toppings
    else if topping == Pineapple then size != Small
    else true
  }

  /** The standard pipeline accepts an addition exactly when the per-topping rules allow it. */
  lemma StandardPipelineIsAdmissible(size: string, toppings: map<string, int>, topping: string,
                                     servingsCount: int)
    ensures AllPass(StandardValidators, size, toppings, topping, servingsCount)
            <==> Admissible(size, toppings, topping, servingsCount)
  {
    var v := StandardValidators;
    assert AllPass(v, size, toppings, topping, servingsCount) <==>
      v[0].Validate(size, toppings, topping, servingsCount) &&
      v[1].Validate(size, toppings, topping, servingsCount) &&
      v[2].Validate(size, toppings, topping, servingsCount);
  }

  /** Cheeseburst and mushroom exclude each other, whichever came first; a key with 0 servings
      is enough to block the other. */
  lemma CheeseBurstAndMushroomExclusive(size: string, toppings: map<string, int>, servingsCount: int)
    ensures Mushroom in toppings ==> !AllPass(StandardValidators, size, toppings, CheeseBurst, servingsCount)
    ensures CheeseBurst in toppings ==> !AllPass(StandardValidators, size, toppings, Mushroom, servingsCount)
  {
    StandardPipelineIsAdmissible(size, toppings, CheeseBurst, servingsCount);
    StandardPipelineIsAdmissible(size, toppings, Mushroom, servingsCount);
  }

  /** Cheeseburst (without mushroom) is accepted exactly when the cumulative count stays within
      1 on small, 2 on medium, and always on any other size. */
  lemma CheeseBurstCumulativeCap(size: string, toppings: map<string, int>, servingsCount: int)
    requires Mushroom !in toppings
    ensures AllPass(StandardValidators, size, toppings, CheeseBurst, servingsCount) <==>
      match CheeseBurstCap(size)
      case Limit(max) => CountOf(toppings, CheeseBurst) + servingsCount <= max
      case Unlimited => true
  {
    StandardPipelineIsAdmissible(size, toppings, CheeseBurst, servingsCount);
  }

  /** Pineapple is refused exactly on small pizzas. */
  lemma PineappleRefusedOnlyOnSmall(size: string, toppings: map<string, int>, servingsCount: int)
    ensures AllPass(StandardValidators, size, toppings, Pineapple, servingsCount) <==> size != Small
  {
    StandardPipelineIsAdmissible(size, toppings, Pineapple, servingsCount);
  }

  /** A topping no validator governs passes the whole pipeline, whatever the pizza and count. */
  lemma UngovernedToppingPasses(size: string, toppings: map<string, int>, topping: string,
                                servingsCount: int)
    requires topping != CheeseBurst && topping != Mushroom && topping != Pineapple
    ensures AllPass(StandardValidators, size, toppings, topping, servingsCount)
  {
    StandardPipelineIsAdmissible(size, toppings, topping, servingsCount);
  }
}
