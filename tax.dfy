/** The tax pipeline: rules that adjust a running tax percentage from the pizza's toppings. */
module Tax {
  import opened Menu

  datatype TaxRule = CheeseBurstTaxRule | MushroomTaxRule {

    /** The next running tax. Presence is key membership in the base pizza's toppings. */
    function Apply(toppings: map<string, int>, tax: real): real {
      match this
      case MushroomTaxRule =>
        if Mushroom in toppings then tax - tax * 10.0 / 100.0 else tax
      case CheeseBurstTaxRule =>
        if CheeseBurst in toppings then tax + tax * 30.0 / 100.0 else tax
    }
  }

  /** The rules of a pricing session, in their registered order. */
  const StandardTaxRules: seq<TaxRule> := [CheeseBurstTaxRule, MushroomTaxRule]

  /** Each rule in turn applied to the running value left by the previous one. */
  function ApplyRules(rules: seq<TaxRule>, toppings: map<string, int>, tax: real): real {
    if rules == [] then tax else ApplyRules(rules[1..], toppings, rules[0].Apply(toppings, tax))
  }

  method CalculateTax(rules: seq<TaxRule>, baseTax: int, toppings: map<string, int>) returns (finalTax: real)
    ensures finalTax == ApplyRules(rules, toppings, baseTax as real)
  {
    finalTax := baseTax as real;
    for i := 0 to |rules|
      invariant ApplyRules(rules[i..], toppings, finalTax) == ApplyRules(rules, toppings, baseTax as real)
    {
      assert rules[i..][1..] == rules[i + 1..];
      finalTax := rules[i].Apply(toppings, finalTax);
    }
    assert rules[|rules|..] == [];
  }

  function CheeseBurstFactor(toppings: map<string, int>): real {
    if CheeseBurst in toppings then 13.0 / 10.0 else 1.0
  }

  function MushroomFactor(toppings: map<string, int>): real {
    if Mushroom in toppings then 9.0 / 10.0 else 1.0
  }

  /** The standard pipeline scales the tax by 1.3 when cheeseburst is present and by 0.9 when
      mushroom is present. */
  lemma StandardTaxIsScaling(toppings: map<string, int>, tax: real)
    ensures ApplyRules(StandardTaxRules, toppings, tax)
            == tax * CheeseBurstFactor(toppings) * MushroomFactor(toppings)
  {
    var afterCheese := CheeseBurstTaxRule.Apply(toppings, tax);
    var afterMushroom := MushroomTaxRule.Apply(toppings, afterCheese);
    assert afterCheese == tax * CheeseBurstFactor(toppings);
    assert afterMushroom == afterCheese * MushroomFactor(toppings);
    assert StandardTaxRules[1..] == [MushroomTaxRule] && [MushroomTaxRule][1..] == [];
    assert ApplyRules([MushroomTaxRule], toppings, afterCheese) == afterMushroom;
  }

  /** In exact arithmetic the order of the two rules does not change the result. */
  lemma TaxRuleOrderIrrelevant(toppings: map<string, int>, tax: real)
    ensures ApplyRules([MushroomTaxRule, CheeseBurstTaxRule], toppings, tax)
            == ApplyRules(StandardTaxRules, toppings, tax)
  {
    StandardTaxIsScaling(toppings, tax);
    var afterMushroom := MushroomTaxRule.Apply(toppings, tax);
    var afterCheese := CheeseBurstTaxRule.Apply(toppings, afterMushroom);
    assert afterMushroom == tax * MushroomFactor(toppings);
    assert afterCheese == afterMushroom * CheeseBurstFactor(toppings);
    assert [MushroomTaxRule, CheeseBurstTaxRule][1..] == [CheeseBurstTaxRule] && [CheeseBurstTaxRule][1..] == [];
    assert ApplyRules([CheeseBurstTaxRule], toppings, afterMushroom) == afterCheese;
  }
}
