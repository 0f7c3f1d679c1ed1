/** Topping names, pizza sizes and the flat per-serving price list of a pricing session. */
module Menu {

  const CheeseBurst: string := "cheeseburst"
  const Corn: string := "corn"
  const Onion: string := "onion"
  const Capsicum: string := "capsicum"
  const Pineapple: string := "pineapple"
  const Mushroom: string := "mushroom"

  const Small: string := "small"
  const Medium: string := "medium"
  const Large: string := "large"

  /** Per-serving price of every known topping. "corn" is listed, but its price here is
      never used: corn is charged by the tiered corn decorator instead. */
  const Catalog: map<string, int> :=
    map[CheeseBurst := 100, Corn := 50, Onion := 30, Capsicum := 50, Pineapple := 60, Mushroom := 40]
}
