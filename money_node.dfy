/**
 * An account of the ledger and its checked builder. `MoneyNode` is a value: two
 * nodes are equal when every field, the id included, is equal.
 */
module MoneyNodes {
  import opened Wrappers
  import opened MoneyNodeTypes

  /**
   * An account. `id` is 0 until the store assigns one. `cardTypeId` is the
   * reference to a card type that Card accounts carry; `cardValid` is null when
   * not applicable.
   */
  datatype MoneyNode = MoneyNode(
    id: int,
    name: string,
    nodeType: MoneyNodeType,
    keys: Option<seq<string>>,
    cardTypeId: Option<int>,
    cardValid: Option<bool>)

  /** The mutable builder, captured as the value it holds when `build` runs. */
  datatype MoneyNodeBuilder = MoneyNodeBuilder(
    name: string,
    nodeType: MoneyNodeType,
    keys: Option<seq<string>>,
    cardTypeId: Option<int>,
    cardValid: Option<bool>)

  datatype BuildError = TypeIsNone

  /** A builder before the init block sets anything. */
  const DefaultBuilder: MoneyNodeBuilder := MoneyNodeBuilder("null", MoneyNodeType.None, Option.None, Option.None, Option.None)

  /** The builder whose fields a node carries (the inverse of building). */
  function BuilderOf(n: MoneyNode): MoneyNodeBuilder
  {
    MoneyNodeBuilder(n.name, n.nodeType, n.keys, n.cardTypeId, n.cardValid)
  }

  /** `buildMoneyNode`: refuses an unset type, otherwise a not-yet-stored node. */
  function BuildMoneyNode(b: MoneyNodeBuilder): (r: Result<MoneyNode, BuildError>)
    ensures r.Err? <==> b.nodeType == MoneyNodeType.None
    ensures r.Ok? ==> r.value.id == 0 && BuilderOf(r.value) == b
  {
    if b.nodeType == MoneyNodeType.None then Err(TypeIsNone)
    else Ok(MoneyNode(0, b.name, b.nodeType, b.keys, b.cardTypeId, b.cardValid))
  }

  /** A builder left at its defaults cannot be built. */
  lemma DefaultBuilderFails()
    ensures BuildMoneyNode(DefaultBuilder) == Err(TypeIsNone)
    ensures DefaultBuilder.name == "null"
  {
  }

  /** Building is injective: two builders yielding the same node were the same builder. */
  lemma BuildInjective(a: MoneyNodeBuilder, b: MoneyNodeBuilder)
    requires BuildMoneyNode(a).Ok? && BuildMoneyNode(a) == BuildMoneyNode(b)
    ensures a == b
  {
  }

  /** Every unstored node of a real type is what some builder builds. */
  lemma BuildIsOnto(n: MoneyNode)
    requires n.id == 0 && n.nodeType != MoneyNodeType.None
    ensures BuildMoneyNode(BuilderOf(n)) == Ok(n)
  {
  }

  /** `containsKey`: false when keys is null, else membership. */
  function ContainsKey(n: MoneyNode, key: string): (r: bool)
    ensures r <==> n.keys.Some? && exists i :: 0 <= i < |n.keys.value| && n.keys.value[i] == key
  {
    match n.keys
    case None => false
    case Some(ks) => key in ks
  }
}
