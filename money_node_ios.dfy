/**
 * The iOS copy of the account entity: the same builder rule, an optional id,
 * `contains(key:)`, and the decoding of the stored type string.
 */
module IosMoneyNodes {
  import opened Wrappers
  import opened MoneyNodeTypes
  import MoneyNodes
  import TypeConverters

  datatype IosMoneyNode = IosMoneyNode(
    id: Option<int>,
    name: string,
    nodeType: MoneyNodeType,
    keys: Option<seq<string>>,
    cardId: Option<int>,
    cardValid: Option<bool>)

  datatype BuildError = TypeIsNone

  /** `MoneyNodeBuilder.build()`: throws on `.none`, otherwise a node with a nil id. */
  function Build(b: MoneyNodes.MoneyNodeBuilder): (r: Result<IosMoneyNode, BuildError>)
    ensures r.Err? <==> b.nodeType == MoneyNodeType.None
    ensures r.Ok? ==> r.value.id.None?
  {
    if b.nodeType == MoneyNodeType.None then Err(TypeIsNone)
    else Ok(IosMoneyNode(Option.None, b.name, b.nodeType, b.keys, b.cardTypeId, b.cardValid))
  }

  /** `contains(key:)`: false when keys is nil, else membership. */
  function Contains(n: IosMoneyNode, key: string): bool
  {
    n.keys.Some? && key in n.keys.value
  }

  /** `MoneyNodeType(rawValue:) ?? .none`: the raw values are the same strings as on Android. */
  function DecodeType(raw: string): (t: MoneyNodeType)
  {
    if raw == "public" then Public
    else if raw == "outside" then Outside
    else if raw == "third" then Third
    else if raw == "employer" then Employer
    else if raw == "employee" then Employee
    else if raw == "customer" then Customer
    else if raw == "card" then Card
    else MoneyNodeType.None
  }

  /** The Android node corresponding to an iOS node (a nil id is the unstored id 0). */
  function ToAndroid(n: IosMoneyNode): MoneyNodes.MoneyNode
  {
    MoneyNodes.MoneyNode(if n.id.Some? then n.id.value else 0, n.name, n.nodeType, n.keys, n.cardId, n.cardValid)
  }

  /** Both platforms accept and refuse the same builders and build the same account. */
  lemma BuildAgreesWithAndroid(b: MoneyNodes.MoneyNodeBuilder)
    ensures Build(b).Ok? <==> MoneyNodes.BuildMoneyNode(b).Ok?
    ensures Build(b).Ok? ==> ToAndroid(Build(b).value) == MoneyNodes.BuildMoneyNode(b).value
  {
  }

  lemma ContainsAgreesWithAndroid(n: IosMoneyNode, key: string)
    ensures Contains(n, key) == MoneyNodes.ContainsKey(ToAndroid(n), key)
  {
  }

  /** Decoding a stored type agrees with the Android converter on every string. */
  lemma DecodeTypeAgreesWithAndroid(raw: string)
    ensures DecodeType(raw) == TypeConverters.StringToMoneyNodeType(raw)
  {
    var t := DecodeType(raw);
    if t != MoneyNodeType.None {
      assert Str(t) == raw;
      TypeConverters.MoneyNodeTypeRoundTrip(t);
    } else if TypeConverters.StringToMoneyNodeType(raw) != MoneyNodeType.None {
      TypeConverters.DecodedMoneyNodeTypeIsNamed(raw);
      var u: MoneyNodeType :| Str(u) == raw;
      DecodeStr(u);
    }
  }

  /** Decoding a type's own string gives the type back. */
  lemma DecodeStr(u: MoneyNodeType)
    ensures DecodeType(Str(u)) == u
  {
  }
}
