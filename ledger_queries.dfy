/**
 * The read-only queries over one consistent snapshot of the store (each runs
 * inside one transaction in the source): account search, a customer's cards,
 * card balances, card ownership, and card-type lookup.
 */
module LedgerQueries {
  import opened Wrappers
  import opened Money
  import opened MoneyNodeTypes
  import opened MoneyNodes
  import opened Bills
  import opened Ranking

  /** A card category: name, minimum top-up price, discount text, legacy and valid flags. */
  datatype CardType = CardType(id: int, name: string, price: Decimal, discount: string, legacy: bool, valid: bool)

  /** `nodes.find { it.id == id }`: the first account with that id. */
  function FirstById(nodes: seq<MoneyNode>, id: int): (r: Option<MoneyNode>)
    ensures r.Some? ==> r.value in nodes && r.value.id == id
    ensures r.None? <==> forall n :: n in nodes ==> n.id != id
  {
    if nodes == [] then Option.None
    else if nodes[0].id == id then Some(nodes[0])
    else FirstById(nodes[1..], id)
  }

  /** `getPublic` / `getOutside`: the stored account of that type, if there is one. */
  function FirstOfType(nodes: seq<MoneyNode>, t: MoneyNodeType): (r: Option<MoneyNode>)
    ensures r.Some? ==> r.value in nodes && r.value.nodeType == t
    ensures r.None? <==> forall n :: n in nodes ==> n.nodeType != t
  {
    if nodes == [] then Option.None
    else if nodes[0].nodeType == t then Some(nodes[0])
    else FirstOfType(nodes[1..], t)
  }

  /** `findCardType`: null without a type id, else the first card type with that id, or null. */
  function FindCardType(card: MoneyNode, cardTypes: seq<CardType>): (r: Option<CardType>)
    ensures card.cardTypeId.None? ==> r.None?
    ensures r.Some? ==> r.value in cardTypes && Some(r.value.id) == card.cardTypeId
    ensures r.Some? ==> exists i :: 0 <= i < |cardTypes| && cardTypes[i] == r.value
                          && forall j :: 0 <= j < i ==> cardTypes[j].id != r.value.id
    ensures card.cardTypeId.Some? && r.None? ==> forall t :: t in cardTypes ==> t.id != card.cardTypeId.value
  {
    if card.cardTypeId.None? then Option.None
    else FirstTypeWithId(cardTypes, card.cardTypeId.value)
  }

  function FirstTypeWithId(cardTypes: seq<CardType>, id: int): (r: Option<CardType>)
    ensures r.Some? ==> r.value.id == id
    ensures r.Some? ==> exists i :: 0 <= i < |cardTypes| && cardTypes[i] == r.value
                          && forall j :: 0 <= j < i ==> cardTypes[j].id != id
    ensures r.None? <==> forall t :: t in cardTypes ==> t.id != id
  {
    if cardTypes == [] then Option.None
    else if cardTypes[0].id == id then Some(cardTypes[0])
    else
      var r := FirstTypeWithId(cardTypes[1..], id);
      if r.Some? then
        ghost var i :| 0 <= i < |cardTypes[1..]| && cardTypes[1..][i] == r.value
                       && forall j :: 0 <= j < i ==> cardTypes[1..][j].id != id;
        assert cardTypes[i + 1] == r.value;
        assert forall j :: 1 <= j < i + 1 ==> cardTypes[j] == cardTypes[1..][j - 1];
        r
      else
        assert forall t :: t in cardTypes[1..] ==> t.id != id;
        r
  }

  // ---------------------------------------------------------------- account search

  /** `it.keys?.joinToString() ?: ""`: keys separated by ", ". */
  function JoinKeys(keys: Option<seq<string>>): string
  {
    if keys.None? then "" else JoinToString(keys.value)
  }

  function JoinToString(ks: seq<string>): string
  {
    if ks == [] then "" else if |ks| == 1 then ks[0] else ks[0] + ", " + JoinToString(ks[1..])
  }

  /** The accounts eligible for a search: of one of `types` (any type when empty) and passing `filter`. */
  function SearchChoices(nodes: seq<MoneyNode>, types: set<MoneyNodeType>, filter: Option<MoneyNode -> bool>): (r: seq<MoneyNode>)
    ensures forall n :: n in r <==> n in nodes && (types == {} || n.nodeType in types) && (filter.None? || filter.value(n))
    ensures |r| <= |nodes|
  {
    if nodes == [] then []
    else
      var rest := SearchChoices(nodes[1..], types, filter);
      var n := nodes[0];
      assert forall m :: m in nodes <==> m == n || m in nodes[1..];
      if (types == {} || n.nodeType in types) && (filter.None? || filter.value(n)) then [n] + rest else rest
  }

  /** The three strings an account is scored on: name, joined keys, pinyin of the name. */
  function NodeFieldChoices(choices: seq<MoneyNode>, pinyin: string -> string): (f: seq<seq<string>>)
    ensures |f| == 3 && forall i :: 0 <= i < 3 ==> |f[i]| == |choices|
  {
    [ seq(|choices|, i requires 0 <= i < |choices| => choices[i].name),
      seq(|choices|, i requires 0 <= i < |choices| => JoinKeys(choices[i].keys)),
      seq(|choices|, i requires 0 <= i < |choices| => pinyin(choices[i].name)) ]
  }

  function Fields(query: string, fieldChoices: seq<seq<string>>, extract: Scorer): seq<seq<Candidate>>
  {
    seq(|fieldChoices|, f requires 0 <= f < |fieldChoices| => extract(query, fieldChoices[f]))
  }

  function Self(n: MoneyNode): MoneyNode { n }

  /**
   * `queryMoneyNode` over the snapshot `nodes`: rank the eligible accounts by
   * name, keys and pinyin. Results are eligible, pairwise different, at most
   * max(top, 1) of them.
   */
  method QueryMoneyNode(query: string, minScore: int, top: int, types: set<MoneyNodeType>,
                        filter: Option<MoneyNode -> bool>, nodes: seq<MoneyNode>,
                        extract: Scorer, pinyin: string -> string)
    returns (finalRes: seq<MoneyNode>)
    requires ValidScorer(extract)
    ensures var choices := SearchChoices(nodes, types, filter);
            var fields := Fields(query, NodeFieldChoices(choices, pinyin), extract);
            IndicesIn(Concat(fields), |choices|)
            && finalRes == Picks(Ranked(fields, choices, Self, minScore, top), choices)
    ensures |finalRes| <= Limit(top)
    ensures forall i, j :: 0 <= i < j < |finalRes| ==> finalRes[i] != finalRes[j]
    ensures forall n :: n in finalRes ==> n in nodes && (types == {} || n.nodeType in types) && (filter.None? || filter.value(n))
  {
    var choices := SearchChoices(nodes, types, filter);
    var fc := NodeFieldChoices(choices, pinyin);
    var fields := Fields(query, fc, extract);
    FieldsIndicesIn(extract, query, fc, |choices|);
    finalRes := Rank(fields, choices, Self, minScore, top);
    RankedGuarantees(fields, choices, Self, minScore, top);
    var ks := KeysOf(finalRes, Self);
    assert forall i :: 0 <= i < |finalRes| ==> ks[i] == finalRes[i];
  }

  // ---------------------------------------------------------------- a customer's cards

  /** The Card accounts of the snapshot. */
  function Cards(nodes: seq<MoneyNode>): (r: seq<MoneyNode>)
    ensures forall n :: n in r <==> n in nodes && n.nodeType == Card
  {
    if nodes == [] then []
    else
      assert forall m :: m in nodes <==> m == nodes[0] || m in nodes[1..];
      (if nodes[0].nodeType == Card then [nodes[0]] else []) + Cards(nodes[1..])
  }

  /** The card a bill from the customer would credit, when it is a valid card. */
  function CreditedCard(cards: seq<MoneyNode>, b: Bill, customerId: int): Option<MoneyNode>
  {
    if b.fromId != customerId then Option.None
    else
      var node := FirstById(cards, b.toId);
      if node.Some? && node.value.nodeType == Card && node.value.cardValid == Some(true) then node else Option.None
  }

  /**
   * The customer's candidate cards: each valid card credited by a bill from the
   * customer, once, in the order of the first such bill.
   */
  function CustomerCards(cards: seq<MoneyNode>, bills: seq<Bill>, customerId: int): seq<MoneyNode>
  {
    if bills == [] then []
    else
      var prev := CustomerCards(cards, bills[..|bills| - 1], customerId);
      var node := CreditedCard(cards, bills[|bills| - 1], customerId);
      if node.Some? && node.value !in prev then prev + [node.value] else prev
  }

  /** The candidates are distinct valid cards, and exactly the ones some bill from the customer credits. */
  lemma CustomerCardsSpec(cards: seq<MoneyNode>, bills: seq<Bill>, customerId: int)
    ensures var r := CustomerCards(cards, bills, customerId);
            && (forall i, j :: 0 <= i < j < |r| ==> r[i] != r[j])
            && (forall n :: n in r ==> n in cards && n.nodeType == Card && n.cardValid == Some(true))
            && (forall n :: n in r <==> exists i :: 0 <= i < |bills| && CreditedCard(cards, bills[i], customerId) == Some(n))
  {
    CustomerCardsDistinct(cards, bills, customerId);
    forall n ensures n in CustomerCards(cards, bills, customerId) <==>
                     exists i :: 0 <= i < |bills| && CreditedCard(cards, bills[i], customerId) == Some(n)
    {
      CustomerCardsMember(cards, bills, customerId, n);
    }
    forall n | n in CustomerCards(cards, bills, customerId) ensures n in cards && n.nodeType == Card && n.cardValid == Some(true) {
      var i :| 0 <= i < |bills| && CreditedCard(cards, bills[i], customerId) == Some(n);
    }
  }

  lemma {:induction false} CustomerCardsDistinct(cards: seq<MoneyNode>, bills: seq<Bill>, customerId: int)
    ensures Distinct(CustomerCards(cards, bills, customerId))
  {
    if bills != [] {
      var pb := bills[..|bills| - 1];
      CustomerCardsDistinct(cards, pb, customerId);
      var prev := CustomerCards(cards, pb, customerId);
      var r := CustomerCards(cards, bills, customerId);
      var node := CreditedCard(cards, bills[|bills| - 1], customerId);
      if node.Some? && node.value !in prev {
        assert r == prev + [node.value];
        forall i, j | 0 <= i < j < |r| ensures r[i] != r[j] {
          assert r[i] == prev[i];
          if j == |prev| {
            assert prev[i] in prev;
          } else {
            assert r[j] == prev[j];
          }
        }
      }
    }
  }

  /** A card is a candidate exactly when some bill from the customer credits it. */
  lemma {:induction false} CustomerCardsMember(cards: seq<MoneyNode>, bills: seq<Bill>, customerId: int, n: MoneyNode)
    ensures n in CustomerCards(cards, bills, customerId) <==> Credits(cards, bills, customerId, n)
  {
    if bills != [] {
      var pb := bills[..|bills| - 1];
      CustomerCardsMember(cards, pb, customerId, n);
      if Credits(cards, pb, customerId, n) {
        var i :| 0 <= i < |pb| && CreditedCard(cards, pb[i], customerId) == Some(n);
        assert bills[i] == pb[i];
      }
      if Credits(cards, bills, customerId, n) {
        var i :| 0 <= i < |bills| && CreditedCard(cards, bills[i], customerId) == Some(n);
        if i < |pb| {
          assert pb[i] == bills[i];
          assert Credits(cards, pb, customerId, n);
        }
      }
    }
  }

  /** Some bill from the customer credits the card `n`. */
  ghost predicate Credits(cards: seq<MoneyNode>, bills: seq<Bill>, customerId: int, n: MoneyNode)
  {
    exists i :: 0 <= i < |bills| && CreditedCard(cards, bills[i], customerId) == Some(n)
  }

  /** The loop of `queryCard` that collects the customer's candidate cards. */
  method CollectCustomerCards(cards: seq<MoneyNode>, bills: seq<Bill>, customer: MoneyNode)
    returns (customerCandidates: seq<MoneyNode>)
    ensures customerCandidates == CustomerCards(cards, bills, customer.id)
  {
    customerCandidates := [];
    for i := 0 to |bills|
      invariant customerCandidates == CustomerCards(cards, bills[..i], customer.id)
    {
      var bill := bills[i];
      assert bills[..i + 1][..i] == bills[..i];
      if bill.fromId == customer.id {
        var node := FirstById(cards, bill.toId);
        if node.Some? && node.value.nodeType == Card && node.value.cardValid == Some(true)
           && node.value !in customerCandidates {
          customerCandidates := customerCandidates + [node.value];
        }
      }
    }
    assert bills[..|bills|] == bills;
  }

  /** The three strings a candidate card is scored on: joined keys, name, pinyin of the name. */
  function CandidateFieldChoices(cands: seq<MoneyNode>, pinyin: string -> string): (f: seq<seq<string>>)
    ensures |f| == 3 && forall i :: 0 <= i < 3 ==> |f[i]| == |cands|
  {
    [ seq(|cands|, i requires 0 <= i < |cands| => JoinKeys(cands[i].keys)),
      seq(|cands|, i requires 0 <= i < |cands| => cands[i].name),
      seq(|cands|, i requires 0 <= i < |cands| => pinyin(cands[i].name)) ]
  }

  /**
   * `queryCard`: with an empty query, the customer's candidate cards; otherwise
   * the ranked candidates by joined keys, name and pinyin.
   */
  method QueryCard(query: string, customer: MoneyNode, minScore: int, top: int, nodes: seq<MoneyNode>, bills: seq<Bill>,
                   extract: Scorer, pinyin: string -> string)
    returns (finalRes: seq<MoneyNode>)
    requires ValidScorer(extract)
    ensures var candidates := CustomerCards(Cards(nodes), bills, customer.id);
            var fields := Fields(query, CandidateFieldChoices(candidates, pinyin), extract);
            && (query == "" ==> finalRes == candidates)
            && (query != "" ==> IndicesIn(Concat(fields), |candidates|)
                                && finalRes == Picks(Ranked(fields, candidates, Self, minScore, top), candidates)
                                && |finalRes| <= Limit(top))
            && (forall n :: n in finalRes ==> n in candidates)
    ensures forall i, j :: 0 <= i < j < |finalRes| ==> finalRes[i] != finalRes[j]
  {
    var choices := Cards(nodes);
    CustomerCardsSpec(choices, bills, customer.id);
    if choices == [] {
      assert CustomerCards(choices, bills, customer.id) == [] by {
        EmptyCardsNoCandidates(bills, customer.id);
      }
      var fc := CandidateFieldChoices([], pinyin);
      FieldsIndicesIn(extract, query, fc, 0);
      return [];
    }
    var customerCandidates := CollectCustomerCards(choices, bills, customer);
    if query == "" {
      return customerCandidates;
    }
    var fc := CandidateFieldChoices(customerCandidates, pinyin);
    var fields := Fields(query, fc, extract);
    FieldsIndicesIn(extract, query, fc, |customerCandidates|);
    finalRes := Rank(fields, customerCandidates, Self, minScore, top);
    RankedPicks(fields, customerCandidates, Self, minScore, top);
  }

  lemma {:induction false} EmptyCardsNoCandidates(bills: seq<Bill>, customerId: int)
    ensures CustomerCards([], bills, customerId) == []
  {
    if bills != [] {
      EmptyCardsNoCandidates(bills[..|bills| - 1], customerId);
    }
  }

  // ---------------------------------------------------------------- cards with their balance

  /** Σ of the amounts the customer paid into card `k` (no `valid` filter). */
  function CardIntake(cards: seq<MoneyNode>, bills: seq<Bill>, customerId: int, k: MoneyNode): real
  {
    if bills == [] then 0.0
    else
      var last := bills[|bills| - 1];
      CardIntake(cards, bills[..|bills| - 1], customerId, k)
        + (if CreditedCard(cards, last, customerId) == Some(k) then Value(last.money) else 0.0)
  }

  /** Σ of the amounts paid from the account with id `cardId` to the outside account (no `valid` filter). */
  function CardOutflow(bills: seq<Bill>, outsideId: int, cardId: int): real
  {
    if bills == [] then 0.0
    else
      var last := bills[|bills| - 1];
      CardOutflow(bills[..|bills| - 1], outsideId, cardId)
        + (if last.toId == outsideId && last.fromId == cardId then Value(last.money) else 0.0)
  }

  /** Each candidate card, in first-bill order, with intake minus outflow. */
  function CardsWithBalance(cards: seq<MoneyNode>, bills: seq<Bill>, customerId: int, outsideId: int): (r: seq<(MoneyNode, real)>)
    ensures |r| == |CustomerCards(cards, bills, customerId)|
  {
    var cc := CustomerCards(cards, bills, customerId);
    seq(|cc|, i requires 0 <= i < |cc| => (cc[i], CardIntake(cards, bills, customerId, cc[i]) - CardOutflow(bills, outsideId, cc[i].id)))
  }

  /** A card nobody among the candidates has received nothing from the customer. */
  lemma {:induction false} IntakeOfNonCandidate(cards: seq<MoneyNode>, bills: seq<Bill>, customerId: int, k: MoneyNode)
    requires k !in CustomerCards(cards, bills, customerId)
    ensures CardIntake(cards, bills, customerId, k) == 0.0
  {
    if bills != [] {
      var pb := bills[..|bills| - 1];
      assert k !in CustomerCards(cards, pb, customerId);
      IntakeOfNonCandidate(cards, pb, customerId, k);
    }
  }

  /** Every candidate is the account its id resolves to, so candidates have pairwise distinct ids. */
  lemma CandidateIsFirstById(cards: seq<MoneyNode>, bills: seq<Bill>, customerId: int, k: MoneyNode)
    requires k in CustomerCards(cards, bills, customerId)
    ensures FirstById(cards, k.id) == Some(k)
  {
    CustomerCardsSpec(cards, bills, customerId);
  }

  function First(p: (MoneyNode, real)): MoneyNode { p.0 }

  /** The three strings a card entry is scored on: joined keys, name, pinyin of the name. */
  function CardFieldChoices(entries: seq<(MoneyNode, real)>, pinyin: string -> string): (f: seq<seq<string>>)
    ensures |f| == 3 && forall i :: 0 <= i < 3 ==> |f[i]| == |entries|
  {
    [ seq(|entries|, i requires 0 <= i < |entries| => JoinKeys(entries[i].0.keys)),
      seq(|entries|, i requires 0 <= i < |entries| => entries[i].0.name),
      seq(|entries|, i requires 0 <= i < |entries| => pinyin(entries[i].0.name)) ]
  }

  /** The first loop of `queryCardWithBalance`: the customer's valid cards with what was paid into each. */
  method CollectIntake(cards: seq<MoneyNode>, bills: seq<Bill>, customer: MoneyNode)
    returns (keys: seq<MoneyNode>, m: map<MoneyNode, real>)
    ensures keys == CustomerCards(cards, bills, customer.id)
    ensures forall k :: k in m <==> k in keys
    ensures forall k :: k in m ==> m[k] == CardIntake(cards, bills, customer.id, k)
  {
    keys, m := [], map[];
    for i := 0 to |bills|
      invariant keys == CustomerCards(cards, bills[..i], customer.id)
      invariant forall k :: k in m <==> k in keys
      invariant forall k :: k in m ==> m[k] == CardIntake(cards, bills[..i], customer.id, k)
    {
      var bill := bills[i];
      assert bills[..i + 1][..i] == bills[..i];
      assert bills[..i + 1][i] == bill;
      if bill.fromId == customer.id {
        var node := FirstById(cards, bill.toId);
        if node.Some? && node.value.nodeType == Card && node.value.cardValid == Some(true) {
          if node.value !in m {
            IntakeOfNonCandidate(cards, bills[..i], customer.id, node.value);
            m := m[node.value := Value(bill.money)];
            keys := keys + [node.value];
          } else {
            m := m[node.value := m[node.value] + Value(bill.money)];
          }
        }
      }
    }
    assert bills[..|bills|] == bills;
  }

  /** The second loop of `queryCardWithBalance`: subtract what each card paid to the outside account. */
  method SubtractOutflow(cards: seq<MoneyNode>, bills: seq<Bill>, customer: MoneyNode, outside: MoneyNode,
                         keys: seq<MoneyNode>, m0: map<MoneyNode, real>)
    returns (m: map<MoneyNode, real>)
    requires keys == CustomerCards(cards, bills, customer.id)
    requires forall k :: k in m0 <==> k in keys
    requires forall k :: k in m0 ==> m0[k] == CardIntake(cards, bills, customer.id, k)
    ensures forall k :: k in m <==> k in keys
    ensures forall k :: k in m ==> m[k] == CardIntake(cards, bills, customer.id, k) - CardOutflow(bills, outside.id, k.id)
  {
    m := m0;
    for j := 0 to |bills|
      invariant forall k :: k in m <==> k in keys
      invariant forall k :: k in m ==> m[k] == CardIntake(cards, bills, customer.id, k) - CardOutflow(bills[..j], outside.id, k.id)
    {
      var bill := bills[j];
      assert bills[..j + 1][..j] == bills[..j];
      assert bills[..j + 1][j] == bill;
      if bill.toId != outside.id {
        continue;
      }
      var card := FirstById(keys, bill.fromId);
      if card.Some? {
        forall k | k in keys && k.id == bill.fromId ensures k == card.value {
          CandidateIsFirstById(cards, bills, customer.id, k);
          CandidateIsFirstById(cards, bills, customer.id, card.value);
        }
        m := m[card.value := m[card.value] - Value(bill.money)];
      }
    }
    assert bills[..|bills|] == bills;
  }

  /** Both loops of `queryCardWithBalance`, giving the candidate cards with their balances. */
  method CardBalances(cards: seq<MoneyNode>, bills: seq<Bill>, customer: MoneyNode, outside: MoneyNode)
    returns (entries: seq<(MoneyNode, real)>)
    ensures entries == CardsWithBalance(cards, bills, customer.id, outside.id)
  {
    var keys, m0 := CollectIntake(cards, bills, customer);
    var m := SubtractOutflow(cards, bills, customer, outside, keys, m0);
    entries := seq(|keys|, i requires 0 <= i < |keys| => (keys[i], m[keys[i]]));
  }

  /** The candidate cards with balances hold each card once. */
  lemma CardsWithBalanceDistinct(cards: seq<MoneyNode>, bills: seq<Bill>, customerId: int, outsideId: int)
    ensures var es := CardsWithBalance(cards, bills, customerId, outsideId);
            forall i, j :: 0 <= i < j < |es| ==> es[i].0 != es[j].0
  {
    CustomerCardsSpec(cards, bills, customerId);
  }

  /** The ranking step of `queryCardWithBalance` for a non-empty query. */
  method RankCardEntries(query: string, entries: seq<(MoneyNode, real)>, minScore: int, top: int,
                         extract: Scorer, pinyin: string -> string)
    returns (finalRes: seq<(MoneyNode, real)>)
    requires ValidScorer(extract)
    ensures IndicesIn(Concat(Fields(query, CardFieldChoices(entries, pinyin), extract)), |entries|)
    ensures finalRes == Picks(Ranked(Fields(query, CardFieldChoices(entries, pinyin), extract), entries, First, minScore, top), entries)
    ensures |finalRes| <= Limit(top)
    ensures forall e :: e in finalRes ==> e in entries
    ensures forall i, j :: 0 <= i < j < |finalRes| ==> finalRes[i].0 != finalRes[j].0
  {
    var fc := CardFieldChoices(entries, pinyin);
    var fields := Fields(query, fc, extract);
    FieldsIndicesIn(extract, query, fc, |entries|);
    finalRes := Rank(fields, entries, First, minScore, top);
    RankedPicks(fields, entries, First, minScore, top);
  }

  /**
   * `queryCardWithBalance`: nothing when there is no card at all; otherwise
   * `getOutside` must find the Outside account, and then, with an empty query,
   * every candidate card with its balance, in first-bill order, or else the
   * ranked entries by joined keys, name and pinyin. The map is kept as its
   * entries in insertion order.
   */
  method QueryCardWithBalance(query: string, customer: MoneyNode, minScore: int, top: int, nodes: seq<MoneyNode>,
                              bills: seq<Bill>, extract: Scorer, pinyin: string -> string)
    returns (r: Result<seq<(MoneyNode, real)>, QueryError>)
    requires ValidScorer(extract)
    ensures Cards(nodes) == [] ==> r == Ok([])
    ensures r.Err? <==> Cards(nodes) != [] && FirstOfType(nodes, Outside).None?
    ensures r.Err? ==> r.error == MissingOutside
    ensures r.Ok? && Cards(nodes) != [] ==>
              FirstOfType(nodes, Outside).Some? &&
              var entries := CardsWithBalance(Cards(nodes), bills, customer.id, FirstOfType(nodes, Outside).value.id);
              && (query == "" ==> r.value == entries)
              && (query != "" ==> IndicesIn(Concat(Fields(query, CardFieldChoices(entries, pinyin), extract)), |entries|)
                                  && r.value == Picks(Ranked(Fields(query, CardFieldChoices(entries, pinyin), extract), entries, First, minScore, top), entries)
                                  && |r.value| <= Limit(top))
              && (forall e :: e in r.value ==> e in entries)
    ensures r.Ok? ==> forall i, j :: 0 <= i < j < |r.value| ==> r.value[i].0 != r.value[j].0
  {
    var choices := Cards(nodes);
    if choices == [] {
      return Ok([]);
    }
    var outside := FirstOfType(nodes, Outside);
    if outside.None? {
      return Err(MissingOutside);
    }
    var entries := CardBalances(choices, bills, customer, outside.value);
    if query == "" {
      CardsWithBalanceDistinct(choices, bills, customer.id, outside.value.id);
      return Ok(entries);
    }
    var finalRes := RankCardEntries(query, entries, minScore, top, extract, pinyin);
    return Ok(finalRes);
  }

  // ---------------------------------------------------------------- card owner and balance

  datatype QueryError = NotACard | NotExactlyOneOwner | MissingOutside

  /** The distinct Customer accounts that paid into the card, in first-bill order. */
  function Owners(nodes: seq<MoneyNode>, bills: seq<Bill>, cardId: int): seq<MoneyNode>
  {
    if bills == [] then []
    else
      var prev := Owners(nodes, bills[..|bills| - 1], cardId);
      var last := bills[|bills| - 1];
      var node := if last.toId == cardId then FirstById(nodes, last.fromId) else Option.None;
      if node.Some? && node.value.nodeType == Customer && node.value !in prev then prev + [node.value] else prev
  }

  /** `n` is the Customer account some bill into the card comes from. */
  ghost predicate PaysInto(nodes: seq<MoneyNode>, bills: seq<Bill>, cardId: int, n: MoneyNode)
  {
    n.nodeType == Customer
    && exists i :: 0 <= i < |bills| && bills[i].toId == cardId && FirstById(nodes, bills[i].fromId) == Some(n)
  }

  lemma OwnersSpec(nodes: seq<MoneyNode>, bills: seq<Bill>, cardId: int)
    ensures var r := Owners(nodes, bills, cardId);
            && (forall i, j :: 0 <= i < j < |r| ==> r[i] != r[j])
            && (forall n :: n in r <==> PaysInto(nodes, bills, cardId, n))
  {
    OwnersDistinct(nodes, bills, cardId);
    forall n ensures n in Owners(nodes, bills, cardId) <==> PaysInto(nodes, bills, cardId, n) {
      OwnersMember(nodes, bills, cardId, n);
    }
  }

  lemma {:induction false} OwnersDistinct(nodes: seq<MoneyNode>, bills: seq<Bill>, cardId: int)
    ensures Distinct(Owners(nodes, bills, cardId))
  {
    if bills != [] {
      OwnersDistinct(nodes, bills[..|bills| - 1], cardId);
      var prev := Owners(nodes, bills[..|bills| - 1], cardId);
      var r := Owners(nodes, bills, cardId);
      var last := bills[|bills| - 1];
      var node := if last.toId == cardId then FirstById(nodes, last.fromId) else Option.None;
      if node.Some? && node.value.nodeType == Customer && node.value !in prev {
        assert r == prev + [node.value];
        forall i, j | 0 <= i < j < |r| ensures r[i] != r[j] {
          assert r[i] == prev[i];
          if j == |prev| {
            assert prev[i] in prev;
          } else {
            assert r[j] == prev[j];
          }
        }
      }
    }
  }

  /** An account is an owner exactly when it is a Customer some bill into the card comes from. */
  lemma {:induction false} OwnersMember(nodes: seq<MoneyNode>, bills: seq<Bill>, cardId: int, n: MoneyNode)
    ensures n in Owners(nodes, bills, cardId) <==> PaysInto(nodes, bills, cardId, n)
  {
    if bills != [] {
      var pb := bills[..|bills| - 1];
      OwnersMember(nodes, pb, cardId, n);
      if PaysInto(nodes, pb, cardId, n) {
        var i :| 0 <= i < |pb| && pb[i].toId == cardId && FirstById(nodes, pb[i].fromId) == Some(n);
        assert bills[i] == pb[i];
      }
      if PaysInto(nodes, bills, cardId, n) {
        var i :| 0 <= i < |bills| && bills[i].toId == cardId && FirstById(nodes, bills[i].fromId) == Some(n);
        if i < |pb| {
          assert pb[i] == bills[i];
          assert PaysInto(nodes, pb, cardId, n);
        }
      }
    }
  }

  /** `o` is the one and only Customer paying into the card. */
  ghost predicate SoleSource(nodes: seq<MoneyNode>, bills: seq<Bill>, cardId: int, o: MoneyNode)
  {
    forall n :: PaysInto(nodes, bills, cardId, n) <==> n == o
  }

  /** `queryCardOwner` as a value: the single Customer paying into the card, or why there is none. */
  function CardOwner(card: MoneyNode, nodes: seq<MoneyNode>, bills: seq<Bill>): Result<MoneyNode, QueryError>
  {
    if card.nodeType != Card then Err(NotACard)
    else
      var res := Owners(nodes, bills, card.id);
      if |res| != 1 then Err(NotExactlyOneOwner) else Ok(res[0])
  }

  /**
   * A card has an owner exactly when one Customer, and no other, pays into it;
   * that Customer is the owner.
   */
  lemma CardOwnerIsSoleCustomerSource(card: MoneyNode, nodes: seq<MoneyNode>, bills: seq<Bill>)
    requires card.nodeType == Card
    ensures CardOwner(card, nodes, bills).Ok? <==> exists o :: SoleSource(nodes, bills, card.id, o)
    ensures CardOwner(card, nodes, bills).Ok? ==>
              var o := CardOwner(card, nodes, bills).value;
              o.nodeType == Customer && SoleSource(nodes, bills, card.id, o)
  {
    var r := Owners(nodes, bills, card.id);
    OwnersSpec(nodes, bills, card.id);
    if |r| == 1 {
      assert forall n :: n in r <==> n == r[0];
      assert r[0] in r;
      assert SoleSource(nodes, bills, card.id, r[0]);
    }
    forall o | SoleSource(nodes, bills, card.id, o) ensures |r| == 1 {
      assert PaysInto(nodes, bills, card.id, o);
      DistinctAllSame(r, o);
    }
  }

  /** A duplicate-free sequence whose elements are all one value has at most one element. */
  lemma DistinctAllSame<T>(r: seq<T>, o: T)
    requires forall i, j :: 0 <= i < j < |r| ==> r[i] != r[j]
    requires forall n :: n in r ==> n == o
    ensures |r| <= 1
  {
    if |r| >= 2 {
      FirstTwoAlike(r, o);
      assert false;
    }
  }

  lemma FirstTwoAlike<T>(r: seq<T>, o: T)
    requires |r| >= 2
    requires forall n :: n in r ==> n == o
    ensures r[0] == r[1]
  {
    assert r[0] in r && r[1] in r;
  }

  /** `queryCardOwner`: reject a non-card, then collect the Customer sources and demand exactly one. */
  method QueryCardOwner(card: MoneyNode, nodes: seq<MoneyNode>, bills: seq<Bill>) returns (r: Result<MoneyNode, QueryError>)
    ensures r == CardOwner(card, nodes, bills)
  {
    if card.nodeType != Card {
      return Err(NotACard);
    }
    var res := [];
    for i := 0 to |bills|
      invariant res == Owners(nodes, bills[..i], card.id)
    {
      var bill := bills[i];
      assert bills[..i + 1][..i] == bills[..i];
      assert bills[..i + 1][i] == bill;
      if bill.toId == card.id {
        var node := FirstById(nodes, bill.fromId);
        if node.Some? && node.value.nodeType == Customer && node.value !in res {
          res := res + [node.value];
        }
      }
    }
    assert bills[..|bills|] == bills;
    if |res| != 1 {
      return Err(NotExactlyOneOwner);
    }
    return Ok(res[0]);
  }

  /** What one bill does to the card's balance: + a valid owner→card bill, − a valid card→outside bill. */
  function BalanceDelta(b: Bill, ownerId: int, cardId: int, outsideId: int): real
  {
    if b.fromId == ownerId && b.toId == cardId && b.valid then Value(b.money)
    else if b.fromId == cardId && b.toId == outsideId && b.valid then -Value(b.money)
    else 0.0
  }

  /** The card balance replayed from zero over the bills in order. */
  function CardBalance(bills: seq<Bill>, ownerId: int, cardId: int, outsideId: int): real
  {
    if bills == [] then 0.0
    else CardBalance(bills[..|bills| - 1], ownerId, cardId, outsideId) + BalanceDelta(bills[|bills| - 1], ownerId, cardId, outsideId)
  }

  lemma {:induction false} CardBalanceAppend(a: seq<Bill>, b: seq<Bill>, ownerId: int, cardId: int, outsideId: int)
    ensures CardBalance(a + b, ownerId, cardId, outsideId) == CardBalance(a, ownerId, cardId, outsideId) + CardBalance(b, ownerId, cardId, outsideId)
  {
    if b != [] {
      assert (a + b)[..|a + b| - 1] == a + b[..|b| - 1];
      CardBalanceAppend(a, b[..|b| - 1], ownerId, cardId, outsideId);
    } else {
      assert a + b == a;
    }
  }

  /** The balance does not depend on the order of the bills. */
  lemma {:induction false} CardBalanceOrderFree(bills: seq<Bill>, other: seq<Bill>, ownerId: int, cardId: int, outsideId: int)
    requires multiset(bills) == multiset(other)
    ensures CardBalance(bills, ownerId, cardId, outsideId) == CardBalance(other, ownerId, cardId, outsideId)
  {
    if bills != [] {
      var x := bills[|bills| - 1];
      var pb := bills[..|bills| - 1];
      assert bills == pb + [x];
      assert x in multiset(other);
      var j :| 0 <= j < |other| && other[j] == x;
      var rest := other[..j] + other[j + 1..];
      RemoveOneKeepsRest(pb, x, other, j);
      CardBalanceOrderFree(pb, rest, ownerId, cardId, outsideId);
      CardBalanceWithout(other, j, ownerId, cardId, outsideId);
    } else {
      assert other == [];
    }
  }

  /** Taking the same bill out of two equal multisets of bills leaves equal multisets. */
  lemma RemoveOneKeepsRest(pb: seq<Bill>, x: Bill, other: seq<Bill>, j: int)
    requires 0 <= j < |other| && other[j] == x
    requires multiset(pb + [x]) == multiset(other)
    ensures multiset(pb) == multiset(other[..j] + other[j + 1..])
  {
    assert other == other[..j] + [x] + other[j + 1..];
    assert multiset(other) == multiset(other[..j]) + multiset{x} + multiset(other[j + 1..]);
    assert multiset(pb + [x]) == multiset(pb) + multiset{x};
    assert multiset(other[..j] + other[j + 1..]) == multiset(other[..j]) + multiset(other[j + 1..]);
    assert multiset(pb) == multiset(other) - multiset{x};
  }

  /** The balance of a list of bills is that of the list without one bill, plus that bill's change. */
  lemma CardBalanceWithout(other: seq<Bill>, j: int, ownerId: int, cardId: int, outsideId: int)
    requires 0 <= j < |other|
    ensures CardBalance(other, ownerId, cardId, outsideId)
            == CardBalance(other[..j] + other[j + 1..], ownerId, cardId, outsideId) + BalanceDelta(other[j], ownerId, cardId, outsideId)
  {
    var x := other[j];
    assert other == other[..j] + [x] + other[j + 1..];
    CardBalanceAppend(other[..j] + [x], other[j + 1..], ownerId, cardId, outsideId);
    CardBalanceAppend(other[..j], [x], ownerId, cardId, outsideId);
    CardBalanceAppend(other[..j], other[j + 1..], ownerId, cardId, outsideId);
    assert CardBalance([x], ownerId, cardId, outsideId) == BalanceDelta(x, ownerId, cardId, outsideId) by {
      assert [x][..0] == [];
    }
  }

  /**
   * `queryCardBalance`: reject a non-card, resolve the owner, look up the
   * Outside account (`getOutside` fails when there is none), then replay the
   * bills. The owner is always a Customer, so the source's second type check
   * never fires.
   */
  method QueryCardBalance(card: MoneyNode, nodes: seq<MoneyNode>, bills: seq<Bill>)
    returns (r: Result<real, QueryError>)
    ensures card.nodeType != Card ==> r == Err(NotACard)
    ensures CardOwner(card, nodes, bills).Err? ==> r == Err(CardOwner(card, nodes, bills).error)
    ensures CardOwner(card, nodes, bills).Ok? && FirstOfType(nodes, Outside).None? ==> r == Err(MissingOutside)
    ensures CardOwner(card, nodes, bills).Ok? && FirstOfType(nodes, Outside).Some? ==>
              r == Ok(CardBalance(bills, CardOwner(card, nodes, bills).value.id, card.id, FirstOfType(nodes, Outside).value.id))
  {
    var ballance := 0.0;
    if card.nodeType != Card {
      return Err(NotACard);
    }
    var owned := QueryCardOwner(card, nodes, bills);
    if owned.Err? {
      return Err(owned.error);
    }
    var owner := owned.value;
    CardOwnerIsSoleCustomerSource(card, nodes, bills);
    assert owner.nodeType == Customer;
    var found := FirstOfType(nodes, Outside);
    if found.None? {
      return Err(MissingOutside);
    }
    var outside := found.value;
    for i := 0 to |bills|
      invariant ballance == CardBalance(bills[..i], owner.id, card.id, outside.id)
    {
      var bill := bills[i];
      assert bills[..i + 1][..i] == bills[..i];
      assert bills[..i + 1][i] == bill;
      if bill.fromId == owner.id && bill.toId == card.id && bill.valid {
        ballance := ballance + Value(bill.money);
      } else if bill.fromId == card.id && bill.toId == outside.id && bill.valid {
        ballance := ballance - Value(bill.money);
      }
    }
    assert bills[..|bills|] == bills;
    return Ok(ballance);
  }
}
