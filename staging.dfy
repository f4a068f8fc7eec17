/**
 * The accounts a checkout creates are staged before they are stored: each is
 * kept with the consumption that created it. `commit` stages pairs and `merge`
 * offers staged accounts to a search.
 */
module Staging {
  import opened Wrappers
  import opened MoneyNodeTypes
  import opened MoneyNodes
  import opened Stores
  import opened Consumptions

  type Pair = (Consumption, MoneyNode)

  /**
   * `commit`: each pair in turn is skipped when its account is already stored
   * (same id) or the pair is already staged, and appended otherwise.
   */
  function Committed(pairs: seq<Pair>, ps: seq<Pair>, stored: seq<MoneyNode>): seq<Pair>
  {
    if ps == [] then pairs
    else
      var prev := Committed(pairs, ps[..|ps| - 1], stored);
      var p := ps[|ps| - 1];
      if HasNodeId(stored, p.1.id) || p in prev then prev else prev + [p]
  }

  ghost predicate DistinctPairs(pairs: seq<Pair>)
  {
    forall i, j :: 0 <= i < j < |pairs| ==> pairs[i] != pairs[j]
  }

  /**
   * Committing keeps the staged pairs in front, never stages a pair twice,
   * stages only pairs whose account is not stored, and stages every such pair.
   */
  lemma {:induction false} CommittedSpec(pairs: seq<Pair>, ps: seq<Pair>, stored: seq<MoneyNode>)
    ensures var r := Committed(pairs, ps, stored);
            && |r| >= |pairs| && r[..|pairs|] == pairs
            && (DistinctPairs(pairs) ==> DistinctPairs(r))
            && (forall p :: p in r ==> p in pairs || (p in ps && !HasNodeId(stored, p.1.id)))
            && (forall p :: p in ps && !HasNodeId(stored, p.1.id) ==> p in r)
  {
    if ps != [] {
      var pps := ps[..|ps| - 1];
      CommittedSpec(pairs, pps, stored);
      var prev := Committed(pairs, pps, stored);
      var r := Committed(pairs, ps, stored);
      assert forall p :: p in ps <==> p in pps || p == ps[|ps| - 1];
      if !(HasNodeId(stored, ps[|ps| - 1].1.id) || ps[|ps| - 1] in prev) {
        assert r[..|pairs|] == prev[..|pairs|];
      }
    }
  }

  /** A stage as seen by `merge`: each staged account with the customer of its consumption. */
  type View = seq<(Option<MoneyNode>, MoneyNode)>

  /**
   * `merge`: for a Card search, append every staged Card whose consumption's
   * customer is the given (non-null) customer; for any other type, append each
   * staged account of that type not already in the list.
   */
  function Merged(target: seq<MoneyNode>, staged: View, t: MoneyNodeType, customer: Option<MoneyNode>): seq<MoneyNode>
  {
    if staged == [] then target
    else
      var prev := Merged(target, staged[..|staged| - 1], t, customer);
      var (owner, node) := staged[|staged| - 1];
      if t == Card then
        if customer.Some? && node.nodeType == t && owner == customer then prev + [node] else prev
      else if node.nodeType == t && node !in prev then prev + [node]
      else prev
  }

  /** The staged Cards of the given customer, in staging order. */
  function CardsOf(staged: View, customer: MoneyNode): seq<MoneyNode>
  {
    if staged == [] then []
    else
      var (owner, node) := staged[|staged| - 1];
      CardsOf(staged[..|staged| - 1], customer) + (if node.nodeType == Card && owner == Some(customer) then [node] else [])
  }

  /** Merging only appends, and only accounts of the searched type. */
  lemma {:induction false} MergedExtends(target: seq<MoneyNode>, staged: View, t: MoneyNodeType, customer: Option<MoneyNode>)
    ensures var r := Merged(target, staged, t, customer);
            && |r| >= |target| && r[..|target|] == target
            && forall i :: |target| <= i < |r| ==> r[i].nodeType == t
  {
    if staged != [] {
      var prev := Merged(target, staged[..|staged| - 1], t, customer);
      MergedExtends(target, staged[..|staged| - 1], t, customer);
      var r := Merged(target, staged, t, customer);
      if r != prev {
        assert r == prev + [staged[|staged| - 1].1];
        assert r[..|target|] == prev[..|target|];
      }
    }
  }

  /**
   * A Card search gains exactly the customer's staged Cards (duplicates
   * included, since nothing checks them), and nothing without a customer.
   */
  lemma {:induction false} MergedCards(target: seq<MoneyNode>, staged: View, customer: Option<MoneyNode>)
    ensures customer.None? ==> Merged(target, staged, Card, customer) == target
    ensures customer.Some? ==> Merged(target, staged, Card, customer) == target + CardsOf(staged, customer.value)
  {
    if staged != [] {
      MergedCards(target, staged[..|staged| - 1], customer);
    }
  }

  /**
   * Any other search gains every staged account of its type, and keeps the
   * list free of duplicates when it was.
   */
  lemma {:induction false} MergedOthers(target: seq<MoneyNode>, staged: View, t: MoneyNodeType, customer: Option<MoneyNode>)
    requires t != Card
    ensures var r := Merged(target, staged, t, customer);
            && (forall i :: 0 <= i < |staged| && staged[i].1.nodeType == t ==> staged[i].1 in r)
            && (forall n :: n in r ==> n in target || exists i :: 0 <= i < |staged| && staged[i].1 == n)
            && ((forall i, j :: 0 <= i < j < |target| ==> target[i] != target[j]) ==>
                  forall i, j :: 0 <= i < j < |r| ==> r[i] != r[j])
  {
    if staged != [] {
      var ps := staged[..|staged| - 1];
      MergedOthers(target, ps, t, customer);
      var prev := Merged(target, ps, t, customer);
      var r := Merged(target, staged, t, customer);
      forall i | 0 <= i < |staged| && staged[i].1.nodeType == t ensures staged[i].1 in r {
        if i < |ps| {
          assert ps[i] == staged[i];
        }
      }
      forall n | n in r ensures n in target || exists i :: 0 <= i < |staged| && staged[i].1 == n {
        if n in prev && n !in target {
          var i :| 0 <= i < |ps| && ps[i].1 == n;
          assert staged[i] == ps[i];
        }
      }
    }
  }
}
