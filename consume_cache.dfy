/**
 * `ConsumeCache`: the accounts a checkout creates wait here, each with the
 * consumption that created it, until the checkout is submitted. It also
 * builds the checkout preview, and `submitConsumptions` stores a checkout
 * inside one database transaction.
 */
module ConsumeCaches {
  import opened Wrappers
  import opened MoneyNodeTypes
  import opened MoneyNodes
  import opened Bills
  import opened Ranking
  import opened Stores
  import opened LedgerQueries
  import opened Consumptions
  import opened Staging
  import opened Flushing
  import opened Previews

  /**
   * `submitConsumptions` on values: store the staged accounts and rebind the
   * consumptions, look up Public and Outside, build every bill, and insert
   * them all; the first failure refuses the checkout.
   */
  function Submit(db: Db, es: seq<Entry>, staged: seq<MoneyNode>, now: int): Result<Db, ConsumeError>
  {
    var f := FlushAll(db, es, staged);
    if !f.ok then Err(NodeAddFailure) else StoreBills(f.db, f.entries, now)
  }

  /** The part of `submitConsumptions` after the flush: build the bills and insert them. */
  function StoreBills(db: Db, es: seq<Entry>, now: int): Result<Db, ConsumeError>
  {
    match FirstOfType(db.nodes, Public)
    case None => Err(NoPublic)
    case Some(pub) =>
      match FirstOfType(db.nodes, Outside)
      case None => Err(NoOutside)
      case Some(outside) =>
        var bills :- AllBills(es, pub.id, outside.id, now);
        match InsertBillBatch(db, bills)
        case None => Err(BillInsertFailure)
        case Some(db') => Ok(db')
  }

  /** The number of bills only depends on the kinds of the consumptions. */
  lemma {:induction false} TotalBillCountByKinds(a: seq<Entry>, b: seq<Entry>)
    requires |a| == |b| && forall i :: 0 <= i < |a| ==> a[i].ctype == b[i].ctype
    ensures TotalBillCount(a) == TotalBillCount(b)
  {
    if a != [] {
      TotalBillCountByKinds(a[..|a| - 1], b[..|b| - 1]);
    }
  }

  /**
   * A submitted checkout keeps the table constraints, stores every staged
   * account after the existing ones, leaves the services alone, and appends
   * exactly the checkout's bills, built from the rebound consumptions against
   * the stored Public and Outside accounts (one per Purchase and UseCard
   * consumption, two per Deposit and ThirdParty consumption), in order, under
   * consecutive fresh ids.
   */
  lemma SubmitSpec(db: Db, es: seq<Entry>, staged: seq<MoneyNode>, now: int)
    requires ValidDb(db) && Submit(db, es, staged, now).Ok?
    ensures var db' := Submit(db, es, staged, now).value;
            && ValidDb(db')
            && NoneStored(db.nodes, staged)
            && AppendsStaged(db.nodes, db'.nodes, staged)
            && db'.services == db.services
            && |db'.bills| == |db.bills| + TotalBillCount(es)
            && db'.bills[..|db.bills|] == db.bills
            && (forall i :: |db.bills| <= i < |db'.bills| ==> db'.bills[i].id == db.nextBillId + (i - |db.bills|))
  ensures var f := FlushAll(db, es, staged);
          f.ok && FirstOfType(f.db.nodes, Public).Some? && FirstOfType(f.db.nodes, Outside).Some? &&
          var pubId := FirstOfType(f.db.nodes, Public).value.id;
          var outsideId := FirstOfType(f.db.nodes, Outside).value.id;
          AllBills(f.entries, pubId, outsideId, now).Ok? &&
          var bills := AllBills(f.entries, pubId, outsideId, now).value;
          Submit(db, es, staged, now).value.bills
            == db.bills + seq(|bills|, i requires 0 <= i < |bills| => bills[i].(id := db.nextBillId + i))
  {
    var f := FlushAll(db, es, staged);
    FlushAllValid(db, es, staged);
    FlushAllFrame(db, es, staged);
    FlushAllRefusesStored(db, es, staged);
    FlushAllStoresStaged(db, es, staged);
    var pub := FirstOfType(f.db.nodes, Public).value;
    var outside := FirstOfType(f.db.nodes, Outside).value;
    var bills := AllBills(f.entries, pub.id, outside.id, now).value;
    AllBillsSpec(f.entries, pub.id, outside.id, now);
    TotalBillCountByKinds(f.entries, es);
    InsertFreshBills(f.db, bills);
    var db' := InsertBillBatch(f.db, bills).value;
    assert db'.bills[..|db.bills|] == db.bills;
  }

  /** On a consistent database the bill insert of a checkout is never refused. */
  lemma SubmitNeverRefusesBills(db: Db, es: seq<Entry>, staged: seq<MoneyNode>, now: int)
    requires ValidDb(db)
    ensures Submit(db, es, staged, now) != Err(BillInsertFailure)
  {
    var f := FlushAll(db, es, staged);
    FlushAllValid(db, es, staged);
    if f.ok {
      StoreBillsNeverRefuses(f.db, f.entries, now);
    }
  }

  lemma StoreBillsNeverRefuses(db: Db, es: seq<Entry>, now: int)
    requires ValidDb(db)
    ensures StoreBills(db, es, now) != Err(BillInsertFailure)
  {
    if FirstOfType(db.nodes, Public).Some? && FirstOfType(db.nodes, Outside).Some? {
      var pub := FirstOfType(db.nodes, Public).value;
      var outside := FirstOfType(db.nodes, Outside).value;
      var bills := AllBills(es, pub.id, outside.id, now);
      AllBillsErrors(es, pub.id, outside.id, now);
      if bills.Ok? {
        AllBillsSpec(es, pub.id, outside.id, now);
        InsertFreshBills(db, bills.value);
      }
    }
  }

  class ConsumeCache {
    /** `moneyNodePairs`: each staged account with the consumption that created it. */
    var pairs: seq<Pair>

    constructor ()
      ensures pairs == []
    {
      pairs := [];
    }

    /** The staged accounts, in staging order. */
    function Staged(): (r: seq<MoneyNode>)
      reads this
      ensures |r| == |pairs| && forall i :: 0 <= i < |pairs| ==> r[i] == pairs[i].1
    {
      seq(|pairs|, i reads this requires 0 <= i < |pairs| => pairs[i].1)
    }

    /** The consumptions that staged accounts. */
    function Creators(): set<Consumption>
      reads this
    {
      set i | 0 <= i < |pairs| :: pairs[i].0
    }

    /** What `merge` looks at: each staged account with its consumption's customer now. */
    function View(): (r: View)
      reads this, Creators()
      ensures |r| == |pairs| && forall i :: 0 <= i < |pairs| ==> r[i] == (pairs[i].0.customer, pairs[i].1)
    {
      seq(|pairs|, i reads this, Creators() requires 0 <= i < |pairs| => (pairs[i].0.customer, pairs[i].1))
    }

    /** `isNewNode`: some staged pair holds this account. */
    predicate IsNewNode(n: MoneyNode)
      reads this
    {
      n in Staged()
    }

    /** `commit`: stage each pair whose account is not stored and that is not staged yet. */
    method Commit(ps: seq<Pair>, store: Store)
      modifies this
      ensures pairs == Committed(old(pairs), ps, store.nodes)
    {
      for i := 0 to |ps|
        invariant pairs == Committed(old(pairs), ps[..i], store.nodes)
      {
        assert ps[..i + 1][..i] == ps[..i];
        assert ps[..i + 1][i] == ps[i];
        if store.IsMoneyNodeExists(ps[i].1) {
          continue;
        }
        if ps[i] !in pairs {
          pairs := pairs + [ps[i]];
        }
      }
      assert ps[..|ps|] == ps;
    }

    /** `merge`: the search results with the staged accounts the search should offer appended. */
    method Merge(target: seq<MoneyNode>, t: MoneyNodeType, customer: Option<MoneyNode>) returns (r: seq<MoneyNode>)
      ensures r == Merged(target, View(), t, customer)
    {
      var view := View();
      r := target;
      for i := 0 to |pairs|
        invariant r == Merged(target, view[..i], t, customer)
      {
        assert view[..i + 1][..i] == view[..i];
        var (consumption, node) := pairs[i];
        if t == Card {
          if customer.Some? && node.nodeType == t && consumption.customer == customer {
            r := r + [node];
          }
          continue;
        }
        if node.nodeType == t && node !in r {
          r := r + [node];
        }
      }
      assert view[..|pairs|] == view;
    }

    /** `clear`: forget every staged pair. */
    method Clear()
      modifies this
      ensures pairs == []
    {
      pairs := [];
    }

    /**
     * `updateConsumption`: in each consumption, the first of customer, card and
     * third that is the staged account now holds what the store returns for
     * its new id.
     */
    method UpdateConsumption(node: MoneyNode, consumptions: seq<Consumption>, id: int, store: Store)
      requires Distinct(consumptions)
      modifies consumptions
      ensures Snapshots(consumptions) == RebindAll(old(Snapshots(consumptions)), node, store.GetMoneyNode(id))
    {
      var stored := store.GetMoneyNode(id);
      for i := 0 to |consumptions|
        invariant forall j :: 0 <= j < i ==>
                    consumptions[j].Snapshot() == Rebind(old(consumptions[j].Snapshot()), node, stored)
        invariant forall j :: i <= j < |consumptions| ==> consumptions[j].Snapshot() == old(consumptions[j].Snapshot())
      {
        var c := consumptions[i];
        if c.customer == Some(node) {
          c.customer := stored;
        } else if c.card == Some(node) {
          c.card := stored;
        } else if c.third == Some(node) {
          c.third := stored;
        }
      }
    }

    /**
     * `flush`: store each staged account in turn and rebind the consumptions
     * to it; false where the source throws (an account already stored, a
     * refused insert, a row id that is not positive).
     */
    method Flush(consumptions: seq<Consumption>, store: Store) returns (ok: bool)
      requires store.Valid() && Distinct(consumptions)
      modifies store, consumptions
      ensures store.Valid()
      ensures var f := FlushAll(old(store.State()), old(Snapshots(consumptions)), Staged());
              store.State() == f.db && Snapshots(consumptions) == f.entries && ok == f.ok
    {
      var staged := Staged();
      ghost var db0 := store.State();
      ghost var es0 := Snapshots(consumptions);
      for i := 0 to |staged|
        invariant store.Valid()
        invariant FlushAll(db0, es0, staged[..i]) == Flushed(store.State(), Snapshots(consumptions), true)
      {
        FlushAllSnoc(db0, es0, staged, i);
        ok := FlushOne(staged[i], consumptions, store);
        if !ok {
          FailedFlushStaysFailed(db0, es0, staged, i + 1);
          return false;
        }
      }
      assert staged[..|staged|] == staged;
      return true;
    }

    /** One pass of the loop in `flush`: store one staged account and rebind the consumptions to it. */
    method FlushOne(node: MoneyNode, consumptions: seq<Consumption>, store: Store) returns (ok: bool)
      requires store.Valid() && Distinct(consumptions)
      modifies store, consumptions
      ensures store.Valid()
      ensures FlushStep(Flushed(old(store.State()), old(Snapshots(consumptions)), true), node)
                == Flushed(store.State(), Snapshots(consumptions), ok)
    {
      if store.IsMoneyNodeExists(node) {
        return false;
      }
      var id := store.InsertMoneyNode(node);
      if id.None? || id.value <= 0 {
        return false;
      }
      UpdateConsumption(node, consumptions, id.value, store);
      return true;
    }

    /** `getPreviewInfo` over the consumptions as they are now. */
    method GetPreviewInfo(consumptions: seq<Consumption>, store: Store) returns (r: Result<Preview, ConsumeError>)
      ensures r == PreviewInfo(Snapshots(consumptions), Ledger(Staged(), store.nodes, store.bills, FirstOfType(store.nodes, Outside)))
    {
      var l := Ledger(Staged(), store.nodes, store.bills, FirstOfType(store.nodes, Outside));
      var deposited := DepositLoop(consumptions, l);
      if deposited.Err? {
        return Err(deposited.error);
      }
      r := UseLoop(consumptions, deposited.value, l);
    }
  }

  /** The first loop of `getPreviewInfo`: every Deposit, in order. */
  method DepositLoop(consumptions: seq<Consumption>, l: Ledger) returns (r: Result<Preview, ConsumeError>)
    ensures r == DepositPass(Snapshots(consumptions), l)
  {
    ghost var es := Snapshots(consumptions);
    var p: Preview := map[];
    for i := 0 to |consumptions|
      invariant DepositPass(es[..i], l) == Ok(p)
    {
      var e := consumptions[i].Snapshot();
      assert es[i] == e;
      DepositPassSnoc(es, i, l, p, e);
      if e.ctype == Deposit {
        var step := DepositStep(p, e, l);
        if step.Err? {
          DepositRefusalRefuses(es, i + 1, l);
          return Err(step.error);
        }
        p := step.value;
      }
    }
    assert es[..|es|] == es;
    return Ok(p);
  }

  /** The second loop of `getPreviewInfo`: every UseCard, in order, on top of the first. */
  method UseLoop(consumptions: seq<Consumption>, p0: Preview, l: Ledger) returns (r: Result<Preview, ConsumeError>)
    ensures r == UsePass(p0, Snapshots(consumptions), l)
  {
    ghost var es := Snapshots(consumptions);
    var p := p0;
    for i := 0 to |consumptions|
      invariant UsePass(p0, es[..i], l) == Ok(p)
    {
      var e := consumptions[i].Snapshot();
      assert es[i] == e;
      UsePassSnoc(p0, es, i, l, p, e);
      if e.ctype == UseCard {
        var step := UseStep(p, e, l);
        if step.Err? {
          UseRefusalRefuses(p0, es, i + 1, l);
          return Err(step.error);
        }
        p := step.value;
      }
    }
    assert es[..|es|] == es;
    return Ok(p);
  }

  lemma DepositPassSnoc(es: seq<Entry>, i: nat, l: Ledger, p: Preview, e: Entry)
    requires i < |es| && DepositPass(es[..i], l) == Ok(p) && es[i] == e
    ensures DepositPass(es[..i + 1], l) == if e.ctype == Deposit then DepositStep(p, e, l) else Ok(p)
  {
    assert es[..i + 1][..i] == es[..i];
  }

  lemma UsePassSnoc(p0: Preview, es: seq<Entry>, i: nat, l: Ledger, p: Preview, e: Entry)
    requires i < |es| && UsePass(p0, es[..i], l) == Ok(p) && es[i] == e
    ensures UsePass(p0, es[..i + 1], l) == if e.ctype == UseCard then UseStep(p, e, l) else Ok(p)
  {
    assert es[..i + 1][..i] == es[..i];
  }

  lemma FlushAllSnoc(db: Db, es: seq<Entry>, staged: seq<MoneyNode>, i: nat)
    requires i < |staged|
    ensures FlushAll(db, es, staged[..i + 1]) == FlushStep(FlushAll(db, es, staged[..i]), staged[i])
  {
    assert staged[..i + 1][..i] == staged[..i];
  }

  /** Once a flush has failed, staging more accounts changes nothing. */
  lemma {:induction false} FailedFlushStaysFailed(db: Db, es: seq<Entry>, staged: seq<MoneyNode>, k: nat)
    requires k <= |staged| && !FlushAll(db, es, staged[..k]).ok
    ensures FlushAll(db, es, staged) == FlushAll(db, es, staged[..k])
    decreases |staged| - k
  {
    if k < |staged| {
      assert staged[..k + 1][..k] == staged[..k];
      FailedFlushStaysFailed(db, es, staged, k + 1);
    } else {
      assert staged[..k] == staged;
    }
  }

  /** Once the first pass refuses a prefix, it refuses the whole list with the same error. */
  lemma {:induction false} DepositRefusalRefuses(es: seq<Entry>, k: nat, l: Ledger)
    requires k <= |es| && DepositPass(es[..k], l).Err?
    ensures DepositPass(es, l) == DepositPass(es[..k], l)
    ensures PreviewInfo(es, l) == DepositPass(es[..k], l)
    decreases |es| - k
  {
    if k < |es| {
      assert es[..k + 1][..k] == es[..k];
      DepositRefusalRefuses(es, k + 1, l);
    } else {
      assert es[..k] == es;
    }
  }

  /** Once the second pass refuses a prefix, it refuses the whole list with the same error. */
  lemma {:induction false} UseRefusalRefuses(p0: Preview, es: seq<Entry>, k: nat, l: Ledger)
    requires k <= |es| && UsePass(p0, es[..k], l).Err?
    ensures UsePass(p0, es, l) == UsePass(p0, es[..k], l)
    decreases |es| - k
  {
    if k < |es| {
      assert es[..k + 1][..k] == es[..k];
      UseRefusalRefuses(p0, es, k + 1, l);
    } else {
      assert es[..k] == es;
    }
  }

  /**
   * `submitConsumptions` inside `withTransaction`: on a refusal the database
   * is rolled back and the cache keeps its pairs; on success the database
   * holds the checkout and the cache is cleared. The consumptions stay
   * rebound to the accounts the flush stored either way.
   */
  method SubmitConsumptions(consumptions: seq<Consumption>, cache: ConsumeCache, store: Store, now: int)
    returns (r: Result<(), ConsumeError>)
    requires store.Valid() && Distinct(consumptions)
    modifies store, cache, consumptions
    ensures store.Valid()
    ensures var res := Submit(old(store.State()), old(Snapshots(consumptions)), old(cache.Staged()), now);
            && (res.Err? ==> r == Err(res.error) && store.State() == old(store.State()) && cache.pairs == old(cache.pairs))
            && (res.Ok? ==> r.Ok? && store.State() == res.value && cache.pairs == [])
    ensures Snapshots(consumptions) == FlushAll(old(store.State()), old(Snapshots(consumptions)), old(cache.Staged())).entries
  {
    var saved := store.State();
    r := FlushAndStore(consumptions, cache, store, now);
    if r.Err? {
      store.Restore(saved);
    } else {
      cache.Clear();
    }
  }

  /** The body of the transaction: the flush, then the bills; nothing is rolled back here. */
  method FlushAndStore(consumptions: seq<Consumption>, cache: ConsumeCache, store: Store, now: int)
    returns (r: Result<(), ConsumeError>)
    requires store.Valid() && Distinct(consumptions)
    modifies store, consumptions
    ensures store.Valid()
    ensures var res := Submit(old(store.State()), old(Snapshots(consumptions)), cache.Staged(), now);
            && (res.Err? ==> r == Err(res.error))
            && (res.Ok? ==> r.Ok? && store.State() == res.value)
    ensures Snapshots(consumptions) == FlushAll(old(store.State()), old(Snapshots(consumptions)), cache.Staged()).entries
  {
    var ok := cache.Flush(consumptions, store);
    if ok {
      r := StoreBillsIn(consumptions, store, now);
    } else {
      r := Err(NodeAddFailure);
    }
  }

  /**
   * The rest of `submitConsumptions` after the flush: find Public and Outside,
   * build the bills and insert them; a refusal leaves the tables as they were.
   */
  method StoreBillsIn(consumptions: seq<Consumption>, store: Store, now: int) returns (r: Result<(), ConsumeError>)
    requires store.Valid()
    modifies store
    ensures store.Valid()
    ensures var res := StoreBills(old(store.State()), Snapshots(consumptions), now);
            && (res.Err? ==> r == Err(res.error) && store.State() == old(store.State()))
            && (res.Ok? ==> r.Ok? && store.State() == res.value)
  {
    var pub := FirstOfType(store.nodes, Public);
    if pub.None? {
      return Err(NoPublic);
    }
    var outside := FirstOfType(store.nodes, Outside);
    if outside.None? {
      return Err(NoOutside);
    }
    var bills := CollectBills(consumptions, pub.value.id, outside.value.id, now);
    if bills.Err? {
      return Err(bills.error);
    }
    ghost var before := store.State();
    AllBillsSpec(Snapshots(consumptions), pub.value.id, outside.value.id, now);
    InsertFreshBills(before, bills.value);
    var inserted := store.InsertBills(bills.value);
    if !inserted {
      return Err(BillInsertFailure);
    }
    return Ok(());
  }
}
