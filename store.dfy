/**
 * The Room database as an in-memory store: the account, massage-service and
 * bill tables, each account and bill table with its AUTOINCREMENT counter.
 * An insert whose id is 0 gets the next counter value; a non-zero id is kept.
 * An account insert is refused when it clashes with the primary key or with
 * the unique indexes that allow one Public and one Outside account.
 */
module Stores {
  import opened Wrappers
  import opened MoneyNodeTypes
  import opened MoneyNodes
  import opened Bills
  import opened MassageServices
  import opened LedgerQueries

  /** The tables and counters as one value. */
  datatype Db = Db(nodes: seq<MoneyNode>, services: seq<MassageService>, bills: seq<Bill>, nextNodeId: int, nextBillId: int)

  /** At most one account of type `t`. */
  ghost predicate AtMostOne(nodes: seq<MoneyNode>, t: MoneyNodeType)
  {
    forall i, j :: 0 <= i < j < |nodes| && nodes[i].nodeType == t ==> nodes[j].nodeType != t
  }

  /** The constraints the tables keep: distinct non-zero ids below the counters, one Public, one Outside. */
  ghost predicate ValidDb(db: Db)
  {
    && (forall i, j :: 0 <= i < j < |db.nodes| ==> db.nodes[i].id != db.nodes[j].id)
    && (forall i :: 0 <= i < |db.nodes| ==> db.nodes[i].id != 0 && db.nodes[i].id < db.nextNodeId)
    && (forall i, j :: 0 <= i < j < |db.bills| ==> db.bills[i].id != db.bills[j].id)
    && (forall i :: 0 <= i < |db.bills| ==> db.bills[i].id != 0 && db.bills[i].id < db.nextBillId)
    && db.nextNodeId >= 1 && db.nextBillId >= 1
    && AtMostOne(db.nodes, Public) && AtMostOne(db.nodes, Outside)
  }

  /** Whether an account table already holds an account with this id. */
  predicate HasNodeId(nodes: seq<MoneyNode>, id: int)
  {
    exists m :: m in nodes && m.id == id
  }

  /** Whether an account table already holds an account of this type. */
  predicate HasNodeType(nodes: seq<MoneyNode>, t: MoneyNodeType)
  {
    exists m :: m in nodes && m.nodeType == t
  }

  /** Inserting `n` would break the primary key or one of the two unique indexes. */
  predicate NodeClash(nodes: seq<MoneyNode>, n: MoneyNode)
  {
    (n.id != 0 && HasNodeId(nodes, n.id))
    || (n.nodeType == Public && HasNodeType(nodes, Public))
    || (n.nodeType == Outside && HasNodeType(nodes, Outside))
  }

  /** The id an insert gives: the counter for id 0, the given id otherwise. */
  function AssignedId(id: int, next: int): int
  {
    if id == 0 then next else id
  }

  function Max(a: int, b: int): int { if a < b then b else a }

  /** One account insert: the row id and the new tables, or nothing when a constraint is violated. */
  function InsertNode(db: Db, n: MoneyNode): (r: Option<(int, Db)>)
    ensures r.None? <==> NodeClash(db.nodes, n)
    ensures r.Some? ==> var (id, db') := r.value;
              && id == AssignedId(n.id, db.nextNodeId)
              && db'.nodes == db.nodes + [n.(id := id)]
              && db'.nextNodeId == Max(db.nextNodeId, id + 1)
              && db'.services == db.services && db'.bills == db.bills && db'.nextBillId == db.nextBillId
  {
    if NodeClash(db.nodes, n) then Option.None
    else
      var id := AssignedId(n.id, db.nextNodeId);
      Some((id, db.(nodes := db.nodes + [n.(id := id)], nextNodeId := Max(db.nextNodeId, id + 1))))
  }

  /** An accepted account insert keeps every table constraint. */
  lemma InsertNodeKeepsValid(db: Db, n: MoneyNode)
    requires ValidDb(db) && InsertNode(db, n).Some?
    ensures ValidDb(InsertNode(db, n).value.1)
  {
    var (id, db') := InsertNode(db, n).value;
    var k := |db.nodes|;
    assert db'.nodes[k] == n.(id := id);
    assert forall i :: 0 <= i < k ==> db'.nodes[i] == db.nodes[i];
    assert id != 0 by {
      if n.id == 0 {
        assert id == db.nextNodeId;
      }
    }
    forall i | 0 <= i < k ensures db.nodes[i].id != id {
      assert db.nodes[i] in db.nodes;
      if n.id == 0 {
        assert id == db.nextNodeId;
      } else {
        assert !HasNodeId(db.nodes, n.id);
      }
    }
    forall i | 0 <= i < k && db'.nodes[i].nodeType == Public ensures n.nodeType != Public {
      assert db.nodes[i] in db.nodes;
    }
    forall i | 0 <= i < k && db'.nodes[i].nodeType == Outside ensures n.nodeType != Outside {
      assert db.nodes[i] in db.nodes;
    }
  }

  /** An account that asks for a generated id and is neither Public nor Outside is always accepted, with a fresh id. */
  lemma GeneratedIdIsFresh(db: Db, n: MoneyNode)
    requires ValidDb(db) && n.id == 0 && n.nodeType != Public && n.nodeType != Outside
    ensures InsertNode(db, n).Some?
    ensures InsertNode(db, n).value.0 == db.nextNodeId && !HasNodeId(db.nodes, db.nextNodeId)
  {
  }

  /** Whether a bill insert clashes with the primary key. */
  predicate BillClash(bills: seq<Bill>, b: Bill)
  {
    b.id != 0 && exists c :: c in bills && c.id == b.id
  }

  /** One bill insert: the new tables, or nothing on a primary-key clash. */
  function InsertBill(db: Db, b: Bill): (r: Option<Db>)
    ensures r.None? <==> BillClash(db.bills, b)
    ensures r.Some? ==> var id := AssignedId(b.id, db.nextBillId);
              && r.value.bills == db.bills + [b.(id := id)]
              && r.value.nextBillId == Max(db.nextBillId, id + 1)
              && r.value.nodes == db.nodes && r.value.services == db.services && r.value.nextNodeId == db.nextNodeId
  {
    if BillClash(db.bills, b) then Option.None
    else
      var id := AssignedId(b.id, db.nextBillId);
      Some(db.(bills := db.bills + [b.(id := id)], nextBillId := Max(db.nextBillId, id + 1)))
  }

  /** A batch of bill inserts, all or nothing (Room runs a vararg insert in one transaction). */
  function InsertBillBatch(db: Db, bs: seq<Bill>): Option<Db>
  {
    if bs == [] then Some(db)
    else
      var prev := InsertBillBatch(db, bs[..|bs| - 1]);
      if prev.None? then Option.None else InsertBill(prev.value, bs[|bs| - 1])
  }

  /** Bills that ask for generated ids are all stored, in order, under consecutive fresh ids. */
  lemma {:induction false} InsertFreshBills(db: Db, bs: seq<Bill>)
    requires ValidDb(db)
    requires forall i :: 0 <= i < |bs| ==> bs[i].id == 0
    ensures InsertBillBatch(db, bs).Some?
    ensures var db' := InsertBillBatch(db, bs).value;
            && ValidDb(db')
            && db'.nodes == db.nodes && db'.services == db.services && db'.nextNodeId == db.nextNodeId
            && db'.nextBillId == db.nextBillId + |bs|
            && db'.bills == db.bills + seq(|bs|, i requires 0 <= i < |bs| => bs[i].(id := db.nextBillId + i))
  {
    if bs != [] {
      var pbs := bs[..|bs| - 1];
      InsertFreshBills(db, pbs);
      var prev := InsertBillBatch(db, pbs).value;
      var b := bs[|bs| - 1];
      if BillClash(prev.bills, b) {
        assert false;
      }
      var db' := InsertBillBatch(db, bs).value;
      var k := |prev.bills|;
      assert db'.bills[k] == b.(id := prev.nextBillId);
      forall i | 0 <= i < k ensures db'.bills[i].id < prev.nextBillId {
        assert db'.bills[i] == prev.bills[i];
      }
      assert db'.bills == db.bills + seq(|bs|, i requires 0 <= i < |bs| => bs[i].(id := db.nextBillId + i));
    }
  }

  /** The account table as Room's store. */
  class Store {
    var nodes: seq<MoneyNode>
    var services: seq<MassageService>
    var bills: seq<Bill>
    var nextNodeId: int
    var nextBillId: int

    function State(): Db
      reads this
    {
      Db(nodes, services, bills, nextNodeId, nextBillId)
    }

    ghost predicate Valid()
      reads this
    {
      ValidDb(State())
    }

    /** A freshly created, empty database. */
    constructor ()
      ensures Valid()
      ensures nodes == [] && services == [] && bills == []
    {
      nodes, services, bills := [], [], [];
      nextNodeId, nextBillId := 1, 1;
    }

    /** `isMoneyNodeExists`: an account with the node's id is stored. */
    function IsMoneyNodeExists(node: MoneyNode): (r: bool)
      reads this
      ensures r <==> exists i :: 0 <= i < |nodes| && nodes[i].id == node.id
    {
      assert forall m :: m in nodes <==> exists i :: 0 <= i < |nodes| && nodes[i] == m;
      HasNodeId(nodes, node.id)
    }

    /** `getMoneyNode`: the account stored under this id, if any. */
    function GetMoneyNode(id: int): (r: Option<MoneyNode>)
      reads this
      ensures r.Some? ==> r.value in nodes && r.value.id == id
      ensures r.None? <==> forall n :: n in nodes ==> n.id != id
    {
      FirstById(nodes, id)
    }

    /** `insertMoneyNode` for one account: its row id, or nothing when a constraint refuses it. */
    method InsertMoneyNode(n: MoneyNode) returns (r: Option<int>)
      requires Valid()
      modifies this
      ensures Valid()
      ensures var res := InsertNode(old(State()), n);
              && (res.None? ==> r.None? && State() == old(State()))
              && (res.Some? ==> r == Some(res.value.0) && State() == res.value.1)
    {
      var res := InsertNode(State(), n);
      if res.None? {
        return Option.None;
      }
      InsertNodeKeepsValid(State(), n);
      var (id, db') := res.value;
      nodes, nextNodeId := db'.nodes, db'.nextNodeId;
      return Some(id);
    }

    /** `insertBill` for a batch: all bills stored, or none. */
    method InsertBills(bs: seq<Bill>) returns (ok: bool)
      modifies this
      ensures var res := InsertBillBatch(old(State()), bs);
              && (res.None? ==> !ok && State() == old(State()))
              && (res.Some? ==> ok && State() == res.value)
    {
      var saved := State();
      for i := 0 to |bs|
        invariant InsertBillBatch(saved, bs[..i]).Some?
        invariant State() == InsertBillBatch(saved, bs[..i]).value
      {
        assert bs[..i + 1][..i] == bs[..i];
        var b := bs[i];
        assert bs[..i + 1][i] == b;
        if BillClash(bills, b) {
          nodes, services, bills, nextNodeId, nextBillId := saved.nodes, saved.services, saved.bills, saved.nextNodeId, saved.nextBillId;
          assert InsertBillBatch(saved, bs[..i + 1]).None?;
          PrefixFailureIsFailure(saved, bs, i + 1);
          return false;
        }
        var id := AssignedId(b.id, nextBillId);
        bills, nextBillId := bills + [b.(id := id)], Max(nextBillId, id + 1);
      }
      assert bs[..|bs|] == bs;
      return true;
    }

    /** Put back the tables as they were when a transaction began. */
    method Restore(saved: Db)
      modifies this
      ensures State() == saved
    {
      nodes, services, bills, nextNodeId, nextBillId := saved.nodes, saved.services, saved.bills, saved.nextNodeId, saved.nextBillId;
    }
  }

  /** Once a prefix of the batch fails, the whole batch fails. */
  lemma {:induction false} PrefixFailureIsFailure(db: Db, bs: seq<Bill>, k: nat)
    requires k <= |bs| && InsertBillBatch(db, bs[..k]).None?
    ensures InsertBillBatch(db, bs).None?
    decreases |bs| - k
  {
    if k < |bs| {
      assert bs[..k + 1][..k] == bs[..k];
      PrefixFailureIsFailure(db, bs, k + 1);
    } else {
      assert bs[..k] == bs;
    }
  }
}
