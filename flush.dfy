/**
 * `flush` as a value: every staged account is stored in staging order, and
 * after each insert every consumption that referred to the staged account is
 * pointed at the stored one (`updateConsumption`).
 */
module Flushing {
  import opened Wrappers
  import opened MoneyNodeTypes
  import opened MoneyNodes
  import opened Stores
  import opened LedgerQueries
  import opened Consumptions

  /**
   * `updateConsumption` on one consumption: the first of customer, card and
   * third (in that order) that equals the staged account is replaced by what
   * the store returns for the new id.
   */
  function Rebind(e: Entry, node: MoneyNode, stored: Option<MoneyNode>): Entry
  {
    if e.customer == Some(node) then e.(customer := stored)
    else if e.card == Some(node) then e.(card := stored)
    else if e.third == Some(node) then e.(third := stored)
    else e
  }

  function RebindAll(es: seq<Entry>, node: MoneyNode, stored: Option<MoneyNode>): (r: seq<Entry>)
    ensures |r| == |es|
  {
    seq(|es|, i requires 0 <= i < |es| => Rebind(es[i], node, stored))
  }

  /** The store, the consumptions, and whether every insert so far succeeded. */
  datatype Flushed = Flushed(db: Db, entries: seq<Entry>, ok: bool)

  /**
   * One staged account: refused when an account with its id is stored, when
   * the insert is refused, or when the row id is not positive; otherwise
   * stored and the consumptions rebound.
   */
  function FlushStep(f: Flushed, node: MoneyNode): Flushed
  {
    if !f.ok then f
    else if HasNodeId(f.db.nodes, node.id) then f.(ok := false)
    else
      match InsertNode(f.db, node)
      case None => f.(ok := false)
      case Some((id, db')) =>
        if id <= 0 then Flushed(db', f.entries, false)
        else Flushed(db', RebindAll(f.entries, node, FirstById(db'.nodes, id)), true)
  }

  function FlushAll(db: Db, es: seq<Entry>, staged: seq<MoneyNode>): Flushed
  {
    if staged == [] then Flushed(db, es, true)
    else FlushStep(FlushAll(db, es, staged[..|staged| - 1]), staged[|staged| - 1])
  }

  /** In a table with distinct ids, looking a stored account up by its id finds it. */
  lemma LookupStored(nodes: seq<MoneyNode>, k: int)
    requires forall i, j :: 0 <= i < j < |nodes| ==> nodes[i].id != nodes[j].id
    requires 0 <= k < |nodes|
    ensures FirstById(nodes, nodes[k].id) == Some(nodes[k])
  {
    var r := FirstById(nodes, nodes[k].id);
    var i :| 0 <= i < |nodes| && nodes[i] == r.value;
  }

  /** `s` is the staged account `n` as stored: the same account under a positive id. */
  predicate StoredAs(s: MoneyNode, n: MoneyNode)
  {
    s.id > 0 && s == n.(id := s.id)
  }

  /** `after` is `before` followed by the staged accounts as stored, in order. */
  predicate AppendsStaged(before: seq<MoneyNode>, after: seq<MoneyNode>, staged: seq<MoneyNode>)
    decreases |staged|
  {
    if staged == [] then after == before
    else
      && |after| > 0
      && StoredAs(after[|after| - 1], staged[|staged| - 1])
      && AppendsStaged(before, after[..|after| - 1], staged[..|staged| - 1])
  }

  /** The same, row by row: one stored row per staged account, after the old rows. */
  lemma {:induction false} AppendsStagedRows(before: seq<MoneyNode>, after: seq<MoneyNode>, staged: seq<MoneyNode>)
    requires AppendsStaged(before, after, staged)
    ensures |after| == |before| + |staged| && after[..|before|] == before
    ensures forall k :: 0 <= k < |staged| ==> StoredAs(after[|before| + k], staged[k])
    decreases |staged|
  {
    if staged != [] {
      var shorter := after[..|after| - 1];
      var ps := staged[..|staged| - 1];
      AppendsStagedRows(before, shorter, ps);
      forall k | 0 <= k < |staged| ensures StoredAs(after[|before| + k], staged[k]) {
        if k < |ps| {
          assert ps[k] == staged[k];
          assert shorter[|before| + k] == after[|before| + k];
        }
      }
    }
  }

  /** None of the staged accounts has the id of a stored one. */
  predicate NoneStored(nodes: seq<MoneyNode>, staged: seq<MoneyNode>)
  {
    forall k :: 0 <= k < |staged| ==> !HasNodeId(nodes, staged[k].id)
  }

  /**
   * One step of the flush leaves the bills, the services, the bill counter
   * and the number and kinds of the consumptions alone.
   */
  lemma FlushStepFrame(f: Flushed, n: MoneyNode)
    ensures var g := FlushStep(f, n);
            && g.db.bills == f.db.bills && g.db.services == f.db.services && g.db.nextBillId == f.db.nextBillId
            && |g.entries| == |f.entries|
            && forall i :: 0 <= i < |f.entries| ==> g.entries[i].ctype == f.entries[i].ctype
  {
  }

  /** One step of the flush only appends to the account table. */
  lemma FlushStepPrefix(f: Flushed, n: MoneyNode)
    ensures var g := FlushStep(f, n);
            |g.db.nodes| >= |f.db.nodes| && g.db.nodes[..|f.db.nodes|] == f.db.nodes
  {
    if f.ok && !HasNodeId(f.db.nodes, n.id) && InsertNode(f.db, n).Some? {
      assert InsertNode(f.db, n).value.1.nodes[..|f.db.nodes|] == f.db.nodes;
    }
  }

  /** A successful step followed successful steps, and its account was not stored. */
  lemma FlushStepOk(f: Flushed, n: MoneyNode)
    ensures FlushStep(f, n).ok ==> f.ok && !HasNodeId(f.db.nodes, n.id)
  {
  }

  /**
   * A successful step stored the staged account as the one new row, under a
   * positive id, and rebound the consumptions to what the store returns for
   * that id.
   */
  lemma FlushStepAppends(f: Flushed, n: MoneyNode)
    ensures var g := FlushStep(f, n);
            g.ok ==> && |g.db.nodes| == |f.db.nodes| + 1
                     && g.db.nodes[..|f.db.nodes|] == f.db.nodes
                     && StoredAs(g.db.nodes[|f.db.nodes|], n)
                     && g.entries == RebindAll(f.entries, n, FirstById(g.db.nodes, g.db.nodes[|f.db.nodes|].id))
  {
    if f.ok && !HasNodeId(f.db.nodes, n.id) && InsertNode(f.db, n).Some? {
      var (id, db') := InsertNode(f.db, n).value;
      assert db'.nodes[..|f.db.nodes|] == f.db.nodes;
      assert db'.nodes[|f.db.nodes|] == n.(id := id);
    }
  }

  /** One step of the flush keeps the table constraints. */
  lemma FlushStepValid(f: Flushed, n: MoneyNode)
    requires ValidDb(f.db)
    ensures ValidDb(FlushStep(f, n).db)
  {
    if f.ok && !HasNodeId(f.db.nodes, n.id) && InsertNode(f.db, n).Some? {
      InsertNodeKeepsValid(f.db, n);
    }
  }

  /** After a successful step on a valid store, the lookup finds the account just stored. */
  lemma FlushStepFindsStored(f: Flushed, n: MoneyNode)
    requires ValidDb(f.db)
    ensures var g := FlushStep(f, n);
            g.ok ==> && |g.db.nodes| > |f.db.nodes|
                     && StoredAs(g.db.nodes[|f.db.nodes|], n)
                     && g.entries == RebindAll(f.entries, n, Some(g.db.nodes[|f.db.nodes|]))
  {
    FlushStepAppends(f, n);
    FlushStepValid(f, n);
    var g := FlushStep(f, n);
    if g.ok {
      LookupStored(g.db.nodes, |f.db.nodes|);
    }
  }

  /** Flushing keeps the table constraints. */
  lemma {:induction false} FlushAllValid(db: Db, es: seq<Entry>, staged: seq<MoneyNode>)
    requires ValidDb(db)
    ensures ValidDb(FlushAll(db, es, staged).db)
  {
    if staged != [] {
      FlushAllValid(db, es, staged[..|staged| - 1]);
      FlushStepValid(FlushAll(db, es, staged[..|staged| - 1]), staged[|staged| - 1]);
    }
  }

  /**
   * Flushing leaves the bills, the services, the bill counter and the number
   * and kinds of the consumptions alone.
   */
  lemma {:induction false} FlushAllFrame(db: Db, es: seq<Entry>, staged: seq<MoneyNode>)
    ensures var f := FlushAll(db, es, staged);
            && f.db.bills == db.bills && f.db.services == db.services && f.db.nextBillId == db.nextBillId
            && |f.entries| == |es|
            && forall i :: 0 <= i < |es| ==> f.entries[i].ctype == es[i].ctype
  {
    if staged != [] {
      var ps := staged[..|staged| - 1];
      FlushAllFrame(db, es, ps);
      FlushStepFrame(FlushAll(db, es, ps), staged[|staged| - 1]);
    }
  }

  /** Flushing only ever appends to the account table. */
  lemma {:induction false} FlushAllPrefix(db: Db, es: seq<Entry>, staged: seq<MoneyNode>)
    ensures var f := FlushAll(db, es, staged);
            |f.db.nodes| >= |db.nodes| && f.db.nodes[..|db.nodes|] == db.nodes
  {
    if staged != [] {
      var ps := staged[..|staged| - 1];
      FlushAllPrefix(db, es, ps);
      var prev := FlushAll(db, es, ps);
      FlushStepPrefix(prev, staged[|staged| - 1]);
      var f := FlushAll(db, es, staged);
      assert f.db.nodes[..|db.nodes|] == f.db.nodes[..|prev.db.nodes|][..|db.nodes|];
    }
  }

  /** A successful flush found none of the staged accounts already stored. */
  lemma {:induction false} FlushAllRefusesStored(db: Db, es: seq<Entry>, staged: seq<MoneyNode>)
    ensures FlushAll(db, es, staged).ok ==> NoneStored(db.nodes, staged)
  {
    if staged != [] {
      var ps := staged[..|staged| - 1];
      var n := staged[|staged| - 1];
      var prev := FlushAll(db, es, ps);
      FlushStepOk(prev, n);
      if FlushAll(db, es, staged).ok {
        FlushAllRefusesStored(db, es, ps);
        FlushAllPrefix(db, es, ps);
        PrefixLacksId(db.nodes, prev.db.nodes, n.id);
        NoneStoredSnoc(db.nodes, staged);
      }
    }
  }

  lemma NoneStoredSnoc(nodes: seq<MoneyNode>, staged: seq<MoneyNode>)
    requires staged != []
    requires NoneStored(nodes, staged[..|staged| - 1]) && !HasNodeId(nodes, staged[|staged| - 1].id)
    ensures NoneStored(nodes, staged)
  {
    var ps := staged[..|staged| - 1];
    forall k | 0 <= k < |staged| ensures !HasNodeId(nodes, staged[k].id) {
      if k < |ps| {
        assert ps[k] == staged[k];
      }
    }
  }

  /** An id missing from a table is missing from every prefix of it. */
  lemma PrefixLacksId(nodes: seq<MoneyNode>, longer: seq<MoneyNode>, id: int)
    requires |nodes| <= |longer| && longer[..|nodes|] == nodes
    requires !HasNodeId(longer, id)
    ensures !HasNodeId(nodes, id)
  {
    forall m | m in nodes ensures m.id != id {
      var i :| 0 <= i < |nodes| && nodes[i] == m;
      assert longer[i] == m;
    }
  }

  /**
   * A successful flush grew the account table by exactly the staged
   * accounts, in order, each under a positive id.
   */
  lemma {:induction false} FlushAllStoresStaged(db: Db, es: seq<Entry>, staged: seq<MoneyNode>)
    ensures FlushAll(db, es, staged).ok ==> AppendsStaged(db.nodes, FlushAll(db, es, staged).db.nodes, staged)
  {
    if staged != [] {
      var ps := staged[..|staged| - 1];
      var n := staged[|staged| - 1];
      var prev := FlushAll(db, es, ps);
      var f := FlushStep(prev, n);
      assert f == FlushAll(db, es, staged);
      if f.ok {
        FlushAllStoresStaged(db, es, ps);
        FlushStepAppends(prev, n);
        assert f.db.nodes[..|f.db.nodes| - 1] == prev.db.nodes;
      }
    }
  }

  /** A consumption whose customer, card and third hold accounts of types Customer, Card and Third. */
  predicate WellTyped(e: Entry)
  {
    && (e.customer.Some? ==> e.customer.value.nodeType == Customer)
    && (e.card.Some? ==> e.card.value.nodeType == Card)
    && (e.third.Some? ==> e.third.value.nodeType == Third)
  }

  /** No field of the consumption refers to `n`. */
  predicate Untouched(e: Entry, n: MoneyNode)
  {
    e.customer != Some(n) && e.card != Some(n) && e.third != Some(n)
  }

  /**
   * Every consumption is well typed and none refers to a staged account that
   * was waiting for its id.
   */
  predicate Rebound(es: seq<Entry>, staged: seq<MoneyNode>)
  {
    && (forall i :: 0 <= i < |es| ==> WellTyped(es[i]))
    && (forall i, k :: 0 <= i < |es| && 0 <= k < |staged| && staged[k].id == 0 ==> Untouched(es[i], staged[k]))
  }

  /**
   * After a successful flush of well-typed consumptions, none of them refers to
   * a staged account that was waiting for its id: each such reference now
   * names the stored account.
   */
  lemma {:induction false} FlushReplacesStagedReferences(db: Db, es: seq<Entry>, staged: seq<MoneyNode>)
    requires ValidDb(db)
    requires forall i :: 0 <= i < |es| ==> WellTyped(es[i])
    ensures FlushAll(db, es, staged).ok ==> Rebound(FlushAll(db, es, staged).entries, staged)
  {
    if staged != [] {
      var ps := staged[..|staged| - 1];
      var n := staged[|staged| - 1];
      var prev := FlushAll(db, es, ps);
      var f := FlushStep(prev, n);
      assert f == FlushAll(db, es, staged);
      if f.ok {
        FlushReplacesStagedReferences(db, es, ps);
        FlushAllValid(db, es, ps);
        FlushStepFindsStored(prev, n);
        assert ps + [n] == staged;
        RebindAllStep(prev.entries, ps, n, f.db.nodes[|prev.db.nodes|]);
      }
    }
  }

  /** Rebinding one more stored account keeps `Rebound`, now counting that account. */
  lemma RebindAllStep(es: seq<Entry>, ps: seq<MoneyNode>, n: MoneyNode, stored: MoneyNode)
    requires Rebound(es, ps) && StoredAs(stored, n)
    ensures Rebound(RebindAll(es, n, Some(stored)), ps + [n])
  {
    var staged := ps + [n];
    var r := RebindAll(es, n, Some(stored));
    forall i | 0 <= i < |r|
      ensures WellTyped(r[i])
      ensures forall k :: 0 <= k < |staged| && staged[k].id == 0 ==> Untouched(r[i], staged[k])
    {
      RebindStep(es[i], n, stored);
      forall k | 0 <= k < |staged| && staged[k].id == 0 ensures Untouched(r[i], staged[k]) {
        if k < |ps| {
          assert ps[k] == staged[k];
        }
      }
    }
  }

  /**
   * Rebinding a well-typed consumption to an account stored under a positive
   * id keeps it well typed, removes every reference to the staged account,
   * and introduces no reference to an account that still waits for its id.
   */
  lemma RebindStep(e: Entry, n: MoneyNode, stored: MoneyNode)
    requires WellTyped(e)
    requires StoredAs(stored, n)
    ensures WellTyped(Rebind(e, n, Some(stored)))
    ensures n.id == 0 ==> Untouched(Rebind(e, n, Some(stored)), n)
    ensures forall m: MoneyNode :: m.id == 0 && Untouched(e, m) ==> Untouched(Rebind(e, n, Some(stored)), m)
  {
  }

  /**
   * The same new account staged twice (two consumptions each created it) is
   * stored twice, as two accounts with different ids.
   */
  lemma StagedTwiceStoredTwice(db: Db, es: seq<Entry>, n: MoneyNode)
    requires ValidDb(db) && n.id == 0 && n.nodeType != Public && n.nodeType != Outside
    ensures var f := FlushAll(db, es, [n, n]);
            && f.ok
            && |f.db.nodes| == |db.nodes| + 2
            && f.db.nodes[|db.nodes|] == n.(id := db.nextNodeId)
            && f.db.nodes[|db.nodes| + 1] == n.(id := db.nextNodeId + 1)
  {
    assert [n, n][..1] == [n];
    assert [n][..0] == [];
    var f0 := FlushAll(db, es, []);
    GeneratedIdIsFresh(db, n);
    var f1 := FlushAll(db, es, [n]);
    assert f1 == FlushStep(f0, n);
    assert f1.db == InsertNode(db, n).value.1;
    InsertNodeKeepsValid(db, n);
    GeneratedIdIsFresh(f1.db, n);
  }
}
