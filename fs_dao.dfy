/** The health rule of the account table and the first-run initialisation. */
module FsDao {
  import opened Wrappers
  import opened MoneyNodeTypes
  import opened MoneyNodes
  import opened Stores

  /** How many accounts have type `t` (`filter { it.type == t }.size`). */
  function CountOfType(nodes: seq<MoneyNode>, t: MoneyNodeType): nat
  {
    if nodes == [] then 0
    else CountOfType(nodes[..|nodes| - 1], t) + (if nodes[|nodes| - 1].nodeType == t then 1 else 0)
  }

  /** `ensureOneExists`. */
  predicate EnsureOneExists(nodes: seq<MoneyNode>, t: MoneyNodeType)
  {
    CountOfType(nodes, t) == 1
  }

  /** Exactly one position holds an account of type `t`. */
  ghost predicate UniqueOfType(nodes: seq<MoneyNode>, t: MoneyNodeType)
  {
    exists i :: 0 <= i < |nodes| && nodes[i].nodeType == t && forall j :: 0 <= j < |nodes| && j != i ==> nodes[j].nodeType != t
  }

  lemma {:induction false} CountZeroIffNone(nodes: seq<MoneyNode>, t: MoneyNodeType)
    ensures CountOfType(nodes, t) == 0 <==> forall j :: 0 <= j < |nodes| ==> nodes[j].nodeType != t
  {
    if nodes != [] {
      var p := nodes[..|nodes| - 1];
      CountZeroIffNone(p, t);
      assert forall j :: 0 <= j < |p| ==> p[j] == nodes[j];
    }
  }

  lemma {:induction false} CountAppend(a: seq<MoneyNode>, b: seq<MoneyNode>, t: MoneyNodeType)
    ensures CountOfType(a + b, t) == CountOfType(a, t) + CountOfType(b, t)
  {
    if b == [] {
      assert a + b == a;
    } else {
      assert (a + b)[..|a + b| - 1] == a + b[..|b| - 1];
      CountAppend(a, b[..|b| - 1], t);
    }
  }

  /** `ensureOneExists(t)` holds exactly when one account, and no other, has type `t`. */
  lemma EnsureOneExistsIffUnique(nodes: seq<MoneyNode>, t: MoneyNodeType)
    ensures EnsureOneExists(nodes, t) <==> UniqueOfType(nodes, t)
  {
    if UniqueOfType(nodes, t) {
      var i :| 0 <= i < |nodes| && nodes[i].nodeType == t && forall j :: 0 <= j < |nodes| && j != i ==> nodes[j].nodeType != t;
      UniqueCountsOne(nodes, i, t);
    }
    if EnsureOneExists(nodes, t) {
      OneIsUnique(nodes, t);
    }
  }

  lemma UniqueCountsOne(nodes: seq<MoneyNode>, i: int, t: MoneyNodeType)
    requires 0 <= i < |nodes| && nodes[i].nodeType == t
    requires forall j :: 0 <= j < |nodes| && j != i ==> nodes[j].nodeType != t
    ensures CountOfType(nodes, t) == 1
  {
    SplitAt(nodes, i, t);
    var pre, post := nodes[..i], nodes[i + 1..];
    assert forall j :: 0 <= j < |pre| ==> pre[j] == nodes[j];
    assert forall j :: 0 <= j < |post| ==> post[j] == nodes[i + 1 + j];
    CountZeroIffNone(pre, t);
    CountZeroIffNone(post, t);
  }

  lemma OneIsUnique(nodes: seq<MoneyNode>, t: MoneyNodeType)
    requires CountOfType(nodes, t) == 1
    ensures UniqueOfType(nodes, t)
  {
    CountZeroIffNone(nodes, t);
    var i :| 0 <= i < |nodes| && nodes[i].nodeType == t;
    SplitAt(nodes, i, t);
    var pre, post := nodes[..i], nodes[i + 1..];
    CountZeroIffNone(pre, t);
    CountZeroIffNone(post, t);
    forall j | 0 <= j < |nodes| && j != i ensures nodes[j].nodeType != t {
      if j < i {
        assert pre[j] == nodes[j];
      } else {
        assert post[j - i - 1] == nodes[j];
      }
    }
  }

  lemma {:induction false} SplitAt(nodes: seq<MoneyNode>, i: int, t: MoneyNodeType)
    requires 0 <= i < |nodes| && nodes[i].nodeType == t
    ensures CountOfType(nodes, t) == CountOfType(nodes[..i], t) + 1 + CountOfType(nodes[i + 1..], t)
  {
    assert nodes == nodes[..i] + [nodes[i]] + nodes[i + 1..];
    CountAppend(nodes[..i] + [nodes[i]], nodes[i + 1..], t);
    CountAppend(nodes[..i], [nodes[i]], t);
    assert [nodes[i]][..0] == [];
  }

  /** `checkDBHealthy`: exactly one Public account and exactly one Outside account. */
  predicate CheckDBHealthy(nodes: seq<MoneyNode>)
  {
    EnsureOneExists(nodes, Public) && EnsureOneExists(nodes, Outside)
  }

  lemma HealthyMeansOnePublicOneOutside(nodes: seq<MoneyNode>)
    ensures CheckDBHealthy(nodes) <==> UniqueOfType(nodes, Public) && UniqueOfType(nodes, Outside)
  {
    EnsureOneExistsIffUnique(nodes, Public);
    EnsureOneExistsIffUnique(nodes, Outside);
  }

  datatype InitError = Unhealthy

  /** The two accounts a first run creates. */
  const PublicBuilder: MoneyNodeBuilder := DefaultBuilder.(name := "public", nodeType := Public)
  const OutsideBuilder: MoneyNodeBuilder := DefaultBuilder.(name := "outside", nodeType := Outside)

  /** On an empty account table both first-run inserts are accepted and leave a healthy table. */
  lemma FirstRunInserts(db: Db)
    requires db.nodes == []
    ensures var p := BuildMoneyNode(PublicBuilder).value;
            var o := BuildMoneyNode(OutsideBuilder).value;
            && InsertNode(db, p).Some?
            && InsertNode(InsertNode(db, p).value.1, o).Some?
            && var db' := InsertNode(InsertNode(db, p).value.1, o).value.1;
               && db'.nodes == [ MoneyNode(db.nextNodeId, "public", Public, Option.None, Option.None, Option.None),
                                 MoneyNode(db.nextNodeId + 1, "outside", Outside, Option.None, Option.None, Option.None) ]
               && CheckDBHealthy(db'.nodes)
  {
    var p := BuildMoneyNode(PublicBuilder).value;
    var o := BuildMoneyNode(OutsideBuilder).value;
    assert !NodeClash(db.nodes, p);
    var db1 := InsertNode(db, p).value.1;
    assert db1.nodes == [MoneyNode(db.nextNodeId, "public", Public, Option.None, Option.None, Option.None)];
    assert db1.nextNodeId == db.nextNodeId + 1;
    assert !NodeClash(db1.nodes, o) by {
      assert forall m :: m in db1.nodes ==> m.nodeType == Public;
    }
    var db2 := InsertNode(db1, o).value.1;
    var nodes := db2.nodes;
    assert nodes[0].nodeType == Public && nodes[1].nodeType == Outside && |nodes| == 2;
    assert UniqueOfType(nodes, Public);
    assert UniqueOfType(nodes, Outside);
    HealthyMeansOnePublicOneOutside(nodes);
  }

  /**
   * `initDBIfNeeded`: on an empty database insert the Public account "public"
   * and the Outside account "outside"; otherwise refuse an unhealthy database
   * and leave a healthy one as it is.
   */
  method InitDBIfNeeded(store: Store) returns (r: Result<(), InitError>)
    requires store.Valid()
    modifies store
    ensures store.Valid()
    ensures r.Ok? ==> CheckDBHealthy(store.nodes)
    ensures old(store.nodes == [] && store.services == [] && store.bills == []) ==>
              && r.Ok?
              && store.nodes == [ MoneyNode(old(store.nextNodeId), "public", Public, Option.None, Option.None, Option.None),
                                  MoneyNode(old(store.nextNodeId) + 1, "outside", Outside, Option.None, Option.None, Option.None) ]
              && store.services == old(store.services) && store.bills == old(store.bills)
    ensures !old(store.nodes == [] && store.services == [] && store.bills == []) ==>
              && (r.Ok? <==> CheckDBHealthy(old(store.nodes)))
              && store.State() == old(store.State())
  {
    if store.nodes == [] && store.services == [] && store.bills == [] {
      var publicNode := BuildMoneyNode(PublicBuilder);
      var outsideNode := BuildMoneyNode(OutsideBuilder);
      FirstRunInserts(store.State());
      var p := store.InsertMoneyNode(publicNode.value);
      var o := store.InsertMoneyNode(outsideNode.value);
      return Ok(());
    } else if !CheckDBHealthy(store.nodes) {
      return Err(Unhealthy);
    }
    return Ok(());
  }
}
