/**
 * One line of a checkout: its kind, the chosen accounts, service and amounts,
 * the checks that turn nullable fields into values, and the bills each kind
 * of consumption becomes.
 */
module Consumptions {
  import opened Wrappers
  import opened Money
  import opened MoneyNodes
  import opened Bills
  import opened MassageServices
  import opened LedgerQueries

  datatype ConsumptionType = None | Purchase | Deposit | UseCard | ThirdParty

  const Types: seq<ConsumptionType> := [ConsumptionType.None, Purchase, Deposit, UseCard, ThirdParty]

  /** The label each kind is shown and stored under. */
  function Str(t: ConsumptionType): string
  {
    match t
    case None => ""
    case Purchase => "直接购买"
    case Deposit => "储值"
    case UseCard => "消卡"
    case ThirdParty => "三方平台"
  }

  /** `typeOf`: the kind whose label the string is; anything else is None. */
  function TypeOf(s: string): (r: ConsumptionType)
    ensures r != ConsumptionType.None ==> Str(r) == s
  {
    if s == Str(Purchase) then Purchase
    else if s == Str(Deposit) then Deposit
    else if s == Str(UseCard) then UseCard
    else if s == Str(ThirdParty) then ThirdParty
    else ConsumptionType.None
  }

  /** Reading a label back gives the kind (None's label "" falls through to None). */
  lemma TypeOfStr(t: ConsumptionType)
    ensures TypeOf(Str(t)) == t
  {
  }

  /** A string that is no kind's label reads as None. */
  lemma TypeOfUnknown(s: string)
    requires forall t :: t in Types ==> Str(t) != s
    ensures TypeOf(s) == ConsumptionType.None
  {
    assert Str(Purchase) != s && Str(Deposit) != s && Str(UseCard) != s && Str(ThirdParty) != s by {
      assert Purchase in Types && Deposit in Types && UseCard in Types && ThirdParty in Types;
    }
  }

  /** The fields of a consumption at one moment. */
  datatype Entry = Entry(
    ctype: ConsumptionType,
    customer: Option<MoneyNode>,
    card: Option<MoneyNode>,
    money: Option<Decimal>,
    moneyThird: Option<Decimal>,
    service: Option<MassageService>,
    servant: Option<MoneyNode>,
    third: Option<MoneyNode>,
    remark: Option<string>)

  /**
   * A consumption being edited on the checkout screen. It is compared by
   * identity; the screen's editing flags are not part of the model.
   */
  class Consumption {
    var ctype: ConsumptionType
    var customer: Option<MoneyNode>
    var card: Option<MoneyNode>
    var money: Option<Decimal>
    var moneyThird: Option<Decimal>
    var service: Option<MassageService>
    var servant: Option<MoneyNode>
    var third: Option<MoneyNode>
    var remark: Option<string>

    /** A new line: kind None, every field null. */
    constructor ()
      ensures Snapshot() == Entry(ConsumptionType.None, Option.None, Option.None, Option.None, Option.None,
                                  Option.None, Option.None, Option.None, Option.None)
    {
      ctype := ConsumptionType.None;
      customer, card, servant, third := Option.None, Option.None, Option.None, Option.None;
      money, moneyThird := Option.None, Option.None;
      service, remark := Option.None, Option.None;
    }

    function Snapshot(): Entry
      reads this
    {
      Entry(ctype, customer, card, money, moneyThird, service, servant, third, remark)
    }
  }

  /** The snapshots of a list of consumptions. */
  function Snapshots(cs: seq<Consumption>): (r: seq<Entry>)
    reads cs
    ensures |r| == |cs|
  {
    seq(|cs|, i reads cs requires 0 <= i < |cs| => cs[i].Snapshot())
  }

  /** Why a checkout is refused. */
  datatype ConsumeError =
    | MoneyNullOrZero
    | NullService
    | NullNode
    | InvalidService
    | InvalidNode
    | BillRejected
    | NewCustomerOldCard
    | OwnerMismatch
    | OwnerQuery(e: QueryError)
    | UseWithoutDeposit
    | NodeAddFailure
    | NoPublic
    | NoOutside
    | BillInsertFailure

  /** `BigDecimal?.checkAndGet`: refuse null and BigDecimal.ZERO (scale-sensitive equality). */
  function CheckMoney(m: Option<Decimal>): (r: Result<Decimal, ConsumeError>)
    ensures r.Err? <==> m.None? || m.value == Zero
    ensures r.Err? ==> r.error == MoneyNullOrZero
    ensures r.Ok? ==> m == Some(r.value)
  {
    if m.None? || m.value == Zero then Err(MoneyNullOrZero) else Ok(m.value)
  }

  /** `MassageService?.checkAndGet`: refuse null and an unsaved service (id 0). */
  function CheckService(s: Option<MassageService>): (r: Result<MassageService, ConsumeError>)
    ensures r.Err? <==> s.None? || s.value.id == 0
    ensures r.Err? ==> r.error == InvalidService
    ensures r.Ok? ==> s == Some(r.value)
  {
    if s.None? || s.value.id == 0 then Err(InvalidService) else Ok(s.value)
  }

  /** `MoneyNode?.checkAndGet`: refuse null and an unsaved account (id 0). */
  function CheckNode(n: Option<MoneyNode>): (r: Result<MoneyNode, ConsumeError>)
    ensures r.Err? <==> n.None? || n.value.id == 0
    ensures r.Err? ==> r.error == InvalidNode
    ensures r.Ok? ==> n == Some(r.value)
  {
    if n.None? || n.value.id == 0 then Err(InvalidNode) else Ok(n.value)
  }

  /** `MassageService?.nonNullGet`: refuse only null. */
  function NonNullService(s: Option<MassageService>): (r: Result<MassageService, ConsumeError>)
    ensures r.Err? <==> s.None?
    ensures r.Err? ==> r.error == NullService
    ensures r.Ok? ==> s == Some(r.value)
  {
    if s.None? then Err(NullService) else Ok(s.value)
  }

  /** `MoneyNode?.nonNullGet`: refuse only null. */
  function NonNullNode(n: Option<MoneyNode>): (r: Result<MoneyNode, ConsumeError>)
    ensures r.Err? <==> n.None?
    ensures r.Err? ==> r.error == NullNode
    ensures r.Ok? ==> n == Some(r.value)
  {
    if n.None? then Err(NullNode) else Ok(n.value)
  }

  /** `remark ?: ""`. */
  function RemarkOf(e: Entry): string
  {
    if e.remark.None? then "" else e.remark.value
  }

  /** A bill built from the default builder with the given ends, amount, remark, service and servant. */
  function MakeBill(now: int, fromId: int, toId: int, money: Decimal, remark: string, service: int, servant: int): (r: Result<Bill, ConsumeError>)
    ensures r.Ok? <==> fromId != 0 && toId != 0 && money != Zero
    ensures r.Ok? ==> r.value == Bill(0, now, fromId, toId, money, true, [], remark, service, servant)
    ensures r.Err? ==> r.error == BillRejected
  {
    var built := BuildBill(DefaultBillBuilder(now).(fromId := fromId, toId := toId, money := money, remark := remark,
                                                    service := service, servant := servant));
    if built.Err? then Err(BillRejected) else Ok(built.value)
  }

  /**
   * The bills one consumption becomes, the checks run in the source's order.
   * `publicId` and `outsideId` are the ids of the Public and Outside accounts.
   */
  function BillsFor(e: Entry, publicId: int, outsideId: int, now: int): Result<seq<Bill>, ConsumeError>
  {
    match e.ctype
    case Purchase =>
      var customer :- CheckNode(e.customer);
      var money :- CheckMoney(e.money);
      var service :- CheckService(e.service);
      var servant :- CheckNode(e.servant);
      var bill :- MakeBill(now, customer.id, publicId, money, RemarkOf(e), service.id, servant.id);
      Ok([bill])
    case Deposit =>
      var customer :- CheckNode(e.customer);
      var card :- CheckNode(e.card);
      var money :- CheckMoney(e.money);
      var bill1 :- MakeBill(now, customer.id, publicId, money, RemarkOf(e), 0, 0);
      var bill2 :- MakeBill(now, customer.id, card.id, money, RemarkOf(e), 0, 0);
      Ok([bill1, bill2])
    case UseCard =>
      var service :- CheckService(e.service);
      var servant :- CheckNode(e.servant);
      var card :- CheckNode(e.card);
      var money :- CheckMoney(e.money);
      var bill :- MakeBill(now, card.id, outsideId, money, RemarkOf(e), service.id, servant.id);
      Ok([bill])
    case ThirdParty =>
      var customer :- CheckNode(e.customer);
      var service :- CheckService(e.service);
      var servant :- CheckNode(e.servant);
      var third :- CheckNode(e.third);
      var moneyThird :- CheckMoney(e.moneyThird);
      var money :- CheckMoney(e.money);
      var bill1 :- MakeBill(now, customer.id, third.id, moneyThird, RemarkOf(e), service.id, servant.id);
      var bill2 :- MakeBill(now, third.id, publicId, money, RemarkOf(e), service.id, servant.id);
      Ok([bill1, bill2])
    case None => Ok([])
  }

  /** The account, service and amount checks a consumption must pass, by kind. */
  predicate NodeOk(n: Option<MoneyNode>) { n.Some? && n.value.id != 0 }
  predicate ServiceOk(s: Option<MassageService>) { s.Some? && s.value.id != 0 }
  predicate MoneyOk(m: Option<Decimal>) { m.Some? && m.value != Zero }

  /**
   * A Purchase is accepted exactly when customer, amount, service and servant
   * pass their checks (and the Public account has an id); it becomes one bill
   * customer → Public carrying the amount, remark, service and servant.
   */
  lemma PurchaseIsOneBill(e: Entry, publicId: int, outsideId: int, now: int)
    requires e.ctype == Purchase
    ensures BillsFor(e, publicId, outsideId, now).Ok? <==>
              NodeOk(e.customer) && MoneyOk(e.money) && ServiceOk(e.service) && NodeOk(e.servant) && publicId != 0
    ensures BillsFor(e, publicId, outsideId, now).Ok? ==>
              BillsFor(e, publicId, outsideId, now).value ==
                [Bill(0, now, e.customer.value.id, publicId, e.money.value, true, [], RemarkOf(e), e.service.value.id, e.servant.value.id)]
  {
  }

  /**
   * A Deposit becomes two bills of the same amount: customer → Public, then
   * customer → card, neither carrying a service or servant.
   */
  lemma DepositIsTwoBills(e: Entry, publicId: int, outsideId: int, now: int)
    requires e.ctype == Deposit
    ensures BillsFor(e, publicId, outsideId, now).Ok? <==>
              NodeOk(e.customer) && NodeOk(e.card) && MoneyOk(e.money) && publicId != 0
    ensures BillsFor(e, publicId, outsideId, now).Ok? ==>
              var c, k, m := e.customer.value, e.card.value, e.money.value;
              BillsFor(e, publicId, outsideId, now).value ==
                [Bill(0, now, c.id, publicId, m, true, [], RemarkOf(e), 0, 0),
                 Bill(0, now, c.id, k.id, m, true, [], RemarkOf(e), 0, 0)]
  {
  }

  /** A UseCard becomes one bill card → Outside carrying service and servant; the customer is not checked. */
  lemma UseCardIsOneBill(e: Entry, publicId: int, outsideId: int, now: int)
    requires e.ctype == UseCard
    ensures BillsFor(e, publicId, outsideId, now).Ok? <==>
              ServiceOk(e.service) && NodeOk(e.servant) && NodeOk(e.card) && MoneyOk(e.money) && outsideId != 0
    ensures BillsFor(e, publicId, outsideId, now).Ok? ==>
              BillsFor(e, publicId, outsideId, now).value ==
                [Bill(0, now, e.card.value.id, outsideId, e.money.value, true, [], RemarkOf(e), e.service.value.id, e.servant.value.id)]
  {
  }

  /**
   * A ThirdParty consumption becomes customer → third for the third-party
   * amount, then third → Public for the amount, both carrying service and servant.
   */
  lemma ThirdPartyIsTwoBills(e: Entry, publicId: int, outsideId: int, now: int)
    requires e.ctype == ThirdParty
    ensures BillsFor(e, publicId, outsideId, now).Ok? <==>
              NodeOk(e.customer) && ServiceOk(e.service) && NodeOk(e.servant) && NodeOk(e.third)
              && MoneyOk(e.moneyThird) && MoneyOk(e.money) && publicId != 0
    ensures BillsFor(e, publicId, outsideId, now).Ok? ==>
              var c, t, s, v := e.customer.value, e.third.value, e.service.value.id, e.servant.value.id;
              BillsFor(e, publicId, outsideId, now).value ==
                [Bill(0, now, c.id, t.id, e.moneyThird.value, true, [], RemarkOf(e), s, v),
                 Bill(0, now, t.id, publicId, e.money.value, true, [], RemarkOf(e), s, v)]
  {
  }

  /** A consumption of kind None produces no bills and cannot fail. */
  lemma NoneIsNoBills(e: Entry, publicId: int, outsideId: int, now: int)
    requires e.ctype == ConsumptionType.None
    ensures BillsFor(e, publicId, outsideId, now) == Ok([])
  {
  }

  /** How many bills each kind becomes. */
  function BillCount(t: ConsumptionType): nat
  {
    match t
    case None => 0
    case Purchase => 1
    case Deposit => 2
    case UseCard => 1
    case ThirdParty => 2
  }

  /** An accepted consumption becomes `BillCount` unsaved bills, none with a zero end or a zero amount. */
  lemma BillsForShape(e: Entry, publicId: int, outsideId: int, now: int)
    requires BillsFor(e, publicId, outsideId, now).Ok?
    ensures var bs := BillsFor(e, publicId, outsideId, now).value;
            && |bs| == BillCount(e.ctype)
            && forall i :: 0 <= i < |bs| ==>
                 (bs[i].id == 0 && bs[i].fromId != 0 && bs[i].toId != 0 && bs[i].money != Zero && bs[i].date == now && bs[i].valid)
  {
    match e.ctype
    case Purchase =>
    case Deposit =>
    case UseCard =>
    case ThirdParty =>
    case None =>
  }

  /** The bills of a whole checkout, in order; the first refused consumption refuses it. */
  function AllBills(es: seq<Entry>, publicId: int, outsideId: int, now: int): Result<seq<Bill>, ConsumeError>
  {
    if es == [] then Ok([])
    else
      var prev :- AllBills(es[..|es| - 1], publicId, outsideId, now);
      var cur :- BillsFor(es[|es| - 1], publicId, outsideId, now);
      Ok(prev + cur)
  }

  function TotalBillCount(es: seq<Entry>): nat
  {
    if es == [] then 0 else TotalBillCount(es[..|es| - 1]) + BillCount(es[|es| - 1].ctype)
  }

  /** The refusals building bills can give: a missing or unsaved value, or a rejected bill. */
  predicate BillCheckError(err: ConsumeError)
  {
    err == MoneyNullOrZero || err == InvalidService || err == InvalidNode || err == BillRejected
  }

  /** A consumption's bills are refused only by one of its own checks. */
  lemma BillsForErrors(e: Entry, publicId: int, outsideId: int, now: int)
    ensures BillsFor(e, publicId, outsideId, now).Err? ==> BillCheckError(BillsFor(e, publicId, outsideId, now).error)
  {
  }

  /** Building a checkout's bills is refused only by a consumption's own checks. */
  lemma {:induction false} AllBillsErrors(es: seq<Entry>, publicId: int, outsideId: int, now: int)
    ensures AllBills(es, publicId, outsideId, now).Err? ==> BillCheckError(AllBills(es, publicId, outsideId, now).error)
  {
    if es != [] {
      AllBillsErrors(es[..|es| - 1], publicId, outsideId, now);
      BillsForErrors(es[|es| - 1], publicId, outsideId, now);
    }
  }

  /**
   * A checkout is accepted exactly when every consumption is; it then holds
   * the consumptions' bills in order, their number the sum of the per-kind counts.
   */
  lemma {:induction false} AllBillsSpec(es: seq<Entry>, publicId: int, outsideId: int, now: int)
    ensures AllBills(es, publicId, outsideId, now).Ok? <==>
              forall i :: 0 <= i < |es| ==> BillsFor(es[i], publicId, outsideId, now).Ok?
    ensures AllBills(es, publicId, outsideId, now).Ok? ==>
              var bs := AllBills(es, publicId, outsideId, now).value;
              && |bs| == TotalBillCount(es)
              && forall i :: 0 <= i < |bs| ==> bs[i].id == 0
  {
    if es != [] {
      var p := es[..|es| - 1];
      AllBillsSpec(p, publicId, outsideId, now);
      assert forall i :: 0 <= i < |p| ==> p[i] == es[i];
      if BillsFor(es[|es| - 1], publicId, outsideId, now).Ok? {
        BillsForShape(es[|es| - 1], publicId, outsideId, now);
      }
    }
  }

  /** The loop of `submitConsumptions` that collects the bills. */
  method CollectBills(consumptions: seq<Consumption>, publicId: int, outsideId: int, now: int)
    returns (r: Result<seq<Bill>, ConsumeError>)
    ensures r == AllBills(Snapshots(consumptions), publicId, outsideId, now)
  {
    var es := Snapshots(consumptions);
    var bills := [];
    for i := 0 to |consumptions|
      invariant AllBills(es[..i], publicId, outsideId, now) == Ok(bills)
    {
      assert es[..i + 1][..i] == es[..i];
      var cur := BillsFor(consumptions[i].Snapshot(), publicId, outsideId, now);
      assert es[..i + 1][i] == consumptions[i].Snapshot();
      if cur.Err? {
        PrefixRefusalRefuses(es, i + 1, publicId, outsideId, now);
        return Err(cur.error);
      }
      bills := bills + cur.value;
    }
    assert es[..|es|] == es;
    return Ok(bills);
  }

  /** Once a prefix of the checkout is refused, the checkout is refused with the same error. */
  lemma {:induction false} PrefixRefusalRefuses(es: seq<Entry>, k: nat, publicId: int, outsideId: int, now: int)
    requires k <= |es| && AllBills(es[..k], publicId, outsideId, now).Err?
    ensures AllBills(es, publicId, outsideId, now) == AllBills(es[..k], publicId, outsideId, now)
    decreases |es| - k
  {
    if k < |es| {
      assert es[..k + 1][..k] == es[..k];
      PrefixRefusalRefuses(es, k + 1, publicId, outsideId, now);
    } else {
      assert es[..k] == es;
    }
  }
}
