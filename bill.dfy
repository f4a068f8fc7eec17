/** A transfer between two accounts and its checked builder. */
module Bills {
  import opened Wrappers
  import opened Money

  /** A stored or to-be-stored transfer; `id` is 0 until the store assigns one. */
  datatype Bill = Bill(
    id: int,
    date: int,
    fromId: int,
    toId: int,
    money: Decimal,
    valid: bool,
    tags: seq<string>,
    remark: string,
    service: int,
    servant: int)

  /** The mutable builder, captured as the value it holds when `buildBill` runs. */
  datatype BillBuilder = BillBuilder(
    date: int,
    fromId: int,
    toId: int,
    money: Decimal,
    valid: bool,
    tags: seq<string>,
    remark: string,
    service: int,
    servant: int)

  datatype BuildError = BillInvalid

  /**
   * A fresh builder. Its date is the clock reading `now` (System.currentTimeMillis
   * in the source, a parameter here); the ids are 0, the amount is BigDecimal.ZERO.
   */
  function DefaultBillBuilder(now: int): (b: BillBuilder)
    ensures b.date == now && b.valid && b.tags == [] && b.remark == ""
    ensures b.fromId == 0 && b.toId == 0 && IsZeroLiteral(b.money)
    ensures b.service == 0 && b.servant == 0
  {
    BillBuilder(now, 0, 0, Zero, true, [], "", 0, 0)
  }

  /** The builder whose fields a bill carries (the inverse of building). */
  function BuilderOf(bill: Bill): BillBuilder
  {
    BillBuilder(bill.date, bill.fromId, bill.toId, bill.money, bill.valid, bill.tags, bill.remark, bill.service, bill.servant)
  }

  /**
   * `buildBill`: refuses a zero source id, a zero destination id, or an amount
   * equal to BigDecimal.ZERO (scale-sensitive, as Kotlin's `==` is).
   */
  function BuildBill(b: BillBuilder): (r: Result<Bill, BuildError>)
    ensures r.Err? <==> b.fromId == 0 || b.toId == 0 || b.money == Zero
    ensures r.Ok? ==> r.value.id == 0 && BuilderOf(r.value) == b
  {
    if b.fromId == 0 || b.toId == 0 || b.money == Zero then Err(BillInvalid)
    else Ok(Bill(0, b.date, b.fromId, b.toId, b.money, b.valid, b.tags, b.remark, b.service, b.servant))
  }

  /** A builder left at its defaults is refused, whatever the clock says. */
  lemma DefaultBillBuilderFails(now: int)
    ensures BuildBill(DefaultBillBuilder(now)).Err?
  {
  }

  /** Nothing relates the two ends: a transfer from an account to itself is accepted. */
  lemma SelfTransferAccepted(b: BillBuilder)
    requires b.fromId == b.toId && b.fromId != 0 && b.money != Zero
    ensures BuildBill(b).Ok? && BuildBill(b).value.fromId == BuildBill(b).value.toId
  {
  }

  /** An amount of value zero written with a scale (0.00) passes the check. */
  lemma ScaledZeroAccepted(b: BillBuilder)
    requires b.fromId != 0 && b.toId != 0 && b.money == Decimal(0, 2)
    ensures BuildBill(b).Ok? && Value(BuildBill(b).value.money) == 0.0
  {
    ValueZeroIff(b.money);
  }
}
