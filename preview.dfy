/**
 * The checkout preview (`ConsumeCache.getPreviewInfo`): for every customer,
 * the cards the pending consumptions deposit to or pay with, and for each
 * card the deposits, the uses, the balance before the checkout and the
 * balance after it.
 */
module Previews {
  import opened Wrappers
  import opened Money
  import opened MoneyNodeTypes
  import opened MoneyNodes
  import opened Bills
  import opened LedgerQueries
  import opened Consumptions

  /** `BalanceTrace`: the amounts deposited and used, and the balance before and after. */
  datatype Trace = Trace(deposits: seq<Decimal>, uses: seq<Decimal>, origin: real, balance: real)

  /** The preview: per customer, the (card, trace) pairs in the order the cards were first met. */
  type Preview = map<MoneyNode, seq<(MoneyNode, Trace)>>

  /**
   * What the preview consults: the accounts staged in the cache (new, not
   * yet stored), and the stored accounts, bills and Outside account.
   */
  datatype Ledger = Ledger(staged: seq<MoneyNode>, nodes: seq<MoneyNode>, bills: seq<Bill>, outside: Option<MoneyNode>)

  /** `isNewNode`: the account is staged in the cache. */
  predicate IsNew(l: Ledger, n: MoneyNode)
  {
    n in l.staged
  }

  /** `find { it.first == card }`: the index of the first pair for the card. */
  function FindCard(traces: seq<(MoneyNode, Trace)>, card: MoneyNode): (r: Option<nat>)
    ensures r.Some? ==> r.value < |traces| && traces[r.value].0 == card
    ensures r.Some? ==> forall j :: 0 <= j < r.value ==> traces[j].0 != card
    ensures r.None? ==> forall j :: 0 <= j < |traces| ==> traces[j].0 != card
  {
    if traces == [] then Option.None
    else if traces[0].0 == card then Some(0)
    else
      match FindCard(traces[1..], card)
      case None => Option.None
      case Some(j) => Some(j + 1)
  }

  /** The trace recorded for the customer's card, if any. */
  function TraceOf(p: Preview, customer: MoneyNode, card: MoneyNode): Option<Trace>
  {
    if customer !in p then Option.None
    else
      match FindCard(p[customer], card)
      case None => Option.None
      case Some(i) => Some(p[customer][i].1)
  }

  /** Two pair lists with the same cards in the same places are searched alike. */
  lemma {:induction false} FindCardSameKeys(s: seq<(MoneyNode, Trace)>, t: seq<(MoneyNode, Trace)>, card: MoneyNode)
    requires |s| == |t| && forall j :: 0 <= j < |s| ==> s[j].0 == t[j].0
    ensures FindCard(s, card) == FindCard(t, card)
  {
    if s != [] && s[0].0 != card {
      FindCardSameKeys(s[1..], t[1..], card);
    }
  }

  /** Appending a pair only matters to a search for its card, and only when the card was absent. */
  lemma {:induction false} FindCardAppend(s: seq<(MoneyNode, Trace)>, x: (MoneyNode, Trace), card: MoneyNode)
    ensures FindCard(s + [x], card) ==
              if FindCard(s, card).Some? then FindCard(s, card)
              else if x.0 == card then Some(|s|) else Option.None
  {
    if s != [] && s[0].0 != card {
      assert (s + [x])[1..] == s[1..] + [x];
      FindCardAppend(s[1..], x, card);
    } else if s == [] {
      assert s + [x] == [x];
    }
  }

  /**
   * Record a trace for the customer's card: replace the card's pair when the
   * customer's list has one, append a new pair otherwise.
   */
  function Put(p: Preview, customer: MoneyNode, card: MoneyNode, tr: Trace): Preview
  {
    var traces := if customer in p then p[customer] else [];
    match FindCard(traces, card)
    case Some(i) => p[customer := traces[i := (card, tr)]]
    case None => p[customer := traces + [(card, tr)]]
  }

  /** After `Put` the customer's card has the new trace and every other trace is unchanged. */
  lemma PutTraceOf(p: Preview, customer: MoneyNode, card: MoneyNode, tr: Trace)
    ensures forall c, k :: TraceOf(Put(p, customer, card, tr), c, k) ==
                             if c == customer && k == card then Some(tr) else TraceOf(p, c, k)
  {
    var traces := if customer in p then p[customer] else [];
    var r := Put(p, customer, card, tr);
    forall k ensures FindCard(r[customer], k) ==
                       if k == card then FindCard(r[customer], card) else FindCard(traces, k)
    {
      match FindCard(traces, card)
      case Some(i) =>
        FindCardSameKeys(r[customer], traces, k);
      case None =>
        FindCardAppend(traces, (card, tr), k);
    }
    match FindCard(traces, card)
    case Some(i) =>
      FindCardSameKeys(r[customer], traces, card);
    case None =>
      FindCardAppend(traces, (card, tr), card);
  }

  lemma PutTraceAt(p: Preview, customer: MoneyNode, card: MoneyNode, tr: Trace, c: MoneyNode, k: MoneyNode)
    ensures TraceOf(Put(p, customer, card, tr), c, k) == if c == customer && k == card then Some(tr) else TraceOf(p, c, k)
  {
    PutTraceOf(p, customer, card, tr);
  }

  /** One more deposit on a trace. */
  function Deposited(tr: Trace, money: Decimal): Trace
  {
    tr.(deposits := tr.deposits + [money], balance := tr.balance + Value(money))
  }

  /** One more use of a trace. */
  function Used(tr: Trace, money: Decimal): Trace
  {
    tr.(uses := tr.uses + [money], balance := tr.balance - Value(money))
  }

  /** `queryCardOwner`, its refusals reported as a checkout error. */
  function OwnerOf(card: MoneyNode, l: Ledger): Result<MoneyNode, ConsumeError>
  {
    match CardOwner(card, l.nodes, l.bills)
    case Err(e) => Err(OwnerQuery(e))
    case Ok(o) => Ok(o)
  }

  /** `queryCardBalance`: the stored balance, which needs the owner and the Outside account. */
  function StoredBalance(card: MoneyNode, l: Ledger): Result<real, ConsumeError>
  {
    var owner :- OwnerOf(card, l);
    if l.outside.None? then Err(NoOutside)
    else Ok(CardBalance(l.bills, owner.id, card.id, l.outside.value.id))
  }

  /**
   * The checks both passes make on a consumption: customer and card present,
   * money present and not ZERO, not a new customer with an old card, and an
   * old card owned by the customer.
   */
  function CheckCardLine(e: Entry, l: Ledger): Result<(MoneyNode, MoneyNode, Decimal), ConsumeError>
  {
    var customer :- NonNullNode(e.customer);
    var card :- NonNullNode(e.card);
    var money :- CheckMoney(e.money);
    if IsNew(l, customer) && !IsNew(l, card) then Err(NewCustomerOldCard)
    else if IsNew(l, card) then Ok((customer, card, money))
    else
      var owner :- OwnerOf(card, l);
      if owner != customer then Err(OwnerMismatch) else Ok((customer, card, money))
  }

  /**
   * The card's trace after one more deposit: the recorded trace extended, or
   * a first trace starting from zero for a new card and from the stored
   * balance for an old one.
   */
  function DepositTrace(found: Option<Trace>, card: MoneyNode, money: Decimal, l: Ledger): Result<Trace, ConsumeError>
  {
    match found
    case Some(tr) => Ok(Deposited(tr, money))
    case None =>
      if IsNew(l, card) then Ok(Trace([money], [], 0.0, Value(money)))
      else
        var origin :- StoredBalance(card, l);
        Ok(Trace([money], [], origin, origin + Value(money)))
  }

  /**
   * The card's trace after one more use: the recorded trace extended, a
   * first trace from the stored balance for an old card, and a refusal for a
   * new card nobody deposited to.
   */
  function UseTrace(found: Option<Trace>, card: MoneyNode, money: Decimal, l: Ledger): Result<Trace, ConsumeError>
  {
    match found
    case Some(tr) => Ok(Used(tr, money))
    case None =>
      if IsNew(l, card) then Err(UseWithoutDeposit)
      else
        var origin :- StoredBalance(card, l);
        Ok(Trace([], [money], origin, origin - Value(money)))
  }

  /** The first pass, for one Deposit consumption. */
  function DepositStep(p: Preview, e: Entry, l: Ledger): Result<Preview, ConsumeError>
  {
    var (customer, card, money) :- CheckCardLine(e, l);
    var tr :- DepositTrace(TraceOf(p, customer, card), card, money, l);
    Ok(Put(p, customer, card, tr))
  }

  /** The second pass, for one UseCard consumption. */
  function UseStep(p: Preview, e: Entry, l: Ledger): Result<Preview, ConsumeError>
  {
    var (customer, card, money) :- CheckCardLine(e, l);
    var tr :- UseTrace(TraceOf(p, customer, card), card, money, l);
    Ok(Put(p, customer, card, tr))
  }

  /** The first pass over the consumptions: every Deposit, in order. */
  function DepositPass(es: seq<Entry>, l: Ledger): Result<Preview, ConsumeError>
  {
    if es == [] then Ok(map[])
    else
      var p :- DepositPass(es[..|es| - 1], l);
      var e := es[|es| - 1];
      if e.ctype == Deposit then DepositStep(p, e, l) else Ok(p)
  }

  /** The second pass over the consumptions: every UseCard, in order, on top of the first. */
  function UsePass(p0: Preview, es: seq<Entry>, l: Ledger): Result<Preview, ConsumeError>
  {
    if es == [] then Ok(p0)
    else
      var p :- UsePass(p0, es[..|es| - 1], l);
      var e := es[|es| - 1];
      if e.ctype == UseCard then UseStep(p, e, l) else Ok(p)
  }

  /** `getPreviewInfo`: all deposits first, then all uses. */
  function PreviewInfo(es: seq<Entry>, l: Ledger): Result<Preview, ConsumeError>
  {
    var p :- DepositPass(es, l);
    UsePass(p, es, l)
  }

  // The reference the preview is proved against.

  /** The amounts of the consumptions of kind `t` from the customer on the card, in order. */
  function Amounts(es: seq<Entry>, t: ConsumptionType, customer: MoneyNode, card: MoneyNode): seq<Decimal>
  {
    if es == [] then []
    else
      var e := es[|es| - 1];
      Amounts(es[..|es| - 1], t, customer, card)
        + (if e.ctype == t && e.customer == Some(customer) && e.card == Some(card) && e.money.Some?
           then [e.money.value] else [])
  }

  /** The balance a card starts from: zero for a new card, the stored balance otherwise. */
  function Origin(l: Ledger, customer: MoneyNode, card: MoneyNode): real
  {
    if IsNew(l, card) || l.outside.None? then 0.0
    else CardBalance(l.bills, customer.id, card.id, l.outside.value.id)
  }

  /** The trace for these deposits and uses from this origin; none when there are neither. */
  function Expected(ds: seq<Decimal>, us: seq<Decimal>, origin: real): Option<Trace>
  {
    if ds == [] && us == [] then Option.None
    else Some(Trace(ds, us, origin, origin + Sum(ds) - Sum(us)))
  }

  /** Every trace of `p` is the reference one for the deposits in `es` and the uses in `us`. */
  ghost predicate Matches(p: Preview, es: seq<Entry>, us: seq<Entry>, l: Ledger)
  {
    forall c, k :: MatchesAt(p, es, us, l, c, k)
  }

  /** The trace of customer `c` and card `k` is the reference one. */
  predicate MatchesAt(p: Preview, es: seq<Entry>, us: seq<Entry>, l: Ledger, c: MoneyNode, k: MoneyNode)
  {
    TraceOf(p, c, k) == Expected(Amounts(es, Deposit, c, k), Amounts(us, UseCard, c, k), Origin(l, c, k))
  }

  lemma SumOne(m: Decimal)
    ensures Sum([m]) == Value(m)
  {
    assert [m][..0] == [];
  }

  lemma SumSnoc(ds: seq<Decimal>, m: Decimal)
    ensures Sum(ds + [m]) == Sum(ds) + Value(m)
  {
    assert (ds + [m])[..|ds|] == ds;
  }

  /** A consumption the passes accept met every check of `CheckCardLine`. */
  ghost predicate Accepted(e: Entry, l: Ledger)
  {
    && e.customer.Some? && e.card.Some? && MoneyOk(e.money)
    && !(IsNew(l, e.customer.value) && !IsNew(l, e.card.value))
    && (!IsNew(l, e.card.value) ==> OwnerOf(e.card.value, l) == Ok(e.customer.value))
  }

  lemma CheckCardLineAccepts(e: Entry, l: Ledger)
    ensures CheckCardLine(e, l).Ok? <==> Accepted(e, l)
    ensures CheckCardLine(e, l).Ok? ==> CheckCardLine(e, l).value == (e.customer.value, e.card.value, e.money.value)
  {
  }

  lemma AmountsSnoc(es: seq<Entry>, e: Entry, t: ConsumptionType, c: MoneyNode, k: MoneyNode)
    ensures Amounts(es + [e], t, c, k) ==
              Amounts(es, t, c, k) + (if e.ctype == t && e.customer == Some(c) && e.card == Some(k) && e.money.Some?
                                      then [e.money.value] else [])
  {
    assert (es + [e])[..|es|] == es;
  }

  /**
   * Recording the reference trace for the one customer and card a Deposit
   * consumption names keeps the preview equal to the reference.
   */
  lemma PutDepositMatches(p: Preview, es: seq<Entry>, us: seq<Entry>, e: Entry, l: Ledger, tr: Trace)
    requires Matches(p, es, us, l)
    requires e.ctype == Deposit && e.customer.Some? && e.card.Some? && e.money.Some?
    requires Some(tr) == Expected(Amounts(es + [e], Deposit, e.customer.value, e.card.value),
                                  Amounts(us, UseCard, e.customer.value, e.card.value), Origin(l, e.customer.value, e.card.value))
    ensures Matches(Put(p, e.customer.value, e.card.value, tr), es + [e], us, l)
  {
    var r := Put(p, e.customer.value, e.card.value, tr);
    forall c, k ensures MatchesAt(r, es + [e], us, l, c, k) {
      PutTraceAt(p, e.customer.value, e.card.value, tr, c, k);
      AmountsSnoc(es, e, Deposit, c, k);
      if c == e.customer.value && k == e.card.value {
        assert TraceOf(r, c, k) == Some(tr);
      } else {
        assert Amounts(es + [e], Deposit, c, k) == Amounts(es, Deposit, c, k) + [] == Amounts(es, Deposit, c, k);
        assert MatchesAt(p, es, us, l, c, k);
        assert TraceOf(r, c, k) == TraceOf(p, c, k);
      }
    }
  }

  /**
   * From the reference trace for earlier deposits, one more deposit gives the
   * reference trace with that deposit appended.
   */
  lemma DepositTraceExpected(ds: seq<Decimal>, customer: MoneyNode, card: MoneyNode, money: Decimal, l: Ledger)
    requires !IsNew(l, card) ==> OwnerOf(card, l) == Ok(customer)
    requires DepositTrace(Expected(ds, [], Origin(l, customer, card)), card, money, l).Ok?
    ensures Some(DepositTrace(Expected(ds, [], Origin(l, customer, card)), card, money, l).value)
              == Expected(ds + [money], [], Origin(l, customer, card))
  {
    SumSnoc(ds, money);
    if ds == [] {
      assert ds + [money] == [money];
      SumOne(money);
    }
  }

  /** A Deposit step keeps the preview equal to the reference, counting the new consumption. */
  lemma DepositStepMatches(p: Preview, es: seq<Entry>, e: Entry, l: Ledger)
    requires Matches(p, es, [], l) && e.ctype == Deposit && DepositStep(p, e, l).Ok?
    ensures Matches(DepositStep(p, e, l).value, es + [e], [], l)
  {
    CheckCardLineAccepts(e, l);
    var (customer, card, money) := CheckCardLine(e, l).value;
    var ds := Amounts(es, Deposit, customer, card);
    assert MatchesAt(p, es, [], l, customer, card);
    DepositTraceExpected(ds, customer, card, money, l);
    AmountsSnoc(es, e, Deposit, customer, card);
    PutDepositMatches(p, es, [], e, l, DepositTrace(TraceOf(p, customer, card), card, money, l).value);
  }

  /** The first pass builds the reference traces for the deposits, with no uses yet. */
  lemma {:induction false} DepositPassMatches(es: seq<Entry>, l: Ledger)
    requires DepositPass(es, l).Ok?
    ensures Matches(DepositPass(es, l).value, es, [], l)
  {
    if es == [] {
      forall c, k ensures MatchesAt(map[], [], [], l, c, k) {
      }
    } else {
      var ps := es[..|es| - 1];
      var e := es[|es| - 1];
      assert ps + [e] == es;
      DepositPassMatches(ps, l);
      var p := DepositPass(ps, l).value;
      if e.ctype == Deposit {
        DepositStepMatches(p, ps, e, l);
      } else {
        SkipMatches(p, ps, e, l);
      }
    }
  }

  /** Consumptions other than deposits leave the first pass's traces as they are. */
  lemma SkipMatches(p: Preview, es: seq<Entry>, e: Entry, l: Ledger)
    requires Matches(p, es, [], l) && e.ctype != Deposit
    ensures Matches(p, es + [e], [], l)
  {
    forall c, k ensures MatchesAt(p, es + [e], [], l, c, k) {
      AmountsSnoc(es, e, Deposit, c, k);
      assert Amounts(es + [e], Deposit, c, k) == Amounts(es, Deposit, c, k) + [] == Amounts(es, Deposit, c, k);
      assert MatchesAt(p, es, [], l, c, k);
    }
  }

  /**
   * Recording the reference trace for the one customer and card a UseCard
   * consumption names keeps the preview equal to the reference.
   */
  lemma PutUseMatches(p: Preview, es: seq<Entry>, us: seq<Entry>, e: Entry, l: Ledger, tr: Trace)
    requires Matches(p, es, us, l)
    requires e.ctype == UseCard && e.customer.Some? && e.card.Some? && e.money.Some?
    requires Some(tr) == Expected(Amounts(es, Deposit, e.customer.value, e.card.value),
                                  Amounts(us + [e], UseCard, e.customer.value, e.card.value), Origin(l, e.customer.value, e.card.value))
    ensures Matches(Put(p, e.customer.value, e.card.value, tr), es, us + [e], l)
  {
    var r := Put(p, e.customer.value, e.card.value, tr);
    forall c, k ensures MatchesAt(r, es, us + [e], l, c, k) {
      PutTraceAt(p, e.customer.value, e.card.value, tr, c, k);
      AmountsSnoc(us, e, UseCard, c, k);
      if c == e.customer.value && k == e.card.value {
        assert TraceOf(r, c, k) == Some(tr);
      } else {
        assert Amounts(us + [e], UseCard, c, k) == Amounts(us, UseCard, c, k) + [] == Amounts(us, UseCard, c, k);
        assert MatchesAt(p, es, us, l, c, k);
        assert TraceOf(r, c, k) == TraceOf(p, c, k);
      }
    }
  }

  /**
   * From the reference trace, one more use gives the reference trace with
   * that use appended; a new card is only accepted when it already has a
   * trace.
   */
  lemma UseTraceExpected(ds: seq<Decimal>, us: seq<Decimal>, customer: MoneyNode, card: MoneyNode, money: Decimal, l: Ledger)
    requires !IsNew(l, card) ==> OwnerOf(card, l) == Ok(customer)
    requires UseTrace(Expected(ds, us, Origin(l, customer, card)), card, money, l).Ok?
    ensures Some(UseTrace(Expected(ds, us, Origin(l, customer, card)), card, money, l).value)
              == Expected(ds, us + [money], Origin(l, customer, card))
    ensures IsNew(l, card) ==> ds != [] || us != []
  {
    SumSnoc(us, money);
    if ds == [] && us == [] {
      assert us + [money] == [money];
      SumOne(money);
    }
  }

  /** New cards used in `us` were deposited to in `es`. */
  ghost predicate UsesDeposited(es: seq<Entry>, us: seq<Entry>, l: Ledger)
  {
    forall c, k :: IsNew(l, k) && Amounts(us, UseCard, c, k) != [] ==> Amounts(es, Deposit, c, k) != []
  }

  /** A UseCard step keeps the preview equal to the reference, counting the new consumption. */
  lemma UseStepMatches(p: Preview, es: seq<Entry>, us: seq<Entry>, e: Entry, l: Ledger)
    requires Matches(p, es, us, l) && UsesDeposited(es, us, l)
    requires e.ctype == UseCard && UseStep(p, e, l).Ok?
    ensures Matches(UseStep(p, e, l).value, es, us + [e], l)
    ensures UsesDeposited(es, us + [e], l)
  {
    CheckCardLineAccepts(e, l);
    var (customer, card, money) := CheckCardLine(e, l).value;
    var ds := Amounts(es, Deposit, customer, card);
    var prior := Amounts(us, UseCard, customer, card);
    assert MatchesAt(p, es, us, l, customer, card);
    UseTraceExpected(ds, prior, customer, card, money, l);
    AmountsSnoc(us, e, UseCard, customer, card);
    PutUseMatches(p, es, us, e, l, UseTrace(TraceOf(p, customer, card), card, money, l).value);
    forall c, k | IsNew(l, k) && Amounts(us + [e], UseCard, c, k) != [] ensures Amounts(es, Deposit, c, k) != [] {
      AmountsSnoc(us, e, UseCard, c, k);
      if c != e.customer.value || k != e.card.value {
        assert Amounts(us + [e], UseCard, c, k) == Amounts(us, UseCard, c, k) + [];
      }
    }
  }

  /** The second pass extends the reference traces with the uses, in order. */
  lemma {:induction false} UsePassMatches(p0: Preview, es: seq<Entry>, us: seq<Entry>, l: Ledger)
    requires Matches(p0, es, [], l) && UsePass(p0, us, l).Ok?
    ensures Matches(UsePass(p0, us, l).value, es, us, l)
    ensures UsesDeposited(es, us, l)
  {
    if us != [] {
      var ps := us[..|us| - 1];
      var e := us[|us| - 1];
      assert ps + [e] == us;
      UsePassMatches(p0, es, ps, l);
      var p := UsePass(p0, ps, l).value;
      if e.ctype == UseCard {
        UseStepMatches(p, es, ps, e, l);
      } else {
        forall c, k ensures Amounts(us, UseCard, c, k) == Amounts(ps, UseCard, c, k) {
          AmountsSnoc(ps, e, UseCard, c, k);
        }
        forall c, k ensures MatchesAt(p, es, us, l, c, k) {
          assert MatchesAt(p, es, ps, l, c, k);
        }
      }
    }
  }

  /**
   * An accepted preview holds, for every customer and card, exactly the
   * reference trace: the amounts of that customer's deposits to and uses of
   * that card, in consumption order, the stored balance of an old card (zero
   * for a new one) as its origin, and origin plus deposits minus uses as its
   * balance. A customer and card no consumption names have no trace.
   */
  lemma PreviewMatches(es: seq<Entry>, l: Ledger)
    requires PreviewInfo(es, l).Ok?
    ensures Matches(PreviewInfo(es, l).value, es, es, l)
    ensures UsesDeposited(es, es, l)
  {
    DepositPassMatches(es, l);
    UsePassMatches(DepositPass(es, l).value, es, es, l);
  }

  /** Whether the consumption is one of kind `t` from the customer on the card, with an amount. */
  predicate Counts(e: Entry, t: ConsumptionType, customer: MoneyNode, card: MoneyNode)
  {
    e.ctype == t && e.customer == Some(customer) && e.card == Some(card) && e.money.Some?
  }

  /** A customer and card have amounts of a kind exactly when some consumption of that kind names them. */
  lemma {:induction false} AmountsNonEmpty(es: seq<Entry>, t: ConsumptionType, customer: MoneyNode, card: MoneyNode)
    ensures Amounts(es, t, customer, card) != [] <==> exists j :: 0 <= j < |es| && Counts(es[j], t, customer, card)
  {
    if es != [] {
      var ps := es[..|es| - 1];
      AmountsNonEmpty(ps, t, customer, card);
      if exists j :: 0 <= j < |ps| && Counts(ps[j], t, customer, card) {
        var j :| 0 <= j < |ps| && Counts(ps[j], t, customer, card);
        assert es[j] == ps[j];
      }
      if exists j :: 0 <= j < |es| && Counts(es[j], t, customer, card) {
        var j :| 0 <= j < |es| && Counts(es[j], t, customer, card);
        if j < |ps| {
          assert ps[j] == es[j];
        }
      }
    }
  }

  /** Every Deposit the first pass accepts met the checks of `CheckCardLine`. */
  lemma {:induction false} DepositPassAccepts(es: seq<Entry>, l: Ledger)
    requires DepositPass(es, l).Ok?
    ensures forall i :: 0 <= i < |es| && es[i].ctype == Deposit ==> Accepted(es[i], l)
  {
    if es != [] {
      var ps := es[..|es| - 1];
      DepositPassAccepts(ps, l);
      CheckCardLineAccepts(es[|es| - 1], l);
      forall i | 0 <= i < |es| && es[i].ctype == Deposit ensures Accepted(es[i], l) {
        if i < |ps| {
          assert ps[i] == es[i];
        }
      }
    }
  }

  /** Every UseCard the second pass accepts met the checks of `CheckCardLine`. */
  lemma {:induction false} UsePassAccepts(p0: Preview, es: seq<Entry>, l: Ledger)
    requires UsePass(p0, es, l).Ok?
    ensures forall i :: 0 <= i < |es| && es[i].ctype == UseCard ==> Accepted(es[i], l)
  {
    if es != [] {
      var ps := es[..|es| - 1];
      UsePassAccepts(p0, ps, l);
      CheckCardLineAccepts(es[|es| - 1], l);
      forall i | 0 <= i < |es| && es[i].ctype == UseCard ensures Accepted(es[i], l) {
        if i < |ps| {
          assert ps[i] == es[i];
        }
      }
    }
  }

  /**
   * An accepted preview had, in every Deposit and UseCard consumption, a
   * customer, a card and a non-ZERO amount, no new customer with an old card,
   * and every old card owned by its customer; and every new card paid with
   * was deposited to by the same customer somewhere in the list.
   */
  lemma PreviewAccepts(es: seq<Entry>, l: Ledger)
    requires PreviewInfo(es, l).Ok?
    ensures forall i :: 0 <= i < |es| && (es[i].ctype == Deposit || es[i].ctype == UseCard) ==> Accepted(es[i], l)
    ensures forall i :: 0 <= i < |es| && es[i].ctype == UseCard && es[i].customer.Some? && es[i].card.Some?
                        && IsNew(l, es[i].card.value) ==>
              exists j :: 0 <= j < |es| && Counts(es[j], Deposit, es[i].customer.value, es[i].card.value)
  {
    DepositPassAccepts(es, l);
    UsePassAccepts(DepositPass(es, l).value, es, l);
    PreviewMatches(es, l);
    forall i | 0 <= i < |es| && es[i].ctype == UseCard && es[i].customer.Some? && es[i].card.Some? && IsNew(l, es[i].card.value)
      ensures exists j :: 0 <= j < |es| && Counts(es[j], Deposit, es[i].customer.value, es[i].card.value)
    {
      var c, k := es[i].customer.value, es[i].card.value;
      assert Counts(es[i], UseCard, c, k);
      AmountsNonEmpty(es, UseCard, c, k);
      AmountsNonEmpty(es, Deposit, c, k);
    }
  }

  /**
   * Deposits are all taken before any use, so a new card's use listed before
   * its deposit is accepted, and the trace holds both.
   */
  lemma UseListedBeforeDepositAccepted()
    ensures var c := MoneyNode(0, "c", Customer, Option.None, Option.None, Option.None);
            var k := MoneyNode(0, "k", Card, Option.None, Option.None, Option.None);
            var use := Entry(UseCard, Some(c), Some(k), Some(Decimal(5, 0)), Option.None, Option.None, Option.None, Option.None, Option.None);
            var dep := Entry(Deposit, Some(c), Some(k), Some(Decimal(10, 0)), Option.None, Option.None, Option.None, Option.None, Option.None);
            var l := Ledger([c, k], [], [], Option.None);
            && PreviewInfo([use, dep], l).Ok?
            && TraceOf(PreviewInfo([use, dep], l).value, c, k) == Some(Trace([Decimal(10, 0)], [Decimal(5, 0)], 0.0, 5.0))
  {
    var c := MoneyNode(0, "c", Customer, Option.None, Option.None, Option.None);
    var k := MoneyNode(0, "k", Card, Option.None, Option.None, Option.None);
    var use := Entry(UseCard, Some(c), Some(k), Some(Decimal(5, 0)), Option.None, Option.None, Option.None, Option.None, Option.None);
    var dep := Entry(Deposit, Some(c), Some(k), Some(Decimal(10, 0)), Option.None, Option.None, Option.None, Option.None, Option.None);
    var l := Ledger([c, k], [], [], Option.None);
    var es := [use, dep];
    assert es[..1] == [use];
    assert [use][..0] == [];
    assert Value(Decimal(10, 0)) == 10.0 && Value(Decimal(5, 0)) == 5.0;
    var p0: Preview := map[];
    assert DepositPass([use], l) == Ok(p0);
    assert TraceOf(p0, c, k).None?;
    var p1 := Put(p0, c, k, Trace([Decimal(10, 0)], [], 0.0, 10.0));
    assert DepositPass(es, l) == Ok(p1);
    PutTraceOf(p0, c, k, Trace([Decimal(10, 0)], [], 0.0, 10.0));
    var p2 := Put(p1, c, k, Trace([Decimal(10, 0)], [Decimal(5, 0)], 0.0, 5.0));
    assert CheckCardLine(use, l) == Ok((c, k, Decimal(5, 0)));
    assert TraceOf(p1, c, k) == Some(Trace([Decimal(10, 0)], [], 0.0, 10.0));
    var noUses: seq<Decimal> := [];
    assert noUses + [Decimal(5, 0)] == [Decimal(5, 0)];
    assert Used(Trace([Decimal(10, 0)], noUses, 0.0, 10.0), Decimal(5, 0)) == Trace([Decimal(10, 0)], [Decimal(5, 0)], 0.0, 5.0);
    assert UseStep(p1, use, l) == Ok(p2);
    assert UsePass(p1, [], l) == Ok(p1);
    assert UsePass(p1, [use], l) == Ok(p2);
    assert UsePass(p1, es, l) == Ok(p2);
    PutTraceOf(p1, c, k, Trace([Decimal(10, 0)], [Decimal(5, 0)], 0.0, 5.0));
  }
}
