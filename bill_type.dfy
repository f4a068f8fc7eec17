/** The closed set of bill categories and their stored strings. */
module BillTypes {

  datatype BillType = None | Purchase | Deposit | DepositCard | UseCard | ThirdPartyDisplay | ThirdPartyReal

  /** Every variant, in declaration order. */
  const Entries: seq<BillType> := [None, Purchase, Deposit, DepositCard, UseCard, ThirdPartyDisplay, ThirdPartyReal]

  function Str(b: BillType): string
  {
    match b
    case None => ""
    case Purchase => "purchase"
    case Deposit => "deposit"
    case DepositCard => "deposit_card"
    case UseCard => "use_card"
    case ThirdPartyDisplay => "third_party_display"
    case ThirdPartyReal => "third_party_real"
  }

  lemma StrInjective(a: BillType, b: BillType)
    ensures Str(a) == Str(b) ==> a == b
    ensures Str(a) == "" <==> a == None
  {
  }
}
