/** The closed set of account kinds, their stored strings and their display labels. */
module MoneyNodeTypes {

  datatype MoneyNodeType = None | Public | Outside | Third | Employer | Employee | Customer | Card

  /** Every variant, in declaration order (the order `entries` walks). */
  const Entries: seq<MoneyNodeType> := [None, Public, Outside, Third, Employer, Employee, Customer, Card]

  const NodeTypeEmployer: string := "股东"
  const NodeTypeEmployee: string := "员工"
  const NodeTypeCustomer: string := "顾客"
  const NodeTypeThird: string := "三方平台"
  const NodeTypeCard: string := "卡"

  /** The `str` carried by each variant; this is what the database stores. */
  function Str(t: MoneyNodeType): string
  {
    match t
    case None => ""
    case Public => "public"
    case Outside => "outside"
    case Third => "third"
    case Employer => "employer"
    case Employee => "employee"
    case Customer => "customer"
    case Card => "card"
  }

  /** The label shown to the user; only five kinds have one. */
  function DisplayStr(t: MoneyNodeType): (r: string)
    ensures t in {None, Public, Outside} <==> r == ""
  {
    match t
    case Employer => NodeTypeEmployer
    case Employee => NodeTypeEmployee
    case Customer => NodeTypeCustomer
    case Card => NodeTypeCard
    case Third => NodeTypeThird
    case _ => ""
  }

  lemma EntriesListsEveryVariantOnce(t: MoneyNodeType)
    ensures t in Entries
    ensures forall i, j :: 0 <= i < j < |Entries| ==> Entries[i] != Entries[j]
  {
  }

  /** No two variants share a stored string, and only None stores the empty string. */
  lemma StrInjective(a: MoneyNodeType, b: MoneyNodeType)
    ensures Str(a) == Str(b) ==> a == b
    ensures Str(a) == "" <==> a == None
  {
  }

  /** Distinct kinds that have a label have distinct labels. */
  lemma DisplayStrInjectiveOnLabelled(a: MoneyNodeType, b: MoneyNodeType)
    requires DisplayStr(a) != "" && DisplayStr(b) != ""
    ensures DisplayStr(a) == DisplayStr(b) ==> a == b
  {
  }
}
