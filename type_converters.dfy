/**
 * The database's string converters for the two enums: encode by `str`, decode
 * by the first variant whose `str` matches, falling back to None.
 */
module TypeConverters {
  import opened Wrappers
  import MoneyNodeTypes
  import BillTypes

  /** `entries.firstOrNull { str(it) == value }`. */
  function FirstWithStr<E>(entries: seq<E>, str: E -> string, value: string): (r: Option<E>)
    ensures r.Some? ==> r.value in entries && str(r.value) == value
    ensures r.Some? ==> exists i :: 0 <= i < |entries| && entries[i] == r.value
                          && forall j :: 0 <= j < i ==> str(entries[j]) != value
    ensures r.None? <==> forall i :: 0 <= i < |entries| ==> str(entries[i]) != value
  {
    if entries == [] then None
    else if str(entries[0]) == value then Some(entries[0])
    else
      var rest := FirstWithStr(entries[1..], str, value);
      if rest.Some? then
        ghost var i :| 0 <= i < |entries[1..]| && entries[1..][i] == rest.value
                       && forall j :: 0 <= j < i ==> str(entries[1..][j]) != value;
        assert entries[i + 1] == rest.value;
        assert forall j :: 0 <= j < i + 1 ==> str(entries[j]) != value by {
          forall j | 0 <= j < i + 1 ensures str(entries[j]) != value {
            if j > 0 { assert entries[j] == entries[1..][j - 1]; }
          }
        }
        rest
      else
        assert forall i :: 1 <= i < |entries| ==> entries[i] == entries[1..][i - 1];
        rest
  }

  function StringToMoneyNodeType(value: string): MoneyNodeTypes.MoneyNodeType
  {
    var found := FirstWithStr(MoneyNodeTypes.Entries, MoneyNodeTypes.Str, value);
    if found.Some? then found.value else MoneyNodeTypes.None
  }

  function MoneyNodeTypeToString(t: MoneyNodeTypes.MoneyNodeType): string
  {
    MoneyNodeTypes.Str(t)
  }

  function StringToBillType(value: string): BillTypes.BillType
  {
    var found := FirstWithStr(BillTypes.Entries, BillTypes.Str, value);
    if found.Some? then found.value else BillTypes.None
  }

  function BillTypeToString(b: BillTypes.BillType): string
  {
    BillTypes.Str(b)
  }

  /** Decoding what was encoded gives back the same account type. */
  lemma MoneyNodeTypeRoundTrip(t: MoneyNodeTypes.MoneyNodeType)
    ensures StringToMoneyNodeType(MoneyNodeTypeToString(t)) == t
  {
    var s := MoneyNodeTypeToString(t);
    MoneyNodeTypes.EntriesListsEveryVariantOnce(t);
    var found := FirstWithStr(MoneyNodeTypes.Entries, MoneyNodeTypes.Str, s);
    assert found.Some?;
    MoneyNodeTypes.StrInjective(found.value, t);
  }

  /** A string that is no variant's `str` decodes to None; the empty string does too. */
  lemma UnknownStringIsMoneyNodeNone(value: string)
    requires forall t: MoneyNodeTypes.MoneyNodeType :: MoneyNodeTypes.Str(t) != value
    ensures StringToMoneyNodeType(value) == MoneyNodeTypes.None
  {
  }

  /** Decoding succeeds with a non-None type exactly on the seven stored names. */
  lemma DecodedMoneyNodeTypeIsNamed(value: string)
    ensures StringToMoneyNodeType(value) != MoneyNodeTypes.None
            <==> value != "" && exists t: MoneyNodeTypes.MoneyNodeType :: MoneyNodeTypes.Str(t) == value
  {
    var found := FirstWithStr(MoneyNodeTypes.Entries, MoneyNodeTypes.Str, value);
    if value != "" && exists t: MoneyNodeTypes.MoneyNodeType :: MoneyNodeTypes.Str(t) == value {
      var t: MoneyNodeTypes.MoneyNodeType :| MoneyNodeTypes.Str(t) == value;
      MoneyNodeTypeRoundTrip(t);
    }
  }

  lemma BillTypeRoundTrip(b: BillTypes.BillType)
    ensures StringToBillType(BillTypeToString(b)) == b
  {
    var s := BillTypeToString(b);
    assert b in BillTypes.Entries;
    var found := FirstWithStr(BillTypes.Entries, BillTypes.Str, s);
    assert found.Some?;
    BillTypes.StrInjective(found.value, b);
  }

  lemma UnknownStringIsBillNone(value: string)
    requires forall b: BillTypes.BillType :: BillTypes.Str(b) != value
    ensures StringToBillType(value) == BillTypes.None
  {
  }
}
