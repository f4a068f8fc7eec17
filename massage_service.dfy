/**
 * A massage service. Its equality ignores the price, so that a price edit does
 * not change which service a record is; the search dedups with that equality.
 */
module MassageServices {
  import opened Wrappers
  import opened Money
  import opened Ranking

  datatype MassageService = MassageService(id: int, name: string, desc: Option<string>, price: Decimal, createTime: int)

  /** `MassageService.equals`: id, name, desc and createTime agree; the price is not compared. */
  predicate ServiceEquals(a: MassageService, b: MassageService)
  {
    a.id == b.id && a.name == b.name && a.desc == b.desc && a.createTime == b.createTime
  }

  /** The fields equality looks at. */
  function Identity(s: MassageService): (int, string, Option<string>, int)
  {
    (s.id, s.name, s.desc, s.createTime)
  }

  /** Two services are equal exactly when their identities are: this is an equivalence. */
  lemma ServiceEqualsIsIdentity(a: MassageService, b: MassageService)
    ensures ServiceEquals(a, b) <==> Identity(a) == Identity(b)
  {
  }

  lemma ServiceEqualsIsEquivalence(a: MassageService, b: MassageService, c: MassageService)
    ensures ServiceEquals(a, a)
    ensures ServiceEquals(a, b) ==> ServiceEquals(b, a)
    ensures ServiceEquals(a, b) && ServiceEquals(b, c) ==> ServiceEquals(a, c)
  {
  }

  /** Changing only the price keeps a service equal to itself, though not identical. */
  lemma PriceIgnored(s: MassageService, p: Decimal)
    ensures ServiceEquals(s, s.(price := p))
    ensures p != s.price ==> s != s.(price := p)
  {
  }

  /** The four strings each service is scored on: name, description, price, pinyin of the name. */
  function ServiceFieldChoices(services: seq<MassageService>, plain: Decimal -> string, pinyin: string -> string): (f: seq<seq<string>>)
    ensures |f| == 4 && forall i :: 0 <= i < 4 ==> |f[i]| == |services|
  {
    [ seq(|services|, i requires 0 <= i < |services| => services[i].name),
      seq(|services|, i requires 0 <= i < |services| => if services[i].desc.Some? then services[i].desc.value else ""),
      seq(|services|, i requires 0 <= i < |services| => plain(services[i].price)),
      seq(|services|, i requires 0 <= i < |services| => pinyin(services[i].name)) ]
  }

  function ServiceFields(query: string, services: seq<MassageService>, extract: Scorer,
                         plain: Decimal -> string, pinyin: string -> string): seq<seq<Candidate>>
  {
    var fc := ServiceFieldChoices(services, plain, pinyin);
    seq(|fc|, f requires 0 <= f < |fc| => extract(query, fc[f]))
  }

  /**
   * `queryMassageService`: rank the services against the query over the four
   * fields. `extract` is the fuzzy scorer, `plain` is BigDecimal.toPlainString
   * and `pinyin` the lower-cased transliteration, all foreign.
   */
  method QueryMassageService(query: string, services: seq<MassageService>, minScore: int, top: int,
                             extract: Scorer, plain: Decimal -> string, pinyin: string -> string)
    returns (finalRes: seq<MassageService>)
    requires ValidScorer(extract)
    ensures IndicesIn(Concat(ServiceFields(query, services, extract, plain, pinyin)), |services|)
    ensures finalRes == Picks(Ranked(ServiceFields(query, services, extract, plain, pinyin), services, Identity, minScore, top), services)
    ensures |finalRes| <= Limit(top)
    ensures forall i, j :: 0 <= i < j < |finalRes| ==> !ServiceEquals(finalRes[i], finalRes[j])
    ensures forall s :: s in finalRes ==> s in services
  {
    var fields := ServiceFields(query, services, extract, plain, pinyin);
    FieldsIndicesIn(extract, query, ServiceFieldChoices(services, plain, pinyin), |services|);
    finalRes := Rank(fields, services, Identity, minScore, top);
    RankedGuarantees(fields, services, Identity, minScore, top);
    var ks := KeysOf(finalRes, Identity);
    forall i, j | 0 <= i < j < |finalRes| ensures !ServiceEquals(finalRes[i], finalRes[j]) {
      assert ks[i] == Identity(finalRes[i]) && ks[j] == Identity(finalRes[j]);
    }
  }
}
