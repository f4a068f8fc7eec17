# footspa ledger core, modelled in Dafny

footspa is a small foot-massage shop's book-keeping app (Android, with a partial iOS port). Everything the shop does is a transfer of money between *money nodes*: accounts that are customers, prepaid cards, third parties, employees, the shop's own Public account and the Outside world. A *bill* moves an amount from one node to another. The checkout screen collects *consumptions* (a purchase, a card deposit, a card use, a third-party payment). Some of them refer to customers or cards created during the checkout, which wait in a *consume cache* until they are flushed to the database. The screen first previews the card balances, then, in one database transaction, stores the new accounts and every bill. The search boxes rank accounts, cards and services by a fuzzy score.

This project models that core:

- **Values and enums.** Decimals with their BigDecimal scale (`money.dfy`); account and bill kinds with their stored strings and the Room converters (`money_node_type.dfy`, `bill_type.dfy`, `type_converters.dfy`).
- **Entity builders.** Accounts and bills with their builders and checks (`money_node.dfy`, `bill.dfy`), the iOS account entity compared with the Android one (`money_node_ios.dfy`), and massage services with their custom equality (`massage_service.dfy`).
- **Database.** The tables with the SQL constraints (one Public account, one Outside account, primary keys, auto-increment ids) as a pure `Db` behind a `Store` class (`store.dfy`), and the DAO's first-run and health checks (`fs_dao.dfy`).
- **Queries.** The fuzzy ranking loop shared by every search: sort by descending score, skip weak or duplicate choices, stop at `top` (`ranking.dfy`). The ledger queries that use it: account search, a customer's cards, cards with balances, a card's owner and a card's balance (`ledger_queries.dfy`).
- **Checkout.** The checkout entries and the bills each kind produces (`consumption.dfy`). Staging of new accounts (`staging.dfy`), the balance preview (`preview.dfy`), and the flush of staged accounts with the rebinding of consumptions to their stored rows (`flush.dfy`). The `ConsumeCache` class that drives them, and the whole checkout transaction with its rollback (`consume_cache.dfy`).
- **Input and UI state.** The money keypad layout (`keypad.dfy`), the arithmetic money input with its pattern and decimal checks (`money_input.dfy`), and the step-by-step reveal column (`step.dfy`).

How each kind of code is modelled:

- **Pure code** (entities, converters, queries) is modelled with functions, each with its lemmas.
- **Loops** in the source become methods with loop invariants. Each such method is proved equal to a function, and the function's properties are proved as lemmas. This covers the ranking walk, collecting a customer's cards, the two balance loops, collecting a card's owners, the bill checks of a checkout, the two preview passes and the flush loop.
- **Objects whose state changes** become classes: the database, a consumption, the consume cache, the money input and the step column.
- **A rolled-back transaction** restores the tables as they were. The consumptions that the flush rebinds to their stored rows stay rebound, as in the source.

## Model

| member | source | states |
|---|---|---|
| Money.ValueZeroIff | footspa-android/app/src/main/java/com/spread/footspa/ui/common/MoneyInput2.kt:111 | A decimal is numerically zero exactly when its unscaled digits are 0, whatever its scale. |
| Money.ZeroLiteralIsScaleSensitive | footspa-android/app/src/main/java/com/spread/footspa/db/Bill.kt:36 | `== BigDecimal.ZERO` implies value zero, but 0.00 has value zero and is not `== BigDecimal.ZERO`: the comparison is scale-sensitive. |
| Money.SumAppend | footspa-android/app/src/main/java/com/spread/footspa/ui/Consume.kt:1501-1502 | The total of a list of amounts is additive over concatenation, so appending an amount to a trace adds its value. |
| Money.StrippedScale | footspa-android/app/src/main/java/com/spread/footspa/ui/common/MoneyInput2.kt:118 | `stripTrailingZeros().scale()` never exceeds the scale of the value. |
| Money.StrippedScaleAtMostTwo | footspa-android/app/src/main/java/com/spread/footspa/ui/common/MoneyInput2.kt:118 | A value has at most two decimal places after stripping exactly when its scale is at most 2 or every digit past the second decimal is 0. |
| MoneyNodeTypes.DisplayStr | footspa-android/app/src/main/java/com/spread/footspa/db/MoneyNodeType.kt:21-29 | The label is empty exactly for None, Public and Outside; the definition gives the five labelled kinds their constants. |
| MoneyNodeTypes.EntriesListsEveryVariantOnce | footspa-android/app/src/main/java/com/spread/footspa/db/MoneyNodeType.kt:9-19 | `entries` lists each of the eight kinds, and no kind twice. |
| MoneyNodeTypes.StrInjective | footspa-android/app/src/main/java/com/spread/footspa/db/MoneyNodeType.kt:9-19 | No two kinds share a stored string, and only None stores the empty string. |
| MoneyNodeTypes.DisplayStrInjectiveOnLabelled | footspa-android/app/src/main/java/com/spread/footspa/db/MoneyNodeType.kt:3-7 | The five labels are pairwise distinct. |
| BillTypes.StrInjective | footspa-android/app/src/main/java/com/spread/footspa/db/BillType.kt:3-11 | No two bill types share a stored string, and only None stores the empty string. |
| TypeConverters.FirstWithStr | footspa-android/app/src/main/java/com/spread/footspa/db/FSDBTypeConverters.kt:35 | `firstOrNull { it.str == value }`: the first entry whose string matches, or nothing exactly when no entry matches. |
| TypeConverters.MoneyNodeTypeRoundTrip | footspa-android/app/src/main/java/com/spread/footspa/db/FSDBTypeConverters.kt:33-41 | Decoding the encoded string of any account type gives the same type. |
| TypeConverters.UnknownStringIsMoneyNodeNone | footspa-android/app/src/main/java/com/spread/footspa/db/FSDBTypeConverters.kt:35 | A string that is no type's `str` decodes to None. |
| TypeConverters.DecodedMoneyNodeTypeIsNamed | footspa-android/app/src/main/java/com/spread/footspa/db/FSDBTypeConverters.kt:34-36 | A string decodes to a type other than None exactly when it is the non-empty `str` of some type. |
| TypeConverters.BillTypeRoundTrip | footspa-android/app/src/main/java/com/spread/footspa/db/FSDBTypeConverters.kt:43-51 | Decoding the encoded string of any bill type gives the same bill type. |
| TypeConverters.UnknownStringIsBillNone | footspa-android/app/src/main/java/com/spread/footspa/db/FSDBTypeConverters.kt:45 | A string that is no bill type's `str` decodes to None. |
| MoneyNodes.BuildMoneyNode | footspa-android/app/src/main/java/com/spread/footspa/db/MoneyNode.kt:27-39 | Refuses exactly the builders whose type is None; otherwise the node has id 0 and carries exactly the builder's name, type, keys, card-type reference and valid flag. |
| MoneyNodes.DefaultBuilderFails | footspa-android/app/src/main/java/com/spread/footspa/db/MoneyNode.kt:19-25 | A builder left at its defaults (name "null", type None) cannot be built. |
| MoneyNodes.BuildInjective | footspa-android/app/src/main/java/com/spread/footspa/db/MoneyNode.kt:32-38 | Two builders that build the same node are the same builder. |
| MoneyNodes.BuildIsOnto | footspa-android/app/src/main/java/com/spread/footspa/db/MoneyNode.kt:32-38 | Every unsaved node of a real type is what its own builder builds. |
| MoneyNodes.ContainsKey | footspa-android/app/src/main/java/com/spread/footspa/db/MoneyNode.kt:16 | False when keys is null; otherwise true exactly when the key is one of the keys. |
| IosMoneyNodes.Build | footspa-ios/footspa/footspa/Database/Entity/MoneyNode.swift:77-88 | Throws exactly when the type is `.none`; a built node has a nil id. |
| IosMoneyNodes.BuildAgreesWithAndroid | footspa-ios/footspa/footspa/Database/Entity/MoneyNode.swift:81-87 | The iOS builder accepts the same builders as the Android one and builds the same account, with nil standing for id 0. |
| IosMoneyNodes.ContainsAgreesWithAndroid | footspa-ios/footspa/footspa/Database/Entity/MoneyNode.swift:65-67 | `contains(key:)` answers as Android's `containsKey` on every node and key. |
| IosMoneyNodes.DecodeTypeAgreesWithAndroid | footspa-ios/footspa/footspa/Database/Entity/MoneyNode.swift:54 | `MoneyNodeType(rawValue:) ?? .none` decodes every string as the Android converter does, so an unknown string is `.none`. |
| IosMoneyNodes.DecodeStr | footspa-ios/footspa/footspa/Database/Entity/MoneyNode.swift:54 | Decoding a type's own raw value gives the type back. |
| Bills.DefaultBillBuilder | footspa-android/app/src/main/java/com/spread/footspa/db/Bill.kt:22-32 | The defaults: date is the clock reading, ids 0, amount BigDecimal.ZERO, valid, no tags, empty remark, service and servant 0. |
| Bills.BuildBill | footspa-android/app/src/main/java/com/spread/footspa/db/Bill.kt:34-50 | Refuses exactly a zero source id, a zero destination id or an amount `== BigDecimal.ZERO`; otherwise the bill has id 0 and carries exactly the builder's fields. |
| Bills.DefaultBillBuilderFails | footspa-android/app/src/main/java/com/spread/footspa/db/Bill.kt:36-38 | A builder left at its defaults is refused, whatever the clock reads. |
| Bills.SelfTransferAccepted | footspa-android/app/src/main/java/com/spread/footspa/db/Bill.kt:36 | Nothing relates the two ends: a transfer from an account to itself is built. |
| Bills.ScaledZeroAccepted | footspa-android/app/src/main/java/com/spread/footspa/db/Bill.kt:36 | An amount of 0.00 passes the check and gives a bill of value zero. |
| MassageServices.ServiceEqualsIsIdentity | footspa-android/app/src/main/java/com/spread/footspa/db/MassageService.kt:23-29 | Two services are equal exactly when id, name, desc and createTime agree. |
| MassageServices.ServiceEqualsIsEquivalence | footspa-android/app/src/main/java/com/spread/footspa/db/MassageService.kt:23-29 | The equality is reflexive, symmetric and transitive. |
| MassageServices.PriceIgnored | footspa-android/app/src/main/java/com/spread/footspa/db/MassageService.kt:23-29 | Changing only the price keeps a service equal, though the record differs. |
| MassageServices.ServiceFieldChoices | footspa-android/app/src/main/java/com/spread/footspa/db/MassageService.kt:47-70 | Four field lists (name, desc or "", plain price, pinyin), each with one string per service. |
| MassageServices.QueryMassageService | footspa-android/app/src/main/java/com/spread/footspa/db/MassageService.kt:41-88 | The result is the ranked walk over the four merged score lists: at most max(top, 1) services, all from the input, no two equal by the custom equality. |
| Ranking.SortDescIsStableSort | footspa-android/app/src/main/java/com/spread/footspa/db/FSDB.kt:237-239 | `sortedByDescending { it.score }` orders by non-increasing score, keeps every candidate (a permutation), and keeps candidates of equal score in their original order. |
| Ranking.FieldsIndicesIn | footspa-android/app/src/main/java/com/spread/footspa/db/FSDB.kt:217-238 | The score lists a scorer gives over n choices per field, concatenated, only index those n choices. |
| Ranking.AdmitPrefix | footspa-android/app/src/main/java/com/spread/footspa/db/FSDB.kt:241-251 | Walking a prefix keeps a prefix of what walking the whole list keeps: the `break` only cuts the result short. |
| Ranking.AdmitIsSubsequence | footspa-android/app/src/main/java/com/spread/footspa/db/FSDB.kt:244 | Every kept candidate is from the input and scores at least minScore. |
| Ranking.AdmitKeepsOrder | footspa-android/app/src/main/java/com/spread/footspa/db/FSDB.kt:241-247 | Walking a list sorted by descending score keeps a list sorted by descending score. |
| Ranking.AdmitKeysDistinct | footspa-android/app/src/main/java/com/spread/footspa/db/FSDB.kt:244 | No two kept candidates point at equal choices. |
| Ranking.AdmitComplete | footspa-android/app/src/main/java/com/spread/footspa/db/FSDB.kt:244 | Every choice that some candidate with score at least minScore points at is kept. |
| Ranking.RankedGuarantees | footspa-android/app/src/main/java/com/spread/footspa/db/FSDB.kt:237-251 | At most max(top, 1) candidates, in non-increasing score order, each from the merged lists with score at least minScore, pointing at pairwise unequal choices. |
| Ranking.RankedComplete | footspa-android/app/src/main/java/com/spread/footspa/db/FSDB.kt:237-251 | When the search returns fewer than max(top, 1) results, the choice of every candidate scoring at least minScore is among them. |
| Ranking.RankedPicks | footspa-android/app/src/main/java/com/spread/footspa/db/FSDB.kt:237-253 | The returned choices: at most max(top, 1), all from the choices, pairwise unequal. |
| Ranking.SelectTop | footspa-android/app/src/main/java/com/spread/footspa/db/FSDB.kt:240-251 | The loop with its `continue` and `break` returns the first max(top, 1) choices the walk keeps. |
| Ranking.SelectStep | footspa-android/app/src/main/java/com/spread/footspa/db/FSDB.kt:244-247 | One loop step skips a candidate that is under minScore or equal to a kept choice, and appends its choice otherwise. |
| Ranking.Rank | footspa-android/app/src/main/java/com/spread/footspa/db/FSDB.kt:237-251 | Concatenating, sorting and walking gives exactly the ranked choices. |
| LedgerQueries.FirstById | footspa-android/app/src/main/java/com/spread/footspa/db/FSDB.kt:276 | `find { it.id == id }`: a node with that id from the list, or nothing exactly when no node has it. |
| LedgerQueries.FindCardType | footspa-android/app/src/main/java/com/spread/footspa/db/FSDB.kt:97-103 | Null without a type reference; otherwise the first card type with that id, or null exactly when none has it. |
| LedgerQueries.FirstTypeWithId | footspa-android/app/src/main/java/com/spread/footspa/db/FSDB.kt:101 | The first card type with the id, or nothing exactly when no card type has it. |
| LedgerQueries.SearchChoices | footspa-android/app/src/main/java/com/spread/footspa/db/FSDB.kt:213-216 | An account is searched exactly when it is of one of `types` (any type when empty) and passes `filter`. |
| LedgerQueries.NodeFieldChoices | footspa-android/app/src/main/java/com/spread/footspa/db/FSDB.kt:217-236 | Three field lists (name, joined keys, pinyin), each with one string per eligible account. |
| LedgerQueries.QueryMoneyNode | footspa-android/app/src/main/java/com/spread/footspa/db/FSDB.kt:204-254 | The ranked walk over the eligible accounts: at most max(top, 1), pairwise different, each of a requested type and passing the filter. |
| LedgerQueries.Cards | footspa-android/app/src/main/java/com/spread/footspa/db/FSDB.kt:268 | Exactly the Card accounts of the snapshot. |
| LedgerQueries.CustomerCardsSpec | footspa-android/app/src/main/java/com/spread/footspa/db/FSDB.kt:273-285 | The candidates are distinct valid Card accounts, and exactly those some bill from the customer pays into. |
| LedgerQueries.CustomerCardsDistinct | footspa-android/app/src/main/java/com/spread/footspa/db/FSDB.kt:280 | No card is a candidate twice. |
| LedgerQueries.CustomerCardsMember | footspa-android/app/src/main/java/com/spread/footspa/db/FSDB.kt:274-283 | A card is a candidate exactly when some bill from the customer pays into it and it is a valid card. |
| LedgerQueries.CollectCustomerCards | footspa-android/app/src/main/java/com/spread/footspa/db/FSDB.kt:273-285 | The loop collects exactly the candidate cards, in first-bill order. |
| LedgerQueries.CandidateFieldChoices | footspa-android/app/src/main/java/com/spread/footspa/db/FSDB.kt:290-309 | Three field lists (joined keys, name, pinyin), each with one string per candidate card. |
| LedgerQueries.QueryCard | footspa-android/app/src/main/java/com/spread/footspa/db/FSDB.kt:259-327 | An empty query returns the candidates; otherwise the ranked walk over them, at most max(top, 1); always duplicate-free candidates. |
| LedgerQueries.EmptyCardsNoCandidates | footspa-android/app/src/main/java/com/spread/footspa/db/FSDB.kt:269-271 | Without any card there is no candidate. |
| LedgerQueries.CardsWithBalance | footspa-android/app/src/main/java/com/spread/footspa/db/FSDB.kt:343-369 | One entry per candidate card. |
| LedgerQueries.IntakeOfNonCandidate | footspa-android/app/src/main/java/com/spread/footspa/db/FSDB.kt:344-356 | A card that is not a candidate has received nothing from the customer. |
| LedgerQueries.CandidateIsFirstById | footspa-android/app/src/main/java/com/spread/footspa/db/FSDB.kt:362 | Looking a candidate card up by its id finds that card, so candidates have distinct ids. |
| LedgerQueries.CardFieldChoices | footspa-android/app/src/main/java/com/spread/footspa/db/FSDB.kt:374-394 | Three field lists (joined keys, name, pinyin), each with one string per card entry. |
| LedgerQueries.CollectIntake | footspa-android/app/src/main/java/com/spread/footspa/db/FSDB.kt:343-356 | The first loop maps each candidate card, and only those, to what the customer paid into it, valid or not. |
| LedgerQueries.SubtractOutflow | footspa-android/app/src/main/java/com/spread/footspa/db/FSDB.kt:357-369 | The second loop maps each candidate card to intake minus what it paid to the Outside account, valid or not. |
| LedgerQueries.CardBalances | footspa-android/app/src/main/java/com/spread/footspa/db/FSDB.kt:343-369 | Both loops give each candidate card with intake minus outflow, in first-bill order. |
| LedgerQueries.CardsWithBalanceDistinct | footspa-android/app/src/main/java/com/spread/footspa/db/FSDB.kt:343-356 | No card appears twice among the entries. |
| LedgerQueries.RankCardEntries | footspa-android/app/src/main/java/com/spread/footspa/db/FSDB.kt:374-409 | The ranked walk over the card entries: at most max(top, 1), all from the entries, no card twice. |
| LedgerQueries.QueryCardWithBalance | footspa-android/app/src/main/java/com/spread/footspa/db/FSDB.kt:329-412 | No card at all gives an empty result; otherwise a missing Outside account (`getOutside`) fails the query, and then an empty query returns every candidate card with its balance against the stored Outside account, any other query the ranked walk over them; never the same card twice. |
| LedgerQueries.OwnersSpec | footspa-android/app/src/main/java/com/spread/footspa/db/FSDB.kt:469-480 | The collected owners are distinct and are exactly the Customer accounts that pay into the card. |
| LedgerQueries.OwnersDistinct | footspa-android/app/src/main/java/com/spread/footspa/db/FSDB.kt:475 | No owner is collected twice. |
| LedgerQueries.OwnersMember | footspa-android/app/src/main/java/com/spread/footspa/db/FSDB.kt:472-479 | An account is collected exactly when it is a Customer that some bill into the card comes from. |
| LedgerQueries.CardOwnerIsSoleCustomerSource | footspa-android/app/src/main/java/com/spread/footspa/db/FSDB.kt:465-485 | A card has an owner exactly when one Customer, and no other, pays into it; the owner is that Customer. |
| LedgerQueries.QueryCardOwner | footspa-android/app/src/main/java/com/spread/footspa/db/FSDB.kt:465-485 | Rejects a non-card, then collects the Customer sources and returns the only one or fails. |
| LedgerQueries.CardBalanceAppend | footspa-android/app/src/main/java/com/spread/footspa/db/FSDB.kt:499-505 | The balance over two lists of bills in a row is the sum of the two balances. |
| LedgerQueries.CardBalanceOrderFree | footspa-android/app/src/main/java/com/spread/footspa/db/FSDB.kt:499-505 | The balance does not depend on the order of the bills. |
| LedgerQueries.QueryCardBalance | footspa-android/app/src/main/java/com/spread/footspa/db/FSDB.kt:487-508 | A non-card is rejected, a failing owner lookup fails the query, a missing Outside account (`getOutside`) fails it; otherwise the balance is valid owner-to-card bills minus valid card-to-Outside bills, from zero, against the stored Outside account. |
| FsDao.EnsureOneExistsIffUnique | footspa-android/app/src/main/java/com/spread/footspa/db/FSDao.kt:68-69 | `ensureOneExists(t)` holds exactly when one account, and no other, has type t. |
| FsDao.HealthyMeansOnePublicOneOutside | footspa-android/app/src/main/java/com/spread/footspa/db/FSDao.kt:39-50 | The database is healthy exactly when there is one Public account and one Outside account. |
| FsDao.FirstRunInserts | footspa-android/app/src/main/java/com/spread/footspa/db/FSDao.kt:53-62 | On an empty account table both first-run accounts are accepted, stored as Public "public" and Outside "outside", and the table is healthy. |
| FsDao.InitDBIfNeeded | footspa-android/app/src/main/java/com/spread/footspa/db/FSDao.kt:52-66 | An empty database gets exactly the two accounts and the call succeeds; otherwise nothing changes and the call fails exactly when the database is unhealthy. A success leaves it healthy. |
| Stores.InsertNode | footspa-android/app/src/main/java/com/spread/footspa/db/SQLConst.kt:13-23 | An account insert is refused exactly on a primary-key clash or a second Public or Outside account; otherwise the row is appended under its id or the next counter value. |
| Stores.InsertNodeKeepsValid | footspa-android/app/src/main/java/com/spread/footspa/db/SQLConst.kt:13-23 | An accepted account insert keeps ids distinct and the single Public and Outside accounts. |
| Stores.GeneratedIdIsFresh | footspa-android/app/src/main/java/com/spread/footspa/db/MoneyNode.kt:9 | An account with id 0 that is neither Public nor Outside is always accepted, under an id no stored account has. |
| Stores.InsertBill | footspa-android/app/src/main/java/com/spread/footspa/db/Bill.kt:10 | A bill insert is refused exactly on a primary-key clash; otherwise the row is appended under its id or the next counter value. |
| Stores.InsertFreshBills | footspa-android/app/src/main/java/com/spread/footspa/db/FSDB.kt:174 | A batch of bills with id 0 is stored in order under consecutive fresh ids, and nothing else changes. |
| Stores.PrefixFailureIsFailure | footspa-android/app/src/main/java/com/spread/footspa/db/FSDB.kt:174 | A batch insert whose prefix fails fails as a whole. |
| Stores.Store.constructor | footspa-android/app/src/main/java/com/spread/footspa/db/FSDB.kt:35-40 | A new database has empty tables and keeps the table constraints. |
| Stores.Store.IsMoneyNodeExists | footspa-android/app/src/main/java/com/spread/footspa/db/FSDB.kt:176-178 | True exactly when an account with the node's id is stored. |
| Stores.Store.GetMoneyNode | footspa-android/app/src/main/java/com/spread/footspa/db/FSDB.kt:200-202 | The account stored under the id, or nothing exactly when no account has it. |
| Stores.Store.InsertMoneyNode | footspa-android/app/src/main/java/com/spread/footspa/db/FSDB.kt:106-108 | The new tables are the account insert's; a refused insert changes nothing. |
| Stores.Store.InsertBills | footspa-android/app/src/main/java/com/spread/footspa/db/FSDB.kt:174 | All the bills are stored or, on a refusal, nothing changes. |
| Stores.Store.Restore | footspa-android/app/src/main/java/com/spread/footspa/ui/Consume.kt:249-251 | The rollback of `withTransaction`: the tables are back as they were. |
| Consumptions.TypeOf | footspa-android/app/src/main/java/com/spread/footspa/ui/Consume.kt:102-108 | A kind other than None is only read from its own label. |
| Consumptions.TypeOfStr | footspa-android/app/src/main/java/com/spread/footspa/ui/Consume.kt:94-108 | Reading a kind's label back gives the kind. |
| Consumptions.TypeOfUnknown | footspa-android/app/src/main/java/com/spread/footspa/ui/Consume.kt:102-108 | A string that is no kind's label reads as None. |
| Consumptions.Consumption.constructor | footspa-android/app/src/main/java/com/spread/footspa/ui/Consume.kt:110-120 | A new consumption has kind None and every field null. |
| Consumptions.CheckMoney | footspa-android/app/src/main/java/com/spread/footspa/ui/Consume.kt:1397-1402 | Refuses exactly a null amount or one `== BigDecimal.ZERO`; otherwise returns the amount. |
| Consumptions.CheckService | footspa-android/app/src/main/java/com/spread/footspa/ui/Consume.kt:1418-1423 | Refuses exactly a null service or one with id 0; otherwise returns it. |
| Consumptions.CheckNode | footspa-android/app/src/main/java/com/spread/footspa/ui/Consume.kt:1425-1430 | Refuses exactly a null account or one with id 0; otherwise returns it. |
| Consumptions.NonNullService | footspa-android/app/src/main/java/com/spread/footspa/ui/Consume.kt:1404-1409 | Refuses exactly a null service. |
| Consumptions.NonNullNode | footspa-android/app/src/main/java/com/spread/footspa/ui/Consume.kt:1411-1416 | Refuses exactly a null account. |
| Consumptions.MakeBill | footspa-android/app/src/main/java/com/spread/footspa/ui/Consume.kt:1312-1319 | A bill from the default builder is built exactly when both ends and the amount pass `buildBill`, carrying the given ends, amount, remark, service and servant. |
| Consumptions.PurchaseIsOneBill | footspa-android/app/src/main/java/com/spread/footspa/ui/Consume.kt:1306-1321 | A Purchase is accepted exactly when customer, amount, service and servant pass their checks, and becomes one bill customer to Public with service and servant. |
| Consumptions.DepositIsTwoBills | footspa-android/app/src/main/java/com/spread/footspa/ui/Consume.kt:1323-1342 | A Deposit is accepted exactly when customer, card and amount pass, and becomes customer to Public then customer to card, same amount. |
| Consumptions.UseCardIsOneBill | footspa-android/app/src/main/java/com/spread/footspa/ui/Consume.kt:1344-1359 | A UseCard is accepted exactly when service, servant, card and amount pass, and becomes one bill card to Outside with service and servant. |
| Consumptions.ThirdPartyIsTwoBills | footspa-android/app/src/main/java/com/spread/footspa/ui/Consume.kt:1361-1387 | A ThirdParty is accepted exactly when its six fields pass, and becomes customer to third for the third-party amount, then third to Public for the amount. |
| Consumptions.NoneIsNoBills | footspa-android/app/src/main/java/com/spread/footspa/ui/Consume.kt:1389 | A consumption of kind None gives no bills and cannot fail. |
| Consumptions.BillsForShape | footspa-android/app/src/main/java/com/spread/footspa/ui/Consume.kt:1304-1391 | An accepted consumption gives one or two unsaved, valid bills dated now, none with a zero end or a ZERO amount. |
| Consumptions.BillsForErrors | footspa-android/app/src/main/java/com/spread/footspa/ui/Consume.kt:1397-1430 | A consumption is only refused by a null or unsaved value or a rejected bill. |
| Consumptions.AllBillsErrors | footspa-android/app/src/main/java/com/spread/footspa/ui/Consume.kt:1304-1391 | A checkout is only refused by one of its consumptions' checks. |
| Consumptions.AllBillsSpec | footspa-android/app/src/main/java/com/spread/footspa/ui/Consume.kt:1303-1391 | A checkout is accepted exactly when every consumption is, and then has the sum of the per-kind bill counts, all unsaved. |
| Consumptions.CollectBills | footspa-android/app/src/main/java/com/spread/footspa/ui/Consume.kt:1303-1391 | The loop collects exactly the checkout's bills, or stops at the first refusal. |
| Consumptions.PrefixRefusalRefuses | footspa-android/app/src/main/java/com/spread/footspa/ui/Consume.kt:1304-1391 | Once a prefix of the checkout is refused, the checkout is refused with the same error. |
| Staging.CommittedSpec | footspa-android/app/src/main/java/com/spread/footspa/ui/Consume.kt:1436-1447 | Committing keeps the staged pairs in front, never stages a pair twice, and stages exactly the new pairs whose account is not stored. |
| Staging.MergedExtends | footspa-android/app/src/main/java/com/spread/footspa/ui/Consume.kt:1449-1461 | Merging only appends, and only accounts of the searched type. |
| Staging.MergedCards | footspa-android/app/src/main/java/com/spread/footspa/ui/Consume.kt:1451-1455 | A Card search gains exactly the customer's staged cards, and nothing without a customer. |
| Staging.MergedOthers | footspa-android/app/src/main/java/com/spread/footspa/ui/Consume.kt:1457-1459 | Any other search gains every staged account of its type, only staged accounts, and stays duplicate-free. |
| Previews.FindCard | footspa-android/app/src/main/java/com/spread/footspa/ui/Consume.kt:1488 | `find { it.first == card }`: the first pair for the card, or nothing exactly when no pair has it. |
| Previews.PutTraceOf | footspa-android/app/src/main/java/com/spread/footspa/ui/Consume.kt:1484-1513 | Recording a trace changes the customer's card and no other trace. |
| Previews.DepositTraceExpected | footspa-android/app/src/main/java/com/spread/footspa/ui/Consume.kt:1494-1513 | One more deposit extends the expected trace; the first deposit of a new card starts from 0, of an old card from its stored balance. |
| Previews.UseTraceExpected | footspa-android/app/src/main/java/com/spread/footspa/ui/Consume.kt:1537-1553 | One more use extends the expected trace; a new card with no trace is refused. |
| Previews.DepositStepMatches | footspa-android/app/src/main/java/com/spread/footspa/ui/Consume.kt:1475-1515 | One Deposit keeps every trace equal to the expected one. |
| Previews.UseStepMatches | footspa-android/app/src/main/java/com/spread/footspa/ui/Consume.kt:1518-1554 | One UseCard keeps every trace equal to the expected one. |
| Previews.DepositPassMatches | footspa-android/app/src/main/java/com/spread/footspa/ui/Consume.kt:1474-1516 | The first pass gives the expected traces of the deposits, with no uses. |
| Previews.UsePassMatches | footspa-android/app/src/main/java/com/spread/footspa/ui/Consume.kt:1517-1555 | The second pass extends the traces with the uses, in order. |
| Previews.PreviewMatches | footspa-android/app/src/main/java/com/spread/footspa/ui/Consume.kt:1470-1557 | Every trace lists that customer's deposits to and uses of the card in order, starts from 0 for a new card or the stored balance, and ends at start plus deposits minus uses. |
| Previews.DepositPassAccepts | footspa-android/app/src/main/java/com/spread/footspa/ui/Consume.kt:1476-1493 | Every Deposit the first pass accepts had customer, card, a non-ZERO amount, no new customer with an old card, and the customer owning an old card. |
| Previews.UsePassAccepts | footspa-android/app/src/main/java/com/spread/footspa/ui/Consume.kt:1519-1550 | Every UseCard the second pass accepts met the same checks. |
| Previews.PreviewAccepts | footspa-android/app/src/main/java/com/spread/footspa/ui/Consume.kt:1474-1555 | An accepted preview met every check, and every new card used was deposited to by the same customer in the same checkout. |
| Previews.UseListedBeforeDepositAccepted | footspa-android/app/src/main/java/com/spread/footspa/ui/Consume.kt:1474-1555 | Deposits are all taken first: a new card used before its deposit in the list is accepted, and its trace holds both. |
| Flushing.RebindAll | footspa-android/app/src/main/java/com/spread/footspa/ui/Consume.kt:1580-1594 | Rebinding keeps one consumption per consumption. |
| Flushing.FlushStepFrame | footspa-android/app/src/main/java/com/spread/footspa/ui/Consume.kt:1562-1571 | One step leaves bills, services, the bill counter and each consumption's kind unchanged. |
| Flushing.FlushStepPrefix | footspa-android/app/src/main/java/com/spread/footspa/ui/Consume.kt:1564 | One step only appends to the account table. |
| Flushing.FlushStepOk | footspa-android/app/src/main/java/com/spread/footspa/ui/Consume.kt:1563-1570 | A successful step follows successful steps, and its account was not stored. |
| Flushing.FlushStepAppends | footspa-android/app/src/main/java/com/spread/footspa/ui/Consume.kt:1563-1567 | A successful step stores the staged account as the only new row, under a positive id, and rebinds the consumptions to what the store returns for that id. |
| Flushing.FlushStepValid | footspa-android/app/src/main/java/com/spread/footspa/ui/Consume.kt:1564 | One step keeps the table constraints. |
| Flushing.FlushStepFindsStored | footspa-android/app/src/main/java/com/spread/footspa/ui/Consume.kt:1583 | After a successful step, looking up the new id finds the account just stored. |
| Flushing.FlushAllValid | footspa-android/app/src/main/java/com/spread/footspa/ui/Consume.kt:1560-1573 | Flushing keeps the table constraints. |
| Flushing.FlushAllFrame | footspa-android/app/src/main/java/com/spread/footspa/ui/Consume.kt:1560-1573 | Flushing leaves bills, services, the bill counter and the consumptions' kinds unchanged. |
| Flushing.FlushAllPrefix | footspa-android/app/src/main/java/com/spread/footspa/ui/Consume.kt:1562-1571 | Flushing only appends to the account table. |
| Flushing.FlushAllRefusesStored | footspa-android/app/src/main/java/com/spread/footspa/ui/Consume.kt:1563 | A successful flush found none of the staged accounts already stored. |
| Flushing.FlushAllStoresStaged | footspa-android/app/src/main/java/com/spread/footspa/ui/Consume.kt:1562-1571 | A successful flush grows the account table by exactly the staged accounts, in order, each under a positive id. |
| Flushing.FlushReplacesStagedReferences | footspa-android/app/src/main/java/com/spread/footspa/ui/Consume.kt:1560-1595 | After a successful flush no well-typed consumption refers to a staged account still waiting for its id. |
| Flushing.RebindStep | footspa-android/app/src/main/java/com/spread/footspa/ui/Consume.kt:1580-1594 | Rebinding keeps a consumption well typed and removes every reference to the staged account. |
| Flushing.StagedTwiceStoredTwice | footspa-android/app/src/main/java/com/spread/footspa/ui/Consume.kt:1562-1571 | The same new account staged by two consumptions is stored twice, under two different ids. |
| LedgerQueries.FirstOfType | footspa-android/app/src/main/java/com/spread/footspa/db/FSDB.kt:192-198 | `getPublic`/`getOutside`: an account of that type, or nothing exactly when there is none. |
| ConsumeCaches.SubmitSpec | footspa-android/app/src/main/java/com/spread/footspa/ui/Consume.kt:1294-1394 | A successful checkout keeps the table constraints, stores the staged accounts after the old ones, leaves the services alone, and appends exactly the bills built from the rebound consumptions against the stored Public and Outside accounts, in order, under consecutive fresh ids. |
| ConsumeCaches.SubmitNeverRefusesBills | footspa-android/app/src/main/java/com/spread/footspa/ui/Consume.kt:1392 | On a consistent database the batch bill insert of a checkout is never refused. |
| ConsumeCaches.ConsumeCache.constructor | footspa-android/app/src/main/java/com/spread/footspa/ui/Consume.kt:1433 | A new cache stages nothing. |
| ConsumeCaches.ConsumeCache.Commit | footspa-android/app/src/main/java/com/spread/footspa/ui/Consume.kt:1436-1447 | The staged pairs become what committing the new pairs against the stored accounts gives. |
| ConsumeCaches.ConsumeCache.Merge | footspa-android/app/src/main/java/com/spread/footspa/ui/Consume.kt:1449-1461 | The search results with the staged accounts merged in, as the merge rule says. |
| ConsumeCaches.ConsumeCache.Clear | footspa-android/app/src/main/java/com/spread/footspa/ui/Consume.kt:1601-1605 | Nothing stays staged. |
| ConsumeCaches.ConsumeCache.UpdateConsumption | footspa-android/app/src/main/java/com/spread/footspa/ui/Consume.kt:1575-1595 | Every consumption is rebound to what the store returns for the new id. |
| ConsumeCaches.ConsumeCache.Flush | footspa-android/app/src/main/java/com/spread/footspa/ui/Consume.kt:1560-1573 | The store and the consumptions end as the flush of the staged accounts gives them; the result is false where the source throws. |
| ConsumeCaches.ConsumeCache.FlushOne | footspa-android/app/src/main/java/com/spread/footspa/ui/Consume.kt:1563-1570 | One pass of the flush loop: one step of the flush. |
| ConsumeCaches.ConsumeCache.GetPreviewInfo | footspa-android/app/src/main/java/com/spread/footspa/ui/Consume.kt:1470-1558 | The preview of the consumptions as they are now, against the staged and stored accounts. |
| ConsumeCaches.DepositLoop | footspa-android/app/src/main/java/com/spread/footspa/ui/Consume.kt:1474-1516 | The first loop gives the first pass's preview or its first refusal. |
| ConsumeCaches.UseLoop | footspa-android/app/src/main/java/com/spread/footspa/ui/Consume.kt:1517-1555 | The second loop gives the second pass's preview or its first refusal. |
| ConsumeCaches.FailedFlushStaysFailed | footspa-android/app/src/main/java/com/spread/footspa/ui/Consume.kt:1570 | Once a flush has thrown, later staged accounts change nothing. |
| ConsumeCaches.DepositRefusalRefuses | footspa-android/app/src/main/java/com/spread/footspa/ui/Consume.kt:1481-1493 | A refusal in the first pass refuses the whole preview with the same error. |
| ConsumeCaches.UseRefusalRefuses | footspa-android/app/src/main/java/com/spread/footspa/ui/Consume.kt:1524-1550 | A refusal in the second pass refuses it with the same error. |
| ConsumeCaches.SubmitConsumptions | footspa-android/app/src/main/java/com/spread/footspa/ui/Consume.kt:1294-1394 | On a refusal the tables are rolled back and the cache keeps its pairs; on success the tables hold the checkout and the cache is cleared. |
| ConsumeCaches.FlushAndStore | footspa-android/app/src/main/java/com/spread/footspa/ui/Consume.kt:1298-1392 | The body of the transaction: the flush, then the bills, with the outcome of the checkout. |
| ConsumeCaches.StoreBillsIn | footspa-android/app/src/main/java/com/spread/footspa/ui/Consume.kt:1301-1392 | Find Public and Outside, build the bills and insert them; a refusal leaves the tables as they were. |
| Keypads.NatText | footspa-android/app/src/main/java/com/spread/footspa/ui/common/MoneyInput2.kt:195 | `num.toString()` of a digit is that one digit; of any number, one or more digits. |
| Keypads.GetKeyLayout | footspa-android/app/src/main/java/com/spread/footspa/ui/common/MoneyInput2.kt:151-183 | The ten digit cells are the indices of `digitKeyMap`; Backspace 3, Minus 7, Plus 11, Dot 14, Multiply 15; every other index has no key. |
| Keypads.DigitsOneToOne | footspa-android/app/src/main/java/com/spread/footspa/ui/common/MoneyInput2.kt:151-162 | Each digit 0-9 sits at exactly one cell. |
| Keypads.KeysDistinct | footspa-android/app/src/main/java/com/spread/footspa/ui/common/MoneyInput2.kt:151-183 | Two cells of the grid carry different keys unless both are empty. |
| Keypads.KeyTextIsOneKeypadChar | footspa-android/app/src/main/java/com/spread/footspa/ui/common/MoneyInput2.kt:189-211 | Every key types at most one keypad character; only the empty cell and Backspace type nothing. |
| MoneyInputs.SplitSpec | footspa-android/app/src/main/java/com/spread/footspa/ui/common/MoneyInput2.kt:97 | `split` gives one more piece than there are delimiters; no piece holds a delimiter; the pieces joined are the text without delimiters. |
| MoneyInputs.NumberMatches | footspa-android/app/src/main/java/com/spread/footspa/ui/common/MoneyInput2.kt:147 | A number alone matches the pattern. |
| MoneyInputs.ExtendMatches | footspa-android/app/src/main/java/com/spread/footspa/ui/common/MoneyInput2.kt:147 | A number, an operator and a matching expression make a matching expression. |
| MoneyInputs.MatchesShape | footspa-android/app/src/main/java/com/spread/footspa/ui/common/MoneyInput2.kt:147 | Every matching expression is a number, or a number, an operator and a matching expression. |
| MoneyInputs.Outcome | footspa-android/app/src/main/java/com/spread/footspa/ui/common/MoneyInput2.kt:85-126 | The default for a blank expression; "Invalid expr" exactly off the pattern; the decimal-product error exactly for a term with two decimals; no error exactly when the value is positive with at most two decimals, then that value. |
| MoneyInputs.Evaluate | footspa-android/app/src/main/java/com/spread/footspa/ui/common/MoneyInput2.kt:86-125 | The check loop over the `+`/`-` terms gives exactly that outcome. |
| MoneyInputs.KeypadTextBlankIffEmpty | footspa-android/app/src/main/java/com/spread/footspa/ui/common/MoneyInput2.kt:232 | Keypad text is blank only when it is empty. |
| MoneyInputs.KeyTypesKeypadText | footspa-android/app/src/main/java/com/spread/footspa/ui/common/MoneyInput2.kt:189-211 | Every key types keypad text. |
| MoneyInputs.MoneyInputState.constructor | footspa-android/app/src/main/java/com/spread/footspa/ui/common/MoneyInput2.kt:75-77 | The expression starts empty and the default at ZERO. |
| MoneyInputs.MoneyInputState.AppendStr | footspa-android/app/src/main/java/com/spread/footspa/ui/common/MoneyInput2.kt:128-131 | The text is appended; the default is unchanged. |
| MoneyInputs.MoneyInputState.RemoveLastChar | footspa-android/app/src/main/java/com/spread/footspa/ui/common/MoneyInput2.kt:133-137 | Exactly one character is dropped from the end, and nothing from an empty expression. |
| MoneyInputs.MoneyInputState.Clear | footspa-android/app/src/main/java/com/spread/footspa/ui/common/MoneyInput2.kt:139-144 | The expression is emptied; a given default replaces the old one, a null one keeps it. |
| MoneyInputs.MoneyInputState.Data | footspa-android/app/src/main/java/com/spread/footspa/ui/common/MoneyInput2.kt:85-126 | What the flow emits for the current expression and default. |
| MoneyInputs.MoneyInputState.Press | footspa-android/app/src/main/java/com/spread/footspa/ui/common/MoneyInput2.kt:226-235 | Backspace drops one character; any other key appends its text when not blank; keypad text stays keypad text. |
| MoneyInputs.MoneyInputState.LongPress | footspa-android/app/src/main/java/com/spread/footspa/ui/common/MoneyInput2.kt:236-240 | A long Backspace clears the expression and keeps the default; other keys do nothing. |
| MoneyInputs.ProductExample | footspa-android/app/src/main/java/com/spread/footspa/ui/common/MoneyInput2.kt:147 | "12.5*3" matches the pattern. |
| MoneyInputs.ThreeDecimalsExample | footspa-android/app/src/main/java/com/spread/footspa/ui/common/MoneyInput2.kt:147 | "1.234" does not match. |
| MoneyInputs.OperatorAtEndExamples | footspa-android/app/src/main/java/com/spread/footspa/ui/common/MoneyInput2.kt:147 | An expression cannot start or end with an operator. |
| Steps.Next | footspa-android/app/src/main/java/com/spread/footspa/ui/common/Step.kt:23-26 | Finishing moves the frontier up by one exactly when the finished step is the frontier and below the last index. |
| Steps.RunBounds | footspa-android/app/src/main/java/com/spread/footspa/ui/common/Step.kt:17-26 | Over any finish reports, the frontier never goes back, moves at most one step per report, and never passes the last index. |
| Steps.RunIgnoresOthers | footspa-android/app/src/main/java/com/spread/footspa/ui/common/Step.kt:23 | Finishing steps other than the frontier leaves it unchanged. |
| Steps.RunInOrder | footspa-android/app/src/main/java/com/spread/footspa/ui/common/Step.kt:20-26 | Finishing the steps one by one from the first reveals them all, up to the last. |
| Steps.StepColumn.constructor | footspa-android/app/src/main/java/com/spread/footspa/ui/common/Step.kt:16-17 | The frontier starts at 0. |
| Steps.StepColumn.OnFinished | footspa-android/app/src/main/java/com/spread/footspa/ui/common/Step.kt:22-26 | The frontier moves as `Next` says; shown steps stay shown. |
| Steps.ShownIsPrefix | footspa-android/app/src/main/java/com/spread/footspa/ui/common/Step.kt:20-21 | The shown steps are always the first ones. |
| ConsumeCaches.StoreBillsNeverRefuses | footspa-android/app/src/main/java/com/spread/footspa/ui/Consume.kt:1392 | On a consistent database the batch bill insert never refuses: every bill of a checkout gets a fresh id. |
| FsDao.CountZeroIffNone | footspa-android/app/src/main/java/com/spread/footspa/db/FSDao.kt:68-69 | No account of a type is counted exactly when no account has that type. |
| Previews.CheckCardLineAccepts | footspa-android/app/src/main/java/com/spread/footspa/ui/Consume.kt:1476-1493 | The shared customer/card/amount checks of one consumption accept exactly the lines `Accepted` describes, returning its customer, card and amount. |
| Previews.AmountsNonEmpty | footspa-android/app/src/main/java/com/spread/footspa/ui/Consume.kt:1494-1513 | A trace has amounts exactly when some consumption of that kind, customer and card is listed. |
| MoneyInputs.NumberHasNoOperator | footspa-android/app/src/main/java/com/spread/footspa/ui/common/MoneyInput2.kt:147 | A number holds no operator character, so the terms split at operators are the numbers. |
| MoneyInputs.PatternTextIsNotBlank | footspa-android/app/src/main/java/com/spread/footspa/ui/common/MoneyInput2.kt:88-147 | A matching expression is never blank, so the blank default and the pattern checks never overlap. |

## Left out

- Fuzzy scoring (`FuzzySearch.extractAll`), pinyin conversion (`Pinyin.toPinyin`), `BigDecimal.toPlainString` and the expression evaluator `eval` are foreign code. They are parameters of the model. The scorer is only required to return indices within its choices (`Ranking.ValidScorer`).
- Concurrency is not modelled: the cache's `Mutex`, coroutines and dispatchers, and Kotlin flows. A flow's current value is a function of the current state.
- `withTransaction` is modelled as saving the tables and restoring them on a failure.
- Read-only transactions take a snapshot of the tables as parameters.
- DAO `@Query` lookups are searches over the table.
- The two-account vararg insert of the first run (db/FSDao.kt:62) is two single inserts.
- A Room exception is an `Option`/`Result` failure, and exception messages are error kinds.
- BigDecimal arithmetic is done on the exact real values. Balances and traces are reals, and the scale of a sum is not modelled. Scale is modelled where the source compares with `== BigDecimal.ZERO` or counts decimal places.
- `System.currentTimeMillis()` is a `now` parameter. One reading serves every bill of a checkout.
- Flush, UpdateConsumption and SubmitConsumptions require the consumptions to be distinct objects. The same consumption listed twice (aliasing) is not modelled.
- `isBlank` uses a fixed set of whitespace characters.
- These are not modelled:
  - the UI-only fields of a consumption and its `needAdd`/`markNeedAdd` flag;
  - the unused `genPreviewInfo` stub;
  - `MassageService.hashCode`;
  - the JSON list converters;
  - the composables.
- The CardType table is not modelled. Its rows are passed to `LedgerQueries.FindCardType` as a sequence.
- `insertMassageService` is a plain Room insert without constraints and is not modelled. The services table is carried unchanged.
- `checkDBHealthy` in the source reads a cached flow of all accounts. The model reads the table directly.
- The `dedup` index set of the ranking loops is declared and never filled, so its test is always false. The loop `Ranking.SelectTop` keeps that always-false test as written; the reference walk `Ranking.Admit` omits it. Duplicates are excluded by the `finalRes.contains` check, as in the source.
- Money.StrippedScale: reports a negative stripped scale as 0, which is all the comparison with 2 needs.
