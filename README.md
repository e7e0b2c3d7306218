# Voucher redemption-code protocol — a Dafny model

This project models the core of a community-voucher back end.

- A household asks for a six-digit **redemption code** against a selection of voucher denominations (`generate_code`).
- A merchant later presents the code (`redeem`). The service checks, in order:
  1. the request;
  2. the merchant and its active status;
  3. the code and its time-to-live;
  4. the household;
  5. voucher sufficiency;
  6. a positive total.
- It then deducts vouchers and balance and saves the household. It allocates one transaction id and writes one settlement row per voucher unit, each with a fresh voucher serial. Finally it deletes the code.

Around that protocol sit:

- the household wallet index and household registration;
- the merchant registry, with required-field, UEN and bank/branch validation;
- the persistent transaction and voucher-serial counters;
- the bank-code table;
- the household dictionary form and the merchant CSV row;
- an alternative per-voucher reservation design. It has voucher states AVAILABLE/RESERVED, reservation states ACTIVE/EXPIRED, a lazy expiry sweep, a balance enquiry, a sorted listing and the locking of a deduplicated selection.

Each stateful component is a `class` whose fields hold the in-memory dictionaries as `map`s. The files (household JSON, merchant file, settlement log, counters file) become `map` or `seq` fields. Each operation is a `method` whose `ensures` gives its whole new state and its result.

The redemption protocol is proved against a pure specification. `Redemption.RedeemSpec` maps a snapshot of every piece of state it touches (a `World`) to the next snapshot and the result. The promised properties are lemmas about that function:

- the ordered error chain;
- the TTL boundary;
- the wallet arithmetic;
- the shape of the settlement log;
- single use of a code.

The enquiry service is proved the same way, against `EnquirySpec`.

Modules, one per source component:

| module | file | models |
|---|---|---|
| `Wrappers` | wrappers.dfy | `Option`, `Result`, and the Python exceptions raised (`ValueError`, `KeyError`, `TypeError`) |
| `Text` | text.dfy | `str.strip`, `str.lower`, `str(int)`, `int(str)`, `:07d` zero padding |
| `HouseholdModel` | household.dfy | `Household`, `to_dict`, `from_dict` |
| `MerchantModel` | merchant.dfy | `Merchant`, `to_csv_row`, the merchant file header |
| `Counters` | counter_store.dfy | `CounterStore` |
| `BankCodes` | bankcode_store.dfy | `BankCodeStore` |
| `Households` | household_service.dfy | `HouseholdService`, the household file |
| `Merchants` | merchant_service.dfy | `MerchantService`, the merchant file |
| `Redemption` | redemption.dfy | selections, sufficiency, totals, deduction, settlement rows, `RedeemSpec` |
| `RedemptionServices` | redemption_service.dfy | `RedemptionService`, the settlement log |
| `VoucherStore` | enquiry_store.dfy | `Voucher`, `Reservation`, `MemoryStore` |
| `EnquirySpec` | enquiry_spec.dfy | sweep, aggregation, ordering, dedup, validation, locking, seeding |
| `Enquiry` | enquiry_service.dfy | `EnquiryService` |

The code and its design notes disagree in a few places. The model follows the code:

- **Two TTL tests.** A redemption code expires only when `now > created + ttl`, so it is still accepted at the boundary. A reservation is swept when `t >= expires_at`.
- **No balance invariant.** Registration sets balance 800 with vouchers worth 770 (80×2 + 32×5 + 45×10). The model assumes no balance/voucher invariant.
- **Negative quantities.** They pass the sufficiency check. A line with quantity -1 writes no rows but still lowers the item count, so the "Final denomination used" remark lands early and the amount printed on each row ($15) falls short of the rows' denominations ($20). The deduction then adds a voucher (`Redemption.NegativeQuantityRows`, `Redemption.NegativeQuantityDeduction`).
- **Partial deduction.** The deduction loop indexes the wallet directly. A selected denomination the wallet lacks, with quantity ≤ 0, raises `KeyError` after earlier lines were already deducted. Nothing is rolled back, and the code stays pending (`Redemption.MissingDenominationKeyError` exhibits it).
- **Negative balance.** A balance driven negative is likewise left in place when the error is raised.

## Model

| member | source | states |
|---|---|---|
| Text.StripSpec | backend/services/redemption_service.py:68-69 | `strip()` returns the infix of `s` that neither starts nor ends with whitespace and outside of which `s` is all whitespace (the characters `str.isspace()` accepts) |
| Text.StripEmptyIffBlank | backend/services/redemption_service.py:71-72 | a string strips to empty exactly when it is all whitespace |
| Text.StripIdempotent | backend/storage/bankcode_store.py:28 | stripping twice equals stripping once |
| Text.LowerIsActive | backend/services/redemption_service.py:79 | a string lower-cases to "active" exactly when it spells "active" in any mix of cases |
| Text.LowerIdempotent | backend/services/redemption_service.py:79 | lower-casing twice equals lower-casing once |
| Text.ParseNatToString | backend/storage/counter_store.py:52 | the decimal text of a natural is all digits and parses back to it |
| Text.NatToStringInjective | backend/storage/counter_store.py:52 | distinct numbers have distinct decimal texts |
| Text.IntToStringInjective | backend/storage/counter_store.py:52 | `str(i)` is injective on all integers, negatives included |
| Text.ParseIntToString | backend/services/redemption_service.py:166 | `int(str(i)) == i` for every integer |
| Text.InvalidLiteral | backend/services/redemption_service.py:166 | the `ValueError` message of `int()` starts with its fixed prefix, and the quoted argument after it is never longer than 200 characters |
| Text.ReprPlain | backend/services/redemption_service.py:166 | printable ASCII without quote or backslash is shown unchanged between single quotes |
| Text.ReprPrintable | backend/services/redemption_service.py:166 | no character up to U+00FF that Python counts as unprintable (controls, DEL, no-break space, soft hyphen) is left in a `repr`; each becomes an escape |
| Text.InvalidLiteralQuote | backend/services/redemption_service.py:166 | a key holding a single quote and no double quote is shown in double quotes |
| Text.InvalidLiteralNewline | backend/services/redemption_service.py:166 | a newline in a key is shown as the escape `\n` |
| Text.InvalidLiteralBothQuotes | backend/services/redemption_service.py:166 | a key holding both quotes keeps single quotes and escapes its own |
| Text.ParseIntSeparators | backend/services/redemption_service.py:166 | `int()` skips a no-break or ideographic space around the digits but rejects a leading file separator, which `strip()` removes |
| Text.ZeroPadValue | backend/storage/counter_store.py:58 | `:07d` of a non-negative number is all digits and parses back to it; a negative one is "-" followed by the padded digits of its magnitude |
| Text.ZeroPadLength | backend/storage/counter_store.py:58 | a natural below 10^width pads to exactly `width` digits |
| Text.ZeroPadInjective | backend/storage/counter_store.py:58 | zero padding to a fixed width is injective |
| HouseholdModel.ToDict | backend/models/household.py:16-18 | `to_dict` yields exactly the six field keys |
| HouseholdModel.FromDict | backend/models/household.py:20-30 | a missing balance, vouchers or link (first in that order) is a `KeyError`; the result is `Ok` exactly when those keys are present and every field has its type; then every field is the dictionary's value, postal code and unit default to "", and the id is `household_id or id` |
| HouseholdModel.RoundTrip | backend/models/household.py:16-30 | `from_dict(to_dict(h)) == h` for every household with a non-empty id |
| HouseholdModel.EmptyIdLost | backend/models/household.py:24 | a household with an empty id does not survive the round trip |
| HouseholdModel.LegacyIdFallback | backend/models/household.py:24 | with `household_id` missing or empty, the id is taken from `id` |
| MerchantModel.ToCsvRow | backend/models/merchant.py:27-40 | the row has exactly 10 values, and position i holds, verbatim, the field the header's column i names |
| MerchantModel.ToCsvRowInjective | backend/models/merchant.py:27-40 | distinct merchants give distinct rows (no field is lost or reformatted) |
| Counters.CounterStore.constructor | backend/storage/counter_store.py:27-34 | a store without a file starts at tx 1000 and v 0 |
| Counters.CounterStore.NextTransactionId | backend/storage/counter_store.py:48-52 | tx rises by exactly one, v is unchanged, and the id is "TX" + the new tx |
| Counters.CounterStore.NextVoucherCode | backend/storage/counter_store.py:54-58 | v rises by exactly one, tx is unchanged, and the code is "V" + the new v padded to 7 digits |
| Counters.AfterTxSpec | backend/storage/counter_store.py:36-52 | the rewritten tx is one more than tx as read (1000 for an unreadable file or a missing key); v as read is unchanged |
| Counters.AfterVoucherSpec | backend/storage/counter_store.py:36-58 | the rewritten v is one more than v as read (0 when unreadable or missing); tx as read is unchanged |
| Counters.AfterVouchersSpec | backend/storage/counter_store.py:54-58 | n voucher allocations add n to v and leave tx alone |
| Counters.AfterTxsSpec | backend/storage/counter_store.py:48-52 | n transaction allocations add n to tx and leave v alone |
| Counters.TransactionIdsDistinct | backend/storage/counter_store.py:50-52 | successive transaction ids from one store never repeat |
| Counters.VoucherCodesDistinct | backend/storage/counter_store.py:56-58 | successive voucher codes from one store never repeat |
| Counters.FirstIds | backend/storage/counter_store.py:27-58 | from a fresh store the first ids are "TX1001" and "V0000001" |
| BankCodes.LoadedPairsSpec | backend/storage/bankcode_store.py:14-24 | a pair is loaded exactly when some row has it as its stripped, both-non-empty bank and branch codes |
| BankCodes.LoadedPairsStripped | backend/storage/bankcode_store.py:21-24 | every loaded pair consists of non-empty, already stripped codes |
| BankCodes.BankCodeStore.Load | backend/storage/bankcode_store.py:14-24 | after `load` the pair set is exactly the rows' pairs (earlier pairs cleared) |
| BankCodes.BankCodeStore.IsValidSpec | backend/storage/bankcode_store.py:26-28 | `is_valid(b, r)` holds iff some row contributes `(strip(b), strip(r))`, and is insensitive to surrounding whitespace |
| Households.HouseholdIdShape | backend/services/household_service.py:22-30 | an id drawn from [100000, 999999] is "H" followed by six digits |
| Households.IndexedLoaded | backend/services/household_service.py:16-20 | after bootstrap each loaded household is indexed under its id (the last one wins) |
| Households.IndexedUntouched | backend/services/household_service.py:16-20 | entries whose id no loaded household has are unchanged |
| Households.IndexedKeys | backend/services/household_service.py:16-20 | every new key comes from a loaded household |
| Households.HouseholdStore.Save | backend/storage/household_store.py:33-38 | saving upserts the household under its id |
| Households.HouseholdService.Bootstrap | backend/services/household_service.py:16-20 | the index becomes the old index updated with each loaded household in turn |
| Households.HouseholdService.GenerateHouseholdId | backend/services/household_service.py:22-30 | the id is the first drawn candidate not already indexed, and it has the household-id form |
| Households.HouseholdService.RegisterHousehold | backend/services/household_service.py:32-66 | a blank address fails with "Address is required." and changes nothing; otherwise a fresh id with balance 800, vouchers {"2":80,"5":32,"10":45} and the claim link, indexed, retrievable and saved, with every other household unchanged |
| Households.HouseholdService.DeductBalance | backend/services/household_service.py:75-91 | unknown id fails with "Household not found", `balance < amount` fails with "Insufficient balance", both changing nothing; otherwise only that household's balance drops by `amount`, stays non-negative, and is saved |
| Households.RegisterAsWrittenRaises | backend/services/household_service.py:54-60 | as written, every non-blank address ends in a `TypeError` for the unexpected `address` keyword |
| Merchants.FirstMissingSpec | backend/services/merchant_service.py:63-65 | no field is reported iff none is blank; otherwise the reported key is the first blank one in list order |
| Merchants.StatusOfSpec | backend/services/merchant_service.py:91 | status is the stripped input, "Active" when absent or blank, never empty |
| Merchants.RefusalSpec | backend/services/merchant_service.py:54-77 | a payload is refused iff a required field is blank, the UEN is taken, or the stripped bank/branch pair is not loaded; a blank field is reported by the first one |
| Merchants.ShortIdShape | backend/services/merchant_service.py:35-36 | a short draw gives "M" + 4 digits |
| Merchants.LongIdShape | backend/services/merchant_service.py:40-41 | a fallback draw gives "M" + 6 digits |
| Merchants.MerchantIdsDistinct | backend/services/merchant_service.py:35-43 | short and long ids never collide, and distinct draws give distinct ids |
| Merchants.IndexedKeysSpec | backend/services/merchant_service.py:20-27 | after bootstrap a key is indexed iff it was before or some loaded merchant has it as a non-empty id (resp. UEN) |
| Merchants.IndexedValue | backend/services/merchant_service.py:23-27 | a loaded merchant with a non-empty key is indexed under it unless a later one shares the key |
| Merchants.IndexedUntouched | backend/services/merchant_service.py:20-27 | entries no loaded merchant shares are unchanged |
| Merchants.MerchantStore.Append | backend/storage/merchant_store.py:28-41 | appending writes the header first into an empty file, then the merchant's row |
| Merchants.MerchantService.Bootstrap | backend/services/merchant_service.py:20-27 | both indexes become the old indexes updated with each loaded merchant, skipping empty ids and UENs |
| Merchants.MerchantService.GenerateMerchantId | backend/services/merchant_service.py:29-43 | the id is the first free one among the 50 short draws, or else the first free fallback draw; it is unindexed and of merchant-id form |
| Merchants.MerchantService.FirstFreeShort | backend/services/merchant_service.py:35-38 | reports the first unindexed short id, or that all 50 are taken |
| Merchants.MerchantService.FirstFreeLong | backend/services/merchant_service.py:40-43 | returns the first unindexed fallback id |
| Merchants.MerchantService.FindMissing | backend/services/merchant_service.py:54-65 | reports exactly the first blank required field |
| Merchants.MerchantService.Screen | backend/services/merchant_service.py:54-77 | returns exactly the validation outcome: the first of missing field, UEN taken, invalid bank pair |
| Merchants.MerchantService.RegisterMerchant | backend/services/merchant_service.py:45-98 | a refused payload fails with its message and changes neither index nor the file; otherwise the new merchant holds the stripped fields, a fresh id, and is indexed by id and UEN and appended to the file, other entries unchanged |
| Merchants.MerchantService.Admit | backend/services/merchant_service.py:79-98 | builds the merchant from the stripped fields, appends it and indexes it under its id and UEN |
| Merchants.AcceptedFieldsFilled | backend/services/merchant_service.py:63-92 | an accepted payload has every required key and yields a merchant whose required fields are non-empty |
| Redemption.IsActiveSpec | backend/services/redemption_service.py:79-80 | a merchant passes the status check exactly when its stripped status spells "active" in any mix of cases |
| Redemption.HasSufficientSpec | backend/services/redemption_service.py:169-173 | sufficient iff every selected line's quantity is at most the wallet count, a missing denomination counting 0 |
| Redemption.HasSufficientIgnoresOthers | backend/services/redemption_service.py:169-173 | changing an unselected denomination does not change sufficiency |
| Redemption.ComputeTotalSpec | backend/services/redemption_service.py:163-167 | the total exists iff every denomination key parses as an integer; otherwise it fails on the first bad key with that key's `int()` error |
| Redemption.SeparatorKeyRejected | backend/services/redemption_service.py:163-167 | a key led by a file separator makes the total fail with that key's `ValueError`, even after a line that parses |
| Redemption.DeductLinesDone | backend/services/redemption_service.py:175-181 | a completed deduction keeps the wallet's keys and lowers each by the selected quantity |
| Redemption.DeductLinesErrors | backend/services/redemption_service.py:176-181 | for a sufficient selection the loop fails iff some selected denomination is missing from the wallet, with that key's `KeyError` |
| Redemption.DeductKeepsCountsNonNegative | backend/services/redemption_service.py:179-181 | a sufficient deduction leaves non-negative counts non-negative |
| Redemption.DeductMessages | backend/services/redemption_service.py:176-181 | the deduction loop fails only with its own two errors |
| Redemption.UnitsMatchItems | backend/services/redemption_service.py:123-128 | with non-negative quantities, the rows written number `total_items` |
| Redemption.RowsShape | backend/services/redemption_service.py:124-147 | one row per unit, the i-th with counter `start + i` |
| Redemption.RowsFacts | backend/services/redemption_service.py:126-147 | every row carries the transaction id, household, merchant, time, total and "Completed"; row i has voucher code serial+1+i and remark for counter i+1 |
| Redemption.FinalRemark | backend/services/redemption_service.py:131-133 | for non-negative quantities, exactly the last row reads "Final denomination used" |
| Redemption.RowsAddUpToTotal | backend/services/redemption_service.py:126-167 | for non-negative quantities, the rows' denominations add up to the computed total |
| Redemption.NegativeQuantityRows | backend/services/redemption_service.py:123-147 | for two $10 and minus one $5, two rows are written, both $10, and the first already reads "Final denomination used" |
| Redemption.NegativeQuantityDeduction | backend/services/redemption_service.py:176-181 | the same selection turns a wallet of two $10 and no $5 into no $10 and one $5, without error |
| Redemption.NegativeSelectionParses | backend/services/redemption_service.py:163-167 | the same selection totals $15 |
| Redemption.RedeemFailureKeepsFiles | backend/services/redemption_service.py:67-111 | a failed check changes no state except dropping an expired code; no failure saves, allocates or logs |
| Redemption.RedeemExpiry | backend/services/redemption_service.py:87-91 | for an otherwise valid request the result is "Code expired" iff the creation time is known and `now > created + ttl`, and then only the code is dropped |
| Redemption.IssuedCodeLifetime | backend/services/redemption_service.py:89 | a code issued at t is refused as expired iff `now > t + ttl` (still valid at the boundary) |
| Redemption.RedeemRechecksWallet | backend/services/redemption_service.py:104-106 | a selection the current wallet no longer covers is refused with "Insufficient vouchers." and nothing changes |
| Redemption.RedeemSuccessWallet | backend/services/redemption_service.py:109-185 | on success the amount is the positive total, balance drops by it, each denomination drops by its selected quantity, others unchanged, remaining balance is the new balance, and that household is saved |
| Redemption.RedeemSuccessLog | backend/services/redemption_service.py:120-147 | on success tx rises by one, the log grows by Σq rows after the old log, all with the receipt's id, household, merchant, amount and "Completed", and v rises by Σq |
| Redemption.RedeemSingleUse | backend/services/redemption_service.py:149-150 | after success the code is gone and presenting it again fails with "Invalid code." changing nothing |
| Redemption.MissingDenominationKeyError | backend/services/redemption_service.py:176-181 | a $10 + 0×$20 selection against a wallet without "20" fails with `KeyError("20")` after the $10 was deducted, and the code stays pending |
| RedemptionServices.CodeShape | backend/services/redemption_service.py:55-57 | a draw from [100000, 999999] gives a six-digit code |
| RedemptionServices.CodesDistinct | backend/services/redemption_service.py:55-57 | distinct draws give distinct codes |
| RedemptionServices.RedemptionStore.AppendRow | backend/storage/redemption_store.py:32 | the log grows by exactly that row |
| RedemptionServices.RedemptionService.GenerateCode | backend/services/redemption_service.py:40-65 | unknown household or insufficient vouchers fail with their messages and leave the codes unchanged; otherwise the first free drawn six-digit code is added with the household, selection and time, nothing else |
| RedemptionServices.RedemptionService.DeductFromHousehold | backend/services/redemption_service.py:175-185 | the household becomes the deduction's result, errors included (no rollback), and the error is the deduction's |
| RedemptionServices.RedemptionService.WriteLine | backend/services/redemption_service.py:128-147 | writes the rows of one selected line and advances the voucher counter by its quantity |
| RedemptionServices.RedemptionService.WriteRows | backend/services/redemption_service.py:120-147 | appends exactly the settlement rows of the selection and advances the voucher counter by Σq |
| RedemptionServices.RedemptionService.Redeem | backend/services/redemption_service.py:67-158 | the new state and result are those `RedeemSpec` gives, whose properties are the lemmas above |
| EnquirySpec.SweepLeavesNoneDue | backend/services/enquiry_service.py:47-56 | after a sweep no reservation is still active and due |
| EnquirySpec.SweepIdempotent | backend/services/enquiry_service.py:47-56 | sweeping twice at the same time equals sweeping once |
| EnquirySpec.SweepOnlyReleases | backend/services/enquiry_service.py:47-56 | a sweep changes a voucher only from RESERVED to AVAILABLE with no lock time, and only when a due reservation lists it |
| EnquirySpec.ReleaseAllTwice | backend/services/enquiry_service.py:52-56 | releasing two id sets in turn equals releasing their union |
| EnquirySpec.ValuesOfSpec | backend/services/enquiry_service.py:70-73 | the collected vouchers are exactly those under the chosen ids, one per id |
| EnquirySpec.DenomTotalUnion | backend/services/enquiry_service.py:62-64 | totals over disjoint id sets add |
| EnquirySpec.SplitDenomination | backend/services/enquiry_service.py:62-65 | the total is d times its count plus the total of the other denominations |
| EnquirySpec.BalanceIdentity | backend/services/enquiry_service.py:58-66 | the balance total equals Σ d × breakdown[d] |
| EnquirySpec.BreakdownCounts | backend/services/enquiry_service.py:65 | a denomination is in the breakdown iff some voucher has it, with a count between 1 and the number of vouchers |
| EnquirySpec.BreakdownAdd | backend/services/enquiry_service.py:65 | adding a voucher bumps its denomination's count by one |
| EnquirySpec.BeforeTransitive | backend/services/enquiry_service.py:74 | the sort key (descending denomination, then ascending id) is transitive |
| EnquirySpec.StrLessTotal | backend/services/enquiry_service.py:74 | ids compare totally |
| EnquirySpec.InsertSpec | backend/services/enquiry_service.py:74 | inserting into a sorted list keeps it sorted and adds exactly the element |
| EnquirySpec.SortByKeySpec | backend/services/enquiry_service.py:74 | the sort is a permutation and its result is sorted |
| EnquirySpec.SortedDistinctStrict | backend/services/enquiry_service.py:74 | in sorted output two different vouchers are strictly ordered by the key |
| EnquirySpec.DedupSpec | backend/services/enquiry_service.py:91-97 | dedup keeps exactly the input ids, each once, in first-occurrence order, and is non-empty for a non-empty input |
| EnquirySpec.ValidateSpec | backend/services/enquiry_service.py:99-108 | validation succeeds iff every id is known, owned by the household and AVAILABLE, and then the amount is the sum of their denominations |
| EnquirySpec.ValidateFirstFailure | backend/services/enquiry_service.py:99-107 | the failure is the message for the first unselectable id |
| EnquirySpec.LockSpec | backend/services/enquiry_service.py:117-120 | locked vouchers become RESERVED until the given time with every other field kept; other vouchers are unchanged |
| EnquirySpec.LockedNotSelectable | backend/services/enquiry_service.py:106-120 | a second selection that includes a locked voucher fails validation |
| EnquirySpec.SeedIdInjective | backend/services/enquiry_service.py:34 | seed ids `V{hh}-{i:04d}` are distinct for distinct i |
| EnquirySpec.SeededAt | backend/services/enquiry_service.py:31-41 | the i-th seeded id holds an AVAILABLE voucher of the household with the i-th planned denomination |
| EnquirySpec.SeededKeys | backend/services/enquiry_service.py:31-41 | every seeded id is one of `V{hh}-0001`… in sequence |
| EnquirySpec.PlanDenomsTotal | backend/services/enquiry_service.py:27-33 | the planned vouchers sum to the plan's total |
| EnquirySpec.DemoSeed | backend/services/enquiry_service.py:27-30 | entitlement 800 gives 60×10, 20×5 and 50×2, 130 vouchers totalling 800 |
| EnquirySpec.FallbackSeed | backend/services/enquiry_service.py:29-30 | any other entitlement gives `entitlement // 10` vouchers of 10 |
| VoucherStore.MemoryStore.constructor | backend/storage/memory_store.py:6-8 | a new store holds no vouchers and no reservations |
| Enquiry.EnquiryService.constructor | backend/services/enquiry_service.py:18-21 | the demo household "H1" is seeded only when the voucher map is empty |
| Enquiry.EnquiryService.SeedDemoHousehold | backend/services/enquiry_service.py:23-41 | the vouchers gain exactly the seeded ones for the plan, reservations unchanged |
| Enquiry.EnquiryService.CleanupExpired | backend/services/enquiry_service.py:47-56 | the new state is the sweep of the old state at t |
| Enquiry.EnquiryService.Aggregate | backend/services/enquiry_service.py:60-66 | total and breakdown are those of the household's AVAILABLE vouchers |
| Enquiry.EnquiryService.CollectAvailable | backend/services/enquiry_service.py:70-73 | the list holds exactly the household's AVAILABLE vouchers |
| Enquiry.EnquiryService.GetBalance | backend/services/enquiry_service.py:58-66 | sweeps, then returns the total and breakdown of the household's AVAILABLE vouchers |
| Enquiry.EnquiryService.ListAvailableVouchers | backend/services/enquiry_service.py:68-75 | sweeps, then returns exactly the household's AVAILABLE vouchers, sorted by descending denomination then ascending id |
| Enquiry.EnquiryService.DedupIds | backend/services/enquiry_service.py:91-97 | computes the first-occurrence deduplication |
| Enquiry.EnquiryService.CheckSelection | backend/services/enquiry_service.py:99-108 | computes the validation outcome and amount |
| Enquiry.EnquiryService.FreshNumber | backend/services/enquiry_service.py:110-112 | the first drawn redemption number not already used |
| Enquiry.EnquiryService.LockSelected | backend/services/enquiry_service.py:117-120 | locks exactly the selected vouchers |
| Enquiry.EnquiryService.CreateRedemptionCodeForSelection | backend/services/enquiry_service.py:77-132 | after the sweep: an empty list fails with "No vouchers selected"; an invalid selection fails with its message having locked nothing; otherwise a fresh number gets an ACTIVE reservation of the deduplicated ids with their summed amount, expiring at now + ttl, and exactly those vouchers are locked until then |

## Left out

- The Flask routes, the user interface and app wiring are not part of this model. Their HTTP bodies and status codes are not modelled.
- File I/O. The household JSON file is a `map` from id to household. The merchant file and the settlement log are `seq`s of rows. The counters file is the record it holds (`Counters.Stored`), with "unreadable" standing for missing, empty or non-JSON content. The hour-based naming of the settlement files is not modelled.
- Randomness. `random.randint` and `secrets.choice` are replaced by a caller-supplied sequence of draws. A `requires` says some draw is fresh, so the unbounded retry loops end at the first fresh draw. `FirstFreeLong` formats every fallback draw before scanning them; the source formats one per turn.
- Clocks. `datetime.now`, `now_utc` and `date.today` are parameters: integer seconds `now`/`t`, and the registration date `today`. `_extract_created_time` is abstracted to `Option<int>`: `None` when no creation time can be read, which makes the code never expire. ISO and digit-string parsing are left out. Each operation reads the clock once. `redeem` reads `datetime.now()` twice, for the expiry test (backend/services/redemption_service.py:89) and for the transaction time (line 121). `create_redemption_code_for_selection` reads `now_utc()` twice, for the sweep (backend/services/enquiry_service.py:48) and for `created` (line 114). The model uses one `now` for both reads, so a clock that moves between them is not modelled.
- Formatting. Settlement rows hold denomination and total as integers, not "$X.00", and the transaction time as integer seconds, not "%Y%m%d%H%M%S".
- Text. `lower()` is modelled on ASCII letters only; other characters are left as they are. No other character lower-cases to a single letter of "active", so the status check is unaffected. `int()` does not accept underscores or Unicode digits.
- Messages. `repr` in the `int()` message escapes the unprintable characters up to U+00FF as Python does. Unprintable characters above U+00FF are kept as they are, where Python writes a `\u` or `\U` escape, since that needs Unicode's printability table. The dataclass's missing-argument `TypeError` message does not list the missing fields. Registration as written never reaches it, because the unexpected keyword is reported first.
- Payload values. Values in a merchant payload are strings; `str()` of non-string values is not modelled. A `None` merchant id or code is taken as "".
- Selection quantities. They are integers. The source applies `int()` to each quantity, so a quantity given as the text "2" or the float 2.5 is converted, and text such as "x" raises a `ValueError` in the sufficiency check. Neither case is modelled; the callers pass integers.
- Typing. `HouseholdModel.FromDict` reports a value of the wrong JSON type as a `TypeError` instead of storing it untyped.
- Mutation and aliasing:
  - In-place mutation of a household, voucher or reservation object is a write-back of the changed record into its map.
  - The selection dictionary is copied into the pending code, not shared.
  - Python dict iteration order is the order of the model's sequences (selection lines, loaded rows). Where the source iterates a dict it mutates, the model picks keys in any order and proves the result independent of that order.
- The corrected registration (see Findings) follows the address-based signature and its test (backend/tests/test_household_registration.py:24-27). It stores "" as postal code and unit number, since it receives only an address; the address itself is checked and then dropped. The other callers' keyword form (`household_id`, `postal_code`, `unit_number`) is not modelled.
- `deduct_balance` checks only that the balance covers the amount. It does not reject a negative amount, and neither does the model.
- The enquiry service imports from a `server.` package and is not wired to the redemption service. It is modelled as its own component on its own `MemoryStore`.

## Findings

| source | as written | input that shows it | evidently intended | confidence | as-written member | corrected member |
|---|---|---|---|---|---|---|
| backend/services/household_service.py:54-60 | `register_household` builds `Household(household_id=…, address=…, balance=…, vouchers=…, link=…)`, but the dataclass (backend/models/household.py:9-14) has no `address` field and needs `postal_code` and `unit_number`. Its other two callers (backend/app.py:83-87, backend/tests/test_redemption.py:120-124) call it as `register_household(household_id=…, postal_code=…, unit_number=…)`, which raises `TypeError` for `household_id` before the body runs | any non-blank address, e.g. "1 Main St" | register a household with a fresh id, the $800 entitlement and the claim link, indexed and saved, as the address-based test expects; the model follows that signature and stores "" as postal code and unit number | not executed | Households.RegisterAsWrittenRaises | Households.HouseholdService.RegisterHousehold |
