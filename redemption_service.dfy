/** The redemption service object of backend/services/redemption_service.py
    and the settlement log it appends to (backend/storage/redemption_store.py),
    proved to behave as the definitions in module Redemption say. */
module RedemptionServices {
  import opened Wrappers
  import opened Text
  import opened HouseholdModel
  import opened Counters
  import opened Households
  import opened Merchants
  import opened Redemption

  /** `str(n)` for a drawn code. */
  function CodeFor(n: int): string {
    IntToString(n)
  }

  /** Six decimal digits reading as a number in [100000, 999999]. */
  predicate IsCode(s: string) {
    |s| == 6 && AllDigits(s) && 100000 <= ParseDigits(s) <= 999999
  }

  lemma CodeShape(n: int)
    requires 100000 <= n <= 999999
    ensures IsCode(CodeFor(n))
  {
    assert Pow10(5) == 100000 && Pow10(6) == 1000000;
    NatToStringLength(n, 6);
    ParseNatToString(n);
  }

  /** Distinct draws give distinct codes. */
  lemma CodesDistinct(a: int, b: int)
    ensures a != b ==> CodeFor(a) != CodeFor(b)
  {
    IntToStringInjective(a, b);
  }

  /** The settlement log: the rows appended so far, oldest first. */
  class RedemptionStore {
    var rows: seq<SettlementRow>

    constructor (rows: seq<SettlementRow>)
      ensures this.rows == rows
    {
      this.rows := rows;
    }

    /** `append_row`. */
    method AppendRow(row: SettlementRow)
      modifies this
      ensures rows == old(rows) + [row]
    {
      rows := rows + [row];
    }
  }

  class RedemptionService {
    const households: HouseholdService
    const householdStore: HouseholdStore
    const merchants: MerchantService
    const counters: CounterStore
    const log: RedemptionStore
    /** `pending_codes`: code to pending entry. */
    var pending: map<string, PendingCode>
    /** `code_ttl_seconds`. */
    const ttl: int

    constructor (households: HouseholdService, householdStore: HouseholdStore, merchants: MerchantService,
                 counters: CounterStore, log: RedemptionStore, pending: map<string, PendingCode>, ttl: int)
      ensures this.households == households && this.householdStore == householdStore
      ensures this.merchants == merchants && this.counters == counters && this.log == log
      ensures this.pending == pending && this.ttl == ttl
    {
      this.households := households;
      this.householdStore := householdStore;
      this.merchants := merchants;
      this.counters := counters;
      this.log := log;
      this.pending := pending;
      this.ttl := ttl;
    }

    /** The state `redeem` works on. */
    function Snapshot(): World
      reads this, households, householdStore, counters, log
    {
      World(households.byId, householdStore.records, pending, counters.file, log.rows)
    }

    /** `generate_code`: refuse an unknown household or a selection its
        wallet does not cover; otherwise store the first drawn code not
        already pending, stamped with `now`. The draws stand for the
        successive values of `random.randint(100000, 999999)`. */
    method GenerateCode(householdId: string, sel: Selection, now: int, draws: seq<int>) returns (r: Result<string>)
      requires forall i :: 0 <= i < |draws| ==> 100000 <= draws[i] <= 999999
      requires exists i :: 0 <= i < |draws| && CodeFor(draws[i]) !in pending
      modifies this
      ensures householdId !in households.byId ==>
                r == Err(ValueError(MsgNoHousehold)) && pending == old(pending)
      ensures householdId in households.byId && !HasSufficient(households.byId[householdId].vouchers, sel) ==>
                r == Err(ValueError(MsgInsufficient)) && pending == old(pending)
      ensures householdId in households.byId && HasSufficient(households.byId[householdId].vouchers, sel) ==>
                && r.Ok? && IsCode(r.value) && r.value !in old(pending)
                && pending == old(pending)[r.value := PendingCode(householdId, sel, Some(now))]
                && exists k :: 0 <= k < |draws| && r.value == CodeFor(draws[k])
                               && forall j :: 0 <= j < k ==> CodeFor(draws[j]) in old(pending)
    {
      var found := households.GetHousehold(householdId);
      if found.None? {
        return Err(ValueError(MsgNoHousehold));
      }
      if !HasSufficient(found.value.vouchers, sel) {
        return Err(ValueError(MsgInsufficient));
      }
      var k := 0;
      while CodeFor(draws[k]) in pending
        invariant 0 <= k < |draws|
        invariant forall j :: 0 <= j < k ==> CodeFor(draws[j]) in pending
        invariant exists i :: k <= i < |draws| && CodeFor(draws[i]) !in pending
        decreases |draws| - k
      {
        k := k + 1;
      }
      var code := CodeFor(draws[k]);
      CodeShape(draws[k]);
      pending := pending[code := PendingCode(householdId, sel, Some(now))];
      r := Ok(code);
    }

    /** `_deduct_from_household` on the indexed household `hid`: the
        household in the index is changed in place, also when the deduction
        fails part-way. */
    method DeductFromHousehold(hid: string, sel: Selection, total: int) returns (err: Option<Failure>)
      requires hid in households.byId
      modifies households
      ensures households.byId == old(households.byId)[hid := Deduct(old(households.byId[hid]), sel, total).0]
      ensures err == Deduct(old(households.byId[hid]), sel, total).1
    {
      ghost var h0 := households.byId[hid];
      for i := 0 to |sel|
        invariant hid in households.byId
        invariant households.byId == old(households.byId)[hid := h0.(vouchers := households.byId[hid].vouchers)]
        invariant DeductLines(h0.vouchers, sel) == DeductLines(households.byId[hid].vouchers, sel[i..])
      {
        assert sel[i..][1..] == sel[i + 1..];
        var h := households.byId[hid];
        var denom := sel[i].denom;
        var qty := sel[i].qty;
        if Count(h.vouchers, denom) < qty {
          return Some(ValueError("Insufficient vouchers during deduction."));
        }
        if denom !in h.vouchers {
          return Some(KeyError(denom));
        }
        households.byId := households.byId[hid := h.(vouchers := h.vouchers[denom := h.vouchers[denom] - qty])];
      }
      assert sel[|sel|..] == [];
      var h := households.byId[hid];
      h := h.(balance := h.balance - total);
      households.byId := households.byId[hid := h];
      if h.balance < 0 {
        return Some(ValueError("Balance cannot go negative."));
      }
      err := None;
    }

    /** The inner settlement loop of `redeem`: `n` rows of `denom`, each
        with the next voucher code, the running counter as its remark and
        "Final denomination used" where the counter reaches the number of
        items. */
    method WriteLine(ctx: RowContext, denom: int, n: nat, counter: int) returns (next: int)
      requires VoucherOf(counters.file) == ctx.serialBase + counter - 1
      modifies counters, log
      ensures log.rows == old(log.rows) + RowsOf(ctx, LineSlots(denom, n, counter))
      ensures counters.file == AfterVouchers(old(counters.file), n)
      ensures next == counter + n
    {
      next := counter;
      ghost var f0 := counters.file;
      for j := 0 to n
        invariant next == counter + j
        invariant log.rows == old(log.rows) + RowsOf(ctx, LineSlots(denom, j, counter))
        invariant counters.file == AfterVouchers(f0, j)
      {
        var voucherCode := counters.NextVoucherCode();
        AfterVouchersSpec(f0, j + 1);
        assert voucherCode == VoucherCode(ctx.serialBase + next);
        var remark := IntToString(next);
        if next == ctx.totalItems {
          remark := "Final denomination used";
        }
        assert remark == Remark(next, ctx.totalItems);
        var row := SettlementRow(ctx.transactionId, ctx.householdId, ctx.merchantId, ctx.time,
                                 voucherCode, denom, ctx.total, "Completed", remark);
        assert row == RowAt(ctx, denom, next);
        LineSlotsSnoc(denom, j, counter);
        RowsOfAppend(ctx, LineSlots(denom, j, counter), [Slot(denom, counter + j)]);
        log.AppendRow(row);
        next := next + 1;
      }
    }

    /** One turn of the outer settlement loop: the rows of batch `i`. */
    method WriteBatch(ctx: RowContext, ghost f1: Stored, ghost start: seq<SettlementRow>, ghost bs: seq<Batch>,
                      i: nat, denom: int, n: nat, counter: int) returns (next: int)
      requires i < |bs| && bs[i] == Batch(denom, n)
      requires VoucherOf(f1) == ctx.serialBase
      requires counter == 1 + BatchUnits(bs[..i])
      requires log.rows == start + RowsOf(ctx, BatchSlots(bs[..i], 1))
      requires counters.file == AfterVouchers(f1, counter - 1)
      modifies counters, log
      ensures next == 1 + BatchUnits(bs[..i + 1])
      ensures log.rows == start + RowsOf(ctx, BatchSlots(bs[..i + 1], 1))
      ensures counters.file == AfterVouchers(f1, next - 1)
    {
      AfterVouchersSpec(f1, counter - 1);
      AfterVouchersAdd(f1, counter - 1, n);
      RowsStep(ctx, start, bs, i);
      next := WriteLine(ctx, denom, n, counter);
    }

    /** The settlement loops of `redeem`: the rows of each selected line in
        turn, the counter running on from line to line. */
    method WriteRows(txId: string, hid: string, mid: string, now: int, total: int, sel: Selection)
      modifies counters, log
      ensures log.rows == old(log.rows)
                + Rows(RowContext(txId, hid, mid, now, total, TotalItems(sel), VoucherOf(old(counters.file))), sel, 1)
      ensures counters.file == AfterVouchers(old(counters.file), SumUnits(sel))
    {
      var ctx := RowContext(txId, hid, mid, now, total, TotalItems(sel), VoucherOf(counters.file));
      var counter := 1;
      ghost var f1 := counters.file;
      ghost var bs := Batches(sel);
      for i := 0 to |sel|
        invariant counter == 1 + BatchUnits(bs[..i])
        invariant log.rows == old(log.rows) + RowsOf(ctx, BatchSlots(bs[..i], 1))
        invariant counters.file == AfterVouchers(f1, counter - 1)
      {
        var denom := Denom(sel[i]);
        var n := Units(sel[i].qty);
        counter := WriteBatch(ctx, f1, old(log.rows), bs, i, denom, n, counter);
      }
      assert bs[..|sel|] == bs;
      BatchUnitsSum(sel);
    }

    /** `redeem(merchant_id, code)` at time `now`. */
    method Redeem(merchantId: string, code: string, now: int) returns (r: Result<Receipt>)
      modifies this, households, householdStore, counters, log
      ensures (Snapshot(), r) == RedeemSpec(old(Snapshot()), merchants.byId, merchantId, code, now, ttl)
    {
      var mid := Strip(merchantId);
      var c := Strip(code);
      if mid == "" || c == "" {
        return Err(ValueError(MsgRequired));
      }
      if mid !in merchants.byId {
        return Err(ValueError(MsgInvalidMerchant));
      }
      var merchant := merchants.byId[mid];
      if Lower(Strip(merchant.status)) != "active" {
        return Err(ValueError(MsgInactive));
      }
      if c !in pending {
        return Err(ValueError(MsgInvalidCode));
      }
      var txn := pending[c];
      if txn.createdAt.Some? && now > txn.createdAt.value + ttl {
        pending := pending - {c};
        return Err(ValueError(MsgExpired));
      }
      var hid := Strip(txn.householdId);
      var sel := txn.vouchers;
      if hid == "" {
        return Err(ValueError(MsgCorrupted));
      }
      var found := households.GetHousehold(hid);
      if found.None? {
        return Err(ValueError(MsgNoHousehold));
      }
      if !HasSufficient(found.value.vouchers, sel) {
        return Err(ValueError(MsgInsufficient));
      }
      var computed := ComputeTotal(sel);
      if computed.Err? {
        return Err(computed.failure);
      }
      var total := computed.value;
      if total <= 0 {
        return Err(ValueError(MsgNonPositive));
      }
      ghost var w := old(Snapshot());
      assert RedeemCheck(w, merchants.byId, merchantId, code, now, ttl) == Go(mid, c, hid, found.value, sel, total);

      var err := DeductFromHousehold(hid, sel, total);
      if err.Some? {
        return Err(err.value);
      }
      var updated := households.byId[hid];
      householdStore.Save(updated);

      var txId := counters.NextTransactionId();
      WriteRows(txId, hid, mid, now, total, sel);
      pending := pending - {c};
      r := Ok(Receipt(txId, hid, mid, total, updated.balance));
    }
  }
}
