/** The redemption-code protocol of backend/services/redemption_service.py
    as pure definitions: the selection checks, the total, the deduction as
    written, the settlement rows, and the whole of `redeem` as a function of
    the state it reads and writes. The service class in
    redemption_service.dfy is proved to behave as these functions say. */
module Redemption {
  import opened Wrappers
  import opened Text
  import opened HouseholdModel
  import opened MerchantModel
  import opened Counters

  /** One entry of a selection: a denomination key ("10") and the number of
      vouchers of it to spend. */
  datatype Line = Line(denom: string, qty: int)

  /** A selection, in the insertion order of the dictionary it stands for. */
  type Selection = seq<Line>

  /** A dictionary has one entry per key. */
  predicate DistinctDenoms(sel: Selection) {
    forall i, j :: 0 <= i < j < |sel| ==> sel[i].denom != sel[j].denom
  }

  /** An entry of `pending_codes`. The creation time is `None` when the
      stored timestamp cannot be read. */
  datatype PendingCode = PendingCode(householdId: string, vouchers: Selection, createdAt: Option<int>)

  /** `wallet.get(key, 0)`. */
  function Count(w: Wallet, key: string): int {
    if key in w then w[key] else 0
  }

  // -----------------------------------------------------------------------
  // _has_sufficient_vouchers
  // -----------------------------------------------------------------------

  /** `_has_sufficient_vouchers`: stop at the first line the wallet cannot
      cover. */
  function HasSufficient(w: Wallet, sel: Selection): bool {
    sel == [] || (Count(w, sel[0].denom) >= sel[0].qty && HasSufficient(w, sel[1..]))
  }

  /** The wallet covers the selection exactly when it covers every line,
      a missing denomination counting as none. */
  lemma {:induction false} HasSufficientSpec(w: Wallet, sel: Selection)
    ensures HasSufficient(w, sel) <==> forall i :: 0 <= i < |sel| ==> Count(w, sel[i].denom) >= sel[i].qty
  {
    if sel != [] {
      HasSufficientSpec(w, sel[1..]);
      assert forall i :: 1 <= i < |sel| ==> sel[i] == sel[1..][i - 1];
    }
  }

  /** Denominations the selection does not name play no part. */
  lemma HasSufficientIgnoresOthers(w: Wallet, sel: Selection, key: string, n: int)
    requires forall i :: 0 <= i < |sel| ==> sel[i].denom != key
    ensures HasSufficient(w[key := n], sel) == HasSufficient(w, sel)
  {
    HasSufficientSpec(w, sel);
    HasSufficientSpec(w[key := n], sel);
    assert forall i :: 0 <= i < |sel| ==> Count(w[key := n], sel[i].denom) == Count(w, sel[i].denom);
  }

  // -----------------------------------------------------------------------
  // _compute_total
  // -----------------------------------------------------------------------

  /** `_compute_total`: the sum of `int(denom) * qty`, or the ValueError of
      the first denomination `int` cannot read. */
  function ComputeTotal(sel: Selection): Result<int> {
    if sel == [] then Ok(0)
    else match ParseInt(sel[0].denom)
      case None => Err(ValueError(InvalidLiteral(sel[0].denom)))
      case Some(d) =>
        match ComputeTotal(sel[1..])
        case Err(f) => Err(f)
        case Ok(rest) => Ok(d * sel[0].qty + rest)
  }

  /** The value `int(denom)` gives, for a denomination that parses. */
  function Denom(l: Line): int {
    ParseInt(l.denom).GetOr(0)
  }

  /** The total fails exactly when some denomination does not parse, and
      then with the error of the first such one. */
  lemma {:induction false} ComputeTotalSpec(sel: Selection)
    ensures ComputeTotal(sel).Ok? <==> forall i :: 0 <= i < |sel| ==> ParseInt(sel[i].denom).Some?
    ensures ComputeTotal(sel).Err? ==>
              exists i :: 0 <= i < |sel| && ParseInt(sel[i].denom).None?
                          && ComputeTotal(sel).failure == ValueError(InvalidLiteral(sel[i].denom))
                          && forall j :: 0 <= j < i ==> ParseInt(sel[j].denom).Some?
  {
    if sel != [] {
      var rest := sel[1..];
      ComputeTotalSpec(rest);
      assert forall i :: 1 <= i < |sel| ==> sel[i] == rest[i - 1];
      if ParseInt(sel[0].denom).Some? && ComputeTotal(rest).Err? {
        var i :| 0 <= i < |rest| && ParseInt(rest[i].denom).None?
                 && ComputeTotal(rest).failure == ValueError(InvalidLiteral(rest[i].denom))
                 && forall j :: 0 <= j < i ==> ParseInt(rest[j].denom).Some?;
        assert sel[i + 1] == rest[i];
        forall j | 0 <= j < i + 1
          ensures ParseInt(sel[j].denom).Some?
        {
          if j > 0 {
            assert sel[j] == rest[j - 1];
          }
        }
      }
    }
  }

  // -----------------------------------------------------------------------
  // _deduct_from_household, as written
  // -----------------------------------------------------------------------

  /** The deduction loop over the wallet: a line the wallet cannot cover
      raises, and a line whose denomination is absent from the wallet raises
      a KeyError at `vouchers[denom] -= qty`. The wallet returned is the one
      reached when the loop stopped: earlier lines stay deducted. */
  function DeductLines(w: Wallet, sel: Selection): (Wallet, Option<Failure>) {
    if sel == [] then (w, None)
    else
      var l := sel[0];
      if Count(w, l.denom) < l.qty then (w, Some(ValueError("Insufficient vouchers during deduction.")))
      else if l.denom !in w then (w, Some(KeyError(l.denom)))
      else DeductLines(w[l.denom := w[l.denom] - l.qty], sel[1..])
  }

  /** `_deduct_from_household`: the vouchers, then the balance; the balance
      check comes after the subtraction, so a failing household is returned
      already changed. */
  function Deduct(h: Household, sel: Selection, total: int): (Household, Option<Failure>) {
    var (w, err) := DeductLines(h.vouchers, sel);
    if err.Some? then (h.(vouchers := w), err)
    else
      var h2 := h.(vouchers := w, balance := h.balance - total);
      if h2.balance < 0 then (h2, Some(ValueError("Balance cannot go negative."))) else (h2, None)
  }

  /** How many vouchers of `key` the selection spends. */
  function QtyOf(sel: Selection, key: string): int {
    if sel == [] then 0
    else (if sel[0].denom == key then sel[0].qty else 0) + QtyOf(sel[1..], key)
  }

  /** A denomination the selection does not name is not spent. */
  lemma {:induction false} QtyOfAbsent(sel: Selection, key: string)
    requires forall i :: 0 <= i < |sel| ==> sel[i].denom != key
    ensures QtyOf(sel, key) == 0
  {
    if sel != [] {
      assert forall i :: 0 <= i < |sel[1..]| ==> sel[1..][i] == sel[i + 1];
      QtyOfAbsent(sel[1..], key);
    }
  }

  /** With one entry per key, a named denomination is spent by exactly its
      quantity. */
  lemma {:induction false} QtyOfDistinct(sel: Selection, i: nat)
    requires i < |sel| && DistinctDenoms(sel)
    ensures QtyOf(sel, sel[i].denom) == sel[i].qty
  {
    var rest := sel[1..];
    assert forall j :: 0 <= j < |rest| ==> rest[j] == sel[j + 1];
    if i == 0 {
      QtyOfAbsent(rest, sel[0].denom);
    } else {
      QtyOfDistinct(rest, i - 1);
    }
  }

  /** When the deduction loop finishes, every selected denomination was in
      the wallet, no key was added or removed, and each count dropped by
      exactly what the selection spends of it. */
  lemma {:induction false} DeductLinesDone(w: Wallet, sel: Selection)
    requires DeductLines(w, sel).1 == None
    ensures forall i :: 0 <= i < |sel| ==> sel[i].denom in w
    ensures DeductLines(w, sel).0.Keys == w.Keys
    ensures forall k :: k in w ==> DeductLines(w, sel).0[k] == w[k] - QtyOf(sel, k)
  {
    if sel != [] {
      var l := sel[0];
      var w1 := w[l.denom := w[l.denom] - l.qty];
      var rest := sel[1..];
      DeductLinesDone(w1, rest);
      assert forall i :: 1 <= i < |sel| ==> sel[i] == rest[i - 1];
    }
  }

  /** On a covered selection with one entry per key, the "during deduction"
      check never fires: the loop fails only with a KeyError, exactly when
      some selected denomination is missing from the wallet (possible for a
      quantity of zero or less). */
  lemma {:induction false} DeductLinesErrors(w: Wallet, sel: Selection)
    requires DistinctDenoms(sel) && HasSufficient(w, sel)
    ensures DeductLines(w, sel).1 == None <==> forall i :: 0 <= i < |sel| ==> sel[i].denom in w
    ensures DeductLines(w, sel).1.Some? ==>
              exists i :: 0 <= i < |sel| && sel[i].denom !in w
                          && DeductLines(w, sel).1 == Some(KeyError(sel[i].denom))
  {
    if sel != [] {
      var l := sel[0];
      var rest := sel[1..];
      assert forall i :: 1 <= i < |sel| ==> sel[i] == rest[i - 1];
      if l.denom in w {
        var w1 := w[l.denom := w[l.denom] - l.qty];
        assert forall i :: 0 <= i < |rest| ==> rest[i].denom != l.denom;
        HasSufficientIgnoresOthers(w, rest, l.denom, w[l.denom] - l.qty);
        DeductLinesErrors(w1, rest);
        assert forall i :: 0 <= i < |rest| ==> (rest[i].denom in w1 <==> rest[i].denom in w);
      }
    }
  }

  /** With no quantity below zero, the counts of a covered selection stay
      non-negative after the deduction. */
  lemma DeductKeepsCountsNonNegative(w: Wallet, sel: Selection, k: string)
    requires DistinctDenoms(sel) && HasSufficient(w, sel)
    requires DeductLines(w, sel).1 == None
    requires k in w && w[k] >= 0
    ensures k in DeductLines(w, sel).0 && DeductLines(w, sel).0[k] >= 0
  {
    DeductLinesDone(w, sel);
    HasSufficientSpec(w, sel);
    if exists i :: 0 <= i < |sel| && sel[i].denom == k {
      var i :| 0 <= i < |sel| && sel[i].denom == k;
      QtyOfDistinct(sel, i);
    } else {
      QtyOfAbsent(sel, k);
    }
  }

  // -----------------------------------------------------------------------
  // Settlement rows
  // -----------------------------------------------------------------------

  /** One row of the settlement log. The transaction time, the
      denomination and the amount are kept as numbers; the file holds them
      formatted. */
  datatype SettlementRow = SettlementRow(
    transactionId: string,
    householdId: string,
    merchantId: string,
    time: int,
    voucherCode: string,
    denomination: int,
    amount: int,
    paymentStatus: string,
    remark: string)

  /** What every row of one redemption shares, and the voucher serial the
      counter stood at before its first row. */
  datatype RowContext = RowContext(
    transactionId: string,
    householdId: string,
    merchantId: string,
    time: int,
    total: int,
    totalItems: int,
    serialBase: int)

  /** `range(int(qty))` runs this many times. */
  function Units(q: int): nat {
    if q > 0 then q else 0
  }

  /** The number of rows a selection writes. */
  function SumUnits(sel: Selection): nat {
    if sel == [] then 0 else Units(sel[0].qty) + SumUnits(sel[1..])
  }

  /** `sum(int(q) for q in selected_vouchers.values())`. */
  function TotalItems(sel: Selection): int {
    if sel == [] then 0 else sel[0].qty + TotalItems(sel[1..])
  }

  lemma {:induction false} UnitsMatchItems(sel: Selection)
    requires forall i :: 0 <= i < |sel| ==> sel[i].qty >= 0
    ensures SumUnits(sel) == TotalItems(sel)
  {
    if sel != [] {
      assert forall i :: 0 <= i < |sel[1..]| ==> sel[1..][i] == sel[i + 1];
      UnitsMatchItems(sel[1..]);
    }
  }

  /** The remark of the row written when the running counter is `counter`. */
  function Remark(counter: int, totalItems: int): string {
    if counter == totalItems then "Final denomination used" else IntToString(counter)
  }

  /** The row written when the running counter is `counter`: the voucher
      counter has then advanced `counter` times since the redemption began. */
  function RowAt(ctx: RowContext, denom: int, counter: int): SettlementRow {
    SettlementRow(ctx.transactionId, ctx.householdId, ctx.merchantId, ctx.time,
                  VoucherCode(ctx.serialBase + counter), denom, ctx.total,
                  "Completed", Remark(counter, ctx.totalItems))
  }

  /** One voucher unit to be written: its denomination and the value of
      the running counter when it is written. */
  datatype Slot = Slot(denom: int, counter: int)

  /** The units of one line: `n` vouchers of `denom`. */
  function LineSlots(denom: int, n: nat, counter: int): seq<Slot> {
    if n == 0 then [] else [Slot(denom, counter)] + LineSlots(denom, n - 1, counter + 1)
  }

  /** The vouchers one selected line writes: its denomination and the
      number of rows. */
  datatype Batch = Batch(denom: int, n: nat)

  /** The batch of each line of a selection, in order. */
  function Batches(sel: Selection): seq<Batch> {
    seq(|sel|, i requires 0 <= i < |sel| => Batch(Denom(sel[i]), Units(sel[i].qty)))
  }

  /** The number of rows a sequence of batches writes. */
  function BatchUnits(bs: seq<Batch>): nat {
    if bs == [] then 0 else bs[0].n + BatchUnits(bs[1..])
  }

  /** The units of a sequence of batches, batch by batch, the counter
      starting at `counter`. */
  function BatchSlots(bs: seq<Batch>, counter: int): seq<Slot> {
    if bs == [] then []
    else LineSlots(bs[0].denom, bs[0].n, counter) + BatchSlots(bs[1..], counter + bs[0].n)
  }

  /** The units of a selection, line by line, the counter starting at
      `counter`. */
  function Slots(sel: Selection, counter: int): seq<Slot> {
    BatchSlots(Batches(sel), counter)
  }

  /** The row of each unit. */
  function RowsOf(ctx: RowContext, slots: seq<Slot>): seq<SettlementRow> {
    seq(|slots|, i requires 0 <= i < |slots| => RowAt(ctx, slots[i].denom, slots[i].counter))
  }

  /** The rows `redeem` writes for a selection. */
  function Rows(ctx: RowContext, sel: Selection, counter: int): seq<SettlementRow> {
    RowsOf(ctx, Slots(sel, counter))
  }

  lemma {:induction false} LineSlotsShape(denom: int, n: nat, counter: int)
    ensures |LineSlots(denom, n, counter)| == n
    ensures forall i :: 0 <= i < n ==> LineSlots(denom, n, counter)[i] == Slot(denom, counter + i)
  {
    if n > 0 {
      LineSlotsShape(denom, n - 1, counter + 1);
    }
  }

  /** The units of a line grow at the end, one counter value at a time. */
  lemma {:induction false} LineSlotsSnoc(denom: int, n: nat, counter: int)
    ensures LineSlots(denom, n + 1, counter) == LineSlots(denom, n, counter) + [Slot(denom, counter + n)]
  {
    if n > 0 {
      LineSlotsSnoc(denom, n - 1, counter + 1);
    }
  }

  lemma {:induction false} SumUnitsAppend(a: Selection, b: Selection)
    ensures SumUnits(a + b) == SumUnits(a) + SumUnits(b)
  {
    if a == [] {
      assert a + b == b;
    } else {
      assert (a + b)[1..] == a[1..] + b;
      SumUnitsAppend(a[1..], b);
    }
  }

  lemma BatchesAppend(a: Selection, b: Selection)
    ensures Batches(a + b) == Batches(a) + Batches(b)
  {
    assert forall i :: 0 <= i < |a| + |b| ==> (a + b)[i] == if i < |a| then a[i] else b[i - |a|];
  }

  /** A selection writes as many rows as its batches. */
  lemma {:induction false} BatchUnitsSum(sel: Selection)
    ensures BatchUnits(Batches(sel)) == SumUnits(sel)
  {
    if sel != [] {
      assert Batches(sel)[1..] == Batches(sel[1..]);
      BatchUnitsSum(sel[1..]);
    }
  }

  /** The units of two sequences of batches in turn are the units of the
      two, the counter running on across the join. */
  lemma {:induction false} BatchSlotsAppend(a: seq<Batch>, b: seq<Batch>, counter: int)
    ensures BatchSlots(a + b, counter) == BatchSlots(a, counter) + BatchSlots(b, counter + BatchUnits(a))
  {
    if a == [] {
      assert a + b == b;
    } else {
      assert (a + b)[0] == a[0] && (a + b)[1..] == a[1..] + b;
      BatchSlotsAppend(a[1..], b, counter + a[0].n);
    }
  }

  lemma RowsOfAppend(ctx: RowContext, a: seq<Slot>, b: seq<Slot>)
    ensures RowsOf(ctx, a + b) == RowsOf(ctx, a) + RowsOf(ctx, b)
  {
    assert forall i :: 0 <= i < |a| + |b| ==> (a + b)[i] == if i < |a| then a[i] else b[i - |a|];
  }

  /** The units of the first `i + 1` batches are those of the first `i`
      followed by the units of batch `i`, whose counter starts one past the
      units before it. */
  lemma BatchStep(bs: seq<Batch>, i: nat)
    requires i < |bs|
    ensures BatchUnits(bs[..i + 1]) == BatchUnits(bs[..i]) + bs[i].n
    ensures BatchSlots(bs[..i + 1], 1)
            == BatchSlots(bs[..i], 1) + LineSlots(bs[i].denom, bs[i].n, 1 + BatchUnits(bs[..i]))
  {
    assert bs[..i + 1] == bs[..i] + [bs[i]];
    BatchSlotsAppend(bs[..i], [bs[i]], 1);
    BatchUnitsAppend(bs[..i], [bs[i]]);
    assert [bs[i]][1..] == [];
    var line := LineSlots(bs[i].denom, bs[i].n, 1 + BatchUnits(bs[..i]));
    assert BatchSlots([bs[i]], 1 + BatchUnits(bs[..i])) == line + [];
  }

  /** The log after the rows of batch `i` is the log holding the rows of
      the first `i + 1` batches. */
  lemma RowsStep(ctx: RowContext, start: seq<SettlementRow>, bs: seq<Batch>, i: nat)
    requires i < |bs|
    ensures BatchUnits(bs[..i + 1]) == BatchUnits(bs[..i]) + bs[i].n
    ensures start + RowsOf(ctx, BatchSlots(bs[..i], 1))
              + RowsOf(ctx, LineSlots(bs[i].denom, bs[i].n, 1 + BatchUnits(bs[..i])))
            == start + RowsOf(ctx, BatchSlots(bs[..i + 1], 1))
  {
    var done := BatchSlots(bs[..i], 1);
    var line := LineSlots(bs[i].denom, bs[i].n, 1 + BatchUnits(bs[..i]));
    BatchStep(bs, i);
    RowsOfAppend(ctx, done, line);
  }

  lemma {:induction false} BatchUnitsAppend(a: seq<Batch>, b: seq<Batch>)
    ensures BatchUnits(a + b) == BatchUnits(a) + BatchUnits(b)
  {
    if a == [] {
      assert a + b == b;
    } else {
      assert (a + b)[1..] == a[1..] + b;
      BatchUnitsAppend(a[1..], b);
    }
  }

  lemma {:induction false} BatchSlotsShape(bs: seq<Batch>, counter: int)
    ensures |BatchSlots(bs, counter)| == BatchUnits(bs)
    ensures forall i :: 0 <= i < |BatchSlots(bs, counter)| ==> BatchSlots(bs, counter)[i].counter == counter + i
  {
    if bs != [] {
      LineSlotsShape(bs[0].denom, bs[0].n, counter);
      BatchSlotsShape(bs[1..], counter + bs[0].n);
    }
  }

  /** One unit per voucher, the counter running on from line to line. */
  lemma SlotsShape(sel: Selection, counter: int)
    ensures |Slots(sel, counter)| == SumUnits(sel)
    ensures forall i :: 0 <= i < |Slots(sel, counter)| ==> Slots(sel, counter)[i].counter == counter + i
  {
    BatchSlotsShape(Batches(sel), counter);
    BatchUnitsSum(sel);
  }

  /** One row per voucher unit, each the row of its own counter value. */
  lemma RowsShape(ctx: RowContext, sel: Selection, counter: int)
    ensures |Rows(ctx, sel, counter)| == SumUnits(sel)
    ensures forall i :: 0 <= i < |Rows(ctx, sel, counter)| ==>
              Rows(ctx, sel, counter)[i] == RowAt(ctx, Rows(ctx, sel, counter)[i].denomination, counter + i)
  {
    SlotsShape(sel, counter);
  }

  /** The rows of one redemption share its transaction id, household,
      merchant, time, amount and status; the remarks count 1, 2, ... except
      where the counter reaches the number of items; and each row carries
      the next voucher serial, so no two rows share a voucher code. */
  lemma RowsFacts(ctx: RowContext, sel: Selection)
    ensures var rows := Rows(ctx, sel, 1);
      && |rows| == SumUnits(sel)
      && (forall i :: 0 <= i < |rows| ==>
            && rows[i].transactionId == ctx.transactionId
            && rows[i].householdId == ctx.householdId
            && rows[i].merchantId == ctx.merchantId
            && rows[i].time == ctx.time
            && rows[i].amount == ctx.total
            && rows[i].paymentStatus == "Completed"
            && rows[i].voucherCode == VoucherCode(ctx.serialBase + 1 + i)
            && rows[i].remark == Remark(i + 1, ctx.totalItems))
      && (forall i, j :: 0 <= i < j < |rows| ==> rows[i].voucherCode != rows[j].voucherCode)
  {
    var rows := Rows(ctx, sel, 1);
    RowsShape(ctx, sel, 1);
    forall i, j | 0 <= i < j < |rows|
      ensures rows[i].voucherCode != rows[j].voucherCode
    {
      var a, b := ctx.serialBase + 1 + i, ctx.serialBase + 1 + j;
      ZeroPadInjective(a, b, 7);
      assert VoucherCode(a)[1..] == ZeroPad(a, 7) && VoucherCode(b)[1..] == ZeroPad(b, 7);
    }
  }

  /** With no quantity below zero, the last row, and only the last row, is
      remarked "Final denomination used". */
  lemma FinalRemark(ctx: RowContext, sel: Selection)
    requires forall i :: 0 <= i < |sel| ==> sel[i].qty >= 0
    requires ctx.totalItems == TotalItems(sel)
    ensures var rows := Rows(ctx, sel, 1);
      forall i :: 0 <= i < |rows| ==>
        (rows[i].remark == "Final denomination used" <==> i == |rows| - 1)
  {
    var rows := Rows(ctx, sel, 1);
    RowsShape(ctx, sel, 1);
    UnitsMatchItems(sel);
    forall i | 0 <= i < |rows|
      ensures rows[i].remark == "Final denomination used" <==> i == |rows| - 1
    {
      if i != |rows| - 1 {
        var s := IntToString(i + 1);
        NatToStringDigits(i + 1);
        assert s[0] != 'F';
      }
    }
  }

  /** The sum of the denominations in `rows`. */
  function DenomSum(rows: seq<SettlementRow>): int {
    if rows == [] then 0 else rows[0].denomination + DenomSum(rows[1..])
  }

  /** The sum of the denominations of `slots`. */
  function SlotSum(slots: seq<Slot>): int {
    if slots == [] then 0 else slots[0].denom + SlotSum(slots[1..])
  }

  lemma {:induction false} DenomSumRows(ctx: RowContext, slots: seq<Slot>)
    ensures DenomSum(RowsOf(ctx, slots)) == SlotSum(slots)
  {
    if slots != [] {
      assert RowsOf(ctx, slots)[1..] == RowsOf(ctx, slots[1..]);
      DenomSumRows(ctx, slots[1..]);
    }
  }

  lemma {:induction false} SlotSumAppend(a: seq<Slot>, b: seq<Slot>)
    ensures SlotSum(a + b) == SlotSum(a) + SlotSum(b)
  {
    if a == [] {
      assert a + b == b;
    } else {
      assert (a + b)[1..] == a[1..] + b;
      SlotSumAppend(a[1..], b);
    }
  }

  lemma {:induction false} SlotSumLine(denom: int, n: nat, counter: int)
    ensures SlotSum(LineSlots(denom, n, counter)) == denom * n
  {
    if n > 0 {
      SlotSumLine(denom, n - 1, counter + 1);
      SlotSumAppend([Slot(denom, counter)], LineSlots(denom, n - 1, counter + 1));
    }
  }

  /** The value of a sequence of batches. */
  function BatchSum(bs: seq<Batch>): int {
    if bs == [] then 0 else bs[0].denom * bs[0].n + BatchSum(bs[1..])
  }

  lemma {:induction false} BatchSlotsSum(bs: seq<Batch>, counter: int)
    ensures SlotSum(BatchSlots(bs, counter)) == BatchSum(bs)
  {
    if bs != [] {
      BatchSlotsSum(bs[1..], counter + bs[0].n);
      SlotSumLine(bs[0].denom, bs[0].n, counter);
      SlotSumAppend(LineSlots(bs[0].denom, bs[0].n, counter), BatchSlots(bs[1..], counter + bs[0].n));
    }
  }

  /** With no quantity below zero, the batches are worth the total. */
  lemma {:induction false} BatchSumTotal(sel: Selection)
    requires forall i :: 0 <= i < |sel| ==> sel[i].qty >= 0
    requires ComputeTotal(sel).Ok?
    ensures BatchSum(Batches(sel)) == ComputeTotal(sel).value
  {
    if sel != [] {
      assert forall i :: 0 <= i < |sel[1..]| ==> sel[1..][i] == sel[i + 1];
      assert Batches(sel)[1..] == Batches(sel[1..]);
      BatchSumTotal(sel[1..]);
    }
  }

  lemma SlotsAddUpToTotal(sel: Selection, counter: int)
    requires forall i :: 0 <= i < |sel| ==> sel[i].qty >= 0
    requires ComputeTotal(sel).Ok?
    ensures SlotSum(Slots(sel, counter)) == ComputeTotal(sel).value
  {
    BatchSlotsSum(Batches(sel), counter);
    BatchSumTotal(sel);
  }

  /** With no quantity below zero, the denominations of the rows add up to
      the amount redeemed. */
  lemma RowsAddUpToTotal(ctx: RowContext, sel: Selection)
    requires forall i :: 0 <= i < |sel| ==> sel[i].qty >= 0
    requires ComputeTotal(sel).Ok?
    ensures DenomSum(Rows(ctx, sel, 1)) == ComputeTotal(sel).value
  {
    SlotsAddUpToTotal(sel, 1);
    DenomSumRows(ctx, Slots(sel, 1));
  }

  // -----------------------------------------------------------------------
  // redeem
  // -----------------------------------------------------------------------

  const MsgRequired := "merchant_id and code are required."
  const MsgInvalidMerchant := "Invalid merchant."
  const MsgInactive := "Merchant is not active."
  const MsgInvalidCode := "Invalid code."
  const MsgExpired := "Code expired. Please generate a new one."
  const MsgCorrupted := "Code data corrupted (missing household_id)."
  const MsgNoHousehold := "Household not found."
  const MsgInsufficient := "Insufficient vouchers."
  const MsgNonPositive := "Total amount must be > 0."

  /** The state `redeem` reads and writes: the household index, the
      household file, the pending codes, the counters file and the
      settlement log. */
  datatype World = World(
    households: map<string, Household>,
    saved: map<string, Household>,
    pending: map<string, PendingCode>,
    counters: Stored,
    log: seq<SettlementRow>)

  /** What a successful `redeem` returns. */
  datatype Receipt = Receipt(
    transactionId: string,
    householdId: string,
    merchantId: string,
    amountRedeemed: int,
    remainingBalance: int)

  /** A merchant accepts redemptions when its trimmed, lower-cased status is
      "active". */
  predicate IsActive(m: Merchant) {
    Lower(Strip(m.status)) == "active"
  }

  /** A merchant is active exactly when its stripped status spells
      "active" in any mix of cases. */
  lemma IsActiveSpec(m: Merchant)
    ensures IsActive(m) <==>
            var st := Strip(m.status);
            |st| == 6 && forall i :: 0 <= i < 6 ==> st[i] == "active"[i] || st[i] == "ACTIVE"[i]
  {
    LowerIsActive(Strip(m.status));
  }

  /** Whether a code created at `createdAt` has expired at `now`. */
  predicate Expired(createdAt: Option<int>, now: int, ttl: int) {
    createdAt.Some? && now > createdAt.value + ttl
  }

  /** The outcome of the checks `redeem` makes before it changes anything
      but an expired code. */
  datatype Checked =
    | Stop(world: World, failure: Failure)
    | Go(merchantId: string, code: string, householdId: string, household: Household, sel: Selection, total: int)

  /** The validation chain of `redeem`, in order. */
  function RedeemCheck(w: World, merchants: map<string, Merchant>, merchantId: string, code: string, now: int, ttl: int): Checked {
    var mid := Strip(merchantId);
    var c := Strip(code);
    if mid == "" || c == "" then Stop(w, ValueError(MsgRequired))
    else if mid !in merchants then Stop(w, ValueError(MsgInvalidMerchant))
    else if !IsActive(merchants[mid]) then Stop(w, ValueError(MsgInactive))
    else if c !in w.pending then Stop(w, ValueError(MsgInvalidCode))
    else
      var txn := w.pending[c];
      if Expired(txn.createdAt, now, ttl) then Stop(w.(pending := w.pending - {c}), ValueError(MsgExpired))
      else
        var hid := Strip(txn.householdId);
        var sel := txn.vouchers;
        if hid == "" then Stop(w, ValueError(MsgCorrupted))
        else if hid !in w.households then Stop(w, ValueError(MsgNoHousehold))
        else
          var h := w.households[hid];
          if !HasSufficient(h.vouchers, sel) then Stop(w, ValueError(MsgInsufficient))
          else match ComputeTotal(sel)
            case Err(f) => Stop(w, f)
            case Ok(total) =>
              if total <= 0 then Stop(w, ValueError(MsgNonPositive))
              else Go(mid, c, hid, h, sel, total)
  }

  /** The rows context of a redemption whose transaction allocation left
      the counters file at `f1`. */
  function ContextOf(f1: Stored, hid: string, mid: string, now: int, total: int, sel: Selection): RowContext {
    RowContext(TransactionId(TxOf(f1)), hid, mid, now, total, TotalItems(sel), VoucherOf(f1))
  }

  /** Everything after the checks: deduct (keeping a failed deduction's
      changes in the index), save, allocate one transaction id, write one
      row per voucher unit and retire the code. */
  function Settle(w: World, mid: string, c: string, hid: string, h: Household, sel: Selection, total: int, now: int): (World, Result<Receipt>) {
    var (h2, err) := Deduct(h, sel, total);
    if err.Some? then (w.(households := w.households[hid := h2]), Err(err.value))
    else
      var f1 := AfterTx(w.counters);
      var ctx := ContextOf(f1, hid, mid, now, total, sel);
      (World(w.households[hid := h2], w.saved[h2.householdId := h2], w.pending - {c},
             AfterVouchers(f1, SumUnits(sel)), w.log + Rows(ctx, sel, 1)),
       Ok(Receipt(ctx.transactionId, hid, mid, total, h2.balance)))
  }

  /** `redeem(merchant_id, code)` at time `now`. */
  function RedeemSpec(w: World, merchants: map<string, Merchant>, merchantId: string, code: string, now: int, ttl: int): (World, Result<Receipt>) {
    match RedeemCheck(w, merchants, merchantId, code, now, ttl)
    case Stop(w2, f) => (w2, Err(f))
    case Go(mid, c, hid, h, sel, total) => Settle(w, mid, c, hid, h, sel, total, now)
  }

  /** A failed check changes nothing, except that an expired code is
      dropped; a failed redemption never saves a household, allocates a
      counter or writes a row. */
  lemma RedeemFailureKeepsFiles(w: World, merchants: map<string, Merchant>, merchantId: string, code: string, now: int, ttl: int)
    ensures var (w2, r) := RedeemSpec(w, merchants, merchantId, code, now, ttl);
      r.Err? ==> w2.saved == w.saved && w2.counters == w.counters && w2.log == w.log
    ensures RedeemCheck(w, merchants, merchantId, code, now, ttl).Stop? ==>
              var s := RedeemCheck(w, merchants, merchantId, code, now, ttl);
              && s.world.households == w.households
              && (s.world == w || (s.failure == ValueError(MsgExpired)
                                   && s.world == w.(pending := w.pending - {Strip(code)})))
  {
  }

  /** The code's lifetime is checked strictly: a code with a known creation
      time is rejected and dropped exactly when `now` is past creation plus
      the TTL, so it is still accepted at the boundary; a code without a
      readable creation time never expires. */
  lemma RedeemExpiry(w: World, merchants: map<string, Merchant>, merchantId: string, code: string, now: int, ttl: int)
    requires Strip(merchantId) != "" && Strip(code) != ""
    requires Strip(merchantId) in merchants && IsActive(merchants[Strip(merchantId)])
    requires Strip(code) in w.pending
    ensures var (w2, r) := RedeemSpec(w, merchants, merchantId, code, now, ttl);
      && (r == Err(ValueError(MsgExpired)) <==> Expired(w.pending[Strip(code)].createdAt, now, ttl))
      && (r == Err(ValueError(MsgExpired)) ==> w2 == w.(pending := w.pending - {Strip(code)}))
  {
    var c := Strip(code);
    var r := RedeemSpec(w, merchants, merchantId, code, now, ttl).1;
    if !Expired(w.pending[c].createdAt, now, ttl) && r.Err? {
      var ck := RedeemCheck(w, merchants, merchantId, code, now, ttl);
      if ck.Go? {
        DeductMessages(ck.household.vouchers, ck.sel);
      } else {
        var sel := w.pending[c].vouchers;
        ComputeTotalSpec(sel);
        if ComputeTotal(sel).Err? {
          var i :| 0 <= i < |sel| && ComputeTotal(sel).failure == ValueError(InvalidLiteral(sel[i].denom));
          assert InvalidLiteral(sel[i].denom)[0] != MsgExpired[0];
        }
      }
    }
  }

  /** The deduction loop fails only with its own two errors. */
  lemma {:induction false} DeductMessages(w: Wallet, sel: Selection)
    ensures var e := DeductLines(w, sel).1;
      e.Some? ==> e.value.KeyError? || e.value == ValueError("Insufficient vouchers during deduction.")
  {
    if sel != [] && Count(w, sel[0].denom) >= sel[0].qty && sel[0].denom in w {
      DeductMessages(w[sel[0].denom := w[sel[0].denom] - sel[0].qty], sel[1..]);
    }
  }

  /** A code issued at `t` redeems past the TTL check at any time up to
      `t + ttl`, and is refused as expired after it. */
  lemma IssuedCodeLifetime(w: World, merchants: map<string, Merchant>, merchantId: string, code: string, entry: PendingCode, t: int, now: int, ttl: int)
    requires Strip(merchantId) != "" && Strip(code) != ""
    requires Strip(merchantId) in merchants && IsActive(merchants[Strip(merchantId)])
    requires Strip(code) in w.pending && w.pending[Strip(code)] == entry && entry.createdAt == Some(t)
    ensures RedeemSpec(w, merchants, merchantId, code, now, ttl).1 == Err(ValueError(MsgExpired)) <==> now > t + ttl
  {
    RedeemExpiry(w, merchants, merchantId, code, now, ttl);
  }

  /** Sufficiency is checked again against the wallet as it is now: a
      selection it no longer covers is refused, and the code stays
      pending. */
  lemma RedeemRechecksWallet(w: World, merchants: map<string, Merchant>, merchantId: string, code: string, now: int, ttl: int)
    requires Strip(merchantId) != "" && Strip(code) != ""
    requires Strip(merchantId) in merchants && IsActive(merchants[Strip(merchantId)])
    requires Strip(code) in w.pending
    requires !Expired(w.pending[Strip(code)].createdAt, now, ttl)
    requires var hid := Strip(w.pending[Strip(code)].householdId);
      hid != "" && hid in w.households
      && !HasSufficient(w.households[hid].vouchers, w.pending[Strip(code)].vouchers)
    ensures RedeemSpec(w, merchants, merchantId, code, now, ttl) == (w, Err(ValueError(MsgInsufficient)))
  {
  }

  /** A successful redemption spends exactly what was selected: the amount
      is the selection's total and positive, the balance drops by it, every
      selected denomination drops by its quantity, the others are
      unchanged, and the receipt's remaining balance is the new balance,
      which is the household saved to the file. */
  lemma RedeemSuccessWallet(w: World, merchants: map<string, Merchant>, merchantId: string, code: string, now: int, ttl: int)
    requires RedeemSpec(w, merchants, merchantId, code, now, ttl).1.Ok?
    ensures var (w2, r) := RedeemSpec(w, merchants, merchantId, code, now, ttl);
      var c := Strip(code);
      && c in w.pending
      && var sel := w.pending[c].vouchers;
      && var hid := r.value.householdId;
      && hid == Strip(w.pending[c].householdId) && hid in w.households
      && var h := w.households[hid];
      && hid in w2.households
      && var h2 := w2.households[hid];
      && ComputeTotal(sel) == Ok(r.value.amountRedeemed) && r.value.amountRedeemed > 0
      && h2.balance == h.balance - r.value.amountRedeemed && h2.balance >= 0
      && r.value.remainingBalance == h2.balance
      && h2.vouchers.Keys == h.vouchers.Keys
      && (forall k :: k in h.vouchers ==> h2.vouchers[k] == h.vouchers[k] - QtyOf(sel, k))
      && h2.householdId == h.householdId && h2.link == h.link
      && w2.households == w.households[hid := h2]
      && w2.saved == w.saved[h.householdId := h2]
  {
    var ck := RedeemCheck(w, merchants, merchantId, code, now, ttl);
    DeductLinesDone(ck.household.vouchers, ck.sel);
  }

  /** A successful redemption allocates one transaction id, writes one row
      per voucher unit after the existing log, all under that id, and
      advances the voucher counter by the number of rows. */
  lemma RedeemSuccessLog(w: World, merchants: map<string, Merchant>, merchantId: string, code: string, now: int, ttl: int)
    requires RedeemSpec(w, merchants, merchantId, code, now, ttl).1.Ok?
    ensures var (w2, r) := RedeemSpec(w, merchants, merchantId, code, now, ttl);
      var c := Strip(code);
      && c in w.pending
      && var sel := w.pending[c].vouchers;
      && TxOf(w2.counters) == TxOf(w.counters) + 1
      && r.value.transactionId == TransactionId(TxOf(w2.counters))
      && VoucherOf(w2.counters) == VoucherOf(w.counters) + SumUnits(sel)
      && |w2.log| == |w.log| + SumUnits(sel)
      && w2.log[..|w.log|] == w.log
      && (forall i :: |w.log| <= i < |w2.log| ==>
            && w2.log[i].transactionId == r.value.transactionId
            && w2.log[i].householdId == r.value.householdId
            && w2.log[i].merchantId == r.value.merchantId
            && w2.log[i].amount == r.value.amountRedeemed
            && w2.log[i].paymentStatus == "Completed")
  {
    var ck := RedeemCheck(w, merchants, merchantId, code, now, ttl);
    var f1 := AfterTx(w.counters);
    var ctx := ContextOf(f1, ck.householdId, ck.merchantId, now, ck.total, ck.sel);
    RowsFacts(ctx, ck.sel);
    AfterTxSpec(w.counters);
    AfterVouchersSpec(f1, SumUnits(ck.sel));
    var w2 := RedeemSpec(w, merchants, merchantId, code, now, ttl).0;
    assert w2.log == w.log + Rows(ctx, ck.sel, 1);
    forall i | |w.log| <= i < |w2.log|
      ensures w2.log[i] == Rows(ctx, ck.sel, 1)[i - |w.log|]
    {
    }
  }

  /** A code is single-use: after a successful redemption it is gone, and
      presenting it again, by the same merchant at any time, is refused as
      an invalid code without changing anything. */
  lemma RedeemSingleUse(w: World, merchants: map<string, Merchant>, merchantId: string, code: string, now: int, later: int, ttl: int)
    requires RedeemSpec(w, merchants, merchantId, code, now, ttl).1.Ok?
    ensures var w2 := RedeemSpec(w, merchants, merchantId, code, now, ttl).0;
      && Strip(code) !in w2.pending
      && w2.pending == w.pending - {Strip(code)}
      && RedeemSpec(w2, merchants, merchantId, code, later, ttl) == (w2, Err(ValueError(MsgInvalidCode)))
  {
  }

  /** A household with five $10 vouchers, a pending code for one $10 and
      zero $20, and an active merchant. */
  const SampleHousehold := Household("H100001", "", "", 800, map["10" := 5], "")
  const SampleSelection := [Line("10", 1), Line("20", 0)]
  const SampleWorld := World(map["H100001" := SampleHousehold], map[],
                             map["123456" := PendingCode("H100001", SampleSelection, None)], Defaults, [])
  const SampleMerchants := map["M0001" := Merchant("M0001", "", "", "", "", "", "", "", "", "Active")]

  /** The sample's identifiers and status carry no surrounding blanks. */
  lemma SampleStripped()
    ensures Strip("M0001") == "M0001" && Strip("123456") == "123456"
    ensures Strip("H100001") == "H100001" && Strip("Active") == "Active"
  {
    StripUnpadded("M0001");
    StripUnpadded("123456");
    StripUnpadded("H100001");
    StripUnpadded("Active");
  }

  /** The sample selection is worth $10 and the wallet covers it. */
  lemma SampleSelectionWorth()
    ensures ComputeTotal(SampleSelection) == Ok(10)
    ensures HasSufficient(SampleHousehold.vouchers, SampleSelection)
  {
    assert ParseInt("10") == Some(10) by {
      ParseNonNegative(10);
      assert NatToString(10) == "10";
    }
    assert ParseInt("20") == Some(20) by {
      ParseNonNegative(20);
      assert NatToString(20) == "20";
    }
    var sel := SampleSelection;
    assert sel[1..] == [Line("20", 0)];
    assert sel[1..][1..] == [];
    assert ComputeTotal(sel[1..]) == Ok(0);
  }

  lemma LowerActive()
    ensures Lower("Active") == "active"
  {
    var r := Lower("Active");
    assert LowerChar('A') == 'a';
    assert r[0] == 'a' && r[1] == 'c' && r[2] == 't' && r[3] == 'i' && r[4] == 'v' && r[5] == 'e';
  }

  lemma SampleChecksPass()
    ensures RedeemCheck(SampleWorld, SampleMerchants, "M0001", "123456", 0, 600)
            == Go("M0001", "123456", "H100001", SampleHousehold, SampleSelection, 10)
  {
    SampleStripped();
    SampleSelectionWorth();
    LowerActive();
    assert IsActive(SampleMerchants["M0001"]);
    var txn := SampleWorld.pending["123456"];
    assert txn == PendingCode("H100001", SampleSelection, None);
    assert !Expired(txn.createdAt, 0, 600);
    assert SampleWorld.households["H100001"] == SampleHousehold;
  }

  /** The sample deduction takes one $10 voucher, then raises a KeyError
      at the $20 line. */
  lemma SampleDeduction()
    ensures Deduct(SampleHousehold, SampleSelection, 10)
            == (SampleHousehold.(vouchers := map["10" := 4]), Some(KeyError("20")))
  {
    var sel := SampleSelection;
    var w := SampleHousehold.vouchers;
    assert sel[1..] == [Line("20", 0)];
    assert w["10" := w["10"] - 1] == map["10" := 4];
    assert DeductLines(map["10" := 4], sel[1..]) == (map["10" := 4], Some(KeyError("20")));
    assert DeductLines(w, sel) == (map["10" := 4], Some(KeyError("20")));
  }

  /** A denomination key led by a file separator fails the total, after a
      line that parses, before anything is deducted. */
  lemma SeparatorKeyRejected()
    ensures ComputeTotal([Line("5", 1), Line("\U{001C}10", 0)])
            == Err(ValueError(InvalidLiteral("\U{001C}10")))
  {
    var sel := [Line("5", 1), Line("\U{001C}10", 0)];
    ParseIntSeparators();
    ParseNonNegative(5);
    assert NatToString(5) == "5";
    assert sel[1..][1..] == [];
  }

  /** A selection with a negative quantity: two $10 and minus one $5. */
  const NegativeSelection := [Line("10", 2), Line("5", -1)]

  lemma NegativeSelectionParses()
    ensures Denom(NegativeSelection[0]) == 10 && Denom(NegativeSelection[1]) == 5
    ensures ComputeTotal(NegativeSelection) == Ok(15)
  {
    assert ParseInt("10") == Some(10) by {
      ParseNonNegative(10);
      assert NatToString(10) == "10";
    }
    assert ParseInt("5") == Some(5) by {
      ParseNonNegative(5);
      assert NatToString(5) == "5";
    }
    var sel := NegativeSelection;
    assert sel[1..] == [Line("5", -1)];
    assert sel[1..][1..] == [];
    assert ComputeTotal(sel[1..]) == Ok(-5);
  }

  /** A negative quantity writes no rows but still lowers the item count:
      the two $10 rows are written under a total of $15 and the first of
      them already carries the final remark. */
  lemma NegativeQuantityRows(ctx: RowContext)
    requires ctx.totalItems == TotalItems(NegativeSelection)
    ensures TotalItems(NegativeSelection) == 1
    ensures var rows := Rows(ctx, NegativeSelection, 1);
            && |rows| == 2 && rows[0].denomination == 10 && rows[1].denomination == 10
            && rows[0].remark == "Final denomination used" && rows[1].remark == "2"
  {
    var sel := NegativeSelection;
    NegativeSelectionParses();
    assert sel[1..] == [Line("5", -1)];
    assert sel[1..][1..] == [];
    var bs := Batches(sel);
    assert bs == [Batch(10, 2), Batch(5, 0)];
    assert bs[1..] == [Batch(5, 0)];
    assert bs[1..][1..] == [];
    assert LineSlots(10, 2, 1) == [Slot(10, 1), Slot(10, 2)];
    assert BatchSlots(bs[1..], 3) == LineSlots(5, 0, 3) + BatchSlots([], 3) == [];
    assert BatchSlots(bs, 1) == [Slot(10, 1), Slot(10, 2)];
    assert IntToString(2) == "2";
  }

  /** The deduction of a negative quantity adds vouchers: a wallet with two
      $10 and no $5 ends with no $10 and one $5. */
  lemma NegativeQuantityDeduction()
    ensures DeductLines(map["10" := 2, "5" := 0], NegativeSelection) == (map["10" := 0, "5" := 1], None)
  {
    var sel := NegativeSelection;
    var w := map["10" := 2, "5" := 0];
    assert sel[1..] == [Line("5", -1)];
    assert sel[1..][1..] == [];
    assert w["10" := 0] == map["10" := 0, "5" := 0];
    assert map["10" := 0, "5" := 0]["5" := 1] == map["10" := 0, "5" := 1];
  }

  /** A selection naming a denomination the wallet lacks, with a quantity of
      zero, passes every check yet fails in the deduction with a KeyError,
      after the line before it was deducted in the index. */
  lemma MissingDenominationKeyError()
    ensures RedeemSpec(SampleWorld, SampleMerchants, "M0001", "123456", 0, 600)
            == (SampleWorld.(households := map["H100001" := SampleHousehold.(vouchers := map["10" := 4])]),
                Err(KeyError("20")))
  {
    SampleChecksPass();
    SampleDeduction();
    var h2 := SampleHousehold.(vouchers := map["10" := 4]);
    assert SampleWorld.households["H100001" := h2] == map["H100001" := h2];
  }
}
