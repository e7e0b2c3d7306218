/** The persistent transaction and voucher-serial counters
    (backend/storage/counter_store.py). The counters file is abstracted to
    the record it holds. */
module Counters {
  import opened Wrappers
  import opened Text

  /** What the counters file holds: nothing readable (missing, empty or not
      JSON), or a record in which either key may be absent. */
  datatype Stored = Unreadable | Record(tx: Option<int>, v: Option<int>)

  const TxSeed: int := 1000
  const VoucherSeed: int := 0

  /** The record `_ensure_file` writes and `_load` falls back to. */
  const Defaults: Stored := Record(Some(TxSeed), Some(VoucherSeed))

  /** `_load`: the record in the file, or the defaults when it is unreadable. */
  function Load(f: Stored): Stored {
    if f.Unreadable? then Defaults else f
  }

  /** The last transaction number issued (`data.get("tx", 1000)`). */
  function TxOf(f: Stored): int {
    Load(f).tx.GetOr(TxSeed)
  }

  /** The last voucher serial issued (`data.get("v", 0)`). */
  function VoucherOf(f: Stored): int {
    Load(f).v.GetOr(VoucherSeed)
  }

  /** The file after `next_transaction_id`: only "tx" is rewritten. */
  function AfterTx(f: Stored): Stored {
    Record(Some(TxOf(f) + 1), Load(f).v)
  }

  /** The file after `next_voucher_code`: only "v" is rewritten. */
  function AfterVoucher(f: Stored): Stored {
    Record(Load(f).tx, Some(VoucherOf(f) + 1))
  }

  /** The file after `n` successive voucher allocations. */
  function AfterVouchers(f: Stored, n: nat): Stored {
    if n == 0 then f else AfterVoucher(AfterVouchers(f, n - 1))
  }

  /** The file after `n` successive transaction allocations. */
  function AfterTxs(f: Stored, n: nat): Stored {
    if n == 0 then f else AfterTx(AfterTxs(f, n - 1))
  }

  /** "TX" followed by the decimal transaction number. */
  function TransactionId(n: int): string {
    "TX" + IntToString(n)
  }

  /** "V" followed by the serial zero-padded to seven digits. */
  function VoucherCode(n: int): string {
    "V" + ZeroPad(n, 7)
  }

  /** A transaction allocation adds one to "tx" and leaves the voucher
      counter alone, defaults included. */
  lemma AfterTxSpec(f: Stored)
    ensures TxOf(AfterTx(f)) == TxOf(f) + 1
    ensures VoucherOf(AfterTx(f)) == VoucherOf(f)
  {
  }

  /** A voucher allocation adds one to "v" and leaves the transaction
      counter alone, defaults included. */
  lemma AfterVoucherSpec(f: Stored)
    ensures VoucherOf(AfterVoucher(f)) == VoucherOf(f) + 1
    ensures TxOf(AfterVoucher(f)) == TxOf(f)
  {
  }

  /** `n` voucher allocations advance "v" by exactly `n` and never touch
      "tx". */
  lemma {:induction false} AfterVouchersSpec(f: Stored, n: nat)
    ensures VoucherOf(AfterVouchers(f, n)) == VoucherOf(f) + n
    ensures TxOf(AfterVouchers(f, n)) == TxOf(f)
    ensures n > 0 ==> AfterVouchers(f, n).Record?
  {
    if n > 0 {
      AfterVouchersSpec(f, n - 1);
    }
  }

  /** `n` transaction allocations advance "tx" by exactly `n` and never
      touch "v". */
  lemma {:induction false} AfterTxsSpec(f: Stored, n: nat)
    ensures TxOf(AfterTxs(f, n)) == TxOf(f) + n
    ensures VoucherOf(AfterTxs(f, n)) == VoucherOf(f)
  {
    if n > 0 {
      AfterTxsSpec(f, n - 1);
    }
  }

  /** Allocating `a` serials and then `b` more is allocating `a + b`. */
  lemma {:induction false} AfterVouchersAdd(f: Stored, a: nat, b: nat)
    ensures AfterVouchers(AfterVouchers(f, a), b) == AfterVouchers(f, a + b)
  {
    if b > 0 {
      AfterVouchersAdd(f, a, b - 1);
    }
  }

  /** Successive transaction ids from one store never repeat. */
  lemma TransactionIdsDistinct(f: Stored, i: nat, j: nat)
    requires i < j
    ensures TransactionId(TxOf(AfterTxs(f, i))) != TransactionId(TxOf(AfterTxs(f, j)))
  {
    AfterTxsSpec(f, i);
    AfterTxsSpec(f, j);
    var a, b := TxOf(AfterTxs(f, i)), TxOf(AfterTxs(f, j));
    IntToStringInjective(a, b);
    assert TransactionId(a)[2..] == IntToString(a) && TransactionId(b)[2..] == IntToString(b);
  }

  /** Successive voucher codes from one store never repeat. */
  lemma VoucherCodesDistinct(f: Stored, i: nat, j: nat)
    requires i < j
    ensures VoucherCode(VoucherOf(AfterVouchers(f, i))) != VoucherCode(VoucherOf(AfterVouchers(f, j)))
  {
    AfterVouchersSpec(f, i);
    AfterVouchersSpec(f, j);
    var a, b := VoucherOf(AfterVouchers(f, i)), VoucherOf(AfterVouchers(f, j));
    ZeroPadInjective(a, b, 7);
    assert VoucherCode(a)[1..] == ZeroPad(a, 7) && VoucherCode(b)[1..] == ZeroPad(b, 7);
  }

  /** A fresh store hands out "TX1001" and "V0000001" first. */
  lemma FirstIds()
    ensures TransactionId(TxOf(AfterTx(Defaults))) == "TX1001"
    ensures VoucherCode(VoucherOf(AfterVoucher(Defaults))) == "V0000001"
  {
    assert NatToString(1001) == NatToString(100) + ['1'];
    assert NatToString(100) == NatToString(10) + ['0'];
    assert NatToString(10) == NatToString(1) + ['0'];
    assert ZeroPad(1, 7) == Zeros(6) + "1";
    assert Zeros(6) == "000000";
  }

  class CounterStore {
    /** The contents of the counters file. */
    var file: Stored

    /** `__init__` with `_ensure_file`: a missing file (`None`) is created
        with the defaults; an existing one is kept as it is. */
    constructor (existing: Option<Stored>)
      ensures file == if existing.Some? then existing.value else Defaults
    {
      file := if existing.Some? then existing.value else Defaults;
    }

    /** `next_transaction_id`: read, add one to "tx", write back. */
    method NextTransactionId() returns (id: string)
      modifies this
      ensures file == AfterTx(old(file))
      ensures TxOf(file) == TxOf(old(file)) + 1 && VoucherOf(file) == VoucherOf(old(file))
      ensures id == TransactionId(TxOf(file))
    {
      var data := Load(file);
      var tx := data.tx.GetOr(TxSeed) + 1;
      data := data.(tx := Some(tx));
      file := data;
      id := "TX" + IntToString(tx);
    }

    /** `next_voucher_code`: read, add one to "v", write back. */
    method NextVoucherCode() returns (code: string)
      modifies this
      ensures file == AfterVoucher(old(file))
      ensures VoucherOf(file) == VoucherOf(old(file)) + 1 && TxOf(file) == TxOf(old(file))
      ensures code == VoucherCode(VoucherOf(file))
    {
      var data := Load(file);
      var v := data.v.GetOr(VoucherSeed) + 1;
      data := data.(v := Some(v));
      file := data;
      code := "V" + ZeroPad(v, 7);
    }
  }
}
