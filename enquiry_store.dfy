/** The records of the per-voucher reservation design
    (backend/models/voucher.py, backend/models/reservation.py) and the
    in-memory store holding them (backend/storage/memory_store.py).
    Timestamps are integers (seconds). */
module VoucherStore {
  import opened Wrappers

  /** Voucher states the service sets or tests; any other text may also
      appear and is left alone. */
  const Available := "AVAILABLE"
  const Reserved := "RESERVED"

  /** Reservation states. */
  const Active := "ACTIVE"
  const ExpiredStatus := "EXPIRED"

  datatype Voucher = Voucher(
    voucherId: string,
    householdId: string,
    denomination: int,
    state: string,
    reservedUntil: Option<int>)

  datatype Reservation = Reservation(
    redemptionNumber: string,
    householdId: string,
    voucherIds: seq<string>,
    amount: int,
    createdAt: int,
    expiresAt: int,
    status: string)

  /** `MemoryStore`: the two dictionaries, keyed by voucher id and by
      redemption number. */
  class MemoryStore {
    var vouchers: map<string, Voucher>
    var reservations: map<string, Reservation>

    constructor ()
      ensures vouchers == map[] && reservations == map[]
    {
      vouchers := map[];
      reservations := map[];
    }
  }
}
