/** Household registration and balance management
    (backend/services/household_service.py), over the household file
    abstracted to a map from id to record (backend/storage/household_store.py). */
module Households {
  import opened Wrappers
  import opened Text
  import opened HouseholdModel

  /** The full entitlement of a new household: $500 (May 2025) plus $300
      (Jan 2026). */
  const EntitlementBalance: int := 800

  /** 80 x $2, 32 x $5 and 45 x $10. These add up to $770, not to the $800
      balance: the source does not keep balance and vouchers in step. */
  const EntitlementVouchers: Wallet := map["2" := 80, "5" := 32, "10" := 45]

  function ClaimLink(id: string): string {
    "http://cdc.gov.sg/claim/" + id
  }

  /** `f"H{n}"`. */
  function HouseholdIdFor(n: int): string {
    "H" + IntToString(n)
  }

  /** "H" followed by six digits that read as a number in [100000, 999999]. */
  predicate IsHouseholdId(id: string) {
    |id| == 7 && id[0] == 'H' && AllDigits(id[1..])
    && 100000 <= ParseDigits(id[1..]) <= 999999
  }

  lemma HouseholdIdShape(n: int)
    requires 100000 <= n <= 999999
    ensures IsHouseholdId(HouseholdIdFor(n))
  {
    assert Pow10(5) == 100000 && Pow10(6) == 1000000;
    NatToStringLength(n, 6);
    ParseNatToString(n);
    assert HouseholdIdFor(n)[1..] == NatToString(n);
  }

  /** The index after loading `loaded` into `index`, one household at a
      time, each stored under its own id. */
  function Indexed(index: map<string, Household>, loaded: seq<Household>): map<string, Household> {
    if loaded == [] then index
    else
      var last := loaded[|loaded| - 1];
      Indexed(index, loaded[..|loaded| - 1])[last.householdId := last]
  }

  /** Each loaded household is indexed under its id, and holds that entry
      unless a later loaded household has the same id. */
  lemma {:induction false} IndexedLoaded(index: map<string, Household>, loaded: seq<Household>, i: nat)
    requires i < |loaded|
    ensures loaded[i].householdId in Indexed(index, loaded)
    ensures (forall j :: i < j < |loaded| ==> loaded[j].householdId != loaded[i].householdId)
            ==> Indexed(index, loaded)[loaded[i].householdId] == loaded[i]
  {
    var n := |loaded| - 1;
    if i < n {
      var init := loaded[..n];
      IndexedLoaded(index, init, i);
      assert init[i] == loaded[i];
      if forall j :: i < j < |loaded| ==> loaded[j].householdId != loaded[i].householdId {
        assert loaded[n].householdId != loaded[i].householdId;
        assert forall j :: i < j < |init| ==> init[j] == loaded[j];
      }
    }
  }

  /** Entries whose id no loaded household has are left as they were. */
  lemma {:induction false} IndexedUntouched(index: map<string, Household>, loaded: seq<Household>, k: string)
    requires k in index
    requires forall i :: 0 <= i < |loaded| ==> loaded[i].householdId != k
    ensures k in Indexed(index, loaded) && Indexed(index, loaded)[k] == index[k]
  {
    if loaded != [] {
      var init := loaded[..|loaded| - 1];
      assert forall i :: 0 <= i < |init| ==> init[i] == loaded[i];
      IndexedUntouched(index, init, k);
    }
  }

  /** Nothing else enters the index. */
  lemma {:induction false} IndexedKeys(index: map<string, Household>, loaded: seq<Household>, k: string)
    requires k in Indexed(index, loaded) && k !in index
    ensures exists i :: 0 <= i < |loaded| && loaded[i].householdId == k
  {
    var n := |loaded| - 1;
    if loaded[n].householdId != k {
      var init := loaded[..n];
      IndexedKeys(index, init, k);
      var i :| 0 <= i < |init| && init[i].householdId == k;
      assert loaded[i] == init[i];
    }
  }

  /** The household file: id to the record last saved under it. */
  class HouseholdStore {
    var records: map<string, Household>

    constructor (records: map<string, Household>)
      ensures this.records == records
    {
      this.records := records;
    }

    /** `save`: upsert under the household's own id. */
    method Save(h: Household)
      modifies this
      ensures records == old(records)[h.householdId := h]
    {
      records := records[h.householdId := h];
    }
  }

  class HouseholdService {
    /** `households_by_id`. */
    var byId: map<string, Household>
    const store: HouseholdStore

    /** Every household is indexed under its own id. */
    ghost predicate Valid()
      reads this
    {
      forall k :: k in byId ==> byId[k].householdId == k
    }

    constructor (store: HouseholdStore)
      ensures this.store == store && byId == map[] && Valid()
    {
      this.store := store;
      byId := map[];
    }

    /** `bootstrap_from_file`: index every loaded household by its id. */
    method Bootstrap(loaded: seq<Household>)
      requires Valid()
      modifies this
      ensures Valid()
      ensures byId == Indexed(old(byId), loaded)
    {
      var i := 0;
      while i < |loaded|
        invariant 0 <= i <= |loaded|
        invariant byId == Indexed(old(byId), loaded[..i])
        invariant Valid()
      {
        assert loaded[..i + 1][..i] == loaded[..i];
        byId := byId[loaded[i].householdId := loaded[i]];
        i := i + 1;
      }
      assert loaded[..|loaded|] == loaded;
    }

    /** Whether the id `f"H{n}"` is already indexed. */
    predicate Taken(n: int)
      reads this
    {
      HouseholdIdFor(n) in byId
    }

    /** `_generate_household_id`: the first draw whose id is not taken. The
        draws stand for the successive values of `random.randint(100000,
        999999)`. */
    method GenerateHouseholdId(draws: seq<int>) returns (id: string)
      requires forall i :: 0 <= i < |draws| ==> 100000 <= draws[i] <= 999999
      requires exists i :: 0 <= i < |draws| && !Taken(draws[i])
      ensures id !in byId && IsHouseholdId(id)
      ensures exists k :: 0 <= k < |draws| && id == HouseholdIdFor(draws[k])
                          && forall j :: 0 <= j < k ==> Taken(draws[j])
    {
      var k := 0;
      while Taken(draws[k])
        invariant 0 <= k < |draws|
        invariant forall j :: 0 <= j < k ==> Taken(draws[j])
        invariant exists i :: k <= i < |draws| && !Taken(draws[i])
        decreases |draws| - k
      {
        k := k + 1;
      }
      id := HouseholdIdFor(draws[k]);
      HouseholdIdShape(draws[k]);
    }

    /** `get_household`: the indexed household, or `None`. */
    function GetHousehold(id: string): (r: Option<Household>)
      reads this
      ensures r.Some? <==> id in byId
      ensures r.Some? ==> r.value == byId[id]
    {
      if id in byId then Some(byId[id]) else None
    }

    /** `register_household` as the source evidently intends it: a blank
        address is refused; otherwise a fresh id, the full entitlement and
        the claim link. The record has no address field, so the address is
        only validated. */
    method RegisterHousehold(address: string, draws: seq<int>) returns (r: Result<Household>)
      requires Valid()
      requires forall i :: 0 <= i < |draws| ==> 100000 <= draws[i] <= 999999
      requires exists i :: 0 <= i < |draws| && !Taken(draws[i])
      modifies this, store
      ensures Valid()
      ensures Strip(address) == "" ==>
                r == Err(ValueError("Address is required."))
                && byId == old(byId) && store.records == old(store.records)
      ensures Strip(address) != "" ==>
                && r.Ok?
                && var h := r.value;
                && IsHouseholdId(h.householdId) && h.householdId !in old(byId)
                && h == Household(h.householdId, "", "", EntitlementBalance, EntitlementVouchers, ClaimLink(h.householdId))
                && byId == old(byId)[h.householdId := h]
                && GetHousehold(h.householdId) == Some(h)
                && store.records == old(store.records)[h.householdId := h]
    {
      if Strip(address) == "" {
        return Err(ValueError("Address is required."));
      }
      var id := GenerateHouseholdId(draws);
      var h := Household(id, "", "", EntitlementBalance, EntitlementVouchers, ClaimLink(id));
      store.Save(h);
      byId := byId[id := h];
      r := Ok(h);
    }

    /** `deduct_balance`: refuse an unknown id or a balance below `amount`;
        otherwise lower the balance by `amount` and save the household. */
    method DeductBalance(id: string, amount: int) returns (err: Option<Failure>)
      requires Valid()
      modifies this, store
      ensures Valid()
      ensures id !in old(byId) ==>
                err == Some(ValueError("Household not found"))
                && byId == old(byId) && store.records == old(store.records)
      ensures id in old(byId) && old(byId)[id].balance < amount ==>
                err == Some(ValueError("Insufficient balance"))
                && byId == old(byId) && store.records == old(store.records)
      ensures id in old(byId) && old(byId)[id].balance >= amount ==>
                && err == None
                && var h := old(byId)[id].(balance := old(byId)[id].balance - amount);
                && byId == old(byId)[id := h]
                && h.balance >= 0
                && store.records == old(store.records)[id := h]
    {
      var found := GetHousehold(id);
      if found.None? {
        return Some(ValueError("Household not found"));
      }
      var h := found.value;
      if h.balance < amount {
        return Some(ValueError("Insufficient balance"));
      }
      h := h.(balance := h.balance - amount);
      byId := byId[id := h];
      store.Save(h);
      err := None;
    }
  }

  // -----------------------------------------------------------------------
  // register_household as written
  // -----------------------------------------------------------------------

  /** The keyword arguments `register_household` passes to `Household(...)`. */
  const RegisterKeywords: seq<string> := ["household_id", "address", "balance", "vouchers", "link"]

  /** The first keyword that is not a field of the dataclass. */
  function FirstUnknown(keywords: seq<string>): Option<string> {
    if keywords == [] then None
    else if keywords[0] !in Fields then Some(keywords[0])
    else FirstUnknown(keywords[1..])
  }

  function UnexpectedKeyword(k: string): string {
    "Household.__init__() got an unexpected keyword argument '" + k + "'"
  }

  /** Binding keyword arguments to the dataclass constructor: an unexpected
      keyword is reported first, then a missing field. */
  function BindKeywords(keywords: seq<string>): Option<Failure> {
    match FirstUnknown(keywords)
    case Some(k) => Some(TypeError(UnexpectedKeyword(k)))
    case None =>
      if Fields <= set k | k in keywords then None
      else Some(TypeError("Household.__init__() missing required positional arguments"))
  }

  /** `register_household(address)` as written: the address check, then the
      `Household(...)` call with the keyword arguments above. */
  function RegisterAsWritten(address: string, id: string): Result<Household> {
    if Strip(address) == "" then Err(ValueError("Address is required."))
    else match BindKeywords(RegisterKeywords)
      case Some(f) => Err(f)
      case None => Ok(Household(id, "", "", EntitlementBalance, EntitlementVouchers, ClaimLink(id)))
  }

  /** As written, every non-blank address ends in a TypeError: `Household`
      has no `address` field. No household is ever registered. */
  lemma RegisterAsWrittenRaises(address: string, id: string)
    requires Strip(address) != ""
    ensures RegisterAsWritten(address, id)
            == Err(TypeError(UnexpectedKeyword("address")))
  {
    assert "household_id" in Fields && "address" !in Fields;
    assert RegisterKeywords[1..] == ["address", "balance", "vouchers", "link"];
    assert FirstUnknown(RegisterKeywords[1..]) == Some("address");
    assert FirstUnknown(RegisterKeywords) == Some("address");
  }
}
