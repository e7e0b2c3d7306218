/** Merchant registration (backend/services/merchant_service.py) over the
    merchant file, abstracted to the sequence of its CSV rows
    (backend/storage/merchant_store.py), and the bank-code reference set. */
module Merchants {
  import opened Wrappers
  import opened Text
  import opened MerchantModel
  import opened BankCodes

  /** A registration request: field name to submitted text. */
  type Payload = map<string, string>

  /** The fields a registration must fill, in the order they are checked. */
  const RequiredFields: seq<string> := [
    "merchant_name", "uen", "bank_name", "bank_code", "branch_code",
    "account_number", "account_holder_name"]

  /** `payload.get(key, "")`. */
  function Field(p: Payload, key: string): string {
    if key in p then p[key] else ""
  }

  /** A field that is absent or only whitespace. */
  predicate Blank(p: Payload, key: string) {
    Strip(Field(p, key)) == ""
  }

  /** The first of `keys` that is blank in `p`. */
  function FirstMissing(p: Payload, keys: seq<string>): Option<string> {
    if keys == [] then None
    else if Blank(p, keys[0]) then Some(keys[0])
    else FirstMissing(p, keys[1..])
  }

  /** No key is reported when none is blank; a reported key is blank and
      every key before it is filled. */
  lemma {:induction false} FirstMissingSpec(p: Payload, keys: seq<string>)
    ensures FirstMissing(p, keys) == None <==> forall i :: 0 <= i < |keys| ==> !Blank(p, keys[i])
    ensures FirstMissing(p, keys).Some? ==>
              exists i :: 0 <= i < |keys| && keys[i] == FirstMissing(p, keys).value
                          && Blank(p, keys[i])
                          && forall j :: 0 <= j < i ==> !Blank(p, keys[j])
  {
    if keys != [] && !Blank(p, keys[0]) {
      var rest := keys[1..];
      FirstMissingSpec(p, rest);
      assert forall i :: 0 <= i < |rest| ==> rest[i] == keys[i + 1];
      if FirstMissing(p, rest).Some? {
        var i :| 0 <= i < |rest| && rest[i] == FirstMissing(p, rest).value
                 && Blank(p, rest[i]) && forall j :: 0 <= j < i ==> !Blank(p, rest[j]);
        assert keys[i + 1] == rest[i];
        forall j | 0 <= j < i + 1
          ensures !Blank(p, keys[j])
        {
          if j > 0 {
            assert keys[j] == rest[j - 1];
          }
        }
      }
    }
  }

  /** `payload.get("status", "Active").strip() or "Active"`. */
  function StatusOf(p: Payload): string {
    var s := Strip(if "status" in p then p["status"] else "Active");
    if s == "" then "Active" else s
  }

  /** The stored status is never blank, and a filled status is kept
      stripped. */
  lemma StatusOfSpec(p: Payload)
    ensures StatusOf(p) != ""
    ensures "status" !in p ==> StatusOf(p) == "Active"
    ensures "status" in p && Strip(p["status"]) != "" ==> StatusOf(p) == Strip(p["status"])
    ensures "status" in p && Strip(p["status"]) == "" ==> StatusOf(p) == "Active"
  {
    if "status" !in p {
      StripUnpadded("Active");
    }
  }

  /** The merchant a valid request registers under `id` on `today`. */
  function NewMerchant(p: Payload, id: string, today: string): Merchant {
    Merchant(id, Strip(Field(p, "merchant_name")), Strip(Field(p, "uen")),
             Strip(Field(p, "bank_name")), Strip(Field(p, "bank_code")),
             Strip(Field(p, "branch_code")), Strip(Field(p, "account_number")),
             Strip(Field(p, "account_holder_name")), today, StatusOf(p))
  }

  /** The checks of `register_merchant`, in order, against the UEN index
      and the loaded bank pairs: the message of the first that fails. The
      codes are stripped once by `register_merchant` and again by
      `is_valid`. */
  function Refusal(p: Payload, byUen: map<string, Merchant>, pairs: set<(string, string)>): Option<string> {
    match FirstMissing(p, RequiredFields)
    case Some(key) => Some("Missing required field: " + key)
    case None =>
      if Strip(Field(p, "uen")) in byUen then Some("UEN already registered.")
      else if (Strip(Strip(Field(p, "bank_code"))), Strip(Strip(Field(p, "branch_code")))) !in pairs then
        Some("Invalid bank_code / branch_code based on BankCode.csv.")
      else None
  }

  /** A registration is accepted exactly when every required field is
      filled, the UEN is new and the bank and branch codes form a loaded
      pair; a refusal for a missing field names the first blank one. */
  lemma RefusalSpec(p: Payload, byUen: map<string, Merchant>, pairs: set<(string, string)>)
    ensures Refusal(p, byUen, pairs).None? <==>
              && (forall i :: 0 <= i < |RequiredFields| ==> !Blank(p, RequiredFields[i]))
              && Strip(Field(p, "uen")) !in byUen
              && (Strip(Strip(Field(p, "bank_code"))), Strip(Strip(Field(p, "branch_code")))) in pairs
    ensures FirstMissing(p, RequiredFields).Some? ==>
              exists i :: 0 <= i < |RequiredFields| && Blank(p, RequiredFields[i])
                          && Refusal(p, byUen, pairs) == Some("Missing required field: " + RequiredFields[i])
                          && forall j :: 0 <= j < i ==> !Blank(p, RequiredFields[j])
  {
    FirstMissingSpec(p, RequiredFields);
  }

  /** `f"M{n:04d}"`, the first form of merchant id. */
  function ShortId(n: int): string {
    "M" + ZeroPad(n, 4)
  }

  /** `f"M{n:06d}"`, the fallback form. */
  function LongId(n: int): string {
    "M" + ZeroPad(n, 6)
  }

  /** "M" followed by four or six digits. */
  predicate IsMerchantId(id: string) {
    (|id| == 5 || |id| == 7) && id[0] == 'M' && AllDigits(id[1..])
  }

  lemma ShortIdShape(n: int)
    requires 0 <= n <= 9999
    ensures IsMerchantId(ShortId(n)) && |ShortId(n)| == 5
  {
    assert Pow10(4) == 10000;
    ZeroPadLength(n, 4);
    assert ShortId(n)[1..] == ZeroPad(n, 4);
  }

  lemma LongIdShape(n: int)
    requires 0 <= n <= 999999
    ensures IsMerchantId(LongId(n)) && |LongId(n)| == 7
  {
    assert Pow10(6) == 1000000;
    ZeroPadLength(n, 6);
    assert LongId(n)[1..] == ZeroPad(n, 6);
  }

  /** Distinct draws give distinct ids of either form, and the two forms
      never collide. */
  lemma MerchantIdsDistinct(a: int, b: int)
    requires 0 <= a <= 9999 && 0 <= b <= 999999
    ensures ShortId(a) != LongId(b)
    ensures a != b ==> ShortId(a) != ShortId(b) && LongId(a) != LongId(b)
  {
    ShortIdShape(a);
    LongIdShape(b);
    ZeroPadInjective(a, b, 4);
    ZeroPadInjective(a, b, 6);
    assert ShortId(a)[1..] == ZeroPad(a, 4) && ShortId(b)[1..] == ZeroPad(b, 4);
    assert LongId(a)[1..] == ZeroPad(a, 6) && LongId(b)[1..] == ZeroPad(b, 6);
  }

  /** The key a merchant is indexed under: its id, or its UEN. */
  function KeyOf(m: Merchant, byUen: bool): string {
    if byUen then m.uen else m.merchantId
  }

  /** The index after loading `loaded` into `index`, skipping merchants whose
      key is empty. */
  function Indexed(index: map<string, Merchant>, loaded: seq<Merchant>, byUen: bool): map<string, Merchant> {
    if loaded == [] then index
    else
      var last := loaded[|loaded| - 1];
      var before := Indexed(index, loaded[..|loaded| - 1], byUen);
      if KeyOf(last, byUen) != "" then before[KeyOf(last, byUen) := last] else before
  }

  /** A key is indexed exactly when it was already, or some loaded merchant
      has it and it is not empty. */
  lemma {:induction false} IndexedKeysSpec(index: map<string, Merchant>, loaded: seq<Merchant>, byUen: bool, k: string)
    ensures k in Indexed(index, loaded, byUen) <==>
            k in index || (k != "" && exists i :: 0 <= i < |loaded| && KeyOf(loaded[i], byUen) == k)
  {
    if loaded != [] {
      var init := loaded[..|loaded| - 1];
      IndexedKeysSpec(index, init, byUen, k);
      assert forall i :: 0 <= i < |init| ==> init[i] == loaded[i];
      if exists i :: 0 <= i < |loaded| && KeyOf(loaded[i], byUen) == k {
        var i :| 0 <= i < |loaded| && KeyOf(loaded[i], byUen) == k;
        if i < |init| {
          assert KeyOf(init[i], byUen) == k;
        }
      }
    }
  }

  /** A loaded merchant with a non-empty key holds its entry unless a later
      one has the same key; an entry no loaded merchant touches is kept. */
  lemma {:induction false} IndexedValue(index: map<string, Merchant>, loaded: seq<Merchant>, byUen: bool, i: nat)
    requires i < |loaded| && KeyOf(loaded[i], byUen) != ""
    requires forall j :: i < j < |loaded| ==> KeyOf(loaded[j], byUen) != KeyOf(loaded[i], byUen)
    ensures KeyOf(loaded[i], byUen) in Indexed(index, loaded, byUen)
    ensures Indexed(index, loaded, byUen)[KeyOf(loaded[i], byUen)] == loaded[i]
  {
    var n := |loaded| - 1;
    if i < n {
      var init := loaded[..n];
      assert forall j :: 0 <= j < |init| ==> init[j] == loaded[j];
      IndexedValue(index, init, byUen, i);
    }
  }

  lemma {:induction false} IndexedUntouched(index: map<string, Merchant>, loaded: seq<Merchant>, byUen: bool, k: string)
    requires k in index
    requires forall i :: 0 <= i < |loaded| ==> KeyOf(loaded[i], byUen) != k
    ensures k in Indexed(index, loaded, byUen) && Indexed(index, loaded, byUen)[k] == index[k]
  {
    if loaded != [] {
      var init := loaded[..|loaded| - 1];
      assert forall i :: 0 <= i < |init| ==> init[i] == loaded[i];
      IndexedUntouched(index, init, byUen, k);
    }
  }

  /** The merchant file: its CSV rows, header first once anything has been
      written. */
  class MerchantStore {
    var rows: seq<seq<string>>

    constructor (rows: seq<seq<string>>)
      ensures this.rows == rows
    {
      this.rows := rows;
    }

    /** `append`: write the header into an empty file, then the merchant's
        row. */
    method Append(m: Merchant)
      modifies this
      ensures old(rows) == [] ==> rows == [MerchantHeader, ToCsvRow(m)]
      ensures old(rows) != [] ==> rows == old(rows) + [ToCsvRow(m)]
    {
      if rows == [] {
        rows := [MerchantHeader];
      }
      rows := rows + [ToCsvRow(m)];
    }
  }

  class MerchantService {
    /** `merchants_by_id`. */
    var byId: map<string, Merchant>
    /** `merchants_by_uen`. */
    var byUen: map<string, Merchant>
    const store: MerchantStore
    const bank: BankCodeStore

    /** Each merchant is indexed under its own id and its own UEN. */
    ghost predicate Valid()
      reads this
    {
      && (forall k :: k in byId ==> byId[k].merchantId == k)
      && (forall k :: k in byUen ==> byUen[k].uen == k)
    }

    constructor (store: MerchantStore, bank: BankCodeStore)
      ensures this.store == store && this.bank == bank
      ensures byId == map[] && byUen == map[] && Valid()
    {
      this.store := store;
      this.bank := bank;
      byId := map[];
      byUen := map[];
    }

    /** `bootstrap_from_file`: index the loaded merchants by id and by UEN,
        skipping empty keys. */
    method Bootstrap(loaded: seq<Merchant>)
      requires Valid()
      modifies this
      ensures Valid()
      ensures byId == Indexed(old(byId), loaded, false)
      ensures byUen == Indexed(old(byUen), loaded, true)
    {
      var i := 0;
      while i < |loaded|
        invariant 0 <= i <= |loaded|
        invariant byId == Indexed(old(byId), loaded[..i], false)
        invariant byUen == Indexed(old(byUen), loaded[..i], true)
        invariant Valid()
      {
        assert loaded[..i + 1][..i] == loaded[..i];
        var m := loaded[i];
        if m.merchantId != "" {
          byId := byId[m.merchantId := m];
        }
        if m.uen != "" {
          byUen := byUen[m.uen := m];
        }
        i := i + 1;
      }
      assert loaded[..|loaded|] == loaded;
    }

    /** `_generate_merchant_id`: the first of fifty four-digit draws whose id
        is free, or else the first free six-digit draw. The draws stand for
        the successive values of `random.randint`. */
    method GenerateMerchantId(short: seq<int>, long: seq<int>) returns (id: string)
      requires |short| == 50
      requires forall i :: 0 <= i < |short| ==> 0 <= short[i] <= 9999
      requires forall i :: 0 <= i < |long| ==> 0 <= long[i] <= 999999
      requires (exists i :: 0 <= i < |short| && ShortId(short[i]) !in byId)
               || (exists i :: 0 <= i < |long| && LongId(long[i]) !in byId)
      ensures id !in byId && IsMerchantId(id)
      ensures || (exists k :: 0 <= k < |short| && id == ShortId(short[k])
                              && forall j :: 0 <= j < k ==> ShortId(short[j]) in byId)
              || ((forall j :: 0 <= j < |short| ==> ShortId(short[j]) in byId)
                  && exists k :: 0 <= k < |long| && id == LongId(long[k])
                                 && forall j :: 0 <= j < k ==> LongId(long[j]) in byId)
    {
      var found;
      found, id := FirstFreeShort(short);
      if !found {
        id := FirstFreeLong(long);
      }
    }

    /** The fifty four-digit attempts of `_generate_merchant_id`. */
    method FirstFreeShort(short: seq<int>) returns (found: bool, id: string)
      requires |short| == 50
      requires forall i :: 0 <= i < |short| ==> 0 <= short[i] <= 9999
      ensures found ==> id !in byId && IsMerchantId(id)
      ensures found ==> exists k :: 0 <= k < |short| && id == ShortId(short[k])
                                   && forall j :: 0 <= j < k ==> ShortId(short[j]) in byId
      ensures !found ==> forall j :: 0 <= j < |short| ==> ShortId(short[j]) in byId
    {
      for k := 0 to 50
        invariant forall j :: 0 <= j < k ==> ShortId(short[j]) in byId
      {
        var candidate := ShortId(short[k]);
        if candidate !in byId {
          ShortIdShape(short[k]);
          return true, candidate;
        }
      }
      return false, "";
    }

    /** The six-digit fallback of `_generate_merchant_id`. */
    method FirstFreeLong(long: seq<int>) returns (id: string)
      requires forall i :: 0 <= i < |long| ==> 0 <= long[i] <= 999999
      requires exists i :: 0 <= i < |long| && LongId(long[i]) !in byId
      ensures id !in byId && IsMerchantId(id)
      ensures exists k :: 0 <= k < |long| && id == LongId(long[k])
                          && forall j :: 0 <= j < k ==> LongId(long[j]) in byId
    {
      var candidates := seq(|long|, i requires 0 <= i < |long| => LongId(long[i]));
      assert forall i :: 0 <= i < |long| ==> candidates[i] == LongId(long[i]);
      var k := FirstAbsent(candidates);
      id := candidates[k];
      LongIdShape(long[k]);
    }

    /** The index of the first candidate not yet an id. */
    method FirstAbsent(candidates: seq<string>) returns (k: nat)
      requires exists i :: 0 <= i < |candidates| && candidates[i] !in byId
      ensures k < |candidates| && candidates[k] !in byId
      ensures forall j :: 0 <= j < k ==> candidates[j] in byId
    {
      k := 0;
      while candidates[k] in byId
        invariant 0 <= k < |candidates|
        invariant forall j :: 0 <= j < k ==> candidates[j] in byId
        invariant exists i :: k <= i < |candidates| && candidates[i] !in byId
        decreases |candidates| - k
      {
        k := k + 1;
      }
    }

    /** The required-field loop of `register_merchant`: the first required
        field that is absent or blank once stripped. */
    static method FindMissing(payload: Payload) returns (missing: Option<string>)
      ensures missing == FirstMissing(payload, RequiredFields)
    {
      for i := 0 to |RequiredFields|
        invariant FirstMissing(payload, RequiredFields) == FirstMissing(payload, RequiredFields[i..])
      {
        assert RequiredFields[i..][1..] == RequiredFields[i + 1..];
        var key := RequiredFields[i];
        if Strip(Field(payload, key)) == "" {
          return Some(key);
        }
      }
      assert RequiredFields[|RequiredFields|..] == [];
      return None;
    }

    /** The checks of `register_merchant`, in order: the message of the
        first that fails, if any. */
    method Screen(payload: Payload) returns (refusal: Option<string>)
      ensures refusal == Refusal(payload, byUen, bank.pairs)
    {
      var missing := FindMissing(payload);
      if missing.Some? {
        return Some("Missing required field: " + missing.value);
      }
      var uen := Strip(Field(payload, "uen"));
      var bankCode := Strip(Field(payload, "bank_code"));
      var branchCode := Strip(Field(payload, "branch_code"));
      if uen in byUen {
        return Some("UEN already registered.");
      }
      if !bank.IsValid(bankCode, branchCode) {
        return Some("Invalid bank_code / branch_code based on BankCode.csv.");
      }
      return None;
    }

    /** `register_merchant`: the required fields in order, then UEN
        uniqueness, then the bank and branch codes; a valid request is
        stored under a fresh id with its fields stripped. */
    method RegisterMerchant(payload: Payload, short: seq<int>, long: seq<int>, today: string)
      returns (r: Result<Merchant>)
      requires Valid()
      requires |short| == 50
      requires forall i :: 0 <= i < |short| ==> 0 <= short[i] <= 9999
      requires forall i :: 0 <= i < |long| ==> 0 <= long[i] <= 999999
      requires (exists i :: 0 <= i < |short| && ShortId(short[i]) !in byId)
               || (exists i :: 0 <= i < |long| && LongId(long[i]) !in byId)
      modifies this, store
      ensures Valid()
      ensures var refusal := old(Refusal(payload, byUen, bank.pairs));
              refusal.Some? ==>
                r == Err(ValueError(refusal.value))
                && byId == old(byId) && byUen == old(byUen) && store.rows == old(store.rows)
      ensures old(Refusal(payload, byUen, bank.pairs)).None? ==>
                && r.Ok?
                && var m := r.value;
                && m == NewMerchant(payload, m.merchantId, today)
                && m.merchantId !in old(byId) && IsMerchantId(m.merchantId)
                && byId == old(byId)[m.merchantId := m]
                && byUen == old(byUen)[m.uen := m]
                && (old(store.rows) == [] ==> store.rows == [MerchantHeader, ToCsvRow(m)])
                && (old(store.rows) != [] ==> store.rows == old(store.rows) + [ToCsvRow(m)])
    {
      var refusal := Screen(payload);
      if refusal.Some? {
        return Err(ValueError(refusal.value));
      }
      var id := GenerateMerchantId(short, long);
      var m := Admit(payload, id, today);
      r := Ok(m);
    }

    /** The end of a successful `register_merchant`: the new merchant is
        written to the file and indexed under its id and its UEN. */
    method Admit(payload: Payload, id: string, today: string) returns (m: Merchant)
      requires Valid()
      modifies this, store
      ensures Valid()
      ensures m == NewMerchant(payload, id, today)
      ensures m.merchantId == id && m.uen == Strip(Field(payload, "uen"))
      ensures byId == old(byId)[id := m]
      ensures byUen == old(byUen)[m.uen := m]
      ensures old(store.rows) == [] ==> store.rows == [MerchantHeader, ToCsvRow(m)]
      ensures old(store.rows) != [] ==> store.rows == old(store.rows) + [ToCsvRow(m)]
    {
      m := NewMerchant(payload, id, today);
      store.Append(m);
      byId := byId[id := m];
      byUen := byUen[m.uen := m];
    }
  }

  /** A request that passes the field check has every required field
      present and non-blank, so the stored merchant's required fields are
      all non-empty. */
  lemma AcceptedFieldsFilled(p: Payload, id: string, today: string)
    requires FirstMissing(p, RequiredFields).None?
    ensures forall i :: 0 <= i < |RequiredFields| ==> RequiredFields[i] in p
    ensures var m := NewMerchant(p, id, today);
      m.merchantName != "" && m.uen != "" && m.bankName != "" && m.bankCode != ""
      && m.branchCode != "" && m.accountNumber != "" && m.accountHolderName != ""
  {
    FirstMissingSpec(p, RequiredFields);
    assert !Blank(p, RequiredFields[0]) && !Blank(p, RequiredFields[1]) && !Blank(p, RequiredFields[2]);
    assert !Blank(p, RequiredFields[3]) && !Blank(p, RequiredFields[4]) && !Blank(p, RequiredFields[5]);
    assert !Blank(p, RequiredFields[6]);
  }
}
