/** The household record and its JSON dictionary form
    (backend/models/household.py). */
module HouseholdModel {
  import opened Wrappers

  /** A household's wallet: denomination key ("2", "5", "10") to the number
      of vouchers of that denomination it holds. */
  type Wallet = map<string, int>

  datatype Household = Household(
    householdId: string,
    postalCode: string,
    unitNumber: string,
    balance: int,
    vouchers: Wallet,
    link: string)

  /** The JSON values that occur in a household dictionary. */
  datatype Value = Null | Str(s: string) | Int(i: int) | Counts(m: map<string, int>)

  type Dict = map<string, Value>

  /** The six keys `to_dict` writes, one per dataclass field. */
  const Fields: set<string> :=
    {"household_id", "postal_code", "unit_number", "balance", "vouchers", "link"}

  /** Python truthiness of a JSON value. */
  predicate Truthy(v: Value) {
    match v
    case Null => false
    case Str(s) => s != []
    case Int(i) => i != 0
    case Counts(m) => m != map[]
  }

  /** `Household.to_dict`: one entry per field, under the field's name. */
  function ToDict(h: Household): (d: Dict)
    ensures d.Keys == Fields
  {
    map["household_id" := Str(h.householdId),
        "postal_code" := Str(h.postalCode),
        "unit_number" := Str(h.unitNumber),
        "balance" := Int(h.balance),
        "vouchers" := Counts(h.vouchers),
        "link" := Str(h.link)]
  }

  /** `data.get(key, default)`. */
  function Get(d: Dict, key: string, default: Value): Value {
    if key in d then d[key] else default
  }

  /** The value `from_dict` takes as the id: `data.get("household_id") or
      data.get("id")`. */
  function IdValue(d: Dict): Value {
    var primary := Get(d, "household_id", Null);
    if Truthy(primary) then primary else Get(d, "id", Null)
  }

  /** `Household.from_dict`. The keyword arguments are evaluated in order,
      so the first of balance, vouchers, link that is missing raises the
      KeyError. The record here is typed: a value of the wrong JSON type
      (including an id that is missing under both keys) is reported as a
      TypeError instead of being stored. */
  function FromDict(d: Dict): (r: Result<Household>)
    ensures "balance" !in d ==> r == Err(KeyError("balance"))
    ensures "balance" in d && "vouchers" !in d ==> r == Err(KeyError("vouchers"))
    ensures "balance" in d && "vouchers" in d && "link" !in d ==> r == Err(KeyError("link"))
    ensures r.Ok? ==> IdValue(d) == Str(r.value.householdId)
    ensures r.Ok? ==> Get(d, "postal_code", Str("")) == Str(r.value.postalCode)
    ensures r.Ok? ==> Get(d, "unit_number", Str("")) == Str(r.value.unitNumber)
    ensures r.Ok? ==> d["balance"] == Int(r.value.balance) && d["vouchers"] == Counts(r.value.vouchers)
                      && d["link"] == Str(r.value.link)
    ensures r.Ok? <==>
              && "balance" in d && "vouchers" in d && "link" in d
              && IdValue(d).Str? && Get(d, "postal_code", Str("")).Str? && Get(d, "unit_number", Str("")).Str?
              && d["balance"].Int? && d["vouchers"].Counts? && d["link"].Str?
  {
    var id := IdValue(d);
    var postal := Get(d, "postal_code", Str(""));
    var unit := Get(d, "unit_number", Str(""));
    if "balance" !in d then Err(KeyError("balance"))
    else if "vouchers" !in d then Err(KeyError("vouchers"))
    else if "link" !in d then Err(KeyError("link"))
    else if id.Str? && postal.Str? && unit.Str? && d["balance"].Int?
            && d["vouchers"].Counts? && d["link"].Str? then
      Ok(Household(id.s, postal.s, unit.s, d["balance"].i, d["vouchers"].m, d["link"].s))
    else Err(TypeError("household field of the wrong type"))
  }

  /** Reading back what was written gives the same household, provided its
      id is not empty. */
  lemma RoundTrip(h: Household)
    requires h.householdId != ""
    ensures FromDict(ToDict(h)) == Ok(h)
  {
    var d := ToDict(h);
    assert IdValue(d) == Str(h.householdId);
  }

  /** An empty id is falsy, so `from_dict` looks under "id", which `to_dict`
      never writes: such a household does not survive the round trip. */
  lemma EmptyIdLost(h: Household)
    requires h.householdId == ""
    ensures FromDict(ToDict(h)).Err?
  {
    var d := ToDict(h);
    assert "id" !in d;
    assert IdValue(d) == Null;
  }

  /** A record stored under the legacy key "id" is still read, when
      "household_id" is missing or empty. */
  lemma LegacyIdFallback(d: Dict, id: string)
    requires "household_id" !in d || d["household_id"] == Str("")
    requires "id" in d && d["id"] == Str(id)
    ensures FromDict(d).Ok? ==> FromDict(d).value.householdId == id
  {
  }
}
