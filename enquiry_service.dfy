/** The per-voucher reservation service (backend/services/enquiry_service.py)
    over the in-memory store, proved to behave as module EnquirySpec says.
    Every `now_utc()` read becomes an integer time passed in; the draws of
    `_gen_redemption_number` are passed in too. */
module Enquiry {
  import opened Wrappers
  import opened VoucherStore
  import opened EnquirySpec

  class EnquiryService {
    const store: MemoryStore

    /** `__init__`: the demo household "H1" is seeded with $800 only when
        the store holds no voucher yet. */
    constructor (store: MemoryStore)
      modifies store
      ensures this.store == store
      ensures old(store.vouchers) == map[] ==> store.vouchers == Seeded("H1", PlanDenoms(DemoPlan))
      ensures old(store.vouchers) != map[] ==> store.vouchers == old(store.vouchers)
      ensures store.reservations == old(store.reservations)
    {
      this.store := store;
      new;
      if store.vouchers == map[] {
        SeedDemoHousehold("H1", 800);
        DemoSeed();
        assert map[] + Seeded("H1", PlanDenoms(DemoPlan)) == Seeded("H1", PlanDenoms(DemoPlan));
      }
    }

    /** `seed_demo_household`: one AVAILABLE voucher per unit of the plan,
        numbered from 1, each stored under its own id (overwriting a voucher
        already stored under that id). */
    method SeedDemoHousehold(householdId: string, entitlement: int)
      modifies store
      ensures store.vouchers == old(store.vouchers) + Seeded(householdId, PlanDenoms(PlanFor(entitlement)))
      ensures store.reservations == old(store.reservations)
    {
      var plan := DemoPlan;
      var total := PlanTotal(plan);
      if total != entitlement {
        plan := [(10, entitlement / 10)];
      }
      var i := 1;
      ghost var v0 := store.vouchers;
      for p := 0 to |plan|
        invariant store.reservations == old(store.reservations)
        invariant i == |PlanDenoms(plan[..p])| + 1
        invariant store.vouchers == v0 + Seeded(householdId, PlanDenoms(plan[..p]))
      {
        var (denom, cnt) := plan[p];
        ghost var cur := PlanDenoms(plan[..p]);
        ghost var before := cur;
        assert before + seq(0, _ => denom) == before;
        for c := 0 to Times(cnt)
          invariant store.reservations == old(store.reservations)
          invariant cur == before + seq(c, _ => denom)
          invariant i == |cur| + 1
          invariant store.vouchers == v0 + Seeded(householdId, cur)
        {
          var vid := SeedId(householdId, i);
          SeedOneMore(v0, householdId, cur, denom);
          store.vouchers := store.vouchers[vid := Voucher(vid, householdId, denom, Available, None)];
          RepeatSnoc(denom, c);
          cur := cur + [denom];
          i := i + 1;
        }
        assert plan[..p + 1] == plan[..p] + [plan[p]];
        PlanDenomsSnoc(plan[..p], plan[p]);
      }
      assert plan[..|plan|] == plan;
    }

    /** The inner loop of `cleanup_expired`: each listed voucher still
        RESERVED becomes AVAILABLE with no hold time. */
    method ReleaseListed(ids: seq<string>)
      modifies store
      ensures store.vouchers == ReleaseAll(old(store.vouchers), set vid | vid in ids)
      ensures store.reservations == old(store.reservations)
    {
      ghost var v0 := store.vouchers;
      ghost var done: set<string> := {};
      assert ReleaseAll(v0, {}) == v0;
      for j := 0 to |ids|
        invariant done == set vid | vid in ids[..j]
        invariant store.vouchers == ReleaseAll(v0, done)
        invariant store.reservations == old(store.reservations)
      {
        var vid := ids[j];
        assert ids[..j + 1] == ids[..j] + [vid];
        ReleaseAllTwice(v0, done, {vid});
        if vid in store.vouchers && store.vouchers[vid].state == Reserved {
          store.vouchers := store.vouchers[vid := Release(store.vouchers[vid])];
        }
        assert store.vouchers == ReleaseAll(ReleaseAll(v0, done), {vid});
        done := done + {vid};
      }
      assert ids[..|ids|] == ids;
    }

    /** `cleanup_expired` at time `t`: every due ACTIVE reservation becomes
        EXPIRED and each of its vouchers still RESERVED becomes AVAILABLE
        with no hold time. */
    method CleanupExpired(t: int)
      modifies store
      ensures store.reservations == SweepReservations(old(store.reservations), t)
      ensures store.vouchers == SweepVouchers(old(store.vouchers), old(store.reservations), t)
    {
      ghost var rs0 := store.reservations;
      ghost var vs0 := store.vouchers;
      var todo := store.reservations.Keys;
      ghost var done: set<string> := {};
      SweepStart(rs0, t);
      assert ReleaseAll(vs0, {}) == vs0;
      while todo != {}
        invariant todo + done == rs0.Keys && todo !! done
        invariant store.reservations == SweepSome(rs0, done, t)
        invariant store.vouchers == ReleaseAll(vs0, FreedIn(rs0, done, t))
        decreases |todo|
      {
        var rn :| rn in todo;
        SweepOne(rs0, vs0, done, rn, t);
        MoveVisited(todo, done, rs0.Keys, rn);
        todo := todo - {rn};
        done := done + {rn};
      }
      SweepEnd(rs0, t);
    }

    /** One turn of the cleanup loop: reservation `rn`, when ACTIVE and
        due, is marked EXPIRED and its vouchers released. */
    method SweepOne(ghost rs0: map<string, Reservation>, ghost vs0: map<string, Voucher>,
                    ghost done: set<string>, rn: string, t: int)
      requires rn in rs0 && rn !in done
      requires store.reservations == SweepSome(rs0, done, t)
      requires store.vouchers == ReleaseAll(vs0, FreedIn(rs0, done, t))
      modifies store
      ensures store.reservations == SweepSome(rs0, done + {rn}, t)
      ensures store.vouchers == ReleaseAll(vs0, FreedIn(rs0, done + {rn}, t))
    {
      assert rn in store.reservations;
      var res := store.reservations[rn];
      SweepStep(rs0, done, rn, t);
      assert res == rs0[rn];
      if res.status == Active && t >= res.expiresAt {
        store.reservations := store.reservations[rn := res.(status := ExpiredStatus)];
        ReleaseListed(res.voucherIds);
        ReleaseAllTwice(vs0, FreedIn(rs0, done, t), set vid | vid in res.voucherIds);
      } else {
        assert FreedIn(rs0, done, t) + {} == FreedIn(rs0, done, t);
      }
    }

    /** The loop of `get_balance` over the stored vouchers. */
    method Aggregate(householdId: string) returns (total: int, breakdown: map<int, int>)
      ensures total == DenomTotal(store.vouchers, AvailableIds(store.vouchers, householdId))
      ensures breakdown == Breakdown(store.vouchers, AvailableIds(store.vouchers, householdId))
    {
      total := 0;
      breakdown := map[];
      var vs := store.vouchers;
      ghost var avail := AvailableIds(vs, householdId);
      ghost var picked: set<string> := {};
      var todo := vs.Keys;
      assert Breakdown(vs, {}) == map[];
      while todo != {}
        invariant todo <= vs.Keys
        invariant picked == avail - todo && picked <= vs.Keys
        invariant total == DenomTotal(vs, picked)
        invariant breakdown == Breakdown(vs, picked)
        decreases |todo|
      {
        var k :| k in todo;
        var v := vs[k];
        ScanStep(vs, householdId, todo, picked, k);
        if v.householdId == householdId && v.state == Available {
          TallyAdd(vs, picked, k);
          total := total + v.denomination;
          var d := v.denomination;
          breakdown := breakdown[d := (if d in breakdown then breakdown[d] else 0) + 1];
          picked := picked + {k};
        }
        todo := todo - {k};
      }
      assert picked == avail;
    }

    /** The filter of `list_available_vouchers`, before the sort. */
    method CollectAvailable(householdId: string) returns (found: seq<Voucher>)
      ensures multiset(found) == ValuesOf(store.vouchers, AvailableIds(store.vouchers, householdId))
    {
      var vs := store.vouchers;
      ghost var avail := AvailableIds(vs, householdId);
      ghost var picked: set<string> := {};
      found := [];
      var todo := vs.Keys;
      while todo != {}
        invariant todo <= vs.Keys
        invariant picked == avail - todo && picked <= vs.Keys
        invariant multiset(found) == ValuesOf(vs, picked)
        decreases |todo|
      {
        var k :| k in todo;
        var v := vs[k];
        ScanStep(vs, householdId, todo, picked, k);
        if v.householdId == householdId && v.state == Available {
          CollectAdd(vs, picked, k);
          found := found + [v];
          picked := picked + {k};
        }
        todo := todo - {k};
      }
      assert picked == avail;
    }

    /** `get_balance(household_id)` at time `t`: after the sweep, the sum of
        the denominations of the household's AVAILABLE vouchers and their
        count per denomination. */
    method GetBalance(householdId: string, t: int) returns (total: int, breakdown: map<int, int>)
      modifies store
      ensures store.reservations == SweepReservations(old(store.reservations), t)
      ensures store.vouchers == SweepVouchers(old(store.vouchers), old(store.reservations), t)
      ensures total == DenomTotal(store.vouchers, AvailableIds(store.vouchers, householdId))
      ensures breakdown == Breakdown(store.vouchers, AvailableIds(store.vouchers, householdId))
    {
      CleanupExpired(t);
      total, breakdown := Aggregate(householdId);
    }

    /** `list_available_vouchers(household_id)` at time `t`: after the
        sweep, the household's AVAILABLE vouchers, by descending
        denomination and then ascending voucher id. */
    method ListAvailableVouchers(householdId: string, t: int) returns (r: seq<Voucher>)
      modifies store
      ensures store.reservations == SweepReservations(old(store.reservations), t)
      ensures store.vouchers == SweepVouchers(old(store.vouchers), old(store.reservations), t)
      ensures multiset(r) == ValuesOf(store.vouchers, AvailableIds(store.vouchers, householdId))
      ensures SortedByKey(r)
    {
      CleanupExpired(t);
      var found := CollectAvailable(householdId);
      r := SortByKey(found);
      SortByKeySpec(found);
    }

    /** The first loop of `create_redemption_code_for_selection`: each id
        once, at its first occurrence. */
    method DedupIds(voucherIds: seq<string>) returns (clean: seq<string>)
      ensures clean == Dedup(voucherIds)
    {
      var seen: set<string> := {};
      clean := [];
      for i := 0 to |voucherIds|
        invariant clean + DedupFrom(voucherIds[i..], seen) == Dedup(voucherIds)
      {
        var vid := voucherIds[i];
        assert voucherIds[i..][1..] == voucherIds[i + 1..];
        if vid in seen {
          continue;
        }
        seen := seen + {vid};
        clean := clean + [vid];
      }
      assert voucherIds[|voucherIds|..] == [];
    }

    /** The second loop: the checks on each selected voucher, in order,
        summing the denominations. */
    method CheckSelection(householdId: string, clean: seq<string>) returns (r: Result<int>)
      ensures r == Validate(store.vouchers, householdId, clean)
    {
      var vs := store.vouchers;
      var amount := 0;
      for i := 0 to |clean|
        invariant forall j :: 0 <= j < i ==> Selectable(vs, householdId, clean[j])
        invariant amount == SumDenominations(vs, clean[..i])
      {
        var vid := clean[i];
        if vid !in vs {
          ValidateFirstFailure(vs, householdId, clean, i);
          return Err(ValueError("Invalid voucher: " + vid));
        }
        var v := vs[vid];
        if v.householdId != householdId {
          ValidateFirstFailure(vs, householdId, clean, i);
          return Err(ValueError(MsgNotOwned));
        }
        if v.state != Available {
          ValidateFirstFailure(vs, householdId, clean, i);
          return Err(ValueError(MsgNotAvailable));
        }
        SumDenominationsAppend(vs, clean[..i], [vid]);
        assert clean[..i + 1] == clean[..i] + [vid];
        assert [vid][1..] == [];
        amount := amount + v.denomination;
      }
      assert clean[..|clean|] == clean;
      ValidateSpec(vs, householdId, clean);
      r := Ok(amount);
    }

    /** The retry loop of `_gen_redemption_number`: the first draw not
        already a reservation key. */
    method FreshNumber(draws: seq<string>) returns (rn: string)
      requires exists i :: 0 <= i < |draws| && draws[i] !in store.reservations
      ensures rn !in store.reservations
      ensures exists k :: 0 <= k < |draws| && draws[k] == rn
                          && forall j :: 0 <= j < k ==> draws[j] in store.reservations
    {
      var k := 0;
      while draws[k] in store.reservations
        invariant 0 <= k < |draws|
        invariant forall j :: 0 <= j < k ==> draws[j] in store.reservations
        invariant exists i :: k <= i < |draws| && draws[i] !in store.reservations
        decreases |draws| - k
      {
        k := k + 1;
      }
      rn := draws[k];
    }

    /** The third loop: every selected voucher becomes RESERVED until
        `until`. */
    method LockSelected(clean: seq<string>, until: int)
      requires forall i :: 0 <= i < |clean| ==> clean[i] in store.vouchers
      modifies store
      ensures store.vouchers == Lock(old(store.vouchers), clean, until)
      ensures store.reservations == old(store.reservations)
    {
      ghost var vs0 := store.vouchers;
      assert Lock(vs0, [], until) == vs0;
      for i := 0 to |clean|
        invariant store.reservations == old(store.reservations)
        invariant store.vouchers == Lock(vs0, clean[..i], until)
      {
        var vid := clean[i];
        LockSnoc(vs0, clean[..i], vid, until);
        assert clean[..i + 1] == clean[..i] + [vid];
        var v := store.vouchers[vid];
        store.vouchers := store.vouchers[vid := v.(state := Reserved, reservedUntil := Some(until))];
      }
      assert clean[..|clean|] == clean;
    }

    /** `create_redemption_code_for_selection` at time `now`: after the
        sweep, refuse an empty selection; deduplicate it; refuse it, before
        locking anything, if any voucher is unknown, another household's or
        not AVAILABLE; otherwise lock every selected voucher until `now +
        ttl` and store an ACTIVE reservation under the first drawn
        redemption number not already in use. */
    method CreateRedemptionCodeForSelection(householdId: string, voucherIds: seq<string>, ttl: int, now: int,
                                            draws: seq<string>) returns (r: Result<Reservation>)
      requires forall i :: 0 <= i < |draws| ==> IsRedemptionNumber(draws[i])
      requires exists i :: 0 <= i < |draws| && draws[i] !in store.reservations
      modifies store
      ensures var vs0 := SweepVouchers(old(store.vouchers), old(store.reservations), now);
              var rs0 := SweepReservations(old(store.reservations), now);
              var check := Validate(vs0, householdId, Dedup(voucherIds));
              && (voucherIds == [] ==>
                    r == Err(ValueError(MsgNoneSelected)) && store.vouchers == vs0 && store.reservations == rs0)
              && (voucherIds != [] && check.Err? ==>
                    r == Err(check.failure) && store.vouchers == vs0 && store.reservations == rs0)
              && (voucherIds != [] && check.Ok? ==>
                    && r.Ok?
                    && var rn := r.value.redemptionNumber;
                    && r.value == Reservation(rn, householdId, Dedup(voucherIds), check.value, now, now + ttl, Active)
                    && IsRedemptionNumber(rn) && rn !in rs0
                    && (exists k :: 0 <= k < |draws| && draws[k] == rn
                                    && forall j :: 0 <= j < k ==> draws[j] in rs0)
                    && store.reservations == rs0[rn := r.value]
                    && store.vouchers == Lock(vs0, Dedup(voucherIds), now + ttl))
    {
      CleanupExpired(now);
      if |voucherIds| == 0 {
        return Err(ValueError(MsgNoneSelected));
      }
      var clean := DedupIds(voucherIds);
      var check := CheckSelection(householdId, clean);
      if check.Err? {
        return Err(check.failure);
      }
      var amount := check.value;
      ValidateSpec(store.vouchers, householdId, clean);
      var rn := FreshNumber(draws);
      var created := now;
      var expires := created + ttl;
      LockSelected(clean, expires);
      var res := Reservation(rn, householdId, clean, amount, created, expires, Active);
      store.reservations := store.reservations[rn := res];
      r := Ok(res);
    }
  }
}
