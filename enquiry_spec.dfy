/** What the per-voucher reservation service (backend/services/enquiry_service.py)
    computes, as functions of the store's two maps. */
module EnquirySpec {
  import opened Wrappers
  import opened Text
  import opened VoucherStore

  // -----------------------------------------------------------------------
  // cleanup_expired
  // -----------------------------------------------------------------------

  /** An ACTIVE reservation whose expiry time has been reached (`t >=
      expires_at`: the reservation is gone at exactly its expiry time). */
  predicate DueAt(r: Reservation, t: int) {
    r.status == Active && t >= r.expiresAt
  }

  function Swept(r: Reservation, t: int): Reservation {
    if DueAt(r, t) then r.(status := ExpiredStatus) else r
  }

  /** The reservations after the sweep at `t`. */
  function SweepReservations(rs: map<string, Reservation>, t: int): map<string, Reservation> {
    map rn | rn in rs :: Swept(rs[rn], t)
  }

  /** The voucher ids listed by a reservation the sweep at `t` expires. */
  function FreedBy(rs: map<string, Reservation>, t: int): set<string> {
    set rn, vid | rn in rs && DueAt(rs[rn], t) && vid in rs[rn].voucherIds :: vid
  }

  function Release(v: Voucher): Voucher {
    v.(state := Available, reservedUntil := None)
  }

  /** The vouchers after releasing every RESERVED one among `ids`. */
  function ReleaseAll(vs: map<string, Voucher>, ids: set<string>): map<string, Voucher> {
    map vid | vid in vs :: if vid in ids && vs[vid].state == Reserved then Release(vs[vid]) else vs[vid]
  }

  /** Releasing in two rounds releases the union: a released voucher is
      AVAILABLE, so the second round leaves it alone. */
  lemma ReleaseAllTwice(vs: map<string, Voucher>, a: set<string>, b: set<string>)
    ensures ReleaseAll(ReleaseAll(vs, a), b) == ReleaseAll(vs, a + b)
  {
    assert Available[0] != Reserved[0];
    var lhs := ReleaseAll(ReleaseAll(vs, a), b);
    var rhs := ReleaseAll(vs, a + b);
    assert lhs.Keys == rhs.Keys;
    forall vid | vid in lhs
      ensures lhs[vid] == rhs[vid]
    {
    }
  }

  /** The vouchers after the sweep at `t`. */
  function SweepVouchers(vs: map<string, Voucher>, rs: map<string, Reservation>, t: int): map<string, Voucher> {
    ReleaseAll(vs, FreedBy(rs, t))
  }

  /** Part way through the sweep: the reservations `done` have been
      visited. */
  function SweepSome(rs: map<string, Reservation>, done: set<string>, t: int): map<string, Reservation> {
    map rn | rn in rs :: if rn in done then Swept(rs[rn], t) else rs[rn]
  }

  /** The voucher ids listed by a due reservation among `done`. */
  function FreedIn(rs: map<string, Reservation>, done: set<string>, t: int): set<string> {
    set rn, vid | rn in rs && rn in done && DueAt(rs[rn], t) && vid in rs[rn].voucherIds :: vid
  }

  lemma SweepStart(rs: map<string, Reservation>, t: int)
    ensures SweepSome(rs, {}, t) == rs && FreedIn(rs, {}, t) == {}
  {
  }

  lemma SweepStep(rs: map<string, Reservation>, done: set<string>, rn: string, t: int)
    requires rn in rs
    ensures SweepSome(rs, done + {rn}, t) == SweepSome(rs, done, t)[rn := Swept(rs[rn], t)]
    ensures FreedIn(rs, done + {rn}, t)
            == FreedIn(rs, done, t) + (if DueAt(rs[rn], t) then set vid | vid in rs[rn].voucherIds else {})
  {
    var a := FreedIn(rs, done + {rn}, t);
    var b := FreedIn(rs, done, t) + (if DueAt(rs[rn], t) then set vid | vid in rs[rn].voucherIds else {});
    forall vid | vid in b
      ensures vid in a
    {
      if vid !in FreedIn(rs, done, t) {
        assert vid in rs[rn].voucherIds;
      }
    }
  }

  lemma SweepEnd(rs: map<string, Reservation>, t: int)
    ensures SweepSome(rs, rs.Keys, t) == SweepReservations(rs, t)
    ensures FreedIn(rs, rs.Keys, t) == FreedBy(rs, t)
  {
  }

  /** Moving one id from the ids still to visit to those visited. */
  lemma MoveVisited(todo: set<string>, done: set<string>, all: set<string>, x: string)
    requires todo + done == all && todo !! done && x in todo
    ensures (todo - {x}) + (done + {x}) == all && (todo - {x}) !! (done + {x})
  {
  }

  /** After a sweep no reservation is both ACTIVE and due. */
  lemma SweepLeavesNoneDue(rs: map<string, Reservation>, t: int)
    ensures forall rn :: rn in SweepReservations(rs, t) ==> !DueAt(SweepReservations(rs, t)[rn], t)
    ensures FreedBy(SweepReservations(rs, t), t) == {}
  {
    var swept := SweepReservations(rs, t);
    forall rn | rn in swept
      ensures !DueAt(swept[rn], t)
    {
      assert swept[rn] == Swept(rs[rn], t);
    }
  }

  /** A second sweep at the same time changes nothing. */
  lemma SweepIdempotent(vs: map<string, Voucher>, rs: map<string, Reservation>, t: int)
    ensures SweepReservations(SweepReservations(rs, t), t) == SweepReservations(rs, t)
    ensures SweepVouchers(SweepVouchers(vs, rs, t), SweepReservations(rs, t), t) == SweepVouchers(vs, rs, t)
  {
    SweepLeavesNoneDue(rs, t);
    var swept := SweepReservations(rs, t);
    assert SweepReservations(swept, t) == swept;
    var freed := SweepVouchers(vs, rs, t);
    assert ReleaseAll(freed, {}) == freed;
  }

  /** A voucher the sweep touches was RESERVED under a due reservation and
      ends AVAILABLE with no hold time; every other voucher is kept. */
  lemma SweepOnlyReleases(vs: map<string, Voucher>, rs: map<string, Reservation>, t: int, vid: string)
    requires vid in vs
    ensures vid in SweepVouchers(vs, rs, t)
    ensures SweepVouchers(vs, rs, t)[vid] != vs[vid] ==>
              && vs[vid].state == Reserved
              && (exists rn :: rn in rs && DueAt(rs[rn], t) && vid in rs[rn].voucherIds)
              && SweepVouchers(vs, rs, t)[vid].state == Available
              && SweepVouchers(vs, rs, t)[vid].reservedUntil == None
  {
  }

  // -----------------------------------------------------------------------
  // get_balance
  // -----------------------------------------------------------------------

  /** The ids of the household's AVAILABLE vouchers. */
  function AvailableIds(vs: map<string, Voucher>, householdId: string): (r: set<string>)
    ensures r <= vs.Keys
  {
    set vid | vid in vs && vs[vid].householdId == householdId && vs[vid].state == Available
  }

  /** Scanning one more voucher id `k`: the AVAILABLE ids seen so far grow
      by `k` exactly when it is one of the household's AVAILABLE vouchers. */
  lemma AvailableStep(vs: map<string, Voucher>, householdId: string, todo: set<string>, k: string)
    requires k in todo && k in vs
    ensures AvailableIds(vs, householdId) - (todo - {k})
            == (AvailableIds(vs, householdId) - todo)
               + (if vs[k].householdId == householdId && vs[k].state == Available then {k} else {})
  {
  }

  /** One turn of a scan over the stored vouchers: `picked`, the household's
      AVAILABLE ids among those visited, takes in `k` when it qualifies. */
  lemma ScanStep(vs: map<string, Voucher>, householdId: string, todo: set<string>, picked: set<string>, k: string)
    requires todo <= vs.Keys && k in todo
    requires picked == AvailableIds(vs, householdId) - todo
    ensures Selectable(vs, householdId, k) ==> k !in picked
    ensures var next := if Selectable(vs, householdId, k) then picked + {k} else picked;
            next == AvailableIds(vs, householdId) - (todo - {k}) && next <= vs.Keys
  {
    AvailableStep(vs, householdId, todo, k);
    assert picked + {} == picked;
  }

  /** Counting one more voucher into the total and the breakdown. */
  lemma TallyAdd(vs: map<string, Voucher>, picked: set<string>, k: string)
    requires picked <= vs.Keys && k in vs && k !in picked
    ensures DenomTotal(vs, picked + {k}) == DenomTotal(vs, picked) + vs[k].denomination
    ensures var d := vs[k].denomination;
            Breakdown(vs, picked + {k})
            == Breakdown(vs, picked)[d := (if d in Breakdown(vs, picked) then Breakdown(vs, picked)[d] else 0) + 1]
  {
    DenomTotalRemove(vs, picked + {k}, k);
    assert (picked + {k}) - {k} == picked;
    BreakdownAdd(vs, picked, k);
  }

  /** Collecting one more voucher. */
  lemma CollectAdd(vs: map<string, Voucher>, picked: set<string>, k: string)
    requires picked <= vs.Keys && k in vs && k !in picked
    ensures ValuesOf(vs, picked + {k}) == ValuesOf(vs, picked) + multiset{vs[k]}
  {
    ValuesOfRemove(vs, picked + {k}, k);
    assert (picked + {k}) - {k} == picked;
  }

  /** The sum of the denominations of the vouchers `ids`. */
  ghost function DenomTotal(vs: map<string, Voucher>, ids: set<string>): int
    requires ids <= vs.Keys
    decreases ids
  {
    if ids == {} then 0
    else
      var k :| k in ids;
      vs[k].denomination + DenomTotal(vs, ids - {k})
  }

  /** The vouchers `ids` as a multiset of records. */
  ghost function ValuesOf(vs: map<string, Voucher>, ids: set<string>): multiset<Voucher>
    requires ids <= vs.Keys
    decreases ids
  {
    if ids == {} then multiset{}
    else
      var k :| k in ids;
      multiset{vs[k]} + ValuesOf(vs, ids - {k})
  }

  /** How many of the vouchers `ids` have denomination `d`. */
  function CountOf(vs: map<string, Voucher>, ids: set<string>, d: int): nat
    requires ids <= vs.Keys
  {
    |set vid | vid in ids && vs[vid].denomination == d|
  }

  function DenomsOf(vs: map<string, Voucher>, ids: set<string>): set<int>
    requires ids <= vs.Keys
  {
    set vid | vid in ids :: vs[vid].denomination
  }

  /** The breakdown: denomination to number of vouchers of it. */
  function Breakdown(vs: map<string, Voucher>, ids: set<string>): map<int, int>
    requires ids <= vs.Keys
  {
    map d | d in DenomsOf(vs, ids) :: CountOf(vs, ids, d)
  }

  /** Σ d × bd[d] over the denominations listed in `ds`. */
  function WeightedSum(bd: map<int, int>, ds: seq<int>): int
    requires forall i :: 0 <= i < |ds| ==> ds[i] in bd
  {
    if ds == [] then 0 else ds[0] * bd[ds[0]] + WeightedSum(bd, ds[1..])
  }

  lemma {:induction false} DenomTotalRemove(vs: map<string, Voucher>, ids: set<string>, k: string)
    requires ids <= vs.Keys && k in ids
    ensures DenomTotal(vs, ids) == vs[k].denomination + DenomTotal(vs, ids - {k})
    decreases ids
  {
    var j :| j in ids && DenomTotal(vs, ids) == vs[j].denomination + DenomTotal(vs, ids - {j});
    if j != k {
      DenomTotalRemove(vs, ids - {j}, k);
      DenomTotalRemove(vs, ids - {k}, j);
      assert ids - {j} - {k} == ids - {k} - {j};
    }
  }

  lemma {:induction false} ValuesOfRemove(vs: map<string, Voucher>, ids: set<string>, k: string)
    requires ids <= vs.Keys && k in ids
    ensures ValuesOf(vs, ids) == multiset{vs[k]} + ValuesOf(vs, ids - {k})
    decreases ids
  {
    var j :| j in ids && ValuesOf(vs, ids) == multiset{vs[j]} + ValuesOf(vs, ids - {j});
    if j != k {
      ValuesOfRemove(vs, ids - {j}, k);
      ValuesOfRemove(vs, ids - {k}, j);
      assert ids - {j} - {k} == ids - {k} - {j};
    }
  }

  /** The multiset holds exactly the records of `ids`, one per id. */
  lemma {:induction false} ValuesOfSpec(vs: map<string, Voucher>, ids: set<string>)
    requires ids <= vs.Keys
    ensures |ValuesOf(vs, ids)| == |ids|
    ensures forall v :: v in ValuesOf(vs, ids) <==> exists k :: k in ids && vs[k] == v
    decreases ids
  {
    if ids != {} {
      var k :| k in ids;
      ValuesOfRemove(vs, ids, k);
      ValuesOfSpec(vs, ids - {k});
    }
  }

  lemma {:induction false} DenomTotalUnion(vs: map<string, Voucher>, a: set<string>, b: set<string>)
    requires a <= vs.Keys && b <= vs.Keys && a !! b
    ensures DenomTotal(vs, a + b) == DenomTotal(vs, a) + DenomTotal(vs, b)
    decreases a
  {
    if a == {} {
      assert a + b == b;
    } else {
      var k :| k in a;
      DenomTotalRemove(vs, a + b, k);
      DenomTotalRemove(vs, a, k);
      assert (a + b) - {k} == (a - {k}) + b;
      DenomTotalUnion(vs, a - {k}, b);
    }
  }

  lemma {:induction false} DenomTotalUniform(vs: map<string, Voucher>, ids: set<string>, d: int)
    requires ids <= vs.Keys
    requires forall k :: k in ids ==> vs[k].denomination == d
    ensures DenomTotal(vs, ids) == d * |ids|
    decreases ids
  {
    if ids != {} {
      var k :| k in ids;
      DenomTotalRemove(vs, ids, k);
      DenomTotalUniform(vs, ids - {k}, d);
    }
  }

  /** The vouchers among `ids` of another denomination than `d`. */
  function OtherDenoms(vs: map<string, Voucher>, ids: set<string>, d: int): (r: set<string>)
    requires ids <= vs.Keys
    ensures r <= ids
  {
    set k | k in ids && vs[k].denomination != d
  }

  /** Taking out the vouchers of one denomination. */
  lemma SplitDenomination(vs: map<string, Voucher>, ids: set<string>, d: int)
    requires ids <= vs.Keys
    ensures DenomTotal(vs, ids) == d * CountOf(vs, ids, d) + DenomTotal(vs, OtherDenoms(vs, ids, d))
    ensures forall e :: e != d ==> CountOf(vs, OtherDenoms(vs, ids, d), e) == CountOf(vs, ids, e)
  {
    var a := set k | k in ids && vs[k].denomination == d;
    var b := OtherDenoms(vs, ids, d);
    assert ids == a + b;
    DenomTotalUnion(vs, a, b);
    DenomTotalUniform(vs, a, d);
    forall e | e != d
      ensures CountOf(vs, b, e) == CountOf(vs, ids, e)
    {
      assert (set k | k in ids && vs[k].denomination == e) == (set k | k in b && vs[k].denomination == e);
    }
  }

  /** Grouping by denomination: the total of `ids` is Σ d × bd[d] over any
      duplicate-free list of denominations covering theirs, whenever bd
      counts them. */
  lemma {:induction false} TotalByDenomination(vs: map<string, Voucher>, ids: set<string>, ds: seq<int>, bd: map<int, int>)
    requires ids <= vs.Keys
    requires forall i, j :: 0 <= i < j < |ds| ==> ds[i] != ds[j]
    requires forall k :: k in ids ==> vs[k].denomination in ds
    requires forall i :: 0 <= i < |ds| ==> ds[i] in bd && bd[ds[i]] == CountOf(vs, ids, ds[i])
    ensures DenomTotal(vs, ids) == WeightedSum(bd, ds)
  {
    if ds == [] {
      assert ids == {};
    } else {
      var d := ds[0];
      var rest := ds[1..];
      var b := OtherDenoms(vs, ids, d);
      SplitDenomination(vs, ids, d);
      assert forall i :: 0 <= i < |rest| ==> rest[i] == ds[i + 1] && rest[i] != d;
      forall k | k in b
        ensures vs[k].denomination in rest
      {
        var i :| 0 <= i < |ds| && ds[i] == vs[k].denomination;
        assert rest[i - 1] == ds[i];
      }
      TotalByDenomination(vs, b, rest, bd);
    }
  }

  /** The balance identity: total == Σ d × breakdown[d], summed over the
      breakdown's denominations in any order. */
  lemma BalanceIdentity(vs: map<string, Voucher>, ids: set<string>, ds: seq<int>)
    requires ids <= vs.Keys
    requires forall i, j :: 0 <= i < j < |ds| ==> ds[i] != ds[j]
    requires forall d :: d in ds <==> d in Breakdown(vs, ids)
    ensures DenomTotal(vs, ids) == WeightedSum(Breakdown(vs, ids), ds)
  {
    var bd := Breakdown(vs, ids);
    assert bd.Keys == DenomsOf(vs, ids);
    forall i | 0 <= i < |ds|
      ensures ds[i] in bd && bd[ds[i]] == CountOf(vs, ids, ds[i])
    {
      var d := ds[i];
      assert d in ds;
      assert d in DenomsOf(vs, ids);
    }
    forall k | k in ids
      ensures vs[k].denomination in ds
    {
      assert vs[k].denomination in DenomsOf(vs, ids);
    }
    TotalByDenomination(vs, ids, ds, Breakdown(vs, ids));
  }

  lemma {:induction false} SubsetCard(a: set<string>, b: set<string>)
    requires a <= b
    ensures |a| <= |b|
    decreases a
  {
    if a != {} {
      var k :| k in a;
      SubsetCard(a - {k}, b - {k});
    }
  }

  /** Every breakdown entry counts at least one voucher and at most all of
      them. */
  lemma BreakdownCounts(vs: map<string, Voucher>, ids: set<string>, d: int)
    requires ids <= vs.Keys
    ensures d in Breakdown(vs, ids) <==> exists k :: k in ids && vs[k].denomination == d
    ensures d in Breakdown(vs, ids) ==> 1 <= Breakdown(vs, ids)[d] <= |ids|
  {
    if exists k :: k in ids && vs[k].denomination == d {
      var k :| k in ids && vs[k].denomination == d;
      var s := set vid | vid in ids && vs[vid].denomination == d;
      assert d in DenomsOf(vs, ids);
      assert Breakdown(vs, ids)[d] == |s|;
      assert s == (s - {k}) + {k};
      SubsetCard(s, ids);
    }
  }

  /** One more voucher adds one to the count of its own denomination. */
  lemma CountAdd(vs: map<string, Voucher>, ids: set<string>, k: string, e: int)
    requires ids <= vs.Keys && k in vs && k !in ids
    ensures CountOf(vs, ids + {k}, e) == CountOf(vs, ids, e) + (if vs[k].denomination == e then 1 else 0)
  {
    var s0 := set vid | vid in ids && vs[vid].denomination == e;
    var s1 := set vid | vid in ids + {k} && vs[vid].denomination == e;
    if vs[k].denomination == e {
      assert s1 == s0 + {k};
    } else {
      assert s1 == s0;
    }
  }

  lemma CountAbsent(vs: map<string, Voucher>, ids: set<string>, e: int)
    requires ids <= vs.Keys && e !in DenomsOf(vs, ids)
    ensures CountOf(vs, ids, e) == 0
  {
    assert (set vid | vid in ids && vs[vid].denomination == e) == {};
  }

  /** One more voucher in the aggregation adds one to its denomination's
      count. */
  lemma BreakdownAdd(vs: map<string, Voucher>, ids: set<string>, k: string)
    requires ids <= vs.Keys && k in vs && k !in ids
    ensures var d := vs[k].denomination;
            Breakdown(vs, ids + {k})
            == Breakdown(vs, ids)[d := (if d in Breakdown(vs, ids) then Breakdown(vs, ids)[d] else 0) + 1]
  {
    var d := vs[k].denomination;
    var before := Breakdown(vs, ids);
    var after := Breakdown(vs, ids + {k});
    var expected := before[d := (if d in before then before[d] else 0) + 1];
    assert DenomsOf(vs, ids + {k}) == DenomsOf(vs, ids) + {d};
    assert after.Keys == expected.Keys;
    forall e | e in after
      ensures after[e] == expected[e]
    {
      CountAdd(vs, ids, k, e);
      if e == d && d !in before {
        CountAbsent(vs, ids, d);
      }
    }
  }

  // -----------------------------------------------------------------------
  // list_available_vouchers
  // -----------------------------------------------------------------------

  /** Python's string order: code point by code point, a proper prefix
      first. */
  predicate StrLess(a: string, b: string) {
    if a == [] then b != []
    else if b == [] then false
    else if a[0] != b[0] then a[0] < b[0]
    else StrLess(a[1..], b[1..])
  }

  lemma {:induction false} StrLessTransitive(a: string, b: string, c: string)
    requires StrLess(a, b) && StrLess(b, c)
    ensures StrLess(a, c)
  {
    if a != [] && b != [] && c != [] && a[0] == b[0] && b[0] == c[0] {
      StrLessTransitive(a[1..], b[1..], c[1..]);
    }
  }

  lemma {:induction false} StrLessIrreflexive(a: string)
    ensures !StrLess(a, a)
  {
    if a != [] {
      StrLessIrreflexive(a[1..]);
    }
  }

  /** The sort key `(-denomination, voucher_id)`, as a strict order. */
  predicate Before(x: Voucher, y: Voucher) {
    x.denomination > y.denomination
    || (x.denomination == y.denomination && StrLess(x.voucherId, y.voucherId))
  }

  lemma BeforeTransitive(x: Voucher, y: Voucher, z: Voucher)
    requires Before(x, y) && Before(y, z)
    ensures Before(x, z)
  {
    if x.denomination == y.denomination == z.denomination {
      StrLessTransitive(x.voucherId, y.voucherId, z.voucherId);
    }
  }

  /** No element is placed after one whose key is smaller. */
  predicate SortedByKey(s: seq<Voucher>) {
    forall i, j :: 0 <= i < j < |s| ==> !Before(s[j], s[i])
  }

  /** Insert `v` after every element whose key is not greater. */
  function Insert(v: Voucher, s: seq<Voucher>): seq<Voucher> {
    if s == [] then [v]
    else if Before(v, s[0]) then [v] + s
    else [s[0]] + Insert(v, s[1..])
  }

  /** `sorted(s, key=lambda x: (-x.denomination, x.voucher_id))`. */
  function SortByKey(s: seq<Voucher>): seq<Voucher> {
    if s == [] then []
    else Insert(s[|s| - 1], SortByKey(s[..|s| - 1]))
  }

  lemma {:induction false} InsertMultiset(v: Voucher, s: seq<Voucher>)
    ensures multiset(Insert(v, s)) == multiset(s) + multiset{v}
  {
    if s != [] && !Before(v, s[0]) {
      var rest := Insert(v, s[1..]);
      InsertMultiset(v, s[1..]);
      assert Insert(v, s) == [s[0]] + rest;
      assert s == [s[0]] + s[1..];
      assert multiset([s[0]] + rest) == multiset{s[0]} + multiset(rest);
      assert multiset(s) == multiset{s[0]} + multiset(s[1..]);
    }
  }

  lemma SortedTail(s: seq<Voucher>)
    requires SortedByKey(s) && s != []
    ensures SortedByKey(s[1..])
  {
    var tail := s[1..];
    forall i, j | 0 <= i < j < |tail|
      ensures !Before(tail[j], tail[i])
    {
      assert tail[i] == s[i + 1] && tail[j] == s[j + 1];
    }
  }

  lemma SortedCons(x: Voucher, s: seq<Voucher>)
    requires SortedByKey(s)
    requires forall j :: 0 <= j < |s| ==> !Before(s[j], x)
    ensures SortedByKey([x] + s)
  {
    var r := [x] + s;
    forall i, j | 0 <= i < j < |r|
      ensures !Before(r[j], r[i])
    {
      assert r[j] == s[j - 1];
      if i > 0 {
        assert r[i] == s[i - 1];
      }
    }
  }

  lemma {:induction false} InsertSorted(v: Voucher, s: seq<Voucher>)
    requires SortedByKey(s)
    ensures SortedByKey(Insert(v, s))
  {
    if s != [] && !Before(v, s[0]) {
      var tail := s[1..];
      SortedTail(s);
      InsertSorted(v, tail);
      InsertMultiset(v, tail);
      var rest := Insert(v, tail);
      forall j | 0 <= j < |rest|
        ensures !Before(rest[j], s[0])
      {
        assert rest[j] in multiset(rest);
        if rest[j] != v {
          assert rest[j] in multiset(tail);
          var m :| 0 <= m < |tail| && tail[m] == rest[j];
          assert tail[m] == s[m + 1];
        }
      }
      SortedCons(s[0], rest);
    } else if s != [] {
      forall j | 0 <= j < |s|
        ensures !Before(s[j], v)
      {
        if Before(s[j], v) {
          BeforeTransitive(s[j], v, s[0]);
          if j == 0 {
            StrLessIrreflexive(s[0].voucherId);
          }
        }
      }
      SortedCons(v, s);
    }
  }

  lemma InsertSpec(v: Voucher, s: seq<Voucher>)
    requires SortedByKey(s)
    ensures multiset(Insert(v, s)) == multiset(s) + multiset{v}
    ensures SortedByKey(Insert(v, s))
  {
    InsertMultiset(v, s);
    InsertSorted(v, s);
  }

  /** The sort keeps the elements and orders them by the key. */
  lemma {:induction false} SortByKeySpec(s: seq<Voucher>)
    ensures multiset(SortByKey(s)) == multiset(s)
    ensures SortedByKey(SortByKey(s))
  {
    if s != [] {
      var init := s[..|s| - 1];
      var last := s[|s| - 1];
      SortByKeySpec(init);
      InsertSpec(last, SortByKey(init));
      assert SortByKey(s) == Insert(last, SortByKey(init));
      assert s == init + [last];
      assert multiset(s) == multiset(init) + multiset{last};
    }
  }

  /** With distinct voucher ids no two keys tie, so the order is strict. */
  lemma SortedDistinctStrict(s: seq<Voucher>, i: nat, j: nat)
    requires SortedByKey(s) && i < j < |s| && s[i].voucherId != s[j].voucherId
    ensures Before(s[i], s[j])
  {
    StrLessTotal(s[i].voucherId, s[j].voucherId);
  }

  lemma {:induction false} StrLessTotal(a: string, b: string)
    requires a != b
    ensures StrLess(a, b) || StrLess(b, a)
  {
    if a != [] && b != [] && a[0] == b[0] {
      assert a == [a[0]] + a[1..] && b == [b[0]] + b[1..];
      StrLessTotal(a[1..], b[1..]);
    }
  }

  // -----------------------------------------------------------------------
  // create_redemption_code_for_selection
  // -----------------------------------------------------------------------

  const MsgNoneSelected := "No vouchers selected"
  const MsgNotOwned := "Selected voucher does not belong to this household"
  const MsgNotAvailable := "Selected voucher is not available (already reserved/redeemed)"

  /** The ids of `s` not in `seen`, each kept at its first occurrence. */
  function DedupFrom(s: seq<string>, seen: set<string>): seq<string> {
    if s == [] then []
    else if s[0] in seen then DedupFrom(s[1..], seen)
    else [s[0]] + DedupFrom(s[1..], seen + {s[0]})
  }

  function Dedup(s: seq<string>): seq<string> {
    DedupFrom(s, {})
  }

  predicate Distinct(s: seq<string>) {
    forall i, j :: 0 <= i < j < |s| ==> s[i] != s[j]
  }

  /** The index of the first occurrence of `x` in `s`. */
  function FirstIndex(s: seq<string>, x: string): (i: nat)
    requires x in s
    ensures i < |s| && s[i] == x && x !in s[..i]
  {
    if s[0] == x then 0 else 1 + FirstIndex(s[1..], x)
  }

  lemma {:induction false} DedupFromSpec(s: seq<string>, seen: set<string>)
    ensures forall x :: x in DedupFrom(s, seen) <==> x in s && x !in seen
    ensures Distinct(DedupFrom(s, seen))
    ensures forall i, j :: 0 <= i < j < |DedupFrom(s, seen)| ==>
              FirstIndex(s, DedupFrom(s, seen)[i]) < FirstIndex(s, DedupFrom(s, seen)[j])
  {
    if s != [] {
      var tail := s[1..];
      assert s == [s[0]] + tail;
      if s[0] in seen {
        DedupFromSpec(tail, seen);
        var r := DedupFrom(tail, seen);
        forall i, j | 0 <= i < j < |r|
          ensures FirstIndex(s, r[i]) < FirstIndex(s, r[j])
        {
          assert r[i] != s[0] && r[j] != s[0];
        }
      } else {
        DedupFromSpec(tail, seen + {s[0]});
        var rest := DedupFrom(tail, seen + {s[0]});
        var r := DedupFrom(s, seen);
        assert r == [s[0]] + rest;
        forall i, j | 0 <= i < j < |r|
          ensures FirstIndex(s, r[i]) < FirstIndex(s, r[j])
        {
          assert r[j] == rest[j - 1] && r[j] != s[0];
          if i > 0 {
            assert r[i] == rest[i - 1] && r[i] != s[0];
          }
        }
      }
    }
  }

  /** The deduplicated selection holds each selected id once, in the order
      of first selection. */
  lemma DedupSpec(s: seq<string>)
    ensures forall x :: x in Dedup(s) <==> x in s
    ensures Distinct(Dedup(s))
    ensures forall i, j :: 0 <= i < j < |Dedup(s)| ==> FirstIndex(s, Dedup(s)[i]) < FirstIndex(s, Dedup(s)[j])
    ensures s != [] ==> Dedup(s) != []
  {
    DedupFromSpec(s, {});
    if s != [] {
      assert s[0] in Dedup(s);
    }
  }

  /** The per-id checks of the selection, in order: unknown id, other
      household, not AVAILABLE; otherwise the sum of the denominations. */
  function Validate(vs: map<string, Voucher>, householdId: string, ids: seq<string>): Result<int> {
    if ids == [] then Ok(0)
    else
      var vid := ids[0];
      if vid !in vs then Err(ValueError("Invalid voucher: " + vid))
      else if vs[vid].householdId != householdId then Err(ValueError(MsgNotOwned))
      else if vs[vid].state != Available then Err(ValueError(MsgNotAvailable))
      else
        match Validate(vs, householdId, ids[1..])
        case Ok(rest) => Ok(vs[vid].denomination + rest)
        case Err(f) => Err(f)
  }

  /** The sum of the denominations of `ids`. */
  function SumDenominations(vs: map<string, Voucher>, ids: seq<string>): int
    requires forall i :: 0 <= i < |ids| ==> ids[i] in vs
  {
    if ids == [] then 0 else vs[ids[0]].denomination + SumDenominations(vs, ids[1..])
  }

  predicate Selectable(vs: map<string, Voucher>, householdId: string, vid: string) {
    vid in vs && vs[vid].householdId == householdId && vs[vid].state == Available
  }

  /** The checks pass exactly when every selected voucher exists, belongs to
      the household and is AVAILABLE; the amount is then the sum of their
      denominations. */
  lemma {:induction false} ValidateSpec(vs: map<string, Voucher>, householdId: string, ids: seq<string>)
    ensures Validate(vs, householdId, ids).Ok? <==>
            forall i :: 0 <= i < |ids| ==> Selectable(vs, householdId, ids[i])
    ensures Validate(vs, householdId, ids).Ok? ==>
            Validate(vs, householdId, ids).value == SumDenominations(vs, ids)
  {
    if ids != [] {
      ValidateSpec(vs, householdId, ids[1..]);
      assert forall i :: 1 <= i < |ids| ==> ids[i] == ids[1..][i - 1];
    }
  }

  /** The message of the check `vid` fails. */
  function Rejection(vs: map<string, Voucher>, householdId: string, vid: string): string {
    if vid !in vs then "Invalid voucher: " + vid
    else if vs[vid].householdId != householdId then MsgNotOwned
    else MsgNotAvailable
  }

  /** The checks stop at the first id in selection order that fails one,
      with that check's message. */
  lemma {:induction false} ValidateFirstFailure(vs: map<string, Voucher>, householdId: string, ids: seq<string>, k: nat)
    requires k < |ids| && !Selectable(vs, householdId, ids[k])
    requires forall i :: 0 <= i < k ==> Selectable(vs, householdId, ids[i])
    ensures Validate(vs, householdId, ids) == Err(ValueError(Rejection(vs, householdId, ids[k])))
  {
    if k > 0 {
      ValidateFirstFailure(vs, householdId, ids[1..], k - 1);
    }
  }

  lemma {:induction false} SumDenominationsAppend(vs: map<string, Voucher>, a: seq<string>, b: seq<string>)
    requires forall i :: 0 <= i < |a| ==> a[i] in vs
    requires forall i :: 0 <= i < |b| ==> b[i] in vs
    ensures SumDenominations(vs, a + b) == SumDenominations(vs, a) + SumDenominations(vs, b)
  {
    if a == [] {
      assert a + b == b;
    } else {
      assert (a + b)[1..] == a[1..] + b;
      SumDenominationsAppend(vs, a[1..], b);
    }
  }

  /** The vouchers after locking `ids` until `until`. */
  function Lock(vs: map<string, Voucher>, ids: seq<string>, until: int): map<string, Voucher> {
    map vid | vid in vs :: if vid in ids then vs[vid].(state := Reserved, reservedUntil := Some(until)) else vs[vid]
  }

  lemma LockSnoc(vs: map<string, Voucher>, ids: seq<string>, x: string, until: int)
    requires x in vs
    ensures Lock(vs, ids + [x], until)
            == Lock(vs, ids, until)[x := Lock(vs, ids, until)[x].(state := Reserved, reservedUntil := Some(until))]
  {
    var a := Lock(vs, ids + [x], until);
    var b := Lock(vs, ids, until)[x := Lock(vs, ids, until)[x].(state := Reserved, reservedUntil := Some(until))];
    assert forall v :: v in ids + [x] <==> v in ids || v == x;
    assert a.Keys == b.Keys;
  }

  /** Once locked, a voucher cannot be selected again until a sweep frees
      it: a later selection naming it fails. */
  lemma LockedNotSelectable(vs: map<string, Voucher>, householdId: string, ids: seq<string>, until: int,
                            other: string, again: seq<string>)
    requires forall i :: 0 <= i < |ids| ==> ids[i] in vs
    requires exists i :: 0 <= i < |again| && again[i] in ids
    ensures Validate(Lock(vs, ids, until), other, again).Err?
  {
    ValidateSpec(Lock(vs, ids, until), other, again);
    var i :| 0 <= i < |again| && again[i] in ids;
    assert !Selectable(Lock(vs, ids, until), other, again[i]);
  }

  /** Locking changes only the state and hold time of the selected
      vouchers. */
  lemma LockSpec(vs: map<string, Voucher>, ids: seq<string>, until: int, vid: string)
    requires vid in vs
    ensures vid in Lock(vs, ids, until)
    ensures vid in ids ==>
              && Lock(vs, ids, until)[vid].state == Reserved
              && Lock(vs, ids, until)[vid].reservedUntil == Some(until)
              && Lock(vs, ids, until)[vid].(state := vs[vid].state, reservedUntil := vs[vid].reservedUntil) == vs[vid]
    ensures vid !in ids ==> Lock(vs, ids, until)[vid] == vs[vid]
  {
  }

  /** Ten characters from A-Z and 0-9, as `_gen_redemption_number` draws. */
  predicate IsRedemptionNumber(s: string) {
    |s| == 10 && forall i :: 0 <= i < |s| ==> ('A' <= s[i] <= 'Z' || '0' <= s[i] <= '9')
  }

  // -----------------------------------------------------------------------
  // seed_demo_household
  // -----------------------------------------------------------------------

  /** (denomination, count) pairs. */
  type Plan = seq<(int, int)>

  const DemoPlan: Plan := [(10, 60), (5, 20), (2, 50)]

  function PlanTotal(plan: Plan): int {
    if plan == [] then 0 else plan[0].0 * plan[0].1 + PlanTotal(plan[1..])
  }

  /** The demo plan if it adds up to the entitlement, else `entitlement //
      10` vouchers of $10 (Python's floor division, which `/` by a positive
      divisor matches). */
  function PlanFor(entitlement: int): Plan {
    if PlanTotal(DemoPlan) != entitlement then [(10, entitlement / 10)] else DemoPlan
  }

  /** `range(cnt)` is empty for a count below one. */
  function Times(cnt: int): nat {
    if cnt < 0 then 0 else cnt
  }

  /** The denomination of each seeded voucher, in seeding order. */
  function PlanDenoms(plan: Plan): seq<int> {
    if plan == [] then []
    else seq(Times(plan[0].1), _ => plan[0].0) + PlanDenoms(plan[1..])
  }

  lemma PlanDenomsSnoc(plan: Plan, line: (int, int))
    ensures PlanDenoms(plan + [line]) == PlanDenoms(plan) + seq(Times(line.1), _ => line.0)
  {
    if plan == [] {
      assert [line][1..] == [];
      assert PlanDenoms([line]) == seq(Times(line.1), _ => line.0) + [];
    } else {
      assert (plan + [line])[1..] == plan[1..] + [line];
      PlanDenomsSnoc(plan[1..], line);
    }
  }

  lemma RepeatSnoc(d: int, n: nat)
    ensures seq(n + 1, _ => d) == seq(n, _ => d) + [d]
  {
  }

  /** `f"V{household_id}-{i:04d}"`. */
  function SeedId(householdId: string, i: int): string {
    "V" + householdId + "-" + ZeroPad(i, 4)
  }

  function SeedVoucher(householdId: string, i: int, denom: int): Voucher {
    Voucher(SeedId(householdId, i), householdId, denom, Available, None)
  }

  lemma SeedIdInjective(householdId: string, a: int, b: int)
    ensures SeedId(householdId, a) == SeedId(householdId, b) ==> a == b
  {
    var p := "V" + householdId + "-";
    if SeedId(householdId, a) == SeedId(householdId, b) {
      assert SeedId(householdId, a)[|p|..] == ZeroPad(a, 4);
      assert SeedId(householdId, b)[|p|..] == ZeroPad(b, 4);
      ZeroPadInjective(a, b, 4);
    }
  }

  /** The vouchers seeded from denominations `ds`, numbered from 1. */
  function Seeded(householdId: string, ds: seq<int>): map<string, Voucher> {
    if ds == [] then map[]
    else
      var n := |ds|;
      Seeded(householdId, ds[..n - 1])[SeedId(householdId, n) := SeedVoucher(householdId, n, ds[n - 1])]
  }

  /** Seeding one more voucher adds it under the next number. */
  lemma SeededSnoc(householdId: string, ds: seq<int>, d: int)
    ensures Seeded(householdId, ds + [d])
            == Seeded(householdId, ds)[SeedId(householdId, |ds| + 1) := SeedVoucher(householdId, |ds| + 1, d)]
  {
    assert (ds + [d])[..|ds|] == ds;
  }

  /** Storing one more seeded voucher over the vouchers already there. */
  lemma SeedOneMore(v0: map<string, Voucher>, householdId: string, ds: seq<int>, d: int)
    ensures (v0 + Seeded(householdId, ds))[SeedId(householdId, |ds| + 1) := SeedVoucher(householdId, |ds| + 1, d)]
            == v0 + Seeded(householdId, ds + [d])
  {
    SeededSnoc(householdId, ds, d);
  }

  /** Each seeded voucher is AVAILABLE, held by the household, under its
      own id, with the denomination of its position. */
  lemma {:induction false} SeededAt(householdId: string, ds: seq<int>, j: nat)
    requires 1 <= j <= |ds|
    ensures SeedId(householdId, j) in Seeded(householdId, ds)
    ensures Seeded(householdId, ds)[SeedId(householdId, j)] == SeedVoucher(householdId, j, ds[j - 1])
  {
    var n := |ds|;
    if j < n {
      SeededAt(householdId, ds[..n - 1], j);
      SeedIdInjective(householdId, j, n);
    }
  }

  /** Nothing but the numbered vouchers is seeded. */
  lemma {:induction false} SeededKeys(householdId: string, ds: seq<int>, k: string)
    requires k in Seeded(householdId, ds)
    ensures exists j :: 1 <= j <= |ds| && k == SeedId(householdId, j)
  {
    var n := |ds|;
    if k != SeedId(householdId, n) {
      SeededKeys(householdId, ds[..n - 1], k);
    }
  }

  function SumSeq(s: seq<int>): int {
    if s == [] then 0 else s[0] + SumSeq(s[1..])
  }

  lemma {:induction false} SumSeqAppend(a: seq<int>, b: seq<int>)
    ensures SumSeq(a + b) == SumSeq(a) + SumSeq(b)
  {
    if a == [] {
      assert a + b == b;
    } else {
      assert (a + b)[1..] == a[1..] + b;
      SumSeqAppend(a[1..], b);
    }
  }

  lemma {:induction false} SumSeqUniform(n: nat, d: int)
    ensures SumSeq(seq(n, _ => d)) == n * d
  {
    if n > 0 {
      assert seq(n, _ => d) == [d] + seq(n - 1, _ => d);
      SumSeqUniform(n - 1, d);
    }
  }

  /** The seeded denominations add up to what the plan says. */
  lemma {:induction false} PlanDenomsTotal(plan: Plan)
    requires forall i :: 0 <= i < |plan| ==> plan[i].1 >= 0
    ensures SumSeq(PlanDenoms(plan)) == PlanTotal(plan)
  {
    if plan != [] {
      assert forall i :: 0 <= i < |plan[1..]| ==> plan[1..][i] == plan[i + 1];
      PlanDenomsTotal(plan[1..]);
      SumSeqUniform(plan[0].1, plan[0].0);
      SumSeqAppend(seq(Times(plan[0].1), _ => plan[0].0), PlanDenoms(plan[1..]));
    }
  }

  /** With an entitlement of $800 the demo plan is used: 60 x $10, then
      20 x $5, then 50 x $2, adding up to $800. */
  lemma DemoSeed()
    ensures PlanTotal(DemoPlan) == 800 && PlanFor(800) == DemoPlan
    ensures PlanDenoms(DemoPlan) == seq(60, _ => 10) + seq(20, _ => 5) + seq(50, _ => 2)
    ensures |PlanDenoms(DemoPlan)| == 130 && SumSeq(PlanDenoms(DemoPlan)) == 800
  {
    assert DemoPlan[1..] == [(5, 20), (2, 50)];
    assert DemoPlan[1..][1..] == [(2, 50)];
    assert PlanTotal(DemoPlan) == 800;
    PlanDenomsTotal(DemoPlan);
  }

  /** Any other entitlement seeds `entitlement // 10` vouchers of $10 (none
      for a negative entitlement). */
  lemma FallbackSeed(entitlement: int)
    requires entitlement != 800
    ensures PlanDenoms(PlanFor(entitlement)) == seq(Times(entitlement / 10), _ => 10)
    ensures entitlement >= 0 ==> SumSeq(PlanDenoms(PlanFor(entitlement))) == 10 * (entitlement / 10)
  {
    DemoSeed();
    var plan := PlanFor(entitlement);
    assert plan == [(10, entitlement / 10)];
    assert plan[1..] == [];
    assert PlanDenoms(plan) == seq(Times(entitlement / 10), _ => 10) + [];
    SumSeqUniform(Times(entitlement / 10), 10);
  }
}
