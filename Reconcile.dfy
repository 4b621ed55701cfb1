/**
  The worker-year hours reconciliation of super_extractor.py (lines 110-148). Each selected
  worker's periods are sorted by their information start. Each day of the audit year is then
  governed by the last period covering it, counted when the day lies between Alta and Baja, and
  weighted by the part-time coefficient. Incapacity spells are subtracted from the hours.
*/
module Reconcile {
  import opened Wrappers
  import opened Text
  import opened Decimal
  import opened Dates
  import opened Identifiers
  import opened Idc

  // ---------------------------------------------------------------------------
  // Stable sort by a key, and the last element satisfying a predicate
  // ---------------------------------------------------------------------------

  predicate SortedBy<T>(s: seq<T>, key: T -> int) {
    forall i, j :: 0 <= i < j < |s| ==> key(s[i]) <= key(s[j])
  }

  /** Puts `x` after every element whose key is not larger, as a stable insertion does. */
  function InsertBy<T>(s: seq<T>, x: T, key: T -> int): (r: seq<T>)
    ensures |r| == |s| + 1
    decreases |s|
  {
    if s == [] || key(s[|s| - 1]) <= key(x) then s + [x]
    else InsertBy(s[..|s| - 1], x, key) + [s[|s| - 1]]
  }

  /** Insertion sort taking the elements in input order: Python's stable `sorted(..., key=...)`. */
  function SortBy<T>(s: seq<T>, key: T -> int): (r: seq<T>)
    ensures |r| == |s|
    decreases |s|
  {
    if s == [] then [] else InsertBy(SortBy(s[..|s| - 1], key), s[|s| - 1], key)
  }

  lemma {:induction false} InsertBySorted<T>(s: seq<T>, x: T, key: T -> int)
    requires SortedBy(s, key)
    ensures SortedBy(InsertBy(s, x, key), key)
    ensures s == [] ==> InsertBy(s, x, key) == [x]
    ensures s != [] ==> forall i :: 0 <= i < |s| + 1 ==>
              key(InsertBy(s, x, key)[i]) <= key(x) || key(InsertBy(s, x, key)[i]) <= key(s[|s| - 1])
    decreases |s|
  {
    if s == [] || key(s[|s| - 1]) <= key(x) {
    } else {
      var init, last := s[..|s| - 1], s[|s| - 1];
      InsertBySorted(init, x, key);
      var r := InsertBy(init, x, key);
      assert forall i :: 0 <= i < |r| ==> key(r[i]) <= key(last);
      SortedAppend(r, last, key);
    }
  }

  /** A sorted sequence stays sorted when an element with a key no smaller than all is appended. */
  lemma SortedAppend<T>(r: seq<T>, last: T, key: T -> int)
    requires SortedBy(r, key) && forall i :: 0 <= i < |r| ==> key(r[i]) <= key(last)
    ensures SortedBy(r + [last], key)
    ensures forall i :: 0 <= i < |r| + 1 ==> key((r + [last])[i]) <= key(last)
  {
  }

  /** The result is ordered by the key. */
  lemma {:induction false} SortBySorted<T>(s: seq<T>, key: T -> int)
    ensures SortedBy(SortBy(s, key), key)
    decreases |s|
  {
    if s != [] {
      SortBySorted(s[..|s| - 1], key);
      InsertBySorted(SortBy(s[..|s| - 1], key), s[|s| - 1], key);
    }
  }

  lemma {:induction false} InsertByPermutation<T>(s: seq<T>, x: T, key: T -> int)
    ensures multiset(InsertBy(s, x, key)) == multiset(s) + multiset{x}
    decreases |s|
  {
    if s != [] && key(s[|s| - 1]) > key(x) {
      InsertByPermutation(s[..|s| - 1], x, key);
      assert s == s[..|s| - 1] + [s[|s| - 1]];
    }
  }

  /** The sort neither loses nor adds an element. */
  lemma {:induction false} SortByPermutation<T>(s: seq<T>, key: T -> int)
    ensures multiset(SortBy(s, key)) == multiset(s)
    decreases |s|
  {
    if s != [] {
      SortByPermutation(s[..|s| - 1], key);
      InsertByPermutation(SortBy(s[..|s| - 1], key), s[|s| - 1], key);
      assert s == s[..|s| - 1] + [s[|s| - 1]];
    }
  }

  /** The elements whose key is `k`, in order. */
  function WithKey<T>(s: seq<T>, key: T -> int, k: int): seq<T>
    decreases |s|
  {
    if s == [] then []
    else WithKey(s[..|s| - 1], key, k) + (if key(s[|s| - 1]) == k then [s[|s| - 1]] else [])
  }

  lemma {:induction false} WithKeyAppend<T>(a: seq<T>, b: seq<T>, key: T -> int, k: int)
    ensures WithKey(a + b, key, k) == WithKey(a, key, k) + WithKey(b, key, k)
    decreases |b|
  {
    if b == [] {
      assert a + b == a;
    } else {
      assert (a + b)[..|a + b| - 1] == a + b[..|b| - 1];
      WithKeyAppend(a, b[..|b| - 1], key, k);
    }
  }

  lemma WithKeySingle<T>(x: T, key: T -> int, k: int)
    ensures WithKey([x], key, k) == if key(x) == k then [x] else []
  {
    assert [x][..0] == [];
  }

  lemma SwapEmpty<T>(a: seq<T>, b: seq<T>, c: seq<T>)
    requires b == [] || c == []
    ensures (a + b) + c == (a + c) + b
  {
  }

  lemma {:induction false} WithKeyInsert<T>(s: seq<T>, x: T, key: T -> int, k: int)
    requires SortedBy(s, key)
    ensures WithKey(InsertBy(s, x, key), key, k) == WithKey(s, key, k) + WithKey([x], key, k)
    decreases |s|
  {
    if s == [] || key(s[|s| - 1]) <= key(x) {
      WithKeyAppend(s, [x], key, k);
    } else {
      var init, last := s[..|s| - 1], s[|s| - 1];
      WithKeyInsert(init, x, key, k);
      assert init + [last] == s;
      WithKeyPast(init, InsertBy(init, x, key), x, last, key, k);
    }
  }

  /**
    Moving `x` before a `last` with a larger key does not change the elements of any one key:
    at most one of the two has key `k`.
  */
  lemma WithKeyPast<T>(init: seq<T>, r: seq<T>, x: T, last: T, key: T -> int, k: int)
    requires key(last) > key(x)
    requires WithKey(r, key, k) == WithKey(init, key, k) + WithKey([x], key, k)
    ensures WithKey(r + [last], key, k) == WithKey(init + [last], key, k) + WithKey([x], key, k)
  {
    WithKeySingle(x, key, k);
    WithKeySingle(last, key, k);
    WithKeyAppend(r, [last], key, k);
    WithKeyAppend(init, [last], key, k);
    SwapEmpty(WithKey(init, key, k), WithKey([x], key, k), WithKey([last], key, k));
  }

  /** The sort is stable: elements with equal keys keep their input order. */
  lemma {:induction false} SortByStable<T>(s: seq<T>, key: T -> int, k: int)
    ensures WithKey(SortBy(s, key), key, k) == WithKey(s, key, k)
    decreases |s|
  {
    if s != [] {
      var init, x := s[..|s| - 1], s[|s| - 1];
      SortByStable(init, key, k);
      SortBySorted(init, key);
      WithKeyInsert(SortBy(init, key), x, key, k);
      WithKeySingle(x, key, k);
    }
  }

  /** Reference for the head of the sorted sequence: the first element with the smallest key. */
  function EarliestFirst<T>(s: seq<T>, key: T -> int): T
    requires s != []
    decreases |s|
  {
    if |s| == 1 then s[0]
    else
      var b := EarliestFirst(s[..|s| - 1], key);
      if key(s[|s| - 1]) < key(b) then s[|s| - 1] else b
  }

  lemma {:induction false} InsertByHead<T>(s: seq<T>, x: T, key: T -> int)
    requires SortedBy(s, key)
    ensures InsertBy(s, x, key)[0] == if s == [] || key(x) < key(s[0]) then x else s[0]
    decreases |s|
  {
    if s != [] && key(s[|s| - 1]) > key(x) && |s| > 1 {
      InsertByHead(s[..|s| - 1], x, key);
    }
  }

  /** The head of the sorted sequence is the first element with the smallest key. */
  lemma {:induction false} SortByHead<T>(s: seq<T>, key: T -> int)
    requires s != []
    ensures SortBy(s, key)[0] == EarliestFirst(s, key)
    decreases |s|
  {
    if |s| > 1 {
      var init := s[..|s| - 1];
      SortByHead(init, key);
      SortBySorted(init, key);
      InsertByHead(SortBy(init, key), s[|s| - 1], key);
    } else {
      assert s[..0] == [];
    }
  }

  // ---------------------------------------------------------------------------
  // The periods of a worker
  // ---------------------------------------------------------------------------

  /** The sort key: `Desde_Info`, as a stamp that orders dates chronologically. */
  function Key(p: Period): int {
    Stamp(p.desdeInfo)
  }

  /** `sorted(idcs_p, key=lambda x: x['Desde_Info'])`. */
  function SortByDesde(ps: seq<Period>): seq<Period> {
    SortBy(ps, Key)
  }

  /** `Desde_Info <= t <= Hasta_Info`. */
  predicate Covers(p: Period, t: Date) {
    Stamp(p.desdeInfo) <= Stamp(t) <= Stamp(p.hastaInfo)
  }

  /** `next((i for i in reversed(idcs_p) if i['Desde_Info'] <= dia <= i['Hasta_Info']), None)`. */
  function Governing(ps: seq<Period>, t: Date): Option<Period>
    decreases |ps|
  {
    if ps == [] then None
    else if Covers(ps[|ps| - 1], t) then Some(ps[|ps| - 1])
    else Governing(ps[..|ps| - 1], t)
  }

  /** The governing period is absent exactly when no period covers the day; otherwise it is the last one that does. */
  lemma {:induction false} GoverningLast(ps: seq<Period>, t: Date)
    ensures Governing(ps, t).None? <==> forall i :: 0 <= i < |ps| ==> !Covers(ps[i], t)
    ensures Governing(ps, t).Some? ==>
              exists i :: 0 <= i < |ps| && ps[i] == Governing(ps, t).value && Covers(ps[i], t)
                          && forall j :: i < j < |ps| ==> !Covers(ps[j], t)
    decreases |ps|
  {
    if ps != [] && !Covers(ps[|ps| - 1], t) {
      var init := ps[..|ps| - 1];
      GoverningLast(init, t);
      if Governing(init, t).Some? {
        var i :| 0 <= i < |init| && init[i] == Governing(init, t).value && Covers(init[i], t)
                 && forall j :: i < j < |init| ==> !Covers(init[j], t);
        assert ps[i] == init[i];
        assert forall j :: i < j < |ps| ==> !Covers(ps[j], t);
      } else {
        assert forall i :: 0 <= i < |ps| - 1 ==> ps[i] == init[i];
      }
    }
  }

  /**
    Reference definition in input order: of the covering periods, the one with the latest
    `Desde_Info`, and of those the one that comes last.
  */
  function LatestCover(ps: seq<Period>, t: Date): Option<Period>
    decreases |ps|
  {
    if ps == [] then None
    else
      var b := LatestCover(ps[..|ps| - 1], t);
      var x := ps[|ps| - 1];
      if Covers(x, t) && (b.None? || Key(b.value) <= Key(x)) then Some(x) else b
  }

  lemma {:induction false} GoverningInsert(s: seq<Period>, x: Period, t: Date)
    requires SortedBy(s, Key)
    ensures var g := Governing(s, t);
            Governing(InsertBy(s, x, Key), t) == if Covers(x, t) && (g.None? || Key(g.value) <= Key(x)) then Some(x) else g
    decreases |s|
  {
    if s == [] || Key(s[|s| - 1]) <= Key(x) {
      var r := s + [x];
      assert r[..|r| - 1] == s;
      if Covers(x, t) && Governing(s, t).Some? {
        GoverningLast(s, t);
      }
    } else {
      var init, last := s[..|s| - 1], s[|s| - 1];
      GoverningInsert(init, x, t);
      var r := InsertBy(init, x, Key) + [last];
      assert r[..|r| - 1] == InsertBy(init, x, Key);
    }
  }

  /**
    The reverse scan over the sorted periods picks the covering period with the latest start,
    the later one in input order on a tie: the sort's stability decides between periods that
    start on the same day.
  */
  lemma {:induction false} GoverningIsLatestCover(ps: seq<Period>, t: Date)
    ensures Governing(SortByDesde(ps), t) == LatestCover(ps, t)
    decreases |ps|
  {
    if ps != [] {
      var init := ps[..|ps| - 1];
      GoverningIsLatestCover(init, t);
      SortBySorted(init, Key);
      GoverningInsert(SortBy(init, Key), ps[|ps| - 1], t);
    }
  }

  // ---------------------------------------------------------------------------
  // One day
  // ---------------------------------------------------------------------------

  /** `366 if (anio_audit % 4 == 0) else 365`: every fourth year is taken as leap. */
  function AuditYearLength(y: int): nat {
    if y % 4 == 0 then 366 else 365
  }

  /** Between 1901 and 2099 the rule agrees with the calendar. */
  lemma AuditYearLengthAgrees(y: int)
    requires 1901 <= y <= 2099
    ensures AuditYearLength(y) == DaysInYear(y)
  {
  }

  /** 2100 is not a leap year, yet the audit takes 366 days for it. */
  lemma AuditYearLength2100()
    ensures AuditYearLength(2100) == 366 && DaysInYear(2100) == 365
  {
  }

  /** `1.0 if (es_aut or ctp_val in [0, 1000]) else ctp_val / 1000.0`. */
  function Factor(esAut: bool, ctp: nat): (f: real)
    ensures f >= 0.0
    ensures ctp <= 1000 ==> f <= 1.0
  {
    if esAut || ctp == 0 || ctp == 1000 then 1.0 else ctp as real / 1000.0
  }

  /** `any(it[0] <= dia <= it[1] for it in vig['Tramos_IT'])`. */
  predicate InSpell(ts: seq<(ValidDate, ValidDate)>, t: Date) {
    exists i :: 0 <= i < |ts| && Stamp(ts[i].0) <= Stamp(t) <= Stamp(ts[i].1)
  }

  /** `datetime(2099, 1, 1)`, the Baja of a period still open. */
  const OpenBaja: ValidDate := Date(2099, 1, 1)

  /** What a day is for the worker. */
  datatype DayStatus =
    | Ungoverned                        // no period covers it
    | Unreadable                        // Alta or Baja does not parse: the `except` skips the day
    | Inactive                          // outside [Alta, Baja]
    | Active(factor: real, incapacity: bool)

  /** `f_b`: the parsed Baja, or 2099-01-01 for `"ACTIVO"`. */
  function BajaDate(p: Period): Option<ValidDate> {
    if p.baja != "ACTIVO" then ParseDmy(p.baja) else Some(OpenBaja)
  }

  /** The body of the day loop (lines 124-139) as a classification of day `t`. */
  function Status(ps: seq<Period>, esAut: bool, t: Date): (st: DayStatus)
    ensures st.Active? ==> st.factor >= 0.0 && (esAut ==> !st.incapacity)
  {
    match Governing(ps, t)
    case None => Ungoverned
    case Some(g) =>
      var fa, fb := ParseDmy(g.alta), BajaDate(g);
      if fa.None? || fb.None? then Unreadable
      else if Stamp(fa.value) <= Stamp(t) <= Stamp(fb.value) then
        Active(Factor(esAut, g.ctp), !esAut && InSpell(g.tramosIt, t))
      else Inactive
  }

  /** `f_limite_ini + timedelta(days=k)` for the audit year `y`. */
  function AuditDay(y: int, k: nat): ValidDate
    requires 1 <= y <= 9998 && k <= 365
  {
    AddDaysWithinYear(y, k);
    AddDays(Date(y, 1, 1), k).value
  }

  /** The accumulators `h_t, h_i, d_it, d_alta`. */
  datatype Totals = Totals(hT: real, hI: real, dIt: nat, dAlta: nat)

  /** Hours of one active day. */
  function DayHours(rate: real, factor: real): real {
    rate * factor
  }

  function Step(acc: Totals, st: DayStatus, rate: real): Totals {
    match st
    case Active(f, it) =>
      Totals(acc.hT + DayHours(rate, f), if it then acc.hI + DayHours(rate, f) else acc.hI,
             if it then acc.dIt + 1 else acc.dIt, acc.dAlta + 1)
    case _ => acc
  }

  /** The statuses of the first `n` days of audit year `y`. */
  function Statuses(ps: seq<Period>, esAut: bool, y: int, n: nat): (r: seq<DayStatus>)
    requires 1 <= y <= 9998 && n <= 366
    ensures |r| == n
    decreases n
  {
    if n == 0 then [] else Statuses(ps, esAut, y, n - 1) + [Status(ps, esAut, AuditDay(y, n - 1))]
  }

  /** The totals accumulated over a run of days, first day first. */
  function TotalsOf(sts: seq<DayStatus>, rate: real): Totals
    decreases |sts|
  {
    if sts == [] then Totals(0.0, 0.0, 0, 0)
    else Step(TotalsOf(sts[..|sts| - 1], rate), sts[|sts| - 1], rate)
  }

  lemma StatusesStep(ps: seq<Period>, esAut: bool, rate: real, y: int, d: nat)
    requires 1 <= y <= 9998 && d <= 365
    ensures TotalsOf(Statuses(ps, esAut, y, d + 1), rate)
            == Step(TotalsOf(Statuses(ps, esAut, y, d), rate), Status(ps, esAut, AuditDay(y, d)), rate)
  {
    var sts := Statuses(ps, esAut, y, d + 1);
    assert sts[..d] == Statuses(ps, esAut, y, d);
  }

  /** One pass of the day loop body (lines 123-139): the accumulators after day `dia`. */
  method CountDay(ps: seq<Period>, esAut: bool, rate: real, dia: ValidDate, acc: Totals) returns (next: Totals)
    ensures next == Step(acc, Status(ps, esAut, dia), rate)
  {
    ghost var st := Status(ps, esAut, dia);
    var vig := Governing(ps, dia);
    if vig.None? {
      assert st == Ungoverned;
      return acc;
    }
    var g := vig.value;
    var fa, fb := ParseDmy(g.alta), BajaDate(g);
    if fa.None? || fb.None? || !(Stamp(fa.value) <= Stamp(dia) <= Stamp(fb.value)) {
      assert !st.Active?;
      return acc;
    }
    var factor := Factor(esAut, g.ctp);
    var it := !esAut && InSpell(g.tramosIt, dia);
    assert st == Active(factor, it);
    next := acc.(dAlta := acc.dAlta + 1, hT := acc.hT + DayHours(rate, factor));
    if it {
      next := next.(dIt := next.dIt + 1, hI := next.hI + DayHours(rate, factor));
    }
  }

  /** The day loop of lines 122-139, over `days` days from January 1st of year `y`. */
  method WorkerTotals(ps: seq<Period>, esAut: bool, rate: real, y: int, days: nat) returns (r: Totals)
    requires 1 <= y <= 9998 && days <= 366
    ensures r == TotalsOf(Statuses(ps, esAut, y, days), rate)
  {
    var start: ValidDate := Date(y, 1, 1);
    r := Totals(0.0, 0.0, 0, 0);
    var d := 0;
    while d < days
      invariant 0 <= d <= days
      invariant r == TotalsOf(Statuses(ps, esAut, y, d), rate)
    {
      AddDaysWithinYear(y, d);
      var dia := AddDays(start, d).value;
      assert dia == AuditDay(y, d);
      StatusesStep(ps, esAut, rate, y, d);
      r := CountDay(ps, esAut, rate, dia, r);
      d := d + 1;
    }
  }

  // ---------------------------------------------------------------------------
  // What the totals mean
  // ---------------------------------------------------------------------------

  /** Active days have a non-negative factor, and a self-employed worker has no incapacity. */
  predicate Consistent(sts: seq<DayStatus>, esAut: bool) {
    forall i :: 0 <= i < |sts| && sts[i].Active? ==> sts[i].factor >= 0.0 && (esAut ==> !sts[i].incapacity)
  }

  lemma {:induction false} StatusesConsistent(ps: seq<Period>, esAut: bool, y: int, n: nat)
    requires 1 <= y <= 9998 && n <= 366
    ensures Consistent(Statuses(ps, esAut, y, n), esAut)
    decreases n
  {
    if n > 0 {
      StatusesConsistent(ps, esAut, y, n - 1);
    }
  }

  /** Each status of the run is the status of its day. */
  lemma {:induction false} StatusesAt(ps: seq<Period>, esAut: bool, y: int, n: nat)
    requires 1 <= y <= 9998 && n <= 366
    ensures forall k :: 0 <= k < n ==> Statuses(ps, esAut, y, n)[k] == Status(ps, esAut, AuditDay(y, k))
    decreases n
  {
    if n > 0 {
      StatusesAt(ps, esAut, y, n - 1);
    }
  }

  /** Incapacity days are active days, and active days are days of the run. */
  lemma {:induction false} TotalsCounts(sts: seq<DayStatus>, rate: real)
    ensures var t := TotalsOf(sts, rate);
            t.dIt <= t.dAlta <= |sts|
    decreases |sts|
  {
    if sts != [] {
      TotalsCounts(sts[..|sts| - 1], rate);
    }
  }

  /** With a non-negative daily rate, incapacity hours never exceed theoretical hours. */
  lemma {:induction false} TotalsHours(sts: seq<DayStatus>, esAut: bool, rate: real)
    requires rate >= 0.0 && Consistent(sts, esAut)
    ensures var t := TotalsOf(sts, rate);
            0.0 <= t.hI <= t.hT
    decreases |sts|
  {
    if sts != [] {
      var init, st := sts[..|sts| - 1], sts[|sts| - 1];
      assert Consistent(init, esAut);
      TotalsHours(init, esAut, rate);
      if st.Active? {
        assert DayHours(rate, st.factor) >= 0.0;
      }
    }
  }

  /** A self-employed worker has no incapacity days or hours. */
  lemma {:induction false} TotalsSelfEmployed(sts: seq<DayStatus>, rate: real)
    requires Consistent(sts, true)
    ensures var t := TotalsOf(sts, rate);
            t.dIt == 0 && t.hI == 0.0
    decreases |sts|
  {
    if sts != [] {
      assert Consistent(sts[..|sts| - 1], true);
      TotalsSelfEmployed(sts[..|sts| - 1], rate);
    }
  }

  /** The sum of the factors of the active days (of the incapacity days when `itOnly`). */
  function FactorSum(sts: seq<DayStatus>, itOnly: bool): real
    decreases |sts|
  {
    if sts == [] then 0.0
    else
      var st := sts[|sts| - 1];
      FactorSum(sts[..|sts| - 1], itOnly) + (if st.Active? && (!itOnly || st.incapacity) then st.factor else 0.0)
  }

  lemma Distributes(r: real, a: real, b: real)
    ensures r * (a + b) == r * a + r * b
  {
  }

  /** Theoretical hours are the daily rate times the summed factors of the active days. */
  lemma {:induction false} TotalsTheoretical(sts: seq<DayStatus>, rate: real)
    ensures TotalsOf(sts, rate).hT == rate * FactorSum(sts, false)
    decreases |sts|
  {
    if sts != [] {
      var init, st := sts[..|sts| - 1], sts[|sts| - 1];
      TotalsTheoretical(init, rate);
      assert TotalsOf(sts, rate) == Step(TotalsOf(init, rate), st, rate);
      if st.Active? {
        Distributes(rate, FactorSum(init, false), st.factor);
      }
    }
  }

  /** Incapacity hours are the daily rate times the summed factors of the incapacity days. */
  lemma {:induction false} TotalsIncapacity(sts: seq<DayStatus>, rate: real)
    ensures TotalsOf(sts, rate).hI == rate * FactorSum(sts, true)
    decreases |sts|
  {
    if sts != [] {
      var init, st := sts[..|sts| - 1], sts[|sts| - 1];
      TotalsIncapacity(init, rate);
      if st.Active? && st.incapacity {
        Distributes(rate, FactorSum(init, true), st.factor);
      }
    }
  }

  /** No day is counted exactly when no day of the run is active. */
  lemma {:induction false} TotalsNoActiveDay(sts: seq<DayStatus>, rate: real)
    ensures TotalsOf(sts, rate).dAlta == 0 <==> forall i :: 0 <= i < |sts| ==> !sts[i].Active?
    decreases |sts|
  {
    if sts != [] {
      var init := sts[..|sts| - 1];
      TotalsNoActiveDay(init, rate);
      assert forall i :: 0 <= i < |init| ==> init[i] == sts[i];
    }
  }

  // ---------------------------------------------------------------------------
  // The audit rows
  // ---------------------------------------------------------------------------

  /** One row of the IDC audit table. */
  datatype AuditRow = AuditRow(nombre: string, dni: Option<string>, horasEfectivas: real, diasIt: nat,
                               cifEmpresa: string, empresa: string)

  /** The names offered for selection: those of the records, except unidentified ones. */
  predicate Selectable(raw: seq<Period>, p: string) {
    (exists i :: 0 <= i < |raw| && raw[i].nombre == p) && !Contains(p, "DESCONOCIDO")
  }

  /** `[r for r in raw if r['Nombre'] == p]`. */
  function OfWorker(raw: seq<Period>, p: string): (r: seq<Period>)
    ensures (exists i :: 0 <= i < |raw| && raw[i].nombre == p) ==> r != []
    ensures forall i :: 0 <= i < |r| ==> r[i].nombre == p
    decreases |raw|
  {
    if raw == [] then []
    else OfWorker(raw[..|raw| - 1], p) + (if raw[|raw| - 1].nombre == p then [raw[|raw| - 1]] else [])
  }

  /** The statuses of one worker's audit days. */
  function WorkerDays(raw: seq<Period>, p: string, year: int): seq<DayStatus>
    requires 1 <= year <= 9998 && exists i :: 0 <= i < |raw| && raw[i].nombre == p
  {
    var ps := SortByDesde(OfWorker(raw, p));
    Statuses(ps, ps[0].esAutonomo, year, AuditYearLength(year))
  }

  /** The totals of one worker's audit year, at `h_conv / dias_anio` hours per day. */
  function WorkerYear(raw: seq<Period>, p: string, year: int, hConv: real): Totals
    requires 1 <= year <= 9998 && exists i :: 0 <= i < |raw| && raw[i].nombre == p
  {
    TotalsOf(WorkerDays(raw, p, year), hConv / AuditYearLength(year) as real)
  }

  /** `if d_alta > 0: audit_data.append({...})`, with the worker's first period and totals. */
  function RowOf(p: string, first: Period, t: Totals, empManual: string, cifManual: string): Option<AuditRow> {
    if t.dAlta > 0 then
      Some(AuditRow(p, NormalizeDni(Some(first.dniTrabajador)), Round2(t.hT - t.hI), t.dIt,
                    if first.esAutonomo then cifManual else first.nifEmpresa,
                    if first.esAutonomo then empManual else first.empresa))
    else None
  }

  /** The row of one worker, present when at least one day is active. */
  function RowFor(raw: seq<Period>, p: string, year: int, hConv: real, empManual: string, cifManual: string)
    : Option<AuditRow>
    requires 1 <= year <= 9998 && exists i :: 0 <= i < |raw| && raw[i].nombre == p
  {
    RowOf(p, SortByDesde(OfWorker(raw, p))[0], WorkerYear(raw, p, year, hConv), empManual, cifManual)
  }

  predicate ValidSelection(raw: seq<Period>, sel: seq<string>) {
    forall k :: 0 <= k < |sel| ==> Selectable(raw, sel[k])
  }

  function OptionList(r: Option<AuditRow>): seq<AuditRow> {
    if r.Some? then [r.value] else []
  }

  /** The rows of the selected workers, in selection order. */
  function AuditRows(raw: seq<Period>, sel: seq<string>, year: int, hConv: real, empManual: string, cifManual: string)
    : seq<AuditRow>
    requires 1 <= year <= 9998 && ValidSelection(raw, sel)
    decreases |sel|
  {
    if sel == [] then []
    else
      var init := sel[..|sel| - 1];
      assert ValidSelection(raw, init);
      AuditRows(raw, init, year, hConv, empManual, cifManual) + OptionList(RowFor(raw, sel[|sel| - 1], year, hConv, empManual, cifManual))
  }

  lemma AuditRowsSnoc(raw: seq<Period>, sel: seq<string>, k: nat, year: int, hConv: real, empManual: string, cifManual: string)
    requires 1 <= year <= 9998 && ValidSelection(raw, sel) && k < |sel|
    ensures ValidSelection(raw, sel[..k]) && ValidSelection(raw, sel[..k + 1])
    ensures AuditRows(raw, sel[..k + 1], year, hConv, empManual, cifManual)
            == AuditRows(raw, sel[..k], year, hConv, empManual, cifManual) + OptionList(RowFor(raw, sel[k], year, hConv, empManual, cifManual))
  {
    assert sel[..k + 1][..k] == sel[..k];
  }

  /** The worker loop of lines 117-147. */
  method AuditYear(raw: seq<Period>, sel: seq<string>, year: int, hConv: real, empManual: string, cifManual: string)
    returns (rows: seq<AuditRow>)
    requires 1 <= year <= 9998 && ValidSelection(raw, sel)
    ensures rows == AuditRows(raw, sel, year, hConv, empManual, cifManual)
  {
    var days := AuditYearLength(year);
    var rate := hConv / days as real;
    rows := [];
    var k := 0;
    while k < |sel|
      invariant 0 <= k <= |sel|
      invariant rows == AuditRows(raw, sel[..k], year, hConv, empManual, cifManual)
    {
      AuditRowsSnoc(raw, sel, k, year, hConv, empManual, cifManual);
      var p := sel[k];
      var ps := SortByDesde(OfWorker(raw, p));
      var esAut := ps[0].esAutonomo;
      var t := WorkerTotals(ps, esAut, rate, year, days);
      assert t == WorkerYear(raw, p, year, hConv);
      var row := RowOf(p, ps[0], t, empManual, cifManual);
      assert row == RowFor(raw, p, year, hConv, empManual, cifManual);
      if row.Some? {
        rows := rows + [row.value];
      }
      assert rows == AuditRows(raw, sel[..k + 1], year, hConv, empManual, cifManual);
      k := k + 1;
    }
    assert sel[..k] == sel;
  }

  /** A row is produced exactly when some audit day is active, and it names the worker. */
  lemma RowForPresent(raw: seq<Period>, p: string, year: int, hConv: real, empManual: string, cifManual: string)
    requires 1 <= year <= 9998 && exists i :: 0 <= i < |raw| && raw[i].nombre == p
    ensures var r := RowFor(raw, p, year, hConv, empManual, cifManual);
            var sts := WorkerDays(raw, p, year);
            (r.Some? <==> exists i :: 0 <= i < |sts| && sts[i].Active?) && (r.Some? ==> r.value.nombre == p)
  {
    TotalsNoActiveDay(WorkerDays(raw, p, year), hConv / AuditYearLength(year) as real);
  }

  /**
    A row's incapacity days fit in the year and, for non-negative agreement hours, its effective
    hours are not negative.
  */
  lemma RowForBounds(raw: seq<Period>, p: string, year: int, hConv: real, empManual: string, cifManual: string)
    requires 1 <= year <= 9998 && exists i :: 0 <= i < |raw| && raw[i].nombre == p
    ensures var r := RowFor(raw, p, year, hConv, empManual, cifManual);
            r.Some? ==> r.value.diasIt <= AuditYearLength(year) && (hConv >= 0.0 ==> r.value.horasEfectivas >= 0.0)
  {
    var ps := SortByDesde(OfWorker(raw, p));
    var days := AuditYearLength(year);
    var rate := hConv / days as real;
    var sts := WorkerDays(raw, p, year);
    TotalsCounts(sts, rate);
    if hConv >= 0.0 {
      assert rate >= 0.0;
      StatusesConsistent(ps, ps[0].esAutonomo, year, days);
      TotalsHours(sts, ps[0].esAutonomo, rate);
    }
  }

  /** A self-employed worker's row (judged by the earliest period) has no incapacity days. */
  lemma RowForSelfEmployed(raw: seq<Period>, p: string, year: int, hConv: real, empManual: string, cifManual: string)
    requires 1 <= year <= 9998 && exists i :: 0 <= i < |raw| && raw[i].nombre == p
    requires EarliestFirst(OfWorker(raw, p), Key).esAutonomo
    ensures var r := RowFor(raw, p, year, hConv, empManual, cifManual);
            r.Some? ==> r.value.diasIt == 0
  {
    var ws := OfWorker(raw, p);
    var ps := SortByDesde(ws);
    SortByHead(ws, Key);
    StatusesConsistent(ps, true, year, AuditYearLength(year));
    TotalsSelfEmployed(WorkerDays(raw, p, year), hConv / AuditYearLength(year) as real);
  }

  /**
    A row reports the DNI of the earliest period and its company, or the manual company for a
    self-employed worker.
  */
  lemma RowForCompany(raw: seq<Period>, p: string, year: int, hConv: real, empManual: string, cifManual: string)
    requires 1 <= year <= 9998 && exists i :: 0 <= i < |raw| && raw[i].nombre == p
    ensures var r := RowFor(raw, p, year, hConv, empManual, cifManual);
            var first := EarliestFirst(OfWorker(raw, p), Key);
            r.Some? ==> r.value.dni == NormalizeDni(Some(first.dniTrabajador))
                        && r.value.cifEmpresa == (if first.esAutonomo then cifManual else first.nifEmpresa)
                        && r.value.empresa == (if first.esAutonomo then empManual else first.empresa)
  {
    SortByHead(OfWorker(raw, p), Key);
  }

  /** Every row belongs to a selected worker, and there is at most one per selected name. */
  lemma {:induction false} AuditRowsCount(raw: seq<Period>, sel: seq<string>, year: int, hConv: real, empManual: string, cifManual: string)
    requires 1 <= year <= 9998 && ValidSelection(raw, sel)
    ensures |AuditRows(raw, sel, year, hConv, empManual, cifManual)| <= |sel|
    ensures forall k :: 0 <= k < |AuditRows(raw, sel, year, hConv, empManual, cifManual)| ==>
              exists j :: 0 <= j < |sel| && AuditRows(raw, sel, year, hConv, empManual, cifManual)[k].nombre == sel[j]
    decreases |sel|
  {
    if sel != [] {
      var init := sel[..|sel| - 1];
      assert ValidSelection(raw, init);
      AuditRowsCount(raw, init, year, hConv, empManual, cifManual);
      var rows := AuditRows(raw, sel, year, hConv, empManual, cifManual);
      var prev := AuditRows(raw, init, year, hConv, empManual, cifManual);
      forall k | 0 <= k < |rows|
        ensures exists j :: 0 <= j < |sel| && rows[k].nombre == sel[j]
      {
        if k < |prev| {
          var j :| 0 <= j < |init| && prev[k].nombre == init[j];
          assert rows[k] == prev[k] && sel[j] == init[j];
        } else {
          assert rows[k].nombre == sel[|sel| - 1];
        }
      }
    }
  }
}
