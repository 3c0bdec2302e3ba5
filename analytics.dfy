/**
 * Attendance and finance analytics: the rounded attendance percentage, totals
 * per calendar month, what each student still owes, and head counts per group.
 */
module Analytics {
  import opened Wrappers
  import opened Text
  import opened Seqs

  // ---------------------------------------------------------------------
  // attendanceRate

  /** Number of records whose `estado` is exactly "presente". */
  function PresentCount(estados: seq<string>): (n: nat)
    ensures n <= |estados|
  {
    if |estados| == 0 then 0
    else PresentCount(estados[..|estados| - 1]) + (if estados[|estados| - 1] == "presente" then 1 else 0)
  }

  /**
   * `attendanceRate(records)` over the records' `estado` values; `None` is a
   * value that is not an array. The result is 100·present/length rounded half up.
   */
  function AttendanceRate(records: Option<seq<string>>): (r: int)
    ensures 0 <= r <= 100
    ensures records.None? || |records.value| == 0 ==> r == 0
    ensures records.Some? && |records.value| > 0 ==>
      var n, p := |records.value|, PresentCount(records.value);
      200 * p - n < 2 * n * r <= 200 * p + n
  {
    if records.None? || |records.value| == 0 then 0
    else
      var n, p := |records.value|, PresentCount(records.value);
      RoundedPercentage(p, n)
  }

  /** `Math.round(p / n * 100)` computed exactly. */
  function RoundedPercentage(p: nat, n: nat): (r: int)
    requires 0 < n && p <= n
    ensures 0 <= r <= 100
    ensures 200 * p - n < 2 * n * r <= 200 * p + n
  {
    var d, a := 2 * n, 200 * p + n;
    var q := a / d;
    DivBounds(a, d);
    assert a < d * 101;
    MulLessCancel(d, q, 101);
    q
  }

  lemma DivBounds(a: nat, d: nat)
    requires d > 0
    ensures 0 <= a / d
    ensures d * (a / d) <= a < d * (a / d) + d
  {
  }

  lemma MulLessCancel(d: nat, x: int, y: int)
    requires d > 0 && d * x < d * y
    ensures x < y
  {
  }

  // ---------------------------------------------------------------------
  // monthlyTotals

  type Month = m: int | 1 <= m <= 12 witness 1

  /** A transaction date as its local year and month (`getFullYear`, `getMonth() + 1`). */
  datatype YearMonth = YearMonth(year: int, month: Month)

  /**
   * A transaction: its parsed date (`None` when `fecha` is missing or invalid)
   * and its amount as a number (`None` when it is NaN).
   */
  datatype Transaction = Transaction(fecha: Option<YearMonth>, monto: Option<int>)

  /** `String(m).padStart(2, '0')` for `m < 100`. */
  function Pad2(m: nat): (s: string)
    requires m < 100
    ensures |s| == 2
  {
    [DigitChar(m / 10), DigitChar(m % 10)]
  }

  /** The `YYYY-MM` key of a month. */
  function MonthKey(d: YearMonth): string {
    IntToString(d.year) + "-" + Pad2(d.month)
  }

  /** Two different months never share a key. */
  lemma MonthKeyInjective(a: YearMonth, b: YearMonth)
    requires MonthKey(a) == MonthKey(b)
    ensures a == b
  {
    var ka, kb := MonthKey(a), MonthKey(b);
    assert ka[|ka| - 2..] == Pad2(a.month);
    assert kb[|kb| - 2..] == Pad2(b.month);
    assert ka[..|ka| - 3] == IntToString(a.year);
    assert kb[..|kb| - 3] == IntToString(b.year);
    ParseIntOfIntToString(a.year);
    ParseIntOfIntToString(b.year);
    assert DigitChar(a.month / 10) == DigitChar(b.month / 10);
    assert DigitChar(a.month % 10) == DigitChar(b.month % 10);
  }

  predicate Counts(t: Transaction) {
    t.fecha.Some? && t.monto.Some?
  }

  /** Sum of the amounts of the counted transactions falling in the month keyed `k`. */
  function MonthTotal(ts: seq<Transaction>, k: string): int {
    if |ts| == 0 then 0
    else
      var t := ts[|ts| - 1];
      MonthTotal(ts[..|ts| - 1], k) + (if Counts(t) && MonthKey(t.fecha.value) == k then t.monto.value else 0)
  }

  /** The month keys of the counted transactions, in order. */
  function MonthKeys(ts: seq<Transaction>): seq<string> {
    if |ts| == 0 then []
    else
      var t := ts[|ts| - 1];
      MonthKeys(ts[..|ts| - 1]) + (if Counts(t) then [MonthKey(t.fecha.value)] else [])
  }

  /** The totals object after folding the transactions in order. */
  function Totals(ts: seq<Transaction>): map<string, int> {
    if |ts| == 0 then map[]
    else
      var m, t := Totals(ts[..|ts| - 1]), ts[|ts| - 1];
      if Counts(t) then
        var key := MonthKey(t.fecha.value);
        m[key := (if key in m then m[key] else 0) + t.monto.value]
      else m
  }

  lemma {:induction false} TotalsMeaning(ts: seq<Transaction>)
    ensures forall k :: k in Totals(ts) <==> k in MonthKeys(ts)
    ensures forall k | k in Totals(ts) :: Totals(ts)[k] == MonthTotal(ts, k)
  {
    if |ts| > 0 {
      var pre, t := ts[..|ts| - 1], ts[|ts| - 1];
      TotalsMeaning(pre);
      if Counts(t) {
        var key := MonthKey(t.fecha.value);
        if key !in Totals(pre) {
          MonthTotalAbsent(pre, key);
        }
      }
    }
  }

  lemma {:induction false} MonthTotalAbsent(ts: seq<Transaction>, k: string)
    requires k !in MonthKeys(ts)
    ensures MonthTotal(ts, k) == 0
  {
    if |ts| > 0 {
      MonthTotalAbsent(ts[..|ts| - 1], k);
    }
  }

  /**
   * `monthlyTotals(transactions)` (a missing list is the empty sequence): one
   * entry per month that has a counted transaction, holding that month's total.
   */
  method MonthlyTotals(ts: seq<Transaction>) returns (totals: map<string, int>)
    ensures forall k :: k in totals <==> k in MonthKeys(ts)
    ensures forall k | k in totals :: totals[k] == MonthTotal(ts, k)
  {
    totals := map[];
    var i := 0;
    while i < |ts|
      invariant 0 <= i <= |ts|
      invariant totals == Totals(ts[..i])
    {
      var t := ts[i];
      assert ts[..i + 1][..i] == ts[..i];
      if t.fecha.Some? && t.monto.Some? {
        var key := MonthKey(t.fecha.value);
        var prev := if key in totals then totals[key] else 0;
        totals := totals[key := prev + t.monto.value];
      }
      i := i + 1;
    }
    assert ts[..|ts|] == ts;
    TotalsMeaning(ts);
  }

  // ---------------------------------------------------------------------
  // outstandingPayments

  /** The amount every student is expected to pay when no other is given. */
  const DefaultExpected := 50000

  /**
   * A payment record: its three candidate identifiers (an empty one is falsy)
   * and its amount as a number (`None` when it is NaN).
   */
  datatype Payment = Payment(estudianteId: string, id: string, studentId: string, monto: Option<int>)

  /** `p.estudianteId || p.id || p.studentId`. */
  function PaymentId(p: Payment): string {
    if p.estudianteId != "" then p.estudianteId
    else if p.id != "" then p.id
    else p.studentId
  }

  predicate Counted(p: Payment) {
    PaymentId(p) != "" && p.monto.Some?
  }

  /** The identifiers of the counted payments, in order. */
  function CountedIds(ps: seq<Payment>): seq<string> {
    if |ps| == 0 then []
    else
      var p := ps[|ps| - 1];
      CountedIds(ps[..|ps| - 1]) + (if Counted(p) then [PaymentId(p)] else [])
  }

  /** What the counted payments credit to `id`. */
  function PaidBy(ps: seq<Payment>, id: string): int {
    if |ps| == 0 then 0
    else
      var p := ps[|ps| - 1];
      PaidBy(ps[..|ps| - 1], id) + (if Counted(p) && PaymentId(p) == id then p.monto.value else 0)
  }

  datatype Outstanding = Outstanding(id: string, paid: int, remaining: int)

  function Remaining(expected: int, paid: int): (r: int)
    ensures r >= 0
    ensures r == 0 <==> paid >= expected
    ensures r > 0 ==> paid + r == expected
  {
    if expected - paid > 0 then expected - paid else 0
  }

  /** The `Map` from student to amount paid after folding the payments in order. */
  function PaidMap(ps: seq<Payment>): map<string, int> {
    if |ps| == 0 then map[]
    else
      var m, p := PaidMap(ps[..|ps| - 1]), ps[|ps| - 1];
      if Counted(p) then
        var id := PaymentId(p);
        m[id := (if id in m then m[id] else 0) + p.monto.value]
      else m
  }

  lemma {:induction false} PaidMapMeaning(ps: seq<Payment>)
    ensures forall k :: k in PaidMap(ps) <==> k in CountedIds(ps)
    ensures forall k | k in PaidMap(ps) :: PaidMap(ps)[k] == PaidBy(ps, k)
  {
    if |ps| > 0 {
      var pre, p := ps[..|ps| - 1], ps[|ps| - 1];
      PaidMapMeaning(pre);
      if Counted(p) && PaymentId(p) !in PaidMap(pre) {
        PaidByAbsent(pre, PaymentId(p));
      }
    }
  }

  lemma {:induction false} PaidByAbsent(ps: seq<Payment>, k: string)
    requires k !in CountedIds(ps)
    ensures PaidBy(ps, k) == 0
  {
    if |ps| > 0 {
      PaidByAbsent(ps[..|ps| - 1], k);
    }
  }

  lemma PaymentStep(ps: seq<Payment>, i: nat)
    requires i < |ps|
    ensures CountedIds(ps[..i + 1])
         == CountedIds(ps[..i]) + (if Counted(ps[i]) then [PaymentId(ps[i])] else [])
    ensures PaidMap(ps[..i + 1]) == (if Counted(ps[i]) then
      PaidMap(ps[..i])[PaymentId(ps[i]) :=
        (if PaymentId(ps[i]) in PaidMap(ps[..i]) then PaidMap(ps[..i])[PaymentId(ps[i])] else 0)
        + ps[i].monto.value]
      else PaidMap(ps[..i]))
  {
    assert ps[..i + 1][..i] == ps[..i];
  }

  /** One payment folded into the paid map `m` (the map of the payments before it). */
  lemma PaidStep(ps: seq<Payment>, i: nat, m: map<string, int>, id: string)
    requires i < |ps| && m == PaidMap(ps[..i]) && id == PaymentId(ps[i])
    ensures Counted(ps[i]) ==> PaidMap(ps[..i + 1]) == m[id := (if id in m then m[id] else 0) + ps[i].monto.value]
    ensures !Counted(ps[i]) ==> PaidMap(ps[..i + 1]) == m
  {
    PaymentStep(ps, i);
  }

  /** One payment appended to the key order `d` (the order of the payments before it). */
  lemma OrderStep(ps: seq<Payment>, i: nat, d: seq<string>, id: string)
    requires i < |ps| && d == Dedup(CountedIds(ps[..i])) && id == PaymentId(ps[i])
    ensures Counted(ps[i]) ==> Dedup(CountedIds(ps[..i + 1])) == if id !in d then d + [id] else d
    ensures !Counted(ps[i]) ==> Dedup(CountedIds(ps[..i + 1])) == d
  {
    PaymentStep(ps, i);
    var ids, p := CountedIds(ps[..i]), ps[i];
    if Counted(p) {
      DedupSnoc(ids, PaymentId(p));
      DedupMembers(ids, PaymentId(p));
    } else {
      assert CountedIds(ps[..i + 1]) == ids;
    }
  }

  /** The keys of the paid map are exactly the first-appearance order of the counted ids. */
  lemma PaidMapKeys(ps: seq<Payment>)
    ensures forall k :: k in PaidMap(ps) <==> k in Dedup(CountedIds(ps))
    ensures forall k | k in PaidMap(ps) :: PaidMap(ps)[k] == PaidBy(ps, k)
  {
    PaidMapMeaning(ps);
    forall k ensures k in Dedup(CountedIds(ps)) <==> k in CountedIds(ps) {
      DedupMembers(CountedIds(ps), k);
    }
  }

  /**
   * The first loop of `outstandingPayments`: the `Map` from student to amount
   * paid, kept as its keys in insertion order and its entries.
   */
  method PaidPerStudent(ps: seq<Payment>) returns (order: seq<string>, paid: map<string, int>)
    ensures order == Dedup(CountedIds(ps))
    ensures forall k :: k in paid <==> k in order
    ensures forall k | k in paid :: paid[k] == PaidBy(ps, k)
  {
    order := [];
    paid := map[];
    var i := 0;
    while i < |ps|
      invariant 0 <= i <= |ps|
      invariant order == Dedup(CountedIds(ps[..i]))
      invariant paid == PaidMap(ps[..i])
    {
      var p := ps[i];
      var id := PaymentId(p);
      PaidStep(ps, i, paid, id);
      OrderStep(ps, i, order, id);
      if Counted(p) {
        var prev := if id in paid then paid[id] else 0;
        paid := paid[id := prev + p.monto.value];
        if id !in order {
          order := order + [id];
        }
      }
      i := i + 1;
    }
    assert ps[..|ps|] == ps;
    assert paid == PaidMap(ps);
    PaidMapKeys(ps);
  }

  /**
   * `outstandingPayments(payments, expected)`: one entry per student with a
   * counted payment, in order of first payment, with the total paid and what is
   * left to reach the expected amount (never negative).
   */
  method OutstandingPayments(ps: seq<Payment>, expected: Option<int>) returns (result: seq<Outstanding>)
    ensures var ids := Dedup(CountedIds(ps));
      |result| == |ids| &&
      forall i | 0 <= i < |result| ::
        result[i].id == ids[i] &&
        result[i].paid == PaidBy(ps, ids[i]) &&
        result[i].remaining == Remaining(expected.GetOr(DefaultExpected), result[i].paid)
    ensures forall i, j | 0 <= i < j < |result| :: result[i].id != result[j].id
  {
    var e := expected.GetOr(DefaultExpected);
    var order, paid := PaidPerStudent(ps);
    DedupDistinct(CountedIds(ps));
    result := [];
    var j := 0;
    while j < |order|
      invariant 0 <= j <= |order|
      invariant |result| == j
      invariant forall m | 0 <= m < j ::
        result[m] == Outstanding(order[m], paid[order[m]], Remaining(e, paid[order[m]]))
    {
      result := result + [Outstanding(order[j], paid[order[j]], Remaining(e, paid[order[j]]))];
      j := j + 1;
    }
  }

  // ---------------------------------------------------------------------
  // groupStats

  /** A student record's `grupo` field; an empty one is falsy. */
  datatype StudentRecord = StudentRecord(grupo: string)

  /** `s.grupo || 'Sin grupo'`. */
  function GroupOf(s: StudentRecord): string {
    if s.grupo != "" then s.grupo else "Sin grupo"
  }

  function Groups(students: seq<StudentRecord>): (gs: seq<string>)
    ensures |gs| == |students|
  {
    seq(|students|, i requires 0 <= i < |students| => GroupOf(students[i]))
  }

  /** `stats` counts, for every group of `xs` and only those, the students of `xs` in it. */
  ghost predicate CountsGroups(stats: map<string, nat>, xs: seq<StudentRecord>) {
    (forall g :: g in stats <==> g in Groups(xs)) &&
    (forall g | g in stats :: stats[g] == CountKey(xs, GroupOf, g))
  }

  /** Counting one more student: its group's count goes up by one, or starts at one. */
  lemma StatsStep(students: seq<StudentRecord>, i: nat, stats: map<string, nat>)
    requires i < |students| && CountsGroups(stats, students[..i])
    ensures var g := GroupOf(students[i]);
      CountsGroups(stats[g := (if g in stats then stats[g] else 0) + 1], students[..i + 1])
  {
    var s, pre := students[i], students[..i];
    assert students[..i + 1] == pre + [s];
    assert (pre + [s])[..i] == pre;
    assert Groups(students[..i + 1]) == Groups(pre) + [GroupOf(s)];
    var g := GroupOf(s);
    if g !in stats {
      forall j | 0 <= j < |pre| ensures GroupOf(pre[j]) != g {
        assert Groups(pre)[j] == GroupOf(pre[j]);
      }
      CountKeyAbsent(pre, GroupOf, g);
    }
    var next := stats[g := (if g in stats then stats[g] else 0) + 1];
    forall h | h in next ensures next[h] == CountKey(students[..i + 1], GroupOf, h) {
      assert CountKey(pre + [s], GroupOf, h) == CountKey(pre, GroupOf, h) + (if g == h then 1 else 0);
    }
  }

  /** `groupStats(students)`: for every group that occurs, how many students it has. */
  method GroupStats(students: seq<StudentRecord>) returns (stats: map<string, nat>)
    ensures forall g :: g in stats <==> g in Groups(students)
    ensures forall g | g in stats :: stats[g] == CountKey(students, GroupOf, g)
  {
    stats := map[];
    var i := 0;
    while i < |students|
      invariant 0 <= i <= |students|
      invariant CountsGroups(stats, students[..i])
    {
      StatsStep(students, i, stats);
      var g := GroupOf(students[i]);
      var prev := if g in stats then stats[g] else 0;
      stats := stats[g := prev + 1];
      i := i + 1;
    }
    assert students[..|students|] == students;
  }

  /** Adding the per-group counts over the distinct groups gives back every student once. */
  lemma GroupStatsTotal(students: seq<StudentRecord>)
    ensures SumCounts(students, GroupOf, Dedup(Groups(students))) == |students|
  {
    var ks := Dedup(Groups(students));
    DedupDistinct(Groups(students));
    forall i | 0 <= i < |students| ensures GroupOf(students[i]) in ks {
      assert Groups(students)[i] == GroupOf(students[i]);
      DedupMembers(Groups(students), GroupOf(students[i]));
    }
    PartitionCount(students, GroupOf, ks);
  }
}
