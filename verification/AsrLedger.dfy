/**
 The ledger of speech-recognition calls and its daily and monthly budget. Costs and seconds are real numbers, and an
 instant is a number of milliseconds since 1970 in UTC.
 */
module AsrLedger {
  import opened Wrappers

  type CallId = string
  type JobId = string

  // ---------- The calendar ----------

  const DAY := 86_400_000

  predicate Leap(year: nat) { year % 4 == 0 && (year % 100 != 0 || year % 400 == 0) }

  // Days in month k, counted from January 1970.
  function DaysIn(k: nat): (n: nat)
    ensures 28 <= n <= 31
  {
    var m := k % 12;
    if m == 1 then (if Leap(1970 + k / 12) then 29 else 28)
    else if m == 3 || m == 5 || m == 8 || m == 10 then 30 else 31
  }

  // The day on which month k begins.
  function MonthStart(k: nat): (d: nat)
    ensures d >= k
  {
    if k == 0 then 0 else MonthStart(k - 1) + DaysIn(k - 1)
  }

  function MonthFrom(day: nat, k: nat): (m: nat)
    requires MonthStart(k) <= day
    ensures MonthStart(m) <= day < MonthStart(m + 1)
    decreases day - k
  {
    if day < MonthStart(k + 1) then k else MonthFrom(day, k + 1)
  }

  function DayOf(t: nat): nat { t / DAY }

  function MonthOf(t: nat): nat { MonthFrom(DayOf(t), 0) }

  lemma MonthOfYear(y: nat, m: nat)
    requires m < 12
    ensures (12 * y + m) / 12 == y && (12 * y + m) % 12 == m
  {
  }

  /** The lengths of the twelve months of the year 1970 + y. */
  lemma MonthLengths(y: nat, m: nat)
    requires m < 12
    ensures m == 1 ==> DaysIn(12 * y + m) == if Leap(1970 + y) then 29 else 28
    ensures m != 1 ==> DaysIn(12 * y + m) == [31, 28, 31, 30, 31, 30, 31, 31, 30, 31, 30, 31][m]
  {
    MonthOfYear(y, m);
  }

  lemma FourMonths(k: nat, n: nat)
    requires DaysIn(k) + DaysIn(k + 1) + DaysIn(k + 2) + DaysIn(k + 3) == n
    ensures MonthStart(k + 4) == MonthStart(k) + n
  {
    assert MonthStart(k + 2) == MonthStart(k + 1) + DaysIn(k + 1);
    assert MonthStart(k + 4) == MonthStart(k + 3) + DaysIn(k + 3);
  }

  lemma ToMay(y: nat)
    ensures MonthStart(12 * y + 4) == MonthStart(12 * y) + if Leap(1970 + y) then 121 else 120
  {
    MonthLengths(y, 0);
    MonthLengths(y, 1);
    MonthLengths(y, 2);
    MonthLengths(y, 3);
    FourMonths(12 * y, if Leap(1970 + y) then 121 else 120);
  }

  lemma ToSeptember(y: nat)
    ensures MonthStart(12 * y + 8) == MonthStart(12 * y + 4) + 123
  {
    MonthLengths(y, 4);
    MonthLengths(y, 5);
    MonthLengths(y, 6);
    MonthLengths(y, 7);
    FourMonths(12 * y + 4, 123);
  }

  lemma ToNewYear(y: nat)
    ensures MonthStart(12 * y + 12) == MonthStart(12 * y + 8) + 122
  {
    MonthLengths(y, 8);
    MonthLengths(y, 9);
    MonthLengths(y, 10);
    MonthLengths(y, 11);
    FourMonths(12 * y + 8, 122);
  }

  lemma OneYear(y: nat)
    ensures MonthStart(12 * (y + 1)) == MonthStart(12 * y) + if Leap(1970 + y) then 366 else 365
  {
    ToMay(y);
    ToSeptember(y);
    ToNewYear(y);
  }

  // The leap days before the year 1970 + y: one every four years, but not in three of four centuries.
  function LeapDays(y: nat): int { (y + 1) / 4 - (y + 69) / 100 + (y + 369) / 400 }

  lemma FoursNext(y: nat)
    ensures (y + 2) / 4 == (y + 1) / 4 + if (1970 + y) % 4 == 0 then 1 else 0
  {
  }

  lemma HundredsNext(y: nat)
    ensures (y + 70) / 100 == (y + 69) / 100 + if (1970 + y) % 100 == 0 then 1 else 0
    ensures (1970 + y) % 100 == 0 ==> (1970 + y) % 4 == 0
  {
  }

  lemma FourHundredsNext(y: nat)
    ensures (y + 370) / 400 == (y + 369) / 400 + if (1970 + y) % 400 == 0 then 1 else 0
    ensures (1970 + y) % 400 == 0 ==> (1970 + y) % 100 == 0
  {
  }

  lemma LeapDaysNext(y: nat)
    ensures LeapDays(y + 1) == LeapDays(y) + if Leap(1970 + y) then 1 else 0
  {
    FoursNext(y);
    HundredsNext(y);
    FourHundredsNext(y);
  }

  /** The year 1970 + y begins 365 y days and one day for each leap year after 1970 began. */
  lemma {:induction false} YearStart(y: nat)
    ensures MonthStart(12 * y) == 365 * y + LeapDays(y)
  {
    if 0 < y {
      YearStart(y - 1);
      OneYear(y - 1);
      LeapDaysNext(y - 1);
    }
  }

  lemma {:induction false} MonthsInOrder(a: nat, b: nat)
    requires a <= b
    ensures MonthStart(a) <= MonthStart(b)
    decreases b
  {
    if a < b {
      MonthsInOrder(a, b - 1);
    }
  }

  /** The month of an instant is the one month whose days it lies in. */
  lemma MonthOfExactly(t: nat, m: nat)
    ensures MonthOf(t) == m <==> MonthStart(m) <= t / DAY < MonthStart(m + 1)
  {
    if MonthOf(t) < m {
      MonthsInOrder(MonthOf(t) + 1, m);
    } else if m < MonthOf(t) {
      MonthsInOrder(m + 1, MonthOf(t));
    }
  }

  /** On the first of January 2026, in UTC, it is day 20454 and month 672 since 1970, from midnight to midnight. */
  lemma NewYear2026(t: nat)
    ensures DayOf(t) == 20454 <==> 1_767_225_600_000 <= t < 1_767_312_000_000
    ensures DayOf(t) == 20454 ==> MonthOf(t) == 672
  {
    YearStart(56);
    MonthLengths(56, 0);
    MonthOfExactly(t, 672);
  }

  // ---------- The ledger ----------

  datatype Status = Submitted | Running | Completed | Failed

  // audio is what was sent, and billed what the provider charged for; both are in seconds.
  datatype Call = Call(
    id: CallId, job: JobId, audio: real, billed: Option<real>, cost: real, startedAt: nat, status: Status,
    task: Option<string>)

  datatype Budget = Budget(daily: real, monthly: real, price: real)

  // SELECT SUM over the calls started in [lo, hi).
  function Total(rows: seq<Call>, lo: nat, hi: nat): real {
    if rows == [] then 0.0
    else
      var c := rows[|rows| - 1];
      Total(rows[..|rows| - 1], lo, hi) + if lo <= c.startedAt < hi then c.cost else 0.0
  }

  function DayTotal(rows: seq<Call>, d: nat): real { Total(rows, d * DAY, d * DAY + DAY) }

  function MonthTotal(rows: seq<Call>, m: nat): real { Total(rows, MonthStart(m) * DAY, MonthStart(m + 1) * DAY) }

  // Costs are not negative, and no call lies in the future of t.
  predicate Until(rows: seq<Call>, t: nat) {
    forall i :: 0 <= i < |rows| ==> rows[i].cost >= 0.0 && rows[i].startedAt <= t
  }

  // The recorded totals of every day and every month are within the caps that are set.
  ghost predicate Within(rows: seq<Call>, b: Budget) {
    && (b.daily > 0.0 ==> forall d: nat :: DayTotal(rows, d) <= b.daily)
    && (b.monthly > 0.0 ==> forall m: nat :: MonthTotal(rows, m) <= b.monthly)
  }

  function Estimate(b: Budget, seconds: real): real { seconds / 60.0 * b.price }

  // A billed length of zero stands for no information: the estimate stays.
  function Actual(b: Budget, billed: real, estimate: real): real {
    if billed == 0.0 then estimate else billed / 60.0 * b.price
  }

  // SetProviderTask, Complete and Fail: only a completion changes the recorded cost.
  datatype Change = TaskKnown(task: string) | Settled(reported: Option<string>, billed: real, cost: real) | GivenUp

  function Changed(c: Call, ch: Change): Call {
    match ch
    case TaskKnown(task) => c.(task := Some(task), status := Running)
    case Settled(task, billed, cost) => c.(task := task, billed := Some(billed), cost := cost, status := Completed)
    case GivenUp => c.(status := Failed)
  }

  function Updated(rows: seq<Call>, id: CallId, ch: Change): seq<Call> {
    seq(|rows|, i requires 0 <= i < |rows| => if rows[i].id == id then Changed(rows[i], ch) else rows[i])
  }

  // Deleting a job deletes its calls.
  function Without(rows: seq<Call>, job: JobId): seq<Call> {
    if rows == [] then []
    else
      var rest := Without(rows[..|rows| - 1], job);
      if rows[|rows| - 1].job == job then rest else rest + [rows[|rows| - 1]]
  }

  function Only(rows: seq<Call>, job: JobId): seq<Call> {
    if rows == [] then []
    else
      var rest := Only(rows[..|rows| - 1], job);
      if rows[|rows| - 1].job == job then rest + [rows[|rows| - 1]] else rest
  }

  lemma {:induction false} TotalNotNegative(rows: seq<Call>, t: nat, lo: nat, hi: nat)
    requires Until(rows, t)
    ensures Total(rows, lo, hi) >= 0.0
    ensures t < lo ==> Total(rows, lo, hi) == 0.0
  {
    if rows != [] {
      TotalNotNegative(rows[..|rows| - 1], t, lo, hi);
    }
  }

  lemma TotalAppend(rows: seq<Call>, c: Call, lo: nat, hi: nat)
    ensures Total(rows + [c], lo, hi) == Total(rows, lo, hi) + if lo <= c.startedAt < hi then c.cost else 0.0
  {
    assert (rows + [c])[..|rows|] == rows;
  }

  lemma {:induction false} TotalPlus(a: seq<Call>, b: seq<Call>, lo: nat, hi: nat)
    ensures Total(a + b, lo, hi) == Total(a, lo, hi) + Total(b, lo, hi)
    decreases |b|
  {
    if b == [] {
      assert a + b == a;
    } else {
      TotalPlus(a, b[..|b| - 1], lo, hi);
      assert (a + b)[..|a + b| - 1] == a + b[..|b| - 1];
    }
  }

  // Lower costs at unchanged times make no total bigger.
  lemma {:induction false} TotalLowered(rows: seq<Call>, rows': seq<Call>, lo: nat, hi: nat)
    requires |rows'| == |rows|
    requires forall i :: 0 <= i < |rows| ==> rows'[i].startedAt == rows[i].startedAt && rows'[i].cost <= rows[i].cost
    ensures Total(rows', lo, hi) <= Total(rows, lo, hi)
  {
    if rows != [] {
      TotalLowered(rows[..|rows| - 1], rows'[..|rows| - 1], lo, hi);
    }
  }

  /** Deleting a job takes exactly its calls out of every total. */
  lemma {:induction false} TotalWithout(rows: seq<Call>, job: JobId, lo: nat, hi: nat)
    ensures Total(rows, lo, hi) == Total(Without(rows, job), lo, hi) + Total(Only(rows, job), lo, hi)
  {
    if rows != [] {
      var front, c := rows[..|rows| - 1], rows[|rows| - 1];
      TotalWithout(front, job, lo, hi);
      if c.job == job {
        TotalAppend(Only(front, job), c, lo, hi);
      } else {
        TotalAppend(Without(front, job), c, lo, hi);
      }
    }
  }

  lemma {:induction false} PartsUntil(rows: seq<Call>, job: JobId, t: nat)
    requires Until(rows, t)
    ensures Until(Without(rows, job), t) && Until(Only(rows, job), t)
    ensures forall c :: c in Without(rows, job) ==> c in rows
  {
    if rows != [] {
      PartsUntil(rows[..|rows| - 1], job, t);
    }
  }

  // The job has a call in [lo, hi) that cost something.
  predicate CostsIn(rows: seq<Call>, job: JobId, lo: nat, hi: nat) {
    exists i :: 0 <= i < |rows| && rows[i].job == job && lo <= rows[i].startedAt < hi && rows[i].cost > 0.0
  }

  lemma {:induction false} OnlyCosts(rows: seq<Call>, job: JobId, t: nat, lo: nat, hi: nat)
    requires Until(rows, t)
    ensures Total(Only(rows, job), lo, hi) >= 0.0
    ensures Total(Only(rows, job), lo, hi) > 0.0 <==> CostsIn(rows, job, lo, hi)
  {
    if rows != [] {
      var front, c := rows[..|rows| - 1], rows[|rows| - 1];
      OnlyCosts(front, job, t, lo, hi);
      if c.job == job {
        TotalAppend(Only(front, job), c, lo, hi);
      }
      CostsInFront(rows, job, lo, hi);
    }
  }

  lemma CostsInFront(rows: seq<Call>, job: JobId, lo: nat, hi: nat)
    requires rows != []
    ensures var c := rows[|rows| - 1];
      CostsIn(rows, job, lo, hi) <==>
      CostsIn(rows[..|rows| - 1], job, lo, hi) || (c.job == job && lo <= c.startedAt < hi && c.cost > 0.0)
  {
    var front := rows[..|rows| - 1];
    if i :| 0 <= i < |front| && front[i].job == job && lo <= front[i].startedAt < hi && front[i].cost > 0.0 {
      assert rows[i] == front[i];
    }
    if i :| 0 <= i < |rows| && rows[i].job == job && lo <= rows[i].startedAt < hi && rows[i].cost > 0.0 {
      assert i < |front| ==> front[i] == rows[i];
    }
  }

  /** Deleting a job gives budget back exactly in the windows in which one of its calls cost something. */
  lemma DeletionRefundsExactly(rows: seq<Call>, job: JobId, t: nat, lo: nat, hi: nat)
    requires Until(rows, t)
    ensures Total(Without(rows, job), lo, hi) <= Total(rows, lo, hi)
    ensures Total(Without(rows, job), lo, hi) < Total(rows, lo, hi) <==> CostsIn(rows, job, lo, hi)
  {
    TotalWithout(rows, job, lo, hi);
    OnlyCosts(rows, job, t, lo, hi);
  }

  // ---------- The budget check and the insert ----------

  // checkBudget: the monthly total at t1, then the daily total at t2.
  predicate MonthAllows(rows: seq<Call>, b: Budget, estimate: real, t1: nat) {
    b.monthly > 0.0 ==> MonthTotal(rows, MonthOf(t1)) + estimate <= b.monthly
  }

  predicate DayAllows(rows: seq<Call>, b: Budget, estimate: real, t2: nat) {
    b.daily > 0.0 ==> DayTotal(rows, DayOf(t2)) + estimate <= b.daily
  }

  // Windows of one kind, in order: a call started at t3 in another window than that of the check starts a new total.
  lemma CapKept(rows: seq<Call>, c: Call, cap: real, lo: nat, hi: nat, lo0: nat, hi0: nat, t0: nat)
    requires Until(rows, t0) && Total(rows, lo, hi) <= cap && Total(rows, lo0, hi0) + c.cost <= cap
    requires lo <= c.startedAt < hi ==> (lo == lo0 && hi == hi0) || t0 < lo
    ensures Total(rows + [c], lo, hi) <= cap
  {
    TotalAppend(rows, c, lo, hi);
    TotalNotNegative(rows, t0, lo, hi);
    TotalNotNegative(rows, t0, lo0, hi0);
  }

  lemma DayKept(rows: seq<Call>, b: Budget, c: Call, t2: nat, d: nat)
    requires b.daily > 0.0 && Until(rows, t2) && t2 <= c.startedAt
    requires DayTotal(rows, d) <= b.daily && DayAllows(rows, b, c.cost, t2)
    ensures DayTotal(rows + [c], d) <= b.daily
  {
    var d0 := DayOf(t2);
    CapKept(rows, c, b.daily, d * DAY, d * DAY + DAY, d0 * DAY, d0 * DAY + DAY, t2);
  }

  lemma MonthKept(rows: seq<Call>, b: Budget, c: Call, t1: nat, m: nat)
    requires b.monthly > 0.0 && Until(rows, t1) && t1 <= c.startedAt
    requires MonthTotal(rows, m) <= b.monthly && MonthAllows(rows, b, c.cost, t1)
    ensures MonthTotal(rows + [c], m) <= b.monthly
  {
    var m0 := MonthOf(t1);
    if m < m0 {
      MonthsInOrder(m + 1, m0);
    } else if m0 < m {
      MonthsInOrder(m0 + 1, m);
    }
    CapKept(rows, c, b.monthly, MonthStart(m) * DAY, MonthStart(m + 1) * DAY, MonthStart(m0) * DAY,
            MonthStart(m0 + 1) * DAY, t1);
  }

  /** A call that passed both checks on these rows is inserted within every cap, also when midnight or the end of the
      month falls between a check and the insert: the clock does not run back, so the new window was still empty. */
  lemma InsertIsSafe(rows: seq<Call>, b: Budget, c: Call, t1: nat, t2: nat)
    requires Within(rows, b) && Until(rows, t1) && t1 <= t2 <= c.startedAt
    requires MonthAllows(rows, b, c.cost, t1) && DayAllows(rows, b, c.cost, t2)
    ensures Within(rows + [c], b)
  {
    if b.daily > 0.0 {
      forall d: nat ensures DayTotal(rows + [c], d) <= b.daily {
        DayKept(rows, b, c, t2, d);
      }
    }
    if b.monthly > 0.0 {
      forall m: nat ensures MonthTotal(rows + [c], m) <= b.monthly {
        MonthKept(rows, b, c, t1, m);
      }
    }
  }

  /** Totals that get lower stay within every cap. */
  lemma LowerIsSafe(rows: seq<Call>, rows': seq<Call>, b: Budget)
    requires Within(rows, b) && forall lo, hi :: Total(rows', lo, hi) <= Total(rows, lo, hi)
    ensures Within(rows', b)
  {
    forall d: nat ensures DayTotal(rows', d) <= DayTotal(rows, d) {
    }
    forall m: nat ensures MonthTotal(rows', m) <= MonthTotal(rows, m) {
    }
  }

  // Settling the call id for no more than every recorded cost of that id.
  lemma UpdateIsLower(rows: seq<Call>, id: CallId, ch: Change, t: nat)
    requires Until(rows, t)
    requires ch.Settled? ==> 0.0 <= ch.cost && forall i :: 0 <= i < |rows| && rows[i].id == id ==> ch.cost <= rows[i].cost
    ensures Until(Updated(rows, id, ch), t)
    ensures forall lo, hi :: Total(Updated(rows, id, ch), lo, hi) <= Total(rows, lo, hi)
  {
    forall lo, hi ensures Total(Updated(rows, id, ch), lo, hi) <= Total(rows, lo, hi) {
      TotalLowered(rows, Updated(rows, id, ch), lo, hi);
    }
  }

  lemma DeleteIsLower(rows: seq<Call>, job: JobId, t: nat)
    requires Until(rows, t)
    ensures Until(Without(rows, job), t) && forall c :: c in Without(rows, job) ==> c in rows
    ensures forall lo, hi :: Total(Without(rows, job), lo, hi) <= Total(rows, lo, hi)
  {
    PartsUntil(rows, job, t);
    forall lo, hi ensures Total(Without(rows, job), lo, hi) <= Total(rows, lo, hi) {
      TotalWithout(rows, job, lo, hi);
      TotalNotNegative(Only(rows, job), t, lo, hi);
    }
  }

  // The seconds that a call is charged for: those billed once it is completed, and those sent otherwise.
  function ChargedSeconds(c: Call): real {
    if c.status.Completed? && c.billed.Some? && c.billed.value > 0.0 then c.billed.value else c.audio
  }

  /** Sixty times the estimate is the price of the seconds sent, and sixty times the actual cost that of the seconds
      billed, or of those sent when the provider bills nothing. */
  lemma CostOfSeconds(b: Budget, billed: real, seconds: real)
    ensures Estimate(b, seconds) * 60.0 == seconds * b.price
    ensures Actual(b, billed, Estimate(b, seconds)) * 60.0 == (if billed != 0.0 then billed else seconds) * b.price
  {
    Sixtieth(seconds, b.price);
    Sixtieth(billed, b.price);
  }

  lemma Sixtieth(x: real, p: real)
    ensures x / 60.0 * p * 60.0 == x * p
  {
    var y := x / 60.0;
    assert y * p * 60.0 == (y * 60.0) * p;
  }

  // The seconds charged for over the calls started in [lo, hi).
  function SecondsCharged(rows: seq<Call>, lo: nat, hi: nat): real {
    if rows == [] then 0.0
    else
      var c := rows[|rows| - 1];
      SecondsCharged(rows[..|rows| - 1], lo, hi) + if lo <= c.startedAt < hi then ChargedSeconds(c) else 0.0
  }

  predicate Charged(c: Call, price: real) { c.cost * 60.0 == ChargedSeconds(c) * price }

  predicate AllCharged(rows: seq<Call>, price: real) {
    rows == [] || (AllCharged(rows[..|rows| - 1], price) && Charged(rows[|rows| - 1], price))
  }

  lemma {:induction false} ChargedEach(rows: seq<Call>, price: real)
    ensures AllCharged(rows, price) <==> forall i :: 0 <= i < |rows| ==> Charged(rows[i], price)
  {
    if rows != [] {
      var front := rows[..|rows| - 1];
      ChargedEach(front, price);
      assert forall i :: 0 <= i < |front| ==> front[i] == rows[i];
    }
  }

  lemma {:induction false} PartsCharged(rows: seq<Call>, job: JobId, price: real)
    requires AllCharged(rows, price)
    ensures AllCharged(Without(rows, job), price) && AllCharged(Only(rows, job), price)
  {
    if rows != [] {
      PartsCharged(rows[..|rows| - 1], job, price);
    }
  }

  lemma {:induction false} BothCharged(a: seq<Call>, b: seq<Call>, price: real)
    requires AllCharged(a, price) && AllCharged(b, price)
    ensures AllCharged(a + b, price)
  {
    if b == [] {
      assert a + b == a;
    } else {
      BothCharged(a, b[..|b| - 1], price);
      assert (a + b)[..|a + b| - 1] == a + b[..|b| - 1];
    }
  }

  lemma PricedNext(total: real, cost: real, seconds: real, more: real, price: real)
    requires total * 60.0 == seconds * price && cost * 60.0 == more * price
    ensures (total + cost) * 60.0 == (seconds + more) * price
  {
    assert (seconds + more) * price == seconds * price + more * price;
  }

  lemma TotalNext(front: seq<Call>, c: Call, price: real, lo: nat, hi: nat)
    requires Charged(c, price) && Total(front, lo, hi) * 60.0 == SecondsCharged(front, lo, hi) * price
    ensures Total(front + [c], lo, hi) * 60.0 == SecondsCharged(front + [c], lo, hi) * price
  {
    assert (front + [c])[..|front|] == front;
    if lo <= c.startedAt < hi {
      PricedNext(Total(front, lo, hi), c.cost, SecondsCharged(front, lo, hi), ChargedSeconds(c), price);
    }
  }

  lemma {:induction false} TotalIsPriced(rows: seq<Call>, price: real, lo: nat, hi: nat)
    requires AllCharged(rows, price)
    ensures Total(rows, lo, hi) * 60.0 == SecondsCharged(rows, lo, hi) * price
  {
    if rows != [] {
      var front, c := rows[..|rows| - 1], rows[|rows| - 1];
      TotalIsPriced(front, price, lo, hi);
      TotalNext(front, c, price, lo, hi);
      assert front + [c] == rows;
    }
  }

  lemma ActualIsLower(b: Budget, billed: real, seconds: real)
    requires b.price >= 0.0 && 0.0 <= billed <= seconds
    ensures 0.0 <= Actual(b, billed, Estimate(b, seconds)) <= Estimate(b, seconds)
  {
    Scale(billed / 60.0, seconds / 60.0, b.price);
  }

  lemma Scale(x: real, y: real, p: real)
    requires 0.0 <= x <= y && p >= 0.0
    ensures 0.0 <= x * p <= y * p
  {
  }
}
