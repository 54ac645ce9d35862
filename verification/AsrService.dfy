/** The speech-recognition service of one process over its ledger, run in place: budget check, call, fallback. */
module AsrServices {
  import opened Wrappers
  import opened AsrLedger

  datatype Error = Auth | RateLimited | BudgetExceeded | ProviderFailed | InputRejected | DeadlineExceeded | AnyOther

  // What a provider will do with the audio.
  datatype Outcome = Answers(billed: real, reported: Option<string>) | Fails(error: Error)

  predicate FallbackAllowed(e: Error) { e == ProviderFailed || e == RateLimited || e == DeadlineExceeded }

  predicate MayFallBack(o: Outcome) { o.Fails? && FallbackAllowed(o.error) }

  /** A wrong key, a full budget and rejected audio are final; so is every error that is not one of the three. */
  lemma FallbackExactly(o: Outcome)
    ensures MayFallBack(o) <==> o.Fails? && o.error !in {Auth, BudgetExceeded, InputRejected, AnyOther}
  {
  }

  // Both caps have room for the estimate, by month at t1 and by day at t2.
  predicate Room(rows: seq<Call>, b: Budget, estimate: real, t1: nat, t2: nat) {
    MonthAllows(rows, b, estimate, t1) && DayAllows(rows, b, estimate, t2)
  }

  // Why a call is turned down before it is made: a query fails that a cap needs, or a cap has no room.
  function Refusal(rows: seq<Call>, b: Budget, estimate: real, t1: nat, t2: nat, l: Ledger): Option<Error> {
    if !l.queries && (b.monthly > 0.0 || b.daily > 0.0) then Some(AnyOther)
    else if Room(rows, b, estimate, t1, t2) then None else Some(BudgetExceeded)
  }

  // A provider that answers bills at most the audio it was sent.
  predicate HonestOutcome(o: Option<Outcome>, seconds: real) {
    o.Some? && o.value.Answers? ==> 0.0 <= o.value.billed <= seconds
  }

  predicate FreshId(rows: seq<Call>, id: CallId) { forall c :: c in rows ==> c.id != id }

  // Which ledger statements of a call go through: the cost queries, the insert, and the update that settles the call.
  datatype Ledger = Ledger(queries: bool, inserts: bool, settles: bool)

  // An outcome and what it costs.
  datatype Priced = Priced(outcome: Outcome, cost: real)

  function PriceOf(b: Budget, seconds: real, o: Outcome): Priced {
    Priced(o, if o.Answers? then Actual(b, o.billed, Estimate(b, seconds)) else Estimate(b, seconds))
  }

  // No outcome costs more than the estimate.
  predicate Affordable(p: Priced, estimate: real) { 0.0 <= p.cost <= estimate }

  lemma HonestIsAffordable(b: Budget, seconds: real, o: Outcome)
    requires b.price >= 0.0 && seconds >= 0.0 && HonestOutcome(Some(o), seconds)
    ensures Affordable(PriceOf(b, seconds, o), Estimate(b, seconds))
  {
    if o.Answers? {
      ActualIsLower(b, o.billed, seconds);
    } else {
      Scale(0.0, seconds / 60.0, b.price);
    }
  }

  // The status in which a call ends; one that is not settled stays as far as it got.
  function StatusOf(o: Outcome, l: Ledger, task: Option<string>): Status {
    if l.settles then (if o.Answers? then Completed else Failed) else if task.Some? then Running else Submitted
  }

  // The row that a call leaves. A call that is not settled stays open and keeps its estimate.
  predicate Leaves(c: Call, id: CallId, job: JobId, seconds: real, estimate: real, p: Priced, l: Ledger,
      task: Option<string>)
  {
    c.id == id && c.job == job && c.audio == seconds && c.status == StatusOf(p.outcome, l, task)
    && c.task == (if p.outcome.Answers? && l.settles then p.outcome.reported else task)
    && c.billed == (if p.outcome.Answers? && l.settles then Some(p.outcome.billed) else None)
    && c.cost == if p.outcome.Answers? && l.settles then p.cost else estimate
  }

  // What the row shows of the call, by its columns: an answer that is settled is charged by the seconds billed, or by
  // those sent if none are; any other call by the seconds sent.
  predicate Charges(c: Call, o: Outcome, l: Ledger, seconds: real, price: real, task: Option<string>) {
    if o.Answers? && l.settles then
      c.status == Completed && c.billed == Some(o.billed) && c.task == o.reported
      && c.cost * 60.0 == (if o.billed > 0.0 then o.billed else seconds) * price
    else
      c.status == (if l.settles then Failed else if task.Some? then Running else Submitted)
      && c.billed == None && c.task == task && c.cost * 60.0 == seconds * price
  }

  lemma LeftIsCharged(b: Budget, c: Call, id: CallId, job: JobId, seconds: real, o: Outcome, l: Ledger,
      task: Option<string>)
    requires HonestOutcome(Some(o), seconds)
    requires Leaves(c, id, job, seconds, Estimate(b, seconds), PriceOf(b, seconds, o), l, task)
    ensures Charges(c, o, l, seconds, b.price, task)
  {
    CostOfSeconds(b, if o.Answers? then o.billed else 0.0, seconds);
  }

  // The answer of a call whose row was inserted: an answer that cannot be settled is lost.
  function ErrorOf(o: Outcome, l: Ledger): Option<Error> {
    if o.Fails? then Some(o.error) else if l.settles then None else Some(AnyOther)
  }

  // Why a call leaves no row, and what it answers with: the refusal, a failed insert, or its own end.
  function Unmade(refusal: Option<Error>, l: Ledger): Option<Error> {
    if refusal.Some? then refusal else if l.inserts then None else Some(AnyOther)
  }

  class AsrService {
    var rows: seq<Call>
    var clock: nat
    const budget: Budget

    constructor (budget: Budget)
      ensures rows == [] && clock == 0 && this.budget == budget
    {
      rows, clock, this.budget := [], 0, budget;
    }

    // The caps hold and the ledger has no future calls.
    ghost predicate Safe()
      reads this
    {
      Within(rows, budget) && Until(rows, clock) && budget.price >= 0.0
    }

    // Time passes.
    method Now() returns (t: nat)
      modifies this`clock
      ensures old(clock) <= t == clock
    {
      var passed: int := *;
      clock := if passed > 0 then clock + passed else clock;
      t := clock;
    }

    // The SUM query.
    method CostBetween(lo: nat, hi: nat) returns (total: real)
      ensures total == Total(rows, lo, hi)
    {
      total := 0.0;
      for i := 0 to |rows|
        invariant total == Total(rows[..i], lo, hi)
      {
        assert rows[..i + 1][..i] == rows[..i];
        if lo <= rows[i].startedAt < hi {
          total := total + rows[i].cost;
        }
      }
      assert rows[..|rows|] == rows;
    }

    method DailyCost(t: nat) returns (total: real)
      ensures total == DayTotal(rows, DayOf(t))
    {
      var start := t / DAY * DAY;
      total := CostBetween(start, start + DAY);
    }

    method MonthlyCost(t: nat) returns (total: real)
      ensures total == MonthTotal(rows, MonthOf(t))
    {
      var m := MonthOf(t);
      total := CostBetween(MonthStart(m) * DAY, MonthStart(m + 1) * DAY);
    }

    /** Passes exactly when the queries go through and both caps have room for the estimate at the moments they are
        looked at. A cap that is not set asks no query. */
    method CheckBudget(estimate: real, l: Ledger) returns (err: Option<Error>, ghost t1: nat, ghost t2: nat)
      modifies this`clock
      ensures old(clock) <= t1 <= t2 <= clock
      ensures err == Refusal(rows, budget, estimate, t1, t2, l)
      ensures err.None? <==>
        && (budget.monthly > 0.0 ==> l.queries && MonthTotal(rows, MonthOf(t1)) + estimate <= budget.monthly)
        && (budget.daily > 0.0 ==> l.queries && DayTotal(rows, DayOf(t2)) + estimate <= budget.daily)
      ensures err == Some(BudgetExceeded) ==> l.queries
    {
      var t := Now();
      t1, t2 := t, t;
      if budget.monthly > 0.0 {
        if !l.queries {
          return Some(AnyOther), t1, t2;
        }
        var total := MonthlyCost(t);
        if total + estimate > budget.monthly {
          return Some(BudgetExceeded), t1, t2;
        }
      }
      t := Now();
      t2 := t;
      if budget.daily > 0.0 {
        if !l.queries {
          return Some(AnyOther), t1, t2;
        }
        var total := DailyCost(t);
        if total + estimate > budget.daily {
          return Some(BudgetExceeded), t1, t2;
        }
      }
      err := None;
    }

    method Create(c: Call)
      modifies this`rows
      ensures rows == old(rows) + [c]
    {
      rows := rows + [c];
    }

    method Update(id: CallId, ch: Change)
      modifies this`rows
      ensures rows == Updated(old(rows), id, ch)
    {
      var before := rows;
      rows := seq(|before|, i requires 0 <= i < |before| =>
        if before[i].id == id then Changed(before[i], ch) else before[i]);
    }

    /** One call within the budget: if the insert goes through, one ledger row is added, it shows how the call ended,
        and the caps still hold. */
    method CallProvider(job: JobId, seconds: real, estimate: real, p: Priced, id: CallId, task: Option<string>, l: Ledger,
        ghost t1: nat, ghost t2: nat) returns (err: Option<Error>)
      requires Safe() && Until(rows, t1) && t1 <= t2 <= clock && FreshId(rows, id) && Affordable(p, estimate)
      requires Room(rows, budget, estimate, t1, t2)
      modifies this
      ensures Safe() && old(clock) <= clock
      ensures !l.inserts ==> rows == old(rows) && err == Some(AnyOther)
      ensures l.inserts ==> |rows| == |old(rows)| + 1 && rows[..|old(rows)|] == old(rows) && err == ErrorOf(p.outcome, l)
      ensures l.inserts ==> Leaves(rows[|old(rows)|], id, job, seconds, estimate, p, l, task)
    {
      var now := Now();
      if !l.inserts {
        return Some(AnyOther);
      }
      var c := Call(id, job, seconds, None, estimate, now, Submitted, None);
      InsertIsSafe(rows, budget, c, t1, t2);
      Create(c);
      if task.Some? {
        Settle(id, TaskKnown(task.value));
      }
      if p.outcome.Fails? {
        // A failure that cannot be recorded is reported all the same.
        if l.settles {
          Settle(id, GivenUp);
        }
        return Some(p.outcome.error);
      }
      if !l.settles {
        return Some(AnyOther);
      }
      Settle(id, Settled(p.outcome.reported, p.outcome.billed, p.cost));
      err := None;
    }

    // An update of the call added last, which raises no cost.
    method Settle(id: CallId, ch: Change)
      requires Safe() && |rows| > 0 && rows[|rows| - 1].id == id && FreshId(rows[..|rows| - 1], id)
      requires ch.Settled? ==> 0.0 <= ch.cost <= rows[|rows| - 1].cost
      modifies this`rows
      ensures Safe() && rows == old(rows)[..|old(rows)| - 1] + [Changed(old(rows)[|old(rows)| - 1], ch)]
    {
      ghost var before := rows;
      assert forall i :: 0 <= i < |rows| - 1 ==> rows[i] in rows[..|rows| - 1];
      UpdateIsLower(before, id, ch, clock);
      LowerIsSafe(before, Updated(before, id, ch), budget);
      Update(id, ch);
    }

    // The check and, if it passes, the call: one row more at most.
    method CallWithinBudget(job: JobId, seconds: real, estimate: real, p: Priced, id: CallId, task: Option<string>,
        l: Ledger) returns (err: Option<Error>, ghost added: seq<Call>, ghost t1: nat, ghost t2: nat)
      requires Safe() && FreshId(rows, id) && Affordable(p, estimate)
      modifies this
      ensures Safe() && rows == old(rows) + added && old(clock) <= t1 <= t2 <= clock
      ensures var unmade := Unmade(Refusal(old(rows), budget, estimate, t1, t2, l), l);
        |added| == (if unmade.Some? then 0 else 1) && err == if unmade.Some? then unmade else ErrorOf(p.outcome, l)
      ensures added != [] ==> Leaves(added[0], id, job, seconds, estimate, p, l, task)
    {
      err, t1, t2 := CheckBudget(estimate, l);
      if err.Some? {
        return err, [], t1, t2;
      }
      ghost var before := rows;
      err := CallProvider(job, seconds, estimate, p, id, task, l, t1, t2);
      added := if l.inserts then [rows[|rows| - 1]] else [];
      assert rows == before + added;
    }

    // The fallback, after the primary has left its row.
    method TryFallback(job: JobId, seconds: real, estimate: real, p: Priced, id: CallId, task: Option<string>, l: Ledger,
        ghost before: seq<Call>, ghost first: seq<Call>)
        returns (err: Option<Error>, ghost added: seq<Call>, ghost t1: nat, ghost t2: nat)
      requires Safe() && Affordable(p, estimate)
      requires |first| == 1 && rows == before + first && FreshId(before, id) && first[0].id != id
      modifies this
      ensures Safe() && rows == before + added && old(clock) <= t1 <= t2 <= clock
      ensures |added| >= 1 && added[0] == first[0]
      ensures var unmade := Unmade(Refusal(before + first, budget, estimate, t1, t2, l), l);
        |added| == (if unmade.Some? then 1 else 2) && err == if unmade.Some? then unmade else ErrorOf(p.outcome, l)
      ensures |added| == 2 ==> Leaves(added[1], id, job, seconds, estimate, p, l, task)
    {
      ghost var more;
      err, more, t1, t2 := CallWithinBudget(job, seconds, estimate, p, id, task, l);
      added := first + more;
    }

    // The primary, and the fallback where it may follow.
    method CallProviders(job: JobId, seconds: real, estimate: real, primary: Priced, fallback: Option<Priced>,
        id1: CallId, id2: CallId, task: Option<string>, l1: Ledger, l2: Ledger)
        returns (err: Option<Error>, ghost added: seq<Call>, ghost t1: nat, ghost t2: nat)
      requires Safe() && Affordable(primary, estimate) && (fallback.Some? ==> Affordable(fallback.value, estimate))
      requires id1 != id2 && FreshId(rows, id1) && FreshId(rows, id2)
      modifies this
      ensures Safe() && rows == old(rows) + added && |added| <= 2 && old(clock) <= t1 <= t2 <= clock
      ensures added == [] ==> err == Unmade(Refusal(old(rows), budget, estimate, t1, t2, l1), l1) && err.Some?
      ensures added != [] ==> Leaves(added[0], id1, job, seconds, estimate, primary, l1, task)
      ensures |added| == 1 && !(fallback.Some? && MayFallBack(primary.outcome)) ==> err == ErrorOf(primary.outcome, l1)
      ensures |added| == 1 && fallback.Some? && MayFallBack(primary.outcome) ==>
        err == Unmade(Refusal(rows, budget, estimate, t1, t2, l2), l2) && err.Some?
      ensures |added| == 2 ==> fallback.Some? && MayFallBack(primary.outcome)
      ensures |added| == 2 ==> err == ErrorOf(fallback.value.outcome, l2)
      ensures |added| == 2 ==> Leaves(added[1], id2, job, seconds, estimate, fallback.value, l2, task)
    {
      err, added, t1, t2 := CallWithinBudget(job, seconds, estimate, primary, id1, task, l1);
      if err.Some? && FallbackAllowed(err.value) && fallback.Some? {
        err, added, t1, t2 := TryFallback(job, seconds, estimate, fallback.value, id2, task, l2, old(rows), added);
      }
    }

    /** One segment under the mutex. The caps hold afterwards; the ledger has grown by one row for each provider that
        was called, first the primary and then, after an error that allows it, the fallback; a call is turned down for
        the budget exactly when a cap has no room at its own check, made at t1 and t2. Each row is charged for the
        seconds billed if its call was answered and settled, and for those sent otherwise. Ledger statements may fail:
        l1 and l2 say which go through for the two calls. */
    method TranscribeSegment(job: JobId, seconds: real, primary: Option<Outcome>, fallback: Option<Outcome>,
        id1: CallId, id2: CallId, task: Option<string>, l1: Ledger, l2: Ledger)
        returns (err: Option<Error>, ghost added: seq<Call>, ghost t1: nat, ghost t2: nat)
      requires Safe() && seconds >= 0.0 && HonestOutcome(primary, seconds) && HonestOutcome(fallback, seconds)
      requires id1 != id2 && FreshId(rows, id1) && FreshId(rows, id2)
      modifies this
      ensures Safe() && rows == old(rows) + added && |added| <= 2 && old(clock) <= t1 <= t2 <= clock
      ensures primary.None? ==> added == []
      ensures primary.None? ==>
        var refusal := Refusal(old(rows), budget, Estimate(budget, seconds), t1, t2, l1);
        err == if refusal.Some? then refusal else Some(Auth)
      ensures primary.Some? && added == [] ==>
        err == Unmade(Refusal(old(rows), budget, Estimate(budget, seconds), t1, t2, l1), l1) && err.Some?
      ensures added != [] ==>
        primary.Some?
        && Leaves(added[0], id1, job, seconds, Estimate(budget, seconds), PriceOf(budget, seconds, primary.value), l1, task)
      ensures |added| == 1 && !(fallback.Some? && MayFallBack(primary.value)) ==> err == ErrorOf(primary.value, l1)
      ensures |added| == 2 ==>
        primary.value.Fails? && primary.value.error in {ProviderFailed, RateLimited, DeadlineExceeded}
      ensures err.None? <==> added != [] && added[|added| - 1].status == Completed
      ensures |added| == 1 && fallback.Some? && MayFallBack(primary.value) ==>
        err == Unmade(Refusal(rows, budget, Estimate(budget, seconds), t1, t2, l2), l2) && err.Some?
      ensures |added| == 2 ==> fallback.Some? && MayFallBack(primary.value) && err == ErrorOf(fallback.value, l2)
      ensures |added| == 2 ==>
        Leaves(added[1], id2, job, seconds, Estimate(budget, seconds), PriceOf(budget, seconds, fallback.value), l2, task)
      ensures added != [] ==> Charges(added[0], primary.value, l1, seconds, budget.price, task)
      ensures |added| == 2 ==> Charges(added[1], fallback.value, l2, seconds, budget.price, task)
    {
      var estimate := Estimate(budget, seconds);
      if primary.None? {
        err, t1, t2 := CheckBudget(estimate, l1);
        return if err.Some? then err else Some(Auth), [], t1, t2;
      }
      HonestIsAffordable(budget, seconds, primary.value);
      if fallback.Some? {
        HonestIsAffordable(budget, seconds, fallback.value);
      }
      err, added, t1, t2 := CallProviders(job, seconds, estimate, PriceOf(budget, seconds, primary.value),
        if fallback.Some? then Some(PriceOf(budget, seconds, fallback.value)) else None, id1, id2, task, l1, l2);
      if added != [] {
        LeftIsCharged(budget, added[0], id1, job, seconds, primary.value, l1, task);
      }
      if |added| == 2 {
        LeftIsCharged(budget, added[1], id2, job, seconds, fallback.value, l2, task);
      }
    }

    // The ledger rows that go with a deleted job.
    method DeleteJob(job: JobId)
      requires Safe()
      modifies this`rows
      ensures rows == Without(old(rows), job) && Safe()
    {
      ghost var before := rows;
      DeleteIsLower(before, job, clock);
      LowerIsSafe(before, Without(before, job), budget);
      rows := Without(rows, job);
    }
  }
}
