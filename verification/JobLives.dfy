/** How often a job can change its status. */
module JobLives {
  import opened Wrappers
  import opened JobTable
  import opened WorkerPhases
  import opened JobSystem
  import opened JobRuns

  // ---------- Attempts and status changes ----------

  // Attempts left first, then the rank of the status.
  function RowLife(r: Row): int { (r.maxAttempts - r.attempts) * 10 + Rank(r.status) }

  function Life(s: Sys, j: JobId): int { if j in s.table then RowLife(s.table[j]) else 0 }

  predicate StatusChanged(s: Sys, e: Event, j: JobId) {
    j in s.table && j in NextTable(s, e) && s.table[j].status != NextTable(s, e)[j].status
  }

  // No statement but a stage write or a user retry makes a job live longer, and none changes its status for free.
  lemma StmtLife(q: Stmt, r: Row, j: JobId)
    requires RowOk(r) && !q.SetStage? && !q.Retry?
    ensures RowLife(RowAfter(q, r, j)) <= RowLife(r)
    ensures RowAfter(q, r, j).status != r.status ==> RowLife(RowAfter(q, r, j)) < RowLife(r)
  {
  }

  lemma RetryLife(q: Stmt, r: Row)
    requires RowOk(r) && Guard(q, r) && q.Retry?
    ensures RowLife(Effect(q, r)) <= 34
  {
  }

  lemma SweepLife(e: Event, r: Row, open: bool)
    requires RowOk(r)
    ensures RowLife(SweptRow(e, r, open)) <= RowLife(r)
    ensures SweptRow(e, r, open).status != r.status ==> RowLife(SweptRow(e, r, open)) < RowLife(r)
  {
  }

  lemma StageLife(s: Sys, e: Event, j: JobId)
    requires Inv(s) && Enabled(s, e) && e.Stage? && j in s.table
    ensures RowLife(NextRow(s, e, j)) <= RowLife(s.table[j])
    ensures NextRow(s, e, j).status != s.table[j].status ==> RowLife(NextRow(s, e, j)) < RowLife(s.table[j])
  {
    if s.runs[e.owner].job == j && s.table[j].leaseOwner == Some(e.owner) {
      ForwardIsMonotone(s.runs[e.owner].phase, e.next);
    }
  }

  lemma RetriedLife(s: Sys, e: Event, j: JobId)
    requires j in s.table && RowOk(s.table[j]) && Retried(s, e, j)
    ensures RowLife(NextRow(s, e, j)) <= 34
  {
    RetryLife(Stmt.Retry(j, e.user, e.at), s.table[j]);
  }

  lemma RowLifeStep(s: Sys, e: Event, j: JobId)
    requires !e.Stage? && j in s.table && RowOk(s.table[j]) && !Retried(s, e, j)
    ensures RowLife(NextRow(s, e, j)) <= RowLife(s.table[j])
    ensures NextRow(s, e, j).status != s.table[j].status ==> RowLife(NextRow(s, e, j)) < RowLife(s.table[j])
  {
    if StmtOf(s, e).Some? {
      var q := StmtOf(s, e).value;
      StmtKind(s, e);
      StmtTarget(s, e);
      if !q.Retry? {
        StmtLife(q, s.table[j], j);
      }
    } else {
      SweepLife(e, s.table[j], OpenTask(s.calls, j));
    }
  }

  lemma LifeRange(s: Sys, j: JobId)
    requires Inv(s)
    ensures 0 <= Life(s, j) <= 39
  {
    if j in s.table {
      assert RowOk(s.table[j]);
    }
  }

  /** Apart from a user retry, every status change brings the job closer to its end. */
  lemma LifeStep(s: Sys, e: Event, j: JobId)
    requires Inv(s) && Enabled(s, e) && j in s.used
    ensures (if j in NextTable(s, e) then RowLife(NextTable(s, e)[j]) else 0)
            + (if StatusChanged(s, e, j) then 1 else 0)
            <= Life(s, j) + if Retried(s, e, j) then 35 else 0
  {
    LifeRange(s, j);
    TableStep(s, e, j);
    if j in s.table {
      if e.Stage? {
        StageLife(s, e, j);
      } else if Retried(s, e, j) {
        RetriedLife(s, e, j);
      } else {
        RowLifeStep(s, e, j);
      }
    }
  }

  function Changes(ss: seq<Sys>, es: seq<Event>, j: JobId, a: nat, b: nat): nat
    requires a <= b <= |es| < |ss|
    decreases b
  {
    if a == b then 0 else Changes(ss, es, j, a, b - 1) + if StatusChanged(ss[b - 1], es[b - 1], j) then 1 else 0
  }

  function Retries(ss: seq<Sys>, es: seq<Event>, j: JobId, a: nat, b: nat): nat
    requires a <= b <= |es| < |ss|
    decreases b
  {
    if a == b then 0 else Retries(ss, es, j, a, b - 1) + if Retried(ss[b - 1], es[b - 1], j) then 1 else 0
  }

  lemma LifeAt(ss: seq<Sys>, es: seq<Event>, j: JobId, i: nat)
    requires Execution(ss, es) && i < |es| && j in ss[i].used
    ensures j in ss[i + 1].used
    ensures Life(ss[i + 1], j) + (if StatusChanged(ss[i], es[i], j) then 1 else 0)
            <= Life(ss[i], j) + if Retried(ss[i], es[i], j) then 35 else 0
  {
    SoundStepAt(ss, es, i);
    LifeStep(ss[i], es[i], j);
  }

  lemma {:induction false} ChangesUseLifeUp(ss: seq<Sys>, es: seq<Event>, j: JobId, a: nat, b: nat)
    requires Execution(ss, es) && a <= b <= |es| && j in ss[a].used
    ensures Changes(ss, es, j, a, b) + Life(ss[b], j) <= Life(ss[a], j) + 35 * Retries(ss, es, j, a, b)
    ensures j in ss[b].used
    decreases b
  {
    if a < b {
      ChangesUseLifeUp(ss, es, j, a, b - 1);
      LifeAt(ss, es, j, b - 1);
    }
  }

  /** A job changes status at most 39 times in its whole life, and at most 35 times more for each user retry. */
  lemma StatusChangesAreBounded(ss: seq<Sys>, es: seq<Event>, j: JobId, a: nat, b: nat)
    requires Execution(ss, es) && a <= b <= |es| && j in ss[a].used
    ensures Changes(ss, es, j, a, b) <= 39 + 35 * Retries(ss, es, j, a, b)
  {
    ChangesUseLifeUp(ss, es, j, a, b);
    ReachableStatesAreSound(ss, es, a);
    ReachableStatesAreSound(ss, es, b);
    LifeRange(ss[a], j);
    LifeRange(ss[b], j);
  }
}
