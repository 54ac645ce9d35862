/** Theorems over whole executions of the job machine: every interleaving, of any length. */
module JobRuns {
  import opened Wrappers
  import opened JobTable
  import opened WorkerPhases
  import opened JobSystem

  // One enabled step.
  ghost predicate Steps(s: Sys, e: Event, s': Sys) { Enabled(s, e) && s' == Next(s, e) }

  // The first n events are enabled steps; ss[i] is the state before the i-th event.
  ghost predicate IsTrace(ss: seq<Sys>, es: seq<Event>, n: nat)
    requires n <= |es| < |ss|
  {
    n == 0 || (IsTrace(ss, es, n - 1) && Steps(ss[n - 1], es[n - 1], ss[n]))
  }

  ghost predicate Execution(ss: seq<Sys>, es: seq<Event>) {
    |ss| == |es| + 1 && ss[0] == Initial(ss[0].lease) && IsTrace(ss, es, |es|)
  }

  lemma {:induction false} TraceStep(ss: seq<Sys>, es: seq<Event>, n: nat, i: nat)
    requires i < n <= |es| < |ss| && IsTrace(ss, es, n)
    ensures Steps(ss[i], es[i], ss[i + 1])
  {
    if i < n - 1 {
      TraceStep(ss, es, n - 1, i);
    }
  }

  lemma StepAt(ss: seq<Sys>, es: seq<Event>, i: nat)
    requires Execution(ss, es) && i < |es|
    ensures Steps(ss[i], es[i], ss[i + 1])
  {
    TraceStep(ss, es, |es|, i);
  }

  /** Every state of every execution is sound: record invariant on each row, stages in step with their runs. */
  lemma {:induction false} ReachableStatesAreSound(ss: seq<Sys>, es: seq<Event>, i: nat)
    requires Execution(ss, es) && i < |ss|
    ensures Inv(ss[i])
  {
    if i == 0 {
      InitialInv(ss[0].lease);
    } else {
      ReachableStatesAreSound(ss, es, i - 1);
      StepAt(ss, es, i - 1);
      StepKeepsInv(ss[i - 1], es[i - 1]);
    }
  }

  lemma {:induction false} TraceOfPrefix(ss: seq<Sys>, es: seq<Event>, ss': seq<Sys>, es': seq<Event>, n: nat)
    requires n <= |es| < |ss| && ss <= ss' && es <= es' && |es'| < |ss'|
    ensures IsTrace(ss, es, n) <==> IsTrace(ss', es', n)
  {
    if 0 < n {
      TraceOfPrefix(ss, es, ss', es', n - 1);
    }
  }

  // An execution with one more enabled step.
  lemma Extend(ss: seq<Sys>, es: seq<Event>, e: Event) returns (ss': seq<Sys>, es': seq<Event>)
    requires Execution(ss, es) && Enabled(ss[|es|], e)
    ensures Execution(ss', es') && es' == es + [e] && |ss'| == |ss| + 1 && ss <= ss'
    ensures forall i :: 0 <= i < |ss| ==> ss'[i] == ss[i]
    ensures ss'[|es'|] == Next(ss[|es|], e)
  {
    ss', es' := ss + [Next(ss[|es|], e)], es + [e];
    TraceOfPrefix(ss, es, ss', es', |es|);
  }

  /** A step of an execution, from a sound state. */
  lemma SoundStepAt(ss: seq<Sys>, es: seq<Event>, i: nat)
    requires Execution(ss, es) && i < |es|
    ensures Inv(ss[i]) && Steps(ss[i], es[i], ss[i + 1])
  {
    ReachableStatesAreSound(ss, es, i);
    StepAt(ss, es, i);
  }

  // ---------- Lease exclusivity ----------

  function LeaseIn(t: Table, j: JobId): Option<Owner> {
    if j in t then t[j].leaseOwner else None
  }

  // A successful write to job j by a statement that names o as the lease owner.
  predicate OwnerWrite(s: Sys, e: Event, j: JobId, o: Owner) {
    StmtOf(s, e).Some? && var q := StmtOf(s, e).value; OwnerGuarded(q) && q.id == j && q.owner == o && Hits(q, s.table)
  }

  /** A lease passes from one owner to another only through being free, and a claim takes only a free lease. */
  lemma LeaseStep(s: Sys, e: Event, j: JobId)
    requires Inv(s) && Enabled(s, e)
    ensures var a, b := LeaseIn(s.table, j), LeaseIn(NextTable(s, e), j);
      a == b || b == None || (a == None && e.ClaimNext? && e.id == j && b == Some(e.owner))
    ensures e.ClaimNext? && e.id == j ==> LeaseIn(s.table, j) == None && LeaseIn(NextTable(s, e), j) == Some(e.owner)
  {
    TableStep(s, e, j);
    if j in s.table {
      RowLease(s, e, j);
    }
  }

  // Step k ends o's lease of j.
  predicate Frees(ss: seq<Sys>, j: JobId, o: Owner, k: nat) {
    k + 1 < |ss| && LeaseIn(ss[k].table, j) == Some(o) && LeaseIn(ss[k + 1].table, j) == None
  }

  // Step l is a claim of the free job j by o.
  predicate Claims(ss: seq<Sys>, es: seq<Event>, j: JobId, o: Owner, l: nat) {
    l < |es| && l < |ss| && es[l].ClaimNext? && es[l].owner == o && es[l].id == j && LeaseIn(ss[l].table, j) == None
  }

  lemma LeaseAt(ss: seq<Sys>, es: seq<Event>, j: JobId, i: nat)
    requires Execution(ss, es) && i < |es|
    ensures var a, b := LeaseIn(ss[i].table, j), LeaseIn(ss[i + 1].table, j);
      a == b || b == None || (a == None && es[i].ClaimNext? && es[i].id == j && b == Some(es[i].owner))
  {
    SoundStepAt(ss, es, i);
    LeaseStep(ss[i], es[i], j);
  }

  // The step at which the lease stops being o's.
  lemma {:induction false} FindRelease(ss: seq<Sys>, es: seq<Event>, j: JobId, o: Owner, a: nat, b: nat) returns (k: nat)
    requires Execution(ss, es) && a <= b < |ss|
    requires LeaseIn(ss[a].table, j) == Some(o) && LeaseIn(ss[b].table, j) != Some(o)
    ensures a <= k < b && Frees(ss, j, o, k)
    decreases b - a
  {
    if LeaseIn(ss[a + 1].table, j) == Some(o) {
      k := FindRelease(ss, es, j, o, a + 1, b);
    } else {
      k := a;
      LeaseAt(ss, es, j, a);
    }
  }

  // The step at which the lease becomes o's.
  lemma {:induction false} FindClaim(ss: seq<Sys>, es: seq<Event>, j: JobId, o: Owner, a: nat, b: nat) returns (l: nat)
    requires Execution(ss, es) && a <= b < |ss|
    requires LeaseIn(ss[a].table, j) != Some(o) && LeaseIn(ss[b].table, j) == Some(o)
    ensures a <= l < b && Claims(ss, es, j, o, l)
    decreases b - a
  {
    if LeaseIn(ss[a + 1].table, j) != Some(o) {
      l := FindClaim(ss, es, j, o, a + 1, b);
    } else {
      l := a;
      LeaseAt(ss, es, j, a);
    }
  }

  /** Two successful owner-guarded writes to one job by different owners are separated by a release of the first
      lease and then a new claim by the second owner. */
  lemma LeaseExclusivity(ss: seq<Sys>, es: seq<Event>, j: JobId, o1: Owner, o2: Owner, a: nat, b: nat)
    requires Execution(ss, es) && a < b < |es| && o1 != o2
    requires OwnerWrite(ss[a], es[a], j, o1) && OwnerWrite(ss[b], es[b], j, o2)
    ensures exists k, l :: a <= k < l < b && Frees(ss, j, o1, k) && Claims(ss, es, j, o2, l)
  {
    var k := FindRelease(ss, es, j, o1, a, b);
    var l := FindClaim(ss, es, j, o2, k + 1, b);
    assert Frees(ss, j, o1, k) && Claims(ss, es, j, o2, l);
  }

  lemma StmtOnLeasedRow(q: Stmt, r: Row, j: JobId)
    requires RowOk(r) && r.leaseOwner.Some? && RowAfter(q, r, j) != r
    ensures q.id == j && Guard(q, r)
    ensures (OwnerGuarded(q) && q.owner == r.leaseOwner.value) || q.CompleteInfo? || q.Fail?
  {
  }

  lemma SweepOnLeasedRow(e: Event, r: Row, open: bool, lease: int)
    requires LeaseTimed(r, lease) && RowOk(r) && SweptRow(e, r, open) != r
    ensures (e.RecoverAsrStep? || e.RecoverRestStep?) && r.heartbeat.Some? && r.heartbeat.value + lease < e.at
  {
  }

  /** A leased row is written only by its owner, by a worker that gives its own job up, by Delete, or by Recover once
      the owner has not sent a heartbeat for longer than the lease. */
  lemma LeasedRowWriters(s: Sys, e: Event, j: JobId)
    requires Inv(s) && Enabled(s, e) && j in s.table && s.table[j].leaseOwner.Some?
    ensures var r := s.table[j];
      (e.DeleteCommit? && e.id == j)
      || (j in NextTable(s, e) && NextTable(s, e)[j] == r)
      || OwnerWrite(s, e, j, r.leaseOwner.value)
      || (e.GiveUp? && s.runs[e.owner].job == j)
      || ((e.RecoverAsrStep? || e.RecoverRestStep?) && r.heartbeat.value + s.lease < e.at)
  {
    TableStep(s, e, j);
    var r := s.table[j];
    assert RowOk(r) && LeaseTimed(r, s.lease);
    if NextRow(s, e, j) != r {
      if StmtOf(s, e).Some? {
        StmtKind(s, e);
        StmtTarget(s, e);
        StmtOnLeasedRow(StmtOf(s, e).value, r, j);
      } else {
        SweepOnLeasedRow(e, r, OpenTask(s.calls, j), s.lease);
      }
    }
  }

  // ---------- Progress within one attempt ----------

  // A run either stays at its stage or goes forward.
  lemma RunStep(s: Sys, e: Event, o: Owner)
    requires Enabled(s, e) && o in s.runs && o in NextRuns(s, e)
    ensures NextRuns(s, e)[o].job == s.runs[o].job
    ensures NextRuns(s, e)[o].phase == s.runs[o].phase || PhaseNext(s.runs[o].phase, NextRuns(s, e)[o].phase)
  {
  }

  lemma StageHeld(s: Sys, e: Event, j: JobId, o: Owner)
    requires Inv(s) && Enabled(s, e) && j in s.table && (e.Stage? || e.Resolve?) && e.owner == o
    requires s.table[j].leaseOwner == Some(o) && NextRow(s, e, j).leaseOwner == Some(o) && s.runs[o].job == j
    ensures s.table[j].progress <= NextRow(s, e, j).progress
    ensures Rank(NextRow(s, e, j).status) <= Rank(s.table[j].status)
  {
    RunStep(s, e, o);
    LeasedStage(s, e, j, o);
    if NextRuns(s, e)[o].phase != s.runs[o].phase {
      ForwardIsMonotone(s.runs[o].phase, NextRuns(s, e)[o].phase);
    }
  }

  lemma ElsewhereHeld(s: Sys, e: Event, j: JobId, o: Owner)
    requires Enabled(s, e) && j in s.table && (e.Stage? || e.Resolve?) && e.owner == o && s.runs[o].job != j
    ensures NextRow(s, e, j) == s.table[j]
  {
    if StmtOf(s, e).Some? {
      StmtTarget(s, e);
    }
  }

  lemma HeldRow(s: Sys, e: Event, j: JobId, o: Owner)
    requires Inv(s) && Enabled(s, e) && j in s.table
    requires s.table[j].leaseOwner == Some(o) && NextRow(s, e, j).leaseOwner == Some(o)
    ensures s.table[j].progress <= NextRow(s, e, j).progress
    ensures Rank(NextRow(s, e, j).status) <= Rank(s.table[j].status)
  {
    if (e.Stage? || e.Resolve?) && e.owner == o {
      if s.runs[o].job == j {
        StageHeld(s, e, j, o);
      } else {
        ElsewhereHeld(s, e, j, o);
      }
    } else {
      assert RowOk(s.table[j]);
      UnmovedRow(s, e, j, o);
    }
  }

  lemma HeldStep(s: Sys, e: Event, j: JobId, o: Owner)
    requires Inv(s) && Enabled(s, e) && j in s.table && j in NextTable(s, e)
    requires s.table[j].leaseOwner == Some(o) && NextTable(s, e)[j].leaseOwner == Some(o)
    ensures s.table[j].progress <= NextTable(s, e)[j].progress
    ensures Rank(NextTable(s, e)[j].status) <= Rank(s.table[j].status)
  {
    TableStep(s, e, j);
    HeldRow(s, e, j, o);
  }

  lemma RowAt(ss: seq<Sys>, es: seq<Event>, i: nat, j: JobId)
    requires Execution(ss, es) && i < |ss| && j in ss[i].table
    ensures RowOk(ss[i].table[j])
  {
    ReachableStatesAreSound(ss, es, i);
  }

  lemma HeldAt(ss: seq<Sys>, es: seq<Event>, j: JobId, o: Owner, i: nat)
    requires Execution(ss, es) && i < |es| && j in ss[i].table && j in ss[i + 1].table
    requires ss[i].table[j].leaseOwner == Some(o) && ss[i + 1].table[j].leaseOwner == Some(o)
    ensures ss[i].table[j].progress <= ss[i + 1].table[j].progress
    ensures Rank(ss[i + 1].table[j].status) <= Rank(ss[i].table[j].status)
  {
    SoundStepAt(ss, es, i);
    HeldStep(ss[i], es[i], j, o);
  }

  /** As long as one owner keeps the lease the progress never falls, the stage never goes back, and the job
      stays below 100 percent. */
  lemma {:induction false} AttemptMovesForward(ss: seq<Sys>, es: seq<Event>, j: JobId, o: Owner, a: nat, b: nat)
    requires Execution(ss, es) && a <= b < |ss|
    requires forall i :: a <= i <= b ==> j in ss[i].table && ss[i].table[j].leaseOwner == Some(o)
    ensures ss[a].table[j].progress <= ss[b].table[j].progress < 100
    ensures Rank(ss[b].table[j].status) <= Rank(ss[a].table[j].status)
    decreases b
  {
    RowAt(ss, es, b, j);
    if a < b {
      AttemptMovesForward(ss, es, j, o, a, b - 1);
      HeldAt(ss, es, j, o, b - 1);
    }
  }

  predicate Retried(s: Sys, e: Event, j: JobId) {
    e.UserRetry? && e.id == j && Hits(Stmt.Retry(j, e.user, e.at), s.table)
  }

  // ---------- What never changes ----------

  predicate SameJob(r: Row, r': Row) {
    r'.user == r.user && r'.action == r.action && r'.createdAt == r.createdAt && r'.maxAttempts == r.maxAttempts
    && (r.startedAt.Some? ==> r'.startedAt == r.startedAt)
  }

  lemma SameJobAfter(q: Stmt, r: Row, j: JobId)
    ensures SameJob(r, RowAfter(q, r, j))
  {
    if q.id == j && Guard(q, r) {
      StmtFrame(q, r);
    }
  }

  lemma SameJobStep(s: Sys, e: Event, j: JobId)
    requires j in s.table
    ensures SameJob(s.table[j], NextRow(s, e, j))
  {
    if StmtOf(s, e).Some? {
      SameJobAfter(StmtOf(s, e).value, s.table[j], j);
    }
  }

  lemma SameJobAt(ss: seq<Sys>, es: seq<Event>, j: JobId, i: nat)
    requires Execution(ss, es) && i < |es| && j in ss[i].table && j in ss[i + 1].table
    ensures SameJob(ss[i].table[j], ss[i + 1].table[j])
  {
    SoundStepAt(ss, es, i);
    SameJobStep(ss[i], es[i], j);
    TableStep(ss[i], es[i], j);
  }

  /** As long as a job is stored, its user, action and creation time stay, and its first start once it has one. */
  lemma {:induction false} IdentityIsFixed(ss: seq<Sys>, es: seq<Event>, j: JobId, a: nat, b: nat)
    requires Execution(ss, es) && a <= b <= |es|
    requires forall i :: a <= i <= b ==> j in ss[i].table
    ensures SameJob(ss[a].table[j], ss[b].table[j])
    decreases b
  {
    if a < b {
      IdentityIsFixed(ss, es, j, a, b - 1);
      SameJobAt(ss, es, j, b - 1);
    }
  }
}
