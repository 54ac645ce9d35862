/** What can still happen to jobs that have ended, failed or lost their request. */
module JobEndings {
  import opened Wrappers
  import opened JobTable
  import opened WorkerPhases
  import opened JobSystem
  import opened JobRuns
  import opened JobLives

  // ---------- One step on an ended job ----------

  // A worker run is on the job that may still fail it, whether or not it holds the lease.
  predicate Worked(s: Sys, j: JobId) { exists o :: o in s.runs && s.runs[o].job == j && MayFail(s.runs[o]) }

  predicate Deletes(s: Sys, e: Event, j: JobId) {
    e.DeleteCommit? && e.id == j && j in s.table && s.table[j].user == e.user
  }

  predicate GivesUp(s: Sys, e: Event, j: JobId) { e.GiveUp? && e.owner in s.runs && s.runs[e.owner].job == j }

  lemma StmtOnEndedRow(q: Stmt, r: Row, j: JobId)
    requires RowOk(r) && Terminal(r.status)
    ensures q.Fail? && q.id == j ==> RowAfter(q, r, j).status == Failed
    ensures q.Retry? && q.id == j && Guard(q, r) ==> RowAfter(q, r, j).status == Queued
    ensures !(q.Fail? && q.id == j) && !(q.Retry? && q.id == j && Guard(q, r)) ==> RowAfter(q, r, j) == r
  {
  }

  lemma SweepOnEndedRow(e: Event, r: Row, open: bool)
    requires RowOk(r) && Terminal(r.status)
    ensures SweptRow(e, r, open) == r
  {
  }

  lemma EndedRow(s: Sys, e: Event, j: JobId)
    requires j in s.table && RowOk(s.table[j]) && Terminal(s.table[j].status) && !(e.InfoFailed? && e.id == j)
    ensures GivesUp(s, e, j) ==> NextRow(s, e, j).status == Failed
    ensures Retried(s, e, j) ==> NextRow(s, e, j).status == Queued
    ensures !GivesUp(s, e, j) && !Retried(s, e, j) ==> NextRow(s, e, j) == s.table[j]
  {
    if StmtOf(s, e).Some? {
      StmtKind(s, e);
      StmtTarget(s, e);
      StmtOnEndedRow(StmtOf(s, e).value, s.table[j], j);
    } else {
      SweepOnEndedRow(e, s.table[j], OpenTask(s.calls, j));
    }
  }

  /** Exactly what one step can do to an ended job. Its owner's Delete removes it; a user retry reopens it; a run on it
      that gives it up makes it failed, whatever it was; every other step leaves the row as it is. */
  lemma EndedStep(s: Sys, e: Event, j: JobId)
    requires Inv(s) && Enabled(s, e) && j in s.table && Terminal(s.table[j].status)
    ensures j in NextTable(s, e) <==> !Deletes(s, e, j)
    ensures GivesUp(s, e, j) ==> NextTable(s, e)[j].status == Failed
    ensures Retried(s, e, j) ==> NextTable(s, e)[j].status == Queued
    ensures !Deletes(s, e, j) && !GivesUp(s, e, j) && !Retried(s, e, j) ==> NextTable(s, e)[j] == s.table[j]
  {
    assert RowOk(s.table[j]);
    TableStep(s, e, j);
    EndedRow(s, e, j);
  }

  /** An ended job keeps its status in a step exactly when the step is not its deletion, not a user retry of it, and
      not a run on it that gives it up, which only a failed job survives. A completed job cannot be retried. */
  lemma EndedStatusStaysExactly(s: Sys, e: Event, j: JobId)
    requires Inv(s) && Enabled(s, e) && j in s.table && Terminal(s.table[j].status)
    ensures var st := s.table[j].status;
      j in NextTable(s, e) && NextTable(s, e)[j].status == st
      <==> !Deletes(s, e, j) && !Retried(s, e, j) && !(GivesUp(s, e, j) && st != Failed)
    ensures s.table[j].status == Completed ==> !Retried(s, e, j)
  {
    EndedStep(s, e, j);
  }

  // ---------- Ended jobs over executions ----------

  // The job has ended or is gone, and no run can fail it.
  predicate AtRest(s: Sys, j: JobId) {
    j in s.used && !Worked(s, j) && (j in s.table ==> Terminal(s.table[j].status))
  }

  // No write of a run finds the row of a job that has ended or is gone, so the run is over after it.
  lemma RunEnds(s: Sys, e: Event, o: Owner)
    requires o in s.runs && RunWrites(e) && e.owner == o && (e.Stage? ==> PhaseOk(e.next))
    requires var j := s.runs[o].job; j in s.table ==> RowOk(s.table[j]) && Terminal(s.table[j].status)
    ensures NextRun(s, e, o).over && NextRun(s, e, o).job == s.runs[o].job
  {
  }

  lemma RunStaysOff(s: Sys, e: Event, j: JobId, o: Owner)
    requires Inv(s) && Enabled(s, e) && AtRest(s, j) && o in NextRuns(s, e)
    ensures NextRuns(s, e)[o].job != j || !MayFail(NextRuns(s, e)[o])
  {
    NextRunsJob(s, e, o);
    assert j in s.table ==> RowOk(s.table[j]);
    if NextRuns(s, e)[o].job == j {
      if o !in s.runs {
        assert false;
      } else if RunWrites(e) && e.owner == o {
        RunEnds(s, e, o);
      }
    }
  }

  lemma NoRunStarts(s: Sys, e: Event, j: JobId)
    requires Inv(s) && Enabled(s, e) && AtRest(s, j)
    ensures !Worked(Next(s, e), j)
  {
    forall o | o in NextRuns(s, e) ensures NextRuns(s, e)[o].job != j || !MayFail(NextRuns(s, e)[o]) {
      RunStaysOff(s, e, j, o);
    }
  }

  lemma RestStep(s: Sys, e: Event, j: JobId)
    requires Inv(s) && Enabled(s, e) && AtRest(s, j) && !Retried(s, e, j)
    ensures AtRest(Next(s, e), j)
    ensures j in NextTable(s, e) ==> j in s.table && NextTable(s, e)[j] == s.table[j]
  {
    NoRunStarts(s, e, j);
    TableStep(s, e, j);
    if j in s.table {
      EndedStep(s, e, j);
    }
  }

  // The row of j, if it is still stored, is the one it was.
  predicate SameOrGone(s: Sys, s': Sys, j: JobId) {
    j in s'.table ==> j in s.table && s'.table[j] == s.table[j]
  }

  lemma RestAt(ss: seq<Sys>, es: seq<Event>, j: JobId, a: nat, b: nat)
    requires Execution(ss, es) && a <= b < |es| && Retries(ss, es, j, a, b + 1) == 0 && AtRest(ss[b], j)
    ensures AtRest(ss[b + 1], j) && SameOrGone(ss[b], ss[b + 1], j)
  {
    SoundStepAt(ss, es, b);
    RestStep(ss[b], es[b], j);
  }

  /** Once no run can fail an ended job, it never changes again before a user retries it: it stays as it is or is
      deleted, and no run can ever fail it. */
  lemma {:induction false} RestLasts(ss: seq<Sys>, es: seq<Event>, j: JobId, a: nat, b: nat)
    requires Execution(ss, es) && a <= b < |ss| && AtRest(ss[a], j) && Retries(ss, es, j, a, b) == 0
    ensures AtRest(ss[b], j) && SameOrGone(ss[a], ss[b], j)
    decreases b
  {
    if a < b {
      RestLasts(ss, es, j, a, b - 1);
      RestAt(ss, es, j, a, b - 1);
    }
  }

  lemma CompletedIsNotRetriedAt(ss: seq<Sys>, es: seq<Event>, j: JobId, i: nat)
    requires i < |es| < |ss| && (j in ss[i].table ==> ss[i].table[j].status == Completed)
    ensures !Retried(ss[i], es[i], j)
  {
  }

  lemma {:induction false} CompletedIsNotRetried(ss: seq<Sys>, es: seq<Event>, j: JobId, a: nat, b: nat)
    requires Execution(ss, es) && a <= b < |ss| && AtRest(ss[a], j)
    requires j in ss[a].table ==> ss[a].table[j].status == Completed
    ensures Retries(ss, es, j, a, b) == 0
    decreases b
  {
    if a < b {
      CompletedIsNotRetried(ss, es, j, a, b - 1);
      RestLasts(ss, es, j, a, b - 1);
      CompletedIsNotRetriedAt(ss, es, j, b - 1);
    }
  }

  // An execution that goes on from another one.
  ghost predicate Continues(ss: seq<Sys>, es: seq<Event>, ss': seq<Sys>, es': seq<Event>) {
    Execution(ss, es) && Execution(ss', es') && ss <= ss' && es <= es'
  }

  lemma GiveUpIsPossible(s: Sys, j: JobId, o: Owner)
    requires Inv(s) && o in s.runs && s.runs[o].job == j && MayFail(s.runs[o])
    requires j in s.table && Terminal(s.table[j].status)
    ensures var code := if s.table[j].errorCode == Some("A") then "B" else "A";
      var e := GiveUp(o, code, 0);
      && Enabled(s, e) && !Retried(s, e, j) && j in NextTable(s, e)
      && NextTable(s, e)[j].status == Failed && NextTable(s, e)[j].errorCode != s.table[j].errorCode
  {
  }

  // While a run may fail the job, one more step can make it failed.
  lemma WorkedCanFail(ss: seq<Sys>, es: seq<Event>, j: JobId) returns (ss': seq<Sys>, es': seq<Event>)
    requires Execution(ss, es) && Worked(ss[|es|], j)
    requires j in ss[|es|].table && Terminal(ss[|es|].table[j].status)
    ensures Continues(ss, es, ss', es') && Retries(ss', es', j, |es|, |es'|) == 0
    ensures j in ss'[|es'|].table && ss'[|es'|].table[j].status == Failed
    ensures ss'[|es'|].table[j] != ss[|es|].table[j]
  {
    var s := ss[|es|];
    ReachableStatesAreSound(ss, es, |es|);
    var o :| o in s.runs && s.runs[o].job == j && MayFail(s.runs[o]);
    GiveUpIsPossible(s, j, o);
    var e := GiveUp(o, if s.table[j].errorCode == Some("A") then "B" else "A", 0);
    ss', es' := Extend(ss, es, e);
    assert es'[|es|] == e && Retries(ss', es', j, |es|, |es|) == 0;
  }

  /** When an ended job is final. Between user retries it stays as it is, or is deleted, in every continuation if and
      only if no worker run on it may still fail it. */
  lemma EndedIsFinalExactly(ss: seq<Sys>, es: seq<Event>, j: JobId)
    requires Execution(ss, es) && j in ss[|es|].table && Terminal(ss[|es|].table[j].status)
    ensures (forall ss': seq<Sys>, es': seq<Event> ::
               Continues(ss, es, ss', es') && Retries(ss', es', j, |es|, |es'|) == 0 ==> SameOrGone(ss[|es|], ss'[|es'|], j))
        <==> !Worked(ss[|es|], j)
  {
    ReachableStatesAreSound(ss, es, |es|);
    if Worked(ss[|es|], j) {
      var ss', es' := WorkedCanFail(ss, es, j);
      assert !SameOrGone(ss[|es|], ss'[|es'|], j);
    } else {
      forall ss': seq<Sys>, es': seq<Event> | Continues(ss, es, ss', es') && Retries(ss', es', j, |es|, |es'|) == 0
        ensures SameOrGone(ss[|es|], ss'[|es'|], j)
      {
        assert ss'[|es|] == ss[|es|];
        RestLasts(ss', es', j, |es|, |es'|);
      }
    }
  }

  /** A completed job is final, user retries included, if and only if no worker run on it may still fail it. */
  lemma CompletedIsFinalExactly(ss: seq<Sys>, es: seq<Event>, j: JobId)
    requires Execution(ss, es) && j in ss[|es|].table && ss[|es|].table[j].status == Completed
    ensures (forall ss': seq<Sys>, es': seq<Event> :: Continues(ss, es, ss', es') ==> SameOrGone(ss[|es|], ss'[|es'|], j))
        <==> !Worked(ss[|es|], j)
  {
    EndedIsFinalExactly(ss, es, j);
    if !Worked(ss[|es|], j) {
      ReachableStatesAreSound(ss, es, |es|);
      forall ss': seq<Sys>, es': seq<Event> | Continues(ss, es, ss', es') ensures SameOrGone(ss[|es|], ss'[|es'|], j) {
        assert ss'[|es|] == ss[|es|];
        CompletedIsNotRetried(ss', es', j, |es|, |es'|);
      }
    }
  }

  // ---------- Runs that keep their leases ----------

  // Every run that is not over holds the lease of its job, unless the job is deleted.
  predicate KeepLeases(s: Sys) {
    forall o :: o in s.runs && !s.runs[o].over && s.runs[o].job in s.table ==>
      s.table[s.runs[o].job].leaseOwner == Some(o)
  }

  // A recovery that takes no lease from a run that is not over: every heartbeat was in time.
  predicate Polite(s: Sys, e: Event) {
    e.RecoverAsrStep? || e.RecoverRestStep? ==>
      forall o :: o in s.runs && !s.runs[o].over && s.runs[o].job in s.table ==> !Expired(s.table[s.runs[o].job], e.at)
  }

  lemma OwnerWriteBy(s: Sys, e: Event, j: JobId, o: Owner)
    requires OwnerWrite(s, e, j, o)
    ensures (RunWrites(e) || e.Beat?) && e.owner == o
  {
  }

  // Another's step leaves the lease of a run that is not over.
  lemma LeaseUntouched(s: Sys, e: Event, o: Owner)
    requires Inv(s) && Enabled(s, e) && KeepLeases(s) && Polite(s, e)
    requires o in s.runs && !s.runs[o].over && !(RunWrites(e) && e.owner == o)
    requires s.runs[o].job in s.table && s.runs[o].job in NextTable(s, e)
    ensures NextTable(s, e)[s.runs[o].job].leaseOwner == Some(o)
  {
    var j := s.runs[o].job;
    assert RowOk(s.table[j]) && LeaseTimed(s.table[j], s.lease);
    LeasedRowWriters(s, e, j);
    LeaseStep(s, e, j);
    TableStep(s, e, j);
    if OwnerWrite(s, e, j, o) {
      OwnerWriteBy(s, e, j, o);
      BeatKeepsLease(s, e, j);
    }
  }

  lemma BeatKeepsLease(s: Sys, e: Event, j: JobId)
    requires e.Beat? && j in s.table
    ensures NextRow(s, e, j).leaseOwner == s.table[j].leaseOwner
  {
  }

  // A stage write that leaves its run not over found its row, and leaves the lease.
  lemma StageKeepsLease(s: Sys, e: Event, o: Owner)
    requires Inv(s) && Enabled(s, e) && RunWrites(e) && e.owner == o && !NextRun(s, e, o).over
    ensures NextRun(s, e, o).job in NextTable(s, e) ==>
      NextTable(s, e)[NextRun(s, e, o).job].leaseOwner == Some(o)
  {
    var q := StmtOf(s, e).value;
    assert Hits(q, s.table) && (q.SetStage? || q.SetResolved?) && q.owner == o;
  }

  lemma KeepLeasesStep(s: Sys, e: Event)
    requires Inv(s) && Enabled(s, e) && KeepLeases(s) && Polite(s, e)
    ensures KeepLeases(Next(s, e))
  {
    var runs', t' := NextRuns(s, e), NextTable(s, e);
    forall o | o in runs' && !runs'[o].over && runs'[o].job in t' ensures t'[runs'[o].job].leaseOwner == Some(o) {
      if e.ClaimNext? && e.owner == o {
        LeaseStep(s, e, e.id);
      } else if RunWrites(e) && e.owner == o {
        StageKeepsLease(s, e, o);
      } else {
        NotStored(s, e, s.runs[o].job);
        LeaseUntouched(s, e, o);
      }
    }
  }

  // A deleted job that was handed out before is not stored again.
  lemma NotStored(s: Sys, e: Event, j: JobId)
    requires Inv(s) && Enabled(s, e) && j in s.used
    ensures j in NextTable(s, e) ==> j in s.table
  {
    TableStep(s, e, j);
  }

  predicate PoliteUpTo(ss: seq<Sys>, es: seq<Event>, n: nat)
    requires n <= |es| < |ss|
  {
    n == 0 || (PoliteUpTo(ss, es, n - 1) && Polite(ss[n - 1], es[n - 1]))
  }

  lemma KeepLeasesAt(ss: seq<Sys>, es: seq<Event>, i: nat)
    requires Execution(ss, es) && i < |es| && KeepLeases(ss[i]) && PoliteUpTo(ss, es, i + 1)
    ensures KeepLeases(ss[i + 1])
  {
    SoundStepAt(ss, es, i);
    KeepLeasesStep(ss[i], es[i]);
  }

  lemma {:induction false} LeasesAreKept(ss: seq<Sys>, es: seq<Event>, i: nat)
    requires Execution(ss, es) && i <= |es| && PoliteUpTo(ss, es, i)
    ensures KeepLeases(ss[i])
  {
    if 0 < i {
      LeasesAreKept(ss, es, i - 1);
      KeepLeasesAt(ss, es, i - 1);
    }
  }

  /** As long as no recovery has taken a lease from a run that was not over, every ended job is final until a user
      retries it, whatever recoveries follow; a completed one for good. */
  lemma PoliteEndingsAreFinal(ss: seq<Sys>, es: seq<Event>, j: JobId, ss': seq<Sys>, es': seq<Event>)
    requires Continues(ss, es, ss', es') && PoliteUpTo(ss, es, |es|)
    requires j in ss[|es|].table && Terminal(ss[|es|].table[j].status)
    requires ss[|es|].table[j].status == Completed || Retries(ss', es', j, |es|, |es'|) == 0
    ensures SameOrGone(ss[|es|], ss'[|es'|], j)
  {
    LeasesAreKept(ss, es, |es|);
    ReachableStatesAreSound(ss, es, |es|);
    assert RowOk(ss[|es|].table[j]);
    assert !Worked(ss[|es|], j);
    if ss[|es|].table[j].status == Completed {
      CompletedIsFinalExactly(ss, es, j);
    } else {
      EndedIsFinalExactly(ss, es, j);
    }
  }

  // ---------- Failed jobs, provider tasks, the sweep ----------

  // The job has failed or is gone for good.
  predicate FailedOrGone(s: Sys, j: JobId) {
    j in s.used && (j in s.table ==> s.table[j].status == Failed)
  }

  lemma FailedStep(s: Sys, e: Event, j: JobId)
    requires Inv(s) && Enabled(s, e) && FailedOrGone(s, j) && !Retried(s, e, j)
    ensures FailedOrGone(Next(s, e), j)
  {
    TableStep(s, e, j);
    if j in s.table {
      EndedStep(s, e, j);
    }
  }

  lemma FailedAt(ss: seq<Sys>, es: seq<Event>, j: JobId, a: nat, b: nat)
    requires Execution(ss, es) && a <= b < |es| && Retries(ss, es, j, a, b + 1) == 0 && FailedOrGone(ss[b], j)
    ensures FailedOrGone(ss[b + 1], j)
  {
    SoundStepAt(ss, es, b);
    FailedStep(ss[b], es[b], j);
  }

  /** Without a user retry a failed job stays failed, runs on it or not. */
  lemma {:induction false} FailedStaysFailed(ss: seq<Sys>, es: seq<Event>, j: JobId, a: nat, b: nat)
    requires Execution(ss, es) && a <= b < |ss| && FailedOrGone(ss[a], j) && Retries(ss, es, j, a, b) == 0
    ensures FailedOrGone(ss[b], j)
    decreases b
  {
    if a < b {
      FailedStaysFailed(ss, es, j, a, b - 1);
      FailedAt(ss, es, j, a, b - 1);
    }
  }

  lemma OpenTaskFails(ss: seq<Sys>, es: seq<Event>, j: JobId, a: nat)
    requires Execution(ss, es) && a < |es| && es[a].RecoverAsrStep?
    requires j in ss[a].table && ss[a].table[j].status == Transcribing
    requires Expired(ss[a].table[j], es[a].at) && OpenTask(ss[a].calls, j)
    ensures FailedOrGone(ss[a + 1], j)
    ensures j in ss[a + 1].table && ss[a + 1].table[j].errorCode == Some(ASR_RECOVERY_REQUIRED)
  {
    SoundStepAt(ss, es, a);
    TableStep(ss[a], es[a], j);
  }

  lemma NoClaimOfFailed(ss: seq<Sys>, es: seq<Event>, j: JobId, b: nat)
    requires Execution(ss, es) && b < |es| && FailedOrGone(ss[b], j)
    ensures !(es[b].ClaimNext? && es[b].id == j)
  {
    StepAt(ss, es, b);
  }

  lemma ExhaustIsIdle(s: Sys, at: int)
    requires RowsInv(s)
    ensures NextTable(s, ExhaustStep(at)) == s.table
  {
    forall j | j in s.table ensures NextTable(s, ExhaustStep(at))[j] == s.table[j] {
      SweepsKeepRowOk(s.table[j], false, at);
    }
  }

  /** No waiting job is ever out of attempts: the sweep for such jobs changes nothing in any execution. */
  lemma SweepFindsNothing(ss: seq<Sys>, es: seq<Event>, i: nat)
    requires Execution(ss, es) && i < |es| && es[i].ExhaustStep?
    ensures ss[i + 1].table == ss[i].table
  {
    SoundStepAt(ss, es, i);
    ExhaustIsIdle(ss[i], es[i].at);
  }

  /** A transcription whose lease ran out while a provider task was open ends failed in the first statement of
      Recover, and no worker is given it again before a user retries it. */
  lemma OpenTaskIsNeverReplayed(ss: seq<Sys>, es: seq<Event>, j: JobId, a: nat, b: nat)
    requires Execution(ss, es) && a < b < |es| && es[a].RecoverAsrStep?
    requires j in ss[a].table && ss[a].table[j].status == Transcribing
    requires Expired(ss[a].table[j], es[a].at) && OpenTask(ss[a].calls, j)
    requires Retries(ss, es, j, a + 1, b) == 0
    ensures j in ss[a + 1].table && ss[a + 1].table[j].status == Failed
    ensures ss[a + 1].table[j].errorCode == Some(ASR_RECOVERY_REQUIRED)
    ensures FailedOrGone(ss[b], j) && !(es[b].ClaimNext? && es[b].id == j)
  {
    OpenTaskFails(ss, es, j, a);
    FailedStaysFailed(ss, es, j, a + 1, b);
    NoClaimOfFailed(ss, es, j, b);
  }

  // ---------- Abandoned info requests ----------

  predicate Abandoned(s: Sys, j: JobId) { j in s.table && InfoWindow(s.table[j]) && j !in s.infos }

  lemma AbandonedStep(s: Sys, e: Event, j: JobId)
    requires Inv(s) && Enabled(s, e) && Abandoned(s, j)
    ensures Abandoned(Next(s, e), j) && NextTable(s, e)[j] == s.table[j]
  {
    InfoWindowStep(s, e, j);
    TableStep(s, e, j);
  }

  lemma AbandonedAt(ss: seq<Sys>, es: seq<Event>, j: JobId, i: nat)
    requires Execution(ss, es) && i < |es| && Abandoned(ss[i], j)
    ensures Abandoned(ss[i + 1], j) && ss[i + 1].table[j] == ss[i].table[j]
  {
    SoundStepAt(ss, es, i);
    AbandonedStep(ss[i], es[i], j);
  }

  /** An info job whose request went away without a result is never touched again: no claim, recovery, cancel,
      retry or delete reaches it. */
  lemma {:induction false} AbandonedInfoJobIsStuck(ss: seq<Sys>, es: seq<Event>, j: JobId, a: nat, b: nat)
    requires Execution(ss, es) && a <= b < |ss| && Abandoned(ss[a], j)
    ensures Abandoned(ss[b], j) && ss[b].table[j] == ss[a].table[j]
    decreases b
  {
    if a < b {
      AbandonedInfoJobIsStuck(ss, es, j, a, b - 1);
      AbandonedAt(ss, es, j, b - 1);
    }
  }

  lemma RequestCanEnd(ss: seq<Sys>, es: seq<Event>, j: JobId) returns (ss': seq<Sys>, es': seq<Event>)
    requires Execution(ss, es) && j in ss[|es|].infos && j in ss[|es|].table && InfoWindow(ss[|es|].table[j])
    ensures Continues(ss, es, ss', es') && j in ss'[|es'|].table && ss'[|es'|].table[j].status == Completed
  {
    ss', es' := Extend(ss, es, InfoDone(j, 0));
  }

  /** A job in its info window can still end if and only if its request is in flight. */
  lemma InfoJobEndsExactly(ss: seq<Sys>, es: seq<Event>, j: JobId)
    requires Execution(ss, es) && j in ss[|es|].table && InfoWindow(ss[|es|].table[j])
    ensures (exists ss': seq<Sys>, es': seq<Event> :: Continues(ss, es, ss', es')
               && j in ss'[|es'|].table && Terminal(ss'[|es'|].table[j].status))
        <==> j in ss[|es|].infos
  {
    if j in ss[|es|].infos {
      var ss', es' := RequestCanEnd(ss, es, j);
    } else {
      forall ss': seq<Sys>, es': seq<Event> | Continues(ss, es, ss', es')
        ensures !(j in ss'[|es'|].table && Terminal(ss'[|es'|].table[j].status))
      {
        assert ss'[|es|] == ss[|es|];
        AbandonedInfoJobIsStuck(ss', es', j, |es|, |es'|);
      }
    }
  }

  /** Such a job exists: a request that is lost between its insert and its result leaves one. */
  lemma RequestCanBeAbandoned() returns (ss: seq<Sys>, es: seq<Event>)
    ensures Execution(ss, es) && Abandoned(ss[|es|], "j")
  {
    ss, es := Extend([Initial(60)], [], CreateJob("j", "u", Info, 0));
    ss, es := Extend(ss, es, InfoGone("j"));
  }

  // ---------- A completed job that fails ----------

  // One stored job, leased or not, and the runs at work on it.
  predicate Alone(s: Sys, status: Status, o: Option<Owner>, runs: map<Owner, Run>) {
    s.table.Keys == {"j"} && s.runs == runs && s.lease == 60
    && var r := s.table["j"];
    r.status == status && r.leaseOwner == o && 0 <= r.attempts <= 1 + |runs| && r.maxAttempts == 3
    && (o == Some("a") ==> r.leaseExpires == Some(61)) && (o == Some("b") ==> r.attempts <= 2)
  }

  const RUN_A := map["a" := Run("j", AtResolving, 1, false)]
  const RUNS_AB := map["a" := Run("j", AtResolving, 1, false), "b" := Run("j", AtResolving, 2, false)]

  lemma ClaimByA(s: Sys)
    requires Alone(s, Queued, None, map[]) && s.table["j"].attempts == 0
    ensures Enabled(s, ClaimNext("a", "j", 1))
    ensures Alone(Next(s, ClaimNext("a", "j", 1)), Resolving, Some("a"), RUN_A)
    ensures Next(s, ClaimNext("a", "j", 1)).table["j"].attempts == 1
  {
  }

  lemma RecoverFromA(s: Sys)
    requires Alone(s, Resolving, Some("a"), RUN_A) && s.table["j"].attempts == 1
    ensures Alone(Next(s, RecoverRestStep(100)), Queued, None, RUN_A)
    ensures Next(s, RecoverRestStep(100)).table["j"].attempts == 1
  {
  }

  lemma ClaimByB(s: Sys)
    requires Alone(s, Queued, None, RUN_A) && s.table["j"].attempts == 1
    ensures Enabled(s, ClaimNext("b", "j", 101))
    ensures Alone(Next(s, ClaimNext("b", "j", 101)), Resolving, Some("b"), RUNS_AB)
  {
  }

  lemma FinishByB(s: Sys)
    requires Alone(s, Resolving, Some("b"), RUNS_AB)
    ensures var s1 := Next(s, Resolve("b", 102));
      && Enabled(s, Resolve("b", 102)) && Enabled(s1, FinishDownload("b", 103))
      && s1.table.Keys == {"j"} && s1.table["j"].status == Downloading && s1.table["j"].leaseOwner == Some("b")
      && s1.runs == RUNS_AB["b" := Run("j", AtDownloading, 2, false)]
  {
  }

  // Two runs on one stored job.
  predicate Shared(s: Sys) {
    s.table.Keys == {"j"} && "a" in s.runs && s.runs["a"] == Run("j", AtResolving, 1, false)
  }

  lemma GiveUpByA(s: Sys)
    requires Shared(s)
    ensures var t' := NextTable(s, GiveUp("a", "DOUYIN_WORK_UNAVAILABLE", 104)); "j" in t' && t'["j"].status == Failed
  {
  }

  lemma CompletedByB(s: Sys)
    requires Shared(s) && "b" in s.runs && s.runs["b"] == Run("j", AtDownloading, 2, false)
    requires s.table["j"].status == Downloading && s.table["j"].leaseOwner == Some("b")
    ensures Shared(Next(s, FinishDownload("b", 103)))
    ensures Next(s, FinishDownload("b", 103)).table["j"].status == Completed
  {
  }

  lemma TakenOver() returns (ss: seq<Sys>, es: seq<Event>)
    ensures Execution(ss, es) && |es| == 4 && Alone(ss[4], Resolving, Some("b"), RUNS_AB)
  {
    ss, es := Extend([Initial(60)], [], CreateJob("j", "u", Download, 0));
    ClaimByA(ss[1]);
    ss, es := Extend(ss, es, ClaimNext("a", "j", 1));
    RecoverFromA(ss[2]);
    ss, es := Extend(ss, es, RecoverRestStep(100));
    ClaimByB(ss[3]);
    ss, es := Extend(ss, es, ClaimNext("b", "j", 101));
  }

  /** An ended job is not final. A second process takes over a job whose first worker has gone silent and completes
      it; the first worker then gives the job up, and Fail, which names no owner, turns it to failed. */
  lemma CompletedJobCanStillFail() returns (ss: seq<Sys>, es: seq<Event>)
    ensures Execution(ss, es) && |es| == 7
    ensures "j" in ss[6].table && ss[6].table["j"].status == Completed
    ensures "j" in ss[7].table && ss[7].table["j"].status == Failed
  {
    ss, es := TakenOver();
    FinishByB(ss[4]);
    ss, es := Extend(ss, es, Resolve("b", 102));
    CompletedByB(ss[5]);
    ss, es := Extend(ss, es, FinishDownload("b", 103));
    GiveUpByA(ss[6]);
    ss, es := Extend(ss, es, GiveUp("a", "DOUYIN_WORK_UNAVAILABLE", 104));
  }
}
