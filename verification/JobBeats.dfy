/** Heartbeats and recovery: a run that gives a sign of life at least once per lease keeps its job. */
module JobBeats {
  import opened Wrappers
  import opened JobTable
  import opened JobSystem
  import opened JobRuns
  import opened JobEndings

  // ---------- Signs of life ----------

  // The step is o's claim of j, or a heartbeat of o that finds j's row.
  predicate Sign(s: Sys, e: Event, j: JobId, o: Owner) {
    (e.ClaimNext? && e.id == j && e.owner == o)
    || (e.Beat? && e.owner == o && o in s.runs && s.runs[o].job == j && LeaseIn(s.table, j) == Some(o))
  }

  // When the last of them before step n was.
  function LastSign(ss: seq<Sys>, es: seq<Event>, j: JobId, o: Owner, n: nat): int
    requires n <= |es| < |ss|
  {
    if n == 0 then 0
    else if Sign(ss[n - 1], es[n - 1], j, o) then es[n - 1].at
    else LastSign(ss, es, j, o, n - 1)
  }

  // The lease of j is o's, was renewed at t, and runs for one lease from there.
  predicate RenewedAt(s: Sys, j: JobId, o: Owner, t: int) {
    LeaseIn(s.table, j) == Some(o) && Renewed(s.table[j], t, s.lease)
  }

  predicate Renewed(r: Row, t: int, lease: int) { r.heartbeat == Some(t) && r.leaseExpires == Some(t + lease) }

  // A statement that is neither a claim nor a heartbeat renews no lease.
  lemma OtherSign(q: Stmt, r: Row, j: JobId, o: Owner)
    requires RowOk(r) && !q.Heartbeat? && !q.Claim? && RowAfter(q, r, j).leaseOwner == Some(o)
    ensures var r' := RowAfter(q, r, j);
      r.leaseOwner == Some(o) && r'.heartbeat == r.heartbeat && r'.leaseExpires == r.leaseExpires
  {
  }

  lemma StmtSign(q: Stmt, r: Row, j: JobId, o: Owner)
    requires RowOk(r) && RowAfter(q, r, j).leaseOwner == Some(o)
    ensures var r' := RowAfter(q, r, j);
      if q.id == j && q.Heartbeat? && q.owner == o && r.leaseOwner == Some(o)
      then r'.heartbeat == Some(q.at) && r'.leaseExpires == Some(q.at + q.lease)
      else if q.id == j && q.Claim? && q.owner == o && Eligible(r, q.at)
      then r'.heartbeat == Some(q.at) && r'.leaseExpires == Some(q.at + q.lease)
      else r.leaseOwner == Some(o) && r'.heartbeat == r.heartbeat && r'.leaseExpires == r.leaseExpires
  {
    if !q.Heartbeat? && !q.Claim? {
      OtherSign(q, r, j, o);
    }
  }

  lemma SweptSign(e: Event, r: Row, open: bool, o: Owner)
    requires RowOk(r) && SweptRow(e, r, open).leaseOwner == Some(o)
    ensures r.leaseOwner == Some(o) && SweptRow(e, r, open) == r
  {
  }

  lemma RowSign(s: Sys, e: Event, j: JobId, o: Owner)
    requires Enabled(s, e) && j in s.table && RowOk(s.table[j]) && NextRow(s, e, j).leaseOwner == Some(o)
    ensures var r, r' := s.table[j], NextRow(s, e, j);
      if Sign(s, e, j, o) then r'.heartbeat == Some(e.at) && r'.leaseExpires == Some(e.at + s.lease)
      else r.leaseOwner == Some(o) && r'.heartbeat == r.heartbeat && r'.leaseExpires == r.leaseExpires
  {
    if StmtOf(s, e).Some? {
      BeatStmt(s, e, j, o);
      StmtSign(StmtOf(s, e).value, s.table[j], j, o);
    } else {
      SweptSign(e, s.table[j], OpenTask(s.calls, j), o);
    }
  }

  // Which statements are signs.
  lemma BeatStmt(s: Sys, e: Event, j: JobId, o: Owner)
    requires Enabled(s, e) && StmtOf(s, e).Some? && j in s.table
    ensures var q := StmtOf(s, e).value; var r := s.table[j];
      Sign(s, e, j, o) <==>
        q.id == j && (q.Heartbeat? || q.Claim?) && q.owner == o
        && (if q.Heartbeat? then r.leaseOwner == Some(o) else Eligible(r, q.at))
    ensures Sign(s, e, j, o) ==> StmtOf(s, e).value.at == e.at && StmtOf(s, e).value.lease == s.lease
  {
  }

  // A row that is leased after a step was stored before it.
  lemma LeasedIsOld(s: Sys, e: Event, j: JobId)
    requires Inv(s) && Enabled(s, e) && LeaseIn(NextTable(s, e), j).Some?
    ensures j in s.table && RowOk(s.table[j]) && NextTable(s, e)[j] == NextRow(s, e, j)
  {
    TableStep(s, e, j);
  }

  lemma SignRow(s: Sys, e: Event, j: JobId, o: Owner, t: int)
    requires Enabled(s, e) && j in s.table && RowOk(s.table[j]) && NextRow(s, e, j).leaseOwner == Some(o)
    requires s.table[j].leaseOwner == Some(o) ==> Renewed(s.table[j], t, s.lease)
    ensures Renewed(NextRow(s, e, j), if Sign(s, e, j, o) then e.at else t, s.lease)
  {
    RowSign(s, e, j, o);
  }

  lemma SignStep(s: Sys, e: Event, j: JobId, o: Owner, t: int)
    requires Inv(s) && Enabled(s, e) && LeaseIn(NextTable(s, e), j) == Some(o)
    requires LeaseIn(s.table, j) == Some(o) ==> RenewedAt(s, j, o, t)
    ensures RenewedAt(Next(s, e), j, o, if Sign(s, e, j, o) then e.at else t)
  {
    LeasedIsOld(s, e, j);
    SignRow(s, e, j, o, t);
  }

  lemma SignAt(ss: seq<Sys>, es: seq<Event>, j: JobId, o: Owner, n: nat, t: int)
    requires Execution(ss, es) && n < |es| && LeaseIn(ss[n + 1].table, j) == Some(o)
    requires LeaseIn(ss[n].table, j) == Some(o) ==> RenewedAt(ss[n], j, o, t)
    ensures RenewedAt(ss[n + 1], j, o, if Sign(ss[n], es[n], j, o) then es[n].at else t)
  {
    SoundStepAt(ss, es, n);
    SignStep(ss[n], es[n], j, o, t);
  }

  /** In every execution a held lease was renewed at the holder's last sign of life, and runs for one lease from it. */
  lemma {:induction false} LeaseRunsFromLastSign(ss: seq<Sys>, es: seq<Event>, j: JobId, o: Owner, n: nat)
    requires Execution(ss, es) && n <= |es| && LeaseIn(ss[n].table, j) == Some(o)
    ensures RenewedAt(ss[n], j, o, LastSign(ss, es, j, o, n))
  {
    if 0 < n {
      if LeaseIn(ss[n - 1].table, j) == Some(o) {
        LeaseRunsFromLastSign(ss, es, j, o, n - 1);
      }
      SignAt(ss, es, j, o, n - 1, LastSign(ss, es, j, o, n - 1));
    }
  }

  // ---------- Recovery ----------

  predicate Recovery(e: Event) { e.RecoverAsrStep? || e.RecoverRestStep? }

  lemma RecoveryOfLeased(e: Event, r: Row, open: bool, t: int, lease: int)
    requires Recovery(e) && RowOk(r) && r.leaseOwner.Some? && r.leaseExpires == Some(t + lease)
    ensures SweptRow(e, r, open) != r ==> t + lease < e.at
    ensures e.RecoverRestStep? && t + lease < e.at ==> SweptRow(e, r, open) != r
  {
  }

  lemma RecoveryStep(s: Sys, e: Event, j: JobId, o: Owner, t: int)
    requires Inv(s) && Recovery(e) && RenewedAt(s, j, o, t)
    ensures j in NextTable(s, e)
    ensures NextTable(s, e)[j] != s.table[j] ==> t + s.lease < e.at
    ensures e.RecoverRestStep? && t + s.lease < e.at ==> NextTable(s, e)[j] != s.table[j]
  {
    assert RowOk(s.table[j]);
    TableStep(s, e, j);
    RecoveryOfLeased(e, s.table[j], OpenTask(s.calls, j), t, s.lease);
  }

  /** Recovery takes a job from its holder only after a silence longer than the lease: the last claim or successful
      heartbeat lies more than one lease back. The second statement of Recover then always takes it. */
  lemma RecoveryNeedsSilence(ss: seq<Sys>, es: seq<Event>, j: JobId, o: Owner, n: nat)
    requires Execution(ss, es) && n < |es| && Recovery(es[n]) && LeaseIn(ss[n].table, j) == Some(o)
    ensures j in ss[n + 1].table
    ensures ss[n + 1].table[j] != ss[n].table[j] ==> LastSign(ss, es, j, o, n) + ss[n].lease < es[n].at
    ensures es[n].RecoverRestStep? && LastSign(ss, es, j, o, n) + ss[n].lease < es[n].at ==>
      ss[n + 1].table[j] != ss[n].table[j]
  {
    SoundStepAt(ss, es, n);
    LeaseRunsFromLastSign(ss, es, j, o, n);
    RecoveryStep(ss[n], es[n], j, o, LastSign(ss, es, j, o, n));
  }

  // The holder's signs of life from step a on bear no earlier time than t.
  predicate ClockKept(ss: seq<Sys>, es: seq<Event>, j: JobId, o: Owner, a: nat, n: nat, t: int)
    requires n <= |es| < |ss|
  {
    forall i {:trigger es[i]} :: a <= i < n && Sign(ss[i], es[i], j, o) ==> t <= es[i].at
  }

  lemma {:induction false} SignIsNoEarlier(ss: seq<Sys>, es: seq<Event>, j: JobId, o: Owner, a: nat, n: nat)
    requires a < n <= |es| < |ss| && Sign(ss[a], es[a], j, o) && ClockKept(ss, es, j, o, a, n, es[a].at)
    ensures es[a].at <= LastSign(ss, es, j, o, n)
    decreases n
  {
    if !Sign(ss[n - 1], es[n - 1], j, o) {
      SignIsNoEarlier(ss, es, j, o, a, n - 1);
    }
  }

  lemma {:induction false} LeaseLength(ss: seq<Sys>, es: seq<Event>, i: nat)
    requires Execution(ss, es) && i < |ss|
    ensures ss[i].lease == ss[0].lease
  {
    if 0 < i {
      LeaseLength(ss, es, i - 1);
      StepAt(ss, es, i - 1);
    }
  }

  /** After a heartbeat at step a, no recovery up to one lease later touches the job as long as its owner holds it. */
  lemma HeartbeatShields(ss: seq<Sys>, es: seq<Event>, j: JobId, o: Owner, a: nat, n: nat)
    requires Execution(ss, es) && a < n < |es| && es[a].Beat? && OwnerWrite(ss[a], es[a], j, o)
    requires LeaseIn(ss[n].table, j) == Some(o) && ClockKept(ss, es, j, o, a, n, es[a].at)
    requires Recovery(es[n]) && es[n].at <= es[a].at + ss[0].lease
    ensures j in ss[n + 1].table && ss[n + 1].table[j] == ss[n].table[j]
  {
    BeatIsSign(ss[a], es[a], j, o);
    SignIsNoEarlier(ss, es, j, o, a, n);
    LeaseLength(ss, es, n);
    RecoveryNeedsSilence(ss, es, j, o, n);
  }

  lemma BeatIsSign(s: Sys, e: Event, j: JobId, o: Owner)
    requires e.Beat? && OwnerWrite(s, e, j, o)
    ensures Sign(s, e, j, o)
  {
  }

  // ---------- Punctual workers ----------

  // At a recovery every run that is not over gave its last sign no longer than a lease ago.
  predicate Punctual(ss: seq<Sys>, es: seq<Event>, n: nat)
    requires n < |es| < |ss|
  {
    Recovery(es[n]) ==> forall o :: o in ss[n].runs && !ss[n].runs[o].over && ss[n].runs[o].job in ss[n].table ==>
      es[n].at <= LastSign(ss, es, ss[n].runs[o].job, o, n) + ss[n].lease
  }

  predicate PunctualUpTo(ss: seq<Sys>, es: seq<Event>, n: nat)
    requires n <= |es| < |ss|
  {
    n == 0 || (PunctualUpTo(ss, es, n - 1) && Punctual(ss, es, n - 1))
  }

  lemma PunctualIsPolite(ss: seq<Sys>, es: seq<Event>, n: nat)
    requires Execution(ss, es) && n < |es| && KeepLeases(ss[n]) && Punctual(ss, es, n)
    ensures Polite(ss[n], es[n])
  {
    if Recovery(es[n]) {
      var s := ss[n];
      forall o | o in s.runs && !s.runs[o].over && s.runs[o].job in s.table
        ensures !Expired(s.table[s.runs[o].job], es[n].at)
      {
        LeaseRunsFromLastSign(ss, es, s.runs[o].job, o, n);
      }
    }
  }

  /** If every worker beats at least once per lease, no recovery takes a job from a run that is not over, so every such
      run holds its lease, and ended jobs are final. */
  lemma {:induction false} PunctualWorkersKeepTheirJobs(ss: seq<Sys>, es: seq<Event>, n: nat)
    requires Execution(ss, es) && n <= |es| && PunctualUpTo(ss, es, n)
    ensures PoliteUpTo(ss, es, n) && KeepLeases(ss[n])
  {
    if 0 < n {
      PunctualWorkersKeepTheirJobs(ss, es, n - 1);
      PunctualIsPolite(ss, es, n - 1);
    }
    LeasesAreKept(ss, es, n);
  }
}
