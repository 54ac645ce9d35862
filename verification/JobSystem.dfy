/** The stages a worker run passes through, and the status and progress it has written on reaching each. */
module WorkerPhases {
  import opened JobTable

  datatype Phase =
    | AtResolving
    | AtDownloading
    | AtImage(index: nat, total: nat)
    | AtExtracting
    | AtTranscribing(done: nat, total: nat)
    | AtPostprocessing

  predicate PhaseOk(p: Phase) {
    match p
    case AtImage(i, n) => i < n
    case AtTranscribing(k, n) => k <= n && 0 < n
    case _ => true
  }

  function StatusOf(p: Phase): Status {
    match p
    case AtResolving => Resolving
    case AtDownloading => Downloading
    case AtImage(_, _) => Downloading
    case AtExtracting => Extracting
    case AtTranscribing(_, _) => Transcribing
    case AtPostprocessing => Postprocessing
  }

  function ProgressOf(p: Phase): int
    requires PhaseOk(p)
  {
    match p
    case AtResolving => 5
    case AtDownloading => 30
    case AtImage(i, n) => 30 + i * 45 / n
    case AtExtracting => 55
    case AtTranscribing(k, n) => 70 + k * 19 / n
    case AtPostprocessing => 90
  }

  // The stage writes that may follow one another in one attempt. An image without a URL is passed over.
  predicate PhaseNext(p: Phase, q: Phase) {
    PhaseOk(p) && PhaseOk(q) &&
    match q
    case AtResolving => false
    case AtDownloading => p.AtResolving?
    case AtImage(i, n) => p.AtDownloading? || (p.AtImage? && p.total == n && p.index < i)
    case AtExtracting => p.AtDownloading?
    case AtTranscribing(k, n) => (p.AtExtracting? && k == 0) || (p.AtTranscribing? && p.total == n && p.done <= k)
    case AtPostprocessing => p.AtDownloading? || p.AtImage? || p.AtTranscribing?
  }

  // The stages from which the program can fail its job outright: the resolver's verdict; the video's size, a missing
  // video or recognizer; FFmpeg from the second attempt on; the recognizer's refusals. Pictures and result files only
  // ever postpone or cancel.
  predicate CanFail(p: Phase, attempts: int) {
    match p
    case AtResolving => true
    case AtDownloading => true
    case AtExtracting => attempts >= 2
    case AtTranscribing(_, _) => true
    case _ => false
  }

  // How far a status lies from the end of a job's life.
  function Rank(s: Status): nat {
    match s
    case Resolving => 9
    case Downloading => 8
    case Extracting => 7
    case Transcribing => 6
    case Postprocessing => 5
    case Queued => 4
    case RetryWait => 3
    case Completed => 2
    case Cancelled => 1
    case Failed => 0
  }

  lemma MulLe(x: int, y: int, n: nat)
    requires x <= y
    ensures x * n <= y * n
  {
  }

  // Floor division: d = x / n is the number with d * n <= x < (d + 1) * n.
  lemma DivLe(x: nat, y: nat, n: nat)
    requires x <= y && 0 < n
    ensures 0 <= x / n <= y / n
  {
    var dx, dy := x / n, y / n;
    if dy < dx {
      MulLe(dy + 1, dx, n);
      assert false;
    }
  }

  lemma FloorShare(i: nat, k: nat, n: nat, c: nat)
    requires i <= k <= n && 0 < n && 0 < c
    ensures 0 <= i * c / n <= k * c / n <= c
    ensures k < n ==> k * c / n < c
  {
    MulLe(i, k, c);
    DivLe(i * c, k * c, n);
    var d := k * c / n;
    MulLe(k, n, c);
    if c < d || (k < n && c == d) {
      MulLe(c, d, n);
      if k < n {
        MulLe(k + 1, n, c);
      } else {
        MulLe(c + 1, d, n);
      }
      assert false;
    }
  }

  // d is x / n rounded down.
  predicate IsFloor(d: int, x: int, n: int) { d * n <= x < d * n + n }

  lemma DivIsFloor(x: nat, n: nat)
    requires 0 < n
    ensures IsFloor(x / n, x, n)
  {
  }

  /** What is stored for each stage: pictures share the 45 percent from 30 on, and segments the 19 percent from 70 on. */
  lemma StageTable(p: Phase)
    requires PhaseOk(p)
    ensures p.AtResolving? ==> StatusOf(p) == Resolving && ProgressOf(p) == 5
    ensures p.AtDownloading? ==> StatusOf(p) == Downloading && ProgressOf(p) == 30
    ensures p.AtImage? ==> StatusOf(p) == Downloading && IsFloor(ProgressOf(p) - 30, 45 * p.index, p.total)
    ensures p.AtExtracting? ==> StatusOf(p) == Extracting && ProgressOf(p) == 55
    ensures p.AtTranscribing? ==> StatusOf(p) == Transcribing && IsFloor(ProgressOf(p) - 70, 19 * p.done, p.total)
    ensures p.AtPostprocessing? ==> StatusOf(p) == Postprocessing && ProgressOf(p) == 90
  {
    match p
    case AtImage(i, n) => DivIsFloor(i * 45, n);
    case AtTranscribing(k, n) => DivIsFloor(k * 19, n);
    case _ =>
  }

  /** Every stage lies below 100 percent, and a worker can write it only with arguments the table accepts. */
  lemma StageInRange(p: Phase)
    requires PhaseOk(p)
    ensures 0 <= ProgressOf(p) < 100
    ensures !p.AtResolving? ==> StageArgs(StatusOf(p), ProgressOf(p))
  {
    match p
    case AtImage(i, n) => FloorShare(i, i, n, 45);
    case AtTranscribing(k, n) => FloorShare(k, k, n, 19);
    case _ =>
  }

  /** Going forward never lowers the progress and never goes back to an earlier status. */
  lemma ForwardIsMonotone(p: Phase, q: Phase)
    requires PhaseNext(p, q)
    ensures ProgressOf(p) <= ProgressOf(q)
    ensures Rank(StatusOf(q)) <= Rank(StatusOf(p))
    ensures StatusOf(p) != StatusOf(q) ==> Rank(StatusOf(q)) < Rank(StatusOf(p))
  {
    match q
    case AtImage(i, n) =>
      FloorShare(if p.AtImage? then p.index else 0, i, n, 45);
    case AtTranscribing(k, n) =>
      FloorShare(if p.AtTranscribing? then p.done else 0, k, n, 19);
    case AtPostprocessing =>
      if p.AtImage? {
        FloorShare(p.index, p.index, p.total, 45);
      } else if p.AtTranscribing? {
        FloorShare(p.done, p.done, p.total, 19);
      }
    case _ =>
  }
}

/**
 The whole machine: worker runs, HTTP requests and restarts interleaving over the tables, one statement a step.
 An owner name stands for one worker goroutine of one process and is not used by two live goroutines.
 */
module JobSystem {
  import opened Wrappers
  import opened JobTable
  import opened WorkerPhases

  // A run is over once a write of it missed its row, completed the job or gave it back; it may then still postpone or
  // cancel a lease it no longer has, but fails its job no more. attempts is attempt_count as the run claimed it.
  datatype Run = Run(job: JobId, phase: Phase, attempts: int, over: bool)

  datatype Sys = Sys(
    table: Table,
    calls: Calls,
    runs: map<Owner, Run>,   // what each busy worker goroutine is processing
    infos: set<JobId>,       // info requests still in flight
    deletable: set<JobId>,   // jobs some Delete request has seen in a terminal status
    used: set<JobId>,        // identifiers handed out so far
    lease: int)              // the configured lease, in milliseconds

  datatype Event =
    | CreateJob(id: JobId, user: UserId, action: Action, at: int)
    | InfoDone(id: JobId, at: int)
    | InfoFailed(id: JobId, code: string, at: int)
    | InfoGone(id: JobId)
    | ClaimNext(owner: Owner, id: JobId, at: int)
    | Beat(owner: Owner, at: int)
    | Resolve(owner: Owner, at: int)
    | Stage(owner: Owner, next: Phase, at: int)
    | FinishDownload(owner: Owner, at: int)
    | FinishTranscription(owner: Owner, at: int)
    | Later(owner: Owner, code: string, retryAt: int, at: int)
    | CancelOwn(owner: Owner, at: int)
    | GiveUp(owner: Owner, code: string, at: int)
    | EndRun(owner: Owner)
    | UserCancel(id: JobId, user: UserId, at: int)
    | UserRetry(id: JobId, user: UserId, at: int)
    | DeleteCheck(id: JobId)
    | DeleteCommit(id: JobId, user: UserId)
    | RecoverAsrStep(at: int)
    | RecoverRestStep(at: int)
    | ExhaustStep(at: int)
    | CallSubmit(owner: Owner, call: CallId)
    | CallTask(call: CallId, task: string)
    | CallDone(call: CallId, reported: Option<string>)
    | CallFail(call: CallId)

  function Initial(lease: int): Sys { Sys(map[], map[], map[], {}, {}, {}, lease) }

  predicate MayFail(r: Run) { !r.over && CanFail(r.phase, r.attempts) }

  ghost predicate Enabled(s: Sys, e: Event) {
    match e
    case CreateJob(id, _, _, _) => id !in s.used
    case InfoDone(id, _) => id in s.infos
    case InfoFailed(id, _, _) => id in s.infos
    case InfoGone(id) => id in s.infos
    case ClaimNext(o, id, at) => o !in s.runs && IsNext(s.table, id, at)
    case Beat(o, _) => o in s.runs
    case Resolve(o, _) => o in s.runs && !s.runs[o].over && s.runs[o].phase == AtResolving
    case Stage(o, q, _) => o in s.runs && !s.runs[o].over && PhaseNext(s.runs[o].phase, q) && !q.AtDownloading?
    case FinishDownload(o, _) => o in s.runs && !s.runs[o].over && s.runs[o].phase == AtDownloading
    case FinishTranscription(o, _) => o in s.runs && !s.runs[o].over && s.runs[o].phase == AtPostprocessing
    case Later(o, _, _, _) => o in s.runs
    case CancelOwn(o, _) => o in s.runs
    case GiveUp(o, _, _) => o in s.runs && MayFail(s.runs[o])
    case EndRun(o) => o in s.runs
    case UserCancel(_, _, _) => true
    case UserRetry(_, _, _) => true
    case DeleteCheck(id) => id in s.table && Terminal(s.table[id].status)
    case DeleteCommit(id, _) => id in s.deletable
    case RecoverAsrStep(_) => true
    case RecoverRestStep(_) => true
    case ExhaustStep(_) => true
    case CallSubmit(o, c) => o in s.runs && c !in s.calls
    case CallTask(_, _) => true
    case CallDone(_, _) => true
    case CallFail(_) => true
  }

  // The single-row statement that a step runs, if it runs one.
  function StmtOf(s: Sys, e: Event): Option<Stmt> {
    match e
    case InfoDone(id, at) => Some(Stmt.CompleteInfo(id, at))
    case InfoFailed(id, code, at) => Some(Stmt.Fail(id, code, at))
    case ClaimNext(o, id, at) => Some(Stmt.Claim(id, o, at, s.lease))
    case UserCancel(id, u, at) => Some(Stmt.Cancel(id, u, at))
    case UserRetry(id, u, at) => Some(Stmt.Retry(id, u, at))
    case Beat(o, at) => if o in s.runs then Some(Stmt.Heartbeat(s.runs[o].job, o, at, s.lease)) else None
    case Resolve(o, at) => if o in s.runs then Some(Stmt.SetResolved(s.runs[o].job, o, at)) else None
    case Stage(o, q, at) =>
      if o in s.runs && PhaseOk(q)
      then Some(Stmt.SetStage(s.runs[o].job, o, StatusOf(q), ProgressOf(q), at)) else None
    case FinishDownload(o, at) => if o in s.runs then Some(Stmt.CompleteDownload(s.runs[o].job, o, at)) else None
    case FinishTranscription(o, at) =>
      if o in s.runs then Some(Stmt.CompleteTranscription(s.runs[o].job, o, at)) else None
    case Later(o, code, retryAt, at) =>
      if o in s.runs then Some(Stmt.RetryLater(s.runs[o].job, o, code, retryAt, at)) else None
    case CancelOwn(o, at) => if o in s.runs then Some(Stmt.CancelOwned(s.runs[o].job, o, at)) else None
    case GiveUp(o, code, at) => if o in s.runs then Some(Stmt.Fail(s.runs[o].job, code, at)) else None
    case _ => None
  }

  function NextTable(s: Sys, e: Event): Table {
    match StmtOf(s, e)
    case Some(q) => Exec(q, s.table)
    case None =>
      match e
      case CreateJob(id, u, a, at) => s.table[id := NewRow(u, a, at)]
      case DeleteCommit(id, u) => DeletedFrom(s.table, id, u)
      case RecoverAsrStep(at) => RecoverAsr(s.table, s.calls, at)
      case RecoverRestStep(at) => RecoverRest(s.table, at)
      case ExhaustStep(at) => Exhaust(s.table, at)
      case _ => s.table
  }

  function NextCalls(s: Sys, e: Event): Calls {
    match e
    case CallSubmit(o, c) => if o in s.runs then s.calls[c := AsrCall(s.runs[o].job, None, Submitted)] else s.calls
    case CallTask(c, task) =>
      if c in s.calls then s.calls[c := s.calls[c].(task := Some(task), status := Running)] else s.calls
    case CallDone(c, task) =>
      if c in s.calls then s.calls[c := s.calls[c].(task := task, status := CallCompleted)] else s.calls
    case CallFail(c) => if c in s.calls then s.calls[c := s.calls[c].(status := CallFailed)] else s.calls
    case DeleteCommit(id, u) => CallsLeft(s.table, s.calls, id, u)
    case _ => s.calls
  }

  // A run moves to its next stage when the write found its row, and is over when it did not.
  function MovedRun(r: Run, hit: bool, q: Phase): Run { if hit then r.(phase := q) else r.(over := true) }

  function NextRun(s: Sys, e: Event, o: Owner): Run
    requires o in s.runs
  {
    var r := s.runs[o];
    match e
    case Resolve(_, at) => MovedRun(r, Hits(Stmt.SetResolved(r.job, o, at), s.table), AtDownloading)
    case Stage(_, q, at) =>
      if PhaseOk(q) then MovedRun(r, Hits(Stmt.SetStage(r.job, o, StatusOf(q), ProgressOf(q), at), s.table), q) else r
    case _ => r.(over := true)
  }

  // The writes that a run makes for its job.
  predicate RunWrites(e: Event) {
    e.Resolve? || e.Stage? || e.FinishDownload? || e.FinishTranscription? || e.Later? || e.CancelOwn? || e.GiveUp?
  }

  function NextRuns(s: Sys, e: Event): map<Owner, Run> {
    if e.ClaimNext? then
      s.runs[e.owner := Run(e.id, AtResolving, if e.id in s.table then s.table[e.id].attempts + 1 else 0, false)]
    else if e.EndRun? then s.runs - {e.owner}
    else if RunWrites(e) && e.owner in s.runs then s.runs[e.owner := NextRun(s, e, e.owner)]
    else s.runs
  }

  function NextInfos(s: Sys, e: Event): set<JobId> {
    match e
    case CreateJob(id, _, a, _) => if a == Info then s.infos + {id} else s.infos
    case InfoDone(id, _) => s.infos - {id}
    case InfoFailed(id, _, _) => s.infos - {id}
    case InfoGone(id) => s.infos - {id}
    case _ => s.infos
  }

  function Next(s: Sys, e: Event): Sys {
    Sys(NextTable(s, e), NextCalls(s, e), NextRuns(s, e), NextInfos(s, e),
        if e.DeleteCheck? then s.deletable + {e.id} else s.deletable,
        if e.CreateJob? then s.used + {e.id} else s.used,
        s.lease)
  }

  // ---------- The invariant of the machine ----------

  predicate LeaseTimed(r: Row, lease: int) {
    r.leaseExpires.Some? && r.heartbeat.Some? ==> r.leaseExpires.value == r.heartbeat.value + lease
  }

  ghost predicate RowsInv(s: Sys) {
    s.table.Keys <= s.used
    && forall j :: j in s.table ==> RowOk(s.table[j]) && LeaseTimed(s.table[j], s.lease)
  }

  predicate RequestsOpen(s: Sys) { forall j :: j in s.infos ==> j in s.table && InfoWindow(s.table[j]) }

  // A job in its info window belongs to no worker and to no Delete request.
  ghost predicate InfosInv(s: Sys) {
    && s.deletable <= s.used
    && RequestsOpen(s)
    && (forall j :: j in s.table && InfoWindow(s.table[j]) ==> j !in s.deletable)
    && (forall o :: o in s.runs && s.runs[o].job in s.table ==> !InfoWindow(s.table[s.runs[o].job]))
  }

  // The row that a run still leases shows exactly the stage that the run has reached.
  ghost predicate RunsInv(s: Sys) {
    forall o :: o in s.runs ==>
      var Run(j, p, _, _) := s.runs[o];
      && j in s.used && PhaseOk(p)
      && (j in s.table && s.table[j].leaseOwner == Some(o) ==>
            s.table[j].status == StatusOf(p) && s.table[j].progress == ProgressOf(p))
  }

  ghost predicate Inv(s: Sys) { RowsInv(s) && InfosInv(s) && RunsInv(s) }

  lemma InitialInv(lease: int)
    ensures Inv(Initial(lease))
  {
  }

  // Callers keep to what the statements ask of them.
  lemma StepsAreDisciplined(s: Sys, e: Event)
    requires RequestsOpen(s) && Enabled(s, e)
    ensures var q := StmtOf(s, e);
      q.Some? && q.value.id in s.table ==> Disciplined(q.value, s.table[q.value.id])
  {
    match e
    case Stage(_, q, _) => StageInRange(q);
    case _ =>
  }

  // What a single-row statement makes of the row of j.
  function RowAfter(q: Stmt, r: Row, j: JobId): Row { if q.id == j && Guard(q, r) then Effect(q, r) else r }

  // What a step that runs no single-row statement makes of a row; open: the job has an open provider task.
  function SweptRow(e: Event, r: Row, open: bool): Row {
    match e
    case RecoverAsrStep(at) => RecoverAsrRow(r, open, at)
    case RecoverRestStep(at) => RecoverRow(r, at)
    case ExhaustStep(at) => ExhaustRow(r, at)
    case _ => r
  }

  // What a step makes of a row that stays in the table.
  function NextRow(s: Sys, e: Event, j: JobId): Row
    requires j in s.table
  {
    match StmtOf(s, e)
    case Some(q) => RowAfter(q, s.table[j], j)
    case None => SweptRow(e, s.table[j], OpenTask(s.calls, j))
  }

  // Which steps run which statements.
  lemma StmtKind(s: Sys, e: Event)
    requires StmtOf(s, e).Some?
    ensures var q := StmtOf(s, e).value;
      && (q.Claim? <==> e.ClaimNext?) && (q.Retry? <==> e.UserRetry?) && (q.SetStage? <==> e.Stage?)
      && (q.SetResolved? <==> e.Resolve?) && (q.CompleteInfo? <==> e.InfoDone?)
      && (q.Fail? <==> e.GiveUp? || e.InfoFailed?)
  {
  }

  // Whose row a statement is about, and for whom it is run.
  lemma StmtTarget(s: Sys, e: Event)
    requires StmtOf(s, e).Some?
    ensures var q := StmtOf(s, e).value;
      && (e.ClaimNext? ==> q.id == e.id && q.owner == e.owner)
      && (e.UserRetry? ==> q == Stmt.Retry(e.id, e.user, e.at))
      && (e.InfoDone? || e.InfoFailed? ==> q.id == e.id)
      && (e.GiveUp? || e.Stage? || e.Resolve? ==> e.owner in s.runs && q.id == s.runs[e.owner].job)
      && (e.Stage? || e.Resolve? ==> q.owner == e.owner)
  {
  }

  lemma TableStep(s: Sys, e: Event, j: JobId)
    requires Enabled(s, e) && s.table.Keys <= s.used
    ensures j in NextTable(s, e) ==>
              (j in s.table && NextTable(s, e)[j] == NextRow(s, e, j))
              || (j !in s.used && e.CreateJob? && j == e.id && NextTable(s, e)[j] == NewRow(e.user, e.action, e.at))
    ensures j in s.table && j !in NextTable(s, e) ==> e.DeleteCommit? && e.id == j
  {
  }

  lemma TimingKept(s: Sys, e: Event, r: Row)
    requires LeaseTimed(r, s.lease) && StmtOf(s, e).Some?
    ensures LeaseTimed(Effect(StmtOf(s, e).value, r), s.lease)
  {
  }

  lemma SweptRowKept(e: Event, r: Row, open: bool, lease: int)
    requires RowOk(r) && LeaseTimed(r, lease)
    ensures RowOk(SweptRow(e, r, open)) && LeaseTimed(SweptRow(e, r, open), lease)
  {
    match e
    case RecoverAsrStep(at) => SweepsKeepRowOk(r, open, at);
    case RecoverRestStep(at) => SweepsKeepRowOk(r, false, at);
    case ExhaustStep(at) => SweepsKeepRowOk(r, false, at);
    case _ =>
  }

  lemma RowAfterKept(q: Stmt, r: Row, j: JobId)
    requires RowOk(r) && (q.id == j ==> Disciplined(q, r))
    ensures RowOk(RowAfter(q, r, j))
  {
    if q.id == j && Guard(q, r) {
      StmtKeepsRowOk(q, r);
    }
  }

  lemma RowKept(s: Sys, e: Event, j: JobId)
    requires j in s.table && RowOk(s.table[j]) && LeaseTimed(s.table[j], s.lease)
    requires StmtOf(s, e).Some? && StmtOf(s, e).value.id == j ==> Disciplined(StmtOf(s, e).value, s.table[j])
    ensures RowOk(NextRow(s, e, j)) && LeaseTimed(NextRow(s, e, j), s.lease)
  {
    if StmtOf(s, e).Some? {
      TimingKept(s, e, s.table[j]);
      RowAfterKept(StmtOf(s, e).value, s.table[j], j);
    } else {
      SweptRowKept(e, s.table[j], OpenTask(s.calls, j), s.lease);
    }
  }

  lemma RowsKept(s: Sys, e: Event)
    requires Inv(s) && Enabled(s, e)
    ensures RowsInv(Next(s, e))
  {
    var t' := NextTable(s, e);
    StepsAreDisciplined(s, e);
    forall j | j in t' ensures RowOk(t'[j]) && LeaseTimed(t'[j], s.lease) && j in Next(s, e).used {
      TableStep(s, e, j);
      if j in s.table {
        RowKept(s, e, j);
      }
    }
  }

  lemma RowAfterInfoWindow(q: Stmt, r: Row, j: JobId)
    requires RowOk(r)
    ensures InfoWindow(RowAfter(q, r, j)) ==> RowAfter(q, r, j) == r
    ensures InfoWindow(r) && RowAfter(q, r, j) != r ==> q.id == j && (q.CompleteInfo? || q.Fail?)
    ensures q.id == j && (q.CompleteInfo? || q.Fail?) ==> !InfoWindow(RowAfter(q, r, j))
  {
  }

  lemma SweptInfoWindow(e: Event, r: Row, open: bool)
    requires RowOk(r)
    ensures InfoWindow(SweptRow(e, r, open)) || InfoWindow(r) ==> SweptRow(e, r, open) == r
  {
  }

  lemma InfoWindowRow(s: Sys, e: Event, j: JobId)
    requires j in s.table && RowOk(s.table[j])
    requires e.GiveUp? && e.owner in s.runs && s.runs[e.owner].job == j ==> !InfoWindow(s.table[j])
    ensures InfoWindow(NextRow(s, e, j)) ==> NextRow(s, e, j) == s.table[j]
    ensures InfoWindow(s.table[j]) && !((e.InfoDone? || e.InfoFailed?) && e.id == j) ==> NextRow(s, e, j) == s.table[j]
    ensures (e.InfoDone? || e.InfoFailed?) && e.id == j ==> !InfoWindow(NextRow(s, e, j))
  {
    if StmtOf(s, e).Some? {
      StmtKind(s, e);
      StmtTarget(s, e);
      RowAfterInfoWindow(StmtOf(s, e).value, s.table[j], j);
    } else {
      SweptInfoWindow(e, s.table[j], OpenTask(s.calls, j));
    }
  }

  // Only the end of its own request moves a job out of its info window, and nothing moves a job into it.
  lemma InfoWindowStep(s: Sys, e: Event, j: JobId)
    requires Inv(s) && Enabled(s, e) && j in s.table
    ensures InfoWindow(NextRow(s, e, j)) ==> InfoWindow(s.table[j])
    ensures InfoWindow(s.table[j]) && !((e.InfoDone? || e.InfoFailed?) && e.id == j) ==>
              j in NextTable(s, e) && NextRow(s, e, j) == s.table[j]
    ensures (e.InfoDone? || e.InfoFailed?) && e.id == j ==> !InfoWindow(NextRow(s, e, j))
  {
    assert RowOk(s.table[j]);
    InfoWindowRow(s, e, j);
    TableStep(s, e, j);
  }

  lemma InfoKept(s: Sys, e: Event, j: JobId)
    requires Inv(s) && Enabled(s, e)
    ensures var s' := Next(s, e);
      && (j in s'.infos ==> j in s'.table && InfoWindow(s'.table[j]))
      && (j in s'.table && InfoWindow(s'.table[j]) ==> j !in s'.deletable)
  {
    TableStep(s, e, j);
    if j in s.table {
      InfoWindowStep(s, e, j);
    }
  }

  // A run of the next state has a job that was stored or identified before.
  lemma NextRunsJob(s: Sys, e: Event, o: Owner)
    requires Enabled(s, e) && o in NextRuns(s, e)
    ensures o in s.runs ==> NextRuns(s, e)[o].job == s.runs[o].job
    ensures o !in s.runs ==> e.ClaimNext? && e.owner == o && NextRuns(s, e)[o].job == e.id
  {
  }

  lemma RunKeepsOutOfInfo(s: Sys, e: Event, o: Owner)
    requires Inv(s) && Enabled(s, e) && o in NextRuns(s, e) && NextRuns(s, e)[o].job in NextTable(s, e)
    ensures !InfoWindow(NextTable(s, e)[NextRuns(s, e)[o].job])
  {
    NextRunsJob(s, e, o);
    var j := NextRuns(s, e)[o].job;
    TableStep(s, e, j);
    if j in s.table {
      InfoWindowStep(s, e, j);
    }
  }

  lemma InfosKept(s: Sys, e: Event)
    requires Inv(s) && Enabled(s, e)
    ensures InfosInv(Next(s, e))
  {
    var s' := Next(s, e);
    forall j
      ensures j in s'.infos ==> j in s'.table && InfoWindow(s'.table[j])
      ensures j in s'.table && InfoWindow(s'.table[j]) ==> j !in s'.deletable
    {
      InfoKept(s, e, j);
    }
    forall o | o in s'.runs && s'.runs[o].job in s'.table ensures !InfoWindow(s'.table[s'.runs[o].job]) {
      RunKeepsOutOfInfo(s, e, o);
    }
  }

  lemma RowAfterLease(q: Stmt, r: Row, j: JobId)
    requires RowOk(r)
    ensures var b := RowAfter(q, r, j).leaseOwner;
      b == r.leaseOwner || b == None || (r.leaseOwner == None && q.Claim? && q.id == j && b == Some(q.owner))
    ensures q.Claim? && RowAfter(q, r, j) != r ==> r.leaseOwner == None
  {
  }

  lemma SweptLease(e: Event, r: Row, open: bool)
    ensures SweptRow(e, r, open).leaseOwner == r.leaseOwner || SweptRow(e, r, open).leaseOwner == None
  {
  }

  lemma RowLease(s: Sys, e: Event, j: JobId)
    requires j in s.table && RowOk(s.table[j])
    ensures var a, b := s.table[j].leaseOwner, NextRow(s, e, j).leaseOwner;
      a == b || b == None || (a == None && e.ClaimNext? && e.id == j && b == Some(e.owner))
  {
    if StmtOf(s, e).Some? {
      StmtKind(s, e);
      StmtTarget(s, e);
      RowAfterLease(StmtOf(s, e).value, s.table[j], j);
    } else {
      SweptLease(e, s.table[j], OpenTask(s.calls, j));
    }
  }

  lemma StmtOnLeased(q: Stmt, r: Row, j: JobId, o: Owner)
    requires RowOk(r) && r.leaseOwner == Some(o) && RowAfter(q, r, j).leaseOwner == Some(o)
    ensures !(q.CompleteInfo? && q.id == j) && !((q.SetStage? || q.SetResolved?) && q.owner == o) ==>
              RowAfter(q, r, j).status == r.status && RowAfter(q, r, j).progress == r.progress
  {
  }

  lemma SweptOnLeased(e: Event, r: Row, open: bool, o: Owner)
    requires RowOk(r) && r.leaseOwner == Some(o) && SweptRow(e, r, open).leaseOwner == Some(o)
    ensures SweptRow(e, r, open) == r
  {
  }

  // A step that is not a stage write of o leaves the stage that o's row shows.
  lemma UnmovedRow(s: Sys, e: Event, j: JobId, o: Owner)
    requires j in s.table && RowOk(s.table[j]) && !((e.Stage? || e.Resolve?) && e.owner == o)
    requires !(e.InfoDone? && e.id == j)
    requires s.table[j].leaseOwner == Some(o) && NextRow(s, e, j).leaseOwner == Some(o)
    ensures NextRow(s, e, j).status == s.table[j].status && NextRow(s, e, j).progress == s.table[j].progress
  {
    if StmtOf(s, e).Some? {
      StmtKind(s, e);
      StmtTarget(s, e);
      StmtOnLeased(StmtOf(s, e).value, s.table[j], j, o);
    } else {
      SweptOnLeased(e, s.table[j], OpenTask(s.calls, j), o);
    }
  }

  // A stage write of o shows the stage that o's run has reached.
  lemma MovedRow(s: Sys, e: Event, j: JobId, o: Owner)
    requires Enabled(s, e) && (e.Stage? || e.Resolve?) && e.owner == o && s.runs[o].job == j
    requires j in s.table && RowOk(s.table[j]) && s.table[j].leaseOwner == Some(o)
    requires s.table[j].status == StatusOf(s.runs[o].phase) && PhaseOk(s.runs[o].phase)
    ensures NextRuns(s, e)[o].job == j && PhaseOk(NextRuns(s, e)[o].phase)
    ensures NextRow(s, e, j).status == StatusOf(NextRuns(s, e)[o].phase)
    ensures NextRow(s, e, j).progress == ProgressOf(NextRuns(s, e)[o].phase)
  {
    if e.Stage? {
      StageInRange(e.next);
    }
  }

  // The only writes to a leased row's stage are those of its own run.
  lemma LeasedStage(s: Sys, e: Event, j: JobId, o: Owner)
    requires Inv(s) && Enabled(s, e) && j in s.table && o in s.runs && s.runs[o].job == j
    requires NextRow(s, e, j).leaseOwner == Some(o) && o in NextRuns(s, e)
    ensures NextRuns(s, e)[o].job == j
    ensures NextRow(s, e, j).status == StatusOf(NextRuns(s, e)[o].phase)
    ensures PhaseOk(NextRuns(s, e)[o].phase) && NextRow(s, e, j).progress == ProgressOf(NextRuns(s, e)[o].phase)
  {
    assert RowOk(s.table[j]);
    RowLease(s, e, j);
    if (e.Stage? || e.Resolve?) && e.owner == o {
      MovedRow(s, e, j, o);
    } else {
      UnmovedRow(s, e, j, o);
    }
  }

  lemma RunKept(s: Sys, e: Event, o: Owner)
    requires Inv(s) && Enabled(s, e) && o in NextRuns(s, e)
    ensures var Run(j, p, _, _) := NextRuns(s, e)[o]; var t' := NextTable(s, e);
      && j in s.used && PhaseOk(p)
      && (j in t' && t'[j].leaseOwner == Some(o) ==> t'[j].status == StatusOf(p) && t'[j].progress == ProgressOf(p))
  {
    NextRunsJob(s, e, o);
    var j := NextRuns(s, e)[o].job;
    TableStep(s, e, j);
    if o in s.runs {
      if j in NextTable(s, e) && NextTable(s, e)[j].leaseOwner == Some(o) {
        LeasedStage(s, e, j, o);
      }
    } else {
      assert RowOk(s.table[j]);
    }
  }

  lemma RunsKept(s: Sys, e: Event)
    requires Inv(s) && Enabled(s, e)
    ensures RunsInv(Next(s, e))
  {
    forall o | o in NextRuns(s, e)
      ensures var Run(j, p, _, _) := NextRuns(s, e)[o]; var t' := NextTable(s, e);
        && j in Next(s, e).used && PhaseOk(p)
        && (j in t' && t'[j].leaseOwner == Some(o) ==> t'[j].status == StatusOf(p) && t'[j].progress == ProgressOf(p))
    {
      RunKept(s, e, o);
    }
  }

  /** Every step of every interleaving keeps the whole-record, info-window and stage invariants. */
  lemma StepKeepsInv(s: Sys, e: Event)
    requires Inv(s) && Enabled(s, e)
    ensures Inv(Next(s, e))
  {
    RowsKept(s, e);
    InfosKept(s, e);
    RunsKept(s, e);
  }
}
