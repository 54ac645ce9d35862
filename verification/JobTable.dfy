/**
 The jobs table and the SQL statements of the job repository.

 A statement on one row is a Stmt value: Guard is its WHERE clause and Effect its SET list.
 The class JobRepository holds the stored rows and runs the statements in place.
 */
module JobTable {
  import opened Wrappers

  type JobId = string
  type UserId = string
  type Owner = string
  type CallId = string

  datatype Status =
    | Queued | Resolving | Downloading | Extracting | Transcribing | Postprocessing
    | RetryWait | Completed | Failed | Cancelled

  datatype Action = Info | Download | Transcribe | Full

  // One row of jobs. Every instant is a number of milliseconds.
  datatype Row = Row(
    user: UserId, action: Action, status: Status, progress: int, attempts: int, maxAttempts: int,
    leaseOwner: Option<Owner>, leaseExpires: Option<int>, heartbeat: Option<int>,
    errorCode: Option<string>, createdAt: int, startedAt: Option<int>, completedAt: Option<int>,
    retryAt: Option<int>, cancelRequestedAt: Option<int>, updatedAt: int)

  type Table = map<JobId, Row>

  // One row of asr_calls, as far as recovery and deletion read it.
  datatype CallStatus = Submitted | Running | CallCompleted | CallFailed
  datatype AsrCall = AsrCall(job: JobId, task: Option<string>, status: CallStatus)
  type Calls = map<CallId, AsrCall>

  const DEFAULT_MAX_ATTEMPTS := 3
  const ASR_RECOVERY_REQUIRED := "ASR_RECOVERY_REQUIRED"
  const JOB_RECOVERY_EXHAUSTED := "JOB_RECOVERY_EXHAUSTED"
  const JOB_RETRY_EXHAUSTED := "JOB_RETRY_EXHAUSTED"

  predicate Terminal(s: Status) { s == Completed || s == Failed || s == Cancelled }

  predicate Waiting(s: Status) { s == Queued || s == RetryWait }

  predicate Active(s: Status) {
    s == Resolving || s == Downloading || s == Extracting || s == Transcribing || s == Postprocessing
  }

  datatype Stmt =
    | Claim(id: JobId, owner: Owner, at: int, lease: int)
    | Heartbeat(id: JobId, owner: Owner, at: int, lease: int)
    | SetResolved(id: JobId, owner: Owner, at: int)
    | SetStage(id: JobId, owner: Owner, status: Status, progress: int, at: int)
    | CompleteInfo(id: JobId, at: int)
    | CompleteDownload(id: JobId, owner: Owner, at: int)
    | CompleteTranscription(id: JobId, owner: Owner, at: int)
    | RetryLater(id: JobId, owner: Owner, code: string, retryAt: int, at: int)
    | CancelOwned(id: JobId, owner: Owner, at: int)
    | Fail(id: JobId, code: string, at: int)
    | Cancel(id: JobId, user: UserId, at: int)
    | Retry(id: JobId, user: UserId, at: int)

  // The statements whose WHERE clause names the lease owner.
  predicate OwnerGuarded(q: Stmt) {
    q.Heartbeat? || q.SetResolved? || q.SetStage? || q.CompleteDownload? || q.CompleteTranscription?
    || q.RetryLater? || q.CancelOwned?
  }

  predicate Eligible(r: Row, now: int) {
    (r.status == Queued || (r.status == RetryWait && r.retryAt.Some? && r.retryAt.value <= now))
    && r.attempts < r.maxAttempts
  }

  predicate Guard(q: Stmt, r: Row) {
    match q
    case Claim(_, _, at, _) => Eligible(r, at)
    case Heartbeat(_, o, _, _) => r.leaseOwner == Some(o) && Active(r.status)
    case SetResolved(_, o, _) => r.leaseOwner == Some(o) && r.status == Resolving
    case SetStage(_, o, _, p, _) => r.leaseOwner == Some(o) && 0 <= p <= 100
    case CompleteInfo(_, _) => r.status == Resolving
    case CompleteDownload(_, o, _) => r.leaseOwner == Some(o) && r.status == Downloading
    case CompleteTranscription(_, o, _) => r.leaseOwner == Some(o) && r.status == Postprocessing
    case RetryLater(_, o, _, _, _) => r.leaseOwner == Some(o)
    case CancelOwned(_, o, _) => r.leaseOwner == Some(o)
    case Fail(_, _, _) => true
    case Cancel(_, u, _) => r.user == u && Waiting(r.status)
    case Retry(_, u, _) => r.user == u && (r.status == Failed || r.status == Cancelled)
  }

  function Release(r: Row): Row {
    r.(leaseOwner := None, leaseExpires := None, heartbeat := None)
  }

  function Effect(q: Stmt, r: Row): Row {
    match q
    case Claim(_, o, at, lease) =>
      r.(status := Resolving, progress := 5, attempts := r.attempts + 1, leaseOwner := Some(o),
         leaseExpires := Some(at + lease), heartbeat := Some(at),
         startedAt := if r.startedAt.Some? then r.startedAt else Some(at), retryAt := None, updatedAt := at)
    case Heartbeat(_, o, at, lease) =>
      r.(heartbeat := Some(at), leaseExpires := Some(at + lease), updatedAt := at)
    case SetResolved(_, o, at) => r.(status := Downloading, progress := 30, updatedAt := at)
    case SetStage(_, o, s, p, at) => r.(status := s, progress := p, updatedAt := at)
    case CompleteInfo(_, at) => r.(status := Completed, progress := 100, completedAt := Some(at), updatedAt := at)
    case CompleteDownload(_, o, at) =>
      Release(r).(status := Completed, progress := 100, completedAt := Some(at), errorCode := None, updatedAt := at)
    case CompleteTranscription(_, o, at) =>
      Release(r).(status := Completed, progress := 100, completedAt := Some(at), errorCode := None, updatedAt := at)
    case RetryLater(_, o, code, retryAt, at) =>
      if r.attempts >= r.maxAttempts then
        Release(r).(status := Failed, progress := 100, errorCode := Some(code), retryAt := None,
                    completedAt := Some(at), updatedAt := at)
      else
        Release(r).(status := RetryWait, errorCode := Some(code), retryAt := Some(retryAt),
                    completedAt := None, updatedAt := at)
    case CancelOwned(_, o, at) =>
      Release(r).(status := Cancelled, progress := 100, cancelRequestedAt := Some(at), completedAt := Some(at),
                  updatedAt := at)
    case Fail(_, code, at) =>
      Release(r).(status := Failed, progress := 100, errorCode := Some(code), completedAt := Some(at), updatedAt := at)
    case Cancel(_, u, at) =>
      r.(status := Cancelled, progress := 100, cancelRequestedAt := Some(at), completedAt := Some(at),
         leaseOwner := None, leaseExpires := None, updatedAt := at)
    case Retry(_, u, at) =>
      r.(status := Queued, progress := 0, attempts := 0, errorCode := None, completedAt := None, retryAt := None,
         cancelRequestedAt := None, updatedAt := at)
  }

  predicate Hits(q: Stmt, t: Table) { q.id in t && Guard(q, t[q.id]) }

  // The table after a single-row statement.
  function Exec(q: Stmt, t: Table): Table {
    if Hits(q, t) then t[q.id := Effect(q, t[q.id])] else t
  }

  // ORDER BY created_at LIMIT 1: equal times leave the choice open.
  ghost predicate IsNext(t: Table, id: JobId, now: int) {
    id in t && Eligible(t[id], now)
    && forall k :: k in t && Eligible(t[k], now) ==> t[id].createdAt <= t[k].createdAt
  }

  predicate OpenTask(calls: Calls, j: JobId) {
    exists c :: c in calls && calls[c].job == j && calls[c].task.Some?
                && (calls[c].status == Submitted || calls[c].status == Running)
  }

  predicate Expired(r: Row, now: int) { r.leaseExpires.Some? && r.leaseExpires.value < now }

  // First statement of Recover.
  function RecoverAsrRow(r: Row, open: bool, now: int): Row {
    if r.status == Transcribing && Expired(r, now) && open then
      Release(r).(status := Failed, progress := 100, errorCode := Some(ASR_RECOVERY_REQUIRED),
                  completedAt := Some(now), updatedAt := now)
    else r
  }

  // Second statement of Recover.
  function RecoverRow(r: Row, now: int): Row {
    if Active(r.status) && Expired(r, now) then
      if r.attempts >= r.maxAttempts then
        Release(r).(status := Failed, progress := 100, errorCode := Some(JOB_RECOVERY_EXHAUSTED),
                    completedAt := Some(now), updatedAt := now)
      else
        Release(r).(status := Queued, progress := 0, completedAt := None, updatedAt := now)
    else r
  }

  function ExhaustRow(r: Row, at: int): Row {
    if Waiting(r.status) && r.attempts >= r.maxAttempts then
      r.(status := Failed, progress := 100, errorCode := Some(JOB_RETRY_EXHAUSTED), completedAt := Some(at),
         updatedAt := at)
    else r
  }

  function RecoverAsr(t: Table, calls: Calls, now: int): Table {
    map j | j in t :: RecoverAsrRow(t[j], OpenTask(calls, j), now)
  }

  function RecoverRest(t: Table, now: int): Table { map j | j in t :: RecoverRow(t[j], now) }

  function Exhaust(t: Table, at: int): Table { map j | j in t :: ExhaustRow(t[j], at) }

  // Delete takes the user's job and its ledger rows, or nothing.
  function DeletedFrom(t: Table, id: JobId, user: UserId): Table {
    if id in t && t[id].user == user then t - {id} else t
  }

  function CallsLeft(t: Table, calls: Calls, id: JobId, user: UserId): Calls {
    if id in t && t[id].user == user then map c | c in calls && calls[c].job != id :: calls[c] else calls
  }

  // The row that INSERT stores: queued for a download, resolving at 10 percent for an info request.
  function NewRow(user: UserId, action: Action, at: int): Row {
    var info := action == Info;
    Row(user, action, if info then Resolving else Queued, if info then 10 else 0, 0, DEFAULT_MAX_ATTEMPTS,
        None, None, None, None, at, if info then Some(at) else None, None, None, None, at)
  }

  // ---------- What every stored row satisfies ----------

  // An info job between its INSERT and the end of its HTTP request.
  predicate InfoWindow(r: Row) {
    r.action == Info && r.status == Resolving && r.leaseOwner == None && r.errorCode == None && r.attempts == 0
  }

  predicate RowOk(r: Row) {
    && (Terminal(r.status) <==> r.progress == 100)
    && (Terminal(r.status) <==> r.completedAt.Some?)
    && 0 <= r.progress <= 100
    && (r.leaseOwner.Some? <==> r.leaseExpires.Some?)
    && (r.leaseOwner.Some? <==> r.heartbeat.Some?)
    && (r.leaseOwner.Some? ==> Active(r.status))
    && (Active(r.status) ==> r.leaseOwner.Some? || InfoWindow(r))
    && (r.status == RetryWait ==> r.retryAt.Some? && r.errorCode.Some?)
    && (r.status == Queued || Active(r.status) ==> r.retryAt == None)
    && (r.status == Completed ==> r.errorCode == None)
    && (r.status == Failed ==> r.errorCode.Some?)
    && (r.status == Cancelled ==> r.cancelRequestedAt.Some?)
    && (r.cancelRequestedAt.Some? ==> r.status == Cancelled || r.status == Failed)
    && r.maxAttempts == DEFAULT_MAX_ATTEMPTS
    && 0 <= r.attempts <= r.maxAttempts
    && (Waiting(r.status) ==> r.attempts < r.maxAttempts)
    && (r.leaseOwner.Some? ==> r.attempts > 0 && r.startedAt.Some?)
  }

  // The arguments with which the worker calls SetStage.
  predicate StageArgs(s: Status, p: int) {
    (s == Downloading || s == Extracting || s == Transcribing || s == Postprocessing) && 0 <= p < 100
  }

  // What a caller of a statement keeps to; every other statement may come at any time.
  predicate Disciplined(q: Stmt, r: Row) {
    match q
    case SetStage(_, _, s, p, _) => StageArgs(s, p)
    case CompleteInfo(_, _) => InfoWindow(r)
    case _ => true
  }

  lemma RunningKeepsRowOk(q: Stmt, r: Row)
    requires RowOk(r) && Guard(q, r) && Disciplined(q, r)
    requires q.Claim? || q.Heartbeat? || q.SetResolved? || q.SetStage? || q.Retry? || q.RetryLater?
    ensures RowOk(Effect(q, r))
  {
  }

  lemma EndingKeepsRowOk(q: Stmt, r: Row)
    requires RowOk(r) && Guard(q, r) && Disciplined(q, r)
    requires q.CompleteInfo? || q.CompleteDownload? || q.CompleteTranscription? || q.CancelOwned? || q.Fail? || q.Cancel?
    ensures RowOk(Effect(q, r))
  {
  }

  /** A single-row statement keeps the record sound. SetStage asks its caller for an active stage below 100 percent and
      CompleteInfo for a job in its info window; the ten others may meet any row at any time. */
  lemma StmtKeepsRowOk(q: Stmt, r: Row)
    requires RowOk(r) && Guard(q, r) && Disciplined(q, r)
    ensures RowOk(Effect(q, r))
  {
    if q.Claim? || q.Heartbeat? || q.SetResolved? || q.SetStage? || q.Retry? || q.RetryLater? {
      RunningKeepsRowOk(q, r);
    } else {
      EndingKeepsRowOk(q, r);
    }
  }

  /** Each of the two conditions is needed: SetStage keeps a leased row sound exactly for an active status below 100
      percent. */
  lemma SetStageNeedsStageArgs(q: Stmt, r: Row)
    requires q.SetStage? && RowOk(r) && Guard(q, r)
    ensures RowOk(Effect(q, r)) <==> Active(q.status) && q.progress < 100
  {
  }

  /** CompleteInfo has no lease clause: it leaves a sound record exactly for a job still in its info window. */
  lemma CompleteInfoNeedsInfoWindow(q: Stmt, r: Row)
    requires q.CompleteInfo? && RowOk(r) && Guard(q, r)
    ensures RowOk(Effect(q, r)) <==> r.leaseOwner == None
  {
    assert r.leaseOwner == None ==> InfoWindow(r);
  }

  // Every stored row is sound.
  predicate SoundTable(t: Table) { forall j :: j in t ==> RowOk(t[j]) }

  lemma ExecKeepsSound(q: Stmt, t: Table)
    requires SoundTable(t) && (Hits(q, t) ==> Disciplined(q, t[q.id]))
    ensures SoundTable(Exec(q, t))
  {
    if Hits(q, t) {
      StmtKeepsRowOk(q, t[q.id]);
    }
  }

  /** What a statement may not touch: whose job it is, what it does, when it was created and first started. Attempts
      are counted by claims alone and cleared by a user retry alone. */
  lemma StmtFrame(q: Stmt, r: Row)
    requires Guard(q, r)
    ensures var r' := Effect(q, r);
      && r'.user == r.user && r'.action == r.action && r'.createdAt == r.createdAt && r'.maxAttempts == r.maxAttempts
      && (r.startedAt.Some? ==> r'.startedAt == r.startedAt)
      && r'.attempts == (if q.Retry? then 0 else if q.Claim? then r.attempts + 1 else r.attempts)
      && r'.updatedAt == q.at
  {
  }

  /** A heartbeat of the owner renews the lease from its own moment: the row is not overdue, and Recover leaves it as it
      is, at any moment up to one lease later, and nothing but the lease and the stamp changes. */
  lemma HeartbeatRenews(r: Row, id: JobId, o: Owner, at: int, lease: int, open: bool, now: int)
    requires RowOk(r) && r.leaseOwner == Some(o)
    ensures var q := Stmt.Heartbeat(id, o, at, lease); Guard(q, r) && var r' := Effect(q, r);
      && r'.heartbeat == Some(at) && r'.leaseExpires == Some(at + lease)
      && r' == r.(heartbeat := r'.heartbeat, leaseExpires := r'.leaseExpires, updatedAt := at)
      && (now <= at + lease ==> RecoverAsrRow(r', open, now) == r' && RecoverRow(r', now) == r')
      && (at + lease < now ==> RecoverRow(r', now) != r')
  {
  }

  /** A claim starts a lease of the whole length: until it runs out Recover leaves the row as it is, nobody can claim
      it, and no other owner's statement meets it. */
  lemma ClaimLeases(r: Row, id: JobId, o: Owner, at: int, lease: int, open: bool, now: int, q: Stmt)
    requires RowOk(r) && Eligible(r, at)
    ensures var r' := Effect(Stmt.Claim(id, o, at, lease), r);
      && r'.leaseOwner == Some(o) && r'.heartbeat == Some(at) && r'.leaseExpires == Some(at + lease)
      && r'.status == Resolving && r'.progress == 5 && r'.attempts == r.attempts + 1 && r'.startedAt.Some?
      && !Eligible(r', now)
      && (now <= at + lease ==> RecoverAsrRow(r', open, now) == r' && RecoverRow(r', now) == r')
      && (OwnerGuarded(q) && q.owner != o ==> !Guard(q, r'))
  {
  }

  /** A cancel or a retry of another user meets no row. */
  lemma OtherUsersJobs(q: Stmt, t: Table, j: JobId)
    requires (q.Cancel? || q.Retry?) && j in t && t[j].user != q.user
    ensures j in Exec(q, t) && Exec(q, t)[j] == t[j]
  {
  }

  /** When a job can be claimed again: after RetryLater from its retry time on, if attempts are left, and otherwise
      never; after a user retry at once; after a cancel or a failure not at all. */
  lemma ClaimableAfter(q: Stmt, r: Row, now: int)
    requires RowOk(r) && Guard(q, r)
    ensures q.RetryLater? ==> (Eligible(Effect(q, r), now) <==> r.attempts < r.maxAttempts && q.retryAt <= now)
    ensures q.Retry? ==> Eligible(Effect(q, r), now)
    ensures q.Cancel? || q.CancelOwned? || q.Fail? ==> !Eligible(Effect(q, r), now)
  {
  }

  lemma SweepsKeepRowOk(r: Row, open: bool, now: int)
    requires RowOk(r)
    ensures RowOk(RecoverAsrRow(r, open, now))
    ensures RowOk(RecoverRow(r, now))
    ensures ExhaustRow(r, now) == r
  {
  }

  // The rows that the second statement of Recover hits.
  function ExpiredJobs(t: Table, now: int): set<JobId> { set j | j in t && Active(t[j].status) && Expired(t[j], now) }

  lemma RecoverAsrKeepsSound(t: Table, calls: Calls, now: int)
    requires SoundTable(t)
    ensures SoundTable(RecoverAsr(t, calls, now))
  {
    forall j | j in t ensures RowOk(RecoverAsrRow(t[j], OpenTask(calls, j), now)) {
      SweepsKeepRowOk(t[j], OpenTask(calls, j), now);
    }
  }

  lemma RecoverRestKeepsSound(t: Table, now: int)
    requires SoundTable(t)
    ensures SoundTable(RecoverRest(t, now))
  {
    forall j | j in t ensures RowOk(RecoverRow(t[j], now)) {
      SweepsKeepRowOk(t[j], false, now);
    }
  }

  /** Recover puts a leased job back in the queue exactly when its lease ran out, it has attempts left, and it is
      not a transcription with an open provider task; such a task ends the job; other rows stay as they are. */
  lemma RecoverExactly(t: Table, calls: Calls, now: int, j: JobId)
    requires j in t && RowOk(t[j])
    ensures var t' := RecoverRest(RecoverAsr(t, calls, now), now); var r := t[j];
      && t'.Keys == t.Keys
      && (Active(r.status) && t'[j].status == Queued <==>
            Active(r.status) && Expired(r, now) && r.attempts < r.maxAttempts
            && !(r.status == Transcribing && OpenTask(calls, j)))
      && (r.status == Transcribing && Expired(r, now) && OpenTask(calls, j) ==>
            t'[j].status == Failed && t'[j].errorCode == Some(ASR_RECOVERY_REQUIRED))
      && (t'[j] != r ==> Active(r.status) && Expired(r, now))
      && RowOk(t'[j])
  {
    var asr := RecoverAsrRow(t[j], OpenTask(calls, j), now);
    assert RecoverAsr(t, calls, now)[j] == asr;
    assert RecoverRest(RecoverAsr(t, calls, now), now)[j] == RecoverRow(asr, now);
    SweepsKeepRowOk(t[j], OpenTask(calls, j), now);
    SweepsKeepRowOk(asr, OpenTask(calls, j), now);
  }
}
