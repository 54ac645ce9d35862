/**
 The writes of the worker program for one claimed job: the automaton that says which may follow which, and the
 simulation that makes every accepted program a part of the machine of JobSystem.
 */
module WorkerWrites {
  import opened Wrappers
  import opened JobTable
  import opened WorkerPhases
  import opened JobSystem
  import opened JobRuns

  // A write of the worker; ok is whether it found its row. A stage write also names the stage it stands for.
  datatype Write =
    | WResolved(ok: bool)
    | WStage(status: Status, progress: int, phase: Phase, ok: bool)
    | WDownloadDone(ok: bool)
    | WTranscriptionDone(ok: bool)
    | WRetryLater
    | WCancelOwned
    | WFail

  // Where the program stands after its writes so far. Over: a write missed its row, or completed the job; the program
  // may only postpone or cancel. Cancelling: it has cancelled, and may do so once more. Released: it has postponed or
  // failed the job, and writes nothing more.
  datatype Mode = At(phase: Phase) | Over | Cancelling | Released

  // attempts is attempt_count of the claimed row, which decides whether FFmpeg can fail the job.
  function Drive(attempts: int, m: Mode, w: Write): Option<Mode> {
    match w
    case WResolved(ok) => if m == At(AtResolving) then Some(if ok then At(AtDownloading) else Over) else None
    case WStage(s, p, q, ok) =>
      if m.At? && PhaseNext(m.phase, q) && !q.AtDownloading? && s == StatusOf(q) && p == ProgressOf(q)
      then Some(if ok then At(q) else Over) else None
    case WDownloadDone(ok) => if m == At(AtDownloading) then Some(if ok then Released else Over) else None
    case WTranscriptionDone(ok) => if m == At(AtPostprocessing) then Some(if ok then Released else Over) else None
    case WRetryLater => if m.At? || m.Over? then Some(Released) else None
    case WCancelOwned => if m.Released? then None else Some(Cancelling)
    case WFail => if m.At? && CanFail(m.phase, attempts) then Some(Released) else None
  }

  function After(attempts: int, log: seq<Write>): Option<Mode> {
    if log == [] then Some(At(AtResolving))
    else
      match After(attempts, log[..|log| - 1])
      case None => None
      case Some(m) => Drive(attempts, m, log[|log| - 1])
  }

  // The stages that every transcription passes before its segments.
  function TranscriptionStart(segments: nat): seq<Write>
    requires 0 < segments
  {
    [WStage(Extracting, 55, AtExtracting, true), WStage(Transcribing, 70, AtTranscribing(0, segments), true)]
  }

  // The last two writes of a note or a transcription that succeeds.
  const RESULT_END: seq<Write> := [WStage(Postprocessing, 90, AtPostprocessing, true), WTranscriptionDone(true)]

  predicate EndsWith(log: seq<Write>, tail: seq<Write>) { |tail| <= |log| && log[|log| - |tail|..] == tail }

  lemma ResultAppended(start: seq<Write>, before: seq<Write>, after: seq<Write>)
    requires start <= before && after == before + RESULT_END
    ensures start <= after && EndsWith(after, RESULT_END)
  {
  }

  predicate Completion(w: Write) { w == WDownloadDone(true) || w == WTranscriptionDone(true) }

  // No write completed the job.
  predicate NotCompleted(log: seq<Write>) {
    log == [] || (NotCompleted(log[..|log| - 1]) && !Completion(log[|log| - 1]))
  }

  // Stage writes only.
  predicate OnlyStages(log: seq<Write>) {
    log == [] || (OnlyStages(log[..|log| - 1]) && (log[|log| - 1].WResolved? || log[|log| - 1].WStage?))
  }

  lemma {:induction false} StagesAt(log: seq<Write>, i: nat)
    requires OnlyStages(log) && i < |log|
    ensures log[i].WResolved? || log[i].WStage?
  {
    if i < |log| - 1 {
      StagesAt(log[..|log| - 1], i);
    }
  }

  // The automaton accepts the writes, and none of them completed the job.
  predicate Open(attempts: int, log: seq<Write>) { After(attempts, log).Some? && NotCompleted(log) }

  lemma WriteKeepsOpen(attempts: int, log: seq<Write>, w: Write)
    requires Open(attempts, log) && !Completion(w) && Drive(attempts, After(attempts, log).value, w).Some?
    ensures Open(attempts, log + [w]) && After(attempts, log + [w]) == Drive(attempts, After(attempts, log).value, w)
  {
    assert (log + [w])[..|log|] == log;
  }

  /** An accepted program completes its job at most once, and makes no write after that. */
  lemma CompletesOnce(attempts: int, log: seq<Write>, i: nat)
    requires After(attempts, log).Some? && i < |log| && Completion(log[i])
    ensures i == |log| - 1
  {
    if i < |log| - 1 {
      EndsAfter(attempts, log, i);
    }
  }

  // A completion, a postponement or a failure is the last write.
  predicate Final(w: Write) { Completion(w) || w.WRetryLater? || w.WFail? }

  lemma {:induction false} EndsAfter(attempts: int, log: seq<Write>, i: nat)
    requires After(attempts, log).Some? && i < |log| && Final(log[i])
    ensures i == |log| - 1 && After(attempts, log) == Some(Released)
    decreases |log|
  {
    if i < |log| - 1 {
      EndsAfter(attempts, log[..|log| - 1], i);
    }
  }

  /** A program that fails its job does so once, as its last write, and after no completion. */
  lemma FailsOnce(attempts: int, log: seq<Write>, i: nat, k: nat)
    requires After(attempts, log).Some? && i < |log| && log[i].WFail? && k < |log| && k != i
    ensures i == |log| - 1 && !Completion(log[k]) && !log[k].WFail? && !log[k].WRetryLater?
  {
    EndsAfter(attempts, log, i);
    if Final(log[k]) {
      EndsAfter(attempts, log, k);
    }
  }

  // ---------- What a write does to the table ----------

  // What a write carries besides its place in the program.
  datatype Args = Args(at: int, code: string, retryAt: int)

  // The statement that a write runs for job j.
  function StmtFor(j: JobId, o: Owner, w: Write, a: Args): Stmt {
    match w
    case WResolved(_) => Stmt.SetResolved(j, o, a.at)
    case WStage(s, p, _, _) => Stmt.SetStage(j, o, s, p, a.at)
    case WDownloadDone(_) => Stmt.CompleteDownload(j, o, a.at)
    case WTranscriptionDone(_) => Stmt.CompleteTranscription(j, o, a.at)
    case WRetryLater => Stmt.RetryLater(j, o, a.code, a.retryAt, a.at)
    case WCancelOwned => Stmt.CancelOwned(j, o, a.at)
    case WFail => Stmt.Fail(j, a.code, a.at)
  }

  predicate Reports(w: Write) { !w.WRetryLater? && !w.WCancelOwned? && !w.WFail? }

  // The table that a write met and the one it left.
  datatype Moment = Moment(args: Args, before: Table, after: Table)

  // The write is what ran: its own statement took the one table to the other, and its flag says whether it hit.
  predicate Ran(j: JobId, o: Owner, w: Write, m: Moment) {
    var q := StmtFor(j, o, w, m.args);
    m.after == Exec(q, m.before) && (Reports(w) ==> w.ok == Hits(q, m.before))
  }

  // Every write of a log is what ran.
  predicate AllRan(j: JobId, o: Owner, log: seq<Write>, past: seq<Moment>) {
    |log| == |past|
    && forall i {:trigger Ran(j, o, log[i], past[i])} :: 0 <= i < |log| ==> Ran(j, o, log[i], past[i])
  }

  lemma OneMoreRan(j: JobId, o: Owner, log: seq<Write>, past: seq<Moment>, w: Write, m: Moment)
    requires AllRan(j, o, log, past) && Ran(j, o, w, m)
    ensures AllRan(j, o, log + [w], past + [m])
  {
    var log', past' := log + [w], past + [m];
    forall i | 0 <= i < |log'| ensures Ran(j, o, log'[i], past'[i]) {
      if i < |log| {
        assert Ran(j, o, log[i], past[i]);
      }
    }
  }

  predicate HeldBy(t: Table, j: JobId, o: Owner) { j in t && t[j].leaseOwner == Some(o) }

  predicate Unleased(r: Row) { r.leaseOwner == None && r.leaseExpires == None && r.heartbeat == None }

  // No other row changes, and none comes or goes.
  predicate OnlyJob(before: Table, after: Table, j: JobId) {
    after.Keys == before.Keys && forall k :: k in before && k != j ==> after[k] == before[k]
  }

  predicate Postponed(r: Row, r': Row) {
    Unleased(r') && r'.errorCode.Some? &&
    if r.attempts < r.maxAttempts then r'.status == RetryWait && r'.retryAt.Some? && r'.progress == r.progress
    else r'.status == Failed && r'.progress == 100 && r'.completedAt.Some?
  }

  predicate GivenUp(r': Row) {
    Unleased(r') && r'.status == Failed && r'.progress == 100 && r'.errorCode.Some? && r'.completedAt.Some?
  }

  predicate CalledOff(r': Row) {
    Unleased(r') && r'.status == Cancelled && r'.progress == 100 && r'.completedAt.Some?
  }

  /** What the releases do to the row, column by column: a postponement keeps the progress and sets a retry time while
      attempts are left and fails the job otherwise, a failure fails it whoever holds it, a cancel cancels it; none but
      the failure touches a row that is not the owner's, and no other row is touched. */
  lemma ReleaseInRows(j: JobId, o: Owner, w: Write, m: Moment)
    requires Ran(j, o, w, m) && !Reports(w)
    ensures OnlyJob(m.before, m.after, j)
    ensures w.WRetryLater? && HeldBy(m.before, j, o) ==> Postponed(m.before[j], m.after[j])
    ensures w.WCancelOwned? && HeldBy(m.before, j, o) ==> CalledOff(m.after[j])
    ensures !w.WFail? && !HeldBy(m.before, j, o) ==> m.after == m.before
    ensures w.WFail? && j in m.before ==> GivenUp(m.after[j])
    ensures w.WFail? && j !in m.before ==> m.after == m.before
  {
  }

  /** The same for the writes that go forward: a flag says whether the row was the owner's at the stage before, a hit
      leaves the status and progress of the write, and a miss leaves the table. */
  lemma ProgressInRows(j: JobId, o: Owner, w: Write, m: Moment)
    requires Ran(j, o, w, m) && Reports(w)
    ensures OnlyJob(m.before, m.after, j) && (w.ok ==> HeldBy(m.before, j, o)) && (!w.ok ==> m.after == m.before)
    ensures w.WResolved? && w.ok ==> var r := m.after[j];
      m.before[j].status == Resolving && r.status == Downloading && r.progress == 30 && r.leaseOwner == Some(o)
    ensures w.WStage? && w.ok ==> var r := m.after[j];
      r.status == w.status && r.progress == w.progress && r.leaseOwner == Some(o)
    ensures w.WDownloadDone? && w.ok ==> m.before[j].status == Downloading
    ensures w.WTranscriptionDone? && w.ok ==> m.before[j].status == Postprocessing
    ensures (w.WDownloadDone? || w.WTranscriptionDone?) && w.ok ==> var r := m.after[j];
      r.status == Completed && r.progress == 100 && r.completedAt.Some? && r.errorCode == None && Unleased(r)
  {
  }

  // ---------- The simulation ----------

  // The machine step that a write of owner o is.
  function EventOf(o: Owner, w: Write, a: Args): Event {
    match w
    case WResolved(_) => Resolve(o, a.at)
    case WStage(_, _, q, _) => Stage(o, q, a.at)
    case WDownloadDone(_) => FinishDownload(o, a.at)
    case WTranscriptionDone(_) => FinishTranscription(o, a.at)
    case WRetryLater => Later(o, a.code, a.retryAt, a.at)
    case WCancelOwned => CancelOwn(o, a.at)
    case WFail => GiveUp(o, a.code, a.at)
  }

  // The write's flag says whether its statement finds its row now.
  predicate Truthful(s: Sys, o: Owner, w: Write, a: Args) {
    var q := StmtOf(s, EventOf(o, w, a));
    w.WRetryLater? || w.WCancelOwned? || w.WFail? || (q.Some? && w.ok == Hits(q.value, s.table))
  }

  // The run of o stands where the program stands, and is over exactly when the program is at no stage.
  predicate Sim(s: Sys, o: Owner, n: int, m: Mode) {
    o in s.runs && s.runs[o].attempts == n && s.runs[o].over == !m.At? && (m.At? ==> s.runs[o].phase == m.phase)
  }

  // The steps that move the run of o.
  predicate Controls(e: Event, o: Owner) { (e.ClaimNext? || e.EndRun? || RunWrites(e)) && e.owner == o }

  // The attempts that a run knows of after its claim.
  function ClaimedAttempts(s: Sys, e: Event): int
    requires e.ClaimNext?
  {
    if e.id in s.table then s.table[e.id].attempts + 1 else 0
  }

  lemma ClaimStarts(s: Sys, e: Event)
    requires e.ClaimNext?
    ensures Sim(Next(s, e), e.owner, ClaimedAttempts(s, e), At(AtResolving))
  {
  }

  /** Every write the automaton accepts, with a flag that is true to the table, is an enabled step of the machine with
      the write's own arguments, and takes the run to where the program stands next. */
  lemma WriteStep(s: Sys, o: Owner, n: int, m: Mode, w: Write, a: Args)
    requires Sim(s, o, n, m) && Drive(n, m, w).Some? && Truthful(s, o, w, a)
    ensures Enabled(s, EventOf(o, w, a)) && Sim(Next(s, EventOf(o, w, a)), o, n, Drive(n, m, w).value)
    ensures StmtOf(s, EventOf(o, w, a)) == Some(StmtFor(s.runs[o].job, o, w, a))
  {
  }

  /** A write that ran on the table of the machine is the machine's step: its flag is true and it leaves the same
      table. */
  lemma WriteIsStep(s: Sys, o: Owner, n: int, m: Mode, w: Write, x: Moment)
    requires Sim(s, o, n, m) && Drive(n, m, w).Some? && Ran(s.runs[o].job, o, w, x) && x.before == s.table
    ensures Truthful(s, o, w, x.args) && NextTable(s, EventOf(o, w, x.args)) == x.after
  {
    EventRuns(s, o, n, m, w, x.args);
  }

  lemma EventRuns(s: Sys, o: Owner, n: int, m: Mode, w: Write, a: Args)
    requires Sim(s, o, n, m) && Drive(n, m, w).Some?
    ensures StmtOf(s, EventOf(o, w, a)) == Some(StmtFor(s.runs[o].job, o, w, a))
  {
  }

  /** Any step of anyone else, and a heartbeat or a provider call of o itself, leaves the run where it stands. */
  lemma OtherStep(s: Sys, o: Owner, n: int, m: Mode, e: Event)
    requires Sim(s, o, n, m) && Enabled(s, e) && !Controls(e, o)
    ensures Sim(Next(s, e), o, n, m)
  {
  }

  // The program's own writes and everything else, in the order in which they reach the tables.
  datatype Move = Own(w: Write, a: Args) | Other(e: Event)

  function MoveEvent(o: Owner, v: Move): Event { if v.Own? then EventOf(o, v.w, v.a) else v.e }

  function Played(s: Sys, o: Owner, vs: seq<Move>): Sys {
    if vs == [] then s else Next(Played(s, o, vs[..|vs| - 1]), MoveEvent(o, vs[|vs| - 1]))
  }

  // The writes that the program made.
  function WritesOf(vs: seq<Move>): seq<Write> {
    if vs == [] then []
    else
      var front, v := WritesOf(vs[..|vs| - 1]), vs[|vs| - 1];
      if v.Own? then front + [v.w] else front
  }

  ghost predicate MoveOk(s: Sys, o: Owner, v: Move) {
    match v
    case Own(w, a) => Truthful(s, o, w, a)
    case Other(e) => Enabled(s, e) && !Controls(e, o)
  }

  ghost predicate Schedule(s: Sys, o: Owner, vs: seq<Move>) {
    vs == [] || (Schedule(s, o, vs[..|vs| - 1]) && MoveOk(Played(s, o, vs[..|vs| - 1]), o, vs[|vs| - 1]))
  }

  lemma MoveStep(s: Sys, o: Owner, n: int, m: Mode, v: Move)
    requires Sim(s, o, n, m) && MoveOk(s, o, v) && (v.Own? ==> Drive(n, m, v.w).Some?)
    ensures Enabled(s, MoveEvent(o, v))
    ensures Sim(Next(s, MoveEvent(o, v)), o, n, if v.Own? then Drive(n, m, v.w).value else m)
  {
    match v
    case Own(w, a) => WriteStep(s, o, n, m, w, a);
    case Other(e) => OtherStep(s, o, n, m, e);
  }

  lemma LastWrite(n: int, vs: seq<Move>)
    requires vs != [] && After(n, WritesOf(vs)).Some?
    ensures var front := vs[..|vs| - 1]; var v := vs[|vs| - 1];
      && After(n, WritesOf(front)).Some?
      && (v.Own? ==> After(n, WritesOf(vs)) == Drive(n, After(n, WritesOf(front)).value, v.w))
      && (v.Other? ==> WritesOf(vs) == WritesOf(front))
  {
    var front, v := WritesOf(vs[..|vs| - 1]), vs[|vs| - 1];
    if v.Own? {
      assert (front + [v.w])[..|front|] == front;
    }
  }

  lemma {:induction false} PlayOn(ss0: seq<Sys>, es0: seq<Event>, o: Owner, n: int, vs: seq<Move>)
      returns (ss: seq<Sys>, es: seq<Event>)
    requires Execution(ss0, es0) && Sim(ss0[|es0|], o, n, At(AtResolving))
    requires Schedule(ss0[|es0|], o, vs) && After(n, WritesOf(vs)).Some?
    ensures Execution(ss, es) && ss0 <= ss && es0 <= es && |es| == |es0| + |vs|
    ensures ss[|es|] == Played(ss0[|es0|], o, vs) && Sim(ss[|es|], o, n, After(n, WritesOf(vs)).value)
    decreases |vs|
  {
    if vs == [] {
      return ss0, es0;
    }
    var front, v := vs[..|vs| - 1], vs[|vs| - 1];
    LastWrite(n, vs);
    ss, es := PlayOn(ss0, es0, o, n, front);
    MoveStep(ss[|es|], o, n, After(n, WritesOf(front)).value, v);
    ss, es := Extend(ss, es, MoveEvent(o, v));
  }

  /** The theorems about executions cover the worker program. Let an execution end with a claim. However the writes of
      an accepted program on the claimed job are interleaved with the steps of everyone else, the whole is an execution
      of the machine, and the run stands where the program stands. */
  lemma ProgramsAreExecutions(ss0: seq<Sys>, es0: seq<Event>, o: Owner, vs: seq<Move>)
      returns (ss: seq<Sys>, es: seq<Event>)
    requires Execution(ss0, es0) && es0 != [] && es0[|es0| - 1].ClaimNext? && es0[|es0| - 1].owner == o
    requires Schedule(ss0[|es0|], o, vs)
    requires After(ClaimedAttempts(ss0[|es0| - 1], es0[|es0| - 1]), WritesOf(vs)).Some?
    ensures Execution(ss, es) && ss0 <= ss && es0 <= es && |es| == |es0| + |vs|
    ensures ss[|es|] == Played(ss0[|es0|], o, vs)
    ensures var n := ClaimedAttempts(ss0[|es0| - 1], es0[|es0| - 1]);
      Sim(ss[|es|], o, n, After(n, WritesOf(vs)).value)
  {
    var s, e := ss0[|es0| - 1], es0[|es0| - 1];
    StepAt(ss0, es0, |es0| - 1);
    ClaimStarts(s, e);
    ss, es := PlayOn(ss0, es0, o, ClaimedAttempts(s, e), vs);
  }
}
