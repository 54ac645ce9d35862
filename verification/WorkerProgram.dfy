/**
 The worker program for one claimed job, over the job repository.

 Everything the program cannot control (resolver, downloads, FFmpeg, provider, files, clock, and the statements of
 everyone else on the table) is an arbitrary outcome. The program records the repository writes it makes; the
 contracts say which writes can occur in which order whatever the outcomes are.
 */
module WorkerPrograms {
  import opened Wrappers
  import opened JobTable
  import opened JobRepositories
  import opened WorkerPhases
  import opened WorkerWrites

  // The errors that the program tells apart.
  datatype Cause =
    | Canceled | AsrAuth | BudgetExceeded | InputRejected | InvalidShareLink | WorkUnavailable | VideoRequired
    | TooLarge | FFmpegFailed | LostLease | AnyOther

  datatype Picture = Picture(hasUrl: bool)
  datatype Work = Work(video: bool, hasVideoUrl: bool, note: bool, pictures: seq<Picture>) {
    predicate IsVideo() { video && hasVideoUrl }
  }

  // failedWith: which causes end the job at once. Any other cause but a cancel schedules a retry.
  predicate Permanent(cause: Cause, attempts: int) {
    cause == AsrAuth || cause == BudgetExceeded || cause == InputRejected || cause == InvalidShareLink
    || cause == WorkUnavailable || cause == VideoRequired || cause == TooLarge
    || (cause == FFmpegFailed && attempts >= 2)
  }

  /** A cancel, a lost lease, any other error, and FFmpeg's first failure leave the job another attempt. */
  lemma PermanentExactly(cause: Cause, attempts: int)
    ensures !Permanent(cause, attempts) <==>
      cause in {Canceled, LostLease, AnyOther} || (cause == FFmpegFailed && attempts < 2)
  {
  }

  // What the repository, the files and the identifiers can fail with.
  predicate Plain(cause: Cause) { cause == Canceled || cause == LostLease || cause == AnyOther }

  function ReleaseFor(cause: Cause, attempts: int): Write {
    if cause == Canceled then WCancelOwned else if Permanent(cause, attempts) then WFail else WRetryLater
  }

  class Worker {
    const repo: JobRepository
    const id: JobId
    const owner: Owner
    const attempts: int        // attempt_count of the claimed row
    var log: seq<Write>        // writes for the claimed job
    ghost var past: seq<Moment>  // the tables that each of them met and left
    var stored: nat            // pictures stored for it

    constructor (repo: JobRepository, id: JobId, owner: Owner, attempts: int)
      ensures log == [] && past == [] && stored == 0
      ensures this.repo == repo && this.id == id && this.owner == owner && this.attempts == attempts
    {
      this.repo, this.id, this.owner, this.attempts := repo, id, owner, attempts;
      log, past, stored := [], [], 0;
    }

    // The stored rows are sound, and every write of the log is what ran on the table.
    ghost predicate Ready()
      reads this`log, this`past, repo`rows
    {
      repo.Valid() && AllRan(id, owner, log, past)
    }

    function Stands(): Option<Mode>
      reads this`log
    {
      After(attempts, log)
    }

    predicate Unfinished()
      reads this`log
    {
      Open(attempts, log)
    }

    // The program can still make the release that the cause calls for.
    predicate Releasable(cause: Cause)
      reads this`log
    {
      Unfinished() && Drive(attempts, Stands().value, ReleaseFor(cause, attempts)).Some?
    }

    // The program can return this error: it gave nothing back, or the last write is the release that the error calls
    // for.
    predicate Returnable(cause: Cause)
      reads this`log
    {
      Unfinished()
      && (Stands().value.At? || Stands().value.Over? || (log != [] && log[|log| - 1] == ReleaseFor(cause, attempts)))
    }

    // The last write, and only it, completed the job, and no write released it.
    predicate Finished()
      reads this`log
    {
      Stands().Some? && |log| > 0 && Completion(log[|log| - 1]) && OnlyStages(log[..|log| - 1])
    }

    // The job is at stage p: every write found its row and went forward.
    predicate Holds(p: Phase)
      reads this`log
    {
      Unfinished() && Stands() == Some(At(p)) && PhaseOk(p) && OnlyStages(log)
    }

    // The job is this owner's at the given stage.
    predicate Shows(status: Status, progress: int)
      reads repo`rows
    {
      HeldBy(repo.rows, id, owner) && repo.rows[id].status == status && repo.rows[id].progress == progress
    }

    // The job is stored as completed.
    predicate Stored()
      reads repo`rows
    {
      id in repo.rows && repo.rows[id].status == Completed
    }

    // A write that does not complete the job.
    method Record(w: Write, ghost m: Moment)
      requires Unfinished() && !Completion(w) && Drive(attempts, Stands().value, w).Some?
      requires AllRan(id, owner, log, past) && Ran(id, owner, w, m)
      modifies this`log, this`past
      ensures Unfinished() && log == old(log) + [w] && Stands() == Drive(attempts, old(Stands()).value, w)
      ensures old(OnlyStages(log)) && (w.WResolved? || w.WStage?) ==> OnlyStages(log)
      ensures AllRan(id, owner, log, past) && past == old(past) + [m]
    {
      WriteKeepsOpen(attempts, log, w);
      OneMoreRan(id, owner, log, past, w, m);
      log, past := log + [w], past + [m];
      assert log[..|log| - 1] == old(log);
    }

    // The write that completes the job.
    method RecordCompletion(w: Write, ghost p: Phase, ghost m: Moment)
      requires Holds(p) && Completion(w) && Drive(attempts, At(p), w).Some?
      requires AllRan(id, owner, log, past) && Ran(id, owner, w, m)
      modifies this`log, this`past
      ensures Finished() && log == old(log) + [w]
      ensures AllRan(id, owner, log, past) && past == old(past) + [m]
    {
      OneMoreRan(id, owner, log, past, w, m);
      log, past := log + [w], past + [m];
      assert log[..|log| - 1] == old(log);
    }

    // Outcomes that the program does not control: of the resolver, a download or the recognizer; of the repository
    // and the files; of FFmpeg.
    method Attempt() returns (err: Option<Cause>)
    {
      err := *;
    }

    method StoreAttempt() returns (err: Option<Cause>)
      ensures err.Some? ==> Plain(err.value)
    {
      err := *;
      if err.Some? && !Plain(err.value) {
        err := Some(AnyOther);
      }
    }

    method MediaAttempt() returns (err: Option<Cause>)
      ensures err.Some? ==> Plain(err.value) || err.value == FFmpegFailed
    {
      err := *;
      if err.Some? && !Plain(err.value) {
        err := Some(FFmpegFailed);
      }
    }

    method Happens() returns (b: bool)
    {
      b := *;
    }

    // The job is at no stage the program can write from, but nothing was released: a write missed its row, or was not
    // made at all.
    predicate Stuck(cause: Cause)
      reads this`log
    {
      Unfinished() && Plain(cause) && (Stands().value.At? || Stands().value.Over?)
    }

    // A stage write. It may not be made at all, for a cancelled context, and is then not recorded.
    method SetStage(status: Status, progress: int, q: Phase, ghost p: Phase) returns (err: Option<Cause>)
      requires Ready() && Holds(p) && PhaseNext(p, q) && !q.AtDownloading?
      requires status == StatusOf(q) && progress == ProgressOf(q)
      modifies this`log, this`past, repo`rows
      ensures Ready() && old(log) <= log
      ensures if err.None? then Holds(q) && log == old(log) + [WStage(status, progress, q, true)] else Stuck(err.value)
      ensures err.None? ==> Shows(status, progress)
    {
      err := StoreAttempt();
      if err.Some? {
        return;
      }
      repo.Others();
      var at: int := *;
      StageInRange(q);
      ghost var before := repo.rows;
      var r := repo.SetStage(id, owner, status, progress, at);
      Record(WStage(status, progress, q, r == Done), Moment(Args(at, "", 0), before, repo.rows));
      err := if r == Done then None else Some(LostLease);
    }

    method SetResolved() returns (err: Option<Cause>)
      requires Ready() && log == []
      modifies this`log, this`past, repo`rows
      ensures Ready()
      ensures if err.None? then Holds(AtDownloading) && log == [WResolved(true)] else Stuck(err.value)
      ensures err.None? ==> Shows(Downloading, 30)
      ensures err.Some? ==> log == [] || log == [WResolved(false)]
    {
      err := StoreAttempt();
      if err.Some? {
        return;
      }
      repo.Others();
      var at: int := *;
      ghost var before := repo.rows;
      var r := repo.SetResolved(id, owner, at);
      Record(WResolved(r == Done), Moment(Args(at, "", 0), before, repo.rows));
      err := if r == Done then None else Some(LostLease);
    }

    method CompleteDownload() returns (err: Option<Cause>)
      requires Ready() && Holds(AtDownloading)
      modifies this`log, this`past, repo`rows
      ensures Ready()
      ensures if err.None? then Finished() && Stored() && log == old(log) + [WDownloadDone(true)] else Stuck(err.value)
    {
      err := StoreAttempt();
      if err.Some? {
        return;
      }
      repo.Others();
      var at: int := *;
      ghost var before := repo.rows;
      var r := repo.CompleteDownload(id, owner, at);
      ghost var m := Moment(Args(at, "", 0), before, repo.rows);
      if r == Done {
        RecordCompletion(WDownloadDone(true), AtDownloading, m);
      } else {
        Record(WDownloadDone(false), m);
        err := Some(LostLease);
      }
    }

    method CompleteTranscription() returns (err: Option<Cause>)
      requires Ready() && Holds(AtPostprocessing)
      modifies this`log, this`past, repo`rows
      ensures Ready()
      ensures if err.None? then Finished() && Stored() && log == old(log) + [WTranscriptionDone(true)]
              else Stuck(err.value)
    {
      err := StoreAttempt();
      if err.Some? {
        return;
      }
      repo.Others();
      var at: int := *;
      ghost var before := repo.rows;
      var r := repo.CompleteTranscription(id, owner, at);
      ghost var m := Moment(Args(at, "", 0), before, repo.rows);
      if r == Done {
        RecordCompletion(WTranscriptionDone(true), AtPostprocessing, m);
      } else {
        Record(WTranscriptionDone(false), m);
        err := Some(LostLease);
      }
    }

    // The statement that gives the job back; whether it finds its row does not matter to the program.
    method Release(w: Write) returns (ghost m: Moment)
      requires repo.Valid() && !Reports(w)
      modifies repo`rows
      ensures repo.Valid() && Ran(id, owner, w, m) && m.before == old(repo.rows) && m.after == repo.rows
    {
      var at: int, retryAt: int, code: string := *, *, *;
      ghost var before := repo.rows;
      if w.WRetryLater? {
        var r := repo.RetryLater(id, owner, code, retryAt, at);
      } else if w.WCancelOwned? {
        var r := repo.CancelOwned(id, owner, at);
      } else {
        var r := repo.Fail(id, code, at);
      }
      m := Moment(Args(at, code, retryAt), before, repo.rows);
    }

    // A write that gives the job back without completing it. The table it meets is that of its moment.
    method LetGo(w: Write) returns (ghost m: Moment)
      requires Ready() && Unfinished() && !Reports(w)
      requires Drive(attempts, Stands().value, w).Some?
      modifies this`log, this`past, repo`rows
      ensures Ready() && Unfinished() && log == old(log) + [w] && past == old(past) + [m]
      ensures Stands() == Drive(attempts, old(Stands()).value, w)
      ensures Ran(id, owner, w, m) && m.after == repo.rows
    {
      repo.Others();
      m := Release(w);
      Record(w, m);
    }

    // What giving the job back for this cause does to the table.
    predicate GivenBack(cause: Cause, before: Table, after: Table) {
      && OnlyJob(before, after, id)
      && (cause == Canceled ==> if HeldBy(before, id, owner) then CalledOff(after[id]) else after == before)
      && (cause in {AsrAuth, BudgetExceeded, InputRejected, InvalidShareLink, WorkUnavailable, VideoRequired, TooLarge}
            || (cause == FFmpegFailed && attempts >= 2) ==>
            if id in before then GivenUp(after[id]) else after == before)
      && (cause in {LostLease, AnyOther} || (cause == FFmpegFailed && attempts < 2) ==>
            if HeldBy(before, id, owner) then Postponed(before[id], after[id]) else after == before)
    }

    lemma ReleaseOfCause(cause: Cause, m: Moment)
      requires Ran(id, owner, ReleaseFor(cause, attempts), m)
      ensures GivenBack(cause, m.before, m.after)
    {
      ReleaseInRows(id, owner, ReleaseFor(cause, attempts), m);
    }

    /** The release that the cause of the failure calls for. A cancel cancels the row of the owner, the seven permanent
        causes and a second FFmpeg failure fail the job, and every other cause postpones it while attempts are left.
        reached is whether the statement got to the table; m is what it met and left there. */
    method FailedWith(cause: Cause) returns (err: Option<Cause>, ghost reached: bool, ghost m: Moment)
      requires Ready() && Releasable(cause)
      modifies this`log, this`past, repo`rows
      ensures Ready() && Returnable(cause) && err == Some(cause)
      ensures log == if reached then old(log) + [ReleaseFor(cause, attempts)] else old(log)
      ensures if reached then past == old(past) + [m] && m.after == repo.rows && GivenBack(cause, m.before, m.after)
              else past == old(past) && repo.rows == old(repo.rows)
    {
      var broken := Happens();
      err, reached, m := Some(cause), !broken, Moment(Args(0, "", 0), repo.rows, repo.rows);
      if broken {
        return;
      }
      if cause == Canceled {
        m := LetGo(WCancelOwned);
      } else if cause == AsrAuth || cause == BudgetExceeded || cause == InputRejected || cause == InvalidShareLink
                || cause == WorkUnavailable || cause == VideoRequired || cause == TooLarge {
        m := LetGo(WFail);
      } else if cause == FFmpegFailed && attempts >= 2 {
        m := LetGo(WFail);
      } else {
        m := LetGo(WRetryLater);
      }
      ReleaseOfCause(cause, m);
    }

    method Failed(cause: Cause) returns (err: Option<Cause>)
      requires Ready() && Releasable(cause)
      modifies this`log, this`past, repo`rows
      ensures Ready() && Returnable(cause) && err == Some(cause)
      ensures log == old(log) || log == old(log) + [ReleaseFor(cause, attempts)]
    {
      ghost var reached, m;
      err, reached, m := FailedWith(cause);
    }

    // One picture: a stage write, then a download that may fail without failing the job.
    method DownloadPicture(index: nat, total: nat, ghost p: Phase) returns (err: Option<Cause>)
      requires Ready() && index < total && Holds(p) && PhaseNext(p, AtImage(index, total))
      modifies this, repo`rows
      ensures Ready() && old(stored) <= stored
      ensures if err.None? then Holds(AtImage(index, total)) else Returnable(err.value)
    {
      err := SetStage(Downloading, 30 + index * 45 / total, AtImage(index, total), p);
      if err.Some? {
        var cancelled := Happens();
        if cancelled {
          return Some(Canceled);
        }
        err := Failed(err.value);
        return;
      }
      var failed := Happens();
      if failed {
        var cancelled := Happens();
        return if cancelled then Some(Canceled) else None;
      }
      stored := stored + 1;
    }

    method DownloadPictures(pictures: seq<Picture>) returns (err: Option<Cause>, ghost p: Phase)
      requires Ready() && pictures != [] && Holds(AtDownloading) && stored == 0
      modifies this, repo`rows
      ensures Ready()
      ensures if err.None? then Holds(p) && PhaseNext(p, AtPostprocessing) && stored > 0 else Returnable(err.value)
    {
      p := AtDownloading;
      for index := 0 to |pictures|
        invariant Ready()
        invariant Holds(p) && (p.AtDownloading? || (p.AtImage? && p.total == |pictures| && p.index < index))
      {
        var cancelled := Happens();
        if cancelled {
          return Some(Canceled), p;
        }
        if pictures[index].hasUrl {
          err := DownloadPicture(index, |pictures|, p);
          if err.Some? {
            return;
          }
          p := AtImage(index, |pictures|);
        }
      }
      if stored == 0 {
        err := Failed(AnyOther);
        return;
      }
      // Music is optional: only a cancel during its download ends the run. Then the step record is closed.
      err := StoreAttempt();
    }

    /** A note with pictures completes only after at least one of them was stored, and a note always by way of
        postprocessing. */
    method ProcessNote(work: Work) returns (err: Option<Cause>)
      requires Ready() && Holds(AtDownloading) && stored == 0
      modifies this, repo`rows
      ensures Ready()
      ensures if err.None? then Finished() && Stored() else Returnable(err.value)
      ensures err.None? ==> EndsWith(log, RESULT_END) && (work.pictures != [] ==> stored > 0)
    {
      ghost var p := AtDownloading;
      if work.pictures != [] {
        err := StoreAttempt();
        if err.Some? {
          return;
        }
        err, p := DownloadPictures(work.pictures);
        if err.Some? {
          return;
        }
      }
      err := Conclude(p);
    }

    // Postprocessing, the result files, and the completion.
    method Conclude(ghost p: Phase) returns (err: Option<Cause>)
      requires Ready() && Holds(p) && PhaseNext(p, AtPostprocessing)
      modifies this`log, this`past, repo`rows
      ensures Ready()
      ensures if err.None? then Finished() && Stored() && log == old(log) + RESULT_END else Stuck(err.value)
    {
      err := SetStage(Postprocessing, 90, AtPostprocessing, p);
      if err.Some? {
        return;
      }
      err := StoreAttempt();
      if err.Some? {
        return;
      }
      err := CompleteTranscription();
    }

    // The provider calls back any number of times while it works on segment index; the first error ends the call.
    method TranscribeSegment(index: nat, total: nat, ghost p: Phase) returns (err: Option<Cause>, ghost q: Phase)
      requires Ready() && index < total && Holds(p) && p.AtTranscribing? && p.total == total && p.done <= index
      modifies this`log, this`past, repo`rows
      ensures Ready() && old(log) <= log
      ensures if err.None? then Holds(q) && q.AtTranscribing? && q.total == total && q.done <= index + 1
              else Releasable(err.value)
    {
      q := p;
      err := None;
      var wanted: int := *;
      for k := 0 to if wanted < 0 then 0 else wanted
        invariant Ready() && old(log) <= log
        invariant Holds(q) && q.AtTranscribing? && q.total == total && q.done <= index + 1
      {
        err := Report(index, total, q);
        if err.Some? {
          return;
        }
        q := AtTranscribing(index + 1, total);
      }
      err := Attempt();
    }

    // One progress report of segment index.
    method Report(index: nat, total: nat, ghost q: Phase) returns (err: Option<Cause>)
      requires Ready() && index < total && Holds(q)
      requires q.AtTranscribing? && q.total == total && q.done <= index + 1
      modifies this`log, this`past, repo`rows
      ensures Ready() && old(log) <= log
      ensures if err.None? then Holds(AtTranscribing(index + 1, total)) else Releasable(err.value)
    {
      var current := index + 1;
      err := SetStage(Transcribing, 70 + current * 19 / total, AtTranscribing(current, total), q);
    }

    method StartExtraction() returns (err: Option<Cause>)
      requires Ready() && Holds(AtDownloading)
      modifies this`log, this`past, repo`rows
      ensures Ready()
      ensures if err.None? then Holds(AtExtracting) && log == old(log) + [WStage(Extracting, 55, AtExtracting, true)]
              else Releasable(err.value)
    {
      err := StoreAttempt();
      if err.Some? {
        return;
      }
      err := SetStage(Extracting, 55, AtExtracting, AtDownloading);
    }

    // The stage before the first segment.
    method StartSegments(segments: nat) returns (err: Option<Cause>)
      requires Ready() && Holds(AtExtracting) && 0 < segments
      modifies this`log, this`past, repo`rows
      ensures Ready()
      ensures if err.None?
              then Holds(AtTranscribing(0, segments))
                   && log == old(log) + [WStage(Transcribing, 70, AtTranscribing(0, segments), true)]
              else Releasable(err.value)
    {
      err := MediaAttempt();
      if err.Some? {
        return;
      }
      assert 0 * 19 / segments == 0;
      err := SetStage(Transcribing, 70, AtTranscribing(0, segments), AtExtracting);
    }

    // The loop over the segments.
    method TranscribeSegments(segments: nat) returns (err: Option<Cause>, ghost q: Phase)
      requires Ready() && 0 < segments && Holds(AtTranscribing(0, segments))
      modifies this`log, this`past, repo`rows
      ensures Ready() && old(log) <= log
      ensures if err.None? then Holds(q) && q.AtTranscribing? else Releasable(err.value)
    {
      q := AtTranscribing(0, segments);
      err := None;
      for index := 0 to segments
        invariant Ready() && old(log) <= log
        invariant Holds(q) && q.AtTranscribing? && q.total == segments && q.done <= index
      {
        err := StoreAttempt();
        if err.Some? {
          return;
        }
        err, q := TranscribeSegment(index, segments, q);
        if err.Some? {
          return;
        }
      }
      err := None;
    }

    // The stages before the first segment.
    method StartTranscription(segments: nat) returns (err: Option<Cause>)
      requires Ready() && Holds(AtDownloading) && 0 < segments
      modifies this`log, this`past, repo`rows
      ensures Ready()
      ensures if err.None? then Holds(AtTranscribing(0, segments)) && log == old(log) + TranscriptionStart(segments)
              else Releasable(err.value)
    {
      err := StartExtraction();
      if err.Some? {
        return;
      }
      err := StartSegments(segments);
    }

    // Transcriber.Run on at least one segment.
    method Transcribe(segments: nat) returns (err: Option<Cause>)
      requires Ready() && Holds(AtDownloading) && 0 < segments
      modifies this`log, this`past, repo`rows
      ensures Ready()
      ensures if err.None? then Finished() && Stored() else Releasable(err.value)
      ensures err.None? ==> old(log) + TranscriptionStart(segments) <= log && EndsWith(log, RESULT_END)
    {
      err := StartTranscription(segments);
      if err.Some? {
        return;
      }
      ghost var q;
      err, q := TranscribeSegments(segments);
      if err.Some? {
        return;
      }
      ghost var before := log;
      err := Conclude(q);
      if err.None? {
        ResultAppended(old(log) + TranscriptionStart(segments), before, log);
      }
    }

    // What the log of a successful run looks like: the path that action and work call for.
    predicate OnPath(action: Action, work: Work, segments: nat)
      requires 0 < segments
      reads this
    {
      if work.IsVideo() then
        if action == Download then log == [WResolved(true), WDownloadDone(true)]
        else [WResolved(true)] + TranscriptionStart(segments) <= log && EndsWith(log, RESULT_END)
      else
        work.note && EndsWith(log, RESULT_END) && (work.pictures != [] ==> stored > 0)
    }

    // The last write gave the job back, and left its row as the cause calls for.
    ghost predicate GaveBack(cause: Cause)
      reads this`log, this`past
    {
      log != [] && past != [] && !Reports(log[|log| - 1])
      && GivenBack(cause, past[|past| - 1].before, past[|past| - 1].after)
    }

    // Every error is returned with nothing given back, or after the release it calls for.
    lemma ReturnedInRows(cause: Cause)
      requires AllRan(id, owner, log, past) && Returnable(cause)
      ensures Stands().value.At? || Stands().value.Over? || GaveBack(cause)
    {
      if log != [] && log[|log| - 1] == ReleaseFor(cause, attempts) {
        assert Ran(id, owner, log[|log| - 1], past[|log| - 1]);
        ReleaseOfCause(cause, past[|log| - 1]);
      }
    }

    /** One claimed job, whatever happens around it. Every write of the log is what ran on the table. Success means that
        the job is stored as completed, by exactly one completion, with no release, on the path that action and work
        call for. An error means no completion, and either nothing was given back or the last write left the row as the
        cause calls for. */
    method Process(action: Action, work: Work, transcriber: bool, segments: nat) returns (err: Option<Cause>)
      requires Ready() && log == [] && stored == 0 && 0 < segments
      modifies this, repo`rows
      ensures Ready()
      ensures if err.None? then Finished() && Stored() && OnPath(action, work, segments) else Unfinished()
      ensures err.Some? ==> Stands().value.At? || Stands().value.Over? || GaveBack(err.value)
      ensures !work.IsVideo() && !work.note && log != [] && log[0] == WResolved(true) ==> err == Some(VideoRequired)
      ensures work.IsVideo() && action != Download && !transcriber ==> err.Some?
    {
      err := ProcessJob(action, work, transcriber, segments);
      // The deferred cancel: the job's context was cancelled while the server goes on.
      var serving := Happens();
      if err == Some(Canceled) && serving {
        ghost var m := LetGo(WCancelOwned);
      }
      if err.Some? {
        ReturnedInRows(err.value);
      }
    }

    method ProcessJob(action: Action, work: Work, transcriber: bool, segments: nat) returns (err: Option<Cause>)
      requires Ready() && log == [] && stored == 0 && 0 < segments
      modifies this, repo`rows
      ensures Ready()
      ensures if err.None? then Finished() && Stored() && OnPath(action, work, segments) else Returnable(err.value)
      ensures !work.IsVideo() && !work.note && log != [] && log[0] == WResolved(true) ==> err == Some(VideoRequired)
      ensures work.IsVideo() && action != Download && !transcriber ==> err.Some?
    {
      err := Resolve();
      if err.Some? {
        return;
      }
      if !work.video || !work.hasVideoUrl {
        if work.note {
          err := ProcessNote(work);
          return;
        }
        err := Failed(VideoRequired);
        return;
      }
      err := ProcessVideo(action, work, transcriber, segments);
    }

    // A video: the download, and then its completion or the transcription.
    method ProcessVideo(action: Action, work: Work, transcriber: bool, segments: nat) returns (err: Option<Cause>)
      requires Ready() && Holds(AtDownloading) && log == [WResolved(true)] && work.IsVideo() && 0 < segments
      modifies this`log, this`past, repo`rows
      ensures Ready()
      ensures if err.None? then Finished() && Stored() && OnPath(action, work, segments) else Returnable(err.value)
      ensures action != Download && !transcriber ==> err.Some?
    {
      err := DownloadVideo();
      if err.Some? {
        return;
      }
      if action == Download {
        err := CompleteDownload();
        return;
      }
      if !transcriber {
        err := Failed(AsrAuth);
        return;
      }
      err := Transcribe(segments);
      if err.Some? {
        err := Failed(err.value);
      }
    }

    // The step record, the resolver, and the resolved write.
    method Resolve() returns (err: Option<Cause>)
      requires Ready() && log == []
      modifies this`log, this`past, repo`rows
      ensures Ready()
      ensures if err.None? then Holds(AtDownloading) && log == [WResolved(true)] else Returnable(err.value)
      ensures err.Some? ==> log == [] || log[0] != WResolved(true)
    {
      err := StoreAttempt();
      if err.Some? {
        return;
      }
      err := Attempt();
      if err.Some? {
        err := Failed(err.value);
        return;
      }
      err := StoreAttempt();
      if err.Some? {
        return;
      }
      err := SetResolved();
    }

    // The step record, the download, and the file record; only the download's own failures release the job.
    method DownloadVideo() returns (err: Option<Cause>)
      requires Ready() && Holds(AtDownloading)
      modifies this`log, this`past, repo`rows
      ensures Ready()
      ensures if err.None? then Holds(AtDownloading) && log == old(log) else Returnable(err.value)
    {
      err := StoreAttempt();
      if err.Some? {
        return;
      }
      err := Attempt();
      if err.Some? {
        err := Failed(err.value);
        return;
      }
      err := StoreAttempt();
    }
  }
}
