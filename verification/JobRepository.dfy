/** The repository object: one method per SQL statement, each run in place on the stored rows. */
module JobRepositories {
  import opened Wrappers
  import opened JobTable

  datatype Outcome = Done | LeaseLost | NotFound | NotCancellable | NotRetryable | Rejected

  // The columns that name the holder of the job.
  predicate Leased(t: Table, id: JobId, owner: Owner) { id in t && t[id].leaseOwner == Some(owner) }

  predicate HasOpenTask(calls: Calls, j: JobId) {
    exists c :: c in calls && calls[c].job == j && calls[c].task.Some? && calls[c].status in {Submitted, Running}
  }

  // A working job whose lease has run out.
  predicate Overdue(r: Row, now: int) {
    r.status in {Resolving, Downloading, Extracting, Transcribing, Postprocessing}
    && r.leaseExpires.Some? && r.leaseExpires.value < now
  }

  class JobRepository {
    var rows: Table
    var calls: Calls

    ghost predicate Valid()
      reads this`rows
    {
      SoundTable(rows)
    }

    constructor ()
      ensures rows == map[] && calls == map[] && Valid()
    {
      rows, calls := map[], map[];
    }

    // refused: a constraint on other columns, such as the unique idempotency key, turns the insert down.
    method Create(id: JobId, user: UserId, action: Action, at: int, refused: bool) returns (r: Outcome)
      modifies this`rows
      ensures id in old(rows) || refused ==> r == Rejected && rows == old(rows)
      ensures id !in old(rows) && !refused ==> r == Done && rows == old(rows)[id := NewRow(user, action, at)]
      ensures id !in old(rows) && !refused ==> var row := rows[id];
        && row.user == user && row.action == action && row.createdAt == row.updatedAt == at
        && row.attempts == 0 && row.maxAttempts == 3 && row.leaseOwner == row.errorCode == None
        && row.leaseExpires == row.heartbeat == row.retryAt == row.completedAt == row.cancelRequestedAt == None
        && (action == Info ==> row.status == Resolving && row.progress == 10 && row.startedAt == Some(at))
        && (action != Info ==> row.status == Queued && row.progress == 0 && row.startedAt == None)
      ensures old(Valid()) ==> Valid()
    {
      if id in rows || refused {
        return Rejected;
      }
      var started := action == Info;
      var row := Row(user, action, Queued, 0, 0, DEFAULT_MAX_ATTEMPTS, None, None, None, None, at, None, None, None, None, at);
      if started {
        row := row.(status := Resolving, progress := 10, startedAt := Some(at));
      }
      rows := rows[id := row];
      r := Done;
    }

    // The inner query: an eligible row with the least created_at.
    method Earliest(now: int) returns (found: Option<JobId>)
      ensures found.None? ==> forall k :: k in rows ==> !Eligible(rows[k], now)
      ensures found.Some? ==> IsNext(rows, found.value, now)
    {
      found := None;
      var rest := rows.Keys;
      while rest != {}
        invariant rest <= rows.Keys
        invariant found.Some? ==> found.value in rows && Eligible(rows[found.value], now)
        invariant forall k :: k in rows && k !in rest && Eligible(rows[k], now) ==>
                                found.Some? && rows[found.value].createdAt <= rows[k].createdAt
        decreases rest
      {
        var k :| k in rest;
        rest := rest - {k};
        var r := rows[k];
        if (r.status == Queued || (r.status == RetryWait && r.retryAt.Some? && r.retryAt.value <= now))
           && r.attempts < r.maxAttempts
           && (found.None? || r.createdAt < rows[found.value].createdAt) {
          found := Some(k);
        }
      }
    }

    /** Picks an eligible row with the least created_at and leases it; says None only when no row is eligible. */
    method ClaimNext(owner: Owner, now: int, lease: int) returns (claimed: Option<JobId>)
      modifies this`rows
      ensures claimed.None? ==> rows == old(rows) && forall k :: k in rows ==> !Eligible(rows[k], now)
      ensures claimed.Some? ==> IsNext(old(rows), claimed.value, now)
      ensures claimed.Some? ==> rows == Exec(Stmt.Claim(claimed.value, owner, now, lease), old(rows))
      ensures claimed.Some? ==> claimed.value in old(rows) && var r := old(rows)[claimed.value];
        && (r.status == Queued || (r.status == RetryWait && r.retryAt.Some? && r.retryAt.value <= now))
        && r.attempts < r.maxAttempts
        && rows == old(rows)[claimed.value := r.(
             status := Resolving, progress := 5, attempts := r.attempts + 1, leaseOwner := Some(owner),
             leaseExpires := Some(now + lease), heartbeat := Some(now), retryAt := None, updatedAt := now,
             startedAt := if r.startedAt == None then Some(now) else r.startedAt)]
      ensures old(Valid()) ==> Valid()
    {
      claimed := Earliest(now);
      if claimed.Some? {
        LeaseRow(claimed.value, owner, now, lease);
      }
    }

    method LeaseRow(id: JobId, owner: Owner, now: int, lease: int)
      requires id in rows && Eligible(rows[id], now)
      modifies this`rows
      ensures rows == Exec(Stmt.Claim(id, owner, now, lease), old(rows))
      ensures old(Valid()) ==> Valid()
    {
      if SoundTable(rows) {
        ExecKeepsSound(Stmt.Claim(id, owner, now, lease), rows);
      }
      rows := rows[id := LeasedRow(rows[id], id, owner, now, lease)];
    }

    // The SET list of the claim.
    static function LeasedRow(r: Row, id: JobId, owner: Owner, now: int, lease: int): (r': Row)
      ensures r' == Effect(Stmt.Claim(id, owner, now, lease), r)
    {
      r.(status := Resolving, progress := 5, attempts := r.attempts + 1, leaseOwner := Some(owner),
         leaseExpires := Some(now + lease), heartbeat := Some(now),
         startedAt := if r.startedAt.Some? then r.startedAt else Some(now), retryAt := None, updatedAt := now)
    }

    method Heartbeat(id: JobId, owner: Owner, now: int, lease: int) returns (r: Outcome)
      modifies this`rows
      ensures rows == Exec(Stmt.Heartbeat(id, owner, now, lease), old(rows))
      ensures r == if Hits(Stmt.Heartbeat(id, owner, now, lease), old(rows)) then Done else LeaseLost
      ensures r == Done <==> Leased(old(rows), id, owner) && Active(old(rows)[id].status)
      ensures rows == if r != Done then old(rows) else old(rows)[id := old(rows)[id].(
        heartbeat := Some(now), leaseExpires := Some(now + lease), updatedAt := now)]
      ensures old(Valid()) ==> Valid()
    {
      if SoundTable(rows) {
        ExecKeepsSound(Stmt.Heartbeat(id, owner, now, lease), rows);
      }
      if id !in rows || rows[id].leaseOwner != Some(owner) || !Active(rows[id].status) {
        return LeaseLost;
      }
      rows := rows[id := rows[id].(heartbeat := Some(now), leaseExpires := Some(now + lease), updatedAt := now)];
      r := Done;
    }

    method SetResolved(id: JobId, owner: Owner, at: int) returns (r: Outcome)
      modifies this`rows
      ensures rows == Exec(Stmt.SetResolved(id, owner, at), old(rows))
      ensures r == if Hits(Stmt.SetResolved(id, owner, at), old(rows)) then Done else LeaseLost
      ensures r == Done <==> Leased(old(rows), id, owner) && old(rows)[id].status == Resolving
      ensures rows == if r != Done then old(rows) else old(rows)[id := old(rows)[id].(
        status := Downloading, progress := 30, updatedAt := at)]
      ensures old(Valid()) ==> Valid()
    {
      if SoundTable(rows) {
        ExecKeepsSound(Stmt.SetResolved(id, owner, at), rows);
      }
      if id !in rows || rows[id].leaseOwner != Some(owner) || rows[id].status != Resolving {
        return LeaseLost;
      }
      rows := rows[id := rows[id].(status := Downloading, progress := 30, updatedAt := at)];
      r := Done;
    }

    // The CHECK on progress makes an out-of-range value an error that stores nothing.
    method SetStage(id: JobId, owner: Owner, status: Status, progress: int, at: int) returns (r: Outcome)
      modifies this`rows
      ensures rows == Exec(Stmt.SetStage(id, owner, status, progress, at), old(rows))
      ensures r == if Hits(Stmt.SetStage(id, owner, status, progress, at), old(rows)) then Done
                   else if id in old(rows) && old(rows)[id].leaseOwner == Some(owner) then Rejected else LeaseLost
      ensures r == Done <==> Leased(old(rows), id, owner) && 0 <= progress <= 100
      ensures rows == if r != Done then old(rows) else old(rows)[id := old(rows)[id].(
        status := status, progress := progress, updatedAt := at)]
      ensures old(Valid()) && StageArgs(status, progress) ==> Valid()
    {
      if SoundTable(rows) && StageArgs(status, progress) {
        ExecKeepsSound(Stmt.SetStage(id, owner, status, progress, at), rows);
      }
      if id !in rows || rows[id].leaseOwner != Some(owner) {
        return LeaseLost;
      }
      if progress < 0 || progress > 100 {
        return Rejected;
      }
      rows := rows[id := rows[id].(status := status, progress := progress, updatedAt := at)];
      r := Done;
    }

    method CompleteInfo(id: JobId, at: int) returns (r: Outcome)
      modifies this`rows
      ensures rows == Exec(Stmt.CompleteInfo(id, at), old(rows))
      ensures r == if Hits(Stmt.CompleteInfo(id, at), old(rows)) then Done else NotFound
      ensures r == Done <==> id in old(rows) && old(rows)[id].status == Resolving
      ensures rows == if r != Done then old(rows) else old(rows)[id := old(rows)[id].(
        status := Completed, progress := 100, completedAt := Some(at), updatedAt := at)]
      ensures old(Valid()) && (id in old(rows) ==> InfoWindow(old(rows)[id])) ==> Valid()
    {
      if SoundTable(rows) && (id in rows ==> InfoWindow(rows[id])) {
        ExecKeepsSound(Stmt.CompleteInfo(id, at), rows);
      }
      if id !in rows || rows[id].status != Resolving {
        return NotFound;
      }
      rows := rows[id := rows[id].(status := Completed, progress := 100, completedAt := Some(at), updatedAt := at)];
      r := Done;
    }

    method CompleteDownload(id: JobId, owner: Owner, at: int) returns (r: Outcome)
      modifies this`rows
      ensures rows == Exec(Stmt.CompleteDownload(id, owner, at), old(rows))
      ensures r == if Hits(Stmt.CompleteDownload(id, owner, at), old(rows)) then Done else LeaseLost
      ensures r == Done <==> Leased(old(rows), id, owner) && old(rows)[id].status == Downloading
      ensures rows == if r != Done then old(rows) else old(rows)[id := old(rows)[id].(
        status := Completed, progress := 100, completedAt := Some(at), errorCode := None, leaseOwner := None,
        leaseExpires := None, heartbeat := None, updatedAt := at)]
      ensures old(Valid()) ==> Valid()
    {
      if SoundTable(rows) {
        ExecKeepsSound(Stmt.CompleteDownload(id, owner, at), rows);
      }
      if id !in rows || rows[id].leaseOwner != Some(owner) || rows[id].status != Downloading {
        return LeaseLost;
      }
      FinishRow(id, at);
      r := Done;
    }

    method CompleteTranscription(id: JobId, owner: Owner, at: int) returns (r: Outcome)
      modifies this`rows
      ensures rows == Exec(Stmt.CompleteTranscription(id, owner, at), old(rows))
      ensures r == if Hits(Stmt.CompleteTranscription(id, owner, at), old(rows)) then Done else LeaseLost
      ensures r == Done <==> Leased(old(rows), id, owner) && old(rows)[id].status == Postprocessing
      ensures rows == if r != Done then old(rows) else old(rows)[id := old(rows)[id].(
        status := Completed, progress := 100, completedAt := Some(at), errorCode := None, leaseOwner := None,
        leaseExpires := None, heartbeat := None, updatedAt := at)]
      ensures old(Valid()) ==> Valid()
    {
      if SoundTable(rows) {
        ExecKeepsSound(Stmt.CompleteTranscription(id, owner, at), rows);
      }
      if id !in rows || rows[id].leaseOwner != Some(owner) || rows[id].status != Postprocessing {
        return LeaseLost;
      }
      FinishRow(id, at);
      r := Done;
    }

    // The SET list that the two completions share.
    method FinishRow(id: JobId, at: int)
      requires id in rows
      modifies this`rows
      ensures rows == old(rows)[id := old(rows)[id].(status := Completed, progress := 100, completedAt := Some(at),
                                                     updatedAt := at, leaseOwner := None, leaseExpires := None,
                                                     heartbeat := None, errorCode := None)]
    {
      rows := rows[id := rows[id].(status := Completed, progress := 100, completedAt := Some(at), updatedAt := at)];
      rows := rows[id := rows[id].(leaseOwner := None, leaseExpires := None, heartbeat := None, errorCode := None)];
    }

    method RetryLater(id: JobId, owner: Owner, code: string, retryAt: int, at: int) returns (r: Outcome)
      modifies this`rows
      ensures rows == Exec(Stmt.RetryLater(id, owner, code, retryAt, at), old(rows))
      ensures r == if Hits(Stmt.RetryLater(id, owner, code, retryAt, at), old(rows)) then Done else LeaseLost
      ensures r == Done <==> Leased(old(rows), id, owner)
      ensures r != Done ==> rows == old(rows)
      ensures r == Done && old(rows)[id].attempts < old(rows)[id].maxAttempts ==> rows == old(rows)[id := old(rows)[id].(
        status := RetryWait, errorCode := Some(code), retryAt := Some(retryAt), completedAt := None,
        leaseOwner := None, leaseExpires := None, heartbeat := None, updatedAt := at)]
      ensures r == Done && old(rows)[id].attempts >= old(rows)[id].maxAttempts ==> rows == old(rows)[id := old(rows)[id].(
        status := Failed, progress := 100, errorCode := Some(code), retryAt := None, completedAt := Some(at),
        leaseOwner := None, leaseExpires := None, heartbeat := None, updatedAt := at)]
      ensures old(Valid()) ==> Valid()
    {
      if SoundTable(rows) {
        ExecKeepsSound(Stmt.RetryLater(id, owner, code, retryAt, at), rows);
      }
      if id !in rows || rows[id].leaseOwner != Some(owner) {
        return LeaseLost;
      }
      var row := rows[id];
      var exhausted := row.attempts >= row.maxAttempts;
      row := row.(status := if exhausted then Failed else RetryWait,
                  progress := if exhausted then 100 else row.progress,
                  errorCode := Some(code),
                  retryAt := if exhausted then None else Some(retryAt),
                  completedAt := if exhausted then Some(at) else None,
                  leaseOwner := None, leaseExpires := None, heartbeat := None, updatedAt := at);
      rows := rows[id := row];
      r := Done;
    }

    method CancelOwned(id: JobId, owner: Owner, at: int) returns (r: Outcome)
      modifies this`rows
      ensures rows == Exec(Stmt.CancelOwned(id, owner, at), old(rows))
      ensures r == if Hits(Stmt.CancelOwned(id, owner, at), old(rows)) then Done else LeaseLost
      ensures r == Done <==> Leased(old(rows), id, owner)
      ensures rows == if r != Done then old(rows) else old(rows)[id := old(rows)[id].(
        status := Cancelled, progress := 100, cancelRequestedAt := Some(at), completedAt := Some(at),
        leaseOwner := None, leaseExpires := None, heartbeat := None, updatedAt := at)]
      ensures old(Valid()) ==> Valid()
    {
      if SoundTable(rows) {
        ExecKeepsSound(Stmt.CancelOwned(id, owner, at), rows);
      }
      if id !in rows || rows[id].leaseOwner != Some(owner) {
        return LeaseLost;
      }
      rows := rows[id := rows[id].(status := Cancelled, progress := 100, cancelRequestedAt := Some(at),
        completedAt := Some(at), leaseOwner := None, leaseExpires := None, heartbeat := None, updatedAt := at)];
      r := Done;
    }

    method Fail(id: JobId, code: string, at: int) returns (r: Outcome)
      modifies this`rows
      ensures rows == Exec(Stmt.Fail(id, code, at), old(rows))
      ensures r == if id in old(rows) then Done else NotFound
      ensures rows == if r != Done then old(rows) else old(rows)[id := old(rows)[id].(
        status := Failed, progress := 100, errorCode := Some(code), completedAt := Some(at),
        leaseOwner := None, leaseExpires := None, heartbeat := None, updatedAt := at)]
      ensures old(Valid()) ==> Valid()
    {
      if SoundTable(rows) {
        ExecKeepsSound(Stmt.Fail(id, code, at), rows);
      }
      if id !in rows {
        return NotFound;
      }
      rows := rows[id := rows[id].(status := Failed, progress := 100, errorCode := Some(code), completedAt := Some(at),
        updatedAt := at, leaseOwner := None, leaseExpires := None, heartbeat := None)];
      r := Done;
    }

    // The update of a cancel.
    method CancelWaiting(user: UserId, id: JobId, at: int) returns (hit: bool)
      modifies this`rows
      ensures rows == Exec(Stmt.Cancel(id, user, at), old(rows))
      ensures hit == Hits(Stmt.Cancel(id, user, at), old(rows))
      ensures hit <==> id in old(rows) && old(rows)[id].user == user && old(rows)[id].status in {Queued, RetryWait}
      ensures rows == if !hit then old(rows) else old(rows)[id := old(rows)[id].(
        status := Cancelled, progress := 100, cancelRequestedAt := Some(at), completedAt := Some(at),
        leaseOwner := None, leaseExpires := None, updatedAt := at)]
      ensures old(Valid()) ==> Valid()
    {
      if SoundTable(rows) {
        ExecKeepsSound(Stmt.Cancel(id, user, at), rows);
      }
      hit := id in rows && rows[id].user == user && (rows[id].status == Queued || rows[id].status == RetryWait);
      if hit {
        rows := rows[id := rows[id].(status := Cancelled, progress := 100, cancelRequestedAt := Some(at),
          completedAt := Some(at), updatedAt := at, leaseOwner := None, leaseExpires := None)];
      }
    }

    // The update of a user retry.
    method RequeueEnded(user: UserId, id: JobId, at: int) returns (hit: bool)
      modifies this`rows
      ensures rows == Exec(Stmt.Retry(id, user, at), old(rows))
      ensures hit == Hits(Stmt.Retry(id, user, at), old(rows))
      ensures hit <==> id in old(rows) && old(rows)[id].user == user && old(rows)[id].status in {Failed, Cancelled}
      ensures rows == if !hit then old(rows) else old(rows)[id := old(rows)[id].(
        status := Queued, progress := 0, attempts := 0, errorCode := None, completedAt := None, retryAt := None,
        cancelRequestedAt := None, updatedAt := at)]
      ensures old(Valid()) ==> Valid()
    {
      if SoundTable(rows) {
        ExecKeepsSound(Stmt.Retry(id, user, at), rows);
      }
      hit := id in rows && rows[id].user == user && (rows[id].status == Failed || rows[id].status == Cancelled);
      if hit {
        rows := rows[id := rows[id].(status := Queued, progress := 0, attempts := 0, errorCode := None,
          completedAt := None, retryAt := None, cancelRequestedAt := None, updatedAt := at)];
      }
    }

    predicate Owns(user: UserId, id: JobId)
      reads this`rows
    {
      id in rows && rows[id].user == user
    }

    /** A cancel that hits is done. One that does not looks the job up later, and the table of that moment decides which
        error it gives: statements of others may come in between. */
    method Cancel(user: UserId, id: JobId, at: int) returns (r: Outcome)
      modifies this`rows
      ensures Hits(Stmt.Cancel(id, user, at), old(rows)) ==> r == Done && rows == Exec(Stmt.Cancel(id, user, at), old(rows))
      ensures !Hits(Stmt.Cancel(id, user, at), old(rows)) ==> r == if Owns(user, id) then NotCancellable else NotFound
      ensures old(Valid()) ==> Valid()
    {
      var hit := CancelWaiting(user, id, at);
      if hit {
        return Done;
      }
      Others();
      r := if Owns(user, id) then NotCancellable else NotFound;
    }

    /** The same for a user retry. */
    method Retry(user: UserId, id: JobId, at: int) returns (r: Outcome)
      modifies this`rows
      ensures Hits(Stmt.Retry(id, user, at), old(rows)) ==> r == Done && rows == Exec(Stmt.Retry(id, user, at), old(rows))
      ensures !Hits(Stmt.Retry(id, user, at), old(rows)) ==> r == if Owns(user, id) then NotRetryable else NotFound
      ensures old(Valid()) ==> Valid()
    {
      var hit := RequeueEnded(user, id, at);
      if hit {
        return Done;
      }
      Others();
      r := if Owns(user, id) then NotRetryable else NotFound;
    }

    // The first statement of Recover.
    method RecoverOpenTasks(now: int)
      modifies this`rows
      ensures rows == RecoverAsr(old(rows), calls, now)
      ensures rows.Keys == old(rows).Keys
      ensures forall j :: j in rows ==> var r := old(rows)[j];
        rows[j] == if r.status == Transcribing && r.leaseExpires.Some? && r.leaseExpires.value < now && HasOpenTask(calls, j)
          then r.(status := Failed, progress := 100, errorCode := Some("ASR_RECOVERY_REQUIRED"),
                  completedAt := Some(now), leaseOwner := None, leaseExpires := None, heartbeat := None, updatedAt := now)
          else r
      ensures old(Valid()) ==> Valid()
    {
      if SoundTable(rows) {
        RecoverAsrKeepsSound(rows, calls, now);
      }
      rows := map j | j in rows :: EndOpenTask(rows[j], OpenTask(calls, j), now);
    }

    // The condition and the SET list of the first statement.
    static function EndOpenTask(r: Row, open: bool, now: int): (r': Row)
      ensures r' == RecoverAsrRow(r, open, now)
    {
      if r.status == Transcribing && r.leaseExpires.Some? && r.leaseExpires.value < now && open then
        r.(status := Failed, progress := 100, errorCode := Some(ASR_RECOVERY_REQUIRED), completedAt := Some(now),
           leaseOwner := None, leaseExpires := None, heartbeat := None, updatedAt := now)
      else r
    }

    /** The two statements of Recover in order: the second meets the table mid that others have left after the first. */
    method Recover(now: int) returns (count: nat, ghost mid: Table)
      modifies this`rows
      ensures rows == RecoverRest(mid, now) && count == |ExpiredJobs(mid, now)|
      ensures old(Valid()) ==> SoundTable(mid) && Valid()
    {
      RecoverOpenTasks(now);
      Others();
      mid := rows;
      count := RecoverLeases(now);
    }

    method RecoverLeases(now: int) returns (count: nat)
      modifies this`rows
      ensures rows == RecoverRest(old(rows), now)
      ensures count == |ExpiredJobs(old(rows), now)|
      ensures rows.Keys == old(rows).Keys
      ensures forall j :: j in rows ==> var r := old(rows)[j];
        rows[j] == if Overdue(r, now) && r.attempts < r.maxAttempts
          then r.(status := Queued, progress := 0, completedAt := None, leaseOwner := None, leaseExpires := None,
                  heartbeat := None, updatedAt := now)
          else if Overdue(r, now)
          then r.(status := Failed, progress := 100, errorCode := Some("JOB_RECOVERY_EXHAUSTED"),
                  completedAt := Some(now), leaseOwner := None, leaseExpires := None, heartbeat := None, updatedAt := now)
          else r
      ensures old(Valid()) ==> Valid()
    {
      if SoundTable(rows) {
        RecoverRestKeepsSound(rows, now);
      }
      var hits := ExpiredJobs(rows, now);
      rows := map j | j in rows :: if j in hits then RequeueOrFail(rows[j], now) else rows[j];
      count := |hits|;
    }

    // The CASE expressions of the second statement.
    static function RequeueOrFail(r: Row, now: int): Row {
      var spent := r.attempts >= r.maxAttempts;
      r.(status := if spent then Failed else Queued, progress := if spent then 100 else 0,
         errorCode := if spent then Some(JOB_RECOVERY_EXHAUSTED) else r.errorCode,
         completedAt := if spent then Some(now) else None,
         leaseOwner := None, leaseExpires := None, heartbeat := None, updatedAt := now)
    }

    /** On a sound table no waiting row is out of attempts, so the sweep changes nothing. */
    method FailExhaustedQueued(at: int) returns (count: nat)
      modifies this`rows
      ensures rows == Exhaust(old(rows), at)
      ensures rows.Keys == old(rows).Keys
      ensures forall j :: j in rows ==> var r := old(rows)[j];
        rows[j] == if r.status in {Queued, RetryWait} && r.attempts >= r.maxAttempts
          then r.(status := Failed, progress := 100, errorCode := Some("JOB_RETRY_EXHAUSTED"), completedAt := Some(at),
                  updatedAt := at)
          else r
      ensures old(Valid()) ==> rows == old(rows) && count == 0
    {
      var hits := set j | j in rows && Waiting(rows[j].status) && rows[j].attempts >= rows[j].maxAttempts;
      rows := map j | j in rows ::
        if j in hits
        then rows[j].(status := Failed, progress := 100, errorCode := Some(JOB_RETRY_EXHAUSTED),
                      completedAt := Some(at), updatedAt := at)
        else rows[j];
      count := |hits|;
    }

    // One transaction: the ledger rows go with the job, and a missing job rolls both back.
    method Delete(user: UserId, id: JobId) returns (r: Outcome)
      modifies this`rows, this`calls
      ensures id in old(rows) && old(rows)[id].user == user ==>
                r == Done && rows == old(rows) - {id}
                && calls == map c | c in old(calls) && old(calls)[c].job != id :: old(calls)[c]
      ensures !(id in old(rows) && old(rows)[id].user == user) ==>
                r == NotFound && rows == old(rows) && calls == old(calls)
      ensures rows == DeletedFrom(old(rows), id, user) && calls == CallsLeft(old(rows), old(calls), id, user)
      ensures old(Valid()) ==> Valid()
    {
      var saved := calls;
      calls := map c | c in calls && calls[c].job != id :: calls[c];
      if id !in rows || rows[id].user != user {
        calls := saved;
        return NotFound;
      }
      rows := rows - {id};
      r := Done;
    }

    // Any statements of everyone else.
    method Others()
      modifies this`rows
      ensures old(Valid()) ==> Valid()
    {
      var count: int := *;
      for k := 0 to if count < 0 then 0 else count
        invariant old(Valid()) ==> Valid()
      {
        OneStatement();
      }
    }

    method OneStatement()
      modifies this`rows
      ensures old(Valid()) ==> Valid()
    {
      var which: int, id: JobId, at: int := *, *, *;
      if which == 0 {
        var user: UserId, action: Action := *, *;
        var created := Create(id, user, action, at, false);
      } else if which == 1 {
        rows := rows - {id};
      } else if which == 2 {
        RecoverOpenTasks(at);
      } else if which == 3 {
        var count := RecoverLeases(at);
      } else if which == 4 {
        var count := FailExhaustedQueued(at);
      } else {
        var q: Stmt := *;
        AnyStatement(q);
      }
    }

    // A single-row statement used as its callers use it.
    method AnyStatement(q: Stmt)
      modifies this`rows
      ensures old(Valid()) ==> Valid()
    {
      if q.id !in rows || Disciplined(q, rows[q.id]) {
        if SoundTable(rows) {
          ExecKeepsSound(q, rows);
        }
        rows := Exec(q, rows);
      }
    }
  }
}
