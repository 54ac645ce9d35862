/** Expiry cleanup over two stores: file records in the database and files on disk, in batches of a hundred. */
module FileCleanup {
  import opened Wrappers
  import Sets

  type FileId = string
  type Path = string

  const BATCH := 100

  datatype Record = Record(path: Path, expires: Option<int>, deletedAt: Option<int>)

  datatype World = World(records: map<FileId, Record>, disk: set<Path>)

  // What fails in one round of the loop: removing these files, marking these records. Each round has its own.
  datatype Faults = Faults(files: set<FileId>, rows: set<FileId>)

  const NONE := Faults({}, {})

  // Whatever fails in g fails in f.
  predicate Within(g: Faults, f: Faults) { g.files <= f.files && g.rows <= f.rows }

  // The column relative_path is unique.
  predicate PathsUnique(rs: map<FileId, Record>) {
    forall a, b :: a in rs && b in rs && a != b ==> rs[a].path != rs[b].path
  }

  predicate IsDue(r: Record, now: int) { r.expires.Some? && r.expires.value <= now && r.deletedAt == None }

  // Expired live records; a record without an expiry never gets there.
  function Due(w: World, now: int): set<FileId> { set k | k in w.records && IsDue(w.records[k], now) }

  function Stuck(w: World, f: Faults, now: int): set<FileId> { Due(w, now) * (f.files + f.rows) }

  function Size(s: set<FileId>): nat { |s| }

  // ---------- One file ----------

  // Removing a file that is not there succeeds.
  function RemoveFile(w: World, id: FileId): World
    requires id in w.records
  {
    w.(disk := w.disk - {w.records[id].path})
  }

  function MarkDeleted(w: World, id: FileId, now: int): World {
    if id in w.records && w.records[id].deletedAt == None
    then w.(records := w.records[id := w.records[id].(deletedAt := Some(now))]) else w
  }

  function CleanOne(w: World, f: Faults, id: FileId, now: int): World
    requires id in w.records
  {
    if id in f.files then w
    else
      var removed := RemoveFile(w, id);
      if id in f.rows then removed else MarkDeleted(removed, id, now)
  }

  // ---------- The end state ----------

  // The paths that the end state removes.
  function Gone(w: World, f: Faults, now: int): set<Path> {
    set k | k in Due(w, now) && k !in f.files :: w.records[k].path
  }

  // What a cleanup comes to when f fails in every round: every due file that can be removed is gone, and its record is
  // marked if that can be done.
  function Final(w: World, f: Faults, now: int): World {
    World(
      map k | k in w.records ::
        if IsDue(w.records[k], now) && k !in f.files && k !in f.rows
        then w.records[k].(deletedAt := Some(now)) else w.records[k],
      w.disk - Gone(w, f, now))
  }

  /** The end state leaves every other file alone: a record that has not expired, never expires, or is already marked
      keeps its row and its file, and a marked record has no file on disk. */
  lemma FinalTouchesDueFilesOnly(w: World, f: Faults, now: int, k: FileId)
    requires PathsUnique(w.records) && k in w.records
    ensures var w' := Final(w, f, now); var r, r' := w.records[k], w'.records[k];
      var due := r.expires.Some? && r.expires.value <= now && r.deletedAt == None;
      && r'.path == r.path && r'.expires == r.expires
      && (!due ==> r' == r && (r.path in w'.disk <==> r.path in w.disk))
      && (due ==> r'.deletedAt == if k !in f.files + f.rows then Some(now) else None)
      && (due && r'.deletedAt.Some? ==> r.path !in w'.disk)
      && (due && k in f.files ==> (r.path in w'.disk <==> r.path in w.disk))
  {
  }

  // A step that is safe: removing the file of a due record, or marking a due record whose file is gone.
  predicate Safe(w: World, f: Faults, w': World, id: FileId, now: int) {
    id in Due(w, now)
    && ((id !in f.files && w' == RemoveFile(w, id))
        || (id !in f.files + f.rows && w.records[id].path !in w.disk && w' == MarkDeleted(w, id, now)))
  }

  lemma RemoveKeepsTheEnd(w: World, f: Faults, id: FileId, now: int)
    requires PathsUnique(w.records) && id in Due(w, now) && id !in f.files
    ensures Final(RemoveFile(w, id), f, now) == Final(w, f, now) && Due(RemoveFile(w, id), now) == Due(w, now)
  {
    var w' := RemoveFile(w, id);
    assert w.records[id].path in Gone(w, f, now);
    assert Gone(w', f, now) == Gone(w, f, now);
    assert Final(w', f, now).disk == w'.disk - Gone(w', f, now) && Final(w, f, now).disk == w.disk - Gone(w, f, now);
  }

  // Marking a due record: every other record stays, and it alone is no longer due.
  lemma Marked(w: World, id: FileId, now: int)
    requires PathsUnique(w.records) && id in Due(w, now)
    ensures var w' := MarkDeleted(w, id, now);
      && w'.disk == w.disk && w'.records == w.records[id := w.records[id].(deletedAt := Some(now))]
      && PathsUnique(w'.records) && Due(w', now) == Due(w, now) - {id}
  {
  }

  lemma MarkKeepsFinalRecords(w: World, f: Faults, id: FileId, now: int)
    requires id in Due(w, now) && id !in f.files + f.rows
    ensures Final(MarkDeleted(w, id, now), f, now).records == Final(w, f, now).records
  {
  }

  lemma MarkKeepsGone(w: World, f: Faults, id: FileId, now: int)
    requires PathsUnique(w.records) && id in Due(w, now) && w.records[id].path !in w.disk
    ensures w.disk - Gone(MarkDeleted(w, id, now), f, now) == w.disk - Gone(w, f, now)
  {
    Marked(w, id, now);
    var w' := MarkDeleted(w, id, now);
    assert Gone(w', f, now) <= Gone(w, f, now) <= Gone(w', f, now) + {w.records[id].path};
  }

  lemma MarkKeepsTheEnd(w: World, f: Faults, id: FileId, now: int)
    requires PathsUnique(w.records) && id in Due(w, now) && id !in f.files + f.rows && w.records[id].path !in w.disk
    ensures var w' := MarkDeleted(w, id, now);
      Final(w', f, now) == Final(w, f, now) && PathsUnique(w'.records) && Due(w', now) == Due(w, now) - {id}
  {
    Marked(w, id, now);
    MarkKeepsFinalRecords(w, f, id, now);
    MarkKeepsGone(w, f, id, now);
  }

  /** Wherever a cleanup is stopped, also between the disk step and the record step of one file, a later cleanup has
      the same end state before it. */
  lemma SafeStepsKeepTheEnd(w: World, f: Faults, w': World, id: FileId, now: int)
    requires PathsUnique(w.records) && Safe(w, f, w', id, now)
    ensures Final(w', f, now) == Final(w, f, now) && PathsUnique(w'.records)
  {
    if id !in f.files && w' == RemoveFile(w, id) {
      RemoveKeepsTheEnd(w, f, id, now);
    } else {
      MarkKeepsTheEnd(w, f, id, now);
    }
  }

  /** The same after any number of such steps. */
  lemma {:induction false} StoppedAnywhere(ws: seq<World>, ids: seq<FileId>, f: Faults, now: int, i: nat)
    requires |ws| == |ids| + 1 && i < |ws| && PathsUnique(ws[0].records)
    requires forall k {:trigger ids[k]} :: 0 <= k < |ids| ==> Safe(ws[k], f, ws[k + 1], ids[k], now)
    ensures Final(ws[i], f, now) == Final(ws[0], f, now) && PathsUnique(ws[i].records)
  {
    if 0 < i {
      StoppedAnywhere(ws, ids, f, now, i - 1);
      SafeStepsKeepTheEnd(ws[i - 1], f, ws[i], ids[i - 1], now);
    }
  }

  // The two steps for one file are safe ones, also for anyone to whom less fails.
  lemma CleanOneKeepsTheEnd(w: World, f: Faults, g: Faults, id: FileId, now: int)
    requires PathsUnique(w.records) && id in Due(w, now) && Within(g, f)
    ensures var w' := CleanOne(w, f, id, now);
      && Final(w', g, now) == Final(w, g, now) && PathsUnique(w'.records)
      && Due(w', now) == Due(w, now) - (if id in f.files + f.rows then {} else {id})
  {
    if id !in f.files {
      RemoveKeepsTheEnd(w, g, id, now);
      if id !in f.rows {
        MarkKeepsTheEnd(RemoveFile(w, id), g, id, now);
      }
    }
  }

  // ---------- What a cleanup may have done at any moment ----------

  // Only due files are touched: a record is as it was or newly marked, and then its file is gone; a file that is gone
  // was that of a due record.
  predicate Progressed(w: World, w': World, now: int) {
    && w'.records.Keys == w.records.Keys && w'.disk <= w.disk
    && (forall k :: k in w.records && w'.records[k] != w.records[k] ==>
          k in Due(w, now) && w'.records[k] == w.records[k].(deletedAt := Some(now)) && w.records[k].path !in w'.disk)
    && forall p :: p in w.disk && p !in w'.disk ==> exists k :: k in Due(w, now) && w.records[k].path == p
  }

  lemma ProgressAddsUp(w0: World, w1: World, w2: World, now: int)
    requires Progressed(w0, w1, now) && Progressed(w1, w2, now)
    ensures Progressed(w0, w2, now)
  {
    assert Due(w1, now) <= Due(w0, now);
    forall p | p in w0.disk && p !in w2.disk ensures exists k :: k in Due(w0, now) && w0.records[k].path == p {
      if p in w1.disk {
        var k :| k in Due(w1, now) && w1.records[k].path == p;
        assert k in Due(w0, now) && w0.records[k].path == p;
      }
    }
  }

  lemma CleanOneProgresses(w: World, f: Faults, id: FileId, now: int)
    requires id in Due(w, now)
    ensures Progressed(w, CleanOne(w, f, id, now), now)
  {
  }

  /** By the columns: a record that has changed had not been marked and had an expiry that is not later than now; now it
      is marked, its file is gone, and its other columns are as they were. A file that is gone was that of such a
      record. */
  lemma OnlyExpiredFilesGo(w: World, w': World, now: int)
    requires Progressed(w, w', now)
    ensures forall k :: k in w.records && w'.records[k] != w.records[k] ==>
      && w.records[k].expires.Some? && w.records[k].expires.value <= now && w.records[k].deletedAt == None
      && w'.records[k] == Record(w.records[k].path, w.records[k].expires, Some(now))
      && w.records[k].path !in w'.disk
    ensures forall p :: p in w.disk && p !in w'.disk ==>
      exists k :: k in w.records && w.records[k].path == p && w.records[k].expires.Some? && w.records[k].expires.value <= now
                  && w.records[k].deletedAt == None
  {
    forall p | p in w.disk && p !in w'.disk
      ensures exists k :: k in w.records && w.records[k].path == p && w.records[k].expires.Some?
                          && w.records[k].expires.value <= now && w.records[k].deletedAt == None
    {
      var k :| k in Due(w, now) && w.records[k].path == p;
      assert k in w.records;
    }
  }

  // ---------- One batch ----------

  // ORDER BY expires_at LIMIT n: equal times leave the choice open.
  predicate IsBatch(w: World, now: int, n: nat, ids: seq<FileId>) {
    && (forall k :: k in ids ==> k in Due(w, now))
    && (forall i, k :: 0 <= i < k < |ids| ==> ids[i] != ids[k])
    && (forall i, k :: 0 <= i < k < |ids| ==> Expiry(w, ids[i]) <= Expiry(w, ids[k]))
    && (forall k, m :: k in Due(w, now) && k !in ids && m in ids ==> Expiry(w, m) <= Expiry(w, k))
    && |ids| == if Size(Due(w, now)) < n then Size(Due(w, now)) else n
  }

  function Expiry(w: World, k: FileId): int {
    if k in w.records && w.records[k].expires.Some? then w.records[k].expires.value else 0
  }

  // The files of a batch cleaned in order.
  function CleanAll(w: World, f: Faults, ids: seq<FileId>, now: int): World {
    if ids == [] then w
    else
      var before := CleanAll(w, f, ids[..|ids| - 1], now);
      if ids[|ids| - 1] in before.records then CleanOne(before, f, ids[|ids| - 1], now) else before
  }

  predicate Distinct(ids: seq<FileId>) { forall i, k :: 0 <= i < k < |ids| ==> ids[i] != ids[k] }

  function Elements(ids: seq<FileId>): set<FileId> { set k | k in ids }

  // One more file of a batch: what holds of the files before it.
  lemma Front(ids: seq<FileId>)
    requires ids != [] && Distinct(ids)
    ensures var front, last := ids[..|ids| - 1], ids[|ids| - 1];
      Distinct(front) && Elements(ids) == Elements(front) + {last} && last !in Elements(front)
  {
  }

  lemma {:induction false} BatchKeepsTheEnd(w: World, f: Faults, g: Faults, ids: seq<FileId>, now: int)
    requires PathsUnique(w.records) && Distinct(ids) && Elements(ids) <= Due(w, now) && Within(g, f)
    ensures var w' := CleanAll(w, f, ids, now);
      && Final(w', g, now) == Final(w, g, now) && PathsUnique(w'.records) && Progressed(w, w', now)
      && Due(w', now) == Due(w, now) - (Elements(ids) - (f.files + f.rows))
    decreases |ids|
  {
    if ids != [] {
      var front, last := ids[..|ids| - 1], ids[|ids| - 1];
      Front(ids);
      BatchKeepsTheEnd(w, f, g, front, now);
      var before := CleanAll(w, f, front, now);
      CleanOneKeepsTheEnd(before, f, g, last, now);
      CleanOneProgresses(before, f, last, now);
      ProgressAddsUp(w, before, CleanOne(before, f, last, now), now);
    }
  }

  // A cleaned batch leaves no file of a removable record behind.
  lemma {:induction false} BatchRemovesFiles(w: World, f: Faults, ids: seq<FileId>, now: int, k: FileId)
    requires Elements(ids) <= w.records.Keys && k in ids && k in w.records
    ensures k !in f.files ==> w.records[k].path !in CleanAll(w, f, ids, now).disk
    decreases |ids|
  {
    var front, last := ids[..|ids| - 1], ids[|ids| - 1];
    BatchPaths(w, f, front, now);
    assert last in Elements(ids) && Elements(front) <= Elements(ids);
    if k != last {
      assert k in front;
      BatchRemovesFiles(w, f, front, now, k);
    }
  }

  predicate SameFiles(w: World, w': World) {
    w'.records.Keys == w.records.Keys && forall k :: k in w.records ==> w'.records[k].path == w.records[k].path
  }

  lemma {:induction false} BatchPaths(w: World, f: Faults, ids: seq<FileId>, now: int)
    ensures CleanAll(w, f, ids, now).disk <= w.disk && SameFiles(w, CleanAll(w, f, ids, now))
    decreases |ids|
  {
    if ids != [] {
      BatchPaths(w, f, ids[..|ids| - 1], now);
    }
  }

  /** A batch that takes in every due file leaves due exactly what failed in it, and no file whose removal went
      through. */
  lemma WholeBatchLeaves(w: World, f: Faults, ids: seq<FileId>, now: int)
    requires PathsUnique(w.records) && Distinct(ids) && Elements(ids) == Due(w, now)
    ensures var w' := CleanAll(w, f, ids, now);
      && Due(w', now) == Due(w, now) * (f.files + f.rows)
      && forall k :: k in Due(w, now) && k !in f.files ==> w.records[k].path !in w'.disk
  {
    BatchKeepsTheEnd(w, f, f, ids, now);
    forall k | k in Due(w, now) && k !in f.files ensures w.records[k].path !in CleanAll(w, f, ids, now).disk {
      assert k in Elements(ids);
      BatchRemovesFiles(w, f, ids, now, k);
    }
  }

  /** A batch that takes in every due file reaches the end state. */
  lemma LastBatchFinishes(w: World, f: Faults, ids: seq<FileId>, now: int)
    requires PathsUnique(w.records) && Distinct(ids) && Elements(ids) == Due(w, now)
    ensures CleanAll(w, f, ids, now) == Final(w, f, now)
  {
    var w' := CleanAll(w, f, ids, now);
    BatchKeepsTheEnd(w, f, f, ids, now);
    BatchPaths(w, f, ids, now);
    forall k | k in w'.records ensures Final(w', f, now).records[k] == w'.records[k] {
      assert IsDue(w'.records[k], now) ==> k in Due(w', now);
    }
    forall k | k in Due(w', now) && k !in f.files ensures w'.records[k].path !in w'.disk {
      BatchRemovesFiles(w, f, ids, now, k);
    }
    assert Final(w', f, now).disk == w'.disk;
  }

  // ---------- The loop ----------

  lemma {:induction false} ElementsSize(ids: seq<FileId>)
    requires Distinct(ids)
    ensures Size(Elements(ids)) == |ids|
    decreases |ids|
  {
    if ids != [] {
      var front, last := ids[..|ids| - 1], ids[|ids| - 1];
      ElementsSize(front);
      assert Elements(ids) == Elements(front) + {last} && last !in Elements(front);
    }
  }

  // The batch marks at least one record.
  predicate Marks(ids: seq<FileId>, f: Faults) { exists m :: m in ids && m !in f.files + f.rows }

  /** A round takes a due record away if it marks one, and otherwise leaves the due records as they are. */
  lemma RoundShrinks(w: World, f: Faults, ids: seq<FileId>, now: int)
    requires PathsUnique(w.records) && IsBatch(w, now, BATCH, ids)
    ensures Marks(ids, f) ==> Size(Due(CleanAll(w, f, ids, now), now)) < Size(Due(w, now))
    ensures !Marks(ids, f) ==> Due(CleanAll(w, f, ids, now), now) == Due(w, now)
  {
    assert Elements(ids) <= Due(w, now);
    BatchKeepsTheEnd(w, f, f, ids, now);
    var due' := Due(CleanAll(w, f, ids, now), now);
    if m :| m in ids && m !in f.files + f.rows {
      assert m in Elements(ids) && m in Due(w, now) && m !in due';
      Sets.SubsetSize(due', Due(w, now));
    } else {
      assert Elements(ids) <= f.files + f.rows by {
        forall k | k in Elements(ids) ensures k in f.files + f.rows {
          assert k in ids;
        }
      }
    }
  }

  // Rounds of the loop under a fixed clock: batch i takes the world from ws[i] to ws[i + 1], and fs[i] fails in it.
  predicate Rounds(ws: seq<World>, bs: seq<seq<FileId>>, fs: seq<Faults>, now: int) {
    |ws| == |bs| + 1 && |fs| == |bs| && PathsUnique(ws[0].records)
    && forall i {:trigger bs[i]} :: 0 <= i < |bs| ==>
         IsBatch(ws[i], now, BATCH, bs[i]) && ws[i + 1] == CleanAll(ws[i], fs[i], bs[i], now)
  }

  /** Whatever fails in whichever round, only due files are touched, and a later cleanup in which nothing fails still
      comes to the same end. If g failed in every round, the same holds of a cleanup in which g fails. */
  lemma {:induction false} RoundsKeep(ws: seq<World>, bs: seq<seq<FileId>>, fs: seq<Faults>, g: Faults, now: int, i: nat)
    requires Rounds(ws, bs, fs, now) && i < |ws| && forall k :: 0 <= k < |fs| ==> Within(g, fs[k])
    ensures PathsUnique(ws[i].records) && Progressed(ws[0], ws[i], now)
    ensures Final(ws[i], g, now) == Final(ws[0], g, now)
  {
    if 0 < i {
      RoundsKeep(ws, bs, fs, g, now, i - 1);
      var w, ids, f := ws[i - 1], bs[i - 1], fs[i - 1];
      assert IsBatch(w, now, BATCH, ids);
      assert Elements(ids) <= Due(w, now);
      BatchKeepsTheEnd(w, f, g, ids, now);
      ProgressAddsUp(ws[0], w, CleanAll(w, f, ids, now), now);
    }
  }

  // The rounds among the first i that mark a record.
  function MarkingRounds(bs: seq<seq<FileId>>, fs: seq<Faults>, i: nat): nat
    requires i <= |bs| == |fs|
  {
    if i == 0 then 0 else MarkingRounds(bs, fs, i - 1) + if Marks(bs[i - 1], fs[i - 1]) then 1 else 0
  }

  lemma NothingFailsLess(fs: seq<Faults>)
    ensures forall k :: 0 <= k < |fs| ==> Within(NONE, fs[k])
  {
  }

  /** No run has more marking rounds than there are due records at its start, whatever fails when. So a run that never
      ends marks nothing from some round on, although every batch is full. */
  lemma {:induction false} MarkingRoundsAreBounded(ws: seq<World>, bs: seq<seq<FileId>>, fs: seq<Faults>, now: int, i: nat)
    requires Rounds(ws, bs, fs, now) && i < |ws|
    ensures Size(Due(ws[i], now)) + MarkingRounds(bs, fs, i) <= Size(Due(ws[0], now))
  {
    if 0 < i {
      MarkingRoundsAreBounded(ws, bs, fs, now, i - 1);
      NothingFailsLess(fs);
      RoundsKeep(ws, bs, fs, NONE, now, i - 1);
      assert IsBatch(ws[i - 1], now, BATCH, bs[i - 1]);
      RoundShrinks(ws[i - 1], fs[i - 1], bs[i - 1], now);
    }
  }

  lemma {:induction false} AllMark(bs: seq<seq<FileId>>, fs: seq<Faults>, i: nat)
    requires i <= |bs| == |fs| && forall k :: 0 <= k < i ==> Marks(bs[k], fs[k])
    ensures MarkingRounds(bs, fs, i) == i
  {
    if 0 < i {
      AllMark(bs, fs, i - 1);
    }
  }

  /** If every full batch marks at least one record, a short batch comes before more rounds than there are due
      records, whatever fails when. */
  lemma MarkingLoopEnds(ws: seq<World>, bs: seq<seq<FileId>>, fs: seq<Faults>, now: int)
    requires Rounds(ws, bs, fs, now) && |bs| > Size(Due(ws[0], now))
    requires forall k :: 0 <= k < |bs| && |bs[k]| == BATCH ==> Marks(bs[k], fs[k])
    ensures exists i :: 0 <= i < |bs| && |bs[i]| < BATCH
  {
    if forall i :: 0 <= i < |bs| ==> |bs[i]| >= BATCH {
      forall i | 0 <= i < |bs| ensures Marks(bs[i], fs[i]) {
        assert IsBatch(ws[i], now, BATCH, bs[i]);
      }
      AllMark(bs, fs, |bs|);
      MarkingRoundsAreBounded(ws, bs, fs, now, |bs|);
      assert false;
    }
  }

  /** A full batch that marks nothing is followed by a full batch: the loop goes on. */
  lemma IdleRoundRepeats(ws: seq<World>, bs: seq<seq<FileId>>, fs: seq<Faults>, now: int, i: nat)
    requires Rounds(ws, bs, fs, now) && i + 1 < |bs| && |bs[i]| == BATCH && !Marks(bs[i], fs[i])
    ensures |bs[i + 1]| == BATCH && Due(ws[i + 1], now) == Due(ws[i], now)
  {
    NothingFailsLess(fs);
    RoundsKeep(ws, bs, fs, NONE, now, i);
    assert IsBatch(ws[i], now, BATCH, bs[i]) && IsBatch(ws[i + 1], now, BATCH, bs[i + 1]);
    RoundShrinks(ws[i], fs[i], bs[i], now);
  }

  // ---------- Faults that last ----------

  lemma StuckFillBatch(w: World, f: Faults, ids: seq<FileId>, now: int)
    requires IsBatch(w, now, BATCH, ids) && Size(Stuck(w, f, now)) >= BATCH
    ensures |ids| == BATCH
  {
    Sets.SubsetSize(Stuck(w, f, now), Due(w, now));
  }

  // A hundred different due files: what a full batch can be.
  predicate FullBatch(w: World, ids: seq<FileId>, now: int) {
    |ids| == BATCH && Distinct(ids) && Elements(ids) <= Due(w, now)
  }

  lemma FewStuckMark(w: World, f: Faults, ids: seq<FileId>, now: int)
    requires FullBatch(w, ids, now) && Size(Stuck(w, f, now)) < BATCH
    ensures Marks(ids, f)
  {
    ElementsSize(ids);
    if Elements(ids) <= f.files + f.rows {
      assert Elements(ids) <= Stuck(w, f, now);
      Sets.SubsetSize(Elements(ids), Stuck(w, f, now));
      assert false;
    }
    var m :| m in Elements(ids) && m !in f.files + f.rows;
    assert m in ids;
  }

  // Any number of different elements of a set.
  lemma {:induction false} Selection(s: set<FileId>, n: nat) returns (ids: seq<FileId>)
    requires n <= Size(s)
    ensures |ids| == n && Distinct(ids) && Elements(ids) <= s
  {
    ids := [];
    if 0 < n {
      var k :| k in s;
      var rest := Selection(s - {k}, n - 1);
      ids := rest + [k];
      assert k !in Elements(rest) && Elements(ids) == Elements(rest) + {k};
    }
  }

  /** Faults that stay the same let every full batch mark a record exactly when fewer than a hundred due files are
      stuck. */
  lemma SteadyFaultsMarkExactly(w: World, f: Faults, now: int)
    ensures (forall ids :: FullBatch(w, ids, now) ==> Marks(ids, f)) <==> Size(Stuck(w, f, now)) < 100
  {
    if Size(Stuck(w, f, now)) < BATCH {
      forall ids | FullBatch(w, ids, now) ensures Marks(ids, f) {
        FewStuckMark(w, f, ids, now);
      }
    } else {
      var ids := Selection(Stuck(w, f, now), BATCH);
      assert FullBatch(w, ids, now);
      forall m | m in ids ensures m in f.files + f.rows {
        assert m in Elements(ids);
      }
    }
  }

  lemma {:induction false} StuckStay(ws: seq<World>, bs: seq<seq<FileId>>, fs: seq<Faults>, f: Faults, now: int, i: nat)
    requires Rounds(ws, bs, fs, now) && i < |ws| && forall k :: 0 <= k < |fs| ==> fs[k] == f
    ensures Stuck(ws[i], f, now) == Stuck(ws[0], f, now)
  {
    if 0 < i {
      StuckStay(ws, bs, fs, f, now, i - 1);
      RoundsKeep(ws, bs, fs, f, now, i - 1);
      var w, ids := ws[i - 1], bs[i - 1];
      assert IsBatch(w, now, BATCH, ids);
      assert Elements(ids) <= Due(w, now);
      BatchKeepsTheEnd(w, f, f, ids, now);
    }
  }

  /** With faults that stay the same, the loop ends exactly when fewer than a hundred due files are stuck. Otherwise
      every batch is full for ever; with fewer, a short batch comes before more rounds than there are due files. */
  lemma LoopEndsExactly(ws: seq<World>, bs: seq<seq<FileId>>, fs: seq<Faults>, f: Faults, now: int)
    requires Rounds(ws, bs, fs, now) && |bs| > Size(Due(ws[0], now)) && forall k :: 0 <= k < |fs| ==> fs[k] == f
    ensures (exists i :: 0 <= i < |bs| && |bs[i]| < 100) <==> Size(Stuck(ws[0], f, now)) < 100
  {
    forall i | 0 <= i < |bs|
      ensures Size(Stuck(ws[0], f, now)) >= BATCH ==> |bs[i]| == BATCH
      ensures Size(Stuck(ws[0], f, now)) < BATCH && |bs[i]| == BATCH ==> Marks(bs[i], fs[i])
    {
      StuckStay(ws, bs, fs, f, now, i);
      assert IsBatch(ws[i], now, BATCH, bs[i]);
      if Size(Stuck(ws[0], f, now)) >= BATCH {
        StuckFillBatch(ws[i], f, bs[i], now);
      } else if |bs[i]| == BATCH {
        assert Elements(bs[i]) <= Due(ws[i], now);
        FewStuckMark(ws[i], f, bs[i], now);
      }
    }
    if Size(Stuck(ws[0], f, now)) < BATCH {
      MarkingLoopEnds(ws, bs, fs, now);
    }
  }

  // ---------- The program ----------

  // The first records in the order of expiry, and the due records left.
  predicate Picked(w: World, now: int, ids: seq<FileId>, left: set<FileId>) {
    && left <= Due(w, now) && Elements(ids) == Due(w, now) - left && Distinct(ids)
    && Size(left) + |ids| == Size(Due(w, now))
    && (forall i, k :: 0 <= i < k < |ids| ==> Expiry(w, ids[i]) <= Expiry(w, ids[k]))
    && (forall k, i :: k in left && 0 <= i < |ids| ==> Expiry(w, ids[i]) <= Expiry(w, k))
  }

  lemma ElementsSnoc(ids: seq<FileId>, id: FileId)
    ensures Elements(ids + [id]) == Elements(ids) + {id}
  {
  }

  lemma PickNext(w: World, now: int, ids: seq<FileId>, left: set<FileId>, id: FileId)
    requires Picked(w, now, ids, left) && id in left
    requires forall k :: k in left ==> Expiry(w, id) <= Expiry(w, k)
    ensures Picked(w, now, ids + [id], left - {id})
  {
    assert id !in Elements(ids);
    ElementsSnoc(ids, id);
    assert Due(w, now) - (left - {id}) == Due(w, now) - left + {id};
  }

  lemma PickDone(w: World, now: int, ids: seq<FileId>, left: set<FileId>, limit: nat)
    requires Picked(w, now, ids, left) && |ids| <= limit && (left == {} || |ids| == limit)
    ensures IsBatch(w, now, limit, ids)
  {
    assert forall k :: k in ids <==> k in Elements(ids);
    assert left != {} ==> Size(left) > 0;
  }

  // A due record outside a batch is later than every record in it, and the batch is full.
  lemma BatchByColumns(w: World, now: int, limit: nat, ids: seq<FileId>)
    requires IsBatch(w, now, limit, ids)
    ensures forall i, k :: 0 <= i < k < |ids| ==>
      ids[i] in w.records && ids[k] in w.records && w.records[ids[i]].expires.Some? && w.records[ids[k]].expires.Some?
      && w.records[ids[i]].expires.value <= w.records[ids[k]].expires.value
    ensures forall k :: k in Due(w, now) && k !in ids ==> |ids| == limit
  {
    forall i, k | 0 <= i < k < |ids|
      ensures ids[i] in w.records && ids[k] in w.records && w.records[ids[i]].expires.Some?
      ensures w.records[ids[k]].expires.Some? && w.records[ids[i]].expires.value <= w.records[ids[k]].expires.value
    {
      assert ids[i] in Due(w, now) && ids[k] in Due(w, now);
      assert Expiry(w, ids[i]) <= Expiry(w, ids[k]);
    }
    if k :| k in Due(w, now) && k !in ids && |ids| != limit {
      assert Elements(ids) <= Due(w, now) - {k};
      ElementsSize(ids);
      Sets.SubsetSize(Elements(ids), Due(w, now) - {k});
      assert false;
    }
  }

  class CleanupService {
    var world: World

    constructor (world: World)
      ensures this.world == world
    {
      this.world := world;
    }

    // The next record in the order of expiry.
    method Earliest(left: set<FileId>) returns (id: FileId)
      requires left != {}
      ensures id in left && forall k :: k in left ==> Expiry(world, id) <= Expiry(world, k)
    {
      id :| id in left;
      var rest := left - {id};
      while rest != {}
        invariant rest <= left && id in left
        invariant forall k :: k in left && k !in rest ==> Expiry(world, id) <= Expiry(world, k)
        decreases rest
      {
        var k :| k in rest;
        rest := rest - {k};
        if Expiry(world, k) < Expiry(world, id) {
          id := k;
        }
      }
    }

    /** The query of the expired records: unmarked ones whose expiry is not later than now, the earliest first, and all
        of them if the limit allows. */
    method Expired(now: int, limit: nat) returns (ids: seq<FileId>)
      ensures IsBatch(world, now, limit, ids)
      ensures forall k :: k in ids ==> k in world.records && world.records[k].deletedAt == None
                                       && world.records[k].expires.Some? && world.records[k].expires.value <= now
      ensures forall i, k :: 0 <= i < k < |ids| ==>
        ids[i] != ids[k] && world.records[ids[i]].expires.value <= world.records[ids[k]].expires.value
      ensures forall k :: k in world.records && k !in ids && world.records[k].deletedAt == None
                          && world.records[k].expires.Some? && world.records[k].expires.value <= now ==>
        |ids| == limit && forall m :: m in ids ==> world.records[m].expires.value <= world.records[k].expires.value
    {
      ids := [];
      var left := Due(world, now);
      while left != {} && |ids| < limit
        invariant Picked(world, now, ids, left) && |ids| <= limit
        decreases left
      {
        var id := Earliest(left);
        PickNext(world, now, ids, left, id);
        ids, left := ids + [id], left - {id};
      }
      PickDone(world, now, ids, left, limit);
      BatchByColumns(world, now, limit, ids);
    }

    // The body of the inner loop: a failed removal leaves the record for another time.
    method CleanFile(id: FileId, f: Faults, now: int)
      requires id in world.records
      modifies this`world
      ensures world == CleanOne(old(world), f, id, now)
    {
      if id in f.files {
        return;
      }
      world := world.(disk := world.disk - {world.records[id].path});
      if id !in f.rows && world.records[id].deletedAt == None {
        world := world.(records := world.records[id := world.records[id].(deletedAt := Some(now))]);
      }
    }

    method CleanBatch(items: seq<FileId>, f: Faults, now: int)
      requires Elements(items) <= world.records.Keys
      modifies this`world
      ensures world == CleanAll(old(world), f, items, now)
    {
      for i := 0 to |items|
        invariant world == CleanAll(old(world), f, items[..i], now)
        invariant world.records.Keys == old(world).records.Keys
      {
        assert items[..i + 1][..i] == items[..i];
        assert items[i] in Elements(items);
        CleanFile(items[i], f, now);
      }
      assert items[..|items|] == items;
    }

    /** One cleanup under a fixed clock. Any attempt may fail: faults(k, items) says which do when round k takes the
        batch items, and all it must grant is that a hundred different due files are never all stuck in one round (for
        faults that stay the same, that fewer than a hundred due files are: SteadyFaultsMarkExactly). The cleanup then
        ends. It has touched due files only, and a later cleanup without failures still comes to the same end; unless
        a query failed, what is left due failed in the last round. If always the same steady fails, it reaches that
        end state. */
    method Once(now: int, faults: (nat, seq<FileId>) -> Faults, ghost steady: Option<Faults>)
        returns (finished: bool, last: Faults)
      requires PathsUnique(world.records)
      requires forall k: nat, ids: seq<FileId> :: FullBatch(world, ids, now) ==> Marks(ids, faults(k, ids))
      requires steady.Some? ==> forall k: nat, ids: seq<FileId> :: faults(k, ids) == steady.value
      modifies this`world
      ensures Progressed(old(world), world, now) && Final(world, NONE, now) == Final(old(world), NONE, now)
      ensures finished ==> forall k :: k in world.records && k !in last.files + last.rows ==>
        world.records[k].deletedAt.Some? || world.records[k].expires.None? || world.records[k].expires.value > now
      ensures finished ==> forall k :: k in Due(world, now) && k !in last.files ==> world.records[k].path !in world.disk
      ensures finished && steady.Some? ==> world == Final(old(world), steady.value, now)
    {
      var round := 0;
      last := NONE;
      while true
        invariant PathsUnique(world.records) && Progressed(old(world), world, now)
        invariant Final(world, NONE, now) == Final(old(world), NONE, now)
        invariant steady.Some? ==> Final(world, steady.value, now) == Final(old(world), steady.value, now)
        decreases Size(Due(world, now))
      {
        var answered: bool := *;
        if !answered {
          return false, last;
        }
        var items := Expired(now, BATCH);
        assert Elements(items) <= Due(world, now) <= Due(old(world), now);
        last := faults(round, items);
        var short := RunRound(items, last, now, steady, old(world));
        if short {
          return true, last;
        }
        round := round + 1;
      }
      finished := true;
    }

    // One round from world w0 on: says whether the batch was short.
    method RunRound(items: seq<FileId>, f: Faults, now: int, ghost steady: Option<Faults>, ghost w0: World)
        returns (short: bool)
      requires PathsUnique(world.records) && Progressed(w0, world, now) && IsBatch(world, now, BATCH, items)
      requires |items| == BATCH ==> Marks(items, f)
      requires steady.Some? ==> f == steady.value
      modifies this`world
      ensures PathsUnique(world.records) && Progressed(w0, world, now)
      ensures Final(world, NONE, now) == Final(old(world), NONE, now) && Final(world, f, now) == Final(old(world), f, now)
      ensures !short ==> Size(Due(world, now)) < Size(Due(old(world), now))
      ensures short ==> Due(world, now) <= f.files + f.rows && world == Final(old(world), f, now)
      ensures short ==> forall k :: k in Due(world, now) && k !in f.files ==> world.records[k].path !in world.disk
    {
      ghost var before := world;
      assert Elements(items) <= Due(world, now);
      BatchKeepsTheEnd(before, f, NONE, items, now);
      BatchKeepsTheEnd(before, f, f, items, now);
      ProgressAddsUp(w0, before, CleanAll(before, f, items, now), now);
      CleanBatch(items, f, now);
      short := |items| < BATCH;
      if short {
        AllTaken(before, items, now);
        LastBatchFinishes(before, f, items, now);
        WholeBatchLeaves(before, f, items, now);
      } else {
        RoundShrinks(before, f, items, now);
      }
    }
  }

  lemma AllTaken(w: World, ids: seq<FileId>, now: int)
    requires IsBatch(w, now, BATCH, ids) && |ids| < BATCH
    ensures Elements(ids) == Due(w, now)
  {
    assert Elements(ids) <= Due(w, now);
    ElementsSize(ids);
    Sets.SubsetSize(Elements(ids), Due(w, now));
  }
}
