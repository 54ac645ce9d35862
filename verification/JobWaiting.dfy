/** How often an eligible job can be passed over. */
module JobWaiting {
  import opened JobTable
  import opened JobSystem
  import opened JobRuns

  // ---------- Bounded waiting ----------

  // The claims a live row may still take.
  function Weight(r: Row, c: int): nat {
    if r.createdAt <= c && !Terminal(r.status) && r.attempts < r.maxAttempts then r.maxAttempts - r.attempts else 0
  }

  ghost function Total(t: Table, ks: set<JobId>, c: int): nat
    requires ks <= t.Keys
    decreases ks
  {
    if ks == {} then 0 else var k :| k in ks; Weight(t[k], c) + Total(t, ks - {k}, c)
  }

  // The claims that jobs created no later than c, other than j, may still take.
  ghost function Potential(s: Sys, j: JobId, c: int): nat { Total(s.table, s.table.Keys - {j}, c) }

  lemma {:induction false} TotalPick(t: Table, ks: set<JobId>, c: int, k: JobId)
    requires ks <= t.Keys && k in ks
    ensures Total(t, ks, c) == Weight(t[k], c) + Total(t, ks - {k}, c)
    decreases ks
  {
    var m :| m in ks && Total(t, ks, c) == Weight(t[m], c) + Total(t, ks - {m}, c);
    if m != k {
      TotalPick(t, ks - {m}, c, k);
      TotalPick(t, ks - {k}, c, m);
      assert ks - {m} - {k} == ks - {k} - {m};
    }
  }

  lemma {:induction false} TotalLe(t: Table, t': Table, ks: set<JobId>, ks': set<JobId>, c: int)
    requires ks <= t.Keys && ks' <= t'.Keys && ks' <= ks
    requires forall k :: k in ks' ==> Weight(t'[k], c) <= Weight(t[k], c)
    ensures Total(t', ks', c) <= Total(t, ks, c)
    decreases ks
  {
    if k :| k in ks' {
      TotalPick(t, ks, c, k);
      TotalPick(t', ks', c, k);
      TotalLe(t, t', ks - {k}, ks' - {k}, c);
    }
  }

  // A claim of another job at a moment when j itself could have been claimed.
  predicate Overtakes(s: Sys, e: Event, j: JobId) {
    e.ClaimNext? && e.id != j && j in s.table && Eligible(s.table[j], e.at)
  }

  // What a step can add to the potential: a new job stamped no later than c, or a user's retry of such a job.
  function Raise(s: Sys, e: Event, j: JobId, c: int): nat {
    if e.CreateJob? && e.id != j && e.at <= c then DEFAULT_MAX_ATTEMPTS
    else if e.UserRetry? && e.id != j && Retried(s, e, e.id) && s.table[e.id].createdAt <= c
    then DEFAULT_MAX_ATTEMPTS
    else 0
  }

  lemma StmtWeight(q: Stmt, r: Row, k: JobId, c: int)
    requires RowOk(r)
    ensures RowAfter(q, r, k).createdAt == r.createdAt
    ensures Weight(RowAfter(q, r, k), c) <= DEFAULT_MAX_ATTEMPTS
    ensures !(q.Retry? && q.id == k && Guard(q, r)) ==> Weight(RowAfter(q, r, k), c) <= Weight(r, c)
  {
  }

  lemma ClaimWeight(q: Stmt, r: Row, c: int)
    requires RowOk(r) && q.Claim? && Guard(q, r) && r.createdAt <= c
    ensures Weight(Effect(q, r), c) + 1 == Weight(r, c)
  {
  }

  lemma SweepWeight(e: Event, r: Row, open: bool, c: int)
    requires RowOk(r)
    ensures SweptRow(e, r, open).createdAt == r.createdAt
    ensures Weight(SweptRow(e, r, open), c) <= Weight(r, c) <= DEFAULT_MAX_ATTEMPTS
  {
  }

  lemma WeightStep(s: Sys, e: Event, k: JobId, c: int)
    requires k in s.table && RowOk(s.table[k])
    ensures NextRow(s, e, k).createdAt == s.table[k].createdAt
    ensures Weight(NextRow(s, e, k), c) <= DEFAULT_MAX_ATTEMPTS
    ensures !Retried(s, e, k) ==> Weight(NextRow(s, e, k), c) <= Weight(s.table[k], c)
  {
    if StmtOf(s, e).Some? {
      StmtKind(s, e);
      StmtTarget(s, e);
      StmtWeight(StmtOf(s, e).value, s.table[k], k, c);
    } else {
      SweepWeight(e, s.table[k], OpenTask(s.calls, k), c);
    }
  }

  lemma ClaimStep(s: Sys, e: Event, c: int)
    requires e.ClaimNext? && e.id in s.table && RowOk(s.table[e.id])
    requires Eligible(s.table[e.id], e.at) && s.table[e.id].createdAt <= c
    ensures Weight(NextRow(s, e, e.id), c) + 1 <= Weight(s.table[e.id], c)
  {
    ClaimWeight(StmtOf(s, e).value, s.table[e.id], c);
  }

  // The weight of k in the next table, and the total without k.
  lemma PotentialWithout(s: Sys, e: Event, j: JobId, c: int, k: JobId)
    requires Inv(s) && Enabled(s, e)
    requires forall m :: m in s.table && m != k && m != j ==> Weight(NextRow(s, e, m), c) <= Weight(s.table[m], c)
    requires e.CreateJob? ==> e.id == k
    ensures var ks := s.table.Keys - {j} - {k}; var ks' := NextTable(s, e).Keys - {j} - {k};
      Total(NextTable(s, e), ks', c) <= Total(s.table, ks, c)
  {
    var t' := NextTable(s, e);
    var ks := s.table.Keys - {j} - {k};
    var ks' := t'.Keys - {j} - {k};
    forall m | m in ks' ensures m in ks && Weight(t'[m], c) <= Weight(s.table[m], c) {
      TableStep(s, e, m);
    }
    TotalLe(s.table, t', ks, ks', c);
  }

  // The job that a step may add, retry or claim; for any other step, j itself.
  function Mover(e: Event, j: JobId): JobId {
    if e.CreateJob? || e.UserRetry? || e.ClaimNext? then e.id else j
  }

  function Share(t: Table, j: JobId, c: int, k: JobId): nat { if k in t && k != j then Weight(t[k], c) else 0 }

  lemma TotalSplit(t: Table, j: JobId, c: int, k: JobId)
    ensures Total(t, t.Keys - {j}, c)
         == Total(t, t.Keys - {j} - {k}, c) + Share(t, j, c, k)
  {
    if k in t && k != j {
      TotalPick(t, t.Keys - {j}, c, k);
    } else {
      assert t.Keys - {j} - {k} == t.Keys - {j};
    }
  }

  lemma MoverStep(s: Sys, e: Event, j: JobId, c: int)
    requires Inv(s) && Enabled(s, e) && j in s.table && s.table[j].createdAt == c
    ensures Share(NextTable(s, e), j, c, Mover(e, j)) + (if Overtakes(s, e, j) then 1 else 0)
            <= Share(s.table, j, c, Mover(e, j)) + Raise(s, e, j, c)
  {
    var k := Mover(e, j);
    if k != j {
      TableStep(s, e, k);
      if k in s.table {
        WeightStep(s, e, k, c);
        if e.ClaimNext? && s.table[k].createdAt <= c {
          ClaimStep(s, e, c);
        }
      }
    }
  }

  /** Overtaking uses the potential up, and only a job stamped in time or a user retry refills it. */
  lemma PotentialStep(s: Sys, e: Event, j: JobId, c: int)
    requires Inv(s) && Enabled(s, e) && j in s.table && s.table[j].createdAt == c
    ensures Potential(Next(s, e), j, c) + (if Overtakes(s, e, j) then 1 else 0) <= Potential(s, j, c) + Raise(s, e, j, c)
  {
    var k, t' := Mover(e, j), NextTable(s, e);
    forall m | m in s.table && m != k && m != j ensures Weight(NextRow(s, e, m), c) <= Weight(s.table[m], c) {
      WeightStep(s, e, m, c);
    }
    PotentialWithout(s, e, j, c, k);
    TotalSplit(s.table, j, c, k);
    TotalSplit(t', j, c, k);
    MoverStep(s, e, j, c);
  }

  // Steps a <= i < b that overtake j, and what those steps add to the potential.
  function Overtaken(ss: seq<Sys>, es: seq<Event>, j: JobId, a: nat, b: nat): nat
    requires a <= b <= |es| < |ss|
    decreases b
  {
    if a == b then 0 else Overtaken(ss, es, j, a, b - 1) + if Overtakes(ss[b - 1], es[b - 1], j) then 1 else 0
  }

  function Raised(ss: seq<Sys>, es: seq<Event>, j: JobId, c: int, a: nat, b: nat): nat
    requires a <= b <= |es| < |ss|
    decreases b
  {
    if a == b then 0 else Raised(ss, es, j, c, a, b - 1) + Raise(ss[b - 1], es[b - 1], j, c)
  }

  // What one step does to the potential of a job stamped c.
  ghost predicate WaitingStep(s: Sys, e: Event, s': Sys, j: JobId, c: int) {
    Potential(s', j, c) + (if Overtakes(s, e, j) then 1 else 0) <= Potential(s, j, c) + Raise(s, e, j, c)
  }

  lemma WaitingAt(ss: seq<Sys>, es: seq<Event>, j: JobId, i: nat)
    requires Execution(ss, es) && i < |es| && j in ss[i].table && j in ss[i + 1].table
    ensures ss[i + 1].table[j].createdAt == ss[i].table[j].createdAt
    ensures WaitingStep(ss[i], es[i], ss[i + 1], j, ss[i].table[j].createdAt)
  {
    var c := ss[i].table[j].createdAt;
    SoundStepAt(ss, es, i);
    PotentialStep(ss[i], es[i], j, c);
    TableStep(ss[i], es[i], j);
    WeightStep(ss[i], es[i], j, c);
  }

  lemma {:induction false} OvertakesAddUp(ss: seq<Sys>, es: seq<Event>, j: JobId, c: int, a: nat, b: nat)
    requires a <= b <= |es| < |ss|
    requires forall i {:trigger es[i]} :: a <= i < b ==> WaitingStep(ss[i], es[i], ss[i + 1], j, c)
    ensures Overtaken(ss, es, j, a, b) + Potential(ss[b], j, c) <= Potential(ss[a], j, c) + Raised(ss, es, j, c, a, b)
    decreases b
  {
    if a < b {
      OvertakesAddUp(ss, es, j, c, a, b - 1);
      assert WaitingStep(ss[b - 1], es[b - 1], ss[b - 1 + 1], j, c);
    }
  }

  /** Bounded waiting: while job j is stored, the claims that pass it over while it is eligible are at most the
      attempts left to the live jobs no younger than it, plus three for each job that a create with the same or an
      earlier stamp or a user retry brings in. */
  lemma BoundedWaiting(ss: seq<Sys>, es: seq<Event>, j: JobId, a: nat, b: nat)
    requires Execution(ss, es) && a <= b <= |es|
    requires forall i :: a <= i <= b ==> j in ss[i].table
    ensures var c := ss[a].table[j].createdAt;
      Overtaken(ss, es, j, a, b) <= Potential(ss[a], j, c) + Raised(ss, es, j, c, a, b)
  {
    var c := ss[a].table[j].createdAt;
    forall i | a <= i < b ensures WaitingStep(ss[i], es[i], ss[i + 1], j, c) {
      IdentityIsFixed(ss, es, j, a, i);
      WaitingAt(ss, es, j, i);
    }
    OvertakesAddUp(ss, es, j, c, a, b);
  }
}
