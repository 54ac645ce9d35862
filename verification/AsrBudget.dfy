/**
 The budget over whole runs. Every process has one mutex, and the goroutine that holds it checks the budget, inserts a
 call, waits for the provider and settles the call. The processes on one ledger know nothing of one another, while jobs
 are deleted and processes are lost at any moment. The processes share one clock, and a process reads it and runs its
 query in one step.
 */
module AsrBudgets {
  import opened Wrappers
  import opened AsrLedger

  // What a goroutine wants to send, with the estimate that it makes on entry.
  datatype Order = Order(job: JobId, seconds: real, estimate: real)

  // Where the goroutine that holds the mutex of its process stands.
  datatype Holder =
    | Idle
    | Entered(order: Order)
    | MonthChecked(order: Order, t1: nat)
    | Checked(order: Order, t1: nat, t2: nat)
    | Calling(order: Order, id: CallId)

  // One holder for each process. gone is history: the calls of deleted jobs.
  datatype State = State(rows: seq<Call>, clock: nat, holders: seq<Holder>, used: set<CallId>, gone: seq<Call>)

  datatype Event =
    | Enter(p: nat, job: JobId, seconds: real)
    | CheckMonth(p: nat, t: nat)
    | CheckDay(p: nat, t: nat)
    | Insert(p: nat, id: CallId, t: nat)
    | ReportTask(p: nat, task: string)
    | Answer(p: nat, billed: real, reported: Option<string>)
    | Refuse(p: nat, again: bool)    // again: the fallback provider is tried, and checks the budget anew
    | Leave(p: nat)                  // any error before the insert, a lost process
    | Delete(job: JobId)

  function Initial(n: nat): State { State([], 0, seq(n, _ => Idle), {}, []) }

  predicate Enabled(s: State, e: Event) {
    match e
    case Enter(p, _, seconds) => p < |s.holders| && s.holders[p].Idle? && seconds >= 0.0
    case CheckMonth(p, t) => p < |s.holders| && s.holders[p].Entered? && s.clock <= t
    case CheckDay(p, t) => p < |s.holders| && s.holders[p].MonthChecked? && s.clock <= t
    case Insert(p, id, t) => p < |s.holders| && s.holders[p].Checked? && s.clock <= t && id !in s.used
    case ReportTask(p, _) => p < |s.holders| && s.holders[p].Calling?
    case Answer(p, _, _) => p < |s.holders| && s.holders[p].Calling?
    case Refuse(p, _) => p < |s.holders| && s.holders[p].Calling?
    case Leave(p) => p < |s.holders|
    case Delete(_) => true
  }

  // The ledger change of a settling step.
  function ChangeOf(b: Budget, h: Holder, e: Event): Change
    requires h.Calling?
  {
    match e
    case ReportTask(_, task) => TaskKnown(task)
    case Answer(_, billed, reported) => Settled(reported, billed, Actual(b, billed, h.order.estimate))
    case _ => GivenUp
  }

  // Where the step leaves the process that takes it, which stood at h.
  function Moved(b: Budget, rows: seq<Call>, h: Holder, e: Event): Holder {
    match e
    case Enter(_, job, seconds) => Entered(Order(job, seconds, Estimate(b, seconds)))
    case CheckMonth(_, t) =>
      if h.Entered? && MonthAllows(rows, b, h.order.estimate, t) then MonthChecked(h.order, t) else Idle
    case CheckDay(_, t) =>
      if h.MonthChecked? && DayAllows(rows, b, h.order.estimate, t) then Checked(h.order, h.t1, t) else Idle
    case Insert(_, id, t) => if h.Checked? then Calling(h.order, id) else Idle
    case ReportTask(_, _) => h
    case Refuse(_, again) => if again && h.Calling? then Entered(h.order) else Idle
    case _ => Idle
  }

  function Next(b: Budget, s: State, e: Event): State
    requires Enabled(s, e)
  {
    if e.Delete? then s.(rows := Without(s.rows, e.job), gone := s.gone + Only(s.rows, e.job))
    else
      var h := s.holders[e.p];
      var s' := s.(holders := s.holders[e.p := Moved(b, s.rows, h, e)]);
      match e
      case CheckMonth(_, t) => s'.(clock := t)
      case CheckDay(_, t) => s'.(clock := t)
      case Insert(_, id, t) => s'.(clock := t, used := s.used + {id}, rows := s.rows + [NewCall(h.order, id, t)])
      case ReportTask(_, _) => s'.(rows := Updated(s.rows, h.id, ChangeOf(b, h, e)))
      case Answer(_, _, _) => s'.(rows := Updated(s.rows, h.id, ChangeOf(b, h, e)))
      case Refuse(_, _) => s'.(rows := Updated(s.rows, h.id, ChangeOf(b, h, e)))
      case _ => s'
  }

  function NewCall(o: Order, id: CallId, t: nat): Call {
    Call(id, o.job, o.seconds, None, o.estimate, t, Submitted, None)
  }

  // The provider bills no more than the audio it was sent.
  predicate Honest(s: State, e: Event) {
    e.Answer? && e.p < |s.holders| && s.holders[e.p].Calling? ==> 0.0 <= e.billed <= s.holders[e.p].order.seconds
  }

  // No call is estimated at more than most.
  predicate Fits(b: Budget, e: Event, most: real) { e.Enter? ==> Estimate(b, e.seconds) <= most }

  // ---------- The windows of the caps ----------

  datatype Window = Day(d: nat) | Month(m: nat)

  function From(w: Window): nat { match w case Day(d) => d * DAY case Month(m) => MonthStart(m) * DAY }

  function To(w: Window): nat { match w case Day(d) => d * DAY + DAY case Month(m) => MonthStart(m + 1) * DAY }

  function Cap(b: Budget, w: Window): real { if w.Day? then b.daily else b.monthly }

  function InWindow(rows: seq<Call>, w: Window): real { Total(rows, From(w), To(w)) }

  // ---------- What the processes may still insert ----------

  // A process that passed the check of this kind of cap may insert its estimate in any window that is not over.
  predicate Holds(h: Holder, w: Window) {
    match w
    case Day(_) => h.Checked? && h.t2 < To(w)
    case Month(_) => (h.MonthChecked? || h.Checked?) && h.t1 < To(w)
  }

  function Claim(h: Holder, w: Window): real { if Holds(h, w) && !h.Idle? then h.order.estimate else 0.0 }

  function Claims(hs: seq<Holder>, w: Window): real {
    if hs == [] then 0.0 else Claims(hs[..|hs| - 1], w) + Claim(hs[|hs| - 1], w)
  }

  // n times the most, by addition.
  function Times(n: nat, most: real): real { if n == 0 then 0.0 else Times(n - 1, most) + most }

  // A call that is not settled.
  predicate OpenCall(c: Call, o: Order) {
    c.cost == o.estimate && c.audio == o.seconds && (c.status.Submitted? || c.status.Running?)
  }

  predicate HolderOk(s: State, h: Holder, most: real) {
    && (!h.Idle? ==> 0.0 <= h.order.estimate <= most)
    && (h.MonthChecked? ==> h.t1 <= s.clock)
    && (h.Checked? ==> h.t1 <= h.t2 <= s.clock)
    && (h.Calling? ==> h.id in s.used && forall c :: c in s.rows && c.id == h.id ==> OpenCall(c, h.order))
  }

  predicate HoldersOk(s: State, most: real) {
    && (forall p :: 0 <= p < |s.holders| ==> HolderOk(s, s.holders[p], most))
    && (forall p, q :: 0 <= p < q < |s.holders| && s.holders[p].Calling? && s.holders[q].Calling? ==>
          s.holders[p].id != s.holders[q].id)
    && (forall c :: c in s.rows ==> c.id in s.used)
  }

  predicate Priced(b: Budget, h: Holder) { !h.Idle? ==> h.order.estimate == Estimate(b, h.order.seconds) }

  // The recorded total and what may still be inserted exceed the cap by no more than all processes but one can add.
  predicate RoomFor(b: Budget, s: State, most: real, w: Window) {
    Cap(b, w) > 0.0 && |s.holders| > 0 ==>
      InWindow(s.rows, w) + Claims(s.holders, w) <= Cap(b, w) + Times(|s.holders| - 1, most)
  }

  ghost predicate Inv(b: Budget, s: State, most: real) {
    && most >= 0.0 && Until(s.rows, s.clock) && HoldersOk(s, most)
    && (forall w :: RoomFor(b, s, most, w))
    && forall p :: 0 <= p < |s.holders| ==> Priced(b, s.holders[p])
  }

  predicate AllFit(hs: seq<Holder>, most: real) {
    forall p :: 0 <= p < |hs| && !hs[p].Idle? ==> 0.0 <= hs[p].order.estimate <= most
  }

  lemma {:induction false} ClaimsBound(hs: seq<Holder>, w: Window, most: real)
    requires most >= 0.0 && AllFit(hs, most)
    ensures 0.0 <= Claims(hs, w) <= Times(|hs|, most)
  {
    if hs != [] {
      ClaimsBound(hs[..|hs| - 1], w, most);
    }
  }

  // One process moves: its claim changes, and the claims of the others are bounded.
  lemma {:induction false} ClaimsMove(hs: seq<Holder>, p: nat, h: Holder, w: Window, most: real)
    requires most >= 0.0 && AllFit(hs, most) && p < |hs|
    ensures Claims(hs[p := h], w) == Claims(hs, w) - Claim(hs[p], w) + Claim(h, w)
    ensures Claims(hs, w) - Claim(hs[p], w) <= Times(|hs| - 1, most)
  {
    var front := hs[..|hs| - 1];
    if p == |hs| - 1 {
      assert hs[p := h][..|hs| - 1] == front;
      ClaimsBound(front, w, most);
    } else {
      assert hs[p := h][..|hs| - 1] == front[p := h];
      ClaimsMove(front, p, h, w, most);
    }
  }

  // ---------- One step ----------

  lemma DaysInOrder(a: nat, b: nat)
    requires a <= b
    ensures a * DAY <= b * DAY
  {
  }

  // Two windows of one kind are the same, or the first is over before the second, or the other way round.
  lemma WindowsInOrder(v: Window, w: Window)
    requires v.Day? == w.Day?
    ensures v == w || To(v) <= From(w) || To(w) <= From(v)
  {
    if v.Month? && v.m < w.m {
      MonthsInOrder(v.m + 1, w.m);
      DaysInOrder(MonthStart(v.m + 1), MonthStart(w.m));
    } else if v.Month? && w.m < v.m {
      MonthsInOrder(w.m + 1, v.m);
      DaysInOrder(MonthStart(w.m + 1), MonthStart(v.m));
    } else if v.Day? && v.d < w.d {
      DaysInOrder(v.d + 1, w.d);
    } else if v.Day? && w.d < v.d {
      DaysInOrder(w.d + 1, v.d);
    }
  }

  // A passed check leaves room for the estimate in every window that is not over.
  lemma CheckLeavesRoom(rows: seq<Call>, cap: real, estimate: real, t: nat, here: Window, w: Window)
    requires Until(rows, t) && From(here) <= t < To(here) && here.Day? == w.Day? && t < To(w)
    requires InWindow(rows, here) + estimate <= cap
    ensures InWindow(rows, w) + estimate <= cap
  {
    WindowsInOrder(here, w);
    TotalNotNegative(rows, t, From(here), To(here));
    TotalNotNegative(rows, t, From(w), To(w));
  }

  lemma HereAndNow(t: nat)
    ensures From(Day(DayOf(t))) <= t < To(Day(DayOf(t))) && From(Month(MonthOf(t))) <= t < To(Month(MonthOf(t)))
  {
  }

  // A passed check makes a claim that has room, or no greater claim.
  lemma MonthClaims(b: Budget, rows: seq<Call>, o: Order, t: nat, w: Window)
    requires Until(rows, t) && 0.0 <= o.estimate && Cap(b, w) > 0.0 && MonthAllows(rows, b, o.estimate, t)
    ensures var claim := Claim(MonthChecked(o, t), w); claim <= 0.0 || InWindow(rows, w) + claim <= Cap(b, w)
  {
    if w.Month? && t < To(w) {
      HereAndNow(t);
      CheckLeavesRoom(rows, Cap(b, w), o.estimate, t, Month(MonthOf(t)), w);
    }
  }

  lemma DayClaims(b: Budget, rows: seq<Call>, h: Holder, t: nat, w: Window)
    requires h.MonthChecked?
    requires Until(rows, t) && 0.0 <= h.order.estimate && Cap(b, w) > 0.0 && DayAllows(rows, b, h.order.estimate, t)
    ensures var claim := Claim(Checked(h.order, h.t1, t), w);
      claim <= Claim(h, w) || InWindow(rows, w) + claim <= Cap(b, w)
  {
    if w.Day? && t < To(w) {
      HereAndNow(t);
      CheckLeavesRoom(rows, Cap(b, w), h.order.estimate, t, Day(DayOf(t)), w);
    }
  }

  lemma CheckClaims(b: Budget, rows: seq<Call>, h: Holder, e: Event, w: Window)
    requires (e.CheckMonth? && h.Entered?) || (e.CheckDay? && h.MonthChecked?)
    requires Until(rows, e.t) && 0.0 <= h.order.estimate && Cap(b, w) > 0.0
    ensures var h' := Moved(b, rows, h, e);
      Claim(h', w) <= Claim(h, w) || InWindow(rows, w) + Claim(h', w) <= Cap(b, w)
  {
    if e.CheckMonth? {
      if MonthAllows(rows, b, h.order.estimate, e.t) {
        MonthClaims(b, rows, h.order, e.t, w);
      }
    } else if DayAllows(rows, b, h.order.estimate, e.t) {
      DayClaims(b, rows, h, e.t, w);
    }
  }

  // No other step that inserts nothing makes a claim greater.
  lemma OtherClaims(b: Budget, rows: seq<Call>, h: Holder, e: Event, w: Window)
    requires !e.CheckMonth? && !e.CheckDay? && !e.Insert? && (!h.Idle? ==> 0.0 <= h.order.estimate)
    ensures Claim(Moved(b, rows, h, e), w) <= Claim(h, w)
  {
  }

  // The claim of one process goes from c to c', the total grows by added, and others bounds the claims of the others.
  lemma RoomSums(total: real, added: real, claims: real, c: real, c': real, cap: real, others: real)
    requires claims - c <= others && total + claims <= cap + others
    requires added + c' <= c || (added <= 0.0 && total + c' <= cap)
    ensures total + added + (claims - c + c') <= cap + others
  {
  }

  // One process moves: its claim covers what is added and what it claims then, or there is room for it.
  lemma MoveKeepsRoom(b: Budget, s: State, s': State, p: nat, h: Holder, added: real, most: real, w: Window)
    requires most >= 0.0 && AllFit(s.holders, most) && p < |s.holders| && s'.holders == s.holders[p := h]
    requires RoomFor(b, s, most, w) && InWindow(s'.rows, w) <= InWindow(s.rows, w) + added
    requires added + Claim(h, w) <= Claim(s.holders[p], w)
             || (Cap(b, w) > 0.0 ==> added <= 0.0 && InWindow(s.rows, w) + Claim(h, w) <= Cap(b, w))
    ensures RoomFor(b, s', most, w)
  {
    ClaimsMove(s.holders, p, h, w, most);
    if Cap(b, w) > 0.0 {
      RoomSums(InWindow(s.rows, w), added, Claims(s.holders, w), Claim(s.holders[p], w), Claim(h, w), Cap(b, w),
               Times(|s.holders| - 1, most));
    }
  }

  lemma CheckKeepsRoom(b: Budget, s: State, e: Event, most: real, w: Window)
    requires most >= 0.0 && Until(s.rows, s.clock) && HoldersOk(s, most) && RoomFor(b, s, most, w)
    requires Enabled(s, e) && (e.CheckMonth? || e.CheckDay?)
    ensures RoomFor(b, Next(b, s, e), most, w)
  {
    var h := s.holders[e.p];
    assert HolderOk(s, h, most) && AllFit(s.holders, most);
    if Cap(b, w) > 0.0 {
      CheckClaims(b, s.rows, h, e, w);
    }
    MoveKeepsRoom(b, s, Next(b, s, e), e.p, Moved(b, s.rows, h, e), 0.0, most, w);
  }

  // An insert spends a claim that covers it.
  lemma ClaimCovers(h: Holder, id: CallId, t: nat, w: Window)
    requires h.Checked? && h.t1 <= h.t2 <= t && 0.0 <= h.order.estimate
    ensures (if From(w) <= t < To(w) then h.order.estimate else 0.0) + Claim(Calling(h.order, id), w) <= Claim(h, w)
  {
  }

  lemma InsertKeepsRoom(b: Budget, s: State, e: Event, most: real, w: Window)
    requires most >= 0.0 && HoldersOk(s, most) && RoomFor(b, s, most, w) && Enabled(s, e) && e.Insert?
    ensures RoomFor(b, Next(b, s, e), most, w)
  {
    var h := s.holders[e.p];
    assert HolderOk(s, h, most) && AllFit(s.holders, most);
    ClaimCovers(h, e.id, e.t, w);
    TotalAppend(s.rows, NewCall(h.order, e.id, e.t), From(w), To(w));
    MoveKeepsRoom(b, s, Next(b, s, e), e.p, Calling(h.order, e.id),
                  if From(w) <= e.t < To(w) then h.order.estimate else 0.0, most, w);
  }

  // A step that checks and inserts nothing makes no total and no claim bigger.
  lemma OtherKeepsRoom(b: Budget, s: State, e: Event, most: real, w: Window)
    requires most >= 0.0 && HoldersOk(s, most) && RoomFor(b, s, most, w)
    requires Enabled(s, e) && !(e.CheckMonth? || e.CheckDay? || e.Insert?)
    requires InWindow(Next(b, s, e).rows, w) <= InWindow(s.rows, w)
    ensures RoomFor(b, Next(b, s, e), most, w)
  {
    if !e.Delete? {
      var h := s.holders[e.p];
      assert HolderOk(s, h, most) && AllFit(s.holders, most);
      OtherClaims(b, s.rows, h, e, w);
      MoveKeepsRoom(b, s, Next(b, s, e), e.p, Moved(b, s.rows, h, e), 0.0, most, w);
    }
  }

  lemma RowsStep(b: Budget, s: State, e: Event, most: real)
    requires b.price >= 0.0 && Inv(b, s, most) && Enabled(s, e) && Honest(s, e) && !e.Insert?
    ensures Until(Next(b, s, e).rows, Next(b, s, e).clock)
    ensures forall lo, hi :: Total(Next(b, s, e).rows, lo, hi) <= Total(s.rows, lo, hi)
  {
    if e.Delete? {
      DeleteIsLower(s.rows, e.job, s.clock);
    } else if s.holders[e.p].Calling? && (e.ReportTask? || e.Answer? || e.Refuse?) {
      var h := s.holders[e.p];
      assert HolderOk(s, h, most) && Priced(b, h);
      if e.Answer? {
        ActualIsLower(b, e.billed, h.order.seconds);
      }
      UpdateIsLower(s.rows, h.id, ChangeOf(b, h, e), s.clock);
    }
  }

  // The row of a call in progress, as it is after its task was reported.
  predicate Reported(rows: seq<Call>, c: Call) {
    exists c0 :: c0 in rows && c == c0.(task := c.task, status := Running)
  }

  // What a step does to the rows of a call that it does not settle.
  lemma OtherRows(b: Budget, s: State, e: Event, c: Call)
    requires Enabled(s, e) && c in Next(b, s, e).rows
    ensures c in s.rows || (e.Insert? && c.id == e.id) ||
            (!e.Delete? && s.holders[e.p].Calling? && c.id == s.holders[e.p].id && c.id in Ids(s.rows) &&
             (e.ReportTask? ==> Reported(s.rows, c)))
  {
    if e.Delete? {
      PartsOf(s.rows, e.job);
    } else if e.ReportTask? || e.Answer? || e.Refuse? {
      var i :| 0 <= i < |s.rows| && Next(b, s, e).rows[i] == c;
      assert s.rows[i] in s.rows;
    }
  }

  function Ids(rows: seq<Call>): set<CallId> { set c | c in rows :: c.id }

  lemma {:induction false} PartsOf(rows: seq<Call>, job: JobId)
    ensures forall c :: c in Without(rows, job) ==> c in rows
  {
    if rows != [] {
      PartsOf(rows[..|rows| - 1], job);
    }
  }

  lemma HolderStep(b: Budget, s: State, e: Event, most: real, p: nat)
    requires b.price >= 0.0 && Inv(b, s, most) && Enabled(s, e) && Fits(b, e, most) && p < |s.holders|
    ensures HolderOk(Next(b, s, e), Next(b, s, e).holders[p], most)
  {
    var s' := Next(b, s, e);
    var h' := s'.holders[p];
    assert HolderOk(s, s.holders[p], most);
    if e.Enter? {
      Scale(0.0, e.seconds / 60.0, b.price);
    }
    if h'.Calling? {
      forall c | c in s'.rows && c.id == h'.id ensures OpenCall(c, h'.order) {
        OtherRows(b, s, e, c);
      }
    }
  }

  lemma StepKeepsHolders(b: Budget, s: State, e: Event, most: real)
    requires b.price >= 0.0 && Inv(b, s, most) && Enabled(s, e) && Fits(b, e, most)
    ensures HoldersOk(Next(b, s, e), most)
  {
    var s' := Next(b, s, e);
    forall p | 0 <= p < |s'.holders| ensures HolderOk(s', s'.holders[p], most) {
      HolderStep(b, s, e, most, p);
    }
    forall c | c in s'.rows ensures c.id in s'.used {
      OtherRows(b, s, e, c);
    }
    assert forall p :: 0 <= p < |s.holders| ==> HolderOk(s, s.holders[p], most);
  }

  /** Every step of every process keeps the bound on totals and claims, and what each mutex holder relies on. */
  lemma StepKeepsInv(b: Budget, s: State, e: Event, most: real)
    requires b.price >= 0.0 && Inv(b, s, most) && Enabled(s, e) && Honest(s, e) && Fits(b, e, most)
    ensures Inv(b, Next(b, s, e), most)
  {
    StepKeepsHolders(b, s, e, most);
    if e.Insert? {
      assert HolderOk(s, s.holders[e.p], most);
    } else {
      RowsStep(b, s, e, most);
    }
    forall w ensures RoomFor(b, Next(b, s, e), most, w) {
      if e.Insert? {
        InsertKeepsRoom(b, s, e, most, w);
      } else if e.CheckMonth? || e.CheckDay? {
        CheckKeepsRoom(b, s, e, most, w);
      } else {
        OtherKeepsRoom(b, s, e, most, w);
      }
    }
  }

  // ---------- Executions ----------

  // One enabled step in which a provider that answers is honest.
  predicate Steps(b: Budget, s: State, e: Event, s': State) { Enabled(s, e) && Honest(s, e) && s' == Next(b, s, e) }

  // The first k events are such steps; ss[i] is the state before the i-th event.
  predicate IsTrace(b: Budget, ss: seq<State>, es: seq<Event>, k: nat)
    requires k <= |es| < |ss|
  {
    k == 0 || (IsTrace(b, ss, es, k - 1) && Steps(b, ss[k - 1], es[k - 1], ss[k]))
  }

  // An execution with n processes and honest providers.
  predicate Execution(b: Budget, n: nat, ss: seq<State>, es: seq<Event>) {
    |ss| == |es| + 1 && ss[0] == Initial(n) && IsTrace(b, ss, es, |es|)
  }

  lemma {:induction false} StepAt(b: Budget, ss: seq<State>, es: seq<Event>, k: nat, i: nat)
    requires i < k <= |es| < |ss| && IsTrace(b, ss, es, k)
    ensures Steps(b, ss[i], es[i], ss[i + 1])
  {
    if i < k - 1 {
      StepAt(b, ss, es, k - 1, i);
    }
  }

  lemma {:induction false} TracePrefix(b: Budget, ss: seq<State>, es: seq<Event>, s: State, e: Event, k: nat)
    requires k <= |es| < |ss| && IsTrace(b, ss, es, k)
    ensures IsTrace(b, ss + [s], es + [e], k)
  {
    if 0 < k {
      TracePrefix(b, ss, es, s, e, k - 1);
    }
  }

  function Max(x: real, y: real): real { if x < y then y else x }

  // The greatest estimate of a call in the execution.
  function Most(b: Budget, es: seq<Event>): real {
    if es == [] then 0.0
    else
      var e := es[|es| - 1];
      Max(Most(b, es[..|es| - 1]), if e.Enter? then Estimate(b, e.seconds) else 0.0)
  }

  lemma {:induction false} MostFits(b: Budget, es: seq<Event>)
    ensures Most(b, es) >= 0.0 && forall i :: 0 <= i < |es| ==> Fits(b, es[i], Most(b, es))
  {
    if es != [] {
      var front := es[..|es| - 1];
      MostFits(b, front);
      forall i | 0 <= i < |es| ensures Fits(b, es[i], Most(b, es)) {
        assert i < |front| ==> Fits(b, front[i], Most(b, front));
      }
    }
  }

  lemma {:induction false} NoClaims(n: nat, w: Window)
    ensures Claims(Initial(n).holders, w) == 0.0
  {
    if 0 < n {
      NoClaims(n - 1, w);
      assert Initial(n).holders[..n - 1] == Initial(n - 1).holders;
    }
  }

  lemma {:induction false} TimesNotNegative(n: nat, most: real)
    requires most >= 0.0
    ensures Times(n, most) >= 0.0
  {
    if 0 < n {
      TimesNotNegative(n - 1, most);
    }
  }

  lemma InitialIsSound(b: Budget, n: nat, most: real)
    requires most >= 0.0
    ensures Inv(b, Initial(n), most)
  {
    forall w ensures RoomFor(b, Initial(n), most, w) {
      NoClaims(n, w);
      TimesNotNegative(n, most);
      if 0 < n {
        TimesNotNegative(n - 1, most);
      }
    }
  }

  lemma {:induction false} ReachableStatesAreSound(b: Budget, n: nat, ss: seq<State>, es: seq<Event>, i: nat)
    requires b.price >= 0.0 && Execution(b, n, ss, es) && i < |ss|
    ensures Inv(b, ss[i], Most(b, es)) && |ss[i].holders| == n
  {
    MostFits(b, es);
    if i == 0 {
      InitialIsSound(b, n, Most(b, es));
    } else {
      ReachableStatesAreSound(b, n, ss, es, i - 1);
      StepAt(b, ss, es, |es|, i - 1);
      StepKeepsInv(b, ss[i - 1], es[i - 1], Most(b, es));
    }
  }

  /** With n processes on one ledger, no recorded total of a day or a month ever exceeds a cap that is set by more than
      n - 1 times the greatest estimate of a call. Failed and lost calls keep their estimate and count. */
  lemma OvershootIsBounded(b: Budget, n: nat, ss: seq<State>, es: seq<Event>, i: nat, w: Window)
    requires b.price >= 0.0 && Execution(b, n, ss, es) && i < |ss| && 0 < n && Cap(b, w) > 0.0
    ensures InWindow(ss[i].rows, w) <= Cap(b, w) + Times(n - 1, Most(b, es))
  {
    ReachableStatesAreSound(b, n, ss, es, i);
    assert RoomFor(b, ss[i], Most(b, es), w);
    assert forall p :: 0 <= p < n ==> HolderOk(ss[i], ss[i].holders[p], Most(b, es));
    ClaimsBound(ss[i].holders, w, Most(b, es));
  }

  /** Budget safety of one process: in every reachable state, in the middle of a call or not, the recorded total of no
      day and of no month exceeds a cap that is set. */
  lemma CapsHold(b: Budget, ss: seq<State>, es: seq<Event>, i: nat, d: nat, m: nat)
    requires b.price >= 0.0 && Execution(b, 1, ss, es) && i < |ss|
    ensures b.daily > 0.0 ==> DayTotal(ss[i].rows, d) <= b.daily
    ensures b.monthly > 0.0 ==> MonthTotal(ss[i].rows, m) <= b.monthly
  {
    if b.daily > 0.0 {
      OvershootIsBounded(b, 1, ss, es, i, Day(d));
    }
    if b.monthly > 0.0 {
      OvershootIsBounded(b, 1, ss, es, i, Month(m));
    }
  }

  // ---------- What calls are charged for ----------

  /** A call is recorded with the seconds sent, at their price. */
  lemma CallIsRecorded(b: Budget, s: State, e: Event, most: real)
    requires Inv(b, s, most) && Enabled(s, e) && e.Insert?
    ensures var o, n := s.holders[e.p].order, |s.rows|; var rows := Next(b, s, e).rows;
      && |rows| == n + 1 && rows[..n] == s.rows && rows[n].id == e.id && rows[n].job == o.job
      && rows[n].audio == o.seconds && rows[n].billed == None && rows[n].startedAt == e.t
      && rows[n].status == Submitted && rows[n].cost * 60.0 == o.seconds * b.price
  {
    CostOfSeconds(b, 0.0, s.holders[e.p].order.seconds);
  }

  /** An answer completes its call with the seconds billed, at their price, or at that of the seconds sent when none are
      billed. No other row changes. */
  lemma AnswerSettles(b: Budget, s: State, e: Event, most: real, i: nat)
    requires Inv(b, s, most) && Enabled(s, e) && e.Answer? && Honest(s, e) && i < |s.rows|
    ensures var c := s.rows[i]; |Next(b, s, e).rows| == |s.rows| && var c' := Next(b, s, e).rows[i];
      if c.id != s.holders[e.p].id then c' == c
      else
        && c'.status == Completed && c'.billed == Some(e.billed)
        && c'.cost * 60.0 == (if e.billed > 0.0 then e.billed else c.audio) * b.price
        && c' == c.(task := c'.task, billed := c'.billed, cost := c'.cost, status := c'.status)
  {
    var h := s.holders[e.p];
    assert HolderOk(s, h, most) && s.rows[i] in s.rows;
    CostOfSeconds(b, e.billed, h.order.seconds);
  }

  // A settling step leaves every row of its call charged.
  lemma ChangeIsCharged(b: Budget, h: Holder, e: Event, c: Call)
    requires h.Calling? && OpenCall(c, h.order) && Priced(b, h) && Charged(c, b.price)
    requires e.Answer? ==> e.billed >= 0.0
    ensures Charged(Changed(c, ChangeOf(b, h, e)), b.price)
  {
    CostOfSeconds(b, if e.Answer? then e.billed else 0.0, h.order.seconds);
  }

  lemma UpdateIsCharged(b: Budget, s: State, e: Event, most: real)
    requires Inv(b, s, most) && Enabled(s, e) && Honest(s, e) && AllCharged(s.rows, b.price)
    requires e.ReportTask? || e.Answer? || e.Refuse?
    ensures AllCharged(Next(b, s, e).rows, b.price)
  {
    var h, rows' := s.holders[e.p], Next(b, s, e).rows;
    assert HolderOk(s, h, most) && Priced(b, h);
    ChargedEach(s.rows, b.price);
    forall i | 0 <= i < |rows'| ensures Charged(rows'[i], b.price) {
      if s.rows[i].id == h.id {
        assert s.rows[i] in s.rows;
        ChangeIsCharged(b, h, e, s.rows[i]);
      }
    }
    ChargedEach(rows', b.price);
  }

  lemma InsertIsCharged(b: Budget, s: State, e: Event, most: real)
    requires Inv(b, s, most) && Enabled(s, e) && e.Insert? && AllCharged(s.rows, b.price)
    ensures AllCharged(Next(b, s, e).rows, b.price)
  {
    CallIsRecorded(b, s, e, most);
    var rows := Next(b, s, e).rows;
    assert rows[..|rows| - 1] == s.rows;
  }

  lemma StepIsCharged(b: Budget, s: State, e: Event, most: real)
    requires Inv(b, s, most) && Enabled(s, e) && Honest(s, e)
    requires AllCharged(s.rows, b.price) && AllCharged(s.gone, b.price)
    ensures AllCharged(Next(b, s, e).rows, b.price) && AllCharged(Next(b, s, e).gone, b.price)
  {
    if e.Delete? {
      PartsCharged(s.rows, e.job, b.price);
      BothCharged(s.gone, Only(s.rows, e.job), b.price);
    } else if e.Insert? {
      InsertIsCharged(b, s, e, most);
    } else if e.ReportTask? || e.Answer? || e.Refuse? {
      UpdateIsCharged(b, s, e, most);
    }
  }

  lemma {:induction false} RowsAreCharged(b: Budget, n: nat, ss: seq<State>, es: seq<Event>, i: nat)
    requires b.price >= 0.0 && Execution(b, n, ss, es) && i < |ss|
    ensures AllCharged(ss[i].rows, b.price) && AllCharged(ss[i].gone, b.price)
  {
    if 0 < i {
      RowsAreCharged(b, n, ss, es, i - 1);
      ReachableStatesAreSound(b, n, ss, es, i - 1);
      StepAt(b, ss, es, |es|, i - 1);
      StepIsCharged(b, ss[i - 1], es[i - 1], Most(b, es));
    }
  }

  // Sixty times the total of the window is the price of the seconds charged for in it.
  predicate IsPriced(rows: seq<Call>, price: real, w: Window) {
    InWindow(rows, w) * 60.0 == SecondsCharged(rows, From(w), To(w)) * price
  }

  lemma ChargedIsPriced(rows: seq<Call>, price: real, w: Window)
    requires AllCharged(rows, price)
    ensures IsPriced(rows, price, w)
  {
    TotalIsPriced(rows, price, From(w), To(w));
  }

  /** In every reachable state, sixty times the recorded total of a window is the price of the seconds billed for its
      completed calls, or sent where none were billed, and of the seconds sent for the rest. With deleted jobs counted
      in, the same holds of everything that was ever recorded. */
  lemma RecordedIsCharged(b: Budget, n: nat, ss: seq<State>, es: seq<Event>, i: nat, w: Window)
    requires b.price >= 0.0 && Execution(b, n, ss, es) && i < |ss|
    ensures IsPriced(ss[i].rows, b.price, w) && IsPriced(ss[i].gone + ss[i].rows, b.price, w)
  {
    RowsAreCharged(b, n, ss, es, i);
    BothCharged(ss[i].gone, ss[i].rows, b.price);
    ChargedIsPriced(ss[i].rows, b.price, w);
    ChargedIsPriced(ss[i].gone + ss[i].rows, b.price, w);
  }

  // ---------- Deleted jobs ----------

  // What a deletion takes out of the window [lo, hi).
  function Taken(s: State, e: Event, lo: nat, hi: nat): real {
    if e.Delete? then Total(Only(s.rows, e.job), lo, hi) else 0.0
  }

  lemma GoneStep(b: Budget, s: State, e: Event, lo: nat, hi: nat)
    requires Enabled(s, e) && Until(s.gone, s.clock) && Until(s.rows, s.clock)
    ensures Until(Next(b, s, e).gone, Next(b, s, e).clock)
    ensures Total(Next(b, s, e).gone, lo, hi) == Total(s.gone, lo, hi) + Taken(s, e, lo, hi)
  {
    if e.Delete? {
      PartsUntil(s.rows, e.job, s.clock);
      TotalPlus(s.gone, Only(s.rows, e.job), lo, hi);
    }
  }

  lemma GoneAt(b: Budget, n: nat, ss: seq<State>, es: seq<Event>, i: nat, lo: nat, hi: nat)
    requires b.price >= 0.0 && Execution(b, n, ss, es) && i < |es|
    requires Until(ss[i].gone, ss[i].clock)
    ensures Until(ss[i + 1].gone, ss[i + 1].clock)
    ensures Total(ss[i + 1].gone, lo, hi) == Total(ss[i].gone, lo, hi) + Taken(ss[i], es[i], lo, hi)
  {
    ReachableStatesAreSound(b, n, ss, es, i);
    StepAt(b, ss, es, |es|, i);
    GoneStep(b, ss[i], es[i], lo, hi);
  }

  // What the deletions before step i took out of the window [lo, hi).
  function Refunded(ss: seq<State>, es: seq<Event>, i: nat, lo: nat, hi: nat): real
    requires i <= |es| < |ss|
  {
    if i == 0 then 0.0
    else Refunded(ss, es, i - 1, lo, hi) + Taken(ss[i - 1], es[i - 1], lo, hi)
  }

  lemma {:induction false} GoneIsRefunded(b: Budget, n: nat, ss: seq<State>, es: seq<Event>, i: nat, lo: nat, hi: nat)
    requires b.price >= 0.0 && Execution(b, n, ss, es) && i < |ss|
    ensures Until(ss[i].gone, ss[i].clock) && Total(ss[i].gone, lo, hi) == Refunded(ss, es, i, lo, hi)
  {
    if 0 < i {
      GoneIsRefunded(b, n, ss, es, i - 1, lo, hi);
      GoneAt(b, n, ss, es, i - 1, lo, hi);
    }
  }

  /** What is ever recorded in a window is at most the bound above plus what deletions took out of it. There is no
      condition on the deletions. */
  lemma SpendingIsBounded(b: Budget, n: nat, ss: seq<State>, es: seq<Event>, i: nat, w: Window)
    requires b.price >= 0.0 && Execution(b, n, ss, es) && i < |ss| && 0 < n && Cap(b, w) > 0.0
    ensures InWindow(ss[i].gone + ss[i].rows, w)
         <= Cap(b, w) + Times(n - 1, Most(b, es)) + Refunded(ss, es, i, From(w), To(w))
  {
    OvershootIsBounded(b, n, ss, es, i, w);
    GoneIsRefunded(b, n, ss, es, i, From(w), To(w));
    TotalPlus(ss[i].gone, ss[i].rows, From(w), To(w));
  }

  // Every job deleted before step i had nothing recorded in [lo, hi).
  predicate DeletesNothingIn(ss: seq<State>, es: seq<Event>, i: nat, lo: nat, hi: nat)
    requires i <= |es| < |ss|
  {
    i == 0 || (DeletesNothingIn(ss, es, i - 1, lo, hi) && Taken(ss[i - 1], es[i - 1], lo, hi) == 0.0)
  }

  lemma {:induction false} RefundedIsNotNegative(
      b: Budget, n: nat, ss: seq<State>, es: seq<Event>, i: nat, lo: nat, hi: nat)
    requires b.price >= 0.0 && Execution(b, n, ss, es) && i < |ss|
    ensures Refunded(ss, es, i, lo, hi) >= 0.0
    ensures Refunded(ss, es, i, lo, hi) == 0.0 <==> DeletesNothingIn(ss, es, i, lo, hi)
  {
    if 0 < i {
      RefundedIsNotNegative(b, n, ss, es, i - 1, lo, hi);
      ReachableStatesAreSound(b, n, ss, es, i - 1);
      if es[i - 1].Delete? {
        PartsUntil(ss[i - 1].rows, es[i - 1].job, ss[i - 1].clock);
        TotalNotNegative(Only(ss[i - 1].rows, es[i - 1].job), ss[i - 1].clock, lo, hi);
      }
    }
  }

  /** The caps bound everything that one process ever records in a day, or in a month, as long as no deleted job had a
      cost in it. */
  lemma CapsBoundSpending(b: Budget, ss: seq<State>, es: seq<Event>, i: nat, w: Window)
    requires b.price >= 0.0 && Execution(b, 1, ss, es) && i < |ss| && Cap(b, w) > 0.0
    requires DeletesNothingIn(ss, es, i, From(w), To(w))
    ensures InWindow(ss[i].gone, w) == 0.0 && InWindow(ss[i].gone + ss[i].rows, w) <= Cap(b, w)
  {
    SpendingIsBounded(b, 1, ss, es, i, w);
    RefundedIsNotNegative(b, 1, ss, es, i, From(w), To(w));
    GoneIsRefunded(b, 1, ss, es, i, From(w), To(w));
  }

  // ---------- Executions that reach the bounds ----------

  lemma Extend(b: Budget, n: nat, ss: seq<State>, es: seq<Event>, e: Event) returns (ss': seq<State>, es': seq<Event>)
    requires Execution(b, n, ss, es) && Enabled(ss[|es|], e) && Honest(ss[|es|], e)
    ensures Execution(b, n, ss', es') && |es'| == |es| + 1
    ensures ss'[|es'|] == Next(b, ss[|es|], e)
    ensures Most(b, es') == Max(Most(b, es), if e.Enter? then Estimate(b, e.seconds) else 0.0)
  {
    var s' := Next(b, ss[|es|], e);
    ss', es' := ss + [s'], es + [e];
    TracePrefix(b, ss, es, s', e, |es|);
    assert es'[..|es|] == es;
  }

  // On an empty ledger the process p passes both checks for one second at a price of one a second.
  lemma PassChecks(b: Budget, n: nat, ss: seq<State>, es: seq<Event>, p: nat, job: JobId)
      returns (ss': seq<State>, es': seq<Event>)
    requires b == Budget(1.0, 0.0, 60.0) && Execution(b, n, ss, es)
    requires var s := ss[|es|]; s.rows == [] && s.clock == 0 && p < |s.holders| && s.holders[p] == Idle
    ensures Execution(b, n, ss', es') && Most(b, es') == Max(Most(b, es), 1.0)
    ensures var s := ss[|es|]; ss'[|es'|] == s.(holders := s.holders[p := Checked(Order(job, 1.0, 1.0), 0, 0)])
  {
    ss', es' := Extend(b, n, ss, es, Enter(p, job, 1.0));
    ss', es' := Extend(b, n, ss', es', CheckMonth(p, 0));
    ss', es' := Extend(b, n, ss', es', CheckDay(p, 0));
  }

  // One call of one second, refused by its provider; the estimate of 1 stays.
  lemma OneCall(b: Budget, ss: seq<State>, es: seq<Event>, job: JobId, id: CallId)
      returns (ss': seq<State>, es': seq<Event>)
    requires b == Budget(1.0, 0.0, 60.0) && Execution(b, 1, ss, es)
    requires var s := ss[|es|]; s.rows == [] && s.clock == 0 && s.holders == [Idle] && id !in s.used
    ensures Execution(b, 1, ss', es')
    ensures ss'[|es'|] ==
      State([Call(id, job, 1.0, None, 1.0, 0, Failed, None)], 0, [Idle], ss[|es|].used + {id}, ss[|es|].gone)
  {
    ss', es' := PassChecks(b, 1, ss, es, 0, job);
    ss', es' := Extend(b, 1, ss', es', Insert(0, id, 0));
    ss', es' := Extend(b, 1, ss', es', Refuse(0, false));
    assert Updated([Call(id, job, 1.0, None, 1.0, 0, Submitted, None)], id, GivenUp)
        == [Call(id, job, 1.0, None, 1.0, 0, Failed, None)];
  }

  lemma OneGone(c: Call)
    ensures Without([c], c.job) == [] && Only([c], c.job) == [c]
  {
    assert [c][..0] == [];
  }

  /** Deleting a job gives its share of the budget back: in one day calls can be made for more than the cap, counting
      the ledger rows that went with deleted jobs. */
  lemma DeletionRefundsTheBudget() returns (b: Budget, ss: seq<State>, es: seq<Event>)
    ensures Execution(b, 1, ss, es) && b.daily > 0.0
    ensures DayTotal(ss[|es|].gone + ss[|es|].rows, 0) > b.daily
  {
    b := Budget(1.0, 0.0, 60.0);
    ss, es := [Initial(1)], [];
    ss, es := OneCall(b, ss, es, "a", "1");
    OneGone(Call("1", "a", 1.0, None, 1.0, 0, Failed, None));
    ss, es := Extend(b, 1, ss, es, Delete("a"));
    ss, es := OneCall(b, ss, es, "b", "2");
    assert ss[|es|].gone == [Call("1", "a", 1.0, None, 1.0, 0, Failed, None)];
    TotalPlus(ss[|es|].gone, ss[|es|].rows, 0, DAY);
  }

  // The process passes the checks for a call of so many seconds.
  lemma AllowedCall(b: Budget, ss: seq<State>, es: seq<Event>, seconds: real) returns (ss': seq<State>, es': seq<Event>)
    requires b == Budget(1.0, 0.0, 60.0) && Execution(b, 1, ss, es) && 0.0 < seconds
    requires ss[|es|].clock == 0 && ss[|es|].holders == [Idle] && DayTotal(ss[|es|].rows, 0) + seconds <= 1.0
    ensures Execution(b, 1, ss', es')
    ensures ss'[|es'|] == ss[|es|].(holders := [Checked(Order("a", seconds, seconds), 0, 0)])
  {
    ss', es' := Extend(b, 1, ss, es, Enter(0, "a", seconds));
    ss', es' := Extend(b, 1, ss', es', CheckMonth(0, 0));
    ss', es' := Extend(b, 1, ss', es', CheckDay(0, 0));
  }

  // The call is made and answered with a bill.
  lemma AnsweredCall(b: Budget, ss: seq<State>, es: seq<Event>, seconds: real, billed: real, id: CallId)
      returns (ss': seq<State>, es': seq<Event>)
    requires b == Budget(1.0, 0.0, 60.0) && Execution(b, 1, ss, es) && 0.0 < billed <= seconds
    requires ss[|es|].clock == 0 && ss[|es|].holders == [Checked(Order("a", seconds, seconds), 0, 0)]
    requires id !in ss[|es|].used && forall c :: c in ss[|es|].rows ==> c.id in ss[|es|].used
    ensures Execution(b, 1, ss', es')
    ensures ss'[|es'|].clock == 0 && ss'[|es'|].holders == [Idle] && ss'[|es'|].used == ss[|es|].used + {id}
    ensures ss'[|es'|].rows == ss[|es|].rows + [Call(id, "a", seconds, Some(billed), billed, 0, Completed, None)]
    ensures DayTotal(ss'[|es'|].rows, 0) == DayTotal(ss[|es|].rows, 0) + billed
  {
    ss', es' := Extend(b, 1, ss, es, Insert(0, id, 0));
    ss', es' := Extend(b, 1, ss', es', Answer(0, billed, None));
    var open := Call(id, "a", seconds, None, seconds, 0, Submitted, None);
    LastIsUpdated(ss[|es|].rows, open, Settled(None, billed, billed));
    TotalAppend(ss[|es|].rows, Changed(open, Settled(None, billed, billed)), 0, DAY);
  }

  lemma LastIsUpdated(rows: seq<Call>, c: Call, ch: Change)
    requires forall c0 :: c0 in rows ==> c0.id != c.id
    ensures Updated(rows + [c], c.id, ch) == rows + [Changed(c, ch)]
  {
    assert forall i :: 0 <= i < |rows| ==> rows[i] in rows;
  }

  lemma FullDay(rows: seq<Call>, b: Budget)
    requires b == Budget(1.0, 0.0, 60.0) && DayTotal(rows, 0) == 1.0
    ensures forall seconds: real, t: nat :: seconds > 0.0 && t < 86_400_000 ==>
      !DayAllows(rows, b, Estimate(b, seconds), t)
  {
  }

  /** Answered calls fill a cap: with a cap of 1 and a price of 1 a second, a call of a second that is billed half leaves
      room for another half second, and after that no call of any length gets through on that day. */
  lemma AnswersFillTheCap() returns (b: Budget, ss: seq<State>, es: seq<Event>)
    ensures Execution(b, 1, ss, es) && b.price >= 0.0 && b.daily > 0.0
    ensures forall c :: c in ss[|es|].rows ==> c.status.Completed? && c.billed.Some? && c.billed.value > 0.0
    ensures DayTotal(ss[|es|].rows, 0) == b.daily
    ensures forall seconds: real, t: nat :: seconds > 0.0 && t < 86_400_000 ==>
      !DayAllows(ss[|es|].rows, b, Estimate(b, seconds), t)
  {
    b := Budget(1.0, 0.0, 60.0);
    ss, es := [Initial(1)], [];
    ss, es := AllowedCall(b, ss, es, 1.0);
    ss, es := AnsweredCall(b, ss, es, 1.0, 0.5, "1");
    ss, es := AllowedCall(b, ss, es, 0.5);
    ss, es := AnsweredCall(b, ss, es, 0.5, 0.5, "2");
    FullDay(ss[|es|].rows, b);
  }

  const ONE_SECOND := Order("a", 1.0, 1.0)

  // The first k of n processes have passed both checks, the others are idle.
  function CheckedState(n: nat, k: nat): State {
    State([], 0, seq(n, i => if i < k then Checked(ONE_SECOND, 0, 0) else Idle), {}, [])
  }

  lemma {:induction false} AllCheck(b: Budget, n: nat, k: nat) returns (ss: seq<State>, es: seq<Event>)
    requires b == Budget(1.0, 0.0, 60.0) && k <= n
    ensures Execution(b, n, ss, es) && ss[|es|] == CheckedState(n, k)
    ensures Most(b, es) == if k == 0 then 0.0 else 1.0
  {
    if k == 0 {
      ss, es := [Initial(n)], [];
      assert CheckedState(n, 0).holders == Initial(n).holders;
    } else {
      ss, es := AllCheck(b, n, k - 1);
      ss, es := PassChecks(b, n, ss, es, k - 1, "a");
      assert ss[|es|].holders == CheckedState(n, k).holders;
    }
  }

  function Name(i: nat): CallId { seq(i, _ => 'x') }

  function OpenCallOf(i: nat): Call { Call(Name(i), "a", 1.0, None, 1.0, 0, Submitted, None) }

  // The first k of n processes have inserted their call, the others are about to.
  function InsertedState(n: nat, k: nat): State {
    State(seq(k, i requires 0 <= i < k => OpenCallOf(i)), 0,
          seq(n, i requires 0 <= i < n => if i < k then Calling(ONE_SECOND, Name(i)) else Checked(ONE_SECOND, 0, 0)),
          set i | 0 <= i < k :: Name(i), [])
  }

  lemma InsertNext(b: Budget, n: nat, k: nat)
    requires b == Budget(1.0, 0.0, 60.0) && k < n
    ensures var s, e := InsertedState(n, k), Insert(k, Name(k), 0);
      Enabled(s, e) && Next(b, s, e) == InsertedState(n, k + 1)
  {
    var s, s' := InsertedState(n, k), InsertedState(n, k + 1);
    forall i | 0 <= i < k ensures Name(i) != Name(k) {
      assert |Name(i)| == i && |Name(k)| == k;
    }
    assert s'.rows == s.rows + [OpenCallOf(k)];
    assert s'.holders == s.holders[k := Calling(ONE_SECOND, Name(k))];
    assert s'.used == s.used + {Name(k)};
  }

  lemma {:induction false} AllInsert(b: Budget, n: nat, k: nat) returns (ss: seq<State>, es: seq<Event>)
    requires b == Budget(1.0, 0.0, 60.0) && k <= n && 0 < n
    ensures Execution(b, n, ss, es) && ss[|es|] == InsertedState(n, k) && Most(b, es) == 1.0
  {
    if k == 0 {
      ss, es := AllCheck(b, n, n);
      assert InsertedState(n, 0).holders == CheckedState(n, n).holders;
    } else {
      ss, es := AllInsert(b, n, k - 1);
      InsertNext(b, n, k - 1);
      ss, es := Extend(b, n, ss, es, Insert(k - 1, Name(k - 1), 0));
    }
  }

  lemma {:induction false} InsertedTotal(n: nat, k: nat)
    ensures DayTotal(InsertedState(n, k).rows, 0) == Times(k, 1.0)
  {
    if 0 < k {
      InsertedTotal(n, k - 1);
      assert InsertedState(n, k).rows == InsertedState(n, k - 1).rows + [OpenCallOf(k - 1)];
      TotalAppend(InsertedState(n, k - 1).rows, OpenCallOf(k - 1), 0, DAY);
    }
  }

  /** The bound is reached with every number of processes: all of them check before the first of them inserts. */
  lemma OvershootIsReached(n: nat) returns (b: Budget, ss: seq<State>, es: seq<Event>)
    requires 0 < n
    ensures b.price >= 0.0 && b.daily > 0.0 && Execution(b, n, ss, es) && Most(b, es) > 0.0
    ensures InWindow(ss[|es|].rows, Day(0)) == b.daily + Times(n - 1, Most(b, es))
  {
    b := Budget(1.0, 0.0, 60.0);
    ss, es := AllInsert(b, n, n);
    InsertedTotal(n, n);
  }

  // No execution with n processes exceeds a cap that is set.
  ghost predicate CapsAreSafe(n: nat) {
    forall b: Budget, ss: seq<State>, es: seq<Event>, w: Window ::
      b.price >= 0.0 && Execution(b, n, ss, es) && Cap(b, w) > 0.0 ==> InWindow(ss[|es|].rows, w) <= Cap(b, w)
  }

  /** The caps are safe for one process and for no greater number. */
  lemma CapsAreSafeExactly(n: nat)
    requires 0 < n
    ensures CapsAreSafe(n) <==> n == 1
  {
    if n == 1 {
      forall b: Budget, ss: seq<State>, es: seq<Event>, w: Window
        | b.price >= 0.0 && Execution(b, n, ss, es) && Cap(b, w) > 0.0
        ensures InWindow(ss[|es|].rows, w) <= Cap(b, w)
      {
        OvershootIsBounded(b, n, ss, es, |es|, w);
      }
    } else {
      var b, ss, es := OvershootIsReached(n);
      TimesNotNegative(n - 2, Most(b, es));
      assert Cap(b, Day(0)) > 0.0 && InWindow(ss[|es|].rows, Day(0)) > Cap(b, Day(0));
    }
  }
}
