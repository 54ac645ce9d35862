/** The fixed-window login limiter: one window of a minute for each key, a periodic cleanup and a cap on the table. */
module LoginLimiters {
  import opened Wrappers
  import Sets

  type Key = string

  const MINUTE := 60_000_000_000
  const CAP := 10_000

  datatype Window = Window(started: int, count: int)

  datatype State = State(windows: map<Key, Window>, lastCleanup: Option<int>)

  datatype Answer = Answer(next: State, ok: bool)

  predicate Expired(w: Window, now: int) { now - w.started >= MINUTE }

  function Purge(ws: map<Key, Window>, now: int): map<Key, Window> {
    map k | k in ws && !Expired(ws[k], now) :: ws[k]
  }

  function Cleaned(s: State, now: int): State {
    if s.lastCleanup.None? || now - s.lastCleanup.value >= MINUTE then State(Purge(s.windows, now), Some(now)) else s
  }

  // A key's next window and answer, the table aside.
  function Knock(limit: int, w: Option<Window>, now: int): (Option<Window>, bool) {
    if w.None? || Expired(w.value, now) then (Some(Window(now, 1)), true)
    else if w.value.count >= limit then (w, false)
    else (Some(w.value.(count := w.value.count + 1)), true)
  }

  function WindowOf(s: State, key: Key): Option<Window> {
    if key in s.windows then Some(s.windows[key]) else None
  }

  function Step(limit: int, s: State, key: Key, now: int): Answer {
    if limit <= 0 then Answer(s, false)
    else
      var c := Cleaned(s, now);
      if |c.windows| >= CAP then Answer(c, false)
      else
        var (w, ok) := Knock(limit, WindowOf(c, key), now);
        Answer(if w.Some? then c.(windows := c.windows[key := w.value]) else c, ok)
  }

  class LoginLimiter {
    const limit: int
    var windows: map<Key, Window>
    var lastCleanup: Option<int>

    constructor (limit: int)
      ensures this.limit == limit && Value() == State(map[], None)
    {
      this.limit, windows, lastCleanup := limit, map[], None;
    }

    function Value(): State
      reads this
    {
      State(windows, lastCleanup)
    }

    // The loop of the cleanup: every window is looked at once, and the expired ones are deleted.
    method DropExpired(now: int)
      modifies this`windows
      ensures windows == Purge(old(windows), now)
    {
      var rest := windows.Keys;
      while rest != {}
        invariant rest <= windows.Keys <= old(windows).Keys
        invariant forall k :: k in windows ==> windows[k] == old(windows)[k]
        invariant forall k :: k in old(windows) && k !in windows ==> Expired(old(windows)[k], now)
        invariant forall k :: k in windows && k !in rest ==> !Expired(windows[k], now)
        decreases rest
      {
        var candidate :| candidate in rest;
        rest := rest - {candidate};
        if now - windows[candidate].started >= MINUTE {
          windows := windows - {candidate};
        }
      }
    }

    // The key has a window that is less than a minute old.
    predicate Live(key: Key, now: int)
      reads this`windows
    {
      key in windows && now - windows[key].started < 60_000_000_000
    }

    // The last cleanup is a minute old, or there was none.
    predicate CleanupDue(now: int)
      reads this`lastCleanup
    {
      lastCleanup.None? || now - lastCleanup.value >= 60_000_000_000
    }

    /** Without a limit nothing passes. Otherwise a cleanup that is due takes the windows away that are a minute old; the
        call is refused if ten thousand windows are left, or the key's own window has no passes left; and a call that
        passes counts in the key's window, or begins a new one. */
    method Allow(key: Key, now: int) returns (ok: bool)
      modifies this
      ensures Answer(Value(), ok) == Step(limit, old(Value()), key, now)
      ensures limit <= 0 ==> !ok && Value() == old(Value())
      ensures 0 < limit ==> lastCleanup == if old(CleanupDue(now)) then Some(now) else old(lastCleanup)
      ensures forall k :: 0 < limit && k != key ==>
        (k in windows <==> k in old(windows) && (old(CleanupDue(now)) ==> old(Live(k, now))))
      ensures forall k :: k in windows && k != key ==> k in old(windows) && windows[k] == old(windows)[k]
      ensures ok ==> key in windows && |windows| <= 10_000
      ensures ok && old(Live(key, now)) ==>
        old(windows)[key].count < limit && windows[key] == old(windows)[key].(count := old(windows)[key].count + 1)
      ensures ok && !old(Live(key, now)) ==> windows[key] == Window(now, 1)
      ensures 0 < limit && !ok ==> |windows| >= 10_000 || (old(Live(key, now)) && old(windows)[key].count >= limit)
    {
      if limit <= 0 {
        return false;
      }
      if lastCleanup.None? || now - lastCleanup.value >= MINUTE {
        DropExpired(now);
        lastCleanup := Some(now);
      }
      if |windows| >= CAP {
        return false;
      }
      if key !in windows || now - windows[key].started >= MINUTE {
        windows := windows[key := Window(now, 1)];
        return true;
      }
      if windows[key].count >= limit {
        assert windows == windows[key := windows[key]];
        return false;
      }
      windows := windows[key := windows[key].(count := windows[key].count + 1)];
      ok := true;
    }
  }

  // ---------- Runs ----------

  datatype Call = Call(key: Key, now: int)

  predicate Ordered(calls: seq<Call>) { forall i, k :: 0 <= i < k < |calls| ==> calls[i].now <= calls[k].now }

  // The state after the first n calls, and the answer to call i.
  function StateAt(limit: int, calls: seq<Call>, n: nat): State
    requires n <= |calls|
  {
    if n == 0 then State(map[], None) else Step(limit, StateAt(limit, calls, n - 1), calls[n - 1].key, calls[n - 1].now).next
  }

  predicate Passes(limit: int, calls: seq<Call>, i: nat)
    requires i < |calls|
  {
    Step(limit, StateAt(limit, calls, i), calls[i].key, calls[i].now).ok
  }

  predicate Counted(limit: int, calls: seq<Call>, i: nat, key: Key, t: int)
    requires i < |calls|
  {
    calls[i].key == key && t <= calls[i].now < t + MINUTE && Passes(limit, calls, i)
  }

  // Calls of the key that passed in [t, t + 1 minute), among the first n.
  function Passed(limit: int, calls: seq<Call>, n: nat, key: Key, t: int): nat
    requires n <= |calls|
  {
    if n == 0 then 0 else Passed(limit, calls, n - 1, key, t) + if Counted(limit, calls, n - 1, key, t) then 1 else 0
  }

  /** The table never holds more than the cap. */
  lemma {:induction false} TableIsBounded(limit: int, calls: seq<Call>, n: nat)
    requires n <= |calls|
    ensures |StateAt(limit, calls, n).windows| <= CAP
  {
    if 0 < n {
      TableIsBounded(limit, calls, n - 1);
      SizeStep(limit, StateAt(limit, calls, n - 1), calls[n - 1].key, calls[n - 1].now);
    }
  }

  lemma PurgeSize(ws: map<Key, Window>, now: int)
    ensures |Purge(ws, now)| <= |ws|
  {
    assert Purge(ws, now).Keys <= ws.Keys;
    Sets.SubsetSize(Purge(ws, now).Keys, ws.Keys);
    assert |Purge(ws, now)| == |Purge(ws, now).Keys| && |ws| == |ws.Keys|;
  }

  lemma InsertSize(ws: map<Key, Window>, key: Key, w: Window)
    ensures |ws[key := w]| <= |ws| + 1
  {
    assert ws[key := w].Keys == ws.Keys + {key};
    assert |ws[key := w]| == |ws[key := w].Keys| && |ws| == |ws.Keys|;
  }

  lemma SizeStep(limit: int, s: State, key: Key, now: int)
    requires |s.windows| <= CAP
    ensures |Step(limit, s, key, now).next.windows| <= CAP
  {
    PurgeSize(s.windows, now);
    var c := Cleaned(s, now);
    var w := Knock(limit, WindowOf(c, key), now).0;
    if w.Some? {
      InsertSize(c.windows, key, w.value);
    }
  }

  // ---------- At most limit in a window, less than twice the limit in any minute ----------

  // How many passes in [t, t + 1 minute) a key's window allows for; without a window, the time of the last call does.
  function Allowance(limit: int, w: Option<Window>, last: int, t: int): int {
    match w
    case Some(w) =>
      if w.started <= t - MINUTE then 0
      else if w.started < t then w.count - 1
      else if w.started == t then w.count
      else if w.started < t + MINUTE then limit - 1 + w.count
      else 2 * limit - 1
    case None => if last <= t then 0 else if last < t + MINUTE then limit - 1 else 2 * limit - 1
  }

  predicate WindowOk(limit: int, w: Option<Window>, last: int) {
    w.Some? ==> 1 <= w.value.count <= limit && w.value.started <= last
  }

  // The cleanup can only take a window away that already allows for no more than its absence does.
  lemma CleanupAllows(limit: int, s: State, key: Key, last: int, now: int, t: int)
    requires 0 < limit && last <= now && WindowOk(limit, WindowOf(s, key), last)
    ensures WindowOk(limit, WindowOf(Cleaned(s, now), key), now)
    ensures Allowance(limit, WindowOf(s, key), last, t) <= Allowance(limit, WindowOf(Cleaned(s, now), key), now, t)
  {
  }

  lemma KnockAllows(limit: int, w: Option<Window>, now: int, t: int)
    requires 0 < limit && WindowOk(limit, w, now)
    ensures var (w', ok) := Knock(limit, w, now);
      && WindowOk(limit, w', now)
      && Allowance(limit, w, now, t) + (if ok && t <= now < t + MINUTE then 1 else 0) <= Allowance(limit, w', now, t)
  {
  }

  // What one call does to the window of any key.
  lemma StepWindow(limit: int, s: State, key: Key, now: int, k: Key)
    requires 0 < limit
    ensures var c := Cleaned(s, now); var a := Step(limit, s, key, now);
      if |c.windows| >= CAP then WindowOf(a.next, k) == WindowOf(c, k) && !a.ok
      else if k == key then (WindowOf(a.next, k), a.ok) == Knock(limit, WindowOf(c, k), now)
      else WindowOf(a.next, k) == WindowOf(c, k)
  {
  }

  function LastTime(calls: seq<Call>, n: nat): int
    requires n <= |calls|
  {
    if n == 0 then (if calls == [] then 0 else calls[0].now) else calls[n - 1].now
  }

  lemma {:induction false} PassedIsAllowed(limit: int, calls: seq<Call>, n: nat, key: Key, t: int)
    requires 0 < limit && Ordered(calls) && n <= |calls|
    ensures WindowOk(limit, WindowOf(StateAt(limit, calls, n), key), LastTime(calls, n))
    ensures Passed(limit, calls, n, key, t)
            <= Allowance(limit, WindowOf(StateAt(limit, calls, n), key), LastTime(calls, n), t)
  {
    if 0 < n {
      PassedIsAllowed(limit, calls, n - 1, key, t);
      var s, now := StateAt(limit, calls, n - 1), calls[n - 1].now;
      CleanupAllows(limit, s, key, LastTime(calls, n - 1), now, t);
      KnockAllows(limit, WindowOf(Cleaned(s, now), key), now, t);
      StepWindow(limit, s, calls[n - 1].key, now, key);
    }
  }

  /** In any half-open minute fewer than twice the limit of one key's calls pass. */
  lemma LessThanTwiceTheLimit(limit: int, calls: seq<Call>, key: Key, t: int)
    requires Ordered(calls)
    ensures Passed(limit, calls, |calls|, key, t) <= if limit <= 0 then 0 else 2 * limit - 1
  {
    if limit <= 0 {
      NothingPasses(limit, calls, |calls|, key, t);
    } else {
      PassedIsAllowed(limit, calls, |calls|, key, t);
    }
  }

  lemma {:induction false} NothingPasses(limit: int, calls: seq<Call>, n: nat, key: Key, t: int)
    requires limit <= 0 && n <= |calls|
    ensures Passed(limit, calls, n, key, t) == 0
  {
    if 0 < n {
      NothingPasses(limit, calls, n - 1, key, t);
    }
  }

  /** A window's count is exactly the number of calls that passed in its minute so far, and at most the limit. */
  lemma {:induction false} CountIsExact(limit: int, calls: seq<Call>, n: nat, key: Key)
    requires 0 < limit && Ordered(calls) && n <= |calls| && WindowOf(StateAt(limit, calls, n), key).Some?
    ensures var w := WindowOf(StateAt(limit, calls, n), key).value;
      Passed(limit, calls, n, key, w.started) == w.count <= limit
  {
    var s, now := StateAt(limit, calls, n - 1), calls[n - 1].now;
    var w := WindowOf(StateAt(limit, calls, n), key).value;
    PassedIsAllowed(limit, calls, n - 1, key, w.started);
    PassedIsAllowed(limit, calls, n, key, w.started);
    CleanupAllows(limit, s, key, LastTime(calls, n - 1), now, w.started);
    StepWindow(limit, s, calls[n - 1].key, now, key);
    if WindowOf(s, key).Some? && WindowOf(s, key).value.started == w.started {
      CountIsExact(limit, calls, n - 1, key);
    }
  }

  // One call, the rest of its window's limit just before the window ends, and a whole limit right after.
  function Burst(limit: int, key: Key): seq<Call>
    requires 0 < limit
  {
    seq(2 * limit, i => Call(key, if i == 0 then 0 else if i < limit then MINUTE - 1 else MINUTE))
  }

  // The state after n calls of the burst.
  function BurstAt(limit: int, key: Key, n: nat): State {
    if n == 0 then State(map[], None)
    else if n <= limit then State(map[key := Window(0, n)], Some(0))
    else State(map[key := Window(MINUTE, n - limit)], Some(MINUTE))
  }

  // Every call of the burst passes.
  lemma BurstStep(limit: int, key: Key, n: nat)
    requires 0 < limit && n < 2 * limit
    ensures Step(limit, BurstAt(limit, key, n), key, Burst(limit, key)[n].now) == Answer(BurstAt(limit, key, n + 1), true)
  {
    if n == 0 {
      assert Purge(map[], 0) == map[];
    } else if n == limit {
      assert Purge(map[key := Window(0, limit)], MINUTE) == map[];
    }
  }

  lemma {:induction false} BurstState(limit: int, key: Key, n: nat)
    requires 0 < limit && n <= 2 * limit
    ensures StateAt(limit, Burst(limit, key), n) == BurstAt(limit, key, n)
    ensures Passed(limit, Burst(limit, key), n, key, MINUTE - 1) == if n == 0 then 0 else n - 1
  {
    if 0 < n {
      BurstState(limit, key, n - 1);
      BurstStep(limit, key, n - 1);
    }
  }

  /** The bound is exact for every limit: a burst around the end of a window reaches it. */
  lemma BoundIsReached(limit: int, key: Key)
    requires 0 < limit
    ensures Ordered(Burst(limit, key))
    ensures Passed(limit, Burst(limit, key), |Burst(limit, key)|, key, MINUTE - 1) == 2 * limit - 1
  {
    BurstState(limit, key, 2 * limit);
  }

  // ---------- Cleanup changes no answer ----------

  // The window of one key in a limiter that keeps every window and has no cap; other keys' calls do not matter.
  function PlainWindow(limit: int, calls: seq<Call>, n: nat, key: Key): Option<Window>
    requires n <= |calls|
  {
    if n == 0 then None
    else
      var w := PlainWindow(limit, calls, n - 1, key);
      if calls[n - 1].key == key then Knock(limit, w, calls[n - 1].now).0 else w
  }

  predicate PlainPasses(limit: int, calls: seq<Call>, i: nat)
    requires i < |calls|
  {
    Knock(limit, PlainWindow(limit, calls, i, calls[i].key), calls[i].now).1
  }

  predicate Capped(limit: int, calls: seq<Call>, i: nat)
    requires i < |calls|
  {
    |Cleaned(StateAt(limit, calls, i), calls[i].now).windows| >= CAP
  }

  // A window that cleanup has dropped has expired, and one that is there is the same.
  predicate Agrees(w: Option<Window>, plain: Option<Window>, last: int) {
    w == plain || (w.None? && plain.Some? && Expired(plain.value, last))
  }

  lemma {:induction false} CleanupIsInvisible(limit: int, calls: seq<Call>, n: nat, key: Key)
    requires 0 < limit && Ordered(calls) && n <= |calls|
    requires forall i :: 0 <= i < n ==> !Capped(limit, calls, i)
    ensures Agrees(WindowOf(StateAt(limit, calls, n), key), PlainWindow(limit, calls, n, key), LastTime(calls, n))
  {
    if 0 < n {
      CleanupIsInvisible(limit, calls, n - 1, key);
      assert !Capped(limit, calls, n - 1);
      StepWindow(limit, StateAt(limit, calls, n - 1), calls[n - 1].key, calls[n - 1].now, key);
    }
  }

  /** As long as the cap is never hit, every call gets the answer of a limiter for its own key alone, without cleanup. */
  lemma AnswersArePerKey(limit: int, calls: seq<Call>, i: nat)
    requires 0 < limit && Ordered(calls) && i < |calls|
    requires forall k :: 0 <= k <= i ==> !Capped(limit, calls, k)
    ensures Passes(limit, calls, i) <==> PlainPasses(limit, calls, i)
  {
    CleanupIsInvisible(limit, calls, i, calls[i].key);
    assert !Capped(limit, calls, i);
    StepWindow(limit, StateAt(limit, calls, i), calls[i].key, calls[i].now, calls[i].key);
  }
}
