/**
 Refresh-token sessions: the guarded updates of the refresh_tokens table, and the machine in which the find and
 rotate steps of concurrent refreshes interleave with logins and revocations.
 */
module Sessions {
  import opened Wrappers

  type SessionId = string
  type UserId = string
  type Token = string        // the stored hash of a refresh token
  type RequestId = int

  datatype Session = Session(
    user: UserId, token: Token, expires: int, revokedAt: Option<int>, replacedBy: Option<SessionId>, lastUsed: int)

  type Store = map<SessionId, Session>

  // ---------- The statements ----------

  predicate CanInsert(st: Store, id: SessionId, row: Session) {
    id !in st && forall k :: k in st ==> st[k].token != row.token
  }

  function Fresh(user: UserId, token: Token, now: int, ttl: int): Session {
    Session(user, token, now + ttl, None, None, now)
  }

  predicate Rotatable(st: Store, prev: SessionId, now: int) {
    prev in st && st[prev].revokedAt == None && st[prev].expires > now
  }

  function Rotated(st: Store, prev: SessionId, id: SessionId, row: Session, now: int): Store
    requires prev in st
  {
    st[prev := st[prev].(revokedAt := Some(now), replacedBy := Some(id), lastUsed := now)][id := row]
  }

  function RevokeRow(r: Session, now: int): Session {
    if r.revokedAt == None then r.(revokedAt := Some(now), lastUsed := now) else r
  }

  function RevokeOne(st: Store, user: UserId, id: SessionId, now: int): Store {
    if id in st && st[id].user == user then st[id := RevokeRow(st[id], now)] else st
  }

  // Every session of the user except keep; None keeps none.
  function RevokeUser(st: Store, user: UserId, keep: Option<SessionId>, now: int): Store {
    map k | k in st :: if st[k].user == user && keep != Some(k) then RevokeRow(st[k], now) else st[k]
  }

  // What ValidateAccess and ListSessions ask of a session.
  predicate Live(st: Store, id: SessionId, now: int) {
    id in st && st[id].revokedAt == None && st[id].expires > now
  }

  // ---------- The machine ----------

  // A refresh that has found its session usable and not yet rotated it.
  datatype Found = Found(prev: SessionId, user: UserId)

  // verified: logins whose password was accepted and whose session is not inserted yet. home and chains are history:
  // the login each session comes from, and what each login and its refreshes created, oldest first.
  datatype Sys = Sys(
    store: Store, verified: map<RequestId, UserId>, pending: map<RequestId, Found>, home: map<SessionId, SessionId>,
    chains: map<SessionId, seq<SessionId>>)

  datatype Event =
    | Verify(req: RequestId, user: UserId)                            // password and active flag accepted
    | Login(req: RequestId, id: SessionId, token: Token, now: int, ttl: int)
    | Find(req: RequestId, token: Token, id: SessionId, now: int)     // reads a session that looks usable
    | Rotate(req: RequestId, id: SessionId, token: Token, now: int, ttl: int)
    | Revoke(user: UserId, id: SessionId, now: int)
    | RevokeAll(user: UserId, keep: Option<SessionId>, now: int)      // reuse, reset, deactivation, password change

  function Initial(): Sys { Sys(map[], map[], map[], map[], map[]) }

  predicate Enabled(s: Sys, e: Event) {
    match e
    case Verify(req, _) => req !in s.verified
    case Login(req, id, t, now, ttl) => req in s.verified && CanInsert(s.store, id, Fresh(s.verified[req], t, now, ttl))
    case Find(req, t, id, now) => req !in s.pending && id in s.store && s.store[id].token == t && Live(s.store, id, now)
    case Rotate(req, id, t, now, ttl) => req in s.pending && CanInsert(s.store, id, Fresh(s.pending[req].user, t, now, ttl))
    case Revoke(_, _, _) => true
    case RevokeAll(_, _, _) => true
  }

  function NextStore(s: Sys, e: Event): Store {
    match e
    case Verify(_, _) => s.store
    case Login(req, id, t, now, ttl) =>
      if req in s.verified then s.store[id := Fresh(s.verified[req], t, now, ttl)] else s.store
    case Find(_, _, _, _) => s.store
    case Rotate(req, id, t, now, ttl) =>
      if req in s.pending && Rotatable(s.store, s.pending[req].prev, now)
      then Rotated(s.store, s.pending[req].prev, id, Fresh(s.pending[req].user, t, now, ttl), now) else s.store
    case Revoke(u, id, now) => RevokeOne(s.store, u, id, now)
    case RevokeAll(u, keep, now) => RevokeUser(s.store, u, keep, now)
  }

  // The refresh still finds its session rotatable; otherwise the transaction rolls back.
  predicate Rotates(s: Sys, e: Event) {
    e.Rotate? && e.req in s.pending && Rotatable(s.store, s.pending[e.req].prev, e.now)
  }

  function NextVerified(s: Sys, e: Event): map<RequestId, UserId> {
    match e
    case Verify(req, u) => s.verified[req := u]
    case Login(req, _, _, _, _) => s.verified - {req}
    case _ => s.verified
  }

  function NextPending(s: Sys, e: Event): map<RequestId, Found> {
    match e
    case Find(req, _, id, _) => if id in s.store then s.pending[req := Found(id, s.store[id].user)] else s.pending
    case Rotate(req, _, _, _, _) => s.pending - {req}
    case _ => s.pending
  }

  function NextHome(s: Sys, e: Event): map<SessionId, SessionId> {
    if e.Login? then s.home[e.id := e.id]
    else if Rotates(s, e) && s.pending[e.req].prev in s.home then s.home[e.id := s.home[s.pending[e.req].prev]]
    else s.home
  }

  function NextChains(s: Sys, e: Event): map<SessionId, seq<SessionId>> {
    if e.Login? then s.chains[e.id := [e.id]]
    else if Rotates(s, e) && s.pending[e.req].prev in s.home && s.home[s.pending[e.req].prev] in s.chains then
      var root := s.home[s.pending[e.req].prev];
      s.chains[root := s.chains[root] + [e.id]]
    else s.chains
  }

  function Next(s: Sys, e: Event): Sys {
    Sys(NextStore(s, e), NextVerified(s, e), NextPending(s, e), NextHome(s, e), NextChains(s, e))
  }

  // ---------- The chain invariant ----------

  // The i-th session of a chain names the next one and is revoked; the last one names none.
  predicate LinkOk(st: Store, user: UserId, c: seq<SessionId>, i: nat)
    requires i < |c|
  {
    c[i] in st && st[c[i]].user == user
    && if i + 1 < |c| then st[c[i]].replacedBy == Some(c[i + 1]) && st[c[i]].revokedAt.Some?
       else st[c[i]].replacedBy == None
  }

  // The stored chain of one login: linked from its first session to its last, with no session twice.
  predicate ChainOk(st: Store, home: map<SessionId, SessionId>, root: SessionId, c: seq<SessionId>) {
    && |c| > 0 && c[0] == root && root in st
    && (forall i :: 0 <= i < |c| ==> LinkOk(st, st[root].user, c, i))
    && (forall i :: 0 <= i < |c| ==> c[i] in home && home[c[i]] == root)
    && (forall i, k :: 0 <= i < k < |c| ==> c[i] != c[k])
  }

  predicate ChainsOk(s: Sys) {
    forall root :: root in s.chains ==> ChainOk(s.store, s.home, root, s.chains[root])
  }

  // The session stands in the chain of its login.
  predicate Housed(home: map<SessionId, SessionId>, chains: map<SessionId, seq<SessionId>>, x: SessionId) {
    x in home && home[x] in chains && x in chains[home[x]]
  }

  predicate HomesOk(st: Store, home: map<SessionId, SessionId>, chains: map<SessionId, seq<SessionId>>) {
    home.Keys == st.Keys && forall x :: x in home ==> Housed(home, chains, x)
  }

  predicate TokensOk(st: Store) {
    forall a, b :: a in st && b in st && a != b ==> st[a].token != st[b].token
  }

  predicate PendingOk(st: Store, pending: map<RequestId, Found>) {
    forall r :: r in pending ==> pending[r].prev in st && st[pending[r].prev].user == pending[r].user
  }

  predicate Inv(s: Sys) { ChainsOk(s) && HomesOk(s.store, s.home, s.chains) && TokensOk(s.store) && PendingOk(s.store, s.pending) }

  // One row of the next store, for a row that was there before.
  lemma RowStep(s: Sys, e: Event, x: SessionId)
    requires Enabled(s, e) && x in s.store
    ensures x in NextStore(s, e)
    ensures var r, r' := s.store[x], NextStore(s, e)[x];
      && r'.user == r.user && r'.token == r.token && r'.expires == r.expires
      && (r.revokedAt.Some? ==> r' == r)
      && (r'.replacedBy != r.replacedBy ==> Rotates(s, e) && s.pending[e.req].prev == x && r'.replacedBy == Some(e.id))
  {
  }

  /** What a login or a rotation stores: a session of the user whose password was accepted, or of the session exchanged,
      with a token of its own, unrevoked and usable at exactly the instants before its end. A rotation goes through
      exactly if the session it found is still unrevoked and has not expired, and revokes it. */
  lemma StoredSession(s: Sys, e: Event, t: int)
    requires Enabled(s, e) && (e.Login? || e.Rotate?)
    ensures e.Login? ==> e.id in NextStore(s, e) && NextStore(s, e)[e.id].user == s.verified[e.req]
    ensures e.Rotate? ==> var prev := s.pending[e.req].prev;
      (e.id in NextStore(s, e) <==>
         prev in s.store && s.store[prev].revokedAt == None && e.now < s.store[prev].expires)
      && (e.id in NextStore(s, e) ==>
            prev in NextStore(s, e) && NextStore(s, e)[prev].revokedAt == Some(e.now)
            && NextStore(s, e)[e.id].user == s.pending[e.req].user)
    ensures e.id in NextStore(s, e) ==>
      e.id !in s.store && NextStore(s, e)[e.id].token == e.token
      && (Live(NextStore(s, e), e.id, t) <==> t < e.now + e.ttl)
  {
  }

  /** Revoking a user's sessions ends every one of them but the one kept, which stays as it is, and touches no other
      user's. */
  lemma KeptSessionStays(st: Store, user: UserId, keep: Option<SessionId>, now: int, x: SessionId, t: int)
    requires x in st
    ensures var st' := RevokeUser(st, user, keep, now);
      && x in st' && (st[x].user != user || keep == Some(x) ==> st'[x] == st[x])
      && (st[x].user == user && keep != Some(x) ==> st'[x].revokedAt.Some? && !Live(st', x, t))
      && (st[x].revokedAt == None && st'[x].revokedAt.Some? ==> st'[x].revokedAt == Some(now))
  {
  }

  lemma ChainKept(s: Sys, e: Event, root: SessionId)
    requires Inv(s) && Enabled(s, e) && root in s.chains
    requires Rotates(s, e) ==> s.home[s.pending[e.req].prev] != root
    ensures ChainOk(NextStore(s, e), NextHome(s, e), root, s.chains[root])
  {
    var c := s.chains[root];
    assert ChainOk(s.store, s.home, root, c);
    RowStep(s, e, root);
    forall i | 0 <= i < |c|
      ensures LinkOk(NextStore(s, e), s.store[root].user, c, i)
      ensures c[i] in NextHome(s, e) && NextHome(s, e)[c[i]] == root
    {
      assert LinkOk(s.store, s.store[root].user, c, i);
      RowStep(s, e, c[i]);
    }
  }

  // A session belongs to the chain of its login, has the user of that login, and is the tail if it is unrevoked.
  lemma HomeOf(s: Sys, x: SessionId)
    requires Inv(s) && x in s.store
    ensures x in s.home && s.home[x] in s.chains && ChainOk(s.store, s.home, s.home[x], s.chains[s.home[x]])
    ensures s.store[s.home[x]].user == s.store[x].user && x in s.chains[s.home[x]]
    ensures var c := s.chains[s.home[x]]; s.store[x].revokedAt == None ==> c[|c| - 1] == x
  {
    var root := s.home[x];
    var c := s.chains[root];
    assert ChainOk(s.store, s.home, root, c);
    var at :| 0 <= at < |c| && c[at] == x;
    assert LinkOk(s.store, s.store[root].user, c, at);
  }

  // Rotation happens at the end of a chain, so the chain grows by the replacement.
  lemma ChainGrows(s: Sys, e: Event)
    requires Inv(s) && Enabled(s, e) && Rotates(s, e)
    ensures var root := s.home[s.pending[e.req].prev];
      ChainOk(NextStore(s, e), NextHome(s, e), root, s.chains[root] + [e.id])
  {
    var prev := s.pending[e.req].prev;
    HomeOf(s, prev);
    var root := s.home[prev];
    var c := s.chains[root];
    RowStep(s, e, root);
    var c' := c + [e.id];
    forall i | 0 <= i < |c'|
      ensures LinkOk(NextStore(s, e), s.store[root].user, c', i)
      ensures c'[i] in NextHome(s, e) && NextHome(s, e)[c'[i]] == root
      ensures i < |c| ==> c'[i] != e.id
    {
      if i < |c| {
        assert LinkOk(s.store, s.store[root].user, c, i);
        RowStep(s, e, c[i]);
      }
    }
  }

  lemma ChainsKept(s: Sys, e: Event)
    requires Inv(s) && Enabled(s, e)
    ensures ChainsOk(Next(s, e))
  {
    var chains' := NextChains(s, e);
    forall root | root in chains' ensures ChainOk(NextStore(s, e), NextHome(s, e), root, chains'[root]) {
      if Rotates(s, e) && root == s.home[s.pending[e.req].prev] {
        ChainGrows(s, e);
      } else if !(e.Login? && root == e.id) {
        ChainKept(s, e, root);
      }
    }
  }

  // Chains only grow at their end.
  lemma ChainLasts(s: Sys, e: Event, root: SessionId)
    requires Enabled(s, e) && root in s.chains && root in s.store
    ensures root in NextChains(s, e) && s.chains[root] <= NextChains(s, e)[root]
  {
  }

  lemma HomeOfNew(s: Sys, e: Event)
    requires Inv(s) && Enabled(s, e) && (e.Login? || Rotates(s, e))
    ensures Housed(NextHome(s, e), NextChains(s, e), e.id)
  {
    if Rotates(s, e) {
      HomeOf(s, s.pending[e.req].prev);
    }
    var chain := NextChains(s, e)[NextHome(s, e)[e.id]];
    assert chain[|chain| - 1] == e.id;
  }

  lemma HomeKeys(s: Sys, e: Event)
    requires Inv(s) && Enabled(s, e)
    ensures NextHome(s, e).Keys == NextStore(s, e).Keys
    ensures NextHome(s, e).Keys == s.home.Keys + if e.Login? || Rotates(s, e) then {e.id} else {}
  {
  }

  lemma HomeOfOld(s: Sys, e: Event, x: SessionId)
    requires Inv(s) && Enabled(s, e) && x in s.home
    ensures Housed(NextHome(s, e), NextChains(s, e), x)
  {
    assert Housed(s.home, s.chains, x);
    assert ChainOk(s.store, s.home, s.home[x], s.chains[s.home[x]]);
    ChainLasts(s, e, s.home[x]);
    assert NextHome(s, e)[x] == s.home[x];
  }

  lemma HomesKept(s: Sys, e: Event)
    requires Inv(s) && Enabled(s, e)
    ensures HomesOk(NextStore(s, e), NextHome(s, e), NextChains(s, e))
  {
    var home', chains' := NextHome(s, e), NextChains(s, e);
    HomeKeys(s, e);
    forall x | x in home' ensures Housed(home', chains', x) {
      if x in s.home {
        HomeOfOld(s, e, x);
      } else {
        HomeOfNew(s, e);
      }
    }
  }

  lemma TokensKept(s: Sys, e: Event)
    requires TokensOk(s.store) && PendingOk(s.store, s.pending) && Enabled(s, e)
    ensures TokensOk(NextStore(s, e)) && PendingOk(NextStore(s, e), NextPending(s, e))
  {
    forall x | x in s.store
      ensures x in NextStore(s, e) && NextStore(s, e)[x].token == s.store[x].token && NextStore(s, e)[x].user == s.store[x].user
    {
      RowStep(s, e, x);
    }
  }

  /** Every step of every interleaving keeps each login's sessions a single chain whose tail alone can be unrevoked. */
  lemma StepKeepsInv(s: Sys, e: Event)
    requires Inv(s) && Enabled(s, e)
    ensures Inv(Next(s, e))
  {
    ChainsKept(s, e);
    HomesKept(s, e);
    TokensKept(s, e);
  }

  // ---------- Whole executions ----------

  // One enabled step.
  predicate Steps(s: Sys, e: Event, s': Sys) { Enabled(s, e) && s' == Next(s, e) }

  // The first n events are enabled steps; ss[i] is the state before the i-th event.
  predicate IsTrace(ss: seq<Sys>, es: seq<Event>, n: nat)
    requires n <= |es| < |ss|
  {
    n == 0 || (IsTrace(ss, es, n - 1) && Steps(ss[n - 1], es[n - 1], ss[n]))
  }

  predicate Execution(ss: seq<Sys>, es: seq<Event>) {
    |ss| == |es| + 1 && ss[0] == Initial() && IsTrace(ss, es, |es|)
  }

  lemma {:induction false} TraceStep(ss: seq<Sys>, es: seq<Event>, n: nat, i: nat)
    requires i < n <= |es| < |ss| && IsTrace(ss, es, n)
    ensures Steps(ss[i], es[i], ss[i + 1])
  {
    if i < n - 1 {
      TraceStep(ss, es, n - 1, i);
    }
  }

  lemma {:induction false} TraceOfPrefix(ss: seq<Sys>, es: seq<Event>, ss': seq<Sys>, es': seq<Event>, n: nat)
    requires n <= |es| < |ss| && ss <= ss' && es <= es' && |es'| < |ss'|
    ensures IsTrace(ss, es, n) <==> IsTrace(ss', es', n)
  {
    if 0 < n {
      TraceOfPrefix(ss, es, ss', es', n - 1);
    }
  }

  // An execution with one more enabled step.
  lemma Extend(ss: seq<Sys>, es: seq<Event>, e: Event) returns (ss': seq<Sys>, es': seq<Event>)
    requires Execution(ss, es) && Enabled(ss[|es|], e)
    ensures Execution(ss', es') && ss <= ss' && es' == es + [e] && ss'[|es'|] == Next(ss[|es|], e)
  {
    ss', es' := ss + [Next(ss[|es|], e)], es + [e];
    TraceOfPrefix(ss, es, ss', es', |es|);
  }

  lemma InitialInv()
    ensures Inv(Initial())
  {
  }

  lemma {:induction false} ReachableStatesAreSound(ss: seq<Sys>, es: seq<Event>, i: nat)
    requires Execution(ss, es) && i < |ss|
    ensures Inv(ss[i])
  {
    if 0 < i {
      ReachableStatesAreSound(ss, es, i - 1);
      TraceStep(ss, es, |es|, i - 1);
      StepKeepsInv(ss[i - 1], es[i - 1]);
    } else {
      InitialInv();
    }
  }

  // A step of an execution, from a sound state.
  lemma StepAt(ss: seq<Sys>, es: seq<Event>, i: nat)
    requires Execution(ss, es) && i < |es|
    ensures Inv(ss[i]) && Steps(ss[i], es[i], ss[i + 1])
  {
    ReachableStatesAreSound(ss, es, i);
    TraceStep(ss, es, |es|, i);
  }

  /** At any moment at most one session of a login is usable, and it is the newest one. */
  lemma OneUsableSessionPerLogin(ss: seq<Sys>, es: seq<Event>, i: nat, x: SessionId, now: int)
    requires Execution(ss, es) && i < |ss| && Live(ss[i].store, x, now)
    ensures var s := ss[i];
      && x in s.home && s.home[x] in s.chains
      && var c := s.chains[s.home[x]];
         |c| > 0 && c[|c| - 1] == x && forall y :: y in c && y != x ==> !Live(s.store, y, now)
  {
    ReachableStatesAreSound(ss, es, i);
    var s := ss[i];
    HomeOf(s, x);
    var c := s.chains[s.home[x]];
    forall y | y in c && y != x ensures !Live(s.store, y, now) {
      var m :| 0 <= m < |c| && c[m] == y;
      assert LinkOk(s.store, s.store[s.home[x]].user, c, m);
    }
  }

  /** A session once stored keeps its user and token for good, and its revocation never changes once set. */
  lemma {:induction false} RevocationIsFinal(ss: seq<Sys>, es: seq<Event>, x: SessionId, a: nat, b: nat)
    requires Execution(ss, es) && a <= b < |ss| && x in ss[a].store
    ensures x in ss[b].store && ss[b].store[x].user == ss[a].store[x].user && ss[b].store[x].token == ss[a].store[x].token
    ensures ss[a].store[x].revokedAt.Some? ==> ss[b].store[x] == ss[a].store[x]
    decreases b
  {
    if a < b {
      RevocationIsFinal(ss, es, x, a, b - 1);
      StepAt(ss, es, b - 1);
      RowStep(ss[b - 1], es[b - 1], x);
    }
  }

  /** Of all refreshes that found one session, at most one rotates it: the token gets at most one replacement. */
  lemma OneReplacementPerToken(ss: seq<Sys>, es: seq<Event>, a: nat, b: nat)
    requires Execution(ss, es) && a < b < |es|
    requires Rotates(ss[a], es[a]) && Rotates(ss[b], es[b])
    ensures ss[a].pending[es[a].req].prev != ss[b].pending[es[b].req].prev
  {
    StepAt(ss, es, a);
    var x := ss[a].pending[es[a].req].prev;
    if x == ss[b].pending[es[b].req].prev {
      RotatedIsRevoked(ss[a], es[a]);
      RevocationIsFinal(ss, es, x, a + 1, b);
      assert false;
    }
  }

  lemma RotatedIsRevoked(s: Sys, e: Event)
    requires Enabled(s, e) && Rotates(s, e)
    ensures var x := s.pending[e.req].prev; x in NextStore(s, e) && NextStore(s, e)[x].revokedAt.Some?
  {
  }

  // Every session of the login is revoked.
  predicate Dead(s: Sys, root: SessionId) {
    root in s.chains && forall i :: 0 <= i < |s.chains[root]| ==>
      s.chains[root][i] in s.store && s.store[s.chains[root][i]].revokedAt.Some?
  }

  lemma DeadStep(s: Sys, e: Event, root: SessionId)
    requires Inv(s) && Enabled(s, e) && Dead(s, root)
    ensures Dead(Next(s, e), root) && NextChains(s, e)[root] == s.chains[root]
  {
    var c := s.chains[root];
    assert ChainOk(s.store, s.home, root, c);
    if Rotates(s, e) {
      HomeOf(s, s.pending[e.req].prev);
      assert s.home[s.pending[e.req].prev] != root;
    }
    forall i | 0 <= i < |c| ensures c[i] in NextStore(s, e) && NextStore(s, e)[c[i]].revokedAt.Some? {
      RowStep(s, e, c[i]);
    }
  }

  lemma DeadAt(ss: seq<Sys>, es: seq<Event>, root: SessionId, i: nat)
    requires Execution(ss, es) && i < |es| && Dead(ss[i], root)
    ensures Dead(ss[i + 1], root) && ss[i + 1].chains[root] == ss[i].chains[root]
  {
    StepAt(ss, es, i);
    DeadStep(ss[i], es[i], root);
  }

  /** A login that is wholly revoked stays so: no refresh, however interleaved, brings one of its sessions back. */
  lemma {:induction false} DeadLoginsStayDead(ss: seq<Sys>, es: seq<Event>, root: SessionId, a: nat, b: nat)
    requires Execution(ss, es) && a <= b < |ss| && Dead(ss[a], root)
    ensures Dead(ss[b], root) && ss[b].chains[root] == ss[a].chains[root]
    decreases b
  {
    if a < b {
      DeadLoginsStayDead(ss, es, root, a, b - 1);
      DeadAt(ss, es, root, b - 1);
    }
  }

  /** After a reset, a deactivation or a reused token revokes a user's sessions, every usable session of that user
      comes from a login inserted later, although refreshes begun before may still be on their way. */
  lemma RevokeAllCutsEveryLogin(ss: seq<Sys>, es: seq<Event>, a: nat, b: nat, x: SessionId, now: int)
    requires Execution(ss, es) && a < b < |ss| && es[a].RevokeAll? && es[a].keep == None
    requires Live(ss[b].store, x, now) && ss[b].store[x].user == es[a].user
    ensures x in ss[b].home && ss[b].home[x] !in ss[a].chains
  {
    ReachableStatesAreSound(ss, es, b);
    HomeOf(ss[b], x);
    var root := ss[b].home[x];
    if root in ss[a].chains {
      RevokedAt(ss, es, a, b, root);
      DeadLoginsStayDead(ss, es, root, a + 1, b);
      assert false;
    }
  }

  lemma RevokedAt(ss: seq<Sys>, es: seq<Event>, a: nat, b: nat, root: SessionId)
    requires Execution(ss, es) && a < b < |ss| && es[a].RevokeAll? && es[a].keep == None
    requires root in ss[a].chains && root in ss[b].store && ss[b].store[root].user == es[a].user
    ensures Dead(ss[a + 1], root)
  {
    StepAt(ss, es, a);
    assert ChainOk(ss[a].store, ss[a].home, root, ss[a].chains[root]);
    RevocationIsFinal(ss, es, root, a, b);
    RevokedLoginIsDead(ss[a], es[a], root);
  }

  lemma RevokedLoginIsDead(s: Sys, e: Event, root: SessionId)
    requires Inv(s) && e.RevokeAll? && e.keep == None && root in s.chains && s.store[root].user == e.user
    ensures Dead(Next(s, e), root)
  {
    var c := s.chains[root];
    assert ChainOk(s.store, s.home, root, c);
    forall i | 0 <= i < |c| ensures c[i] in NextStore(s, e) && NextStore(s, e)[c[i]].revokedAt.Some? {
      assert LinkOk(s.store, s.store[root].user, c, i);
    }
  }

  // ---------- What survives a reset ----------

  // Nothing of the user is left: no accepted password waits for its session, and every login is wholly revoked.
  predicate CutOff(s: Sys, user: UserId) {
    (forall r :: r in s.verified ==> s.verified[r] != user)
    && forall root :: root in s.chains && root in s.store && s.store[root].user == user ==> Dead(s, root)
  }

  lemma CutStep(s: Sys, e: Event, user: UserId)
    requires Inv(s) && Enabled(s, e) && CutOff(s, user) && !(e.Verify? && e.user == user)
    ensures CutOff(Next(s, e), user)
  {
    var s' := Next(s, e);
    forall root | root in s'.chains && root in s'.store && s'.store[root].user == user ensures Dead(s', root) {
      if root in s.chains {
        assert ChainOk(s.store, s.home, root, s.chains[root]);
        RowStep(s, e, root);
        DeadStep(s, e, root);
      }
    }
  }

  // No password of the user is accepted from step a on.
  predicate NoVerify(es: seq<Event>, user: UserId, a: nat) {
    forall i {:trigger es[i]} :: a <= i < |es| ==> !(es[i].Verify? && es[i].user == user)
  }

  lemma {:induction false} CutLasts(ss: seq<Sys>, es: seq<Event>, user: UserId, a: nat, b: nat)
    requires Execution(ss, es) && a <= b < |ss| && CutOff(ss[a], user) && NoVerify(es, user, a)
    ensures CutOff(ss[b], user)
    decreases b
  {
    if a < b {
      CutLasts(ss, es, user, a, b - 1);
      StepAt(ss, es, b - 1);
      CutStep(ss[b - 1], es[b - 1], user);
    }
  }

  // The user has a usable session at some time.
  predicate UsableAt(s: Sys, user: UserId, x: SessionId, now: int) { Live(s.store, x, now) && s.store[x].user == user }

  lemma CutOffHasNothing(s: Sys, user: UserId, x: SessionId, now: int)
    requires Inv(s) && CutOff(s, user)
    ensures !UsableAt(s, user, x, now)
  {
    if x in s.store && s.store[x].user == user {
      HomeOf(s, x);
      var i :| 0 <= i < |s.chains[s.home[x]]| && s.chains[s.home[x]][i] == x;
      assert s.store[x].revokedAt.Some?;
    }
  }

  // A string longer than any of a set.
  lemma {:induction false} LongString(ks: set<string>) returns (x: string)
    ensures forall k :: k in ks ==> |k| < |x|
    decreases ks
  {
    x := "x";
    if k :| k in ks {
      var y := LongString(ks - {k});
      x := y + k + "x";
    }
  }

  lemma FreshNames(st: Store) returns (id: SessionId, token: Token)
    ensures id !in st && forall k :: k in st ==> st[k].token != token
  {
    id := LongString(st.Keys);
    token := LongString(set k | k in st :: st[k].token);
    forall k | k in st ensures st[k].token != token {
      assert st[k].token in set m | m in st :: st[m].token;
    }
  }

  // An execution that goes on from another one.
  predicate Continues(ss: seq<Sys>, es: seq<Event>, ss': seq<Sys>, es': seq<Event>) {
    Execution(ss, es) && Execution(ss', es') && ss <= ss' && es <= es'
  }

  // A password accepted before the reset can still become a usable session after it.
  lemma PendingLoginSurvives(ss: seq<Sys>, es: seq<Event>, r: RequestId)
      returns (ss': seq<Sys>, es': seq<Event>, x: SessionId)
    requires Execution(ss, es) && r in ss[|es|].verified
    ensures Continues(ss, es, ss', es') && NoVerify(es', ss[|es|].verified[r], |es|)
    ensures UsableAt(ss'[|es'|], ss[|es|].verified[r], x, 0)
  {
    var token;
    x, token := FreshNames(ss[|es|].store);
    ss', es' := Extend(ss, es, Login(r, x, token, 0, 1));
  }

  lemma ResetCutsOff(s: Sys, e: Event)
    requires Inv(s) && Enabled(s, e) && e.RevokeAll? && e.keep == None
    requires forall r :: r in s.verified ==> s.verified[r] != e.user
    ensures CutOff(Next(s, e), e.user)
  {
    forall root | root in s.chains && root in NextStore(s, e) && NextStore(s, e)[root].user == e.user
      ensures Dead(Next(s, e), root)
    {
      assert ChainOk(s.store, s.home, root, s.chains[root]);
      RowStep(s, e, root);
      RevokedLoginIsDead(s, e, root);
    }
  }

  /** What a reset leaves. A usable session of the user can appear without a new password check if and only if a
      password accepted before the reset still waits for its session to be inserted. */
  lemma ResetIsCompleteExactly(ss: seq<Sys>, es: seq<Event>)
    requires Execution(ss, es) && es != [] && es[|es| - 1].RevokeAll? && es[|es| - 1].keep == None
    ensures var user := es[|es| - 1].user;
      (exists ss': seq<Sys>, es': seq<Event>, x: SessionId, now: int ::
         Continues(ss, es, ss', es') && NoVerify(es', user, |es|) && UsableAt(ss'[|es'|], user, x, now))
      <==> exists r :: r in ss[|es|].verified && ss[|es|].verified[r] == user
  {
    var user := es[|es| - 1].user;
    if r :| r in ss[|es|].verified && ss[|es|].verified[r] == user {
      var ss', es', x := PendingLoginSurvives(ss, es, r);
      assert Continues(ss, es, ss', es') && NoVerify(es', user, |es|) && UsableAt(ss'[|es'|], user, x, 0);
    } else {
      StepAt(ss, es, |es| - 1);
      ResetCutsOff(ss[|es| - 1], es[|es| - 1]);
      forall ss': seq<Sys>, es': seq<Event>, x: SessionId, now: int
          | Continues(ss, es, ss', es') && NoVerify(es', user, |es|)
        ensures !UsableAt(ss'[|es'|], user, x, now)
      {
        assert ss'[|es|] == ss[|es|];
        CutLasts(ss', es', user, |es|, |es'|);
        ReachableStatesAreSound(ss', es', |es'|);
        CutOffHasNothing(ss'[|es'|], user, x, now);
      }
    }
  }
}
