/** The session repository and the authentication service over it, run in place. */
module AuthServices {
  import opened Wrappers
  import opened Sessions

  datatype Error = InvalidCredentials | InvalidToken | ExpiredToken | RevokedSession | InactiveUser | StoreFailed | NotFound

  // What other requests leave of a store: every row, with its user and token, and a revoked row as it was.
  predicate Later(st: Store, st': Store) {
    (forall k :: k in st ==> k in st' && st'[k].user == st[k].user && st'[k].token == st[k].token)
    && forall k :: k in st && st[k].revokedAt.Some? ==> st'[k] == st[k]
  }

  // The session can be used at exactly the instants before end, by this user and with this token.
  predicate LastsUntil(st: Store, id: SessionId, user: UserId, token: Token, end: int) {
    id in st && st[id].user == user && st[id].token == token && st[id].revokedAt == None && st[id].replacedBy == None
    && st[id].expires == end
  }

  // The session is revoked for good.
  predicate Over(st: Store, id: SessionId) { id in st && st[id].revokedAt.Some? }

  class AuthService {
    var store: Store
    var users: set<UserId>
    var active: set<UserId>
    const ttl: int

    constructor (users: set<UserId>, ttl: int)
      ensures store == map[] && this.users == users && active == users && this.ttl == ttl
    {
      store, this.users, active, this.ttl := map[], users, users, ttl;
    }

    // The primary key and the unique token hash make a second row an error.
    method CreateSession(id: SessionId, row: Session) returns (ok: bool)
      modifies this`store
      ensures ok == CanInsert(old(store), id, row)
      ensures store == if ok then old(store)[id := row] else old(store)
    {
      ok := id !in store && forall k :: k in store ==> store[k].token != row.token;
      if ok {
        store := store[id := row];
      }
    }

    /** One transaction: insert the replacement, revoke the predecessor if it is still unrevoked and unexpired, and
        roll both back otherwise. */
    method RotateSession(prev: SessionId, id: SessionId, row: Session, now: int) returns (err: Option<Error>)
      requires id == prev ==> prev in store
      modifies this`store
      ensures err == if !CanInsert(old(store), id, row) then Some(StoreFailed)
                     else if !Rotatable(old(store), prev, now) then Some(RevokedSession) else None
      ensures store == if err.None? then Rotated(old(store), prev, id, row, now) else old(store)
      ensures err.None? <==>
        && id !in old(store) && (forall k :: k in old(store) ==> old(store)[k].token != row.token)
        && prev in old(store) && old(store)[prev].revokedAt == None && now < old(store)[prev].expires
      ensures err.None? ==> Over(store, prev) && store[prev].replacedBy == Some(id) && id in store && store[id] == row
      ensures err.None? ==> store.Keys == old(store).Keys + {id}
                            && forall k :: k in old(store) && k != prev ==> store[k] == old(store)[k]
    {
      var saved := store;
      var inserted := CreateSession(id, row);
      if !inserted {
        return Some(StoreFailed);
      }
      var changed := prev in store && store[prev].revokedAt == None && store[prev].expires > now;
      if changed {
        store := store[prev := store[prev].(revokedAt := Some(now), replacedBy := Some(id), lastUsed := now)];
        assert store == Rotated(old(store), prev, id, row, now);
        return None;
      }
      store := saved;
      err := Some(RevokedSession);
    }

    /** Login: the password check gives valid. A session that was stored is revoked again when the login cannot be
        recorded; if that revocation fails too, the session stays, and no other session changes. */
    method Login(user: UserId, valid: bool, id: SessionId, issued: Token, now: int, recorded: bool, revoked: bool)
        returns (err: Option<Error>)
      modifies this`store
      ensures err == if !valid then Some(InvalidCredentials) else if user !in active then Some(InactiveUser)
                     else if !CanInsert(old(store), id, Fresh(user, issued, now, ttl)) || !recorded then Some(StoreFailed)
                     else None
      ensures err.None? ==> store == old(store)[id := Fresh(user, issued, now, ttl)]
      ensures err.None? ==> LastsUntil(store, id, user, issued, now + ttl)
      ensures err.None? <==> valid && user in active && recorded && id !in old(store)
                             && forall k :: k in old(store) ==> old(store)[k].token != issued
      ensures err.Some? ==> var row := Fresh(user, issued, now, ttl);
        store == if !valid || user !in active || !CanInsert(old(store), id, row) then old(store)
                 else if revoked then old(store)[id := row.(revokedAt := Some(now), lastUsed := now)]
                 else old(store)[id := row]
      ensures forall k :: k in old(store) ==> k in store && store[k] == old(store)[k]
    {
      if !valid {
        return Some(InvalidCredentials);
      }
      if user !in active {
        return Some(InactiveUser);
      }
      var inserted := CreateSession(id, Fresh(user, issued, now, ttl));
      if !inserted {
        return Some(StoreFailed);
      }
      if !recorded {
        if revoked {
          var ignored := RevokeSession(user, id, now);
        }
        return Some(StoreFailed);
      }
      err := None;
    }

    method RevokeSession(user: UserId, id: SessionId, now: int) returns (err: Option<Error>)
      modifies this`store
      ensures store == RevokeOne(old(store), user, id, now)
      ensures err.None? <==> id in old(store) && old(store)[id].user == user && old(store)[id].revokedAt == None
      ensures err.None? ==> store == old(store)[id := old(store)[id].(revokedAt := Some(now), lastUsed := now)]
      ensures err.Some? ==> store == old(store)
    {
      if id !in store || store[id].user != user || store[id].revokedAt.Some? {
        return Some(NotFound);
      }
      store := store[id := store[id].(revokedAt := Some(now), lastUsed := now)];
      err := None;
    }

    method RevokeUserSessions(user: UserId, keep: Option<SessionId>, now: int)
      modifies this`store
      ensures store == RevokeUser(old(store), user, keep, now)
      ensures store.Keys == old(store).Keys
      ensures forall k :: k in store ==> var r := old(store)[k];
        store[k] == if r.user == user && keep != Some(k) && r.revokedAt == None
                    then r.(revokedAt := Some(now), lastUsed := now) else r
    {
      store := map k | k in store ::
        if store[k].user == user && keep != Some(k) && store[k].revokedAt == None
        then store[k].(revokedAt := Some(now), lastUsed := now) else store[k];
    }

    // SELECT by token hash.
    method FindByToken(token: Token) returns (found: Option<SessionId>)
      ensures found.Some? ==> found.value in store && store[found.value].token == token
      ensures found.None? ==> forall k :: k in store ==> store[k].token != token
    {
      var rest := store.Keys;
      while rest != {}
        invariant forall k :: k in store && k !in rest ==> store[k].token != token
        decreases rest
      {
        var k :| k in rest;
        if k in store && store[k].token == token {
          return Some(k);
        }
        rest := rest - {k};
      }
      found := None;
    }

    // Statements of others: sessions come and are revoked, and no stored one changes its user or token.
    method Others()
      requires TokensOk(store)
      modifies this`store
      ensures TokensOk(store) && Later(old(store), store)
    {
      var count: int := *;
      for k := 0 to if count < 0 then 0 else count
        invariant TokensOk(store) && Later(old(store), store)
      {
        OneStatement();
      }
    }

    method OneStatement()
      requires TokensOk(store)
      modifies this`store
      ensures TokensOk(store) && Later(old(store), store)
    {
      var user: UserId, token: Token, id: SessionId, now: int := *, *, *, *;
      var which: bool := *;
      if which {
        var ok := CreateSession(id, Fresh(user, token, now, ttl));
      } else {
        RevokeUserSessions(user, Some(id), now);
      }
    }

    // The session r that was found under the token was usable, and so it was in mid; it is revoked for the new one, which
    // belongs to its user and lasts for ttl from now. No other session of mid changes.
    predicate Exchanged(r: Session, mid: Store, k: SessionId, token: Token, now: int, id: SessionId, issued: Token)
      requires k in mid
      reads this`store, this`active
    {
      && r.token == token && r.user in active && r.revokedAt == None && now < r.expires
      && mid[k].revokedAt == None && id !in mid
      && Over(store, k) && store[k].replacedBy == Some(id) && LastsUntil(store, id, r.user, issued, now + ttl)
      && store.Keys == mid.Keys + {id} && forall x :: x in mid && x != k ==> store[x] == mid[x]
    }

    // A refresh that has read session r of prev: the answer it can give at once, if any.
    function AtOnce(r: Session, now: int): Option<Error>
      reads this`active
    {
      if r.revokedAt.Some? then Some(RevokedSession)
      else if r.expires <= now then Some(ExpiredToken)
      else if r.user !in active then Some(InactiveUser)
      else None
    }

    // The rest of a refresh that found prev: mid is the store that its own write meets.
    method RefreshFound(prev: SessionId, now: int, id: SessionId, issued: Token, revoked: bool)
        returns (err: Option<Error>, ghost mid: Store)
      requires TokensOk(store) && prev in store
      modifies this`store
      ensures Later(old(store), mid) && prev in mid
      ensures var r := old(store)[prev]; var row := Fresh(r.user, issued, now, ttl);
        if AtOnce(r, now) == Some(RevokedSession) then
          err == Some(RevokedSession) && store == if revoked then RevokeUser(mid, r.user, None, now) else mid
        else if AtOnce(r, now).Some? then err == AtOnce(r, now) && store == mid
        else if !CanInsert(mid, id, row) then err == Some(StoreFailed) && store == mid
        else if !Rotatable(mid, prev, now) then err == Some(RevokedSession) && store == mid
        else err == None && store == Rotated(mid, prev, id, row, now)
    {
      var session := store[prev];
      Others();
      mid := store;
      if session.revokedAt.Some? {
        if revoked {
          RevokeUserSessions(session.user, None, now);
        }
        return Some(RevokedSession), mid;
      }
      if session.expires <= now {
        return Some(ExpiredToken), mid;
      }
      if session.user !in active {
        return Some(InactiveUser), mid;
      }
      err := RotateSession(prev, id, Fresh(session.user, issued, now, ttl), now);
    }

    /** Refresh among other requests. An unknown token changes nothing. A token found revoked cuts every session of its
        user off, unless that statement fails (revoked is false). A session found expired or of an inactive user is
        refused, and otherwise the session is exchanged if and only if it is still unrevoked when the exchange is made;
        a failed exchange changes nothing. */
    method Refresh(token: Token, now: int, id: SessionId, issued: Token, revoked: bool)
        returns (err: Option<Error>, ghost mid: Store)
      requires TokensOk(store)
      modifies this`store
      ensures Later(old(store), mid)
      ensures (forall k :: k in old(store) ==> old(store)[k].token != token) ==> err == Some(InvalidToken) && store == mid
      ensures forall k :: k in old(store) && old(store)[k].token == token ==>
        var r := old(store)[k]; var row := Fresh(r.user, issued, now, ttl);
        if AtOnce(r, now) == Some(RevokedSession) then
          err == Some(RevokedSession) && store == if revoked then RevokeUser(mid, r.user, None, now) else mid
        else if AtOnce(r, now).Some? then err == AtOnce(r, now) && store == mid
        else if !CanInsert(mid, id, row) then err == Some(StoreFailed) && store == mid
        else if !Rotatable(mid, k, now) then err == Some(RevokedSession) && store == mid
        else err == None && k in mid && store == Rotated(mid, k, id, row, now)
      ensures err.None? ==> exists k :: k in old(store) && k in mid && Exchanged(old(store)[k], mid, k, token, now, id, issued)
      ensures forall k :: k in old(store) && old(store)[k].token == token && old(store)[k].revokedAt == None ==>
        if old(store)[k].expires <= now then err == Some(ExpiredToken)
        else if old(store)[k].user !in active then err == Some(InactiveUser)
        else if id in mid || exists x :: x in mid && mid[x].token == issued then err == Some(StoreFailed)
        else k in mid && err == if mid[k].revokedAt == None && now < mid[k].expires then None else Some(RevokedSession)
      ensures forall k :: k in old(store) && old(store)[k].token == token && old(store)[k].revokedAt.Some? ==>
        err == Some(RevokedSession)
        && (revoked ==> forall x :: x in store && store[x].user == old(store)[k].user ==> Over(store, x))
    {
      var found := FindByToken(token);
      if found.None? {
        return Some(InvalidToken), store;
      }
      assert forall k :: k in store && store[k].token == token ==> k == found.value;
      var k := found.value;
      err, mid := RefreshFound(k, now, id, issued, revoked);
      assert err.None? ==> Exchanged(old(store)[k], mid, k, token, now, id, issued);
    }

    /** Deactivating a user ends with a revocation of every session. An unknown user, or a failed first statement,
        changes nothing; a failed revocation leaves an inactive user with sessions, none of which gives access. */
    method SetUserActive(user: UserId, on: bool, now: int, stored: bool, revoked: bool) returns (err: Option<Error>)
      modifies this
      ensures users == old(users)
      ensures err == if !stored then Some(StoreFailed) else if user !in users then Some(NotFound)
                     else if !on && !revoked then Some(StoreFailed) else None
      ensures active == if !stored || user !in users then old(active)
                        else if on then old(active) + {user} else old(active) - {user}
      ensures store == if stored && user in users && !on && revoked then RevokeUser(old(store), user, None, now)
                       else old(store)
    {
      if !stored {
        return Some(StoreFailed);
      }
      if user !in users {
        return Some(NotFound);
      }
      active := if on then active + {user} else active - {user};
      if on {
        return None;
      }
      if !revoked {
        return Some(StoreFailed);
      }
      RevokeUserSessions(user, None, now);
      err := None;
    }

    /** Access is granted exactly to a usable session of an active user. */
    method ValidateAccess(user: UserId, id: SessionId, now: int) returns (ok: bool)
      ensures ok <==> user in active && Live(store, id, now) && store[id].user == user
      ensures ok <==> user in active && id in store && store[id].user == user && store[id].revokedAt == None
                      && now < store[id].expires
    {
      if user !in active {
        return false;
      }
      if id !in store || store[id].user != user || store[id].revokedAt.Some? || store[id].expires <= now {
        return false;
      }
      ok := true;
    }
  }

  /** A session that lasts until end is usable at exactly the instants before it. With a positive lifetime a session
      handed out now is usable now, and for that lifetime. */
  lemma UsableForItsLifetime(st: Store, id: SessionId, user: UserId, token: Token, now: int, ttl: int, t: int)
    requires LastsUntil(st, id, user, token, now + ttl)
    ensures Live(st, id, t) <==> t < now + ttl
    ensures 0 < ttl ==> Live(st, id, now)
  {
  }

  /** The token pair that Refresh hands out is usable at once, and the exchanged one never again. */
  lemma RotationHandsOver(st: Store, prev: SessionId, id: SessionId, row: Session, now: int, later: int)
    requires Rotatable(st, prev, now) && CanInsert(st, id, row) && row.revokedAt == None && now < row.expires
    ensures var st' := Rotated(st, prev, id, row, now);
      && Live(st', id, now) && !Live(st', prev, later) && st'.Keys == st.Keys + {id}
      && forall k :: k in st && k != prev ==> st'[k] == st[k]
  {
    assert id != prev;
  }
}
