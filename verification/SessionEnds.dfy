/** What the delete operations leave behind: exactly the named sessions, their cache entries and their
    refresh tokens go, a failed Redis call changes no row, and what is gone stays refused. */
module SessionEnds {
  import opened Base
  import opened Store
  import opened Flows
  import opened Invariants
  import opened Machine
  import opened SessionCache
  import opened Lineage

  /** The key of a cache entry is among the keys of some sessions exactly when it speaks for one of them. */
  lemma KeysAreEntries(s: State, sids: set<SessionId>)
    requires Inv(s) && sids <= s.sessions.Keys
    ensures forall k | k in s.cache :: k in CacheKeys(s.sessions, sids) <==> s.cache[k].snap.session in sids
  {
    forall k | k in s.cache
      ensures k in CacheKeys(s.sessions, sids) <==> s.cache[k].snap.session in sids
    {
      var sid := s.cache[k].snap.session;
      assert EntryOk(k, s.cache[k], s.users, s.sessions, s.hist.born);
      if sid in sids {
        assert SessionOk(sid, s.users, s.sessions, s.hist.born);
      }
      if k in CacheKeys(s.sessions, sids) {
        var other :| other in sids && other in s.sessions && Sha256(s.sessions[other].token) == k;
        assert SessionOk(other, s.users, s.sessions, s.hist.born);
        assert SameToken(other, sid, s.hist.born);
      }
    }
  }

  /** WHERE user_id = u covers exactly the rows that the cascade from the user's sessions removes. */
  lemma UserRowsExact(s: State, u: UserId, keep: Option<SessionId>)
    requires Inv(s)
    ensures RowsOfUser(s.refresh, u, keep) == set h | h in s.refresh && s.refresh[h].session in SessionsOfUser(s.sessions, u, keep)
  {
    OwnedRows(s);
  }

  lemma EndedTables(s: State, rows: set<TokenHash>, sids: set<SessionId>)
    requires rows == set h | h in s.refresh && s.refresh[h].session in sids
    ensures Ended(s, rows, sids, Finished).sessions == s.sessions - sids
    ensures Ended(s, rows, sids, Finished).refresh == s.refresh - rows
  {
  }

  lemma AbortChangesNoRow(s: State, u: UserId, keep: Option<SessionId>, dels: set<Digest>, reach: Reach)
    requires !(CacheKeys(s.sessions, SessionsOfUser(s.sessions, u, keep)) <= dels)
    ensures var t := DeleteAll(s, u, keep, dels, reach); t == s.(cache := t.cache) && t.cache.Keys <= s.cache.Keys
  {
  }

  lemma BulkCache(s: State, u: UserId, keep: Option<SessionId>, dels: set<Digest>, reach: Reach)
    ensures DeleteAll(s, u, keep, dels, reach).cache == s.cache - (CacheKeys(s.sessions, SessionsOfUser(s.sessions, u, keep)) * dels)
  {
    var targets := SessionsOfUser(s.sessions, u, keep);
    EndedLeaves(s.(cache := s.cache - (CacheKeys(s.sessions, targets) * dels)), RowsOfUser(s.refresh, u, keep), targets, reach);
  }

  /** The bulk delete, with or without an exception, at every outcome: a failed DEL changes no row; only
      entries of the deleted sessions leave the cache; and a finished delete removes exactly the targeted
      sessions, exactly their entries and exactly their refresh rows. */
  lemma DeleteAllExact(s: State, u: UserId, keep: Option<SessionId>, dels: set<Digest>, reach: Reach)
    requires Inv(s)
    ensures var targets := SessionsOfUser(s.sessions, u, keep);
            var t := DeleteAll(s, u, keep, dels, reach);
            && Inv(t)
            && (!(CacheKeys(s.sessions, targets) <= dels) ==> t == s.(cache := t.cache))
            && (forall k | k in t.cache :: k in s.cache && t.cache[k] == s.cache[k])
            && (forall k | k in s.cache && k !in t.cache :: s.cache[k].snap.session in targets)
            && (CacheKeys(s.sessions, targets) <= dels && reach.Finished? ==>
                && t.sessions == s.sessions - targets
                && t.refresh == s.refresh - (set h | h in s.refresh && s.refresh[h].session in targets)
                && forall k | k in s.cache :: k in t.cache <==> s.cache[k].snap.session !in targets)
  {
    var targets := SessionsOfUser(s.sessions, u, keep);
    DeleteAllKeeps(s, u, keep, dels, reach);
    KeysAreEntries(s, targets);
    BulkCache(s, u, keep, dels, reach);
    if CacheKeys(s.sessions, targets) <= dels {
      UserRowsExact(s, u, keep);
      EndedTables(s.(cache := s.cache - (CacheKeys(s.sessions, targets) * dels)), RowsOfUser(s.refresh, u, keep), targets);
    } else {
      AbortChangesNoRow(s, u, keep, dels, reach);
    }
  }

  /** A session outside the targets keeps its row, its cache entry and every refresh row, whatever fails, and
      its token is looked up with the same answer. */
  lemma OthersUntouched(s: State, u: UserId, keep: Option<SessionId>, dels: set<Digest>, reach: Reach, sid: SessionId, io: CacheIo)
    requires Inv(s) && sid in s.sessions && (Some(sid) == keep || s.sessions[sid].user != u)
    ensures var t := DeleteAll(s, u, keep, dels, reach);
            && sid in t.sessions && t.sessions[sid] == s.sessions[sid]
            && (forall k | k in s.cache && s.cache[k].snap.session == sid :: k in t.cache && t.cache[k] == s.cache[k])
            && (forall h | h in s.refresh && s.refresh[h].session == sid :: h in t.refresh && t.refresh[h] == s.refresh[h])
            && FindByToken(t, s.sessions[sid].token, io).1 == FindByToken(s, s.sessions[sid].token, io).1
  {
    DeleteAllExact(s, u, keep, dels, reach);
    UserRowsExact(s, u, keep);
    UntouchedRows(s, u, keep, dels, reach, sid);
    SameAnswer(s, DeleteAll(s, u, keep, dels, reach), sid, io);
  }

  lemma UntouchedRows(s: State, u: UserId, keep: Option<SessionId>, dels: set<Digest>, reach: Reach, sid: SessionId)
    requires sid in s.sessions && sid !in SessionsOfUser(s.sessions, u, keep)
    requires RowsOfUser(s.refresh, u, keep) == set h | h in s.refresh && s.refresh[h].session in SessionsOfUser(s.sessions, u, keep)
    ensures var t := DeleteAll(s, u, keep, dels, reach);
            && sid in t.sessions && t.sessions[sid] == s.sessions[sid] && t.users == s.users && t.now == s.now
            && (forall h | h in s.refresh && s.refresh[h].session == sid :: h in t.refresh && t.refresh[h] == s.refresh[h])
  {
    var targets := SessionsOfUser(s.sessions, u, keep);
    EndedSpares(s.(cache := s.cache - (CacheKeys(s.sessions, targets) * dels)), RowsOfUser(s.refresh, u, keep), targets, reach, sid);
  }

  lemma EndedSpares(s: State, rows: set<TokenHash>, sids: set<SessionId>, reach: Reach, sid: SessionId)
    requires rows == set h | h in s.refresh && s.refresh[h].session in sids
    requires sid in s.sessions && sid !in sids
    ensures var t := Ended(s, rows, sids, reach);
            && sid in t.sessions && t.sessions[sid] == s.sessions[sid] && t.users == s.users && t.now == s.now
            && (forall h | h in s.refresh && s.refresh[h].session == sid :: h in t.refresh && t.refresh[h] == s.refresh[h])
  {
  }

  /** Lookup of a session's own token depends on its row, its owner and its entry only. */
  lemma SameAnswer(s: State, t: State, sid: SessionId, io: CacheIo)
    requires Inv(s) && Inv(t) && t.users == s.users && t.now == s.now
    requires sid in s.sessions && sid in t.sessions && t.sessions[sid] == s.sessions[sid]
    requires forall k | k in t.cache :: k in s.cache && t.cache[k] == s.cache[k]
    requires forall k | k in s.cache && s.cache[k].snap.session == sid :: k in t.cache
    ensures FindByToken(t, s.sessions[sid].token, io).1 == FindByToken(s, s.sessions[sid].token, io).1
  {
    var token := s.sessions[sid].token;
    RowByTokenFinds(s, token);
    RowByTokenFinds(t, token);
    if Sha256(token) in s.cache {
      OwnEntry(s, sid);
    }
  }

  lemma OwnEntry(s: State, sid: SessionId)
    requires Inv(s) && sid in s.sessions && Sha256(s.sessions[sid].token) in s.cache
    ensures s.cache[Sha256(s.sessions[sid].token)].snap.session == sid
  {
    var k := Sha256(s.sessions[sid].token);
    assert EntryOk(k, s.cache[k], s.users, s.sessions, s.hist.born);
    assert SessionOk(sid, s.users, s.sessions, s.hist.born);
    assert SameToken(sid, s.cache[k].snap.session, s.hist.born);
  }

  // ---------------------------------------------------------------- single sessions

  /** The single delete: nothing happens when its DEL fails; a finished one removes exactly the session's
      row, entry and refresh rows. */
  lemma DeleteSessionExact(s: State, sid: SessionId, delOk: bool, reach: Reach)
    requires Inv(s) && sid in s.sessions
    ensures var t := DeleteSession(s, sid, delOk, reach);
            && (!delOk ==> t == s)
            && (delOk ==> t.cache == s.cache - CacheKeys(s.sessions, {sid}))
            && (delOk && reach.Finished? ==>
                && t.sessions == s.sessions - {sid} && t.refresh == s.refresh - RowsOfSession(s.refresh, sid) && Gone(t, sid))
  {
    if delOk {
      var mid := s.(cache := s.cache - CacheKeys(s.sessions, {sid}));
      EndedLeaves(mid, RowsOfSession(s.refresh, sid), {sid}, reach);
      EndedTables(mid, RowsOfSession(s.refresh, sid), {sid});
      NoEntryOf(s, sid);
    }
  }

  lemma NoEntryOf(s: State, sid: SessionId)
    requires Inv(s) && sid in s.sessions
    ensures sid in s.hist.born
    ensures forall k | k in s.cache - CacheKeys(s.sessions, {sid}) :: s.cache[k].snap.session != sid
  {
    assert SessionOk(sid, s.users, s.sessions, s.hist.born);
    KeysAreEntries(s, {sid});
  }

  // -------------------------------------------------------------- logout, revocation

  /** Whatever happens to Redis or to the process after it, a logout leaves every refresh token of the session
      dead, now and in every continuation; and a finished one ends the session for good. */
  lemma LogoutIsFinal(s: State, sid: SessionId, delOk: bool, reach: Reach, later: seq<Event>)
    requires Reachable(s) && IsRun(Logout(s, sid, delOk, reach), later)
    ensures var t := Logout(s, sid, delOk, reach);
            && (forall h | h in s.refresh && s.refresh[h].session == sid :: Dead(t, h) && Dead(After(t, later), h))
            && (sid in s.sessions && delOk && reach.Finished? ==> Gone(t, sid) && Gone(After(t, later), sid))
  {
    ReachableOk(s);
    var mid := s.(refresh := Revoked(s.refresh, RowsOfSession(s.refresh, sid)));
    var t := Logout(s, sid, delOk, reach);
    RevokedKeeps(s, RowsOfSession(s.refresh, sid));
    LogoutKeeps(s, sid, delOk, reach);
    DeleteSessionEvolves(mid, sid, delOk, reach);
    RunEvolves(t, later);
    forall h | h in s.refresh && s.refresh[h].session == sid
      ensures Dead(t, h) && Dead(After(t, later), h)
    {
      assert RowIssued(h, s.refresh, s.hist.issues);
      assert Dead(mid, h);
      DeadStays(mid, t, h);
      DeadStays(t, After(t, later), h);
    }
    if sid in s.sessions && delOk && reach.Finished? {
      DeleteSessionExact(mid, sid, delOk, reach);
      GoneForever(t, later, sid);
    }
  }

  lemma LogoutRevokes(s: State, sid: SessionId, delOk: bool, reach: Reach)
    ensures LiveTokens(Logout(s, sid, delOk, reach), sid) == {}
  {
    var mid := s.(refresh := Revoked(s.refresh, RowsOfSession(s.refresh, sid)));
    WeakerAfterDelete(mid, sid, delOk, reach);
  }

  lemma WeakerAfterDelete(s: State, sid: SessionId, delOk: bool, reach: Reach)
    ensures Weaker(DeleteSession(s, sid, delOk, reach).refresh, s.refresh)
  {
    if !(sid in s.sessions && !delOk) {
      EndedWeaker(s.(cache := s.cache - CacheKeys(s.sessions, {sid})), RowsOfSession(s.refresh, sid), {sid}, reach);
    }
  }

  lemma EndedWeaker(s: State, rows: set<TokenHash>, sids: set<SessionId>, reach: Reach)
    ensures Weaker(Ended(s, rows, sids, reach).refresh, s.refresh)
  {
  }

  /** The client is allowed to revoke the presented token. */
  predicate MayRevoke(s: State, raw: string, clientId: string, secret: Option<string>) {
    && raw != "" && clientId != "" && ClientError(s, clientId, secret).None?
    && Hmac(raw) in s.refresh && s.refresh[Hmac(raw)].client == s.clients[clientId].key
  }

  /** Revocation takes exactly the presented token, and only for the authenticated client that owns it. */
  lemma RevokeExact(s: State, raw: string, clientId: string, secret: Option<string>, h: TokenHash)
    ensures Live(Revoke(s, raw, clientId, secret), h) <==> Live(s, h) && !(h == Hmac(raw) && MayRevoke(s, raw, clientId, secret))
  {
    if MayRevoke(s, raw, clientId, secret) {
      assert Revoke(s, raw, clientId, secret) == s.(refresh := Revoked(s.refresh, {Hmac(raw)}));
    } else {
      assert Revoke(s, raw, clientId, secret) == s;
    }
  }

  /** The sweep removes exactly the expired rows. */
  lemma SweepExact(s: State, h: TokenHash)
    requires Inv(s) && h in s.hist.issues
    ensures h in Sweep(s).refresh <==> h in s.refresh && s.now <= s.hist.issues[h].at + REFRESH_TTL
    ensures h in Sweep(s).refresh ==> Sweep(s).refresh[h] == s.refresh[h]
  {
    if h in s.refresh { assert RowIssued(h, s.refresh, s.hist.issues); }
  }
}
