/** The session store over whole runs: how far the cache agrees with Postgres, what every stage of a
    delete leaves, and that an ended session or a used reset token never comes back. */
module SessionCache {
  import opened Base
  import opened Store
  import opened Flows
  import opened Invariants
  import opened Machine

  // ------------------------------------------------------- cache-first against plain

  /** Agreement on session id, owner and expiry. */
  predicate SameSession(a: Option<Snapshot>, b: Option<Snapshot>) {
    if a.None? || b.None? then a.None? && b.None?
    else a.value.session == b.value.session && a.value.user == b.value.user && a.value.expires == b.value.expires
  }

  /** The cache answers for a session whose row is gone. */
  predicate StaleHit(s: State, token: string) {
    CacheHit(s, token) && s.cache[Sha256(token)].snap.session !in s.sessions
  }

  /** Cache-first lookup agrees with the database exactly when it does not read a stale entry, and a stale
      entry can only belong to a deleted user. */
  lemma LookupExact(s: State, token: string, io: CacheIo)
    requires Reachable(s) && token != ""
    ensures SameSession(FindByToken(s, token, io).1, DbLookup(s, token)) <==> !(io.read && StaleHit(s, token))
    ensures StaleHit(s, token) ==> s.cache[Sha256(token)].snap.user !in s.users
  {
    ReachableOk(s);
    LookupOk(s, token, io);
  }

  lemma LookupOk(s: State, token: string, io: CacheIo)
    requires Inv(s) && token != ""
    ensures SameSession(FindByToken(s, token, io).1, DbLookup(s, token)) <==> !(io.read && StaleHit(s, token))
    ensures StaleHit(s, token) ==> s.cache[Sha256(token)].snap.user !in s.users
  {
    RowByTokenFinds(s, token);
    var k := Sha256(token);
    if CacheHit(s, token) {
      HitFacts(s, token);
    }
  }

  lemma HitFacts(s: State, token: string)
    requires Inv(s) && CacheHit(s, token)
    ensures var snap := s.cache[Sha256(token)].snap;
            && (snap.session in s.sessions ==>
                && RowByToken(s.sessions, token) == Some(snap.session) && s.sessions[snap.session].user in s.users
                && s.sessions[snap.session].user == snap.user && s.sessions[snap.session].expires == snap.expires)
            && (snap.session !in s.sessions ==> RowByToken(s.sessions, token).None? && snap.user !in s.users)
  {
    var snap := s.cache[Sha256(token)].snap;
    assert EntryOk(Sha256(token), s.cache[Sha256(token)], s.users, s.sessions, s.hist.born);
    RowByTokenFinds(s, token);
    if snap.session in s.sessions {
      assert SessionOk(snap.session, s.users, s.sessions, s.hist.born);
    } else if RowByToken(s.sessions, token).Some? {
      assert SameToken(RowByToken(s.sessions, token).value, snap.session, s.hist.born);
    }
  }

  /** Every cached entry has its row. */
  ghost predicate Coherent(s: State) {
    forall k | k in s.cache :: s.cache[k].snap.session in s.sessions
  }

  /** A user removal that deletes every cache entry of the user. */
  ghost predicate CleanStep(s: State, e: Event) {
    e.RemoveUser? ==> forall k | k in s.cache && s.cache[k].snap.user == e.u :: k in e.dels
  }

  /** On a coherent state the removal of a user, whose bulk delete may fail unnoticed, keeps coherence
      exactly when every cache entry of the user was deleted. */
  lemma RemovalExact(s: State, u: UserId, dels: set<Digest>)
    requires Inv(s) && Coherent(s)
    ensures Coherent(DeleteUser(s, u, dels)) <==> CleanStep(s, RemoveUser(u, dels))
  {
    EntriesOfUser(s, u);
    RemainingSessions(s, u, dels);
    CoherenceLeft(s.cache, s.sessions, u, dels, DeleteUser(s, u, dels));
  }

  lemma CoherenceLeft(cache: map<Digest, Cached>, sessions: map<SessionId, Session>, u: UserId, dels: set<Digest>, t: State)
    requires var targets := SessionsOfUser(sessions, u, None);
             t.sessions == sessions - targets && t.cache == cache - (CacheKeys(sessions, targets) * dels)
    requires forall k | k in cache ::
               cache[k].snap.session in sessions && sessions[cache[k].snap.session].user == cache[k].snap.user
               && (cache[k].snap.user == u ==> k in CacheKeys(sessions, SessionsOfUser(sessions, u, None)))
    ensures Coherent(t) <==> forall k | k in cache && cache[k].snap.user == u :: k in dels
  {
    var targets := SessionsOfUser(sessions, u, None);
    forall k | k in t.cache
      ensures t.cache[k].snap.session in t.sessions <==> cache[k].snap.user != u
    {
      assert cache[k].snap.session in targets <==> cache[k].snap.user == u;
    }
    if Coherent(t) {
      forall k | k in cache && cache[k].snap.user == u
        ensures k in dels
      {
        assert k !in t.cache;
      }
    }
  }

  lemma DropTwice(sessions: map<SessionId, Session>, u: UserId)
    ensures var rest := sessions - SessionsOfUser(sessions, u, None); rest - SessionsOfUser(rest, u, None) == rest
  {
    var rest := sessions - SessionsOfUser(sessions, u, None);
    assert SessionsOfUser(rest, u, None) == {};
  }

  lemma RemainingSessions(s: State, u: UserId, dels: set<Digest>)
    ensures var t := DeleteUser(s, u, dels);
            var targets := SessionsOfUser(s.sessions, u, None);
            && t.sessions == s.sessions - targets && t.cache == s.cache - (CacheKeys(s.sessions, targets) * dels)
            && t.users == s.users - {u} && t.now == s.now
  {
    DropTwice(s.sessions, u);
    BulkLeaves(s, u, dels);
    DropLeaves(DeleteAll(s, u, None, dels, Finished), u);
  }

  lemma BulkLeaves(s: State, u: UserId, dels: set<Digest>)
    ensures var t := DeleteAll(s, u, None, dels, Finished);
            var targets := SessionsOfUser(s.sessions, u, None);
            && (t.sessions == s.sessions || t.sessions == s.sessions - targets)
            && t.cache == s.cache - (CacheKeys(s.sessions, targets) * dels) && t.users == s.users && t.now == s.now
  {
    var targets := SessionsOfUser(s.sessions, u, None);
    EndedLeaves(s.(cache := s.cache - (CacheKeys(s.sessions, targets) * dels)), RowsOfUser(s.refresh, u, None), targets, Finished);
  }

  lemma EndedLeaves(s: State, rows: set<TokenHash>, sids: set<SessionId>, reach: Reach)
    ensures var t := Ended(s, rows, sids, reach);
            t == s.(refresh := t.refresh, sessions := if reach.Finished? then s.sessions - sids else s.sessions)
  {
  }

  lemma DropLeaves(t: State, u: UserId)
    ensures DropUser(t, u).sessions == t.sessions - SessionsOfUser(t.sessions, u, None)
    ensures DropUser(t, u).cache == t.cache && DropUser(t, u).users == t.users - {u} && DropUser(t, u).now == t.now
  {
  }

  /** Under coherence the entries of a user are keyed by the tokens of the user's sessions. */
  lemma EntriesOfUser(s: State, u: UserId)
    requires Inv(s) && Coherent(s)
    ensures forall k | k in s.cache ::
              s.cache[k].snap.session in s.sessions && s.sessions[s.cache[k].snap.session].user == s.cache[k].snap.user
              && (s.cache[k].snap.user == u ==> k in CacheKeys(s.sessions, SessionsOfUser(s.sessions, u, None)))
  {
    forall k | k in s.cache
      ensures s.cache[k].snap.session in s.sessions && s.sessions[s.cache[k].snap.session].user == s.cache[k].snap.user
              && (s.cache[k].snap.user == u ==> k in CacheKeys(s.sessions, SessionsOfUser(s.sessions, u, None)))
    {
      var sid := s.cache[k].snap.session;
      assert EntryOk(k, s.cache[k], s.users, s.sessions, s.hist.born);
      assert SessionOk(sid, s.users, s.sessions, s.hist.born);
      if s.cache[k].snap.user == u { assert sid in SessionsOfUser(s.sessions, u, None); }
    }
  }

  /** What an undeleted entry means: the removed user's token is still answered from the cache. */
  lemma UndeletedEntryAnswers(s: State, u: UserId, dels: set<Digest>, token: string, write: bool)
    requires CacheHit(s, token) && s.cache[Sha256(token)].snap.user == u && Sha256(token) !in dels && token != ""
    ensures var t := DeleteUser(s, u, dels);
            u !in t.users && FindByToken(t, token, CacheIo(true, write)).1 == Some(s.cache[Sha256(token)].snap)
  {
    RemainingSessions(s, u, dels);
  }

  /** A concrete case: create a user, log in, remove the user while Redis refuses the delete. */
  lemma UncleanRemovalLeavesStaleEntry()
    ensures StaleHit(DeleteUser(CreateSession(WithUser(Empty(0), 1, User(true)), 1, 7, "t", true), 1, {}), "t")
  {
    var s := CreateSession(WithUser(Empty(0), 1, User(true)), 1, 7, "t", true);
    LoginCaches(WithUser(Empty(0), 1, User(true)));
    RemainingSessions(s, 1, {});
    assert 7 in SessionsOfUser(s.sessions, 1, None);
  }

  lemma LoginCaches(s: State)
    requires s.users == map[1 := User(true)] && s.now == 0
    ensures var t := CreateSession(s, 1, 7, "t", true);
            && Sha256("t") in t.cache && t.cache[Sha256("t")].snap.session == 7 && t.cache[Sha256("t")].deadline > 0
            && 7 in t.sessions && t.sessions[7].user == 1 && t.now == 0
  {
  }

  // ---------------------------------------------------------- how sessions may change

  /** New cache entries have rows, rows come back only under new ids, and no session is forgotten. */
  ghost predicate SessionsMove(s: State, t: State) {
    && (forall k | k in t.cache :: (k in s.cache && t.cache[k] == s.cache[k]) || t.cache[k].snap.session in t.sessions)
    && (forall sid | sid in t.sessions :: sid in s.sessions || sid !in s.hist.born)
    && (forall sid | sid in s.hist.born :: sid in t.hist.born && t.hist.born[sid] == s.hist.born[sid])
  }

  lemma FindByTokenMoves(s: State, token: string, io: CacheIo)
    ensures SessionsMove(s, FindByToken(s, token, io).0)
  {
    var row := DbLookup(s, token);
    if row.Some? { PopulateMoves(s, Sha256(token), row.value, io.write); }
    FindByTokenFrame(s, token, io);
  }

  lemma FindActiveMoves(s: State, token: Option<string>, io: CacheIo)
    ensures SessionsMove(s, FindActive(s, token, io).0)
  {
    if token.Some? { FindByTokenMoves(s, token.value, io); }
  }

  /** Nothing new in cache or sessions. */
  lemma ShrinkingMoves(s: State, t: State)
    requires forall k | k in t.cache :: k in s.cache && t.cache[k] == s.cache[k]
    requires forall sid | sid in t.sessions :: sid in s.sessions
    requires t.hist.born == s.hist.born
    ensures SessionsMove(s, t)
  {
  }

  lemma DeleteSessionMoves(s: State, sid: SessionId, delOk: bool, reach: Reach)
    ensures SessionsMove(s, DeleteSession(s, sid, delOk, reach))
  {
    EndedLeaves(s.(cache := s.cache - CacheKeys(s.sessions, {sid})), RowsOfSession(s.refresh, sid), {sid}, reach);
    ShrinkingMoves(s, DeleteSession(s, sid, delOk, reach));
  }

  lemma DeleteAllMoves(s: State, u: UserId, keep: Option<SessionId>, dels: set<Digest>, reach: Reach)
    ensures SessionsMove(s, DeleteAll(s, u, keep, dels, reach))
  {
    var targets := SessionsOfUser(s.sessions, u, keep);
    EndedLeaves(s.(cache := s.cache - (CacheKeys(s.sessions, targets) * dels)), RowsOfUser(s.refresh, u, keep), targets, reach);
    ShrinkingMoves(s, DeleteAll(s, u, keep, dels, reach));
  }

  lemma DeleteUserMoves(s: State, u: UserId, dels: set<Digest>)
    ensures SessionsMove(s, DeleteUser(s, u, dels))
  {
    RemainingSessions(s, u, dels);
    BornAfterRemoval(s, u, dels);
    ShrinkingMoves(s, DeleteUser(s, u, dels));
  }

  lemma BornAfterRemoval(s: State, u: UserId, dels: set<Digest>)
    ensures DeleteUser(s, u, dels).hist == s.hist
  {
    var targets := SessionsOfUser(s.sessions, u, None);
    EndedLeaves(s.(cache := s.cache - (CacheKeys(s.sessions, targets) * dels)), RowsOfUser(s.refresh, u, None), targets, Finished);
  }

  lemma ConsumeResetMoves(s: State, raw: string, bytes: nat, dels: set<Digest>)
    ensures SessionsMove(s, ConsumeReset(s, raw, bytes, dels).0)
  {
    var reset := UsableReset(s, raw);
    ShrinkingMoves(s, s);
    if reset.Some? { DeleteAllMoves(ConsumeResets(s, reset.value.user), reset.value.user, None, dels, Finished); }
  }

  lemma AdministrationMoves(s: State, e: Event)
    requires IsAdministration(e)
    ensures SessionsMove(s, AdministrationStep(s, e))
  {
    match e {
      case Tick(later) => ShrinkingMoves(s, s.(now := later));
      case AddUser(u, user) => ShrinkingMoves(s, WithUser(s, u, user));
      case UpdateUser(u, user) => ShrinkingMoves(s, s); ShrinkingMoves(s, WithUser(s, u, user));
      case RemoveUser(u, dels) => DeleteUserMoves(s, u, dels);
      case PutClient(name, client) => ShrinkingMoves(s, WithClient(s, name, client));
      case RemoveClient(name) => DropClientMoves(s, name);
      case WithdrawConsent(u, key) => ShrinkingMoves(s, s.(consents := s.consents - {(u, key)}));
      case RedisLoses(c, k, r, d, p) => ShrinkingMoves(s, Lose(s, c, k, r, d, p));
    }
  }

  lemma DropClientMoves(s: State, name: string)
    ensures SessionsMove(s, DropClient(s, name))
  {
    ShrinkingMoves(s, DropClient(s, name));
  }

  lemma LoginMoves(s: State, u: UserId, sid: SessionId, token: string, write: bool)
    requires sid !in s.hist.born
    ensures SessionsMove(s, CreateSession(s, u, sid, token, write))
  {
    if u in s.users {
      PersistMoves(s, sid, Session(u, token, Some(s.now + SESSION_TTL), s.now), write);
      assert CreateSession(s, u, sid, token, write) == PersistSession(s, sid, Session(u, token, Some(s.now + SESSION_TTL), s.now), write);
    } else {
      ShrinkingMoves(s, s);
    }
  }

  lemma PersistMoves(s: State, sid: SessionId, row: Session, write: bool)
    requires sid !in s.hist.born && row.user in s.users
    ensures SessionsMove(s, PersistSession(s, sid, row, write))
  {
    var t := AddSession(s, sid, row);
    PopulateMoves(t, Sha256(row.token), SnapshotOf(t, sid), write);
  }

  /** Filling the cache adds an entry for the given session at most. */
  lemma PopulateMoves(s: State, key: Digest, snap: Snapshot, write: bool)
    ensures var t := Populate(s, key, snap, write);
            t == s.(cache := t.cache) && forall k | k in t.cache :: (k in s.cache && t.cache[k] == s.cache[k]) || t.cache[k].snap == snap
  {
  }

  lemma RevokeMoves(s: State, raw: string, clientId: string, secret: Option<string>)
    ensures SessionsMove(s, Revoke(s, raw, clientId, secret))
  {
    ShrinkingMoves(s, Revoke(s, raw, clientId, secret));
  }

  lemma RequestResetMoves(s: State, u: UserId, raw: string)
    ensures SessionsMove(s, RequestReset(s, u, raw))
  {
    ShrinkingMoves(s, RequestReset(s, u, raw));
  }

  lemma SessionEventMoves(s: State, e: Event)
    requires IsSessionEvent(e) && Enabled(s, e)
    ensures SessionsMove(s, SessionStep(s, e))
  {
    match e {
      case Login(u, sid, token, write) => LoginMoves(s, u, sid, token, write);
      case LookUp(token, io) => FindByTokenMoves(s, token, io);
      case EndSession(sid, delOk, reach) => DeleteSessionMoves(s, sid, delOk, reach);
      case EndSessions(u, keep, dels, reach) => DeleteAllMoves(s, u, keep, dels, reach);
      case LogOut(sid, delOk, reach) => LogoutMoves(s, sid, delOk, reach);
      case RevokeToken(raw, clientId, secret) => RevokeMoves(s, raw, clientId, secret);
      case SweepTokens => ShrinkingMoves(s, Sweep(s));
      case AskReset(u, raw) => RequestResetMoves(s, u, raw);
      case UseReset(raw, bytes, dels) => ConsumeResetMoves(s, raw, bytes, dels);
    }
  }

  lemma LogoutMoves(s: State, sid: SessionId, delOk: bool, reach: Reach)
    ensures SessionsMove(s, Logout(s, sid, delOk, reach))
  {
    DeleteSessionMoves(s.(refresh := Revoked(s.refresh, RowsOfSession(s.refresh, sid))), sid, delOk, reach);
  }

  lemma OnlyAuthorizationMoves(s: State, t: State, u: State)
    requires SessionsMove(s, t) && OnlyAuthorization(t, u)
    ensures SessionsMove(s, u)
  {
    assert u.cache == Beside(u).cache == t.cache && u.sessions == Beside(u).sessions == t.sessions;
    assert u.hist.born == Beside(u).hist.born == t.hist.born;
  }

  lemma AuthorizeMoves(s: State, r: AuthorizeRequest, code: string, requestId: string, io: CacheIo)
    ensures SessionsMove(s, Authorize(s, r, code, requestId, io).0)
  {
    var t := Authorize(s, r, code, requestId, io).0;
    FindActiveMoves(s, r.sessionToken, io);
    AuthorizeFrame(s, r, code, requestId, io);
    ShrinkingMoves(s, s);
    if t != s { OnlyAuthorizationMoves(s, FindActive(s, r.sessionToken, io).0, t); }
  }

  lemma ConsentMoves(s: State, token: Option<string>, requestId: string, approve: bool, code: string, io: CacheIo)
    ensures SessionsMove(s, SubmitConsent(s, token, requestId, approve, code, io).0)
  {
    FindActiveMoves(s, token, io);
    SubmitConsentFrame(s, token, requestId, approve, code, io);
    OnlyAuthorizationMoves(s, FindActive(s, token, io).0, SubmitConsent(s, token, requestId, approve, code, io).0);
  }

  lemma VerifyMoves(s: State, userCode: string, token: Option<string>, approve: bool, io: CacheIo)
    ensures SessionsMove(s, VerifyUserCode(s, userCode, token, approve, io).0)
  {
    FindActiveMoves(s, token, io);
    FindActiveFrame(s, token, io);
    VerifyFrame(s, userCode, token, approve, io);
    ShrinkingMoves(s, s);
  }

  lemma GrantEventMoves(s: State, e: Event)
    requires !IsAdministration(e) && !IsSessionEvent(e)
    ensures SessionsMove(s, GrantStep(s, e))
  {
    match e {
      case AskCode(r, code, requestId, io) => AuthorizeMoves(s, r, code, requestId, io);
      case AnswerConsent(token, requestId, approve, code, io) => ConsentMoves(s, token, requestId, approve, code, io);
      case CodeGrant(r, newRaw) => RedeemCodeFrame(s, r, newRaw);
      case RefreshGrant(r, newRaw) => RefreshFrame(s, r, newRaw);
      case DeviceGrant(r, newRaw, commits) => RedeemDeviceFrame(s, r, newRaw, commits);
      case AskDevice(clientId, scope, id, deviceCode, draws) => RequestDeviceFrame(s, clientId, scope, id, deviceCode, draws);
      case AnswerDevice(userCode, token, approve, io) => VerifyMoves(s, userCode, token, approve, io);
    }
  }

  lemma StepMoves(s: State, e: Event)
    requires Enabled(s, e)
    ensures SessionsMove(s, Step(s, e))
  {
    if IsAdministration(e) {
      AdministrationMoves(s, e);
    } else if IsSessionEvent(e) {
      SessionEventMoves(s, e);
    } else {
      GrantEventMoves(s, e);
    }
  }

  // ----------------------------------------------------------- coherence over runs

  /** Users and device records are as before. */
  predicate SameOutside(s: State, t: State) {
    t.users == s.users && t.devices == s.devices
  }

  lemma SessionEventOutside(s: State, e: Event)
    requires IsSessionEvent(e)
    ensures SameOutside(s, SessionStep(s, e))
  {
    match e {
      case Login(u, sid, token, write) => LoginOutside(s, u, sid, token, write);
      case LookUp(token, io) => FindByTokenFrame(s, token, io);
      case EndSession(sid, delOk, reach) => DeleteSessionOutside(s, sid, delOk, reach);
      case EndSessions(u, keep, dels, reach) => DeleteAllOutside(s, u, keep, dels, reach);
      case LogOut(sid, delOk, reach) =>
        DeleteSessionOutside(s.(refresh := Revoked(s.refresh, RowsOfSession(s.refresh, sid))), sid, delOk, reach);
      case RevokeToken(raw, clientId, secret) => RevokeOutside(s, raw, clientId, secret);
      case SweepTokens =>
      case AskReset(u, raw) => RequestResetFrame(s, u, raw);
      case UseReset(raw, bytes, dels) => ConsumeResetOutside(s, raw, bytes, dels);
    }
  }

  lemma LoginOutside(s: State, u: UserId, sid: SessionId, token: string, write: bool)
    ensures SameOutside(s, CreateSession(s, u, sid, token, write))
  {
    if u in s.users {
      var t := AddSession(s, sid, Session(u, token, Some(s.now + SESSION_TTL), s.now));
      PopulateOnly(t, Sha256(token), SnapshotOf(t, sid), write);
    }
  }

  lemma RevokeOutside(s: State, raw: string, clientId: string, secret: Option<string>)
    ensures SameOutside(s, Revoke(s, raw, clientId, secret))
  {
  }

  lemma RequestResetFrame(s: State, u: UserId, raw: string)
    ensures var t := RequestReset(s, u, raw); t == s.(resets := t.resets, hist := s.hist.(resets := t.hist.resets))
  {
    if u in s.users && s.users[u].enabled {
      assert RequestReset(s, u, raw) == s.(resets := s.resets[Hmac(raw) := Reset(u, s.now + RESET_TTL, false)],
                                           hist := s.hist.(resets := s.hist.resets + {Hmac(raw)}));
    } else {
      assert RequestReset(s, u, raw) == s;
    }
  }

  lemma DeleteSessionOutside(s: State, sid: SessionId, delOk: bool, reach: Reach)
    ensures SameOutside(s, DeleteSession(s, sid, delOk, reach))
  {
    EndedLeaves(s.(cache := s.cache - CacheKeys(s.sessions, {sid})), RowsOfSession(s.refresh, sid), {sid}, reach);
  }

  lemma DeleteAllOutside(s: State, u: UserId, keep: Option<SessionId>, dels: set<Digest>, reach: Reach)
    ensures SameOutside(s, DeleteAll(s, u, keep, dels, reach))
  {
    var targets := SessionsOfUser(s.sessions, u, keep);
    EndedLeaves(s.(cache := s.cache - (CacheKeys(s.sessions, targets) * dels)), RowsOfUser(s.refresh, u, keep), targets, reach);
  }

  lemma ConsumeResetOutside(s: State, raw: string, bytes: nat, dels: set<Digest>)
    ensures SameOutside(s, ConsumeReset(s, raw, bytes, dels).0)
  {
    var reset := UsableReset(s, raw);
    if reset.Some? { DeleteAllOutside(ConsumeResets(s, reset.value.user), reset.value.user, None, dels, Finished); }
  }

  lemma UsersStay(s: State, e: Event)
    requires !e.RemoveUser?
    ensures s.users.Keys <= Step(s, e).users.Keys
  {
    if IsSessionEvent(e) {
      SessionEventOutside(s, e);
    } else if !IsAdministration(e) {
      GrantEventAccounts(s, e);
    }
  }

  /** Every step keeps coherence, at every point where Redis or the process may fail, unless it removes a
      user and leaves one of the user's entries behind. */
  lemma CoherenceExact(s: State, e: Event)
    requires Inv(s) && Coherent(s) && Enabled(s, e)
    ensures Coherent(Step(s, e)) <==> CleanStep(s, e)
  {
    if e.RemoveUser? {
      RemovalExact(s, e.u, e.dels);
    } else {
      StepKeeps(s, e);
      StepMoves(s, e);
      UsersStay(s, e);
      CoherenceMoves(s, Step(s, e));
    }
  }

  lemma CoherenceMoves(s: State, t: State)
    requires Inv(s) && Coherent(s) && Inv(t) && SessionsMove(s, t) && s.users.Keys <= t.users.Keys
    ensures Coherent(t)
  {
    forall k | k in t.cache
      ensures t.cache[k].snap.session in t.sessions
    {
      if k in s.cache && t.cache[k] == s.cache[k] {
        var sid := s.cache[k].snap.session;
        assert EntryOk(k, s.cache[k], s.users, s.sessions, s.hist.born);
        assert SessionOk(sid, s.users, s.sessions, s.hist.born);
        assert EntryOk(k, t.cache[k], t.users, t.sessions, t.hist.born);
      }
    }
  }

  ghost predicate IsCleanRun(s: State, events: seq<Event>)
    decreases |events|
  {
    events == [] || (Enabled(s, events[0]) && CleanStep(s, events[0]) && IsCleanRun(Step(s, events[0]), events[1..]))
  }

  lemma {:induction false} CleanRunsCoherent(s: State, events: seq<Event>)
    requires Inv(s) && Coherent(s) && IsCleanRun(s, events)
    ensures Inv(After(s, events)) && Coherent(After(s, events))
    decreases |events|
  {
    if events != [] {
      StepKeeps(s, events[0]);
      CoherenceExact(s, events[0]);
      CleanRunsCoherent(Step(s, events[0]), events[1..]);
    }
  }

  /** With arbitrary Redis failures, lost keys and crashes, cache-first lookup agrees with the database in
      every state of every run whose user removals deleted the user's entries; and every entry dies no later
      than its row expires. */
  lemma CleanRunsAgree(now: Time, events: seq<Event>, token: string, io: CacheIo)
    requires IsCleanRun(Empty(now), events) && token != ""
    ensures var s := After(Empty(now), events);
            && SameSession(FindByToken(s, token, io).1, DbLookup(s, token))
            && (Sha256(token) in s.cache ==>
                var e := s.cache[Sha256(token)];
                && e.snap.session in s.sessions && s.sessions[e.snap.session].token == token
                && s.sessions[e.snap.session].user == e.snap.user
                && s.sessions[e.snap.session].expires == e.snap.expires && e.snap.expires.Some? && e.deadline <= e.snap.expires.value)
  {
    var s := After(Empty(now), events);
    EmptyOk(now);
    CleanRunsCoherent(Empty(now), events);
    LookupOk(s, token, io);
    if Sha256(token) in s.cache {
      var e := s.cache[Sha256(token)];
      assert EntryOk(Sha256(token), e, s.users, s.sessions, s.hist.born);
      assert SessionOk(e.snap.session, s.users, s.sessions, s.hist.born);
    }
  }

  // --------------------------------------------------------------- ended for good

  /** The session existed, its row is gone and no cache entry speaks for it. */
  ghost predicate Gone(s: State, sid: SessionId) {
    sid in s.hist.born && sid !in s.sessions && forall k | k in s.cache :: s.cache[k].snap.session != sid
  }

  lemma GoneStays(s: State, e: Event, sid: SessionId)
    requires Enabled(s, e) && Gone(s, sid)
    ensures Gone(Step(s, e), sid) && Step(s, e).hist.born[sid] == s.hist.born[sid]
  {
    StepMoves(s, e);
  }

  lemma {:induction false} GoneForever(s: State, events: seq<Event>, sid: SessionId)
    requires IsRun(s, events) && Gone(s, sid)
    ensures Gone(After(s, events), sid) && After(s, events).hist.born[sid] == s.hist.born[sid]
    decreases |events|
  {
    if events != [] {
      GoneStays(s, events[0], sid);
      GoneForever(Step(s, events[0]), events[1..], sid);
    }
  }

  /** The token was handed out with this very session, to this user and until this time, which is not over. */
  ghost predicate HandedOut(s: State, token: Option<string>, snap: Snapshot) {
    && token.Some? && snap.session in s.hist.born && (snap.expires.Some? ==> s.now <= snap.expires.value)
    && s.hist.born[snap.session] == Session(snap.user, token.value, snap.expires, s.hist.born[snap.session].created)
  }

  /** Whichever store answers, an accepted token was handed out with the session it opens. */
  lemma AcceptedWasHandedOut(s: State, token: Option<string>, io: CacheIo)
    requires Inv(s) && FindActive(s, token, io).1.Some?
    ensures HandedOut(s, token, FindActive(s, token, io).1.value)
  {
    var raw := token.value;
    if io.read && CacheHit(s, raw) {
      assert EntryOk(Sha256(raw), s.cache[Sha256(raw)], s.users, s.sessions, s.hist.born);
    } else {
      RowByTokenFinds(s, raw);
      var sid := RowByToken(s.sessions, raw).value;
      assert SessionOk(sid, s.users, s.sessions, s.hist.born);
    }
  }

  /** A token of a gone session opens nothing: not from the cache and not from the database. */
  lemma GoneIsRefused(s: State, sid: SessionId, io: CacheIo)
    requires Inv(s) && Gone(s, sid)
    ensures FindByToken(s, s.hist.born[sid].token, io).1.None?
  {
    var token := s.hist.born[sid].token;
    RowByTokenFinds(s, token);
    var row := RowByToken(s.sessions, token);
    if row.Some? { assert SameToken(row.value, sid, s.hist.born); }
    if CacheHit(s, token) {
      var e := s.cache[Sha256(token)];
      assert EntryOk(Sha256(token), e, s.users, s.sessions, s.hist.born);
      assert SameToken(e.snap.session, sid, s.hist.born);
    }
  }
}
