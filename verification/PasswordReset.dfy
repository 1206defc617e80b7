/** A completed password reset over every continuation: no session, token, code, device approval or reset
    token from before it is of any use afterwards. */
module PasswordReset {
  import opened Base
  import opened Store
  import opened Flows
  import opened Invariants
  import opened Machine
  import opened SessionCache
  import opened SessionEnds
  import opened Lineage

  // ------------------------------------------------------------------- reset tokens

  /** Once requested, and now consumed or deleted. */
  ghost predicate Spent(s: State, h: TokenHash) {
    h in s.hist.resets && (h in s.resets ==> s.resets[h].consumed)
  }

  lemma SpentIsRefused(s: State, raw: string)
    requires Spent(s, Hmac(raw))
    ensures UsableReset(s, raw).None?
  {
  }

  lemma SessionEventSpent(s: State, e: Event, h: TokenHash)
    requires IsSessionEvent(e) && Enabled(s, e) && Spent(s, h)
    ensures Spent(SessionStep(s, e), h)
  {
    match e {
      case Login(u, sid, token, write) => LoginSpent(s, u, sid, token, write, h);
      case LookUp(token, io) => FindByTokenFrame(s, token, io);
      case EndSession(sid, delOk, reach) => DeleteSessionSpent(s, sid, delOk, reach, h);
      case EndSessions(u, keep, dels, reach) => DeleteAllSpent(s, u, keep, dels, reach, h);
      case LogOut(sid, delOk, reach) =>
        DeleteSessionSpent(s.(refresh := Revoked(s.refresh, RowsOfSession(s.refresh, sid))), sid, delOk, reach, h);
      case RevokeToken(raw, clientId, secret) => RevokeSpent(s, raw, clientId, secret, h);
      case SweepTokens =>
      case AskReset(u, raw) => RequestResetSpent(s, u, raw, h);
      case UseReset(raw, bytes, dels) => ConsumeResetSpent(s, raw, bytes, dels, h);
    }
  }

  lemma LoginSpent(s: State, u: UserId, sid: SessionId, token: string, write: bool, h: TokenHash)
    requires Spent(s, h)
    ensures Spent(CreateSession(s, u, sid, token, write), h)
  {
  }

  lemma DeleteSessionSpent(s: State, sid: SessionId, delOk: bool, reach: Reach, h: TokenHash)
    requires Spent(s, h)
    ensures Spent(DeleteSession(s, sid, delOk, reach), h)
  {
  }

  lemma DeleteAllSpent(s: State, u: UserId, keep: Option<SessionId>, dels: set<Digest>, reach: Reach, h: TokenHash)
    requires Spent(s, h)
    ensures Spent(DeleteAll(s, u, keep, dels, reach), h)
  {
    var targets := SessionsOfUser(s.sessions, u, keep);
    EndedLeaves(s.(cache := s.cache - (CacheKeys(s.sessions, targets) * dels)), RowsOfUser(s.refresh, u, keep), targets, reach);
  }

  lemma RevokeSpent(s: State, raw: string, clientId: string, secret: Option<string>, h: TokenHash)
    requires Spent(s, h)
    ensures Spent(Revoke(s, raw, clientId, secret), h)
  {
  }

  lemma RequestResetSpent(s: State, u: UserId, raw: string, h: TokenHash)
    requires Spent(s, h) && Hmac(raw) !in s.hist.resets
    ensures Spent(RequestReset(s, u, raw), h)
  {
  }

  lemma ConsumeResetSpent(s: State, raw: string, bytes: nat, dels: set<Digest>, h: TokenHash)
    requires Spent(s, h)
    ensures Spent(ConsumeReset(s, raw, bytes, dels).0, h)
  {
    var reset := UsableReset(s, raw);
    if reset.Some? { DeleteAllSpent(ConsumeResets(s, reset.value.user), reset.value.user, None, dels, Finished, h); }
  }

  lemma AdministrationSpent(s: State, e: Event, h: TokenHash)
    requires IsAdministration(e) && Spent(s, h)
    ensures Spent(AdministrationStep(s, e), h)
  {
    if e.RemoveUser? { DeleteAllSpent(s, e.u, None, e.dels, Finished, h); }
  }

  lemma SpentStays(s: State, e: Event, h: TokenHash)
    requires Enabled(s, e) && Spent(s, h)
    ensures Spent(Step(s, e), h)
  {
    if IsAdministration(e) {
      AdministrationSpent(s, e, h);
    } else if IsSessionEvent(e) {
      SessionEventSpent(s, e, h);
    } else {
      GrantEventAccounts(s, e);
    }
  }

  lemma {:induction false} SpentForever(s: State, events: seq<Event>, h: TokenHash)
    requires IsRun(s, events) && Spent(s, h)
    ensures Spent(After(s, events), h)
    decreases |events|
  {
    if events != [] {
      SpentStays(s, events[0], h);
      SpentForever(Step(s, events[0]), events[1..], h);
    }
  }

  // ------------------------------------------------------- grants need a live session

  ghost predicate NewIssuesIn(s: State, t: State) {
    forall h | h in t.hist.issues && h !in s.hist.issues :: t.hist.issues[h].session in s.sessions
  }

  lemma RefreshNeedsSession(s: State, r: RefreshRequest, newRaw: string)
    ensures NewIssuesIn(s, Refresh(s, r, newRaw).0)
  {
    RefreshParts(s, r, newRaw);
    if RefreshError(s, r).None? { OneNewIssue(s, s.(refresh := Revoked(s.refresh, {Hmac(r.raw)})), Hmac(newRaw), RotationIssue(s, r)); }
  }

  lemma OneNewIssue(s: State, mid: State, h: TokenHash, issue: Issue)
    requires mid.hist == s.hist && issue.session in s.sessions
    ensures NewIssuesIn(s, AddIssue(mid, h, issue))
  {
  }

  lemma CodeNeedsSession(s: State, r: CodeRequest, newRaw: string)
    ensures NewIssuesIn(s, RedeemCode(s, r, newRaw).0)
  {
    RedeemCodeParts(s, r, newRaw);
    var k := Sha256(r.code);
    if k in s.codes && r.clientId in s.clients && CodeError(s, r, s.codes[k]).None? {
      OneNewIssue(s, s.(codes := s.codes - {k}), Hmac(newRaw), ExchangeIssue(s, r));
    }
  }

  lemma DeviceNeedsSession(s: State, r: DeviceRequest, newRaw: string, commits: bool)
    ensures NewIssuesIn(s, RedeemDevice(s, r, newRaw, commits).0)
  {
    RedeemDeviceParts(s, r, newRaw, commits);
    if LiveDevice(s, r.deviceCode).Some? { UpdateOnly(s, LiveDevice(s, r.deviceCode).value.(status := "consumed")); }
  }

  lemma GrantsNeedSession(s: State, e: Event)
    requires !IsAdministration(e) && !IsSessionEvent(e)
    ensures NewIssuesIn(s, GrantStep(s, e))
  {
    match e {
      case AskCode(r, code, requestId, io) => AuthorizeAccounts(s, r, code, requestId, io);
      case AnswerConsent(token, requestId, approve, code, io) => ConsentAccounts(s, token, requestId, approve, code, io);
      case CodeGrant(r, newRaw) => CodeNeedsSession(s, r, newRaw);
      case RefreshGrant(r, newRaw) => RefreshNeedsSession(s, r, newRaw);
      case DeviceGrant(r, newRaw, commits) => DeviceNeedsSession(s, r, newRaw, commits);
      case AskDevice(clientId, scope, id, deviceCode, draws) => RequestDeviceFrame(s, clientId, scope, id, deviceCode, draws);
      case AnswerDevice(userCode, token, approve, io) => VerifyAccounts(s, userCode, token, approve, io);
    }
  }

  lemma IssuesNeedSession(s: State, e: Event)
    ensures NewIssuesIn(s, Step(s, e))
  {
    if IsAdministration(e) {
      AdministrationHistory(s, e);
    } else if IsSessionEvent(e) {
      SessionEventHistory(s, e);
    } else {
      GrantsNeedSession(s, e);
    }
  }

  /** Administration writes users and client keys into the history, nothing else. */
  lemma AdministrationHistory(s: State, e: Event)
    requires IsAdministration(e)
    ensures var h := AdministrationStep(s, e).hist; h == s.hist.(users := h.users, clientKeys := h.clientKeys)
  {
    match e {
      case Tick(later) =>
      case AddUser(u, user) => assert WithUser(s, u, user).hist == s.hist.(users := s.hist.users + {u});
      case UpdateUser(u, user) => assert WithUser(s, u, user).hist == s.hist.(users := s.hist.users + {u});
      case RemoveUser(u, dels) => BornAfterRemoval(s, u, dels);
      case PutClient(name, client) => assert WithClient(s, name, client).hist == s.hist.(clientKeys := s.hist.clientKeys + {client.key});
      case RemoveClient(name) => assert DropClient(s, name).hist == s.hist;
      case WithdrawConsent(_, _) =>
      case RedisLoses(c, k, r, d, p) =>
    }
  }

  /** Session operations write births and reset requests into the history, nothing else. */
  lemma SessionEventHistory(s: State, e: Event)
    requires IsSessionEvent(e)
    ensures var h := SessionStep(s, e).hist; h == s.hist.(born := h.born, resets := h.resets)
  {
    match e {
      case Login(u, sid, token, write) => LoginHistory(s, u, sid, token, write);
      case LookUp(token, io) => FindByTokenFrame(s, token, io);
      case EndSession(sid, delOk, reach) => DeleteSessionHistory(s, sid, delOk, reach);
      case EndSessions(u, keep, dels, reach) => DeleteAllHistory(s, u, keep, dels, reach);
      case LogOut(sid, delOk, reach) =>
        DeleteSessionHistory(s.(refresh := Revoked(s.refresh, RowsOfSession(s.refresh, sid))), sid, delOk, reach);
      case RevokeToken(raw, clientId, secret) => RevokeHistory(s, raw, clientId, secret);
      case SweepTokens =>
      case AskReset(u, raw) => RequestResetFrame(s, u, raw);
      case UseReset(raw, bytes, dels) => ConsumeResetHistory(s, raw, bytes, dels);
    }
  }

  lemma LoginHistory(s: State, u: UserId, sid: SessionId, token: string, write: bool)
    ensures var h := CreateSession(s, u, sid, token, write).hist; h == s.hist.(born := h.born)
  {
  }

  lemma RevokeHistory(s: State, raw: string, clientId: string, secret: Option<string>)
    ensures Revoke(s, raw, clientId, secret).hist == s.hist
  {
  }

  lemma ConsumeResetHistory(s: State, raw: string, bytes: nat, dels: set<Digest>)
    ensures ConsumeReset(s, raw, bytes, dels).0.hist == s.hist
  {
    var reset := UsableReset(s, raw);
    if reset.Some? { DeleteAllHistory(ConsumeResets(s, reset.value.user), reset.value.user, None, dels, Finished); }
  }

  lemma DeleteSessionHistory(s: State, sid: SessionId, delOk: bool, reach: Reach)
    ensures DeleteSession(s, sid, delOk, reach).hist == s.hist
  {
    EndedLeaves(s.(cache := s.cache - CacheKeys(s.sessions, {sid})), RowsOfSession(s.refresh, sid), {sid}, reach);
  }

  lemma DeleteAllHistory(s: State, u: UserId, keep: Option<SessionId>, dels: set<Digest>, reach: Reach)
    ensures DeleteAll(s, u, keep, dels, reach).hist == s.hist
  {
    var targets := SessionsOfUser(s.sessions, u, keep);
    EndedLeaves(s.(cache := s.cache - (CacheKeys(s.sessions, targets) * dels)), RowsOfUser(s.refresh, u, keep), targets, reach);
  }

  ghost predicate NoneFor(s: State, u: State, sid: SessionId) {
    forall h | h in u.hist.issues && h !in s.hist.issues :: u.hist.issues[h].session != sid
  }

  lemma NoneForJoin(s: State, t: State, u: State, sid: SessionId)
    requires NewIssuesIn(s, t) && sid !in s.sessions && NoneFor(t, u, sid) && Evolves(t, u)
    ensures NoneFor(s, u, sid)
  {
    forall h | h in u.hist.issues && h !in s.hist.issues
      ensures u.hist.issues[h].session != sid
    {
      assert IssueKept(h, t, u);
    }
  }

  /** No grant of any kind issues tokens in a session that is gone. */
  lemma {:induction false} NoIssueForGone(s: State, events: seq<Event>, sid: SessionId)
    requires Inv(s) && IsRun(s, events) && Gone(s, sid)
    ensures NoneFor(s, After(s, events), sid)
    decreases |events|
  {
    if events != [] {
      var t := Step(s, events[0]);
      IssuesNeedSession(s, events[0]);
      GoneStays(s, events[0], sid);
      StepKeeps(s, events[0]);
      NoIssueForGone(t, events[1..], sid);
      RunEvolves(t, events[1..]);
      NoneForJoin(s, t, After(s, events), sid);
    }
  }

  // --------------------------------------------------------------- the reset itself

  lemma ResetFacts(s: State, raw: string, bytes: nat, dels: set<Digest>)
    requires Inv(s) && ConsumeReset(s, raw, bytes, dels).1.ResetDone?
    ensures Hmac(raw) in s.resets && !s.resets[Hmac(raw)].consumed && s.resets[Hmac(raw)].user in s.users
    ensures var u := s.resets[Hmac(raw)].user;
            && CacheKeys(s.sessions, SessionsOfUser(s.sessions, u, None)) <= dels
            && ConsumeReset(s, raw, bytes, dels).0 == DeleteAll(ConsumeResets(s, u), u, None, dels, Finished)
  {
  }

  /** The user is left with no session in either store, no refresh row and no unconsumed reset token. */
  ghost predicate Cleared(t: State, u: UserId) {
    && (forall sid | sid in t.sessions :: t.sessions[sid].user != u)
    && (forall k | k in t.cache :: t.cache[k].snap.user != u)
    && (forall h | h in t.refresh :: t.refresh[h].user != u)
    && (forall h | h in t.resets && t.resets[h].user == u :: t.resets[h].consumed)
  }

  lemma BulkDeleteClears(s: State, u: UserId, dels: set<Digest>)
    requires Inv(s) && u in s.users && CacheKeys(s.sessions, SessionsOfUser(s.sessions, u, None)) <= dels
    requires forall h | h in s.resets && s.resets[h].user == u :: s.resets[h].consumed
    ensures Cleared(DeleteAll(s, u, None, dels, Finished), u)
  {
    var targets := SessionsOfUser(s.sessions, u, None);
    var mid := s.(cache := s.cache - (CacheKeys(s.sessions, targets) * dels));
    UserRowsExact(s, u, None);
    EndedLeaves(mid, RowsOfUser(s.refresh, u, None), targets, Finished);
    EndedTables(mid, RowsOfUser(s.refresh, u, None), targets);
    KeysAreEntries(s, targets);
    forall k | k in s.cache && s.cache[k].snap.user == u
      ensures s.cache[k].snap.session in targets
    {
      assert EntryOk(k, s.cache[k], s.users, s.sessions, s.hist.born);
      assert SessionOk(s.cache[k].snap.session, s.users, s.sessions, s.hist.born);
    }
  }

  lemma ResetClears(s: State, raw: string, bytes: nat, dels: set<Digest>)
    requires Inv(s) && ConsumeReset(s, raw, bytes, dels).1.ResetDone?
    ensures Hmac(raw) in s.resets && Cleared(ConsumeReset(s, raw, bytes, dels).0, s.resets[Hmac(raw)].user)
    ensures ConsumeReset(s, raw, bytes, dels).0.hist == s.hist
  {
    ResetFacts(s, raw, bytes, dels);
    var u := s.resets[Hmac(raw)].user;
    UnmentionedKeeps(s, s.consents, ConsumeResets(s, u).resets);
    BulkDeleteClears(ConsumeResets(s, u), u, dels);
    DeleteAllHistory(ConsumeResets(s, u), u, None, dels, Finished);
  }

  /** Everything of a cleared user is unusable at once. */
  lemma ClearedIsUseless(t: State, u: UserId)
    requires Inv(t) && Cleared(t, u)
    ensures forall sid | sid in t.hist.born && t.hist.born[sid].user == u :: Gone(t, sid)
    ensures forall h | h in t.hist.issues && t.hist.issues[h].user == u :: Dead(t, h)
  {
    forall sid | sid in t.hist.born && t.hist.born[sid].user == u
      ensures Gone(t, sid)
    {
      assert sid in t.sessions ==> SessionOk(sid, t.users, t.sessions, t.hist.born);
      forall k | k in t.cache
        ensures t.cache[k].snap.session != sid
      {
        assert EntryOk(k, t.cache[k], t.users, t.sessions, t.hist.born);
      }
    }
    forall h | h in t.hist.issues && t.hist.issues[h].user == u
      ensures Dead(t, h)
    {
      assert h in t.refresh ==> RowIssued(h, t.refresh, t.hist.issues);
    }
  }

  /** After a successful reset, in every continuation: the tokens of the user's earlier sessions open
      nothing, no earlier refresh token is ever redeemed, no grant of any kind issues tokens in an earlier
      session, and no earlier reset token works. */
  lemma ResetIsFinal(s: State, raw: string, bytes: nat, dels: set<Digest>, later: seq<Event>)
    requires Reachable(s) && ConsumeReset(s, raw, bytes, dels).1.ResetDone?
    requires IsRun(ConsumeReset(s, raw, bytes, dels).0, later)
    ensures Hmac(raw) in s.resets
    ensures var u := s.resets[Hmac(raw)].user;
            var t := ConsumeReset(s, raw, bytes, dels).0;
            var w := After(t, later);
            && Cleared(t, u)
            && (forall sid | sid in s.hist.born && s.hist.born[sid].user == u :: Refused(w, s.hist.born[sid].token) && NoneFor(t, w, sid))
            && (forall h | h in s.hist.issues && s.hist.issues[h].user == u :: Dead(w, h) && NeverRotated(t, w, h))
            && (forall h | h in s.resets && s.resets[h].user == u :: Spent(w, h))
  {
    ReachableOk(s);
    ResetClears(s, raw, bytes, dels);
    ConsumeResetKeeps(s, raw, bytes, dels);
    var u, t := s.resets[Hmac(raw)].user, ConsumeReset(s, raw, bytes, dels).0;
    ClearedIsUseless(t, u);
    forall sid | sid in s.hist.born && s.hist.born[sid].user == u
      ensures Refused(After(t, later), s.hist.born[sid].token) && NoneFor(t, After(t, later), sid)
    {
      GoneStaysRefused(t, later, sid);
    }
    forall h | h in s.hist.issues && s.hist.issues[h].user == u
      ensures Dead(After(t, later), h) && NeverRotated(t, After(t, later), h)
    {
      DeadStaysDead(t, later, h);
    }
    forall h | h in s.resets && s.resets[h].user == u
      ensures Spent(After(t, later), h)
    {
      ResetSpends(s, raw, bytes, dels, h);
      SpentForever(t, later, h);
    }
  }

  ghost predicate Refused(s: State, token: string) {
    forall io :: FindByToken(s, token, io).1.None?
  }

  lemma GoneStaysRefused(t: State, later: seq<Event>, sid: SessionId)
    requires Inv(t) && IsRun(t, later) && Gone(t, sid)
    ensures Refused(After(t, later), t.hist.born[sid].token) && NoneFor(t, After(t, later), sid)
  {
    RunKeeps(t, later);
    GoneForever(t, later, sid);
    NoIssueForGone(t, later, sid);
    forall io: CacheIo
      ensures FindByToken(After(t, later), t.hist.born[sid].token, io).1.None?
    {
      GoneIsRefused(After(t, later), sid, io);
    }
  }

  lemma DeadStaysDead(t: State, later: seq<Event>, h: TokenHash)
    requires Inv(t) && IsRun(t, later) && Dead(t, h)
    ensures Dead(After(t, later), h) && NeverRotated(t, After(t, later), h)
  {
    RunEvolves(t, later);
    DeadIsFinal(t, After(t, later), h);
  }

  lemma ResetSpends(s: State, raw: string, bytes: nat, dels: set<Digest>, h: TokenHash)
    requires Inv(s) && ConsumeReset(s, raw, bytes, dels).1.ResetDone?
    requires Hmac(raw) in s.resets && h in s.resets && s.resets[h].user == s.resets[Hmac(raw)].user
    ensures Spent(ConsumeReset(s, raw, bytes, dels).0, h)
  {
    ResetFacts(s, raw, bytes, dels);
    var u := s.resets[Hmac(raw)].user;
    DeleteAllSpent(ConsumeResets(s, u), u, None, dels, Finished, h);
  }
}
