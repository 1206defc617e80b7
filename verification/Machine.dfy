/** All handlers as one state machine, and the invariant over every run of it. */
module Machine {
  import opened Base
  import opened Store
  import opened Flows
  import opened Invariants
  import Scopes
  import DeviceCodes

  datatype Event =
    | Tick(later: Time)
    | AddUser(u: UserId, user: User)
    | UpdateUser(u: UserId, user: User)
    | RemoveUser(u: UserId, dels: set<Digest>)
    | PutClient(name: string, client: Client)
    | RemoveClient(name: string)
    | WithdrawConsent(u: UserId, key: ClientKey)
    | Login(u: UserId, sid: SessionId, token: string, write: bool)
    | LookUp(token: string, io: CacheIo)
    | EndSession(sid: SessionId, delOk: bool, reach: Reach)
    | EndSessions(u: UserId, keep: Option<SessionId>, dels: set<Digest>, reach: Reach)
    | LogOut(sid: SessionId, delOk: bool, reach: Reach)
    | AskCode(request: AuthorizeRequest, code: string, requestId: string, io: CacheIo)
    | AnswerConsent(sessionToken: Option<string>, requestId: string, approve: bool, code: string, io: CacheIo)
    | CodeGrant(codeRequest: CodeRequest, newRaw: string)
    | RefreshGrant(refreshRequest: RefreshRequest, newRaw: string)
    | DeviceGrant(deviceRequest: DeviceRequest, newRaw: string, commits: bool)
    | RevokeToken(raw: string, clientId: string, secret: Option<string>)
    | SweepTokens
    | AskDevice(clientId: string, scope: Option<string>, id: nat, deviceCode: string, draws: seq<string>)
    | AnswerDevice(userCode: string, sessionToken: Option<string>, approve: bool, io: CacheIo)
    | AskReset(u: UserId, raw: string)
    | UseReset(raw: string, passwordBytes: nat, dels: set<Digest>)
    | RedisLoses(cached: set<Digest>, codeKeys: set<Digest>, requests: set<string>, deviceKeys: set<string>, pointerKeys: set<string>)

  function WithClient(s: State, name: string, client: Client): State {
    s.(clients := s.clients[name := client], hist := s.hist.(clientKeys := s.hist.clientKeys + {client.key}))
  }

  function Lose(s: State, cached: set<Digest>, codeKeys: set<Digest>, requests: set<string>, deviceKeys: set<string>, pointerKeys: set<string>): State {
    s.(cache := s.cache - cached, codes := s.codes - codeKeys, pending := s.pending - requests,
       devices := s.devices - deviceKeys, pointers := s.pointers - pointerKeys)
  }

  /** Time does not go back, and generated identifiers and tokens are new. */
  ghost predicate Enabled(s: State, e: Event) {
    match e
    case Tick(later) => s.now <= later
    case AddUser(u, _) => u !in s.hist.users
    case PutClient(name, client) => if name in s.clients then client.key == s.clients[name].key else client.key !in s.hist.clientKeys
    case Login(_, sid, token, _) => FreshSession(s, sid, token)
    case AskCode(_, code, requestId, _) => Sha256(code) !in s.hist.mints && requestId !in s.hist.asks
    case AnswerConsent(_, _, _, code, _) => Sha256(code) !in s.hist.mints
    case CodeGrant(_, newRaw) => Hmac(newRaw) !in s.hist.issues
    case RefreshGrant(_, newRaw) => Hmac(newRaw) !in s.hist.issues
    case DeviceGrant(_, newRaw, _) => Hmac(newRaw) !in s.hist.issues
    case AskDevice(_, _, _, deviceCode, _) => deviceCode !in s.hist.devices
    case AskReset(_, raw) => Hmac(raw) !in s.hist.resets
    case _ => true
  }

  ghost predicate FreshSession(s: State, sid: SessionId, token: string) {
    && sid !in s.hist.born && token != ""
    && (forall other | other in s.hist.born :: s.hist.born[other].token != token)
  }

  /** Users, clients and the environment. */
  predicate IsAdministration(e: Event) {
    e.Tick? || e.AddUser? || e.UpdateUser? || e.RemoveUser? || e.PutClient? || e.RemoveClient? || e.WithdrawConsent? || e.RedisLoses?
  }

  predicate IsSessionEvent(e: Event) {
    e.Login? || e.LookUp? || e.EndSession? || e.EndSessions? || e.LogOut? || e.RevokeToken? || e.SweepTokens? || e.AskReset? || e.UseReset?
  }

  function AdministrationStep(s: State, e: Event): State
    requires IsAdministration(e)
  {
    match e
    case Tick(later) => s.(now := later)
    case AddUser(u, user) => WithUser(s, u, user)
    case UpdateUser(u, user) => if u in s.users then WithUser(s, u, user) else s
    case RemoveUser(u, dels) => DeleteUser(s, u, dels)
    case PutClient(name, client) => WithClient(s, name, client)
    case RemoveClient(name) => DropClient(s, name)
    case WithdrawConsent(u, key) => s.(consents := s.consents - {(u, key)})
    case RedisLoses(a, b, c, d, f) => Lose(s, a, b, c, d, f)
  }

  ghost function SessionStep(s: State, e: Event): State
    requires IsSessionEvent(e)
  {
    match e
    case Login(u, sid, token, write) => CreateSession(s, u, sid, token, write)
    case LookUp(token, io) => FindByToken(s, token, io).0
    case EndSession(sid, delOk, reach) => DeleteSession(s, sid, delOk, reach)
    case EndSessions(u, keep, dels, reach) => DeleteAll(s, u, keep, dels, reach)
    case LogOut(sid, delOk, reach) => Logout(s, sid, delOk, reach)
    case RevokeToken(raw, clientId, secret) => Revoke(s, raw, clientId, secret)
    case SweepTokens => Sweep(s)
    case AskReset(u, raw) => RequestReset(s, u, raw)
    case UseReset(raw, bytes, dels) => ConsumeReset(s, raw, bytes, dels).0
  }

  ghost function GrantStep(s: State, e: Event): State
    requires !IsAdministration(e) && !IsSessionEvent(e)
  {
    match e
    case AskCode(request, code, requestId, io) => Authorize(s, request, code, requestId, io).0
    case AnswerConsent(token, requestId, approve, code, io) => SubmitConsent(s, token, requestId, approve, code, io).0
    case CodeGrant(r, newRaw) => RedeemCode(s, r, newRaw).0
    case RefreshGrant(r, newRaw) => Refresh(s, r, newRaw).0
    case DeviceGrant(r, newRaw, commits) => RedeemDevice(s, r, newRaw, commits).0
    case AskDevice(clientId, scope, id, deviceCode, draws) => RequestDevice(s, clientId, scope, id, deviceCode, draws).0
    case AnswerDevice(userCode, token, approve, io) => VerifyUserCode(s, userCode, token, approve, io).0
  }

  ghost function Step(s: State, e: Event): State {
    if IsAdministration(e) then AdministrationStep(s, e)
    else if IsSessionEvent(e) then SessionStep(s, e)
    else GrantStep(s, e)
  }

  ghost function Empty(now: Time): State {
    State(now, map[], map[], map[], map[], map[], map[], map[], map[], map[], map[], map[],
          History({}, {}, map[], [], map[], map[], map[], map[], {}))
  }

  /** A finite run: every event is enabled where it happens. */
  ghost predicate IsRun(s: State, events: seq<Event>)
    decreases |events|
  {
    events == [] || (Enabled(s, events[0]) && IsRun(Step(s, events[0]), events[1..]))
  }

  ghost function After(s: State, events: seq<Event>): State
    decreases |events|
  {
    if events == [] then s else After(Step(s, events[0]), events[1..])
  }

  // ------------------------------------------------------------- session deletions

  lemma DeleteSessionKeeps(s: State, sid: SessionId, delOk: bool, reach: Reach)
    requires Inv(s)
    ensures Inv(DeleteSession(s, sid, delOk, reach))
  {
    if !(sid in s.sessions && !delOk) {
      var keys := CacheKeys(s.sessions, {sid});
      var t := s.(cache := s.cache - keys);
      DropCacheKeeps(s, keys);
      NoEntryLeft(s, {sid}, keys);
      EndKeeps(t, RowsOfSession(t.refresh, sid), {sid}, reach);
    }
  }

  lemma EndKeeps(t: State, rows: set<TokenHash>, sids: set<SessionId>, reach: Reach)
    requires Inv(t)
    requires forall k | k in t.cache :: t.cache[k].snap.session in sids ==> t.cache[k].snap.user !in t.users
    ensures Inv(Ended(t, rows, sids, reach))
  {
    RevokedKeeps(t, rows);
    if reach.Finished? { DropSessionsKeeps(t.(refresh := Revoked(t.refresh, rows)), sids); }
  }

  /** Once the keys of some sessions are deleted, no entry of theirs is left under an existing owner. */
  lemma NoEntryLeft(s: State, sids: set<SessionId>, keys: set<Digest>)
    requires Inv(s) && CacheKeys(s.sessions, sids) <= keys
    ensures forall k | k in s.cache && k !in keys :: s.cache[k].snap.session in sids ==> s.cache[k].snap.user !in s.users
  {
    forall k | k in s.cache && k !in keys && s.cache[k].snap.session in sids
      ensures s.cache[k].snap.user !in s.users
    {
      var sid := s.cache[k].snap.session;
      assert EntryOk(k, s.cache[k], s.users, s.sessions, s.hist.born);
      assert sid in s.sessions ==> SessionOk(sid, s.users, s.sessions, s.hist.born);
      assert sid in s.sessions ==> k in CacheKeys(s.sessions, sids);
    }
  }

  lemma DeleteAllKeeps(s: State, u: UserId, keep: Option<SessionId>, dels: set<Digest>, reach: Reach)
    requires Inv(s)
    ensures Inv(DeleteAll(s, u, keep, dels, reach))
  {
    var targets := SessionsOfUser(s.sessions, u, keep);
    var keys := CacheKeys(s.sessions, targets);
    var t := s.(cache := s.cache - (keys * dels));
    DropCacheKeeps(s, keys * dels);
    if keys <= dels {
      assert keys * dels == keys;
      NoEntryLeft(s, targets, keys);
      EndKeeps(t, RowsOfUser(t.refresh, u, keep), targets, reach);
    }
  }

  lemma DeleteUserKeeps(s: State, u: UserId, dels: set<Digest>)
    requires Inv(s)
    ensures Inv(DeleteUser(s, u, dels))
  {
    DeleteAllKeeps(s, u, None, dels, Finished);
    DropUserKeeps(DeleteAll(s, u, None, dels, Finished), u);
  }

  lemma LogoutKeeps(s: State, sid: SessionId, delOk: bool, reach: Reach)
    requires Inv(s)
    ensures Inv(Logout(s, sid, delOk, reach))
  {
    RevokedKeeps(s, RowsOfSession(s.refresh, sid));
    DeleteSessionKeeps(s.(refresh := Revoked(s.refresh, RowsOfSession(s.refresh, sid))), sid, delOk, reach);
  }

  lemma RevokeKeeps(s: State, raw: string, clientId: string, secret: Option<string>)
    requires Inv(s)
    ensures Inv(Revoke(s, raw, clientId, secret))
  {
    RevokedKeeps(s, {Hmac(raw)});
  }

  // ------------------------------------------------------------------------ clients

  lemma WithClientKeeps(s: State, name: string, client: Client)
    requires Inv(s)
    requires if name in s.clients then client.key == s.clients[name].key else client.key !in s.hist.clientKeys
    ensures Inv(WithClient(s, name, client))
  {
    var t := WithClient(s, name, client);
    WithClientTables(s, name, client);
    WithClientRows(s, name, client);
  }

  lemma MoreKeys(clients: map<string, Client>, name: string, client: Client)
    requires name in clients ==> client.key == clients[name].key
    ensures ClientKeys(clients[name := client]) == ClientKeys(clients) + {client.key}
  {
    var after := clients[name := client];
    forall k | k in ClientKeys(clients) + {client.key}
      ensures k in ClientKeys(after)
    {
      if k == client.key {
        assert name in after;
      } else {
        var n :| n in clients && clients[n].key == k;
        assert n in after && after[n] == clients[n];
      }
    }
  }

  lemma WithClientTables(s: State, name: string, client: Client)
    requires TablesOk(s.users, s.clients, s.sessions, s.refresh, s.hist.users, s.hist.clientKeys, s.hist.born)
    requires if name in s.clients then client.key == s.clients[name].key else client.key !in s.hist.clientKeys
    ensures TablesOk(s.users, s.clients[name := client], s.sessions, s.refresh, s.hist.users, s.hist.clientKeys + {client.key}, s.hist.born)
  {
    var after := s.clients[name := client];
    MoreKeys(s.clients, name, client);
    forall m, n | SameKey(m, n, after)
      ensures m == n
    {
      if m in s.clients && n in s.clients { assert SameKey(m, n, s.clients); }
      assert m in s.clients ==> s.clients[m].key in ClientKeys(s.clients);
      assert n in s.clients ==> s.clients[n].key in ClientKeys(s.clients);
    }
    forall h | h in s.refresh
      ensures RowOwned(s.refresh[h], s.sessions, after)
    {
      assert RowOwned(s.refresh[h], s.sessions, s.clients);
    }
  }

  lemma WithClientRows(s: State, name: string, client: Client)
    requires Inv(s)
    requires if name in s.clients then client.key == s.clients[name].key else client.key !in s.hist.clientKeys
    ensures RowsOk(s.now, s.sessions, s.clients[name := client], s.refresh, s.hist.issues)
    ensures IssuesKnown(s.hist.issues, s.hist.clientKeys + {client.key}, s.hist.born)
  {
    MoreKeys(s.clients, name, client);
    forall h | h in s.hist.issues
      ensures RowPresent(h, s.hist.issues[h], s.now, s.sessions, s.clients[name := client], s.refresh)
      ensures Known(s.hist.issues[h], s.hist.clientKeys + {client.key}, s.hist.born)
    {
      assert Known(s.hist.issues[h], s.hist.clientKeys, s.hist.born);
      assert name in s.clients ==> client.key in ClientKeys(s.clients);
      assert RowPresent(h, s.hist.issues[h], s.now, s.sessions, s.clients, s.refresh);
    }
  }

  // ------------------------------------------------------------------------- grants

  lemma KeyInTable(clients: map<string, Client>, name: string)
    requires name in clients
    ensures clients[name].key in ClientKeys(clients)
  {
  }

  /** An unrevoked token has no successor yet. */
  lemma NoSuccessorYet(s: State, h: TokenHash)
    requires Inv(s) && h in s.refresh && !s.refresh[h].revoked
    ensures forall a | a in s.hist.issues :: s.hist.issues[a].origin != FromRefresh(h)
  {
    forall a | a in s.hist.issues
      ensures s.hist.issues[a].origin != FromRefresh(h)
    {
      assert ParentOk(s.hist.issues[a], s.refresh, s.hist.issues);
    }
  }

  /** The state after the presented token was revoked, and the issue that replaces it. */
  lemma RefreshMayIssue(s: State, r: RefreshRequest, newRaw: string)
    requires Inv(s) && RefreshError(s, r).None? && Hmac(newRaw) !in s.hist.issues
    ensures var row := s.refresh[Hmac(r.raw)];
            MayIssue(s.(refresh := Revoked(s.refresh, {Hmac(r.raw)})), Hmac(newRaw),
                     Issue(FromRefresh(Hmac(r.raw)), r.clientId, "", "", s.clients[r.clientId].key, row.user, row.session,
                           s.clients[r.clientId].scopes, s.now, |s.hist.issues|))
  {
    var h := Hmac(r.raw);
    assert RowIssued(h, s.refresh, s.hist.issues);
    assert IssueDated(s.hist.issues[h], s.now, |s.hist.issues|);
    assert RowOwned(s.refresh[h], s.sessions, s.clients);
    KeyInTable(s.clients, r.clientId);
    NoSuccessorYet(s, h);
  }

  lemma RefreshKeeps(s: State, r: RefreshRequest, newRaw: string)
    requires Inv(s) && Hmac(newRaw) !in s.hist.issues
    ensures Inv(Refresh(s, r, newRaw).0)
  {
    var h := Hmac(r.raw);
    if Replayed(s, r) {
      RevokedKeeps(s, RowsOfSession(s.refresh, s.refresh[h].session));
    } else if RefreshError(s, r).None? {
      var t := s.(refresh := Revoked(s.refresh, {h}));
      RevokedKeeps(s, {h});
      RefreshMayIssue(s, r, newRaw);
      IssueKeeps(t, Hmac(newRaw), Issue(FromRefresh(h), r.clientId, "", "", s.clients[r.clientId].key, s.refresh[h].user,
                                        s.refresh[h].session, s.clients[r.clientId].scopes, s.now, |s.hist.issues|));
    }
  }

  /** A stored code carries the binding of an authorize step whose session belonged to its user. */
  lemma CodeFacts(s: State, k: Digest)
    requires Inv(s) && k in s.codes
    ensures k in s.hist.mints && s.hist.mints[k].auth < |s.hist.auths|
    ensures var m := s.hist.mints[k];
            var a := s.hist.auths[m.auth];
            && s.codes[k] == Bound(a.binding, m.at + CODE_TTL, m.at + CODE_TTL)
            && m.at <= s.now && PkceBound(a.binding, a.row)
            && a.binding.session in s.hist.born && s.hist.born[a.binding.session].user == a.binding.user
    ensures forall h | h in s.hist.issues :: s.hist.issues[h].origin != FromCode(k)
  {
    assert CodeOk(k, s.codes[k], s.hist.auths, s.hist.mints);
    assert MintOk(s.hist.mints[k], s.now, s.hist.auths);
    assert AuthOk(s.hist.auths[s.hist.mints[k].auth], s.now, s.hist.born);
    forall h | h in s.hist.issues
      ensures s.hist.issues[h].origin != FromCode(k)
    {
      assert CodeOriginOk(s.hist.issues[h], s.codes, s.hist.auths, s.hist.mints);
    }
  }

  lemma CodeMayIssue(s: State, r: CodeRequest, newRaw: string)
    requires Inv(s) && Hmac(newRaw) !in s.hist.issues
    requires Sha256(r.code) in s.codes && s.now < s.codes[Sha256(r.code)].deadline
    requires r.clientId in s.clients && CodeError(s, r, s.codes[Sha256(r.code)]).None?
    ensures var k := Sha256(r.code);
            var b := s.codes[k].binding;
            MayIssue(s.(codes := s.codes - {k}), Hmac(newRaw),
                     Issue(FromCode(k), r.clientId, r.redirect, r.verifier, s.clients[r.clientId].key, b.user, b.session, b.scope,
                           s.now, |s.hist.issues|))
  {
    var k := Sha256(r.code);
    CodeFacts(s, k);
    assert SessionOk(s.codes[k].binding.session, s.users, s.sessions, s.hist.born);
    KeyInTable(s.clients, r.clientId);
  }

  lemma RedeemCodeKeeps(s: State, r: CodeRequest, newRaw: string)
    requires Inv(s) && Hmac(newRaw) !in s.hist.issues
    ensures Inv(RedeemCode(s, r, newRaw).0)
  {
    var k := Sha256(r.code);
    if r.clientId in s.clients && k in s.codes && s.now < s.codes[k].deadline {
      TakeCodeKeeps(s, k);
      if CodeError(s, r, s.codes[k]).None? {
        var b := s.codes[k].binding;
        CodeMayIssue(s, r, newRaw);
        IssueKeeps(s.(codes := s.codes - {k}), Hmac(newRaw),
                   Issue(FromCode(k), r.clientId, r.redirect, r.verifier, s.clients[r.clientId].key, b.user, b.session, b.scope,
                         s.now, |s.hist.issues|));
      }
    }
  }

  lemma DeviceFacts(s: State, r: DeviceRequest)
    requires Inv(s) && DeviceError(s, r).None?
    ensures var d := LiveDevice(s, r.deviceCode).value;
            && DeviceOk(r.deviceCode, d, s.hist.devices) && d.deviceCode == r.deviceCode && d.client == r.clientId && ApprovedBy(d, s.hist.devices[r.deviceCode])
            && d.session.value in s.sessions && s.sessions[d.session.value].user == d.user.value
    ensures forall h | h in s.hist.issues :: s.hist.issues[h].origin != FromDevice(r.deviceCode)
  {
    var d := LiveDevice(s, r.deviceCode).value;
    assert DeviceOk(r.deviceCode, d, s.hist.devices);
    assert PastOk(s.hist.devices[r.deviceCode], s.hist.born);
    assert SessionOk(d.session.value, s.users, s.sessions, s.hist.born);
    forall h | h in s.hist.issues
      ensures s.hist.issues[h].origin != FromDevice(r.deviceCode)
    {
      assert DeviceOriginOk(s.hist.issues[h], s.devices, s.hist.devices);
    }
  }

  lemma ConsumeDeviceKeeps(s: State, r: DeviceRequest)
    requires Inv(s) && DeviceError(s, r).None?
    ensures Inv(UpdateDevice(s, LiveDevice(s, r.deviceCode).value.(status := "consumed")))
  {
    var d := LiveDevice(s, r.deviceCode).value;
    DeviceFacts(s, r);
    var past := s.hist.devices[r.deviceCode];
    assert PastOk(past, s.hist.born);
    assert s.hist.devices[r.deviceCode := past] == s.hist.devices;
    PutDeviceKeeps(s, d.(status := "consumed"), past);
  }

  lemma RedeemDeviceKeeps(s: State, r: DeviceRequest, newRaw: string, commits: bool)
    requires Inv(s) && Hmac(newRaw) !in s.hist.issues
    ensures Inv(RedeemDevice(s, r, newRaw, commits).0)
  {
    if DeviceError(s, r).None? && r.clientId in s.clients {
      var d := LiveDevice(s, r.deviceCode).value;
      ConsumeDeviceKeeps(s, r);
      DeviceFacts(s, r);
      KeyInTable(s.clients, r.clientId);
      var t := UpdateDevice(s, d.(status := "consumed"));
      DeviceIssueKeeps(t, r, d, newRaw);
    }
  }

  lemma DeviceIssueKeeps(t: State, r: DeviceRequest, d: DeviceCodes.Device, newRaw: string)
    requires Inv(t) && Hmac(newRaw) !in t.hist.issues && r.clientId in t.clients
    requires r.deviceCode in t.hist.devices && t.hist.devices[r.deviceCode].client == r.clientId
    requires ApprovedBy(d, t.hist.devices[r.deviceCode])
    requires r.deviceCode in t.devices && t.devices[r.deviceCode].device.status == "consumed"
    requires d.session.value in t.sessions && t.sessions[d.session.value].user == d.user.value
    requires forall h | h in t.hist.issues :: t.hist.issues[h].origin != FromDevice(r.deviceCode)
    ensures Inv(AddIssue(t, Hmac(newRaw), Issue(FromDevice(r.deviceCode), r.clientId, "", "", t.clients[r.clientId].key,
                                                d.user.value, d.session.value, d.scope, t.now, |t.hist.issues|)))
  {
    KeyInTable(t.clients, r.clientId);
    IssueKeeps(t, Hmac(newRaw), Issue(FromDevice(r.deviceCode), r.clientId, "", "", t.clients[r.clientId].key,
                                      d.user.value, d.session.value, d.scope, t.now, |t.hist.issues|));
  }

  // --------------------------------------------------------- authorize and consent

  lemma PassedGates(s: State, r: AuthorizeRequest, clientId: string, redirect: string, session: Snapshot)
    requires GateError(s, r, clientId, redirect).None?
    requires session.session in s.hist.born && s.hist.born[session.session].user == session.user
    ensures AuthOk(AuthStep(BindingOf(r, clientId, redirect, session), s.clients[clientId], s.now), s.now, s.hist.born)
  {
  }

  lemma AuthorizePassedKeeps(s: State, r: AuthorizeRequest, clientId: string, redirect: string, session: Snapshot, consented: bool,
                             code: string, requestId: string)
    requires Inv(s) && clientId in s.clients && redirect in s.clients[clientId].redirectUris
    requires AuthOk(AuthStep(BindingOf(r, clientId, redirect, session), s.clients[clientId], s.now), s.now, s.hist.born)
    requires consented ==> Scopes.HasConsent(ConsentOf(s, session.user, clientId), r.scope)
    requires Sha256(code) !in s.hist.mints && requestId !in s.hist.asks
    ensures Inv(AuthorizePassed(s, r, clientId, redirect, session, consented, code, requestId).0)
  {
    var b := BindingOf(r, clientId, redirect, session);
    AddAuthKeeps(s, b, s.clients[clientId]);
    NextUnclaimed(s);
    AfterAuthKeeps(AddAuth(s, b, s.clients[clientId]), code, requestId, b, s.clients[clientId].redirectUris, ConsentOf(s, session.user, clientId));
  }

  /** With the step just recorded, either continuation keeps the invariant. */
  lemma AfterAuthKeeps(t: State, code: string, requestId: string, b: Binding, uris: set<string>, consent: Option<string>)
    requires Inv(t) && Sha256(code) !in t.hist.mints && requestId !in t.hist.asks
    requires |t.hist.auths| > 0 && t.hist.auths[|t.hist.auths| - 1].binding == b && t.hist.auths[|t.hist.auths| - 1].at == t.now
    requires b.redirect in uris && Unclaimed(|t.hist.auths| - 1, t.hist.asks, t.hist.mints)
    ensures Scopes.HasConsent(consent, b.scope) ==> Inv(MintCode(t, code, |t.hist.auths| - 1, b, uris, consent))
    ensures Inv(AddPending(t, requestId, |t.hist.auths| - 1, b))
  {
    if Scopes.HasConsent(consent, b.scope) { DirectMintKeeps(t, code, b, uris, consent); }
    AddPendingKeeps(t, requestId, |t.hist.auths| - 1, b);
  }

  lemma DirectMintKeeps(t: State, code: string, b: Binding, uris: set<string>, consent: Option<string>)
    requires Inv(t) && Sha256(code) !in t.hist.mints
    requires |t.hist.auths| > 0 && t.hist.auths[|t.hist.auths| - 1].binding == b && t.hist.auths[|t.hist.auths| - 1].at == t.now
    requires b.redirect in uris && Scopes.HasConsent(consent, b.scope)
    requires Unclaimed(|t.hist.auths| - 1, t.hist.asks, t.hist.mints)
    ensures Inv(MintCode(t, code, |t.hist.auths| - 1, b, uris, consent))
  {
    MintKeeps(t, code, |t.hist.auths| - 1, b, uris, consent);
  }

  lemma AuthorizeInKeeps(s: State, r: AuthorizeRequest, clientId: string, redirect: string, session: Option<Snapshot>, code: string, requestId: string)
    requires Inv(s) && Sha256(code) !in s.hist.mints && requestId !in s.hist.asks
    requires session.Some? ==> session.value.session in s.hist.born && s.hist.born[session.value.session].user == session.value.user
    ensures Inv(AuthorizeIn(s, r, clientId, redirect, session, code, requestId).0)
  {
    if session.Some? && GateError(s, r, clientId, redirect).None? {
      PassedGates(s, r, clientId, redirect, session.value);
      var consented := "consent" !in r.prompts && Scopes.HasConsent(ConsentOf(s, session.value.user, clientId), r.scope);
      AuthorizePassedKeeps(s, r, clientId, redirect, session.value, consented, code, requestId);
    }
  }

  lemma AuthorizeKeeps(s: State, r: AuthorizeRequest, code: string, requestId: string, io: CacheIo)
    requires Inv(s) && Sha256(code) !in s.hist.mints && requestId !in s.hist.asks
    ensures Inv(Authorize(s, r, code, requestId, io).0)
  {
    var clientId, redirect := Scopes.Trim(r.clientId.UnwrapOr("")), r.redirect.UnwrapOr("");
    FindActiveKeeps(s, r.sessionToken, io);
    var (t, session) := FindActive(s, r.sessionToken, io);
    AuthorizeInKeeps(t, r, clientId, redirect, session, code, requestId);
  }

  /** What taking a pending request leaves: a step that has no code yet and that nothing waits for. */
  lemma TakenIsMintable(s: State, requestId: string)
    requires Inv(s) && requestId in s.pending
    ensures requestId in s.hist.asks && s.hist.asks[requestId] < |s.hist.auths|
    ensures s.hist.auths[s.hist.asks[requestId]].binding == s.pending[requestId].binding
    ensures s.hist.auths[s.hist.asks[requestId]].at <= s.now
    ensures Mintable(s.hist.asks[requestId], s.pending - {requestId}, s.hist.asks, s.hist.mints)
  {
    assert PendingBound(requestId, s.pending, s.hist.auths, s.hist.asks) && AskOk(requestId, s.hist.auths, s.hist.asks);
    assert AuthOk(s.hist.auths[s.hist.asks[requestId]], s.now, s.hist.born);
    forall k | k in s.hist.mints
      ensures s.hist.mints[k].auth != s.hist.asks[requestId]
    {
      assert Unminted(requestId, k, s.hist.asks, s.hist.mints);
    }
    forall r | r in s.pending - {requestId} && r in s.hist.asks
      ensures s.hist.asks[r] != s.hist.asks[requestId]
    {
      assert SameAsk(r, requestId, s.hist.asks) ==> r == requestId;
    }
  }

  lemma CompleteKeeps(s: State, requestId: string, b: Binding, consent: string, code: string)
    requires Inv(s) && Sha256(code) !in s.hist.mints
    requires requestId in s.hist.asks && s.hist.asks[requestId] < |s.hist.auths|
    requires s.hist.auths[s.hist.asks[requestId]].binding == b && s.hist.auths[s.hist.asks[requestId]].at <= s.now
    requires Mintable(s.hist.asks[requestId], s.pending, s.hist.asks, s.hist.mints)
    requires Scopes.HasConsent(Some(consent), b.scope)
    ensures Inv(CompleteAfterConsent(s, requestId, b, consent, code).0)
  {
    if b.client in s.clients && b.redirect in s.clients[b.client].redirectUris {
      var client := s.clients[b.client];
      var key := (b.user, client.key);
      UnmentionedKeeps(s, s.consents[key := consent], s.resets);
      MintKeeps(s.(consents := s.consents[key := consent]), code, s.hist.asks[requestId], b, client.redirectUris, Some(consent));
    }
  }

  lemma TakeAndCompleteKeeps(t: State, requestId: string, consent: string, code: string)
    requires Inv(t) && requestId in t.pending && Sha256(code) !in t.hist.mints
    requires Scopes.HasConsent(Some(consent), t.pending[requestId].binding.scope)
    ensures Inv(t.(pending := t.pending - {requestId}))
    ensures Inv(CompleteAfterConsent(t.(pending := t.pending - {requestId}), requestId, t.pending[requestId].binding, consent, code).0)
  {
    TakePendingKeeps(t, requestId);
    TakenIsMintable(t, requestId);
    CompleteKeeps(t.(pending := t.pending - {requestId}), requestId, t.pending[requestId].binding, consent, code);
  }

  lemma SubmitConsentKeeps(s: State, sessionToken: Option<string>, requestId: string, approve: bool, code: string, io: CacheIo)
    requires Inv(s) && Sha256(code) !in s.hist.mints
    ensures Inv(SubmitConsent(s, sessionToken, requestId, approve, code, io).0)
  {
    FindActiveKeeps(s, sessionToken, io);
    ConsentAnsweredKeeps(FindActive(s, sessionToken, io).0, FindActive(s, sessionToken, io).1, requestId, approve, code);
  }

  lemma ConsentAnsweredKeeps(t: State, session: Option<Snapshot>, requestId: string, approve: bool, code: string)
    requires Inv(t) && Sha256(code) !in t.hist.mints
    ensures Inv(ConsentAnswered(t, session, requestId, approve, code).0)
  {
    AnsweredParts(t, session, requestId, approve, code);
    if requestId in t.pending {
      var b := t.pending[requestId].binding;
      var row := ConsentOf(t, b.user, b.client);
      Scopes.GrantCovers(row, b.scope);
      TakeAndCompleteKeeps(t, requestId, Scopes.Granted(row, b.scope), code);
    }
  }

  /** An answer changes nothing, takes the request, or takes and completes it. */
  lemma AnsweredParts(t: State, session: Option<Snapshot>, requestId: string, approve: bool, code: string)
    ensures var u := ConsentAnswered(t, session, requestId, approve, code).0;
            || u == t
            || (requestId in t.pending &&
                var mid, b := t.(pending := t.pending - {requestId}), t.pending[requestId].binding;
                u == mid || u == CompleteAfterConsent(mid, requestId, b, Scopes.Granted(ConsentOf(t, b.user, b.client), b.scope), code).0)
  {
    if requestId in t.pending {
      var b := t.pending[requestId].binding;
      assert ConsentOf(t.(pending := t.pending - {requestId}), b.user, b.client) == ConsentOf(t, b.user, b.client);
    }
  }

  // --------------------------------------------------------------- devices and rest

  lemma RequestDeviceKeeps(s: State, clientId: string, scope: Option<string>, id: nat, deviceCode: string, draws: seq<string>)
    requires Inv(s) && deviceCode !in s.hist.devices
    ensures Inv(RequestDevice(s, clientId, scope, id, deviceCode, draws).0)
  {
    var userCode := FirstFree(s, draws);
    if userCode.Some? {
      PersistDeviceKeeps(s, DeviceCodes.Device(id, deviceCode, userCode.value, clientId, scope, "pending", None, None, s.now + DEVICE_TTL, Some(s.now)));
    }
  }

  /** A decision changes nothing, fills the cache, or also resolves the pending record it found. */
  lemma VerifyParts(s: State, userCode: string, token: Option<string>, approve: bool, io: CacheIo)
    ensures var t := VerifyUserCode(s, userCode, token, approve, io).0;
            var (mid, session) := FindActive(s, token, io);
            var found := FindByUserCode(mid, Scopes.Trim(userCode));
            || t == s
            || t == mid
            || (session.Some? && found.Some? && found.value.status == "pending" && t == Resolve(mid, found.value, session.value, approve))
  {
  }

  lemma VerifyKeeps(s: State, userCode: string, sessionToken: Option<string>, approve: bool, io: CacheIo)
    requires Inv(s)
    ensures Inv(VerifyUserCode(s, userCode, sessionToken, approve, io).0)
  {
    FindActiveKeeps(s, sessionToken, io);
    VerifyParts(s, userCode, sessionToken, approve, io);
    var (t, session) := FindActive(s, sessionToken, io);
    var found := FindByUserCode(t, Scopes.Trim(userCode));
    if session.Some? && found.Some? && found.value.status == "pending" {
      FoundIsLive(t, Scopes.Trim(userCode));
      ResolveKeeps(t, found.value, session.value, approve);
    }
  }

  lemma FoundIsLive(s: State, userCode: string)
    requires Inv(s) && FindByUserCode(s, userCode).Some?
    ensures LiveDevice(s, FindByUserCode(s, userCode).value.deviceCode) == FindByUserCode(s, userCode)
  {
    var code := s.pointers[DeviceCodes.NormalizeUserCode(userCode)].deviceCode;
    assert DeviceOk(code, s.devices[code].device, s.hist.devices);
  }

  lemma RequestResetKeeps(s: State, u: UserId, raw: string)
    requires Inv(s)
    ensures Inv(RequestReset(s, u, raw))
  {
  }

  lemma ConsumeResetKeeps(s: State, raw: string, passwordBytes: nat, dels: set<Digest>)
    requires Inv(s)
    ensures Inv(ConsumeReset(s, raw, passwordBytes, dels).0)
  {
    var reset := UsableReset(s, raw);
    if reset.Some? {
      var u := reset.value.user;
      UnmentionedKeeps(s, s.consents, ConsumeResets(s, u).resets);
      DeleteAllKeeps(ConsumeResets(s, u), u, None, dels, Finished);
    }
  }

  lemma LoseKeeps(s: State, cached: set<Digest>, codeKeys: set<Digest>, requests: set<string>, deviceKeys: set<string>, pointerKeys: set<string>)
    requires Inv(s)
    ensures Inv(Lose(s, cached, codeKeys, requests, deviceKeys, pointerKeys))
  {
    DropCacheKeeps(s, cached);
    var t := s.(cache := s.cache - cached);
    LoseCodesKeeps(t, codeKeys, requests);
    LoseDevicesKeeps(t.(codes := t.codes - codeKeys, pending := t.pending - requests), deviceKeys, pointerKeys);
  }

  lemma LoseCodesKeeps(s: State, codeKeys: set<Digest>, requests: set<string>)
    requires Inv(s)
    ensures Inv(s.(codes := s.codes - codeKeys, pending := s.pending - requests))
  {
    forall h | h in s.hist.issues
      ensures CodeOriginOk(s.hist.issues[h], s.codes - codeKeys, s.hist.auths, s.hist.mints)
    {
      assert CodeOriginOk(s.hist.issues[h], s.codes, s.hist.auths, s.hist.mints);
    }
    forall r | r in s.pending - requests
      ensures PendingBound(r, s.pending - requests, s.hist.auths, s.hist.asks)
    {
      assert PendingBound(r, s.pending, s.hist.auths, s.hist.asks);
    }
  }

  lemma LoseDevicesKeeps(s: State, deviceKeys: set<string>, pointerKeys: set<string>)
    requires Inv(s)
    ensures Inv(s.(devices := s.devices - deviceKeys, pointers := s.pointers - pointerKeys))
  {
    forall h | h in s.hist.issues
      ensures DeviceOriginOk(s.hist.issues[h], s.devices - deviceKeys, s.hist.devices)
    {
      assert DeviceOriginOk(s.hist.issues[h], s.devices, s.hist.devices);
    }
    DeviceFrame(s, s.devices - deviceKeys, s.pointers - pointerKeys, s.hist.devices);
  }

  // --------------------------------------------------------------------------- runs

  lemma AdministrationKeeps(s: State, e: Event)
    requires Inv(s) && Enabled(s, e) && IsAdministration(e)
    ensures Inv(AdministrationStep(s, e))
  {
    match e {
      case Tick(later) => TickKeeps(s, later);
      case AddUser(u, user) => WithUserKeeps(s, u, user);
      case UpdateUser(u, user) => if u in s.users { WithUserKeeps(s, u, user); }
      case RemoveUser(u, dels) => DeleteUserKeeps(s, u, dels);
      case PutClient(name, client) => WithClientKeeps(s, name, client);
      case RemoveClient(name) => DropClientKeeps(s, name);
      case WithdrawConsent(u, key) => UnmentionedKeeps(s, s.consents - {(u, key)}, s.resets);
      case RedisLoses(a, b, c, d, f) => LoseKeeps(s, a, b, c, d, f);
    }
  }

  lemma SessionEventKeeps(s: State, e: Event)
    requires Inv(s) && Enabled(s, e) && IsSessionEvent(e)
    ensures Inv(SessionStep(s, e))
  {
    match e {
      case Login(u, sid, token, write) => CreateSessionKeeps(s, u, sid, token, write);
      case LookUp(token, io) => FindByTokenKeeps(s, token, io);
      case EndSession(sid, delOk, reach) => DeleteSessionKeeps(s, sid, delOk, reach);
      case EndSessions(u, keep, dels, reach) => DeleteAllKeeps(s, u, keep, dels, reach);
      case LogOut(sid, delOk, reach) => LogoutKeeps(s, sid, delOk, reach);
      case RevokeToken(raw, clientId, secret) => RevokeKeeps(s, raw, clientId, secret);
      case SweepTokens => SweepKeeps(s);
      case AskReset(u, raw) => RequestResetKeeps(s, u, raw);
      case UseReset(raw, bytes, dels) => ConsumeResetKeeps(s, raw, bytes, dels);
    }
  }

  lemma GrantEventKeeps(s: State, e: Event)
    requires Inv(s) && Enabled(s, e) && !IsAdministration(e) && !IsSessionEvent(e)
    ensures Inv(GrantStep(s, e))
  {
    match e {
      case AskCode(request, code, requestId, io) => AuthorizeKeeps(s, request, code, requestId, io);
      case AnswerConsent(token, requestId, approve, code, io) => SubmitConsentKeeps(s, token, requestId, approve, code, io);
      case CodeGrant(r, newRaw) => RedeemCodeKeeps(s, r, newRaw);
      case RefreshGrant(r, newRaw) => RefreshKeeps(s, r, newRaw);
      case DeviceGrant(r, newRaw, commits) => RedeemDeviceKeeps(s, r, newRaw, commits);
      case AskDevice(clientId, scope, id, deviceCode, draws) => RequestDeviceKeeps(s, clientId, scope, id, deviceCode, draws);
      case AnswerDevice(userCode, token, approve, io) => VerifyKeeps(s, userCode, token, approve, io);
    }
  }

  lemma StepKeeps(s: State, e: Event)
    requires Inv(s) && Enabled(s, e)
    ensures Inv(Step(s, e))
  {
    if IsAdministration(e) {
      AdministrationKeeps(s, e);
    } else if IsSessionEvent(e) {
      SessionEventKeeps(s, e);
    } else {
      GrantEventKeeps(s, e);
    }
  }

  lemma EmptyOk(now: Time)
    ensures Inv(Empty(now))
  {
  }

  lemma {:induction false} RunKeeps(s: State, events: seq<Event>)
    requires Inv(s) && IsRun(s, events)
    ensures Inv(After(s, events))
    decreases |events|
  {
    if events != [] {
      StepKeeps(s, events[0]);
      RunKeeps(Step(s, events[0]), events[1..]);
    }
  }

  // ------------------------------------------------- what a handler leaves untouched

  lemma FindByTokenFrame(s: State, token: string, io: CacheIo)
    ensures var t := FindByToken(s, token, io).0; t == s.(cache := t.cache)
  {
    var row := DbLookup(s, token);
    if row.Some? { PopulateOnly(s, Sha256(token), row.value, io.write); }
  }

  lemma FindActiveFrame(s: State, token: Option<string>, io: CacheIo)
    ensures var t := FindActive(s, token, io).0; t == s.(cache := t.cache)
  {
    if token.Some? { FindByTokenFrame(s, token.value, io); }
  }

  /** The state without codes, pending requests, consents and their histories. */
  function Beside(s: State): State {
    s.(codes := map[], pending := map[], consents := map[], hist := s.hist.(auths := [], asks := map[], mints := map[]))
  }

  ghost predicate OnlyAuthorization(s: State, t: State) {
    Beside(t) == Beside(s)
  }

  lemma PassedFrame(s: State, r: AuthorizeRequest, clientId: string, redirect: string, session: Snapshot, consented: bool, code: string, requestId: string)
    requires clientId in s.clients
    ensures OnlyAuthorization(s, AuthorizePassed(s, r, clientId, redirect, session, consented, code, requestId).0)
  {
    var client, b := s.clients[clientId], BindingOf(r, clientId, redirect, session);
    var t := AddAuth(s, b, client);
    if consented {
      MintFrame(t, code, |s.hist.auths|, b, client.redirectUris, ConsentOf(s, session.user, clientId));
    } else if "none" !in r.prompts {
      assert OnlyAuthorization(s, AddPending(t, requestId, |s.hist.auths|, b));
    }
  }

  lemma MintFrame(s: State, code: string, auth: nat, b: Binding, uris: set<string>, consent: Option<string>)
    ensures OnlyAuthorization(s, MintCode(s, code, auth, b, uris, consent))
  {
  }

  lemma AuthorizeInFrame(s: State, r: AuthorizeRequest, clientId: string, redirect: string, session: Option<Snapshot>, code: string, requestId: string)
    ensures OnlyAuthorization(s, AuthorizeIn(s, r, clientId, redirect, session, code, requestId).0)
  {
    if session.Some? && clientId in s.clients {
      var consented := "consent" !in r.prompts && Scopes.HasConsent(ConsentOf(s, session.value.user, clientId), r.scope);
      PassedFrame(s, r, clientId, redirect, session.value, consented, code, requestId);
    }
  }

  lemma AuthorizeFrame(s: State, r: AuthorizeRequest, code: string, requestId: string, io: CacheIo)
    ensures var t := Authorize(s, r, code, requestId, io).0;
            t == s || OnlyAuthorization(FindActive(s, r.sessionToken, io).0, t)
  {
    var (t, session) := FindActive(s, r.sessionToken, io);
    AuthorizeInFrame(t, r, Scopes.Trim(r.clientId.UnwrapOr("")), r.redirect.UnwrapOr(""), session, code, requestId);
  }

  lemma CompleteFrame(s: State, requestId: string, b: Binding, consent: string, code: string)
    ensures OnlyAuthorization(s, CompleteAfterConsent(s, requestId, b, consent, code).0)
  {
    var t := CompleteAfterConsent(s, requestId, b, consent, code).0;
    if t != s {
      var client := s.clients[b.client];
      var mid := s.(consents := s.consents[(b.user, client.key) := consent]);
      var auth := if requestId in s.hist.asks then s.hist.asks[requestId] else 0;
      MintFrame(mid, code, auth, b, client.redirectUris, Some(consent));
      assert t == MintCode(mid, code, auth, b, client.redirectUris, Some(consent));
    }
  }

  lemma AnsweredFrame(s: State, session: Option<Snapshot>, requestId: string, approve: bool, code: string)
    ensures OnlyAuthorization(s, ConsentAnswered(s, session, requestId, approve, code).0)
  {
    if requestId in s.pending {
      var b := s.pending[requestId].binding;
      CompleteFrame(s.(pending := s.pending - {requestId}), requestId, b, Scopes.Granted(ConsentOf(s, b.user, b.client), b.scope), code);
    }
  }

  lemma SubmitConsentFrame(s: State, token: Option<string>, requestId: string, approve: bool, code: string, io: CacheIo)
    ensures OnlyAuthorization(FindActive(s, token, io).0, SubmitConsent(s, token, requestId, approve, code, io).0)
  {
    AnsweredFrame(FindActive(s, token, io).0, FindActive(s, token, io).1, requestId, approve, code);
  }

  lemma VerifyFrame(s: State, userCode: string, token: Option<string>, approve: bool, io: CacheIo)
    ensures var t := VerifyUserCode(s, userCode, token, approve, io).0;
            t == s.(cache := FindActive(s, token, io).0.cache, devices := t.devices, hist := s.hist.(devices := t.hist.devices))
            || t == s
  {
    FindActiveFrame(s, token, io);
    if Scopes.Trim(userCode) != "" {
      var (mid, session) := FindActive(s, token, io);
      var found := FindByUserCode(mid, Scopes.Trim(userCode));
      if VerifyUserCode(s, userCode, token, approve, io).1.Verified? {
        ResolveFrame(mid, found.value, session.value, approve);
      } else {
        assert VerifyUserCode(s, userCode, token, approve, io).0 == mid;
      }
    }
  }

  lemma ResolveFrame(s: State, d: DeviceCodes.Device, session: Snapshot, approve: bool)
    ensures var t := Resolve(s, d, session, approve); t == s.(devices := t.devices, hist := s.hist.(devices := t.hist.devices))
  {
    if approve {
      UpdateOnly(s, d.(status := "approved", user := Some(session.user), session := Some(session.session)));
    } else {
      UpdateOnly(s, d.(status := "denied"));
    }
  }

  lemma UpdateOnly(s: State, d: DeviceCodes.Device)
    ensures var t := UpdateDevice(s, d); t == s.(devices := t.devices)
  {
  }

  lemma RequestDeviceFrame(s: State, clientId: string, scope: Option<string>, id: nat, deviceCode: string, draws: seq<string>)
    ensures var t := RequestDevice(s, clientId, scope, id, deviceCode, draws).0;
            t == s.(devices := t.devices, pointers := t.pointers, hist := s.hist.(devices := t.hist.devices))
  {
  }

  /** The part of the state that grants do not write. */
  predicate SameSessions(s: State, t: State) {
    && t.sessions == s.sessions && t.cache == s.cache && t.users == s.users && t.resets == s.resets
    && t.hist.born == s.hist.born && t.hist.resets == s.hist.resets && t.hist.auths == s.hist.auths && t.hist.mints == s.hist.mints
    && t.hist.devices == s.hist.devices && t.hist.asks == s.hist.asks
  }

  lemma AddIssueFrame(s: State, mid: State, h: TokenHash, issue: Issue)
    requires SameSessions(s, mid)
    ensures SameSessions(s, AddIssue(mid, h, issue))
  {
  }

  /** The new issue of a rotation. */
  function RotationIssue(s: State, r: RefreshRequest): Issue
    requires RefreshError(s, r).None?
  {
    var row, client := s.refresh[Hmac(r.raw)], s.clients[r.clientId];
    Issue(FromRefresh(Hmac(r.raw)), r.clientId, "", "", client.key, row.user, row.session, client.scopes, s.now, |s.hist.issues|)
  }

  /** A refresh changes nothing, revokes a session's rows, or rotates. */
  lemma RefreshParts(s: State, r: RefreshRequest, newRaw: string)
    ensures var (t, result) := Refresh(s, r, newRaw);
            || (t == s && result.Failed? && RefreshError(s, r).Some?)
            || (Replayed(s, r) && result == Failed(InvalidGrant) && t == s.(refresh := Revoked(s.refresh, RowsOfSession(s.refresh, s.refresh[Hmac(r.raw)].session))))
            || (RefreshError(s, r).None? && result == Issued(newRaw) && t == AddIssue(s.(refresh := Revoked(s.refresh, {Hmac(r.raw)})), Hmac(newRaw), RotationIssue(s, r)))
  {
  }

  lemma RefreshFrame(s: State, r: RefreshRequest, newRaw: string)
    ensures SameSessions(s, Refresh(s, r, newRaw).0)
  {
    RefreshParts(s, r, newRaw);
    if RefreshError(s, r).None? {
      AddIssueFrame(s, s.(refresh := Revoked(s.refresh, {Hmac(r.raw)})), Hmac(newRaw), RotationIssue(s, r));
    }
  }

  /** The new issue of a code exchange. */
  function ExchangeIssue(s: State, r: CodeRequest): Issue
    requires Sha256(r.code) in s.codes && r.clientId in s.clients
  {
    var b := s.codes[Sha256(r.code)].binding;
    Issue(FromCode(Sha256(r.code)), r.clientId, r.redirect, r.verifier, s.clients[r.clientId].key, b.user, b.session, b.scope, s.now, |s.hist.issues|)
  }

  /** A code request changes nothing, burns the code, or burns it and issues. */
  lemma RedeemCodeParts(s: State, r: CodeRequest, newRaw: string)
    ensures var (t, result) := RedeemCode(s, r, newRaw);
            || t == s
            || (Sha256(r.code) in s.codes && r.clientId in s.clients
                && (|| t == s.(codes := s.codes - {Sha256(r.code)})
                    || (CodeError(s, r, s.codes[Sha256(r.code)]).None? && result == Issued(newRaw)
                        && t == AddIssue(s.(codes := s.codes - {Sha256(r.code)}), Hmac(newRaw), ExchangeIssue(s, r)))))
  {
    if Sha256(r.code) in s.codes && r.clientId in s.clients { ExchangeParts(s, r, newRaw); }
  }

  lemma ExchangeParts(s: State, r: CodeRequest, newRaw: string)
    requires Sha256(r.code) in s.codes && r.clientId in s.clients
    ensures Exchange(s, r, newRaw).0
            == if CodeError(s, r, s.codes[Sha256(r.code)]).Some? then s.(codes := s.codes - {Sha256(r.code)})
               else AddIssue(s.(codes := s.codes - {Sha256(r.code)}), Hmac(newRaw), ExchangeIssue(s, r))
    ensures CodeError(s, r, s.codes[Sha256(r.code)]).None? ==> Exchange(s, r, newRaw).1 == Issued(newRaw)
  {
  }

  lemma RedeemCodeFrame(s: State, r: CodeRequest, newRaw: string)
    ensures SameSessions(s, RedeemCode(s, r, newRaw).0)
  {
    RedeemCodeParts(s, r, newRaw);
    if Sha256(r.code) in s.codes && r.clientId in s.clients {
      AddIssueFrame(s, s.(codes := s.codes - {Sha256(r.code)}), Hmac(newRaw), ExchangeIssue(s, r));
    }
  }

  /** The parts of a successful device redemption. */
  lemma RedeemDeviceParts(s: State, r: DeviceRequest, newRaw: string, commits: bool)
    ensures var (t, result) := RedeemDevice(s, r, newRaw, commits);
            || t == s
            || (LiveDevice(s, r.deviceCode).Some? && r.clientId in s.clients && DeviceError(s, r).None? &&
                var d := LiveDevice(s, r.deviceCode).value;
                var mid := UpdateDevice(s, d.(status := "consumed"));
                if commits then
                  t == AddIssue(mid, Hmac(newRaw), Issue(FromDevice(r.deviceCode), r.clientId, "", "", s.clients[r.clientId].key,
                                                         d.user.value, d.session.value, d.scope, s.now, |s.hist.issues|))
                else t == mid)
  {
  }

  lemma RedeemDeviceFrame(s: State, r: DeviceRequest, newRaw: string, commits: bool)
    ensures SameSessions(s, RedeemDevice(s, r, newRaw, commits).0)
  {
    RedeemDeviceParts(s, r, newRaw, commits);
    if RedeemDevice(s, r, newRaw, commits).0 != s {
      var d := LiveDevice(s, r.deviceCode).value;
      var mid := UpdateDevice(s, d.(status := "consumed"));
      UpdateOnly(s, d.(status := "consumed"));
      AddIssueFrame(s, mid, Hmac(newRaw),
                    Issue(FromDevice(r.deviceCode), r.clientId, "", "", s.clients[r.clientId].key, d.user.value, d.session.value, d.scope, s.now, |s.hist.issues|));
    }
  }

  /** Users and reset tokens are as before. */
  predicate SameAccounts(s: State, t: State) {
    t.users == s.users && t.resets == s.resets && t.hist.resets == s.hist.resets
  }

  lemma AuthorizeAccounts(s: State, r: AuthorizeRequest, code: string, requestId: string, io: CacheIo)
    ensures var t := Authorize(s, r, code, requestId, io).0; SameAccounts(s, t) && t.hist.issues == s.hist.issues
  {
    FindActiveFrame(s, r.sessionToken, io);
    AuthorizeFrame(s, r, code, requestId, io);
    BesideAccounts(FindActive(s, r.sessionToken, io).0, Authorize(s, r, code, requestId, io).0);
  }

  lemma BesideAccounts(s: State, t: State)
    ensures Beside(t) == Beside(s) ==> SameAccounts(s, t) && t.hist.issues == s.hist.issues
  {
    assert forall x: State :: Beside(x).users == x.users && Beside(x).resets == x.resets && Beside(x).hist.resets == x.hist.resets
                              && Beside(x).hist.issues == x.hist.issues;
  }

  lemma ConsentAccounts(s: State, token: Option<string>, requestId: string, approve: bool, code: string, io: CacheIo)
    ensures var t := SubmitConsent(s, token, requestId, approve, code, io).0; SameAccounts(s, t) && t.hist.issues == s.hist.issues
  {
    FindActiveFrame(s, token, io);
    SubmitConsentFrame(s, token, requestId, approve, code, io);
    BesideAccounts(FindActive(s, token, io).0, SubmitConsent(s, token, requestId, approve, code, io).0);
  }

  lemma VerifyAccounts(s: State, userCode: string, token: Option<string>, approve: bool, io: CacheIo)
    ensures var t := VerifyUserCode(s, userCode, token, approve, io).0; SameAccounts(s, t) && t.hist.issues == s.hist.issues
  {
    VerifyFrame(s, userCode, token, approve, io);
  }

  lemma GrantEventAccounts(s: State, e: Event)
    requires !IsAdministration(e) && !IsSessionEvent(e)
    ensures SameAccounts(s, GrantStep(s, e))
  {
    match e {
      case AskCode(r, code, requestId, io) => AuthorizeAccounts(s, r, code, requestId, io);
      case AnswerConsent(token, requestId, approve, code, io) => ConsentAccounts(s, token, requestId, approve, code, io);
      case CodeGrant(r, newRaw) => RedeemCodeFrame(s, r, newRaw);
      case RefreshGrant(r, newRaw) => RefreshFrame(s, r, newRaw);
      case DeviceGrant(r, newRaw, commits) => RedeemDeviceFrame(s, r, newRaw, commits);
      case AskDevice(clientId, scope, id, deviceCode, draws) => RequestDeviceFrame(s, clientId, scope, id, deviceCode, draws);
      case AnswerDevice(userCode, token, approve, io) => VerifyAccounts(s, userCode, token, approve, io);
    }
  }

  /** The states of all finite runs from empty stores. */
  ghost predicate Reachable(s: State) {
    exists now: Time, events: seq<Event> :: IsRun(Empty(now), events) && After(Empty(now), events) == s
  }

  lemma ReachableOk(s: State)
    requires Reachable(s)
    ensures Inv(s)
  {
    var now: Time, events: seq<Event> :| IsRun(Empty(now), events) && After(Empty(now), events) == s;
    EmptyOk(now);
    RunKeeps(Empty(now), events);
  }
}
