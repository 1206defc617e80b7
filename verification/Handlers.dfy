/** The repositories and flows as the imperative code they are: each method reads and reassigns the stores
    step by step, and is proved to leave exactly the stores that its function in `Flows` describes. The
    endpoints at the end keep the invariant, so they can be called in any order, and say what a caller gets. */
module Handlers {
  import opened Base
  import opened Store
  import opened Flows
  import opened Invariants
  import opened Machine
  import Scopes
  import DeviceCodes
  import CodeTrace
  import DeviceGrant
  import HonestRuns
  import Lineage
  import PasswordReset
  import SessionCache
  import SessionEnds

  const PERSIST_RETRIES: nat := 5

  /** Postgres and Redis at one instant. */
  class Stores {
    var now: Time
    var users: map<UserId, User>
    var clients: map<string, Client>
    var sessions: map<SessionId, Session>
    var refresh: map<TokenHash, RefreshRow>
    var consents: map<(UserId, ClientKey), string>
    var resets: map<TokenHash, Reset>
    var cache: map<Digest, Cached>
    var codes: map<Digest, Bound>
    var pending: map<string, Bound>
    var devices: map<string, StoredDevice>
    var pointers: map<string, Pointer>
    ghost var hist: History

    ghost function View(): State
      reads this
    {
      State(now, users, clients, sessions, refresh, consents, resets, cache, codes, pending, devices, pointers, hist)
    }

    ghost predicate Valid()
      reads this
    {
      Inv(View())
    }

    constructor (start: Time)
      ensures Valid() && View() == Empty(start)
    {
      now, users, clients, sessions := start, map[], map[], map[];
      refresh, consents, resets, cache := map[], map[], map[], map[];
      codes, pending, devices, pointers := map[], map[], map[], map[];
      hist := History({}, {}, map[], [], map[], map[], map[], map[], {});
      new;
      EmptyOk(start);
    }

    // ---------------------------------------------------------------- session store

    method PopulateCache(key: Digest, snap: Snapshot, write: bool)
      modifies `cache
      ensures View() == Populate(old(View()), key, snap, write)
    {
      if snap.expires.None? { return; }
      var ttl := TtlSeconds(snap.expires.value, now);
      if ttl <= 0 || !write { return; }
      cache := cache[key := Cached(snap, now + 1000 * ttl)];
    }

    method ReadSession(token: string, io: CacheIo) returns (hit: Option<Snapshot>)
      requires Valid()
      modifies `cache
      ensures (View(), hit) == Flows.FindByToken(old(View()), token, io)
    {
      if token == "" { return None; }
      var key := Sha256(token);
      if io.read && key in cache && now < cache[key].deadline { return Some(cache[key].snap); }
      RowByTokenFinds(View(), token);
      if sid :| sid in sessions && sessions[sid].token == token {
        var row := sessions[sid];
        hit := Some(Snapshot(sid, row.user, users[row.user].enabled, row.expires, row.created));
        PopulateCache(key, hit.value, io.write);
      } else {
        hit := None;
      }
    }

    method ReadActiveSession(token: Option<string>, io: CacheIo) returns (hit: Option<Snapshot>)
      requires Valid()
      modifies `cache
      ensures (View(), hit) == FindActive(old(View()), token, io)
    {
      if token.None? || Scopes.Trim(token.value) == "" { return None; }
      hit := ReadSession(token.value, io);
      if hit.None? { return None; }
      if hit.value.expires.Some? && hit.value.expires.value < now { return None; }
      if !hit.value.enabled { return None; }
    }

    /** INSERT first, then the cache; the user is the row's foreign key. */
    method InsertSession(u: UserId, sid: SessionId, token: string, write: bool)
      modifies `sessions, `cache, `hist
      ensures View() == Flows.CreateSession(old(View()), u, sid, token, write)
    {
      if u !in users { return; }
      var row := Session(u, token, Some(now + SESSION_TTL), now);
      sessions := sessions[sid := row];
      hist := hist.(born := hist.born[sid := row]);
      PopulateCache(Sha256(token), Snapshot(sid, u, users[u].enabled, row.expires, row.created), write);
    }

    /** Redis first; `delOk` is the fate of the DEL and `reach` how far the process gets after it. */
    method DeleteOne(sid: SessionId, delOk: bool, reach: Reach) returns (aborted: bool)
      modifies `cache, `refresh, `sessions
      ensures View() == DeleteSession(old(View()), sid, delOk, reach)
      ensures aborted == (sid in old(sessions) && !delOk)
    {
      if sid in sessions {
        if !delOk { return true; }
        cache := cache - {Sha256(sessions[sid].token)};
      }
      aborted := false;
      assert CacheKeys(sessions, {sid}) == if sid in sessions then {Sha256(sessions[sid].token)} else {};
      EndRows(RowsOfSession(refresh, sid), {sid}, reach);
    }

    /** UPDATE refresh_tokens, then DELETE FROM user_sessions with its cascade. */
    method EndRows(rows: set<TokenHash>, sids: set<SessionId>, reach: Reach)
      modifies `refresh, `sessions
      ensures View() == Ended(old(View()), rows, sids, reach)
    {
      if reach.CacheOnly? { return; }
      refresh := Revoked(refresh, rows);
      if reach.RevokedOnly? { return; }
      DropSessionRows(sids);
    }

    method DropSessionRows(sids: set<SessionId>)
      modifies `refresh, `sessions
      ensures View() == DropSessions(old(View()), sids)
    {
      refresh := map h | h in refresh && refresh[h].session !in sids :: refresh[h];
      sessions := sessions - sids;
    }

    /** Every DEL is tried; a failed one is collected and aborts the rest once all were tried. */
    method DeleteMany(u: UserId, keep: Option<SessionId>, dels: set<Digest>, reach: Reach) returns (aborted: bool)
      modifies `cache, `refresh, `sessions
      ensures View() == DeleteAll(old(View()), u, keep, dels, reach)
      ensures aborted == !(CacheKeys(old(sessions), SessionsOfUser(old(sessions), u, keep)) <= dels)
    {
      var targets := SessionsOfUser(sessions, u, keep);
      var failed := DeleteKeys(targets, dels);
      if failed != [] { return true; }
      aborted := false;
      EndRows(RowsOfUser(refresh, u, keep), targets, reach);
    }

    method DeleteKeys(targets: set<SessionId>, dels: set<Digest>) returns (failed: seq<Digest>)
      requires targets <= sessions.Keys
      modifies `cache
      ensures cache == old(cache) - (CacheKeys(sessions, targets) * dels)
      ensures failed == [] <==> CacheKeys(sessions, targets) <= dels
    {
      failed := [];
      var rest := targets;
      while rest != {}
        invariant rest <= targets
        invariant cache == old(cache) - (CacheKeys(sessions, targets - rest) * dels)
        invariant failed == [] <==> CacheKeys(sessions, targets - rest) <= dels
      {
        var sid :| sid in rest;
        var key := Sha256(sessions[sid].token);
        if key in dels {
          cache := cache - {key};
        } else {
          failed := failed + [key];
        }
        assert CacheKeys(sessions, targets - (rest - {sid})) == CacheKeys(sessions, targets - rest) + {key};
        rest := rest - {sid};
      }
      assert targets - {} == targets;
    }

    /** DELETE FROM users with its cascades. */
    method DropUserRow(u: UserId)
      modifies `refresh, `sessions, `users, `resets, `consents
      ensures View() == DropUser(old(View()), u)
    {
      DropSessionRows(SessionsOfUser(sessions, u, None));
      refresh := RefreshWithout(refresh, u);
      resets := ResetsWithout(resets, u);
      consents := ConsentsWithout(consents, u);
      users := users - {u};
    }

    /** The admin handler drops the user whether or not the bulk delete went through. */
    method DropEverywhere(u: UserId, dels: set<Digest>)
      modifies `cache, `refresh, `sessions, `users, `resets, `consents
      ensures View() == DeleteUser(old(View()), u, dels)
    {
      var _ := DeleteMany(u, None, dels, Finished);
      DropUserRow(u);
    }

    // ------------------------------------------------------------------- token flow

    method Issue(h: TokenHash, user: UserId, client: ClientKey, session: SessionId, ghost issue: Store.Issue)
      requires issue.user == user && issue.client == client && issue.session == session
      modifies `refresh, `hist
      ensures View() == AddIssue(old(View()), h, issue)
    {
      refresh := refresh[h := RefreshRow(user, client, session, Some(now + REFRESH_TTL), false)];
      hist := hist.(issues := hist.issues[h := issue]);
    }

    method AuthenticateClient(clientId: string, secret: Option<string>) returns (error: Option<TokenError>)
      ensures error == ClientError(View(), clientId, secret)
    {
      if clientId !in clients || !clients[clientId].enabled { return Some(UnauthorizedClient); }
      var client := clients[clientId];
      if client.confidential {
        if secret.None? || secret.value == "" || client.secret != secret { return Some(InvalidClient); }
      }
      error := None;
    }

    /** One transaction under the row lock: read, check, revoke, insert. */
    method RefreshInTx(r: RefreshRequest, newRaw: string) returns (result: TokenResult)
      modifies `refresh, `hist
      ensures (View(), result) == Refresh(old(View()), r, newRaw)
    {
      if r.raw == "" || r.clientId == "" { return Failed(InvalidRequest); }
      var error := AuthenticateClient(r.clientId, r.secret);
      if error.Some? { return Failed(error.value); }
      var h := Hmac(r.raw);
      if h !in refresh { return Failed(InvalidGrant); }
      var stored := refresh[h];
      if stored.revoked {
        refresh := Revoked(refresh, RowsOfSession(refresh, stored.session));
        return Failed(InvalidGrant);
      }
      if stored.expires.Some? && stored.expires.value < now { return Failed(InvalidGrant); }
      var client := clients[r.clientId];
      if stored.client != client.key { return Failed(InvalidGrant); }
      if stored.user !in users || stored.session !in sessions { return Failed(InvalidGrant); }
      if !users[stored.user].enabled { return Failed(InvalidGrant); }
      refresh := Revoked(refresh, {h});
      Issue(Hmac(newRaw), stored.user, client.key, stored.session,
            Store.Issue(FromRefresh(h), r.clientId, "", "", client.key, stored.user, stored.session, client.scopes, now, |hist.issues|));
      result := Issued(newRaw);
    }

    /** `AuthCodeStore::consume`: GET and DEL in one script. */
    method ConsumeCode(code: string) returns (found: Option<Bound>)
      modifies `codes
      ensures View() == old(View()).(codes := codes)
      ensures var k := Sha256(code);
              if code == "" || k !in old(codes) || old(codes)[k].deadline <= now then found.None? && codes == old(codes)
              else codes == old(codes) - {k} && found == if old(codes)[k].expires < now then None else Some(old(codes)[k])
    {
      var k := Sha256(code);
      if code == "" || k !in codes || codes[k].deadline <= now { return None; }
      var stored := codes[k];
      codes := codes - {k};
      if stored.expires < now { return None; }
      found := Some(stored);
    }

    method ExchangeCode(r: CodeRequest, newRaw: string) returns (result: TokenResult)
      modifies `codes, `refresh, `hist
      ensures (View(), result) == RedeemCode(old(View()), r, newRaw)
    {
      if r.code == "" || r.redirect == "" || r.clientId == "" { return Failed(InvalidRequest); }
      var error := AuthenticateClient(r.clientId, r.secret);
      if error.Some? { return Failed(error.value); }
      var found := ConsumeCode(r.code);
      if found.None? { return Failed(InvalidGrant); }
      var b := found.value.binding;
      if found.value.expires < now { return Failed(InvalidGrant); }
      if b.client != r.clientId || b.redirect != r.redirect { return Failed(InvalidGrant); }
      var client := clients[r.clientId];
      if client.pkceRequired || HasChallenge(b.challenge) {
        if r.verifier == "" { return Failed(VerifierRequired); }
        if !PkceVerified(r.verifier, b.challenge, b.challengeMethod) { return Failed(InvalidGrant); }
      }
      if b.user !in users || b.session !in sessions { return Failed(InvalidGrant); }
      Issue(Hmac(newRaw), b.user, client.key, b.session,
            Store.Issue(FromCode(Sha256(r.code)), r.clientId, r.redirect, r.verifier, client.key, b.user, b.session, b.scope, now, |hist.issues|));
      result := Issued(newRaw);
    }

    method UpdateRecord(d: DeviceCodes.Device)
      modifies `devices
      ensures View() == UpdateDevice(old(View()), d)
    {
      if d.deviceCode == "" || d.deviceCode !in devices || devices[d.deviceCode].deadline <= now { return; }
      devices := devices[d.deviceCode := devices[d.deviceCode].(device := d)];
    }

    /** `commits` is the fate of the transaction that follows the status update. */
    method ExchangeDeviceCode(r: DeviceRequest, newRaw: string, commits: bool) returns (result: TokenResult)
      modifies `devices, `refresh, `hist
      ensures (View(), result) == RedeemDevice(old(View()), r, newRaw, commits)
    {
      if r.deviceCode == "" || r.clientId == "" { return Failed(InvalidRequest); }
      var error := AuthenticateClient(r.clientId, r.secret);
      if error.Some? { return Failed(error.value); }
      if r.deviceCode !in devices || devices[r.deviceCode].deadline <= now { return Failed(InvalidGrant); }
      var record := devices[r.deviceCode].device;
      if record.client != r.clientId { return Failed(InvalidGrant); }
      if record.expires < now { return Failed(ExpiredToken); }
      if record.status == "pending" { return Failed(AuthorizationPending); }
      if record.status == "denied" { return Failed(AccessDenied); }
      if record.status != "approved" { return Failed(InvalidGrant); }
      if record.user.None? || record.session.None? { return Failed(InvalidGrant); }
      if record.user.value !in users || record.session.value !in sessions { return Failed(InvalidGrant); }
      UpdateRecord(record.(status := "consumed"));
      if !commits { return Failed(InvalidGrant); }
      var client := clients[r.clientId];
      Issue(Hmac(newRaw), record.user.value, client.key, record.session.value,
            Store.Issue(FromDevice(r.deviceCode), r.clientId, "", "", client.key, record.user.value, record.session.value, record.scope, now, |hist.issues|));
      result := Issued(newRaw);
    }

    method RevokeRow(raw: string, clientId: string, secret: Option<string>)
      modifies `refresh
      ensures View() == Revoke(old(View()), raw, clientId, secret)
    {
      if raw == "" || clientId == "" { return; }
      var error := AuthenticateClient(clientId, secret);
      if error.Some? { return; }
      var h := Hmac(raw);
      if h !in refresh || refresh[h].client != clients[clientId].key { return; }
      refresh := Revoked(refresh, {h});
    }

    method DropExpired()
      modifies `refresh
      ensures View() == Sweep(old(View()))
    {
      refresh := map h | h in refresh && !(refresh[h].expires.Some? && refresh[h].expires.value < now) :: refresh[h];
    }

    method EndEverywhere(sid: SessionId, delOk: bool, reach: Reach)
      modifies `cache, `refresh, `sessions
      ensures View() == Logout(old(View()), sid, delOk, reach)
    {
      refresh := Revoked(refresh, RowsOfSession(refresh, sid));
      var _ := DeleteOne(sid, delOk, reach);
    }

    // --------------------------------------------------------------- authorize flow

    /** `AuthCodeStore::put`: SET NX with the code's lifetime. */
    method IssueCode(code: string, b: Binding, ghost auth: nat, ghost uris: set<string>, ghost consent: Option<string>)
      modifies `codes, `hist
      ensures View() == MintCode(old(View()), code, auth, b, uris, consent)
    {
      var k := Sha256(code);
      if k in codes && now < codes[k].deadline { return; }
      codes := codes[k := Bound(b, now + CODE_TTL, now + CODE_TTL)];
      hist := hist.(mints := hist.mints[k := Mint(auth, now, uris, consent)]);
    }

    /** The gates in the order they are tried, each with its own error. */
    method CheckGates(r: AuthorizeRequest, clientId: string, redirect: string) returns (error: Option<AuthorizeError>)
      ensures error == GateError(View(), r, clientId, redirect)
    {
      if clientId !in clients || !clients[clientId].enabled { return Some(UnknownClient); }
      var client := clients[clientId];
      if redirect !in client.redirectUris { return Some(RedirectNotRegistered); }
      if !Scopes.IsSubsetOf(r.scope, client.scopes) { return Some(InvalidScope); }
      if HasChallenge(r.challenge) {
        if r.challengeMethod.None? || r.challengeMethod.value == "" { return Some(MethodRequired); }
        if r.challengeMethod.value != "S256" { return Some(MethodUnsupported); }
      } else if client.pkceRequired {
        return Some(ChallengeRequired);
      }
      error := None;
    }

    method CheckSession(r: AuthorizeRequest, session: Option<Snapshot>) returns (error: Option<AuthorizeError>)
      ensures error == SessionError(View(), r, session)
    {
      var refusal := if "none" in r.prompts then LoginRequired else InvalidSession;
      if session.None? { return Some(refusal); }
      var age := WholeSeconds(now - session.value.created);
      if "login" in r.prompts && !(age < 10) { return Some(refusal); }
      if r.maxAge.Some? && age > r.maxAge.value { return Some(refusal); }
      error := None;
    }

    method RunGates(r: AuthorizeRequest, code: string, requestId: string, io: CacheIo) returns (result: AuthorizeResult)
      requires Valid()
      modifies `cache, `codes, `pending, `hist
      ensures (View(), result) == Authorize(old(View()), r, code, requestId, io)
    {
      if r.responseType != Some("code") { return Rejected(UnsupportedResponseType); }
      var clientId, redirect := Scopes.Trim(r.clientId.UnwrapOr("")), r.redirect.UnwrapOr("");
      if clientId == "" || redirect == "" { return Rejected(MissingParameter); }
      var session := ReadActiveSession(r.sessionToken, io);
      result := Pass(r, clientId, redirect, session, code, requestId);
    }

    /** What follows the session lookup. */
    method Pass(r: AuthorizeRequest, clientId: string, redirect: string, session: Option<Snapshot>, code: string, requestId: string)
      returns (result: AuthorizeResult)
      modifies `codes, `pending, `hist
      ensures (View(), result) == AuthorizeIn(old(View()), r, clientId, redirect, session, code, requestId)
    {
      var error := CheckSession(r, session);
      if error.Some? { return Rejected(error.value); }
      error := CheckGates(r, clientId, redirect);
      if error.Some? { return Rejected(error.value); }
      var consent := ConsentFor(session.value.user, clientId);
      var consented := "consent" !in r.prompts && Scopes.HasConsent(consent, r.scope);
      result := Grant(r, clientId, redirect, session.value, consented, code, requestId);
    }

    method ConsentFor(u: UserId, clientId: string) returns (consent: Option<string>)
      ensures consent == ConsentOf(View(), u, clientId)
    {
      if clientId !in clients || (u, clients[clientId].key) !in consents { return None; }
      consent := Some(consents[(u, clients[clientId].key)]);
    }

    /** A code at once, or a pending request for the consent page. */
    method Grant(r: AuthorizeRequest, clientId: string, redirect: string, session: Snapshot, consented: bool, code: string, requestId: string)
      returns (result: AuthorizeResult)
      requires clientId in clients
      modifies `codes, `pending, `hist
      ensures (View(), result) == AuthorizePassed(old(View()), r, clientId, redirect, session, consented, code, requestId)
    {
      var b := BindingOf(r, clientId, redirect, session);
      ghost var auth := |hist.auths|;
      if !consented {
        if "none" in r.prompts { return Rejected(ConsentRefused); }
        hist := hist.(auths := hist.auths + [AuthStep(b, clients[clientId], now)]);
        pending := pending[requestId := Bound(b, now + CONSENT_TTL, now + CONSENT_TTL)];
        hist := hist.(asks := hist.asks[requestId := auth]);
        return ConsentRequired(requestId);
      }
      hist := hist.(auths := hist.auths + [AuthStep(b, clients[clientId], now)]);
      IssueCode(code, b, auth, clients[clientId].redirectUris, ConsentOf(View(), session.user, clientId));
      result := Code(code);
    }

    method TakeAndComplete(token: Option<string>, requestId: string, approve: bool, code: string, io: CacheIo) returns (result: AuthorizeResult)
      requires Valid()
      modifies `cache, `codes, `pending, `consents, `hist
      ensures (View(), result) == SubmitConsent(old(View()), token, requestId, approve, code, io)
    {
      var session := ReadActiveSession(token, io);
      result := TakePending(session, requestId, approve, code);
    }

    /** GET and DEL of the pending request, before it is matched against the session. */
    method TakePending(session: Option<Snapshot>, requestId: string, approve: bool, code: string) returns (result: AuthorizeResult)
      modifies `codes, `pending, `consents, `hist
      ensures (View(), result) == ConsentAnswered(old(View()), session, requestId, approve, code)
    {
      if session.None? { return Rejected(InvalidSession); }
      if requestId == "" || requestId !in pending || pending[requestId].deadline <= now { return Rejected(UnknownRequest); }
      var p := pending[requestId];
      pending := pending - {requestId};
      if p.expires < now { return Rejected(UnknownRequest); }
      if session.value.session != p.binding.session { return Rejected(SessionMismatch); }
      if !approve { return Rejected(Denied); }
      var consent := ConsentFor(p.binding.user, p.binding.client);
      var merged := Scopes.MergeGrant(consent, p.binding.scope);
      result := Complete(requestId, p.binding, merged, code);
    }

    method Complete(requestId: string, b: Binding, consent: string, code: string) returns (result: AuthorizeResult)
      modifies `codes, `consents, `hist
      ensures (View(), result) == CompleteAfterConsent(old(View()), requestId, b, consent, code)
    {
      if b.client !in clients || !clients[b.client].enabled { return Rejected(UnknownClient); }
      var client := clients[b.client];
      if b.redirect !in client.redirectUris { return Rejected(RedirectNotRegistered); }
      if b.user !in users { return Rejected(DatabaseError); }
      consents := consents[(b.user, client.key) := consent];
      IssueCode(code, b, if requestId in hist.asks then hist.asks[requestId] else 0, client.redirectUris, Some(consent));
      result := Code(code);
    }

    // ------------------------------------------------------------------ device flow

    /** SET NX on the pointer first; a taken pointer is a collision and nothing is written. */
    method PersistRecord(d: DeviceCodes.Device) returns (persisted: bool)
      modifies `pointers, `devices, `hist
      ensures persisted == PointerFree(old(View()), d.userCode)
      ensures View() == if persisted then PersistDevice(old(View()), d) else old(View())
    {
      var p := DeviceCodes.NormalizeUserCode(d.userCode);
      if p in pointers && now < pointers[p].deadline { return false; }
      pointers := pointers[p := Pointer(d.deviceCode, now + DEVICE_TTL)];
      devices := devices[d.deviceCode := StoredDevice(d, now + DEVICE_TTL)];
      hist := hist.(devices := hist.devices[d.deviceCode := DeviceHistory(d.client, d.userCode, None)]);
      assert View() == PersistDevice(old(View()), d);
      persisted := true;
    }

    method AllocateUserCode(clientId: string, scope: Option<string>, id: nat, deviceCode: string, draws: seq<string>)
      returns (userCode: Option<string>)
      requires |draws| == PERSIST_RETRIES
      modifies `pointers, `devices, `hist
      ensures (View(), userCode) == RequestDevice(old(View()), clientId, scope, id, deviceCode, draws)
    {
      if Scopes.Trim(clientId) == "" { return None; }
      if clientId !in clients || !clients[clientId].enabled { return None; }
      if !Scopes.IsSubsetOf(scope, clients[clientId].scopes) { return None; }
      var record := DeviceCodes.Device(id, deviceCode, "", clientId, scope, "pending", None, None, now + DEVICE_TTL, Some(now));
      var persisted := false;
      var i := 0;
      while i < PERSIST_RETRIES && !persisted
        invariant 0 <= i <= PERSIST_RETRIES
        invariant if persisted then FirstFree(old(View()), draws) == Some(record.userCode) && View() == PersistDevice(old(View()), record)
                  else View() == old(View()) && FirstFree(old(View()), draws) == FirstFree(old(View()), draws[i..])
        invariant record == DeviceCodes.Device(id, deviceCode, record.userCode, clientId, scope, "pending", None, None, now + DEVICE_TTL, Some(now))
      {
        record := record.(userCode := draws[i]);
        persisted := PersistRecord(record);
        assert draws[i..][1..] == draws[i + 1..];
        i := i + 1;
      }
      userCode := if persisted then Some(record.userCode) else None;
    }

    method Decide(userCode: string, token: Option<string>, approve: bool, io: CacheIo) returns (result: VerifyResult)
      requires Valid()
      modifies `cache, `devices, `hist
      ensures (View(), result) == VerifyUserCode(old(View()), userCode, token, approve, io)
    {
      if Scopes.Trim(userCode) == "" { return VerifyMissingCode; }
      var session := ReadActiveSession(token, io);
      if session.None? { return VerifyNoSession; }
      var found := FindRecord(Scopes.Trim(userCode));
      if found.None? { return VerifyUnknown; }
      if found.value.expires < now { return VerifyExpired; }
      if found.value.status != "pending" { return VerifyResolved; }
      ResolveRecord(found.value, session.value, approve);
      result := Verified;
    }

    method FindRecord(userCode: string) returns (found: Option<DeviceCodes.Device>)
      ensures found == FindByUserCode(View(), userCode)
    {
      if userCode == "" { return None; }
      var p := DeviceCodes.NormalizeUserCode(userCode);
      if p !in pointers || pointers[p].deadline <= now { return None; }
      found := LiveRecord(pointers[p].deviceCode);
    }

    method LiveRecord(deviceCode: string) returns (found: Option<DeviceCodes.Device>)
      ensures found == LiveDevice(View(), deviceCode)
    {
      if deviceCode == "" || deviceCode !in devices || devices[deviceCode].deadline <= now { return None; }
      found := Some(devices[deviceCode].device);
    }

    method ResolveRecord(d: DeviceCodes.Device, session: Snapshot, approve: bool)
      modifies `devices, `hist
      ensures View() == Resolve(old(View()), d, session, approve)
    {
      if approve {
        UpdateRecord(d.(status := "approved", user := Some(session.user), session := Some(session.session)));
        if d.deviceCode in hist.devices {
          hist := hist.(devices := hist.devices[d.deviceCode := hist.devices[d.deviceCode].(approved := Some((session.user, session.session)))]);
        }
      } else {
        UpdateRecord(d.(status := "denied"));
      }
    }

    // -------------------------------------------------------------- password resets

    method InsertReset(u: UserId, raw: string)
      modifies `resets, `hist
      ensures View() == RequestReset(old(View()), u, raw)
    {
      if u !in users || !users[u].enabled { return; }
      resets := resets[Hmac(raw) := Reset(u, now + RESET_TTL, false)];
      hist := hist.(resets := hist.resets + {Hmac(raw)});
    }

    method ResetPassword(raw: string, passwordBytes: nat, dels: set<Digest>) returns (result: ResetResult)
      modifies `resets, `cache, `refresh, `sessions
      ensures (View(), result) == ConsumeReset(old(View()), raw, passwordBytes, dels)
    {
      if passwordBytes < 8 { return WeakPassword; }
      if Scopes.Trim(raw) == "" || Hmac(raw) !in resets { return InvalidToken; }
      var reset := resets[Hmac(raw)];
      if reset.consumed || reset.expires < now { return InvalidToken; }
      SpendResets(Hmac(raw), reset.user);
      var aborted := DeleteMany(reset.user, None, dels, Finished);
      result := if aborted then SessionsKept else ResetDone;
    }

    /** `mark_consumed` on the presented token, then `consume_sibling_tokens` on the user's others. */
    method SpendResets(presented: TokenHash, u: UserId)
      requires presented in resets && resets[presented].user == u
      modifies `resets
      ensures View() == ConsumeResets(old(View()), u)
    {
      resets := resets[presented := resets[presented].(consumed := true)];
      resets := map h | h in resets ::
        if resets[h].user == u && h != presented && !resets[h].consumed then resets[h].(consumed := true) else resets[h];
      assert resets == ConsumeResets(old(View()), u).resets;
    }

    // -------------------------------------------------------------------- endpoints

    method Tick(later: Time)
      requires Valid() && now <= later
      modifies `now
      ensures Valid() && View() == old(View()).(now := later)
    {
      TickKeeps(View(), later);
      now := later;
    }

    /** A new user, or a change of an existing one. */
    method PutUser(u: UserId, user: User)
      requires Valid() && (u in hist.users ==> u in users)
      modifies `users, `hist
      ensures Valid() && View() == WithUser(old(View()), u, user)
    {
      WithUserKeeps(View(), u, user);
      users := users[u := user];
      hist := hist.(users := hist.users + {u});
    }

    method PutClient(name: string, client: Client)
      requires Valid() && if name in clients then client.key == clients[name].key else client.key !in hist.clientKeys
      modifies `clients, `hist
      ensures Valid() && View() == WithClient(old(View()), name, client)
    {
      WithClientKeeps(View(), name, client);
      clients := clients[name := client];
      hist := hist.(clientKeys := hist.clientKeys + {client.key});
    }

    method WithdrawConsent(u: UserId, key: ClientKey)
      requires Valid()
      modifies `consents
      ensures Valid() && View() == old(View()).(consents := old(consents) - {(u, key)})
    {
      UnmentionedKeeps(View(), consents - {(u, key)}, resets);
      consents := consents - {(u, key)};
    }

    /** Agrees with the database exactly unless it reads an entry without a row. */
    method FindByToken(token: string, io: CacheIo) returns (hit: Option<Snapshot>)
      requires Valid()
      modifies `cache
      ensures Valid() && (View(), hit) == Flows.FindByToken(old(View()), token, io)
      ensures token != "" ==> (SessionCache.SameSession(hit, DbLookup(old(View()), token)) <==> !(io.read && SessionCache.StaleHit(old(View()), token)))
    {
      FindByTokenKeeps(View(), token, io);
      if token != "" { SessionCache.LookupOk(View(), token, io); }
      hit := ReadSession(token, io);
    }

    /** Accepts a token only for the session it was handed out with, and not after that session's time. */
    method FindActiveSession(token: Option<string>, io: CacheIo) returns (hit: Option<Snapshot>)
      requires Valid()
      modifies `cache
      ensures Valid() && (View(), hit) == FindActive(old(View()), token, io)
      ensures hit.Some? ==> SessionCache.HandedOut(View(), token, hit.value)
    {
      FindActiveKeeps(View(), token, io);
      if FindActive(View(), token, io).1.Some? { SessionCache.AcceptedWasHandedOut(View(), token, io); }
      hit := ReadActiveSession(token, io);
    }

    method CreateSession(u: UserId, sid: SessionId, token: string, write: bool)
      requires Valid() && FreshSession(View(), sid, token)
      modifies `sessions, `cache, `hist
      ensures Valid() && View() == Flows.CreateSession(old(View()), u, sid, token, write)
      ensures u in users ==> sid in sessions && sessions[sid] == Session(u, token, Some(now + SESSION_TTL), now)
    {
      CreateSessionKeeps(View(), u, sid, token, write);
      InsertSession(u, sid, token, write);
    }

    /** A failed DEL changes nothing; a finished delete ends the session in both stores. */
    method Delete(sid: SessionId, delOk: bool, reach: Reach) returns (aborted: bool)
      requires Valid()
      modifies `cache, `refresh, `sessions
      ensures Valid() && View() == DeleteSession(old(View()), sid, delOk, reach)
      ensures aborted == (sid in old(sessions) && !delOk) && (aborted ==> View() == old(View()))
      ensures !aborted && sid in old(sessions) && reach.Finished? ==>
                && sessions == old(sessions) - {sid} && refresh == old(refresh) - RowsOfSession(old(refresh), sid)
                && SessionCache.Gone(View(), sid)
    {
      DeleteSessionKeeps(View(), sid, delOk, reach);
      if sid in sessions { SessionEnds.DeleteSessionExact(View(), sid, delOk, reach); }
      aborted := DeleteOne(sid, delOk, reach);
    }

    /** A failed DEL changes no row; a finished delete removes exactly the user's sessions but the kept one,
        exactly their cache entries and exactly their refresh rows. */
    method DeleteAllByUserId(u: UserId, keep: Option<SessionId>, dels: set<Digest>, reach: Reach) returns (aborted: bool)
      requires Valid()
      modifies `cache, `refresh, `sessions
      ensures Valid() && View() == DeleteAll(old(View()), u, keep, dels, reach)
      ensures aborted == !(CacheKeys(old(sessions), SessionsOfUser(old(sessions), u, keep)) <= dels)
      ensures aborted ==> View() == old(View()).(cache := cache)
      ensures var targets := SessionsOfUser(old(sessions), u, keep);
              !aborted && reach.Finished? ==>
                && sessions == old(sessions) - targets
                && refresh == old(refresh) - (set h | h in old(refresh) && old(refresh)[h].session in targets)
                && forall k | k in old(cache) :: k in cache <==> old(cache)[k].snap.session !in targets
    {
      DeleteAllKeeps(View(), u, keep, dels, reach);
      SessionEnds.DeleteAllExact(View(), u, keep, dels, reach);
      aborted := DeleteMany(u, keep, dels, reach);
    }

    /** Keeps the cache coherent exactly when every entry of the user is deleted. */
    method RemoveUser(u: UserId, dels: set<Digest>)
      requires Valid()
      modifies `cache, `refresh, `sessions, `users, `resets, `consents
      ensures Valid() && View() == DeleteUser(old(View()), u, dels)
      ensures old(SessionCache.Coherent(View())) ==>
                (SessionCache.Coherent(View()) <==> forall k | k in old(cache) && old(cache)[k].snap.user == u :: k in dels)
    {
      DeleteUserKeeps(View(), u, dels);
      if SessionCache.Coherent(View()) { SessionCache.RemovalExact(View(), u, dels); }
      DropEverywhere(u, dels);
    }

    /** Succeeds exactly for a redeemable token, and then rotates it and nothing else. */
    method FromRefreshToken(r: RefreshRequest, newRaw: string) returns (result: TokenResult)
      requires Valid() && Hmac(newRaw) !in hist.issues
      modifies `refresh, `hist
      ensures Valid() && (View(), result) == Refresh(old(View()), r, newRaw)
      ensures result.Issued? <==> Lineage.Redeemable(old(View()), r)
      ensures result.Issued? ==> Lineage.RotatedTo(old(View()), View(), Hmac(r.raw), Hmac(newRaw))
    {
      RefreshKeeps(View(), r, newRaw);
      Lineage.RefreshExact(View(), r, newRaw);
      result := RefreshInTx(r, newRaw);
    }

    /** The tokens carry what the authorize request behind the code was bound to, and the code is gone. */
    method FromAuthorizationCode(r: CodeRequest, newRaw: string) returns (result: TokenResult)
      requires Valid() && Hmac(newRaw) !in hist.issues
      modifies `codes, `refresh, `hist
      ensures Valid() && (View(), result) == RedeemCode(old(View()), r, newRaw)
      ensures result.Issued? ==> CodeTrace.Justified(View(), Hmac(newRaw), Sha256(r.code))
    {
      RedeemCodeKeeps(View(), r, newRaw);
      CodeTrace.SuccessJustified(View(), r, newRaw);
      result := ExchangeCode(r, newRaw);
    }

    /** The tokens are for the user and session that approved the device code, which is consumed. */
    method FromDeviceCode(r: DeviceRequest, newRaw: string, commits: bool) returns (result: TokenResult)
      requires Valid() && Hmac(newRaw) !in hist.issues
      modifies `devices, `refresh, `hist
      ensures Valid() && (View(), result) == RedeemDevice(old(View()), r, newRaw, commits)
      ensures result.Issued? ==> DeviceGrant.Justified(View(), Hmac(newRaw), r.deviceCode)
    {
      RedeemDeviceKeeps(View(), r, newRaw, commits);
      DeviceGrant.SuccessJustified(View(), r, newRaw, commits);
      result := ExchangeDeviceCode(r, newRaw, commits);
    }

    /** Kills exactly the presented token, and only for the authenticated client that owns it. */
    method RevokeToken(raw: string, clientId: string, secret: Option<string>)
      requires Valid()
      modifies `refresh
      ensures Valid() && View() == Revoke(old(View()), raw, clientId, secret)
      ensures forall h :: Lineage.Live(View(), h) <==>
                old(Lineage.Live(View(), h)) && !(h == Hmac(raw) && old(SessionEnds.MayRevoke(View(), raw, clientId, secret)))
    {
      ghost var s := View();
      RevokeKeeps(s, raw, clientId, secret);
      forall h
        ensures Lineage.Live(Revoke(s, raw, clientId, secret), h) <==> Lineage.Live(s, h) && !(h == Hmac(raw) && SessionEnds.MayRevoke(s, raw, clientId, secret))
      {
        SessionEnds.RevokeExact(s, raw, clientId, secret, h);
      }
      RevokeRow(raw, clientId, secret);
    }

    /** Removes exactly the rows of tokens past their thirty days; no other row changes. */
    method SweepOnce()
      requires Valid()
      modifies `refresh
      ensures Valid()
      ensures forall h | h in hist.issues :: h in refresh <==> h in old(refresh) && now <= hist.issues[h].at + REFRESH_TTL
      ensures forall h | h in refresh :: h in old(refresh) && refresh[h] == old(refresh)[h]
    {
      ghost var s := View();
      SweepKeeps(s);
      forall h | h in s.hist.issues
        ensures h in Sweep(s).refresh <==> h in s.refresh && s.now <= s.hist.issues[h].at + REFRESH_TTL
      {
        SessionEnds.SweepExact(s, h);
      }
      DropExpired();
    }

    /** No refresh token of the session is live afterwards, whatever becomes of the session delete. */
    method LogOut(sid: SessionId, delOk: bool, reach: Reach)
      requires Valid()
      modifies `cache, `refresh, `sessions
      ensures Valid() && View() == Logout(old(View()), sid, delOk, reach)
      ensures Lineage.LiveTokens(View(), sid) == {}
    {
      LogoutKeeps(View(), sid, delOk, reach);
      SessionEnds.LogoutRevokes(View(), sid, delOk, reach);
      EndEverywhere(sid, delOk, reach);
    }

    /** A code, the consent page or a refusal: exactly which. */
    method AskForCode(r: AuthorizeRequest, code: string, requestId: string, io: CacheIo) returns (result: AuthorizeResult)
      requires Valid() && Sha256(code) !in hist.mints && requestId !in hist.asks
      modifies `cache, `codes, `pending, `hist
      ensures Valid() && (View(), result) == Authorize(old(View()), r, code, requestId, io)
      ensures result.Code? <==> HonestRuns.Passes(old(View()), r, io) && HonestRuns.Consented(old(View()), r, io)
      ensures result.ConsentRequired? <==> HonestRuns.Passes(old(View()), r, io) && !HonestRuns.Consented(old(View()), r, io) && "none" !in r.prompts
    {
      AuthorizeKeeps(View(), r, code, requestId, io);
      HonestRuns.AuthorizeExact(View(), r, code, requestId, io);
      result := RunGates(r, code, requestId, io);
    }

    /** A code exactly for an approved request that waits for this session and is still good. */
    method AnswerConsent(token: Option<string>, requestId: string, approve: bool, code: string, io: CacheIo) returns (result: AuthorizeResult)
      requires Valid() && Sha256(code) !in hist.mints
      modifies `cache, `codes, `pending, `consents, `hist
      ensures Valid() && (View(), result) == SubmitConsent(old(View()), token, requestId, approve, code, io)
      ensures result.Code? <==>
                approve && HonestRuns.Waiting(old(View()), FindActive(old(View()), token, io).1, requestId)
                && HonestRuns.StillGood(old(View()), old(pending)[requestId].binding)
      ensures result.Code? ==> HonestRuns.Granted(old(View()), View(), requestId, code)
    {
      SubmitConsentKeeps(View(), token, requestId, approve, code, io);
      HonestRuns.AnswerExact(View(), token, requestId, approve, code, io);
      result := TakeAndComplete(token, requestId, approve, code, io);
    }

    /** Gives the first drawn code whose pointer is free, and disturbs no record that a code could find. */
    method RequestDeviceAuthorization(clientId: string, scope: Option<string>, id: nat, deviceCode: string, draws: seq<string>)
      returns (userCode: Option<string>)
      requires Valid() && deviceCode !in hist.devices && deviceCode != "" && |draws| == PERSIST_RETRIES
      modifies `pointers, `devices, `hist
      ensures Valid() && (View(), userCode) == RequestDevice(old(View()), clientId, scope, id, deviceCode, draws)
      ensures forall typed | typed != "" && FindByUserCode(old(View()), typed).Some? :: FindByUserCode(View(), typed) == FindByUserCode(old(View()), typed)
    {
      ghost var s := View();
      RequestDeviceKeeps(s, clientId, scope, id, deviceCode, draws);
      DeviceGrant.RequestSpares(s, clientId, scope, id, deviceCode, draws);
      userCode := AllocateUserCode(clientId, scope, id, deviceCode, draws);
    }

    /** Decides a pending record whose own code has the typed normal form. */
    method Verify(userCode: string, token: Option<string>, approve: bool, io: CacheIo) returns (result: VerifyResult)
      requires Valid()
      modifies `cache, `devices, `hist
      ensures Valid() && (View(), result) == VerifyUserCode(old(View()), userCode, token, approve, io)
      ensures result.Verified? ==> DeviceGrant.Decided(old(View()), View(), Scopes.Trim(userCode), FindActive(old(View()), token, io).1, approve)
    {
      VerifyKeeps(View(), userCode, token, approve, io);
      DeviceGrant.VerifyDecides(View(), userCode, token, approve, io);
      result := Decide(userCode, token, approve, io);
    }

    method AskReset(u: UserId, raw: string)
      requires Valid() && Hmac(raw) !in hist.resets
      modifies `resets, `hist
      ensures Valid() && View() == RequestReset(old(View()), u, raw)
    {
      RequestResetKeeps(View(), u, raw);
      InsertReset(u, raw);
    }

    /** Done means: no session of the user in either store, no refresh row, no unconsumed reset token. */
    method UseReset(raw: string, passwordBytes: nat, dels: set<Digest>) returns (result: ResetResult)
      requires Valid()
      modifies `resets, `cache, `refresh, `sessions
      ensures Valid() && (View(), result) == ConsumeReset(old(View()), raw, passwordBytes, dels)
      ensures result.ResetDone? ==> Hmac(raw) in old(resets) && PasswordReset.Cleared(View(), old(resets)[Hmac(raw)].user)
    {
      ConsumeResetKeeps(View(), raw, passwordBytes, dels);
      if ConsumeReset(View(), raw, passwordBytes, dels).1.ResetDone? { PasswordReset.ResetClears(View(), raw, passwordBytes, dels); }
      result := ResetPassword(raw, passwordBytes, dels);
    }
  }
}
