/** When the flows succeed, exactly: what a client, a user and a device that play by the rules obtain. */
module HonestRuns {
  import opened Base
  import opened Store
  import opened Flows
  import opened Invariants
  import opened Machine
  import Scopes
  import DeviceCodes

  // --------------------------------------------------------------------- code grant

  /** In terms of the authorize request behind the code: an exchange succeeds exactly when the code is still
      stored and unexpired, the same client presents the same redirect URI and authenticates, the verifier is
      the one behind the challenge (or there was no challenge and the client does not demand one now), and
      the session of the request still exists. */
  lemma ExchangeExact(s: State, r: CodeRequest, newRaw: string)
    requires Inv(s) && Sha256(r.code) in s.codes
    ensures var k := Sha256(r.code);
            && k in s.hist.mints && s.hist.mints[k].auth < |s.hist.auths|
            && var m := s.hist.mints[k]; var b := s.hist.auths[m.auth].binding;
               RedeemCode(s, r, newRaw).1.Issued? <==>
                 && r.code != "" && r.redirect != "" && r.clientId != "" && ClientError(s, r.clientId, r.secret).None?
                 && s.now < m.at + CODE_TTL && r.clientId == b.client && r.redirect == b.redirect
                 && (if HasChallenge(b.challenge) then r.verifier != "" && b.challenge == Some(S256Of(r.verifier)) else !s.clients[r.clientId].pkceRequired)
                 && b.session in s.sessions
  {
    var k := Sha256(r.code);
    CodeFacts(s, k);
    var b := s.codes[k].binding;
    assert b.session in s.sessions ==> SessionOk(b.session, s.users, s.sessions, s.hist.born);
  }

  // ------------------------------------------------------------------- device grant

  /** A device code redeems exactly when its record is still stored and unexpired, somebody approved it, it
      was not redeemed before, the same client authenticates, and the approving session still exists. */
  lemma DeviceExact(s: State, r: DeviceRequest, newRaw: string)
    requires Inv(s) && r.deviceCode in s.devices
    ensures r.deviceCode in s.hist.devices
    ensures var past, d := s.hist.devices[r.deviceCode], s.devices[r.deviceCode];
            RedeemDevice(s, r, newRaw, true).1.Issued? <==>
              && r.deviceCode != "" && r.clientId != "" && ClientError(s, r.clientId, r.secret).None?
              && s.now < d.deadline && s.now <= d.device.expires && past.client == r.clientId
              && past.approved.Some? && d.device.status != "consumed" && d.device.status != "denied"
              && past.approved.value.1 in s.sessions
  {
    var d := s.devices[r.deviceCode].device;
    assert DeviceOk(r.deviceCode, d, s.hist.devices);
    var past := s.hist.devices[r.deviceCode];
    assert PastOk(past, s.hist.born);
    if past.approved.Some? && past.approved.value.1 in s.sessions {
      assert SessionOk(past.approved.value.1, s.users, s.sessions, s.hist.born);
    }
  }

  // ---------------------------------------------------------------------- authorize

  /** The client row admits the request: enabled, URI registered, scopes within its own, S256 or nothing, and
      not nothing where it demands PKCE. */
  predicate Admits(client: Client, r: AuthorizeRequest, redirect: string) {
    && client.enabled && redirect in client.redirectUris && Scopes.IsSubsetOf(r.scope, client.scopes)
    && (HasChallenge(r.challenge) ==> r.challengeMethod == Some("S256"))
    && (client.pkceRequired ==> HasChallenge(r.challenge))
  }

  predicate FreshEnough(now: Time, r: AuthorizeRequest, session: Snapshot) {
    var age := WholeSeconds(now - session.created);
    ("login" in r.prompts ==> age < 10) && (r.maxAge.Some? ==> age <= r.maxAge.value)
  }

  ghost predicate Passes(s: State, r: AuthorizeRequest, io: CacheIo) {
    var clientId, redirect := Scopes.Trim(r.clientId.UnwrapOr("")), r.redirect.UnwrapOr("");
    var session := FindActive(s, r.sessionToken, io).1;
    && r.responseType == Some("code") && clientId != "" && redirect != "" && session.Some? && FreshEnough(s.now, r, session.value)
    && clientId in s.clients && Admits(s.clients[clientId], r, redirect)
  }

  ghost predicate Consented(s: State, r: AuthorizeRequest, io: CacheIo)
    requires Passes(s, r, io)
  {
    var clientId := Scopes.Trim(r.clientId.UnwrapOr(""));
    "consent" !in r.prompts && Scopes.HasConsent(ConsentOf(s, FindActive(s, r.sessionToken, io).1.value.user, clientId), r.scope)
  }

  lemma GatesExact(s: State, r: AuthorizeRequest, clientId: string, redirect: string, session: Option<Snapshot>)
    ensures GateError(s, r, clientId, redirect).None? <==> clientId in s.clients && Admits(s.clients[clientId], r, redirect)
    ensures SessionError(s, r, session).None? <==> session.Some? && FreshEnough(s.now, r, session.value)
  {
  }

  /** A code, the consent page or a refusal: which one, exactly. */
  lemma AuthorizeExact(s: State, r: AuthorizeRequest, code: string, requestId: string, io: CacheIo)
    ensures var result := Authorize(s, r, code, requestId, io).1;
            && (result.Code? <==> Passes(s, r, io) && Consented(s, r, io))
            && (result.ConsentRequired? <==> Passes(s, r, io) && !Consented(s, r, io) && "none" !in r.prompts)
  {
    var (t, session) := FindActive(s, r.sessionToken, io);
    FindActiveFrame(s, r.sessionToken, io);
    GatesExact(t, r, Scopes.Trim(r.clientId.UnwrapOr("")), r.redirect.UnwrapOr(""), session);
  }

  // ------------------------------------------------------------------------ consent

  /** The pending request is there and in time, and the answering session is the one it was made in. */
  predicate Waiting(s: State, session: Option<Snapshot>, requestId: string) {
    && session.Some? && requestId != "" && requestId in s.pending
    && s.now < s.pending[requestId].deadline && s.now <= s.pending[requestId].expires
    && session.value.session == s.pending[requestId].binding.session
  }

  /** Client, redirect URI and user are still as they were at the request. */
  predicate StillGood(s: State, b: Binding) {
    b.client in s.clients && s.clients[b.client].enabled && b.redirect in s.clients[b.client].redirectUris && b.user in s.users
  }

  /** The consent row covers what it covered before and the scope asked for, and nothing else. */
  ghost predicate Merged(after: Option<string>, before: Option<string>, scope: Option<string>) {
    after.Some? && Scopes.Parse(after) == Scopes.Parse(before) + Scopes.Parse(scope)
  }

  lemma GrantMerges(row: Option<string>, scope: Option<string>)
    ensures Merged(Some(Scopes.Granted(row, scope)), row, scope)
  {
    Scopes.GrantedParses(row, scope);
  }

  /** The request is gone, its scope is granted, and the code is stored with its binding. */
  ghost predicate Granted(s: State, t: State, requestId: string, code: string)
    requires requestId in s.pending
  {
    var b := s.pending[requestId].binding;
    && requestId !in t.pending && t.codes == s.codes[Sha256(code) := Bound(b, s.now + CODE_TTL, s.now + CODE_TTL)]
    && Merged(ConsentOf(t, b.user, b.client), ConsentOf(s, b.user, b.client), b.scope)
  }

  /** An answer yields a code exactly when it approves a waiting request that is still good, and then grants it. */
  lemma AnswerExact(s: State, token: Option<string>, requestId: string, approve: bool, code: string, io: CacheIo)
    requires Inv(s) && Sha256(code) !in s.hist.mints
    ensures var (t, result) := SubmitConsent(s, token, requestId, approve, code, io);
            && (result.Code? <==> approve && Waiting(s, FindActive(s, token, io).1, requestId) && StillGood(s, s.pending[requestId].binding))
            && (result.Code? ==> Granted(s, t, requestId, code))
  {
    var (mid, session) := FindActive(s, token, io);
    FindActiveFrame(s, token, io);
    CodeIsFree(s, code);
    AnsweredExact(mid, session, requestId, approve, code);
    OnlyCacheDiffers(s, mid, session, requestId, code, SubmitConsent(s, token, requestId, approve, code, io).0);
  }

  lemma AnsweredExact(s: State, session: Option<Snapshot>, requestId: string, approve: bool, code: string)
    requires Sha256(code) !in s.codes
    ensures var (t, result) := ConsentAnswered(s, session, requestId, approve, code);
            && (result.Code? <==> approve && Waiting(s, session, requestId) && StillGood(s, s.pending[requestId].binding))
            && (result.Code? ==> Granted(s, t, requestId, code))
  {
    AnsweredIs(s, session, requestId, approve, code);
    if Waiting(s, session, requestId) { AnswerGrants(s, requestId, code); }
  }

  lemma OnlyCacheDiffers(s: State, mid: State, session: Option<Snapshot>, requestId: string, code: string, t: State)
    requires mid == s.(cache := mid.cache)
    ensures Waiting(mid, session, requestId) <==> Waiting(s, session, requestId)
    ensures requestId in s.pending ==> (StillGood(mid, s.pending[requestId].binding) <==> StillGood(s, s.pending[requestId].binding))
    ensures requestId in s.pending ==> (Granted(mid, t, requestId, code) <==> Granted(s, t, requestId, code))
  {
    if requestId in s.pending {
      var b := s.pending[requestId].binding;
      assert ConsentOf(mid, b.user, b.client) == ConsentOf(s, b.user, b.client);
    }
  }

  lemma CodeIsFree(s: State, code: string)
    requires Inv(s) && Sha256(code) !in s.hist.mints
    ensures Sha256(code) !in s.codes
  {
    assert Sha256(code) in s.codes ==> CodeOk(Sha256(code), s.codes[Sha256(code)], s.hist.auths, s.hist.mints);
  }

  /** What an approved waiting request is completed with. */
  function Completed(s: State, requestId: string, code: string): (State, AuthorizeResult)
    requires requestId in s.pending
  {
    var b := s.pending[requestId].binding;
    CompleteAfterConsent(s.(pending := s.pending - {requestId}), requestId, b, Scopes.Granted(ConsentOf(s, b.user, b.client), b.scope), code)
  }

  lemma AnsweredIs(s: State, session: Option<Snapshot>, requestId: string, approve: bool, code: string)
    ensures if approve && Waiting(s, session, requestId) then ConsentAnswered(s, session, requestId, approve, code) == Completed(s, requestId, code)
            else !ConsentAnswered(s, session, requestId, approve, code).1.Code?
  {
    if requestId in s.pending {
      var b := s.pending[requestId].binding;
      assert ConsentOf(s.(pending := s.pending - {requestId}), b.user, b.client) == ConsentOf(s, b.user, b.client);
    }
  }

  lemma AnswerGrants(s: State, requestId: string, code: string)
    requires requestId in s.pending && Sha256(code) !in s.codes
    ensures Completed(s, requestId, code).1.Code? <==> StillGood(s, s.pending[requestId].binding)
    ensures StillGood(s, s.pending[requestId].binding) ==> Granted(s, Completed(s, requestId, code).0, requestId, code)
  {
    var b := s.pending[requestId].binding;
    var row := ConsentOf(s, b.user, b.client);
    GrantMerges(row, b.scope);
    CompleteExact(s.(pending := s.pending - {requestId}), requestId, b, Scopes.Granted(row, b.scope), code);
  }

  lemma CompleteExact(s: State, requestId: string, b: Binding, consent: string, code: string)
    requires Sha256(code) !in s.codes
    ensures var (t, result) := CompleteAfterConsent(s, requestId, b, consent, code);
            && (result.Code? <==> StillGood(s, b))
            && (result.Code? ==>
                && t.pending == s.pending && t.codes == s.codes[Sha256(code) := Bound(b, s.now + CODE_TTL, s.now + CODE_TTL)]
                && ConsentOf(t, b.user, b.client) == Some(consent))
  {
  }

  // ------------------------------------------------------------------------- resets

  /** A reset token works from its request by an enabled user until thirty minutes later, for that user. */
  lemma ResetUsable(s: State, u: UserId, raw: string, later: Time)
    requires Inv(s) && Hmac(raw) !in s.hist.resets && s.now <= later
    ensures var usable := UsableReset(RequestReset(s, u, raw).(now := later), raw);
            && (usable.Some? <==> Scopes.Trim(raw) != "" && u in s.users && s.users[u].enabled && later <= s.now + RESET_TTL)
            && (usable.Some? ==> usable.value.user == u)
  {
    assert Hmac(raw) !in s.resets;
    FreshResetUsable(s, u, raw, later, Scopes.Trim(raw) == "");
  }

  lemma FreshResetUsable(s: State, u: UserId, raw: string, later: Time, blank: bool)
    requires Hmac(raw) !in s.resets && blank == (Scopes.Trim(raw) == "")
    ensures UsableReset(RequestReset(s, u, raw).(now := later), raw)
            == if !blank && u in s.users && s.users[u].enabled && later <= s.now + RESET_TTL then Some(Reset(u, s.now + RESET_TTL, false)) else None
  {
    if u in s.users && s.users[u].enabled {
      assert RequestReset(s, u, raw).resets == s.resets[Hmac(raw) := Reset(u, s.now + RESET_TTL, false)];
    } else {
      assert RequestReset(s, u, raw) == s;
    }
  }

  // --------------------------------------------------------------------- round trips

  /** What a directly granted request leaves stored. */
  lemma CodeStored(s: State, r: AuthorizeRequest, code: string, requestId: string, io: CacheIo)
    requires Inv(s) && Sha256(code) !in s.hist.mints && Authorize(s, r, code, requestId, io).1.Code?
    ensures FindActive(s, r.sessionToken, io).1.Some?
    ensures var t := Authorize(s, r, code, requestId, io).0;
            var b := BindingOf(r, Scopes.Trim(r.clientId.UnwrapOr("")), r.redirect.UnwrapOr(""), FindActive(s, r.sessionToken, io).1.value);
            && Sha256(code) in t.codes && t.codes[Sha256(code)] == Bound(b, s.now + CODE_TTL, s.now + CODE_TTL)
            && t.now == s.now && t.clients == s.clients && t.sessions == s.sessions && t.users == s.users && t.hist.issues == s.hist.issues
  {
    var clientId, redirect := Scopes.Trim(r.clientId.UnwrapOr("")), r.redirect.UnwrapOr("");
    var (mid, session) := FindActive(s, r.sessionToken, io);
    FindActiveFrame(s, r.sessionToken, io);
    if Sha256(code) in s.codes { CodeFacts(s, Sha256(code)); }
    StoredIn(mid, r, clientId, redirect, session, code, requestId);
  }

  lemma StoredIn(s: State, r: AuthorizeRequest, clientId: string, redirect: string, session: Option<Snapshot>, code: string, requestId: string)
    requires Sha256(code) !in s.codes && AuthorizeIn(s, r, clientId, redirect, session, code, requestId).1.Code?
    ensures session.Some?
    ensures var t := AuthorizeIn(s, r, clientId, redirect, session, code, requestId).0;
            && Sha256(code) in t.codes
            && t.codes[Sha256(code)] == Bound(BindingOf(r, clientId, redirect, session.value), s.now + CODE_TTL, s.now + CODE_TTL)
            && t.now == s.now && t.clients == s.clients && t.sessions == s.sessions && t.users == s.users && t.hist.issues == s.hist.issues
  {
  }

  /** The request the honest client sends back for its code. */
  function ReturnTrip(r: AuthorizeRequest, code: string, secret: Option<string>, verifier: string): CodeRequest {
    CodeRequest(code, r.redirect.UnwrapOr(""), Scopes.Trim(r.clientId.UnwrapOr("")), secret, verifier)
  }

  /** An unrevoked row of the user and session, recorded with the scope. */
  ghost predicate TokenFor(s: State, hash: TokenHash, user: UserId, session: SessionId, scope: Option<string>) {
    && hash in s.hist.issues && hash in s.refresh && !s.refresh[hash].revoked
    && s.refresh[hash].user == user && s.refresh[hash].session == session && s.hist.issues[hash].scope == scope
  }

  /** A directly granted request round-trips: its client, with its secret and the verifier behind its
      challenge, gets tokens for exactly the request's user, session and scope, as long as the session's row
      is there. */
  lemma CodeRoundTrip(s: State, r: AuthorizeRequest, code: string, requestId: string, io: CacheIo, secret: Option<string>, verifier: string, newRaw: string)
    requires Inv(s) && code != "" && Sha256(code) !in s.hist.mints && requestId !in s.hist.asks
    requires Authorize(s, r, code, requestId, io).1.Code?
    requires ClientError(s, Scopes.Trim(r.clientId.UnwrapOr("")), secret).None?
    requires HasChallenge(r.challenge) ==> verifier != "" && r.challenge == Some(S256Of(verifier))
    ensures FindActive(s, r.sessionToken, io).1.Some?
    ensures var snap := FindActive(s, r.sessionToken, io).1.value;
            var (u, result) := RedeemCode(Authorize(s, r, code, requestId, io).0, ReturnTrip(r, code, secret, verifier), newRaw);
            && (result.Issued? <==> snap.session in s.sessions)
            && (result.Issued? ==> result == Issued(newRaw) && TokenFor(u, Hmac(newRaw), snap.user, snap.session, r.scope))
  {
    CodeReady(s, r, code, requestId, io, secret);
    StoredRedeems(Authorize(s, r, code, requestId, io).0, r, code, FindActive(s, r.sessionToken, io).1.value, secret, verifier, newRaw);
  }

  /** Everything the request asked for is behind the code, for a client that can still authenticate. */
  ghost predicate Redeems(t: State, r: AuthorizeRequest, code: string, snap: Snapshot, secret: Option<string>) {
    var clientId := Scopes.Trim(r.clientId.UnwrapOr(""));
    && Inv(t) && Sha256(code) in t.codes && r.redirect.UnwrapOr("") != "" && clientId != ""
    && t.codes[Sha256(code)] == Bound(BindingOf(r, clientId, r.redirect.UnwrapOr(""), snap), t.now + CODE_TTL, t.now + CODE_TTL)
    && ClientError(t, clientId, secret).None?
    && clientId in t.clients && Admits(t.clients[clientId], r, r.redirect.UnwrapOr(""))
  }

  lemma CodeReady(s: State, r: AuthorizeRequest, code: string, requestId: string, io: CacheIo, secret: Option<string>)
    requires Inv(s) && code != "" && Sha256(code) !in s.hist.mints && requestId !in s.hist.asks
    requires Authorize(s, r, code, requestId, io).1.Code?
    requires ClientError(s, Scopes.Trim(r.clientId.UnwrapOr("")), secret).None?
    ensures var (t, snap) := (Authorize(s, r, code, requestId, io).0, FindActive(s, r.sessionToken, io).1);
            snap.Some? && Redeems(t, r, code, snap.value, secret) && t.sessions == s.sessions
  {
    var t := Authorize(s, r, code, requestId, io).0;
    DirectlyAdmitted(s, r, code, requestId, io);
    CodeStored(s, r, code, requestId, io);
    AuthorizeKeeps(s, r, code, requestId, io);
    SameClients(s, t, Scopes.Trim(r.clientId.UnwrapOr("")), secret);
  }

  lemma DirectlyAdmitted(s: State, r: AuthorizeRequest, code: string, requestId: string, io: CacheIo)
    requires Authorize(s, r, code, requestId, io).1.Code?
    ensures var clientId := Scopes.Trim(r.clientId.UnwrapOr(""));
            clientId != "" && r.redirect.UnwrapOr("") != "" && clientId in s.clients && Admits(s.clients[clientId], r, r.redirect.UnwrapOr(""))
  {
    AuthorizeExact(s, r, code, requestId, io);
  }

  lemma SameClients(s: State, t: State, clientId: string, secret: Option<string>)
    requires t.clients == s.clients
    ensures ClientError(t, clientId, secret) == ClientError(s, clientId, secret)
  {
  }

  lemma StoredRedeems(t: State, r: AuthorizeRequest, code: string, snap: Snapshot, secret: Option<string>, verifier: string, newRaw: string)
    requires code != "" && Redeems(t, r, code, snap, secret)
    requires HasChallenge(r.challenge) ==> verifier != "" && r.challenge == Some(S256Of(verifier))
    ensures var (u, result) := RedeemCode(t, ReturnTrip(r, code, secret, verifier), newRaw);
            && (result.Issued? <==> snap.session in t.sessions)
            && (result.Issued? ==> result == Issued(newRaw) && TokenFor(u, Hmac(newRaw), snap.user, snap.session, r.scope))
  {
    var back := ReturnTrip(r, code, secret, verifier);
    CodeFacts(t, Sha256(code));
    ExchangeExact(t, back, newRaw);
    RedeemedRow(t, back, newRaw);
  }

  lemma RedeemedRow(t: State, r: CodeRequest, newRaw: string)
    ensures var (u, result) := RedeemCode(t, r, newRaw);
            result.Issued? ==>
              && result == Issued(newRaw) && Sha256(r.code) in t.codes
              && var b := t.codes[Sha256(r.code)].binding; TokenFor(u, Hmac(newRaw), b.user, b.session, b.scope)
  {
  }

  /** What resolving a live pending record leaves stored. */
  lemma ResolvedRecord(s: State, d: DeviceCodes.Device, session: Snapshot, approve: bool)
    requires LiveDevice(s, d.deviceCode) == Some(d) && d.deviceCode in s.hist.devices
    ensures var t := Resolve(s, d, session, approve);
            && d.deviceCode in t.devices && t.devices[d.deviceCode].deadline == s.devices[d.deviceCode].deadline
            && t.devices[d.deviceCode].device.status == (if approve then "approved" else "denied")
            && t.devices[d.deviceCode].device.expires == d.expires
            && t.now == s.now && t.clients == s.clients && t.sessions == s.sessions
            && (approve ==> d.deviceCode in t.hist.devices && t.hist.devices[d.deviceCode]
                            == s.hist.devices[d.deviceCode].(approved := Some((session.user, session.session))))
  {
    if approve {
      UpdatedRecord(s, d.(status := "approved", user := Some(session.user), session := Some(session.session)));
      ApprovedIs(s, d, session);
    } else {
      UpdatedRecord(s, d.(status := "denied"));
    }
  }

  lemma ApprovedIs(s: State, d: DeviceCodes.Device, session: Snapshot)
    requires LiveDevice(s, d.deviceCode) == Some(d) && d.deviceCode in s.hist.devices
    ensures var after := d.(status := "approved", user := Some(session.user), session := Some(session.session));
            Resolve(s, d, session, true)
            == s.(devices := s.devices[d.deviceCode := s.devices[d.deviceCode].(device := after)],
                  hist := s.hist.(devices := s.hist.devices[d.deviceCode := s.hist.devices[d.deviceCode].(approved := Some((session.user, session.session)))]))
  {
    UpdatedRecord(s, d.(status := "approved", user := Some(session.user), session := Some(session.session)));
  }

  lemma UpdatedRecord(s: State, d: DeviceCodes.Device)
    requires LiveDevice(s, d.deviceCode).Some?
    ensures UpdateDevice(s, d) == s.(devices := s.devices[d.deviceCode := s.devices[d.deviceCode].(device := d)])
  {
  }

  /** A pending record that the signed-in user approves redeems for its client at once, exactly when the
      approving session's row is there; one that the user denies does not. */
  lemma DeviceRoundTrip(s: State, userCode: string, token: Option<string>, approve: bool, io: CacheIo, r: DeviceRequest, newRaw: string)
    requires Inv(s) && Scopes.Trim(userCode) != "" && FindActive(s, token, io).1.Some? && FindByUserCode(s, Scopes.Trim(userCode)).Some?
    requires var d := FindByUserCode(s, Scopes.Trim(userCode)).value;
             d.status == "pending" && s.now <= d.expires && r.deviceCode == d.deviceCode && r.clientId == d.client
    requires r.clientId != "" && ClientError(s, r.clientId, r.secret).None?
    ensures var (t, verified) := VerifyUserCode(s, userCode, token, approve, io);
            && verified == Verified
            && (RedeemDevice(t, r, newRaw, true).1.Issued? <==> approve && FindActive(s, token, io).1.value.session in s.sessions)
  {
    var d := FindByUserCode(s, Scopes.Trim(userCode)).value;
    var (mid, session) := FindActive(s, token, io);
    FindActiveKeeps(s, token, io);
    FoundIsLive(mid, Scopes.Trim(userCode));
    assert DeviceOk(d.deviceCode, d, mid.hist.devices);
    ResolveKeeps(mid, d, session.value, approve);
    VerifyResolves(s, userCode, token, approve, io);
    AfterResolve(mid, d, session.value, approve, r, newRaw);
  }

  lemma VerifyResolves(s: State, userCode: string, token: Option<string>, approve: bool, io: CacheIo)
    requires Scopes.Trim(userCode) != "" && FindActive(s, token, io).1.Some? && FindByUserCode(s, Scopes.Trim(userCode)).Some?
    requires var d := FindByUserCode(s, Scopes.Trim(userCode)).value; d.status == "pending" && s.now <= d.expires
    ensures VerifyUserCode(s, userCode, token, approve, io)
            == (Resolve(FindActive(s, token, io).0, FindByUserCode(s, Scopes.Trim(userCode)).value, FindActive(s, token, io).1.value, approve), Verified)
  {
    FindActiveFrame(s, token, io);
  }

  lemma AfterResolve(s: State, d: DeviceCodes.Device, session: Snapshot, approve: bool, r: DeviceRequest, newRaw: string)
    requires LiveDevice(s, d.deviceCode) == Some(d) && d.deviceCode in s.hist.devices && s.hist.devices[d.deviceCode].client == d.client
    requires Inv(Resolve(s, d, session, approve)) && s.now <= d.expires && r.deviceCode == d.deviceCode && r.clientId == d.client
    requires r.clientId != "" && ClientError(s, r.clientId, r.secret).None?
    ensures RedeemDevice(Resolve(s, d, session, approve), r, newRaw, true).1.Issued? <==> approve && session.session in s.sessions
  {
    var t := Resolve(s, d, session, approve);
    ResolvedRecord(s, d, session, approve);
    SameClients(s, t, r.clientId, r.secret);
    DeviceExact(t, r, newRaw);
  }
}
