/** The handlers as functions from the stores they find to the stores they leave. A handler runs at
    one instant; fresh identifiers, random tokens and the fate of Redis calls are arguments. */
module Flows {
  import opened Base
  import opened Store
  import Scopes
  import DeviceCodes

  // ---------------------------------------------------------------- session store

  /** Whether Redis answers the cache read and accepts the cache write of a lookup. */
  datatype CacheIo = CacheIo(read: bool, write: bool)

  /** SELECT ... WHERE session_token = $1 */
  ghost function RowByToken(sessions: map<SessionId, Session>, token: string): Option<SessionId> {
    if exists sid :: sid in sessions && sessions[sid].token == token
    then var sid :| sid in sessions && sessions[sid].token == token; Some(sid)
    else None
  }

  function TtlSeconds(expires: Time, now: Time): int {
    WholeSeconds(expires - now)
  }

  /** SET EX of a snapshot; skipped without an expiry, without a whole second left, or without Redis. */
  function Populate(s: State, key: Digest, snap: Snapshot, write: bool): State {
    if !write || snap.expires.None? || TtlSeconds(snap.expires.value, s.now) <= 0 then s
    else s.(cache := s.cache[key := Cached(snap, s.now + 1000 * TtlSeconds(snap.expires.value, s.now))])
  }

  function SnapshotOf(s: State, sid: SessionId): Snapshot
    requires sid in s.sessions && s.sessions[sid].user in s.users
  {
    var row := s.sessions[sid];
    Snapshot(sid, row.user, s.users[row.user].enabled, row.expires, row.created)
  }

  predicate CacheHit(s: State, token: string) {
    Sha256(token) in s.cache && s.now < s.cache[Sha256(token)].deadline
  }

  /** The joined row, straight from Postgres. */
  ghost function DbLookup(s: State, token: string): Option<Snapshot> {
    var sid := RowByToken(s.sessions, token);
    if sid.None? || s.sessions[sid.value].user !in s.users then None else Some(SnapshotOf(s, sid.value))
  }

  ghost function FindByToken(s: State, token: string, io: CacheIo): (State, Option<Snapshot>) {
    if token == "" then (s, None)
    else if io.read && CacheHit(s, token) then (s, Some(s.cache[Sha256(token)].snap))
    else
      var row := DbLookup(s, token);
      if row.None? then (s, None) else (Populate(s, Sha256(token), row.value, io.write), row)
  }

  predicate Acceptable(snap: Snapshot, now: Time) {
    (snap.expires.Some? ==> snap.expires.value >= now) && snap.enabled
  }

  ghost function FindActive(s: State, token: Option<string>, io: CacheIo): (State, Option<Snapshot>) {
    if token.None? || Scopes.Trim(token.value) == "" then (s, None)
    else
      var (t, hit) := FindByToken(s, token.value, io);
      (t, if hit.Some? && Acceptable(hit.value, s.now) then hit else None)
  }

  function AddSession(s: State, sid: SessionId, row: Session): State {
    s.(sessions := s.sessions[sid := row], hist := s.hist.(born := s.hist.born[sid := row]))
  }

  /** `SessionRepository::persist`: the row first, then the cache, when Redis takes it. */
  function PersistSession(s: State, sid: SessionId, row: Session, write: bool): State
    requires row.user in s.users
  {
    var t := AddSession(s, sid, row);
    Populate(t, Sha256(row.token), SnapshotOf(t, sid), write)
  }

  function CreateSession(s: State, u: UserId, sid: SessionId, token: string, write: bool): State {
    if u !in s.users then s
    else PersistSession(s, sid, Session(u, token, Some(s.now + SESSION_TTL), s.now), write)
  }

  /** How far a delete gets once its Redis part succeeded: a crash may stop it before the refresh
      tokens are revoked, or between that and the session delete. */
  datatype Reach = CacheOnly | RevokedOnly | Finished

  /** The part of a delete that follows the cache: revoke the tokens, then drop the sessions. */
  function Ended(s: State, rows: set<TokenHash>, sids: set<SessionId>, reach: Reach): State {
    if reach.CacheOnly? then s
    else if reach.RevokedOnly? then s.(refresh := Revoked(s.refresh, rows))
    else DropSessions(s.(refresh := Revoked(s.refresh, rows)), sids)
  }

  function DeleteSession(s: State, sid: SessionId, delOk: bool, reach: Reach): State {
    if sid in s.sessions && !delOk then s
    else Ended(s.(cache := s.cache - CacheKeys(s.sessions, {sid})), RowsOfSession(s.refresh, sid), {sid}, reach)
  }

  /** Delete of every session of a user, optionally except one. `dels` are the keys whose DEL succeeds
      before the operation stops. */
  function DeleteAll(s: State, u: UserId, keep: Option<SessionId>, dels: set<Digest>, reach: Reach): State {
    var targets := SessionsOfUser(s.sessions, u, keep);
    var keys := CacheKeys(s.sessions, targets);
    var t := s.(cache := s.cache - (keys * dels));
    if !(keys <= dels) then t else Ended(t, RowsOfUser(s.refresh, u, keep), targets, reach)
  }

  /** The admin handler: the bulk delete's error is ignored before the user row goes. */
  function DeleteUser(s: State, u: UserId, dels: set<Digest>): State {
    DropUser(DeleteAll(s, u, None, dels, Finished), u)
  }

  // -------------------------------------------------------------------- token flow

  datatype TokenError =
    | InvalidRequest | UnauthorizedClient | InvalidClient | InvalidGrant | VerifierRequired
    | AuthorizationPending | AccessDenied | ExpiredToken

  datatype TokenResult = Issued(refreshToken: string) | Failed(error: TokenError)

  predicate Authenticates(c: Client, presented: Option<string>) {
    !c.confidential || (presented.Some? && presented.value != "" && c.secret == presented)
  }

  /** The checks every grant starts with. */
  function ClientError(s: State, clientId: string, secret: Option<string>): Option<TokenError> {
    if clientId !in s.clients || !s.clients[clientId].enabled then Some(UnauthorizedClient)
    else if !Authenticates(s.clients[clientId], secret) then Some(InvalidClient)
    else None
  }

  datatype RefreshRequest = RefreshRequest(raw: string, clientId: string, secret: Option<string>)

  /** A rotated or revoked token is presented. */
  predicate Replayed(s: State, r: RefreshRequest) {
    && r.raw != "" && r.clientId != "" && ClientError(s, r.clientId, r.secret).None?
    && Hmac(r.raw) in s.refresh && s.refresh[Hmac(r.raw)].revoked
  }

  function RefreshError(s: State, r: RefreshRequest): Option<TokenError> {
    if r.raw == "" || r.clientId == "" then Some(InvalidRequest)
    else if ClientError(s, r.clientId, r.secret).Some? then ClientError(s, r.clientId, r.secret)
    else if Hmac(r.raw) !in s.refresh then Some(InvalidGrant)
    else
      var row := s.refresh[Hmac(r.raw)];
      if || row.revoked
         || (row.expires.Some? && row.expires.value < s.now)
         || row.client != s.clients[r.clientId].key
         || row.user !in s.users || row.session !in s.sessions
         || !s.users[row.user].enabled
      then Some(InvalidGrant)
      else None
  }

  function Refresh(s: State, r: RefreshRequest, newRaw: string): (State, TokenResult) {
    var error := RefreshError(s, r);
    if Replayed(s, r) then
      (s.(refresh := Revoked(s.refresh, RowsOfSession(s.refresh, s.refresh[Hmac(r.raw)].session))), Failed(InvalidGrant))
    else if error.Some? then (s, Failed(error.value))
    else
      var h := Hmac(r.raw);
      var row, client := s.refresh[h], s.clients[r.clientId];
      var t := s.(refresh := Revoked(s.refresh, {h}));
      (AddIssue(t, Hmac(newRaw), Issue(FromRefresh(h), r.clientId, "", "", client.key, row.user, row.session,
                                       client.scopes, s.now, |s.hist.issues|)),
       Issued(newRaw))
  }

  predicate IsS256(challengeMethod: string) {
    |challengeMethod| == 4 && DeviceCodes.Upper(challengeMethod[0]) == 'S' && challengeMethod[1..] == "256"
  }

  predicate HasChallenge(challenge: Option<Challenge>) {
    challenge.Some? && challenge.value != Other("")
  }

  /** `pkce::verify`; a missing challenge or method reads as the empty string. */
  predicate PkceVerified(verifier: string, challenge: Option<Challenge>, challengeMethod: Option<string>) {
    && verifier != "" && HasChallenge(challenge)
    && IsS256(challengeMethod.UnwrapOr(""))
    && challenge.value == S256Of(verifier)
  }

  datatype CodeRequest = CodeRequest(
    code: string, redirect: string, clientId: string, secret: Option<string>, verifier: string)

  /** The checks that follow the consumption of a code. */
  function CodeError(s: State, r: CodeRequest, b: Bound): Option<TokenError>
    requires r.clientId in s.clients
  {
    if b.expires < s.now || b.binding.client != r.clientId || b.binding.redirect != r.redirect then Some(InvalidGrant)
    else if (s.clients[r.clientId].pkceRequired || HasChallenge(b.binding.challenge)) && r.verifier == "" then Some(VerifierRequired)
    else if (s.clients[r.clientId].pkceRequired || HasChallenge(b.binding.challenge))
            && !PkceVerified(r.verifier, b.binding.challenge, b.binding.challengeMethod) then Some(InvalidGrant)
    else if b.binding.user !in s.users || b.binding.session !in s.sessions then Some(InvalidGrant)
    else None
  }

  function RedeemCode(s: State, r: CodeRequest, newRaw: string): (State, TokenResult) {
    var k := Sha256(r.code);
    if r.code == "" || r.redirect == "" || r.clientId == "" then (s, Failed(InvalidRequest))
    else if ClientError(s, r.clientId, r.secret).Some? then (s, Failed(ClientError(s, r.clientId, r.secret).value))
    else if k !in s.codes || s.codes[k].deadline <= s.now then (s, Failed(InvalidGrant))
    else Exchange(s, r, newRaw)
  }

  /** GET_AND_DEL empties the key before any of the code's own checks. */
  function Exchange(s: State, r: CodeRequest, newRaw: string): (State, TokenResult)
    requires Sha256(r.code) in s.codes && r.clientId in s.clients
  {
    var k := Sha256(r.code);
    var b := s.codes[k];
    var t := s.(codes := s.codes - {k});
    var error := CodeError(s, r, b);
    if error.Some? then (t, Failed(error.value))
    else
      (AddIssue(t, Hmac(newRaw), Issue(FromCode(k), r.clientId, r.redirect, r.verifier, s.clients[r.clientId].key,
                                       b.binding.user, b.binding.session, b.binding.scope, s.now, |s.hist.issues|)),
       Issued(newRaw))
  }

  datatype DeviceRequest = DeviceRequest(deviceCode: string, clientId: string, secret: Option<string>)

  function LiveDevice(s: State, deviceCode: string): Option<DeviceCodes.Device> {
    if deviceCode != "" && deviceCode in s.devices && s.now < s.devices[deviceCode].deadline
    then Some(s.devices[deviceCode].device)
    else None
  }

  function DeviceError(s: State, r: DeviceRequest): Option<TokenError> {
    var found := LiveDevice(s, r.deviceCode);
    if found.None? || found.value.client != r.clientId then Some(InvalidGrant)
    else if found.value.expires < s.now then Some(ExpiredToken)
    else if found.value.status == "pending" then Some(AuthorizationPending)
    else if found.value.status == "denied" then Some(AccessDenied)
    else if found.value.status != "approved" then Some(InvalidGrant)
    else if found.value.user.None? || found.value.session.None? then Some(InvalidGrant)
    else if found.value.user.value !in s.users || found.value.session.value !in s.sessions then Some(InvalidGrant)
    else None
  }

  /** HSET over the stored record; the key's deadline stays. */
  function UpdateDevice(s: State, d: DeviceCodes.Device): State {
    if LiveDevice(s, d.deviceCode).None? then s
    else s.(devices := s.devices[d.deviceCode := s.devices[d.deviceCode].(device := d)])
  }

  /** The record is marked consumed before the database transaction; `commits` tells whether that
      transaction goes through. */
  function RedeemDevice(s: State, r: DeviceRequest, newRaw: string, commits: bool): (State, TokenResult) {
    if r.deviceCode == "" || r.clientId == "" then (s, Failed(InvalidRequest))
    else if ClientError(s, r.clientId, r.secret).Some? then (s, Failed(ClientError(s, r.clientId, r.secret).value))
    else if DeviceError(s, r).Some? then (s, Failed(DeviceError(s, r).value))
    else
      var d := LiveDevice(s, r.deviceCode).value;
      var t := UpdateDevice(s, d.(status := "consumed"));
      if !commits then (t, Failed(InvalidGrant))
      else
        (AddIssue(t, Hmac(newRaw), Issue(FromDevice(r.deviceCode), r.clientId, "", "", s.clients[r.clientId].key,
                                         d.user.value, d.session.value, d.scope, s.now, |s.hist.issues|)),
         Issued(newRaw))
  }

  /** `RevokeFlow::revoke`; unknown tokens and tokens of other clients are left alone. */
  function Revoke(s: State, raw: string, clientId: string, secret: Option<string>): State {
    if raw == "" || clientId == "" || ClientError(s, clientId, secret).Some? || Hmac(raw) !in s.refresh then s
    else if s.refresh[Hmac(raw)].client != s.clients[clientId].key then s
    else s.(refresh := Revoked(s.refresh, {Hmac(raw)}))
  }

  /** `sweep_once` */
  function Sweep(s: State): State {
    s.(refresh := map h | h in s.refresh && !(s.refresh[h].expires.Some? && s.refresh[h].expires.value < s.now) :: s.refresh[h])
  }

  /** `LogoutFlow::logout` for a resolved session: revoke in one transaction, then the session delete,
      whose error is ignored. */
  function Logout(s: State, sid: SessionId, delOk: bool, reach: Reach): State {
    DeleteSession(s.(refresh := Revoked(s.refresh, RowsOfSession(s.refresh, sid))), sid, delOk, reach)
  }

  // ---------------------------------------------------------------- authorize flow

  datatype AuthorizeRequest = AuthorizeRequest(
    sessionToken: Option<string>, clientId: Option<string>, redirect: Option<string>, responseType: Option<string>,
    scope: Option<string>, prompts: set<string>, maxAge: Option<int>,
    challenge: Option<Challenge>, challengeMethod: Option<string>)

  datatype AuthorizeError =
    | UnsupportedResponseType | MissingParameter | LoginRequired | InvalidSession | UnknownClient
    | RedirectNotRegistered | InvalidScope | MethodRequired | MethodUnsupported | ChallengeRequired
    | ConsentRefused | SessionMismatch | UnknownRequest | Denied | DatabaseError

  datatype AuthorizeResult = Code(code: string) | ConsentRequired(requestId: string) | Rejected(error: AuthorizeError)

  function SessionError(s: State, r: AuthorizeRequest, session: Option<Snapshot>): Option<AuthorizeError> {
    var refusal := if "none" in r.prompts then LoginRequired else InvalidSession;
    if session.None? then Some(refusal)
    else
      var age := WholeSeconds(s.now - session.value.created);
      if "login" in r.prompts && age >= 10 then Some(refusal)
      else if r.maxAge.Some? && age > r.maxAge.value then Some(refusal)
      else None
  }

  /** The gates from the client lookup to PKCE. */
  function GateError(s: State, r: AuthorizeRequest, clientId: string, redirect: string): Option<AuthorizeError> {
    if clientId !in s.clients || !s.clients[clientId].enabled then Some(UnknownClient)
    else
      var client := s.clients[clientId];
      if redirect !in client.redirectUris then Some(RedirectNotRegistered)
      else if !Scopes.IsSubsetOf(r.scope, client.scopes) then Some(InvalidScope)
      else if HasChallenge(r.challenge) then
        if r.challengeMethod.UnwrapOr("") == "" then Some(MethodRequired)
        else if r.challengeMethod != Some("S256") then Some(MethodUnsupported)
        else None
      else if client.pkceRequired then Some(ChallengeRequired)
      else None
  }

  /** `issue_code`: SET NX with the code's lifetime. */
  function MintCode(s: State, code: string, auth: nat, b: Binding, uris: set<string>, consent: Option<string>): State {
    var k := Sha256(code);
    if k in s.codes && s.now < s.codes[k].deadline then s
    else s.(codes := s.codes[k := Bound(b, s.now + CODE_TTL, s.now + CODE_TTL)],
            hist := s.hist.(mints := s.hist.mints[k := Mint(auth, s.now, uris, consent)]))
  }

  function AddAuth(s: State, b: Binding, row: Client): State {
    s.(hist := s.hist.(auths := s.hist.auths + [AuthStep(b, row, s.now)]))
  }

  function AddPending(s: State, requestId: string, auth: nat, b: Binding): State {
    s.(pending := s.pending[requestId := Bound(b, s.now + CONSENT_TTL, s.now + CONSENT_TTL)],
       hist := s.hist.(asks := s.hist.asks[requestId := auth]))
  }

  ghost function Authorize(s: State, r: AuthorizeRequest, code: string, requestId: string, io: CacheIo): (State, AuthorizeResult) {
    var clientId, redirect := Scopes.Trim(r.clientId.UnwrapOr("")), r.redirect.UnwrapOr("");
    if r.responseType != Some("code") then (s, Rejected(UnsupportedResponseType))
    else if clientId == "" || redirect == "" then (s, Rejected(MissingParameter))
    else
      var (t, session) := FindActive(s, r.sessionToken, io);
      AuthorizeIn(t, r, clientId, redirect, session, code, requestId)
  }

  /** The gates that follow the session lookup. */
  function AuthorizeIn(s: State, r: AuthorizeRequest, clientId: string, redirect: string, session: Option<Snapshot>,
                       code: string, requestId: string): (State, AuthorizeResult) {
    if SessionError(s, r, session).Some? then (s, Rejected(SessionError(s, r, session).value))
    else if GateError(s, r, clientId, redirect).Some? then (s, Rejected(GateError(s, r, clientId, redirect).value))
    else
      var consented := "consent" !in r.prompts && Scopes.HasConsent(ConsentOf(s, session.value.user, clientId), r.scope);
      AuthorizePassed(s, r, clientId, redirect, session.value, consented, code, requestId)
  }

  /** The consent row for a user and a client, if both it and the client exist. */
  function ConsentOf(s: State, u: UserId, clientId: string): Option<string> {
    if clientId in s.clients then Lookup(s.consents, (u, s.clients[clientId].key)) else None
  }

  function BindingOf(r: AuthorizeRequest, clientId: string, redirect: string, session: Snapshot): Binding {
    Binding(clientId, redirect, session.session, session.user, r.scope, r.challenge,
            if HasChallenge(r.challenge) then r.challengeMethod else None)
  }

  /** What follows once every gate has let the request through. */
  function AuthorizePassed(s: State, r: AuthorizeRequest, clientId: string, redirect: string, session: Snapshot, consented: bool,
                           code: string, requestId: string): (State, AuthorizeResult)
    requires clientId in s.clients
  {
    var client := s.clients[clientId];
    var b := BindingOf(r, clientId, redirect, session);
    var auth := |s.hist.auths|;
    if consented then
      (MintCode(AddAuth(s, b, client), code, auth, b, client.redirectUris, ConsentOf(s, session.user, clientId)), Code(code))
    else if "none" in r.prompts then (s, Rejected(ConsentRefused))
    else (AddPending(AddAuth(s, b, client), requestId, auth, b), ConsentRequired(requestId))
  }

  /** POST /consent: the pending request is taken before it is matched against the session. */
  ghost function SubmitConsent(s: State, sessionToken: Option<string>, requestId: string, approve: bool, code: string,
                               io: CacheIo): (State, AuthorizeResult) {
    var (t, session) := FindActive(s, sessionToken, io);
    ConsentAnswered(t, session, requestId, approve, code)
  }

  function ConsentAnswered(s: State, session: Option<Snapshot>, requestId: string, approve: bool, code: string): (State, AuthorizeResult) {
    if session.None? then (s, Rejected(InvalidSession))
    else if requestId == "" || requestId !in s.pending || s.pending[requestId].deadline <= s.now then (s, Rejected(UnknownRequest))
    else
      var p := s.pending[requestId];
      var t := s.(pending := s.pending - {requestId});
      if p.expires < t.now then (t, Rejected(UnknownRequest))
      else if session.value.session != p.binding.session then (t, Rejected(SessionMismatch))
      else if !approve then (t, Rejected(Denied))
      else
        var consent := Scopes.Granted(ConsentOf(t, p.binding.user, p.binding.client), p.binding.scope);
        CompleteAfterConsent(t, requestId, p.binding, consent, code)
  }

  /** `consent` is the merged consent row, which is written once the client, its redirect URI and the
      user turn out to be still there. */
  function CompleteAfterConsent(s: State, requestId: string, b: Binding, consent: string, code: string): (State, AuthorizeResult) {
    if b.client !in s.clients || !s.clients[b.client].enabled then (s, Rejected(UnknownClient))
    else if b.redirect !in s.clients[b.client].redirectUris then (s, Rejected(RedirectNotRegistered))
    else if b.user !in s.users then (s, Rejected(DatabaseError))
    else
      var client := s.clients[b.client];
      var key := (b.user, client.key);
      var auth := if requestId in s.hist.asks then s.hist.asks[requestId] else 0;
      (MintCode(s.(consents := s.consents[key := consent]), code, auth, b, client.redirectUris, Some(consent)), Code(code))
  }

  // ------------------------------------------------------------------- device flow

  predicate PointerFree(s: State, userCode: string) {
    var p := DeviceCodes.NormalizeUserCode(userCode);
    p !in s.pointers || s.pointers[p].deadline <= s.now
  }

  /** `DeviceAuthorizationRepository::persist` for a free pointer. */
  function PersistDevice(s: State, d: DeviceCodes.Device): State {
    s.(pointers := s.pointers[DeviceCodes.NormalizeUserCode(d.userCode) := Pointer(d.deviceCode, s.now + DEVICE_TTL)],
       devices := s.devices[d.deviceCode := StoredDevice(d, s.now + DEVICE_TTL)],
       hist := s.hist.(devices := s.hist.devices[d.deviceCode := DeviceHistory(d.client, d.userCode, None)]))
  }

  /** The first of the drawn user codes whose pointer is free. */
  function FirstFree(s: State, draws: seq<string>): Option<string> {
    if draws == [] then None
    else if PointerFree(s, draws[0]) then Some(draws[0])
    else FirstFree(s, draws[1..])
  }

  function RequestDevice(s: State, clientId: string, scope: Option<string>, id: nat, deviceCode: string, draws: seq<string>): (State, Option<string>) {
    if Scopes.Trim(clientId) == "" || clientId !in s.clients || !s.clients[clientId].enabled then (s, None)
    else if !Scopes.IsSubsetOf(scope, s.clients[clientId].scopes) then (s, None)
    else
      var userCode := FirstFree(s, draws);
      if userCode.None? then (s, None)
      else (PersistDevice(s, DeviceCodes.Device(id, deviceCode, userCode.value, clientId, scope, "pending", None, None,
                                                s.now + DEVICE_TTL, Some(s.now))), userCode)
  }

  function FindByUserCode(s: State, userCode: string): Option<DeviceCodes.Device> {
    var p := DeviceCodes.NormalizeUserCode(userCode);
    if userCode == "" || p !in s.pointers || s.pointers[p].deadline <= s.now then None
    else LiveDevice(s, s.pointers[p].deviceCode)
  }

  datatype VerifyResult = Verified | VerifyMissingCode | VerifyNoSession | VerifyUnknown | VerifyExpired | VerifyResolved

  ghost function VerifyUserCode(s: State, userCode: string, sessionToken: Option<string>, approve: bool, io: CacheIo): (State, VerifyResult) {
    if Scopes.Trim(userCode) == "" then (s, VerifyMissingCode)
    else
      var (t, session) := FindActive(s, sessionToken, io);
      var found := FindByUserCode(t, Scopes.Trim(userCode));
      if session.None? then (t, VerifyNoSession)
      else if found.None? then (t, VerifyUnknown)
      else if found.value.expires < t.now then (t, VerifyExpired)
      else if found.value.status != "pending" then (t, VerifyResolved)
      else (Resolve(t, found.value, session.value, approve), Verified)
  }

  function Resolve(s: State, d: DeviceCodes.Device, session: Snapshot, approve: bool): State {
    if !approve then UpdateDevice(s, d.(status := "denied"))
    else
      var t := UpdateDevice(s, d.(status := "approved", user := Some(session.user), session := Some(session.session)));
      if d.deviceCode !in t.hist.devices then t
      else t.(hist := t.hist.(devices := t.hist.devices[d.deviceCode := t.hist.devices[d.deviceCode].(approved := Some((session.user, session.session)))]))
  }

  // ---------------------------------------------------------------- password resets

  function RequestReset(s: State, u: UserId, raw: string): State {
    if u !in s.users || !s.users[u].enabled then s
    else s.(resets := s.resets[Hmac(raw) := Reset(u, s.now + RESET_TTL, false)],
            hist := s.hist.(resets := s.hist.resets + {Hmac(raw)}))
  }

  datatype ResetResult = ResetDone | WeakPassword | InvalidToken | SessionsKept

  function UsableReset(s: State, raw: string): Option<Reset> {
    if Scopes.Trim(raw) == "" || Hmac(raw) !in s.resets then None
    else if s.resets[Hmac(raw)].consumed || s.resets[Hmac(raw)].expires < s.now then None
    else Some(s.resets[Hmac(raw)])
  }

  /** mark_consumed on the presented token, then consume_sibling_tokens. */
  function ConsumeResets(s: State, u: UserId): State {
    s.(resets := map h | h in s.resets :: if s.resets[h].user == u then s.resets[h].(consumed := true) else s.resets[h])
  }

  /** A Redis failure aborts with an error after the reset tokens were already consumed. */
  function ConsumeReset(s: State, raw: string, passwordBytes: nat, dels: set<Digest>): (State, ResetResult) {
    var reset := UsableReset(s, raw);
    if passwordBytes < 8 then (s, WeakPassword)
    else if reset.None? then (s, InvalidToken)
    else
      var u := reset.value.user;
      var t := DeleteAll(ConsumeResets(s, u), u, None, dels, Finished);
      (t, if CacheKeys(s.sessions, SessionsOfUser(s.sessions, u, None)) <= dels then ResetDone else SessionsKept)
  }
}
