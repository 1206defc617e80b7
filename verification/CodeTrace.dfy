/** From an issued token set back to the authorize request behind it, through every possible run. */
module CodeTrace {
  import opened Base
  import opened Store
  import opened Flows
  import opened Invariants
  import opened Machine
  import opened Runs
  import Scopes
  import Lineage
  import PasswordReset

  // --------------------------------------------------- which steps write the history

  /** The authorize request passed every gate and bound `a`. */
  ghost predicate AuthorizedBy(s: State, r: AuthorizeRequest, io: CacheIo, a: AuthStep) {
    var clientId, redirect := Scopes.Trim(r.clientId.UnwrapOr("")), r.redirect.UnwrapOr("");
    var session := FindActive(s, r.sessionToken, io).1;
    && r.responseType == Some("code") && SessionError(s, r, session).None? && GateError(s, r, clientId, redirect).None?
    && a == AuthStep(BindingOf(r, clientId, redirect, session.value), s.clients[clientId], s.now)
  }

  /** The record of a code minted for `b` by a step from `s` to `t`: the URIs then registered and the consent
      row the step leaves. */
  function MintFor(s: State, t: State, auth: nat, b: Binding): Mint
    requires b.client in s.clients
  {
    Mint(auth, s.now, s.clients[b.client].redirectUris, ConsentOf(t, b.user, b.client))
  }

  /** Authorization history untouched. */
  predicate SameRecord(s: State, t: State) {
    t.hist.auths == s.hist.auths && t.hist.mints == s.hist.mints
  }

  /** One more authorize step, and no code or one code for it. */
  ghost predicate AuthorizeWrites(s: State, t: State, a: AuthStep, code: string) {
    && a.binding.client in s.clients && t.hist.auths == s.hist.auths + [a]
    && (t.hist.mints == s.hist.mints || t.hist.mints == s.hist.mints[Sha256(code) := MintFor(s, t, |s.hist.auths|, a.binding)])
  }

  lemma MintWrites(s: State, code: string, auth: nat, b: Binding, uris: set<string>, consent: Option<string>)
    ensures var t := MintCode(s, code, auth, b, uris, consent);
            && t.hist.auths == s.hist.auths && t.clients == s.clients && t.consents == s.consents
            && (t.hist.mints == s.hist.mints || t.hist.mints == s.hist.mints[Sha256(code) := Mint(auth, s.now, uris, consent)])
  {
  }

  lemma PassedWrites(s: State, r: AuthorizeRequest, clientId: string, redirect: string, session: Snapshot, consented: bool, code: string, requestId: string)
    requires clientId in s.clients
    ensures var t := AuthorizePassed(s, r, clientId, redirect, session, consented, code, requestId).0;
            SameRecord(s, t) || AuthorizeWrites(s, t, AuthStep(BindingOf(r, clientId, redirect, session), s.clients[clientId], s.now), code)
  {
    var client, b := s.clients[clientId], BindingOf(r, clientId, redirect, session);
    var mid := AddAuth(s, b, client);
    if consented {
      MintWrites(mid, code, |s.hist.auths|, b, client.redirectUris, ConsentOf(s, session.user, clientId));
    }
  }

  lemma AuthorizeInWrites(s: State, r: AuthorizeRequest, clientId: string, redirect: string, session: Option<Snapshot>, code: string, requestId: string)
    ensures var t := AuthorizeIn(s, r, clientId, redirect, session, code, requestId).0;
            SameRecord(s, t)
            || (SessionError(s, r, session).None? && GateError(s, r, clientId, redirect).None?
                && AuthorizeWrites(s, t, AuthStep(BindingOf(r, clientId, redirect, session.value), s.clients[clientId], s.now), code))
  {
    if SessionError(s, r, session).None? && GateError(s, r, clientId, redirect).None? {
      var consented := "consent" !in r.prompts && Scopes.HasConsent(ConsentOf(s, session.value.user, clientId), r.scope);
      PassedWrites(s, r, clientId, redirect, session.value, consented, code, requestId);
    }
  }

  ghost predicate AskWrites(s: State, r: AuthorizeRequest, io: CacheIo, code: string, t: State) {
    && |t.hist.auths| == |s.hist.auths| + 1
    && AuthorizedBy(s, r, io, t.hist.auths[|s.hist.auths|])
    && AuthorizeWrites(s, t, t.hist.auths[|s.hist.auths|], code)
  }

  lemma AskRecord(s: State, r: AuthorizeRequest, code: string, requestId: string, io: CacheIo)
    ensures var t := Authorize(s, r, code, requestId, io).0; SameRecord(s, t) || AskWrites(s, r, io, code, t)
  {
    var clientId, redirect := Scopes.Trim(r.clientId.UnwrapOr("")), r.redirect.UnwrapOr("");
    var (mid, session) := FindActive(s, r.sessionToken, io);
    FindActiveFrame(s, r.sessionToken, io);
    if r.responseType == Some("code") && clientId != "" && redirect != "" {
      var t := AuthorizeIn(mid, r, clientId, redirect, session, code, requestId).0;
      assert Authorize(s, r, code, requestId, io).0 == t;
      AuthorizeInWrites(mid, r, clientId, redirect, session, code, requestId);
      if !SameRecord(mid, t) { WritesFrom(s, mid, t, r, io, clientId, redirect, session, code); }
    } else {
      assert Authorize(s, r, code, requestId, io).0 == s;
    }
  }

  lemma WritesFrom(s: State, mid: State, t: State, r: AuthorizeRequest, io: CacheIo, clientId: string, redirect: string, session: Option<Snapshot>, code: string)
    requires mid == s.(cache := mid.cache) && session == FindActive(s, r.sessionToken, io).1 && r.responseType == Some("code")
    requires clientId == Scopes.Trim(r.clientId.UnwrapOr("")) && redirect == r.redirect.UnwrapOr("")
    requires SessionError(mid, r, session).None? && GateError(mid, r, clientId, redirect).None?
    requires AuthorizeWrites(mid, t, AuthStep(BindingOf(r, clientId, redirect, session.value), mid.clients[clientId], mid.now), code)
    ensures AskWrites(s, r, io, code, t)
  {
    assert t.hist.auths[|s.hist.auths|] == AuthStep(BindingOf(r, clientId, redirect, session.value), s.clients[clientId], s.now);
  }

  /** A taken request whose session is the answering one, approved, and no code or one code for its step. */
  ghost predicate AnswerWrites(s: State, token: Option<string>, requestId: string, approve: bool, code: string, io: CacheIo, t: State) {
    var session := FindActive(s, token, io).1;
    && approve && session.Some? && requestId in s.pending && session.value.session == s.pending[requestId].binding.session
    && s.pending[requestId].binding.client in s.clients && s.clients[s.pending[requestId].binding.client].enabled
    && requestId in s.hist.asks && t.hist.auths == s.hist.auths
    && t.hist.mints == s.hist.mints[Sha256(code) := MintFor(s, t, s.hist.asks[requestId], s.pending[requestId].binding)]
  }

  lemma CompleteWrites(s: State, requestId: string, b: Binding, consent: string, code: string)
    requires requestId in s.hist.asks
    ensures var t := CompleteAfterConsent(s, requestId, b, consent, code).0;
            SameRecord(s, t)
            || (b.client in s.clients && s.clients[b.client].enabled && t.hist.auths == s.hist.auths
                && t.hist.mints == s.hist.mints[Sha256(code) := MintFor(s, t, s.hist.asks[requestId], b)])
  {
    if b.client in s.clients {
      var client := s.clients[b.client];
      MintWrites(s.(consents := s.consents[(b.user, client.key) := consent]), code, s.hist.asks[requestId], b, client.redirectUris, Some(consent));
    }
  }

  lemma AnswerRecord(s: State, token: Option<string>, requestId: string, approve: bool, code: string, io: CacheIo)
    requires Inv(s)
    ensures var t := SubmitConsent(s, token, requestId, approve, code, io).0;
            SameRecord(s, t) || AnswerWrites(s, token, requestId, approve, code, io, t)
  {
    var (mid, session) := FindActive(s, token, io);
    FindActiveFrame(s, token, io);
    if requestId in s.pending {
      assert PendingBound(requestId, s.pending, s.hist.auths, s.hist.asks);
      AnsweredRecord(mid, session, requestId, approve, code);
    }
  }

  lemma AnsweredRecord(s: State, session: Option<Snapshot>, requestId: string, approve: bool, code: string)
    requires requestId in s.pending && requestId in s.hist.asks
    ensures var t := ConsentAnswered(s, session, requestId, approve, code).0;
            var b := s.pending[requestId].binding;
            SameRecord(s, t)
            || (approve && session.Some? && session.value.session == b.session && b.client in s.clients && s.clients[b.client].enabled
                && t.hist.auths == s.hist.auths
                && t.hist.mints == s.hist.mints[Sha256(code) := MintFor(s, t, s.hist.asks[requestId], b)])
  {
    var b := s.pending[requestId].binding;
    CompleteWrites(s.(pending := s.pending - {requestId}), requestId, b, Scopes.Granted(ConsentOf(s, b.user, b.client), b.scope), code);
  }

  lemma GrantRecord(s: State, e: Event)
    requires !IsAdministration(e) && !IsSessionEvent(e) && !e.AskCode? && !e.AnswerConsent?
    ensures SameRecord(s, GrantStep(s, e))
  {
    match e {
      case CodeGrant(r, newRaw) => RedeemCodeFrame(s, r, newRaw);
      case RefreshGrant(r, newRaw) => RefreshFrame(s, r, newRaw);
      case DeviceGrant(r, newRaw, commits) => RedeemDeviceFrame(s, r, newRaw, commits);
      case AskDevice(clientId, scope, id, deviceCode, draws) => RequestDeviceFrame(s, clientId, scope, id, deviceCode, draws);
      case AnswerDevice(userCode, token, approve, io) => VerifyFrame(s, userCode, token, approve, io);
    }
  }

  lemma AdministrationRecord(s: State, e: Event)
    requires IsAdministration(e)
    ensures SameRecord(s, AdministrationStep(s, e))
  {
    PasswordReset.AdministrationHistory(s, e);
  }

  /** What one step may add to the authorization history. */
  ghost predicate RecordStep(s: State, e: Event, t: State) {
    || SameRecord(s, t)
    || (e.AskCode? && AskWrites(s, e.request, e.io, e.code, t))
    || (e.AnswerConsent? && AnswerWrites(s, e.sessionToken, e.requestId, e.approve, e.code, e.io, t))
  }

  lemma StepRecord(s: State, e: Event)
    requires Inv(s)
    ensures RecordStep(s, e, Step(s, e))
  {
    if IsAdministration(e) {
      AdministrationRecord(s, e);
    } else if IsSessionEvent(e) {
      PasswordReset.SessionEventHistory(s, e);
    } else if e.AskCode? {
      AskRecord(s, e.request, e.code, e.requestId, e.io);
    } else if e.AnswerConsent? {
      AnswerRecord(s, e.sessionToken, e.requestId, e.approve, e.code, e.io);
    } else {
      GrantRecord(s, e);
    }
  }

  // ------------------------------------------------------------ pending request ids

  /** A request id is handed out with the number of the authorize step it waits for, and never again. */
  ghost predicate AsksStep(s: State, e: Event, t: State) {
    || t.hist.asks == s.hist.asks
    || (e.AskCode? && t.hist.asks == s.hist.asks[e.requestId := |s.hist.auths|] && |t.hist.auths| == |s.hist.auths| + 1)
  }

  lemma MintAsks(s: State, code: string, auth: nat, b: Binding, uris: set<string>, consent: Option<string>)
    ensures MintCode(s, code, auth, b, uris, consent).hist.asks == s.hist.asks
  {
  }

  lemma AuthorizeInAsks(s: State, r: AuthorizeRequest, clientId: string, redirect: string, session: Option<Snapshot>, code: string, requestId: string)
    ensures var t := AuthorizeIn(s, r, clientId, redirect, session, code, requestId).0;
            || t.hist.asks == s.hist.asks
            || (t.hist.asks == s.hist.asks[requestId := |s.hist.auths|] && |t.hist.auths| == |s.hist.auths| + 1)
  {
    if SessionError(s, r, session).None? && GateError(s, r, clientId, redirect).None? {
      var client, b := s.clients[clientId], BindingOf(r, clientId, redirect, session.value);
      MintAsks(AddAuth(s, b, client), code, |s.hist.auths|, b, client.redirectUris, ConsentOf(s, session.value.user, clientId));
    }
  }

  lemma AuthorizeAsks(s: State, e: Event)
    requires e.AskCode?
    ensures AsksStep(s, e, Authorize(s, e.request, e.code, e.requestId, e.io).0)
  {
    var r := e.request;
    var (mid, session) := FindActive(s, r.sessionToken, e.io);
    FindActiveFrame(s, r.sessionToken, e.io);
    AuthorizeInAsks(mid, r, Scopes.Trim(r.clientId.UnwrapOr("")), r.redirect.UnwrapOr(""), session, e.code, e.requestId);
  }

  lemma CompleteAsks(s: State, requestId: string, b: Binding, consent: string, code: string)
    ensures CompleteAfterConsent(s, requestId, b, consent, code).0.hist.asks == s.hist.asks
  {
    var t := CompleteAfterConsent(s, requestId, b, consent, code).0;
    if t != s {
      var client := s.clients[b.client];
      var mid := s.(consents := s.consents[(b.user, client.key) := consent]);
      var auth := if requestId in s.hist.asks then s.hist.asks[requestId] else 0;
      MintAsks(mid, code, auth, b, client.redirectUris, Some(consent));
      assert t == MintCode(mid, code, auth, b, client.redirectUris, Some(consent));
    }
  }

  lemma ConsentAsks(s: State, token: Option<string>, requestId: string, approve: bool, code: string, io: CacheIo)
    ensures SubmitConsent(s, token, requestId, approve, code, io).0.hist.asks == s.hist.asks
  {
    var (mid, session) := FindActive(s, token, io);
    FindActiveFrame(s, token, io);
    AnsweredParts(mid, session, requestId, approve, code);
    if requestId in mid.pending {
      var b := mid.pending[requestId].binding;
      CompleteAsks(mid.(pending := mid.pending - {requestId}), requestId, b, Scopes.Granted(ConsentOf(mid, b.user, b.client), b.scope), code);
    }
  }

  lemma GrantAsks(s: State, e: Event)
    requires !IsAdministration(e) && !IsSessionEvent(e) && !e.AskCode?
    ensures GrantStep(s, e).hist.asks == s.hist.asks
  {
    match e {
      case AnswerConsent(token, requestId, approve, code, io) => ConsentAsks(s, token, requestId, approve, code, io);
      case CodeGrant(r, newRaw) => RedeemCodeFrame(s, r, newRaw);
      case RefreshGrant(r, newRaw) => RefreshFrame(s, r, newRaw);
      case DeviceGrant(r, newRaw, commits) => RedeemDeviceFrame(s, r, newRaw, commits);
      case AskDevice(clientId, scope, id, deviceCode, draws) => RequestDeviceFrame(s, clientId, scope, id, deviceCode, draws);
      case AnswerDevice(userCode, token, approve, io) => VerifyFrame(s, userCode, token, approve, io);
    }
  }

  lemma StepAsks(s: State, e: Event)
    ensures AsksStep(s, e, Step(s, e))
  {
    if IsAdministration(e) {
      PasswordReset.AdministrationHistory(s, e);
    } else if IsSessionEvent(e) {
      PasswordReset.SessionEventHistory(s, e);
    } else if e.AskCode? {
      AuthorizeAsks(s, e);
    } else {
      GrantAsks(s, e);
    }
  }

  // ------------------------------------------------------------- the redeeming step

  /** The grant that redeemed a code, and what its issue records. */
  ghost predicate RedeemedBy(s: State, r: CodeRequest, newRaw: string, h: TokenHash, i: Issue) {
    var k := Sha256(r.code);
    && h == Hmac(newRaw) && RedeemCode(s, r, newRaw).1 == Issued(newRaw)
    && k in s.codes && i.origin == FromCode(k) && i.at == s.now
    && i.clientName == r.clientId && i.redirect == r.redirect && i.verifier == r.verifier
    && i.user == s.codes[k].binding.user && i.session == s.codes[k].binding.session && i.scope == s.codes[k].binding.scope
  }

  ghost predicate NewCodeIssue(s: State, t: State, h: TokenHash) {
    h !in s.hist.issues && h in t.hist.issues && t.hist.issues[h].origin.FromCode?
  }

  lemma RedeemCodeIssue(s: State, r: CodeRequest, newRaw: string, h: TokenHash)
    requires NewCodeIssue(s, RedeemCode(s, r, newRaw).0, h)
    ensures RedeemedBy(s, r, newRaw, h, RedeemCode(s, r, newRaw).0.hist.issues[h])
  {
    RedeemCodeParts(s, r, newRaw);
  }

  lemma RefreshIssue(s: State, r: RefreshRequest, newRaw: string, h: TokenHash)
    ensures !NewCodeIssue(s, Refresh(s, r, newRaw).0, h)
  {
    RefreshParts(s, r, newRaw);
  }

  lemma RedeemDeviceIssue(s: State, r: DeviceRequest, newRaw: string, commits: bool, h: TokenHash)
    ensures !NewCodeIssue(s, RedeemDevice(s, r, newRaw, commits).0, h)
  {
    RedeemDeviceParts(s, r, newRaw, commits);
    if LiveDevice(s, r.deviceCode).Some? { UpdateOnly(s, LiveDevice(s, r.deviceCode).value.(status := "consumed")); }
  }

  lemma GrantIssue(s: State, e: Event, h: TokenHash)
    requires !IsAdministration(e) && !IsSessionEvent(e) && NewCodeIssue(s, GrantStep(s, e), h)
    ensures e.CodeGrant? && RedeemedBy(s, e.codeRequest, e.newRaw, h, GrantStep(s, e).hist.issues[h])
  {
    match e {
      case AskCode(r, code, requestId, io) => AuthorizeAccounts(s, r, code, requestId, io);
      case AnswerConsent(token, requestId, approve, code, io) => ConsentAccounts(s, token, requestId, approve, code, io);
      case CodeGrant(r, newRaw) => RedeemCodeIssue(s, r, newRaw, h);
      case RefreshGrant(r, newRaw) => RefreshIssue(s, r, newRaw, h);
      case DeviceGrant(r, newRaw, commits) => RedeemDeviceIssue(s, r, newRaw, commits, h);
      case AskDevice(clientId, scope, id, deviceCode, draws) => RequestDeviceFrame(s, clientId, scope, id, deviceCode, draws);
      case AnswerDevice(userCode, token, approve, io) => VerifyAccounts(s, userCode, token, approve, io);
    }
  }

  lemma StepIssue(s: State, e: Event, h: TokenHash)
    requires NewCodeIssue(s, Step(s, e), h)
    ensures e.CodeGrant? && RedeemedBy(s, e.codeRequest, e.newRaw, h, Step(s, e).hist.issues[h])
  {
    if IsAdministration(e) {
      PasswordReset.AdministrationHistory(s, e);
    } else if IsSessionEvent(e) {
      PasswordReset.SessionEventHistory(s, e);
    } else {
      GrantIssue(s, e, h);
    }
  }

  // ------------------------------------------------------------ positions in the run

  ghost predicate RecordGrows(s: State, t: State) {
    s.hist.auths <= t.hist.auths && forall k | k in s.hist.mints :: k in t.hist.mints && t.hist.mints[k] == s.hist.mints[k]
  }

  lemma StepGrows(s: State, e: Event)
    requires Inv(s) && Enabled(s, e)
    ensures RecordGrows(s, Step(s, e))
  {
    StepRecord(s, e);
    RecordStepGrows(s, e, Step(s, e));
  }

  lemma RecordStepGrows(s: State, e: Event, t: State)
    requires RecordStep(s, e, t) && (e.AskCode? || e.AnswerConsent? ==> Sha256(e.code) !in s.hist.mints)
    ensures RecordGrows(s, t)
  {
  }

  lemma GrowsAt(s: State, events: seq<Event>, n: nat)
    requires Inv(s) && IsRun(s, events) && n < |events|
    ensures RecordGrows(At(s, events, n), At(s, events, n + 1))
  {
    AtKeeps(s, events, n);
    StepAt(s, events, n);
    StepGrows(At(s, events, n), events[n]);
  }

  lemma {:induction false} GrowsAlong(states: seq<State>, m: nat, n: nat)
    requires forall i {:trigger states[i]} | 0 < i < |states| :: RecordGrows(states[i - 1], states[i])
    requires m <= n < |states|
    ensures RecordGrows(states[m], states[n])
    decreases n
  {
    if m < n {
      GrowsAlong(states, m, n - 1);
      assert RecordGrows(states[n - 1], states[n]);
    }
  }

  lemma RunGrows(s: State, events: seq<Event>, m: nat, n: nat)
    requires Inv(s) && IsRun(s, events) && m <= n <= |events|
    ensures RecordGrows(At(s, events, m), At(s, events, n))
  {
    var states := States(s, events);
    forall i | 0 < i < |states|
      ensures RecordGrows(states[i - 1], states[i])
    {
      GrowsAt(s, events, i - 1);
    }
    GrowsAlong(states, m, n);
  }

  /** The step that first knew the code. */
  lemma {:induction false} MintingStep(s: State, events: seq<Event>, n: nat, k: Digest) returns (m: nat)
    requires n <= |events| && k !in s.hist.mints && k in At(s, events, n).hist.mints
    ensures m < n && k !in At(s, events, m).hist.mints && k in At(s, events, m + 1).hist.mints
    decreases n
  {
    assert events[..0] == [];
    if k in At(s, events, n - 1).hist.mints {
      m := MintingStep(s, events, n - 1, k);
    } else {
      m := n - 1;
    }
  }

  /** The step that recorded an authorize request. */
  lemma {:induction false} AuthorizingStep(s: State, events: seq<Event>, n: nat, i: nat) returns (p: nat)
    requires n <= |events| && |s.hist.auths| <= i < |At(s, events, n).hist.auths|
    ensures p < n && |At(s, events, p).hist.auths| <= i < |At(s, events, p + 1).hist.auths|
    decreases n
  {
    assert events[..0] == [];
    if i < |At(s, events, n - 1).hist.auths| {
      p := AuthorizingStep(s, events, n - 1, i);
    } else {
      p := n - 1;
    }
  }

  lemma {:induction false} IssuingStep(s: State, events: seq<Event>, n: nat, h: TokenHash) returns (q: nat)
    requires n <= |events| && h !in s.hist.issues && h in At(s, events, n).hist.issues
    ensures q < n && h !in At(s, events, q).hist.issues && h in At(s, events, q + 1).hist.issues
    decreases n
  {
    assert events[..0] == [];
    if h in At(s, events, n - 1).hist.issues {
      q := IssuingStep(s, events, n - 1, h);
    } else {
      q := n - 1;
    }
  }

  lemma EvolvesAt(s: State, events: seq<Event>, n: nat)
    requires Inv(s) && IsRun(s, events) && n < |events|
    ensures Lineage.Evolves(At(s, events, n), At(s, events, n + 1))
  {
    AtKeeps(s, events, n);
    StepAt(s, events, n);
    Lineage.StepEvolves(At(s, events, n), events[n]);
  }

  lemma {:induction false} EvolvesAlong(states: seq<State>, m: nat, n: nat)
    requires forall i {:trigger states[i]} | 0 < i < |states| :: Lineage.Evolves(states[i - 1], states[i])
    requires m <= n < |states|
    ensures Lineage.Evolves(states[m], states[n])
    decreases n
  {
    if m < n {
      EvolvesAlong(states, m, n - 1);
      Lineage.EvolvesTransitive(states[m], states[n - 1], states[n]);
    } else {
      Lineage.WeakerEvolves(states[m], states[n]);
    }
  }

  lemma AtEvolves(s: State, events: seq<Event>, m: nat, n: nat)
    requires Inv(s) && IsRun(s, events) && m <= n <= |events|
    ensures Lineage.Evolves(At(s, events, m), At(s, events, n))
  {
    var states := States(s, events);
    forall i | 0 < i < |states|
      ensures Lineage.Evolves(states[i - 1], states[i])
    {
      EvolvesAt(s, events, i - 1);
    }
    EvolvesAlong(states, m, n);
  }

  lemma AsksAt(s: State, events: seq<Event>, n: nat)
    requires IsRun(s, events) && n < |events|
    ensures AsksStep(At(s, events, n), events[n], At(s, events, n + 1))
    ensures events[n].AskCode? ==> events[n].requestId !in At(s, events, n).hist.asks
  {
    StepAt(s, events, n);
    StepAsks(At(s, events, n), events[n]);
  }

  /** The step that handed out a request id, and the number it has stood for since. */
  lemma {:induction false} AskingStep(s: State, events: seq<Event>, n: nat, r: string) returns (p: nat)
    requires IsRun(s, events) && n <= |events| && r !in s.hist.asks && r in At(s, events, n).hist.asks
    ensures p < n && events[p].AskCode? && events[p].requestId == r
    ensures |At(s, events, p).hist.auths| == At(s, events, n).hist.asks[r] == |At(s, events, p + 1).hist.auths| - 1
    decreases n
  {
    assert events[..0] == [];
    AsksAt(s, events, n - 1);
    if r in At(s, events, n - 1).hist.asks {
      p := AskingStep(s, events, n - 1, r);
    } else {
      p := n - 1;
    }
  }

  // --------------------------------------------------------------------- the theorem

  /** A step that minted code `k` for `b`: the client was there and enabled, the URI registered, and the
      consent row it leaves covers the scope; a consent answer was an approval from the same session. */
  ghost predicate Minting(s: State, e: Event, t: State, k: Digest, b: Binding) {
    && b.client in s.clients && s.clients[b.client].enabled && b.redirect in s.clients[b.client].redirectUris
    && Scopes.HasConsent(ConsentOf(t, b.user, b.client), b.scope)
    && (|| (e.AskCode? && k == Sha256(e.code))
        || (e.AnswerConsent? && k == Sha256(e.code) && e.approve
            && FindActive(s, e.sessionToken, e.io).1.Some? && FindActive(s, e.sessionToken, e.io).1.value.session == b.session))
  }

  lemma MintRecord(s: State, e: Event, t: State, k: Digest)
    requires Inv(s) && Inv(t) && RecordStep(s, e, t) && k !in s.hist.mints && k in t.hist.mints
    ensures t.hist.mints[k].auth < |t.hist.auths| && t.hist.mints[k].at == s.now
    ensures Minting(s, e, t, k, t.hist.auths[t.hist.mints[k].auth].binding)
    ensures e.AskCode? ==> t.hist.mints[k].auth == |s.hist.auths|
    ensures e.AnswerConsent? ==> e.requestId in s.hist.asks && s.hist.asks[e.requestId] == t.hist.mints[k].auth
  {
    assert MintOk(t.hist.mints[k], t.now, t.hist.auths);
    if e.AnswerConsent? {
      assert PendingBound(e.requestId, s.pending, s.hist.auths, s.hist.asks) && AskOk(e.requestId, s.hist.auths, s.hist.asks);
    }
  }

  /** The grant behind a token set. */
  lemma RedeemStage(s: State, events: seq<Event>, h: TokenHash) returns (q: nat)
    requires Inv(s) && IsRun(s, events) && h !in s.hist.issues
    requires h in After(s, events).hist.issues && After(s, events).hist.issues[h].origin.FromCode?
    ensures q < |events| && events[q].CodeGrant?
    ensures RedeemedBy(At(s, events, q), events[q].codeRequest, events[q].newRaw, h, After(s, events).hist.issues[h])
  {
    q := LastIssuing(s, events, h);
    IssueStays(s, events, q + 1, h);
    IssueAt(s, events, q, h, After(s, events).hist.issues[h]);
  }

  lemma IssueAt(s: State, events: seq<Event>, q: nat, h: TokenHash, i: Issue)
    requires IsRun(s, events) && q < |events| && NewCodeIssue(At(s, events, q), At(s, events, q + 1), h)
    requires At(s, events, q + 1).hist.issues[h] == i
    ensures events[q].CodeGrant?
    ensures RedeemedBy(At(s, events, q), events[q].codeRequest, events[q].newRaw, h, i)
  {
    StepAt(s, events, q);
    StepIssue(At(s, events, q), events[q], h);
  }

  lemma LastIssuing(s: State, events: seq<Event>, h: TokenHash) returns (q: nat)
    requires h !in s.hist.issues && h in After(s, events).hist.issues
    ensures q < |events| && h !in At(s, events, q).hist.issues && h in At(s, events, q + 1).hist.issues
  {
    AtEnd(s, events);
    q := IssuingStep(s, events, |events|, h);
  }

  /** An issue reads the same at the end of the run. */
  lemma IssueStays(s: State, events: seq<Event>, n: nat, h: TokenHash)
    requires Inv(s) && IsRun(s, events) && n <= |events| && h in At(s, events, n).hist.issues
    ensures h in After(s, events).hist.issues && After(s, events).hist.issues[h] == At(s, events, n).hist.issues[h]
  {
    AtEnd(s, events);
    AtEvolves(s, events, n, |events|);
    assert Lineage.IssueKept(h, At(s, events, n), After(s, events));
  }

  /** The answer is to the request that waits for this authorize step. */
  ghost predicate Answers(s: State, e: Event, auth: nat) {
    e.AnswerConsent? && e.requestId in s.hist.asks && s.hist.asks[e.requestId] == auth
  }

  /** The step that minted a code which is stored when event `q` happens. */
  lemma MintStage(s: State, events: seq<Event>, q: nat, k: Digest) returns (m: nat)
    requires Inv(s) && IsRun(s, events) && q < |events| && k !in s.hist.mints && k in At(s, events, q).hist.mints
    ensures m < q && k in At(s, events, m + 1).hist.mints
    ensures var t := At(s, events, m + 1);
            && t.hist.mints[k] == At(s, events, q).hist.mints[k] && t.hist.mints[k].at == At(s, events, m).now
            && t.hist.mints[k].auth < |t.hist.auths| && t.hist.auths <= At(s, events, q).hist.auths
            && Minting(At(s, events, m), events[m], t, k, t.hist.auths[t.hist.mints[k].auth].binding)
            && (events[m].AskCode? ==> t.hist.mints[k].auth == |At(s, events, m).hist.auths|)
            && (events[m].AnswerConsent? ==> Answers(At(s, events, m), events[m], t.hist.mints[k].auth))
  {
    m := MintingStep(s, events, q, k);
    AtKeeps(s, events, m);
    AtKeeps(s, events, m + 1);
    StepAt(s, events, m);
    StepRecord(At(s, events, m), events[m]);
    MintRecord(At(s, events, m), events[m], At(s, events, m + 1), k);
    RunGrows(s, events, m + 1, q);
  }

  /** The authorize request behind a recorded step. */
  lemma AuthStage(s: State, events: seq<Event>, n: nat, i: nat) returns (p: nat)
    requires Inv(s) && IsRun(s, events) && n <= |events| && |s.hist.auths| <= i < |At(s, events, n).hist.auths|
    ensures p < n && events[p].AskCode? && |At(s, events, p).hist.auths| == i && |At(s, events, p + 1).hist.auths| == i + 1
    ensures AuthorizedBy(At(s, events, p), events[p].request, events[p].io, At(s, events, n).hist.auths[i])
  {
    p := AuthorizingStep(s, events, n, i);
    AtKeeps(s, events, p);
    StepAt(s, events, p);
    StepRecord(At(s, events, p), events[p]);
    RunGrows(s, events, p + 1, n);
  }

  /** No PKCE downgrade: with a challenge in the request, or from a client that required PKCE at the time, the
      code stored an S256 challenge and was exchanged for the verifier behind it. */
  ghost predicate PkceHeld(i: Issue, a: AuthStep) {
    HasChallenge(a.binding.challenge) || a.row.pkceRequired ==>
      a.binding.challenge == Some(S256Of(i.verifier)) && a.binding.challengeMethod == Some("S256")
  }

  /** The token set carries what the authorize request was bound to, within what the client row allowed. */
  ghost predicate BoundTo(i: Issue, a: AuthStep) {
    && i.clientName == a.binding.client && i.redirect == a.binding.redirect
    && i.user == a.binding.user && i.session == a.binding.session && i.scope == a.binding.scope
    && a.binding.redirect in a.row.redirectUris && Scopes.IsSubsetOf(i.scope, a.row.scopes)
    && PkceHeld(i, a)
  }

  lemma IssueBound(s: State, h: TokenHash)
    requires Inv(s) && h in s.hist.issues && s.hist.issues[h].origin.FromCode?
    ensures var i := s.hist.issues[h];
            var k := i.origin.code;
            && k in s.hist.mints && s.hist.mints[k].auth < |s.hist.auths| && BoundTo(i, s.hist.auths[s.hist.mints[k].auth])
            && s.hist.mints[k].at <= i.at <= s.hist.mints[k].at + CODE_TTL
  {
    var i := s.hist.issues[h];
    assert CodeOriginOk(i, s.codes, s.hist.auths, s.hist.mints);
    assert AuthOk(s.hist.auths[s.hist.mints[i.origin.code].auth], s.now, s.hist.born);
  }

  /** Event `p` is the authorize request whose step the token set `h` came from. */
  ghost predicate ComesFrom(s: State, events: seq<Event>, h: TokenHash, p: nat)
    requires p < |events|
  {
    var t := After(s, events);
    && h in t.hist.issues && t.hist.issues[h].origin.FromCode? && t.hist.issues[h].origin.code in t.hist.mints
    && |At(s, events, p).hist.auths| == t.hist.mints[t.hist.issues[h].origin.code].auth == |At(s, events, p + 1).hist.auths| - 1
  }

  ghost predicate NoHistory(s: State) {
    s.hist.auths == [] && s.hist.asks == map[] && s.hist.mints == map[] && s.hist.issues == map[]
  }

  /** From a code known at event `q` back to its minting and its authorize request. */
  lemma CodeTraces(s: State, events: seq<Event>, q: nat, k: Digest) returns (p: nat, m: nat)
    requires Inv(s) && NoHistory(s) && IsRun(s, events) && q < |events|
    requires k in At(s, events, q).hist.mints && At(s, events, q).hist.mints[k].auth < |At(s, events, q).hist.auths|
    ensures p <= m < q
    ensures var mint := At(s, events, q).hist.mints[k];
            var a := At(s, events, q).hist.auths[mint.auth];
            && events[p].AskCode? && AuthorizedBy(At(s, events, p), events[p].request, events[p].io, a)
            && (m == p || (events[m].AnswerConsent? && events[m].requestId == events[p].requestId))
            && Minting(At(s, events, m), events[m], At(s, events, m + 1), k, a.binding) && mint.at == At(s, events, m).now
            && |At(s, events, p).hist.auths| == mint.auth == |At(s, events, p + 1).hist.auths| - 1
  {
    m := MintStage(s, events, q, k);
    p := AuthStage(s, events, m + 1, At(s, events, m + 1).hist.mints[k].auth);
    if p < m {
      AuthsMonotone(s, events, p + 1, m);
      AnswersItsRequest(s, events, p, m, At(s, events, m + 1).hist.mints[k].auth);
    }
  }

  /** An answer for step `i` carries the request id that the authorize request of that step handed out. */
  lemma AnswersItsRequest(s: State, events: seq<Event>, p: nat, m: nat, i: nat)
    requires Inv(s) && NoHistory(s) && IsRun(s, events) && p < m < |events| && Answers(At(s, events, m), events[m], i)
    requires |At(s, events, p).hist.auths| == i == |At(s, events, p + 1).hist.auths| - 1
    ensures events[p].AskCode? && events[p].requestId == events[m].requestId
  {
    var o := AskingStep(s, events, m, events[m].requestId);
    if p < o {
      AuthsMonotone(s, events, p + 1, o);
    } else if o < p {
      AuthsMonotone(s, events, o + 1, p);
    }
  }

  /** In every run, every token set from an authorization code goes back to an authorize request at some
      event `p` that passed every gate, a minting at `m` (the same event, or an approval of its consent page
      from the same session) and a redemption at `q`, within 180 seconds of the minting. */
  lemma TokenTraces(s: State, events: seq<Event>, h: TokenHash) returns (p: nat, m: nat, q: nat, a: AuthStep)
    requires Inv(s) && NoHistory(s) && IsRun(s, events)
    requires h in After(s, events).hist.issues && After(s, events).hist.issues[h].origin.FromCode?
    ensures p <= m < q < |events|
    ensures var i := After(s, events).hist.issues[h];
            && events[p].AskCode? && AuthorizedBy(At(s, events, p), events[p].request, events[p].io, a)
            && (m == p || (events[m].AnswerConsent? && events[m].requestId == events[p].requestId))
            && Minting(At(s, events, m), events[m], At(s, events, m + 1), i.origin.code, a.binding)
            && events[q].CodeGrant? && RedeemedBy(At(s, events, q), events[q].codeRequest, events[q].newRaw, h, i)
            && At(s, events, q).now <= At(s, events, m).now + CODE_TTL
            && BoundTo(i, a) && ComesFrom(s, events, h, p)
  {
    q := RedeemStage(s, events, h);
    var k := After(s, events).hist.issues[h].origin.code;
    StoredCodeKnown(s, events, q, k);
    p, m := CodeTraces(s, events, q, k);
    a := At(s, events, q).hist.auths[At(s, events, q).hist.mints[k].auth];
    RecordAtEnd(s, events, q);
    FinalIssueBound(s, events, h);
  }

  lemma StoredCodeKnown(s: State, events: seq<Event>, q: nat, k: Digest)
    requires Inv(s) && IsRun(s, events) && q < |events| && k in At(s, events, q).codes
    ensures k in At(s, events, q).hist.mints && At(s, events, q).hist.mints[k].auth < |At(s, events, q).hist.auths|
  {
    AtKeeps(s, events, q);
    CodeFacts(At(s, events, q), k);
  }

  lemma RecordAtEnd(s: State, events: seq<Event>, q: nat)
    requires Inv(s) && IsRun(s, events) && q < |events|
    ensures RecordGrows(At(s, events, q), After(s, events))
  {
    AtEnd(s, events);
    RunGrows(s, events, q, |events|);
  }

  lemma FinalIssueBound(s: State, events: seq<Event>, h: TokenHash)
    requires Inv(s) && IsRun(s, events) && h in After(s, events).hist.issues && After(s, events).hist.issues[h].origin.FromCode?
    ensures var t := After(s, events);
            var i := t.hist.issues[h];
            var k := i.origin.code;
            && k in t.hist.mints && t.hist.mints[k].auth < |t.hist.auths| && BoundTo(i, t.hist.auths[t.hist.mints[k].auth])
            && t.hist.mints[k].at <= i.at <= t.hist.mints[k].at + CODE_TTL
  {
    RunKeeps(s, events);
    IssueBound(After(s, events), h);
  }

  lemma {:induction false} AuthsMonotone(s: State, events: seq<Event>, m: nat, n: nat)
    requires Inv(s) && IsRun(s, events) && m <= n <= |events|
    ensures |At(s, events, m).hist.auths| <= |At(s, events, n).hist.auths|
  {
    RunGrows(s, events, m, n);
  }

  /** That authorize request is the only one, and it is behind no other token set. */
  lemma ExactlyOneAuthorize(s: State, events: seq<Event>, h: TokenHash, g: TokenHash, p: nat, o: nat)
    requires Inv(s) && IsRun(s, events) && p < |events| && o < |events|
    requires ComesFrom(s, events, h, p) && ComesFrom(s, events, g, o)
    ensures h == g <==> p == o
  {
    if p < o {
      AuthsMonotone(s, events, p + 1, o);
    } else if o < p {
      AuthsMonotone(s, events, o + 1, p);
    } else {
      RunKeeps(s, events);
      SameAuthSameToken(After(s, events), h, g);
    }
  }

  lemma SameAuthSameToken(s: State, h: TokenHash, g: TokenHash)
    requires Inv(s) && h in s.hist.issues && g in s.hist.issues
    requires s.hist.issues[h].origin.FromCode? && s.hist.issues[g].origin.FromCode?
    requires SameAuth(s.hist.issues[h].origin.code, s.hist.issues[g].origin.code, s.hist.mints)
    ensures h == g
  {
    assert SameOrigin(h, g, s.hist.issues);
  }

  lemma SuccessRecorded(s: State, r: CodeRequest, newRaw: string)
    requires RedeemCode(s, r, newRaw).1.Issued?
    ensures var t := RedeemCode(s, r, newRaw).0;
            Hmac(newRaw) in t.hist.issues && t.hist.issues[Hmac(newRaw)].origin == FromCode(Sha256(r.code))
  {
    ExchangeParts(s, r, newRaw);
  }

  /** The token set came from the code, which is gone, and carries what its authorize request was bound to. */
  ghost predicate Justified(s: State, h: TokenHash, k: Digest) {
    && h in s.hist.issues && s.hist.issues[h].origin == FromCode(k) && k !in s.codes
    && k in s.hist.mints && s.hist.mints[k].auth < |s.hist.auths| && BoundTo(s.hist.issues[h], s.hist.auths[s.hist.mints[k].auth])
    && s.hist.mints[k].at <= s.hist.issues[h].at <= s.hist.mints[k].at + CODE_TTL
  }

  lemma SuccessJustified(s: State, r: CodeRequest, newRaw: string)
    requires Inv(s) && Hmac(newRaw) !in s.hist.issues
    ensures RedeemCode(s, r, newRaw).1.Issued? ==> Justified(RedeemCode(s, r, newRaw).0, Hmac(newRaw), Sha256(r.code))
  {
    if RedeemCode(s, r, newRaw).1.Issued? {
      var t := RedeemCode(s, r, newRaw).0;
      RedeemCodeKeeps(s, r, newRaw);
      SuccessRecorded(s, r, newRaw);
      IssueJustified(t, Hmac(newRaw));
    }
  }

  lemma IssueJustified(s: State, h: TokenHash)
    requires Inv(s) && h in s.hist.issues && s.hist.issues[h].origin.FromCode?
    ensures Justified(s, h, s.hist.issues[h].origin.code)
  {
    IssueBound(s, h);
    assert CodeOriginOk(s.hist.issues[h], s.codes, s.hist.auths, s.hist.mints);
  }

  lemma SpentCodeFails(s: State, r: CodeRequest, newRaw: string, h: TokenHash)
    requires Inv(s) && h in s.hist.issues && s.hist.issues[h].origin == FromCode(Sha256(r.code))
    ensures RedeemCode(s, r, newRaw).1.Failed?
  {
    assert CodeOriginOk(s.hist.issues[h], s.codes, s.hist.auths, s.hist.mints);
  }

  lemma SuccessAt(s: State, events: seq<Event>, q: nat)
    requires IsRun(s, events) && q < |events| && events[q].CodeGrant?
    requires RedeemCode(At(s, events, q), events[q].codeRequest, events[q].newRaw).1.Issued?
    ensures var h, issues := Hmac(events[q].newRaw), At(s, events, q + 1).hist.issues;
            h in issues && issues[h].origin == FromCode(Sha256(events[q].codeRequest.code))
  {
    StepAt(s, events, q);
    SuccessRecorded(At(s, events, q), events[q].codeRequest, events[q].newRaw);
  }

  lemma SuccessStays(s: State, events: seq<Event>, q: nat, n: nat)
    requires Inv(s) && IsRun(s, events) && q < n < |events| && events[q].CodeGrant?
    requires RedeemCode(At(s, events, q), events[q].codeRequest, events[q].newRaw).1.Issued?
    ensures var h, issues := Hmac(events[q].newRaw), At(s, events, n).hist.issues;
            h in issues && issues[h].origin == FromCode(Sha256(events[q].codeRequest.code))
  {
    SuccessAt(s, events, q);
    AtEvolves(s, events, q + 1, n);
    assert Lineage.IssueKept(Hmac(events[q].newRaw), At(s, events, q + 1), At(s, events, n));
  }

  /** A code that was redeemed at one event is refused at every later one. */
  lemma CodeRedeemedOnce(s: State, events: seq<Event>, q: nat, n: nat)
    requires Inv(s) && IsRun(s, events) && q < n < |events| && events[q].CodeGrant? && events[n].CodeGrant?
    requires events[q].codeRequest.code == events[n].codeRequest.code
    requires RedeemCode(At(s, events, q), events[q].codeRequest, events[q].newRaw).1.Issued?
    ensures RedeemCode(At(s, events, n), events[n].codeRequest, events[n].newRaw).1.Failed?
  {
    SuccessStays(s, events, q, n);
    AtKeeps(s, events, n);
    SpentCodeFails(At(s, events, n), events[n].codeRequest, events[n].newRaw, Hmac(events[q].newRaw));
  }
}
