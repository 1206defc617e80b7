/** Refresh-token rotation over whole runs: lineages are chains, revocation is final, and replay of a
    rotated token is always noticed. */
module Lineage {
  import opened Base
  import opened Store
  import opened Flows
  import opened Invariants
  import opened Machine

  /** The token could still be redeemed as far as its own row goes. */
  ghost predicate Live(s: State, h: TokenHash) {
    h in s.refresh && !s.refresh[h].revoked
  }

  ghost predicate Rotated(s: State, h: TokenHash) {
    exists a :: a in s.hist.issues && s.hist.issues[a].origin == FromRefresh(h)
  }

  // ------------------------------------------------------------------------ chains

  ghost predicate Link(i: Issue, issues: map<TokenHash, Issue>) {
    i.origin.FromRefresh? ==>
      i.origin.parent in issues && issues[i.origin.parent].serial < i.serial && issues[i.origin.parent].session == i.session
  }

  ghost predicate Linked(issues: map<TokenHash, Issue>) {
    && OriginsUnique(issues)
    && forall h {:trigger Link(issues[h], issues)} | h in issues :: Link(issues[h], issues)
  }

  lemma InvLinked(s: State)
    requires Inv(s)
    ensures Linked(s.hist.issues)
  {
    forall h | h in s.hist.issues
      ensures Link(s.hist.issues[h], s.hist.issues)
    {
      assert ParentOk(s.hist.issues[h], s.refresh, s.hist.issues);
    }
  }

  /** The code or device grant a token descends from. */
  ghost function Root(issues: map<TokenHash, Issue>, h: TokenHash): (root: TokenHash)
    requires Linked(issues) && h in issues
    ensures root in issues && !issues[root].origin.FromRefresh? && issues[root].session == issues[h].session
    decreases issues[h].serial
  {
    assert Link(issues[h], issues);
    if issues[h].origin.FromRefresh? then Root(issues, issues[h].origin.parent) else h
  }

  /** How many rotations lie between a token and its root. */
  ghost function Depth(issues: map<TokenHash, Issue>, h: TokenHash): nat
    requires Linked(issues) && h in issues
    decreases issues[h].serial
  {
    assert Link(issues[h], issues);
    if issues[h].origin.FromRefresh? then 1 + Depth(issues, issues[h].origin.parent) else 0
  }

  /** Root and depth identify a token: a lineage does not branch. */
  lemma {:induction false} NoBranching(issues: map<TokenHash, Issue>, a: TokenHash, b: TokenHash)
    requires Linked(issues) && a in issues && b in issues
    requires Root(issues, a) == Root(issues, b) && Depth(issues, a) == Depth(issues, b)
    ensures a == b
    decreases Depth(issues, a)
  {
    if Depth(issues, a) > 0 {
      assert Link(issues[a], issues) && Link(issues[b], issues);
      NoBranching(issues, issues[a].origin.parent, issues[b].origin.parent);
      assert SameOrigin(a, b, issues);
    }
  }

  /** Every token but the last of a lineage has a successor. */
  lemma {:induction false} EarlierIsRotated(s: State, a: TokenHash, b: TokenHash)
    requires Linked(s.hist.issues) && a in s.hist.issues && b in s.hist.issues
    requires Root(s.hist.issues, a) == Root(s.hist.issues, b) && Depth(s.hist.issues, a) < Depth(s.hist.issues, b)
    ensures Rotated(s, a)
    decreases Depth(s.hist.issues, b)
  {
    var issues := s.hist.issues;
    assert Link(issues[b], issues);
    var p := issues[b].origin.parent;
    if Depth(issues, p) == Depth(issues, a) {
      NoBranching(issues, a, p);
    } else {
      EarlierIsRotated(s, a, p);
    }
  }

  lemma RotatedIsNotLive(s: State, h: TokenHash)
    requires Inv(s) && Rotated(s, h)
    ensures h in s.hist.issues && !Live(s, h)
  {
    var a :| a in s.hist.issues && s.hist.issues[a].origin == FromRefresh(h);
    assert ParentOk(s.hist.issues[a], s.refresh, s.hist.issues);
  }

  /** In every reachable state: each code, device code and refresh token was redeemed at most once, and two
      different live tokens never descend from the same grant, so only the last token of a lineage can be
      unrevoked. */
  lemma LineagesAreChains(s: State)
    requires Reachable(s)
    ensures Linked(s.hist.issues)
    ensures forall a, b | a in s.hist.issues && b in s.hist.issues && s.hist.issues[a].origin == s.hist.issues[b].origin :: a == b
    ensures forall a, b | a in s.hist.issues && b in s.hist.issues && Live(s, a) && a != b
                          && Root(s.hist.issues, a) == Root(s.hist.issues, b) ::
              !Live(s, b) && Depth(s.hist.issues, b) < Depth(s.hist.issues, a)
  {
    ReachableOk(s);
    InvLinked(s);
    RedeemedOnce(s.hist.issues);
    forall a, b | a in s.hist.issues && b in s.hist.issues && Live(s, a) && a != b && Root(s.hist.issues, a) == Root(s.hist.issues, b)
      ensures !Live(s, b) && Depth(s.hist.issues, b) < Depth(s.hist.issues, a)
    {
      OneLivePerLineage(s, a, b);
    }
  }

  lemma RedeemedOnce(issues: map<TokenHash, Issue>)
    requires OriginsUnique(issues)
    ensures forall a, b | a in issues && b in issues && issues[a].origin == issues[b].origin :: a == b
  {
    forall a, b | a in issues && b in issues && issues[a].origin == issues[b].origin
      ensures a == b
    {
      assert SameOrigin(a, b, issues);
    }
  }

  lemma OneLivePerLineage(s: State, a: TokenHash, b: TokenHash)
    requires Inv(s) && Linked(s.hist.issues) && a in s.hist.issues && b in s.hist.issues
    requires Live(s, a) && a != b && Root(s.hist.issues, a) == Root(s.hist.issues, b)
    ensures !Live(s, b) && Depth(s.hist.issues, b) < Depth(s.hist.issues, a)
  {
    var issues := s.hist.issues;
    if Depth(issues, a) == Depth(issues, b) {
      NoBranching(issues, a, b);
    } else if Depth(issues, a) < Depth(issues, b) {
      EarlierIsRotated(s, a, b);
      RotatedIsNotLive(s, a);
    } else {
      EarlierIsRotated(s, b, a);
      RotatedIsNotLive(s, b);
    }
  }

  // ------------------------------------------------------------------------- counts

  ghost function LiveTokens(s: State, sid: SessionId): set<TokenHash> {
    set h | h in s.refresh && s.refresh[h].session == sid && !s.refresh[h].revoked
  }

  ghost function Grants(s: State, sid: SessionId): set<TokenHash> {
    set h | h in s.hist.issues && s.hist.issues[h].session == sid && !s.hist.issues[h].origin.FromRefresh?
  }

  ghost predicate RootsInto(issues: map<TokenHash, Issue>, live: set<TokenHash>, grants: set<TokenHash>)
    requires Linked(issues)
  {
    && (forall h | h in live :: h in issues && Root(issues, h) in grants)
    && (forall a, b | a in live && b in live && a != b :: Root(issues, a) != Root(issues, b))
  }

  lemma {:induction false} InjectionBound(issues: map<TokenHash, Issue>, live: set<TokenHash>, grants: set<TokenHash>)
    requires Linked(issues) && live <= issues.Keys && RootsInto(issues, live, grants)
    ensures |live| <= |grants|
  {
    if h :| h in live {
      var rest := live - {h};
      assert forall a | a in rest :: Root(issues, a) in grants - {Root(issues, h)};
      InjectionBound(issues, rest, grants - {Root(issues, h)});
    }
  }

  /** A session never has more live refresh tokens than codes and device codes were redeemed under it. */
  lemma LiveTokensBounded(s: State, sid: SessionId)
    requires Reachable(s)
    ensures |LiveTokens(s, sid)| <= |Grants(s, sid)|
  {
    ReachableOk(s);
    InvLinked(s);
    var issues, live := s.hist.issues, LiveTokens(s, sid);
    forall h | h in live
      ensures h in issues && Root(issues, h) in Grants(s, sid)
    {
      assert RowIssued(h, s.refresh, issues);
    }
    forall a, b | a in live && b in live && a != b
      ensures Root(issues, a) != Root(issues, b)
    {
      if Root(issues, a) == Root(issues, b) { OneLivePerLineage(s, a, b); }
    }
    InjectionBound(issues, live, Grants(s, sid));
  }

  // ------------------------------------------------------------------ dead for good

  /** Issued, and its row is revoked or gone. */
  ghost predicate Dead(s: State, h: TokenHash) {
    h in s.hist.issues && (h in s.refresh ==> s.refresh[h].revoked)
  }

  /** A row that was ever issued before is still the same row, and `revoked` never goes back. */
  ghost predicate RowKept(h: TokenHash, s: State, t: State) {
    h in t.refresh && h in s.hist.issues ==>
      h in s.refresh && t.refresh[h] == s.refresh[h].(revoked := t.refresh[h].revoked) && (s.refresh[h].revoked ==> t.refresh[h].revoked)
  }

  /** Issues are never forgotten, and a new one that rotates an old token found that token alive. */
  ghost predicate IssueKept(h: TokenHash, s: State, t: State) {
    && (h in s.hist.issues ==> h in t.hist.issues && t.hist.issues[h] == s.hist.issues[h])
    && (h in t.hist.issues && h !in s.hist.issues && t.hist.issues[h].origin.FromRefresh? ==> !Dead(s, t.hist.issues[h].origin.parent))
  }

  /** How the token table may change. */
  ghost predicate Evolves(s: State, t: State) {
    && (forall h {:trigger RowKept(h, s, t)} :: RowKept(h, s, t))
    && (forall h {:trigger IssueKept(h, s, t)} :: IssueKept(h, s, t))
  }

  lemma DeadStays(s: State, t: State, h: TokenHash)
    requires Evolves(s, t) && Dead(s, h)
    ensures Dead(t, h)
  {
    assert RowKept(h, s, t) && IssueKept(h, s, t);
  }

  /** Presenting a dead token never succeeds. */
  lemma DeadIsRefused(s: State, r: RefreshRequest, newRaw: string)
    requires Dead(s, Hmac(r.raw))
    ensures Refresh(s, r, newRaw).1.Failed?
  {
  }

  lemma EvolvesTransitive(s: State, t: State, u: State)
    requires Evolves(s, t) && Evolves(t, u)
    ensures Evolves(s, u)
  {
    forall h: TokenHash
      ensures RowKept(h, s, u) && IssueKept(h, s, u)
    {
      assert RowKept(h, s, t) && RowKept(h, t, u) && IssueKept(h, s, t) && IssueKept(h, t, u);
      if h in u.hist.issues && h !in t.hist.issues && u.hist.issues[h].origin.FromRefresh? {
        var p := u.hist.issues[h].origin.parent;
        if Dead(s, p) { DeadStays(s, t, p); }
      }
    }
  }

  lemma WeakerEvolves(s: State, t: State)
    requires Weaker(t.refresh, s.refresh) && t.hist.issues == s.hist.issues
    ensures Evolves(s, t)
  {
  }

  lemma IssueEvolves(s: State, h: TokenHash, i: Issue)
    requires h !in s.hist.issues && (i.origin.FromRefresh? ==> !Dead(s, i.origin.parent))
    ensures Evolves(s, AddIssue(s, h, i))
  {
  }

  lemma EndedEvolves(s: State, mid: State, rows: set<TokenHash>, sids: set<SessionId>, reach: Reach)
    requires mid.refresh == s.refresh && mid.hist == s.hist
    ensures Evolves(s, Ended(mid, rows, sids, reach))
  {
    WeakerEvolves(s, Ended(mid, rows, sids, reach));
  }

  lemma DeleteSessionEvolves(s: State, sid: SessionId, delOk: bool, reach: Reach)
    ensures Evolves(s, DeleteSession(s, sid, delOk, reach))
  {
    if sid in s.sessions && !delOk {
      WeakerEvolves(s, s);
    } else {
      EndedEvolves(s, s.(cache := s.cache - CacheKeys(s.sessions, {sid})), RowsOfSession(s.refresh, sid), {sid}, reach);
    }
  }

  lemma LogoutEvolves(s: State, sid: SessionId, delOk: bool, reach: Reach)
    ensures Evolves(s, Logout(s, sid, delOk, reach))
  {
    var t := s.(refresh := Revoked(s.refresh, RowsOfSession(s.refresh, sid)));
    WeakerEvolves(s, t);
    DeleteSessionEvolves(t, sid, delOk, reach);
    EvolvesTransitive(s, t, Logout(s, sid, delOk, reach));
  }

  lemma DeleteAllEvolves(s: State, u: UserId, keep: Option<SessionId>, dels: set<Digest>, reach: Reach)
    ensures Evolves(s, DeleteAll(s, u, keep, dels, reach))
  {
    var targets := SessionsOfUser(s.sessions, u, keep);
    var keys := CacheKeys(s.sessions, targets);
    var mid := s.(cache := s.cache - (keys * dels));
    if keys <= dels {
      EndedEvolves(s, mid, RowsOfUser(s.refresh, u, keep), targets, reach);
    } else {
      WeakerEvolves(s, mid);
    }
  }

  lemma DeleteUserEvolves(s: State, u: UserId, dels: set<Digest>)
    ensures Evolves(s, DeleteUser(s, u, dels))
  {
    var t := DeleteAll(s, u, None, dels, Finished);
    DeleteAllEvolves(s, u, None, dels, Finished);
    DropUserEvolves(t, u);
    EvolvesTransitive(s, t, DropUser(t, u));
  }

  lemma DropUserEvolves(s: State, u: UserId)
    ensures Evolves(s, DropUser(s, u))
  {
    WeakerEvolves(s, DropUser(s, u));
  }

  lemma ConsumeResetEvolves(s: State, raw: string, bytes: nat, dels: set<Digest>)
    ensures Evolves(s, ConsumeReset(s, raw, bytes, dels).0)
  {
    var reset := UsableReset(s, raw);
    WeakerEvolves(s, s);
    if reset.Some? {
      var t := ConsumeResets(s, reset.value.user);
      WeakerEvolves(s, t);
      DeleteAllEvolves(t, reset.value.user, None, dels, Finished);
      EvolvesTransitive(s, t, DeleteAll(t, reset.value.user, None, dels, Finished));
    }
  }

  lemma RefreshEvolves(s: State, r: RefreshRequest, newRaw: string)
    requires Inv(s) && Hmac(newRaw) !in s.hist.issues
    ensures Evolves(s, Refresh(s, r, newRaw).0)
  {
    var h := Hmac(r.raw);
    if Replayed(s, r) || RefreshError(s, r).Some? {
      WeakerEvolves(s, Refresh(s, r, newRaw).0);
    } else {
      var t := Refresh(s, r, newRaw).0;
      var mid := s.(refresh := Revoked(s.refresh, {h}));
      forall a: TokenHash
        ensures RowKept(a, s, t) && IssueKept(a, s, t)
      {
        assert a != Hmac(newRaw) ==> (a in t.refresh <==> a in s.refresh);
      }
    }
  }

  lemma RedeemCodeEvolves(s: State, r: CodeRequest, newRaw: string)
    requires Hmac(newRaw) !in s.hist.issues
    ensures Evolves(s, RedeemCode(s, r, newRaw).0)
  {
    RedeemCodeParts(s, r, newRaw);
    WeakerEvolves(s, s);
    if Sha256(r.code) in s.codes && r.clientId in s.clients {
      var mid := s.(codes := s.codes - {Sha256(r.code)});
      WeakerEvolves(s, mid);
      IssueEvolves(mid, Hmac(newRaw), ExchangeIssue(s, r));
      EvolvesTransitive(s, mid, AddIssue(mid, Hmac(newRaw), ExchangeIssue(s, r)));
    }
  }

  lemma RedeemDeviceEvolves(s: State, r: DeviceRequest, newRaw: string, commits: bool)
    requires Hmac(newRaw) !in s.hist.issues
    ensures Evolves(s, RedeemDevice(s, r, newRaw, commits).0)
  {
    RedeemDeviceParts(s, r, newRaw, commits);
    WeakerEvolves(s, s);
    if DeviceError(s, r).None? && r.clientId in s.clients {
      var d := LiveDevice(s, r.deviceCode).value;
      var mid := UpdateDevice(s, d.(status := "consumed"));
      var i := Issue(FromDevice(r.deviceCode), r.clientId, "", "", s.clients[r.clientId].key, d.user.value, d.session.value, d.scope, s.now, |s.hist.issues|);
      UpdateOnly(s, d.(status := "consumed"));
      WeakerEvolves(s, mid);
      IssueEvolves(mid, Hmac(newRaw), i);
      EvolvesTransitive(s, mid, AddIssue(mid, Hmac(newRaw), i));
    }
  }

  lemma AdministrationEvolves(s: State, e: Event)
    requires IsAdministration(e)
    ensures Evolves(s, AdministrationStep(s, e))
  {
    match e {
      case Tick(later) => WeakerEvolves(s, s.(now := later));
      case AddUser(u, user) => WeakerEvolves(s, WithUser(s, u, user));
      case UpdateUser(u, user) => WeakerEvolves(s, s); WeakerEvolves(s, WithUser(s, u, user));
      case RemoveUser(u, dels) => DeleteUserEvolves(s, u, dels);
      case PutClient(name, client) => WeakerEvolves(s, WithClient(s, name, client));
      case RemoveClient(name) => DropClientEvolves(s, name);
      case WithdrawConsent(u, key) => WeakerEvolves(s, s.(consents := s.consents - {(u, key)}));
      case RedisLoses(c, k, r, d, p) => WeakerEvolves(s, Lose(s, c, k, r, d, p));
    }
  }

  lemma DropClientEvolves(s: State, name: string)
    ensures Evolves(s, DropClient(s, name))
  {
    WeakerEvolves(s, DropClient(s, name));
  }

  lemma SessionEventEvolves(s: State, e: Event)
    requires IsSessionEvent(e)
    ensures Evolves(s, SessionStep(s, e))
  {
    match e {
      case Login(_, _, _, _) => WeakerEvolves(s, SessionStep(s, e));
      case LookUp(token, io) => FindByTokenFrame(s, token, io); WeakerEvolves(s, SessionStep(s, e));
      case EndSession(sid, delOk, reach) => DeleteSessionEvolves(s, sid, delOk, reach);
      case EndSessions(u, keep, dels, reach) => DeleteAllEvolves(s, u, keep, dels, reach);
      case LogOut(sid, delOk, reach) => LogoutEvolves(s, sid, delOk, reach);
      case RevokeToken(_, _, _) => WeakerEvolves(s, SessionStep(s, e));
      case SweepTokens => WeakerEvolves(s, SessionStep(s, e));
      case AskReset(_, _) => WeakerEvolves(s, SessionStep(s, e));
      case UseReset(raw, bytes, dels) => ConsumeResetEvolves(s, raw, bytes, dels);
    }
  }

  lemma GrantEventEvolves(s: State, e: Event)
    requires Inv(s) && Enabled(s, e) && !IsAdministration(e) && !IsSessionEvent(e)
    ensures Evolves(s, GrantStep(s, e))
  {
    match e {
      case AskCode(r, code, requestId, io) =>
        FindActiveFrame(s, r.sessionToken, io); AuthorizeFrame(s, r, code, requestId, io); WeakerEvolves(s, GrantStep(s, e));
      case AnswerConsent(token, requestId, approve, code, io) =>
        FindActiveFrame(s, token, io); SubmitConsentFrame(s, token, requestId, approve, code, io); WeakerEvolves(s, GrantStep(s, e));
      case CodeGrant(r, newRaw) => RedeemCodeEvolves(s, r, newRaw);
      case RefreshGrant(r, newRaw) => RefreshEvolves(s, r, newRaw);
      case DeviceGrant(r, newRaw, commits) => RedeemDeviceEvolves(s, r, newRaw, commits);
      case AskDevice(clientId, scope, id, deviceCode, draws) =>
        RequestDeviceFrame(s, clientId, scope, id, deviceCode, draws); WeakerEvolves(s, GrantStep(s, e));
      case AnswerDevice(userCode, token, approve, io) =>
        VerifyFrame(s, userCode, token, approve, io); WeakerEvolves(s, GrantStep(s, e));
    }
  }

  lemma StepEvolves(s: State, e: Event)
    requires Inv(s) && Enabled(s, e)
    ensures Evolves(s, Step(s, e))
  {
    if IsAdministration(e) {
      AdministrationEvolves(s, e);
    } else if IsSessionEvent(e) {
      SessionEventEvolves(s, e);
    } else {
      GrantEventEvolves(s, e);
    }
  }

  /** `revoked` never goes back to false and no redeemed, revoked or deleted token is ever redeemed again,
      in any continuation of any reachable state. */
  lemma {:induction false} RunEvolves(s: State, events: seq<Event>)
    requires Inv(s) && IsRun(s, events)
    ensures Evolves(s, After(s, events))
    decreases |events|
  {
    if events == [] {
      WeakerEvolves(s, s);
    } else {
      var t := Step(s, events[0]);
      StepKeeps(s, events[0]);
      StepEvolves(s, events[0]);
      RunEvolves(t, events[1..]);
      EvolvesTransitive(s, t, After(s, events));
    }
  }

  // ------------------------------------------------------------------------- replay

  /** Within its lifetime, and while its session and its client exist, an issued token has its row. */
  lemma RowStillThere(s: State, h: TokenHash)
    requires Inv(s) && h in s.hist.issues
    requires s.hist.issues[h].session in s.sessions && s.hist.issues[h].client in ClientKeys(s.clients)
    requires s.now <= s.hist.issues[h].at + REFRESH_TTL
    ensures h in s.refresh && s.refresh[h].session == s.hist.issues[h].session
  {
    assert RowPresent(h, s.hist.issues[h], s.now, s.sessions, s.clients, s.refresh);
    assert RowIssued(h, s.refresh, s.hist.issues);
  }

  /** Replay detection is complete: an already rotated, unexpired token presented by any authenticated
      client, while the token's session and client exist, is found; every refresh token of the session is
      then dead, and none of them is redeemed in any continuation. */
  lemma ReplayDetected(s: State, r: RefreshRequest, newRaw: string, later: seq<Event>)
    requires Reachable(s) && Rotated(s, Hmac(r.raw)) && Hmac(r.raw) in s.hist.issues
    requires var i := s.hist.issues[Hmac(r.raw)];
             i.session in s.sessions && i.client in ClientKeys(s.clients) && s.now <= i.at + REFRESH_TTL
    requires r.raw != "" && r.clientId != "" && ClientError(s, r.clientId, r.secret).None?
    requires Hmac(newRaw) !in s.hist.issues && IsRun(Refresh(s, r, newRaw).0, later)
    ensures var sid := s.hist.issues[Hmac(r.raw)].session;
            var t := Refresh(s, r, newRaw).0;
            var u := After(t, later);
            && Replayed(s, r) && Refresh(s, r, newRaw).1 == Failed(InvalidGrant)
            && LiveTokens(t, sid) == {} && FamilyEnded(s, t, u, sid)
  {
    ReachableOk(s);
    ReplayNoticed(s, r);
    ReplayEnds(s, r, newRaw, later);
  }

  /** No issue between `t` and `w` rotates the token. */
  ghost predicate NeverRotated(t: State, w: State, h: TokenHash) {
    forall b | b in w.hist.issues && b !in t.hist.issues :: w.hist.issues[b].origin != FromRefresh(h)
  }

  /** Every token the session had in `s` is dead in `t` and in `u`, and none is rotated in between. */
  ghost predicate FamilyEnded(s: State, t: State, u: State, sid: SessionId) {
    forall a | a in s.refresh && s.refresh[a].session == sid :: Dead(t, a) && Dead(u, a) && NeverRotated(t, u, a)
  }

  lemma ReplayNoticed(s: State, r: RefreshRequest)
    requires Inv(s) && Rotated(s, Hmac(r.raw)) && Hmac(r.raw) in s.hist.issues
    requires var i := s.hist.issues[Hmac(r.raw)];
             i.session in s.sessions && i.client in ClientKeys(s.clients) && s.now <= i.at + REFRESH_TTL
    requires r.raw != "" && r.clientId != "" && ClientError(s, r.clientId, r.secret).None?
    ensures Replayed(s, r) && s.refresh[Hmac(r.raw)].session == s.hist.issues[Hmac(r.raw)].session
  {
    RotatedIsNotLive(s, Hmac(r.raw));
    RowStillThere(s, Hmac(r.raw));
  }

  lemma ReplayEnds(s: State, r: RefreshRequest, newRaw: string, later: seq<Event>)
    requires Inv(s) && Replayed(s, r) && Hmac(newRaw) !in s.hist.issues && IsRun(Refresh(s, r, newRaw).0, later)
    ensures var sid, t := s.refresh[Hmac(r.raw)].session, Refresh(s, r, newRaw).0;
            && Refresh(s, r, newRaw).1 == Failed(InvalidGrant)
            && LiveTokens(t, sid) == {} && FamilyEnded(s, t, After(t, later), sid)
  {
    var t := Refresh(s, r, newRaw).0;
    RefreshKeeps(s, r, newRaw);
    RunEvolves(t, later);
    FamilyDies(s, r, newRaw, t, After(t, later));
  }

  lemma FamilyDies(s: State, r: RefreshRequest, newRaw: string, t: State, u: State)
    requires Inv(s) && Replayed(s, r) && t == Refresh(s, r, newRaw).0 && Evolves(t, u)
    ensures LiveTokens(t, s.refresh[Hmac(r.raw)].session) == {} && FamilyEnded(s, t, u, s.refresh[Hmac(r.raw)].session)
  {
    var sid := s.refresh[Hmac(r.raw)].session;
    assert t.refresh == Revoked(s.refresh, RowsOfSession(s.refresh, sid)) && t.hist == s.hist;
    forall a | a in s.refresh && s.refresh[a].session == sid
      ensures Dead(t, a) && Dead(u, a) && NeverRotated(t, u, a)
    {
      assert RowIssued(a, s.refresh, s.hist.issues);
      DeadIsFinal(t, u, a);
    }
  }

  lemma DeadIsFinal(t: State, u: State, a: TokenHash)
    requires Evolves(t, u) && Dead(t, a)
    ensures Dead(u, a) && NeverRotated(t, u, a)
  {
    DeadStays(t, u, a);
    forall b | b in u.hist.issues && b !in t.hist.issues
      ensures u.hist.issues[b].origin != FromRefresh(a)
    {
      assert IssueKept(b, t, u);
    }
  }

  /** A live, unexpired token of the presenting, authenticated client, whose user is enabled. */
  ghost predicate Redeemable(s: State, r: RefreshRequest) {
    var h := Hmac(r.raw);
    && r.raw != "" && r.clientId != "" && ClientError(s, r.clientId, r.secret).None?
    && Live(s, h) && (s.refresh[h].expires.Some? ==> s.now <= s.refresh[h].expires.value)
    && s.refresh[h].client == s.clients[r.clientId].key
    && s.refresh[h].user in s.users && s.users[s.refresh[h].user].enabled
  }

  /** `h` is dead, its one successor `g` is live for the same user, client and session, and no other token of
      the table changed. */
  ghost predicate RotatedTo(s: State, t: State, h: TokenHash, g: TokenHash) {
    && h in s.refresh && Dead(t, h) && Live(t, g) && g in t.hist.issues && t.hist.issues[g].origin == FromRefresh(h)
    && t.refresh[g] == s.refresh[h].(expires := Some(s.now + REFRESH_TTL))
    && forall a | a != h && a != g :: (a in t.refresh <==> a in s.refresh) && (a in s.refresh ==> t.refresh[a] == s.refresh[a])
  }

  /** Conversely a refresh succeeds exactly for a redeemable token, and then rotates it. */
  lemma RefreshExact(s: State, r: RefreshRequest, newRaw: string)
    requires Inv(s) && Hmac(newRaw) !in s.hist.issues
    ensures var (t, result) := Refresh(s, r, newRaw);
            && (result.Issued? <==> Redeemable(s, r))
            && (result.Issued? ==> RotatedTo(s, t, Hmac(r.raw), Hmac(newRaw)))
  {
    var h := Hmac(r.raw);
    RefreshParts(s, r, newRaw);
    if h in s.refresh {
      assert RowOwned(s.refresh[h], s.sessions, s.clients);
      assert RowIssued(h, s.refresh, s.hist.issues);
    }
    if RefreshError(s, r).None? { RotationEffect(s, r, newRaw); }
  }

  lemma RotationEffect(s: State, r: RefreshRequest, newRaw: string)
    requires RefreshError(s, r).None? && Hmac(r.raw) in s.hist.issues && Hmac(newRaw) !in s.hist.issues
    ensures RotatedTo(s, AddIssue(s.(refresh := Revoked(s.refresh, {Hmac(r.raw)})), Hmac(newRaw), RotationIssue(s, r)), Hmac(r.raw), Hmac(newRaw))
  {
  }
}
