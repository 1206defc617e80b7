/** What every handler keeps, stated table by table, and the proof for each elementary effect. */
module Invariants {
  import opened Base
  import opened Store
  import opened Flows
  import Scopes
  import DeviceCodes

  // ------------------------------------------------------------- tables and cache

  /** A refresh row belongs to an existing session of the row's own user, and to an existing client. */
  ghost predicate RowOwned(r: RefreshRow, sessions: map<SessionId, Session>, clients: map<string, Client>) {
    r.session in sessions && sessions[r.session].user == r.user && r.client in ClientKeys(clients)
  }

  ghost predicate SameKey(m: string, n: string, clients: map<string, Client>) {
    m in clients && n in clients && clients[m].key == clients[n].key
  }

  ghost predicate SameToken(a: SessionId, b: SessionId, born: map<SessionId, Session>) {
    a in born && b in born && born[a].token == born[b].token
  }

  ghost predicate SessionOk(sid: SessionId, users: map<UserId, User>, sessions: map<SessionId, Session>, born: map<SessionId, Session>)
    requires sid in sessions
  {
    sid in born && sessions[sid] == born[sid] && sessions[sid].user in users
  }

  ghost predicate BornOk(row: Session, everUsers: set<UserId>) {
    row.user in everUsers && row.token != ""
  }

  ghost predicate TablesOk(
    users: map<UserId, User>, clients: map<string, Client>, sessions: map<SessionId, Session>,
    refresh: map<TokenHash, RefreshRow>, everUsers: set<UserId>, everKeys: set<ClientKey>, born: map<SessionId, Session>)
  {
    && users.Keys <= everUsers
    && ClientKeys(clients) <= everKeys
    && (forall m, n {:trigger SameKey(m, n, clients)} | SameKey(m, n, clients) :: m == n)
    && (forall sid {:trigger SessionOk(sid, users, sessions, born)} | sid in sessions :: SessionOk(sid, users, sessions, born))
    && (forall sid {:trigger BornOk(born[sid], everUsers)} | sid in born :: BornOk(born[sid], everUsers))
    && (forall a, b {:trigger SameToken(a, b, born)} | SameToken(a, b, born) :: a == b)
    && (forall h {:trigger RowOwned(refresh[h], sessions, clients)} | h in refresh :: RowOwned(refresh[h], sessions, clients))
  }

  /** A cache entry describes a session that once existed, dies no later than it expires, and its row is
      still there unless the owner was deleted. */
  ghost predicate EntryOk(k: Digest, e: Cached, users: map<UserId, User>, sessions: map<SessionId, Session>, born: map<SessionId, Session>) {
    && e.snap.session in born
    && born[e.snap.session].user == e.snap.user
    && born[e.snap.session].expires == e.snap.expires
    && k == Sha256(born[e.snap.session].token)
    && e.snap.expires.Some? && e.deadline <= e.snap.expires.value
    && (e.snap.user in users ==> e.snap.session in sessions)
  }

  ghost predicate CacheOk(users: map<UserId, User>, sessions: map<SessionId, Session>, cache: map<Digest, Cached>, born: map<SessionId, Session>) {
    forall k {:trigger EntryOk(k, cache[k], users, sessions, born)} | k in cache :: EntryOk(k, cache[k], users, sessions, born)
  }

  // ---------------------------------------------------------- codes and their past

  /** With a challenge the method is S256; without one the client did not require PKCE. */
  ghost predicate PkceBound(b: Binding, row: Client) {
    if HasChallenge(b.challenge) then b.challengeMethod == Some("S256")
    else b.challengeMethod == None && !row.pkceRequired
  }

  ghost predicate AuthOk(a: AuthStep, now: Time, born: map<SessionId, Session>) {
    && a.at <= now
    && a.binding.session in born && born[a.binding.session].user == a.binding.user
    && a.row.enabled
    && a.binding.redirect in a.row.redirectUris
    && Scopes.IsSubsetOf(a.binding.scope, a.row.scopes)
    && PkceBound(a.binding, a.row)
  }

  ghost predicate AuthsOk(now: Time, auths: seq<AuthStep>, born: map<SessionId, Session>) {
    forall i {:trigger AuthOk(auths[i], now, born)} | 0 <= i < |auths| :: AuthOk(auths[i], now, born)
  }

  ghost predicate MintOk(m: Mint, now: Time, auths: seq<AuthStep>) {
    && m.auth < |auths|
    && auths[m.auth].at <= m.at <= now
    && auths[m.auth].binding.redirect in m.uris
    && Scopes.HasConsent(m.consent, auths[m.auth].binding.scope)
  }

  ghost predicate SameAuth(k: Digest, l: Digest, mints: map<Digest, Mint>) {
    k in mints && l in mints && mints[k].auth == mints[l].auth
  }

  ghost predicate MintsOk(now: Time, auths: seq<AuthStep>, mints: map<Digest, Mint>) {
    && (forall k {:trigger MintOk(mints[k], now, auths)} | k in mints :: MintOk(mints[k], now, auths))
    && (forall k, l {:trigger SameAuth(k, l, mints)} | SameAuth(k, l, mints) :: k == l)
  }

  ghost predicate CodeOk(k: Digest, b: Bound, auths: seq<AuthStep>, mints: map<Digest, Mint>) {
    && k in mints && mints[k].auth < |auths|
    && b == Bound(auths[mints[k].auth].binding, mints[k].at + CODE_TTL, mints[k].at + CODE_TTL)
  }

  ghost predicate CodesOk(codes: map<Digest, Bound>, auths: seq<AuthStep>, mints: map<Digest, Mint>) {
    forall k {:trigger CodeOk(k, codes[k], auths, mints)} | k in codes :: CodeOk(k, codes[k], auths, mints)
  }

  ghost predicate AskOk(r: string, auths: seq<AuthStep>, asks: map<string, nat>) {
    r in asks && asks[r] < |auths|
  }

  ghost predicate SameAsk(q: string, r: string, asks: map<string, nat>) {
    q in asks && r in asks && asks[q] == asks[r]
  }

  ghost predicate PendingBound(r: string, pending: map<string, Bound>, auths: seq<AuthStep>, asks: map<string, nat>)
    requires r in pending
  {
    AskOk(r, auths, asks) && pending[r].binding == auths[asks[r]].binding
  }

  ghost predicate Unminted(r: string, k: Digest, asks: map<string, nat>, mints: map<Digest, Mint>)
    requires k in mints
  {
    r in asks && mints[k].auth != asks[r]
  }

  ghost predicate PendingOk(pending: map<string, Bound>, auths: seq<AuthStep>, asks: map<string, nat>, mints: map<Digest, Mint>) {
    && (forall r {:trigger AskOk(r, auths, asks)} | r in asks :: AskOk(r, auths, asks))
    && (forall q, r {:trigger SameAsk(q, r, asks)} | SameAsk(q, r, asks) :: q == r)
    && (forall r {:trigger PendingBound(r, pending, auths, asks)} | r in pending :: PendingBound(r, pending, auths, asks))
    && (forall r, k {:trigger Unminted(r, k, asks, mints)} | r in pending && k in mints :: Unminted(r, k, asks, mints))
  }

  // ------------------------------------------------------------------ token issues

  ghost predicate RowMatches(r: RefreshRow, i: Issue) {
    r.user == i.user && r.client == i.client && r.session == i.session && r.expires == Some(i.at + REFRESH_TTL)
  }

  ghost predicate RowIssued(h: TokenHash, refresh: map<TokenHash, RefreshRow>, issues: map<TokenHash, Issue>)
    requires h in refresh
  {
    h in issues && RowMatches(refresh[h], issues[h])
  }

  ghost predicate IssueDated(i: Issue, now: Time, total: nat) {
    i.at <= now && i.serial < total
  }

  ghost predicate RowPresent(h: TokenHash, i: Issue, now: Time, sessions: map<SessionId, Session>, clients: map<string, Client>,
                             refresh: map<TokenHash, RefreshRow>) {
    i.session in sessions && i.client in ClientKeys(clients) && now <= i.at + REFRESH_TTL ==> h in refresh
  }

  /** Rows are issued tokens, and the row of an issued token is there for the token's lifetime as long as
      its session and its client are. */
  ghost predicate RowsOk(now: Time, sessions: map<SessionId, Session>, clients: map<string, Client>,
                         refresh: map<TokenHash, RefreshRow>, issues: map<TokenHash, Issue>)
  {
    && (forall h {:trigger RowIssued(h, refresh, issues)} | h in refresh :: RowIssued(h, refresh, issues))
    && (forall h {:trigger IssueDated(issues[h], now, |issues|)} | h in issues :: IssueDated(issues[h], now, |issues|))
    && (forall h {:trigger RowPresent(h, issues[h], now, sessions, clients, refresh)} | h in issues ::
          RowPresent(h, issues[h], now, sessions, clients, refresh))
  }

  ghost predicate Known(i: Issue, everKeys: set<ClientKey>, born: map<SessionId, Session>) {
    i.session in born && i.client in everKeys
  }

  ghost predicate IssuesKnown(issues: map<TokenHash, Issue>, everKeys: set<ClientKey>, born: map<SessionId, Session>) {
    forall h {:trigger Known(issues[h], everKeys, born)} | h in issues :: Known(issues[h], everKeys, born)
  }

  ghost predicate SameOrigin(a: TokenHash, b: TokenHash, issues: map<TokenHash, Issue>) {
    a in issues && b in issues && issues[a].origin == issues[b].origin
  }

  /** No code, device code or refresh token was redeemed twice. */
  ghost predicate OriginsUnique(issues: map<TokenHash, Issue>) {
    forall a, b {:trigger SameOrigin(a, b, issues)} | SameOrigin(a, b, issues) :: a == b
  }

  ghost predicate ParentOk(i: Issue, refresh: map<TokenHash, RefreshRow>, issues: map<TokenHash, Issue>) {
    i.origin.FromRefresh? ==>
      var p := i.origin.parent;
      && p in issues && issues[p].serial < i.serial
      && issues[p].session == i.session && issues[p].user == i.user && issues[p].client == i.client
      && (p in refresh ==> refresh[p].revoked)
  }

  ghost predicate ParentsOk(refresh: map<TokenHash, RefreshRow>, issues: map<TokenHash, Issue>) {
    forall h {:trigger ParentOk(issues[h], refresh, issues)} | h in issues :: ParentOk(issues[h], refresh, issues)
  }

  /** A token set from a code carries the binding of the code's authorize step, was redeemed in time, and
      presented the verifier of its challenge. */
  ghost predicate CodeTraced(i: Issue, m: Mint, a: AuthStep) {
    && i.clientName == a.binding.client && i.redirect == a.binding.redirect
    && i.user == a.binding.user && i.session == a.binding.session && i.scope == a.binding.scope
    && m.at <= i.at <= m.at + CODE_TTL
    && (HasChallenge(a.binding.challenge) ==> a.binding.challenge == Some(S256Of(i.verifier)))
  }

  ghost predicate CodeOriginOk(i: Issue, codes: map<Digest, Bound>, auths: seq<AuthStep>, mints: map<Digest, Mint>) {
    i.origin.FromCode? ==>
      var k := i.origin.code;
      k !in codes && k in mints && mints[k].auth < |auths| && CodeTraced(i, mints[k], auths[mints[k].auth])
  }

  ghost predicate CodeOriginsOk(issues: map<TokenHash, Issue>, codes: map<Digest, Bound>, auths: seq<AuthStep>, mints: map<Digest, Mint>) {
    forall h {:trigger CodeOriginOk(issues[h], codes, auths, mints)} | h in issues :: CodeOriginOk(issues[h], codes, auths, mints)
  }

  ghost predicate DeviceOriginOk(i: Issue, devices: map<string, StoredDevice>, past: map<string, DeviceHistory>) {
    i.origin.FromDevice? ==>
      var d := i.origin.deviceCode;
      && d in past && past[d].client == i.clientName && past[d].approved == Some((i.user, i.session))
      && (d in devices ==> devices[d].device.status == "consumed")
  }

  ghost predicate DeviceOriginsOk(issues: map<TokenHash, Issue>, devices: map<string, StoredDevice>, past: map<string, DeviceHistory>) {
    forall h {:trigger DeviceOriginOk(issues[h], devices, past)} | h in issues :: DeviceOriginOk(issues[h], devices, past)
  }

  // ----------------------------------------------------------------------- devices

  ghost predicate ApprovedBy(d: DeviceCodes.Device, past: DeviceHistory) {
    d.user.Some? && d.session.Some? && past.approved == Some((d.user.value, d.session.value))
  }

  ghost predicate DeviceOk(code: string, d: DeviceCodes.Device, past: map<string, DeviceHistory>) {
    && d.deviceCode == code && code in past
    && past[code].client == d.client && past[code].userCode == d.userCode
    && (d.status == "pending" || d.status == "denied" || ((d.status == "approved" || d.status == "consumed") && ApprovedBy(d, past[code])))
    && (d.status == "pending" ==> past[code].approved.None?)
  }

  ghost predicate PastOk(p: DeviceHistory, born: map<SessionId, Session>) {
    p.approved.Some? ==> p.approved.value.1 in born && born[p.approved.value.1].user == p.approved.value.0
  }

  ghost predicate PointerOk(p: string, pointer: Pointer, past: map<string, DeviceHistory>) {
    pointer.deviceCode in past && DeviceCodes.NormalizeUserCode(past[pointer.deviceCode].userCode) == p
  }

  ghost predicate DevicesOk(devices: map<string, StoredDevice>, pointers: map<string, Pointer>, past: map<string, DeviceHistory>, born: map<SessionId, Session>) {
    && (forall d {:trigger DeviceOk(d, devices[d].device, past)} | d in devices :: DeviceOk(d, devices[d].device, past))
    && (forall d {:trigger PastOk(past[d], born)} | d in past :: PastOk(past[d], born))
    && (forall p {:trigger PointerOk(p, pointers[p], past)} | p in pointers :: PointerOk(p, pointers[p], past))
  }

  /** Reset tokens were once requested and belong to existing users. */
  ghost predicate ResetsOk(users: map<UserId, User>, resets: map<TokenHash, Reset>, ever: set<TokenHash>) {
    forall h | h in resets :: h in ever && resets[h].user in users
  }

  // -------------------------------------------------------------------- everything

  ghost predicate Inv(s: State) {
    && TablesOk(s.users, s.clients, s.sessions, s.refresh, s.hist.users, s.hist.clientKeys, s.hist.born)
    && CacheOk(s.users, s.sessions, s.cache, s.hist.born)
    && AuthsOk(s.now, s.hist.auths, s.hist.born)
    && MintsOk(s.now, s.hist.auths, s.hist.mints)
    && CodesOk(s.codes, s.hist.auths, s.hist.mints)
    && PendingOk(s.pending, s.hist.auths, s.hist.asks, s.hist.mints)
    && RowsOk(s.now, s.sessions, s.clients, s.refresh, s.hist.issues)
    && IssuesKnown(s.hist.issues, s.hist.clientKeys, s.hist.born)
    && OriginsUnique(s.hist.issues)
    && ParentsOk(s.refresh, s.hist.issues)
    && CodeOriginsOk(s.hist.issues, s.codes, s.hist.auths, s.hist.mints)
    && DeviceOriginsOk(s.hist.issues, s.devices, s.hist.devices)
    && DevicesOk(s.devices, s.pointers, s.hist.devices, s.hist.born)
    && ResetsOk(s.users, s.resets, s.hist.resets)
  }

  // ------------------------------------------------------- effects on tables, cache

  lemma TickKeeps(s: State, later: Time)
    requires Inv(s) && s.now <= later
    ensures Inv(s.(now := later))
  {
    LaterAuths(s.now, later, s.hist.auths, s.hist.mints, s.hist.born);
    LaterRows(s.now, later, s.sessions, s.clients, s.refresh, s.hist.issues);
  }

  lemma LaterAuths(now: Time, later: Time, auths: seq<AuthStep>, mints: map<Digest, Mint>, born: map<SessionId, Session>)
    requires AuthsOk(now, auths, born) && MintsOk(now, auths, mints) && now <= later
    ensures AuthsOk(later, auths, born) && MintsOk(later, auths, mints)
  {
    forall i | 0 <= i < |auths|
      ensures AuthOk(auths[i], later, born)
    {
      assert AuthOk(auths[i], now, born);
    }
    forall k | k in mints
      ensures MintOk(mints[k], later, auths)
    {
      assert MintOk(mints[k], now, auths);
    }
  }

  lemma LaterRows(now: Time, later: Time, sessions: map<SessionId, Session>, clients: map<string, Client>,
                  refresh: map<TokenHash, RefreshRow>, issues: map<TokenHash, Issue>)
    requires RowsOk(now, sessions, clients, refresh, issues) && now <= later
    ensures RowsOk(later, sessions, clients, refresh, issues)
  {
    forall h | h in issues
      ensures IssueDated(issues[h], later, |issues|) && RowPresent(h, issues[h], later, sessions, clients, refresh)
    {
      assert IssueDated(issues[h], now, |issues|) && RowPresent(h, issues[h], now, sessions, clients, refresh);
    }
  }

  lemma PopulateKeeps(s: State, sid: SessionId, write: bool)
    requires Inv(s) && sid in s.sessions && s.sessions[sid].user in s.users
    ensures Inv(Populate(s, Sha256(s.sessions[sid].token), SnapshotOf(s, sid), write))
  {
    assert SessionOk(sid, s.users, s.sessions, s.hist.born);
    PopulateCache(s, sid, write);
    CacheFrame(s, Populate(s, Sha256(s.sessions[sid].token), SnapshotOf(s, sid), write).cache);
  }

  lemma OneMoreEntry(users: map<UserId, User>, sessions: map<SessionId, Session>, cache: map<Digest, Cached>, born: map<SessionId, Session>,
                     key: Digest, e: Cached)
    requires CacheOk(users, sessions, cache, born) && EntryOk(key, e, users, sessions, born)
    ensures CacheOk(users, sessions, cache[key := e], born)
  {
    forall k | k in cache && k != key
      ensures EntryOk(k, cache[key := e][k], users, sessions, born)
    {
      assert EntryOk(k, cache[k], users, sessions, born);
    }
  }

  lemma RowByTokenFinds(s: State, token: string)
    requires Inv(s)
    ensures var sid := RowByToken(s.sessions, token);
            && (sid.Some? ==> && sid.value in s.sessions && s.sessions[sid.value].token == token && s.sessions[sid.value].user in s.users
                              && sid.value in s.hist.born && s.hist.born[sid.value] == s.sessions[sid.value])
            && (forall other | other in s.sessions && s.sessions[other].token == token :: sid == Some(other))
  {
    var sid := RowByToken(s.sessions, token);
    forall other | other in s.sessions && s.sessions[other].token == token
      ensures sid == Some(other)
    {
      assert SessionOk(other, s.users, s.sessions, s.hist.born);
      assert SessionOk(sid.value, s.users, s.sessions, s.hist.born);
      assert SameToken(sid.value, other, s.hist.born);
    }
    if sid.Some? { assert SessionOk(sid.value, s.users, s.sessions, s.hist.born); }
  }

  lemma FindByTokenKeeps(s: State, token: string, io: CacheIo)
    requires Inv(s)
    ensures var (t, hit) := FindByToken(s, token, io);
            && Inv(t) && t == s.(cache := t.cache)
            && (hit.Some? ==> hit.value.session in s.hist.born && s.hist.born[hit.value.session].user == hit.value.user)
  {
    if token == "" {
    } else if io.read && CacheHit(s, token) {
      assert EntryOk(Sha256(token), s.cache[Sha256(token)], s.users, s.sessions, s.hist.born);
    } else {
      RowByTokenFinds(s, token);
      var sid := RowByToken(s.sessions, token);
      if sid.Some? {
        PopulateKeeps(s, sid.value, io.write);
        PopulateOnly(s, Sha256(token), SnapshotOf(s, sid.value), io.write);
      }
    }
  }

  lemma PopulateOnly(s: State, key: Digest, snap: Snapshot, write: bool)
    ensures var t := Populate(s, key, snap, write); t == s.(cache := t.cache)
  {
  }

  /** A lookup keeps everything, changes the cache only, and what it returns is a session that exists or
      existed, with its owner. */
  lemma FindActiveKeeps(s: State, token: Option<string>, io: CacheIo)
    requires Inv(s)
    ensures var (t, hit) := FindActive(s, token, io);
            && Inv(t) && t == s.(cache := t.cache)
            && (hit.Some? ==> hit.value.session in s.hist.born && s.hist.born[hit.value.session].user == hit.value.user)
  {
    if token.Some? { FindByTokenKeeps(s, token.value, io); }
  }

  lemma DropCacheKeeps(s: State, keys: set<Digest>)
    requires Inv(s)
    ensures Inv(s.(cache := s.cache - keys))
  {
  }

  /** Rows may be lost or revoked, nothing else. */
  ghost predicate Weaker(after: map<TokenHash, RefreshRow>, before: map<TokenHash, RefreshRow>) {
    forall h | h in after ::
      && h in before
      && after[h] == before[h].(revoked := after[h].revoked)
      && (before[h].revoked ==> after[h].revoked)
  }

  lemma ParentsWeaken(after: map<TokenHash, RefreshRow>, before: map<TokenHash, RefreshRow>, issues: map<TokenHash, Issue>)
    requires Weaker(after, before) && ParentsOk(before, issues)
    ensures ParentsOk(after, issues)
  {
    forall h | h in issues
      ensures ParentOk(issues[h], after, issues)
    {
      assert ParentOk(issues[h], before, issues);
    }
  }

  /** The tables after rows went away, as long as no refresh row lost its session or client. */
  lemma TablesWeaken(s: State, users: map<UserId, User>, clients: map<string, Client>, sessions: map<SessionId, Session>, refresh: map<TokenHash, RefreshRow>)
    requires TablesOk(s.users, s.clients, s.sessions, s.refresh, s.hist.users, s.hist.clientKeys, s.hist.born)
    requires Weaker(refresh, s.refresh) && users.Keys <= s.users.Keys
    requires forall sid | sid in sessions :: sid in s.sessions && sessions[sid] == s.sessions[sid] && (sessions[sid].user in s.users ==> sessions[sid].user in users)
    requires forall n | n in clients :: n in s.clients && clients[n] == s.clients[n]
    requires forall h | h in refresh :: refresh[h].session in sessions && refresh[h].client in ClientKeys(clients)
    ensures TablesOk(users, clients, sessions, refresh, s.hist.users, s.hist.clientKeys, s.hist.born)
  {
    forall h | h in refresh
      ensures RowOwned(refresh[h], sessions, clients)
    {
      assert RowOwned(s.refresh[h], s.sessions, s.clients);
    }
    forall sid | sid in sessions
      ensures SessionOk(sid, users, sessions, s.hist.born)
    {
      assert SessionOk(sid, s.users, s.sessions, s.hist.born);
    }
    forall m, n | SameKey(m, n, clients)
      ensures m == n
    {
      assert SameKey(m, n, s.clients);
    }
    forall k | k in ClientKeys(clients)
      ensures k in ClientKeys(s.clients)
    {
      var n :| n in clients && clients[n].key == k;
      assert n in s.clients;
    }
  }

  lemma RowsWeaken(s: State, clients: map<string, Client>, sessions: map<SessionId, Session>, refresh: map<TokenHash, RefreshRow>)
    requires RowsOk(s.now, s.sessions, s.clients, s.refresh, s.hist.issues) && Weaker(refresh, s.refresh)
    requires sessions.Keys <= s.sessions.Keys && ClientKeys(clients) <= ClientKeys(s.clients)
    requires forall h | h in s.refresh && h !in refresh ::
               s.refresh[h].session !in sessions || s.refresh[h].client !in ClientKeys(clients)
               || (s.refresh[h].expires.Some? && s.refresh[h].expires.value < s.now)
    ensures RowsOk(s.now, sessions, clients, refresh, s.hist.issues)
  {
    var issues := s.hist.issues;
    forall h | h in issues
      ensures RowPresent(h, issues[h], s.now, sessions, clients, refresh)
    {
      assert RowPresent(h, issues[h], s.now, s.sessions, s.clients, s.refresh);
      if h in s.refresh { assert RowIssued(h, s.refresh, issues); }
    }
    forall h | h in refresh
      ensures RowIssued(h, refresh, issues)
    {
      assert RowIssued(h, s.refresh, issues);
    }
  }

  lemma FewerKeys(before: map<string, Client>, after: map<string, Client>)
    requires forall n | n in after :: n in before && after[n] == before[n]
    ensures ClientKeys(after) <= ClientKeys(before)
  {
  }

  /** Any loss of rows that respects the foreign keys and spares unexpired tokens keeps the invariant. */
  lemma WeakenKeeps(s: State, clients: map<string, Client>, sessions: map<SessionId, Session>, refresh: map<TokenHash, RefreshRow>)
    requires Inv(s) && Weaker(refresh, s.refresh)
    requires forall sid | sid in sessions :: sid in s.sessions && sessions[sid] == s.sessions[sid]
    requires forall n | n in clients :: n in s.clients && clients[n] == s.clients[n]
    requires forall h | h in refresh :: refresh[h].session in sessions && refresh[h].client in ClientKeys(clients)
    requires forall h | h in s.refresh && h !in refresh ::
               s.refresh[h].session !in sessions || s.refresh[h].client !in ClientKeys(clients)
               || (s.refresh[h].expires.Some? && s.refresh[h].expires.value < s.now)
    requires forall k | k in s.cache && s.cache[k].snap.user in s.users && s.cache[k].snap.session in s.sessions :: s.cache[k].snap.session in sessions
    ensures Inv(s.(clients := clients, sessions := sessions, refresh := refresh))
  {
    TablesWeaken(s, s.users, clients, sessions, refresh);
    FewerKeys(s.clients, clients);
    RowsWeaken(s, clients, sessions, refresh);
    ParentsWeaken(refresh, s.refresh, s.hist.issues);
    forall k | k in s.cache
      ensures EntryOk(k, s.cache[k], s.users, sessions, s.hist.born)
    {
      assert EntryOk(k, s.cache[k], s.users, s.sessions, s.hist.born);
    }
  }

  lemma OwnedRows(s: State)
    requires Inv(s)
    ensures forall h | h in s.refresh :: s.refresh[h].session in s.sessions && s.refresh[h].client in ClientKeys(s.clients)
                                         && s.sessions[s.refresh[h].session].user == s.refresh[h].user && s.refresh[h].user in s.users
  {
    forall h | h in s.refresh
      ensures s.refresh[h].session in s.sessions && s.refresh[h].client in ClientKeys(s.clients)
              && s.sessions[s.refresh[h].session].user == s.refresh[h].user && s.refresh[h].user in s.users
    {
      assert RowOwned(s.refresh[h], s.sessions, s.clients);
      assert SessionOk(s.refresh[h].session, s.users, s.sessions, s.hist.born);
    }
  }

  lemma RevokedKeeps(s: State, which: set<TokenHash>)
    requires Inv(s)
    ensures Inv(s.(refresh := Revoked(s.refresh, which)))
  {
    OwnedRows(s);
    WeakenKeeps(s, s.clients, s.sessions, Revoked(s.refresh, which));
  }

  lemma DropSessionsKeeps(s: State, sids: set<SessionId>)
    requires Inv(s)
    requires forall k | k in s.cache :: s.cache[k].snap.session in sids ==> s.cache[k].snap.user !in s.users
    ensures Inv(DropSessions(s, sids))
  {
    OwnedRows(s);
    var t := DropSessions(s, sids);
    WeakenKeeps(s, s.clients, t.sessions, t.refresh);
  }

  lemma SweepKeeps(s: State)
    requires Inv(s)
    ensures Inv(Sweep(s))
  {
    OwnedRows(s);
    WeakenKeeps(s, s.clients, s.sessions, Sweep(s).refresh);
  }

  lemma UnmentionedKeeps(s: State, consents: map<(UserId, ClientKey), string>, resets: map<TokenHash, Reset>)
    requires Inv(s) && ResetsOk(s.users, resets, s.hist.resets)
    ensures Inv(s.(consents := consents, resets := resets))
  {
  }

  lemma DropClientKeeps(s: State, name: string)
    requires Inv(s)
    ensures Inv(DropClient(s, name))
  {
    if name in s.clients {
      var t := DropClient(s, name);
      OwnedRows(s);
      KeysWithoutClient(s, name);
      WithoutClient(s.refresh, s.sessions, ClientKeys(s.clients), s.clients[name].key, t.refresh);
      WeakenKeeps(s, t.clients, s.sessions, t.refresh);
      UnmentionedKeeps(s.(clients := t.clients, sessions := s.sessions, refresh := t.refresh), t.consents, t.resets);
    }
  }

  lemma WithoutClient(refresh: map<TokenHash, RefreshRow>, sessions: map<SessionId, Session>, keys: set<ClientKey>, key: ClientKey,
                      after: map<TokenHash, RefreshRow>)
    requires forall h | h in refresh :: refresh[h].session in sessions && refresh[h].client in keys
    requires after == map h | h in refresh && refresh[h].client != key :: refresh[h]
    ensures Weaker(after, refresh)
    ensures forall h | h in after :: after[h].session in sessions && after[h].client in keys - {key}
    ensures forall h | h in refresh && h !in after :: refresh[h].client !in keys - {key}
  {
  }

  lemma KeysWithoutClient(s: State, name: string)
    requires Inv(s) && name in s.clients
    ensures ClientKeys(s.clients - {name}) == ClientKeys(s.clients) - {s.clients[name].key}
  {
    var rest, key := s.clients - {name}, s.clients[name].key;
    forall k | k in ClientKeys(s.clients) && k != key
      ensures k in ClientKeys(rest)
    {
      var n :| n in s.clients && s.clients[n].key == k;
      assert n in rest;
    }
    assert forall n | n in rest :: SameKey(n, name, s.clients) ==> n == name;
    FewerKeys(s.clients, rest);
  }

  // --------------------------------------------------------- accounts and sessions

  function WithUser(s: State, u: UserId, user: User): State {
    s.(users := s.users[u := user], hist := s.hist.(users := s.hist.users + {u}))
  }

  /** Creating a user under a new id, or changing one. */
  lemma WithUserKeeps(s: State, u: UserId, user: User)
    requires Inv(s) && (u in s.hist.users ==> u in s.users)
    ensures Inv(WithUser(s, u, user))
  {
    WithUserTables(s, u, user);
    WithUserCache(s, u, user);
  }

  lemma WithUserTables(s: State, u: UserId, user: User)
    requires TablesOk(s.users, s.clients, s.sessions, s.refresh, s.hist.users, s.hist.clientKeys, s.hist.born)
    ensures TablesOk(s.users[u := user], s.clients, s.sessions, s.refresh, s.hist.users + {u}, s.hist.clientKeys, s.hist.born)
  {
    forall sid | sid in s.sessions
      ensures SessionOk(sid, s.users[u := user], s.sessions, s.hist.born)
    {
      assert SessionOk(sid, s.users, s.sessions, s.hist.born);
    }
    forall sid | sid in s.hist.born
      ensures BornOk(s.hist.born[sid], s.hist.users + {u})
    {
      assert BornOk(s.hist.born[sid], s.hist.users);
    }
  }

  lemma WithUserCache(s: State, u: UserId, user: User)
    requires TablesOk(s.users, s.clients, s.sessions, s.refresh, s.hist.users, s.hist.clientKeys, s.hist.born)
    requires CacheOk(s.users, s.sessions, s.cache, s.hist.born) && (u in s.hist.users ==> u in s.users)
    ensures CacheOk(s.users[u := user], s.sessions, s.cache, s.hist.born)
  {
    forall k | k in s.cache
      ensures EntryOk(k, s.cache[k], s.users[u := user], s.sessions, s.hist.born)
    {
      assert EntryOk(k, s.cache[k], s.users, s.sessions, s.hist.born);
      assert BornOk(s.hist.born[s.cache[k].snap.session], s.hist.users);
    }
  }

  /** Deleting a user removes exactly the refresh rows that the deletion of the user's sessions removes. */
  lemma UserRowsAreSessionRows(s: State, u: UserId)
    requires Inv(s)
    ensures DropUser(s, u).refresh == DropSessions(s, SessionsOfUser(s.sessions, u, None)).refresh
  {
    OwnedRows(s);
    RowsOfUserGone(s.sessions, s.refresh, u, DropSessions(s, SessionsOfUser(s.sessions, u, None)).refresh);
  }

  lemma RowsOfUserGone(sessions: map<SessionId, Session>, refresh: map<TokenHash, RefreshRow>, u: UserId, after: map<TokenHash, RefreshRow>)
    requires forall h | h in refresh :: refresh[h].session in sessions && sessions[refresh[h].session].user == refresh[h].user
    requires after == map h | h in refresh && refresh[h].session !in SessionsOfUser(sessions, u, None) :: refresh[h]
    ensures after == RefreshWithout(after, u)
  {
  }

  lemma CacheWithoutUser(s: State, u: UserId)
    requires CacheOk(s.users, s.sessions, s.cache, s.hist.born)
    requires forall sid | sid in s.sessions :: sid in s.hist.born && s.sessions[sid] == s.hist.born[sid]
    ensures CacheOk(s.users - {u}, s.sessions - SessionsOfUser(s.sessions, u, None), s.cache, s.hist.born)
  {
    forall k | k in s.cache
      ensures EntryOk(k, s.cache[k], s.users - {u}, s.sessions - SessionsOfUser(s.sessions, u, None), s.hist.born)
    {
      assert EntryOk(k, s.cache[k], s.users, s.sessions, s.hist.born);
    }
  }

  lemma DropUserKeeps(s: State, u: UserId)
    requires Inv(s)
    ensures Inv(DropUser(s, u))
  {
    var t := DropUser(s, u);
    UserRowsAreSessionRows(s, u);
    DropUserTables(s, u);
    DropUserCache(s, u);
    UnmentionedKeeps(s, t.consents, t.resets);
    UserFrame(s.(consents := t.consents, resets := t.resets), t.users, t.sessions, t.refresh);
  }

  lemma UserFrame(s: State, users: map<UserId, User>, sessions: map<SessionId, Session>, refresh: map<TokenHash, RefreshRow>)
    requires Inv(s)
    requires TablesOk(users, s.clients, sessions, refresh, s.hist.users, s.hist.clientKeys, s.hist.born)
    requires CacheOk(users, sessions, s.cache, s.hist.born)
    requires RowsOk(s.now, sessions, s.clients, refresh, s.hist.issues) && ParentsOk(refresh, s.hist.issues)
    requires ResetsOk(users, s.resets, s.hist.resets)
    ensures Inv(s.(users := users, sessions := sessions, refresh := refresh))
  {
  }

  lemma DropUserCache(s: State, u: UserId)
    requires Inv(s)
    ensures CacheOk(s.users - {u}, s.sessions - SessionsOfUser(s.sessions, u, None), s.cache, s.hist.born)
  {
    forall sid | sid in s.sessions
      ensures sid in s.hist.born && s.sessions[sid] == s.hist.born[sid]
    {
      assert SessionOk(sid, s.users, s.sessions, s.hist.born);
    }
    CacheWithoutUser(s, u);
  }

  lemma DropUserTables(s: State, u: UserId)
    requires Inv(s)
    ensures var sids := SessionsOfUser(s.sessions, u, None);
            var refresh := DropSessions(s, sids).refresh;
            && TablesOk(s.users - {u}, s.clients, s.sessions - sids, refresh, s.hist.users, s.hist.clientKeys, s.hist.born)
            && RowsOk(s.now, s.sessions - sids, s.clients, refresh, s.hist.issues)
            && ParentsOk(refresh, s.hist.issues)
  {
    OwnedRows(s);
    var sids := SessionsOfUser(s.sessions, u, None);
    var refresh := DropSessions(s, sids).refresh;
    assert Weaker(refresh, s.refresh);
    TablesWeaken(s, s.users - {u}, s.clients, s.sessions - sids, refresh);
    RowsWeaken(s, s.clients, s.sessions - sids, refresh);
    ParentsWeaken(refresh, s.refresh, s.hist.issues);
  }

  lemma CreateSessionKeeps(s: State, u: UserId, sid: SessionId, token: string, write: bool)
    requires Inv(s) && sid !in s.hist.born && token != ""
    requires forall other | other in s.hist.born :: s.hist.born[other].token != token
    ensures Inv(CreateSession(s, u, sid, token, write))
  {
    var row := Session(u, token, Some(s.now + SESSION_TTL), s.now);
    if u in s.users {
      BornKeeps(s, sid, row);
      WarmKeeps(s, sid, row, write);
      assert CreateSession(s, u, sid, token, write) == PersistSession(s, sid, row, write);
    } else {
      assert CreateSession(s, u, sid, token, write) == s;
    }
  }

  lemma WarmKeeps(s: State, sid: SessionId, row: Session, write: bool)
    requires Inv(AddSession(s, sid, row)) && row.user in s.users
    ensures Inv(PersistSession(s, sid, row, write))
  {
    PopulateKeeps(AddSession(s, sid, row), sid, write);
  }

  lemma PopulateCache(t: State, sid: SessionId, write: bool)
    requires CacheOk(t.users, t.sessions, t.cache, t.hist.born)
    requires sid in t.sessions && t.sessions[sid].user in t.users
    requires sid in t.hist.born && t.hist.born[sid] == t.sessions[sid]
    ensures CacheOk(t.users, t.sessions, Populate(t, Sha256(t.sessions[sid].token), SnapshotOf(t, sid), write).cache, t.hist.born)
  {
    var key, snap := Sha256(t.sessions[sid].token), SnapshotOf(t, sid);
    if snap.expires.Some? && TtlSeconds(snap.expires.value, t.now) > 0 {
      var e := Cached(snap, t.now + 1000 * TtlSeconds(snap.expires.value, t.now));
      OneMoreEntry(t.users, t.sessions, t.cache, t.hist.born, key, e);
    }
  }

  lemma CacheFrame(s: State, cache: map<Digest, Cached>)
    requires Inv(s) && CacheOk(s.users, s.sessions, cache, s.hist.born)
    ensures Inv(s.(cache := cache))
  {
  }

  lemma BornKeeps(s: State, sid: SessionId, row: Session)
    requires Inv(s) && sid !in s.hist.born && row.token != "" && row.user in s.users
    requires forall other | other in s.hist.born :: s.hist.born[other].token != row.token
    ensures Inv(AddSession(s, sid, row))
  {
    BornKeepsTables(s, sid, row);
    BornKeepsRows(s.now, s.sessions, s.clients, s.refresh, s.hist.issues, s.hist.clientKeys, s.hist.born, sid, row);
    BornKeepsCache(s.users, s.sessions, s.cache, s.hist.born, sid, row);
    BornKeepsBindings(s.now, s.hist.auths, s.devices, s.pointers, s.hist.devices, s.hist.born, sid, row);
  }

  lemma BornKeepsRows(now: Time, sessions: map<SessionId, Session>, clients: map<string, Client>, refresh: map<TokenHash, RefreshRow>,
                      issues: map<TokenHash, Issue>, everKeys: set<ClientKey>, born: map<SessionId, Session>, sid: SessionId, row: Session)
    requires RowsOk(now, sessions, clients, refresh, issues) && IssuesKnown(issues, everKeys, born) && sid !in born
    ensures RowsOk(now, sessions[sid := row], clients, refresh, issues) && IssuesKnown(issues, everKeys, born[sid := row])
  {
    forall h | h in issues
      ensures RowPresent(h, issues[h], now, sessions[sid := row], clients, refresh)
      ensures Known(issues[h], everKeys, born[sid := row])
    {
      assert Known(issues[h], everKeys, born);
      assert RowPresent(h, issues[h], now, sessions, clients, refresh);
    }
  }

  lemma BornKeepsTables(s: State, sid: SessionId, row: Session)
    requires TablesOk(s.users, s.clients, s.sessions, s.refresh, s.hist.users, s.hist.clientKeys, s.hist.born)
    requires sid !in s.hist.born && row.token != "" && row.user in s.users
    requires forall other | other in s.hist.born :: s.hist.born[other].token != row.token
    ensures TablesOk(s.users, s.clients, s.sessions[sid := row], s.refresh, s.hist.users, s.hist.clientKeys, s.hist.born[sid := row])
  {
    var sessions, born := s.sessions[sid := row], s.hist.born[sid := row];
    forall other | other in s.sessions
      ensures other != sid && SessionOk(other, s.users, sessions, born)
    {
      assert SessionOk(other, s.users, s.sessions, s.hist.born);
    }
    forall h | h in s.refresh
      ensures RowOwned(s.refresh[h], sessions, s.clients)
    {
      assert RowOwned(s.refresh[h], s.sessions, s.clients);
    }
    forall other | other in born
      ensures BornOk(born[other], s.hist.users)
    {
      if other != sid { assert BornOk(s.hist.born[other], s.hist.users); }
    }
    forall a, b | SameToken(a, b, born)
      ensures a == b
    {
      if a != sid && b != sid { assert SameToken(a, b, s.hist.born); }
    }
  }

  lemma BornKeepsCache(users: map<UserId, User>, sessions: map<SessionId, Session>, cache: map<Digest, Cached>, born: map<SessionId, Session>,
                       sid: SessionId, row: Session)
    requires CacheOk(users, sessions, cache, born) && sid !in born
    ensures CacheOk(users, sessions[sid := row], cache, born[sid := row])
  {
    forall k | k in cache
      ensures EntryOk(k, cache[k], users, sessions[sid := row], born[sid := row])
    {
      assert EntryOk(k, cache[k], users, sessions, born);
    }
  }

  lemma BornKeepsBindings(now: Time, auths: seq<AuthStep>, devices: map<string, StoredDevice>, pointers: map<string, Pointer>,
                          past: map<string, DeviceHistory>, born: map<SessionId, Session>, sid: SessionId, row: Session)
    requires AuthsOk(now, auths, born) && DevicesOk(devices, pointers, past, born) && sid !in born
    ensures AuthsOk(now, auths, born[sid := row]) && DevicesOk(devices, pointers, past, born[sid := row])
  {
    forall i | 0 <= i < |auths|
      ensures AuthOk(auths[i], now, born[sid := row])
    {
      assert AuthOk(auths[i], now, born);
    }
    forall d | d in past
      ensures PastOk(past[d], born[sid := row])
    {
      assert PastOk(past[d], born);
    }
  }

  // ----------------------------------------------------------- codes and consents

  lemma AddAuthKeeps(s: State, b: Binding, row: Client)
    requires Inv(s) && AuthOk(AuthStep(b, row, s.now), s.now, s.hist.born)
    ensures Inv(AddAuth(s, b, row))
  {
    LongerAuths(s.now, s.hist.auths, s.hist.mints, s.codes, AuthStep(b, row, s.now));
    LongerAuthsOrigins(s.hist.issues, s.codes, s.hist.auths, s.hist.mints, AuthStep(b, row, s.now));
    LongerAuthsPending(s.pending, s.hist.auths, s.hist.asks, s.hist.mints, AuthStep(b, row, s.now));
  }

  lemma LongerAuths(now: Time, auths: seq<AuthStep>, mints: map<Digest, Mint>, codes: map<Digest, Bound>, a: AuthStep)
    requires MintsOk(now, auths, mints) && CodesOk(codes, auths, mints)
    ensures MintsOk(now, auths + [a], mints) && CodesOk(codes, auths + [a], mints)
  {
    forall k | k in mints
      ensures MintOk(mints[k], now, auths + [a])
    {
      assert MintOk(mints[k], now, auths);
    }
    forall k | k in codes
      ensures CodeOk(k, codes[k], auths + [a], mints)
    {
      assert CodeOk(k, codes[k], auths, mints);
    }
  }

  lemma LongerAuthsOrigins(issues: map<TokenHash, Issue>, codes: map<Digest, Bound>, auths: seq<AuthStep>, mints: map<Digest, Mint>, a: AuthStep)
    requires CodeOriginsOk(issues, codes, auths, mints)
    ensures CodeOriginsOk(issues, codes, auths + [a], mints)
  {
    forall h | h in issues
      ensures CodeOriginOk(issues[h], codes, auths + [a], mints)
    {
      assert CodeOriginOk(issues[h], codes, auths, mints);
    }
  }

  lemma LongerAuthsPending(pending: map<string, Bound>, auths: seq<AuthStep>, asks: map<string, nat>, mints: map<Digest, Mint>, a: AuthStep)
    requires PendingOk(pending, auths, asks, mints)
    ensures PendingOk(pending, auths + [a], asks, mints)
  {
    forall r | r in asks
      ensures AskOk(r, auths + [a], asks)
    {
      assert AskOk(r, auths, asks);
    }
    forall r | r in pending
      ensures PendingBound(r, pending, auths + [a], asks)
    {
      assert PendingBound(r, pending, auths, asks);
    }
  }

  /** No authorize step recorded so far is numbered `auth`. */
  ghost predicate Unclaimed(auth: nat, asks: map<string, nat>, mints: map<Digest, Mint>) {
    (forall r | r in asks :: asks[r] != auth) && (forall k | k in mints :: mints[k].auth != auth)
  }

  lemma NextUnclaimed(s: State)
    requires Inv(s)
    ensures Unclaimed(|s.hist.auths|, s.hist.asks, s.hist.mints)
  {
    forall r | r in s.hist.asks
      ensures s.hist.asks[r] != |s.hist.auths|
    {
      assert AskOk(r, s.hist.auths, s.hist.asks);
    }
    forall k | k in s.hist.mints
      ensures s.hist.mints[k].auth != |s.hist.auths|
    {
      assert MintOk(s.hist.mints[k], s.now, s.hist.auths);
    }
  }

  lemma AddPendingKeeps(s: State, requestId: string, auth: nat, b: Binding)
    requires Inv(s) && requestId !in s.hist.asks
    requires auth < |s.hist.auths| && s.hist.auths[auth].binding == b
    requires Unclaimed(auth, s.hist.asks, s.hist.mints)
    ensures Inv(AddPending(s, requestId, auth, b))
  {
    AddPendingBound(s, requestId, auth, b);
    PendingFrame(s, AddPending(s, requestId, auth, b).pending, AddPending(s, requestId, auth, b).hist.asks);
  }

  lemma AddPendingBound(s: State, requestId: string, auth: nat, b: Binding)
    requires PendingOk(s.pending, s.hist.auths, s.hist.asks, s.hist.mints) && requestId !in s.hist.asks
    requires auth < |s.hist.auths| && s.hist.auths[auth].binding == b
    requires Unclaimed(auth, s.hist.asks, s.hist.mints)
    ensures PendingOk(AddPending(s, requestId, auth, b).pending, s.hist.auths, AddPending(s, requestId, auth, b).hist.asks, s.hist.mints)
  {
    OneMorePending(s.pending, s.hist.auths, s.hist.asks, s.hist.mints, requestId, auth, Bound(b, s.now + CONSENT_TTL, s.now + CONSENT_TTL));
  }

  lemma PendingFrame(s: State, pending: map<string, Bound>, asks: map<string, nat>)
    requires Inv(s) && PendingOk(pending, s.hist.auths, asks, s.hist.mints)
    ensures Inv(s.(pending := pending, hist := s.hist.(asks := asks)))
  {
  }

  lemma OneMorePending(pending: map<string, Bound>, auths: seq<AuthStep>, asks: map<string, nat>, mints: map<Digest, Mint>,
                       requestId: string, auth: nat, b: Bound)
    requires PendingOk(pending, auths, asks, mints) && requestId !in asks
    requires auth < |auths| && auths[auth].binding == b.binding && Unclaimed(auth, asks, mints)
    ensures PendingOk(pending[requestId := b], auths, asks[requestId := auth], mints)
  {
    var pending', asks' := pending[requestId := b], asks[requestId := auth];
    forall r | r in asks'
      ensures AskOk(r, auths, asks')
    {
      if r != requestId { assert AskOk(r, auths, asks); }
    }
    forall q, r | SameAsk(q, r, asks')
      ensures q == r
    {
      if q != requestId && r != requestId { assert SameAsk(q, r, asks); }
    }
    forall r | r in pending'
      ensures PendingBound(r, pending', auths, asks')
    {
      if r != requestId { assert PendingBound(r, pending, auths, asks); }
    }
    forall r, k | r in pending' && k in mints
      ensures Unminted(r, k, asks', mints)
    {
      if r != requestId { assert Unminted(r, k, asks, mints); }
    }
  }

  lemma TakePendingKeeps(s: State, requestId: string)
    requires Inv(s)
    ensures Inv(s.(pending := s.pending - {requestId}))
  {
    OneLessPending(s.pending, s.hist.auths, s.hist.asks, s.hist.mints, requestId);
  }

  lemma OneLessPending(pending: map<string, Bound>, auths: seq<AuthStep>, asks: map<string, nat>, mints: map<Digest, Mint>, requestId: string)
    requires PendingOk(pending, auths, asks, mints)
    ensures PendingOk(pending - {requestId}, auths, asks, mints)
  {
    forall r | r in pending - {requestId}
      ensures PendingBound(r, pending - {requestId}, auths, asks)
    {
      assert PendingBound(r, pending, auths, asks);
    }
  }

  /** The step numbered `auth` has no code yet and no request is waiting for it. */
  ghost predicate Mintable(auth: nat, pending: map<string, Bound>, asks: map<string, nat>, mints: map<Digest, Mint>) {
    (forall k | k in mints :: mints[k].auth != auth) && (forall r | r in pending && r in asks :: asks[r] != auth)
  }

  lemma MintKeeps(s: State, code: string, auth: nat, b: Binding, uris: set<string>, consent: Option<string>)
    requires Inv(s) && Sha256(code) !in s.hist.mints
    requires auth < |s.hist.auths| && s.hist.auths[auth].binding == b
    requires MintOk(Mint(auth, s.now, uris, consent), s.now, s.hist.auths)
    requires Mintable(auth, s.pending, s.hist.asks, s.hist.mints)
    ensures Inv(MintCode(s, code, auth, b, uris, consent))
  {
    var k, m := Sha256(code), Mint(auth, s.now, uris, consent);
    var bound := Bound(b, s.now + CODE_TTL, s.now + CODE_TTL);
    MoreMints(s.codes, s.hist.auths, s.hist.mints, k, m, bound);
    MoreMintsUnique(s.now, s.hist.auths, s.hist.mints, k, m);
    MoreMintsOrigins(s.hist.issues, s.codes, s.hist.auths, s.hist.mints, k, m, bound);
    MoreMintsPending(s.pending, s.hist.auths, s.hist.asks, s.hist.mints, k, m);
  }

  lemma MoreMintsUnique(now: Time, auths: seq<AuthStep>, mints: map<Digest, Mint>, k: Digest, m: Mint)
    requires MintsOk(now, auths, mints) && k !in mints && MintOk(m, now, auths)
    requires forall l | l in mints :: mints[l].auth != m.auth
    ensures MintsOk(now, auths, mints[k := m])
  {
    var mints' := mints[k := m];
    forall l | l in mints'
      ensures MintOk(mints'[l], now, auths)
    {
      if l != k { assert MintOk(mints[l], now, auths); }
    }
    forall a, b | SameAuth(a, b, mints')
      ensures a == b
    {
      if a != k && b != k { assert SameAuth(a, b, mints); }
    }
  }

  lemma MoreMints(codes: map<Digest, Bound>, auths: seq<AuthStep>, mints: map<Digest, Mint>, k: Digest, m: Mint, b: Bound)
    requires CodesOk(codes, auths, mints) && k !in mints
    requires m.auth < |auths| && b == Bound(auths[m.auth].binding, m.at + CODE_TTL, m.at + CODE_TTL)
    ensures k !in codes && CodesOk(codes[k := b], auths, mints[k := m])
  {
    forall l | l in codes
      ensures l != k && CodeOk(l, codes[l], auths, mints[k := m])
    {
      assert CodeOk(l, codes[l], auths, mints);
    }
  }

  lemma MoreMintsOrigins(issues: map<TokenHash, Issue>, codes: map<Digest, Bound>, auths: seq<AuthStep>, mints: map<Digest, Mint>, k: Digest, m: Mint, b: Bound)
    requires CodeOriginsOk(issues, codes, auths, mints) && k !in mints
    ensures CodeOriginsOk(issues, codes[k := b], auths, mints[k := m])
  {
    forall h | h in issues
      ensures CodeOriginOk(issues[h], codes[k := b], auths, mints[k := m])
    {
      assert CodeOriginOk(issues[h], codes, auths, mints);
    }
  }

  lemma MoreMintsPending(pending: map<string, Bound>, auths: seq<AuthStep>, asks: map<string, nat>, mints: map<Digest, Mint>, k: Digest, m: Mint)
    requires PendingOk(pending, auths, asks, mints) && forall r | r in pending && r in asks :: asks[r] != m.auth
    ensures PendingOk(pending, auths, asks, mints[k := m])
  {
    var mints' := mints[k := m];
    forall r, l | r in pending && l in mints'
      ensures Unminted(r, l, asks, mints')
    {
      assert PendingBound(r, pending, auths, asks) && AskOk(r, auths, asks);
      if l != k { assert Unminted(r, l, asks, mints); }
    }
  }

  lemma TakeCodeKeeps(s: State, k: Digest)
    requires Inv(s)
    ensures Inv(s.(codes := s.codes - {k}))
  {
    forall h | h in s.hist.issues
      ensures CodeOriginOk(s.hist.issues[h], s.codes - {k}, s.hist.auths, s.hist.mints)
    {
      assert CodeOriginOk(s.hist.issues[h], s.codes, s.hist.auths, s.hist.mints);
    }
  }

  // ----------------------------------------------------------------------- issuing

  /** What a grant must have established before it issues. */
  ghost predicate MayIssue(s: State, h: TokenHash, i: Issue) {
    && h !in s.hist.issues
    && i.session in s.sessions && s.sessions[i.session].user == i.user
    && i.client in ClientKeys(s.clients)
    && i.at == s.now && i.serial == |s.hist.issues|
    && (forall a | a in s.hist.issues :: s.hist.issues[a].origin != i.origin)
    && ParentOk(i, s.refresh, s.hist.issues)
    && CodeOriginOk(i, s.codes, s.hist.auths, s.hist.mints)
    && DeviceOriginOk(i, s.devices, s.hist.devices)
  }

  lemma IssueKeeps(s: State, h: TokenHash, i: Issue)
    requires Inv(s) && MayIssue(s, h, i)
    ensures Inv(AddIssue(s, h, i))
  {
    var t := AddIssue(s, h, i);
    IssueKeepsRows(s, h, i);
    IssueKeepsParents(s, h, i);
    forall a | a in t.hist.issues
      ensures CodeOriginOk(t.hist.issues[a], s.codes, s.hist.auths, s.hist.mints)
      ensures DeviceOriginOk(t.hist.issues[a], s.devices, s.hist.devices)
      ensures Known(t.hist.issues[a], s.hist.clientKeys, s.hist.born)
    {
      if a == h {
        assert SessionOk(i.session, s.users, s.sessions, s.hist.born);
      } else {
        assert Known(s.hist.issues[a], s.hist.clientKeys, s.hist.born);
        assert CodeOriginOk(s.hist.issues[a], s.codes, s.hist.auths, s.hist.mints);
        assert DeviceOriginOk(s.hist.issues[a], s.devices, s.hist.devices);
      }
    }
  }

  lemma IssueKeepsRows(s: State, h: TokenHash, i: Issue)
    requires Inv(s) && MayIssue(s, h, i)
    ensures var t := AddIssue(s, h, i);
            && TablesOk(t.users, t.clients, t.sessions, t.refresh, t.hist.users, t.hist.clientKeys, t.hist.born)
            && RowsOk(t.now, t.sessions, t.clients, t.refresh, t.hist.issues)
            && OriginsUnique(t.hist.issues)
  {
    var row := RefreshRow(i.user, i.client, i.session, Some(s.now + REFRESH_TTL), false);
    OneMoreRow(s, h, row);
    OneMoreIssue(s.now, s.sessions, s.clients, s.refresh, s.hist.issues, h, row, i);
  }

  lemma OneMoreRow(s: State, h: TokenHash, row: RefreshRow)
    requires TablesOk(s.users, s.clients, s.sessions, s.refresh, s.hist.users, s.hist.clientKeys, s.hist.born)
    requires RowOwned(row, s.sessions, s.clients)
    ensures TablesOk(s.users, s.clients, s.sessions, s.refresh[h := row], s.hist.users, s.hist.clientKeys, s.hist.born)
  {
    forall a | a in s.refresh && a != h
      ensures RowOwned(s.refresh[h := row][a], s.sessions, s.clients)
    {
      assert RowOwned(s.refresh[a], s.sessions, s.clients);
    }
  }

  lemma OneMoreIssue(now: Time, sessions: map<SessionId, Session>, clients: map<string, Client>,
                     refresh: map<TokenHash, RefreshRow>, issues: map<TokenHash, Issue>, h: TokenHash, row: RefreshRow, i: Issue)
    requires RowsOk(now, sessions, clients, refresh, issues) && OriginsUnique(issues)
    requires h !in issues && RowMatches(row, i) && i.at == now && i.serial == |issues|
    requires forall a | a in issues :: issues[a].origin != i.origin
    ensures RowsOk(now, sessions, clients, refresh[h := row], issues[h := i]) && OriginsUnique(issues[h := i])
  {
    var refresh', issues' := refresh[h := row], issues[h := i];
    assert |issues'| == |issues| + 1;
    forall a | a in refresh'
      ensures RowIssued(a, refresh', issues')
    {
      if a != h { assert RowIssued(a, refresh, issues); }
    }
    forall a | a in issues'
      ensures IssueDated(issues'[a], now, |issues'|) && RowPresent(a, issues'[a], now, sessions, clients, refresh')
    {
      if a != h { assert IssueDated(issues[a], now, |issues|) && RowPresent(a, issues[a], now, sessions, clients, refresh); }
    }
    forall a, b | SameOrigin(a, b, issues')
      ensures a == b
    {
      if a != h && b != h { assert SameOrigin(a, b, issues); }
    }
  }

  lemma IssueKeepsParents(s: State, h: TokenHash, i: Issue)
    requires Inv(s) && MayIssue(s, h, i)
    ensures ParentsOk(AddIssue(s, h, i).refresh, AddIssue(s, h, i).hist.issues)
  {
    var t := AddIssue(s, h, i);
    forall a | a in t.hist.issues
      ensures ParentOk(t.hist.issues[a], t.refresh, t.hist.issues)
    {
      if a != h { assert ParentOk(s.hist.issues[a], s.refresh, s.hist.issues); }
    }
  }

  // ----------------------------------------------------------------------- devices

  lemma PersistDeviceKeeps(s: State, d: DeviceCodes.Device)
    requires Inv(s) && d.deviceCode !in s.hist.devices
    requires d.status == "pending"
    ensures Inv(PersistDevice(s, d))
  {
    PersistDeviceOk(s, d);
    var t := PersistDevice(s, d);
    DeviceFrame(s, t.devices, t.pointers, t.hist.devices);
  }

  lemma PersistDeviceOk(s: State, d: DeviceCodes.Device)
    requires DevicesOk(s.devices, s.pointers, s.hist.devices, s.hist.born) && DeviceOriginsOk(s.hist.issues, s.devices, s.hist.devices)
    requires d.deviceCode !in s.hist.devices && d.status == "pending"
    ensures var t := PersistDevice(s, d);
            DevicesOk(t.devices, t.pointers, t.hist.devices, s.hist.born) && DeviceOriginsOk(s.hist.issues, t.devices, t.hist.devices)
  {
    var stored := StoredDevice(d, s.now + DEVICE_TTL);
    var past := DeviceHistory(d.client, d.userCode, None);
    OneMoreDevice(s.devices, s.pointers, s.hist.devices, s.hist.born, stored, past, Pointer(d.deviceCode, s.now + DEVICE_TTL));
    OneMoreDeviceOrigins(s.hist.issues, s.devices, s.hist.devices, d.deviceCode, stored, past);
  }

  lemma DeviceFrame(s: State, devices: map<string, StoredDevice>, pointers: map<string, Pointer>, past: map<string, DeviceHistory>)
    requires Inv(s) && DevicesOk(devices, pointers, past, s.hist.born) && DeviceOriginsOk(s.hist.issues, devices, past)
    ensures Inv(s.(devices := devices, pointers := pointers, hist := s.hist.(devices := past)))
  {
  }

  lemma OneMoreDevice(devices: map<string, StoredDevice>, pointers: map<string, Pointer>, past: map<string, DeviceHistory>, born: map<SessionId, Session>,
                      stored: StoredDevice, p: DeviceHistory, pointer: Pointer)
    requires DevicesOk(devices, pointers, past, born) && stored.device.deviceCode !in past && stored.device.status == "pending"
    requires p == DeviceHistory(stored.device.client, stored.device.userCode, None) && pointer.deviceCode == stored.device.deviceCode
    ensures DevicesOk(devices[stored.device.deviceCode := stored], pointers[DeviceCodes.NormalizeUserCode(stored.device.userCode) := pointer],
                      past[stored.device.deviceCode := p], born)
  {
    var code := stored.device.deviceCode;
    forall c | c in devices && c != code
      ensures DeviceOk(c, devices[c].device, past[code := p])
    {
      assert DeviceOk(c, devices[c].device, past);
    }
    var pointers' := pointers[DeviceCodes.NormalizeUserCode(stored.device.userCode) := pointer];
    forall q | q in pointers'
      ensures PointerOk(q, pointers'[q], past[code := p])
    {
      if q in pointers { assert PointerOk(q, pointers[q], past); }
    }
    var past' := past[code := p];
    forall c | c in past'
      ensures PastOk(past'[c], born)
    {
      if c != code { assert PastOk(past[c], born); }
    }
  }

  lemma OneMoreDeviceOrigins(issues: map<TokenHash, Issue>, devices: map<string, StoredDevice>, past: map<string, DeviceHistory>,
                             code: string, stored: StoredDevice, p: DeviceHistory)
    requires DeviceOriginsOk(issues, devices, past) && code !in past
    ensures DeviceOriginsOk(issues, devices[code := stored], past[code := p])
  {
    forall h | h in issues
      ensures DeviceOriginOk(issues[h], devices[code := stored], past[code := p])
    {
      assert DeviceOriginOk(issues[h], devices, past);
    }
  }

  /** Replacing a stored record, and possibly its history, by a version that fits. */
  lemma PutDeviceKeeps(s: State, d: DeviceCodes.Device, past: DeviceHistory)
    requires Inv(s) && d.deviceCode in s.devices && d.deviceCode in s.hist.devices
    requires DeviceOk(d.deviceCode, d, s.hist.devices[d.deviceCode := past]) && PastOk(past, s.hist.born)
    requires past.userCode == s.hist.devices[d.deviceCode].userCode
    requires if d.status == "consumed" then past == s.hist.devices[d.deviceCode] else s.devices[d.deviceCode].device.status == "pending"
    ensures Inv(PutDevice(s, d, past))
  {
    var stored := s.devices[d.deviceCode].(device := d);
    PutDeviceOk(s.devices, s.pointers, s.hist.devices, s.hist.born, stored, past);
    PutDeviceOrigins(s.hist.issues, s.devices, s.hist.devices, stored, past);
  }

  function PutDevice(s: State, d: DeviceCodes.Device, past: DeviceHistory): State
    requires d.deviceCode in s.devices
  {
    s.(devices := s.devices[d.deviceCode := s.devices[d.deviceCode].(device := d)],
       hist := s.hist.(devices := s.hist.devices[d.deviceCode := past]))
  }

  lemma PutDeviceOk(devices: map<string, StoredDevice>, pointers: map<string, Pointer>, past: map<string, DeviceHistory>, born: map<SessionId, Session>,
                    stored: StoredDevice, p: DeviceHistory)
    requires DevicesOk(devices, pointers, past, born)
    requires stored.device.deviceCode in past && past[stored.device.deviceCode].userCode == p.userCode
    requires DeviceOk(stored.device.deviceCode, stored.device, past[stored.device.deviceCode := p]) && PastOk(p, born)
    ensures DevicesOk(devices[stored.device.deviceCode := stored], pointers, past[stored.device.deviceCode := p], born)
  {
    var code := stored.device.deviceCode;
    forall c | c in devices && c != code
      ensures DeviceOk(c, devices[c].device, past[code := p])
    {
      assert DeviceOk(c, devices[c].device, past);
    }
    forall q | q in pointers
      ensures PointerOk(q, pointers[q], past[code := p])
    {
      assert PointerOk(q, pointers[q], past);
    }
    var past' := past[code := p];
    forall c | c in past'
      ensures PastOk(past'[c], born)
    {
      if c != code { assert PastOk(past[c], born); }
    }
  }

  lemma PutDeviceOrigins(issues: map<TokenHash, Issue>, devices: map<string, StoredDevice>, past: map<string, DeviceHistory>,
                         stored: StoredDevice, p: DeviceHistory)
    requires DeviceOriginsOk(issues, devices, past) && stored.device.deviceCode in devices && stored.device.deviceCode in past
    requires if stored.device.status == "consumed" then p == past[stored.device.deviceCode]
             else devices[stored.device.deviceCode].device.status == "pending"
    ensures DeviceOriginsOk(issues, devices[stored.device.deviceCode := stored], past[stored.device.deviceCode := p])
  {
    var code := stored.device.deviceCode;
    forall h | h in issues
      ensures DeviceOriginOk(issues[h], devices[code := stored], past[code := p])
    {
      assert DeviceOriginOk(issues[h], devices, past);
    }
  }

  lemma ResolveKeeps(s: State, d: DeviceCodes.Device, session: Snapshot, approve: bool)
    requires Inv(s) && LiveDevice(s, d.deviceCode) == Some(d) && d.status == "pending"
    requires session.session in s.hist.born && s.hist.born[session.session].user == session.user
    ensures Inv(Resolve(s, d, session, approve))
  {
    var code := d.deviceCode;
    assert DeviceOk(code, d, s.hist.devices);
    var past := s.hist.devices[code];
    var approved := past.(approved := Some((session.user, session.session)));
    assert s.hist.devices[code := past] == s.hist.devices;
    assert PastOk(past, s.hist.born);
    if approve {
      PutDeviceKeeps(s, d.(status := "approved", user := Some(session.user), session := Some(session.session)), approved);
    } else {
      PutDeviceKeeps(s, d.(status := "denied"), past);
    }
  }
}
