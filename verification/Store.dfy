/** The two stores of the server as values: the Postgres tables with their cascades, the Redis keys
    with their deadlines, and a history of what the handlers did. Times are milliseconds. */
module Store {
  import opened Base
  import DeviceCodes

  type UserId = nat
  type SessionId = nat
  type ClientKey = nat
  type Time = nat

  /** HMAC-SHA256 of a raw refresh or reset token; injective by construction. */
  datatype TokenHash = Hmac(raw: string)

  /** SHA-256 of a session token or an authorization code; injective by construction. */
  datatype Digest = Sha256(raw: string)

  /** A PKCE challenge string: the S256 transform of some verifier, or any other text. */
  datatype Challenge = S256Of(verifier: string) | Other(text: string)

  // ------------------------------------------------------------------- table rows

  datatype User = User(enabled: bool)

  datatype Client = Client(
    key: ClientKey, confidential: bool, secret: Option<string>, scopes: Option<string>,
    pkceRequired: bool, enabled: bool, redirectUris: set<string>)

  datatype Session = Session(user: UserId, token: string, expires: Option<Time>, created: Time)

  datatype RefreshRow = RefreshRow(
    user: UserId, client: ClientKey, session: SessionId, expires: Option<Time>, revoked: bool)

  datatype Reset = Reset(user: UserId, expires: Time, consumed: bool)

  // ------------------------------------------------------------------ Redis values

  /** The cached part of a session that decisions are made from. */
  datatype Snapshot = Snapshot(session: SessionId, user: UserId, enabled: bool, expires: Option<Time>, created: Time)

  datatype Cached = Cached(snap: Snapshot, deadline: Time)

  /** What an authorization request is bound to, from the authorize step to the token. */
  datatype Binding = Binding(
    client: string, redirect: string, session: SessionId, user: UserId, scope: Option<string>,
    challenge: Option<Challenge>, challengeMethod: Option<string>)

  /** A stored authorization code or pending consent request. */
  datatype Bound = Bound(binding: Binding, expires: Time, deadline: Time)

  datatype StoredDevice = StoredDevice(device: DeviceCodes.Device, deadline: Time)

  datatype Pointer = Pointer(deviceCode: string, deadline: Time)

  // ----------------------------------------------------------------------- history

  /** An authorize call that passed every gate, with the client row it was checked against. */
  datatype AuthStep = AuthStep(binding: Binding, row: Client, at: Time)

  /** A minted code: the authorize step behind it, and the registered URIs and the consent row that
      were in force when it was minted. */
  datatype Mint = Mint(auth: nat, at: Time, uris: set<string>, consent: Option<string>)

  datatype Origin = FromCode(code: Digest) | FromDevice(deviceCode: string) | FromRefresh(parent: TokenHash)

  /** An issued token set, with what the client presented for it. */
  datatype Issue = Issue(
    origin: Origin, clientName: string, redirect: string, verifier: string,
    client: ClientKey, user: UserId, session: SessionId, scope: Option<string>, at: Time, serial: nat)

  datatype DeviceHistory = DeviceHistory(client: string, userCode: string, approved: Option<(UserId, SessionId)>)

  datatype History = History(
    users: set<UserId>, clientKeys: set<ClientKey>, born: map<SessionId, Session>,
    auths: seq<AuthStep>, asks: map<string, nat>, mints: map<Digest, Mint>,
    issues: map<TokenHash, Issue>, devices: map<string, DeviceHistory>, resets: set<TokenHash>)

  // ------------------------------------------------------------------------- state

  datatype State = State(
    now: Time,
    users: map<UserId, User>, clients: map<string, Client>, sessions: map<SessionId, Session>,
    refresh: map<TokenHash, RefreshRow>, consents: map<(UserId, ClientKey), string>, resets: map<TokenHash, Reset>,
    cache: map<Digest, Cached>, codes: map<Digest, Bound>, pending: map<string, Bound>,
    devices: map<string, StoredDevice>, pointers: map<string, Pointer>,
    hist: History)

  const CODE_TTL: Time := 180_000
  const CONSENT_TTL: Time := 600_000
  const REFRESH_TTL: Time := 2_592_000_000
  const SESSION_TTL: Time := 28_800_000
  const DEVICE_TTL: Time := 300_000
  const RESET_TTL: Time := 1_800_000

  function Lookup<K, V>(m: map<K, V>, k: K): Option<V> {
    if k in m then Some(m[k]) else None
  }

  function ClientKeys(clients: map<string, Client>): set<ClientKey> {
    set name | name in clients :: clients[name].key
  }

  /** `Duration::num_seconds`: whole seconds, truncated toward zero. */
  function WholeSeconds(ms: int): int {
    if ms >= 0 then ms / 1000 else -((-ms) / 1000)
  }

  // --------------------------------------------------------- effects on the tables

  function Revoked(refresh: map<TokenHash, RefreshRow>, which: set<TokenHash>): map<TokenHash, RefreshRow> {
    map h | h in refresh :: if h in which then refresh[h].(revoked := true) else refresh[h]
  }

  function RowsOfSession(refresh: map<TokenHash, RefreshRow>, sid: SessionId): set<TokenHash> {
    set h | h in refresh && refresh[h].session == sid
  }

  /** WHERE user_id = u AND session_id <> keep */
  function RowsOfUser(refresh: map<TokenHash, RefreshRow>, u: UserId, keep: Option<SessionId>): set<TokenHash> {
    set h | h in refresh && refresh[h].user == u && Some(refresh[h].session) != keep
  }

  function SessionsOfUser(sessions: map<SessionId, Session>, u: UserId, keep: Option<SessionId>): set<SessionId> {
    set sid | sid in sessions && sessions[sid].user == u && Some(sid) != keep
  }

  /** DELETE FROM user_sessions, with the cascade to refresh_tokens. */
  function DropSessions(s: State, sids: set<SessionId>): State {
    s.(sessions := s.sessions - sids,
       refresh := map h | h in s.refresh && s.refresh[h].session !in sids :: s.refresh[h])
  }

  function RefreshWithout(refresh: map<TokenHash, RefreshRow>, u: UserId): map<TokenHash, RefreshRow> {
    map h | h in refresh && refresh[h].user != u :: refresh[h]
  }

  function ResetsWithout(resets: map<TokenHash, Reset>, u: UserId): map<TokenHash, Reset> {
    map h | h in resets && resets[h].user != u :: resets[h]
  }

  function ConsentsWithout(consents: map<(UserId, ClientKey), string>, u: UserId): map<(UserId, ClientKey), string> {
    map c | c in consents && c.0 != u :: consents[c]
  }

  /** DELETE FROM users, with the cascades to sessions, refresh tokens, resets and consents. */
  function DropUser(s: State, u: UserId): State {
    var t := DropSessions(s, SessionsOfUser(s.sessions, u, None));
    t.(users := t.users - {u}, refresh := RefreshWithout(t.refresh, u), resets := ResetsWithout(t.resets, u),
       consents := ConsentsWithout(t.consents, u))
  }

  /** DELETE FROM clients, with the cascades to refresh tokens and consents. */
  function DropClient(s: State, name: string): State {
    if name !in s.clients then s
    else
      var key := s.clients[name].key;
      s.(clients := s.clients - {name},
         refresh := map h | h in s.refresh && s.refresh[h].client != key :: s.refresh[h],
         consents := map c | c in s.consents && c.1 != key :: s.consents[c])
  }

  function CacheKeys(sessions: map<SessionId, Session>, sids: set<SessionId>): set<Digest> {
    set sid | sid in sids && sid in sessions :: Sha256(sessions[sid].token)
  }

  /** `TokenIssuer::issue`: the refresh row, and the issue in the history. */
  function AddIssue(s: State, h: TokenHash, issue: Issue): State {
    s.(refresh := s.refresh[h := RefreshRow(issue.user, issue.client, issue.session, Some(s.now + REFRESH_TTL), false)],
       hist := s.hist.(issues := s.hist.issues[h := issue]))
  }
}
