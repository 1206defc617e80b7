/** The device grant over whole runs: the status machine, the two-key index, and whose tokens come out. */
module DeviceGrant {
  import opened Base
  import opened Store
  import opened Flows
  import opened Invariants
  import opened Machine
  import opened Runs
  import opened DeviceCodes
  import Scopes
  import CodeTrace
  import DeviceFields
  import SessionCache
  import PasswordReset

  // -------------------------------------------------------------------- one record

  /** One step of a record: pending to approved or denied, approved to consumed; nothing else changes. */
  ghost predicate Allowed(x: Device, y: Device) {
    || y == x
    || (x.status == "pending" && y == x.(status := "denied"))
    || (x.status == "pending" && y.user.Some? && y.session.Some? && y == x.(status := "approved", user := y.user, session := y.session))
    || (x.status == "approved" && y == x.(status := "consumed"))
  }

  /** Each step only adds hash fields, so by the field codec what is read back is what was last written. */
  lemma AllowedExtends(x: Device, y: Device)
    requires Allowed(x, y)
    ensures DeviceFields.Extends(x, y)
  {
  }

  /** A record may be lost but never comes back, and who approved it never changes. */
  ghost predicate RecordMoved(d: string, s: State, t: State) {
    && (d in t.devices && d in s.hist.devices ==> d in s.devices && Allowed(s.devices[d].device, t.devices[d].device))
    && (d in s.hist.devices ==>
        && d in t.hist.devices
        && t.hist.devices[d] == s.hist.devices[d].(approved := t.hist.devices[d].approved)
        && (s.hist.devices[d].approved.Some? ==> t.hist.devices[d] == s.hist.devices[d]))
  }

  ghost predicate DevicesMove(s: State, t: State) {
    forall d {:trigger RecordMoved(d, s, t)} :: RecordMoved(d, s, t)
  }

  lemma SameMoves(s: State, t: State)
    requires t.devices == s.devices && t.hist.devices == s.hist.devices
    ensures DevicesMove(s, t)
  {
  }

  lemma LoseMoves(s: State, a: set<Digest>, b: set<Digest>, c: set<string>, d: set<string>, f: set<string>)
    ensures DevicesMove(s, Lose(s, a, b, c, d, f))
  {
  }

  lemma RequestMoves(s: State, clientId: string, scope: Option<string>, id: nat, deviceCode: string, draws: seq<string>)
    requires deviceCode !in s.hist.devices
    ensures DevicesMove(s, RequestDevice(s, clientId, scope, id, deviceCode, draws).0)
  {
    SameMoves(s, s);
    var userCode := FirstFree(s, draws);
    if userCode.Some? {
      PersistMoves(s, Device(id, deviceCode, userCode.value, clientId, scope, "pending", None, None, s.now + DEVICE_TTL, Some(s.now)));
    }
  }

  lemma PersistMoves(s: State, d: Device)
    requires d.deviceCode !in s.hist.devices
    ensures DevicesMove(s, PersistDevice(s, d))
  {
  }

  lemma UpdateMoves(s: State, d: Device)
    requires LiveDevice(s, d.deviceCode).Some? ==> Allowed(s.devices[d.deviceCode].device, d)
    ensures DevicesMove(s, UpdateDevice(s, d))
  {
  }

  lemma RedeemMoves(s: State, r: DeviceRequest, newRaw: string, commits: bool)
    requires Inv(s)
    ensures DevicesMove(s, RedeemDevice(s, r, newRaw, commits).0)
  {
    SameMoves(s, s);
    if DeviceError(s, r).None? {
      DeviceFacts(s, r);
      var d := LiveDevice(s, r.deviceCode).value;
      UpdateMoves(s, d.(status := "consumed"));
    }
  }

  lemma ResolveMoves(s: State, d: Device, session: Snapshot, approve: bool)
    requires Inv(s) && LiveDevice(s, d.deviceCode) == Some(d) && d.status == "pending"
    ensures DevicesMove(s, Resolve(s, d, session, approve))
  {
    assert DeviceOk(d.deviceCode, d, s.hist.devices);
    if !approve { UpdateMoves(s, d.(status := "denied")); }
  }

  lemma VerifyMoves(s: State, userCode: string, token: Option<string>, approve: bool, io: CacheIo)
    requires Inv(s)
    ensures DevicesMove(s, VerifyUserCode(s, userCode, token, approve, io).0)
  {
    FindActiveKeeps(s, token, io);
    VerifyParts(s, userCode, token, approve, io);
    var (t, session) := FindActive(s, token, io);
    var found := FindByUserCode(t, Scopes.Trim(userCode));
    SameMoves(s, s);
    SameMoves(s, t);
    if session.Some? && found.Some? && found.value.status == "pending" {
      FoundIsLive(t, Scopes.Trim(userCode));
      ResolveMoves(t, found.value, session.value, approve);
      MoveFrom(s, t, Resolve(t, found.value, session.value, approve));
    }
  }

  lemma MoveFrom(s: State, t: State, u: State)
    requires DevicesMove(t, u) && t.devices == s.devices && t.hist == s.hist
    ensures DevicesMove(s, u)
  {
    forall d: string
      ensures RecordMoved(d, s, u)
    {
      assert RecordMoved(d, t, u);
    }
  }

  lemma BesideDevices(s: State, t: State)
    ensures Beside(t) == Beside(s) ==> t.devices == s.devices && t.hist.devices == s.hist.devices
  {
    assert forall x: State :: Beside(x).devices == x.devices && Beside(x).hist.devices == x.hist.devices;
  }

  lemma AuthorizeMoves(s: State, r: AuthorizeRequest, code: string, requestId: string, io: CacheIo)
    ensures DevicesMove(s, Authorize(s, r, code, requestId, io).0)
  {
    FindActiveFrame(s, r.sessionToken, io);
    AuthorizeFrame(s, r, code, requestId, io);
    BesideDevices(FindActive(s, r.sessionToken, io).0, Authorize(s, r, code, requestId, io).0);
    SameMoves(s, Authorize(s, r, code, requestId, io).0);
  }

  lemma ConsentMoves(s: State, token: Option<string>, requestId: string, approve: bool, code: string, io: CacheIo)
    ensures DevicesMove(s, SubmitConsent(s, token, requestId, approve, code, io).0)
  {
    FindActiveFrame(s, token, io);
    SubmitConsentFrame(s, token, requestId, approve, code, io);
    BesideDevices(FindActive(s, token, io).0, SubmitConsent(s, token, requestId, approve, code, io).0);
    SameMoves(s, SubmitConsent(s, token, requestId, approve, code, io).0);
  }

  lemma CodeMoves(s: State, r: CodeRequest, newRaw: string)
    ensures DevicesMove(s, RedeemCode(s, r, newRaw).0)
  {
    RedeemCodeParts(s, r, newRaw);
    SameMoves(s, RedeemCode(s, r, newRaw).0);
  }

  lemma RefreshMoves(s: State, r: RefreshRequest, newRaw: string)
    ensures DevicesMove(s, Refresh(s, r, newRaw).0)
  {
    RefreshParts(s, r, newRaw);
    SameMoves(s, Refresh(s, r, newRaw).0);
  }

  lemma GrantEventMoves(s: State, e: Event)
    requires Inv(s) && Enabled(s, e) && !IsAdministration(e) && !IsSessionEvent(e)
    ensures DevicesMove(s, GrantStep(s, e))
  {
    match e {
      case AskCode(r, code, requestId, io) => AuthorizeMoves(s, r, code, requestId, io);
      case AnswerConsent(token, requestId, approve, code, io) => ConsentMoves(s, token, requestId, approve, code, io);
      case CodeGrant(r, newRaw) => CodeMoves(s, r, newRaw);
      case RefreshGrant(r, newRaw) => RefreshMoves(s, r, newRaw);
      case DeviceGrant(r, newRaw, commits) => RedeemMoves(s, r, newRaw, commits);
      case AskDevice(clientId, scope, id, deviceCode, draws) => RequestMoves(s, clientId, scope, id, deviceCode, draws);
      case AnswerDevice(userCode, token, approve, io) => VerifyMoves(s, userCode, token, approve, io);
    }
  }

  lemma RemovalMoves(s: State, u: UserId, dels: set<Digest>)
    ensures DevicesMove(s, DeleteUser(s, u, dels))
  {
    SessionCache.BornAfterRemoval(s, u, dels);
    SessionCache.DeleteAllOutside(s, u, None, dels, Finished);
    SameMoves(s, DeleteUser(s, u, dels));
  }

  lemma AdministrationMoves(s: State, e: Event)
    requires IsAdministration(e)
    ensures DevicesMove(s, AdministrationStep(s, e))
  {
    match e {
      case Tick(later) => SameMoves(s, s.(now := later));
      case AddUser(u, user) => SameMoves(s, WithUser(s, u, user));
      case UpdateUser(u, user) => SameMoves(s, s); SameMoves(s, WithUser(s, u, user));
      case RemoveUser(u, dels) => RemovalMoves(s, u, dels);
      case PutClient(name, client) => SameMoves(s, WithClient(s, name, client));
      case RemoveClient(name) => SameMoves(s, DropClient(s, name));
      case WithdrawConsent(u, key) => SameMoves(s, s.(consents := s.consents - {(u, key)}));
      case RedisLoses(c, k, r, d, p) => LoseMoves(s, c, k, r, d, p);
    }
  }

  /** Every step moves every record along the status machine, or loses it for good. */
  lemma StepMoves(s: State, e: Event)
    requires Inv(s) && Enabled(s, e)
    ensures DevicesMove(s, Step(s, e))
  {
    if IsAdministration(e) {
      AdministrationMoves(s, e);
    } else if IsSessionEvent(e) {
      SessionCache.SessionEventOutside(s, e);
      PasswordReset.SessionEventHistory(s, e);
      SameMoves(s, Step(s, e));
    } else {
      GrantEventMoves(s, e);
    }
  }

  // ---------------------------------------------------------------------- whole runs

  /** What a record may become: identity fields stay, denied and consumed are final, approved is only consumed. */
  ghost predicate Follows(x: Device, y: Device) {
    && y == x.(status := y.status, user := y.user, session := y.session)
    && (x.status == "denied" || x.status == "consumed" ==> y == x)
    && (x.status == "approved" ==> y == x || y == x.(status := "consumed"))
    && (x.status == "pending" && (y.status == "pending" || y.status == "denied") ==> y == x.(status := y.status))
  }

  lemma AllowedFollows(x: Device, y: Device, z: Device)
    requires Follows(x, y) && Allowed(y, z)
    ensures Follows(x, z)
  {
  }

  /** A record known in `s` is, if it is still there in `t`, a continuation of what it was. */
  ghost predicate Continues(d: string, s: State, t: State) {
    d in s.hist.devices ==>
      d in t.hist.devices && (d in t.devices ==> d in s.devices && Follows(s.devices[d].device, t.devices[d].device))
  }

  lemma ContinuesOn(s: State, t: State, u: State, d: string)
    requires Continues(d, s, t) && RecordMoved(d, t, u)
    ensures Continues(d, s, u)
  {
    if d in s.hist.devices && d in u.devices {
      AllowedFollows(s.devices[d].device, t.devices[d].device, u.devices[d].device);
    }
  }

  lemma MovedAt(s: State, events: seq<Event>, n: nat, d: string)
    requires Inv(s) && IsRun(s, events) && n < |events|
    ensures RecordMoved(d, At(s, events, n), At(s, events, n + 1))
  {
    AtKeeps(s, events, n);
    StepAt(s, events, n);
    StepMoves(At(s, events, n), events[n]);
  }

  /** Over any stretch of any run, a device record only moves forward along the status machine. */
  lemma AtContinues(s: State, events: seq<Event>, m: nat, n: nat, d: string)
    requires Inv(s) && IsRun(s, events) && m <= n <= |events|
    ensures Continues(d, At(s, events, m), At(s, events, n))
  {
    MovesAll(s, events, d);
    ContinuesAlong(States(s, events), m, n, d);
  }

  /** Every two successive states are related by a step of the record. */
  ghost predicate MovesAlong(states: seq<State>, d: string) {
    forall i {:trigger states[i]} | 0 < i < |states| :: RecordMoved(d, states[i - 1], states[i])
  }

  lemma MovesAll(s: State, events: seq<Event>, d: string)
    requires Inv(s) && IsRun(s, events)
    ensures MovesAlong(States(s, events), d)
  {
    forall i | 0 < i < |States(s, events)|
      ensures RecordMoved(d, States(s, events)[i - 1], States(s, events)[i])
    {
      MovedAt(s, events, i - 1, d);
    }
  }

  lemma {:induction false} ContinuesAlong(states: seq<State>, m: nat, n: nat, d: string)
    requires MovesAlong(states, d) && m <= n < |states|
    ensures Continues(d, states[m], states[n])
    decreases n
  {
    if m < n {
      ContinuesAlong(states, m, n - 1, d);
      ContinuesOn(states[m], states[n - 1], states[n], d);
    }
  }

  /** What has been written under a device code in some successive states, oldest first. */
  ghost function Versions(states: seq<State>, d: string): seq<Device> {
    if states == [] then [] else Extended(Versions(states[..|states| - 1], d), states[|states| - 1], d)
  }

  /** One more version, if the stored record is not the last one. */
  ghost function Extended(versions: seq<Device>, s: State, d: string): seq<Device> {
    if d in s.devices && (versions == [] || s.devices[d].device != versions[|versions| - 1])
    then versions + [s.devices[d].device]
    else versions
  }

  /** The last version is the stored record, and each version only adds fields to the one before. */
  ghost predicate VersionsOk(versions: seq<Device>, s: State, d: string) {
    && (versions != [] ==> d in s.hist.devices)
    && (d in s.devices ==> versions != [] && versions[|versions| - 1] == s.devices[d].device)
    && (forall i | 0 < i < |versions| :: DeviceFields.Extends(versions[i - 1], versions[i]))
  }

  ghost predicate KnownAlong(states: seq<State>, d: string) {
    forall i | 0 <= i < |states| :: d in states[i].devices ==> d in states[i].hist.devices
  }

  lemma VersionsStep(versions: seq<Device>, s: State, t: State, d: string)
    requires VersionsOk(versions, s, d) && RecordMoved(d, s, t) && (d in t.devices ==> d in t.hist.devices)
    ensures VersionsOk(Extended(versions, t, d), t, d)
  {
    if d in t.devices && d in s.hist.devices { AllowedExtends(s.devices[d].device, t.devices[d].device); }
  }

  lemma {:induction false} VersionsAlong(states: seq<State>, d: string)
    requires states != [] && MovesAlong(states, d) && KnownAlong(states, d) && d !in states[0].hist.devices
    ensures VersionsOk(Versions(states, d), states[|states| - 1], d)
    decreases |states|
  {
    var front, last := states[..|states| - 1], states[|states| - 1];
    if front == [] {
      assert Versions(front, d) == [];
    } else {
      assert forall i | 0 <= i < |front| :: front[i] == states[i];
      VersionsAlong(front, d);
      assert RecordMoved(d, states[|states| - 2], states[|states| - 1]);
      VersionsStep(Versions(front, d), front[|front| - 1], last, d);
    }
  }

  lemma KnownAll(s: State, events: seq<Event>, d: string)
    requires Inv(s) && IsRun(s, events)
    ensures KnownAlong(States(s, events), d)
  {
    forall i | 0 <= i < |States(s, events)|
      ensures d in States(s, events)[i].devices ==> d in States(s, events)[i].hist.devices
    {
      AtKeeps(s, events, i);
      RecordKnown(At(s, events, i), d);
    }
  }

  lemma RecordKnown(s: State, d: string)
    requires Inv(s)
    ensures d in s.devices ==> d in s.hist.devices
  {
    assert d in s.devices ==> DeviceOk(d, s.devices[d].device, s.hist.devices);
  }

  /** Over every run the hash under a device code, with every version written over the one before, reads back
      as the record the flows see. */
  lemma StoredRecordReadBack(s: State, events: seq<Event>, d: string)
    requires Inv(s) && s.hist.devices == map[] && IsRun(s, events) && d in After(s, events).devices
    ensures DeviceFields.FromFields(DeviceFields.Written(Versions(States(s, events), d))) == Some(After(s, events).devices[d].device)
  {
    Ends(s, events);
    MovesAll(s, events, d);
    KnownAll(s, events, d);
    ReadBackAlong(States(s, events), d);
  }

  lemma Ends(s: State, events: seq<Event>)
    ensures States(s, events)[0] == s && States(s, events)[|events|] == After(s, events)
  {
    AtEnd(s, events);
    assert events[..0] == [];
  }

  lemma ReadBackAlong(states: seq<State>, d: string)
    requires states != [] && MovesAlong(states, d) && KnownAlong(states, d) && d !in states[0].hist.devices
    requires d in states[|states| - 1].devices
    ensures DeviceFields.FromFields(DeviceFields.Written(Versions(states, d))) == Some(states[|states| - 1].devices[d].device)
  {
    VersionsAlong(states, d);
    DeviceFields.LatestVersionReadBack(Versions(states, d));
  }

  // ----------------------------------------------------------------- two-key index

  /** A user-code lookup returns only a record whose own code has the same normal form. */
  lemma LookupHonest(s: State, userCode: string)
    requires Reachable(s) && FindByUserCode(s, userCode).Some?
    ensures NormalizeUserCode(FindByUserCode(s, userCode).value.userCode) == NormalizeUserCode(userCode)
  {
    ReachableOk(s);
    FoundHonest(s, userCode);
  }

  /** The retry loop takes the first drawn code whose pointer is free, and gives up only when all are taken. */
  lemma {:induction false} FirstFreeExact(s: State, draws: seq<string>)
    ensures match FirstFree(s, draws)
            case None => forall c | c in draws :: !PointerFree(s, c)
            case Some(code) => exists i :: 0 <= i < |draws| && draws[i] == code && PointerFree(s, code) && forall j | 0 <= j < i :: !PointerFree(s, draws[j])
  {
    if draws != [] && !PointerFree(s, draws[0]) {
      FirstFreeExact(s, draws[1..]);
      match FirstFree(s, draws[1..]) {
        case None =>
          forall c | c in draws
            ensures !PointerFree(s, c)
          {
            if c != draws[0] { assert c in draws[1..]; }
          }
        case Some(code) =>
          var i :| 0 <= i < |draws[1..]| && draws[1..][i] == code && PointerFree(s, code) && forall j | 0 <= j < i :: !PointerFree(s, draws[1..][j]);
          assert draws[i + 1] == code;
          forall j | 0 <= j < i + 1
            ensures !PointerFree(s, draws[j])
          {
            if j > 0 { assert draws[j] == draws[1..][j - 1]; }
          }
      }
    }
  }

  /** A request never disturbs another record: whatever could be found by a user code is found by it still,
      and the new record is found by every spelling of its own code. */
  lemma RequestDisturbsNothing(s: State, clientId: string, scope: Option<string>, id: nat, deviceCode: string, draws: seq<string>, spelling: string)
    requires Reachable(s) && deviceCode !in s.hist.devices && deviceCode != "" && spelling != ""
    ensures var (t, code) := RequestDevice(s, clientId, scope, id, deviceCode, draws);
            && (FindByUserCode(s, spelling).Some? ==> FindByUserCode(t, spelling) == FindByUserCode(s, spelling))
            && (code.Some? && NormalizeUserCode(spelling) == NormalizeUserCode(code.value) ==>
                FindByUserCode(s, spelling).None? && FindByUserCode(t, spelling).Some?
                && FindByUserCode(t, spelling).value.deviceCode == deviceCode && FindByUserCode(t, spelling).value.status == "pending")
  {
    ReachableOk(s);
    assert deviceCode in s.devices ==> DeviceOk(deviceCode, s.devices[deviceCode].device, s.hist.devices);
    RequestFinds(s, clientId, scope, id, deviceCode, draws, spelling);
  }

  lemma RequestFinds(s: State, clientId: string, scope: Option<string>, id: nat, deviceCode: string, draws: seq<string>, spelling: string)
    requires deviceCode !in s.devices && deviceCode != "" && spelling != ""
    ensures var (t, code) := RequestDevice(s, clientId, scope, id, deviceCode, draws);
            && (FindByUserCode(s, spelling).Some? ==> FindByUserCode(t, spelling) == FindByUserCode(s, spelling))
            && (code.Some? && NormalizeUserCode(spelling) == NormalizeUserCode(code.value) ==>
                FindByUserCode(s, spelling).None? && FindByUserCode(t, spelling).Some?
                && FindByUserCode(t, spelling).value.deviceCode == deviceCode && FindByUserCode(t, spelling).value.status == "pending")
  {
    var code := FirstFree(s, draws);
    FirstFreeExact(s, draws);
    if code.Some? {
      PersistFinds(s, Device(id, deviceCode, code.value, clientId, scope, "pending", None, None, s.now + DEVICE_TTL, Some(s.now)), spelling);
    }
  }

  lemma PersistFinds(s: State, d: Device, spelling: string)
    requires PointerFree(s, d.userCode) && d.deviceCode !in s.devices && d.deviceCode != "" && spelling != ""
    ensures var t := PersistDevice(s, d);
            && (FindByUserCode(s, spelling).Some? ==> FindByUserCode(t, spelling) == FindByUserCode(s, spelling))
            && (NormalizeUserCode(spelling) == NormalizeUserCode(d.userCode) ==>
                FindByUserCode(s, spelling).None? && FindByUserCode(t, spelling) == Some(d))
  {
  }

  // -------------------------------------------------------------------- token traces

  /** The grant that redeemed a device code: the record was approved, and its user and session are the issue's. */
  ghost predicate GrantedBy(s: State, r: DeviceRequest, newRaw: string, h: TokenHash, i: Issue) {
    var d := LiveDevice(s, r.deviceCode);
    && h == Hmac(newRaw) && DeviceError(s, r).None? && i.origin == FromDevice(r.deviceCode) && i.clientName == r.clientId
    && d.Some? && d.value.user == Some(i.user) && d.value.session == Some(i.session) && d.value.scope == i.scope
  }

  ghost predicate NewDeviceIssue(s: State, t: State, h: TokenHash) {
    h !in s.hist.issues && h in t.hist.issues && t.hist.issues[h].origin.FromDevice?
  }

  lemma RedeemIssue(s: State, r: DeviceRequest, newRaw: string, commits: bool, h: TokenHash)
    requires NewDeviceIssue(s, RedeemDevice(s, r, newRaw, commits).0, h)
    ensures GrantedBy(s, r, newRaw, h, RedeemDevice(s, r, newRaw, commits).0.hist.issues[h])
  {
    RedeemDeviceParts(s, r, newRaw, commits);
    UpdateOnly(s, LiveDevice(s, r.deviceCode).value.(status := "consumed"));
  }

  lemma RefreshIssue(s: State, r: RefreshRequest, newRaw: string, h: TokenHash)
    ensures !NewDeviceIssue(s, Refresh(s, r, newRaw).0, h)
  {
    RefreshParts(s, r, newRaw);
  }

  lemma CodeIssue(s: State, r: CodeRequest, newRaw: string, h: TokenHash)
    ensures !NewDeviceIssue(s, RedeemCode(s, r, newRaw).0, h)
  {
    RedeemCodeParts(s, r, newRaw);
  }

  lemma GrantIssue(s: State, e: Event, h: TokenHash)
    requires !IsAdministration(e) && !IsSessionEvent(e) && NewDeviceIssue(s, GrantStep(s, e), h)
    ensures e.DeviceGrant? && GrantedBy(s, e.deviceRequest, e.newRaw, h, GrantStep(s, e).hist.issues[h])
  {
    match e {
      case AskCode(r, code, requestId, io) => AuthorizeAccounts(s, r, code, requestId, io);
      case AnswerConsent(token, requestId, approve, code, io) => ConsentAccounts(s, token, requestId, approve, code, io);
      case CodeGrant(r, newRaw) => CodeIssue(s, r, newRaw, h);
      case RefreshGrant(r, newRaw) => RefreshIssue(s, r, newRaw, h);
      case DeviceGrant(r, newRaw, commits) => RedeemIssue(s, r, newRaw, commits, h);
      case AskDevice(clientId, scope, id, deviceCode, draws) => RequestDeviceFrame(s, clientId, scope, id, deviceCode, draws);
      case AnswerDevice(userCode, token, approve, io) => VerifyAccounts(s, userCode, token, approve, io);
    }
  }

  lemma StepIssue(s: State, e: Event, h: TokenHash)
    requires NewDeviceIssue(s, Step(s, e), h)
    ensures e.DeviceGrant? && GrantedBy(s, e.deviceRequest, e.newRaw, h, Step(s, e).hist.issues[h])
  {
    if IsAdministration(e) {
      PasswordReset.AdministrationHistory(s, e);
    } else if IsSessionEvent(e) {
      PasswordReset.SessionEventHistory(s, e);
    } else {
      GrantIssue(s, e, h);
    }
  }

  /** A new record: the client existed, was enabled, and its scopes cover the request. */
  ghost predicate RequestedBy(s: State, e: Event, t: State, d: string) {
    && e.AskDevice? && e.deviceCode == d && e.clientId in s.clients && s.clients[e.clientId].enabled
    && Scopes.IsSubsetOf(e.scope, s.clients[e.clientId].scopes)
    && d in t.devices && t.devices[d].device.client == e.clientId && t.devices[d].device.scope == e.scope
    && d in t.hist.devices && t.hist.devices[d].client == e.clientId && t.hist.devices[d].approved.None?
  }

  /** An approval: the signed-in user typed the record's code. */
  ghost predicate ApprovedIn(s: State, e: Event, t: State, d: string)
    requires d in t.hist.devices
  {
    && e.AnswerDevice? && e.approve && d in s.hist.devices
    && NormalizeUserCode(s.hist.devices[d].userCode) == NormalizeUserCode(Scopes.Trim(e.userCode))
    && FindActive(s, e.sessionToken, e.io).1.Some?
    && t.hist.devices[d].approved == Some((FindActive(s, e.sessionToken, e.io).1.value.user, FindActive(s, e.sessionToken, e.io).1.value.session))
  }

  /** What a step may add to a record's history. */
  ghost predicate HistoryStep(s: State, e: Event, t: State, d: string) {
    && (d !in s.hist.devices && d in t.hist.devices ==> RequestedBy(s, e, t, d))
    && (d in s.hist.devices && d in t.hist.devices && t.hist.devices[d].approved != s.hist.devices[d].approved ==> ApprovedIn(s, e, t, d))
  }

  lemma RequestHistory(s: State, e: Event, d: string)
    requires e.AskDevice? && e.deviceCode !in s.hist.devices
    ensures HistoryStep(s, e, RequestDevice(s, e.clientId, e.scope, e.id, e.deviceCode, e.draws).0, d)
  {
  }

  lemma VerifyHistory(s: State, e: Event, d: string)
    requires Inv(s) && e.AnswerDevice?
    ensures HistoryStep(s, e, VerifyUserCode(s, e.userCode, e.sessionToken, e.approve, e.io).0, d)
  {
    FindActiveKeeps(s, e.sessionToken, e.io);
    VerifyParts(s, e.userCode, e.sessionToken, e.approve, e.io);
    var (mid, session) := FindActive(s, e.sessionToken, e.io);
    var t := VerifyUserCode(s, e.userCode, e.sessionToken, e.approve, e.io).0;
    if t == s || t == mid {
      SameHistory(s, e, t, d);
    } else {
      var found := FindByUserCode(mid, Scopes.Trim(e.userCode)).value;
      FoundMatches(mid, Scopes.Trim(e.userCode));
      ResolveHistory(mid, found, session.value, e.approve);
      ApprovalStep(s, e, t, found.deviceCode, d);
    }
  }

  lemma ApprovalStep(s: State, e: Event, t: State, code: string, d: string)
    requires e.AnswerDevice? && FindActive(s, e.sessionToken, e.io).1.Some? && code in s.hist.devices
    requires NormalizeUserCode(s.hist.devices[code].userCode) == NormalizeUserCode(Scopes.Trim(e.userCode))
    requires var snap := FindActive(s, e.sessionToken, e.io).1.value;
             t.hist.devices == if e.approve then s.hist.devices[code := s.hist.devices[code].(approved := Some((snap.user, snap.session)))] else s.hist.devices
    ensures HistoryStep(s, e, t, d)
  {
  }

  lemma ResolveHistory(s: State, d: Device, session: Snapshot, approve: bool)
    requires d.deviceCode in s.hist.devices
    ensures Resolve(s, d, session, approve).hist.devices
            == if approve then s.hist.devices[d.deviceCode := s.hist.devices[d.deviceCode].(approved := Some((session.user, session.session)))]
               else s.hist.devices
  {
    if approve {
      UpdateHistory(s, d.(status := "approved", user := Some(session.user), session := Some(session.session)));
    } else {
      UpdateHistory(s, d.(status := "denied"));
    }
  }

  lemma UpdateHistory(s: State, d: Device)
    ensures UpdateDevice(s, d).hist == s.hist
  {
  }

  lemma FoundMatches(s: State, userCode: string)
    requires Inv(s) && FindByUserCode(s, userCode).Some?
    ensures var code := FindByUserCode(s, userCode).value.deviceCode;
            code in s.hist.devices && NormalizeUserCode(s.hist.devices[code].userCode) == NormalizeUserCode(userCode)
  {
    var p := NormalizeUserCode(userCode);
    assert PointerOk(p, s.pointers[p], s.hist.devices);
    assert DeviceOk(s.pointers[p].deviceCode, s.devices[s.pointers[p].deviceCode].device, s.hist.devices);
  }

  lemma SameHistory(s: State, e: Event, t: State, d: string)
    requires t.hist.devices == s.hist.devices
    ensures HistoryStep(s, e, t, d)
  {
  }

  lemma AuthorizeHistory(s: State, r: AuthorizeRequest, code: string, requestId: string, io: CacheIo)
    ensures Authorize(s, r, code, requestId, io).0.hist.devices == s.hist.devices
  {
    FindActiveFrame(s, r.sessionToken, io);
    AuthorizeFrame(s, r, code, requestId, io);
    BesideDevices(FindActive(s, r.sessionToken, io).0, Authorize(s, r, code, requestId, io).0);
  }

  lemma ConsentHistory(s: State, token: Option<string>, requestId: string, approve: bool, code: string, io: CacheIo)
    ensures SubmitConsent(s, token, requestId, approve, code, io).0.hist.devices == s.hist.devices
  {
    FindActiveFrame(s, token, io);
    SubmitConsentFrame(s, token, requestId, approve, code, io);
    BesideDevices(FindActive(s, token, io).0, SubmitConsent(s, token, requestId, approve, code, io).0);
  }

  lemma GrantEventHistory(s: State, e: Event, d: string)
    requires Inv(s) && Enabled(s, e) && !IsAdministration(e) && !IsSessionEvent(e)
    ensures HistoryStep(s, e, GrantStep(s, e), d)
  {
    match e {
      case AskCode(r, code, requestId, io) => AuthorizeHistory(s, r, code, requestId, io);
      case AnswerConsent(token, requestId, approve, code, io) => ConsentHistory(s, token, requestId, approve, code, io);
      case CodeGrant(r, newRaw) => RedeemCodeFrame(s, r, newRaw);
      case RefreshGrant(r, newRaw) => RefreshFrame(s, r, newRaw);
      case DeviceGrant(r, newRaw, commits) => RedeemDeviceFrame(s, r, newRaw, commits);
      case AskDevice(_, _, _, _, _) => RequestHistory(s, e, d);
      case AnswerDevice(_, _, _, _) => VerifyHistory(s, e, d);
    }
  }

  lemma StepHistory(s: State, e: Event, d: string)
    requires Inv(s) && Enabled(s, e)
    ensures HistoryStep(s, e, Step(s, e), d)
  {
    if IsAdministration(e) {
      PasswordReset.AdministrationHistory(s, e);
      SameHistory(s, e, Step(s, e), d);
    } else if IsSessionEvent(e) {
      PasswordReset.SessionEventHistory(s, e);
      SameHistory(s, e, Step(s, e), d);
    } else {
      GrantEventHistory(s, e, d);
    }
  }

  ghost predicate Approved(s: State, d: string) {
    d in s.hist.devices && s.hist.devices[d].approved.Some?
  }

  lemma {:induction false} ApprovingStep(s: State, events: seq<Event>, n: nat, d: string) returns (m: nat)
    requires n <= |events| && !Approved(s, d) && Approved(At(s, events, n), d)
    ensures m < n && !Approved(At(s, events, m), d) && Approved(At(s, events, m + 1), d)
    decreases n
  {
    assert events[..0] == [];
    if Approved(At(s, events, n - 1), d) {
      m := ApprovingStep(s, events, n - 1, d);
    } else {
      m := n - 1;
    }
  }

  lemma {:induction false} RequestingStep(s: State, events: seq<Event>, n: nat, d: string) returns (p: nat)
    requires n <= |events| && d !in s.hist.devices && d in At(s, events, n).hist.devices
    ensures p < n && d !in At(s, events, p).hist.devices && d in At(s, events, p + 1).hist.devices
    decreases n
  {
    assert events[..0] == [];
    if d in At(s, events, n - 1).hist.devices {
      p := RequestingStep(s, events, n - 1, d);
    } else {
      p := n - 1;
    }
  }

  /** A record's client and approval, once written, stay. */
  ghost predicate PastKept(d: string, s: State, t: State) {
    d in s.hist.devices ==>
      && d in t.hist.devices && t.hist.devices[d].client == s.hist.devices[d].client
      && (s.hist.devices[d].approved.Some? ==> t.hist.devices[d] == s.hist.devices[d])
  }

  lemma PastKeptOn(s: State, t: State, u: State, d: string)
    requires PastKept(d, s, t) && RecordMoved(d, t, u)
    ensures PastKept(d, s, u)
  {
  }

  lemma {:induction false} PastKeptAlong(states: seq<State>, m: nat, n: nat, d: string)
    requires MovesAlong(states, d) && m <= n < |states|
    ensures PastKept(d, states[m], states[n])
    decreases n
  {
    if m < n {
      PastKeptAlong(states, m, n - 1, d);
      PastKeptOn(states[m], states[n - 1], states[n], d);
    }
  }

  lemma AtPastKept(s: State, events: seq<Event>, m: nat, n: nat, d: string)
    requires Inv(s) && IsRun(s, events) && m <= n <= |events|
    ensures PastKept(d, At(s, events, m), At(s, events, n))
  {
    MovesAll(s, events, d);
    PastKeptAlong(States(s, events), m, n, d);
  }

  // --------------------------------------------------------------------- the theorem

  lemma GrantStage(s: State, events: seq<Event>, h: TokenHash) returns (q: nat)
    requires Inv(s) && IsRun(s, events) && h !in s.hist.issues
    requires h in After(s, events).hist.issues && After(s, events).hist.issues[h].origin.FromDevice?
    ensures q < |events| && events[q].DeviceGrant?
    ensures GrantedBy(At(s, events, q), events[q].deviceRequest, events[q].newRaw, h, After(s, events).hist.issues[h])
  {
    q := CodeTrace.LastIssuing(s, events, h);
    CodeTrace.IssueStays(s, events, q + 1, h);
    IssueAt(s, events, q, h, After(s, events).hist.issues[h]);
  }

  lemma IssueAt(s: State, events: seq<Event>, q: nat, h: TokenHash, i: Issue)
    requires IsRun(s, events) && q < |events| && NewDeviceIssue(At(s, events, q), At(s, events, q + 1), h)
    requires At(s, events, q + 1).hist.issues[h] == i
    ensures events[q].DeviceGrant?
    ensures GrantedBy(At(s, events, q), events[q].deviceRequest, events[q].newRaw, h, i)
  {
    StepAt(s, events, q);
    StepIssue(At(s, events, q), events[q], h);
  }

  lemma HistoryAt(s: State, events: seq<Event>, n: nat, d: string)
    requires Inv(s) && IsRun(s, events) && n < |events|
    ensures HistoryStep(At(s, events, n), events[n], At(s, events, n + 1), d)
  {
    AtKeeps(s, events, n);
    StepAt(s, events, n);
    StepHistory(At(s, events, n), events[n], d);
  }

  lemma ApproveStage(s: State, events: seq<Event>, q: nat, d: string) returns (m: nat)
    requires Inv(s) && IsRun(s, events) && q < |events| && d !in s.hist.devices && Approved(At(s, events, q), d)
    ensures m < q && d in At(s, events, m).hist.devices && d in At(s, events, m + 1).hist.devices
    ensures ApprovedIn(At(s, events, m), events[m], At(s, events, m + 1), d)
    ensures At(s, events, m + 1).hist.devices[d] == At(s, events, q).hist.devices[d]
  {
    m := ApprovingStep(s, events, q, d);
    HistoryAt(s, events, m, d);
    AtPastKept(s, events, m + 1, q, d);
  }

  lemma RequestStage(s: State, events: seq<Event>, n: nat, d: string) returns (p: nat)
    requires Inv(s) && IsRun(s, events) && n <= |events| && d !in s.hist.devices && d in At(s, events, n).hist.devices
    ensures p < n && RequestedBy(At(s, events, p), events[p], At(s, events, p + 1), d)
    ensures At(s, events, n).hist.devices[d].client == events[p].clientId
  {
    p := RequestingStep(s, events, n, d);
    HistoryAt(s, events, p, d);
    AtPastKept(s, events, p + 1, n, d);
  }

  /** What the redeemed record says, and who its history says approved it. */
  lemma GrantedFacts(s: State, r: DeviceRequest, newRaw: string, h: TokenHash, i: Issue)
    requires Inv(s) && GrantedBy(s, r, newRaw, h, i)
    ensures Approved(s, r.deviceCode) && r.deviceCode in s.devices && s.devices[r.deviceCode].device.scope == i.scope
    ensures s.hist.devices[r.deviceCode].approved == Some((i.user, i.session))
    ensures s.hist.devices[r.deviceCode].client == r.clientId == i.clientName
  {
    DeviceFacts(s, r);
  }

  lemma ScopeStays(s: State, events: seq<Event>, m: nat, n: nat, d: string)
    requires Inv(s) && IsRun(s, events) && m <= n <= |events|
    requires d in At(s, events, m).hist.devices && d in At(s, events, n).devices
    ensures d in At(s, events, m).devices && At(s, events, m).devices[d].device.scope == At(s, events, n).devices[d].device.scope
  {
    AtContinues(s, events, m, n, d);
  }

  /** In every run, every token set from a device code goes back to a request by the same client at some
      event `p`, within the client's scopes, then an approval at `m` by the signed-in user and session the
      tokens carry, who typed a code of the same normal form, then a redemption at `q` by that client. */
  lemma DeviceTokenTraces(s: State, events: seq<Event>, h: TokenHash) returns (p: nat, m: nat, q: nat)
    requires Inv(s) && s.hist.devices == map[] && s.hist.issues == map[] && IsRun(s, events)
    requires h in After(s, events).hist.issues && After(s, events).hist.issues[h].origin.FromDevice?
    ensures p < m < q < |events|
    ensures var i := After(s, events).hist.issues[h];
            var d := i.origin.deviceCode;
            && RequestedBy(At(s, events, p), events[p], At(s, events, p + 1), d)
            && events[p].clientId == i.clientName && events[p].scope == i.scope
            && d in At(s, events, m + 1).hist.devices && ApprovedIn(At(s, events, m), events[m], At(s, events, m + 1), d)
            && FindActive(At(s, events, m), events[m].sessionToken, events[m].io).1.value.user == i.user
            && FindActive(At(s, events, m), events[m].sessionToken, events[m].io).1.value.session == i.session
            && events[q].DeviceGrant? && GrantedBy(At(s, events, q), events[q].deviceRequest, events[q].newRaw, h, i)
  {
    q := GrantStage(s, events, h);
    var i := After(s, events).hist.issues[h];
    AtKeeps(s, events, q);
    GrantedFacts(At(s, events, q), events[q].deviceRequest, events[q].newRaw, h, i);
    m := ApproveStage(s, events, q, i.origin.deviceCode);
    p := RequestStage(s, events, m, i.origin.deviceCode);
    ClientStays(s, events, m, q, i.origin.deviceCode);
    ScopeStays(s, events, p + 1, q, i.origin.deviceCode);
  }

  lemma ClientStays(s: State, events: seq<Event>, m: nat, n: nat, d: string)
    requires Inv(s) && IsRun(s, events) && m <= n <= |events| && d in At(s, events, m).hist.devices
    ensures d in At(s, events, n).hist.devices && At(s, events, n).hist.devices[d].client == At(s, events, m).hist.devices[d].client
  {
    AtPastKept(s, events, m, n, d);
  }

  /** A device code yields at most one token set, in every reachable state. */
  lemma DeviceCodeOnce(s: State, g: TokenHash, h: TokenHash)
    requires Reachable(s) && g in s.hist.issues && h in s.hist.issues
    requires s.hist.issues[g].origin.FromDevice? && s.hist.issues[g].origin == s.hist.issues[h].origin
    ensures g == h
  {
    ReachableOk(s);
    assert SameOrigin(g, h, s.hist.issues);
  }

  // ----------------------------------------------------------------- what one call does

  /** The token set came from the device code, for the user and session that approved it, and the code is
      consumed. */
  ghost predicate Justified(s: State, h: TokenHash, d: string) {
    && h in s.hist.issues && s.hist.issues[h].origin == FromDevice(d) && d in s.hist.devices
    && s.hist.devices[d].client == s.hist.issues[h].clientName
    && s.hist.devices[d].approved == Some((s.hist.issues[h].user, s.hist.issues[h].session))
    && (d in s.devices ==> s.devices[d].device.status == "consumed")
  }

  lemma SuccessJustified(s: State, r: DeviceRequest, newRaw: string, commits: bool)
    requires Inv(s) && Hmac(newRaw) !in s.hist.issues
    ensures RedeemDevice(s, r, newRaw, commits).1.Issued? ==> Justified(RedeemDevice(s, r, newRaw, commits).0, Hmac(newRaw), r.deviceCode)
  {
    if RedeemDevice(s, r, newRaw, commits).1.Issued? {
      var t := RedeemDevice(s, r, newRaw, commits).0;
      RedeemDeviceKeeps(s, r, newRaw, commits);
      SuccessRecorded(s, r, newRaw, commits);
      assert DeviceOriginOk(t.hist.issues[Hmac(newRaw)], t.devices, t.hist.devices);
    }
  }

  lemma SuccessRecorded(s: State, r: DeviceRequest, newRaw: string, commits: bool)
    requires RedeemDevice(s, r, newRaw, commits).1.Issued?
    ensures var t := RedeemDevice(s, r, newRaw, commits).0;
            Hmac(newRaw) in t.hist.issues && t.hist.issues[Hmac(newRaw)].origin == FromDevice(r.deviceCode)
  {
  }

  /** A request leaves every lookup that found something as it was. */
  lemma RequestSpares(s: State, clientId: string, scope: Option<string>, id: nat, deviceCode: string, draws: seq<string>)
    requires Inv(s) && deviceCode !in s.hist.devices && deviceCode != ""
    ensures var t := RequestDevice(s, clientId, scope, id, deviceCode, draws).0;
            forall typed | typed != "" && FindByUserCode(s, typed).Some? :: FindByUserCode(t, typed) == FindByUserCode(s, typed)
  {
    RecordKnown(s, deviceCode);
    forall typed | typed != "" && FindByUserCode(s, typed).Some?
      ensures FindByUserCode(RequestDevice(s, clientId, scope, id, deviceCode, draws).0, typed) == FindByUserCode(s, typed)
    {
      RequestFinds(s, clientId, scope, id, deviceCode, draws, typed);
    }
  }

  /** A pending record whose own code has the typed normal form is now approved for the session, or denied, and
      no other record changed. */
  ghost predicate Decided(s: State, t: State, typed: string, session: Option<Snapshot>, approve: bool) {
    var found := FindByUserCode(s, typed);
    && session.Some? && found.Some? && found.value.status == "pending"
    && NormalizeUserCode(found.value.userCode) == NormalizeUserCode(typed)
    && found.value.deviceCode in s.devices && s.now <= found.value.expires
    && t.devices == s.devices[found.value.deviceCode :=
         s.devices[found.value.deviceCode].(device := DecidedRecord(found.value, session.value, approve))]
  }

  function DecidedRecord(d: Device, session: Snapshot, approve: bool): Device {
    if approve then d.(status := "approved", user := Some(session.user), session := Some(session.session)) else d.(status := "denied")
  }

  lemma VerifyDecides(s: State, userCode: string, token: Option<string>, approve: bool, io: CacheIo)
    requires Inv(s)
    ensures var (t, result) := VerifyUserCode(s, userCode, token, approve, io);
            result.Verified? ==> Decided(s, t, Scopes.Trim(userCode), FindActive(s, token, io).1, approve)
  {
    var (mid, session) := FindActive(s, token, io);
    FindActiveKeeps(s, token, io);
    if VerifyUserCode(s, userCode, token, approve, io).1.Verified? {
      var typed := Scopes.Trim(userCode);
      var found := FindByUserCode(mid, typed);
      FoundIsLive(mid, typed);
      FoundHonest(mid, typed);
      ResolveDecides(mid, found.value, session.value, approve);
      assert FindByUserCode(s, typed) == found;
    }
  }

  lemma FoundHonest(s: State, userCode: string)
    requires Inv(s) && FindByUserCode(s, userCode).Some?
    ensures NormalizeUserCode(FindByUserCode(s, userCode).value.userCode) == NormalizeUserCode(userCode)
  {
    var p := NormalizeUserCode(userCode);
    var code := s.pointers[p].deviceCode;
    assert PointerOk(p, s.pointers[p], s.hist.devices);
    assert DeviceOk(code, s.devices[code].device, s.hist.devices);
  }

  lemma ResolveDecides(s: State, d: Device, session: Snapshot, approve: bool)
    requires LiveDevice(s, d.deviceCode) == Some(d)
    ensures Resolve(s, d, session, approve).devices
            == s.devices[d.deviceCode := s.devices[d.deviceCode].(device := DecidedRecord(d, session, approve))]
  {
  }
}
