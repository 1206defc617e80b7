/** The signing-key set on disk and in memory (src/common/crypto/rsa_keys.rs). A key pair is
    identified by its key id, which the source derives from the public key. */
module SigningKeys {
  import opened Base
  import Scopes

  type Kid = string

  /** `priv` and `pub` are the kids whose private and public PEM files exist, `marker` the trimmed content
      of `active.kid`, `legacy` the pair held by unnamed `private.pem` and `public.pem`. */
  datatype Disk = Disk(priv: set<Kid>, pub: set<Kid>, marker: Option<string>, legacy: Option<Kid>)

  datatype Memory = Down | Running(loaded: set<Kid>, active: Kid)

  /** How the non-atomic write of `active.kid` ends: it may fail before touching the file or leave
      any text behind. */
  datatype MarkerWrite = Written | Untouched | Torn(text: string)

  /** How far an operation gets: the number of PEM files it renames into place before an error or a
      crash, whether it gets from there to its in-memory update, and the marker write. */
  datatype Progress = Progress(pemFiles: nat, reachesMemory: bool, marker: MarkerWrite)

  function Loadable(disk: Disk): set<Kid> {
    disk.priv * disk.pub
  }

  /** Private file first, then public file, each renamed into place atomically. */
  function WithPems(disk: Disk, kid: Kid, n: nat): Disk {
    disk.(priv := if n >= 1 then disk.priv + {kid} else disk.priv,
          pub := if n >= 2 then disk.pub + {kid} else disk.pub)
  }

  function WithMarker(disk: Disk, kid: Kid, w: MarkerWrite): Disk {
    match w
    case Written => disk.(marker := Some(kid))
    case Untouched => disk
    case Torn(text) => disk.(marker := Some(text))
  }

  /** The first key of the ordered map. */
  function First(loaded: set<Kid>): (first: Kid)
    requires loaded != {}
    ensures first in loaded
  {
    Scopes.Sorted(loaded)[0]
  }

  function InitSpec(disk: Disk, minted: Kid, p: Progress, legacyRemoved: bool): (Disk, Memory) {
    var loaded := Loadable(disk);
    if disk.marker.Some? && disk.marker.value in loaded then (disk, Running(loaded, disk.marker.value))
    else if loaded != {} then Activate(disk, loaded, p.marker)
    else
      var kid := disk.legacy.UnwrapOr(minted);
      var written := WithPems(disk, kid, p.pemFiles);
      if p.pemFiles < 2 || !p.reachesMemory then (written, Down)
      else Activate(if disk.legacy.Some? && legacyRemoved then written.(legacy := None) else written, {kid}, p.marker)
  }

  function Activate(disk: Disk, loaded: set<Kid>, w: MarkerWrite): (Disk, Memory)
    requires loaded != {}
  {
    var kid := First(loaded);
    (WithMarker(disk, kid, w), if w.Written? then Running(loaded, kid) else Down)
  }

  function RotateSpec(disk: Disk, mem: Memory, kid: Kid, p: Progress): (Disk, Memory)
    requires mem.Running?
  {
    var written := WithPems(disk, kid, p.pemFiles);
    if p.pemFiles < 2 || !p.reachesMemory then (written, mem)
    else (WithMarker(written, kid, p.marker), Running(mem.loaded + {kid}, kid))
  }

  datatype RetireResult = Retired | Unknown | ActiveKey

  /** The two file removals may each fail; their errors are ignored. */
  function RetireSpec(disk: Disk, mem: Memory, kid: Kid, privGone: bool, pubGone: bool): (Disk, Memory, RetireResult)
    requires mem.Running?
  {
    if kid == "" then (disk, mem, Unknown)
    else if kid == mem.active then (disk, mem, ActiveKey)
    else if kid !in mem.loaded then (disk, mem, Unknown)
    else
      (disk.(priv := if privGone then disk.priv - {kid} else disk.priv,
             pub := if pubGone then disk.pub - {kid} else disk.pub),
       mem.(loaded := mem.loaded - {kid}), Retired)
  }

  class RsaKeyProvider {
    var disk: Disk
    var mem: Memory

    /** A process about to start over whatever an earlier one left on disk. */
    constructor (disk: Disk)
      ensures this.disk == disk && mem == Down
    {
      this.disk, mem := disk, Down;
    }

    /** The directory scan: a private file counts only together with its public file. */
    method LoadExistingKeys() returns (into: set<Kid>)
      ensures into == Loadable(disk)
    {
      into := {};
      var entries := disk.priv;
      while entries != {}
        invariant entries <= disk.priv
        invariant into == (disk.priv - entries) * disk.pub
        decreases entries
      {
        var kid :| kid in entries;
        entries := entries - {kid};
        if kid in disk.pub {
          into := into + {kid};
        }
      }
    }

    method WriteKeyFiles(kid: Kid, pemFiles: nat) returns (ok: bool)
      modifies this`disk
      ensures disk == WithPems(old(disk), kid, pemFiles)
      ensures ok <==> pemFiles >= 2
    {
      if pemFiles < 1 { return false; }
      disk := disk.(priv := disk.priv + {kid});
      if pemFiles < 2 { return false; }
      disk := disk.(pub := disk.pub + {kid});
      ok := true;
    }

    method Init(minted: Kid, p: Progress, legacyRemoved: bool)
      requires mem.Down?
      modifies this
      ensures (disk, mem) == InitSpec(old(disk), minted, p, legacyRemoved)
    {
      var byKid := LoadExistingKeys();
      if disk.marker.Some? && disk.marker.value in byKid {
        mem := Running(byKid, disk.marker.value);
        return;
      }
      if byKid == {} && disk.legacy.Some? {
        var kid := disk.legacy.value;
        var ok := WriteKeyFiles(kid, p.pemFiles);
        if !ok || !p.reachesMemory { return; }
        byKid := {kid};
        if legacyRemoved { disk := disk.(legacy := None); }
      }
      if byKid == {} {
        var ok := WriteKeyFiles(minted, p.pemFiles);
        if !ok || !p.reachesMemory { return; }
        byKid := {minted};
      }
      var first := First(byKid);
      disk := WithMarker(disk, first, p.marker);
      if p.marker.Written? {
        mem := Running(byKid, first);
      }
    }

    method Rotate(kid: Kid, p: Progress) returns (ok: bool)
      requires mem.Running?
      modifies this
      ensures (disk, mem) == RotateSpec(old(disk), old(mem), kid, p)
      ensures ok <==> p.pemFiles >= 2 && p.reachesMemory && p.marker.Written?
    {
      var written := WriteKeyFiles(kid, p.pemFiles);
      if !written || !p.reachesMemory { return false; }
      mem := mem.(loaded := mem.loaded + {kid});
      mem := mem.(active := kid);
      disk := WithMarker(disk, kid, p.marker);
      ok := p.marker.Written?;
    }

    method Retire(kid: Kid, privGone: bool, pubGone: bool) returns (result: RetireResult)
      requires mem.Running?
      modifies this
      ensures (disk, mem, result) == RetireSpec(old(disk), old(mem), kid, privGone, pubGone)
    {
      if kid == "" { return Unknown; }
      if kid == mem.active { return ActiveKey; }
      if kid !in mem.loaded { return Unknown; }
      mem := mem.(loaded := mem.loaded - {kid});
      if privGone { disk := disk.(priv := disk.priv - {kid}); }
      if pubGone { disk := disk.(pub := disk.pub - {kid}); }
      result := Retired;
    }

    /** An empty or missing `kid` header selects the active key. */
    method DecodingKeyByKid(kid: Option<Kid>) returns (key: Option<Kid>)
      requires mem.Running? && mem.active in mem.loaded
      ensures key == DecodingKey(mem, kid)
    {
      if kid.Some? && kid.value != "" {
        key := if kid.value in mem.loaded then Some(kid.value) else None;
      } else {
        key := Some(mem.active);
      }
    }
  }

  function DecodingKey(mem: Memory, kid: Option<Kid>): Option<Kid>
    requires mem.Running?
  {
    if kid.None? || kid.value == "" then Some(mem.active)
    else if kid.value in mem.loaded then kid
    else None
  }

  // ------------------------------------------------------------------------ runs

  /** `signed` and `retired` are histories: the kids tokens were signed under, and the kids a
      `retire` call succeeded on. */
  datatype State = State(disk: Disk, mem: Memory, signed: set<Kid>, retired: set<Kid>)

  datatype Event =
    | Init(minted: Kid, p: Progress, legacyRemoved: bool)
    | Rotate(kid: Kid, p: Progress)
    | Retire(kid: Kid, privGone: bool, pubGone: bool)
    | Sign
    | Crash

  function Step(s: State, e: Event): State {
    match e
    case Init(minted, p, legacyRemoved) =>
      if s.mem.Running? then s
      else
        var (disk, mem) := InitSpec(s.disk, minted, p, legacyRemoved);
        s.(disk := disk, mem := mem)
    case Rotate(kid, p) =>
      if s.mem.Down? then s
      else
        var (disk, mem) := RotateSpec(s.disk, s.mem, kid, p);
        s.(disk := disk, mem := mem)
    case Retire(kid, privGone, pubGone) =>
      if s.mem.Down? then s
      else
        var (disk, mem, result) := RetireSpec(s.disk, s.mem, kid, privGone, pubGone);
        State(disk, mem, s.signed, if result.Retired? then s.retired + {kid} else s.retired)
    case Sign => if s.mem.Down? then s else s.(signed := s.signed + {s.mem.active})
    case Crash => s.(mem := Down)
  }

  ghost function Run(disk: Disk, events: seq<Event>): State {
    if events == [] then State(disk, Down, {}, {})
    else Step(Run(disk, events[..|events| - 1]), events[|events| - 1])
  }

  /** What every step keeps. */
  ghost predicate Safe(s: State) {
    && (s.mem.Running? ==> s.mem.active in s.mem.loaded && s.mem.loaded <= Loadable(s.disk))
    && s.signed - s.retired <= Loadable(s.disk)
    && (s.mem.Running? ==> s.signed - s.retired <= s.mem.loaded)
  }

  lemma InitKeepsSafe(s: State, e: Event)
    requires Safe(s) && e.Init? && s.mem.Down?
    ensures Safe(Step(s, e))
  {
    var loaded := Loadable(s.disk);
    if loaded == {} {
      var kid := s.disk.legacy.UnwrapOr(e.minted);
      assert e.p.pemFiles >= 2 ==> kid in Loadable(WithPems(s.disk, kid, e.p.pemFiles));
      assert s.signed - s.retired == {};
    } else if !(s.disk.marker.Some? && s.disk.marker.value in loaded) {
      var after := Activate(s.disk, loaded, e.p.marker);
      assert Loadable(after.0) == loaded;
    }
  }

  lemma RotateKeepsSafe(s: State, e: Event)
    requires Safe(s) && e.Rotate? && s.mem.Running?
    ensures Safe(Step(s, e))
  {
    var written := WithPems(s.disk, e.kid, e.p.pemFiles);
    assert Loadable(s.disk) <= Loadable(written);
    assert e.p.pemFiles >= 2 ==> e.kid in Loadable(written);
    assert Loadable(WithMarker(written, e.kid, e.p.marker)) == Loadable(written);
  }

  lemma RetireKeepsSafe(s: State, e: Event)
    requires Safe(s) && e.Retire? && s.mem.Running?
    ensures Safe(Step(s, e))
  {
    var (disk, mem, result) := RetireSpec(s.disk, s.mem, e.kid, e.privGone, e.pubGone);
    if result.Retired? {
      assert Loadable(s.disk) - {e.kid} <= Loadable(disk);
      assert s.signed - (s.retired + {e.kid}) == s.signed - s.retired - {e.kid};
    }
  }

  lemma StepKeepsSafe(s: State, e: Event)
    requires Safe(s)
    ensures Safe(Step(s, e))
  {
    match e {
      case Init(_, _, _) => if s.mem.Down? { InitKeepsSafe(s, e); }
      case Rotate(_, _) => if s.mem.Running? { RotateKeepsSafe(s, e); }
      case Retire(_, _, _) => if s.mem.Running? { RetireKeepsSafe(s, e); }
      case Sign =>
      case Crash =>
    }
  }

  lemma {:induction false} RunSafe(disk: Disk, events: seq<Event>)
    ensures Safe(Run(disk, events))
  {
    if events != [] {
      RunSafe(disk, events[..|events| - 1]);
      StepKeepsSafe(Run(disk, events[..|events| - 1]), events[|events| - 1]);
    }
  }

  /** From any initial directory, through rotations, retirements, crashes at any file step and
      restarts: the active kid is loaded, everything loaded could be loaded again, and a token stays
      verifiable in every running state until its kid is retired. */
  lemma SignedStaysVerifiable(disk: Disk, events: seq<Event>, i: nat)
    requires i < |events| && events[i] == Sign && Run(disk, events[..i]).mem.Running?
    ensures var kid := Run(disk, events[..i]).mem.active;
            var s := Run(disk, events);
            && (s.mem.Running? ==> s.mem.active in s.mem.loaded && s.mem.loaded <= Loadable(s.disk))
            && (s.mem.Running? && kid != "" && kid !in s.retired ==> DecodingKey(s.mem, Some(kid)) == Some(kid))
  {
    RunSafe(disk, events);
    SignedRemembered(disk, events, i);
  }

  lemma StepRemembers(s: State, e: Event)
    ensures s.signed <= Step(s, e).signed
    ensures e.Sign? && s.mem.Running? ==> s.mem.active in Step(s, e).signed
  {
  }

  lemma {:induction false} SignedRemembered(disk: Disk, events: seq<Event>, i: nat)
    requires i < |events| && events[i] == Sign && Run(disk, events[..i]).mem.Running?
    ensures Run(disk, events[..i]).mem.active in Run(disk, events).signed
  {
    var front := events[..|events| - 1];
    StepRemembers(Run(disk, front), events[|events| - 1]);
    if i < |front| {
      assert front[..i] == events[..i];
      SignedRemembered(disk, front, i);
    } else {
      assert front == events[..i];
    }
  }

  // ---------------------------------------------------------- retire and restart

  /** Retiring the active key is refused and changes nothing; any other loaded key becomes
      unverifiable at once. */
  lemma RetireEffect(s: State, kid: Kid, privGone: bool, pubGone: bool)
    requires Safe(s) && s.mem.Running? && kid != ""
    ensures var after := Step(s, Retire(kid, privGone, pubGone));
            && (kid == s.mem.active ==> after == s)
            && (kid != s.mem.active ==> DecodingKey(after.mem, Some(kid)) == None)
            && after.mem.active == s.mem.active
            && (forall other | other != kid && other in s.mem.loaded :: DecodingKey(after.mem, Some(other)) == DecodingKey(s.mem, Some(other)))
  {
  }

  /** Removal errors are ignored, so a retired key comes back with the next restart exactly when
      neither of its files was removed. */
  lemma RetiredAfterRestart(s: State, kid: Kid, privGone: bool, pubGone: bool, init: Event)
    requires Safe(s) && s.mem.Running? && kid != "" && kid in s.mem.loaded && kid != s.mem.active
    requires init.Init? && init.p == Progress(2, true, Written)
    ensures var after := Step(Step(Step(s, Retire(kid, privGone, pubGone)), Crash), init);
            after.mem.Running? && (kid in after.mem.loaded <==> !privGone && !pubGone)
  {
    var after := Step(s, Retire(kid, privGone, pubGone));
    assert s.mem.active in Loadable(after.disk);
  }

  /** The marker on disk names the active key. */
  ghost predicate MarkerCurrent(s: State) {
    s.mem.Running? ==> s.disk.marker == Some(s.mem.active)
  }

  /** A rotation that stopped between its memory update and its marker write. */
  predicate MarkerLost(e: Event) {
    e.Rotate? && e.p.pemFiles >= 2 && e.p.reachesMemory && !e.p.marker.Written?
  }

  lemma StepKeepsMarker(s: State, e: Event)
    requires MarkerCurrent(s) && !MarkerLost(e)
    ensures MarkerCurrent(Step(s, e))
  {
    match e {
      case Init(_, _, _) =>
      case Rotate(_, _) =>
      case Retire(_, _, _) =>
      case Sign =>
      case Crash =>
    }
  }

  lemma {:induction false} MarkerFollows(disk: Disk, events: seq<Event>)
    requires forall i | 0 <= i < |events| :: !MarkerLost(events[i])
    ensures MarkerCurrent(Run(disk, events))
  {
    if events != [] {
      MarkerFollows(disk, events[..|events| - 1]);
      StepKeepsMarker(Run(disk, events[..|events| - 1]), events[|events| - 1]);
    }
  }

  /** The key a restart would use: the one the marker names if it is there, else the first. */
  lemma RestartExact(s: State, init: Event)
    requires Safe(s) && s.mem.Running? && init.Init?
    ensures var loaded := Loadable(s.disk);
            Step(Step(s, Crash), init).mem == Running(loaded, s.mem.active) <==>
              if s.disk.marker.Some? && s.disk.marker.value in loaded then s.disk.marker.value == s.mem.active
              else First(loaded) == s.mem.active && init.p.marker.Written?
  {
    assert s.mem.active in Loadable(s.disk);
  }

  /** The text a write leaves, if it touches the file. */
  function TextOf(w: MarkerWrite, kid: Kid): Option<string> {
    match w
    case Written => Some(kid)
    case Untouched => None
    case Torn(text) => Some(text)
  }

  /** What an event leaves in the marker file, if it writes it: only a start without a usable marker and a
      rotation that got as far as memory do. */
  function MarkerLeft(s: State, e: Event): Option<string> {
    match e
    case Init(minted, p, _) =>
      var loaded := Loadable(s.disk);
      if s.mem.Running? || (s.disk.marker.Some? && s.disk.marker.value in loaded) then None
      else if loaded != {} then TextOf(p.marker, First(loaded))
      else if p.pemFiles < 2 || !p.reachesMemory then None
      else TextOf(p.marker, s.disk.legacy.UnwrapOr(minted))
    case Rotate(kid, p) => if s.mem.Down? || p.pemFiles < 2 || !p.reachesMemory then None else TextOf(p.marker, kid)
    case Retire(_, _, _) => None
    case Sign => None
    case Crash => None
  }

  lemma MarkerStep(s: State, e: Event)
    ensures Step(s, e).disk.marker == if MarkerLeft(s, e).Some? then MarkerLeft(s, e) else s.disk.marker
  {
    match e {
      case Init(minted, p, legacyRemoved) => if s.mem.Down? { InitMarker(s.disk, minted, p, legacyRemoved); }
      case Rotate(_, _) =>
      case Retire(_, _, _) =>
      case Sign =>
      case Crash =>
    }
  }

  lemma InitMarker(disk: Disk, minted: Kid, p: Progress, legacyRemoved: bool)
    ensures var left := MarkerLeft(State(disk, Down, {}, {}), Init(minted, p, legacyRemoved));
            InitSpec(disk, minted, p, legacyRemoved).0.marker == if left.Some? then left else disk.marker
  {
    var loaded := Loadable(disk);
    var kid := disk.legacy.UnwrapOr(minted);
    if loaded != {} {
      ActivateMarker(disk, loaded, p.marker);
    } else {
      var written := WithPems(disk, kid, p.pemFiles);
      ActivateMarker(written, {kid}, p.marker);
      ActivateMarker(written.(legacy := None), {kid}, p.marker);
      FirstOnly(kid);
    }
  }

  lemma ActivateMarker(disk: Disk, loaded: set<Kid>, w: MarkerWrite)
    requires loaded != {}
    ensures Activate(disk, loaded, w).0.marker == if TextOf(w, First(loaded)).Some? then TextOf(w, First(loaded)) else disk.marker
  {
  }

  lemma FirstOnly(kid: Kid)
    ensures First({kid}) == kid
  {
    assert First({kid}) in {kid};
  }

  /** What the last event that wrote the marker left in it. */
  ghost function LastMarker(disk: Disk, events: seq<Event>): Option<string> {
    if events == [] then disk.marker
    else
      var front, last := events[..|events| - 1], events[|events| - 1];
      if MarkerLeft(Run(disk, front), last).Some? then MarkerLeft(Run(disk, front), last) else LastMarker(disk, front)
  }

  lemma {:induction false} LastWriteDecides(disk: Disk, events: seq<Event>)
    ensures Run(disk, events).disk.marker == LastMarker(disk, events)
  {
    if events != [] {
      LastWriteDecides(disk, events[..|events| - 1]);
      MarkerStep(Run(disk, events[..|events| - 1]), events[|events| - 1]);
    }
  }

  /** Over every run, a restart keeps the active key exactly when the last marker write names it, or left
      nothing that names a loadable key while the active one comes first and is written again. It always
      does when no rotation lost its marker write. */
  lemma RestartKeepsActive(disk: Disk, events: seq<Event>, init: Event)
    requires Run(disk, events).mem.Running? && init.Init?
    ensures var s, text := Run(disk, events), LastMarker(disk, events);
            var loaded := Loadable(s.disk);
            var kept := Step(Step(s, Crash), init).mem == Running(loaded, s.mem.active);
            && s.mem.active in loaded
            && (kept <==> if text.Some? && text.value in loaded then text.value == s.mem.active
                          else First(loaded) == s.mem.active && init.p.marker.Written?)
            && ((forall i | 0 <= i < |events| :: !MarkerLost(events[i])) ==> kept)
  {
    RunSafe(disk, events);
    LastWriteDecides(disk, events);
    RestartExact(Run(disk, events), init);
    if forall i | 0 <= i < |events| :: !MarkerLost(events[i]) { MarkerFollows(disk, events); }
  }

  /** A rotation that loses its marker write: an untouched marker takes the next start back to the old key;
      a torn one keeps the new key exactly when the text is its id, or names no loadable key and the new key
      comes first and is written again. */
  lemma LostRotationExact(s: State, e: Event, init: Event)
    requires Safe(s) && s.mem.Running? && MarkerCurrent(s) && MarkerLost(e) && init.Init?
    ensures var loaded := Loadable(s.disk) + {e.kid};
            var after := Step(Step(Step(s, e), Crash), init).mem;
            && Step(s, e).mem.active == e.kid
            && (e.p.marker.Untouched? ==> after == Running(loaded, s.mem.active))
            && (e.p.marker.Torn? ==>
                (after == Running(loaded, e.kid) <==>
                 if e.p.marker.text in loaded then e.p.marker.text == e.kid else First(loaded) == e.kid && init.p.marker.Written?))
  {
    StepKeepsSafe(s, e);
    RestartExact(Step(s, e), init);
    assert Loadable(Step(s, e).disk) == Loadable(s.disk) + {e.kid};
  }

  /** When the marker write of a rotation fails, the running process uses the new key and a restart
      goes back to the old one. */
  lemma LostMarkerFallsBack()
    ensures var disk := Disk({"a"}, {"a"}, Some("a"), None);
            var rotated := Run(disk, [Init("z", Progress(2, true, Written), false), Rotate("b", Progress(2, true, Untouched))]);
            rotated.mem == Running({"a", "b"}, "b") &&
            Step(Step(rotated, Crash), Init("z", Progress(2, true, Written), false)).mem == Running({"a", "b"}, "a")
  {
    var disk := Disk({"a"}, {"a"}, Some("a"), None);
    var e0, e1 := Init("z", Progress(2, true, Written), false), Rotate("b", Progress(2, true, Untouched));
    assert [e0, e1][..1] == [e0] && [e0][..0] == [];
    assert Loadable(disk) == {"a"};
    assert Run(disk, []) == State(disk, Down, {}, {});
    assert Run(disk, [e0]) == State(disk, Running({"a"}, "a"), {}, {}) by { assert [e0][|[e0]| - 1] == e0; }
    assert {"a", "b"} * {"a", "b"} == {"a", "b"};
    assert {"a"} + {"b"} == {"a", "b"};
  }
}
