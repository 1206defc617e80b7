/** What the normal form of user codes and the field encoding of device records promise
    (src/oauth/device/repository.rs, src/oauth/device/flow.rs). */
module DeviceFields {
  import opened Base
  import opened DeviceCodes

  // ------------------------------------------------------------------ user codes

  const USER_CODE_ALPHABET: string := "BCDFGHJKLMNPQRSTVWXZ23456789"

  /** Eight draws from the alphabet. */
  ghost predicate IsDraw(picks: seq<nat>) {
    |picks| == 8 && forall i | 0 <= i < 8 :: picks[i] < |USER_CODE_ALPHABET|
  }

  function Letters(picks: seq<nat>): string
    requires forall i | 0 <= i < |picks| :: picks[i] < |USER_CODE_ALPHABET|
  {
    seq(|picks|, i requires 0 <= i < |picks| => USER_CODE_ALPHABET[picks[i]])
  }

  method GenerateUserCode(picks: seq<nat>) returns (s: string)
    requires IsDraw(picks)
    ensures s == Letters(picks[..4]) + "-" + Letters(picks[4..])
  {
    s := "";
    for i := 0 to 8
      invariant i <= 4 ==> s == Letters(picks[..i])
      invariant i > 4 ==> s == Letters(picks[..4]) + "-" + Letters(picks[4..i])
    {
      if i == 4 { s := s + "-"; }
      var c := USER_CODE_ALPHABET[picks[i]];
      if i < 4 {
        assert Letters(picks[..i + 1]) == Letters(picks[..i]) + [c];
      } else {
        assert Letters(picks[4..i + 1]) == Letters(picks[4..i]) + [c];
      }
      s := s + [c];
    }
    assert picks[4..8] == picks[4..];
  }

  lemma {:induction false} NormalizeConcat(a: string, b: string)
    ensures NormalizeUserCode(a + b) == NormalizeUserCode(a) + NormalizeUserCode(b)
  {
    if a == "" {
      assert a + b == b;
    } else {
      NormalizeConcat(a[1..], b);
      assert (a + b)[0] == a[0] && (a + b)[1..] == a[1..] + b;
      var x, y := NormalizeUserCode(a[1..]), NormalizeUserCode(b);
      assert [Upper(a[0])] + (x + y) == [Upper(a[0])] + x + y;
    }
  }

  lemma AlphabetIsNormal()
    ensures forall i | 0 <= i < |USER_CODE_ALPHABET| ::
              !IsIgnored(USER_CODE_ALPHABET[i]) && Upper(USER_CODE_ALPHABET[i]) == USER_CODE_ALPHABET[i]
  {
  }

  lemma AlphabetDistinct()
    ensures forall i, j | 0 <= i < j < |USER_CODE_ALPHABET| :: USER_CODE_ALPHABET[i] != USER_CODE_ALPHABET[j]
  {
  }

  lemma {:induction false} NormalizeLetters(t: string)
    requires forall i | 0 <= i < |t| :: !IsIgnored(t[i]) && Upper(t[i]) == t[i]
    ensures NormalizeUserCode(t) == t
  {
    if t != "" { NormalizeLetters(t[1..]); }
  }

  /** A generated code normalizes to its eight letters, so different draws never share a pointer key. */
  lemma GeneratedNormalForm(picks: seq<nat>)
    requires IsDraw(picks)
    ensures NormalizeUserCode(Letters(picks[..4]) + "-" + Letters(picks[4..])) == Letters(picks)
  {
    var a, b := Letters(picks[..4]), Letters(picks[4..]);
    LettersNormal(picks[..4]);
    LettersNormal(picks[4..]);
    LettersSplit(picks, 4);
    HyphenIgnored(a, b);
  }

  lemma LettersNormal(picks: seq<nat>)
    requires forall i | 0 <= i < |picks| :: picks[i] < |USER_CODE_ALPHABET|
    ensures NormalizeUserCode(Letters(picks)) == Letters(picks)
  {
    AlphabetIsNormal();
    NormalizeLetters(Letters(picks));
  }

  lemma LettersSplit(picks: seq<nat>, n: nat)
    requires n <= |picks| && forall i | 0 <= i < |picks| :: picks[i] < |USER_CODE_ALPHABET|
    ensures Letters(picks) == Letters(picks[..n]) + Letters(picks[n..])
  {
  }

  lemma HyphenIgnored(a: string, b: string)
    ensures NormalizeUserCode(a + "-" + b) == NormalizeUserCode(a) + NormalizeUserCode(b)
  {
    NormalizeConcat(a + "-", b);
    NormalizeConcat(a, "-");
    assert NormalizeUserCode("-") == "";
  }

  lemma DrawsDistinguished(p: seq<nat>, q: seq<nat>)
    requires IsDraw(p) && IsDraw(q)
    ensures (NormalizeUserCode(Letters(p[..4]) + "-" + Letters(p[4..])) ==
             NormalizeUserCode(Letters(q[..4]) + "-" + Letters(q[4..]))) <==> p == q
  {
    AlphabetDistinct();
    GeneratedNormalForm(p);
    GeneratedNormalForm(q);
    if Letters(p) == Letters(q) {
      forall i | 0 <= i < 8
        ensures p[i] == q[i]
      {
        assert Letters(p)[i] == USER_CODE_ALPHABET[p[i]] && Letters(q)[i] == USER_CODE_ALPHABET[q[i]];
      }
    }
  }

  /** What a user may do to a code while typing it. */
  datatype Edit = InsertIgnored(at: nat, c: char) | Recase(at: nat, up: bool)

  function Edited(code: string, e: Edit): string {
    match e
    case InsertIgnored(at, c) => if at <= |code| && IsIgnored(c) then code[..at] + [c] + code[at..] else code
    case Recase(at, up) => if at < |code| then code[at := if up then Upper(code[at]) else Lower(code[at])] else code
  }

  function Retyped(code: string, edits: seq<Edit>): string {
    if edits == [] then code else Edited(Retyped(code, edits[..|edits| - 1]), edits[|edits| - 1])
  }

  lemma EditKeepsNormalForm(code: string, e: Edit)
    ensures NormalizeUserCode(Edited(code, e)) == NormalizeUserCode(code)
  {
    match e {
      case InsertIgnored(at, c) =>
        if at <= |code| && IsIgnored(c) {
          NormalizeConcat(code[..at] + [c], code[at..]);
          NormalizeConcat(code[..at], [c]);
          NormalizeConcat(code[..at], code[at..]);
          assert NormalizeUserCode([c]) == "";
          assert code[..at] + code[at..] == code;
        }
      case Recase(at, up) =>
        if at < |code| {
          var c := if up then Upper(code[at]) else Lower(code[at]);
          var front, back := code[..at], code[at + 1..];
          assert code == front + [code[at]] + back && Edited(code, e) == front + [c] + back;
          NormalizeConcat(front + [c], back);
          NormalizeConcat(front, [c]);
          NormalizeConcat(front + [code[at]], back);
          NormalizeConcat(front, [code[at]]);
          assert NormalizeUserCode([c]) == NormalizeUserCode([code[at]]) by {
            assert IsIgnored(c) == IsIgnored(code[at]) && Upper(c) == Upper(code[at]);
            assert [c][1..] == "" && [code[at]][1..] == "";
          }
        }
    }
  }

  /** A code keeps its normal form under any number of case changes and inserted hyphens or blanks. */
  lemma {:induction false} RetypingKeepsNormalForm(code: string, edits: seq<Edit>)
    ensures NormalizeUserCode(Retyped(code, edits)) == NormalizeUserCode(code)
  {
    if edits != [] {
      var front := edits[..|edits| - 1];
      RetypingKeepsNormalForm(code, front);
      EditKeepsNormalForm(Retyped(code, front), edits[|edits| - 1]);
    }
  }

  // --------------------------------------------------------------- field encoding

  /** The ten field names of the hash. */
  datatype FieldName =
    | IdField | DeviceCodeField | UserCodeField | ClientIdField | ScopeField | StatusField
    | UserIdField | SessionIdField | ExpiresAtField | CreatedAtField

  /** A hash field: plain text, or text printed from a UUID or a timestamp. */
  datatype Field = Text(s: string) | UuidText(id: nat) | TimeText(at: nat)

  type Fields = map<FieldName, Field>

  /** The value a record has for a field; absent for an empty optional. */
  function FieldOf(d: Device, name: FieldName): Option<Field> {
    match name
    case IdField => Some(UuidText(d.id))
    case DeviceCodeField => Some(Text(d.deviceCode))
    case UserCodeField => Some(Text(d.userCode))
    case ClientIdField => Some(Text(d.client))
    case ScopeField => if d.scope.Some? then Some(Text(d.scope.value)) else None
    case StatusField => Some(Text(d.status))
    case UserIdField => if d.user.Some? then Some(UuidText(d.user.value)) else None
    case SessionIdField => if d.session.Some? then Some(UuidText(d.session.value)) else None
    case ExpiresAtField => Some(TimeText(d.expires))
    case CreatedAtField => if d.created.Some? then Some(TimeText(d.created.value)) else None
  }

  const ALL_FIELDS: set<FieldName> :=
    {IdField, DeviceCodeField, UserCodeField, ClientIdField, ScopeField, StatusField,
     UserIdField, SessionIdField, ExpiresAtField, CreatedAtField}

  ghost function Only(d: Device, names: set<FieldName>): Fields {
    map name | name in names && FieldOf(d, name).Some? :: FieldOf(d, name).value
  }

  ghost function Encoded(d: Device): Fields {
    Only(d, ALL_FIELDS)
  }

  /** HSET of several pairs over an existing hash. */
  ghost function Hset(older: Fields, pairs: seq<(FieldName, Field)>): Fields {
    if pairs == [] then older
    else Hset(older, pairs[..|pairs| - 1])[pairs[|pairs| - 1].0 := pairs[|pairs| - 1].1]
  }

  /** Writing the pairs overlays exactly the given fields of `d`, whatever the hash held before. */
  ghost predicate Overlays(pairs: seq<(FieldName, Field)>, d: Device, names: set<FieldName>) {
    forall older :: Hset(older, pairs) == older + Only(d, names)
  }

  method ToFields(d: Device) returns (out: seq<(FieldName, Field)>)
    ensures forall older :: Hset(older, out) == older + Encoded(d)
  {
    out := [];
    assert Overlays(out, d, {});
    out := PushRequest(out, d);
    out := PushDecision(out, d);
    assert REQUEST_FIELDS + DECISION_FIELDS == ALL_FIELDS;
    assert Overlays(out, d, ALL_FIELDS);
  }

  const REQUEST_FIELDS: set<FieldName> := {IdField, DeviceCodeField, UserCodeField, ClientIdField, ScopeField}

  const DECISION_FIELDS: set<FieldName> := {StatusField, UserIdField, SessionIdField, ExpiresAtField, CreatedAtField}

  method PushRequest(out: seq<(FieldName, Field)>, d: Device) returns (out': seq<(FieldName, Field)>)
    requires Overlays(out, d, {})
    ensures Overlays(out', d, REQUEST_FIELDS)
  {
    out' := Push(out, d, IdField, {});
    out' := Push(out', d, DeviceCodeField, {} + {IdField});
    out' := Push(out', d, UserCodeField, {} + {IdField} + {DeviceCodeField});
    out' := Push(out', d, ClientIdField, {} + {IdField} + {DeviceCodeField} + {UserCodeField});
    out' := Push(out', d, ScopeField, {} + {IdField} + {DeviceCodeField} + {UserCodeField} + {ClientIdField});
    assert {} + {IdField} + {DeviceCodeField} + {UserCodeField} + {ClientIdField} + {ScopeField} == REQUEST_FIELDS;
  }

  method PushDecision(out: seq<(FieldName, Field)>, d: Device) returns (out': seq<(FieldName, Field)>)
    requires Overlays(out, d, REQUEST_FIELDS)
    ensures Overlays(out', d, REQUEST_FIELDS + DECISION_FIELDS)
  {
    ghost var done := REQUEST_FIELDS;
    out' := Push(out, d, StatusField, done);
    out' := Push(out', d, UserIdField, done + {StatusField});
    out' := Push(out', d, SessionIdField, done + {StatusField} + {UserIdField});
    out' := Push(out', d, ExpiresAtField, done + {StatusField} + {UserIdField} + {SessionIdField});
    out' := Push(out', d, CreatedAtField, done + {StatusField} + {UserIdField} + {SessionIdField} + {ExpiresAtField});
    assert done + {StatusField} + {UserIdField} + {SessionIdField} + {ExpiresAtField} + {CreatedAtField} == done + DECISION_FIELDS;
  }

  method Push(out: seq<(FieldName, Field)>, d: Device, name: FieldName, ghost done: set<FieldName>)
    returns (out': seq<(FieldName, Field)>)
    requires Overlays(out, d, done)
    ensures Overlays(out', d, done + {name})
  {
    var value := FieldOf(d, name);
    out' := if value.Some? then out + [(name, value.value)] else out;
    forall older: Fields
      ensures Hset(older, out') == older + Only(d, done + {name})
    {
      if value.Some? {
        assert out'[..|out|] == out;
        assert Hset(older, out') == (older + Only(d, done))[name := value.value];
      } else {
        assert Only(d, done + {name}) == Only(d, done);
      }
    }
  }

  function TextOf(m: Fields, name: FieldName): Option<string> {
    if name in m && m[name].Text? then Some(m[name].s) else None
  }

  function UuidOf(m: Fields, name: FieldName): Option<nat> {
    if name in m && m[name].UuidText? then Some(m[name].id) else None
  }

  function TimeOf(m: Fields, name: FieldName): Option<nat> {
    if name in m && m[name].TimeText? then Some(m[name].at) else None
  }

  /** Missing or unreadable required fields are an error; optional ones read as absent. */
  function FromFields(m: Fields): Option<Device> {
    var id, dc, uc := UuidOf(m, IdField), TextOf(m, DeviceCodeField), TextOf(m, UserCodeField);
    var client, status, expires := TextOf(m, ClientIdField), TextOf(m, StatusField), TimeOf(m, ExpiresAtField);
    if id.None? || dc.None? || uc.None? || client.None? || status.None? || expires.None? then None
    else Some(Device(id.value, dc.value, uc.value, client.value, TextOf(m, ScopeField), status.value,
                     UuidOf(m, UserIdField), UuidOf(m, SessionIdField), expires.value, TimeOf(m, CreatedAtField)))
  }

  /** No optional field that the record leaves out is readable in the older hash. */
  ghost predicate NothingLeftOver(older: Fields, d: Device) {
    && (d.scope.None? ==> TextOf(older, ScopeField).None?)
    && (d.user.None? ==> UuidOf(older, UserIdField).None?)
    && (d.session.None? ==> UuidOf(older, SessionIdField).None?)
    && (d.created.None? ==> TimeOf(older, CreatedAtField).None?)
  }

  /** Writing a record over an older hash and reading it back gives the record exactly when no absent
      optional field shines through. */
  lemma MergedRoundTrip(older: Fields, d: Device)
    ensures FromFields(older + Encoded(d)) == Some(d) <==> NothingLeftOver(older, d)
  {
    var m := older + Encoded(d);
    forall name: FieldName
      ensures FieldOf(d, name).Some? ==> name in m && m[name] == FieldOf(d, name).value
      ensures FieldOf(d, name).None? ==> (name in m <==> name in older) && (name in m ==> m[name] == older[name])
    {
      AllFieldsListed(name);
    }
    RequiredFields(m, d);
    OptionalFields(m, older, d);
  }

  lemma AllFieldsListed(name: FieldName)
    ensures name in ALL_FIELDS
  {
    match name
    case IdField =>
    case DeviceCodeField =>
    case UserCodeField =>
    case ClientIdField =>
    case ScopeField =>
    case StatusField =>
    case UserIdField =>
    case SessionIdField =>
    case ExpiresAtField =>
    case CreatedAtField =>
  }

  ghost predicate Merged(m: Fields, older: Fields, d: Device) {
    forall name: FieldName ::
      if FieldOf(d, name).Some? then name in m && m[name] == FieldOf(d, name).value
      else (name in m <==> name in older) && (name in m ==> m[name] == older[name])
  }

  lemma RequiredFields(m: Fields, d: Device)
    requires forall name: FieldName | FieldOf(d, name).Some? :: name in m && m[name] == FieldOf(d, name).value
    ensures UuidOf(m, IdField) == Some(d.id) && TextOf(m, DeviceCodeField) == Some(d.deviceCode)
    ensures TextOf(m, UserCodeField) == Some(d.userCode) && TextOf(m, ClientIdField) == Some(d.client)
    ensures TextOf(m, StatusField) == Some(d.status) && TimeOf(m, ExpiresAtField) == Some(d.expires)
  {
    assert FieldOf(d, IdField).Some? && FieldOf(d, DeviceCodeField).Some? && FieldOf(d, UserCodeField).Some?;
    assert FieldOf(d, ClientIdField).Some? && FieldOf(d, StatusField).Some? && FieldOf(d, ExpiresAtField).Some?;
  }

  lemma OptionalFields(m: Fields, older: Fields, d: Device)
    requires Merged(m, older, d)
    ensures TextOf(m, ScopeField) == if d.scope.Some? then d.scope else TextOf(older, ScopeField)
    ensures UuidOf(m, UserIdField) == if d.user.Some? then d.user else UuidOf(older, UserIdField)
    ensures UuidOf(m, SessionIdField) == if d.session.Some? then d.session else UuidOf(older, SessionIdField)
    ensures TimeOf(m, CreatedAtField) == if d.created.Some? then d.created else TimeOf(older, CreatedAtField)
  {
    assert FieldOf(d, ScopeField).Some? <==> d.scope.Some?;
    assert FieldOf(d, UserIdField).Some? <==> d.user.Some?;
    assert FieldOf(d, SessionIdField).Some? <==> d.session.Some?;
    assert FieldOf(d, CreatedAtField).Some? <==> d.created.Some?;
  }

  /** An update as the flows make it: fields are only ever added. */
  predicate Extends(d: Device, d': Device) {
    && (d.scope.Some? ==> d'.scope.Some?) && (d.user.Some? ==> d'.user.Some?)
    && (d.session.Some? ==> d'.session.Some?) && (d.created.Some? ==> d'.created.Some?)
  }

  /** The hash after a first write and any number of later updates. */
  ghost function Written(versions: seq<Device>): Fields {
    if versions == [] then map[] else Written(versions[..|versions| - 1]) + Encoded(versions[|versions| - 1])
  }

  /** Reading always gives back the latest version as long as versions only add fields. */
  lemma {:induction false} LatestVersionReadBack(versions: seq<Device>)
    requires versions != []
    requires forall i | 0 < i < |versions| :: Extends(versions[i - 1], versions[i])
    ensures FromFields(Written(versions)) == Some(versions[|versions| - 1])
  {
    var front, last := versions[..|versions| - 1], versions[|versions| - 1];
    if front != [] {
      LatestVersionReadBack(front);
      assert Extends(versions[|versions| - 2], versions[|versions| - 1]);
    }
    MergedRoundTrip(Written(front), last);
  }
}
