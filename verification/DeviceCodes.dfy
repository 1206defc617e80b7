/** A device authorization record and the normal form of its user code
    (src/oauth/device/model.rs, src/oauth/device/repository.rs). */
module DeviceCodes {
  import opened Base
  import Scopes

  predicate IsIgnored(c: char) {
    Scopes.IsWhitespace(c) || c == '-'
  }

  function Upper(c: char): char {
    if 'a' <= c <= 'z' then (c as int - 32) as char else c
  }

  function Lower(c: char): char {
    if 'A' <= c <= 'Z' then (c as int + 32) as char else c
  }

  function NormalizeUserCode(code: string): string {
    if code == "" then ""
    else if IsIgnored(code[0]) then NormalizeUserCode(code[1..])
    else [Upper(code[0])] + NormalizeUserCode(code[1..])
  }

  datatype Device = Device(
    id: nat, deviceCode: string, userCode: string, client: string, scope: Option<string>, status: string,
    user: Option<nat>, session: Option<nat>, expires: nat, created: Option<nat>)
}
