/** Scope strings: parsing, the subset test, and the canonical printed form that
    consent rows store (src/oauth/scopes.rs, src/oauth/consent/service.rs). */
module Scopes {
  import opened Base

  /** Unicode White_Space, which is what `char::is_whitespace` tests. */
  predicate IsWhitespace(c: char) {
    var n := c as int;
    || 0x09 <= n <= 0x0D || n == 0x20 || n == 0x85 || n == 0xA0 || n == 0x1680
    || 0x2000 <= n <= 0x200A || n == 0x2028 || n == 0x2029 || n == 0x202F || n == 0x205F || n == 0x3000
  }

  predicate IsSeparator(c: char) {
    IsWhitespace(c) || c == ','
  }

  function TrimStart(s: string): string {
    if s != "" && IsWhitespace(s[0]) then TrimStart(s[1..]) else s
  }

  function TrimEnd(s: string): string {
    if s != "" && IsWhitespace(s[|s| - 1]) then TrimEnd(s[..|s| - 1]) else s
  }

  function Trim(s: string): string {
    TrimEnd(TrimStart(s))
  }

  /** `str::split`: one more piece than there are separators. */
  function Split(s: string): (pieces: seq<string>)
    ensures |pieces| >= 1
  {
    if s == "" then [""]
    else if IsSeparator(s[0]) then [""] + Split(s[1..])
    else
      var rest := Split(s[1..]);
      [[s[0]] + rest[0]] + rest[1..]
  }

  function Parse(raw: Option<string>): set<string> {
    if raw.None? || Trim(raw.value) == "" then {}
    else set piece | piece in Split(raw.value) && Trim(piece) != "" :: Trim(piece)
  }

  predicate Blank(raw: Option<string>) {
    Trim(raw.UnwrapOr("")) == ""
  }

  predicate IsSubsetOf(requested: Option<string>, allowed: Option<string>) {
    var req := Trim(requested.UnwrapOr(""));
    if req == "" then true
    else
      var allow := Trim(allowed.UnwrapOr(""));
      if allow == "" then false
      else forall s | s in Parse(Some(req)) :: s in Parse(Some(allow))
  }

  // ---------------------------------------------------------------- words

  /** A scope word: non-empty and free of separators. */
  predicate IsWord(t: string) {
    t != "" && forall i | 0 <= i < |t| :: !IsSeparator(t[i])
  }

  /** `t` occurs in `s` as a maximal separator-free run. This is the reference
      meaning of "being listed in a scope string"; it does not mention splitting. */
  ghost predicate ListedAt(s: string, t: string, i: nat) {
    && i + |t| <= |s|
    && s[i..i + |t|] == t
    && (i == 0 || IsSeparator(s[i - 1]))
    && (i + |t| == |s| || IsSeparator(s[i + |t|]))
  }

  ghost predicate Listed(s: string, t: string) {
    IsWord(t) && exists i: nat :: ListedAt(s, t, i)
  }

  lemma {:induction false} SplitPiecesHaveNoSeparator(s: string)
    ensures forall k, i | 0 <= k < |Split(s)| && 0 <= i < |Split(s)[k]| :: !IsSeparator(Split(s)[k][i])
  {
    if s != "" {
      SplitPiecesHaveNoSeparator(s[1..]);
      var rest := Split(s[1..]);
      if !IsSeparator(s[0]) {
        forall k, i | 0 <= k < |Split(s)| && 0 <= i < |Split(s)[k]|
          ensures !IsSeparator(Split(s)[k][i])
        {
          if k == 0 && i > 0 { assert Split(s)[0][i] == rest[0][i - 1]; }
          if k > 0 { assert Split(s)[k] == rest[k]; }
        }
      } else {
        forall k, i | 0 <= k < |Split(s)| && 0 <= i < |Split(s)[k]|
          ensures !IsSeparator(Split(s)[k][i])
        {
          assert k > 0 && Split(s)[k] == rest[k - 1];
        }
      }
    }
  }

  lemma TrimKeepsSeparatorFree(t: string)
    requires forall i | 0 <= i < |t| :: !IsSeparator(t[i])
    ensures Trim(t) == t
  {
  }

  lemma {:induction false} SplitAtSeparator(a: string, sep: char, b: string)
    requires IsSeparator(sep)
    ensures Split(a + [sep] + b) == Split(a) + Split(b)
  {
    if a == "" {
      assert a + [sep] + b == [sep] + b;
      assert ([sep] + b)[1..] == b;
    } else {
      SplitAtSeparator(a[1..], sep, b);
      var tail := a[1..] + [sep] + b;
      assert a + [sep] + b == [a[0]] + tail;
      assert a == [a[0]] + a[1..];
      SplitCons(a[0], tail);
      SplitCons(a[0], a[1..]);
      ConsAppend([a[0]], Split(a[1..]), Split(b));
    }
  }

  lemma ConsAppend(c: string, x: seq<string>, y: seq<string>)
    requires x != []
    ensures [""] + (x + y) == [""] + x + y
    ensures [c + (x + y)[0]] + (x + y)[1..] == [c + x[0]] + x[1..] + y
  {
    assert (x + y)[1..] == x[1..] + y;
  }

  lemma SplitCons(c: char, s: string)
    ensures Split([c] + s) ==
            if IsSeparator(c) then [""] + Split(s) else [[c] + Split(s)[0]] + Split(s)[1..]
  {
    assert ([c] + s)[1..] == s;
  }

  lemma {:induction false} SplitWord(t: string)
    requires forall i | 0 <= i < |t| :: !IsSeparator(t[i])
    ensures Split(t) == [t]
  {
    if t != "" {
      SplitWord(t[1..]);
      assert [t[0]] + t[1..] == t;
    }
  }

  /** The non-empty pieces of a string. */
  function Words(s: string): set<string> {
    set piece | piece in Split(s) && piece != ""
  }

  lemma {:induction false} WordsOfBlank(s: string)
    requires TrimStart(s) == ""
    ensures Words(s) == {}
  {
    if s != "" {
      WordsOfBlank(s[1..]);
      assert forall p | p in Split(s) :: p == "" || p in Split(s[1..]);
      assert forall p | p in Split(s[1..]) && p != "" :: p in Words(s[1..]);
    }
  }

  lemma {:induction false} WordsTrimStart(s: string)
    ensures Words(TrimStart(s)) == Words(s)
  {
    if s != "" && IsWhitespace(s[0]) {
      WordsTrimStart(s[1..]);
      assert Split(s) == [""] + Split(s[1..]);
      assert forall p :: p in Split(s) <==> p == "" || p in Split(s[1..]);
    }
  }

  lemma {:induction false} WordsTrimEnd(s: string)
    ensures Words(TrimEnd(s)) == Words(s)
  {
    if s != "" && IsWhitespace(s[|s| - 1]) {
      var front := s[..|s| - 1];
      WordsTrimEnd(front);
      assert s == front + [s[|s| - 1]] + "";
      SplitAtSeparator(front, s[|s| - 1], "");
      assert forall p :: p in Split(s) <==> p == "" || p in Split(front);
    }
  }

  lemma {:induction false} TrimStartNotWhite(s: string)
    ensures TrimStart(s) == "" || !IsWhitespace(TrimStart(s)[0])
  {
    if s != "" && IsWhitespace(s[0]) { TrimStartNotWhite(s[1..]); }
  }

  lemma {:induction false} TrimEndKeepsFirst(s: string)
    requires s != "" && !IsWhitespace(s[0])
    ensures TrimEnd(s) != ""
  {
    if IsWhitespace(s[|s| - 1]) { TrimEndKeepsFirst(s[..|s| - 1]); }
  }

  /** Trimming and the early return for blank input do not change what is parsed. */
  lemma ParseIsWords(s: string)
    ensures Parse(Some(s)) == Words(s)
    ensures Parse(Some(Trim(s))) == Words(s)
  {
    ParseUntrimmed(s);
    WordsTrimStart(s);
    WordsTrimEnd(TrimStart(s));
    ParseUntrimmed(Trim(s));
  }

  lemma ParseUntrimmed(s: string)
    ensures Parse(Some(s)) == Words(s)
  {
    SplitPiecesHaveNoSeparator(s);
    forall p | p in Split(s)
      ensures Trim(p) == p
    {
      var k :| 0 <= k < |Split(s)| && Split(s)[k] == p;
      TrimKeepsSeparatorFree(p);
    }
    if Trim(s) == "" {
      TrimStartNotWhite(s);
      if TrimStart(s) != "" { TrimEndKeepsFirst(TrimStart(s)); }
      WordsOfBlank(s);
    }
  }

  // ------------------------------------------------- parsing is exactly "listed"

  /** A piece listed in the tail of a string is listed in the string, one place later. */
  lemma ListedLater(s: string, t: string, j: nat)
    requires s != "" && ListedAt(s[1..], t, j) && (j == 0 ==> IsSeparator(s[0]))
    ensures ListedAt(s, t, j + 1)
  {
    assert s[j + 1..j + 1 + |t|] == s[1..][j..j + |t|];
  }

  lemma {:induction false} PieceStartsSomewhere(s: string, k: nat) returns (i: nat)
    requires k < |Split(s)|
    ensures ListedAt(s, Split(s)[k], i)
    ensures k == 0 <==> i == 0
  {
    if s == "" {
      i := 0;
    } else if IsSeparator(s[0]) {
      if k == 0 {
        i := 0;
      } else {
        var j := PieceStartsSomewhere(s[1..], k - 1);
        i := j + 1;
        assert Split(s)[k] == Split(s[1..])[k - 1];
        ListedLater(s, Split(s)[k], j);
      }
    } else {
      var rest := Split(s[1..]);
      var j := PieceStartsSomewhere(s[1..], k);
      if k == 0 {
        i := 0;
        assert s[0..|Split(s)[0]|] == [s[0]] + s[1..][0..|rest[0]|];
      } else {
        i := j + 1;
        assert Split(s)[k] == rest[k];
        ListedLater(s, rest[k], j);
      }
    }
  }

  lemma {:induction false} ListedIsPiece(s: string, t: string, i: nat)
    requires IsWord(t) && ListedAt(s, t, i)
    ensures t in Split(s)
    decreases |s|
  {
    var j := i + |t|;
    if i > 0 {
      var a, b := s[..i - 1], s[i..];
      assert s == a + [s[i - 1]] + b;
      SplitAtSeparator(a, s[i - 1], b);
      assert b[0..|t|] == t;
      assert ListedAt(b, t, 0);
      ListedIsPiece(b, t, 0);
    } else if j < |s| {
      assert s == t + [s[j]] + s[j + 1..];
      SplitAtSeparator(t, s[j], s[j + 1..]);
      SplitWord(t);
      assert Split(s)[0] == t;
    } else {
      assert s == t;
      SplitWord(t);
    }
  }

  /** A word is parsed out of a scope string exactly when it is listed in it. */
  lemma ParseExact(s: string, t: string)
    ensures t in Parse(Some(s)) <==> Listed(s, t)
  {
    ParseIsWords(s);
    if t in Words(s) {
      SplitPiecesHaveNoSeparator(s);
      var k :| 0 <= k < |Split(s)| && Split(s)[k] == t;
      var i := PieceStartsSomewhere(s, k);
    }
    if Listed(s, t) {
      var i: nat :| ListedAt(s, t, i);
      ListedIsPiece(s, t, i);
    }
  }

  // ----------------------------------------------------------- the subset test

  lemma BlankParsesEmpty(raw: Option<string>)
    requires Blank(raw)
    ensures Parse(raw) == {}
  {
  }

  /** The subset test is set inclusion of the parsed scopes, except that a blank
      allowed string admits only a blank request. */
  lemma SubsetExact(requested: Option<string>, allowed: Option<string>)
    ensures IsSubsetOf(requested, allowed) <==>
            Parse(requested) <= Parse(allowed) && (Blank(requested) || !Blank(allowed))
  {
    if requested.Some? { ParseIsWords(requested.value); }
    if allowed.Some? { ParseIsWords(allowed.value); }
  }

  /** The one family on which the test refuses although inclusion holds: separators
      without a word against a blank allowed string. */
  lemma SubsetStricterThanInclusion()
    ensures Parse(Some(",")) <= Parse(None) && !IsSubsetOf(Some(","), None)
  {
    ParseIsWords(",");
    assert Split(",") == ["", ""];
  }

  lemma SubsetTransitive(a: Option<string>, b: Option<string>, c: Option<string>)
    requires IsSubsetOf(a, b) && IsSubsetOf(b, c)
    ensures IsSubsetOf(a, c)
  {
    SubsetExact(a, b);
    SubsetExact(b, c);
    SubsetExact(a, c);
    if Blank(a) { BlankParsesEmpty(a); }
  }

  // ------------------------------------------------------ sorting and printing

  /** The order of `String`: lexicographic by code point. */
  predicate Before(a: string, b: string) {
    if b == "" then false
    else if a == "" then true
    else if a[0] != b[0] then a[0] < b[0]
    else Before(a[1..], b[1..])
  }

  lemma {:induction false} BeforeTotal(a: string, b: string)
    ensures a == b || Before(a, b) || Before(b, a)
    ensures !(Before(a, b) && Before(b, a))
  {
    if a != "" && b != "" && a[0] == b[0] {
      BeforeTotal(a[1..], b[1..]);
      assert a == [a[0]] + a[1..] && b == [b[0]] + b[1..];
    }
  }

  lemma {:induction false} BeforeTransitive(a: string, b: string, c: string)
    requires Before(a, b) && Before(b, c)
    ensures Before(a, c)
  {
    if a != "" && a[0] == b[0] && b[0] == c[0] {
      BeforeTransitive(a[1..], b[1..], c[1..]);
    }
  }

  predicate IsLeast(m: string, s: set<string>) {
    m in s && forall x | x in s && x != m :: Before(m, x)
  }

  lemma {:induction false} LeastExists(s: set<string>)
    requires s != {}
    ensures exists m :: IsLeast(m, s)
  {
    var x :| x in s;
    if s == {x} {
      assert IsLeast(x, s);
    } else {
      var rest := s - {x};
      LeastExists(rest);
      var m :| IsLeast(m, rest);
      BeforeTotal(m, x);
      if Before(m, x) {
        assert IsLeast(m, s);
      } else {
        forall y | y in s && y != x
          ensures Before(x, y)
        {
          if y != m { BeforeTransitive(x, m, y); }
        }
        assert IsLeast(x, s);
      }
    }
  }

  lemma LeastUnique(s: set<string>)
    ensures forall m, n | IsLeast(m, s) && IsLeast(n, s) :: m == n
  {
    forall m, n | IsLeast(m, s) && IsLeast(n, s)
      ensures m == n
    {
      BeforeTotal(m, n);
    }
  }

  ghost predicate StrictlySorted(ts: seq<string>) {
    forall i, j | 0 <= i < j < |ts| :: Before(ts[i], ts[j])
  }

  /** The elements of a set, sorted. */
  function Sorted(s: set<string>): (ts: seq<string>)
    ensures forall t :: t in ts <==> t in s
    ensures StrictlySorted(ts)
    ensures |ts| == |s|
  {
    if s == {} then []
    else
      LeastExists(s);
      LeastUnique(s);
      var m :| m in s && IsLeast(m, s);
      [m] + Sorted(s - {m})
  }

  /** `Vec<String>::join(" ")`. */
  function Join(ts: seq<string>): string {
    if ts == [] then ""
    else if |ts| == 1 then ts[0]
    else ts[0] + " " + Join(ts[1..])
  }

  /** What a consent row stores for a set of scopes. */
  function Canonical(s: set<string>): string {
    Join(Sorted(s))
  }

  ghost predicate AllWords(s: set<string>) {
    forall t | t in s :: IsWord(t)
  }

  lemma {:induction false} SplitJoined(ts: seq<string>)
    requires ts != []
    requires forall k | 0 <= k < |ts| :: IsWord(ts[k])
    ensures Split(Join(ts)) == ts
  {
    SplitWord(ts[0]);
    if |ts| > 1 {
      SplitJoined(ts[1..]);
      SplitAtSeparator(ts[0], ' ', Join(ts[1..]));
      assert ts[0] + " " + Join(ts[1..]) == ts[0] + [' '] + Join(ts[1..]);
      assert ts == [ts[0]] + ts[1..];
    }
  }

  lemma WordsJoined(ts: seq<string>)
    requires forall k | 0 <= k < |ts| :: IsWord(ts[k])
    ensures Words(Join(ts)) == set t | t in ts
  {
    if ts == [] {
      assert Split("") == [""];
    } else {
      SplitJoined(ts);
    }
  }

  /** The printer is inverted by the parser, for every set of scope words. */
  lemma ParseCanonical(s: set<string>)
    requires AllWords(s)
    ensures Parse(Some(Canonical(s))) == s
  {
    var ts := Sorted(s);
    forall k | 0 <= k < |ts|
      ensures IsWord(ts[k])
    {
      assert ts[k] in s;
    }
    WordsJoined(ts);
    ParseIsWords(Join(ts));
  }

  lemma ParsedAreWords(raw: Option<string>)
    ensures AllWords(Parse(raw))
  {
    if raw.Some? {
      forall t | t in Parse(raw)
        ensures IsWord(t)
      {
        ParseExact(raw.value, t);
      }
    }
  }

  // ------------------------------------------------------------ consent storage

  /** The `scopes` column after granting `requested` over an optional earlier row. */
  function Granted(row: Option<string>, requested: Option<string>): string {
    match row
    case None => Canonical(Parse(requested))
    case Some(stored) => Canonical(Parse(Some(stored)) + Parse(requested))
  }

  predicate HasConsent(row: Option<string>, requested: Option<string>) {
    var wanted := Parse(requested);
    if wanted == {} then true
    else if row.None? then false
    else forall s | s in wanted :: s in Parse(row)
  }

  lemma GrantedParses(row: Option<string>, requested: Option<string>)
    ensures Parse(Some(Granted(row, requested))) == Parse(row) + Parse(requested)
    ensures Granted(row, requested) == Canonical(Parse(row) + Parse(requested))
  {
    var before, added := Parse(row), Parse(requested);
    ParsedAreWords(row);
    ParsedAreWords(requested);
    ParseCanonical(before + added);
    if row.None? {
      assert before + added == added;
    }
  }

  /** `ConsentService::grant`: the requested scopes are inserted one by one into the stored ones. */
  method MergeGrant(row: Option<string>, requested: Option<string>) returns (stored: string)
    ensures stored == Granted(row, requested)
    ensures Parse(Some(stored)) == Parse(row) + Parse(requested)
  {
    GrantedParses(row, requested);
    var merged := InsertAll(Parse(row), Parse(requested));
    stored := Canonical(merged);
  }

  method InsertAll(stored: set<string>, requested: set<string>) returns (merged: set<string>)
    ensures merged == stored + requested
  {
    merged := stored;
    var rest := requested;
    while rest != {}
      invariant merged + rest == stored + requested
    {
      var scope :| scope in rest;
      merged := merged + {scope};
      rest := rest - {scope};
    }
  }

  /** Granting makes the granted request pass the consent test. */
  lemma GrantCovers(row: Option<string>, requested: Option<string>)
    ensures HasConsent(Some(Granted(row, requested)), requested)
    ensures forall earlier :: HasConsent(row, earlier) ==> HasConsent(Some(Granted(row, requested)), earlier)
  {
    GrantedParses(row, requested);
  }

  /** The row left by a sequence of grants to one (user, client) pair. */
  ghost function GrantAll(requests: seq<Option<string>>): Option<string> {
    if requests == [] then None
    else Some(Granted(GrantAll(requests[..|requests| - 1]), requests[|requests| - 1]))
  }

  ghost function UnionOf(requests: seq<Option<string>>): set<string> {
    set i, t | 0 <= i < |requests| && t in Parse(requests[i]) :: t
  }

  lemma UnionOfSnoc(requests: seq<Option<string>>)
    requires requests != []
    ensures UnionOf(requests) == UnionOf(requests[..|requests| - 1]) + Parse(requests[|requests| - 1])
  {
    var front, last := requests[..|requests| - 1], requests[|requests| - 1];
    forall t | t in UnionOf(front) + Parse(last)
      ensures t in UnionOf(requests)
    {
      if t in UnionOf(front) {
        var i :| 0 <= i < |front| && t in Parse(front[i]);
        assert t in Parse(requests[i]);
      } else {
        assert t in Parse(requests[|requests| - 1]);
      }
    }
    forall t | t in UnionOf(requests)
      ensures t in UnionOf(front) + Parse(last)
    {
      var i :| 0 <= i < |requests| && t in Parse(requests[i]);
      if i < |front| { assert t in Parse(front[i]); }
    }
  }

  /** After any grants the stored string is the canonical print of their union. */
  lemma {:induction false} GrantsStoreUnion(requests: seq<Option<string>>)
    requires requests != []
    ensures GrantAll(requests) == Some(Canonical(UnionOf(requests)))
    ensures Parse(GrantAll(requests)) == UnionOf(requests)
  {
    var front, last := requests[..|requests| - 1], requests[|requests| - 1];
    UnionOfSnoc(requests);
    var row := GrantAll(front);
    assert Parse(row) == UnionOf(front) by {
      if front == [] {
        assert UnionOf(front) == {};
      } else {
        GrantsStoreUnion(front);
      }
    }
    GrantedParses(row, last);
  }

  /** The stored string depends on the union of the granted scopes only: order and
      repetition of grants leave no trace. */
  lemma GrantOrderIrrelevant(first: seq<Option<string>>, second: seq<Option<string>>)
    requires first != [] && second != []
    ensures GrantAll(first) == GrantAll(second) <==> UnionOf(first) == UnionOf(second)
  {
    GrantsStoreUnion(first);
    GrantsStoreUnion(second);
  }

  /** Once a row exists, consent is held exactly for subsets of what was granted. */
  lemma ConsentExact(requests: seq<Option<string>>, asked: Option<string>)
    ensures HasConsent(GrantAll(requests), asked) <==> Parse(asked) <= UnionOf(requests)
  {
    if requests == [] {
      assert UnionOf(requests) == {};
    } else {
      GrantsStoreUnion(requests);
    }
  }
}
