/** The fixed-window rate limiter (src/common/ratelimit/mod.rs) over the atomic
    increment-and-expire script (src/common/redis/lua.rs). Times are in milliseconds. */
module RateLimit {
  import opened Base

  /** A Redis integer key; `deadline` is absent while no EXPIRE was issued. */
  datatype Counter = Counter(count: nat, deadline: Option<nat>)

  type Store = map<string, Counter>

  datatype Decision = Decision(allowed: bool, count: nat, retryAfter: nat)

  /** How the Redis calls of one check fare. */
  datatype Io = PoolDown | ScriptFails | Up(ttlAnswers: bool)

  const FAIL_OPEN := Decision(true, 0, 0)

  predicate Live(store: Store, key: string, now: nat) {
    key in store && (store[key].deadline.None? || now < store[key].deadline.value)
  }

  /** INCR; then, on the first hit, EXPIRE, where a timeout of zero deletes the key. */
  function IncrAndExpire(store: Store, key: string, seconds: nat, now: nat): (Store, nat) {
    var c := if Live(store, key, now) then Counter(store[key].count + 1, store[key].deadline) else Counter(1, None);
    if c.count != 1 then (store[key := c], c.count)
    else if seconds == 0 then (store - {key}, c.count)
    else (store[key := c.(deadline := Some(now + 1000 * seconds))], c.count)
  }

  /** The TTL command: remaining time rounded to the nearest second, -1 without a timeout,
      -2 without the key. */
  function Ttl(store: Store, key: string, now: nat): int {
    if !Live(store, key, now) then -2
    else if store[key].deadline.None? then -1
    else (store[key].deadline.value - now + 500) / 1000
  }

  function TtlOrDefault(store: Store, key: string, now: nat, fallback: nat, answers: bool): nat {
    if answers && Ttl(store, key, now) > 0 then Ttl(store, key, now) else fallback
  }

  ghost function CheckSpec(store: Store, key: string, limit: nat, windowMs: nat, now: nat, io: Io): (Store, Decision) {
    if key == "" || limit == 0 || windowMs == 0 || !io.Up? then (store, FAIL_OPEN)
    else
      var (after, n) := IncrAndExpire(store, key, windowMs / 1000, now);
      if n > limit then (after, Decision(false, n, TtlOrDefault(after, key, now, windowMs / 1000, io.ttlAnswers)))
      else (after, Decision(true, n, 0))
  }

  class RateLimiter {
    var store: Store

    constructor ()
      ensures store == map[]
    {
      store := map[];
    }

    method Check(key: string, limit: nat, windowMs: nat, now: nat, io: Io) returns (d: Decision)
      modifies this
      ensures (store, d) == CheckSpec(old(store), key, limit, windowMs, now, io)
    {
      if key == "" || limit == 0 || windowMs == 0 { return FAIL_OPEN; }
      var windowSeconds := windowMs / 1000;
      if !io.Up? { return FAIL_OPEN; }
      var (after, count) := IncrAndExpire(store, key, windowSeconds, now);
      store := after;
      if count > limit {
        var retryAfter := TtlOrDefault(store, key, now, windowSeconds, io.ttlAnswers);
        return Decision(false, count, retryAfter);
      }
      d := Decision(true, count, 0);
    }
  }

  // -------------------------------------------------------------- arbitrary runs

  datatype Call = Call(key: string, limit: nat, windowMs: nat, now: nat, io: Io)

  ghost function StoreAfterCalls(calls: seq<Call>): Store {
    if calls == [] then map[]
    else
      var c := calls[|calls| - 1];
      CheckSpec(StoreAfterCalls(calls[..|calls| - 1]), c.key, c.limit, c.windowMs, c.now, c.io).0
  }

  ghost predicate AllExpire(store: Store) {
    forall key | key in store :: store[key].deadline.Some? && store[key].count >= 1
  }

  /** Whatever the limits, windows, keys and failures, no counter lives without a timeout. */
  lemma {:induction false} CountersAlwaysExpire(calls: seq<Call>)
    ensures AllExpire(StoreAfterCalls(calls))
  {
    if calls != [] { CountersAlwaysExpire(calls[..|calls| - 1]); }
  }

  /** A check inside a live window, denied or not, leaves the window where it was, and no check
      touches another key. */
  lemma WindowNeverExtended(store: Store, c: Call)
    requires AllExpire(store)
    ensures var (after, d) := CheckSpec(store, c.key, c.limit, c.windowMs, c.now, c.io);
            && (Live(store, c.key, c.now) ==> c.key in after && after[c.key].deadline == store[c.key].deadline)
            && (!d.allowed ==> Live(store, c.key, c.now))
            && (forall other | other != c.key ::
                  (other in after <==> other in store) && (other in store ==> after[other] == store[other]))
  {
  }

  // -------------------------------------- one configuration, Redis up, monotone time

  datatype Request = Request(key: string, now: nat)

  datatype Config = Config(limit: nat, windowMs: nat)

  ghost predicate Enforced(cfg: Config, reqs: seq<Request>) {
    && cfg.limit > 0 && cfg.windowMs >= 1000
    && (forall i | 0 <= i < |reqs| :: reqs[i].key != "")
    && (forall i, j | 0 <= i < j < |reqs| :: reqs[i].now <= reqs[j].now)
  }

  /** Length of a window in milliseconds. */
  function Width(cfg: Config): nat {
    1000 * (cfg.windowMs / 1000)
  }

  ghost function Before(cfg: Config, reqs: seq<Request>, i: nat): Store
    requires i <= |reqs|
  {
    if i == 0 then map[]
    else CheckSpec(Before(cfg, reqs, i - 1), reqs[i - 1].key, cfg.limit, cfg.windowMs, reqs[i - 1].now, Up(true)).0
  }

  ghost function Answer(cfg: Config, reqs: seq<Request>, i: nat): Decision
    requires i < |reqs|
  {
    CheckSpec(Before(cfg, reqs, i), reqs[i].key, cfg.limit, cfg.windowMs, reqs[i].now, Up(true)).1
  }

  lemma {:induction false} RunExpires(cfg: Config, reqs: seq<Request>, i: nat)
    requires i <= |reqs|
    ensures AllExpire(Before(cfg, reqs, i))
  {
    if i > 0 { RunExpires(cfg, reqs, i - 1); }
  }

  /** The window a request falls in. */
  ghost function Deadline(cfg: Config, reqs: seq<Request>, i: nat): nat
    requires i < |reqs|
  {
    var after := Before(cfg, reqs, i + 1);
    if reqs[i].key in after && after[reqs[i].key].deadline.Some? then after[reqs[i].key].deadline.value else 0
  }

  lemma RequestInItsWindow(cfg: Config, reqs: seq<Request>, i: nat)
    requires Enforced(cfg, reqs) && i < |reqs|
    ensures reqs[i].key in Before(cfg, reqs, i + 1)
    ensures Before(cfg, reqs, i + 1)[reqs[i].key] == Counter(Answer(cfg, reqs, i).count, Some(Deadline(cfg, reqs, i)))
    ensures reqs[i].now < Deadline(cfg, reqs, i)
    ensures Answer(cfg, reqs, i).allowed <==> Answer(cfg, reqs, i).count <= cfg.limit
    ensures Answer(cfg, reqs, i).count >= 1
  {
    RunExpires(cfg, reqs, i);
  }

  /** How the counter of a request's key stands before a later request. */
  ghost predicate Progress(cfg: Config, earlier: Counter, later: Counter) {
    && earlier.deadline.Some? && later.deadline.Some?
    && (|| (later.deadline == earlier.deadline && later.count >= earlier.count)
        || later.deadline.value >= earlier.deadline.value + Width(cfg))
  }

  lemma {:induction false} CounterProgress(cfg: Config, reqs: seq<Request>, i: nat, j: nat)
    requires Enforced(cfg, reqs) && i < j <= |reqs|
    ensures reqs[i].key in Before(cfg, reqs, i + 1) && reqs[i].key in Before(cfg, reqs, j)
    ensures Progress(cfg, Before(cfg, reqs, i + 1)[reqs[i].key], Before(cfg, reqs, j)[reqs[i].key])
    decreases j
  {
    RequestInItsWindow(cfg, reqs, i);
    if i + 1 < j {
      CounterProgress(cfg, reqs, i, j - 1);
      RunExpires(cfg, reqs, j - 1);
    }
  }

  /** Two requests on a key share a window, and then the later one counts more, or lie in windows
      that are at least a full width apart. */
  lemma WindowsApart(cfg: Config, reqs: seq<Request>, i: nat, j: nat)
    requires Enforced(cfg, reqs) && i < j < |reqs| && reqs[i].key == reqs[j].key
    ensures || (Deadline(cfg, reqs, j) == Deadline(cfg, reqs, i) && Answer(cfg, reqs, i).count < Answer(cfg, reqs, j).count)
            || Deadline(cfg, reqs, j) >= Deadline(cfg, reqs, i) + Width(cfg)
  {
    RequestInItsWindow(cfg, reqs, i);
    RequestInItsWindow(cfg, reqs, j);
    CounterProgress(cfg, reqs, i, j);
    RunExpires(cfg, reqs, j);
  }

  lemma {:induction false} WindowStartsAtRequest(cfg: Config, reqs: seq<Request>, i: nat)
    requires Enforced(cfg, reqs) && i < |reqs|
    ensures Deadline(cfg, reqs, i) <= reqs[i].now + Width(cfg)
  {
    var key := reqs[i].key;
    RunExpires(cfg, reqs, i);
    if Live(Before(cfg, reqs, i), key, reqs[i].now) {
      DeadlineBound(cfg, reqs, i, key);
    }
  }

  lemma {:induction false} DeadlineBound(cfg: Config, reqs: seq<Request>, i: nat, key: string)
    requires Enforced(cfg, reqs) && i <= |reqs| && key in Before(cfg, reqs, i)
    ensures i > 0 && Before(cfg, reqs, i)[key].deadline.Some?
    ensures Before(cfg, reqs, i)[key].deadline.value <= reqs[i - 1].now + Width(cfg)
  {
    RunExpires(cfg, reqs, i);
    if i > 1 && key in Before(cfg, reqs, i - 1) { DeadlineBound(cfg, reqs, i - 1, key); }
  }

  // ------------------------------------------------------------------ the bounds

  ghost function AllowedIn(cfg: Config, reqs: seq<Request>, key: string, deadline: nat): set<nat> {
    set i: nat | i < |reqs| && reqs[i].key == key && Answer(cfg, reqs, i).allowed && Deadline(cfg, reqs, i) == deadline
  }

  ghost function AllowedDuring(cfg: Config, reqs: seq<Request>, key: string, from: nat): set<nat> {
    set i: nat | i < |reqs| && reqs[i].key == key && Answer(cfg, reqs, i).allowed && from <= reqs[i].now < from + Width(cfg)
  }

  /** A set whose members have distinct counts in 1..n has at most n members. */
  lemma {:induction false} DistinctCountsBound(cfg: Config, reqs: seq<Request>, s: set<nat>, n: nat)
    requires forall i | i in s :: i < |reqs| && 1 <= Answer(cfg, reqs, i).count <= n
    requires forall i, j | i in s && j in s && i != j :: Answer(cfg, reqs, i).count != Answer(cfg, reqs, j).count
    ensures |s| <= n
  {
    if n == 0 {
      assert forall i :: i !in s;
    } else if i :| i in s && Answer(cfg, reqs, i).count == n {
      DistinctCountsBound(cfg, reqs, s - {i}, n - 1);
    } else {
      DistinctCountsBound(cfg, reqs, s, n - 1);
    }
  }

  /** At most `limit` requests are allowed per window. */
  lemma PerWindowBound(cfg: Config, reqs: seq<Request>, key: string, deadline: nat)
    requires Enforced(cfg, reqs)
    ensures |AllowedIn(cfg, reqs, key, deadline)| <= cfg.limit
  {
    var s := AllowedIn(cfg, reqs, key, deadline);
    forall i | i in s
      ensures 1 <= Answer(cfg, reqs, i).count <= cfg.limit
    {
      RequestInItsWindow(cfg, reqs, i);
    }
    forall i, j | i in s && j in s && i != j
      ensures Answer(cfg, reqs, i).count != Answer(cfg, reqs, j).count
    {
      if i < j { WindowsApart(cfg, reqs, i, j); } else { WindowsApart(cfg, reqs, j, i); }
    }
    DistinctCountsBound(cfg, reqs, s, cfg.limit);
  }

  lemma {:induction false} LeastIndex(s: set<nat>) returns (m: nat)
    requires s != {}
    ensures m in s && forall i | i in s :: m <= i
  {
    var x :| x in s;
    m := x;
    if s != {x} {
      var rest := LeastIndex(s - {x});
      assert forall i | i in s :: i == x || i in s - {x};
      if rest < x { m := rest; }
    }
  }

  /** The allowed requests of one interval all lie in two windows. */
  lemma TwoWindowsCover(cfg: Config, reqs: seq<Request>, key: string, from: nat) returns (d0: nat, d1: nat)
    requires Enforced(cfg, reqs)
    ensures AllowedDuring(cfg, reqs, key, from) <= AllowedIn(cfg, reqs, key, d0) + AllowedIn(cfg, reqs, key, d1)
  {
    var s := AllowedDuring(cfg, reqs, key, from);
    d0, d1 := 0, 0;
    if s != {} {
      var first := LeastIndex(s);
      d0 := Deadline(cfg, reqs, first);
      var other := set i | i in s && Deadline(cfg, reqs, i) != d0;
      if other != {} {
        var second := LeastIndex(other);
        d1 := Deadline(cfg, reqs, second);
        forall i | i in other
          ensures Deadline(cfg, reqs, i) == d1
        {
          OnlyTwoWindows(cfg, reqs, key, from, first, second, i);
        }
      }
      forall i | i in s
        ensures i in AllowedIn(cfg, reqs, key, d0) + AllowedIn(cfg, reqs, key, d1)
      {
        if Deadline(cfg, reqs, i) != d0 { assert i in other; }
      }
    }
  }

  /** In any interval as long as a window at most twice the limit is allowed. */
  lemma SlidingBound(cfg: Config, reqs: seq<Request>, key: string, from: nat)
    requires Enforced(cfg, reqs)
    ensures |AllowedDuring(cfg, reqs, key, from)| <= 2 * cfg.limit
  {
    var d0, d1 := TwoWindowsCover(cfg, reqs, key, from);
    PerWindowBound(cfg, reqs, key, d0);
    PerWindowBound(cfg, reqs, key, d1);
    Subset(AllowedDuring(cfg, reqs, key, from), AllowedIn(cfg, reqs, key, d0) + AllowedIn(cfg, reqs, key, d1));
  }

  lemma OnlyTwoWindows(cfg: Config, reqs: seq<Request>, key: string, from: nat, first: nat, second: nat, i: nat)
    requires Enforced(cfg, reqs) && first < second <= i < |reqs|
    requires reqs[first].key == key && reqs[second].key == key && reqs[i].key == key
    requires from <= reqs[first].now && reqs[i].now < from + Width(cfg)
    requires Deadline(cfg, reqs, second) != Deadline(cfg, reqs, first)
    ensures Deadline(cfg, reqs, i) == Deadline(cfg, reqs, second)
  {
    if second < i {
      WindowsApart(cfg, reqs, first, second);
      WindowsApart(cfg, reqs, second, i);
      RequestInItsWindow(cfg, reqs, first);
      WindowStartsAtRequest(cfg, reqs, i);
    }
  }

  lemma {:induction false} Subset(a: set<nat>, b: set<nat>)
    requires a <= b
    ensures |a| <= |b|
  {
    if x :| x in a { Subset(a - {x}, b - {x}); }
  }

  // ---------------------------------------------------------------- retry-after

  /** Between a denial and a later check of the same key there were only further denials. */
  ghost predicate OnlyDenied(cfg: Config, reqs: seq<Request>, i: nat, j: nat)
    requires i < j <= |reqs|
  {
    forall k | i < k < j && reqs[k].key == reqs[i].key :: !Answer(cfg, reqs, k).allowed
  }

  /** Rounding to the nearest second loses the remainder. */
  predicate RoundedDown(left: nat) {
    left >= 500 && 0 < left % 1000 < 500
  }

  /** After a denial the window stands and stays full until its deadline. */
  lemma {:induction false} StaysClosed(cfg: Config, reqs: seq<Request>, i: nat, j: nat)
    requires Enforced(cfg, reqs) && i < j <= |reqs| && !Answer(cfg, reqs, i).allowed && OnlyDenied(cfg, reqs, i, j)
    ensures reqs[i].key in Before(cfg, reqs, j)
    ensures Before(cfg, reqs, j)[reqs[i].key].deadline == Some(Deadline(cfg, reqs, i))
    ensures Before(cfg, reqs, j)[reqs[i].key].count > cfg.limit
    decreases j
  {
    RequestInItsWindow(cfg, reqs, i);
    if i + 1 < j {
      StaysClosed(cfg, reqs, i, j - 1);
      if reqs[j - 1].key == reqs[i].key { assert !Answer(cfg, reqs, j - 1).allowed; }
    }
  }

  /** The delay a denial advertises, in terms of what is left of its window. */
  lemma AdvertisedDelay(cfg: Config, reqs: seq<Request>, i: nat)
    requires Enforced(cfg, reqs) && i < |reqs| && !Answer(cfg, reqs, i).allowed
    ensures reqs[i].now < Deadline(cfg, reqs, i) <= reqs[i].now + Width(cfg)
    ensures var left := Deadline(cfg, reqs, i) - reqs[i].now;
            Answer(cfg, reqs, i).retryAfter == if left < 500 then cfg.windowMs / 1000 else (left + 500) / 1000
  {
    RequestInItsWindow(cfg, reqs, i);
    WindowStartsAtRequest(cfg, reqs, i);
  }

  lemma RoundingExact(left: nat)
    requires left >= 500
    ensures 1000 * ((left + 500) / 1000) >= left <==> !RoundedDown(left)
    ensures 1000 * ((left + 500) / 1000) + 500 > left
  {
    assert left == 1000 * (left / 1000) + left % 1000;
  }

  /** Over any run: after a denial, and any number of further denials, a check that waited at least the
      advertised delay is allowed exactly when the delay was not rounded down or the window is over by then;
      half a second more always suffices. */
  lemma RetryAfterExact(cfg: Config, reqs: seq<Request>, i: nat, j: nat)
    requires Enforced(cfg, reqs) && i < j < |reqs| && reqs[j].key == reqs[i].key
    requires !Answer(cfg, reqs, i).allowed && OnlyDenied(cfg, reqs, i, j)
    ensures var ready := reqs[i].now + 1000 * Answer(cfg, reqs, i).retryAfter;
            var deadline := Deadline(cfg, reqs, i);
            && deadline > reqs[i].now
            && (Answer(cfg, reqs, j).allowed <==> deadline <= reqs[j].now)
            && (ready <= reqs[j].now ==>
                (Answer(cfg, reqs, j).allowed <==> !RoundedDown(deadline - reqs[i].now) || deadline <= reqs[j].now))
            && (ready == reqs[j].now ==> (Answer(cfg, reqs, j).allowed <==> !RoundedDown(deadline - reqs[i].now)))
            && (ready + 500 <= reqs[j].now ==> Answer(cfg, reqs, j).allowed)
  {
    StaysClosed(cfg, reqs, i, j);
    AdvertisedDelay(cfg, reqs, i);
    var left := Deadline(cfg, reqs, i) - reqs[i].now;
    if left >= 500 { RoundingExact(left); }
  }

  /** One check a minute: denied at 58.6 s with the advice to wait one second, and denied again after it. */
  lemma RetryAfterTooEarly()
    ensures var cfg, reqs := Config(1, 60000), [Request("k", 0), Request("k", 58600), Request("k", 59600)];
            && Enforced(cfg, reqs) && Answer(cfg, reqs, 0).allowed
            && !Answer(cfg, reqs, 1).allowed && Answer(cfg, reqs, 1).retryAfter == 1
            && reqs[2].now == reqs[1].now + 1000 * Answer(cfg, reqs, 1).retryAfter && !Answer(cfg, reqs, 2).allowed
  {
    var cfg, reqs := Config(1, 60000), [Request("k", 0), Request("k", 58600), Request("k", 59600)];
    assert Before(cfg, reqs, 0) == map[];
    assert Before(cfg, reqs, 1) == map["k" := Counter(1, Some(60000))];
    assert Before(cfg, reqs, 2) == map["k" := Counter(2, Some(60000))];
    assert Ttl(Before(cfg, reqs, 2), "k", 58600) == 1;
  }

  lemma SubSecondCheck(c: Call)
    requires c.windowMs < 1000
    ensures var (after, d) := CheckSpec(map[], c.key, c.limit, c.windowMs, c.now, c.io); after == map[] && d.allowed
  {
    assert c.windowMs / 1000 == 0;
    var empty: Store := map[];
    assert empty - {c.key} == empty;
  }

  ghost predicate CallAllowed(calls: seq<Call>, i: nat)
    requires i < |calls|
  {
    var c := calls[i];
    CheckSpec(StoreAfterCalls(calls[..i]), c.key, c.limit, c.windowMs, c.now, c.io).1.allowed
  }

  /** A window shorter than one second truncates to zero seconds, and then nothing is ever denied. */
  lemma {:induction false} SubSecondWindowNeverDenies(calls: seq<Call>)
    requires forall i | 0 <= i < |calls| :: calls[i].windowMs < 1000
    ensures StoreAfterCalls(calls) == map[]
    ensures forall i: nat | i < |calls| :: CallAllowed(calls, i)
  {
    if calls != [] {
      var front := calls[..|calls| - 1];
      SubSecondWindowNeverDenies(front);
      SubSecondCheck(calls[|calls| - 1]);
      forall i: nat | i < |calls|
        ensures CallAllowed(calls, i)
      {
        if i < |front| {
          assert CallAllowed(front, i);
          assert calls[..i] == front[..i];
        } else {
          assert calls[..i] == front;
        }
      }
    }
  }
}
