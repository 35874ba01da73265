/** The login limiter (internal/httpapi/login_limiter.go): attempts per key and window, in bounded space. */
module LoginLimiter {
  import opened Base

  type Key = string

  const MAX_ENTRIES: nat := 4096

  datatype Entry = Entry(attempts: nat, resetAt: Instant)

  type Entries = map<Key, Entry>

  datatype Settings = Settings(limit: nat, window: nat)

  /** `full`: refused for lack of room. */
  datatype Reply = Reply(allowed: bool, retry: nat, full: bool)

  predicate Live(entries: Entries, key: Key, now: Instant) { key in entries && entries[key].resetAt > now }

  function Purged(entries: Entries, now: Instant): Entries {
    map k | k in entries && entries[k].resetAt > now :: entries[k]
  }

  // ---------------------------------------------------------------- the limiter

  class Limiter {
    const settings: Settings
    var entries: Entries

    constructor (s: Settings)
      ensures settings == s && entries == map[]
    {
      settings, entries := s, map[];
    }

    /** Deletes expired entries while ranging over them, in any order. */
    method Purge(now: Instant)
      modifies this
      ensures entries == Purged(old(entries), now)
    {
      var todo := entries.Keys;
      ghost var before, after := entries, Purged(entries, now);
      while todo != {}
        invariant todo <= entries.Keys <= before.Keys
        invariant forall k :: k in entries ==> entries[k] == before[k]
        invariant forall k :: k in before ==> (k in entries <==> k in todo || k in after)
        decreases todo
      {
        var key :| key in todo;
        if entries[key].resetAt <= now { entries := entries - {key}; }
        todo := todo - {key};
      }
      assert entries == after;
    }

    method Allow(key: Key, now: Instant) returns (r: Reply)
      modifies this
      ensures (entries, r) == Bounded(old(entries), settings, key, now)
    {
      if |entries| >= MAX_ENTRIES {
        Purge(now);
        if key !in entries && |entries| >= MAX_ENTRIES { return Reply(false, settings.window, true); }
      }
      var entry := if key in entries then entries[key] else Entry(0, 0);
      if key !in entries || entry.resetAt <= now { entry := Entry(0, now + settings.window); }
      if entry.attempts >= settings.limit { return Reply(false, entry.resetAt - now, false); }
      entry := entry.(attempts := entry.attempts + 1);
      entries := entries[key := entry];
      r := Reply(true, 0, false);
    }

    method Reset(key: Key)
      modifies this
      ensures entries == old(entries) - {key}
    {
      entries := entries - {key};
    }
  }

  /** A limiter with room for everybody. */
  function Unbounded(entries: Entries, s: Settings, key: Key, now: Instant): (Entries, Reply) {
    var entry := if Live(entries, key, now) then entries[key] else Entry(0, now + s.window);
    if entry.attempts >= s.limit then (entries, Reply(false, entry.resetAt - now, false))
    else (entries[key := entry.(attempts := entry.attempts + 1)], Reply(true, 0, false))
  }

  function Bounded(entries: Entries, s: Settings, key: Key, now: Instant): (Entries, Reply) {
    if |entries| < MAX_ENTRIES then Unbounded(entries, s, key, now)
    else
      var kept := Purged(entries, now);
      if key !in kept && |kept| >= MAX_ENTRIES then (kept, Reply(false, s.window, true))
      else Unbounded(kept, s, key, now)
  }

  // ---------------------------------------------------------------- runs

  datatype Call = Allow(key: Key, now: Instant) | Reset(key: Key)

  /** The calls come with a nondecreasing clock that starts at `from`. */
  predicate Timed(calls: seq<Call>, from: Instant)
    decreases |calls|
  {
    calls == [] ||
    if calls[0].Reset? then Timed(calls[1..], from) else from <= calls[0].now && Timed(calls[1..], calls[0].now)
  }

  /** The limiter after the calls, and the replies of the Allow calls. */
  function Run(entries: Entries, s: Settings, calls: seq<Call>): (Entries, seq<Reply>)
    decreases |calls|
  {
    if calls == [] then (entries, [])
    else if calls[0].Reset? then Run(entries - {calls[0].key}, s, calls[1..])
    else
      var (next, reply) := Bounded(entries, s, calls[0].key, calls[0].now);
      var (last, replies) := Run(next, s, calls[1..]);
      (last, [reply] + replies)
  }

  function RunUnbounded(entries: Entries, s: Settings, calls: seq<Call>): seq<Reply>
    decreases |calls|
  {
    if calls == [] then []
    else if calls[0].Reset? then RunUnbounded(entries - {calls[0].key}, s, calls[1..])
    else
      var (next, reply) := Unbounded(entries, s, calls[0].key, calls[0].now);
      [reply] + RunUnbounded(next, s, calls[1..])
  }

  // ---------------------------------------------------------------- bounded space

  lemma PurgedIsSmaller(entries: Entries, now: Instant)
    ensures |Purged(entries, now)| <= |entries|
  {
    SmallerMap(Purged(entries, now).Keys, entries.Keys);
  }

  lemma SmallerMap(small: set<Key>, big: set<Key>)
    requires small <= big
    ensures |small| <= |big|
  {
    assert big == small + (big - small);
  }

  lemma OneMore(entries: Entries, key: Key, e: Entry)
    ensures |entries[key := e]| == |entries| + if key in entries then 0 else 1
  {
    assert entries[key := e].Keys == entries.Keys + {key};
  }

  lemma {:induction false} SpaceIsBounded(entries: Entries, s: Settings, calls: seq<Call>)
    requires |entries| <= MAX_ENTRIES
    ensures |Run(entries, s, calls).0| <= MAX_ENTRIES
    decreases |calls|
  {
    if calls != [] {
      if calls[0].Reset? {
        SmallerMap((entries - {calls[0].key}).Keys, entries.Keys);
        SpaceIsBounded(entries - {calls[0].key}, s, calls[1..]);
      } else {
        var Allow(key, now) := calls[0];
        var kept := if |entries| < MAX_ENTRIES then entries else Purged(entries, now);
        PurgedIsSmaller(entries, now);
        var entry := if Live(kept, key, now) then kept[key] else Entry(0, now + s.window);
        OneMore(kept, key, entry.(attempts := entry.attempts + 1));
        SpaceIsBounded(Bounded(entries, s, key, now).0, s, calls[1..]);
      }
    }
  }

  lemma NoRunHoldsMore(s: Settings, calls: seq<Call>)
    ensures |Run(map[], s, calls).0| <= 4096
  {
    SpaceIsBounded(map[], s, calls);
  }

  // ---------------------------------------------------------------- what a refusal means

  /** A refused key is let through again when the announced time has passed, and at no moment before. */
  lemma RetryIsExact(entries: Entries, s: Settings, key: Key, now: Instant, later: Instant)
    requires s.limit > 0 && now <= later && !Unbounded(entries, s, key, now).1.allowed
    ensures Unbounded(entries, s, key, later).1.allowed <==> later >= now + Unbounded(entries, s, key, now).1.retry
  {
  }

  /** Refusal for lack of room: 4096 other keys have live entries; the announced time is one window. */
  lemma FullExactly(entries: Entries, s: Settings, key: Key, now: Instant)
    ensures var r := Bounded(entries, s, key, now).1;
      r.full <==> !Live(entries, key, now) && |set k | k in entries && Live(entries, k, now)| >= 4096
    ensures var r := Bounded(entries, s, key, now).1; r.full ==> !r.allowed && r.retry == s.window
  {
    var live := set k | k in entries && Live(entries, k, now);
    assert Purged(entries, now).Keys == live;
    SmallerMap(live, entries.Keys);
  }

  /** A key that is reset starts over. */
  lemma ResetStartsOver(entries: Entries, s: Settings, key: Key, now: Instant)
    requires s.limit > 0
    ensures var r := Bounded(entries - {key}, s, key, now).1; r.allowed || r.full
  {
  }

  // ---------------------------------------------------------------- agreement with the unbounded limiter

  /** The same live entries; expired ones do not matter. */
  ghost predicate SameLive(a: Entries, b: Entries, now: Instant) {
    forall k :: (Live(a, k, now) <==> Live(b, k, now)) && (Live(a, k, now) ==> a[k] == b[k])
  }

  lemma CallAgrees(a: Entries, b: Entries, s: Settings, key: Key, now: Instant)
    requires SameLive(a, b, now) && !Bounded(a, s, key, now).1.full
    ensures Bounded(a, s, key, now).1 == Unbounded(b, s, key, now).1
    ensures SameLive(Bounded(a, s, key, now).0, Unbounded(b, s, key, now).0, now)
  {
    assert Live(a, key, now) <==> Live(b, key, now);
  }

  lemma LaterStillSame(a: Entries, b: Entries, now: Instant, later: Instant)
    requires SameLive(a, b, now) && now <= later
    ensures SameLive(a, b, later)
  {
    forall k ensures (Live(a, k, later) <==> Live(b, k, later)) && (Live(a, k, later) ==> a[k] == b[k]) {
      assert Live(a, k, now) <==> Live(b, k, now);
    }
  }

  /** Call by call the replies are those of the unbounded limiter, up to the first refusal for room. */
  lemma {:induction false} AgreesUntilFull(a: Entries, b: Entries, s: Settings, calls: seq<Call>, from: Instant, n: nat)
    requires Timed(calls, from) && SameLive(a, b, from)
    requires n < |Run(a, s, calls).1| && forall i :: 0 <= i <= n ==> !Run(a, s, calls).1[i].full
    ensures n < |RunUnbounded(b, s, calls)| && Run(a, s, calls).1[n] == RunUnbounded(b, s, calls)[n]
    decreases |calls|
  {
    if calls[0].Reset? {
      AgreesUntilFull(a - {calls[0].key}, b - {calls[0].key}, s, calls[1..], from, n);
    } else {
      var Allow(key, now) := calls[0];
      LaterStillSame(a, b, from, now);
      assert Run(a, s, calls).1[0] == Bounded(a, s, key, now).1;
      CallAgrees(a, b, s, key, now);
      if n > 0 {
        var rest := Run(Bounded(a, s, key, now).0, s, calls[1..]).1;
        assert Run(a, s, calls).1 == [Bounded(a, s, key, now).1] + rest;
        forall i | 0 <= i <= n - 1 ensures !rest[i].full { assert rest[i] == Run(a, s, calls).1[i + 1]; }
        AgreesUntilFull(Bounded(a, s, key, now).0, Unbounded(b, s, key, now).0, s, calls[1..], now, n - 1);
      }
    }
  }

  // ---------------------------------------------------------------- at most twice the limit per window

  /** How many calls of the key between `x` and `x + window` are allowed. */
  function Passed(entries: Entries, s: Settings, calls: seq<Call>, key: Key, x: Instant): nat
    decreases |calls|
  {
    if calls == [] then 0
    else if calls[0].Reset? then Passed(entries - {calls[0].key}, s, calls[1..], key, x)
    else
      var (next, reply) := Bounded(entries, s, calls[0].key, calls[0].now);
      (if Counts(s, calls[0], key, x) && reply.allowed then 1 else 0) + Passed(next, s, calls[1..], key, x)
  }

  predicate Counts(s: Settings, c: Call, key: Key, x: Instant)
    requires c.Allow?
  {
    c.key == key && x <= c.now <= x + s.window
  }

  /** What the key may still pass within the interval, given its entry at time `t`. */
  function Allowance(entries: Entries, s: Settings, key: Key, x: Instant, t: Instant): int {
    if t > x + s.window then 0
    else if !Live(entries, key, t) then if t > x then s.limit else 2 * s.limit
    else if entries[key].resetAt > x + s.window then s.limit - entries[key].attempts
    else if entries[key].resetAt > x then 2 * s.limit - entries[key].attempts
    else 2 * s.limit
  }

  predicate AttemptsFine(entries: Entries, s: Settings) {
    forall k :: k in entries ==> entries[k].attempts <= s.limit
  }

  lemma AllowanceShrinks(entries: Entries, s: Settings, key: Key, x: Instant, t: Instant, u: Instant)
    requires AttemptsFine(entries, s) && t <= u
    ensures 0 <= Allowance(entries, s, key, x, u) <= Allowance(entries, s, key, x, t)
  {
  }

  /** One call spends at least what it lets through. */
  lemma CallSpends(entries: Entries, s: Settings, c: Call, key: Key, x: Instant)
    requires c.Allow? && s.window > 0 && AttemptsFine(entries, s)
    ensures var (next, reply) := Bounded(entries, s, c.key, c.now);
      && AttemptsFine(next, s)
      && (if Counts(s, c, key, x) && reply.allowed then 1 else 0) + Allowance(next, s, key, x, c.now)
           <= Allowance(entries, s, key, x, c.now)
  {
  }

  predicate NeverReset(calls: seq<Call>, key: Key) {
    forall i :: 0 <= i < |calls| ==> calls[i] != Reset(key)
  }

  lemma {:induction false} PassedWithinAllowance(entries: Entries, s: Settings, calls: seq<Call>, from: Instant, key: Key, x: Instant)
    requires s.window > 0 && AttemptsFine(entries, s) && Timed(calls, from) && NeverReset(calls, key)
    ensures Passed(entries, s, calls, key, x) <= Allowance(entries, s, key, x, from)
    decreases |calls|
  {
    AllowanceShrinks(entries, s, key, x, from, from);
    if calls != [] {
      var rest := calls[1..];
      assert NeverReset(rest, key);
      if calls[0].Reset? {
        assert calls[0] != Reset(key);
        PassedWithinAllowance(entries - {calls[0].key}, s, rest, from, key, x);
      } else {
        AllowanceShrinks(entries, s, key, x, from, calls[0].now);
        CallSpends(entries, s, calls[0], key, x);
        PassedWithinAllowance(Bounded(entries, s, calls[0].key, calls[0].now).0, s, rest, calls[0].now, key, x);
      }
    }
  }

  /** Without Reset, one key passes at most twice the limit in any closed interval of one window. */
  lemma AtMostTwicePerWindow(s: Settings, calls: seq<Call>, from: Instant, key: Key, x: Instant)
    requires s.window > 0 && Timed(calls, from) && NeverReset(calls, key)
    ensures Passed(map[], s, calls, key, x) <= 2 * s.limit
  {
    PassedWithinAllowance(map[], s, calls, from, key, x);
  }

  // ---------------------------------------------------------------- the bound is reached

  /** The same call `n` times, then the rest. */
  function Repeat(c: Call, n: nat, rest: seq<Call>): seq<Call> { if n == 0 then rest else [c] + Repeat(c, n - 1, rest) }

  /** The entry a call counts against: the live one, or a new one. */
  function Current(entries: Entries, s: Settings, key: Key, t: Instant): Entry {
    if Live(entries, key, t) then entries[key] else Entry(0, t + s.window)
  }

  /** With room to spare, a call below the limit passes and counts. */
  lemma CallPasses(entries: Entries, s: Settings, key: Key, t: Instant)
    requires entries.Keys <= {key} && Current(entries, s, key, t).attempts < s.limit
    ensures var (next, reply) := Bounded(entries, s, key, t);
      var e := Current(entries, s, key, t);
      reply.allowed && next.Keys == {key} && next[key] == e.(attempts := e.attempts + 1)
  {
    SmallerMap(entries.Keys, {key});
  }

  lemma PassedOne(entries: Entries, s: Settings, key: Key, t: Instant, rest: seq<Call>, x: Instant)
    requires x <= t <= x + s.window && Bounded(entries, s, key, t).1.allowed
    ensures Passed(entries, s, [Allow(key, t)] + rest, key, x) == 1 + Passed(Bounded(entries, s, key, t).0, s, rest, key, x)
  {
    assert ([Allow(key, t)] + rest)[1..] == rest;
  }

  /** The entries after `n` calls of one key at one instant. */
  function AfterBurst(entries: Entries, s: Settings, key: Key, t: Instant, n: nat): Entries
    decreases n
  {
    if n == 0 then entries else AfterBurst(Bounded(entries, s, key, t).0, s, key, t, n - 1)
  }

  /** Every call up to the limit passes. */
  lemma {:induction false} Burst(entries: Entries, s: Settings, key: Key, t: Instant, n: nat, rest: seq<Call>, x: Instant)
    requires entries.Keys <= {key} && s.window > 0 && x <= t <= x + s.window
    requires Current(entries, s, key, t).attempts + n <= s.limit
    ensures var after := AfterBurst(entries, s, key, t, n);
      && Passed(entries, s, Repeat(Allow(key, t), n, rest), key, x) == n + Passed(after, s, rest, key, x)
      && after.Keys <= {key}
      && (n > 0 ==> key in after && after[key].resetAt == Current(entries, s, key, t).resetAt)
    decreases n
  {
    if n > 0 {
      var next := Bounded(entries, s, key, t).0;
      CallPasses(entries, s, key, t);
      PassedOne(entries, s, key, t, Repeat(Allow(key, t), n - 1, rest), x);
      Burst(next, s, key, t, n - 1, rest, x);
    }
  }

  lemma {:induction false} RepeatIsTimed(key: Key, t: Instant, n: nat, rest: seq<Call>, from: Instant)
    requires from <= t && Timed(rest, t) && NeverReset(rest, key)
    ensures Timed(Repeat(Allow(key, t), n, rest), from) && NeverReset(Repeat(Allow(key, t), n, rest), key)
    decreases n
  {
    if n == 0 {
      TimedLater(rest, t, from);
    } else {
      var more := Repeat(Allow(key, t), n - 1, rest);
      RepeatIsTimed(key, t, n - 1, rest, t);
      assert ([Allow(key, t)] + more)[1..] == more;
    }
  }

  lemma {:induction false} TimedLater(calls: seq<Call>, t: Instant, from: Instant)
    requires from <= t && Timed(calls, t)
    ensures Timed(calls, from)
    decreases |calls|
  {
    if calls != [] && calls[0].Reset? { TimedLater(calls[1..], t, from); }
  }

  /** For every limit and window the bound is reached: a full window's worth at its start, and one at its end. */
  lemma TwiceIsReached(s: Settings, key: Key)
    requires s.limit > 0 && s.window > 0
    ensures var calls := Repeat(Allow(key, 0), s.limit, Repeat(Allow(key, s.window), s.limit, []));
      Timed(calls, 0) && NeverReset(calls, key) && Passed(map[], s, calls, key, 0) == 2 * s.limit
  {
    var second := Repeat(Allow(key, s.window), s.limit, []);
    RepeatIsTimed(key, s.window, s.limit, [], 0);
    Burst(map[], s, key, 0, s.limit, second, 0);
    Burst(AfterBurst(map[], s, key, 0, s.limit), s, key, s.window, s.limit, [], 0);
    TimedFromStart(key, s, second);
  }

  lemma TimedFromStart(key: Key, s: Settings, second: seq<Call>)
    requires Timed(second, 0) && NeverReset(second, key)
    ensures var calls := Repeat(Allow(key, 0), s.limit, second); Timed(calls, 0) && NeverReset(calls, key)
  {
    RepeatIsTimed(key, 0, s.limit, second, 0);
  }

  /** An empty window limits nothing, so it must be positive. */
  lemma EmptyWindowNeverRefuses(entries: Entries, limit: nat, key: Key, now: Instant)
    requires limit > 0 && !Live(entries, key, now)
    ensures var (next, reply) := Unbounded(entries, Settings(limit, 0), key, now); reply.allowed && !Live(next, key, now)
  {
  }
}
