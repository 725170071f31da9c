/** The sliding-window limiter `auth.RateLimiter`: in-place compaction of the stored
    times, and what it decides over whole call histories. Times are integers
    (nanoseconds); `at` is the clock reading each call takes before it enters the lock. */
module RateLimit {

  datatype Limits = Limits(limit: int, window: int)

  /** An arbitrary string such as "login:<ip>:<username>". */
  datatype Key = Key(text: string)

  datatype Call = Call(key: Key, at: int)

  type Hits = map<Key, seq<int>>

  // ---------------------------------------------------------------------
  // One call, as a function of the stored times

  /** Those of the first n times that are later than the cutoff, in order. */
  function Later(times: seq<int>, n: nat, cutoff: int): (r: seq<int>)
    requires n <= |times|
  {
    if n == 0 then [] else
      var rest := Later(times, n - 1, cutoff);
      if times[n - 1] > cutoff then rest + [times[n - 1]] else rest
  }

  function After(times: seq<int>, cutoff: int): (r: seq<int>) {
    Later(times, |times|, cutoff)
  }

  function Lookup(hits: Hits, key: Key): (times: seq<int>) {
    if key in hits then hits[key] else []
  }

  predicate Below(lim: Limits, times: seq<int>, now: int) {
    |After(times, now - lim.window)| < lim.limit
  }

  /** The times stored for a key after a call at `now`. */
  function Kept(lim: Limits, times: seq<int>, now: int): (kept: seq<int>) {
    var live := After(times, now - lim.window);
    if Below(lim, times, now) then live + [now] else live
  }

  predicate Permits(lim: Limits, hits: Hits, c: Call) {
    Below(lim, Lookup(hits, c.key), c.at)
  }

  function Step(lim: Limits, hits: Hits, c: Call): (hits': Hits) {
    hits[c.key := Kept(lim, Lookup(hits, c.key), c.at)]
  }

  // ---------------------------------------------------------------------
  // The limiter object

  /** A Go slice: the first `len` elements of a backing array. */
  datatype Slice = Slice(buf: array<int>, len: nat)

  class RateLimiter {
    const lim: Limits
    var hits: map<Key, Slice>

    ghost var buffers: set<array<int>>  // the backing arrays in use

    /** No two keys share a backing array. */
    ghost predicate Valid()
      reads this, buffers
    {
      && (forall k :: k in hits ==> hits[k].buf in buffers && hits[k].len <= hits[k].buf.Length)
      && (forall k, l :: k in hits && l in hits && k != l ==> hits[k].buf != hits[l].buf)
    }

    ghost function Times(): Hits
      reads this, buffers
      requires Valid()
    {
      map k | k in hits :: hits[k].buf[..hits[k].len]
    }

    constructor (limit: int, window: int)
      ensures Valid() && Times() == map[] && lim == Limits(limit, window)
      ensures buffers == {}
    {
      lim := Limits(limit, window);
      hits := map[];
      buffers := {};
    }

    method Allow(key: Key, now: int) returns (allowed: bool)
      requires Valid()
      modifies this, buffers
      ensures Valid() && fresh(buffers - old(buffers))
      ensures allowed == Permits(lim, old(Times()), Call(key, now))
      ensures Times() == Step(lim, old(Times()), Call(key, now))
    {
      ghost var was := Times();
      var times := Stored(key);
      var kept;
      kept, allowed := Admit(times, lim, now);
      SameElsewhere(was, Times(), key, Kept(lim, Lookup(was, key), now));
      Store(key, kept);
    }

    method Store(key: Key, kept: Slice)
      requires Valid() && kept.len <= kept.buf.Length
      requires forall k :: k in hits && k != key ==> hits[k].buf != kept.buf
      modifies this
      ensures Valid() && buffers == old(buffers) + {kept.buf}
      ensures Times() == old(Times())[key := kept.buf[..kept.len]]
    {
      hits := hits[key := kept];
      buffers := buffers + {kept.buf};
    }

    /** The slice stored for a key; for a new key an empty one nobody shares. */
    method Stored(key: Key) returns (times: Slice)
      requires Valid()
      ensures times.len <= times.buf.Length
      ensures times.buf[..times.len] == Lookup(Times(), key)
      ensures times.buf in buffers || fresh(times.buf)
      ensures forall k :: k in hits && k != key ==> hits[k].buf != times.buf
    {
      if key in hits {
        times := hits[key];
      } else {
        var empty := new int[0];
        times := Slice(empty, 0);
      }
    }
  }

  lemma {:induction false} SameElsewhere(was: Hits, now: Hits, key: Key, times: seq<int>)
    requires now.Keys == was.Keys
    requires forall k :: k in was && k != key ==> now[k] == was[k]
    ensures now[key := times] == was[key := times]
  {
  }

  /** The slice kept for a key after one call, and the answer. */
  method Admit(times: Slice, lim: Limits, now: int) returns (kept: Slice, allowed: bool)
    requires times.len <= times.buf.Length
    modifies times.buf
    ensures kept.len <= kept.buf.Length && (kept.buf == times.buf || fresh(kept.buf))
    ensures allowed == Below(lim, old(times.buf[..times.len]), now)
    ensures kept.buf[..kept.len] == Kept(lim, old(times.buf[..times.len]), now)
  {
    var n := Compact(times.buf, times.len, now - lim.window);
    kept := Slice(times.buf, n);
    if n >= lim.limit {
      allowed := false;
    } else {
      kept := Append(kept, now);
      allowed := true;
    }
  }

  /** Filtering through `times[:0]`: the writes never overtake the reads of the same array. */
  method Compact(buf: array<int>, len: nat, cutoff: int) returns (n: nat)
    requires len <= buf.Length
    modifies buf
    ensures n <= len
    ensures buf[..n] == After(old(buf[..len]), cutoff)
    ensures buf[len..] == old(buf[len..])
  {
    n := 0;
    ghost var start := buf[..len];
    for i := 0 to len
      invariant n <= i
      invariant buf[..n] == Later(start, i, cutoff)
      invariant forall k :: i <= k < buf.Length ==> buf[k] == old(buf[k])
    {
      if buf[i] > cutoff {
        buf[n] := buf[i];
        n := n + 1;
      }
    }
  }

  /** `append`: in place while the capacity lasts, otherwise into a larger copy. */
  method Append(s: Slice, x: int) returns (r: Slice)
    requires s.len <= s.buf.Length
    modifies s.buf
    ensures r.len == s.len + 1 <= r.buf.Length
    ensures r.buf[..r.len] == old(s.buf[..s.len]) + [x]
    ensures r.buf == s.buf || fresh(r.buf)
  {
    if s.len < s.buf.Length {
      s.buf[s.len] := x;
      r := Slice(s.buf, s.len + 1);
    } else {
      var grown := new int[2 * s.len + 1];
      forall i | 0 <= i < s.len {
        grown[i] := s.buf[i];
      }
      grown[s.len] := x;
      r := Slice(grown, s.len + 1);
    }
  }

  // ---------------------------------------------------------------------
  // Whole histories, in lock order

  datatype History = Start | Then(before: History, call: Call)

  function HitsAfter(lim: Limits, h: History): (hits: Hits) {
    match h
    case Start => map[]
    case Then(before, c) => Step(lim, HitsAfter(lim, before), c)
  }

  /** A call and its answer. */
  datatype Entry = Entry(key: Key, at: int, allowed: bool)

  function Answered(lim: Limits, hits: Hits, c: Call): (e: Entry) {
    Entry(c.key, c.at, Permits(lim, hits, c))
  }

  function Log(lim: Limits, h: History): (log: seq<Entry>) {
    match h
    case Start => []
    case Then(before, c) => Log(lim, before) + [Answered(lim, HitsAfter(lim, before), c)]
  }

  /** Entry j was allowed and no later call for its key had a cutoff at or past it. */
  ghost predicate Survives(window: int, log: seq<Entry>, key: Key, j: nat)
    requires j < |log|
  {
    && log[j].key == key && log[j].allowed
    && forall m :: j < m < |log| && log[m].key == key ==> log[j].at > log[m].at - window
  }

  ghost function SurvivingTimes(window: int, log: seq<Entry>, key: Key, n: nat): (times: seq<int>)
    requires n <= |log|
  {
    if n == 0 then [] else
      var rest := SurvivingTimes(window, log, key, n - 1);
      if Survives(window, log, key, n - 1) then rest + [log[n - 1].at] else rest
  }

  lemma {:induction false} LaterPrefix(times: seq<int>, t: int, n: nat, cutoff: int)
    requires n <= |times|
    ensures Later(times + [t], n, cutoff) == Later(times, n, cutoff)
  {
    if n != 0 {
      LaterPrefix(times, t, n - 1, cutoff);
    }
  }

  lemma {:induction false} AfterAppend(times: seq<int>, t: int, cutoff: int)
    ensures After(times + [t], cutoff) ==
      if t > cutoff then After(times, cutoff) + [t] else After(times, cutoff)
  {
    LaterPrefix(times, t, |times|, cutoff);
  }

  ghost predicate Extends(more: seq<Entry>, log: seq<Entry>, e: Entry) {
    && |more| == |log| + 1 && more[|log|] == e
    && forall m :: 0 <= m < |log| ==> more[m] == log[m]
  }

  lemma {:induction false} SurvivesStep(window: int, log: seq<Entry>, e: Entry, more: seq<Entry>, key: Key, j: nat)
    requires Extends(more, log, e) && j < |log|
    ensures Survives(window, more, key, j) <==>
      Survives(window, log, key, j) && (e.key == key ==> log[j].at > e.at - window)
  {
  }

  lemma {:induction false} OtherSurvivors(window: int, log: seq<Entry>, e: Entry, more: seq<Entry>, key: Key, n: nat)
    requires Extends(more, log, e) && n <= |log| && e.key != key
    ensures SurvivingTimes(window, more, key, n) == SurvivingTimes(window, log, key, n)
  {
    if n != 0 {
      OtherSurvivors(window, log, e, more, key, n - 1);
      SurvivesStep(window, log, e, more, key, n - 1);
    }
  }

  /** One more call for the key applies its cutoff to the survivors; other keys change nothing. */
  lemma {:induction false} SurvivorsStep(window: int, log: seq<Entry>, e: Entry, more: seq<Entry>, n: nat)
    requires Extends(more, log, e) && n <= |log|
    ensures SurvivingTimes(window, more, e.key, n) == After(SurvivingTimes(window, log, e.key, n), e.at - window)
  {
    if n != 0 {
      SurvivorsStep(window, log, e, more, n - 1);
      SurvivesStep(window, log, e, more, e.key, n - 1);
      if Survives(window, log, e.key, n - 1) {
        AfterAppend(SurvivingTimes(window, log, e.key, n - 1), log[n - 1].at, e.at - window);
      }
    }
  }

  lemma {:induction false} SurvivorsMore(window: int, log: seq<Entry>, e: Entry, more: seq<Entry>, key: Key)
    requires Extends(more, log, e)
    ensures var was := SurvivingTimes(window, log, key, |log|);
      SurvivingTimes(window, more, key, |more|) ==
        if e.key != key then was
        else if e.allowed then After(was, e.at - window) + [e.at] else After(was, e.at - window)
  {
    if e.key == key {
      SurvivorsStep(window, log, e, more, |log|);
    } else {
      OtherSurvivors(window, log, e, more, key, |log|);
    }
    assert Survives(window, more, key, |log|) <==> e.key == key && e.allowed;
  }

  lemma {:induction false} StoreStep(lim: Limits, hits: Hits, log: seq<Entry>, c: Call, more: seq<Entry>, key: Key)
    requires Extends(more, log, Answered(lim, hits, c))
    requires Lookup(hits, key) == SurvivingTimes(lim.window, log, key, |log|)
    ensures Lookup(Step(lim, hits, c), key) == SurvivingTimes(lim.window, more, key, |more|)
  {
    SurvivorsMore(lim.window, log, Answered(lim, hits, c), more, key);
  }

  lemma {:induction false} LogExtends(lim: Limits, h: History)
    requires h.Then?
    ensures Extends(Log(lim, h), Log(lim, h.before), Answered(lim, HitsAfter(lim, h.before), h.call))
  {
  }

  /** What the limiter stores for a key, for every history and without any assumption on its times. */
  lemma {:induction false} StoredAreSurvivors(lim: Limits, h: History, key: Key)
    ensures Lookup(HitsAfter(lim, h), key) == SurvivingTimes(lim.window, Log(lim, h), key, |Log(lim, h)|)
  {
    if h.Then? {
      StoredAreSurvivors(lim, h.before, key);
      LogExtends(lim, h);
      StoreStep(lim, HitsAfter(lim, h.before), Log(lim, h.before), h.call, Log(lim, h), key);
    }
  }

  // ---------------------------------------------------------------------
  // Every answer, in any order of times

  ghost predicate AllowedFor(e: Entry, key: Key) {
    e.key == key && e.allowed
  }

  /** Allowed and later than the cutoff of a call at `now`, but discarded by a call in between. */
  ghost predicate Forgotten(window: int, log: seq<Entry>, key: Key, j: nat, now: int)
    requires j < |log|
  {
    && AllowedFor(log[j], key) && log[j].at > now - window
    && exists m :: j < m < |log| && log[m].key == key && log[j].at <= log[m].at - window
  }

  ghost function CountForgotten(window: int, log: seq<Entry>, key: Key, n: nat, now: int): (count: nat)
    requires n <= |log|
  {
    if n == 0 then 0 else
      CountForgotten(window, log, key, n - 1, now) + if Forgotten(window, log, key, n - 1, now) then 1 else 0
  }

  /** How many of the first n calls are allowed calls for key later than the cutoff. */
  ghost function CountLater(log: seq<Entry>, key: Key, n: nat, cutoff: int): (count: nat)
    requires n <= |log|
  {
    if n == 0 then 0 else
      CountLater(log, key, n - 1, cutoff) + if AllowedFor(log[n - 1], key) && log[n - 1].at > cutoff then 1 else 0
  }

  lemma {:induction false} LiveCount(window: int, log: seq<Entry>, key: Key, n: nat, now: int)
    requires n <= |log|
    ensures |After(SurvivingTimes(window, log, key, n), now - window)| + CountForgotten(window, log, key, n, now)
         == CountLater(log, key, n, now - window)
  {
    if n != 0 {
      LiveCount(window, log, key, n - 1, now);
      AfterAppend(SurvivingTimes(window, log, key, n - 1), log[n - 1].at, now - window);
      assert Forgotten(window, log, key, n - 1, now) <==>
        AllowedFor(log[n - 1], key) && log[n - 1].at > now - window && !Survives(window, log, key, n - 1);
    }
  }

  lemma {:induction false} NoneForgotten(window: int, log: seq<Entry>, key: Key, n: nat, now: int)
    requires n <= |log|
    ensures CountForgotten(window, log, key, n, now) == 0 <==>
      forall j :: 0 <= j < n ==> !Forgotten(window, log, key, j, now)
  {
    if n != 0 {
      NoneForgotten(window, log, key, n - 1, now);
    }
  }

  /** For every history: the times a call at `now` counts are all allowed calls later than its cutoff
      if and only if none of them is forgotten. */
  lemma {:induction false} RememberedIff(lim: Limits, h: History, key: Key, now: int)
    ensures var log := Log(lim, h);
      |After(Lookup(HitsAfter(lim, h), key), now - lim.window)| == CountLater(log, key, |log|, now - lim.window)
      <==> forall j :: 0 <= j < |log| ==> !Forgotten(lim.window, log, key, j, now)
  {
    var log := Log(lim, h);
    StoredAreSurvivors(lim, h, key);
    LiveCount(lim.window, log, key, |log|, now);
    NoneForgotten(lim.window, log, key, |log|, now);
  }

  lemma {:induction false} BelowIff(lim: Limits, times: seq<int>, log: seq<Entry>, key: Key, now: int)
    requires times == SurvivingTimes(lim.window, log, key, |log|)
    ensures Below(lim, times, now) <==>
      CountLater(log, key, |log|, now - lim.window) - CountForgotten(lim.window, log, key, |log|, now) < lim.limit
  {
    LiveCount(lim.window, log, key, |log|, now);
  }

  /** Full-history refinement without any assumption on the times: the next call is allowed exactly
      when fewer than `limit` earlier allowed calls for its key are later than its cutoff and not
      forgotten. */
  lemma {:induction false} AllowedIff(lim: Limits, h: History, c: Call)
    ensures var log := Log(lim, h);
      Answered(lim, HitsAfter(lim, h), c).allowed <==>
        CountLater(log, c.key, |log|, c.at - lim.window)
          - CountForgotten(lim.window, log, c.key, |log|, c.at) < lim.limit
  {
    StoredAreSurvivors(lim, h, c.key);
    BelowIff(lim, Lookup(HitsAfter(lim, h), c.key), Log(lim, h), c.key, c.at);
  }

  // ---------------------------------------------------------------------
  // Windows

  ghost predicate Counts(length: int, e: Entry, key: Key, to: int) {
    AllowedFor(e, key) && to - length < e.at <= to
  }

  /** How many of the first n calls are allowed calls for key with times in (to - length, to]. */
  ghost function InWindow(length: int, log: seq<Entry>, key: Key, n: nat, to: int): (count: nat)
    requires n <= |log|
  {
    if n == 0 then 0 else
      InWindow(length, log, key, n - 1, to) + if Counts(length, log[n - 1], key, to) then 1 else 0
  }

  lemma {:induction false} SameWindow(length: int, log: seq<Entry>, e: Entry, more: seq<Entry>, key: Key, n: nat, to: int)
    requires Extends(more, log, e) && n <= |log|
    ensures InWindow(length, more, key, n, to) == InWindow(length, log, key, n, to)
  {
    if n != 0 {
      SameWindow(length, log, e, more, key, n - 1, to);
    }
  }

  lemma {:induction false} CountMore(length: int, log: seq<Entry>, e: Entry, more: seq<Entry>, key: Key, to: int)
    requires Extends(more, log, e)
    ensures InWindow(length, more, key, |more|, to) ==
      InWindow(length, log, key, |log|, to) + if Counts(length, e, key, to) then 1 else 0
  {
    SameWindow(length, log, e, more, key, |log|, to);
  }

  /** No earlier call for the key is ahead of a time by more than d. */
  ghost predicate Behind(log: seq<Entry>, key: Key, at: int, d: int) {
    forall m :: 0 <= m < |log| && log[m].key == key ==> log[m].at <= at + d
  }

  /** A key's calls overtake each other by at most d: the clock is read before the lock is taken, so
      a call can enter the lock after one with a later reading. */
  ghost predicate OvertakeAtMost(lim: Limits, h: History, d: int) {
    h.Then? ==> OvertakeAtMost(lim, h.before, d) && Behind(Log(lim, h.before), h.call.key, h.call.at, d)
  }

  lemma {:induction false} CountedSurvives(window: int, d: nat, log: seq<Entry>, key: Key, j: nat, at: int, to: int)
    requires j < |log| && Behind(log, key, at, d) && at <= to && Counts(window - d, log[j], key, to)
    ensures Survives(window, log, key, j) && log[j].at > at - window
  {
  }

  /** What a window shorter by d holds, a call inside it still counts. */
  lemma {:induction false} WindowIsLive(window: int, d: nat, log: seq<Entry>, key: Key, n: nat, at: int, to: int)
    requires n <= |log| && Behind(log, key, at, d) && at <= to
    ensures InWindow(window - d, log, key, n, to) <= |After(SurvivingTimes(window, log, key, n), at - window)|
  {
    if n != 0 {
      WindowIsLive(window, d, log, key, n - 1, at, to);
      AfterAppend(SurvivingTimes(window, log, key, n - 1), log[n - 1].at, at - window);
      if Counts(window - d, log[n - 1], key, to) {
        CountedSurvives(window, d, log, key, n - 1, at, to);
      }
    }
  }

  lemma {:induction false} BoundStep(lim: Limits, times: seq<int>, log: seq<Entry>, e: Entry, more: seq<Entry>,
                                     key: Key, to: int, d: nat)
    requires Extends(more, log, e) && Behind(log, e.key, e.at, d)
    requires times == SurvivingTimes(lim.window, log, e.key, |log|) && e.allowed == Below(lim, times, e.at)
    requires InWindow(lim.window - d, log, key, |log|, to) <= lim.limit
    ensures InWindow(lim.window - d, more, key, |more|, to) <= lim.limit
  {
    CountMore(lim.window - d, log, e, more, key, to);
    if Counts(lim.window - d, e, key, to) {
      WindowIsLive(lim.window, d, log, key, |log|, e.at, to);
    }
  }

  /** If a key's calls overtake each other by at most d, no window that is shorter than the configured
      one by d, wherever it ends, holds more than `limit` allowed calls. In order, d is 0. */
  lemma {:induction false} WindowNeverExceeded(lim: Limits, h: History, key: Key, to: int, d: nat)
    requires OvertakeAtMost(lim, h, d) && 0 <= lim.limit
    ensures InWindow(lim.window - d, Log(lim, h), key, |Log(lim, h)|, to) <= lim.limit
  {
    if h.Then? {
      var hits := HitsAfter(lim, h.before);
      WindowNeverExceeded(lim, h.before, key, to, d);
      StoredAreSurvivors(lim, h.before, h.call.key);
      LogExtends(lim, h);
      BoundStep(lim, Lookup(hits, h.call.key), Log(lim, h.before), Answered(lim, hits, h.call), Log(lim, h), key, to, d);
    }
  }

  lemma {:induction false} InOrderCounts(window: int, log: seq<Entry>, key: Key, n: nat, now: int)
    requires n <= |log| && Behind(log, key, now, 0)
    ensures CountLater(log, key, n, now - window) == InWindow(window, log, key, n, now)
    ensures CountForgotten(window, log, key, n, now) == 0
  {
    if n != 0 {
      InOrderCounts(window, log, key, n - 1, now);
    }
  }

  /** When no earlier call for the key has a later clock reading, the next call is allowed exactly when
      fewer than `limit` earlier allowed calls for its key lie in the window ending at it. */
  lemma {:induction false} AllowedInOrder(lim: Limits, h: History, c: Call)
    requires Behind(Log(lim, h), c.key, c.at, 0)
    ensures Answered(lim, HitsAfter(lim, h), c).allowed <==>
      InWindow(lim.window, Log(lim, h), c.key, |Log(lim, h)|, c.at) < lim.limit
  {
    AllowedIff(lim, h, c);
    InOrderCounts(lim.window, Log(lim, h), c.key, |Log(lim, h)|, c.at);
  }

  // ---------------------------------------------------------------------
  // Exactly which windows are safe

  function Zeros(k: nat): (times: seq<int>)
    ensures |times| == k && forall i :: 0 <= i < k ==> times[i] == 0
  {
    seq(k, _ => 0)
  }

  lemma {:induction false} LaterZeros(k: nat, n: nat, cutoff: int)
    requires n <= k
    ensures Later(Zeros(k), n, cutoff) == if cutoff < 0 then Zeros(n) else []
  {
    if n != 0 {
      LaterZeros(k, n - 1, cutoff);
      assert Zeros(n) == Zeros(n - 1) + [0];
    }
  }

  /** One more call that is allowed. */
  lemma {:induction false} OneMore(lim: Limits, h: History, c: Call, times: seq<int>, length: int, to: int)
    requires Lookup(HitsAfter(lim, h), c.key) == times && Below(lim, times, c.at)
    ensures var more := Then(h, c);
      && Lookup(HitsAfter(lim, more), c.key) == Kept(lim, times, c.at)
      && Extends(Log(lim, more), Log(lim, h), Entry(c.key, c.at, true))
      && InWindow(length, Log(lim, more), c.key, |Log(lim, more)|, to) ==
           InWindow(length, Log(lim, h), c.key, |Log(lim, h)|, to) + if to - length < c.at <= to then 1 else 0
  {
    LogExtends(lim, Then(h, c));
    CountMore(length, Log(lim, h), Entry(c.key, c.at, true), Log(lim, Then(h, c)), c.key, to);
  }

  lemma {:induction false} KeptZeros(lim: Limits, k: nat)
    requires k < lim.limit && 1 <= lim.window
    ensures Below(lim, Zeros(k), 0) && Kept(lim, Zeros(k), 0) == Zeros(k + 1)
  {
    LaterZeros(k, k, -lim.window);
    assert Zeros(k + 1) == Zeros(k) + [0];
  }

  /** Up to `limit` calls at once are all allowed and all stored. */
  lemma {:induction false} Burst(lim: Limits, key: Key, k: nat, length: int, to: int) returns (h: History)
    requires k <= lim.limit && 1 <= lim.window && to - length < 0 <= to
    ensures OvertakeAtMost(lim, h, 0) && Behind(Log(lim, h), key, 0, 0)
    ensures Lookup(HitsAfter(lim, h), key) == Zeros(k)
    ensures InWindow(length, Log(lim, h), key, |Log(lim, h)|, to) == k
  {
    if k == 0 {
      h := Start;
    } else {
      var before := Burst(lim, key, k - 1, length, to);
      KeptZeros(lim, k - 1);
      OneMore(lim, before, Call(key, 0), Zeros(k - 1), length, to);
      h := Then(before, Call(key, 0));
    }
  }

  /** The later call discards the burst, and the overtaken one finds only the later call. */
  lemma {:induction false} KeptOvertaken(lim: Limits, m: int)
    requires 2 <= lim.limit && 0 <= m && 1 <= lim.window
    ensures Below(lim, Zeros(lim.limit), lim.window) && Kept(lim, Zeros(lim.limit), lim.window) == [lim.window]
    ensures Below(lim, [lim.window], lim.window - m)
  {
    LaterZeros(lim.limit, lim.limit, 0);
    AfterAppend([], lim.window, -m);
    assert [] + [lim.window] == [lim.window];
  }

  lemma {:induction false} Widen(lim: Limits, h: History, c: int, d: int)
    requires c <= d && OvertakeAtMost(lim, h, c)
    ensures OvertakeAtMost(lim, h, d)
  {
    if h.Then? {
      Widen(lim, h.before, c, d);
    }
  }

  lemma {:induction false} BurstThenLater(lim: Limits, key: Key, m: nat, length: int, to: int) returns (h: History)
    requires 2 <= lim.limit && 1 <= lim.window && to - length < 0 <= to
    ensures OvertakeAtMost(lim, h, m) && Behind(Log(lim, h), key, lim.window, 0)
    ensures Lookup(HitsAfter(lim, h), key) == [lim.window]
    ensures InWindow(length, Log(lim, h), key, |Log(lim, h)|, to) >= lim.limit
  {
    var burst := Burst(lim, key, lim.limit, length, to);
    KeptOvertaken(lim, 0);
    OneMore(lim, burst, Call(key, lim.window), Zeros(lim.limit), length, to);
    Widen(lim, burst, 0, m);
    h := Then(burst, Call(key, lim.window));
  }

  /** A burst of `limit` calls, one call a window later, and one that it has overtaken by m: all are
      allowed, and any window reaching from the last back to the burst holds too many. */
  lemma {:induction false} OvertakingExceeds(lim: Limits, key: Key, m: nat, length: int) returns (h: History)
    requires 2 <= lim.limit && m <= lim.window && 1 <= lim.window && lim.window - m < length
    ensures OvertakeAtMost(lim, h, m)
    ensures InWindow(length, Log(lim, h), key, |Log(lim, h)|, lim.window - m) > lim.limit
  {
    var to := lim.window - m;
    var before := BurstThenLater(lim, key, m, length, to);
    KeptOvertaken(lim, m);
    OneMore(lim, before, Call(key, to), [lim.window], length, to);
    h := Then(before, Call(key, to));
  }

  ghost predicate NeverExceeded(lim: Limits, d: nat, length: int) {
    forall h, key, to ::
      OvertakeAtMost(lim, h, d) ==> InWindow(length, Log(lim, h), key, |Log(lim, h)|, to) <= lim.limit
  }

  /** Exactly: with a limit of two or more and calls overtaking by up to d, the windows that never hold
      more than `limit` allowed calls are those shorter than the configured one by d or more. */
  lemma {:induction false} NeverExceededIff(lim: Limits, d: nat, length: int)
    requires 2 <= lim.limit && 1 <= lim.window && 1 <= length
    ensures NeverExceeded(lim, d, length) <==> length <= lim.window - d
  {
    if length <= lim.window - d {
      forall h, key, to | OvertakeAtMost(lim, h, d)
        ensures InWindow(length, Log(lim, h), key, |Log(lim, h)|, to) <= lim.limit
      {
        Widen(lim, h, d, lim.window - length);
        WindowNeverExceeded(lim, h, key, to, lim.window - length);
      }
    } else {
      var m := if d < lim.window then d else lim.window;
      var h := OvertakingExceeds(lim, Key(""), m, length);
      Widen(lim, h, m, d);
    }
  }

  // ---------------------------------------------------------------------
  // A limit of one

  /** Allowed calls for the key lie a window apart, each later than the one before. */
  ghost predicate Spaced(window: int, log: seq<Entry>, key: Key) {
    forall i, j :: 0 <= i < j < |log| && AllowedFor(log[i], key) && AllowedFor(log[j], key) ==>
      log[i].at <= log[j].at - window
  }

  /** At most one time is stored, and no allowed call is later. */
  ghost predicate StoresLatest(log: seq<Entry>, key: Key, times: seq<int>) {
    && |times| <= 1
    && forall i :: 0 <= i < |log| && AllowedFor(log[i], key) ==> |times| == 1 && log[i].at <= times[0]
  }

  /** With one stored time, a call is either denied and changes nothing, or is a window later. */
  lemma {:induction false} SingleKept(lim: Limits, times: seq<int>, now: int)
    requires lim.limit == 1 && |times| <= 1
    ensures Below(lim, times, now) <==> times == [] || times[0] <= now - lim.window
    ensures Kept(lim, times, now) == if Below(lim, times, now) then [now] else times
  {
    if times != [] {
      assert times == [] + [times[0]];
      AfterAppend([], times[0], now - lim.window);
    }
  }

  lemma {:induction false} SingleStep(lim: Limits, log: seq<Entry>, e: Entry, more: seq<Entry>, times: seq<int>)
    requires lim.limit == 1 && 0 <= lim.window && Extends(more, log, e)
    requires Spaced(lim.window, log, e.key) && StoresLatest(log, e.key, times) && e.allowed == Below(lim, times, e.at)
    ensures Spaced(lim.window, more, e.key) && StoresLatest(more, e.key, Kept(lim, times, e.at))
  {
    SingleKept(lim, times, e.at);
  }

  lemma {:induction false} SingleSpaced(lim: Limits, h: History, key: Key)
    requires lim.limit == 1 && 0 <= lim.window
    ensures Spaced(lim.window, Log(lim, h), key)
    ensures StoresLatest(Log(lim, h), key, Lookup(HitsAfter(lim, h), key))
  {
    if h.Then? {
      var hits := HitsAfter(lim, h.before);
      SingleSpaced(lim, h.before, key);
      LogExtends(lim, h);
      if h.call.key == key {
        SingleStep(lim, Log(lim, h.before), Answered(lim, hits, h.call), Log(lim, h), Lookup(hits, key));
      }
    }
  }

  lemma {:induction false} SpacedCount(window: int, log: seq<Entry>, key: Key, n: nat, to: int)
    requires n <= |log| && Spaced(window, log, key)
    ensures InWindow(window, log, key, n, to) <= 1
    ensures InWindow(window, log, key, n, to) == 1 ==> exists i :: 0 <= i < n && Counts(window, log[i], key, to)
  {
    if n != 0 {
      SpacedCount(window, log, key, n - 1, to);
    }
  }

  lemma {:induction false} NothingAllowed(lim: Limits, h: History, key: Key, to: int)
    requires lim.limit <= 0
    ensures InWindow(lim.window, Log(lim, h), key, |Log(lim, h)|, to) == 0
  {
    if h.Then? {
      NothingAllowed(lim, h.before, key, to);
      LogExtends(lim, h);
      CountMore(lim.window, Log(lim, h.before), Answered(lim, HitsAfter(lim, h.before), h.call), Log(lim, h), key, to);
    }
  }

  /** A limit of one or none is never exceeded, however calls overtake each other. */
  lemma {:induction false} SmallNeverExceeded(lim: Limits, h: History, key: Key, to: int)
    requires 0 <= lim.limit <= 1 && 0 <= lim.window
    ensures InWindow(lim.window, Log(lim, h), key, |Log(lim, h)|, to) <= lim.limit
  {
    if lim.limit == 0 {
      NothingAllowed(lim, h, key, to);
    } else {
      SingleSpaced(lim, h, key);
      SpacedCount(lim.window, Log(lim, h), key, |Log(lim, h)|, to);
    }
  }

  // ---------------------------------------------------------------------
  // Keys

  /** The calls for one key, in order. */
  function Project(h: History, key: Key): (own: History) {
    match h
    case Start => Start
    case Then(before, c) => if c.key == key then Then(Project(before, key), c) else Project(before, key)
  }

  lemma {:induction false} ProjectedState(lim: Limits, h: History, key: Key)
    ensures Lookup(HitsAfter(lim, h), key) == Lookup(HitsAfter(lim, Project(h, key)), key)
  {
    if h.Then? {
      ProjectedState(lim, h.before, key);
    }
  }

  /** Keys never interfere: a call is answered as if no other key had ever been used. */
  lemma {:induction false} KeysIndependent(lim: Limits, h: History, c: Call)
    ensures Answered(lim, HitsAfter(lim, h), c) == Answered(lim, HitsAfter(lim, Project(h, c.key)), c)
  {
    ProjectedState(lim, h, c.key);
  }
}
