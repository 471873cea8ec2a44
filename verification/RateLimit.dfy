/** The in-memory limiters.  Each keeps only what it still needs; the history of accepted events
    says what it has to answer. */
module RateLimit {
  import opened Options

  datatype Accepted = Accepted(key: string, at: real)

  // ---------------------------------------------------------------- what a limit means

  function Front<T>(s: seq<T>): seq<T>
    requires s != []
  {
    s[..|s| - 1]
  }

  function Last<T>(s: seq<T>): T
    requires s != []
  {
    s[|s| - 1]
  }

  /** The times after `cutoff` at which the key's events were accepted. */
  function Live(history: seq<Accepted>, key: string, cutoff: real): seq<real> {
    if history == [] then []
    else
      var e := Last(history);
      Live(Front(history), key, cutoff) + if e.key == key && e.at > cutoff then [e.at] else []
  }

  /** The key's events in the window of that length that ends at `end`. */
  function InWindow(history: seq<Accepted>, key: string, window: real, end: real): seq<real> {
    if history == [] then []
    else
      var e := Last(history);
      InWindow(Front(history), key, window, end) + if e.key == key && end - window < e.at <= end then [e.at] else []
  }

  predicate UpTo(history: seq<Accepted>, end: real) {
    forall i :: 0 <= i < |history| ==> history[i].at <= end
  }

  /** Every event was accepted in its turn, while fewer than `limit` of its key's events lay in the
      window that ended with it. */
  predicate Limited(history: seq<Accepted>, limit: nat, window: real) {
    history != [] ==>
      var e := Last(history);
      Limited(Front(history), limit, window) && UpTo(Front(history), e.at) && |Live(Front(history), e.key, e.at - window)| < limit
  }

  lemma {:induction false} WindowIsLive(history: seq<Accepted>, key: string, window: real, end: real)
    requires UpTo(history, end)
    ensures InWindow(history, key, window, end) == Live(history, key, end - window)
  {
    if history != [] {
      WindowIsLive(Front(history), key, window, end);
    }
  }

  lemma {:induction false} LaterCutoff(history: seq<Accepted>, key: string, a: real, b: real)
    requires a <= b
    ensures |Live(history, key, b)| <= |Live(history, key, a)|
  {
    if history != [] {
      LaterCutoff(Front(history), key, a, b);
    }
  }

  /** No window, wherever it ends, ever holds more than `limit` events of a key. */
  lemma {:induction false} WindowIsNeverOverfull(history: seq<Accepted>, limit: nat, window: real, key: string, end: real)
    requires Limited(history, limit, window)
    ensures |InWindow(history, key, window, end)| <= limit
  {
    if history != [] {
      var e := Last(history);
      WindowIsNeverOverfull(Front(history), limit, window, key, end);
      if e.key == key && end - window < e.at <= end {
        WindowIsLive(Front(history), key, window, end);
        LaterCutoff(Front(history), key, e.at - window, end - window);
      }
    }
  }

  // ---------------------------------------------------------------- what a deque keeps

  function Later(times: seq<real>, cutoff: real): seq<real> {
    if times == [] then [] else (if times[0] > cutoff then [times[0]] else []) + Later(times[1..], cutoff)
  }

  predicate Sorted(times: seq<real>) { forall i, j :: 0 <= i < j < |times| ==> times[i] <= times[j] }

  lemma {:induction false} LaterAppend(times: seq<real>, at: real, cutoff: real)
    ensures Later(times + [at], cutoff) == Later(times, cutoff) + if at > cutoff then [at] else []
    decreases |times|
  {
    if times == [] {
      assert times + [at] == [at];
    } else {
      var first, last := if times[0] > cutoff then [times[0]] else [], if at > cutoff then [at] else [];
      assert (times + [at])[0] == times[0] && (times + [at])[1..] == times[1..] + [at];
      LaterAppend(times[1..], at, cutoff);
      assert first + (Later(times[1..], cutoff) + last) == first + Later(times[1..], cutoff) + last;
    }
  }

  lemma {:induction false} AllLater(times: seq<real>, cutoff: real)
    requires Sorted(times) && (times != [] ==> times[0] > cutoff)
    ensures Later(times, cutoff) == times
    decreases |times|
  {
    if times != [] {
      AllLater(times[1..], cutoff);
      assert times == [times[0]] + times[1..];
    }
  }

  /** The deque agrees with the history on every window that can still be asked about. */
  ghost predicate Keeps(times: seq<real>, history: seq<Accepted>, key: string, since: real) {
    && Sorted(times)
    && (forall cutoff :: cutoff >= since ==> Later(times, cutoff) == Live(history, key, cutoff))
    && (forall i :: 0 <= i < |times| ==> Accepted(key, times[i]) in history)
  }

  /** What accepting an event does to a deque. */
  lemma KeepsAccept(times: seq<real>, history: seq<Accepted>, key: string, since: real, e: Accepted)
    requires Keeps(times, history, key, since) && UpTo(history, e.at)
    ensures e.key == key ==> Keeps(times + [e.at], history + [e], key, since)
    ensures e.key != key ==> Keeps(times, history + [e], key, since)
  {
    assert Front(history + [e]) == history && Last(history + [e]) == e;
    forall cutoff | cutoff >= since
      ensures Later(times + [e.at], cutoff) == Later(times, cutoff) + if e.at > cutoff then [e.at] else []
    {
      LaterAppend(times, e.at, cutoff);
    }
    forall i | 0 <= i < |times|
      ensures times[i] <= e.at
    {
      assert Accepted(key, times[i]) in history;
    }
  }

  function Deque(events: map<string, seq<real>>, key: string): seq<real> {
    if key in events then events[key] else []
  }

  ghost predicate AllKept(events: map<string, seq<real>>, history: seq<Accepted>, since: real) {
    forall key :: Keeps(Deque(events, key), history, key, since)
  }

  lemma KeptLater(events: map<string, seq<real>>, history: seq<Accepted>, since: real, later: real)
    requires AllKept(events, history, since) && since <= later
    ensures AllKept(events, history, later)
  {
    forall key
      ensures Keeps(Deque(events, key), history, key, later)
    {
      assert Keeps(Deque(events, key), history, key, since);
    }
  }

  /** One key's turn: its expired events are gone, and the event is there if it was accepted. */
  lemma KeptAdmit(events: map<string, seq<real>>, history: seq<Accepted>, since: real, key: string, times: seq<real>, e: Accepted,
                  limit: nat, window: real)
    requires AllKept(events, history, since) && Keeps(times, history, key, since) && e.key == key && Orderly(history, limit, window, e.at)
    ensures AllKept(events[key := times + [e.at]], history + [e], since)
  {
    assert Limited(history, limit, window);
    var accepted := events[key := times + [e.at]];
    forall k
      ensures Keeps(Deque(accepted, k), history + [e], k, since)
    {
      assert Keeps(Deque(events, k), history, k, since);
      KeepsAccept(Deque(events, k), history, k, since, e);
      KeepsAccept(times, history, key, since, e);
    }
  }

  lemma KeptRefuse(events: map<string, seq<real>>, history: seq<Accepted>, since: real, key: string, times: seq<real>)
    requires AllKept(events, history, since) && Keeps(times, history, key, since)
    ensures AllKept(events[key := times], history, since)
  {
    var refused := events[key := times];
    forall k
      ensures Keeps(Deque(refused, k), history, k, since)
    {
      assert Keeps(Deque(events, k), history, k, since);
    }
  }

  lemma Places(events: map<string, seq<real>>, key: string, times: seq<real>)
    ensures |events[key := times]| == |events| + if key in events then 0 else 1
  {
    assert events[key := times].Keys == events.Keys + {key};
  }

  lemma PresentKey(events: map<string, seq<real>>, history: seq<Accepted>, since: real, key: string)
    requires AllKept(events, history, since)
    ensures Keeps(Deque(events, key), history, key, since)
  {
  }

  lemma AbsentKey(events: map<string, seq<real>>, history: seq<Accepted>, since: real, key: string)
    requires AllKept(events, history, since) && key !in events
    ensures Live(history, key, since) == []
  {
    assert Keeps(Deque(events, key), history, key, since);
    assert Live(history, key, since) == Later([], since);
  }

  /** A history that kept to the limit up to now.  (The quantifier keeps the recursive definition
      folded.) */
  ghost predicate Orderly(history: seq<Accepted>, limit: nat, window: real, clock: real) {
    forall h :: h == history ==> Limited(h, limit, window) && UpTo(h, clock)
  }

  lemma OrderlyAppend(history: seq<Accepted>, limit: nat, window: real, e: Accepted)
    requires Orderly(history, limit, window, e.at) && |Live(history, e.key, e.at - window)| < limit
    ensures Orderly(history + [e], limit, window, e.at)
  {
    assert Limited(history, limit, window);
    assert Front(history + [e]) == history && Last(history + [e]) == e;
  }

  /** Which keys a cleanup has dealt with, and how. */
  ghost predicate Cleaned(kept: map<string, seq<real>>, events: map<string, seq<real>>, left: set<string>,
                          history: seq<Accepted>, cutoff: real) {
    && left <= events.Keys && kept.Keys <= events.Keys
    && (forall key :: key in kept ==> kept[key] == Live(history, key, cutoff) != [] && Keeps(kept[key], history, key, cutoff))
    && (forall key :: key in events && key !in left && key !in kept ==> Live(history, key, cutoff) == [])
  }

  /** Each of the keys has an event after the cutoff. */
  ghost predicate Current(keys: set<string>, history: seq<Accepted>, cutoff: real) {
    forall k :: k in keys ==> Live(history, k, cutoff) != []
  }

  lemma FewerCurrent(keys: set<string>, fewer: set<string>, history: seq<Accepted>, cutoff: real)
    requires Current(keys, history, cutoff) && fewer <= keys
    ensures Current(fewer, history, cutoff)
  {
  }

  lemma CleanedUp(kept: map<string, seq<real>>, events: map<string, seq<real>>, history: seq<Accepted>, since: real, cutoff: real)
    requires AllKept(events, history, since) && since <= cutoff && Cleaned(kept, events, {}, history, cutoff)
    ensures AllKept(kept, history, cutoff) && |kept| <= |events|
    ensures forall key :: key in kept <==> Live(history, key, cutoff) != []
    ensures Current(kept.Keys, history, cutoff)
  {
    Fewer(kept.Keys, events.Keys);
    forall key
      ensures Keeps(Deque(kept, key), history, key, cutoff)
      ensures key in kept <==> Live(history, key, cutoff) != []
    {
      if key !in kept {
        assert Keeps(Deque(events, key), history, key, since);
        GoneKeepsNothing(Deque(events, key), history, key, since, cutoff);
      }
    }
  }

  class SlidingWindowRateLimiter {
    const limit: nat
    const window: real
    const maxKeys: Option<nat>
    var events: map<string, seq<real>>
    var lastCleanup: real
    ghost var history: seq<Accepted>
    ghost var clock: real

    ghost predicate Valid()
      reads this`events, this`history, this`clock
    {
      && window >= 0.0 && Orderly(history, limit, window, clock)
      && AllKept(events, history, clock - window)
      && (maxKeys.Some? ==> |events| <= maxKeys.value)
    }

    constructor (limit: nat, window: real, maxKeys: Option<nat>, now: real)
      requires window >= 0.0
      ensures Valid() && history == [] && clock == now && events == map[]
      ensures this.limit == limit && this.window == window && this.maxKeys == maxKeys
    {
      this.limit, this.window, this.maxKeys := limit, window, maxKeys;
      events, lastCleanup := map[], now;
      history, clock := [], now;
    }

    /** Drops what no window from now on can contain. */
    method Expire(times: seq<real>, cutoff: real, ghost key: string) returns (rest: seq<real>)
      requires Keeps(times, history, key, cutoff)
      ensures rest == Live(history, key, cutoff) && Keeps(rest, history, key, cutoff)
    {
      rest := times;
      while rest != [] && rest[0] <= cutoff
        invariant Keeps(rest, history, key, cutoff)
        decreases |rest|
      {
        rest := rest[1..];
      }
      AllLater(rest, cutoff);
    }

    /** The deques that still hold something after the cutoff. */
    method Unexpired(cutoff: real) returns (kept: map<string, seq<real>>)
      requires AllKept(events, history, cutoff)
      ensures Cleaned(kept, events, {}, history, cutoff)
    {
      kept := map[];
      var left := events.Keys;
      while left != {}
        invariant Cleaned(kept, events, left, history, cutoff)
        decreases |left|
      {
        var key :| key in left;
        assert Keeps(Deque(events, key), history, key, cutoff);
        var rest := Expire(events[key], cutoff, key);
        if rest != [] {
          kept := kept[key := rest];
        }
        left := left - {key};
      }
    }

    /** Afterwards exactly the keys with an event after the cutoff are left. */
    method Cleanup(cutoff: real)
      requires Valid() && cutoff == clock - window
      modifies this`events
      ensures Valid() && |events| <= |old(events)| && events.Keys <= old(events).Keys
      ensures forall key :: key in events <==> Live(history, key, cutoff) != []
      ensures Current(events.Keys, history, cutoff)
    {
      var kept := Unexpired(cutoff);
      CleanedUp(kept, events, history, cutoff, cutoff);
      events := kept;
    }

    /** Time passes; what is kept still answers for the windows to come. */
    ghost method Advance(now: real)
      requires Valid() && now >= clock
      modifies this`clock
      ensures Valid() && clock == now
    {
      assert Limited(history, limit, window);
      KeptLater(events, history, clock - window, now - window);
      clock := now;
    }

    /** Whether the event is accepted: exactly if fewer than `limit` of the key's accepted events
        lie in the window that ends now, except that a key without a place is refused while
        `maxKeys` other keys have an event in that window.  A key that had its turn keeps just its
        events in the window, and once a window has passed since the last cleanup every other key
        that has none loses its place. */
    method Allow(key: string, now: real) returns (ok: bool)
      requires Valid() && now >= clock
      modifies this`events, this`lastCleanup, this`history, this`clock
      ensures Valid() && clock == now
      ensures history == if ok then old(history) + [Accepted(key, now)] else old(history)
      ensures ok ==> |InWindow(old(history), key, window, now)| < limit
      ensures maxKeys.None? ==> (ok <==> |InWindow(old(history), key, window, now)| < limit)
      ensures !ok && |InWindow(old(history), key, window, now)| < limit ==> Full(key, old(history), now)
      ensures lastCleanup == if now - old(lastCleanup) >= window then now else old(lastCleanup)
      ensures now - old(lastCleanup) >= window ==> Current(events.Keys - {key}, old(history), now - window)
      ensures key in events || Full(key, old(history), now)
      ensures key in events ==> events[key] == Live(old(history), key, now - window) + if ok then [now] else []
    {
      assert Limited(history, limit, window);
      WindowIsLive(history, key, window, now);
      Advance(now);
      Tidy(now);
      ghost var tidied := events.Keys;
      ok := Decide(key, now);
      if now - old(lastCleanup) >= window {
        FewerCurrent(tidied, events.Keys - {key}, old(history), now - window);
      }
    }

    /** The same for the tidied keys. */
    method Decide(key: string, now: real) returns (ok: bool)
      requires Valid() && clock == now
      modifies this`events, this`history
      ensures Valid() && events.Keys - {key} <= old(events).Keys
      ensures history == if ok then old(history) + [Accepted(key, now)] else old(history)
      ensures ok ==> |Live(old(history), key, now - window)| < limit
      ensures maxKeys.None? ==> (ok <==> |Live(old(history), key, now - window)| < limit)
      ensures !ok && |Live(old(history), key, now - window)| < limit ==> Full(key, old(history), now)
      ensures key in events || Full(key, old(history), now)
      ensures key in events ==> events[key] == Live(old(history), key, now - window) + if ok then [now] else []
    {
      var room := MakeRoom(key, now);
      if !room {
        return false;
      }
      ok := Admit(key, now);
    }

    /** The cleanup that comes round once in a window. */
    method Tidy(now: real)
      requires Valid() && clock == now
      modifies this`events, this`lastCleanup
      ensures Valid() && events.Keys <= old(events).Keys
      ensures lastCleanup == if now - old(lastCleanup) >= window then now else old(lastCleanup)
      ensures now - old(lastCleanup) >= window ==> Current(events.Keys, history, now - window)
    {
      if now - lastCleanup >= window {
        Cleanup(now - window);
        lastCleanup := now;
      }
    }

    /** Whether there is a place for the key, if need be after another cleanup. */
    method MakeRoom(key: string, now: real) returns (room: bool)
      requires Valid() && clock == now
      modifies this`events
      ensures Valid()
      ensures room ==> maxKeys.None? || key in events || |events| < maxKeys.value
      ensures !room ==> Full(key, history, now)
      ensures events.Keys <= old(events).Keys
    {
      if maxKeys.None? || key in events || |events| < maxKeys.value {
        return true;
      }
      AbsentKey(events, history, now - window, key);
      Cleanup(now - window);
      room := |events| < maxKeys.value;
    }

    /** As many other keys as there are places have an event in the window. */
    ghost predicate Full(key: string, history: seq<Accepted>, now: real)
      reads this
    {
      && maxKeys.Some? && |events| == maxKeys.value && key !in events
      && forall k :: k in events ==> Live(history, k, now - window) != []
    }

    /** The key's deque without what has left the window. */
    method Remaining(key: string, now: real) returns (times: seq<real>)
      requires Valid() && clock == now
      ensures times == Live(history, key, now - window) && Keeps(times, history, key, now - window)
    {
      PresentKey(events, history, now - window, key);
      times := Expire(Deque(events, key), now - window, key);
    }

    /** The decision itself, for a key that has a place. */
    method Admit(key: string, now: real) returns (ok: bool)
      requires Valid() && clock == now && (maxKeys.Some? && key !in events ==> |events| < maxKeys.value)
      modifies this`events, this`history
      ensures Valid()
      ensures history == if ok then old(history) + [Accepted(key, now)] else old(history)
      ensures ok <==> |Live(old(history), key, now - window)| < limit
      ensures events == old(events)[key := Live(old(history), key, now - window) + if ok then [now] else []]
    {
      var times := Remaining(key, now);
      ok := |times| < limit;
      if ok {
        Append(key, times, now);
      } else {
        Retain(key, times);
        assert times + [] == times;
      }
    }

    method Retain(key: string, times: seq<real>)
      requires Valid() && (maxKeys.Some? && key !in events ==> |events| < maxKeys.value)
      requires Keeps(times, history, key, clock - window)
      modifies this`events
      ensures Valid() && events == old(events)[key := times]
    {
      KeptRefuse(events, history, clock - window, key, times);
      Places(events, key, times);
      events := events[key := times];
    }

    method Append(key: string, times: seq<real>, now: real)
      requires Valid() && clock == now && (maxKeys.Some? && key !in events ==> |events| < maxKeys.value)
      requires Keeps(times, history, key, now - window) && |Live(history, key, now - window)| < limit
      modifies this`events, this`history
      ensures Valid() && history == old(history) + [Accepted(key, now)] && events == old(events)[key := times + [now]]
    {
      ghost var e := Accepted(key, now);
      KeptAdmit(events, history, now - window, key, times, e, limit, window);
      OrderlyAppend(history, limit, window, e);
      Places(events, key, times + [now]);
      history := history + [e];
      events := events[key := times + [now]];
    }

    /** Whatever was asked of the limiter, no window of a key ever held more than `limit`. */
    lemma NeverMoreThanLimit(key: string, end: real)
      requires Valid()
      ensures |InWindow(history, key, window, end)| <= limit
    {
      assert Limited(history, limit, window);
      WindowIsNeverOverfull(history, limit, window, key, end);
    }
  }

  lemma GoneKeepsNothing(times: seq<real>, history: seq<Accepted>, key: string, since: real, cutoff: real)
    requires Keeps(times, history, key, since) && since <= cutoff && (times == [] || Live(history, key, cutoff) == [])
    ensures Live(history, key, cutoff) == [] && Keeps([], history, key, cutoff)
  {
    assert Later(times, cutoff) == Live(history, key, cutoff);
    forall c | c >= cutoff
      ensures Live(history, key, c) == []
    {
      LaterCutoff(history, key, cutoff, c);
    }
  }

  // ---------------------------------------------------------------- minimum intervals

  /** When the key was last accepted. */
  function LastTime(history: seq<Accepted>, key: string): Option<real> {
    if history == [] then None
    else if Last(history).key == key then Some(Last(history).at) else LastTime(Front(history), key)
  }

  ghost predicate AcceptedSince(history: seq<Accepted>, key: string, since: real) {
    exists e :: e in history && e.key == key && e.at >= since
  }

  /** Each of `others`, all different from `key`, was accepted at `since` or later. */
  ghost predicate Since(history: seq<Accepted>, key: string, since: real, others: set<string>) {
    key !in others && forall k :: k in others ==> AcceptedSince(history, k, since)
  }

  /** At least `n` other keys were accepted since then. */
  ghost predicate Crowded(history: seq<Accepted>, key: string, since: real, n: int) {
    exists others :: Since(history, key, since, others) && |others| >= n
  }

  lemma CrowdedAppend(history: seq<Accepted>, key: string, since: real, n: int, e: Accepted)
    requires Crowded(history, key, since, n)
    ensures Crowded(history + [e], key, since, n)
  {
    var others :| Since(history, key, since, others) && |others| >= n;
    var more := history + [e];
    forall k | k in others
      ensures AcceptedSince(more, k, since)
    {
      assert AcceptedSince(history, k, since);
      var a :| a in history && a.key == k && a.at >= since;
      assert a in more;
    }
    assert Since(more, key, since, others);
  }

  lemma {:induction false} LastTimeIsAccepted(history: seq<Accepted>, key: string)
    ensures LastTime(history, key).Some? ==> Accepted(key, LastTime(history, key).value) in history
  {
    if history != [] && Last(history).key != key {
      LastTimeIsAccepted(Front(history), key);
    }
  }

  /** What the limiter still remembers of a key, and why if it remembers nothing. */
  ghost predicate Remembers(last: map<string, real>, history: seq<Accepted>, key: string, places: nat) {
    match LastTime(history, key)
    case None => key !in last
    case Some(t) => if key in last then last[key] == t else Crowded(history, key, t, places - 1)
  }

  ghost predicate AllRemembered(last: map<string, real>, history: seq<Accepted>, places: nat) {
    forall key :: Remembers(last, history, key, places)
  }

  /** Forgetting the key that was accepted first, when every place is taken. */
  lemma EvictOldest(last: map<string, real>, history: seq<Accepted>, places: nat, oldest: string)
    requires AllRemembered(last, history, places) && |last| >= places && oldest in last
    requires forall k :: k in last ==> last[oldest] <= last[k]
    ensures AllRemembered(last - {oldest}, history, places)
  {
    var others := last.Keys - {oldest};
    assert Remembers(last, history, oldest, places);
    forall k | k in others
      ensures AcceptedSince(history, k, last[oldest])
    {
      assert Remembers(last, history, k, places);
      LastTimeIsAccepted(history, k);
      assert Accepted(k, last[k]) in history;
    }
    assert Since(history, oldest, last[oldest], others) && |others| >= places - 1;
    forall key
      ensures Remembers(last - {oldest}, history, key, places)
    {
      assert Remembers(last, history, key, places);
    }
  }

  lemma RememberAccepted(last: map<string, real>, history: seq<Accepted>, places: nat, e: Accepted)
    requires AllRemembered(last, history, places)
    ensures AllRemembered(last[e.key := e.at], history + [e], places)
  {
    var after, more := last[e.key := e.at], history + [e];
    forall key
      ensures Remembers(after, more, key, places)
    {
      assert Remembers(last, history, key, places);
      assert Front(more) == history && Last(more) == e;
      if key != e.key && LastTime(history, key).Some? && key !in last {
        CrowdedAppend(history, key, LastTime(history, key).value, places - 1, e);
      }
    }
  }

  function Ceiling(x: real): int { if (x.Floor as real) < x then x.Floor + 1 else x.Floor }

  class MinimumIntervalRateLimiter {
    const maxEntries: nat
    var last: map<string, real>
    ghost var history: seq<Accepted>

    ghost predicate Valid()
      reads this
    {
      maxEntries > 0 && |last| <= maxEntries && AllRemembered(last, history, maxEntries)
    }

    constructor (maxEntries: nat)
      requires maxEntries > 0
      ensures Valid() && history == [] && this.maxEntries == maxEntries
    {
      this.maxEntries := maxEntries;
      last, history := map[], [];
    }

    method Oldest() returns (oldest: string)
      requires last != map[]
      ensures oldest in last && forall k :: k in last ==> last[oldest] <= last[k]
    {
      var left := last.Keys;
      oldest :| oldest in left;
      left := left - {oldest};
      while left != {}
        invariant oldest in last && left <= last.Keys
        invariant forall k :: k in last && k !in left ==> last[oldest] <= last[k]
        decreases |left|
      {
        var k :| k in left;
        if last[k] < last[oldest] {
          oldest := k;
        }
        left := left - {k};
      }
    }

    /** A refusal means the key was accepted less than the interval ago and says how many whole
        seconds to wait; an acceptance means it was not, unless all places but one were taken by
        other keys since. */
    method Check(key: string, interval: real, now: real) returns (ok: bool, wait: int)
      requires Valid()
      modifies this`last, this`history
      ensures Valid() && history == if ok then old(history) + [Accepted(key, now)] else old(history)
      ensures !ok ==> LastTime(old(history), key).Some? && now - LastTime(old(history), key).value < interval
      ensures !ok ==> wait >= 1 && (now - LastTime(old(history), key).value) + (wait as real) >= interval
      ensures !ok && wait > 1 ==> (now - LastTime(old(history), key).value) + ((wait - 1) as real) < interval
      ensures ok ==> wait == 0 && Allowed(old(history), key, interval, now)
    {
      assert Remembers(last, history, key, maxEntries);
      if key in last && now - last[key] < interval {
        var remaining := interval - (now - last[key]);
        return false, if Ceiling(remaining) > 1 then Ceiling(remaining) else 1;
      }
      if |last| >= maxEntries {
        assert last != map[];
        var oldest := Oldest();
        EvictOldest(last, history, maxEntries, oldest);
        Removed(last, oldest);
        last := last - {oldest};
      }
      RememberAccepted(last, history, maxEntries, Accepted(key, now));
      Added(last, key, now);
      last := last[key := now];
      history := history + [Accepted(key, now)];
      return true, 0;
    }

    ghost predicate Allowed(history: seq<Accepted>, key: string, interval: real, now: real) {
      match LastTime(history, key)
      case None => true
      case Some(t) => now - t >= interval || Crowded(history, key, t, maxEntries - 1)
    }
  }

  lemma Removed(last: map<string, real>, key: string)
    requires key in last
    ensures |last - {key}| == |last| - 1
  {
    assert (last - {key}).Keys == last.Keys - {key};
  }

  lemma Added(last: map<string, real>, key: string, at: real)
    ensures |last[key := at]| <= |last| + 1
  {
    assert last[key := at].Keys == last.Keys + {key};
  }

  lemma Fewer<T>(a: set<T>, b: set<T>)
    requires a <= b
    ensures |a| <= |b|
  {
    assert b == a + (b - a);
  }
}
