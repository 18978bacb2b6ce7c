// The fixed-window rate limiter with lazy cleanup and a Redis-first, local-fallback path.
module RateLimit {

  datatype Bucket = Bucket(window: int, count: nat)

  // One request on the local path: its key and the clock reading, in nanoseconds.
  datatype Call = Call(key: string, at: int)

  const MINUTE: int := 60_000_000_000
  const CLEANUP_SIZE: nat := 512

  // The window of a clock reading: the reading truncated to the minute, as a minute number.
  function Window(at: int): int { at / MINUTE }

  // A window is a minute of 60 seconds on the minute.
  lemma WindowIsMinute(at: int, window: int)
    ensures Window(at) == window <==> window * 60_000_000_000 <= at < (window + 1) * 60_000_000_000
  {
  }

  // ---- the bucket map as a function of the calls ---------------------------------------

  function CleanedUp(local: map<string, Bucket>, current: int): map<string, Bucket> {
    if |local| < CLEANUP_SIZE then local
    else map k | k in local && current <= local[k].window :: local[k]
  }

  function Touched(local: map<string, Bucket>, c: Call): map<string, Bucket> {
    var kept, now := CleanedUp(local, Window(c.at)), Window(c.at);
    kept[c.key := Bucket(now, if c.key in kept && kept[c.key].window == now then kept[c.key].count + 1 else 1)]
  }

  function After(hs: seq<Call>): map<string, Bucket> {
    if hs == [] then map[] else Touched(After(hs[..|hs| - 1]), hs[|hs| - 1])
  }

  lemma AfterAppend(hs: seq<Call>, c: Call)
    ensures After(hs + [c]) == Touched(After(hs), c)
  {
    assert (hs + [c])[..|hs|] == hs;
  }

  // The count the limiter returns for the last of the calls.
  function Returned(hs: seq<Call>): nat
    requires hs != []
  {
    After(hs)[hs[|hs| - 1].key].count
  }

  // ---- the limiter -----------------------------------------------------------------------

  // What Redis answers to the increment: the new counter value, or an error.
  datatype Reply = Down | Counter(value: nat)

  class Limiter {
    const limit: nat
    var local: map<string, Bucket>
    ghost var calls: seq<Call>

    ghost predicate Valid()
      reads this
    {
      local == After(calls)
    }

    constructor (limit: nat)
      ensures Valid() && this.limit == limit && calls == [] && local == map[]
    {
      this.limit := limit;
      local := map[];
      calls := [];
    }

    // Deletes entries from the map while walking over its keys.
    method CleanupLocal(current: int)
      modifies this`local
      ensures local == CleanedUp(old(local), current)
      ensures |old(local)| < 512 ==> local == old(local)
      ensures |old(local)| >= 512 ==> local.Keys == set k | k in old(local) && current <= old(local)[k].window
      ensures forall k :: k in local ==> local[k] == old(local)[k]
    {
      if |local| < CLEANUP_SIZE {
        return;
      }
      var todo := local.Keys;
      while todo != {}
        invariant todo <= old(local).Keys
        invariant local.Keys == set k | k in old(local) && (k in todo || current <= old(local)[k].window)
        invariant forall k :: k in local ==> local[k] == old(local)[k]
        decreases todo
      {
        var key :| key in todo;
        if local[key].window < current {
          local := local - {key};
        }
        todo := todo - {key};
      }
    }

    method IncrementLocal(key: string, at: int) returns (count: nat)
      requires Valid()
      modifies this
      ensures Valid() && calls == old(calls) + [Call(key, at)]
      ensures local == Touched(old(local), Call(key, at)) && count == local[key].count
      ensures count == Returned(calls)
    {
      var now := Window(at);
      CleanupLocal(now);
      var value := if key in local then local[key] else Bucket(now, 0);
      if value.window != now {
        value := Bucket(now, 0);
      }
      value := value.(count := value.count + 1);
      local := local[key := value];
      count := value.count;
      calls := calls + [Call(key, at)];
      AfterAppend(old(calls), Call(key, at));
    }

    // The admission decision of the middleware, with the value of the remaining-requests header.
    method Admit(key: string, at: int, reply: Reply) returns (admitted: bool, remaining: nat)
      requires Valid()
      modifies this
      ensures Valid() && calls == old(calls) + (if reply.Down? then [Call(key, at)] else [])
      ensures var count := if reply.Down? then Returned(calls) else reply.value;
              admitted == (count <= limit) && remaining == (if count <= limit then limit - count else 0)
    {
      var count;
      if reply.Down? {
        count := IncrementLocal(key, at);
      } else {
        count := reply.value;
      }
      admitted := count <= limit;
      remaining := if count <= limit then limit - count else 0;
    }
  }

  // ---- counting the history ---------------------------------------------------------------

  function CallsIn(hs: seq<Call>, key: string, window: int): nat {
    if hs == [] then 0
    else
      var c := hs[|hs| - 1];
      CallsIn(hs[..|hs| - 1], key, window) + (if c.key == key && Window(c.at) == window then 1 else 0)
  }

  // The clock does not fall back to an earlier minute.
  ghost predicate Steady(hs: seq<Call>) {
    forall i, j :: 0 <= i < j < |hs| ==> Window(hs[i].at) <= Window(hs[j].at)
  }

  lemma {:induction false} NoLaterCalls(hs: seq<Call>, key: string, window: int)
    requires forall i :: 0 <= i < |hs| ==> Window(hs[i].at) < window
    ensures CallsIn(hs, key, window) == 0
  {
    if hs != [] { NoLaterCalls(hs[..|hs| - 1], key, window); }
  }

  // Every bucket counts the calls of its key in its window, and keys called in the last window have one.
  ghost predicate CountsHistory(hs: seq<Call>) {
    && (forall k :: k in After(hs) ==> After(hs)[k].count == CallsIn(hs, k, After(hs)[k].window))
    && (hs != [] ==>
          var now := Window(hs[|hs| - 1].at);
          forall k :: (k in After(hs) ==> After(hs)[k].window <= now)
                   && (CallsIn(hs, k, now) > 0 ==> k in After(hs) && After(hs)[k].window == now))
  }

  lemma {:induction false} BucketsCountHistory(hs: seq<Call>)
    requires Steady(hs)
    ensures CountsHistory(hs)
  {
    if hs != [] {
      var front, c := hs[..|hs| - 1], hs[|hs| - 1];
      BucketsCountHistory(front);
      OneMoreCall(front, c);
      assert hs == front + [c];
    }
  }

  lemma OneMoreCall(front: seq<Call>, c: Call)
    requires Steady(front + [c]) && CountsHistory(front)
    ensures CountsHistory(front + [c])
  {
    var hs, now := front + [c], Window(c.at);
    assert hs[..|hs| - 1] == front;
    if front == [] || Window(front[|front| - 1].at) < now {
      forall k ensures CallsIn(front, k, now) == 0 {
        forall i | 0 <= i < |front| ensures Window(front[i].at) < now {
          assert hs[i] == front[i] && hs[|front| - 1] == front[|front| - 1];
        }
        NoLaterCalls(front, k, now);
      }
    } else {
      assert hs[|front| - 1] == front[|front| - 1] && hs[|front|] == c;
    }
  }

  lemma CountsWindow(hs: seq<Call>)
    requires hs != [] && Steady(hs)
    ensures var c := hs[|hs| - 1]; Returned(hs) == CallsIn(hs, c.key, Window(c.at))
  {
    BucketsCountHistory(hs);
  }

  // Calls of a key with clock readings from start up to, but not including, end.
  function CallsBetween(hs: seq<Call>, key: string, start: int, end: int): nat {
    if hs == [] then 0
    else
      var c := hs[|hs| - 1];
      CallsBetween(hs[..|hs| - 1], key, start, end) + (if c.key == key && start <= c.at < end then 1 else 0)
  }

  lemma {:induction false} CallsOfMinute(hs: seq<Call>, key: string, window: int)
    ensures CallsIn(hs, key, window) == CallsBetween(hs, key, window * 60_000_000_000, (window + 1) * 60_000_000_000)
  {
    if hs != [] {
      CallsOfMinute(hs[..|hs| - 1], key, window);
      WindowIsMinute(hs[|hs| - 1].at, window);
    }
  }

  // Refinement: with a steady clock the count returned for a call is the number of calls of its key
  // with a reading in the same minute in the whole history, so lazy cleanup cannot be noticed.
  lemma LimiterCountsHistory(hs: seq<Call>, minute: int)
    requires hs != [] && Steady(hs)
    requires minute * 60_000_000_000 <= hs[|hs| - 1].at < (minute + 1) * 60_000_000_000
    ensures Returned(hs) == CallsBetween(hs, hs[|hs| - 1].key, minute * 60_000_000_000, (minute + 1) * 60_000_000_000)
  {
    var c := hs[|hs| - 1];
    WindowIsMinute(c.at, minute);
    CountsWindow(hs);
    CallsOfMinute(hs, c.key, minute);
  }

  // ---- admissions on the local path ---------------------------------------------------------

  // Admitted calls of a key whose minutes lie between lo and hi.
  function AdmittedIn(hs: seq<Call>, limit: nat, key: string, lo: int, hi: int): nat {
    if hs == [] then 0
    else
      var c := hs[|hs| - 1];
      AdmittedIn(hs[..|hs| - 1], limit, key, lo, hi)
      + (if c.key == key && lo <= Window(c.at) <= hi && Returned(hs) <= limit then 1 else 0)
  }

  lemma {:induction false} WindowAdmits(hs: seq<Call>, limit: nat, key: string, window: int)
    requires Steady(hs)
    ensures var n := CallsIn(hs, key, window);
            AdmittedIn(hs, limit, key, window, window) == if n <= limit then n else limit
  {
    if hs != [] {
      WindowAdmits(hs[..|hs| - 1], limit, key, window);
      CountsWindow(hs);
    }
  }

  lemma {:induction false} AdmittedSplits(hs: seq<Call>, limit: nat, key: string, lo: int, hi: int)
    requires lo < hi
    ensures AdmittedIn(hs, limit, key, lo, hi) == AdmittedIn(hs, limit, key, lo, hi - 1) + AdmittedIn(hs, limit, key, hi, hi)
  {
    if hs != [] { AdmittedSplits(hs[..|hs| - 1], limit, key, lo, hi); }
  }

  lemma {:induction false} WindowsAdmit(hs: seq<Call>, limit: nat, key: string, lo: int, hi: int)
    requires Steady(hs) && lo <= hi
    ensures AdmittedIn(hs, limit, key, lo, hi) <= (hi - lo + 1) * limit
    decreases hi - lo
  {
    WindowAdmits(hs, limit, key, hi);
    if lo < hi {
      WindowsAdmit(hs, limit, key, lo, hi - 1);
      AdmittedSplits(hs, limit, key, lo, hi);
      OneMoreWindow(hi - lo, limit);
    } else {
      OneMoreWindow(0, limit);
    }
  }

  lemma OneMoreWindow(n: nat, limit: nat)
    ensures (n + 1) * limit == n * limit + limit
  {
  }

  // Admitted calls of a key with clock readings from start to end, both included.
  function AdmittedDuring(hs: seq<Call>, limit: nat, key: string, start: int, end: int): nat {
    if hs == [] then 0
    else
      var c := hs[|hs| - 1];
      AdmittedDuring(hs[..|hs| - 1], limit, key, start, end)
      + (if c.key == key && start <= c.at <= end && Returned(hs) <= limit then 1 else 0)
  }

  lemma {:induction false} DuringWithinWindows(hs: seq<Call>, limit: nat, key: string, start: int, end: int)
    ensures AdmittedDuring(hs, limit, key, start, end) <= AdmittedIn(hs, limit, key, Window(start), Window(end))
  {
    if hs != [] { DuringWithinWindows(hs[..|hs| - 1], limit, key, start, end); }
  }

  lemma {:induction false} AdmittedOfMinute(hs: seq<Call>, limit: nat, key: string, window: int)
    ensures AdmittedIn(hs, limit, key, window, window)
         == AdmittedDuring(hs, limit, key, window * 60_000_000_000, (window + 1) * 60_000_000_000 - 1)
  {
    if hs != [] {
      AdmittedOfMinute(hs[..|hs| - 1], limit, key, window);
      WindowIsMinute(hs[|hs| - 1].at, window);
    }
  }

  // Of the n calls of a key with readings in one minute exactly min(n, limit) are admitted.
  lemma WindowAdmitsUpToLimit(hs: seq<Call>, limit: nat, key: string, minute: int)
    requires Steady(hs)
    ensures var start, end := minute * 60_000_000_000, (minute + 1) * 60_000_000_000;
            var n := CallsBetween(hs, key, start, end);
            AdmittedDuring(hs, limit, key, start, end - 1) == if n <= limit then n else limit
  {
    WindowAdmits(hs, limit, key, minute);
    CallsOfMinute(hs, key, minute);
    AdmittedOfMinute(hs, limit, key, minute);
  }

  lemma {:induction false} WindowShifts(start: int, k: nat)
    ensures Window(start + k * MINUTE) == Window(start) + k
  {
    if k > 0 { WindowShifts(start, k - 1); }
  }

  // Any closed interval of k minutes admits at most (k + 1) * limit calls of a key.
  lemma IntervalBound(hs: seq<Call>, limit: nat, key: string, start: int, k: nat)
    requires Steady(hs)
    ensures AdmittedDuring(hs, limit, key, start, start + k * MINUTE) <= (k + 1) * limit
  {
    WindowShifts(start, k);
    DuringWithinWindows(hs, limit, key, start, start + k * MINUTE);
    WindowsAdmit(hs, limit, key, Window(start), Window(start) + k);
  }

  // ---- with Redis that may fail at any call ----------------------------------------------------

  // One request as the middleware sees it.
  datatype Attempt = Attempt(call: Call, reply: Reply)

  // The calls that fell back to the local path.
  function LocalCalls(es: seq<Attempt>): seq<Call> {
    if es == [] then []
    else LocalCalls(es[..|es| - 1]) + (if es[|es| - 1].reply.Down? then [es[|es| - 1].call] else [])
  }

  predicate InWindow(e: Attempt, key: string, window: int) {
    e.call.key == key && Window(e.call.at) == window
  }

  predicate SameCounter(e: Attempt, f: Attempt) {
    e.reply.Counter? && f.reply.Counter? && InWindow(f, e.call.key, Window(e.call.at))
  }

  // INCR on one counter: no two answers for a key and minute are the same, and none is zero. Other
  // instances may increment the counter in between; the counter is not lost within its minute.
  ghost predicate AnswersDiffer(es: seq<Attempt>) {
    && (forall i :: 0 <= i < |es| && es[i].reply.Counter? ==> 1 <= es[i].reply.value)
    && (forall i, j :: 0 <= i < j < |es| && SameCounter(es[i], es[j]) ==> es[i].reply.value != es[j].reply.value)
  }

  predicate AdmittedByRedis(e: Attempt, limit: nat, key: string, window: int) {
    InWindow(e, key, window) && e.reply.Counter? && e.reply.value <= limit
  }

  function RedisAdmitted(es: seq<Attempt>, limit: nat, key: string, window: int): nat {
    if es == [] then 0
    else RedisAdmitted(es[..|es| - 1], limit, key, window) + (if AdmittedByRedis(es[|es| - 1], limit, key, window) then 1 else 0)
  }

  // All requests of a key and minute the middleware let through, on either path.
  function Admitted(es: seq<Attempt>, limit: nat, key: string, window: int): nat {
    if es == [] then 0
    else
      var e := es[|es| - 1];
      var count := if e.reply.Down? then Returned(LocalCalls(es)) else e.reply.value;
      Admitted(es[..|es| - 1], limit, key, window) + (if InWindow(e, key, window) && count <= limit then 1 else 0)
  }

  lemma LocalCallsGrow(es: seq<Attempt>)
    requires es != []
    ensures var local := LocalCalls(es[..|es| - 1]);
            LocalCalls(es) == if es[|es| - 1].reply.Down? then local + [es[|es| - 1].call] else local
  {
  }

  lemma AdmittedAppend(hs: seq<Call>, c: Call, limit: nat, key: string, window: int)
    ensures AdmittedIn(hs + [c], limit, key, window, window)
         == AdmittedIn(hs, limit, key, window, window)
            + (if c.key == key && Window(c.at) == window && Returned(hs + [c]) <= limit then 1 else 0)
  {
    assert (hs + [c])[..|hs|] == hs;
  }

  lemma {:induction false} AdmittedByPath(es: seq<Attempt>, limit: nat, key: string, window: int)
    ensures Admitted(es, limit, key, window)
         == RedisAdmitted(es, limit, key, window) + AdmittedIn(LocalCalls(es), limit, key, window, window)
  {
    if es != [] {
      var front, last := es[..|es| - 1], es[|es| - 1];
      AdmittedByPath(front, limit, key, window);
      LocalCallsGrow(es);
      if last.reply.Down? { AdmittedAppend(LocalCalls(front), last.call, limit, key, window); }
    }
  }

  function AdmittedAnswers(es: seq<Attempt>, limit: nat, key: string, window: int): set<nat> {
    set i | 0 <= i < |es| && AdmittedByRedis(es[i], limit, key, window) :: es[i].reply.value
  }

  // As many requests are admitted as there are different answers to them.
  lemma {:induction false} AdmittedOncePerAnswer(es: seq<Attempt>, limit: nat, key: string, window: int)
    requires AnswersDiffer(es)
    ensures RedisAdmitted(es, limit, key, window) == |AdmittedAnswers(es, limit, key, window)|
  {
    if es != [] {
      var front, last := es[..|es| - 1], es[|es| - 1];
      AdmittedOncePerAnswer(front, limit, key, window);
      var before := AdmittedAnswers(front, limit, key, window);
      if AdmittedByRedis(last, limit, key, window) {
        forall i | 0 <= i < |front| && AdmittedByRedis(front[i], limit, key, window)
          ensures front[i].reply.value != last.reply.value
        {
          assert es[i] == front[i] && SameCounter(front[i], last);
        }
        assert AdmittedAnswers(es, limit, key, window) == before + {last.reply.value};
      } else {
        assert AdmittedAnswers(es, limit, key, window) == before;
      }
    }
  }

  function UpTo(limit: nat): (values: set<nat>)
    ensures forall x :: x in values <==> 1 <= x <= limit
    ensures |values| == limit
  {
    if limit == 0 then {} else UpTo(limit - 1) + {limit}
  }

  lemma RedisBound(es: seq<Attempt>, limit: nat, key: string, window: int)
    requires AnswersDiffer(es)
    ensures RedisAdmitted(es, limit, key, window) <= limit
  {
    AdmittedOncePerAnswer(es, limit, key, window);
    SubsetSize(AdmittedAnswers(es, limit, key, window), UpTo(limit));
  }

  lemma {:induction false} LocalCallsSteady(es: seq<Attempt>, latest: int)
    requires forall i, j :: 0 <= i < j < |es| ==> Window(es[i].call.at) <= Window(es[j].call.at)
    requires forall i :: 0 <= i < |es| ==> Window(es[i].call.at) <= latest
    ensures Steady(LocalCalls(es))
    ensures forall i :: 0 <= i < |LocalCalls(es)| ==> Window(LocalCalls(es)[i].at) <= latest
  {
    if es != [] {
      LocalCallsSteady(es[..|es| - 1], Window(es[|es| - 1].call.at));
    }
  }

  // With any calls to Redis failing, a minute admits at most twice the limit: each counter at most once the limit.
  lemma FallbackBound(es: seq<Attempt>, limit: nat, key: string, window: int)
    requires AnswersDiffer(es)
    requires forall i, j :: 0 <= i < j < |es| ==> Window(es[i].call.at) <= Window(es[j].call.at)
    ensures Admitted(es, limit, key, window) <= 2 * limit
  {
    AdmittedByPath(es, limit, key, window);
    RedisBound(es, limit, key, window);
    LocalCallsSteady(es, if es == [] then 0 else Window(es[|es| - 1].call.at));
    WindowAdmits(LocalCalls(es), limit, key, window);
  }

  // ---- memory ------------------------------------------------------------------------------------

  function KeysIn(hs: seq<Call>, window: int): set<string> {
    set i | 0 <= i < |hs| && Window(hs[i].at) == window :: hs[i].key
  }

  lemma {:induction false} CalledMeansKeyIn(hs: seq<Call>, key: string, window: int)
    requires CallsIn(hs, key, window) > 0
    ensures key in KeysIn(hs, window)
  {
    var front, c := hs[..|hs| - 1], hs[|hs| - 1];
    if !(c.key == key && Window(c.at) == window) {
      CalledMeansKeyIn(front, key, window);
      var i :| 0 <= i < |front| && Window(front[i].at) == window && front[i].key == key;
      assert hs[i] == front[i];
    }
  }

  lemma SubsetSize<T>(s: set<T>, t: set<T>)
    requires s <= t
    ensures |s| <= |t|
  {
    assert t == s + (t - s);
  }

  // Memory: after every call the map has at most as many entries as the larger of 512 and the
  // number of distinct keys called in the current minute.
  lemma MemoryBound(hs: seq<Call>)
    requires hs != [] && Steady(hs)
    ensures var now := KeysIn(hs, Window(hs[|hs| - 1].at));
            |After(hs)| <= if |now| <= 512 then 512 else |now|
  {
    var front, c := hs[..|hs| - 1], hs[|hs| - 1];
    var before, now := After(front), Window(c.at);
    if |before| < CLEANUP_SIZE {
      assert After(hs).Keys == before.Keys + {c.key};
    } else {
      BucketsCountHistory(hs);
      forall k | k in After(hs).Keys ensures k in KeysIn(hs, now) {
        assert now <= After(hs)[k].window;
        BucketsArePositive(hs, k);
        CalledMeansKeyIn(hs, k, now);
      }
      SubsetSize(After(hs).Keys, KeysIn(hs, now));
    }
  }

  lemma {:induction false} BucketsArePositive(hs: seq<Call>, key: string)
    requires key in After(hs)
    ensures After(hs)[key].count >= 1
  {
    if key in After(hs[..|hs| - 1]) { BucketsArePositive(hs[..|hs| - 1], key); }
  }

  // ---- clocks that fall back -----------------------------------------------------------------------

  // Whatever the clock does, no call is counted twice.
  lemma {:induction false} NeverOvercounts(hs: seq<Call>, key: string)
    requires key in After(hs)
    ensures After(hs)[key].count <= CallsIn(hs, key, After(hs)[key].window)
  {
    if key in After(hs[..|hs| - 1]) { NeverOvercounts(hs[..|hs| - 1], key); }
  }

  // The steady clock is needed: a key called at minutes 1, 0 and 1 is told 1 at its second call in minute 1.
  lemma FallingBackForgets(key: string)
    ensures var hs := [Call(key, MINUTE), Call(key, 0), Call(key, MINUTE)];
            !Steady(hs) && Returned(hs) == 1 && CallsIn(hs, key, 1) == 2
  {
    var a, b := Call(key, MINUTE), Call(key, 0);
    var hs := [a, b, a];
    assert hs[..2] == [a, b] && [a, b][..1] == [a] && [a][..0] == [];
    assert After([a]) == map[key := Bucket(1, 1)];
    assert After([a, b]) == map[key := Bucket(0, 1)];
    assert CallsIn([a], key, 1) == 1 && CallsIn([a, b], key, 1) == 1;
    assert Window(hs[0].at) > Window(hs[1].at);
  }
}
