/** The sliding-window rate limiter: one list of accepted times per key, pruned on every check. */
module RateLimit {

  type Times = seq<real>
  type Requests = map<string, Times>

  /** The times after the cutoff. */
  function Active(ts: Times, cutoff: real): Times {
    if ts == [] then []
    else Active(ts[..|ts|-1], cutoff) + if ts[|ts|-1] > cutoff then [ts[|ts|-1]] else []
  }

  function TimesOf(r: Requests, key: string): Times { if key in r then r[key] else [] }

  function Allows(r: Requests, key: string, limit: int, window: real, now: real): bool {
    |Active(TimesOf(r, key), now - window)| < limit
  }

  function Checked(r: Requests, key: string, limit: int, window: real, now: real): Requests {
    var active := Active(TimesOf(r, key), now - window);
    r[key := if |active| < limit then active + [now] else active]
  }

  function Remaining(r: Requests, key: string, limit: int, window: real, now: real): int {
    var n := limit - |Active(TimesOf(r, key), now - window)|;
    if n > 0 then n else 0
  }

  class RateLimiter {
    var requests: Requests

    constructor ()
      ensures requests == map[]
    {
      requests := map[];
    }

    method Check(key: string, limit: int, window: real, now: real) returns (ok: bool)
      modifies this
      ensures ok == Allows(old(requests), key, limit, window, now)
      ensures requests == Checked(old(requests), key, limit, window, now)
    {
      var cutoff := now - window;
      if key !in requests {
        requests := requests[key := []];
      }
      var kept: Times := [];
      for i := 0 to |requests[key]|
        invariant key in requests && requests[key] == TimesOf(old(requests), key)
        invariant forall k :: k != key ==> (k in requests <==> k in old(requests)) && (k in requests ==> requests[k] == old(requests)[k])
        invariant kept == Active(requests[key][..i], cutoff)
      {
        assert requests[key][..i+1][..i] == requests[key][..i];
        if requests[key][i] > cutoff {
          kept := kept + [requests[key][i]];
        }
      }
      assert requests[key][..|requests[key]|] == requests[key];
      requests := requests[key := kept];
      if |kept| >= limit {
        ok := false;
      } else {
        requests := requests[key := requests[key] + [now]];
        ok := true;
      }
    }

    method Reset(key: string)
      modifies this
      ensures requests == old(requests) - {key}
    {
      requests := requests - {key};
    }

    method GetRemaining(key: string, limit: int, window: real, now: real) returns (n: int)
      ensures n == Remaining(requests, key, limit, window, now)
    {
      var active := Active(TimesOf(requests, key), now - window);
      n := if limit - |active| > 0 then limit - |active| else 0;
    }
  }

  /** A check succeeds exactly when requests remain. */
  lemma AllowsIffRemaining(r: Requests, key: string, limit: int, window: real, now: real)
    ensures Allows(r, key, limit, window, now) <==> Remaining(r, key, limit, window, now) > 0
  {
  }

  // ----- whole runs of checks -----

  datatype Call = Call(key: string, time: real)

  ghost predicate InOrder(calls: seq<Call>) {
    forall i, j :: 0 <= i <= j < |calls| ==> calls[i].time <= calls[j].time
  }

  /** The limiter's lists after a run of checks with one limit and window. */
  function Run(calls: seq<Call>, limit: int, window: real): Requests {
    if calls == [] then map[]
    else
      var c := calls[|calls|-1];
      Checked(Run(calls[..|calls|-1], limit, window), c.key, limit, window, c.time)
  }

  /** The verdict of the last call. */
  function LastAccepted(calls: seq<Call>, limit: int, window: real): bool
    requires calls != []
  {
    var c := calls[|calls|-1];
    Allows(Run(calls[..|calls|-1], limit, window), c.key, limit, window, c.time)
  }

  /** The complete history: every accepted time of a key, never pruned. */
  function Accepted(calls: seq<Call>, key: string, limit: int, window: real): Times {
    if calls == [] then []
    else
      Accepted(calls[..|calls|-1], key, limit, window)
      + if calls[|calls|-1].key == key && LastAccepted(calls, limit, window) then [calls[|calls|-1].time] else []
  }

  /** How many of ts lie in (lo, hi]. */
  function CountIn(ts: Times, lo: real, hi: real): nat {
    if ts == [] then 0
    else CountIn(ts[..|ts|-1], lo, hi) + if lo < ts[|ts|-1] <= hi then 1 else 0
  }

  lemma {:induction false} ActiveConcat(a: Times, b: Times, cutoff: real)
    ensures Active(a + b, cutoff) == Active(a, cutoff) + Active(b, cutoff)
  {
    if b == [] {
      assert a + b == a;
    } else {
      assert (a + b)[..|a + b| - 1] == a + b[..|b| - 1];
      ActiveConcat(a, b[..|b| - 1], cutoff);
    }
  }

  /** Pruning first at an earlier cutoff loses nothing. */
  lemma {:induction false} ActiveTwice(ts: Times, early: real, late: real)
    requires early <= late
    ensures Active(Active(ts, early), late) == Active(ts, late)
  {
    if ts != [] {
      var front, t := ts[..|ts|-1], ts[|ts|-1];
      ActiveTwice(front, early, late);
      ActiveConcat(Active(front, early), if t > early then [t] else [], late);
      ActiveOne(t, late);
    }
  }

  lemma ActiveOne(t: real, cutoff: real)
    ensures Active([t], cutoff) == if t > cutoff then [t] else []
  {
    assert [t][..0] == [];
  }

  lemma {:induction false} CountIsActive(ts: Times, lo: real, hi: real)
    requires forall i :: 0 <= i < |ts| ==> ts[i] <= hi
    ensures CountIn(ts, lo, hi) == |Active(ts, lo)|
  {
    if ts != [] { CountIsActive(ts[..|ts|-1], lo, hi); }
  }

  lemma {:induction false} ActiveShrinks(ts: Times, early: real, late: real)
    requires early <= late
    ensures |Active(ts, late)| <= |Active(ts, early)|
  {
    if ts != [] { ActiveShrinks(ts[..|ts|-1], early, late); }
  }

  lemma {:induction false} AcceptedAreOld(calls: seq<Call>, key: string, limit: int, window: real, now: real)
    requires forall i :: 0 <= i < |calls| ==> calls[i].time <= now
    ensures forall i :: 0 <= i < |Accepted(calls, key, limit, window)| ==> Accepted(calls, key, limit, window)[i] <= now
  {
    if calls != [] { AcceptedAreOld(calls[..|calls|-1], key, limit, window, now); }
  }

  lemma InOrderFront(calls: seq<Call>)
    requires calls != [] && InOrder(calls)
    ensures var front := calls[..|calls|-1];
            InOrder(front) && forall i :: 0 <= i < |front| ==> front[i].time <= calls[|calls|-1].time
  {
  }

  lemma AcceptedStep(calls: seq<Call>, key: string, limit: int, window: real)
    requires calls != []
    ensures Accepted(calls, key, limit, window)
         == if calls[|calls|-1].key == key && LastAccepted(calls, limit, window)
            then Accepted(calls[..|calls|-1], key, limit, window) + [calls[|calls|-1].time]
            else Accepted(calls[..|calls|-1], key, limit, window)
  {
    var before := Accepted(calls[..|calls|-1], key, limit, window);
    assert before + [] == before;
  }

  /** What a check does to the active times of a key at a cutoff no earlier than its own. */
  lemma CheckedActive(r: Requests, c: Call, key: string, limit: int, window: real, cutoff: real)
    requires cutoff >= c.time - window
    ensures Active(TimesOf(Checked(r, c.key, limit, window, c.time), key), cutoff)
         == if c.key == key && Allows(r, c.key, limit, window, c.time)
            then Active(TimesOf(r, key), cutoff) + Active([c.time], cutoff)
            else Active(TimesOf(r, key), cutoff)
  {
    hide Active;
    if c.key == key {
      var active := Active(TimesOf(r, key), c.time - window);
      ActiveTwice(TimesOf(r, key), c.time - window, cutoff);
      ActiveConcat(active, [c.time], cutoff);
    }
  }

  /** From the last call on, the pruned list and the full history have the same active times. */
  lemma {:induction false} PrunedIsEnough(calls: seq<Call>, key: string, limit: int, window: real, cutoff: real)
    requires InOrder(calls)
    requires calls != [] ==> cutoff >= calls[|calls|-1].time - window
    ensures Active(TimesOf(Run(calls, limit, window), key), cutoff) == Active(Accepted(calls, key, limit, window), cutoff)
  {
    hide InOrder, Active, Checked, Accepted, TimesOf;
    if calls == [] {
      NothingYet(key, limit, window);
    } else {
      var front, c := calls[..|calls|-1], calls[|calls|-1];
      InOrderFront(calls);
      PrunedIsEnough(front, key, limit, window, cutoff);
      AcceptedStep(calls, key, limit, window);
      CheckedActive(Run(front, limit, window), c, key, limit, window, cutoff);
      ActiveConcat(Accepted(front, key, limit, window), [c.time], cutoff);
    }
  }

  lemma NothingYet(key: string, limit: int, window: real)
    ensures Accepted([], key, limit, window) == [] == TimesOf(map[], key)
  {
  }

  /** A call is accepted exactly when the window before it holds fewer than limit accepted calls of its key. */
  lemma AcceptedIffWindowNotFull(calls: seq<Call>, limit: int, window: real)
    requires calls != [] && InOrder(calls)
    ensures var c := calls[|calls|-1];
            var before := Accepted(calls[..|calls|-1], c.key, limit, window);
            LastAccepted(calls, limit, window) <==> CountIn(before, c.time - window, c.time) < limit
  {
    hide InOrder, Active, Accepted, TimesOf, Run, CountIn;
    var front, c := calls[..|calls|-1], calls[|calls|-1];
    InOrderFront(calls);
    PrunedIsEnough(front, c.key, limit, window, c.time - window);
    AcceptedAreOld(front, c.key, limit, window, c.time);
    CountIsActive(Accepted(front, c.key, limit, window), c.time - window, c.time);
  }

  /** Over the whole history, no interval (x - window, x] holds more than limit accepted calls of a key. */
  lemma {:induction false} NoWindowOverflows(calls: seq<Call>, key: string, limit: int, window: real, x: real)
    requires InOrder(calls)
    ensures CountIn(Accepted(calls, key, limit, window), x - window, x) <= if limit > 0 then limit else 0
  {
    hide InOrder, Active, Run, LastAccepted, Accepted;
    if calls == [] {
      NothingYet(key, limit, window);
    } else {
      var front, c := calls[..|calls|-1], calls[|calls|-1];
      InOrderFront(calls);
      NoWindowOverflows(front, key, limit, window, x);
      AcceptedStep(calls, key, limit, window);
      var before := Accepted(front, key, limit, window);
      if c.key == key && LastAccepted(calls, limit, window) {
        assert (before + [c.time])[..|before|] == before;
        if c.time <= x {
          AcceptedIffWindowNotFull(calls, limit, window);
          AcceptedAreOld(front, key, limit, window, c.time);
          CountIsActive(before, x - window, x);
          CountIsActive(before, c.time - window, c.time);
          ActiveShrinks(before, c.time - window, x - window);
        }
      }
    }
  }

  /** What remains at any later moment is the limit less the accepted calls of the key in the window, over the full history. */
  lemma RemainingIsExact(calls: seq<Call>, key: string, limit: int, window: real, now: real)
    requires InOrder(calls) && forall i :: 0 <= i < |calls| ==> calls[i].time <= now
    ensures var used := CountIn(Accepted(calls, key, limit, window), now - window, now);
            Remaining(Run(calls, limit, window), key, limit, window, now) == if used < limit then limit - used else 0
  {
    assert calls != [] ==> calls[|calls|-1].time <= now;
    PrunedIsEnough(calls, key, limit, window, now - window);
    AcceptedAreOld(calls, key, limit, window, now);
    CountIsActive(Accepted(calls, key, limit, window), now - window, now);
    hide InOrder, Active, Accepted, TimesOf, Run, CountIn;
  }
}
