/**
 The rate limiter of the socket: the times of the last sends of each kind in a small array that
 is shifted in place. A send passes if and only if fewer than nine of its kind passed within the
 second before it.
 */
module RateLimiter {
  /** One less than `RREQ_RATELIMIT` and `RERR_RATELIMIT`. */
  const SLOTS: nat := 9
  /** One second, in the milliseconds of `timeval_diff`. */
  const PERIOD: int := 1000

  // ---------- what the limiter is for ----------

  /** How many of the sends in `log` lie less than a second before `now`. */
  function Recent(log: seq<int>, now: int): (n: nat)
    ensures n <= |log|
  {
    if log == [] then 0
    else Recent(log[..|log| - 1], now) + (if now - log[|log| - 1] < PERIOD then 1 else 0)
  }

  /** The clock never ran backwards. */
  predicate Sorted(log: seq<int>) {
    log == [] || (Sorted(log[..|log| - 1]) && (|log| >= 2 ==> log[|log| - 2] <= log[|log| - 1]))
  }

  /** Each send comes at least a second after the ninth before it. */
  predicate Spaced(log: seq<int>) {
    log == [] || (Spaced(log[..|log| - 1]) && (|log| > SLOTS ==> log[|log| - 1] - log[|log| - 1 - SLOTS] >= PERIOD))
  }

  lemma {:induction false} SpacedAt(log: seq<int>, i: nat)
    requires Spaced(log) && i + SLOTS < |log|
    ensures log[i + SLOTS] - log[i] >= PERIOD
  {
    if i + SLOTS < |log| - 1 {
      SpacedAt(log[..|log| - 1], i);
    }
  }

  lemma {:induction false} NoneRecent(log: seq<int>, now: int)
    requires Sorted(log) && (log != [] ==> now - log[|log| - 1] >= PERIOD)
    ensures Recent(log, now) == 0
  {
    if log != [] {
      NoneRecent(log[..|log| - 1], now);
    }
  }

  /** Of sends in order of time, the `k` last ones are recent if and only if the earliest of them is. */
  lemma {:induction false} RecentByOldest(log: seq<int>, now: int, k: nat)
    requires Sorted(log) && 1 <= k
    ensures Recent(log, now) >= k <==> |log| >= k && now - log[|log| - k] < PERIOD
  {
    if log != [] {
      var front := log[..|log| - 1];
      if now - log[|log| - 1] >= PERIOD {
        NoneRecent(front, now);
        EarlierOlder(log, |log| - 1, k);
      } else if k > 1 {
        RecentByOldest(front, now, k - 1);
      }
    }
  }

  lemma {:induction false} EarlierOlder(log: seq<int>, last: nat, k: nat)
    requires Sorted(log) && log != [] && last == |log| - 1 && 1 <= k
    ensures k <= |log| ==> log[|log| - k] <= log[last]
  {
    if 1 < k <= |log| {
      EarlierOlder(log[..|log| - 1], last - 1, k - 1);
    }
  }

  /** What passes of a list of requests if the rule is applied to each in turn. */
  function Passing(requests: seq<int>): seq<int> {
    if requests == [] then [] else
      var log := Passing(requests[..|requests| - 1]);
      var now := requests[|requests| - 1];
      if Recent(log, now) < SLOTS then log + [now] else log
  }

  lemma AppendSpaced(log: seq<int>, now: int)
    requires Sorted(log) && Spaced(log) && Recent(log, now) < SLOTS && (log != [] ==> log[|log| - 1] <= now)
    ensures Sorted(log + [now]) && Spaced(log + [now])
  {
    RecentByOldest(log, now, SLOTS);
    assert (log + [now])[..|log|] == log;
  }

  /** Nine sends apart there is always a full second, so no second ever sees a tenth. */
  lemma {:induction false} PassingIsSpaced(requests: seq<int>)
    requires Sorted(requests)
    ensures var log := Passing(requests);
            Sorted(log) && Spaced(log) && (log != [] ==> log[|log| - 1] <= requests[|requests| - 1])
  {
    if requests != [] {
      var before, now := requests[..|requests| - 1], requests[|requests| - 1];
      PassingIsSpaced(before);
      hide Recent, Spaced;
      if Recent(Passing(before), now) < SLOTS {
        AppendSpaced(Passing(before), now);
      }
    }
  }

  lemma SpacedSeconds(log: seq<int>, now: int)
    requires Sorted(log) && Spaced(log) && (log != [] ==> log[|log| - 1] <= now)
    ensures Recent(log, now) <= SLOTS
  {
    RecentByOldest(log, now, SLOTS + 1);
  }

  lemma AllSpaced(log: seq<int>)
    requires Spaced(log)
    ensures forall i: nat :: i + SLOTS < |log| ==> log[i + SLOTS] - log[i] >= PERIOD
  {
    forall i: nat | i + SLOTS < |log| ensures log[i + SLOTS] - log[i] >= PERIOD {
      SpacedAt(log, i);
    }
  }

  /** The log never holds ten sends within a second, up to `now` and at any time before. */
  ghost predicate Limited(log: seq<int>, now: int) {
    && Sorted(log) && Spaced(log) && Recent(log, now) <= SLOTS
    && forall i: nat :: i + SLOTS < |log| ==> log[i + SLOTS] - log[i] >= PERIOD
  }

  lemma Remains(log: seq<int>, now: int)
    requires Sorted(log) && Spaced(log) && (log != [] ==> log[|log| - 1] <= now)
    ensures Limited(log, now)
    ensures Recent(log, now) < SLOTS ==> Sorted(log + [now]) && Spaced(log + [now]) && Limited(log + [now], now)
    ensures Recent(log, now) < SLOTS <==> |log| < SLOTS || now - log[|log| - SLOTS] >= PERIOD
  {
    hide Recent, Sorted, Spaced;
    RecentByOldest(log, now, SLOTS);
    SpacedSeconds(log, now);
    AllSpaced(log);
    if Recent(log, now) < SLOTS {
      AppendSpaced(log, now);
      SpacedSeconds(log + [now], now);
      AllSpaced(log + [now]);
    }
  }

  // ---------- the limiter ----------

  /** The array and the counter of one kind of message. */
  class Window {
    const times: array<int>
    var num: nat
    /** The times of all sends that passed. */
    ghost var log: seq<int>

    ghost predicate Valid()
      reads this, times
    {
      && times.Length == SLOTS
      && num == (if |log| < SLOTS then |log| else SLOTS)
      && (forall i :: 0 <= i < num ==> times[i] == log[|log| - num + i])
      && Sorted(log) && Spaced(log)
    }

    constructor ()
      ensures Valid() && log == [] && fresh(times)
    {
      times := new int[SLOTS];
      num, log := 0, [];
    }

    /** The `memmove` of one place to the left, and the new time behind it. */
    method Shift(now: int)
      requires times.Length == SLOTS
      modifies times
      ensures forall i :: 0 <= i < SLOTS ==> times[i] == if i < SLOTS - 1 then old(times[i + 1]) else now
    {
      var i := 0;
      while i < SLOTS - 1
        invariant i <= SLOTS - 1
        invariant forall j :: 0 <= j < i ==> times[j] == old(times[j + 1])
        invariant forall j :: i <= j < SLOTS ==> times[j] == old(times[j])
      {
        times[i] := times[i + 1];
        i := i + 1;
      }
      times[SLOTS - 1] := now;
    }

    /** The clock does not run backwards; no second ever sees a tenth send. */
    method Pass(now: int) returns (ok: bool)
      requires Valid() && (log != [] ==> log[|log| - 1] <= now)
      modifies this`num, this`log, times
      ensures Valid()
      ensures ok <==> Recent(old(log), now) < SLOTS
      ensures log == if ok then old(log) + [now] else old(log)
      ensures Limited(log, now)
    {
      hide Recent, Sorted, Spaced, Limited;
      Remains(log, now);
      if num == SLOTS {
        if now - times[0] < PERIOD {
          return false;
        }
        Shift(now);
      } else {
        times[num] := now;
        num := num + 1;
      }
      log := log + [now];
      ok := true;
    }
  }

  datatype Kind = Request | Error | OtherKind

  class Limiter {
    const ratelimit: bool
    const requests: Window
    const errors: Window

    ghost predicate Valid()
      reads this, requests, errors, requests.times, errors.times
    {
      requests.Valid() && errors.Valid() && requests != errors && requests.times != errors.times
    }

    constructor (ratelimit: bool)
      ensures Valid() && requests.log == [] && errors.log == [] && this.ratelimit == ratelimit
      ensures fresh(requests) && fresh(errors) && fresh(requests.times) && fresh(errors.times)
    {
      this.ratelimit := ratelimit;
      hide Window.Valid;
      var r := new Window();
      var e := new Window();
      requests, errors := r, e;
    }

    /** The gate in `aodv_socket_send`; the two kinds do not affect each other, and other messages always pass. */
    method Gate(kind: Kind, now: int) returns (ok: bool)
      requires Valid()
      requires requests.log != [] ==> requests.log[|requests.log| - 1] <= now
      requires errors.log != [] ==> errors.log[|errors.log| - 1] <= now
      modifies requests`num, requests`log, errors`num, errors`log, requests.times, errors.times
      ensures Valid()
      ensures ok <==> match kind
                      case Request => ratelimit ==> Recent(old(requests.log), now) < SLOTS
                      case Error => ratelimit ==> Recent(old(errors.log), now) < SLOTS
                      case OtherKind => true
      ensures requests.log == if ratelimit && kind == Request && ok then old(requests.log) + [now]
               else old(requests.log)
      ensures ratelimit && kind == Request ==> Limited(requests.log, now)
      ensures ratelimit && kind == Error ==> Limited(errors.log, now)
      ensures errors.log == if ratelimit && kind == Error && ok then old(errors.log) + [now] else old(errors.log)
    {
      hide Recent, Limited, Window.Valid;
      ok := true;
      if ratelimit {
        match kind
        case Request => ok := requests.Pass(now);
        case Error => ok := errors.Pass(now);
        case OtherKind =>
      }
    }
  }
}
