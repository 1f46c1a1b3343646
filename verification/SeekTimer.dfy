/**
 The retries of a route discovery. A seek entry counts the requests sent and remembers the
 time-to-live of the last one; each firing of its timer resends the request or gives up.
 */
module SeekTimer {
  import opened SequenceNumbers

  const RREQ_RETRIES: nat := 2
  const TTL_THRESHOLD: nat := 7
  const TTL_INCREMENT: nat := 2
  const NET_DIAMETER: u8 := 35

  /** The number of requests sent again, and the time-to-live of the last one. */
  datatype Progress = Progress(reqs: nat, ttl: u8)

  predicate Exhausted(s: Progress) {
    s.reqs >= RREQ_RETRIES
  }

  function Retry(s: Progress, expanding: bool): Progress {
    if !expanding then s.(reqs := s.reqs + 1)
    else if s.ttl < TTL_THRESHOLD then s.(ttl := s.ttl + TTL_INCREMENT)
    else Progress(s.reqs + 1, NET_DIAMETER)
  }

  /** How many retries are left, at most. */
  function Measure(s: Progress): nat {
    if Exhausted(s) then 0
    else (RREQ_RETRIES - s.reqs) * TTL_THRESHOLD + (if s.ttl < TTL_THRESHOLD then TTL_THRESHOLD - s.ttl else 0)
  }

  lemma RetryProgresses(s: Progress, expanding: bool)
    requires !Exhausted(s)
    ensures Measure(Retry(s, expanding)) < Measure(s)
  {
  }

  /** The times-to-live of all requests still to come if no reply arrives. */
  function Resends(s: Progress, expanding: bool): seq<u8>
    decreases Measure(s)
  {
    if Exhausted(s) then [] else
      RetryProgresses(s, expanding);
      [Retry(s, expanding).ttl] + Resends(Retry(s, expanding), expanding)
  }

  /** Rings of growing radius below the threshold, then two requests across the whole network. */
  lemma {:induction false} ResendCount(s: Progress, expanding: bool)
    ensures |Resends(s, expanding)| ==
            if Exhausted(s) then 0
            else if expanding && s.ttl < TTL_THRESHOLD then (TTL_THRESHOLD + 1 - s.ttl) / TTL_INCREMENT
                + RREQ_RETRIES - s.reqs
            else RREQ_RETRIES - s.reqs
    ensures forall ttl <- Resends(s, expanding) :: if s.ttl <= NET_DIAMETER then ttl <= NET_DIAMETER else ttl <= s.ttl
    decreases Measure(s)
  {
    if !Exhausted(s) {
      RetryProgresses(s, expanding);
      ResendCount(Retry(s, expanding), expanding);
    }
  }

  /** The ring grows by two until it has reached the threshold, then the whole network is asked. */
  lemma {:induction false} ResendTtls(s: Progress, expanding: bool, i: nat)
    requires i < |Resends(s, expanding)|
    ensures Resends(s, expanding)[i] ==
              if !expanding then s.ttl
              else if s.ttl + TTL_INCREMENT * i < TTL_THRESHOLD then s.ttl + TTL_INCREMENT * (i + 1)
              else NET_DIAMETER
    decreases Measure(s)
  {
    RetryProgresses(s, expanding);
    if i > 0 {
      ResendTtls(Retry(s, expanding), expanding, i - 1);
    }
  }

  /** `seek_list_t`, as far as the retries of one destination are concerned. */
  class SeekEntry {
    var reqs: nat
    var ttl: u8
    var seeking: bool

    /** The times-to-live of the requests still to come. */
    ghost function Left(expanding: bool): seq<u8>
      reads this
    {
      if seeking then Resends(Progress(reqs, ttl), expanding) else []
    }

    constructor (first: u8)
      ensures seeking && reqs == 0 && ttl == first
    {
      reqs, ttl, seeking := 0, first, true;
    }

    /** `route_discovery_timeout`: returns the time-to-live to send with, or -1 when giving up. */
    method Timeout(expanding: bool) returns (again: int)
      requires seeking
      modifies this
      ensures old(Left(expanding)) == [] ==> again == -1 && !seeking
      ensures old(Left(expanding)) != [] ==>
                again == old(Left(expanding)[0]) && seeking && Left(expanding) == old(Left(expanding))[1..]
    {
      if reqs < RREQ_RETRIES {
        RetryProgresses(Progress(reqs, ttl), expanding);
        if expanding {
          if ttl < TTL_THRESHOLD {
            ttl := ttl + TTL_INCREMENT;
          } else {
            ttl := NET_DIAMETER;
            reqs := reqs + 1;
          }
        } else {
          reqs := reqs + 1;
        }
        again := ttl;
      } else {
        again := -1;
        seeking := false;
      }
    }
  }
}
