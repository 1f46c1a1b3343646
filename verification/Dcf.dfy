/**
 The sender half of the 802.11 distributed coordination function in an independent network, as
 functions of its state: the three packet slots, the transmit state, the retry counters, the
 contention window and its timers. Module MacSender runs the same handlers in place.
 */
module Dcf {
  datatype TxState = TxIdle | TxRts | TxCts | TxSend | TxAck

  /** A data frame: its size with the MAC header, and whether it is a broadcast. */
  datatype Frame = Frame(size: nat, broadcast: bool)

  datatype Slot = Empty | Holds(frame: Frame)

  datatype Control = NoControl | CtsFrame | AckFrame

  datatype Config = Config(rtsThreshold: nat, shortLimit: nat, longLimit: nat, cwMin: nat, cwMax: nat, bugFix: bool)

  predicate Sane(c: Config) {
    c.shortLimit >= 1 && c.longLimit >= 1 && c.cwMin <= c.cwMax
  }

  /** `tries` remembers how often the frame in the slot has been sent. */
  datatype Mac = Mac(tx: TxState, data: Slot, rts: bool, ctrl: Control, callback: bool,
                     send: bool, defer: bool, backoff: bool, paused: bool,
                     ssrc: nat, slrc: nat, cw: nat, tries: nat)

  function Initial(c: Config): Mac {
    Mac(TxIdle, Empty, false, NoControl, false, false, false, false, false, 0, 0, c.cwMin, 0)
  }

  // ---------- helpers; `quiet` says that nothing is being received and the NAV has passed ----------

  predicate IsIdle(m: Mac, quiet: bool) {
    m.tx == TxIdle && quiet
  }

  /** `checkBackoffTimer` */
  function CheckBackoff(m: Mac, quiet: bool): Mac {
    if m.backoff then m.(paused := !IsIdle(m, quiet)) else m
  }

  function SetTx(m: Mac, tx: TxState, quiet: bool): Mac {
    CheckBackoff(m.(tx := tx), quiet)
  }

  function StartBackoff(m: Mac, quiet: bool): Mac {
    m.(backoff := true, paused := !IsIdle(m, quiet))
  }

  /** `inc_cw` */
  function IncCw(c: Config, cw: nat): nat {
    if 2 * cw + 1 > c.cwMax then c.cwMax else 2 * cw + 1
  }

  /** The window after `n` failures in a row. */
  function WindowAfter(c: Config, n: nat): nat {
    if n == 0 then c.cwMin else IncCw(c, WindowAfter(c, n - 1))
  }

  function Doubled(x: nat, n: nat): (r: nat)
    ensures r >= x
  {
    if n == 0 then x else 2 * Doubled(x, n - 1)
  }

  /** One more than the window, doubled `n` times, if that does not exceed the maximum. */
  function Exponential(c: Config, n: nat): nat
    requires c.cwMin <= c.cwMax
  {
    if Doubled(c.cwMin + 1, n) <= c.cwMax + 1 then Doubled(c.cwMin + 1, n) - 1 else c.cwMax
  }

  /** Binary exponential back-off: one more than the window doubles with each failure, up to the maximum. */
  lemma {:induction false} WindowDoubles(c: Config, n: nat)
    requires c.cwMin <= c.cwMax
    ensures WindowAfter(c, n) == Exponential(c, n) && c.cwMin <= WindowAfter(c, n) <= c.cwMax
  {
    if n > 0 {
      WindowDoubles(c, n - 1);
    }
  }

  /** The frame goes out without the exchange of RTS and CTS. */
  predicate Plain(c: Config, f: Frame) {
    f.size < c.rtsThreshold || f.broadcast
  }

  /** The short retry counter is the one that counts failures of the frame. */
  predicate Short(c: Config, f: Frame) {
    f.size <= c.rtsThreshold
  }

  /** `sendRTS` */
  function SendRts(c: Config, m: Mac): Mac
    requires m.data.Holds?
  {
    if Plain(c, m.data.frame) then m else m.(rts := true)
  }

  /** The wait before a transmission that does not follow its predecessor at once. */
  function Contend(c: Config, m: Mac, quiet: bool): Mac {
    if c.bugFix then StartBackoff(m, quiet) else m.(defer := true)
  }

  /** `send`: a frame from the layer above. */
  function Accept(c: Config, m: Mac, f: Frame, quiet: bool): Mac {
    var m1 := SendRts(c, m.(callback := true, data := Holds(f), tries := 0));
    if m1.backoff then m1
    else if !IsIdle(m1, quiet) then StartBackoff(m1, quiet)
    else if m1.defer then m1
    else Contend(c, m1, quiet)
  }

  /** `tx_resume`; if the layer above is called back it may hand over its next frame at once. */
  function TxResume(c: Config, m: Mac, quiet: bool, next: Slot): Mac {
    var m1 :=
      if m.ctrl != NoControl then m.(defer := true)
      else if m.rts then (if m.backoff then m else Contend(c, m, quiet))
      else if m.data.Holds? then
        (if m.backoff then m else if Plain(c, m.data.frame) then Contend(c, m, quiet) else m.(defer := true))
      else if m.callback then
        (if next.Holds? then Accept(c, m.(callback := false), next.frame, quiet) else m.(callback := false))
      else m;
    SetTx(m1, TxIdle, quiet)
  }

  /** `check_pktRTS` followed by `check_pktTx` */
  function CheckData(c: Config, m: Mac, quiet: bool): Mac {
    if m.rts then
      if !IsIdle(m, quiet) then StartBackoff(m.(cw := IncCw(c, m.cw)), quiet)
      else SetTx(m, TxRts, quiet).(send := true)
    else if m.data.Holds? then
      if !IsIdle(m, quiet) then StartBackoff(SendRts(c, m).(cw := IncCw(c, m.cw)), quiet)
      else SetTx(m, TxSend, quiet).(send := true, tries := m.tries + 1)
    else m
  }

  // ---------- timer handlers ----------

  function BackoffExpires(c: Config, m: Mac, quiet: bool): Mac {
    var m1 := m.(backoff := false, paused := false);
    if m.ctrl != NoControl then m1 else CheckData(c, m1, quiet)
  }

  /** `check_pktCTRL` with a frame in the slot: a CTS is dropped if the medium is busy. */
  function CheckControl(m: Mac, quiet: bool): Mac {
    if m.ctrl == AckFrame then SetTx(m, TxAck, quiet).(send := true)
    else if IsIdle(m, quiet) then SetTx(m, TxCts, quiet).(send := true)
    else m.(ctrl := NoControl)
  }

  function DeferExpires(c: Config, m: Mac, quiet: bool): Mac {
    var m1 := m.(defer := false);
    if m.ctrl != NoControl && m.tx != TxCts && m.tx != TxAck then CheckControl(m1, quiet)
    else CheckData(c, m1, quiet)
  }

  /** `RetransmitRTS` */
  function RetransmitRts(c: Config, m: Mac, quiet: bool): Mac {
    if m.ssrc + 1 >= c.shortLimit then m.(rts := false, data := Empty, ssrc := 0, cw := c.cwMin, tries := 0)
    else StartBackoff(m.(ssrc := m.ssrc + 1, cw := IncCw(c, m.cw)), quiet)
  }

  /** `RetransmitDATA` */
  function RetransmitData(c: Config, m: Mac, quiet: bool): Mac
    requires m.data.Holds?
  {
    var f := m.data.frame;
    if f.broadcast then StartBackoff(m.(data := Empty, cw := c.cwMin, tries := 0), quiet)
    else
      var count := (if Short(c, f) then m.ssrc else m.slrc) + 1;
      if count >= (if Short(c, f) then c.shortLimit else c.longLimit) then
        Counted(c, m, f, 0).(data := Empty, cw := c.cwMin, tries := 0)
      else StartBackoff(SendRts(c, Counted(c, m, f, count)).(cw := IncCw(c, m.cw)), quiet)
  }

  function Counted(c: Config, m: Mac, f: Frame, count: nat): Mac {
    if Short(c, f) then m.(ssrc := count) else m.(slrc := count)
  }

  function SendExpires(c: Config, m: Mac, quiet: bool, next: Slot): Mac
    requires m.tx == TxSend ==> m.data.Holds?
  {
    var m1 := m.(send := false);
    var m2 := match m.tx
      case TxRts => RetransmitRts(c, m1, quiet)
      case TxSend => RetransmitData(c, m1, quiet)
      case TxCts => m1.(ctrl := NoControl)
      case TxAck => m1.(ctrl := NoControl)
      case TxIdle => m1;
    TxResume(c, m2, quiet, next)
  }

  // ---------- received frames ----------

  function RecvRts(c: Config, m: Mac, quiet: bool): Mac {
    if m.tx != TxIdle || m.ctrl != NoControl then m
    else TxResume(c, m.(ctrl := CtsFrame, defer := false), quiet, Empty)
  }

  function RecvCts(c: Config, m: Mac, quiet: bool): Mac {
    if m.tx != TxRts then m
    else TxResume(c, m.(rts := false, send := false, ssrc := 0), quiet, Empty)
  }

  function RecvData(c: Config, m: Mac, f: Frame, quiet: bool): Mac {
    if f.broadcast then m
    else if f.size >= c.rtsThreshold then
      (if m.tx == TxCts then TxResume(c, m.(ctrl := AckFrame, send := false), quiet, Empty) else m)
    else if m.ctrl != NoControl then m
    else if m.send then m.(ctrl := AckFrame)
    else TxResume(c, m.(ctrl := AckFrame), quiet, Empty)
  }

  function RecvAck(c: Config, m: Mac, quiet: bool, next: Slot): Mac
    requires m.tx == TxSend ==> m.data.Holds?
  {
    if m.tx != TxSend then m
    else
      var m1 := Counted(c, m, m.data.frame, 0).(send := false, data := Empty, cw := c.cwMin, tries := 0);
      TxResume(c, StartBackoff(m1, quiet), quiet, next)
  }

  // ---------- events ----------

  datatype Event =
    | Upper(f: Frame)
    | BackoffTimer
    | DeferTimer
    | SendTimer(next: Slot)
    | Rts
    | Cts
    | Data(f: Frame)
    | Ack(next: Slot)
    | MediumChange

  /**
   The layer above waits for its callback, timers fire while they run, and a running defer
   expires before the reception of a data frame is complete.
   */
  predicate Enabled(m: Mac, e: Event) {
    match e
    case Upper(_) => !m.callback
    case BackoffTimer => m.backoff && !m.paused
    case DeferTimer => m.defer
    case SendTimer(_) => m.send
    case Data(_) => !m.defer
    case _ => true
  }

  /** A frame is handled while the receiver is still in its receiving state, so the medium is not quiet. */
  predicate Timely(e: Event, quiet: bool) {
    e.Rts? || e.Cts? || e.Data? || e.Ack? ==> !quiet
  }

  function Step(c: Config, m: Mac, e: Event, quiet: bool): Mac
    requires Safe(m)
  {
    match e
    case Upper(f) => Accept(c, m, f, quiet)
    case BackoffTimer => BackoffExpires(c, m, quiet)
    case DeferTimer => DeferExpires(c, m, quiet)
    case SendTimer(next) => SendExpires(c, m, quiet, next)
    case Rts => RecvRts(c, m, quiet)
    case Cts => RecvCts(c, m, quiet)
    case Data(f) => RecvData(c, m, f, quiet)
    case Ack(next) => RecvAck(c, m, quiet, next)
    case MediumChange => CheckBackoff(m, quiet)
  }

  // ---------- what each event does, field by field ----------

  /** RTS and CTS come before the frame. */
  predicate Reserved(c: Config, f: Frame) {
    c.rtsThreshold <= f.size && !f.broadcast
  }

  /** A frame from above fills the slot; a wait begins unless one is under way. */
  lemma UpperMeans(c: Config, m: Mac, f: Frame, quiet: bool)
    requires Safe(m) && !m.callback
    ensures var idle := m.tx == TxIdle && quiet;
            Step(c, m, Upper(f), quiet) ==
              m.(data := Holds(f), callback := true, tries := 0, rts := Reserved(c, f),
                 backoff := m.backoff || !idle || (c.bugFix && !m.defer),
                 paused := if m.backoff then m.paused else !idle,
                 defer := m.defer || (!m.backoff && idle && !c.bugFix))
  {
  }

  /** What is pending is waited for, in the order control, RTS, data; else the layer above is called back. */
  lemma ResumeMeans(c: Config, m: Mac, quiet: bool, next: Slot)
    requires Resuming(m)
    ensures var m' := TxResume(c, m, quiet, next);
            var called := m.ctrl == NoControl && m.data.Empty? && m.callback;
            && m'.tx == TxIdle && m'.ctrl == m.ctrl && m'.send == m.send
            && m'.ssrc == m.ssrc && m'.slrc == m.slrc && m'.cw == m.cw
            && (m'.backoff ==> (m'.paused <==> !quiet)) && (!m'.backoff ==> !m'.paused)
            && (!called ==>
                  && m'.data == m.data && m'.rts == m.rts && m'.callback == m.callback && m'.tries == m.tries
                  && (m'.defer <==> m.ctrl != NoControl
                                    || (m.data.Holds? && !m.backoff
                                        && (!c.bugFix || (!m.rts && Reserved(c, m.data.frame)))))
                  && (m'.backoff <==> m.backoff
                                      || (m.ctrl == NoControl && m.data.Holds? && c.bugFix
                                          && (m.rts || !Reserved(c, m.data.frame)))))
            && (called && next.Empty? ==>
                  && m'.data == Empty && !m'.rts && !m'.callback && m'.tries == m.tries
                  && !m'.defer && m'.backoff == m.backoff)
            && (called && next.Holds? ==>
                  && m'.data == next && m'.rts == Reserved(c, next.frame) && m'.callback && m'.tries == 0
                  && (m'.defer <==> !m.backoff && m.tx == TxIdle && quiet && !c.bugFix)
                  && (m'.backoff <==> m.backoff || m.tx != TxIdle || !quiet || c.bugFix))
  {
  }

  /** The frame in the slot, or its RTS, goes out if the medium is free; else the window grows. */
  lemma CheckDataMeans(c: Config, m: Mac, quiet: bool)
    requires Resuming(m) && m.tx == TxIdle && !m.backoff
    ensures CheckData(c, m, quiet) ==
              if m.data.Empty? then m
              else if !quiet then
                m.(rts := m.rts || Reserved(c, m.data.frame), backoff := true, paused := true,
                   cw := if 2 * m.cw + 1 > c.cwMax then c.cwMax else 2 * m.cw + 1)
              else if m.rts then m.(tx := TxRts, send := true)
              else m.(tx := TxSend, send := true, tries := m.tries + 1)
  {
  }

  /** A frame that waits goes out when the back-off ends; a control frame waits for its own timer. */
  lemma BackoffTimerMeans(c: Config, m: Mac, quiet: bool)
    requires Safe(m) && m.backoff && !m.paused
    ensures var m1 := m.(backoff := false, paused := false);
            Step(c, m, BackoffTimer, quiet) ==
              if m.ctrl != NoControl || m.data.Empty? then m1
              else if !quiet then
                m1.(rts := m.rts || Reserved(c, m.data.frame), backoff := true, paused := true,
                    cw := if 2 * m.cw + 1 > c.cwMax then c.cwMax else 2 * m.cw + 1)
              else if m.rts then m1.(tx := TxRts, send := true)
              else m1.(tx := TxSend, send := true, tries := m.tries + 1)
  {
    if m.ctrl == NoControl {
      CheckDataMeans(c, m.(backoff := false, paused := false), quiet);
    }
  }

  /** A control frame goes out first: an acknowledgement always, a CTS only if the medium is free. */
  lemma DeferTimerMeans(c: Config, m: Mac, quiet: bool)
    requires Safe(m) && m.defer
    ensures var m1 := m.(defer := false);
            var paused := m.backoff;
            Step(c, m, DeferTimer, quiet) ==
              match m.ctrl
              case AckFrame => m1.(tx := TxAck, send := true, paused := paused)
              case CtsFrame =>
                if quiet then m1.(tx := TxCts, send := true, paused := paused) else m1.(ctrl := NoControl)
              case NoControl =>
                if !quiet then
                  m1.(rts := m.rts || Reserved(c, m.data.frame), backoff := true, paused := true,
                      cw := if 2 * m.cw + 1 > c.cwMax then c.cwMax else 2 * m.cw + 1)
                else if m.rts then m1.(tx := TxRts, send := true)
                else m1.(tx := TxSend, send := true, tries := m.tries + 1)
  {
    if m.ctrl == NoControl {
      CheckDataMeans(c, m.(defer := false), quiet);
    }
  }

  /** A CTS is queued exactly by an idle station with a free slot; nothing else is done about an RTS. */
  lemma RtsMeans(c: Config, m: Mac, quiet: bool)
    requires Safe(m)
    ensures Step(c, m, Rts, quiet) ==
              if m.tx == TxIdle && m.ctrl == NoControl then
                m.(ctrl := CtsFrame, defer := true, paused := m.backoff && !quiet)
              else m
  {
  }

  /** A CTS that answers an RTS resets the short counter, and the frame follows after a short wait. */
  lemma CtsMeans(c: Config, m: Mac, quiet: bool)
    requires Safe(m) && Tallied(c, m)
    ensures Step(c, m, Cts, quiet) ==
              if m.tx == TxRts then m.(tx := TxIdle, rts := false, send := false, ssrc := 0, defer := true) else m
  {
  }

  /**
   Exactly unicast frames are acknowledged: those sent without RTS by a station with a free slot, the
   others by a station that has sent a CTS. A transmission under way is not cut short for the former.
   */
  lemma DataMeans(c: Config, m: Mac, f: Frame, quiet: bool)
    requires Safe(m) && !m.defer
    ensures Step(c, m, Data(f), quiet) ==
              if f.broadcast then m
              else if f.size < c.rtsThreshold then
                if m.ctrl != NoControl then m
                else if m.send then m.(ctrl := AckFrame)
                else m.(ctrl := AckFrame, defer := true, paused := m.backoff && !quiet)
              else if m.tx == TxCts then
                m.(ctrl := AckFrame, tx := TxIdle, send := false, defer := true, paused := m.backoff && !quiet)
              else m
  {
  }

  /** A queued acknowledgement stays until it goes out. */
  lemma AckIsKept(c: Config, m: Mac, e: Event, quiet: bool)
    requires Safe(m) && Enabled(m, e) && m.ctrl == AckFrame && !(m.tx == TxAck && e.SendTimer?)
    ensures Step(c, m, e, quiet).ctrl == AckFrame
  {
  }

  /** It goes out with the next defer, which runs at once or starts with the end of the transmission under way. */
  lemma AckGoesOut(c: Config, m: Mac, quiet: bool, next: Slot)
    requires Safe(m) && m.ctrl == AckFrame && m.tx != TxAck
    ensures m.send ==> var m' := Step(c, m, SendTimer(next), quiet); m'.defer && m'.ctrl == AckFrame
    ensures !m.send ==> m.defer
    ensures m.defer ==> var m' := Step(c, m, DeferTimer, quiet); m'.tx == TxAck && m'.send && m'.ctrl == AckFrame
  {
  }

  /**
   An acknowledged frame leaves the slot, its counter and the window start anew, and a back-off runs.
   The layer above may hand over its next frame at once.
   */
  lemma AckMeans(c: Config, m: Mac, quiet: bool, next: Slot)
    requires Safe(m)
    ensures var m' := Step(c, m, Ack(next), quiet);
            if m.tx != TxSend then m' == m
            else
              var short := m.data.frame.size <= c.rtsThreshold;
              && m'.tx == TxIdle && !m'.send && m'.ctrl == m.ctrl && m'.cw == c.cwMin && m'.tries == 0
              && m'.ssrc == (if short then 0 else m.ssrc) && m'.slrc == (if short then m.slrc else 0)
              && m'.backoff && (m'.paused <==> !quiet) && (m'.defer <==> m.ctrl != NoControl)
              && m'.data == (if m.ctrl == NoControl then next else Empty)
              && (m'.callback <==> m.ctrl != NoControl || next.Holds?)
              && (m'.rts <==> m.ctrl == NoControl && next.Holds? && Reserved(c, next.frame))
  {
  }

  /** A lost RTS counts as a short failure and is tried again with a larger window, up to the limit. */
  lemma LostRtsMeans(c: Config, m: Mac, quiet: bool)
    requires Safe(m) && m.tx == TxRts
    ensures RetransmitRts(c, m.(send := false), quiet) ==
              if m.ssrc + 1 >= c.shortLimit then
                m.(send := false, rts := false, data := Empty, ssrc := 0, cw := c.cwMin, tries := 0)
              else
                m.(send := false, ssrc := m.ssrc + 1, backoff := true, paused := true,
                   cw := if 2 * m.cw + 1 > c.cwMax then c.cwMax else 2 * m.cw + 1)
  {
  }

  /** A lost frame counts by its size; at its limit it is dropped, and a broadcast is never sent again. */
  lemma LostDataMeans(c: Config, m: Mac, quiet: bool)
    requires Safe(m) && m.tx == TxSend
    ensures var f := m.data.frame;
            var short := f.size <= c.rtsThreshold;
            var last := if short then m.ssrc + 1 >= c.shortLimit else m.slrc + 1 >= c.longLimit;
            RetransmitData(c, m.(send := false), quiet) ==
              if f.broadcast then
                m.(send := false, data := Empty, cw := c.cwMin, tries := 0, backoff := true, paused := true)
              else if last then
                m.(send := false, data := Empty, cw := c.cwMin, tries := 0,
                   ssrc := if short then 0 else m.ssrc, slrc := if short then m.slrc else 0)
              else
                m.(send := false, rts := Reserved(c, f), backoff := true, paused := true,
                   ssrc := if short then m.ssrc + 1 else m.ssrc, slrc := if short then m.slrc else m.slrc + 1,
                   cw := if 2 * m.cw + 1 > c.cwMax then c.cwMax else 2 * m.cw + 1)
  {
  }

  /** The end of a transmission is a failure of the RTS or the frame, or done for a control frame. */
  lemma SendTimerMeans(c: Config, m: Mac, quiet: bool, next: Slot)
    requires Safe(m) && m.send
    ensures Step(c, m, SendTimer(next), quiet) ==
              TxResume(c, match m.tx
                          case TxRts => RetransmitRts(c, m.(send := false), quiet)
                          case TxSend => RetransmitData(c, m.(send := false), quiet)
                          case _ => m.(send := false, ctrl := NoControl), quiet, next)
  {
  }

  /** The medium suspends a back-off or lets it go on, and nothing else. */
  lemma MediumMeans(c: Config, m: Mac, quiet: bool)
    requires Safe(m)
    ensures Step(c, m, MediumChange, quiet) == m.(paused := m.backoff && !(m.tx == TxIdle && quiet))
  {
  }

  // ---------- safety ----------

  /** Which slots are filled in which transmit state, and which timers run. */
  predicate Safe(m: Mac) {
    && (m.send <==> m.tx != TxIdle)
    && (m.rts ==> m.data.Holds?)
    && (m.data.Holds? ==> m.callback)
    && (m.tx == TxRts ==> m.rts)
    && (m.tx == TxSend ==> m.data.Holds? && !m.rts)
    && (m.tx == TxCts ==> m.ctrl == CtsFrame)
    && (m.tx == TxAck ==> m.ctrl == AckFrame)
    && (m.tx == TxRts || m.tx == TxSend ==> !m.backoff)
    && (m.ctrl != NoControl ==> m.send || m.defer)
    && (m.defer ==> m.tx == TxIdle && (m.ctrl != NoControl || (m.data.Holds? && !m.backoff)))
    && (m.backoff && m.tx != TxIdle ==> m.paused)
    && (m.paused ==> m.backoff)
  }

  /** What `tx_resume` expects: neither a transmission nor a wait is under way. */
  predicate Resuming(m: Mac) {
    && !m.send && !m.defer
    && (m.rts ==> m.data.Holds?) && (m.data.Holds? ==> m.callback)
    && (m.backoff && m.tx != TxIdle ==> m.paused) && (m.paused ==> m.backoff)
  }

  lemma ResumeIsSafe(c: Config, m: Mac, quiet: bool, next: Slot)
    requires Resuming(m)
    ensures Safe(TxResume(c, m, quiet, next))
  {
  }

  lemma CheckDataIsSafe(c: Config, m: Mac, quiet: bool)
    requires Resuming(m) && m.tx == TxIdle && !m.backoff && m.ctrl == NoControl
    ensures Safe(CheckData(c, m, quiet))
  {
  }

  lemma RetransmissionResumes(c: Config, m: Mac, quiet: bool)
    requires Resuming(m) && !m.backoff && m.data.Holds?
    ensures m.rts ==> Resuming(RetransmitRts(c, m, quiet))
    ensures !m.rts ==> Resuming(RetransmitData(c, m, quiet))
  {
  }

  lemma SendTimerIsSafe(c: Config, m: Mac, quiet: bool, next: Slot)
    requires Safe(m) && m.send
    ensures Safe(SendExpires(c, m, quiet, next))
  {
    var m1 := m.(send := false);
    if m.tx == TxRts || m.tx == TxSend {
      RetransmissionResumes(c, m1, quiet);
      ResumeIsSafe(c, if m.tx == TxRts then RetransmitRts(c, m1, quiet) else RetransmitData(c, m1, quiet), quiet, next);
    } else {
      ResumeIsSafe(c, m1.(ctrl := NoControl), quiet, next);
    }
  }

  lemma DeferTimerIsSafe(c: Config, m: Mac, quiet: bool)
    requires Safe(m) && m.defer
    ensures Safe(DeferExpires(c, m, quiet))
  {
    if m.ctrl == NoControl {
      CheckDataIsSafe(c, m.(defer := false), quiet);
    }
  }

  lemma BackoffTimerIsSafe(c: Config, m: Mac, quiet: bool)
    requires Safe(m) && m.backoff && !m.paused
    ensures Safe(BackoffExpires(c, m, quiet))
  {
    if m.ctrl == NoControl {
      CheckDataIsSafe(c, m.(backoff := false, paused := false), quiet);
    }
  }

  lemma DataIsSafe(c: Config, m: Mac, f: Frame, quiet: bool)
    requires Safe(m) && !m.defer
    ensures Safe(RecvData(c, m, f, quiet))
  {
    ResumeIsSafe(c, m.(ctrl := AckFrame, send := false), quiet, Empty);
  }

  lemma AckIsSafe(c: Config, m: Mac, quiet: bool, next: Slot)
    requires Safe(m)
    ensures Safe(RecvAck(c, m, quiet, next))
  {
    if m.tx == TxSend {
      var m1 := Counted(c, m, m.data.frame, 0).(send := false, data := Empty, cw := c.cwMin, tries := 0);
      ResumeIsSafe(c, StartBackoff(m1, quiet), quiet, next);
    }
  }

  /** Every event keeps the slots in step with the transmit state. */
  lemma StepIsSafe(c: Config, m: Mac, e: Event, quiet: bool)
    requires Safe(m) && Enabled(m, e)
    ensures Safe(Step(c, m, e, quiet))
  {
    match e
    case Upper(_) =>
    case BackoffTimer => BackoffTimerIsSafe(c, m, quiet);
    case DeferTimer => DeferTimerIsSafe(c, m, quiet);
    case SendTimer(next) => SendTimerIsSafe(c, m, quiet, next);
    case Rts =>
      if m.tx == TxIdle && m.ctrl == NoControl {
        ResumeIsSafe(c, m.(ctrl := CtsFrame, defer := false), quiet, Empty);
      }
    case Cts =>
      if m.tx == TxRts {
        ResumeIsSafe(c, m.(rts := false, send := false, ssrc := 0), quiet, Empty);
      }
    case Data(f) => DataIsSafe(c, m, f, quiet);
    case Ack(next) => AckIsSafe(c, m, quiet, next);
    case MediumChange =>
  }

  // ---------- counters ----------

  predicate InBounds(c: Config, m: Mac) {
    m.ssrc < c.shortLimit && m.slrc < c.longLimit && c.cwMin <= m.cw <= c.cwMax
  }

  /** The counter that failures of the frame in the slot drive towards its limit. */
  function Count(c: Config, m: Mac, f: Frame): nat {
    if Short(c, f) then m.ssrc else m.slrc
  }

  function Limit(c: Config, f: Frame): nat {
    if Short(c, f) then c.shortLimit else c.longLimit
  }

  /** The frame has been sent no more often than its counter tells, but for the sending under way. */
  predicate Tallied(c: Config, m: Mac) {
    m.data.Holds? ==>
      var f := m.data.frame;
      var now := if m.tx == TxSend then 1 else 0;
      && (m.rts ==> !Plain(c, f))
      && (f.broadcast ==> m.tries <= now)
      && (!f.broadcast && f.size != c.rtsThreshold ==> m.tries <= Count(c, m, f) + now)
      && (!f.broadcast && f.size == c.rtsThreshold && c.shortLimit == 1 ==> m.tries <= now)
  }

  /** As `Tallied` once the sending is over, before `tx_resume` changes the state. */
  predicate TalliedAfter(c: Config, m: Mac) {
    Tallied(c, m.(tx := TxIdle))
  }

  /** Two states that agree on everything the tally is about. */
  predicate SameBooks(m: Mac, m': Mac) {
    && m.tx == m'.tx && m.data == m'.data && m.rts == m'.rts
    && m.ssrc == m'.ssrc && m.slrc == m'.slrc && m.cw == m'.cw && m.tries == m'.tries
  }

  lemma AcceptKeepsBooks(c: Config, m: Mac, f: Frame, quiet: bool)
    ensures SameBooks(SendRts(c, m.(data := Holds(f), tries := 0)), Accept(c, m, f, quiet))
  {
  }

  /** The layer above hands over its next frame from inside its callback. */
  predicate CallsBack(m: Mac, next: Slot) {
    m.ctrl == NoControl && !m.rts && !m.data.Holds? && m.callback && next.Holds?
  }

  lemma ResumeWithNext(c: Config, m: Mac, quiet: bool, next: Slot)
    requires CallsBack(m, next)
    ensures SameBooks(SendRts(c, m.(tx := TxIdle, data := next, tries := 0)), TxResume(c, m, quiet, next))
  {
    hide Accept;
    AcceptKeepsBooks(c, m.(callback := false), next.frame, quiet);
    assert TxResume(c, m, quiet, next) == SetTx(Accept(c, m.(callback := false), next.frame, quiet), TxIdle, quiet);
  }

  lemma ResumeKeepsBooks(c: Config, m: Mac, quiet: bool, next: Slot)
    requires !CallsBack(m, next)
    ensures SameBooks(m.(tx := TxIdle), TxResume(c, m, quiet, next))
  {
    hide Accept, Plain;
  }

  lemma ResumeTallies(c: Config, m: Mac, quiet: bool, next: Slot)
    requires TalliedAfter(c, m) && InBounds(c, m)
    ensures Tallied(c, TxResume(c, m, quiet, next)) && InBounds(c, TxResume(c, m, quiet, next))
  {
    hide TxResume;
    if CallsBack(m, next) {
      ResumeWithNext(c, m, quiet, next);
    } else {
      ResumeKeepsBooks(c, m, quiet, next);
    }
  }

  lemma CheckDataKeepsBooks(c: Config, m: Mac, quiet: bool)
    requires m.tx == TxIdle
    ensures var m' := CheckData(c, m, quiet);
            || SameBooks(m, m')
            || (m.rts && SameBooks(m.(cw := IncCw(c, m.cw)), m'))
            || (m.rts && SameBooks(m.(tx := TxRts), m'))
            || (m.data.Holds? && SameBooks(SendRts(c, m).(cw := IncCw(c, m.cw)), m'))
            || (m.data.Holds? && !m.rts && SameBooks(m.(tx := TxSend, tries := m.tries + 1), m'))
  {
  }

  lemma CheckDataTallies(c: Config, m: Mac, quiet: bool)
    requires Tallied(c, m) && InBounds(c, m) && m.tx == TxIdle
    ensures Tallied(c, CheckData(c, m, quiet)) && InBounds(c, CheckData(c, m, quiet))
  {
    hide CheckData;
    CheckDataKeepsBooks(c, m, quiet);
  }

  lemma RetransmitRtsTallies(c: Config, m: Mac, quiet: bool)
    requires Sane(c) && Safe(m) && Tallied(c, m) && InBounds(c, m) && m.tx == TxRts
    ensures var m' := RetransmitRts(c, m.(send := false), quiet); TalliedAfter(c, m') && InBounds(c, m')
  {
  }

  lemma RetransmitDataTallies(c: Config, m: Mac, quiet: bool)
    requires Sane(c) && Safe(m) && Tallied(c, m) && InBounds(c, m) && m.tx == TxSend
    ensures var m' := RetransmitData(c, m.(send := false), quiet); TalliedAfter(c, m') && InBounds(c, m')
  {
  }

  lemma TimerTallies(c: Config, m: Mac, e: Event, quiet: bool)
    requires Sane(c) && Safe(m) && Enabled(m, e) && Tallied(c, m) && InBounds(c, m)
    requires e.BackoffTimer? || e.DeferTimer? || e.SendTimer?
    ensures var m' := Step(c, m, e, quiet); Tallied(c, m') && InBounds(c, m')
  {
    hide TxResume, CheckData, RetransmitRts, RetransmitData;
    if e.BackoffTimer? {
      if m.ctrl == NoControl {
        CheckDataTallies(c, m.(backoff := false, paused := false), quiet);
      }
    } else if e.DeferTimer? {
      if m.ctrl == NoControl {
        CheckDataTallies(c, m.(defer := false), quiet);
      }
    } else {
      SendTimerTallies(c, m, quiet, e.next);
    }
  }

  lemma SendTimerTallies(c: Config, m: Mac, quiet: bool, next: Slot)
    requires Sane(c) && Safe(m) && m.send && Tallied(c, m) && InBounds(c, m)
    ensures var m' := SendExpires(c, m, quiet, next); Tallied(c, m') && InBounds(c, m')
  {
    hide TxResume, RetransmitRts, RetransmitData;
    var m1 := m.(send := false);
    if m.tx == TxRts {
      RetransmitRtsTallies(c, m, quiet);
      ResumeTallies(c, RetransmitRts(c, m1, quiet), quiet, next);
    } else if m.tx == TxSend {
      RetransmitDataTallies(c, m, quiet);
      ResumeTallies(c, RetransmitData(c, m1, quiet), quiet, next);
    } else {
      ResumeTallies(c, m1.(ctrl := NoControl), quiet, next);
    }
  }

  lemma FrameTallies(c: Config, m: Mac, e: Event, quiet: bool)
    requires Sane(c) && Safe(m) && Enabled(m, e) && Tallied(c, m) && InBounds(c, m)
    requires e.Rts? || e.Cts? || e.Data? || e.Ack?
    ensures var m' := Step(c, m, e, quiet); Tallied(c, m') && InBounds(c, m')
  {
    hide TxResume;
    match e
    case Rts =>
      if m.tx == TxIdle {
        ResumeTallies(c, m.(ctrl := CtsFrame, defer := false), quiet, Empty);
      }
    case Cts =>
      if m.tx == TxRts {
        ResumeTallies(c, m.(rts := false, send := false, ssrc := 0), quiet, Empty);
      }
    case Data(f) =>
      if m.tx != TxSend {
        ResumeTallies(c, m.(ctrl := AckFrame, send := false), quiet, Empty);
        ResumeTallies(c, m.(ctrl := AckFrame), quiet, Empty);
      }
    case Ack(next) =>
      if m.tx == TxSend {
        var m1 := Counted(c, m, m.data.frame, 0).(send := false, data := Empty, cw := c.cwMin, tries := 0);
        ResumeTallies(c, StartBackoff(m1, quiet), quiet, next);
      }
  }

  /** Every event keeps the counters below their limits, the window in its range and the tally. */
  lemma StepTallies(c: Config, m: Mac, e: Event, quiet: bool)
    requires Sane(c) && Safe(m) && Enabled(m, e) && Tallied(c, m) && InBounds(c, m)
    ensures var m' := Step(c, m, e, quiet); Tallied(c, m') && InBounds(c, m')
  {
    hide TxResume, CheckData, RetransmitRts, RetransmitData;
    if e.BackoffTimer? || e.DeferTimer? || e.SendTimer? {
      TimerTallies(c, m, e, quiet);
    } else if e.Rts? || e.Cts? || e.Data? || e.Ack? {
      FrameTallies(c, m, e, quiet);
    } else if e.Upper? {
      AcceptKeepsBooks(c, m, e.f, quiet);
    }
  }

  // ---------- whole runs ----------

  /** `es` leads from `m` to `m'`; each event comes with the state of the medium. */
  ghost predicate Path(c: Config, m: Mac, es: seq<(Event, bool)>, m': Mac)
    decreases es
  {
    if es == [] then m == m'
    else
      && Safe(m) && Enabled(m, es[0].0) && Timely(es[0].0, es[0].1)
      && Path(c, Step(c, m, es[0].0, es[0].1), es[1..], m')
  }

  lemma {:induction false} PathKeeps(c: Config, m: Mac, es: seq<(Event, bool)>, m': Mac)
    requires Sane(c) && Safe(m) && Tallied(c, m) && InBounds(c, m) && Path(c, m, es, m')
    ensures Safe(m') && Tallied(c, m') && InBounds(c, m')
    decreases es
  {
    if es != [] {
      StepIsSafe(c, m, es[0].0, es[0].1);
      StepTallies(c, m, es[0].0, es[0].1);
      PathKeeps(c, Step(c, m, es[0].0, es[0].1), es[1..], m');
    }
  }

  /** The packet slots fit the transmit state and the counters stay in range in every run. */
  lemma RunIsSafe(c: Config, es: seq<(Event, bool)>, m: Mac)
    requires Sane(c) && Path(c, Initial(c), es, m)
    ensures Safe(m) && Tallied(c, m) && InBounds(c, m)
  {
    PathKeeps(c, Initial(c), es, m);
  }

  lemma {:induction false} PathsJoin(c: Config, m: Mac, es: seq<(Event, bool)>, m': Mac, es': seq<(Event, bool)>,
                                     m'': Mac)
    requires Path(c, m, es, m') && Path(c, m', es', m'')
    ensures Path(c, m, es + es', m'')
    decreases es
  {
    if es == [] {
      assert es + es' == es';
    } else {
      assert (es + es')[1..] == es[1..] + es';
      PathsJoin(c, Step(c, m, es[0].0, es[0].1), es[1..], m', es', m'');
    }
  }

  // ---------- the contention window ----------

  /** An event leaves the window, takes it one step up, or takes it back to the bottom. */
  predicate WindowMoves(c: Config, cw: nat, cw': nat) {
    cw' == cw || cw' == IncCw(c, cw) || cw' == c.cwMin
  }

  lemma ResumeKeepsWindow(c: Config, m: Mac, quiet: bool, next: Slot)
    ensures TxResume(c, m, quiet, next).cw == m.cw
  {
    hide TxResume;
    if CallsBack(m, next) {
      ResumeWithNext(c, m, quiet, next);
    } else {
      ResumeKeepsBooks(c, m, quiet, next);
    }
  }

  lemma StepMovesWindow(c: Config, m: Mac, e: Event, quiet: bool)
    requires Safe(m) && Enabled(m, e)
    ensures WindowMoves(c, m.cw, Step(c, m, e, quiet).cw)
  {
    if e.SendTimer? {
      var m1 := m.(send := false);
      if m.tx == TxRts {
        ResumeKeepsWindow(c, RetransmitRts(c, m1, quiet), quiet, e.next);
      } else if m.tx == TxSend {
        ResumeKeepsWindow(c, RetransmitData(c, m1, quiet), quiet, e.next);
      }
    } else if e.Ack? && m.tx == TxSend {
      var m1 := Counted(c, m, m.data.frame, 0).(send := false, data := Empty, cw := c.cwMin, tries := 0);
      ResumeKeepsWindow(c, StartBackoff(m1, quiet), quiet, e.next);
    }
  }

  lemma {:induction false} PathWindow(c: Config, m: Mac, es: seq<(Event, bool)>, m': Mac, n: nat) returns (n': nat)
    requires Path(c, m, es, m') && m.cw == WindowAfter(c, n)
    ensures m'.cw == WindowAfter(c, n') && n' <= n + |es|
    decreases es
  {
    hide Step, Enabled, Safe, IncCw;
    if es == [] {
      n' := n;
    } else {
      var m1 := Step(c, m, es[0].0, es[0].1);
      StepMovesWindow(c, m, es[0].0, es[0].1);
      var n1 := if m1.cw == m.cw then n else if m1.cw == c.cwMin then 0 else n + 1;
      n' := PathWindow(c, m1, es[1..], m', n1);
    }
  }

  /** In every run the window is the smallest one, doubled some number of times, or the largest. */
  lemma RunBacksOffByDoubling(c: Config, es: seq<(Event, bool)>, m: Mac)
    requires Sane(c) && Path(c, Initial(c), es, m)
    ensures exists n: nat :: n <= |es| && m.cw == Exponential(c, n)
  {
    var n := PathWindow(c, Initial(c), es, m, 0);
    WindowDoubles(c, n);
  }

  // ---------- bounded retransmission ----------

  /** No run sends a unicast frame of this size more often than `limit` times. */
  ghost predicate AtMost(c: Config, size: nat, limit: nat) {
    forall es: seq<(Event, bool)>, m: Mac ::
      Path(c, Initial(c), es, m) && m.data == Holds(Frame(size, false)) ==> m.tries <= limit
  }

  lemma TriesAreBounded(c: Config, size: nat)
    requires Sane(c) && (size != c.rtsThreshold || c.shortLimit == 1)
    ensures AtMost(c, size, Limit(c, Frame(size, false)))
  {
    forall es: seq<(Event, bool)>, m: Mac | Path(c, Initial(c), es, m) && m.data == Holds(Frame(size, false))
      ensures m.tries <= Limit(c, Frame(size, false))
    {
      RunIsSafe(c, es, m);
    }
  }

  /** A frame of the threshold's size, about to ask for the medium once more. */
  function Asking(c: Config, ssrc: nat, cw: nat, tries: nat): Mac {
    Mac(TxIdle, Holds(Frame(c.rtsThreshold, false)), true, NoControl, true, false, false, true, false, ssrc, 0, cw,
        tries)
  }

  /** RTS answered, data not: the CTS has reset the counter that the lost data frame drives. */
  lemma Again(c: Config, ssrc: nat, cw: nat, tries: nat)
    requires c.shortLimit >= 2
    ensures Path(c, Asking(c, ssrc, cw, tries),
                 [(BackoffTimer, true), (Cts, false), (DeferTimer, true), (SendTimer(Empty), true)],
                 Asking(c, 1, IncCw(c, cw), tries + 1))
  {
    var m0 := Asking(c, ssrc, cw, tries);
    var m1 := m0.(tx := TxRts, backoff := false, send := true);
    var m2 := m1.(tx := TxIdle, rts := false, send := false, ssrc := 0, defer := true);
    var m3 := m2.(tx := TxSend, defer := false, send := true, tries := tries + 1);
    assert m1 == Step(c, m0, BackoffTimer, true);
    assert m2 == Step(c, m1, Cts, false);
    assert m3 == Step(c, m2, DeferTimer, true);
    assert Asking(c, 1, IncCw(c, cw), tries + 1) == Step(c, m3, SendTimer(Empty), true);
    OneStep(c, m3, SendTimer(Empty), true);
    var m4 := Asking(c, 1, IncCw(c, cw), tries + 1);
    assert [(DeferTimer, true), (SendTimer(Empty), true)][1..] == [(SendTimer(Empty), true)];
    assert Path(c, m2, [(DeferTimer, true), (SendTimer(Empty), true)], m4);
    assert [(Cts, false), (DeferTimer, true), (SendTimer(Empty), true)][1..]
        == [(DeferTimer, true), (SendTimer(Empty), true)];
    assert Path(c, m1, [(Cts, false), (DeferTimer, true), (SendTimer(Empty), true)], m4);
    assert [(BackoffTimer, true), (Cts, false), (DeferTimer, true), (SendTimer(Empty), true)][1..]
        == [(Cts, false), (DeferTimer, true), (SendTimer(Empty), true)];
  }

  lemma OneStep(c: Config, m: Mac, e: Event, quiet: bool)
    requires Safe(m) && Enabled(m, e) && Timely(e, quiet)
    ensures Path(c, m, [(e, quiet)], Step(c, m, e, quiet))
  {
    assert [(e, quiet)][1..] == [];
  }

  /** Any number of rounds, each sending the same frame once more. */
  lemma {:induction false} Endless(c: Config, ssrc: nat, cw: nat, tries: nat, n: nat)
    returns (es: seq<(Event, bool)>, m: Mac)
    requires c.shortLimit >= 2
    ensures Path(c, Asking(c, ssrc, cw, tries), es, m)
    ensures m.data == Holds(Frame(c.rtsThreshold, false)) && m.tries == tries + n
    decreases n
  {
    if n == 0 {
      es, m := [], Asking(c, ssrc, cw, tries);
    } else {
      var first := [(BackoffTimer, true), (Cts, false), (DeferTimer, true), (SendTimer(Empty), true)];
      Again(c, ssrc, cw, tries);
      es, m := Endless(c, 1, IncCw(c, cw), tries + 1, n - 1);
      PathsJoin(c, Asking(c, ssrc, cw, tries), first, Asking(c, 1, IncCw(c, cw), tries + 1), es, m);
      es := first + es;
    }
  }

  /** From power-up to a frame of the threshold's size asking for the medium. */
  lemma AskingIsReachable(c: Config) returns (es: seq<(Event, bool)>, ssrc: nat, cw: nat)
    requires Sane(c) && c.shortLimit >= 2
    ensures Path(c, Initial(c), es, Asking(c, ssrc, cw, 0))
  {
    var f := Frame(c.rtsThreshold, false);
    var m1 := Step(c, Initial(c), Upper(f), true);
    OneStep(c, Initial(c), Upper(f), true);
    if c.bugFix {
      es, ssrc, cw := [(Upper(f), true)], 0, c.cwMin;
      assert m1 == Asking(c, 0, c.cwMin, 0);
    } else {
      var m2 := Step(c, m1, DeferTimer, true);
      OneStep(c, m1, DeferTimer, true);
      OneStep(c, m2, SendTimer(Empty), true);
      ssrc, cw := 1, IncCw(c, c.cwMin);
      assert Step(c, m2, SendTimer(Empty), true) == Asking(c, 1, cw, 0);
      PathsJoin(c, m1, [(DeferTimer, true)], m2, [(SendTimer(Empty), true)], Asking(c, 1, cw, 0));
      var rest := [(DeferTimer, true)] + [(SendTimer(Empty), true)];
      PathsJoin(c, Initial(c), [(Upper(f), true)], m1, rest, Asking(c, 1, cw, 0));
      es := [(Upper(f), true)] + rest;
    }
  }

  /** Unless the short limit is one, no limit holds for frames of exactly the threshold's size. */
  lemma ThresholdFramesAreUnbounded(c: Config, limit: nat)
    requires Sane(c) && c.shortLimit >= 2
    ensures !AtMost(c, c.rtsThreshold, limit)
  {
    var es, ssrc, cw := AskingIsReachable(c);
    var es', m := Endless(c, ssrc, cw, 0, limit + 1);
    PathsJoin(c, Initial(c), es, Asking(c, ssrc, cw, 0), es', m);
    assert Path(c, Initial(c), es + es', m) && m.data == Holds(Frame(c.rtsThreshold, false)) && m.tries > limit;
  }

  /** Exactly when the number of transmissions of a unicast frame is bounded at all. */
  lemma BoundedExactly(c: Config, size: nat)
    requires Sane(c)
    ensures (exists limit: nat :: AtMost(c, size, limit)) <==> size != c.rtsThreshold || c.shortLimit == 1
  {
    if size != c.rtsThreshold || c.shortLimit == 1 {
      TriesAreBounded(c, size);
      assert AtMost(c, size, Limit(c, Frame(size, false)));
    } else if limit: nat :| AtMost(c, size, limit) {
      ThresholdFramesAreUnbounded(c, limit);
    }
  }

  // ---------- a sender that stops ----------

  /** A frame that waits to be sent has a timer or a transmission to carry it on. */
  predicate Moving(m: Mac) {
    m.data.Holds? ==> m.send || m.defer || m.backoff
  }

  /** The one event that strands a frame: the medium is busy when a CTS is due. */
  predicate Strands(m: Mac, e: Event, quiet: bool) {
    e == DeferTimer && m.ctrl == CtsFrame && !quiet && m.data.Holds? && !m.backoff
  }

  lemma StrandsExactly(c: Config, m: Mac, e: Event, quiet: bool)
    requires Safe(m) && Enabled(m, e) && Moving(m)
    ensures !Moving(Step(c, m, e, quiet)) <==> Strands(m, e, quiet)
  {
  }

  /** And it does happen: the layer above sends while a CTS is due, and then another station speaks. */
  lemma StrandingIsReachable(c: Config, f: Frame)
    requires Sane(c)
    ensures exists es: seq<(Event, bool)>, m: Mac :: Path(c, Initial(c), es, m) && !Moving(m)
  {
    var m1 := Step(c, Initial(c), Rts, false);
    var m2 := Step(c, m1, Upper(f), true);
    var m3 := Step(c, m2, DeferTimer, false);
    OneStep(c, Initial(c), Rts, false);
    OneStep(c, m1, Upper(f), true);
    OneStep(c, m2, DeferTimer, false);
    PathsJoin(c, Initial(c), [(Rts, false)], m1, [(Upper(f), true)], m2);
    PathsJoin(c, Initial(c), [(Rts, false)] + [(Upper(f), true)], m2, [(DeferTimer, false)], m3);
    assert Path(c, Initial(c), [(Rts, false)] + [(Upper(f), true)] + [(DeferTimer, false)], m3) && !Moving(m3);
  }
}
