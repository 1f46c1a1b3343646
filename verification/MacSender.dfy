/**
 The handlers of the 802.11 sender as they run, on fields changed in place. The assertions of the
 original stand where it has them, as preconditions of helpers or as assertions of handlers, and
 every handler is proved to do what module Dcf says it does.
 */
module MacSender {
  import opened Dcf

  class Sender {
    const cfg: Config
    var txState: TxState
    var pktTx: Slot
    var pktRts: bool
    var pktCtrl: Control
    var callback: bool
    var sendBusy: bool
    var deferBusy: bool
    var backoffBusy: bool
    var backoffPaused: bool
    var ssrc: nat
    var slrc: nat
    var cw: nat
    ghost var tries: nat

    ghost function View(): Mac
      reads this
    {
      Mac(txState, pktTx, pktRts, pktCtrl, callback, sendBusy, deferBusy, backoffBusy, backoffPaused, ssrc, slrc, cw,
          tries)
    }

    constructor (cfg: Config)
      ensures this.cfg == cfg && View() == Initial(cfg) && Safe(View())
    {
      this.cfg := cfg;
      txState, pktTx, pktRts, pktCtrl, callback := TxIdle, Empty, false, NoControl, false;
      sendBusy, deferBusy, backoffBusy, backoffPaused := false, false, false, false;
      ssrc, slrc, cw, tries := 0, 0, cfg.cwMin, 0;
    }

    // ---------- timers are started only while they rest ----------

    method StartBackoff(quiet: bool)
      requires !backoffBusy
      modifies this`backoffBusy, this`backoffPaused
      ensures View() == Dcf.StartBackoff(old(View()), quiet)
    {
      backoffBusy := true;
      backoffPaused := !(txState == TxIdle && quiet);
    }

    method StartDefer()
      requires !deferBusy
      modifies this`deferBusy
      ensures View() == old(View()).(defer := true)
    {
      deferBusy := true;
    }

    /** `transmit` */
    method Transmit()
      requires !sendBusy
      modifies this`sendBusy
      ensures View() == old(View()).(send := true)
    {
      sendBusy := true;
    }

    /** `checkBackoffTimer` */
    method CheckBackoffTimer(quiet: bool)
      modifies this`backoffPaused
      ensures View() == CheckBackoff(old(View()), quiet)
    {
      if txState == TxIdle && quiet && backoffPaused && backoffBusy {
        backoffPaused := false;
      }
      if !(txState == TxIdle && quiet) && backoffBusy && !backoffPaused {
        backoffPaused := true;
      }
    }

    method SetTxState(s: TxState, quiet: bool)
      modifies this`txState, this`backoffPaused
      ensures View() == SetTx(old(View()), s, quiet)
    {
      txState := s;
      CheckBackoffTimer(quiet);
    }

    method IncCw()
      modifies this`cw
      ensures View() == old(View()).(cw := Dcf.IncCw(cfg, old(cw)))
      ensures cfg.cwMin <= old(cw) <= cfg.cwMax ==>
                old(cw) <= cw <= cfg.cwMax && (cw == cfg.cwMax || cw + 1 == 2 * (old(cw) + 1))
    {
      cw := 2 * cw + 1;
      if cw > cfg.cwMax {
        cw := cfg.cwMax;
      }
    }

    method RstCw()
      modifies this`cw
      ensures View() == old(View()).(cw := cfg.cwMin)
    {
      cw := cfg.cwMin;
    }

    // ---------- outgoing frames ----------

    /** `sendRTS` */
    method SendRTS()
      requires pktTx.Holds? && !pktRts
      modifies this`pktRts
      ensures View() == SendRts(cfg, old(View()))
    {
      if pktTx.frame.size < cfg.rtsThreshold || pktTx.frame.broadcast {
        return;
      }
      pktRts := true;
    }

    /** `sendDATA` */
    method SendDATA(f: Frame)
      requires pktTx == Empty
      modifies this`pktTx, this`tries
      ensures View() == old(View()).(data := Holds(f), tries := 0)
    {
      pktTx := Holds(f);
      tries := 0;
    }

    method Contend(quiet: bool)
      requires !backoffBusy && !deferBusy
      modifies this`backoffBusy, this`backoffPaused, this`deferBusy
      ensures View() == Dcf.Contend(cfg, old(View()), quiet)
    {
      if cfg.bugFix {
        StartBackoff(quiet);
      } else {
        StartDefer();
      }
    }

    /** `send` */
    method Send(f: Frame, quiet: bool)
      requires pktTx == Empty && !pktRts
      modifies this
      ensures View() == Accept(cfg, old(View()), f, quiet)
    {
      callback := true;
      SendDATA(f);
      SendRTS();
      if !backoffBusy {
        if txState == TxIdle && quiet {
          if !deferBusy {
            Contend(quiet);
          }
        } else {
          StartBackoff(quiet);
        }
      }
    }

    /** `tx_resume`; `next` is what the layer above sends from inside its callback. */
    method TxResume(quiet: bool, next: Slot)
      requires !sendBusy && !deferBusy
      modifies this
      ensures View() == Dcf.TxResume(cfg, old(View()), quiet, next)
    {
      if pktCtrl != NoControl {
        StartDefer();
      } else if pktRts {
        if !backoffBusy {
          Contend(quiet);
        }
      } else if pktTx.Holds? {
        if !backoffBusy {
          if pktTx.frame.size < cfg.rtsThreshold || pktTx.frame.broadcast {
            Contend(quiet);
          } else {
            StartDefer();
          }
        }
      } else if callback {
        callback := false;
        if next.Holds? {
          Send(next.frame, quiet);
        }
      }
      SetTxState(TxIdle, quiet);
    }

    // ---------- what a timer finds to send ----------

    /** `check_pktRTS`: returns whether it dealt with the matter. */
    method CheckPktRTS(quiet: bool) returns (done: bool)
      requires !backoffBusy && !sendBusy
      modifies this`cw, this`backoffBusy, this`backoffPaused, this`txState, this`sendBusy
      ensures done == old(pktRts)
      ensures View() == if done then CheckData(cfg, old(View()), quiet) else old(View())
    {
      if !pktRts {
        return false;
      }
      done := true;
      if !(txState == TxIdle && quiet) {
        IncCw();
        StartBackoff(quiet);
        return;
      }
      SetTxState(TxRts, quiet);
      Transmit();
    }

    /** `check_pktTx` */
    method CheckPktTx(quiet: bool)
      requires !backoffBusy && !sendBusy && !pktRts
      modifies this`cw, this`backoffBusy, this`backoffPaused, this`txState, this`sendBusy, this`pktRts, this`tries
      ensures View() == CheckData(cfg, old(View()), quiet)
    {
      if pktTx == Empty {
        return;
      }
      if !(txState == TxIdle && quiet) {
        SendRTS();
        IncCw();
        StartBackoff(quiet);
        return;
      }
      SetTxState(TxSend, quiet);
      Transmit();
      tries := tries + 1;
    }

    /** `check_pktCTRL` */
    method CheckPktCTRL(quiet: bool) returns (done: bool)
      requires !sendBusy
      modifies this`pktCtrl, this`txState, this`sendBusy, this`backoffPaused
      ensures done == (old(pktCtrl) != NoControl && old(txState) != TxCts && old(txState) != TxAck)
      ensures View() == if done then CheckControl(old(View()), quiet) else old(View())
    {
      if pktCtrl == NoControl || txState == TxCts || txState == TxAck {
        return false;
      }
      done := true;
      if pktCtrl == CtsFrame {
        if !(txState == TxIdle && quiet) {
          pktCtrl := NoControl;
          return;
        }
        SetTxState(TxCts, quiet);
      } else {
        SetTxState(TxAck, quiet);
      }
      Transmit();
    }

    // ---------- timer handlers ----------

    /** `backoffHandler`, called by the timer when it has run down. */
    method BackoffHandler(quiet: bool)
      requires Safe(View()) && backoffBusy && !backoffPaused
      modifies this
      ensures View() == BackoffExpires(cfg, old(View()), quiet) && Safe(View())
    {
      StepIsSafe(cfg, View(), BackoffTimer, quiet);
      backoffBusy, backoffPaused := false, false;
      if pktCtrl != NoControl {
        assert sendBusy || deferBusy;
        return;
      }
      var done := CheckPktRTS(quiet);
      if !done {
        CheckPktTx(quiet);
      }
    }

    /** `deferHandler` */
    method DeferHandler(quiet: bool)
      requires Safe(View()) && deferBusy
      modifies this
      ensures View() == DeferExpires(cfg, old(View()), quiet) && Safe(View())
    {
      StepIsSafe(cfg, View(), DeferTimer, quiet);
      deferBusy := false;
      assert pktCtrl != NoControl || pktRts || pktTx.Holds?;
      var done := CheckPktCTRL(quiet);
      if done {
        return;
      }
      assert !backoffBusy;
      done := CheckPktRTS(quiet);
      if !done {
        CheckPktTx(quiet);
      }
    }

    /** `RetransmitRTS` */
    method RetransmitRTS(quiet: bool)
      requires pktTx.Holds? && pktRts && !backoffBusy
      modifies this
      ensures View() == RetransmitRts(cfg, old(View()), quiet)
    {
      ssrc := ssrc + 1;
      if ssrc >= cfg.shortLimit {
        pktRts := false;
        pktTx := Empty;
        tries := 0;
        ssrc := 0;
        RstCw();
      } else {
        IncCw();
        StartBackoff(quiet);
      }
    }

    /** The counter of the frame's size counts one more failure. */
    method CountFailure(f: Frame) returns (count: nat)
      modifies this`ssrc, this`slrc
      ensures count == old(if f.size <= cfg.rtsThreshold then ssrc else slrc) + 1
      ensures View() == Counted(cfg, old(View()), f, count)
    {
      if f.size <= cfg.rtsThreshold {
        ssrc := ssrc + 1;
        count := ssrc;
      } else {
        slrc := slrc + 1;
        count := slrc;
      }
    }

    /** `RetransmitDATA` */
    method RetransmitDATA(quiet: bool)
      requires pktTx.Holds? && !pktRts && !backoffBusy
      modifies this
      ensures View() == RetransmitData(cfg, old(View()), quiet)
    {
      hide Dcf.StartBackoff, Dcf.SendRts, Dcf.IncCw;
      var f := pktTx.frame;
      if f.broadcast {
        pktTx := Empty;
        tries := 0;
        RstCw();
        StartBackoff(quiet);
        return;
      }
      var short := f.size <= cfg.rtsThreshold;
      var count := CountFailure(f);
      if count >= (if short then cfg.shortLimit else cfg.longLimit) {
        pktTx := Empty;
        tries := 0;
        if short {
          ssrc := 0;
        } else {
          slrc := 0;
        }
        RstCw();
      } else {
        SendRTS();
        IncCw();
        StartBackoff(quiet);
      }
    }

    /** `send_timer` */
    method SendTimer(quiet: bool, next: Slot)
      requires Safe(View()) && sendBusy
      modifies this
      ensures View() == SendExpires(cfg, old(View()), quiet, next) && Safe(View())
    {
      hide Dcf.TxResume;
      StepIsSafe(cfg, View(), Event.SendTimer(next), quiet);
      sendBusy := false;
      match txState {
        case TxRts =>
          RetransmitRTS(quiet);
        case TxCts =>
          assert pktCtrl != NoControl;
          pktCtrl := NoControl;
        case TxSend =>
          RetransmitDATA(quiet);
        case TxAck =>
          assert pktCtrl != NoControl;
          pktCtrl := NoControl;
        case TxIdle =>
      }
      TxResume(quiet, next);
    }

    // ---------- received frames ----------

    /** `recvRTS` */
    method RecvRTS(quiet: bool)
      requires Safe(View())
      modifies this
      ensures View() == RecvRts(cfg, old(View()), quiet) && Safe(View())
    {
      StepIsSafe(cfg, View(), Rts, quiet);
      if txState != TxIdle || pktCtrl != NoControl {
        return;
      }
      pktCtrl := CtsFrame;
      if deferBusy {
        deferBusy := false;
      }
      TxResume(quiet, Empty);
    }

    /** `recvCTS` */
    method RecvCTS(quiet: bool)
      requires Safe(View())
      modifies this
      ensures View() == RecvCts(cfg, old(View()), quiet) && Safe(View())
    {
      StepIsSafe(cfg, View(), Cts, quiet);
      if txState != TxRts {
        return;
      }
      assert pktRts;
      pktRts := false;
      assert pktTx.Holds?;
      sendBusy := false;
      ssrc := 0;
      TxResume(quiet, Empty);
    }

    /** `recvDATA`, up to the point where the frame is passed on. */
    method RecvDATA(f: Frame, quiet: bool)
      requires Safe(View()) && !deferBusy
      modifies this
      ensures View() == RecvData(cfg, old(View()), f, quiet) && Safe(View())
    {
      StepIsSafe(cfg, View(), Data(f), quiet);
      if f.broadcast {
        return;
      }
      if f.size >= cfg.rtsThreshold {
        if txState != TxCts {
          return;
        }
        assert pktCtrl != NoControl;
        pktCtrl := NoControl;
        sendBusy := false;
        pktCtrl := AckFrame;
        TxResume(quiet, Empty);
      } else {
        if pktCtrl != NoControl {
          return;
        }
        pktCtrl := AckFrame;
        if !sendBusy {
          TxResume(quiet, Empty);
        }
      }
    }

    method ResetCounter(f: Frame)
      modifies this`ssrc, this`slrc
      ensures View() == Counted(cfg, old(View()), f, 0)
    {
      if f.size <= cfg.rtsThreshold {
        ssrc := 0;
      } else {
        slrc := 0;
      }
    }

    /** The frame has arrived: its slot is free, and its counter and the window start afresh. */
    method FreeAcknowledged()
      requires pktTx.Holds?
      modifies this`sendBusy, this`ssrc, this`slrc, this`cw, this`pktTx, this`tries
      ensures View() == Counted(cfg, old(View()), old(pktTx.frame), 0)
                          .(send := false, data := Empty, cw := cfg.cwMin, tries := 0)
    {
      ResetCounter(pktTx.frame);
      sendBusy := false;
      RstCw();
      pktTx := Empty;
      tries := 0;
    }

    /** `recvACK` */
    method RecvACK(quiet: bool, next: Slot)
      requires Safe(View())
      modifies this
      ensures View() == RecvAck(cfg, old(View()), quiet, next) && Safe(View())
    {
      hide Dcf.TxResume, Dcf.StartBackoff;
      StepIsSafe(cfg, View(), Ack(next), quiet);
      if txState != TxSend {
        return;
      }
      FreeAcknowledged();
      StartBackoff(quiet);
      TxResume(quiet, next);
    }
  }
}
