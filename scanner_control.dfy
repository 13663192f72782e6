/**
 * The power and scan state machine of the scanner (`ScannerControl`), with
 * the two one-slot delay threads (`Waiter`) and the power-saving timer
 * (`Timer`) it drives. Durations are whole milliseconds. The four GPIO rails
 * are boolean fields; the callbacks the UI wires in are recorded, in order,
 * in `events`.
 */
module ScannerControl {
  import opened Wrappers
  import opened Bytes
  import opened ScanWorker

  const POWERSAVING_TIMEOUT: nat := 600_000
  const STARTUP_RESUME_DURATION: nat := 4_000
  const STARTUP_DURATION: nat := 7_000
  const RESTART_DELAY: nat := 1_000
  /** `_power_on` pushes the button 0.1 s after raising the power rail. */
  const BUTTON_DELAY: nat := 100

  datatype ScannerState = PowerDown | PowerSaving | StartingUp | ScanStarting | ScanRunning | ScanReceiving | Ready | Paperjam

  /** The callbacks the controller hands to its waiters. */
  datatype Callback = OnPoweredOnCall | PushButtonCall | PowerOnCall

  /** What a worker thread is doing: waiting for work, counting down a delay, or running a callback. */
  datatype Phase = Idle | Counting | Running

  /** A notify wakes the worker only while it waits for work; otherwise it is lost. */
  function AfterNotify(p: Phase): Phase {
    if p == Idle then Counting else p
  }

  /** The callbacks `ScannerControl` fires, and every `state_change` report. */
  datatype Event =
    | StateChanged(state: ScannerState)
    | ScannerReady | ScannerShutdown | ScannerStarting | ScannerRunning | ScannerReceiving
    | ScannerSuccess(data: seq<byte>) | ScannerJam | ScannerNoPaper

  /**
   * `Waiter`: one pending callback at a time. `delay` and `stop` both fail
   * their assertion when the slot is taken; the worker empties the slot
   * before running the callback.
   */
  class Waiter {
    var slot: Option<Callback>
    var timeout: nat
    var phase: Phase

    /** The worker counts down only for a callback it holds. */
    predicate Valid()
      reads this
    {
      phase == Counting ==> slot.Some?
    }

    constructor ()
      ensures Valid() && slot == None && timeout == 0 && phase == Idle
    {
      slot, timeout, phase := None, 0, Idle;
    }

    /** `delay`: fills the slot and wakes the worker if it is waiting for work. */
    method Delay(t: nat, f: Callback) returns (raised: bool)
      modifies this
      requires Valid()
      ensures Valid()
      ensures raised <==> old(slot).Some?
      ensures raised ==> slot == old(slot) && timeout == old(timeout) && phase == old(phase)
      ensures !raised ==> slot == Some(f) && timeout == t && phase == AfterNotify(old(phase))
    {
      if slot.Some? {
        raised := true;
        return;
      }
      timeout := t;
      slot := Some(f);
      if phase == Idle {
        phase := Counting;
      }
      raised := false;
    }

    /**
     * `stop`: with the slot empty the worker is never counting, so its
     * restart notify reaches nobody; only the timeout is reset.
     */
    method Stop() returns (raised: bool)
      modifies this
      requires Valid()
      ensures Valid()
      ensures raised <==> old(slot).Some?
      ensures slot == old(slot) && phase == old(phase)
      ensures timeout == if raised then old(timeout) else 0
    {
      if slot.Some? {
        raised := true;
        return;
      }
      timeout := 0;
      raised := false;
    }

    /** The delay runs out: the worker takes the callback out of the slot and runs it. */
    method Elapse() returns (fired: Option<Callback>)
      modifies this
      requires Valid()
      ensures Valid()
      ensures old(phase) == Counting ==> fired == old(slot) && fired.Some? && slot == None && phase == Running
      ensures old(phase) != Counting ==> fired == None && slot == old(slot) && phase == old(phase)
      ensures timeout == old(timeout)
    {
      if phase == Counting {
        fired := slot;
        slot := None;
        phase := Running;
      } else {
        fired := None;
      }
    }

    /** The callback returned: the worker waits for work again. */
    method Finish()
      modifies this
      requires Valid()
      ensures Valid()
      ensures phase == (if old(phase) == Running then Idle else old(phase))
      ensures slot == old(slot) && timeout == old(timeout)
    {
      if phase == Running {
        phase := Idle;
      }
    }
  }

  /**
   * `Timer`, used only as the power-saving timer: `start` notifies both the
   * restart and the work condition, so a counting worker abandons its count
   * and the work notify is lost; `start` on an armed timer disarms it.
   */
  class SleepTimer {
    var armed: bool
    var timeout: nat

    constructor ()
      ensures !armed && timeout == 0
    {
      armed, timeout := false, 0;
    }

    method Start(t: nat)
      modifies this
      ensures timeout == t && armed == !old(armed)
    {
      timeout := t;
      armed := !armed;
    }

    method Stop()
      modifies this
      ensures !armed && timeout == old(timeout)
    {
      armed := false;
    }

    /** The count runs out: the callback fires if the timer was armed. */
    method Expire() returns (fired: bool)
      modifies this
      ensures fired == old(armed) && !armed && timeout == old(timeout)
    {
      fired := armed;
      armed := false;
    }
  }

  /** The waiter still holds what it held. */
  predicate Same(w: Waiter, slot: Option<Callback>, timeout: nat, phase: Phase)
    reads w
  {
    w.slot == slot && w.timeout == timeout && w.phase == phase
  }

  /** The events `_scan` fires for its outcome; a failed assertion fires none. */
  function OutcomeEvents(o: Outcome): seq<Event> {
    match o
    case Success(data) => [StateChanged(Ready), ScannerSuccess(data)]
    case Jam => [StateChanged(Paperjam), ScannerJam]
    case NoPaper => [StateChanged(Ready), ScannerNoPaper]
    case BadData => []
  }

  /** The state a scan leaves behind; after a failed assertion it stays `ScanReceiving`. */
  function OutcomeState(o: Outcome): ScannerState {
    match o
    case Success(_) => Ready
    case Jam => Paperjam
    case NoPaper => Ready
    case BadData => ScanReceiving
  }

  /** Each `sane_start(` line moves the state to `ScanRunning` and fires `scanner_running`. */
  function RunningEvents(n: nat): seq<Event> {
    if n == 0 then [] else RunningEvents(n - 1) + [StateChanged(ScanRunning), ScannerRunning]
  }

  /** `n` starts give `n` pairs of a state change to `ScanRunning` and `scanner_running`, in that order. */
  lemma {:induction false} RunningEventsPairs(n: nat)
    ensures |RunningEvents(n)| == 2 * n
    ensures forall k :: 0 <= k < n ==>
              RunningEvents(n)[2 * k] == StateChanged(ScanRunning) && RunningEvents(n)[2 * k + 1] == ScannerRunning
  {
    if n > 0 {
      RunningEventsPairs(n - 1);
    }
  }

  /** What the scan worker reports after `starts` `sane_start(` lines and outcome `o`. */
  function Reports(starts: nat, o: Outcome): seq<Event> {
    [ScannerStarting] + RunningEvents(starts) + [StateChanged(ScanReceiving), ScannerReceiving] + OutcomeEvents(o)
  }

  lemma ReportsSplit(before: seq<Event>, starts: nat, o: Outcome)
    ensures before + [ScannerStarting] + RunningEvents(starts) + [StateChanged(ScanReceiving), ScannerReceiving] +
            OutcomeEvents(o) == before + Reports(starts, o)
  {
  }

  /** What the scan worker reports, given what the two pipes delivered. */
  function ScanEvents(info: seq<seq<byte>>, data: seq<seq<byte>>): seq<Event> {
    Reports(Starts(info), ScanOutcome(info, data))
  }

  class ScannerControl {
    var state: ScannerState
    var onOff: bool
    var button: bool
    var paper: bool
    var motorSleep: bool
    /** How many times the power button has been pulsed. */
    var presses: nat
    var events: seq<Event>
    const waiter: Waiter
    const waiter2: Waiter
    const sleepTimer: SleepTimer

    /**
     * The two waiters are distinct; the first only ever holds `_on_powered_on`
     * or `_power_on`, the second only `_push_button`; and while
     * `_on_powered_on` is pending the power-saving timer is disarmed, so the
     * `start` in `_on_powered_on` always arms it.
     */
    predicate Valid()
      reads this, waiter, waiter2, sleepTimer
    {
      waiter != waiter2 && waiter.Valid() && waiter2.Valid() &&
      waiter.slot != Some(PushButtonCall) && (waiter2.slot == None || waiter2.slot == Some(PushButtonCall)) &&
      (waiter.slot == Some(OnPoweredOnCall) ==> !sleepTimer.armed)
    }

    /** All four rails low, in `PowerDown`, nothing pending. */
    predicate Cold()
      reads this, waiter, waiter2, sleepTimer
    {
      state == PowerDown && !onOff && !button && !paper && !motorSleep &&
      waiter.slot == None && waiter.phase == Idle && waiter2.slot == None && waiter2.phase == Idle &&
      !sleepTimer.armed
    }

    constructor ()
      ensures Valid() && Cold() && presses == 0 && events == []
      ensures fresh(waiter) && fresh(waiter2) && fresh(sleepTimer)
    {
      state := PowerDown;
      onOff, button, paper, motorSleep := false, false, false, false;
      presses := 0;
      events := [];
      waiter := new Waiter();
      waiter2 := new Waiter();
      sleepTimer := new SleepTimer();
    }

    /** `can_scan` */
    predicate CanScan()
      reads this
    {
      state == Ready
    }

    /** `_set_state`: stores the state and reports that same state. */
    method SetState(s: ScannerState)
      modifies this
      ensures state == s && events == old(events) + [StateChanged(s)]
      ensures onOff == old(onOff) && button == old(button) && paper == old(paper) && motorSleep == old(motorSleep)
      ensures presses == old(presses)
    {
      state := s;
      events := events + [StateChanged(s)];
    }

    /** `_on_power_saving`: the sleep timer ran out. */
    method OnPowerSaving()
      modifies this
      ensures state == PowerSaving && events == old(events) + [StateChanged(PowerSaving), ScannerShutdown]
      ensures onOff == old(onOff) && button == old(button) && paper == old(paper) && motorSleep == old(motorSleep)
      ensures presses == old(presses)
    {
      SetState(PowerSaving);
      events := events + [ScannerShutdown];
    }

    /** `_on_powered_on`: arms the power-saving timer and reports ready. */
    method OnPoweredOn()
      modifies this, sleepTimer
      requires !sleepTimer.armed
      ensures sleepTimer.armed && sleepTimer.timeout == POWERSAVING_TIMEOUT
      ensures state == Ready && events == old(events) + [StateChanged(Ready), ScannerReady]
      ensures onOff == old(onOff) && button == old(button) && paper == old(paper) && motorSleep == old(motorSleep)
      ensures presses == old(presses)
    {
      sleepTimer.Start(POWERSAVING_TIMEOUT);
      SetState(Ready);
      events := events + [ScannerReady];
    }

    /** `_push_button`: one pulse; the rail ends low. */
    method PushButton()
      modifies this
      ensures presses == old(presses) + 1 && !button
      ensures state == old(state) && events == old(events)
      ensures onOff == old(onOff) && paper == old(paper) && motorSleep == old(motorSleep)
    {
      button := true;
      presses := presses + 1;
      button := false;
    }

    /**
     * `_power_on`: stops the sleep timer, raises the power and motor rails,
     * enters `StartingUp`, then schedules `_on_powered_on` after
     * `STARTUP_DURATION` and the button push after `BUTTON_DELAY`.
     */
    method PowerOn() returns (raised: bool)
      modifies this, waiter, waiter2, sleepTimer
      requires Valid()
      ensures Valid()
      ensures !sleepTimer.armed && sleepTimer.timeout == old(sleepTimer.timeout)
      ensures onOff && motorSleep && button == old(button) && paper == old(paper) && presses == old(presses)
      ensures state == StartingUp && events == old(events) + [StateChanged(StartingUp)]
      ensures raised <==> old(waiter.slot).Some? || old(waiter2.slot).Some?
      ensures old(waiter.slot).Some? ==> Same(waiter, old(waiter.slot), old(waiter.timeout), old(waiter.phase)) &&
                                         Same(waiter2, old(waiter2.slot), old(waiter2.timeout), old(waiter2.phase))
      ensures old(waiter.slot).None? ==>
                waiter.slot == Some(OnPoweredOnCall) && waiter.timeout == STARTUP_DURATION &&
                waiter.phase == AfterNotify(old(waiter.phase))
      ensures old(waiter.slot).None? && old(waiter2.slot).Some? ==>
                Same(waiter2, old(waiter2.slot), old(waiter2.timeout), old(waiter2.phase))
      ensures old(waiter.slot).None? && old(waiter2.slot).None? ==>
                waiter2.slot == Some(PushButtonCall) && waiter2.timeout == BUTTON_DELAY &&
                waiter2.phase == AfterNotify(old(waiter2.phase))
    {
      sleepTimer.Stop();
      onOff := true;
      motorSleep := true;
      SetState(StartingUp);
      raised := waiter.Delay(STARTUP_DURATION, OnPoweredOnCall);
      if raised {
        return;
      }
      raised := waiter2.Delay(BUTTON_DELAY, PushButtonCall);
    }

    /**
     * `_power_off`: stops every timer and drives all four rails low; it
     * reports `PowerDown` and `scanner_shutdown` only when not already down.
     */
    method PowerOff() returns (raised: bool)
      modifies this, waiter, waiter2, sleepTimer
      requires Valid()
      ensures Valid()
      ensures !sleepTimer.armed && sleepTimer.timeout == old(sleepTimer.timeout)
      ensures raised <==> old(waiter.slot).Some? || old(waiter2.slot).Some?
      ensures waiter.slot == old(waiter.slot) && waiter.phase == old(waiter.phase)
      ensures waiter2.slot == old(waiter2.slot) && waiter2.phase == old(waiter2.phase)
      ensures presses == old(presses)
      ensures raised ==> state == old(state) && events == old(events) &&
                         onOff == old(onOff) && button == old(button) && paper == old(paper) && motorSleep == old(motorSleep)
      ensures !raised ==> state == PowerDown && !onOff && !button && !paper && !motorSleep &&
                          waiter.timeout == 0 && waiter2.timeout == 0 &&
                          events == old(events) + (if old(state) != PowerDown then [StateChanged(PowerDown), ScannerShutdown] else [])
    {
      sleepTimer.Stop();
      raised := waiter.Stop();
      if raised {
        return;
      }
      raised := waiter2.Stop();
      if raised {
        return;
      }
      motorSleep, onOff, button, paper := false, false, false, false;
      if state != PowerDown {
        SetState(PowerDown);
        events := events + [ScannerShutdown];
      }
    }

    /** `_resume_from_powersaving`: one button pulse, then `_on_powered_on` after `STARTUP_RESUME_DURATION`. */
    method Resume() returns (raised: bool)
      modifies this, waiter, sleepTimer
      requires Valid()
      ensures Valid()
      ensures !sleepTimer.armed && sleepTimer.timeout == old(sleepTimer.timeout)
      ensures presses == old(presses) + 1 && !button
      ensures state == old(state) && events == old(events)
      ensures onOff == old(onOff) && paper == old(paper) && motorSleep == old(motorSleep)
      ensures raised <==> old(waiter.slot).Some?
      ensures raised ==> Same(waiter, old(waiter.slot), old(waiter.timeout), old(waiter.phase))
      ensures !raised ==> waiter.slot == Some(OnPoweredOnCall) && waiter.timeout == STARTUP_RESUME_DURATION &&
                          waiter.phase == AfterNotify(old(waiter.phase))
    {
      sleepTimer.Stop();
      PushButton();
      raised := waiter.Delay(STARTUP_RESUME_DURATION, OnPoweredOnCall);
    }

    /**
     * `startup`: powers on from `PowerDown`, resumes from `PowerSaving`,
     * and otherwise only reports ready.
     */
    method Startup() returns (raised: bool)
      modifies this, waiter, waiter2, sleepTimer
      requires Valid()
      ensures Valid()
      ensures old(state) == PowerDown ==>
                state == StartingUp && onOff && motorSleep && !sleepTimer.armed &&
                events == old(events) + [StateChanged(StartingUp)] &&
                (raised <==> old(waiter.slot).Some? || old(waiter2.slot).Some?) &&
                (old(waiter.slot).Some? ==> Same(waiter, old(waiter.slot), old(waiter.timeout), old(waiter.phase)) &&
                                            Same(waiter2, old(waiter2.slot), old(waiter2.timeout), old(waiter2.phase))) &&
                (old(waiter.slot).None? ==> waiter.slot == Some(OnPoweredOnCall) && waiter.timeout == STARTUP_DURATION &&
                                            waiter.phase == AfterNotify(old(waiter.phase))) &&
                (old(waiter.slot).None? && old(waiter2.slot).Some? ==>
                   Same(waiter2, old(waiter2.slot), old(waiter2.timeout), old(waiter2.phase))) &&
                (!raised ==> waiter2.slot == Some(PushButtonCall) && waiter2.timeout == BUTTON_DELAY &&
                             waiter2.phase == AfterNotify(old(waiter2.phase)))
      ensures old(state) == PowerSaving ==>
                state == PowerSaving && presses == old(presses) + 1 && !sleepTimer.armed &&
                events == old(events) && Same(waiter2, old(waiter2.slot), old(waiter2.timeout), old(waiter2.phase)) &&
                (raised <==> old(waiter.slot).Some?) &&
                (raised ==> Same(waiter, old(waiter.slot), old(waiter.timeout), old(waiter.phase))) &&
                (!raised ==> waiter.slot == Some(OnPoweredOnCall) && waiter.timeout == STARTUP_RESUME_DURATION &&
                             waiter.phase == AfterNotify(old(waiter.phase)))
      ensures old(state) != PowerDown && old(state) != PowerSaving ==>
                !raised && state == old(state) && events == old(events) + [ScannerReady] &&
                Same(waiter, old(waiter.slot), old(waiter.timeout), old(waiter.phase)) && Same(waiter2, old(waiter2.slot), old(waiter2.timeout), old(waiter2.phase)) &&
                sleepTimer.armed == old(sleepTimer.armed) && sleepTimer.timeout == old(sleepTimer.timeout)
      ensures old(state) != PowerDown ==>
                onOff == old(onOff) && motorSleep == old(motorSleep)
      ensures paper == old(paper) && (old(state) == PowerSaving ==> !button) && (old(state) != PowerSaving ==> button == old(button))
      ensures old(state) != PowerSaving ==> presses == old(presses)
      ensures sleepTimer.timeout == old(sleepTimer.timeout)
    {
      if state == PowerDown {
        raised := PowerOn();
      } else if state == PowerSaving {
        raised := Resume();
      } else {
        events := events + [ScannerReady];
        raised := false;
      }
    }

    /** `shutdown` */
    method Shutdown() returns (raised: bool)
      modifies this, waiter, waiter2, sleepTimer
      requires Valid()
      ensures Valid()
      ensures !sleepTimer.armed && sleepTimer.timeout == old(sleepTimer.timeout)
      ensures raised <==> old(waiter.slot).Some? || old(waiter2.slot).Some?
      ensures waiter.slot == old(waiter.slot) && waiter.phase == old(waiter.phase)
      ensures waiter2.slot == old(waiter2.slot) && waiter2.phase == old(waiter2.phase)
      ensures presses == old(presses)
      ensures raised ==> state == old(state) && events == old(events) &&
                         onOff == old(onOff) && button == old(button) && paper == old(paper) && motorSleep == old(motorSleep)
      ensures !raised ==> state == PowerDown && !onOff && !button && !paper && !motorSleep &&
                          waiter.timeout == 0 && waiter2.timeout == 0 &&
                          events == old(events) + (if old(state) != PowerDown then [StateChanged(PowerDown), ScannerShutdown] else [])
    {
      raised := PowerOff();
    }

    /** `reset`: power off, then `_power_on` after `RESTART_DELAY` on the first waiter. */
    method Reset() returns (raised: bool)
      modifies this, waiter, waiter2, sleepTimer
      requires Valid()
      ensures Valid()
      ensures !sleepTimer.armed && sleepTimer.timeout == old(sleepTimer.timeout)
      ensures raised <==> old(waiter.slot).Some? || old(waiter2.slot).Some?
      ensures waiter2.slot == old(waiter2.slot) && waiter2.phase == old(waiter2.phase)
      ensures presses == old(presses)
      ensures raised ==> state == old(state) && events == old(events) &&
                         onOff == old(onOff) && button == old(button) && paper == old(paper) && motorSleep == old(motorSleep) &&
                         waiter.slot == old(waiter.slot) && waiter.phase == old(waiter.phase)
      ensures !raised ==> state == PowerDown && !onOff && !button && !paper && !motorSleep &&
                          waiter.slot == Some(PowerOnCall) && waiter.timeout == RESTART_DELAY &&
                          waiter.phase == AfterNotify(old(waiter.phase)) && waiter2.timeout == 0 &&
                          events == old(events) + (if old(state) != PowerDown then [StateChanged(PowerDown), ScannerShutdown] else [])
    {
      raised := PowerOff();
      if raised {
        return;
      }
      raised := waiter.Delay(RESTART_DELAY, PowerOnCall);
    }

    /** `scan`: only from `Ready`; anything else fails the assertion and changes nothing. */
    method Scan() returns (raised: bool)
      modifies this
      ensures raised <==> old(state) != Ready
      ensures raised ==> state == old(state) && events == old(events)
      ensures !raised ==> state == ScanStarting && events == old(events) + [StateChanged(ScanStarting)]
      ensures onOff == old(onOff) && button == old(button) && paper == old(paper) && motorSleep == old(motorSleep)
      ensures presses == old(presses)
    {
      if !CanScan() {
        raised := true;
        return;
      }
      SetState(ScanStarting);
      raised := false;
    }

    /** The start of `_scan`: reports `scanner_starting`, wakes the motor and feeds paper. */
    method Feed()
      modifies this
      ensures events == old(events) + [ScannerStarting] && paper && !motorSleep
      ensures state == old(state) && onOff == old(onOff) && button == old(button) && presses == old(presses)
    {
      events := events + [ScannerStarting];
      motorSleep := false;
      paper := true;
    }

    /** Each `sane_start(` line the debug output held moves the state to `ScanRunning` and is reported. */
    method ReportStarts(starts: nat)
      modifies this
      ensures events == old(events) + RunningEvents(starts)
      ensures state == if starts > 0 then ScanRunning else old(state)
      ensures onOff == old(onOff) && button == old(button) && paper == old(paper) && motorSleep == old(motorSleep)
      ensures presses == old(presses)
    {
      if starts > 0 {
        state := ScanRunning;
      }
      events := events + RunningEvents(starts);
    }

    /** The paper timeout of `_scan`: the paper rail drops and `ScanReceiving` is reported. */
    method EndFeed()
      modifies this
      ensures events == old(events) + [StateChanged(ScanReceiving), ScannerReceiving]
      ensures state == ScanReceiving && !paper && !motorSleep
      ensures onOff == old(onOff) && button == old(button) && presses == old(presses)
    {
      paper := false;
      SetState(ScanReceiving);
      events := events + [ScannerReceiving];
      motorSleep := false;
    }

    /** The end of `_scan`: the state and report of the outcome; a failed assertion reports nothing. */
    method ReportOutcome(o: Outcome)
      modifies this
      ensures state == (if o == BadData then old(state) else OutcomeState(o))
      ensures events == old(events) + OutcomeEvents(o)
      ensures onOff == old(onOff) && button == old(button) && paper == old(paper) && motorSleep == old(motorSleep)
      ensures presses == old(presses)
    {
      match o {
        case Success(d) =>
          SetState(Ready);
          events := events + [ScannerSuccess(d)];
        case Jam =>
          SetState(Paperjam);
          events := events + [ScannerJam];
        case NoPaper =>
          SetState(Ready);
          events := events + [ScannerNoPaper];
        case BadData =>
      }
    }

    /**
     * `_scan`, the worker thread `scan` starts: it feeds paper, reads the
     * debug output (`info`) and the image (`data`) of `scanimage`, reports
     * each `sane_start(`, the end of the paper feed, and then the outcome.
     */
    method RunScan(info: seq<seq<byte>>, data: seq<seq<byte>>) returns (raised: bool)
      modifies this
      ensures var o := ScanOutcome(info, data);
              (raised <==> o == BadData) && state == OutcomeState(o) &&
              events == old(events) + ScanEvents(info, data)
      ensures !paper && !motorSleep && onOff == old(onOff) && button == old(button) && presses == old(presses)
    {
      Feed();
      var starts, noPaper, jam, bytes := Observe(info, data);
      ReportStarts(starts);
      EndFeed();
      var o := Verdict(jam, noPaper, bytes);
      ReportOutcome(o);
      ReportsSplit(old(events), starts, o);
      raised := o == BadData;
    }

    /**
     * The first waiter's delay runs out and its worker runs the callback. A
     * callback that fails its assertion ends the worker thread, which then
     * stays `Running` for good.
     */
    method WaiterElapsed() returns (raised: bool)
      modifies this, waiter, waiter2, sleepTimer
      requires Valid()
      ensures Valid()
      ensures old(waiter.phase) != Counting ==>
                !raised && unchanged(this) && Same(waiter, old(waiter.slot), old(waiter.timeout), old(waiter.phase)) && Same(waiter2, old(waiter2.slot), old(waiter2.timeout), old(waiter2.phase)) &&
                sleepTimer.armed == old(sleepTimer.armed)
      ensures old(waiter.phase) == Counting && old(waiter.slot) == Some(OnPoweredOnCall) ==>
                !raised && state == Ready && events == old(events) + [StateChanged(Ready), ScannerReady] &&
                sleepTimer.armed && sleepTimer.timeout == POWERSAVING_TIMEOUT &&
                waiter.slot == None && waiter.phase == Idle && Same(waiter2, old(waiter2.slot), old(waiter2.timeout), old(waiter2.phase)) &&
                onOff == old(onOff) && motorSleep == old(motorSleep) && button == old(button) && paper == old(paper) &&
                presses == old(presses)
      ensures old(waiter.phase) == Counting && old(waiter.slot) == Some(PowerOnCall) ==>
                state == StartingUp && onOff && motorSleep && !sleepTimer.armed &&
                events == old(events) + [StateChanged(StartingUp)] &&
                waiter.slot == Some(OnPoweredOnCall) && waiter.timeout == STARTUP_DURATION &&
                (raised <==> old(waiter2.slot).Some?) &&
                waiter.phase == (if raised then Running else Idle) &&
                (raised ==> Same(waiter2, old(waiter2.slot), old(waiter2.timeout), old(waiter2.phase))) &&
                (!raised ==> waiter2.slot == Some(PushButtonCall) && waiter2.timeout == BUTTON_DELAY &&
                             waiter2.phase == AfterNotify(old(waiter2.phase))) &&
                button == old(button) && paper == old(paper) && presses == old(presses) &&
                sleepTimer.timeout == old(sleepTimer.timeout)
    {
      var fired := waiter.Elapse();
      raised := false;
      match fired {
        case None =>
          return;
        case Some(f) =>
          if f == OnPoweredOnCall {
            OnPoweredOn();
          } else if f == PowerOnCall {
            raised := PowerOn();
          }
      }
      if !raised {
        waiter.Finish();
      }
    }

    /** The second waiter's delay runs out: the button is pulsed. */
    method Waiter2Elapsed()
      modifies this, waiter2
      requires Valid()
      ensures Valid()
      ensures old(waiter2.phase) != Counting ==> unchanged(this) && Same(waiter2, old(waiter2.slot), old(waiter2.timeout), old(waiter2.phase))
      ensures old(waiter2.phase) == Counting ==>
                presses == old(presses) + 1 && !button && state == old(state) && events == old(events) &&
                waiter2.slot == None && waiter2.phase == Idle &&
                onOff == old(onOff) && paper == old(paper) && motorSleep == old(motorSleep)
    {
      var fired := waiter2.Elapse();
      if fired.Some? {
        PushButton();
        waiter2.Finish();
      }
    }

    /** The power-saving timer runs out; `_on_power_saving` fires only if it was armed. */
    method SleepTimerExpired()
      modifies this, sleepTimer
      requires Valid()
      ensures Valid()
      ensures !sleepTimer.armed && sleepTimer.timeout == old(sleepTimer.timeout)
      ensures !old(sleepTimer.armed) ==> unchanged(this)
      ensures old(sleepTimer.armed) ==>
                state == PowerSaving && events == old(events) + [StateChanged(PowerSaving), ScannerShutdown] &&
                onOff == old(onOff) && button == old(button) && paper == old(paper) && motorSleep == old(motorSleep) &&
                presses == old(presses)
    {
      var fired := sleepTimer.Expire();
      if fired {
        OnPowerSaving();
      }
    }
  }

  /** A scan reports its start, two events per `sane_start(` line, the end of the feed, then the outcome. */
  lemma ScanEventsShape(info: seq<seq<byte>>, data: seq<seq<byte>>)
    ensures var o := ScanOutcome(info, data);
            var r := ScanEvents(info, data);
            var n := Starts(info);
            |r| == 3 + 2 * n + |OutcomeEvents(o)| && r[0] == ScannerStarting &&
            (forall k :: 0 <= k < n ==> r[1 + 2 * k] == StateChanged(ScanRunning) && r[2 + 2 * k] == ScannerRunning) &&
            r[1 + 2 * n] == StateChanged(ScanReceiving) && r[2 + 2 * n] == ScannerReceiving &&
            r[3 + 2 * n..] == OutcomeEvents(o) &&
            (o.Success? ==> r[|r| - 1] == ScannerSuccess(Received(data))) &&
            (o == Jam ==> r[|r| - 1] == ScannerJam) &&
            (o == NoPaper ==> r[|r| - 1] == ScannerNoPaper)
  {
    var n := Starts(info);
    RunningEventsPairs(n);
    var r := ScanEvents(info, data);
    assert r[1..1 + 2 * n] == RunningEvents(n);
  }

  /**
   * A cold `startup`: the button waiter pulses the button once, then
   * `_on_powered_on` brings the scanner to `Ready` with the sleep timer armed.
   */
  method ColdStart() returns (c: ScannerControl)
    ensures fresh(c) && fresh(c.waiter) && fresh(c.waiter2) && fresh(c.sleepTimer) && c.Valid()
    ensures c.state == Ready && c.onOff && c.motorSleep && !c.button && !c.paper && c.presses == 1
    ensures c.sleepTimer.armed && c.sleepTimer.timeout == POWERSAVING_TIMEOUT
    ensures c.waiter.slot == None && c.waiter.phase == Idle && c.waiter2.slot == None && c.waiter2.phase == Idle
    ensures c.events == [StateChanged(StartingUp), StateChanged(Ready), ScannerReady]
  {
    c := new ScannerControl();
    var raised := c.Startup();
    assert !raised && c.state == StartingUp && c.presses == 0;
    c.Waiter2Elapsed();
    assert c.state == StartingUp && c.presses == 1;
    raised := c.WaiterElapsed();
  }

  /**
   * Left idle, the sleep timer moves the scanner to `PowerSaving`; a
   * `startup` then pulses the button without changing state, and
   * `_on_powered_on` brings it back to `Ready`.
   */
  method IdleThenResume() returns (c: ScannerControl)
    ensures fresh(c) && c.Valid()
    ensures c.state == Ready && c.presses == 2 && c.sleepTimer.armed
    ensures c.events == [StateChanged(StartingUp), StateChanged(Ready), ScannerReady,
                         StateChanged(PowerSaving), ScannerShutdown,
                         StateChanged(Ready), ScannerReady]
  {
    c := ColdStart();
    c.SleepTimerExpired();
    assert c.state == PowerSaving && c.waiter.slot == None && c.waiter.phase == Idle;
    var raised := c.Startup();
    assert !raised && c.state == PowerSaving && c.presses == 2;
    raised := c.WaiterElapsed();
  }

  /** `scan` is refused before the scanner is ready, accepted once, and refused again while scanning. */
  method ScanOnce() returns (c: ScannerControl, early: bool, first: bool, second: bool)
    ensures fresh(c)
    ensures early && !first && second
    ensures c.state == ScanStarting
    ensures c.events == [StateChanged(StartingUp), StateChanged(Ready), ScannerReady, StateChanged(ScanStarting)]
  {
    var cold := new ScannerControl();
    early := cold.Scan();
    c := ColdStart();
    first := c.Scan();
    second := c.Scan();
  }

  /** `shutdown` while `_on_powered_on` is still pending fails the waiter's assertion and changes nothing. */
  method ShutdownWhileStarting() returns (c: ScannerControl, raised: bool)
    ensures fresh(c) && c.Valid()
    ensures raised && c.state == StartingUp && c.events == [StateChanged(StartingUp)]
  {
    c := new ScannerControl();
    raised := c.Startup();
    assert !raised;
    raised := c.Shutdown();
  }

  /**
   * `reset` from `Ready`: `_power_on` runs on the first waiter's own thread,
   * so the notify of its `delay` for `_on_powered_on` reaches nobody. The
   * callback stays in the slot, the scanner stays `StartingUp` for good, and
   * a later `shutdown` fails the waiter's assertion.
   */
  method ResetNeverReady() returns (c: ScannerControl, raised: bool)
    ensures fresh(c) && c.Valid()
    ensures c.state == StartingUp && c.onOff
    ensures c.waiter.slot == Some(OnPoweredOnCall) && c.waiter.phase == Idle
    ensures raised
    ensures c.events == [StateChanged(StartingUp), StateChanged(Ready), ScannerReady,
                         StateChanged(PowerDown), ScannerShutdown, StateChanged(StartingUp)]
  {
    c := ColdStart();
    raised := c.Reset();
    assert !raised && c.state == PowerDown && c.waiter.slot == Some(PowerOnCall) && c.waiter.phase == Counting;
    raised := c.WaiterElapsed();
    assert !raised && c.state == StartingUp && c.waiter.phase == Idle;
    c.Waiter2Elapsed();
    raised := c.WaiterElapsed();
    assert !raised && c.state == StartingUp && c.waiter.slot == Some(OnPoweredOnCall);
    raised := c.Shutdown();
  }
}
