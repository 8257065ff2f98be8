/**
 * The supervision loop of `start` (run_red.py:43-109) as a discrete-tick
 * state machine. The world the loop polls (the clock, the child's own exit,
 * the maintenance file, the datagram socket, an operator interrupt, and how
 * the child answers a stop ladder) is a finite trace of ticks, one per
 * iteration of whichever loop is running: a full poll interval, or less when
 * a datagram ends `recv` early. Every check made within one iteration reads
 * the same tick.
 */
module Supervisor {
  import opened Base
  import opened Process
  import opened Heartbeat

  /**
   * The options the loop reads: whether the watchdog is on (`--watchdog` or
   * `RED_WATCHDOG=1`), the watchdog timer in seconds (`--timer`), and whether
   * a maintenance file path is configured at all (`args.maint` non-empty).
   */
  datatype Config = Config(watchdog: bool, timer: int, maint: bool)

  /** What `sock.recv(64).decode("utf-8")` gives in one loop iteration. */
  datatype Receive =
    | Silence                  // `socket.timeout`
    | Datagram(text: string)   // a decoded datagram of at most 64 bytes
    | Fault                    // any other exception, such as a datagram that is not UTF-8

  /**
   * One loop iteration: the clock (`time()`), the status the child exits
   * with on its own during this interval (None: it does not), whether the
   * maintenance file exists, what the socket delivers, whether the operator
   * interrupts the supervisor (`KeyboardInterrupt`), and how the child
   * answers a stop ladder begun in this interval. An interrupt comes first
   * in its interval; otherwise the child's own exit happens before the
   * supervisor looks at the child.
   */
  datatype Tick = Tick(now: int, exit: Option<int>, maintFile: bool, received: Receive, interrupt: bool,
                       reaction: StopResponse)

  /** Which loop of `start` is running; the watchdog loop keeps `last_pet`. */
  datatype Mode = Watching(lastPet: int) | Polling | Maintenance

  /** The supervisor between two ticks: the loop it is in and its child. */
  datatype State = State(mode: Mode, proc: ProcState)

  /** The effect of one tick: stay in a loop, or leave the `try` block for `finally`. */
  datatype Step = Continue(next: State) | Leave(proc: ProcState, error: bool, kbi: bool)

  /**
   * The end of a run: still supervising when the trace ends, or the exit
   * status of the supervisor, the signals its child received, and the
   * index of the tick in which it exited.
   */
  datatype Outcome = Pending | Exited(code: int, signals: seq<Signal>, at: nat)

  /** The child's own exit during a tick, if it is still running. */
  function Observe(p: ProcState, exit: Option<int>): (q: ProcState)
  {
    if p.running && exit.Some? then p.(running := false, status := exit.value) else p
  }

  /** True when the tick delivers a well-formed `WATCHDOG=1` pulse. */
  predicate PulseAt(t: Tick) {
    t.received.Datagram? && IsPulse(t.received.text)
  }

  /** The decision at run_red.py:108-109: exit 1 on an error or a nonzero stop status, unless interrupted. */
  function ExitCode(error: bool, ret: int, kbi: bool): (code: int)
  {
    if (error || ret != 0) && !kbi then 1 else 0
  }

  /** One tick of whichever loop is running. */
  function Advance(cfg: Config, st: State, t: Tick): (step: Step)
  {
    if t.interrupt then Leave(st.proc, false, true)
    else
      var p := Observe(st.proc, t.exit);
      var maint := cfg.maint && t.maintFile;
      match st.mode
      case Watching(last) =>
        if t.now - last < cfg.timer && p.running && !maint then
          match t.received
          case Silence => Continue(State(Watching(last), p))
          case Datagram(d) => Continue(State(Watching(if IsPulse(d) then t.now else last), p))
          case Fault => Leave(p, true, false)
        else if maint then Continue(State(Maintenance, Stop(p, t.reaction).0))
        else Leave(p, p.running, false)
      case Polling =>
        if maint then Continue(State(Maintenance, Stop(p, t.reaction).0))
        else if !p.running then Leave(p, p.status != 0, false)
        else Continue(State(Polling, p))
      case Maintenance =>
        if t.maintFile then Continue(State(Maintenance, p)) else Leave(p, false, false)
  }

  /** The `finally` block: stop the child once more and decide the exit status. */
  function Finish(p: ProcState, error: bool, kbi: bool, r: StopResponse, at: nat): (out: Outcome)
  {
    var (q, ret) := Stop(p, r);
    Exited(ExitCode(error, ret, kbi), q.signals, at)
  }

  /** The run from tick `i` on, in state `st`. */
  function RunFrom(cfg: Config, st: State, ticks: seq<Tick>, i: nat): (out: Outcome)
    decreases |ticks| - i
  {
    if i >= |ticks| then Pending
    else
      match Advance(cfg, st, ticks[i])
      case Continue(next) => RunFrom(cfg, next, ticks, i + 1)
      case Leave(p, error, kbi) => Finish(p, error, kbi, ticks[i].reaction, i)
  }

  /** The state right after `Popen` succeeded; `start` is `time()` at run_red.py:63. */
  function Initial(cfg: Config, start: int): (st: State)
  {
    State(if cfg.watchdog then Watching(start) else Polling, ProcState(true, 0, []))
  }

  /**
   * A whole run. When `Popen` fails the `except` clause sets `error`, the
   * `finally` clause fails on the unbound `p`, and the interpreter exits 1.
   */
  function Run(cfg: Config, spawned: bool, start: int, ticks: seq<Tick>): (out: Outcome)
  {
    if spawned then RunFrom(cfg, Initial(cfg, start), ticks, 0) else Exited(1, [], 0)
  }

  /**
   * `start` after the socket is bound: spawn the child, run the watchdog
   * loop or the simple wait loop, hold the child stopped while the
   * maintenance file exists, and in `finally` stop the child and decide
   * the exit status.
   */
  method Supervise(cfg: Config, spawned: bool, start: int, ticks: seq<Tick>) returns (out: Outcome)
    ensures out == Run(cfg, spawned, start, ticks)
  {
    if !spawned {
      return Exited(1, [], 0);
    }
    ghost var goal := Run(cfg, spawned, start, ticks);
    var error, kbi := false, false;
    var p := new Child();
    var i := 0;
    var ret := 0;
    // Set when the loop left for the maintenance wait rather than for `finally`.
    var maint := false;
    if cfg.watchdog {
      var lastPet := start;
      while true
        invariant i <= |ticks|
        invariant RunFrom(cfg, State(Watching(lastPet), p.State()), ticks, i) == goal
        decreases |ticks| - i
      {
        if i == |ticks| {
          return Pending;
        }
        var t := ticks[i];
        if t.interrupt {
          kbi := true;
          break;
        }
        if t.exit.Some? {
          p.Exit(t.exit.value);
        }
        var polled := p.Poll();
        var maintNow := cfg.maint && t.maintFile;
        if !(t.now - lastPet < cfg.timer && polled.None? && !maintNow) {
          // The `else` clause of the watchdog loop.
          if maintNow {
            ret := StopP(p, t.reaction);
            maint := true;
            i := i + 1;
          } else if polled.None? {
            error := true;
          }
          break;
        }
        match t.received {
          case Silence =>
          case Datagram(d) =>
            if IsPulse(d) {
              lastPet := t.now;
            }
          case Fault =>
            error := true;
            break;
        }
        i := i + 1;
      }
    } else {
      while true
        invariant i <= |ticks|
        invariant RunFrom(cfg, State(Polling, p.State()), ticks, i) == goal
        decreases |ticks| - i
      {
        if i == |ticks| {
          return Pending;
        }
        var t := ticks[i];
        if t.interrupt {
          kbi := true;
          break;
        }
        if cfg.maint && t.maintFile {
          // `stop_p` polls first: a child that exited on its own in this interval gets no signal.
          if t.exit.Some? {
            p.Exit(t.exit.value);
          }
          ret := StopP(p, t.reaction);
          maint := true;
          i := i + 1;
          break;
        }
        // `p.wait(timeout=poll)` completes exactly when the child exits in this interval.
        var waited := p.Wait(t.exit);
        if waited.Some? {
          ret := waited.value;
          error := ret != 0;
          break;
        }
        i := i + 1;
      }
    }
    if maint {
      // Sleep until the maintenance file is removed.
      while true
        invariant i <= |ticks|
        invariant RunFrom(cfg, State(Maintenance, p.State()), ticks, i) == goal
        invariant !p.running
        decreases |ticks| - i
      {
        if i == |ticks| {
          return Pending;
        }
        if ticks[i].interrupt {
          kbi := true;
          break;
        }
        if !ticks[i].maintFile {
          break;
        }
        i := i + 1;
      }
    }
    // The `finally` clause.
    ret := StopP(p, ticks[i].reaction);
    return Exited(ExitCode(error, ret, kbi), p.signals, i);
  }

  /** A tick in which nothing but the clock and the socket matter to the watchdog loop. */
  predicate Quiet(cfg: Config, t: Tick) {
    !t.interrupt && t.exit.None? && !(cfg.maint && t.maintFile) && !t.received.Fault?
  }

  /**
   * An operator interrupt ends the run no later than the tick it arrives
   * in, and a run that ends at an interrupt exits 0 whatever the child's
   * status.
   */
  lemma {:induction false} InterruptSuppressesFailure(cfg: Config, st: State, ticks: seq<Tick>, i: nat, k: nat)
    requires i <= k < |ticks| && ticks[k].interrupt
    ensures RunFrom(cfg, st, ticks, i).Exited?
    ensures i <= RunFrom(cfg, st, ticks, i).at <= k
    ensures RunFrom(cfg, st, ticks, i).at == k ==> RunFrom(cfg, st, ticks, i).code == 0
    decreases k - i
  {
    if i < k {
      match Advance(cfg, st, ticks[i])
      case Continue(next) => InterruptSuppressesFailure(cfg, next, ticks, i + 1, k);
      case Leave(_, _, _) =>
    }
  }

  /**
   * An interrupt still stops the child: `finally` sends a running child
   * through the whole stop ladder before exiting 0, and leaves an exited
   * one alone.
   */
  lemma InterruptStopsChild(cfg: Config, st: State, ticks: seq<Tick>, k: nat)
    requires k < |ticks| && ticks[k].interrupt
    ensures RunFrom(cfg, st, ticks, k) ==
      Exited(0, st.proc.signals + (if st.proc.running then Ladder(ticks[k].reaction) else []), k)
  {
  }

  /**
   * Watchdog timeout: with the child alive, no maintenance file and no
   * pulse, the run ends by the first tick at which the timer has run out;
   * the child goes through the stop ladder and the supervisor exits 1.
   */
  lemma {:induction false} SilentChildTimesOut(cfg: Config, last: int, p: ProcState, ticks: seq<Tick>, i: nat, k: nat)
    requires p.running
    requires i <= k < |ticks|
    requires forall j :: i <= j <= k ==> Quiet(cfg, ticks[j]) && !PulseAt(ticks[j])
    requires ticks[k].now - last >= cfg.timer
    ensures var o := RunFrom(cfg, State(Watching(last), p), ticks, i);
      o.Exited? && o.code == 1 && i <= o.at <= k && o.signals == p.signals + Ladder(ticks[o.at].reaction)
    decreases k - i
  {
    var t := ticks[i];
    assert Quiet(cfg, t) && !PulseAt(t);
    if t.now - last < cfg.timer {
      assert Advance(cfg, State(Watching(last), p), t) == Continue(State(Watching(last), p));
      SilentChildTimesOut(cfg, last, p, ticks, i + 1, k);
    }
  }

  /**
   * Heartbeats keep the child alive: as long as every tick falls within
   * the timer of the start of the loop or of some earlier pulse, and the
   * clock does not go backwards, the watchdog loop never ends.
   */
  lemma {:induction false} PulsesPreventTimeout(cfg: Config, last: int, p: ProcState, ticks: seq<Tick>, i: nat)
    requires p.running
    requires i < |ticks| ==> last <= ticks[i].now
    requires forall a, b :: i <= a <= b < |ticks| ==> ticks[a].now <= ticks[b].now
    requires forall j :: i <= j < |ticks| ==> Quiet(cfg, ticks[j])
    requires forall j :: i <= j < |ticks| ==>
      (ticks[j].now - last < cfg.timer ||
       exists m :: i <= m < j && PulseAt(ticks[m]) && ticks[j].now - ticks[m].now < cfg.timer)
    ensures RunFrom(cfg, State(Watching(last), p), ticks, i) == Pending
    decreases |ticks| - i
  {
    if i < |ticks| {
      var t := ticks[i];
      assert Quiet(cfg, t);
      assert t.now - last < cfg.timer;
      var last' := if PulseAt(t) then t.now else last;
      assert Advance(cfg, State(Watching(last), p), t) == Continue(State(Watching(last'), p));
      forall j | i + 1 <= j < |ticks|
        ensures ticks[j].now - last' < cfg.timer ||
          exists m :: i + 1 <= m < j && PulseAt(ticks[m]) && ticks[j].now - ticks[m].now < cfg.timer
      {
        if ticks[j].now - last >= cfg.timer {
          var m :| i <= m < j && PulseAt(ticks[m]) && ticks[j].now - ticks[m].now < cfg.timer;
          if m == i {
            assert last' == ticks[i].now;
          }
        }
      }
      PulsesPreventTimeout(cfg, last', p, ticks, i + 1);
    }
  }

  /**
   * The watchdog loop runs another iteration: no interrupt, no receive
   * fault, the timer has not run out, the child is still running and no
   * maintenance file is seen.
   */
  predicate KeepsWatching(cfg: Config, last: int, p: ProcState, t: Tick) {
    !t.interrupt && !t.received.Fault? && t.now - last < cfg.timer && Observe(p, t.exit).running &&
    !(cfg.maint && t.maintFile)
  }

  /**
   * The watchdog stays armed: exactly when the loop runs another iteration,
   * the next state is the watchdog loop again, with the child as observed
   * and `last_pet` moved to the current time on a pulse and kept otherwise,
   * whatever the clock does.
   */
  lemma PulseResetsLastPet(cfg: Config, last: int, p: ProcState, t: Tick)
    ensures KeepsWatching(cfg, last, p, t) <==>
      Advance(cfg, State(Watching(last), p), t) ==
        Continue(State(Watching(if PulseAt(t) then t.now else last), Observe(p, t.exit)))
  {
  }

  /**
   * With a clock that does not go backwards, `last_pet` never decreases;
   * any step that is not another watchdog iteration leaves the loop.
   */
  lemma LastPetNeverDecreases(cfg: Config, last: int, p: ProcState, t: Tick)
    requires last <= t.now
    ensures match Advance(cfg, State(Watching(last), p), t)
      case Continue(State(Watching(last'), _)) => KeepsWatching(cfg, last, p, t) && last <= last' <= t.now
      case _ => !KeepsWatching(cfg, last, p, t)
  {
  }

  /**
   * Maintenance holds the child stopped: the supervisor sleeps while the
   * file exists, sends no further signal, and exits 0 at the first tick
   * without the file or with an interrupt.
   */
  lemma {:induction false} MaintenanceHoldsChildStopped(cfg: Config, p: ProcState, ticks: seq<Tick>, i: nat)
    requires !p.running
    ensures var o := RunFrom(cfg, State(Maintenance, p), ticks, i);
      o.Pending? || (o.Exited? && o.code == 0 && o.signals == p.signals && i <= o.at < |ticks|)
    ensures var o := RunFrom(cfg, State(Maintenance, p), ticks, i);
      o.Exited? ==>
        (ticks[o.at].interrupt || !ticks[o.at].maintFile) &&
        (forall j :: i <= j < o.at ==> ticks[j].maintFile && !ticks[j].interrupt)
    ensures RunFrom(cfg, State(Maintenance, p), ticks, i).Pending? ==>
      forall j :: i <= j < |ticks| ==> ticks[j].maintFile && !ticks[j].interrupt
    decreases |ticks| - i
  {
    if i < |ticks| {
      if !ticks[i].interrupt && ticks[i].maintFile {
        assert Observe(p, ticks[i].exit) == p;
        MaintenanceHoldsChildStopped(cfg, p, ticks, i + 1);
      }
    }
  }

  /**
   * The maintenance file takes precedence over a watchdog timeout and
   * over the child's own exit: once seen, the child is stopped and the
   * run can only end with exit 0.
   */
  lemma MaintenanceTakesPrecedence(cfg: Config, st: State, ticks: seq<Tick>, i: nat)
    requires i < |ticks| && !st.mode.Maintenance?
    requires cfg.maint && ticks[i].maintFile && !ticks[i].interrupt
    ensures var stopped := Stop(Observe(st.proc, ticks[i].exit), ticks[i].reaction).0;
      var o := RunFrom(cfg, st, ticks, i);
      o.Pending? || (o.Exited? && o.code == 0 && o.signals == stopped.signals)
  {
    var stopped := Stop(Observe(st.proc, ticks[i].exit), ticks[i].reaction).0;
    assert Advance(cfg, st, ticks[i]) == Continue(State(Maintenance, stopped));
    MaintenanceHoldsChildStopped(cfg, stopped, ticks, i + 1);
  }

  /**
   * Simple mode: timed-out waits keep the loop going with no signal and no
   * error, and the first wait that completes ends the run with 0 for
   * status 0 and 1 otherwise, still with no signal sent.
   */
  lemma {:induction false} SimpleModeReportsChildStatus(cfg: Config, p: ProcState, ticks: seq<Tick>, i: nat, k: nat, c: int)
    requires i <= k < |ticks| && p.running
    requires forall j :: i <= j < k ==> !ticks[j].interrupt && ticks[j].exit.None? && !(cfg.maint && ticks[j].maintFile)
    requires !ticks[k].interrupt && !(cfg.maint && ticks[k].maintFile) && ticks[k].exit == Some(c)
    ensures RunFrom(cfg, State(Polling, p), ticks, i) == Exited(if c == 0 then 0 else 1, p.signals, k)
    decreases k - i
  {
    if i < k {
      assert Advance(cfg, State(Polling, p), ticks[i]) == Continue(State(Polling, p));
      SimpleModeReportsChildStatus(cfg, p, ticks, i + 1, k, c);
    }
  }

  /**
   * Watchdog mode: the child's own exit ends the run with 0 whatever its
   * status, because `error` stays false and the final `stop_p` returns 0.
   */
  lemma WatchdogModeIgnoresChildStatus(cfg: Config, last: int, p: ProcState, ticks: seq<Tick>, i: nat, c: int)
    requires i < |ticks| && p.running
    requires !ticks[i].interrupt && !(cfg.maint && ticks[i].maintFile) && ticks[i].exit == Some(c)
    ensures RunFrom(cfg, State(Watching(last), p), ticks, i) == Exited(0, p.signals, i)
  {
  }

  /** An unexpected exception in the watchdog loop stops the child and exits 1. */
  lemma FaultFails(cfg: Config, last: int, p: ProcState, ticks: seq<Tick>, i: nat)
    requires i < |ticks| && p.running
    requires ticks[i].received.Fault? && !ticks[i].interrupt && ticks[i].exit.None?
    requires !(cfg.maint && ticks[i].maintFile) && ticks[i].now - last < cfg.timer
    ensures RunFrom(cfg, State(Watching(last), p), ticks, i) == Exited(1, p.signals + Ladder(ticks[i].reaction), i)
  {
  }

  /** A run that ends does so at a tick of the trace, with exit status 0 or 1. */
  lemma {:induction false} ExitStatusIsZeroOrOne(cfg: Config, st: State, ticks: seq<Tick>, i: nat)
    ensures var o := RunFrom(cfg, st, ticks, i);
      o.Exited? ==> o.code in {0, 1} && i <= o.at < |ticks|
    decreases |ticks| - i
  {
    if i < |ticks| {
      match Advance(cfg, st, ticks[i])
      case Continue(next) => ExitStatusIsZeroOrOne(cfg, next, ticks, i + 1);
      case Leave(_, _, _) =>
    }
  }
}
