/**
 * The supervised child process and the shutdown escalation ladder `stop_p`
 * (run_red.py:25-40). The child is an abstract process: whether it is still
 * running, the status it exited with, and the signals sent to it so far.
 * How the child reacts to each step of a ladder is an oracle input.
 */
module Process {
  import opened Base

  /** `SIGINT` from `send_signal`, `SIGTERM` from `terminate()`, `SIGKILL` from `kill()`. */
  datatype Signal = Interrupt | Terminate | Kill

  /** The observable state of the child. `status` is meaningful once `!running`. */
  datatype ProcState = ProcState(running: bool, status: int, signals: seq<Signal>)

  /**
   * How the child answers one run of the ladder: the status it exits with
   * within the 30-second bound (`STOP_WAIT`) of `SIGINT` (None: the wait times out), the
   * same after `SIGTERM`, and the status it is reaped with after `SIGKILL`.
   */
  datatype StopResponse = StopResponse(afterInterrupt: Option<int>, afterTerminate: Option<int>, afterKill: int)

  /** The signals one run of the ladder sends to a running child, in order. */
  function Ladder(r: StopResponse): (signals: seq<Signal>)
  {
    if r.afterInterrupt.Some? then [Interrupt]
    else if r.afterTerminate.Some? then [Interrupt, Terminate]
    else [Interrupt, Terminate, Kill]
  }

  /** The status of the first wait of the ladder that does not time out. */
  function LadderStatus(r: StopResponse): (status: int)
  {
    match r.afterInterrupt
    case Some(c) => c
    case None =>
      match r.afterTerminate
      case Some(c) => c
      case None => r.afterKill
  }

  /** `stop_p` on a child state: the new state and the value returned. */
  function Stop(p: ProcState, r: StopResponse): (result: (ProcState, int))
  {
    if p.running then (ProcState(false, LadderStatus(r), p.signals + Ladder(r)), LadderStatus(r))
    else (p, 0)
  }

  /** The full ladder, strongest step last. */
  const FullLadder: seq<Signal> := [Interrupt, Terminate, Kill]

  /**
   * The ladder always starts with SIGINT and sends a prefix of
   * SIGINT, SIGTERM, SIGKILL: no step is skipped and none is repeated.
   */
  lemma LadderIsPrefix(r: StopResponse)
    ensures 1 <= |Ladder(r)| <= 3
    ensures Ladder(r) == FullLadder[..|Ladder(r)|]
  {
  }

  /**
   * A stronger step is taken exactly when every weaker one timed out:
   * SIGTERM iff the wait after SIGINT timed out, SIGKILL iff the wait after
   * SIGTERM timed out as well.
   */
  lemma EscalationOnlyOnTimeout(r: StopResponse)
    ensures Terminate in Ladder(r) <==> r.afterInterrupt.None?
    ensures Kill in Ladder(r) <==> r.afterInterrupt.None? && r.afterTerminate.None?
  {
  }

  /** The status returned is the one from the wait that followed the last signal sent. */
  lemma StatusFromLastStep(r: StopResponse)
    ensures Ladder(r)[|Ladder(r)| - 1] == Interrupt ==> r.afterInterrupt == Some(LadderStatus(r))
    ensures Ladder(r)[|Ladder(r)| - 1] == Terminate ==> r.afterTerminate == Some(LadderStatus(r))
    ensures Ladder(r)[|Ladder(r)| - 1] == Kill ==> LadderStatus(r) == r.afterKill
  {
  }

  /**
   * `stop_p` never returns while the child runs; on a running child it
   * reports the real exit status, on an exited one it sends nothing and
   * returns 0 whatever the child's status was. A second call is harmless.
   */
  lemma StopProperties(p: ProcState, r: StopResponse, r2: StopResponse)
    ensures !Stop(p, r).0.running
    ensures p.running ==> Stop(p, r).1 == Stop(p, r).0.status
    ensures !p.running ==> Stop(p, r) == (p, 0)
    ensures Stop(Stop(p, r).0, r2) == (Stop(p, r).0, 0)
  {
  }

  /** A handle on the child (the `Popen` object), with the signals it was sent recorded. */
  class Child {
    var running: bool
    var status: int
    var signals: seq<Signal>

    /** The state of the child as a value. */
    function State(): (s: ProcState)
      reads this
    {
      ProcState(running, status, signals)
    }

    /** `Popen(...)` that succeeded: a running child no signal has been sent to. */
    constructor ()
      ensures State() == ProcState(true, 0, [])
    {
      running, status, signals := true, 0, [];
    }

    /** `p.poll()`: None while the child runs, its status once it has exited. */
    method Poll() returns (r: Option<int>)
      ensures r.None? <==> running
      ensures r.Some? ==> r.value == status
    {
      r := if running then None else Some(status);
    }

    /** The child exits on its own with `code`, unless it has exited already. */
    method Exit(code: int)
      modifies this
      ensures old(running) ==> State() == ProcState(false, code, old(signals))
      ensures !old(running) ==> State() == old(State())
    {
      if running {
        running, status := false, code;
      }
    }

    /** `send_signal`, `terminate()` or `kill()`: the signal is recorded; the child reacts in a later wait. */
    method Send(sig: Signal)
      modifies this
      ensures State() == old(State()).(signals := old(signals) + [sig])
    {
      signals := signals + [sig];
    }

    /**
     * `p.wait(bound)`: the child's status if it exits within the bound
     * (`outcome` says with which status it does), None for `TimeoutExpired`.
     * An exited child answers with its status at once.
     */
    method Wait(outcome: Option<int>) returns (r: Option<int>)
      modifies this
      ensures old(running) && outcome.None? ==> r.None? && State() == old(State())
      ensures old(running) && outcome.Some? ==> r == outcome && State() == old(State()).(running := false, status := outcome.value)
      ensures !old(running) ==> r == Some(status) && State() == old(State())
    {
      if running {
        if outcome.Some? {
          running, status := false, outcome.value;
        }
        r := outcome;
      } else {
        r := Some(status);
      }
    }

    /** `p.wait()` without a bound: returns only once the child has exited. */
    method WaitForExit(code: int) returns (r: int)
      modifies this
      ensures !running && r == status
      ensures old(running) ==> State() == old(State()).(running := false, status := code)
      ensures !old(running) ==> State() == old(State())
    {
      if running {
        running, status := false, code;
      }
      r := status;
    }
  }

  /** `stop_p(p)`: the escalation ladder against a child that may already have exited. */
  method StopP(p: Child, r: StopResponse) returns (ret: int)
    modifies p
    ensures (p.State(), ret) == Stop(old(p.State()), r)
  {
    ghost var sent := p.signals;
    assert sent + [Interrupt] + [Terminate] == sent + [Interrupt, Terminate];
    assert sent + [Interrupt] + [Terminate] + [Kill] == sent + FullLadder;
    var polled := p.Poll();
    if polled.None? {
      p.Send(Interrupt);
      var w := p.Wait(r.afterInterrupt);
      if w.Some? {
        return w.value;
      }
      p.Send(Terminate);
      w := p.Wait(r.afterTerminate);
      if w.Some? {
        return w.value;
      }
      p.Send(Kill);
      ret := p.WaitForExit(r.afterKill);
      return;
    }
    return 0;
  }
}
