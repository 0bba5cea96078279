/** The toggle controller: what one press of the hotkey does. It resolves the
    active window, then the process that owns it, inspects that process's
    state and sends the signal that flips it: SIGCONT to a stopped process,
    SIGSTOP to any other. Each missing step ends the press early; nothing
    ends the program. */
module Toggle {
  import opened CTypes
  import opened Optional
  import opened X11Data
  import opened Effects
  import opened Ewmh
  import opened ProcStatus

  /** The kernel as the controller sees it: the status file of each pid and
      whether `kill` succeeds for a pid and a signal. */
  datatype Kernel = Kernel(status: int -> StatusFile, kill: (int, Signal) -> bool)

  /** How one press ended: the first check that failed, or the signal sent. */
  datatype Outcome =
    | NoActiveWindow
    | NoPid(window: Window)
    | KillFailed(pid: int, sig: Signal)
    | Sent(pid: int, sig: Signal)

  /** One press: how it ended and every effect it had, in order. */
  datatype Press = Press(outcome: Outcome, trace: seq<Effect>)

  /** The signal that requests the opposite of the observed state. */
  function SignalFor(stopped: bool): Signal
  {
    if stopped then SigCont else SigStop
  }

  /** The effects of reading the property `name` of `window`: the request,
      and the diagnostic `get_window_properties` writes when it fails. */
  function QueryEffects(x: XServer, name: string, window: Window): (r: seq<Effect>)
    ensures 1 <= |r| <= 2 && r[0] == GetProperty(name, window)
    ensures |r| == 2 <==> Query(x, name, window).status != Success
    ensures |r| == 2 ==> r[1] == Stderr("XGetWindowProperty: failed")
  {
    [GetProperty(name, window)]
      + if Query(x, name, window).status != Success then [Stderr("XGetWindowProperty: failed")] else []
  }

  /** A press stated on the inputs alone: the specification of
      `toggle_active_window`. */
  function Pressed(x: XServer, k: Kernel): Press
  {
    var start := QueryEffects(x, ActiveWindowName, x.root);
    var window := GetActiveWindow(x);
    if window == 0 then
      Press(NoActiveWindow, start + [Stderr("get_active_window: failed")])
    else
      var lookup := start + QueryEffects(x, WmPidName, window);
      var pid := GetWindowPid(x, window);
      if pid == 0 then
        Press(NoPid(window), lookup + [Stderr("get_window_pid: failed")])
      else
        var sig := SignalFor(StoppedState(k.status(pid)));
        var signalled := lookup + InspectionEffects(pid, k.status(pid)) + [Kill(pid, sig)];
        if k.kill(pid, sig) then Press(Sent(pid, sig), signalled)
        else Press(KillFailed(pid, sig), signalled + [Stderr("kill: failed")])
  }

  /** `toggle_active_window`. */
  method ToggleActiveWindow(x: XServer, k: Kernel) returns (outcome: Outcome, trace: seq<Effect>)
    ensures Press(outcome, trace) == Pressed(x, k)
  {
    trace := QueryEffects(x, ActiveWindowName, x.root);
    var window := GetActiveWindow(x);
    if window == 0 {
      trace := trace + [Stderr("get_active_window: failed")];
      return NoActiveWindow, trace;
    }
    trace := trace + QueryEffects(x, WmPidName, window);
    var pid := GetWindowPid(x, window);
    if pid == 0 {
      trace := trace + [Stderr("get_window_pid: failed")];
      return NoPid(window), trace;
    }
    var stopped, inspection := IsProcessStopped(pid, k.status(pid));
    var sig := if stopped then SigCont else SigStop;
    trace := trace + inspection + [Kill(pid, sig)];
    if !k.kill(pid, sig) {
      trace := trace + [Stderr("kill: failed")];
      return KillFailed(pid, sig), trace;
    }
    return Sent(pid, sig), trace;
  }

  predicate IsPidQuery(e: Effect)
  {
    e.GetProperty? && e.property == WmPidName
  }

  /** A property request makes no system call and sends no signal; it is a
      pid lookup exactly when it reads `_NET_WM_PID`. */
  lemma QueryEffectsFacts(x: XServer, name: string, window: Window)
    ensures var t := QueryEffects(x, name, window);
            && Filter(t, IsOpen) == [] && Filter(t, IsKill) == []
            && Filter(t, IsPidQuery) == (if name == WmPidName then [GetProperty(name, window)] else [])
  {
    var t := QueryEffects(x, name, window);
    var tail := t[1..];
    assert t == [t[0]] + tail;
    FilterCons(t[0], tail, IsOpen);
    FilterCons(t[0], tail, IsKill);
    FilterCons(t[0], tail, IsPidQuery);
    if tail != [] {
      assert tail == [Stderr("XGetWindowProperty: failed")] + [];
      FilterCons(tail[0], [], IsOpen);
      FilterCons(tail[0], [], IsKill);
      FilterCons(tail[0], [], IsPidQuery);
    }
  }

  /** With no active window the press ends after the first lookup: no pid
      lookup, no inspection, no signal, and the failure is reported. */
  lemma NoWindowAbortsEarly(x: XServer, k: Kernel)
    requires GetActiveWindow(x) == 0
    ensures var p := Pressed(x, k);
            && p.outcome == NoActiveWindow
            && Filter(p.trace, IsPidQuery) == []
            && Filter(p.trace, IsOpen) == []
            && Filter(p.trace, IsKill) == []
            && p.trace[|p.trace| - 1] == Stderr("get_active_window: failed")
  {
    var start := QueryEffects(x, ActiveWindowName, x.root);
    var tail := [Stderr("get_active_window: failed")];
    QueryEffectsFacts(x, ActiveWindowName, x.root);
    FilterAppend(start, tail, IsPidQuery);
    FilterAppend(start, tail, IsOpen);
    FilterAppend(start, tail, IsKill);
  }

  /** With an active window but no pid the press ends after the pid lookup
      for that window: no inspection, no signal, and the failure is
      reported. */
  lemma NoPidAbortsBeforeInspection(x: XServer, k: Kernel)
    requires GetActiveWindow(x) != 0
    requires GetWindowPid(x, GetActiveWindow(x)) == 0
    ensures var p := Pressed(x, k);
            && p.outcome == NoPid(GetActiveWindow(x))
            && Filter(p.trace, IsPidQuery) == [GetProperty(WmPidName, GetActiveWindow(x))]
            && Filter(p.trace, IsOpen) == []
            && Filter(p.trace, IsKill) == []
            && p.trace[|p.trace| - 1] == Stderr("get_window_pid: failed")
  {
    var window := GetActiveWindow(x);
    var start := QueryEffects(x, ActiveWindowName, x.root);
    var lookup := QueryEffects(x, WmPidName, window);
    var tail := [Stderr("get_window_pid: failed")];
    assert Pressed(x, k).trace == start + lookup + tail;
    QueryEffectsFacts(x, ActiveWindowName, x.root);
    QueryEffectsFacts(x, WmPidName, window);
    FilterAppend(start, lookup, IsPidQuery);
    FilterAppend(start + lookup, tail, IsPidQuery);
    FilterAppend(start, lookup, IsOpen);
    FilterAppend(start + lookup, tail, IsOpen);
    FilterAppend(start, lookup, IsKill);
    FilterAppend(start + lookup, tail, IsKill);
  }

  /** Past both sentinels a press is the two lookups, the inspection, the
      signal and, when `kill` fails, its report. */
  lemma SignalledPress(x: XServer, k: Kernel)
    requires GetActiveWindow(x) != 0
    requires GetWindowPid(x, GetActiveWindow(x)) != 0
    ensures var window := GetActiveWindow(x);
            var pid := GetWindowPid(x, window);
            var sig := SignalFor(StoppedState(k.status(pid)));
            var p := Pressed(x, k);
            && p.outcome == (if k.kill(pid, sig) then Sent(pid, sig) else KillFailed(pid, sig))
            && p.trace == QueryEffects(x, ActiveWindowName, x.root) + QueryEffects(x, WmPidName, window)
                          + InspectionEffects(pid, k.status(pid)) + [Kill(pid, sig)]
                          + (if k.kill(pid, sig) then [] else [Stderr("kill: failed")])
  {
  }

  /** Past both sentinels the press inspects the process once and then sends
      it exactly one signal: SIGCONT when it was seen stopped (which
      includes a status file that could not be opened or read), SIGSTOP
      otherwise. A failed `kill` only ends this press, with a report. */
  lemma OneSignalAfterInspection(x: XServer, k: Kernel)
    requires GetActiveWindow(x) != 0
    requires GetWindowPid(x, GetActiveWindow(x)) != 0
    ensures var pid := GetWindowPid(x, GetActiveWindow(x));
            var sig := if StoppedState(k.status(pid)) then SigCont else SigStop;
            var p := Pressed(x, k);
            && (!k.status(pid).Text? ==> sig == SigCont)
            && p.outcome == (if k.kill(pid, sig) then Sent(pid, sig) else KillFailed(pid, sig))
            && Filter(p.trace, IsOpen) == [Open(pid)]
            && Filter(p.trace, IsKill) == [Kill(pid, sig)]
            && (exists i, j :: 0 <= i < j < |p.trace| && p.trace[i] == Open(pid) && p.trace[j] == Kill(pid, sig))
            && p.trace[|p.trace| - 1] == (if k.kill(pid, sig) then Kill(pid, sig) else Stderr("kill: failed"))
  {
    var window := GetActiveWindow(x);
    var pid := GetWindowPid(x, window);
    var sig := SignalFor(StoppedState(k.status(pid)));
    var start := QueryEffects(x, ActiveWindowName, x.root);
    var lookup := QueryEffects(x, WmPidName, window);
    var inspection := InspectionEffects(pid, k.status(pid));
    var tail: seq<Effect> := if k.kill(pid, sig) then [] else [Stderr("kill: failed")];
    SignalledPress(x, k);
    var t := Pressed(x, k).trace;
    assert t == start + lookup + inspection + [Kill(pid, sig)] + tail;
    QueryEffectsFacts(x, ActiveWindowName, x.root);
    QueryEffectsFacts(x, WmPidName, window);
    FilterAppend(start, lookup, IsOpen);
    FilterAppend(start, lookup, IsKill);
    InspectionCloses(pid, k.status(pid));
    FilterNone(tail, IsOpen);
    FilterNone(tail, IsKill);
    SignalFollowsInspection(start + lookup, inspection, pid, sig, tail);
  }

  /** Putting a press's trace together: lookups that open nothing and signal
      nobody, one inspection of `pid`, the signal, and a tail without
      either. */
  lemma SignalFollowsInspection(lookup: seq<Effect>, inspection: seq<Effect>, pid: int, sig: Signal,
                                tail: seq<Effect>)
    requires Filter(lookup, IsOpen) == [] && Filter(lookup, IsKill) == []
    requires inspection != [] && inspection[0] == Open(pid)
    requires Filter(inspection, IsOpen) == [Open(pid)] && Filter(inspection, IsKill) == []
    requires Filter(tail, IsOpen) == [] && Filter(tail, IsKill) == []
    ensures var t := lookup + inspection + [Kill(pid, sig)] + tail;
            && Filter(t, IsOpen) == [Open(pid)]
            && Filter(t, IsKill) == [Kill(pid, sig)]
            && t[|lookup|] == Open(pid)
            && t[|lookup| + |inspection|] == Kill(pid, sig)
  {
    var signal := [Kill(pid, sig)];
    FilterCons(Kill(pid, sig), [], IsOpen);
    FilterCons(Kill(pid, sig), [], IsKill);
    FilterAppend(lookup, inspection, IsOpen);
    FilterAppend(lookup, inspection, IsKill);
    FilterAppend(lookup + inspection, signal, IsOpen);
    FilterAppend(lookup + inspection, signal, IsKill);
    FilterAppend(lookup + inspection + signal, tail, IsOpen);
    FilterAppend(lookup + inspection + signal, tail, IsKill);
  }

  /** Scenario: the active window is 0x123, owned by pid 4242 whose status
      says `State:\tS (sleeping)`: the press sends SIGSTOP to 4242. */
  lemma SleepingOwnerIsStopped(x: XServer, k: Kernel)
    requires Query(x, ActiveWindowName, x.root) == Reply(Success, Some([0x123]))
    requires Query(x, WmPidName, 0x123) == Reply(Success, Some([4242]))
    requires k.status(4242) == Text(SleepingStatus)
    ensures Filter(Pressed(x, k).trace, IsKill) == [Kill(4242, SigStop)]
  {
    SleepingStatusIsNotStopped();
    OneSignalAfterInspection(x, k);
  }

  /** Scenario: as above, but the status says `State:\tT (stopped)`: the
      press sends SIGCONT to 4242. */
  lemma StoppedOwnerIsResumed(x: XServer, k: Kernel)
    requires Query(x, ActiveWindowName, x.root) == Reply(Success, Some([0x123]))
    requires Query(x, WmPidName, 0x123) == Reply(Success, Some([4242]))
    requires k.status(4242) == Text(Bytes("Name:\tcat") + Bytes("\nUmask:\t0022") + StoppedMarker
                                    + Bytes(" (stopped)") + Bytes("\nTgid:\t4242") + Bytes("\n"))
    ensures Filter(Pressed(x, k).trace, IsKill) == [Kill(4242, SigCont)]
  {
    var before := Bytes("Name:\tcat") + Bytes("\nUmask:\t0022");
    var after := Bytes(" (stopped)") + Bytes("\nTgid:\t4242") + Bytes("\n");
    assert before + StoppedMarker + after
      == Bytes("Name:\tcat") + Bytes("\nUmask:\t0022") + StoppedMarker
         + Bytes(" (stopped)") + Bytes("\nTgid:\t4242") + Bytes("\n");
    MarkerInWindowIsStopped(before, after);
    OneSignalAfterInspection(x, k);
  }
}
