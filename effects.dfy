/** The externally visible steps one toggle takes, in the order it takes them:
    window-property requests, diagnostics written to stderr, the system calls
    on `/proc/<pid>/status`, and the signal sent with `kill`. */
module Effects {
  import opened CTypes

  /** The two signals the pauser sends. */
  datatype Signal = SigStop | SigCont

  datatype Effect =
    | GetProperty(property: string, window: ulong)  // XInternAtom + XGetWindowProperty
    | Stderr(line: string)                     // one fprintf(stderr, ...)
    | Open(pid: int)                           // open("/proc/<pid>/status", O_RDONLY)
    | Read                                     // read(fd, buf, 512)
    | Close                                    // close(fd)
    | Kill(pid: int, sig: Signal)              // kill(pid, sig)

  predicate IsOpen(e: Effect) { e.Open? }
  predicate IsClose(e: Effect) { e.Close? }
  predicate IsKill(e: Effect) { e.Kill? }

  /** The effects of `t` that satisfy `p`, in order. */
  function Filter(t: seq<Effect>, p: Effect -> bool): seq<Effect>
  {
    if t == [] then []
    else if p(t[0]) then [t[0]] + Filter(t[1..], p)
    else Filter(t[1..], p)
  }

  lemma FilterCons(e: Effect, t: seq<Effect>, p: Effect -> bool)
    ensures Filter([e] + t, p) == (if p(e) then [e] else []) + Filter(t, p)
  {
    assert ([e] + t)[1..] == t;
  }

  lemma {:induction false} FilterNone(t: seq<Effect>, p: Effect -> bool)
    requires forall i | 0 <= i < |t| :: !p(t[i])
    ensures Filter(t, p) == []
  {
    if t != [] {
      FilterNone(t[1..], p);
    }
  }

  lemma {:induction false} FilterAppend(a: seq<Effect>, b: seq<Effect>, p: Effect -> bool)
    ensures Filter(a + b, p) == Filter(a, p) + Filter(b, p)
  {
    if a == [] {
      assert a + b == b;
    } else {
      assert (a + b)[1..] == a[1..] + b;
      FilterAppend(a[1..], b, p);
    }
  }
}
