/** The three EWMH (Extended Window Manager Hints) lookups the pauser makes:
    whether the window manager advertises `_NET_ACTIVE_WINDOW` in
    `_NET_SUPPORTED`, which window is active, and which process owns it. */
module Ewmh {
  import opened CTypes
  import opened X11Data

  const ActiveWindowName: string := "_NET_ACTIVE_WINDOW"
  const SupportedName: string := "_NET_SUPPORTED"
  const WmPidName: string := "_NET_WM_PID"

  /** The X server as the pauser sees it: the default root window, the atom
      XInternAtom gives for a name, and what XGetWindowProperty reports for a
      window and a property atom. */
  datatype XServer = XServer(
    root: Window,
    intern: string -> Atom,
    property: (Window, Atom) -> Reply<ulong>)

  /** `make_atom`: the atom the server interns for `name`. */
  function MakeAtom(x: XServer, name: string): Atom
  {
    x.intern(name)
  }

  /** The reply to reading the property called `name` on `window`. */
  function Query(x: XServer, name: string, window: Window): Reply<ulong>
  {
    x.property(window, MakeAtom(x, name))
  }

  /** `active_window_supported`: walks the `_NET_SUPPORTED` atoms of the root
      window and stops at the first that is the `_NET_ACTIVE_WINDOW` atom.
      The query's owner is destroyed on both ways out: `buffer` is the
      allocation it held, freed exactly once. */
  method ActiveWindowSupported(x: XServer) returns (supported: bool, ghost buffer: XBuffer?<ulong>)
    ensures supported <==> MakeAtom(x, ActiveWindowName) in PropertyValue(Query(x, SupportedName, x.root))
    ensures Query(x, SupportedName, x.root).status != Success ==> !supported
    ensures buffer != null <==>
              Query(x, SupportedName, x.root).status == Success && Query(x, SupportedName, x.root).buffer.Some?
    ensures buffer != null ==> buffer.items == Query(x, SupportedName, x.root).buffer.value
    ensures buffer != null ==> buffer.frees == 1
  {
    var activeWindow := MakeAtom(x, ActiveWindowName);
    var props := GetWindowProperties(Query(x, SupportedName, x.root));
    buffer := props.properties;
    var atoms := props.Elements();
    for i := 0 to |atoms|
      invariant activeWindow !in atoms[..i]
    {
      if atoms[i] == activeWindow {
        props.Destroy();
        supported := true;
        return;
      }
    }
    assert atoms[..|atoms|] == atoms;
    props.Destroy();
    supported := false;
  }

  /** `x.count ? *x.begin() : 0`: the first item, or the sentinel 0 when
      there is none. */
  function FirstOrZero(items: seq<ulong>): (r: ulong)
    ensures |items| > 0 ==> r == items[0]
    ensures items == [] ==> r == 0
    ensures r != 0 ==> r in items
  {
    if |items| > 0 then items[0] else 0
  }

  /** `get_active_window`: the window named by the root window's
      `_NET_ACTIVE_WINDOW` property, or 0 when the query fails or yields
      nothing. */
  function GetActiveWindow(x: XServer): (w: Window)
    ensures var items := PropertyValue(Query(x, ActiveWindowName, x.root));
            w == (if |items| > 0 then items[0] else 0)
    ensures Query(x, ActiveWindowName, x.root).status != Success ==> w == 0
  {
    FirstOrZero(PropertyValue(Query(x, ActiveWindowName, x.root)))
  }

  /** `get_window_pid`: the process id in `w`'s `_NET_WM_PID` property,
      narrowed to `int`, or 0 when the query fails or yields nothing. A pid
      whose low 32 bits are all zero is indistinguishable from "none". */
  function GetWindowPid(x: XServer, w: Window): (pid: int)
    ensures var items := PropertyValue(Query(x, WmPidName, w));
            && (items == [] ==> pid == 0)
            && (items != [] ==> pid == ToInt(items[0]))
            && (items != [] && items[0] as int <= IntMax ==> pid == items[0] as int)
    ensures Query(x, WmPidName, w).status != Success ==> pid == 0
    ensures IntMin <= pid <= IntMax
  {
    ToInt(FirstOrZero(PropertyValue(Query(x, WmPidName, w))))
  }
}
