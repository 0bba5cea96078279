# x11-pauser, modelled in Dafny

x11-pauser is a global-hotkey pauser for X11. Each press of the Pause key
toggles the focused application between stopped and running. The program
reads the root window's `_NET_ACTIVE_WINDOW` property to find the focused
window. It reads that window's `_NET_WM_PID` property to find the owning
process. It reads the first 512 bytes of `/proc/<pid>/status` and looks for
the stopped marker `"\nState:\tT"`. Then it sends `SIGCONT` to a stopped
process and `SIGSTOP` to any other. At startup the program refuses to run
unless the window manager lists `_NET_ACTIVE_WINDOW` in `_NET_SUPPORTED`.
These are the EWMH (Extended Window Manager Hints) conventions.

The model makes every call into X11 or the kernel an input value:

- `Ewmh.XServer` gives the root window, the atom `XInternAtom` returns for a
  name, and the reply `XGetWindowProperty` gives for a window and an atom.
  A reply (`X11Data.Reply`) is a status plus an optional buffer of typed
  items. `None` stands for a null pointer.
- `Toggle.Kernel` gives the contents of each pid's status file (or whether
  `open` or `read` fails), and whether `kill` succeeds.

Each press produces an `Outcome` and a trace of `Effects.Effect`s, in the
order the program makes them:

- property requests;
- stderr diagnostics;
- `open`, `read` and `close` on the status file;
- `kill`.

Files and modules:

- `c_types.dfy` (`CTypes`): `byte`, LP64 `unsigned long`, the
  `unsigned long` to `int` conversion, and ASCII bytes of a string.
- `optional.dfy` (`Optional`): `Option`, used for nullable pointers.
- `effects.dfy` (`Effects`): signals, trace effects, and filtering a trace.
- `x11_data.dfy` (`X11Data`): the `x11_data<T>` owner as a class
  (`PropertyBuffer`) over an Xlib allocation (`XBuffer`, which counts its
  `XFree` calls), and `get_window_properties`.
- `ewmh.dfy` (`Ewmh`): `active_window_supported`, `get_active_window`,
  `get_window_pid`.
- `proc_status.dfy` (`ProcStatus`): `is_process_stopped`, with the 512-byte
  read, the C-string end at the first NUL, and `strstr`.
- `toggle.dfy` (`Toggle`): `toggle_active_window`, its specification
  `Pressed` and the lemmas about it.

The stopped test is the substring `"\nState:\tT"`, not a whole-line match.
Any line that begins with `State:\tT` matches, except one at the very start
of the text, which has no newline before it. The model searches for the same
substring (`ProcStatus.FirstOccurrence` over `StoppedMarker`).

## Model

| member | source | states |
|---|---|---|
| `CTypes.ToInt` | src/main.cpp:118-123 | The pid `get_window_pid` returns is the item's low 32 bits read as a signed 32-bit `int`: it lies in the `int` range, it is congruent to the item modulo 2^32, and it equals the item whenever the item is at most `INT_MAX`. |
| `X11Data.PropertyBuffer.Empty` | src/main.cpp:25-26 | The default owner holds no buffer and a count of 0. |
| `X11Data.PropertyBuffer.constructor` | src/main.cpp:28-31 | The owner takes the given buffer pointer and item count. |
| `X11Data.PropertyBuffer.Move` | src/main.cpp:33-37 | The new owner takes over the source's buffer and count. Afterwards the source's pointer is null and its count is left as it was. |
| `X11Data.PropertyBuffer.Destroy` | src/main.cpp:39-44 | The destructor calls `XFree` once on a non-null buffer and frees nothing otherwise. |
| `X11Data.PropertyBuffer.Elements` | src/main.cpp:52-62 | The range `begin()`..`end()` has exactly `count` items. They are the first `count` items of the owned buffer. |
| `X11Data.GetWindowProperties` | src/main.cpp:71-95 | The result is a fresh owner. On a non-`Success` status it is empty, with a null buffer and count 0. Otherwise it owns a freshly allocated, not yet freed buffer holding Xlib's items if, and only if, Xlib handed one back, and its count is the number of items reported. Its items are those of `PropertyValue`. |
| `X11Data.MovedResultFreedOnce` | src/main.cpp:33-44 | Take a query result, move it into a second owner and destroy both owners. The buffer is freed exactly once if Xlib allocated one, and nothing is freed otherwise. |
| `Ewmh.ActiveWindowSupported` | src/main.cpp:97-109 | The result is true if, and only if, the `_NET_ACTIVE_WINDOW` atom occurs among the root window's `_NET_SUPPORTED` atoms. A failed query gives false. The query's owner held a buffer exactly when the query succeeded with one; that buffer is the query's allocation, and it is freed exactly once, on either way out of the loop. |
| `Ewmh.FirstOrZero` | src/main.cpp:115 | The first item when there is one, otherwise the sentinel 0. A non-zero result is one of the items. |
| `Ewmh.GetActiveWindow` | src/main.cpp:111-116 | The window is the first item of the root's `_NET_ACTIVE_WINDOW` property, or 0 when the query yields none. A failed query gives 0. |
| `Ewmh.GetWindowPid` | src/main.cpp:118-123 | No `_NET_WM_PID` item gives 0. Otherwise the pid is the first item narrowed to `int`, and it equals that item when the item fits. A failed query gives 0. |
| `ProcStatus.ReadChunk` | src/main.cpp:128-139 | One `read` delivers the first `min(512, size)` bytes of the status file. |
| `ProcStatus.CStringPrefix` | src/main.cpp:146 | The string `strstr` scans is a prefix of the bytes read. It has no NUL, and it stops either at the first NUL or at the end of the bytes. |
| `ProcStatus.FirstOccurrence` | src/main.cpp:146 | `strstr` returns the index of the first occurrence of the needle, or none (a null pointer) exactly when the needle does not occur. |
| `ProcStatus.IsProcessStopped` | src/main.cpp:125-147 | An open failure, a read error or an empty read gives "stopped". Otherwise the result is true if, and only if, the marker `"\nState:\tT"` occurs before the first NUL in the bytes read. The system calls and diagnostics are those of `InspectionEffects`. |
| `ProcStatus.InspectionCloses` | src/main.cpp:132-145 | An inspection opens the status file once. It sends no signal and queries no window. When the open succeeded, the descriptor is closed exactly once, as the last step, on the read-failure path and on the success path alike. |
| `ProcStatus.NulFreeChunk` | src/main.cpp:139-146 | For status text without NUL bytes, "stopped" means that the marker occurs in the first 512 bytes. |
| `ProcStatus.NewlineRequired` | src/main.cpp:146 | The leading newline is part of the marker: a status read that contains no newline is never "stopped". |
| `ProcStatus.OnlyFirstChunkMatters` | src/main.cpp:128-139 | Bytes after the first 512 never change the answer, so a `State:` line beyond them is not seen. |
| `ProcStatus.MarkerInWindowIsStopped` | src/main.cpp:139-146 | The result is "stopped" when the marker lies wholly within the first 512 bytes and no NUL comes before it. |
| `ProcStatus.OtherStateIsNotStopped` | src/main.cpp:146 | When every `"\nState:\t"` in the C string read is followed by a letter other than `T`, or ends that string, the process is not "stopped". This holds for status texts of any number of lines. |
| `ProcStatus.LineLacksMarker` | src/main.cpp:146 | A single line, with a newline at most as its first byte, holds the marker only if it begins with it. |
| `ProcStatus.MarkerWithinOneLine` | src/main.cpp:146 | The marker has no newline after its first byte, so it never spans two lines. Joining a text to a next line (which starts with a newline), neither holding the marker, gives a text without it. |
| `ProcStatus.SleepingStatusLacksMarker` | src/main.cpp:146 | The four-line status of a sleeping process (`Name`, `Umask`, `State:\tS (sleeping)`, `Tgid`) holds no marker. |
| `ProcStatus.SleepingStatusIsNotStopped` | src/main.cpp:125-147 | That status file is not reported as stopped. |
| `Toggle.ToggleActiveWindow` | src/main.cpp:149-170 | The outcome and the whole trace of effects are those of the specification `Pressed`. |
| `Toggle.QueryEffects` | src/main.cpp:84-91 | Each property query is one request for that property on that window, followed by the `XGetWindowProperty: failed` diagnostic exactly when the status is not `Success`, and by nothing else. |
| `Toggle.QueryEffectsFacts` | src/main.cpp:84-94 | A property request opens no file and sends no signal. It counts as a pid lookup exactly when it reads `_NET_WM_PID`. |
| `Toggle.NoWindowAbortsEarly` | src/main.cpp:152-157 | Active window 0 ends the press with no pid lookup, no status inspection and no `kill`. The last step is the `get_active_window: failed` report. |
| `Toggle.NoPidAbortsBeforeInspection` | src/main.cpp:159-164 | Pid 0 ends the press after the single pid lookup for that window, with no inspection and no `kill`. The last step is the `get_window_pid: failed` report. |
| `Toggle.OneSignalAfterInspection` | src/main.cpp:166-169 | Past both sentinels, exactly one inspection of the pid is followed by exactly one signal. The signal is `SIGCONT` if the process was seen stopped (which includes an unopenable or unreadable status file) and `SIGSTOP` otherwise. A failed `kill` only ends the press, with `kill: failed` as its last step. |
| `Toggle.SleepingOwnerIsStopped` | src/main.cpp:149-170 | Window 0x123 owned by pid 4242 and the multi-line sleeping status: the one signal sent is `SIGSTOP` to 4242. |
| `Toggle.StoppedOwnerIsResumed` | src/main.cpp:149-170 | The same case with a multi-line status whose third line is `State:\tT (stopped)`: the one signal sent is `SIGCONT` to 4242. |

## Left out

- `main` (src/main.cpp:174-222) is X11 setup and event plumbing:
  `XOpenDisplay`, the `atexit` hook that closes the display, `XKeysymToKeycode`
  for the Pause key (keysym 0xff13), `XGrabKey`, `XSelectInput` and the
  endless `XNextEvent` loop. Its only use of the core is that each
  `KeyPress` event runs one `toggle_active_window`, and that a false
  `active_window_supported` ends the program with a failure exit.
- `make_atom` (src/main.cpp:65-69) is `XInternAtom` with `only_if_exists`
  False. The model takes its result as the input `XServer.intern`.
- `XInternAtom`, `XGetWindowProperty`, `XFree`, `open`, `read`, `close` and
  `kill` are foreign calls. Their outcomes are inputs, and their semantics
  are not modelled. `XBuffer.XFree` only counts calls.
- The `reinterpret_cast` of Xlib's byte buffer to `T` (src/main.cpp:55) is
  not modelled. Property items arrive already typed. `actual_type`,
  `actual_format` and `bytes_remaining` are ignored by the source and are
  absent from `Reply`.
- X11Data.GetWindowProperties: takes the `item_count` Xlib reports to be the
  number of typed items in the reply, because the model has no untyped
  buffer for the two to disagree about.
- The deleted copy constructor and assignments of `x11_data` have no
  counterpart. The model simply offers no way to copy an owner. After a
  move the source keeps its count, so its `Elements` cannot be asked for
  (it is not `Valid`) unless its count was 0. The source never iterates a
  moved-from owner.
- `strstr` past the bytes read is not modelled. The buffer `buf[512]`
  (src/main.cpp:129) first holds the path, whose terminating NUL sits at
  the path's length (17 for `/proc/4242/status`, src/main.cpp:131). A read of
  at most that many bytes leaves the NUL in place, and `strstr` goes on into
  the rest of the path, up to that NUL. A longer read overwrites that NUL,
  and `strstr` goes on into bytes of `buf` that were never written. A full
  512-byte read leaves no NUL in `buf` at all. These are unintended or undefined behaviour. The model
  matches only within the bytes read.
- The `snprintf` of the path `/proc/<pid>/status` (src/main.cpp:131) is not
  modelled. The `Open` effect carries the pid, and `Kernel.status` is looked
  up by pid.
- Short reads are not modelled. One `read` is taken to deliver
  `min(512, size)` bytes, which is what the kernel gives for this file.
- Signal numbers are not modelled. `Signal` names `SIGSTOP` and `SIGCONT`
  only. `kill` to a negative pid, which a narrowed pid of 2^31 or more would produce, is
  passed through as an ordinary `Kill` effect.
- The diagnostics' destination (stderr) is not modelled. Each `fprintf`
  during a press is a `Stderr` effect in the trace.
- Ewmh.ActiveWindowSupported: has no trace, so the `XGetWindowProperty:
  failed` diagnostic that `get_window_properties` writes when the
  `_NET_SUPPORTED` query fails is not modelled for it.
- Ewmh.GetActiveWindow and Ewmh.GetWindowPid: are functions over the
  reply's items (`PropertyValue`), so the `x11_data` owner each creates and
  destroys is not modelled for them. `ActiveWindowSupported` and
  `MovedResultFreedOnce` show that owner's one `XFree`.
