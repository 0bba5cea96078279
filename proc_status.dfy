/** The process state inspector: reads the first 512 bytes of
    `/proc/<pid>/status` and looks for the line that marks a stopped process
    (`State:` followed by a tab and the letter `T`, at the start of a line). */
module ProcStatus {
  import opened CTypes
  import opened Optional
  import opened Effects

  /** What the kernel gives for `/proc/<pid>/status`: `open` fails, `read`
      fails (returns -1), or the file has the given contents. */
  datatype StatusFile = Unopenable | Unreadable | Text(content: seq<byte>)

  /** The size of the buffer, and so of the one read made into it. */
  const ReadLength: nat := 512

  /** `"\nState:\tT"`. */
  const StoppedMarker: seq<byte> := Bytes("\nState:\tT")

  /** The bytes one `read(fd, buf, 512)` delivers from the start of a file. */
  function ReadChunk(content: seq<byte>): (chunk: seq<byte>)
    ensures |chunk| == if |content| < ReadLength then |content| else ReadLength
    ensures chunk <= content
  {
    if |content| < ReadLength then content else content[..ReadLength]
  }

  /** The C string that starts a buffer: everything before the first NUL. */
  function CStringPrefix(buf: seq<byte>): (s: seq<byte>)
    ensures s <= buf
    ensures 0 !in s
    ensures |s| < |buf| ==> buf[|s|] == 0
  {
    if buf == [] || buf[0] == 0 then [] else [buf[0]] + CStringPrefix(buf[1..])
  }

  ghost predicate OccursAt(hay: seq<byte>, needle: seq<byte>, i: int)
  {
    0 <= i && i + |needle| <= |hay| && hay[i..i + |needle|] == needle
  }

  ghost predicate Contains(hay: seq<byte>, needle: seq<byte>)
  {
    exists i :: OccursAt(hay, needle, i)
  }

  /** `strstr`: the index of the first occurrence of `needle` in `hay`, or
      `None` (a null pointer) when there is none. */
  function FirstOccurrence(hay: seq<byte>, needle: seq<byte>): (r: Option<nat>)
    ensures r.Some? ==> OccursAt(hay, needle, r.value)
    ensures r.Some? ==> forall j | 0 <= j < r.value :: !OccursAt(hay, needle, j)
    ensures r.None? <==> !Contains(hay, needle)
    decreases |hay|
  {
    if |needle| <= |hay| && hay[..|needle|] == needle then
      assert OccursAt(hay, needle, 0);
      Some(0)
    else if |needle| > |hay| then
      None
    else
      var rest := FirstOccurrence(hay[1..], needle);
      ShiftOccurrence(hay, needle);
      assert !OccursAt(hay, needle, 0);
      if rest.None? then None else Some(rest.value + 1)
  }

  /** An occurrence past the first byte of `hay` is an occurrence in
      `hay[1..]`, one place earlier. */
  lemma ShiftOccurrence(hay: seq<byte>, needle: seq<byte>)
    requires |hay| > 0
    ensures forall j | 1 <= j :: OccursAt(hay, needle, j) <==> OccursAt(hay[1..], needle, j - 1)
    ensures !OccursAt(hay, needle, 0) ==> (Contains(hay, needle) <==> Contains(hay[1..], needle))
  {
    forall j | 1 <= j
      ensures OccursAt(hay, needle, j) <==> OccursAt(hay[1..], needle, j - 1)
    {
      if j + |needle| <= |hay| {
        assert hay[1..][j - 1..j - 1 + |needle|] == hay[1..][j - 1..][..|needle|];
        assert hay[j..j + |needle|] == hay[1..][j - 1..j - 1 + |needle|];
      }
    }
    if !OccursAt(hay, needle, 0) {
      if Contains(hay, needle) {
        var i :| OccursAt(hay, needle, i);
        assert OccursAt(hay[1..], needle, i - 1);
      }
      if Contains(hay[1..], needle) {
        var i :| OccursAt(hay[1..], needle, i);
        assert OccursAt(hay, needle, i + 1);
      }
    }
  }

  /** The stopped state as `is_process_stopped` reports it: a process whose
      status cannot be opened or read (an empty file reads 0 bytes) counts as
      stopped; otherwise it is stopped iff the C string in the bytes read
      contains the marker. */
  function StoppedState(file: StatusFile): bool
  {
    match file
    case Unopenable => true
    case Unreadable => true
    case Text(content) =>
      content == [] || FirstOccurrence(CStringPrefix(ReadChunk(content)), StoppedMarker).Some?
  }

  /** The system calls and diagnostics of one inspection, in order. */
  function InspectionEffects(pid: int, file: StatusFile): seq<Effect>
  {
    match file
    case Unopenable => [Open(pid), Stderr("open: failed")]
    case Unreadable => [Open(pid), Read, Stderr("read: failed"), Close]
    case Text(content) =>
      if content == [] then [Open(pid), Read, Stderr("read: failed"), Close] else [Open(pid), Read, Close]
  }

  /** `is_process_stopped`, with the kernel's answers as input and the
      system calls and diagnostics it makes as output. */
  method IsProcessStopped(pid: int, file: StatusFile) returns (stopped: bool, trace: seq<Effect>)
    ensures !file.Text? || file.content == [] ==> stopped
    ensures file.Text? && file.content != [] ==>
              (stopped <==> Contains(CStringPrefix(ReadChunk(file.content)), StoppedMarker))
    ensures stopped == StoppedState(file)
    ensures trace == InspectionEffects(pid, file)
  {
    trace := [Open(pid)];
    if file.Unopenable? {
      trace := trace + [Stderr("open: failed")];
      return true, trace;
    }
    trace := trace + [Read];
    var n := if file.Unreadable? then -1 else |ReadChunk(file.content)|;
    if n <= 0 {
      trace := trace + [Stderr("read: failed"), Close];
      return true, trace;
    }
    var buf := ReadChunk(file.content);
    trace := trace + [Close];
    stopped := FirstOccurrence(CStringPrefix(buf), StoppedMarker).Some?;
  }

  /** Every inspection opens the status file of `pid` once, signals nobody
      and queries no window; when the open succeeded the descriptor is
      closed exactly once, as the last step. */
  lemma InspectionCloses(pid: int, file: StatusFile)
    ensures var t := InspectionEffects(pid, file);
            && t[0] == Open(pid)
            && Filter(t, IsOpen) == [Open(pid)]
            && Filter(t, IsKill) == []
            && (forall i | 0 <= i < |t| :: !t[i].GetProperty?)
            && Filter(t, IsClose) == (if file.Unopenable? then [] else [Close])
            && (!file.Unopenable? ==> t[|t| - 1] == Close)
  {
    var t := InspectionEffects(pid, file);
    var rest := t[1..];
    assert t == [Open(pid)] + rest;
    FilterCons(Open(pid), rest, IsOpen);
    FilterCons(Open(pid), rest, IsKill);
    FilterCons(Open(pid), rest, IsClose);
    FilterNone(rest, IsOpen);
    FilterNone(rest, IsKill);
    if file.Unopenable? {
      FilterNone(rest, IsClose);
    } else {
      var body := rest[..|rest| - 1];
      assert rest == body + [Close];
      FilterNone(body, IsClose);
      FilterAppend(body, [Close], IsClose);
      FilterCons(Close, [], IsClose);
    }
  }

  /** Status text contains no NUL, so there the C string is all the bytes
      read. */
  lemma NulFreeChunk(content: seq<byte>)
    requires content != []
    requires forall i | 0 <= i < |content| :: content[i] != 0
    ensures StoppedState(Text(content)) <==> Contains(ReadChunk(content), StoppedMarker)
  {
    var chunk := ReadChunk(content);
    assert CStringPrefix(chunk) == chunk;
  }

  /** Which marker is looked for: the text must have the newline before
      `State:`, so a status read that holds no newline never counts as
      stopped. */
  lemma NewlineRequired(content: seq<byte>)
    requires content != []
    requires forall i | 0 <= i < |content| :: content[i] != 10
    ensures !StoppedState(Text(content))
  {
    var s := CStringPrefix(ReadChunk(content));
    assert StoppedMarker[0] == 10;
    assert forall i | 0 <= i < |s| :: s[i] != 10;
  }

  /** Whatever follows the first 512 bytes of the status text has no effect
      on the answer: a `State:` line beyond them is not seen. */
  lemma OnlyFirstChunkMatters(content: seq<byte>, more: seq<byte>)
    requires |content| >= ReadLength
    ensures StoppedState(Text(content + more)) == StoppedState(Text(content))
  {
    assert (content + more)[..ReadLength] == content[..ReadLength];
  }

  /** A status text with the marker early enough, and no NUL before it, is
      reported as stopped. */
  lemma MarkerInWindowIsStopped(before: seq<byte>, after: seq<byte>)
    requires |before| + |StoppedMarker| <= ReadLength
    requires forall i | 0 <= i < |before| :: before[i] != 0
    ensures StoppedState(Text(before + StoppedMarker + after))
  {
    var content := before + StoppedMarker + after;
    var chunk := ReadChunk(content);
    var s := CStringPrefix(chunk);
    var m := |before| + |StoppedMarker|;
    assert chunk[..m] == before + StoppedMarker;
    assert forall i | 0 <= i < m :: chunk[i] != 0;
    assert s[..m] == chunk[..m];
    assert OccursAt(s, StoppedMarker, |before|);
  }

  /** `"\nState:\t"`: the start of the state line. */
  const StateField: seq<byte> := Bytes("\nState:\t")

  /** Every `State:` field in `s` is followed by a letter other than `T`,
      or ends the string. */
  ghost predicate EveryStateLetterIsNotT(s: seq<byte>)
  {
    forall i {:trigger OccursAt(s, StateField, i)} | OccursAt(s, StateField, i) ::
      i + |StateField| < |s| ==> s[i + |StateField|] as int != 'T' as int
  }

  /** Other state letters are not "stopped": when every `State:` field in
      the C string read is followed by a letter other than `T` (or by
      nothing), the process is not reported as stopped. */
  lemma OtherStateIsNotStopped(content: seq<byte>)
    requires content != []
    requires EveryStateLetterIsNotT(CStringPrefix(ReadChunk(content)))
    ensures !StoppedState(Text(content))
  {
    var s := CStringPrefix(ReadChunk(content));
    var m := |StateField|;
    assert m + 1 == |StoppedMarker|;
    assert StoppedMarker[..m] == StateField;
    assert StoppedMarker[m] as int == 'T' as int;
    forall i | 0 <= i && i + |StoppedMarker| <= |s|
      ensures !OccursAt(s, StoppedMarker, i)
    {
      if s[i..i + m] == StateField {
        assert OccursAt(s, StateField, i);
        assert s[i + m] as int != 'T' as int;
        assert s[i..i + |StoppedMarker|][m] != StoppedMarker[m];
      } else {
        assert s[i..i + |StoppedMarker|][..m] == s[i..i + m];
      }
    }
  }

  /** A single status line (a line break, if any, only as its first byte)
      holds the marker only if it begins with it. */
  lemma LineLacksMarker(line: seq<byte>)
    requires forall i | 1 <= i < |line| :: line[i] != 10
    requires |line| < |StoppedMarker| || line[..|StoppedMarker|] != StoppedMarker
    ensures !Contains(line, StoppedMarker)
  {
    assert StoppedMarker[0] == 10;
    forall i | 0 <= i && i + |StoppedMarker| <= |line|
      ensures !OccursAt(line, StoppedMarker, i)
    {
      if i == 0 {
        assert line[i..i + |StoppedMarker|] == line[..|StoppedMarker|];
      } else {
        assert line[i..i + |StoppedMarker|][0] != StoppedMarker[0];
      }
    }
  }

  /** The marker has no line break after its first byte, so it never spans
      the start of a new line: text made of lines without the marker lacks
      it. */
  lemma MarkerWithinOneLine(a: seq<byte>, b: seq<byte>)
    requires b == [] || b[0] == 10
    requires !Contains(a, StoppedMarker) && !Contains(b, StoppedMarker)
    ensures !Contains(a + b, StoppedMarker)
  {
    var n := |StoppedMarker|;
    assert forall k | 1 <= k < n :: StoppedMarker[k] != 10;
    var t := a + b;
    forall i | 0 <= i && i + n <= |t|
      ensures !OccursAt(t, StoppedMarker, i)
    {
      if i + n <= |a| {
        assert t[i..i + n] == a[i..i + n];
        assert !OccursAt(a, StoppedMarker, i);
      } else if |a| <= i {
        assert t[i..i + n] == b[i - |a|..i - |a| + n];
        assert !OccursAt(b, StoppedMarker, i - |a|);
      } else {
        assert t[|a|] == b[0] == 10;
        assert t[i..i + n][|a| - i] != StoppedMarker[|a| - i];
      }
    }
  }

  /** A multi-line status text of a sleeping process. */
  const SleepingStatus: seq<byte> :=
    Bytes("Name:\tcat") + Bytes("\nUmask:\t0022") + Bytes("\nState:\tS (sleeping)")
    + Bytes("\nTgid:\t4242") + Bytes("\n")

  /** The sleeping status text holds no stopped marker. */
  lemma SleepingStatusLacksMarker()
    ensures !Contains(SleepingStatus, StoppedMarker)
  {
    var l1 := Bytes("Name:\tcat");
    var l2 := Bytes("\nUmask:\t0022");
    var l3 := Bytes("\nState:\tS (sleeping)");
    var l4 := Bytes("\nTgid:\t4242");
    var l5 := Bytes("\n");
    assert l1[0] != StoppedMarker[0];
    LineLacksMarker(l1);
    assert l2[1] != StoppedMarker[1];
    LineLacksMarker(l2);
    assert l3[8] != StoppedMarker[8];
    LineLacksMarker(l3);
    assert l4[1] != StoppedMarker[1];
    LineLacksMarker(l4);
    LineLacksMarker(l5);
    MarkerWithinOneLine(l1, l2);
    MarkerWithinOneLine(l1 + l2, l3);
    MarkerWithinOneLine(l1 + l2 + l3, l4);
    MarkerWithinOneLine(l1 + l2 + l3 + l4, l5);
  }

  /** A sleeping process, in a status text of several lines, is not
      reported as stopped. */
  lemma SleepingStatusIsNotStopped()
    ensures !StoppedState(Text(SleepingStatus))
  {
    SleepingStatusLacksMarker();
    assert ReadChunk(SleepingStatus) == SleepingStatus;
    NulFreeChunk(SleepingStatus);
  }
}
