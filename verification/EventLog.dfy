/**
  The bounded event log: an in-memory ring and a line file that may be torn by failed appends,
  left behind by failed replacements, or unreadable at start. Lines are modelled after parsing.
 */
module EventLog {
  import opened Base

  const MAX_LINE: nat := 16384
  const MIN_FILE: nat := 1_048_576
  const DEFAULT_KEEP: nat := 500

  datatype RawEvent = RawEvent(body: string, bytes: nat)

  /** A normalised event; `bytes` is the length of its line, newline included. */
  type Event = e: RawEvent | 2 <= e.bytes <= MAX_LINE witness RawEvent("", 2)

  /** One line of the file: an event, nothing, or something that does not parse or is too long. */
  datatype Line = Record(ev: Event, bytes: nat) | Blank(bytes: nat) | Junk(bytes: nat)

  /** Complete lines, then possibly a last fragment without its newline. */
  datatype File = Missing | Stored(lines: seq<Line>, torn: Option<Line>)

  // ----- Sizes and contents -------------------------------------------------

  function Size(lines: seq<Line>): nat {
    if lines == [] then 0 else Size(lines[..|lines| - 1]) + lines[|lines| - 1].bytes
  }

  function RingSize(ring: seq<Event>): nat {
    if ring == [] then 0 else RingSize(ring[..|ring| - 1]) + ring[|ring| - 1].bytes
  }

  function Pieces(f: File): seq<Line> {
    if f.Missing? then [] else f.lines + if f.torn.Some? then [f.torn.value] else []
  }

  function FileSize(f: File): nat { Size(Pieces(f)) }

  function MaxBytes(keep: nat): nat {
    if keep * MAX_LINE < MIN_FILE then MIN_FILE else keep * MAX_LINE
  }

  function Events(lines: seq<Line>): seq<Event> {
    if lines == [] then []
    else
      var last := lines[|lines| - 1];
      Events(lines[..|lines| - 1]) + if last.Record? then [last.ev] else []
  }

  /** Where reading starts: only the newest part of an oversized file is looked at. */
  function ReadStart(f: File, keep: nat): nat {
    Max(0, FileSize(f) - (MaxBytes(keep) + MAX_LINE))
  }

  /** Pieces that begin at or before the reading position may be cut and are not used. */
  function Hidden(lines: seq<Line>, skip: int): nat
    ensures Hidden(lines, skip) <= |lines|
  {
    if lines == [] || skip < 0 then 0 else 1 + Hidden(lines[1..], skip - lines[0].bytes)
  }

  function Visible(f: File, keep: nat): seq<Line> {
    var start := ReadStart(f, keep);
    if start == 0 then Pieces(f) else Pieces(f)[Hidden(Pieces(f), start)..]
  }

  /** The ring a process gets that opens this file. */
  function Reopen(f: File, keep: nat): seq<Event> {
    LastN(Events(Visible(f, keep)), keep)
  }

  // ----- The state and its steps --------------------------------------------

  datatype Log = Log(keep: nat, ring: seq<Event>, fileBytes: nat, dirty: bool, blocked: bool, file: File)

  /** Replacing the file: done, not done, or done and still reported as failed. */
  datatype Replace = Done | NotDone | DoneButFailed

  datatype LoadIo = ReadFails(sized: bool) | Reads(replace: Replace, chmod: bool)

  /** An append may write any prefix of the line, and fail in writing or closing. */
  datatype AppendIo = OpenFails | Wrote(n: nat, writeError: bool, closeError: bool, sized: bool)

  datatype Io = Io(load: LoadIo, replace: Replace, append: AppendIo)

  function AsLines(ring: seq<Event>): seq<Line> {
    seq(|ring|, i requires 0 <= i < |ring| => Record(ring[i], ring[i].bytes))
  }

  function Compact(l: Log, io: Replace): (Log, bool) {
    if RingSize(l.ring) > MaxBytes(l.keep) then (l, false)
    else match io
      case Done => (l.(file := Stored(AsLines(l.ring), None), fileBytes := RingSize(l.ring)), true)
      case NotDone => (l, false)
      case DoneButFailed => (l.(file := Stored(AsLines(l.ring), None)), false)
  }

  /** `left`: the position of the newline before the last line read, 0 if there is none or nothing before it. */
  datatype Scanned = Scanned(events: seq<Event>, junk: bool, left: nat)

  /** Reads lines newest first until `room` events are found. */
  function Scan(lines: seq<Line>, room: nat): Scanned {
    if lines == [] || room == 0 then Scanned([], false, Max(0, Size(lines) - 1))
    else
      var init, last := lines[..|lines| - 1], lines[|lines| - 1];
      match last
      case Record(ev, _) => var s := Scan(init, room - 1); s.(events := s.events + [ev])
      case Blank(_) => Scan(init, room)
      case Junk(_) => Scan(init, room).(junk := true)
  }

  lemma ScanStep(lines: seq<Line>, room: nat)
    ensures lines == [] || room == 0 ==> Scan(lines, room) == Scanned([], false, Max(0, Size(lines) - 1))
    ensures lines != [] && room > 0 ==>
              var init, last := lines[..|lines| - 1], lines[|lines| - 1];
              var s := Scan(init, if last.Record? then room - 1 else room);
              Scan(lines, room) == Scanned(if last.Record? then s.events + [last.ev] else s.events, s.junk || last.Junk?, s.left)
  {
  }

  predicate NeedsCompact(f: File, keep: nat) {
    var s := Scan(Visible(f, keep), keep);
    || ReadStart(f, keep) > 0 || FileSize(f) > MaxBytes(keep)
    || (f.Stored? && f.torn.Some?) || s.junk || s.left > 0
  }

  function Load(l: Log, io: LoadIo): (Log, bool) {
    if l.file.Missing? then (l, true)
    else match io
      case ReadFails(sized) => (if sized then l.(fileBytes := FileSize(l.file)) else l, false)
      case Reads(replace, chmod) =>
        var read := l.(ring := Scan(Visible(l.file, l.keep), l.keep).events, fileBytes := FileSize(l.file));
        if NeedsCompact(l.file, l.keep) then Compact(read, replace) else (read, chmod)
  }

  /** A process opening the log. A failed load discards what it read and blocks writing. */
  function Open(file: File, keep: nat, io: LoadIo): Log {
    var (l, ok) := Load(Log(keep, [], 0, false, false, file), io);
    if ok then l else l.(ring := [], dirty := false, blocked := true)
  }

  /** n bytes of ev's line reach the end of the file. */
  function Extend(f: File, ev: Event, n: nat): File {
    var lines := if f.Missing? then [] else f.lines;
    if f.Stored? && f.torn.Some? then
      if n < ev.bytes then Stored(lines, Some(Junk(f.torn.value.bytes + n)))
      else Stored(lines + [Junk(f.torn.value.bytes + n)], None)
    else if n == 0 then Stored(lines, None)
    else if n < ev.bytes - 1 then Stored(lines, Some(Junk(n)))
    else if n == ev.bytes - 1 then Stored(lines, Some(Record(ev, n)))
    else Stored(lines + [Record(ev, ev.bytes)], None)
  }

  function Append(l: Log, ev: Event, io: AppendIo): (Log, bool) {
    match io
    case OpenFails => (l, false)
    case Wrote(m, writeError, closeError, sized) =>
      var n := Min(m, ev.bytes);
      var file := Extend(l.file, ev, n);
      (l.(file := file, fileBytes := if writeError && sized then FileSize(file) else l.fileBytes + n),
       !writeError && n == ev.bytes && !closeError)
  }

  /** Re-reads a history that could not be read before and puts the buffered ring behind it. */
  function Recover(l: Log, io: Io): (Log, bool) {
    var (r, ok) := Load(l.(ring := []), io.load);
    if !ok then (r.(ring := l.ring), false)
    else Compact(r.(blocked := false, ring := LastN(r.ring + l.ring, l.keep)), io.replace)
  }

  /** Puts an event already in the ring on disk, by whichever route the file allows. */
  function Written(l: Log, ev: Event, io: Io): (Log, bool) {
    if l.blocked then Recover(l, io)
    else if l.dirty || l.fileBytes + ev.bytes > MaxBytes(l.keep) then Compact(l, io.replace)
    else Append(l, ev, io.append)
  }

  function Add(l: Log, ev: Event, io: Io): (Log, bool) {
    var (l1, ok) := Written(l.(ring := LastN(l.ring + [ev], l.keep)), ev, io);
    (if ok then l1.(dirty := false) else if l1.blocked then l1 else l1.(dirty := true), ok)
  }

  /** An audit record; `None` is one that fails validation or does not fit a line. */
  function Audit(l: Log, record: Option<Event>, io: Replace): (Log, bool) {
    if record.None? || l.blocked then (l, false)
    else
      var (l1, ok) := Compact(l.(ring := LastN(l.ring + [record.value], l.keep)), io);
      (if ok then l1.(dirty := false) else l1.(ring := l.ring, dirty := true), ok)
  }

  // ----- The log itself -----------------------------------------------------

  class EventFile {
    const keep: nat
    const maxFileBytes: nat
    var ring: seq<Event>
    var fileBytes: nat
    var dirty: bool
    var loadBlocked: bool
    var file: File // on disk

    function View(): Log
      reads this
    {
      Log(keep, ring, fileBytes, dirty, loadBlocked, file)
    }

    constructor (file: File, wanted: int, io: LoadIo)
      ensures keep == (if wanted <= 0 then DEFAULT_KEEP else wanted) && maxFileBytes == MaxBytes(keep)
      ensures View() == Open(file, keep, io)
    {
      var k: nat := if wanted <= 0 then DEFAULT_KEEP else wanted;
      keep := k;
      maxFileBytes := if k * MAX_LINE < MIN_FILE then MIN_FILE else k * MAX_LINE;
      ring, fileBytes, dirty, loadBlocked, this.file := [], 0, false, false, file;
      new;
      var ok := LoadFile(io);
      if !ok {
        ring, dirty, loadBlocked := [], false, true;
      }
    }

    /** Walks the lines backwards until the ring is full. */
    method ScanLines(data: seq<Line>) returns (events: seq<Event>, junk: bool, left: nat)
      ensures Scanned(events, junk, left) == Scan(data, keep)
    {
      hide Scan, Size, Reversed;
      NothingReversed();
      var newestFirst: seq<Event> := [];
      var end := |data|;
      junk := false;
      ghost var goal := Scan(data, keep);
      assert data[..end] == data;
      while end > 0 && |newestFirst| < keep
        invariant end <= |data| && |newestFirst| <= keep
        invariant goal.events == Scan(data[..end], keep - |newestFirst|).events + Reversed(newestFirst)
        invariant goal.junk == (junk || Scan(data[..end], keep - |newestFirst|).junk)
        invariant goal.left == Scan(data[..end], keep - |newestFirst|).left
      {
        var raw := data[end - 1];
        assert data[..end][..end - 1] == data[..end - 1];
        ScanStep(data[..end], keep - |newestFirst|);
        end := end - 1;
        match raw {
          case Blank(_) =>
          case Junk(_) => junk := true;
          case Record(ev, _) =>
            ReversedStep(newestFirst, ev);
            newestFirst := newestFirst + [ev];
        }
      }
      events := Reversed(newestFirst);
      ScanStep(data[..end], keep - |newestFirst|);
      left := Max(0, Size(data[..end]) - 1);
    }

    /** Reads the newest part of the file and compacts it when it is not in shape. */
    method LoadFile(io: LoadIo) returns (ok: bool)
      requires maxFileBytes == MaxBytes(keep)
      modifies this
      ensures (View(), ok) == Load(old(View()), io)
    {
      if file.Missing? {
        return true;
      }
      var size := FileSize(file);
      if io.ReadFails? {
        if io.sized {
          fileBytes := size;
        }
        return false;
      }
      fileBytes := size;
      var readLimit := maxFileBytes + MAX_LINE;
      var start := if size > readLimit then size - readLimit else 0;
      var pieces := Pieces(file);
      var data := if start > 0 then pieces[Hidden(pieces, start)..] else pieces;
      var events, junk, end := ScanLines(data);
      ring := events;
      if start > 0 || size > maxFileBytes || file.torn.Some? || junk || end > 0 {
        ok := CompactFile(io.replace);
      } else {
        ok := io.chmod;
      }
    }

    /** Writes the ring to a temporary file, line by line within the limit, and swaps it in. */
    method CompactFile(io: Replace) returns (ok: bool)
      requires maxFileBytes == MaxBytes(keep)
      modifies `file, `fileBytes
      ensures (View(), ok) == Compact(old(View()), io)
    {
      var written := 0;
      var temp: seq<Line> := [];
      for i := 0 to |ring|
        invariant written == RingSize(ring[..i]) <= maxFileBytes
        invariant temp == AsLines(ring[..i])
      {
        assert ring[..i + 1][..i] == ring[..i];
        if written + ring[i].bytes > maxFileBytes {
          RingSizeGrows(ring, i + 1);
          return false;
        }
        temp := temp + [Record(ring[i], ring[i].bytes)];
        written := written + ring[i].bytes;
      }
      assert ring[..|ring|] == ring;
      if io.NotDone? {
        return false;
      }
      file := Stored(temp, None);
      if io.DoneButFailed? {
        return false;
      }
      fileBytes := written;
      return true;
    }

    method AppendLine(ev: Event, io: AppendIo) returns (ok: bool)
      modifies `file, `fileBytes
      ensures (View(), ok) == Append(old(View()), ev, io)
    {
      if io.OpenFails? {
        return false;
      }
      var n := Min(io.n, ev.bytes);
      file := Extend(file, ev, n);
      fileBytes := fileBytes + n;
      if io.writeError {
        if io.sized {
          fileBytes := FileSize(file);
        }
        return false;
      }
      return n == ev.bytes && !io.closeError;
    }

    method RecoverFile(io: Io) returns (ok: bool)
      requires maxFileBytes == MaxBytes(keep)
      modifies this
      ensures (View(), ok) == Recover(old(View()), io)
    {
      var buffered := ring;
      ring := [];
      ok := LoadFile(io.load);
      if !ok {
        ring := buffered;
        return;
      }
      loadBlocked := false;
      ring := LastN(ring + buffered, keep);
      ok := CompactFile(io.replace);
    }

    /** Puts an event already in the ring on disk, by whichever route the file allows. */
    method Store(ev: Event, io: Io) returns (ok: bool)
      requires maxFileBytes == MaxBytes(keep)
      modifies this
      ensures (View(), ok) == Written(old(View()), ev, io)
    {
      if loadBlocked {
        ok := RecoverFile(io);
      } else if dirty || fileBytes + ev.bytes > maxFileBytes {
        ok := CompactFile(io.replace);
      } else {
        ok := AppendLine(ev, io.append);
      }
    }

    /** Records an event; the ring keeps it whatever happens to the file. */
    method AddEvent(ev: Event, io: Io) returns (ok: bool)
      requires maxFileBytes == MaxBytes(keep)
      modifies this
      ensures (View(), ok) == Add(old(View()), ev, io)
    {
      ring := ring + [ev];
      if |ring| > keep {
        ring := ring[|ring| - keep..];
      }
      ok := Store(ev, io);
      if ok {
        dirty := false;
      } else if !loadBlocked {
        dirty := true;
      }
    }

    /** Rewrites the file with the record in it, or forgets the record. */
    method RecordAudit(record: Option<Event>, io: Replace) returns (ok: bool)
      requires maxFileBytes == MaxBytes(keep)
      modifies this
      ensures (View(), ok) == Audit(old(View()), record, io)
    {
      if record.None? || loadBlocked {
        return false;
      }
      var previousRing := ring;
      var candidate := previousRing + [record.value];
      if |candidate| > keep {
        candidate := candidate[|candidate| - keep..];
      }
      ring := candidate;
      ok := CompactFile(io);
      if !ok {
        ring, dirty := previousRing, true;
      } else {
        dirty := false;
      }
    }
  }

  function Reversed<T>(s: seq<T>): seq<T> {
    if s == [] then [] else [s[|s| - 1]] + Reversed(s[..|s| - 1])
  }

  lemma NothingReversed()
    ensures Reversed<Event>([]) == []
  {
  }

  lemma ReversedStep<T>(s: seq<T>, x: T)
    ensures Reversed(s + [x]) == [x] + Reversed(s)
  {
    assert (s + [x])[..|s|] == s;
  }

  lemma {:induction false} RingSizeGrows(ring: seq<Event>, n: nat)
    requires n <= |ring|
    ensures RingSize(ring[..n]) <= RingSize(ring)
    decreases |ring| - n
  {
    if n < |ring| {
      assert ring[..n + 1][..n] == ring[..n];
      RingSizeGrows(ring, n + 1);
    } else {
      assert ring[..n] == ring;
    }
  }
}
