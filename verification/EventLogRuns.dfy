/** The ring, the file and the accepted history agree over every sequence of operations and faults. */
module EventLogRuns {
  import opened Base
  import opened EventLog

  datatype Op = Add(ev: Event, io: Io) | Audit(record: Option<Event>, replace: Replace) | Restart(load: LoadIo)

  /**
    A log together with every event it accepted, oldest first, and what a reader of the file
    could still recover when the log started blocked.
   */
  datatype Run = Run(log: Log, history: seq<Event>, unread: seq<Event>)

  function Apply(l: Log, op: Op): (Log, bool) {
    match op
    case Add(ev, io) => EventLog.Add(l, ev, io)
    case Audit(record, replace) => EventLog.Audit(l, record, replace)
    case Restart(load) => var o := Open(l.file, l.keep, load); (o, !o.blocked)
  }

  function Step(r: Run, op: Op): Run {
    var (l, ok) := Apply(r.log, op);
    match op
    case Add(ev, _) =>
      Run(l, (if r.log.blocked && !l.blocked then Events(Visible(r.log.file, r.log.keep)) else []) + r.history + [ev], r.unread)
    case Audit(record, _) => Run(l, if ok then r.history + [record.value] else r.history, r.unread)
    case Restart(_) =>
      Run(l, if ok then Events(Visible(r.log.file, r.log.keep)) else [], Reopen(r.log.file, r.log.keep))
  }

  function After(r: Run, ops: seq<Op>): Run {
    if ops == [] then r else Step(After(r, ops[..|ops| - 1]), ops[|ops| - 1])
  }

  // ----- The invariant ------------------------------------------------------

  /** The file holds exactly the ring, every byte of it is accounted for, and it ends in a newline. */
  predicate InSync(l: Log) {
    && (l.file.Stored? ==> l.file.torn.None?)
    && FileSize(l.file) == l.fileBytes <= MaxBytes(l.keep)
    && Reopen(l.file, l.keep) == l.ring
  }

  predicate Inv(r: Run) {
    var l := r.log;
    && l.keep > 0
    && l.ring == LastN(r.history, l.keep)
    && (!l.blocked ==> l.fileBytes <= MaxBytes(l.keep))
    && (!l.blocked && !l.dirty ==> InSync(l))
    && (l.blocked ==> !l.dirty && l.file.Stored? && Reopen(l.file, l.keep) == r.unread)
  }

  // ----- Lists and sizes ----------------------------------------------------

  lemma LastNTwice<T>(a: seq<T>, b: seq<T>, n: nat)
    ensures LastN(LastN(a, n) + b, n) == LastN(a + b, n)
  {
  }

  lemma {:induction false} ScanFindsNewest(lines: seq<Line>, room: nat)
    ensures Scan(lines, room).events == LastN(Events(lines), room)
  {
    if lines != [] && room > 0 {
      var init, last := lines[..|lines| - 1], lines[|lines| - 1];
      ScanFindsNewest(init, if last.Record? then room - 1 else room);
    }
  }

  /** `keep` lines of maximal length fit, so compaction never fails for size. */
  lemma {:induction false} RingFits(ring: seq<Event>, keep: nat)
    requires |ring| <= keep
    ensures RingSize(ring) <= |ring| * MAX_LINE <= MaxBytes(keep)
  {
    if ring != [] {
      RingFits(ring[..|ring| - 1], keep);
    }
  }

  lemma {:induction false} LinesOfRing(ring: seq<Event>)
    ensures Size(AsLines(ring)) == RingSize(ring)
    ensures Events(AsLines(ring)) == ring
  {
    if ring != [] {
      var init := ring[..|ring| - 1];
      assert AsLines(ring)[..|ring| - 1] == AsLines(init);
      LinesOfRing(init);
      assert ring == init + [ring[|ring| - 1]];
    }
  }

  /** A compacted file reopens as the ring it was made from. */
  lemma CompactedReopens(ring: seq<Event>, keep: nat)
    requires |ring| <= keep
    ensures var f := Stored(AsLines(ring), None);
      FileSize(f) == RingSize(ring) <= MaxBytes(keep) && Reopen(f, keep) == ring
  {
    var f := Stored(AsLines(ring), None);
    assert Pieces(f) == AsLines(ring);
    LinesOfRing(ring);
    RingFits(ring, keep);
  }

  // ----- Single steps -------------------------------------------------------

  lemma CompactSyncs(l: Log, io: Replace)
    requires |l.ring| <= l.keep
    ensures var (m, ok) := Compact(l, io);
      && m == l.(file := m.file, fileBytes := m.fileBytes)
      && (ok <==> io.Done?)
      && (ok ==> InSync(m))
      && (io.DoneButFailed? ==> Reopen(m.file, l.keep) == l.ring)
      && (io.NotDone? ==> m == l)
      && (l.fileBytes <= MaxBytes(l.keep) ==> m.fileBytes <= MaxBytes(l.keep))
  {
    RingFits(l.ring, l.keep);
    CompactedReopens(l.ring, l.keep);
  }

  /** Loading yields what reopening promises, and never changes what a later reader would find. */
  lemma LoadReopens(l: Log, io: LoadIo)
    requires l.ring == [] && (l.file.Missing? ==> l.fileBytes == 0)
    ensures var (m, ok) := Load(l, io);
      && m == l.(ring := m.ring, file := m.file, fileBytes := m.fileBytes)
      && (ok ==> m.ring == Reopen(l.file, l.keep) && InSync(m))
      && Reopen(m.file, l.keep) == Reopen(l.file, l.keep)
      && (m.file.Missing? <==> l.file.Missing?)
  {
    if l.file.Stored? && io.Reads? {
      var s := Scan(Visible(l.file, l.keep), l.keep);
      ScanFindsNewest(Visible(l.file, l.keep), l.keep);
      var read := l.(ring := s.events, fileBytes := FileSize(l.file));
      if NeedsCompact(l.file, l.keep) {
        CompactSyncs(read, io.replace);
      }
    }
  }

  // ----- What opening a file yields ---------------------------------------------------

  lemma {:induction false} SizeFront(lines: seq<Line>)
    requires lines != []
    ensures Size(lines) == lines[0].bytes + Size(lines[1..])
  {
    if |lines| > 1 {
      SizeFront(lines[..|lines| - 1]);
      assert lines[..|lines| - 1][1..] == lines[1..][..|lines| - 2];
    }
  }

  lemma {:induction false} SizeSplits(lines: seq<Line>, n: nat)
    requires n <= |lines|
    ensures Size(lines) == Size(lines[..n]) + Size(lines[n..])
    decreases |lines| - n
  {
    if n == |lines| {
      assert lines[..n] == lines;
    } else {
      SizeSplits(lines, n + 1);
      SizeFront(lines[n..]);
      assert lines[..n + 1][..n] == lines[..n] && lines[n..][1..] == lines[n + 1..];
    }
  }

  /** Skipped are the pieces that begin at or before the position. */
  lemma {:induction false} HiddenBegin(lines: seq<Line>, skip: int, i: nat)
    requires i < |lines|
    ensures i >= Hidden(lines, skip) <==> Size(lines[..i]) > skip
  {
    if skip >= 0 && i > 0 {
      HiddenBegin(lines[1..], skip - lines[0].bytes, i - 1);
      SizeFront(lines[..i]);
      assert lines[..i][1..] == lines[1..][..i - 1];
    }
  }

  /** From piece `cut` on a file is read: all of it, or, if it is too big, what begins in its last part. */
  predicate ReadFrom(f: File, keep: nat, cut: nat) {
    var pieces := Pieces(f);
    var start := Size(pieces) - ((if keep * 16384 < 1048576 then 1048576 else keep * 16384) + 16384);
    cut <= |pieces| && forall i :: 0 <= i < |pieces| ==> (i >= cut <==> start <= 0 || Size(pieces[..i]) > start)
  }

  /** A successful load of any file yields the newest events of what is read of it. */
  lemma LoadsTheEnd(l: Log, replace: Replace, chmod: bool) returns (cut: nat)
    requires l.ring == [] && (l.file.Missing? ==> l.fileBytes == 0) && Load(l, Reads(replace, chmod)).1
    ensures ReadFrom(l.file, l.keep, cut)
    ensures Load(l, Reads(replace, chmod)).0.ring == LastN(Events(Pieces(l.file)[cut..]), l.keep)
  {
    var pieces, start := Pieces(l.file), ReadStart(l.file, l.keep);
    cut := if start == 0 then 0 else Hidden(pieces, start);
    forall i | 0 <= i < |pieces| && start > 0 ensures i >= cut <==> Size(pieces[..i]) > start {
      HiddenBegin(pieces, start, i);
    }
    LoadReopens(l, Reads(replace, chmod));
    assert pieces[0..] == pieces;
  }

  /** A file of any size: if its newest events lie in the part that is kept, they are what the log opens with. */
  lemma NewestAreRestored(l: Log, replace: Replace, chmod: bool, j: nat)
    requires l.ring == [] && (l.file.Missing? ==> l.fileBytes == 0) && Load(l, Reads(replace, chmod)).1
    requires j <= |Pieces(l.file)| && Size(Pieces(l.file)[j..]) <= (if l.keep * 16384 < 1048576 then 1048576 else l.keep * 16384)
    requires j == 0 || |Events(Pieces(l.file)[j..])| >= l.keep
    ensures Load(l, Reads(replace, chmod)).0.ring == LastN(Events(Pieces(l.file)), l.keep)
  {
    var pieces := Pieces(l.file);
    var cut := LoadsTheEnd(l, replace, chmod);
    SizeSplits(pieces, j);
    assert cut <= j by {
      if j < |pieces| { assert j >= cut; }
    }
    EventsSplit(pieces[cut..], j - cut);
    EventsSplit(pieces, cut);
    assert pieces[cut..][j - cut..] == pieces[j..];
  }

  lemma {:induction false} EventsSplit(lines: seq<Line>, n: nat)
    requires n <= |lines|
    ensures Events(lines) == Events(lines[..n]) + Events(lines[n..])
  {
    if n < |lines| {
      var init := lines[..|lines| - 1];
      EventsSplit(init, n);
      assert init[..n] == lines[..n] && init[n..] == lines[n..][..|lines| - n - 1];
      assert lines[n..][|lines| - n - 1] == lines[|lines| - 1];
    } else {
      assert lines[..n] == lines;
    }
  }

  lemma ExtendGrows(f: File, ev: Event, n: nat)
    requires (f.Stored? ==> f.torn.None?) && n <= ev.bytes
    ensures var g := Extend(f, ev, n);
      && FileSize(g) == FileSize(f) + n
      && Events(Pieces(g)) == Events(Pieces(f)) + (if n >= ev.bytes - 1 then [ev] else [])
      && (n == ev.bytes ==> g.torn.None?)
  {
    var g := Extend(f, ev, n);
    assert 0 < n ==> Pieces(g)[..|Pieces(f)|] == Pieces(f) && |Pieces(g)| == |Pieces(f)| + 1;
    assert n == 0 ==> Pieces(g) == Pieces(f);
  }

  lemma SmallFilesAreRead(f: File, keep: nat)
    requires FileSize(f) <= MaxBytes(keep)
    ensures Reopen(f, keep) == LastN(Events(Pieces(f)), keep)
  {
  }

  lemma AppendSyncs(l: Log, before: seq<Event>, ev: Event, io: AppendIo)
    requires InSync(l.(ring := before)) && l.ring == LastN(before + [ev], l.keep)
    requires l.fileBytes + ev.bytes <= MaxBytes(l.keep)
    ensures var (m, ok) := Append(l, ev, io);
      && m == l.(file := m.file, fileBytes := m.fileBytes)
      && m.fileBytes <= MaxBytes(l.keep)
      && (ok ==> InSync(m))
  {
    if io.Wrote? {
      var n := Min(io.n, ev.bytes);
      var g := Extend(l.file, ev, n);
      ExtendGrows(l.file, ev, n);
      if n == ev.bytes {
        SmallFilesAreRead(l.file, l.keep);
        SmallFilesAreRead(g, l.keep);
        LastNTwice(Events(Pieces(l.file)), [ev], l.keep);
      }
    }
  }

  lemma RecoverSyncs(l: Log, io: Io)
    requires l.blocked && l.file.Stored?
    ensures var (m, ok) := Recover(l, io);
      && m.keep == l.keep && m.dirty == l.dirty
      && (ok ==> !m.blocked && InSync(m))
      && (m.blocked ==> m.ring == l.ring && m.file.Stored? && Reopen(m.file, m.keep) == Reopen(l.file, l.keep))
      && (!m.blocked ==> m.ring == LastN(Reopen(l.file, l.keep) + l.ring, l.keep) && m.fileBytes <= MaxBytes(l.keep))
  {
    var (m, ok) := Load(l.(ring := []), io.load);
    LoadReopens(l.(ring := []), io.load);
    if ok {
      CompactSyncs(m.(blocked := false, ring := LastN(m.ring + l.ring, l.keep)), io.replace);
    }
  }

  /** Putting an event on disk, whichever route is taken. */
  lemma WrittenSyncs(l: Log, before: seq<Event>, ev: Event, io: Io)
    requires !l.blocked && l.ring == LastN(before + [ev], l.keep)
    requires l.fileBytes <= MaxBytes(l.keep) && (!l.dirty ==> InSync(l.(ring := before)))
    ensures var (m, ok) := Written(l, ev, io);
      && m == l.(file := m.file, fileBytes := m.fileBytes)
      && m.fileBytes <= MaxBytes(l.keep)
      && (ok ==> InSync(m))
  {
    if l.dirty || l.fileBytes + ev.bytes > MaxBytes(l.keep) {
      CompactSyncs(l, io.replace);
    } else {
      AppendSyncs(l, before, ev, io.append);
    }
  }

  // ----- Preservation -------------------------------------------------------

  /** What adding one event leads to: the invariant, and the merged history when a blocked log opens. */
  ghost predicate AddIsFine(r: Run, ev: Event, io: Io) {
    var after := Step(r, Op.Add(ev, io));
    && Inv(after) && after.log.keep == r.log.keep
    && EventLog.Add(r.log, ev, io).1 == (!after.log.blocked && !after.log.dirty)
    && (r.log.blocked && !after.log.blocked ==> after.log.ring == LastN(r.unread + (r.history + [ev]), r.log.keep))
  }

  lemma AddWhileBlocked(r: Run, ev: Event, io: Io)
    requires Inv(r) && r.log.blocked
    ensures AddIsFine(r, ev, io)
  {
    hide MaxBytes, Load, Compact, Append, FileSize, LastN, Visible, Events, Reopen;
    var l := r.log;
    var all := Events(Visible(l.file, l.keep));
    ReopenIsNewest(l.file, l.keep);
    LastNTwice(r.history, [ev], l.keep);
    RecoverSyncs(l.(ring := LastN(l.ring + [ev], l.keep)), io);
    MergedHistory(all, r.history, ev, l.keep);
    assert [] + r.history + [ev] == r.history + [ev];
    assert Step(r, Op.Add(ev, io)).log == EventLog.Add(l, ev, io).0;
  }

  lemma ReopenIsNewest(f: File, keep: nat)
    ensures Reopen(f, keep) == LastN(Events(Visible(f, keep)), keep)
  {
  }

  lemma AddWhileOpen(r: Run, ev: Event, io: Io)
    requires Inv(r) && !r.log.blocked
    ensures AddIsFine(r, ev, io)
  {
    hide MaxBytes, Load, Compact, Append, FileSize, LastN, Visible, Events, Reopen;
    var l := r.log;
    LastNTwice(r.history, [ev], l.keep);
    WrittenSyncs(l.(ring := LastN(l.ring + [ev], l.keep)), l.ring, ev, io);
    assert [] + r.history + [ev] == r.history + [ev];
    assert Step(r, Op.Add(ev, io)).log == EventLog.Add(l, ev, io).0;
  }

  lemma AddKeepsInv(r: Run, ev: Event, io: Io)
    requires Inv(r)
    ensures AddIsFine(r, ev, io)
  {
    if r.log.blocked {
      AddWhileBlocked(r, ev, io);
    } else {
      AddWhileOpen(r, ev, io);
    }
  }

  lemma MergedHistory(all: seq<Event>, history: seq<Event>, ev: Event, n: nat)
    ensures LastN(LastN(all, n) + LastN(history + [ev], n), n) == LastN(all + history + [ev], n)
    ensures LastN(LastN(all, n) + (history + [ev]), n) == LastN(all + history + [ev], n)
  {
    LastNTwice(all, LastN(history + [ev], n), n);
    LastNTwice(all, history + [ev], n);
    MergeLists(all, history + [ev], n);
    assert all + history + [ev] == all + (history + [ev]);
  }

  /** Capping the buffer first does not change what is kept of both. */
  lemma MergeLists(a: seq<Event>, b: seq<Event>, n: nat)
    ensures LastN(a + LastN(b, n), n) == LastN(a + b, n)
  {
  }

  lemma AuditKeepsInv(r: Run, record: Option<Event>, io: Replace)
    requires Inv(r)
    ensures Inv(Step(r, Op.Audit(record, io))) && Step(r, Op.Audit(record, io)).log.keep == r.log.keep
  {
    if record.Some? && !r.log.blocked {
      LastNTwice(r.history, [record.value], r.log.keep);
      CompactSyncs(r.log.(ring := LastN(r.log.ring + [record.value], r.log.keep)), io);
    }
  }

  lemma RestartKeepsInv(r: Run, io: LoadIo)
    requires r.log.keep > 0
    ensures Inv(Step(r, Op.Restart(io))) && Step(r, Op.Restart(io)).log.keep == r.log.keep
  {
    LoadReopens(Log(r.log.keep, [], 0, false, false, r.log.file), io);
  }

  lemma StepKeepsInv(r: Run, op: Op)
    requires Inv(r)
    ensures Inv(Step(r, op)) && Step(r, op).log.keep == r.log.keep
  {
    match op
    case Add(ev, io) => AddKeepsInv(r, ev, io);
    case Audit(record, io) => AuditKeepsInv(r, record, io);
    case Restart(io) => RestartKeepsInv(r, io);
  }

  /** A log that was just opened, from any file whatever. */
  function Opened(file: File, keep: nat, io: LoadIo): Run {
    Step(Run(Log(keep, [], 0, true, false, file), [], []), Op.Restart(io))
  }

  lemma {:induction false} RunsKeepInv(r: Run, ops: seq<Op>)
    requires Inv(r)
    ensures Inv(After(r, ops)) && After(r, ops).log.keep == r.log.keep
  {
    if ops != [] {
      RunsKeepInv(r, ops[..|ops| - 1]);
      StepKeepsInv(After(r, ops[..|ops| - 1]), ops[|ops| - 1]);
    }
  }

  lemma OpeningEstablishesInv(file: File, keep: nat, io: LoadIo)
    requires keep > 0
    ensures Inv(Opened(file, keep, io)) && Opened(file, keep, io).log.keep == keep
  {
    RestartKeepsInv(Run(Log(keep, [], 0, true, false, file), [], []), io);
  }

  // ----- What follows -------------------------------------------------------

  /** The ring is always the newest `keep` accepted events, and a healthy file reopens as exactly that. */
  lemma RingAndFileAgree(file: File, keep: nat, io: LoadIo, ops: seq<Op>)
    requires keep > 0
    ensures var r := After(Opened(file, keep, io), ops);
      && r.log.ring == LastN(r.history, keep)
      && (!r.log.blocked ==> r.log.fileBytes <= MaxBytes(keep))
      && (!r.log.blocked && !r.log.dirty ==>
            Reopen(r.log.file, keep) == LastN(r.history, keep) && FileSize(r.log.file) == r.log.fileBytes)
  {
    OpeningEstablishesInv(file, keep, io);
    RunsKeepInv(Opened(file, keep, io), ops);
  }

  /** Whatever failed or tore before, the first successful operation leaves ring, file and history equal. */
  lemma SuccessRestores(r: Run, op: Op)
    requires Inv(r) && Apply(r.log, op).1
    ensures var s := Step(r, op);
      && !s.log.dirty && !s.log.blocked && InSync(s.log)
      && Reopen(s.log.file, s.log.keep) == s.log.ring == LastN(s.history, s.log.keep)
  {
    StepKeepsInv(r, op);
    if op.Add? {
      AddKeepsInv(r, op.ev, op.io);
    }
  }

  /**
    In any run, an append that may be torn anywhere damages no earlier event, and adds its own
    exactly if all of it but the newline was written.
   */
  lemma TornAppendsDamageNothing(file: File, keep: nat, io: LoadIo, ops: seq<Op>, ev: Event, append: AppendIo)
    requires keep > 0
    ensures var l := After(Opened(file, keep, io), ops).log;
      !l.blocked && !l.dirty ==>
        Events(Pieces(Append(l, ev, append).0.file)) ==
          Events(Pieces(l.file)) + if append.Wrote? && append.n >= ev.bytes - 1 then [ev] else []
  {
    OpeningEstablishesInv(file, keep, io);
    RunsKeepInv(Opened(file, keep, io), ops);
    var l := After(Opened(file, keep, io), ops).log;
    if !l.blocked && !l.dirty && append.Wrote? {
      var n := Min(append.n, ev.bytes);
      var g := Extend(l.file, ev, n);
      ExtendGrows(l.file, ev, n);
    }
  }

  /** While the old history cannot be read, no operation changes what a reader would get from it. */
  lemma BlockedHistoryIsSafe(r: Run, op: Op)
    requires Inv(r) && r.log.blocked && Step(r, op).log.blocked
    ensures Reopen(Step(r, op).log.file, r.log.keep) == Reopen(r.log.file, r.log.keep)
  {
    StepKeepsInv(r, op);
    assert Step(r, op).unread == Reopen(r.log.file, r.log.keep);
  }

  /** Once it can be read, it is put before everything buffered meanwhile. */
  lemma RecoveryMerges(r: Run, ev: Event, io: Io)
    requires Inv(r) && r.log.blocked && !Step(r, Op.Add(ev, io)).log.blocked
    ensures Step(r, Op.Add(ev, io)).log.ring == LastN(r.unread + r.history + [ev], r.log.keep)
  {
    AddKeepsInv(r, ev, io);
    assert r.unread + r.history + [ev] == r.unread + (r.history + [ev]);
  }

  // ----- Audit records ------------------------------------------------------

  /**
    A failed audit record leaves ring and history alone. It can still be found by a process
    that opens the file exactly when the replacement was done and then reported as failed.
   */
  lemma FailedAudit(r: Run, record: Option<Event>, io: Replace)
    requires Inv(r) && !Apply(r.log, Op.Audit(record, io)).1
    ensures var s := Step(r, Op.Audit(record, io));
      && s.history == r.history && s.log.ring == r.log.ring
      && Reopen(s.log.file, s.log.keep) ==
           (if record.Some? && !r.log.blocked && io.DoneButFailed?
            then LastN(r.history + [record.value], r.log.keep) else Reopen(r.log.file, r.log.keep))
  {
    if record.Some? && !r.log.blocked {
      LastNTwice(r.history, [record.value], r.log.keep);
      CompactSyncs(r.log.(ring := LastN(r.log.ring + [record.value], r.log.keep)), io);
    }
  }

  lemma RestartReads(l: Log, load: LoadIo)
    requires Apply(l, Op.Restart(load)).1
    ensures Apply(l, Op.Restart(load)).0.ring == Reopen(l.file, l.keep)
  {
    LoadReopens(Log(l.keep, [], 0, false, false, l.file), load);
  }

  /** Exactly when a failed audit record comes back at the next start, given that it was not there before. */
  lemma FailedAuditReturns(r: Run, record: Event, io: Replace, load: LoadIo)
    requires Inv(r) && !r.log.blocked && record !in Reopen(r.log.file, r.log.keep)
    requires !Apply(r.log, Op.Audit(Some(record), io)).1
    requires var s := Step(r, Op.Audit(Some(record), io)); Apply(s.log, Op.Restart(load)).1
    ensures var s := Step(r, Op.Audit(Some(record), io));
      record in Step(s, Op.Restart(load)).log.ring <==> io.DoneButFailed?
  {
    hide MaxBytes, FileSize, Events, Visible, Apply, Reopen, InSync;
    FailedAudit(r, Some(record), io);
    var s := Step(r, Op.Audit(Some(record), io));
    RestartReads(s.log, load);
    if io.DoneButFailed? {
      var ring := LastN(r.history + [record], r.log.keep);
      assert ring[|ring| - 1] == record;
    }
  }

  /** x is not newly accepted by op: other events may be, and x itself only as a failed audit record. */
  predicate Spares(r: Run, op: Op, x: Event) {
    match op
    case Add(ev, _) => ev != x
    case Audit(record, _) => record == Some(x) ==> !Apply(r.log, op).1
    case Restart(_) => false
  }

  ghost predicate AllSpare(r: Run, ops: seq<Op>, x: Event) {
    forall i :: 0 <= i < |ops| ==> Spares(After(r, ops[..i]), ops[i], x)
  }

  /** No later operation resurrects a failed audit record, and any success also clears it from the file. */
  lemma {:induction false} FailedAuditStaysOut(r: Run, ops: seq<Op>, x: Event)
    requires Inv(r) && !r.log.blocked && x !in r.history && AllSpare(r, ops, x)
    ensures var s := After(r, ops);
      && Inv(s) && !s.log.blocked
      && x !in s.history && x !in s.log.ring
      && (!s.log.dirty ==> x !in Reopen(s.log.file, s.log.keep))
  {
    if ops != [] {
      var init, op := ops[..|ops| - 1], ops[|ops| - 1];
      forall i | 0 <= i < |init| ensures Spares(After(r, init[..i]), init[i], x) {
        assert init[..i] == ops[..i];
      }
      FailedAuditStaysOut(r, init, x);
      assert Spares(After(r, ops[..|ops| - 1]), ops[|ops| - 1], x);
      StepKeepsInv(After(r, init), op);
      UnblockedStays(After(r, init), op);
    }
  }

  lemma UnblockedStays(r: Run, op: Op)
    requires !r.log.blocked && !op.Restart?
    ensures !Step(r, op).log.blocked
  {
  }
}
