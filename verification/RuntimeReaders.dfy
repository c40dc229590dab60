/**
 A reader of the shared slot. Whatever the slot goes through, failures included, its runtime, its
 journal and its reader move as the replay cell of `ReplayRuns` does, so the reader holds what its
 cursor names and catches up with what is durable. When every client is dropped and the slot is
 created anew under a new prefix, the reader's old cursor is foreign to it and is answered by a reset.
 */
module RuntimeReaders {
  import opened Common
  import opened FenceText
  import opened ReadProtocol
  import opened ReadReplay
  import opened ReplayRuns
  import opened RuntimeCoherence

  // ---------------------------------------------------------------- foreign cursors

  ghost predicate OfPrefix(cursor: Cursor, prefix: string) {
    exists g: U64 :: cursor.processEpoch == EpochText(prefix, g)
  }

  /** The reader's cursor was issued by an earlier slot. */
  ghost predicate Foreign(m: Machine) { m.reader.Some? && !OfPrefix(m.reader.value.cursor, m.cell.journal.prefix) }

  function Current(c: Cell): Reader
    requires c.runtime.Some?
  {
    Reader(SnapshotOf(c.runtime.value), CursorAt(c.journal, c.runtime.value.revision))
  }

  lemma CurrentIsOwn(c: Cell)
    requires c.runtime.Some?
    ensures OfPrefix(Current(c).cursor, c.journal.prefix)
  {
    assert Current(c).cursor.processEpoch == EpochText(c.journal.prefix, c.journal.generation);
  }

  /** A foreign cursor never yields batches: the poll is refused or answered with the whole snapshot. */
  lemma ForeignPollResets(c: Cell, reader: Reader, limit: nat)
    requires c.runtime.Some? && !OfPrefix(reader.cursor, c.journal.prefix)
    ensures var answer := ChangesOf(c.journal, c.runtime.value, CursorJson(reader.cursor), limit);
            answer.Err? || answer == Ok(ResetRequired(Current(c).held, Current(c).cursor))
    ensures Poll(c, reader, limit) == reader || Poll(c, reader, limit) == Current(c)
  {
    assert reader.cursor.processEpoch != EpochText(c.journal.prefix, c.journal.generation);
  }

  /** Whatever a poll answers, the cursor after it is this slot's or the one before. */
  lemma PollCursor(c: Cell, reader: Reader, limit: nat)
    requires c.runtime.Some?
    ensures var after := Poll(c, reader, limit);
            after == reader || exists r: U64 :: after.cursor == CursorAt(c.journal, r)
  {
  }

  lemma OwnPollStaysOwn(c: Cell, reader: Reader, limit: nat)
    requires c.runtime.Some? && OfPrefix(reader.cursor, c.journal.prefix)
    ensures OfPrefix(Poll(c, reader, limit).cursor, c.journal.prefix)
  {
    PollCursor(c, reader, limit);
    var after := Poll(c, reader, limit);
    if after != reader {
      assert after.cursor.processEpoch == EpochText(c.journal.prefix, c.journal.generation);
    }
  }

  // ---------------------------------------------------------------- one step

  /** The replay event a step of the slot performs, if any; a reset of a foreign reader is its bootstrap. */
  ghost function ReplayEvent(m: Machine, e: RuntimeCoherence.Event): Option<ReplayRuns.Event>
    requires Enabled(m, e)
  {
    match e
    case Invalidated => Some(Invalidate)
    case Installed(encoded) => Some(Install(m.guard.value.work.call.next, true, encoded))
    case Published(otherRotates) => Some(Publish(m.durable.value, otherRotates))
    case Opened(otherRotates) => Some(Reopen(m.durable.value, otherRotates))
    case Taken => Some(Take)
    case ViewRemembered(cursor) => Some(Remember(cursor))
    case ReaderBootstraps => Some(ReaderBootstrap)
    case ReaderPolls(limit, delivered) =>
      if !Foreign(m) then Some(ReaderPoll(limit, delivered))
      else if delivered && Poll(m.cell, m.reader.value, limit) == Current(m.cell) then Some(ReaderBootstrap)
      else None
    case Release => if Holding(m, Clean) then None else Some(Invalidate)
    case _ => None
  }

  lemma PreparedIsNext(current: ClientState, next: ClientState)
    requires PreparedFrom(current, next)
    ensures PrepareEdit(current, next, true).Ok? && PrepareEdit(current, next, true).value.state == next
  {
    var edited := next.(revision := current.revision);
    if next == current {
      assert edited == current;
    } else {
      assert edited.(revision := current.revision + 1) == next;
    }
  }

  lemma InstalledIsInstall(c: Cell, next: ClientState, encoded: Option<nat>)
    requires c.runtime.Some? && PreparedFrom(c.runtime.value, next)
    ensures CellAfter(c, Install(next, true, encoded)) == InstallCell(c, next, encoded)
  {
    PreparedIsNext(c.runtime.value, next);
  }

  /** On the cell, a step of the slot is at most one replay event. */
  lemma CellStep(m: Machine, e: RuntimeCoherence.Event)
    requires SlotInv(m) && Enabled(m, e) && !e.SlotRecreated?
    ensures Next(m, e).cell == if ReplayEvent(m, e).None? then m.cell else CellAfter(m.cell, ReplayEvent(m, e).value)
  {
    if e.Installed? { InstalledIsInstall(m.cell, m.guard.value.work.call.next, e.encoded); }
  }

  lemma CellKeepsPrefix(m: Machine, e: RuntimeCoherence.Event)
    requires SlotInv(m) && Enabled(m, e) && !e.SlotRecreated?
    ensures Next(m, e).cell.journal.prefix == m.cell.journal.prefix
  {
    CellStep(m, e);
    if ReplayEvent(m, e).Some? { EventMoves(m.cell, ReplayEvent(m, e).value); }
  }

  /** The replay world is in step with the slot; of a foreign reader it knows nothing yet. */
  ghost predicate InStep(w: World, m: Machine) {
    w.cell == m.cell && w.reader == if Foreign(m) then None else m.reader
  }

  /** What a delivered poll does to an own reader and to a foreign one. */
  lemma PollStep(m: Machine, limit: nat)
    requires m.cell.runtime.Some? && m.reader.Some?
    ensures var after := m.(reader := Some(Poll(m.cell, m.reader.value, limit)));
            if Foreign(m) then after == m || after.reader == Some(Current(m.cell)) else !Foreign(after)
  {
    if Foreign(m) {
      ForeignPollResets(m.cell, m.reader.value, limit);
    } else {
      OwnPollStaysOwn(m.cell, m.reader.value, limit);
    }
  }

  lemma BootstrapStep(m: Machine, w: World)
    requires Enabled(m, ReaderBootstraps) && InStep(w, m)
    ensures InStep(ReplayRuns.Step(w, ReaderBootstrap), Next(m, ReaderBootstraps))
    ensures !Foreign(Next(m, ReaderBootstraps))
  {
    CurrentIsOwn(m.cell);
    assert Next(m, ReaderBootstraps).reader == Some(Current(m.cell));
  }

  lemma ReaderStep(m: Machine, e: RuntimeCoherence.Event, w: World)
    requires SlotInv(m) && Enabled(m, e) && InStep(w, m) && (e.ReaderBootstraps? || e.ReaderPolls?)
    ensures var r := ReplayEvent(m, e);
            InStep(if r.None? then w else ReplayRuns.Step(w, r.value), Next(m, e))
    ensures Foreign(Next(m, e)) ==> Foreign(m) && Next(m, e).reader == m.reader
  {
    if e.ReaderBootstraps? {
      BootstrapStep(m, w);
    } else if m.reader.Some? && e.delivered {
      CurrentIsOwn(m.cell);
      PollStep(m, e.limit);
      assert Next(m, e) == m.(reader := Some(Poll(m.cell, m.reader.value, e.limit)));
    }
  }

  lemma QuietStep(m: Machine, e: RuntimeCoherence.Event, w: World)
    requires SlotInv(m) && Enabled(m, e) && InStep(w, m)
    requires !e.SlotRecreated? && !e.ReaderBootstraps? && !e.ReaderPolls?
    ensures var r := ReplayEvent(m, e);
            InStep(if r.None? then w else ReplayRuns.Step(w, r.value), Next(m, e))
    ensures Foreign(Next(m, e)) ==> Foreign(m) && Next(m, e).reader == m.reader
  {
    CellStep(m, e);
    CellKeepsPrefix(m, e);
    assert Next(m, e).reader == m.reader;
  }

  // ---------------------------------------------------------------- whole runs

  function AsSeq(e: Option<ReplayRuns.Event>): seq<ReplayRuns.Event> { if e.None? then [] else [e.value] }

  ghost predicate Steps(trace: seq<Machine>, events: seq<RuntimeCoherence.Event>) {
    |trace| == |events| + 1 && forall i | 0 <= i < |events| :: StepAt(trace, events, i)
  }

  /** When the slot of moment `n` was created. */
  ghost function Since(events: seq<RuntimeCoherence.Event>, n: nat): (r: nat)
    requires n <= |events|
    ensures r <= n && (r > 0 ==> events[r - 1].SlotRecreated?)
  {
    if n == 0 || events[n - 1].SlotRecreated? then n else Since(events, n - 1)
  }

  /** The replay history of the present slot up to moment `n`. */
  ghost function History(trace: seq<Machine>, events: seq<RuntimeCoherence.Event>, n: nat): seq<ReplayRuns.Event>
    requires Steps(trace, events) && n <= |events|
  {
    if n == 0 || events[n - 1].SlotRecreated? then []
    else
      assert StepAt(trace, events, n - 1);
      History(trace, events, n - 1) + AsSeq(ReplayEvent(trace[n - 1], events[n - 1]))
  }

  function PrefixAt(m: Machine): string { m.cell.journal.prefix }

  /** A run in which every new slot gets a prefix never used before, as random ones are. */
  ghost predicate SlotRun(
    trace: seq<Machine>, events: seq<RuntimeCoherence.Event>, durable: Option<ClientState>, prefix: string)
  {
    && RuntimeCoherence.Run(trace, events, durable, prefix) && Steps(trace, events) && ShortPrefix(prefix)
    && forall i | 0 <= i < |events| && events[i].SlotRecreated? :: FreshPrefix(trace, i, events[i].prefix)
  }

  ghost predicate FreshPrefix(trace: seq<Machine>, i: nat, prefix: string)
    requires i < |trace|
  {
    ShortPrefix(prefix) && forall k | 0 <= k <= i :: PrefixAt(trace[k]) != prefix
  }

  lemma StepPrefix(
    trace: seq<Machine>, events: seq<RuntimeCoherence.Event>, durable: Option<ClientState>, prefix: string, n: nat)
    requires SlotRun(trace, events, durable, prefix) && n < |events|
    ensures events[n].SlotRecreated? ==> PrefixAt(trace[n + 1]) == events[n].prefix
    ensures !events[n].SlotRecreated? ==> PrefixAt(trace[n + 1]) == PrefixAt(trace[n])
  {
    RunKeeps(trace, events, durable, prefix, n, n);
    assert StepAt(trace, events, n);
    if !events[n].SlotRecreated? { CellKeepsPrefix(trace[n], events[n]); }
  }

  /** Moments have the same prefix exactly when they belong to the same slot. */
  lemma {:induction false} SamePrefixSameSlot(
    trace: seq<Machine>, events: seq<RuntimeCoherence.Event>, durable: Option<ClientState>, prefix: string,
    i: nat, n: nat)
    requires SlotRun(trace, events, durable, prefix) && i <= n <= |events|
    ensures PrefixAt(trace[i]) == PrefixAt(trace[n]) <==> Since(events, n) <= i
    ensures ShortPrefix(PrefixAt(trace[n]))
    decreases n
  {
    if n > 0 {
      StepPrefix(trace, events, durable, prefix, n - 1);
      SamePrefixSameSlot(trace, events, durable, prefix, if i < n then i else n - 1, n - 1);
      if events[n - 1].SlotRecreated? { assert FreshPrefix(trace, n - 1, events[n - 1].prefix); }
    }
  }

  /** The reader's cursor was issued by the slot of some earlier moment. */
  ghost predicate IssuedAt(m: Machine, cursor: Cursor) {
    exists g: U64, r: U64 :: cursor == Cursor(EpochText(PrefixAt(m), g), Decimal(r))
  }

  lemma ReaderIssued(m: Machine, e: RuntimeCoherence.Event)
    requires Enabled(m, e) && Next(m, e).reader.Some?
    ensures Next(m, e).reader == m.reader || IssuedAt(m, Next(m, e).reader.value.cursor)
  {
    if e.ReaderPolls? && m.reader.Some? {
      PollCursor(m.cell, m.reader.value, e.limit);
      var after := Poll(m.cell, m.reader.value, e.limit);
      if r: U64 :| after.cursor == CursorAt(m.cell.journal, r) {
        assert after.cursor == Cursor(EpochText(PrefixAt(m), m.cell.journal.generation), Decimal(r));
      }
    } else if e.ReaderBootstraps? {
      var r := m.cell.runtime.value.revision;
      assert Next(m, e).reader.value.cursor == Cursor(EpochText(PrefixAt(m), m.cell.journal.generation), Decimal(r));
    }
  }

  lemma {:induction false} CursorWasIssued(
    trace: seq<Machine>, events: seq<RuntimeCoherence.Event>, n: nat) returns (k: nat)
    requires Steps(trace, events) && trace[0].reader.None? && n <= |events| && trace[n].reader.Some?
    ensures k <= n && IssuedAt(trace[k], trace[n].reader.value.cursor)
    decreases n
  {
    assert StepAt(trace, events, n - 1);
    ReaderIssued(trace[n - 1], events[n - 1]);
    if trace[n].reader == trace[n - 1].reader {
      k := CursorWasIssued(trace, events, n - 1);
    } else {
      k := n - 1;
    }
  }

  lemma IssuedElsewhere(cursor: Cursor, m: Machine, prefix: string)
    requires IssuedAt(m, cursor) && PrefixAt(m) != prefix
    ensures !OfPrefix(cursor, prefix)
  {
    var g: U64, r: U64 :| cursor == Cursor(EpochText(PrefixAt(m), g), Decimal(r));
    if h: U64 :| cursor.processEpoch == EpochText(prefix, h) { EpochNamesPrefix(PrefixAt(m), g, prefix, h); }
  }

  lemma AfterOne(prefix: string, es: seq<ReplayRuns.Event>, e: ReplayRuns.Event)
    ensures ReplayRuns.After(prefix, es + [e]) == ReplayRuns.Step(ReplayRuns.After(prefix, es), e)
  {
    assert (es + [e])[..|es + [e]| - 1] == es;
  }

  lemma SlotStep(
    prefix: string, m: Machine, e: RuntimeCoherence.Event, es: seq<ReplayRuns.Event>, more: seq<ReplayRuns.Event>)
    requires SlotInv(m) && Enabled(m, e) && !e.SlotRecreated?
    requires more == es + AsSeq(ReplayEvent(m, e)) && InStep(ReplayRuns.After(prefix, es), m)
    ensures InStep(ReplayRuns.After(prefix, more), Next(m, e))
  {
    var w, r := ReplayRuns.After(prefix, es), ReplayEvent(m, e);
    if e.ReaderBootstraps? || e.ReaderPolls? { ReaderStep(m, e, w); } else { QuietStep(m, e, w); }
    if r.Some? { AfterOne(prefix, es, r.value); } else { assert more == es; }
  }

  /** A new slot starts a new world, to which whatever cursor the reader still has is foreign. */
  lemma NewSlotStep(
    trace: seq<Machine>, events: seq<RuntimeCoherence.Event>, durable: Option<ClientState>, prefix: string, n: nat)
    requires SlotRun(trace, events, durable, prefix) && n < |events| && events[n].SlotRecreated?
    ensures InStep(ReplayRuns.After(PrefixAt(trace[n + 1]), []), trace[n + 1])
    ensures trace[n + 1].reader == trace[n].reader
  {
    assert StepAt(trace, events, n) && FreshPrefix(trace, n, events[n].prefix);
    if trace[n].reader.Some? {
      var k := CursorWasIssued(trace, events, n);
      IssuedElsewhere(trace[n].reader.value.cursor, trace[k], events[n].prefix);
    }
  }

  lemma {:induction false} SlotIsReplayWorld(
    trace: seq<Machine>, events: seq<RuntimeCoherence.Event>, durable: Option<ClientState>, prefix: string, n: nat)
    requires SlotRun(trace, events, durable, prefix) && n <= |events|
    ensures InStep(ReplayRuns.After(PrefixAt(trace[n]), History(trace, events, n)), trace[n])
    decreases n
  {
    if n > 0 {
      StepPrefix(trace, events, durable, prefix, n - 1);
      if events[n - 1].SlotRecreated? {
        NewSlotStep(trace, events, durable, prefix, n - 1);
      } else {
        SlotIsReplayWorld(trace, events, durable, prefix, n - 1);
        RunKeeps(trace, events, durable, prefix, n - 1, n - 1);
        assert StepAt(trace, events, n - 1);
        SlotStep(PrefixAt(trace[n]), trace[n - 1], events[n - 1],
                 History(trace, events, n - 1), History(trace, events, n));
      }
    }
  }

  lemma {:induction false} HistoryPrefix(trace: seq<Machine>, events: seq<RuntimeCoherence.Event>, i: nat, n: nat)
    requires Steps(trace, events) && n <= |events| && Since(events, n) <= i <= n
    ensures |History(trace, events, i)| <= |History(trace, events, n)|
    ensures History(trace, events, n)[..|History(trace, events, i)|] == History(trace, events, i)
    decreases n
  {
    if i < n { HistoryPrefix(trace, events, i, n - 1); }
  }

  /** Every moment of the replay history is a moment of the slot. */
  lemma {:induction false} HistoryMoment(
    trace: seq<Machine>, events: seq<RuntimeCoherence.Event>, n: nat, k: nat) returns (i: nat)
    requires Steps(trace, events) && n <= |events| && k <= |History(trace, events, n)|
    ensures Since(events, n) <= i <= n && History(trace, events, i) == History(trace, events, n)[..k]
    decreases n
  {
    if k == |History(trace, events, n)| {
      i := n;
    } else {
      i := HistoryMoment(trace, events, n - 1, k);
      assert History(trace, events, n)[..k] == History(trace, events, n - 1)[..k];
    }
  }

  // ---------------------------------------------------------------- what the reader holds

  predicate Names(m: Machine, cursor: Cursor) {
    m.cell.runtime.Some? && cursor == CursorAt(m.cell.journal, m.cell.runtime.value.revision)
  }

  /** At this moment the slot showed exactly this snapshot under exactly this cursor. */
  predicate Showed(m: Machine, held: ReadSnapshot, cursor: Cursor) {
    Names(m, cursor) && held == SnapshotOf(m.cell.runtime.value)
  }

  /** Up to moment `n` this was shown under this cursor, and nothing else ever was. */
  ghost predicate ShownExactly(trace: seq<Machine>, n: nat, reader: Reader)
    requires n < |trace|
  {
    && (exists i | 0 <= i <= n :: Showed(trace[i], reader.held, reader.cursor))
    && (forall i | 0 <= i <= n && Names(trace[i], reader.cursor) :: Showed(trace[i], reader.held, reader.cursor))
  }

  lemma NamesOfPrefix(m: Machine, cursor: Cursor)
    requires Names(m, cursor)
    ensures OfPrefix(cursor, PrefixAt(m))
  {
    assert cursor.processEpoch == EpochText(PrefixAt(m), m.cell.journal.generation);
  }

  lemma OnePrefix(cursor: Cursor, p: string, q: string)
    requires OfPrefix(cursor, p) && OfPrefix(cursor, q)
    ensures p == q
  {
    var g: U64 :| cursor.processEpoch == EpochText(p, g);
    var h: U64 :| cursor.processEpoch == EpochText(q, h);
    EpochNamesPrefix(p, g, q, h);
  }

  /** A reader with a cursor of the present slot. */
  lemma OwnReaderHoldsSnapshot(
    trace: seq<Machine>, events: seq<RuntimeCoherence.Event>, durable: Option<ClientState>, prefix: string, n: nat)
    requires SlotRun(trace, events, durable, prefix) && n <= |events| && trace[n].reader.Some? && !Foreign(trace[n])
    ensures ShownExactly(trace, n, trace[n].reader.value)
  {
    var p, h, reader := PrefixAt(trace[n]), History(trace, events, n), trace[n].reader.value;
    SamePrefixSameSlot(trace, events, durable, prefix, n, n);
    SlotIsReplayWorld(trace, events, durable, prefix, n);
    ReplayRefinesSnapshot(p, h);
    var k :| 0 <= k <= |h| && NamedAt(p, h, k, reader.cursor) && HeldAt(p, h, k, reader.held);
    var i := HistoryMoment(trace, events, n, k);
    SamePrefixSameSlot(trace, events, durable, prefix, i, n);
    SlotIsReplayWorld(trace, events, durable, prefix, i);
    assert Showed(trace[i], reader.held, reader.cursor);
    forall i | 0 <= i <= n && Names(trace[i], reader.cursor) ensures Showed(trace[i], reader.held, reader.cursor) {
      NamedMomentIsHeld(trace, events, durable, prefix, i, n);
    }
  }

  lemma NamedMomentIsHeld(
    trace: seq<Machine>, events: seq<RuntimeCoherence.Event>, durable: Option<ClientState>, prefix: string,
    i: nat, n: nat)
    requires SlotRun(trace, events, durable, prefix) && i <= n <= |events|
    requires trace[n].reader.Some? && !Foreign(trace[n]) && Names(trace[i], trace[n].reader.value.cursor)
    ensures Showed(trace[i], trace[n].reader.value.held, trace[n].reader.value.cursor)
  {
    var p, h, reader := PrefixAt(trace[n]), History(trace, events, n), trace[n].reader.value;
    NamesOfPrefix(trace[i], reader.cursor);
    OnePrefix(reader.cursor, PrefixAt(trace[i]), p);
    SamePrefixSameSlot(trace, events, durable, prefix, i, n);
    HistoryPrefix(trace, events, i, n);
    SlotIsReplayWorld(trace, events, durable, prefix, i);
    SlotIsReplayWorld(trace, events, durable, prefix, n);
    assert NamedAt(p, h, |History(trace, events, i)|, reader.cursor);
    ReplayRefinesSnapshot(p, h);
  }

  /** A foreign reader has not changed since its slot was replaced. */
  lemma {:induction false} ForeignSince(
    trace: seq<Machine>, events: seq<RuntimeCoherence.Event>, durable: Option<ClientState>, prefix: string, n: nat)
    requires SlotRun(trace, events, durable, prefix) && n <= |events| && Foreign(trace[n])
    ensures Since(events, n) > 0 && trace[n].reader == trace[Since(events, n) - 1].reader
    decreases n
  {
    assert StepAt(trace, events, n - 1);
    if events[n - 1].SlotRecreated? {
      NewSlotStep(trace, events, durable, prefix, n - 1);
    } else {
      RunKeeps(trace, events, durable, prefix, n - 1, n - 1);
      ForeignStep(trace[n - 1], events[n - 1]);
      ForeignSince(trace, events, durable, prefix, n - 1);
    }
  }

  lemma ForeignStep(m: Machine, e: RuntimeCoherence.Event)
    requires SlotInv(m) && Enabled(m, e) && !e.SlotRecreated? && Foreign(Next(m, e))
    ensures Foreign(m) && Next(m, e).reader == m.reader
  {
    var w := World(m.cell, map[], if Foreign(m) then None else m.reader);
    if e.ReaderBootstraps? || e.ReaderPolls? { ReaderStep(m, e, w); } else { QuietStep(m, e, w); }
  }

  lemma ForeignNeverNamed(
    trace: seq<Machine>, events: seq<RuntimeCoherence.Event>, durable: Option<ClientState>, prefix: string,
    i: nat, n: nat)
    requires SlotRun(trace, events, durable, prefix) && n <= |events| && Since(events, n) <= i <= n && Foreign(trace[n])
    ensures !Names(trace[i], trace[n].reader.value.cursor)
  {
    SamePrefixSameSlot(trace, events, durable, prefix, i, n);
    if Names(trace[i], trace[n].reader.value.cursor) { NamesOfPrefix(trace[i], trace[n].reader.value.cursor); }
  }

  /**
   Over every run, through storage failures, dying workers, recoveries, completed bootstraps and
   slots created anew: what the reader holds is what was shown at some moment of the run under the
   reader's cursor, and whenever that cursor was shown it stood for exactly that.
   */
  lemma {:induction false} SlotReaderHoldsSnapshot(
    trace: seq<Machine>, events: seq<RuntimeCoherence.Event>, durable: Option<ClientState>, prefix: string, n: nat)
    requires SlotRun(trace, events, durable, prefix) && n <= |events| && trace[n].reader.Some?
    ensures ShownExactly(trace, n, trace[n].reader.value)
    decreases n
  {
    if !Foreign(trace[n]) {
      OwnReaderHoldsSnapshot(trace, events, durable, prefix, n);
    } else {
      var r, reader := Since(events, n), trace[n].reader.value;
      ForeignSince(trace, events, durable, prefix, n);
      SlotReaderHoldsSnapshot(trace, events, durable, prefix, r - 1);
      forall i | r <= i <= n ensures !Names(trace[i], reader.cursor) {
        ForeignNeverNamed(trace, events, durable, prefix, i, n);
      }
      var i :| 0 <= i <= r - 1 && Showed(trace[i], reader.held, reader.cursor);
      assert 0 <= i <= n;
    }
  }

  // ---------------------------------------------------------------- catching up with storage

  lemma {:induction false} CurrentStays(c: Cell, limits: seq<nat>)
    requires c.runtime.Some? && ShortPrefix(c.journal.prefix)
    requires forall i | 0 <= i < |limits| :: 1 <= limits[i] <= MAX_BATCHES
    ensures PollAll(c, Current(c), limits) == Current(c)
    decreases |limits|
  {
    if limits != [] {
      CurrentStays(c, limits[..|limits| - 1]);
      PollAnswers(c, Current(c), limits[|limits| - 1], c.runtime.value.revision);
    }
  }

  lemma {:induction false} ForeignCatchesUp(c: Cell, reader: Reader, limits: seq<nat>, m: Machine)
    requires c.runtime.Some? && ShortPrefix(c.journal.prefix) && !OfPrefix(reader.cursor, c.journal.prefix)
    requires IssuedAt(m, reader.cursor) && ShortPrefix(PrefixAt(m))
    requires |limits| > 0 && forall i | 0 <= i < |limits| :: 1 <= limits[i] <= MAX_BATCHES
    ensures PollAll(c, reader, limits) == Current(c)
    decreases |limits|
  {
    var rest := limits[..|limits| - 1];
    if rest == [] {
      assert PollAll(c, reader, rest) == reader;
      ForeignFirstPoll(c, reader, limits[0], m);
    } else {
      ForeignCatchesUp(c, reader, rest, m);
      PollAnswers(c, Current(c), limits[|limits| - 1], c.runtime.value.revision);
    }
  }

  lemma ForeignFirstPoll(c: Cell, reader: Reader, limit: nat, m: Machine)
    requires c.runtime.Some? && !OfPrefix(reader.cursor, c.journal.prefix)
    requires IssuedAt(m, reader.cursor) && ShortPrefix(PrefixAt(m)) && 1 <= limit <= MAX_BATCHES
    ensures Poll(c, reader, limit) == Current(c)
  {
    var g: U64, r: U64 :| reader.cursor == Cursor(EpochText(PrefixAt(m), g), Decimal(r));
    ReaderRequest(PrefixAt(m), g, r, limit);
    ForeignPollResets(c, reader, limit);
  }

  /**
   On a free slot of a live database, 128 polls bring any reader, of this slot or of one before it,
   to the snapshot of the durable journal.
   */
  lemma SlotReaderReachesStorage(
    trace: seq<Machine>, events: seq<RuntimeCoherence.Event>, durable: Option<ClientState>, prefix: string, n: nat,
    limits: seq<nat>)
    requires SlotRun(trace, events, durable, prefix) && n <= |events| && trace[n].reader.Some?
    requires Gate(trace[n]) && (trace[n].guard.None? || Holding(trace[n], Clean)) && trace[n].cell.runtime.Some?
    requires |limits| >= MAX_BATCHES && forall i | 0 <= i < |limits| :: 1 <= limits[i] <= MAX_BATCHES
    ensures trace[n].durable.Some?
    ensures PollAll(trace[n].cell, trace[n].reader.value, limits).held == SnapshotOf(trace[n].durable.value)
  {
    FreeSlotIsCoherent(trace, events, durable, prefix, n);
    SamePrefixSameSlot(trace, events, durable, prefix, n, n);
    if Foreign(trace[n]) {
      var k := CursorWasIssued(trace, events, n);
      SamePrefixSameSlot(trace, events, durable, prefix, k, k);
      ForeignCatchesUp(trace[n].cell, trace[n].reader.value, limits, trace[k]);
    } else {
      SlotIsReplayWorld(trace, events, durable, prefix, n);
      QuiescentReaderCatchesUp(PrefixAt(trace[n]), History(trace, events, n), limits);
    }
  }
}
