/**
 Whole runs of one runtime cell and one reader. The cell installs commits, loses its runtime,
 recovers it and publishes bootstrap snapshots in any order; the reader bootstraps once and then
 only applies what `changes` answers.
 */
module ReplayRuns {
  import opened Common
  import opened FenceText
  import opened ReadProtocol
  import opened ReadReplay

  datatype Cell = Cell(runtime: Option<ClientState>, recoveryRequired: bool, journal: Journal)

  // ---------------------------------------------------------------- what happens to the cell

  /** A rotation whose failure is ignored (`rotate().ok()`). */
  function RotateOrKeep(j: Journal): Journal
  {
    if RotateJournal(j).Ok? then RotateJournal(j).value else j
  }

  /** `invalidate_runtime`. */
  function InvalidateCell(c: Cell): Cell
  {
    Cell(None, true, RotateOrKeep(c.journal))
  }

  /** The runtime is dropped without rotating; reopening will rotate. */
  function TakeCell(c: Cell): Cell
  {
    Cell(None, true, c.journal)
  }

  /** A prepared transition that was persisted is installed and its batch recorded. */
  function InstallCell(c: Cell, next: ClientState, encoded: Option<nat>): Cell
    requires c.runtime.Some?
  {
    c.(runtime := Some(next),
       journal := RecordBatch(c.journal, CommittedBatch(c.runtime.value, next), encoded))
  }

  /** Both journals rotate, then the state replaces the runtime; a failed rotation invalidates. */
  function ReplaceCell(c: Cell, state: ClientState, otherRotates: bool): Cell
  {
    var rotated := RotateJournal(c.journal);
    if rotated.Err? then InvalidateCell(c)
    else if !otherRotates then InvalidateCell(c.(journal := rotated.value))
    else Cell(Some(state), false, rotated.value)
  }

  /** `initialize_runtime` on an empty slot: only a slot that lost its runtime rotates. */
  function ReopenCell(c: Cell, state: ClientState, otherRotates: bool): Cell
  {
    if c.runtime.Some? then c
    else if c.recoveryRequired then ReplaceCell(c, state, otherRotates)
    else c.(runtime := Some(state))
  }

  /** The source's prefix is a UUID of 36 characters; anything short of the cursor limit will do. */
  predicate ShortPrefix(prefix: string) { |prefix| <= 4000 }

  // ---------------------------------------------------------------- the reader

  datatype Reader = Reader(held: ReadSnapshot, cursor: Cursor)

  function ApplyBatches(snapshot: ReadSnapshot, batches: seq<ReadBatch>): ReadSnapshot
    decreases |batches|
  {
    if batches == [] then snapshot
    else ApplyBatches(ApplyBatch(snapshot, batches[0]), batches[1..])
  }

  function ReadResponse(reader: Reader, response: Response): Reader
  {
    match response
    case ResetRequired(snapshot, cursor) => Reader(snapshot, cursor)
    case Batches(batches, cursor) => Reader(ApplyBatches(reader.held, batches), cursor)
  }

  /** One poll with the reader's own cursor; an error leaves the reader as it was. */
  function Poll(c: Cell, reader: Reader, limit: nat): Reader
    requires c.runtime.Some?
  {
    var answer := ChangesOf(c.journal, c.runtime.value, CursorJson(reader.cursor), limit);
    if answer.Ok? then ReadResponse(reader, answer.value) else reader
  }

  // ---------------------------------------------------------------- runs

  datatype Event =
    | Install(edited: ClientState, valid: bool, encoded: Option<nat>)
    | Invalidate
    | Take
    | Reopen(state: ClientState, otherRotates: bool)
    | Publish(state: ClientState, otherRotates: bool)
    | Remember(cursor: Bytes)
    | ReaderBootstrap
    | ReaderPoll(limit: nat, delivered: bool)

  /** `published` remembers the snapshot of every (generation, revision) the cell ever showed. */
  datatype World = World(
    cell: Cell, published: map<(U64, U64), ReadSnapshot>, reader: Option<Reader>)

  function Start(prefix: string): World
  {
    World(Cell(None, false, Fresh(prefix)), map[], None)
  }

  function PrepareEdit(state: ClientState, edited: ClientState, valid: bool): Result<Prepared, PrepareError>
  {
    Prepare(state, edited.(revision := state.revision), valid)
  }

  function CellAfter(c: Cell, e: Event): Cell
  {
    match e
    case Install(edited, valid, encoded) =>
      if c.runtime.None? || PrepareEdit(c.runtime.value, edited, valid).Err? then c
      else InstallCell(c, PrepareEdit(c.runtime.value, edited, valid).value.state, encoded)
    case Invalidate => InvalidateCell(c)
    case Take => TakeCell(c)
    case Reopen(state, otherRotates) => ReopenCell(c, state, otherRotates)
    case Publish(state, otherRotates) => if c.runtime.None? then c else ReplaceCell(c, state, otherRotates)
    case Remember(cursor) => c.(journal := RememberCursor(c.journal, cursor))
    case ReaderBootstrap => c
    case ReaderPoll(_, _) => c
  }

  function ReaderAfter(w: World, e: Event): Option<Reader>
  {
    if w.cell.runtime.None? then w.reader
    else
      var state := w.cell.runtime.value;
      match e
      case ReaderBootstrap => Some(Reader(SnapshotOf(state), CursorAt(w.cell.journal, state.revision)))
      case ReaderPoll(limit, delivered) =>
        if w.reader.Some? && delivered then Some(Poll(w.cell, w.reader.value, limit)) else w.reader
      case _ => w.reader
  }

  function Remembered(published: map<(U64, U64), ReadSnapshot>, c: Cell): map<(U64, U64), ReadSnapshot>
  {
    if c.runtime.None? then published
    else published[(c.journal.generation, c.runtime.value.revision) := SnapshotOf(c.runtime.value)]
  }

  function Step(w: World, e: Event): World
  {
    var cell := CellAfter(w.cell, e);
    World(cell, Remembered(w.published, cell), ReaderAfter(w, e))
  }

  function After(prefix: string, events: seq<Event>): World
  {
    if events == [] then Start(prefix)
    else Step(After(prefix, events[..|events| - 1]), events[|events| - 1])
  }

  // ---------------------------------------------------------------- the inductive invariant

  /** Every retained batch carries one published snapshot of this generation to another. */
  ghost predicate BatchesReplay(batches: seq<Batch>, generation: U64, published: map<(U64, U64), ReadSnapshot>) {
    forall i | 0 <= i < |batches| :: BatchReplaysPublished(batches[i], generation, published)
  }

  ghost predicate BatchReplaysPublished(b: Batch, generation: U64, published: map<(U64, U64), ReadSnapshot>) {
    && (generation, b.before) in published
    && (generation, b.revision) in published
    && ApplyBatch(published[(generation, b.before)], b.content) == published[(generation, b.revision)]
  }

  ghost predicate CellInv(c: Cell, published: map<(U64, U64), ReadSnapshot>) {
    && Bounded(c.journal)
    && (forall g, r | (g, r) in published :: g <= c.journal.generation)
    && (c.runtime.Some? ==>
          && !c.recoveryRequired
          && Chained(c.journal.batches, c.runtime.value.revision)
          && BatchesReplay(c.journal.batches, c.journal.generation, published)
          && (c.journal.generation, c.runtime.value.revision) in published
          && published[(c.journal.generation, c.runtime.value.revision)] == SnapshotOf(c.runtime.value)
          && (forall r | (c.journal.generation, r) in published :: r <= c.runtime.value.revision))
    && (c.runtime.None? && !c.recoveryRequired ==> published == map[] && c.journal.batches == [])
  }

  /** The reader holds the published snapshot its cursor names. */
  ghost predicate ReaderInv(reader: Reader, prefix: string, published: map<(U64, U64), ReadSnapshot>) {
    exists g: U64, r: U64 ::
      HoldsAt(reader, prefix, published, g, r)
  }

  ghost predicate Inv(w: World, prefix: string) {
    && w.cell.journal.prefix == prefix
    && CellInv(w.cell, w.published)
    && (w.reader.Some? ==> ReaderInv(w.reader.value, prefix, w.published))
  }

  ghost predicate Extends(more: map<(U64, U64), ReadSnapshot>, less: map<(U64, U64), ReadSnapshot>) {
    forall k | k in less :: k in more && more[k] == less[k]
  }

  /** What one event owes the history: the invariant again, and no published snapshot changed. */
  ghost predicate Kept(c: Cell, after: Cell, published: map<(U64, U64), ReadSnapshot>) {
    && CellInv(after, Remembered(published, after))
    && Extends(Remembered(published, after), published)
    && after.journal.prefix == c.journal.prefix
  }

  lemma ExtendsKeepsReader(reader: Reader, prefix: string,
    less: map<(U64, U64), ReadSnapshot>, more: map<(U64, U64), ReadSnapshot>)
    requires ReaderInv(reader, prefix, less) && Extends(more, less)
    ensures ReaderInv(reader, prefix, more)
  {
    var g: U64, r: U64 :| HoldsAt(reader, prefix, less, g, r);
    assert HoldsAt(reader, prefix, more, g, r);
  }

  lemma PreparedAdvances(state: ClientState, edited: ClientState, valid: bool)
    requires PrepareEdit(state, edited, valid).Ok?
    ensures
      var next := PrepareEdit(state, edited, valid).value.state;
      state.revision <= next.revision && (next.revision == state.revision ==> next == state)
  {
  }

  lemma InstallKeeps(c: Cell, published: map<(U64, U64), ReadSnapshot>, next: ClientState, encoded: Option<nat>)
    requires CellInv(c, published) && c.runtime.Some?
    requires c.runtime.value.revision <= next.revision
    requires next.revision == c.runtime.value.revision ==> next == c.runtime.value
    ensures Kept(c, InstallCell(c, next, encoded), published)
  {
    var before := c.runtime.value;
    if before.revision == next.revision {
      UnchangedKeeps(c, published, c.journal);
    } else {
      BatchReplays(before, next);
      AdvanceKeeps(c, published, next, CommittedBatch(before, next), encoded);
    }
  }

  lemma AdvanceKeeps(c: Cell, published: map<(U64, U64), ReadSnapshot>, next: ClientState,
    batch: Option<ReadBatch>, encoded: Option<nat>)
    requires CellInv(c, published) && c.runtime.Some? && c.runtime.value.revision < next.revision
    requires batch.Some? && BatchOfCommit(batch, c.runtime.value.revision, next.revision)
    requires ApplyBatch(SnapshotOf(c.runtime.value), batch.value) == SnapshotOf(next)
    ensures Kept(c, c.(runtime := Some(next), journal := RecordBatch(c.journal, batch, encoded)), published)
  {
    RecordKeeps(c.journal, batch, encoded, c.runtime.value.revision, next.revision);
    RecordReplays(c.journal, batch, encoded, published, SnapshotOf(next));
  }

  /** The batches after a record still replay, once the new snapshot is published. */
  lemma RecordReplays(j: Journal, batch: Option<ReadBatch>, encoded: Option<nat>,
    published: map<(U64, U64), ReadSnapshot>, after: ReadSnapshot)
    requires BatchesReplay(j.batches, j.generation, published)
    requires batch.Some? ==>
               && (j.generation, batch.value.beforeRevision) in published
               && (j.generation, batch.value.revision) !in published
               && ApplyBatch(published[(j.generation, batch.value.beforeRevision)], batch.value) == after
    ensures batch.None? ==> BatchesReplay(RecordBatch(j, batch, encoded).batches, j.generation, published)
    ensures batch.Some? ==>
              BatchesReplay(RecordBatch(j, batch, encoded).batches, j.generation,
                            published[(j.generation, batch.value.revision) := after])
  {
    if batch.Some? && encoded.Some? && encoded.value <= MAX_JOURNAL_BYTES {
      var now := published[(j.generation, batch.value.revision) := after];
      var k := BatchesToEvict(j.batches, encoded.value);
      var next := RecordBatch(j, batch, encoded).batches;
      forall i | 0 <= i < |next| ensures BatchReplaysPublished(next[i], j.generation, now) {
        if i < |next| - 1 {
          assert next[i] == j.batches[k + i];
          assert BatchReplaysPublished(j.batches[k + i], j.generation, published);
        }
      }
    }
  }

  lemma ReplaceKeeps(c: Cell, published: map<(U64, U64), ReadSnapshot>, state: ClientState, otherRotates: bool)
    requires CellInv(c, published)
    ensures Kept(c, ReplaceCell(c, state, otherRotates), published)
  {
    var rotated := RotateJournal(c.journal);
    if rotated.Ok? && otherRotates {
      var g := rotated.value.generation;
      assert forall r: U64 :: (g, r) !in published;
    } else if rotated.Ok? {
      InvalidateKeeps(c.(journal := rotated.value, runtime := None, recoveryRequired := true), published);
    } else {
      InvalidateKeeps(c, published);
    }
  }

  lemma InvalidateKeeps(c: Cell, published: map<(U64, U64), ReadSnapshot>)
    requires CellInv(c, published)
    ensures Kept(c, InvalidateCell(c), published)
  {
  }

  lemma FirstOpenKeeps(c: Cell, published: map<(U64, U64), ReadSnapshot>, state: ClientState)
    requires CellInv(c, published) && c.runtime.None? && !c.recoveryRequired
    ensures Kept(c, c.(runtime := Some(state)), published)
  {
  }

  lemma UnchangedKeeps(c: Cell, published: map<(U64, U64), ReadSnapshot>, journal: Journal)
    requires CellInv(c, published) && Bounded(journal)
    requires journal == c.journal.(viewCursors := journal.viewCursors)
    ensures Kept(c, c.(journal := journal), published)
  {
  }

  lemma CellKeeps(c: Cell, published: map<(U64, U64), ReadSnapshot>, e: Event)
    requires CellInv(c, published)
    ensures Kept(c, CellAfter(c, e), published)
  {
    UnchangedKeeps(c, published, c.journal);
    match e {
      case Install(edited, valid, encoded) =>
        if c.runtime.Some? && PrepareEdit(c.runtime.value, edited, valid).Ok? {
          PreparedAdvances(c.runtime.value, edited, valid);
          InstallKeeps(c, published, PrepareEdit(c.runtime.value, edited, valid).value.state, encoded);
        }
      case Reopen(state, otherRotates) =>
        if c.runtime.None? && c.recoveryRequired {
          ReplaceKeeps(c, published, state, otherRotates);
        } else if c.runtime.None? {
          FirstOpenKeeps(c, published, state);
        }
      case Publish(state, otherRotates) =>
        if c.runtime.Some? { ReplaceKeeps(c, published, state, otherRotates); }
      case Remember(cursor) =>
        RememberKeeps(c.journal, cursor);
        UnchangedKeeps(c, published, RememberCursor(c.journal, cursor));
      case Invalidate => InvalidateKeeps(c, published);
      case _ =>
    }
  }

  // ---------------------------------------------------------------- polling

  /** Applying a stretch of the chain moves a held published snapshot to its end. */
  lemma {:induction false} ApplyStretch(batches: seq<Batch>, generation: U64,
    published: map<(U64, U64), ReadSnapshot>, current: U64, lo: nat, hi: nat)
    requires Chained(batches, current) && BatchesReplay(batches, generation, published)
    requires lo < hi <= |batches|
    ensures (generation, batches[lo].before) in published && (generation, batches[hi - 1].revision) in published
    ensures ApplyBatches(published[(generation, batches[lo].before)], Contents(batches[lo..hi]))
            == published[(generation, batches[hi - 1].revision)]
    decreases hi - lo
  {
    assert BatchReplaysPublished(batches[lo], generation, published);
    var contents := Contents(batches[lo..hi]);
    assert contents[0] == batches[lo].content;
    assert contents[1..] == Contents(batches[lo + 1..hi]);
    if lo + 1 < hi {
      ApplyStretch(batches, generation, published, current, lo + 1, hi);
    } else {
      assert contents[1..] == [];
    }
  }

  /** The decoded request of a reader whose cursor names `(g, r)`. */
  lemma ReaderRequest(prefix: string, g: U64, r: U64, limit: nat)
    requires ShortPrefix(prefix) && 1 <= limit <= MAX_BATCHES
    ensures AcceptableRequest(CursorJson(Cursor(EpochText(prefix, g), Decimal(r))), limit)
    ensures ValueOf(Decimal(r)) == r
  {
    U64HasAtMostTwentyDigits(g);
    U64HasAtMostTwentyDigits(r);
    ValueOfDecimal(r);
    ParseFenceOfDecimal(r);
    ParseFenceExact(Decimal(r));
  }

  /** The reader holds the published snapshot of exactly this generation and revision. */
  ghost predicate HoldsAt(reader: Reader, prefix: string, published: map<(U64, U64), ReadSnapshot>, g: U64, r: U64) {
    && (g, r) in published
    && reader.cursor == Cursor(EpochText(prefix, g), Decimal(r))
    && reader.held == published[(g, r)]
  }

  /** A stale or evicted cursor is answered with the whole current snapshot. */
  predicate NeedsReset(c: Cell, g: U64, r: U64)
    requires c.runtime.Some?
  {
    g != c.journal.generation || (r < c.runtime.value.revision && StartingAt(c.journal.batches, r).None?)
  }

  lemma PollResets(c: Cell, reader: Reader, limit: nat, g: U64, r: U64)
    requires c.runtime.Some? && ShortPrefix(c.journal.prefix) && 1 <= limit <= MAX_BATCHES
    requires reader.cursor == Cursor(EpochText(c.journal.prefix, g), Decimal(r))
    requires NeedsReset(c, g, r)
    ensures ChangesOf(c.journal, c.runtime.value, CursorJson(reader.cursor), limit)
            == Ok(ResetRequired(SnapshotOf(c.runtime.value), CursorAt(c.journal, c.runtime.value.revision)))
  {
    ReaderRequest(c.journal.prefix, g, r, limit);
    EpochTextInjective(c.journal.prefix, g, c.journal.generation);
  }

  lemma PollAnswers(c: Cell, reader: Reader, limit: nat, r: U64)
    requires c.runtime.Some? && ShortPrefix(c.journal.prefix) && 1 <= limit <= MAX_BATCHES
    requires reader.cursor == CursorAt(c.journal, r) && r <= c.runtime.value.revision
    requires !NeedsReset(c, c.journal.generation, r)
    ensures
      var j, answer := c.journal, ChangesOf(c.journal, c.runtime.value, CursorJson(reader.cursor), limit);
      if r == c.runtime.value.revision then answer == Ok(Batches([], reader.cursor))
      else
        var at := StartingAt(j.batches, r).value;
        var end := PageEnd(|j.batches|, at, limit);
        answer == Ok(Batches(Contents(j.batches[at..end]), CursorAt(j, j.batches[end - 1].revision)))
  {
    ReaderRequest(c.journal.prefix, c.journal.generation, r, limit);
  }

  lemma PollStretch(c: Cell, reader: Reader, limit: nat, r: U64)
    requires c.runtime.Some? && ShortPrefix(c.journal.prefix) && 1 <= limit <= MAX_BATCHES
    requires reader.cursor == CursorAt(c.journal, r) && r < c.runtime.value.revision
    requires !NeedsReset(c, c.journal.generation, r)
    ensures
      var j := c.journal;
      var at := StartingAt(j.batches, r).value;
      var end := PageEnd(|j.batches|, at, limit);
      Poll(c, reader, limit)
      == Reader(ApplyBatches(reader.held, Contents(j.batches[at..end])), CursorAt(j, j.batches[end - 1].revision))
  {
    PollAnswers(c, reader, limit, r);
  }

  /** A cursor inside the chain is answered with the next stretch of it. */
  lemma PollMoves(c: Cell, published: map<(U64, U64), ReadSnapshot>, reader: Reader, limit: nat, r: U64)
    requires CellInv(c, published) && c.runtime.Some? && ShortPrefix(c.journal.prefix)
    requires 1 <= limit <= MAX_BATCHES && r < c.runtime.value.revision
    requires HoldsAt(reader, c.journal.prefix, published, c.journal.generation, r)
    requires !NeedsReset(c, c.journal.generation, r)
    ensures
      var j := c.journal;
      var end := PageEnd(|j.batches|, StartingAt(j.batches, r).value, limit);
      HoldsAt(Poll(c, reader, limit), j.prefix, published, j.generation, j.batches[end - 1].revision)
  {
    var j := c.journal;
    var at := StartingAt(j.batches, r).value;
    var end := PageEnd(|j.batches|, at, limit);
    PollStretch(c, reader, limit, r);
    ApplyStretch(j.batches, j.generation, published, c.runtime.value.revision, at, end);
  }

  lemma PollRefused(c: Cell, reader: Reader, limit: nat)
    requires c.runtime.Some? && !(1 <= limit <= MAX_BATCHES)
    ensures Poll(c, reader, limit) == reader
  {
  }

  lemma PollKeepsReader(c: Cell, published: map<(U64, U64), ReadSnapshot>, reader: Reader, limit: nat)
    requires CellInv(c, published) && c.runtime.Some? && ShortPrefix(c.journal.prefix)
    requires ReaderInv(reader, c.journal.prefix, published)
    ensures ReaderInv(Poll(c, reader, limit), c.journal.prefix, published)
  {
    if 1 <= limit <= MAX_BATCHES {
      var g: U64, r: U64 :| HoldsAt(reader, c.journal.prefix, published, g, r);
      var now := c.runtime.value.revision;
      if NeedsReset(c, g, r) {
        PollResets(c, reader, limit, g, r);
        assert HoldsAt(Poll(c, reader, limit), c.journal.prefix, published, c.journal.generation, now);
      } else if r < now {
        PollMoves(c, published, reader, limit, r);
      } else {
        PollAnswers(c, reader, limit, r);
      }
    } else {
      PollRefused(c, reader, limit);
    }
  }

  lemma StepKeeps(w: World, e: Event, prefix: string)
    requires Inv(w, prefix) && ShortPrefix(prefix)
    ensures Inv(Step(w, e), prefix)
    ensures Extends(Step(w, e).published, w.published)
  {
    CellKeeps(w.cell, w.published, e);
    var next := Step(w, e);
    if next.reader.Some? {
      if e.ReaderPoll? && w.cell.runtime.Some? && w.reader.Some? && e.delivered {
        PollKeepsReader(w.cell, w.published, w.reader.value, e.limit);
        ExtendsKeepsReader(next.reader.value, prefix, w.published, next.published);
      } else if e.ReaderBootstrap? && w.cell.runtime.Some? {
        assert HoldsAt(next.reader.value, prefix, next.published,
                       w.cell.journal.generation, w.cell.runtime.value.revision);
      } else {
        ExtendsKeepsReader(w.reader.value, prefix, w.published, next.published);
      }
    }
  }

  lemma {:induction false} AfterKeeps(prefix: string, events: seq<Event>)
    requires ShortPrefix(prefix)
    ensures Inv(After(prefix, events), prefix)
    decreases |events|
  {
    if events != [] {
      AfterKeeps(prefix, events[..|events| - 1]);
      StepKeeps(After(prefix, events[..|events| - 1]), events[|events| - 1], prefix);
    }
  }

  // ---------------------------------------------------------------- what readers rely on

  lemma {:induction false} HistoryGrows(prefix: string, events: seq<Event>, k: nat)
    requires ShortPrefix(prefix) && k <= |events|
    ensures Extends(After(prefix, events).published, After(prefix, events[..k]).published)
    ensures After(prefix, events[..k]).cell.journal.generation <= After(prefix, events).cell.journal.generation
    decreases |events|
  {
    if k == |events| {
      assert events[..k] == events;
    } else {
      var rest := events[..|events| - 1];
      HistoryGrows(prefix, rest, k);
      assert rest[..k] == events[..k];
      AfterKeeps(prefix, rest);
      StepKeeps(After(prefix, rest), events[|events| - 1], prefix);
      GenerationRises(After(prefix, rest).cell, events[|events| - 1]);
    }
  }

  lemma GenerationRises(c: Cell, e: Event)
    ensures c.journal.generation <= CellAfter(c, e).journal.generation
  {
  }

  /** The moment `k` of a run at which the cell showed generation `g` at revision `r`. */
  ghost predicate ShownAt(prefix: string, events: seq<Event>, k: nat, g: U64, r: U64, snapshot: ReadSnapshot)
    requires k <= |events|
  {
    var c := After(prefix, events[..k]).cell;
    c.runtime.Some? && c.journal.generation == g && c.runtime.value.revision == r
    && SnapshotOf(c.runtime.value) == snapshot
  }

  lemma {:induction false} PublishedWasShown(prefix: string, events: seq<Event>, g: U64, r: U64)
    requires ShortPrefix(prefix) && (g, r) in After(prefix, events).published
    ensures exists k | 0 <= k <= |events| :: ShownAt(prefix, events, k, g, r, After(prefix, events).published[(g, r)])
    decreases |events|
  {
    var rest := events[..|events| - 1];
    var now, was := After(prefix, events), After(prefix, rest);
    assert events[..|events|] == events;
    var c := now.cell;
    if c.runtime.Some? && (c.journal.generation, c.runtime.value.revision) == (g, r) {
      assert ShownAt(prefix, events, |events|, g, r, now.published[(g, r)]);
    } else {
      PublishedWasShown(prefix, rest, g, r);
      var k :| 0 <= k <= |rest| && ShownAt(prefix, rest, k, g, r, was.published[(g, r)]);
      assert rest[..k] == events[..k];
      assert ShownAt(prefix, events, k, g, r, now.published[(g, r)]);
    }
  }

  /** The cell after the first `k` events showed a snapshot under exactly this cursor. */
  predicate NamedAt(prefix: string, events: seq<Event>, k: nat, cursor: Cursor)
    requires k <= |events|
  {
    var c := After(prefix, events[..k]).cell;
    c.runtime.Some? && cursor == CursorAt(c.journal, c.runtime.value.revision)
  }

  predicate HeldAt(prefix: string, events: seq<Event>, k: nat, held: ReadSnapshot)
    requires k <= |events|
  {
    var c := After(prefix, events[..k]).cell;
    c.runtime.Some? && held == SnapshotOf(c.runtime.value)
  }

  /**
   In every run, whatever was installed, dropped, evicted, rotated or recovered: a reader that only
   bootstraps and polls holds the snapshot of some moment of the run, namely of every moment whose
   epoch and revision its cursor names.
   */
  lemma ReplayRefinesSnapshot(prefix: string, events: seq<Event>)
    requires ShortPrefix(prefix) && After(prefix, events).reader.Some?
    ensures
      var reader := After(prefix, events).reader.value;
      exists k | 0 <= k <= |events| ::
        NamedAt(prefix, events, k, reader.cursor) && HeldAt(prefix, events, k, reader.held)
    ensures
      var reader := After(prefix, events).reader.value;
      forall k | 0 <= k <= |events| && NamedAt(prefix, events, k, reader.cursor) ::
        HeldAt(prefix, events, k, reader.held)
  {
    var w := After(prefix, events);
    var reader := w.reader.value;
    AfterKeeps(prefix, events);
    var g: U64, r: U64 :| HoldsAt(reader, prefix, w.published, g, r);
    PublishedWasShown(prefix, events, g, r);
    var k :| 0 <= k <= |events| && ShownAt(prefix, events, k, g, r, w.published[(g, r)]);
    AfterKeeps(prefix, events[..k]);
    assert NamedAt(prefix, events, k, reader.cursor) && HeldAt(prefix, events, k, reader.held);
    forall k | 0 <= k <= |events| && NamedAt(prefix, events, k, reader.cursor)
      ensures HeldAt(prefix, events, k, reader.held)
    {
      NamedIsHeld(prefix, events, k, reader, g, r);
    }
  }

  lemma NamedIsHeld(prefix: string, events: seq<Event>, k: nat, reader: Reader, g: U64, r: U64)
    requires ShortPrefix(prefix) && k <= |events| && NamedAt(prefix, events, k, reader.cursor)
    requires HoldsAt(reader, prefix, After(prefix, events).published, g, r)
    ensures HeldAt(prefix, events, k, reader.held)
  {
    var c := After(prefix, events[..k]).cell;
    AfterKeeps(prefix, events[..k]);
    HistoryGrows(prefix, events, k);
    EpochTextInjective(prefix, g, c.journal.generation);
    DecimalInjective(r, c.runtime.value.revision);
  }

  // ---------------------------------------------------------------- catching up

  function PollAll(c: Cell, reader: Reader, limits: seq<nat>): Reader
    requires c.runtime.Some?
  {
    if limits == [] then reader
    else Poll(c, PollAll(c, reader, limits[..|limits| - 1]), limits[|limits| - 1])
  }

  lemma {:induction false} ChainRises(batches: seq<Batch>, current: U64, i: nat, j: nat)
    requires Chained(batches, current) && i <= j < |batches|
    ensures batches[i].before <= batches[j].before && (i < j ==> batches[i].before < batches[j].before)
    ensures batches[i].before < current
    decreases |batches| - i
  {
    if i + 1 < |batches| {
      ChainRises(batches, current, i + 1, if j > i then j else i + 1);
    }
  }

  /** The next unread batch starts where the page ended. */
  lemma NextStart(batches: seq<Batch>, current: U64, end: nat)
    requires Chained(batches, current) && 0 < end <= |batches|
    ensures if end == |batches| then batches[end - 1].revision == current
            else batches[end - 1].revision < current
                 && StartingAt(batches, batches[end - 1].revision) == Some(end)
  {
    if end < |batches| {
      var r := batches[end - 1].revision;
      ChainRises(batches, current, end, end);
      assert batches[end].before == r;
      var at := StartingAt(batches, r).value;
      ChainRises(batches, current, at, end);
    }
  }

  /** Number of polls after which a reader at `(g, r)` is surely current. */
  function Behind(c: Cell, g: U64, r: U64): nat
    requires c.runtime.Some?
  {
    if NeedsReset(c, g, r) then 1
    else if r >= c.runtime.value.revision then 0
    else |c.journal.batches| - StartingAt(c.journal.batches, r).value
  }

  lemma PollApproaches(c: Cell, published: map<(U64, U64), ReadSnapshot>, reader: Reader, limit: nat, g: U64, r: U64)
    returns (g': U64, r': U64)
    requires CellInv(c, published) && c.runtime.Some? && ShortPrefix(c.journal.prefix)
    requires 1 <= limit <= MAX_BATCHES && HoldsAt(reader, c.journal.prefix, published, g, r)
    ensures HoldsAt(Poll(c, reader, limit), c.journal.prefix, published, g', r')
    ensures Behind(c, g', r') == 0 || Behind(c, g', r') < Behind(c, g, r)
  {
    var j, now := c.journal, c.runtime.value.revision;
    if NeedsReset(c, g, r) {
      PollResets(c, reader, limit, g, r);
      g', r' := j.generation, now;
    } else if r < now {
      var end := PageEnd(|j.batches|, StartingAt(j.batches, r).value, limit);
      PollMoves(c, published, reader, limit, r);
      NextStart(j.batches, now, end);
      g', r' := j.generation, j.batches[end - 1].revision;
    } else {
      PollAnswers(c, reader, limit, r);
      g', r' := g, r;
    }
  }

  lemma {:induction false} PollsApproach(
    c: Cell, published: map<(U64, U64), ReadSnapshot>, reader: Reader, limits: seq<nat>, g: U64, r: U64)
    returns (g': U64, r': U64)
    requires CellInv(c, published) && c.runtime.Some? && ShortPrefix(c.journal.prefix)
    requires (forall i | 0 <= i < |limits| :: 1 <= limits[i] <= MAX_BATCHES)
    requires HoldsAt(reader, c.journal.prefix, published, g, r)
    ensures HoldsAt(PollAll(c, reader, limits), c.journal.prefix, published, g', r')
    ensures Behind(c, g', r') == 0 || Behind(c, g', r') + |limits| <= Behind(c, g, r)
    decreases |limits|
  {
    if limits == [] {
      g', r' := g, r;
    } else {
      var rest := limits[..|limits| - 1];
      g', r' := PollsApproach(c, published, reader, rest, g, r);
      g', r' := PollApproaches(c, published, PollAll(c, reader, rest), limits[|limits| - 1], g', r');
    }
  }

  lemma BehindAtMostAPage(c: Cell, published: map<(U64, U64), ReadSnapshot>, g: U64, r: U64)
    requires CellInv(c, published) && c.runtime.Some?
    ensures Behind(c, g, r) <= MAX_BATCHES
  {
  }

  lemma NotBehindIsCurrent(c: Cell, published: map<(U64, U64), ReadSnapshot>, reader: Reader, g: U64, r: U64)
    requires CellInv(c, published) && c.runtime.Some?
    requires HoldsAt(reader, c.journal.prefix, published, g, r) && Behind(c, g, r) == 0
    ensures reader == Reader(SnapshotOf(c.runtime.value), CursorAt(c.journal, c.runtime.value.revision))
  {
  }

  lemma CellReaderCatchesUp(c: Cell, published: map<(U64, U64), ReadSnapshot>, reader: Reader, limits: seq<nat>)
    requires CellInv(c, published) && c.runtime.Some? && ShortPrefix(c.journal.prefix)
    requires ReaderInv(reader, c.journal.prefix, published)
    requires |limits| >= MAX_BATCHES && forall i | 0 <= i < |limits| :: 1 <= limits[i] <= MAX_BATCHES
    ensures PollAll(c, reader, limits)
            == Reader(SnapshotOf(c.runtime.value), CursorAt(c.journal, c.runtime.value.revision))
  {
    var g: U64, r: U64 :| HoldsAt(reader, c.journal.prefix, published, g, r);
    BehindAtMostAPage(c, published, g, r);
    var g', r' := PollsApproach(c, published, reader, limits, g, r);
    NotBehindIsCurrent(c, published, PollAll(c, reader, limits), g', r');
  }

  /** With no new writes, 128 polls of any page sizes bring any reader to the current snapshot. */
  lemma QuiescentReaderCatchesUp(prefix: string, events: seq<Event>, limits: seq<nat>)
    requires ShortPrefix(prefix)
    requires After(prefix, events).reader.Some? && After(prefix, events).cell.runtime.Some?
    requires |limits| >= MAX_BATCHES && forall i | 0 <= i < |limits| :: 1 <= limits[i] <= MAX_BATCHES
    ensures
      var w := After(prefix, events);
      PollAll(w.cell, w.reader.value, limits)
      == Reader(SnapshotOf(w.cell.runtime.value), CursorAt(w.cell.journal, w.cell.runtime.value.revision))
  {
    var w := After(prefix, events);
    AfterKeeps(prefix, events);
    CellReaderCatchesUp(w.cell, w.published, w.reader.value, limits);
  }

  // ---------------------------------------------------------------- bounds and epochs

  /** Every journal of every run respects its bounds and is one unbroken chain to the current revision. */
  lemma JournalAlwaysBounded(prefix: string, events: seq<Event>)
    requires ShortPrefix(prefix)
    ensures Bounded(After(prefix, events).cell.journal)
    ensures After(prefix, events).cell.runtime.Some? ==>
              Chained(After(prefix, events).cell.journal.batches, After(prefix, events).cell.runtime.value.revision)
  {
    AfterKeeps(prefix, events);
  }

  function CellAt(prefix: string, events: seq<Event>, j: nat): Cell
    requires j <= |events|
  {
    After(prefix, events[..j]).cell
  }

  lemma CellAtNext(prefix: string, events: seq<Event>, j: nat)
    requires j < |events|
    ensures CellAt(prefix, events, j + 1) == CellAfter(CellAt(prefix, events, j), events[j])
  {
    assert events[..j + 1][..j] == events[..j];
  }

  predicate Lost(c: Cell) { c.runtime.None? && c.recoveryRequired }

  /** At this moment of the run the cell is without its runtime, or a bootstrap is about to replace it. */
  predicate BrokenAt(prefix: string, events: seq<Event>, m: nat)
    requires m <= |events|
  {
    Lost(CellAt(prefix, events, m))
    || (m < |events| && events[m].Publish? && CellAt(prefix, events, m).runtime.Some?)
  }

  /** How one event moves epoch and runtime: a lost cell stays lost or rotates, and so does a published one. */
  predicate Moves(c: Cell, d: Cell, publish: bool) {
    && d.journal.prefix == c.journal.prefix && c.journal.generation <= d.journal.generation
    && (Lost(c) || (publish && c.runtime.Some?) ==> Lost(d) || c.journal.generation < d.journal.generation)
    && (c.runtime.Some? && !publish ==>
          Lost(d) || (d.runtime.Some? && d.journal.generation == c.journal.generation))
  }

  lemma EventMoves(c: Cell, e: Event)
    ensures Moves(c, CellAfter(c, e), e.Publish?)
  {
    match e
    case Install(edited, valid, encoded) =>
      if c.runtime.Some? && PrepareEdit(c.runtime.value, edited, valid).Ok? {
        InstallMoves(c, PrepareEdit(c.runtime.value, edited, valid).value.state, encoded);
      }
    case _ =>
  }

  lemma InstallMoves(c: Cell, next: ClientState, encoded: Option<nat>)
    requires c.runtime.Some?
    ensures Moves(c, InstallCell(c, next, encoded), false)
  {
  }

  /** The cells of a run, seen only through how they move. */
  predicate Moving(cells: seq<Cell>, events: seq<Event>) {
    |cells| == |events| + 1 && forall j | 0 <= j < |events| :: Moves(cells[j], cells[j + 1], events[j].Publish?)
  }

  predicate Broken(cells: seq<Cell>, events: seq<Event>, m: nat)
    requires m <= |events| < |cells|
  {
    Lost(cells[m]) || (m < |events| && events[m].Publish? && cells[m].runtime.Some?)
  }

  lemma CellsOfRun(prefix: string, events: seq<Event>) returns (cells: seq<Cell>)
    ensures Moving(cells, events) && cells[0].journal.prefix == prefix
    ensures forall j | 0 <= j <= |events| :: cells[j] == CellAt(prefix, events, j)
  {
    cells := seq(|events| + 1, j requires 0 <= j <= |events| => CellAt(prefix, events, j));
    forall j | 0 <= j < |events| ensures Moves(cells[j], cells[j + 1], events[j].Publish?) {
      CellAtNext(prefix, events, j);
      EventMoves(cells[j], events[j]);
    }
  }

  lemma {:induction false} GenerationNeverFalls(cells: seq<Cell>, events: seq<Event>, i: nat, j: nat)
    requires Moving(cells, events) && i <= j <= |events|
    ensures cells[i].journal.generation <= cells[j].journal.generation
    ensures cells[i].journal.prefix == cells[j].journal.prefix
    decreases j
  {
    if i < j { GenerationNeverFalls(cells, events, i, j - 1); }
  }

  /** A lost cell stays lost until a recovery, which rotates. */
  lemma {:induction false} LostRises(cells: seq<Cell>, events: seq<Event>, m: nat, j: nat)
    requires Moving(cells, events) && m <= j <= |events| && Lost(cells[m])
    ensures Lost(cells[j]) || cells[m].journal.generation < cells[j].journal.generation
    decreases j
  {
    if m < j {
      LostRises(cells, events, m, j - 1);
      GenerationNeverFalls(cells, events, m, j - 1);
      assert Moves(cells[j - 1], cells[j], events[j - 1].Publish?);
    }
  }

  lemma BrokenRises(cells: seq<Cell>, events: seq<Event>, m: nat)
    requires Moving(cells, events) && m <= |events| && Broken(cells, events, m) && cells[|events|].runtime.Some?
    ensures cells[m].journal.generation < cells[|events|].journal.generation
  {
    if Lost(cells[m]) {
      LostRises(cells, events, m, |events|);
    } else {
      assert Moves(cells[m], cells[m + 1], true);
      GenerationNeverFalls(cells, events, m + 1, |events|);
      if Lost(cells[m + 1]) { LostRises(cells, events, m + 1, |events|); }
    }
  }

  lemma {:induction false} UnbrokenKeeps(cells: seq<Cell>, events: seq<Event>, k: nat, j: nat)
    requires Moving(cells, events) && k <= j <= |events| && cells[k].runtime.Some?
    requires forall m | k <= m <= |events| :: !Broken(cells, events, m)
    ensures cells[j].runtime.Some? && cells[j].journal.generation == cells[k].journal.generation
    decreases j
  {
    if k < j {
      UnbrokenKeeps(cells, events, k, j - 1);
      assert !Broken(cells, events, j - 1) && !Broken(cells, events, j);
      assert Moves(cells[j - 1], cells[j], events[j - 1].Publish?);
    }
  }

  /**
   Between two moments that show a runtime the epoch has changed if and only if somewhere between
   them the runtime was lost or a bootstrap was published.
   */
  lemma EpochChangesIffBroken(prefix: string, events: seq<Event>, k: nat)
    requires k <= |events|
    requires CellAt(prefix, events, k).runtime.Some? && CellAt(prefix, events, |events|).runtime.Some?
    ensures Epoch(CellAt(prefix, events, k).journal) != Epoch(CellAt(prefix, events, |events|).journal)
            <==> exists m | k <= m <= |events| :: BrokenAt(prefix, events, m)
  {
    var cells := CellsOfRun(prefix, events);
    GenerationNeverFalls(cells, events, k, |events|);
    EpochTextInjective(
      cells[k].journal.prefix, cells[k].journal.generation, cells[|events|].journal.generation);
    assert forall m | k <= m <= |events| :: BrokenAt(prefix, events, m) <==> Broken(cells, events, m);
    if m :| k <= m <= |events| && BrokenAt(prefix, events, m) {
      BrokenRises(cells, events, m);
      GenerationNeverFalls(cells, events, k, m);
    } else {
      assert forall m | k <= m <= |events| :: !BrokenAt(prefix, events, m);
      UnbrokenKeeps(cells, events, k, |events|);
    }
  }

  /**
   After any loss or published bootstrap anywhere in a run, every cursor issued up to then is
   answered by a reset or an error, for ever, even at an equal revision.
   */
  lemma NoEpochReuse(prefix: string, events: seq<Event>, k: nat, m: nat, revision: U64, limit: nat)
    requires k <= m <= |events| && BrokenAt(prefix, events, m)
    requires CellAt(prefix, events, |events|).runtime.Some?
    ensures
      var issued, now := CursorAt(CellAt(prefix, events, k).journal, revision), CellAt(prefix, events, |events|);
      var answer := ChangesOf(now.journal, now.runtime.value, CursorJson(issued), limit);
      answer.Err? || answer.value.ResetRequired?
  {
    var cells := CellsOfRun(prefix, events);
    assert Broken(cells, events, m);
    BrokenRises(cells, events, m);
    GenerationNeverFalls(cells, events, k, m);
    GenerationNeverFalls(cells, events, m, |events|);
    OtherEpochResets(cells[|events|], cells[k].journal, revision, limit);
  }

  lemma OtherEpochResets(now: Cell, old_: Journal, revision: U64, limit: nat)
    requires now.runtime.Some? && now.journal.prefix == old_.prefix
    requires now.journal.generation != old_.generation
    ensures
      var answer := ChangesOf(now.journal, now.runtime.value, CursorJson(CursorAt(old_, revision)), limit);
      answer.Err? || answer.value.ResetRequired?
  {
    EpochTextInjective(old_.prefix, old_.generation, now.journal.generation);
  }

  /** A cell that lost its runtime with its epoch counter exhausted stays without one for good. */
  lemma {:induction false} ExhaustedNeverRevives(prefix: string, events: seq<Event>, k: nat)
    requires k <= |events|
    requires Exhausted(After(prefix, events[..k]).cell)
    ensures Exhausted(After(prefix, events).cell)
    decreases |events|
  {
    if k == |events| {
      assert events[..k] == events;
    } else {
      var rest := events[..|events| - 1];
      assert rest[..k] == events[..k];
      ExhaustedNeverRevives(prefix, rest, k);
    }
  }

  predicate Exhausted(c: Cell) {
    c.runtime.None? && c.recoveryRequired && c.journal.generation == U64_MAX
  }
}
