/**
 The bounded replay journal of one runtime cell. Functions on the value `Journal` say what each
 operation means; class `ReadJournal` is the object whose fields the operations change in place.
 */
module ReadReplay {
  import opened Common
  import opened FenceText
  import opened ReadProtocol

  const MAX_BATCHES: nat := 128
  const MAX_JOURNAL_BYTES: nat := 4 * 1024 * 1024
  const MAX_CURSOR_BYTES: nat := 4096
  const MAX_VIEW_CURSORS: nat := 64
  const MAX_VIEW_CURSOR_BYTES: nat := 256 * 1024

  datatype ReadError = InvalidInput | RecoveryRequired | Internal

  /** A retained batch: its content and the length of its JSON text. */
  datatype Batch = Batch(before: U64, revision: U64, content: ReadBatch, length: nat)

  datatype Journal = Journal(
    prefix: string, generation: U64, batches: seq<Batch>, bytes: nat, viewCursors: seq<Bytes>)

  datatype Cursor = Cursor(processEpoch: string, revision: string)

  /** A cursor text as it arrives: its length, and what the JSON parser makes of it. */
  datatype CursorText = CursorText(length: nat, parsed: Option<Cursor>)

  datatype Response =
    | ResetRequired(snapshot: ReadSnapshot, cursor: Cursor)
    | Batches(batches: seq<ReadBatch>, cursor: Cursor)

  function EpochText(prefix: string, generation: U64): string
  {
    prefix + ":" + Decimal(generation)
  }

  function Epoch(j: Journal): string { EpochText(j.prefix, j.generation) }

  function CursorAt(j: Journal, revision: U64): Cursor
  {
    Cursor(Epoch(j), Decimal(revision))
  }

  /** `{"processEpoch":"…","revision":"…"}`: 33 bytes of framing around the two texts. */
  function CursorJson(c: Cursor): CursorText
  {
    CursorText(33 + |c.processEpoch| + |c.revision|, Some(c))
  }

  lemma EpochTextInjective(prefix: string, a: U64, b: U64)
    ensures EpochText(prefix, a) == EpochText(prefix, b) <==> a == b
  {
    DecimalInjective(a, b);
    if EpochText(prefix, a) == EpochText(prefix, b) {
      assert Decimal(a) == EpochText(prefix, a)[|prefix| + 1..];
      assert Decimal(b) == EpochText(prefix, b)[|prefix| + 1..];
    }
  }

  lemma ColonEndsPrefix(p: string, g: U64)
    ensures |p| < |EpochText(p, g)| && EpochText(p, g)[|p|] == ':'
    ensures forall i | |p| < i < |EpochText(p, g)| :: EpochText(p, g)[i] != ':'
  {
    var t := EpochText(p, g);
    forall i | |p| < i < |t| ensures t[i] != ':' {
      assert t[i] == Decimal(g)[i - |p| - 1] && IsDigit(Decimal(g)[i - |p| - 1]);
    }
  }

  /** Epochs of journals with different prefixes differ: the last colon ends the prefix. */
  lemma EpochNamesPrefix(p: string, g: U64, q: string, h: U64)
    requires EpochText(p, g) == EpochText(q, h)
    ensures p == q
  {
    ColonEndsPrefix(p, g);
    ColonEndsPrefix(q, h);
    assert |p| == |q|;
    assert p == EpochText(p, g)[..|p|] && q == EpochText(q, h)[..|q|];
  }

  // ---------------------------------------------------------------- bounded suffixes

  function TotalLength(batches: seq<Batch>): nat
  {
    if batches == [] then 0 else batches[0].length + TotalLength(batches[1..])
  }

  /** There is room for one more batch of this length. */
  predicate BatchFits(batches: seq<Batch>, length: nat) {
    |batches| < MAX_BATCHES && TotalLength(batches) + length <= MAX_JOURNAL_BYTES
  }

  /** How many of the oldest batches must go before one of this length fits. */
  function BatchesToEvict(batches: seq<Batch>, length: nat): (k: nat)
    requires length <= MAX_JOURNAL_BYTES
    ensures k <= |batches|
    ensures BatchFits(batches[k..], length)
    ensures forall i | 0 <= i < k :: !BatchFits(batches[i..], length)
  {
    if BatchFits(batches, length) then
      assert batches[0..] == batches;
      0
    else
      var k := BatchesToEvict(batches[1..], length);
      assert batches[1..][k..] == batches[k + 1..];
      assert forall i | 0 < i <= k :: batches[i..] == batches[1..][i - 1..];
      assert batches[0..] == batches;
      k + 1
  }

  function TotalBytes(cursors: seq<Bytes>): nat
  {
    if cursors == [] then 0 else |cursors[0]| + TotalBytes(cursors[1..])
  }

  predicate CursorFits(cursors: seq<Bytes>, cursor: Bytes) {
    |cursors| < MAX_VIEW_CURSORS && TotalBytes(cursors) + |cursor| <= MAX_VIEW_CURSOR_BYTES
  }

  function CursorsToEvict(cursors: seq<Bytes>, cursor: Bytes): (k: nat)
    requires |cursor| <= MAX_VIEW_CURSOR_BYTES
    ensures k <= |cursors|
    ensures CursorFits(cursors[k..], cursor)
    ensures forall i | 0 <= i < k :: !CursorFits(cursors[i..], cursor)
  {
    if CursorFits(cursors, cursor) then
      assert cursors[0..] == cursors;
      0
    else
      var k := CursorsToEvict(cursors[1..], cursor);
      assert cursors[1..][k..] == cursors[k + 1..];
      assert forall i | 0 < i <= k :: cursors[i..] == cursors[1..][i - 1..];
      assert cursors[0..] == cursors;
      k + 1
  }

  // ---------------------------------------------------------------- operations on the value

  function Fresh(prefix: string): Journal { Journal(prefix, 0, [], 0, []) }

  function RotateJournal(j: Journal): (r: Result<Journal, ReadError>)
    ensures r.Ok? <==> j.generation < U64_MAX
  {
    if j.generation == U64_MAX then Err(RecoveryRequired)
    else Ok(Journal(j.prefix, j.generation + 1, [], 0, []))
  }

  /** `encoded` is the length of the batch's JSON text, or nothing when encoding fails. */
  function RecordBatch(j: Journal, batch: Option<ReadBatch>, encoded: Option<nat>): Journal
  {
    if batch.None? then j
    else if encoded.None? || encoded.value > MAX_JOURNAL_BYTES then j.(batches := [], bytes := 0)
    else
      var b := Batch(batch.value.beforeRevision, batch.value.revision, batch.value, encoded.value);
      var kept := j.batches[BatchesToEvict(j.batches, encoded.value)..];
      j.(batches := kept + [b], bytes := TotalLength(kept) + encoded.value)
  }

  function RememberCursor(j: Journal, cursor: Bytes): Journal
  {
    if |cursor| > MAX_VIEW_CURSOR_BYTES then j.(viewCursors := [])
    else j.(viewCursors := j.viewCursors[CursorsToEvict(j.viewCursors, cursor)..] + [cursor])
  }

  /** First retained batch that starts at this revision. */
  function StartingAt(batches: seq<Batch>, revision: U64): (at: Option<nat>)
    ensures at.Some? ==> at.value < |batches| && batches[at.value].before == revision
                         && forall i | 0 <= i < at.value :: batches[i].before != revision
    ensures at.None? ==> forall i | 0 <= i < |batches| :: batches[i].before != revision
  {
    if batches == [] then None
    else if batches[0].before == revision then Some(0)
    else
      match StartingAt(batches[1..], revision)
      case None => None
      case Some(i) => Some(i + 1)
  }

  function Contents(batches: seq<Batch>): seq<ReadBatch>
  {
    seq(|batches|, i requires 0 <= i < |batches| => batches[i].content)
  }

  /** The inputs `changes` refuses, as a caller could check them beforehand. */
  predicate AcceptableRequest(cursor: CursorText, limit: nat) {
    && 1 <= limit <= MAX_BATCHES
    && cursor.length <= MAX_CURSOR_BYTES
    && cursor.parsed.Some?
    && Canonical(cursor.parsed.value.revision)
  }

  /** What `changes` answers, said without a loop: a page of at most `limit` batches, or a reset. */
  function ChangesOf(j: Journal, current: ClientState, cursor: CursorText, limit: nat)
    : Result<Response, ReadError>
  {
    if !AcceptableRequest(cursor, limit) then Err(InvalidInput)
    else
      var revision: U64 := ValueOf(cursor.parsed.value.revision);
      var at := StartingAt(j.batches, revision);
      if cursor.parsed.value.processEpoch != Epoch(j) || revision > current.revision
         || (revision < current.revision && at.None?) then
        Ok(ResetRequired(SnapshotOf(current), CursorAt(j, current.revision)))
      else if revision == current.revision then
        Ok(Batches([], CursorAt(j, revision)))
      else
        var page := j.batches[at.value..PageEnd(|j.batches|, at.value, limit)];
        Ok(Batches(Contents(page), CursorAt(j, page[|page| - 1].revision)))
  }

  // ---------------------------------------------------------------- invariants

  predicate Bounded(j: Journal) {
    && |j.batches| <= MAX_BATCHES
    && j.bytes == TotalLength(j.batches)
    && j.bytes <= MAX_JOURNAL_BYTES
    && |j.viewCursors| <= MAX_VIEW_CURSORS
    && TotalBytes(j.viewCursors) <= MAX_VIEW_CURSOR_BYTES
  }

  /** The retained batches form an unbroken, rising chain that ends at the current revision. */
  predicate Chained(batches: seq<Batch>, current: U64) {
    && (forall i | 0 <= i < |batches| ::
          && batches[i].before < batches[i].revision
          && batches[i].content.beforeRevision == batches[i].before
          && batches[i].content.revision == batches[i].revision)
    && (forall i | 0 <= i < |batches| - 1 :: batches[i].revision == batches[i + 1].before)
    && (batches != [] ==> batches[|batches| - 1].revision == current)
  }

  lemma {:induction false} TotalLengthAppend(batches: seq<Batch>, b: Batch)
    ensures TotalLength(batches + [b]) == TotalLength(batches) + b.length
  {
    if batches == [] {
      assert batches + [b] == [b];
    } else {
      TotalLengthAppend(batches[1..], b);
      assert (batches + [b])[1..] == batches[1..] + [b];
    }
  }

  lemma {:induction false} TotalBytesAppend(cursors: seq<Bytes>, c: Bytes)
    ensures TotalBytes(cursors + [c]) == TotalBytes(cursors) + |c|
  {
    if cursors == [] {
      assert cursors + [c] == [c];
    } else {
      TotalBytesAppend(cursors[1..], c);
      assert (cursors + [c])[1..] == cursors[1..] + [c];
    }
  }

  /** What the journal relies on about a commit from `before` to `after`. */
  predicate BatchOfCommit(batch: Option<ReadBatch>, before: U64, after: U64) {
    && (batch.None? <==> before == after)
    && (batch.Some? ==> batch.value.beforeRevision == before && batch.value.revision == after)
  }

  /** Recording a commit keeps every bound and the chain, whatever is evicted or dropped. */
  lemma RecordKeeps(j: Journal, batch: Option<ReadBatch>, encoded: Option<nat>, before: U64, after: U64)
    requires Bounded(j) && Chained(j.batches, before)
    requires before <= after && BatchOfCommit(batch, before, after)
    ensures Bounded(RecordBatch(j, batch, encoded))
    ensures Chained(RecordBatch(j, batch, encoded).batches, after)
  {
    if batch.Some? && encoded.Some? && encoded.value <= MAX_JOURNAL_BYTES {
      var k := BatchesToEvict(j.batches, encoded.value);
      var b := Batch(before, after, batch.value, encoded.value);
      TotalLengthAppend(j.batches[k..], b);
      ChainExtends(j.batches, k, b, before);
    }
  }

  lemma ChainExtends(batches: seq<Batch>, k: nat, b: Batch, current: U64)
    requires k <= |batches| && Chained(batches, current)
    requires b.before == current < b.revision
    requires b.content.beforeRevision == b.before && b.content.revision == b.revision
    ensures Chained(batches[k..] + [b], b.revision)
  {
    var next := batches[k..] + [b];
    assert forall i | 0 <= i < |next| - 1 :: next[i] == batches[k + i];
  }

  lemma RememberKeeps(j: Journal, cursor: Bytes)
    requires Bounded(j)
    ensures Bounded(RememberCursor(j, cursor))
  {
    if |cursor| <= MAX_VIEW_CURSOR_BYTES {
      TotalBytesAppend(j.viewCursors[CursorsToEvict(j.viewCursors, cursor)..], cursor);
    }
  }

  // ---------------------------------------------------------------- the object

  // ---------------------------------------------------------------- what is kept and what is answered

  /** 128 batches and 4 MiB in all, the new one included. */
  predicate FitsWith(batches: seq<Batch>, length: nat) { |batches| < 128 && TotalLength(batches) + length <= 4194304 }

  /**
   Recording keeps the longest newest part of the journal that leaves room for the batch, and then
   the batch; one that could never fit, or cannot be encoded, empties the journal.
   */
  lemma RecordRetains(j: Journal, batch: ReadBatch, encoded: Option<nat>)
    ensures var after := RecordBatch(j, Some(batch), encoded);
            && after.prefix == j.prefix && after.generation == j.generation && after.viewCursors == j.viewCursors
            && (encoded.None? || encoded.value > 4194304 ==> after.batches == [] && after.bytes == 0)
            && (encoded.Some? && encoded.value <= 4194304 ==>
                  exists k | 0 <= k <= |j.batches| ::
                    && after.batches
                       == j.batches[k..] + [Batch(batch.beforeRevision, batch.revision, batch, encoded.value)]
                    && FitsWith(j.batches[k..], encoded.value)
                    && forall i | 0 <= i < k :: !FitsWith(j.batches[i..], encoded.value))
    ensures RecordBatch(j, None, encoded) == j
  {
    if encoded.Some? && encoded.value <= 4194304 {
      var k := BatchesToEvict(j.batches, encoded.value);
      assert forall i | 0 <= i <= |j.batches| ::
          BatchFits(j.batches[i..], encoded.value) <==> FitsWith(j.batches[i..], encoded.value);
    }
  }

  /** 64 cursors and 256 KiB in all, the new one included. */
  predicate CursorFitsWith(cursors: seq<Bytes>, cursor: Bytes) {
    |cursors| < 64 && TotalBytes(cursors) + |cursor| <= 262144
  }

  lemma RememberRetains(j: Journal, cursor: Bytes)
    ensures var after := RememberCursor(j, cursor);
            && after == j.(viewCursors := after.viewCursors)
            && (|cursor| > 262144 ==> after.viewCursors == [])
            && (|cursor| <= 262144 ==>
                  exists k | 0 <= k <= |j.viewCursors| ::
                    && after.viewCursors == j.viewCursors[k..] + [cursor]
                    && CursorFitsWith(j.viewCursors[k..], cursor)
                    && forall i | 0 <= i < k :: !CursorFitsWith(j.viewCursors[i..], cursor))
  {
    if |cursor| <= 262144 {
      var k := CursorsToEvict(j.viewCursors, cursor);
      assert forall i | 0 <= i <= |j.viewCursors| ::
          CursorFits(j.viewCursors[i..], cursor) <==> CursorFitsWith(j.viewCursors[i..], cursor);
    }
  }

  /** A rotation starts an empty journal one generation up under the same prefix, while there is one. */
  lemma RotateClears(j: Journal)
    ensures RotateJournal(j).Ok? <==> j.generation < 0xFFFF_FFFF_FFFF_FFFF
    ensures RotateJournal(j).Ok? ==>
              var after := RotateJournal(j).value;
              && after.prefix == j.prefix && after.generation == j.generation + 1
              && after.batches == [] && after.bytes == 0 && after.viewCursors == []
  {
  }

  /** A request that is answered: a page size of 1 to 128 and a cursor of at most 4096 bytes with a canonical revision. */
  predicate Answerable(cursor: CursorText, limit: nat) {
    && 1 <= limit <= 128 && cursor.length <= 4096 && cursor.parsed.Some?
    && Canonical(cursor.parsed.value.revision)
  }

  /** The cursor belongs to another epoch, to the future, or to a revision no retained batch starts at. */
  predicate Unservable(j: Journal, current: U64, epoch: string, revision: int) {
    || epoch != j.prefix + ":" + Decimal(j.generation)
    || revision > current
    || (revision < current && forall i | 0 <= i < |j.batches| :: j.batches[i].before != revision)
  }

  predicate PageFrom(j: Journal, at: nat, limit: nat, page: Response)
    requires at < |j.batches|
  {
    && page.Batches? && 0 < |page.batches|
    && |page.batches| == (if limit <= |j.batches| - at then limit else |j.batches| - at)
    && (forall i | 0 <= i < |page.batches| :: page.batches[i] == j.batches[at + i].content)
    && page.cursor == CursorAt(j, j.batches[at + |page.batches| - 1].revision)
  }

  lemma PageIsNext(j: Journal, at: nat, limit: nat, page: seq<Batch>)
    requires at < |j.batches| && limit >= 1 && page == j.batches[at..PageEnd(|j.batches|, at, limit)]
    ensures |page| > 0 && PageFrom(j, at, limit, Batches(Contents(page), CursorAt(j, page[|page| - 1].revision)))
  {
  }

  /** The first retained batch from which the cursor's revision goes on, and the page from there. */
  ghost predicate NextPage(j: Journal, revision: int, limit: nat, page: Response) {
    exists at | 0 <= at < |j.batches| ::
      && j.batches[at].before == revision && (forall i | 0 <= i < at :: j.batches[i].before != revision)
      && PageFrom(j, at, limit, page)
  }

  /**
   Exactly what a poll is answered: an error, the whole snapshot, or the next batches of the chain
   from the cursor's revision, as many as asked for and retained, and the cursor after them.
   */
  lemma ChangesAnswer(j: Journal, current: ClientState, cursor: CursorText, limit: nat)
    ensures var answer := ChangesOf(j, current, cursor, limit);
            && (answer.Err? <==> !Answerable(cursor, limit)) && (answer.Err? ==> answer.error == InvalidInput)
            && (answer.Ok? ==>
                  var revision := ValueOf(cursor.parsed.value.revision);
                  && (answer.value.ResetRequired?
                      <==> Unservable(j, current.revision, cursor.parsed.value.processEpoch, revision))
                  && (answer.value.ResetRequired? ==>
                        answer.value.snapshot == SnapshotOf(current)
                        && answer.value.cursor == CursorAt(j, current.revision))
                  && (answer.value.Batches? && revision == current.revision ==>
                        answer.value.batches == [] && answer.value.cursor == CursorAt(j, current.revision))
                  && (answer.value.Batches? && revision < current.revision ==>
                        NextPage(j, revision, limit, answer.value)))
  {
    if Answerable(cursor, limit) {
      var revision := ValueOf(cursor.parsed.value.revision);
      var at := StartingAt(j.batches, revision);
      if at.Some? {
        PageIsNext(j, at.value, limit, j.batches[at.value..PageEnd(|j.batches|, at.value, limit)]);
      }
    }
  }

  class ReadJournal {
    var prefix: string
    var generation: U64
    var batches: seq<Batch>
    var bytes: nat
    var viewCursors: seq<Bytes>

    ghost function View(): Journal
      reads this
    {
      Journal(prefix, generation, batches, bytes, viewCursors)
    }

    constructor (prefix: string)
      ensures View() == Fresh(prefix) && Bounded(View())
    {
      this.prefix := prefix;
      generation, batches, bytes, viewCursors := 0, [], 0, [];
    }

    method Rotate() returns (r: Result<(), ReadError>)
      modifies this
      ensures r.Ok? <==> RotateJournal(old(View())).Ok?
      ensures View() == if r.Ok? then RotateJournal(old(View())).value else old(View())
    {
      if generation == U64_MAX { return Err(RecoveryRequired); }
      generation := generation + 1;
      batches := [];
      viewCursors := [];
      bytes := 0;
      r := Ok(());
    }

    /** The eviction loop ends because an empty journal always has room for an admissible batch. */
    method Record(batch: Option<ReadBatch>, encoded: Option<nat>)
      requires Bounded(View())
      modifies this
      ensures View() == RecordBatch(old(View()), batch, encoded)
    {
      if batch.None? { return; }
      if encoded.None? || encoded.value > MAX_JOURNAL_BYTES {
        batches := [];
        bytes := 0;
        return;
      }
      ghost var dropped := 0;
      assert batches == old(batches)[dropped..];
      while |batches| >= MAX_BATCHES || bytes + encoded.value > MAX_JOURNAL_BYTES
        invariant 0 <= dropped <= |old(batches)|
        invariant batches == old(batches)[dropped..]
        invariant bytes == TotalLength(batches)
        invariant forall i | 0 <= i < dropped :: !BatchFits(old(batches)[i..], encoded.value)
        invariant prefix == old(prefix) && generation == old(generation) && viewCursors == old(viewCursors)
        decreases |batches|
      {
        if |batches| > 0 {
          bytes := bytes - batches[0].length;
          batches := batches[1..];
          dropped := dropped + 1;
        }
      }
      assert dropped == BatchesToEvict(old(batches), encoded.value);
      bytes := bytes + encoded.value;
      batches := batches
               + [Batch(batch.value.beforeRevision, batch.value.revision, batch.value, encoded.value)];
    }

    /** A cursor too long to fit alone is not kept, and takes every remembered one with it. */
    method RememberViewCursor(cursor: Bytes)
      modifies this
      ensures View() == RememberCursor(old(View()), cursor)
    {
      ghost var dropped := 0;
      var sum := SumOfLengths(viewCursors);
      while |viewCursors| >= MAX_VIEW_CURSORS || sum + |cursor| > MAX_VIEW_CURSOR_BYTES
        invariant 0 <= dropped <= |old(viewCursors)|
        invariant viewCursors == old(viewCursors)[dropped..]
        invariant sum == TotalBytes(viewCursors)
        invariant forall i | 0 <= i < dropped :: !CursorFits(old(viewCursors)[i..], cursor)
        invariant prefix == old(prefix) && generation == old(generation)
        invariant batches == old(batches) && bytes == old(bytes)
        decreases |viewCursors|
      {
        if viewCursors == [] { return; }
        viewCursors := viewCursors[1..];
        dropped := dropped + 1;
        sum := SumOfLengths(viewCursors);
      }
      assert |cursor| <= MAX_VIEW_CURSOR_BYTES;
      assert dropped == CursorsToEvict(old(viewCursors), cursor);
      viewCursors := viewCursors + [cursor];
    }

    method Bootstrap(current: ClientState) returns (r: Response)
      ensures r == ResetRequired(SnapshotOf(current), CursorAt(View(), current.revision))
    {
      var snapshot := Snapshot(current);
      r := ResetRequired(snapshot, Cursor(EpochText(prefix, generation), Decimal(current.revision)));
    }

    /** A page of the chain; the gap error is unreachable on a chained journal. */
    method Changes(current: ClientState, cursor: CursorText, limit: nat)
      returns (r: Result<Response, ReadError>)
      requires Chained(batches, current.revision)
      ensures r == ChangesOf(View(), current, cursor, limit)
      ensures r != Err(Internal)
    {
      if !(1 <= limit <= MAX_BATCHES) || cursor.length > MAX_CURSOR_BYTES || cursor.parsed.None? {
        return Err(InvalidInput);
      }
      var parsed := ParseFence(cursor.parsed.value.revision);
      ParseFenceExact(cursor.parsed.value.revision);
      if parsed.Err? { return Err(InvalidInput); }
      var revision := parsed.value;
      var first := StartingAt(batches, revision);
      var epoch := EpochText(prefix, generation);
      if cursor.parsed.value.processEpoch != epoch
         || revision > current.revision || (revision < current.revision && first.None?)
      {
        var reset := Bootstrap(current);
        return Ok(reset);
      }
      if revision == current.revision {
        return Ok(Batches([], Cursor(epoch, Decimal(revision))));
      }
      var gap, page, after := CollectPage(batches, first.value, limit, current.revision);
      if gap { return Err(Internal); }
      r := Ok(Batches(page, Cursor(epoch, Decimal(after))));
    }
  }

  function PageEnd(count: nat, at: nat, limit: nat): nat
  {
    if at + limit <= count then at + limit else count
  }

  /** The paging loop of `changes`: at most `limit` consecutive batches, refusing a gap. */
  method CollectPage(batches: seq<Batch>, at: nat, limit: nat, ghost current: U64)
    returns (gap: bool, page: seq<ReadBatch>, after: U64)
    requires Chained(batches, current) && at < |batches| && 1 <= limit
    ensures !gap
    ensures page == Contents(batches[at..PageEnd(|batches|, at, limit)])
    ensures after == batches[PageEnd(|batches|, at, limit) - 1].revision
  {
    gap, page := false, [];
    after := batches[at].before;
    var n := 0;
    while n < limit && at + n < |batches|
      invariant n <= limit && at + n <= |batches|
      invariant !gap && page == Contents(batches[at..at + n])
      invariant after == if n == 0 then batches[at].before else batches[at + n - 1].revision
    {
      var batch := batches[at + n];
      if batch.before != after { return true, page, after; }
      page := page + [batch.content];
      after := batch.revision;
      n := n + 1;
    }
  }

  /** `iter().map(len).sum()` over the remembered cursors. */
  method SumOfLengths(cursors: seq<Bytes>) returns (sum: nat)
    ensures sum == TotalBytes(cursors)
  {
    sum := 0;
    var i := |cursors|;
    while i > 0
      invariant 0 <= i <= |cursors|
      invariant sum == TotalBytes(cursors[i..])
    {
      i := i - 1;
      assert cursors[i..][1..] == cursors[i + 1..];
      sum := sum + |cursors[i]|;
    }
    assert cursors[0..] == cursors;
  }
}
