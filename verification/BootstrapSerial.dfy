/**
 Overlapping snapshot transactions on one key. Each decides and writes from the snapshot it began
 on and commits only if no row it writes was committed since: the first committer wins. The fence
 on the metadata row makes every such history a serial one.
 */
module BootstrapSerial {
  import opened Common
  import opened FenceText
  import opened ReadProtocol
  import opened BootstrapModel
  import opened BootstrapHistory

  // ---------------------------------------------------------------- rows and write sets

  datatype Row = MetaRow | HeaderRow | BarrierRow | PageRow(index: U64)

  /** Which rows a plan decided on snapshot `r` writes or deletes. */
  predicate Writes(r: Record, plan: Plan, row: Row) {
    match plan
    case NoChange => false
    case CreateStage(_) =>
      // The first begin creates and deletes the barrier row, only to leave a write intent on it.
      row == HeaderRow || row == MetaRow || (row == BarrierRow && r.fence.None?)
    case AddPage(index, _) => row == PageRow(index) || row == MetaRow
    case Consume(_, _) => row == HeaderRow || row == MetaRow || (row.PageRow? && row.index in r.pages)
    case CancelStage => row == HeaderRow || row == MetaRow || (row.PageRow? && row.index in r.pages)
    case WriteState(_) => row == MetaRow
    case WriteBarrier(_) => row == BarrierRow || (row == MetaRow && r.fence.Some?)
  }

  /** The current rows with those of the write set replaced by what the snapshot transaction wrote. */
  function Overlay(current: Record, snapshot: Record, plan: Plan): Record
  {
    var written := Effect(snapshot, plan);
    Record(
      current.partitionId, current.clientId,
      if Writes(snapshot, plan, MetaRow) then written.state else current.state,
      if Writes(snapshot, plan, MetaRow) then written.fence else current.fence,
      if Writes(snapshot, plan, HeaderRow) then written.header else current.header,
      OverlayPages(current.pages, written.pages, snapshot, plan),
      if Writes(snapshot, plan, BarrierRow) then written.barrier else current.barrier)
  }

  function OverlayPages(current: map<U64, Bytes>, written: map<U64, Bytes>, snapshot: Record, plan: Plan)
    : map<U64, Bytes>
  {
    map i | i in current.Keys + written.Keys
            && (if Writes(snapshot, plan, PageRow(i)) then i in written else i in current)
          :: if Writes(snapshot, plan, PageRow(i)) then written[i] else current[i]
  }

  /**
   The write sets are no larger than they must be: beyond the rows a plan changes they hold only the
   header a repeated cancel rewrites, a barrier rewritten as it was, and the first begin's intent.
   */
  ghost predicate WriteSetExact(r: Record, plan: Plan) {
    var after := Effect(r, plan);
    && (Writes(r, plan, MetaRow) <==> after.state != r.state || after.fence != r.fence)
    && (Writes(r, plan, HeaderRow) <==>
          after.header != r.header || (plan == CancelStage && r.header.Some? && r.header.value.cancelled))
    && (Writes(r, plan, BarrierRow) <==> plan.WriteBarrier? || (plan.CreateStage? && r.fence.None?))
    && (after.barrier != r.barrier ==> Writes(r, plan, BarrierRow))
    && forall i :: Writes(r, plan, PageRow(i)) <==> PageDiffers(r.pages, after.pages, i)
  }

  ghost predicate PageDiffers(a: map<U64, Bytes>, b: map<U64, Bytes>, i: U64) {
    ((i in a) != (i in b)) || (i in a && i in b && a[i] != b[i])
  }

  lemma CreateWrites(c: Codec, r: Record, op: Op, h: Header)
    requires Inv(c, r) && Creates(c, r, op, h)
    ensures WriteSetExact(r, CreateStage(h))
  {
    assert Effect(r, CreateStage(h)).header == Some(h);
    if r.header.Some? { assert r.header.value.cancelled && !h.cancelled; }
  }

  lemma AddWrites(c: Codec, r: Record, op: Op, i: U64, raw: Bytes)
    requires Inv(c, r) && Adds(c, r, op, i, raw)
    ensures WriteSetExact(r, AddPage(i, raw))
  {
  }

  lemma CloseWrites(c: Codec, r: Record, plan: Plan)
    requires Inv(c, r) && r.header.Some? && r.fence.value.counter < U64_MAX
    requires plan == CancelStage
             || (plan.Consume? && !r.header.value.cancelled && r.fence.value.counter < U64_MAX - 1)
    ensures WriteSetExact(r, plan)
  {
  }

  lemma GuardedWrites(c: Codec, r: Record, plan: Plan)
    requires Inv(c, r) && (r.fence.Some? ==> r.fence.value.counter < U64_MAX)
    requires plan.WriteBarrier? || (plan.WriteState? && plan.next.revision == r.state.revision + 1)
    ensures WriteSetExact(r, plan)
  {
  }

  lemma WriteSetMeaning(c: Codec, r: Record, op: Op, plan: Plan)
    requires CodecOk(c) && Inv(c, r) && Decide(c, r, op) == Ok(plan)
    ensures WriteSetExact(r, plan)
  {
    match plan
    case CreateStage(h) => CreateFacts(c, r, op, h); CreateWrites(c, r, op, h);
    case AddPage(i, raw) => AddFacts(c, r, op, i, raw); AddWrites(c, r, op, i, raw);
    case Consume(receipt, next) => ConsumeFacts(c, r, op, receipt, next); CloseWrites(c, r, plan);
    case CancelStage => CancelFacts(c, r, op); CloseWrites(c, r, plan);
    case WriteState(next) => WriteFacts(c, r, op, next); GuardedWrites(c, r, plan);
    case WriteBarrier(b) => BarrierFacts(c, r, op, b); GuardedWrites(c, r, plan);
    case NoChange =>
  }

  // ---------------------------------------------------------------- concurrent histories

  /** A committed transaction: the commit count it began at, its operation and what it decided. */
  datatype Txn = Txn(snapshot: nat, op: Op, plan: Plan)

  ghost predicate FirstCommitterWins(h: seq<Txn>, trace: seq<Record>, k: nat)
    requires k < |h| && |trace| == |h| + 1 && forall j | 0 <= j < |h| :: h[j].snapshot <= j
  {
    forall j, row | h[k].snapshot <= j < k ::
      !(Writes(trace[h[j].snapshot], h[j].plan, row) && Writes(trace[h[k].snapshot], h[k].plan, row))
  }

  ghost predicate CommitAt(c: Codec, h: seq<Txn>, trace: seq<Record>, k: nat)
    requires k < |h| && |trace| == |h| + 1 && forall j | 0 <= j < |h| :: h[j].snapshot <= j
  {
    && Decide(c, trace[h[k].snapshot], h[k].op) == Ok(h[k].plan)
    && FirstCommitterWins(h, trace, k)
    && trace[k + 1] == Overlay(trace[k], trace[h[k].snapshot], h[k].plan)
  }

  /** `trace[k]` is the database after the first `k` commits of the history. */
  ghost predicate Concurrent(c: Codec, h: seq<Txn>, trace: seq<Record>) {
    && CodecOk(c) && |trace| == |h| + 1 && Inv(c, trace[0])
    && (forall k | 0 <= k < |h| :: h[k].snapshot <= k && Addressed(trace[0], h[k].op))
    && (forall k | 0 <= k < |h| :: CommitAt(c, h, trace, k))
  }

  // ---------------------------------------------------------------- what can have changed since a snapshot

  /**
   What the rows a writing transaction commits over still share with its snapshot: everything once
   a fence exists; before that, an unfenced journal or barrier write may have slipped in between.
   */
  ghost predicate Undisturbed(r: Record, now: Record, plan: Plan) {
    && (r.fence.Some? ==> now == r)
    && (r.fence.None? ==> now.fence.None?
                          && now.header == r.header && now.pages == r.pages
                          && now.partitionId == r.partitionId && now.clientId == r.clientId
                          && (Writes(r, plan, MetaRow) ==> now.state == r.state)
                          && (Writes(r, plan, BarrierRow) ==> now.barrier == r.barrier))
  }

  lemma OverlayOfSame(r: Record, plan: Plan)
    requires plan.CancelStage? || plan.Consume? ==> r.header.Some?
    ensures Overlay(r, r, plan) == Effect(r, plan)
  {
    assert Overlay(r, r, plan).pages == Effect(r, plan).pages;
  }

  /** A plan that writes a row and survived to commit decides and does the same on the current rows. */
  lemma CommitIsSerial(c: Codec, r: Record, now: Record, op: Op, plan: Plan)
    requires CodecOk(c) && Inv(c, r) && Inv(c, now)
    requires Decide(c, r, op) == Ok(plan) && plan != NoChange && Undisturbed(r, now, plan)
    ensures Decide(c, now, op) == Ok(plan)
    ensures Overlay(now, r, plan) == Step(c, now, op)
  {
    match plan
    case CreateStage(h) =>
      CreateFacts(c, r, op, h);
      assert now == r;
      OverlayOfSame(r, plan);
    case AddPage(i, raw) =>
      AddFacts(c, r, op, i, raw);
      OverlayOfSame(r, plan);
    case Consume(receipt, next) =>
      ConsumeFacts(c, r, op, receipt, next);
      OverlayOfSame(r, plan);
    case CancelStage =>
      CancelFacts(c, r, op);
      OverlayOfSame(r, plan);
    case WriteState(next) => JournalIsSerial(c, r, now, op, next);
    case WriteBarrier(b) => BarrierIsSerial(c, r, now, op, b);
  }

  lemma JournalIsSerial(c: Codec, r: Record, now: Record, op: Op, next: ClientState)
    requires CodecOk(c) && Inv(c, r)
    requires Decide(c, r, op) == Ok(WriteState(next)) && Undisturbed(r, now, WriteState(next))
    ensures Decide(c, now, op) == Ok(WriteState(next))
    ensures Overlay(now, r, WriteState(next)) == Step(c, now, op)
  {
    WriteFacts(c, r, op, next);
    if r.fence.Some? {
      OverlayOfSame(r, WriteState(next));
    } else {
      assert Overlay(now, r, WriteState(next)).pages == now.pages;
    }
  }

  lemma BarrierIsSerial(c: Codec, r: Record, now: Record, op: Op, b: Barrier)
    requires CodecOk(c) && Inv(c, r)
    requires Decide(c, r, op) == Ok(WriteBarrier(b)) && Undisturbed(r, now, WriteBarrier(b))
    ensures Decide(c, now, op) == Ok(WriteBarrier(b))
    ensures Overlay(now, r, WriteBarrier(b)) == Step(c, now, op)
  {
    BarrierFacts(c, r, op, b);
    if r.fence.Some? {
      OverlayOfSame(r, WriteBarrier(b));
    } else {
      assert Overlay(now, r, WriteBarrier(b)).pages == now.pages;
    }
  }

  // ---------------------------------------------------------------- every history is serial

  /** Before the first begin only creations, journal writes and barrier writes are ever admitted. */
  lemma UnfencedPlans(c: Codec, r: Record, op: Op, plan: Plan)
    requires CodecOk(c) && Inv(c, r) && Decide(c, r, op) == Ok(plan)
    ensures r.fence.None? ==> plan == NoChange || plan.CreateStage? || plan.WriteState? || plan.WriteBarrier?
  {
    match plan
    case AddPage(i, raw) => AddFacts(c, r, op, i, raw);
    case Consume(receipt, next) => ConsumeFacts(c, r, op, receipt, next);
    case CancelStage => CancelFacts(c, r, op);
    case _ =>
  }

  /** A commit that shares no row with a pending writer leaves that writer undisturbed. */
  lemma OthersDoNotDisturb(c: Codec, r: Record, op: Op, plan: Plan, s: Record, other: Op, theirs: Plan, now: Record)
    requires CodecOk(c) && Inv(c, r) && Inv(c, s)
    requires Decide(c, r, op) == Ok(plan) && plan != NoChange
    requires Decide(c, s, other) == Ok(theirs) && theirs != NoChange
    requires Undisturbed(r, now, plan) && Undisturbed(s, now, theirs)
    requires forall row :: !(Writes(s, theirs, row) && Writes(r, plan, row))
    ensures Undisturbed(r, Overlay(now, s, theirs), plan)
  {
    UnfencedPlans(c, r, op, plan);
    UnfencedPlans(c, s, other, theirs);
    assert !(Writes(s, theirs, MetaRow) && Writes(r, plan, MetaRow));
    assert !(Writes(s, theirs, BarrierRow) && Writes(r, plan, BarrierRow));
    if r.fence.None? {
      assert s.fence.None?;
      assert Overlay(now, s, theirs).pages == now.pages;
    } else {
      assert false;
    }
  }

  /** The `k`-th commit is the serial step on the rows it commits over, or changes nothing. */
  ghost predicate SerialAt(c: Codec, h: seq<Txn>, trace: seq<Record>, k: nat)
    requires k < |h| && |trace| == |h| + 1 && h[k].snapshot <= k
  {
    if h[k].plan == NoChange then trace[k + 1] == trace[k]
    else
      && Undisturbed(trace[h[k].snapshot], trace[k], h[k].plan)
      && Decide(c, trace[k], h[k].op) == Ok(h[k].plan)
      && trace[k + 1] == Step(c, trace[k], h[k].op)
  }

  ghost predicate SerialUpTo(c: Codec, h: seq<Txn>, trace: seq<Record>, k: nat) {
    && k <= |h| && |trace| == |h| + 1
    && (forall j | 0 <= j < |h| :: h[j].snapshot <= j)
    && (forall j | 0 <= j < k :: SerialAt(c, h, trace, j))
    && (forall j | 0 <= j <= k :: Inv(c, trace[j]))
  }

  lemma OverlayOfNoChange(now: Record, r: Record)
    ensures Overlay(now, r, NoChange) == now
  {
    assert Overlay(now, r, NoChange).pages == now.pages;
  }

  lemma PendingStep(c: Codec, h: seq<Txn>, trace: seq<Record>, k: nat, j: nat)
    requires Concurrent(c, h, trace) && k < |h| && SerialUpTo(c, h, trace, k) && h[k].plan != NoChange
    requires h[k].snapshot <= j < k && Undisturbed(trace[h[k].snapshot], trace[j], h[k].plan)
    ensures Undisturbed(trace[h[k].snapshot], trace[j + 1], h[k].plan)
  {
    var mine, theirs := h[k], h[j];
    var r, s := trace[mine.snapshot], trace[theirs.snapshot];
    assert Inv(c, r) && Inv(c, s);
    assert CommitAt(c, h, trace, k) && CommitAt(c, h, trace, j);
    assert SerialAt(c, h, trace, j);
    if theirs.plan != NoChange {
      OthersDoNotDisturb(c, r, mine.op, mine.plan, s, theirs.op, theirs.plan, trace[j]);
    }
  }

  lemma {:induction false} PendingUndisturbed(c: Codec, h: seq<Txn>, trace: seq<Record>, k: nat, m: nat)
    requires Concurrent(c, h, trace) && k < |h| && SerialUpTo(c, h, trace, k) && h[k].plan != NoChange
    requires h[k].snapshot <= m <= k
    ensures Undisturbed(trace[h[k].snapshot], trace[m], h[k].plan)
    decreases m
  {
    if m > h[k].snapshot {
      PendingUndisturbed(c, h, trace, k, m - 1);
      PendingStep(c, h, trace, k, m - 1);
    }
  }

  lemma NextIsSerial(c: Codec, h: seq<Txn>, trace: seq<Record>, k: nat)
    requires Concurrent(c, h, trace) && k < |h| && SerialUpTo(c, h, trace, k)
    ensures SerialAt(c, h, trace, k) && Inv(c, trace[k + 1])
  {
    var t := h[k];
    assert CommitAt(c, h, trace, k);
    if t.plan == NoChange {
      OverlayOfNoChange(trace[k], trace[t.snapshot]);
    } else {
      PendingUndisturbed(c, h, trace, k, k);
      CommitIsSerial(c, trace[t.snapshot], trace[k], t.op, t.plan);
      SameKey(c, h, trace, k);
      StepKeeps(c, trace[k], t.op);
    }
  }

  lemma {:induction false} SameKey(c: Codec, h: seq<Txn>, trace: seq<Record>, k: nat)
    requires Concurrent(c, h, trace) && k <= |h|
    ensures trace[k].partitionId == trace[0].partitionId && trace[k].clientId == trace[0].clientId
  {
    if k > 0 {
      SameKey(c, h, trace, k - 1);
      assert CommitAt(c, h, trace, k - 1);
    }
  }

  lemma {:induction false} AllSerial(c: Codec, h: seq<Txn>, trace: seq<Record>, k: nat)
    requires Concurrent(c, h, trace) && k <= |h|
    ensures SerialUpTo(c, h, trace, k)
  {
    if k > 0 {
      AllSerial(c, h, trace, k - 1);
      NextIsSerial(c, h, trace, k - 1);
    }
  }

  /** The operations that wrote something among the first `k` commits, in commit order. */
  ghost function Writers(h: seq<Txn>, k: nat): seq<Op>
    requires k <= |h|
  {
    if k == 0 then []
    else Writers(h, k - 1) + (if h[k - 1].plan == NoChange then [] else [h[k - 1].op])
  }

  lemma RunExtends(c: Codec, records: seq<Record>, ops: seq<Op>, op: Op, after: Record)
    requires Run(c, records, ops) && Addressed(records[0], op) && after == Step(c, records[|ops|], op)
    ensures Run(c, records + [after], ops + [op])
  {
    forall n | 0 <= n <= |ops| ensures StepAt(c, records + [after], ops + [op], n) {
      if n < |ops| { assert StepAt(c, records, ops, n); }
    }
  }

  /** The operation of a commit is answered as at its place in the serial order. */
  ghost predicate AnsweredInPlace(c: Codec, h: seq<Txn>, trace: seq<Record>, k: nat)
    requires k < |h| && |trace| == |h| + 1 && h[k].snapshot <= k
  {
    var place := if h[k].plan == NoChange then h[k].snapshot else k;
    && Decide(c, trace[place], h[k].op) == Ok(h[k].plan)
    && trace[k + 1] == (if h[k].plan == NoChange then trace[k] else Step(c, trace[k], h[k].op))
  }

  /** Executing these operations one at a time leads from `start` to `end`. */
  ghost predicate RunTo(c: Codec, records: seq<Record>, ops: seq<Op>, start: Record, end: Record) {
    Run(c, records, ops) && records[0] == start && records[|ops|] == end
  }

  ghost predicate SeriallyReached(c: Codec, ops: seq<Op>, start: Record, end: Record) {
    exists records :: RunTo(c, records, ops, start, end)
  }

  lemma SerialNext(c: Codec, records: seq<Record>, ops: seq<Op>, t: Txn, start: Record, now: Record, after: Record)
    returns (more: seq<Record>)
    requires RunTo(c, records, ops, start, now) && Addressed(start, t.op)
    requires after == if t.plan == NoChange then now else Step(c, now, t.op)
    ensures RunTo(c, more, ops + (if t.plan == NoChange then [] else [t.op]), start, after)
  {
    if t.plan == NoChange {
      assert ops + [] == ops;
      more := records;
    } else {
      RunExtends(c, records, ops, t.op, after);
      more := records + [after];
    }
  }

  ghost predicate SerialThroughout(c: Codec, h: seq<Txn>, trace: seq<Record>) {
    && |trace| == |h| + 1 && (forall j | 0 <= j < |h| :: h[j].snapshot <= j)
    && (forall j | 0 <= j < |h| :: SerialAt(c, h, trace, j))
  }

  lemma NothingReached(c: Codec, r: Record)
    requires CodecOk(c) && Inv(c, r)
    ensures SeriallyReached(c, [], r, r)
  {
    assert RunTo(c, [r], [], r, r);
  }

  lemma ReachedNext(c: Codec, h: seq<Txn>, trace: seq<Record>, k: nat, ops: seq<Op>, longer: seq<Op>)
    requires k < |h| && SerialThroughout(c, h, trace) && Addressed(trace[0], h[k].op)
    requires longer == ops + (if h[k].plan == NoChange then [] else [h[k].op])
    requires SeriallyReached(c, ops, trace[0], trace[k])
    ensures SeriallyReached(c, longer, trace[0], trace[k + 1])
  {
    assert SerialAt(c, h, trace, k);
    var records :| RunTo(c, records, ops, trace[0], trace[k]);
    var more := SerialNext(c, records, ops, h[k], trace[0], trace[k], trace[k + 1]);
  }

  lemma {:induction false} ReachedSerially(c: Codec, h: seq<Txn>, trace: seq<Record>, k: nat)
    requires CodecOk(c) && k <= |h| && SerialThroughout(c, h, trace) && Inv(c, trace[0])
    requires forall j | 0 <= j < |h| :: Addressed(trace[0], h[j].op)
    ensures SeriallyReached(c, Writers(h, k), trace[0], trace[k])
    decreases k
  {
    if k == 0 {
      NothingReached(c, trace[0]);
    } else {
      ReachedSerially(c, h, trace, k - 1);
      ReachedNext(c, h, trace, k - 1, Writers(h, k - 1), Writers(h, k));
    }
  }

  /**
   Serializability. Every database state of a concurrent history is reached by executing the
   writing operations one at a time in commit order, and each operation, writing or not, was
   answered exactly as it would be at its place in that order: a writer at its commit, an
   operation that changed nothing at its snapshot.
   */
  lemma EveryHistoryIsSerial(c: Codec, h: seq<Txn>, trace: seq<Record>)
    requires Concurrent(c, h, trace)
    ensures forall k | 0 <= k <= |h| :: SeriallyReached(c, Writers(h, k), trace[0], trace[k])
    ensures forall k | 0 <= k < |h| :: AnsweredInPlace(c, h, trace, k)
  {
    AllSerial(c, h, trace, |h|);
    forall k | 0 <= k <= |h| ensures SeriallyReached(c, Writers(h, k), trace[0], trace[k]) {
      ReachedSerially(c, h, trace, k);
    }
    forall k | 0 <= k < |h| ensures AnsweredInPlace(c, h, trace, k) {
      assert SerialAt(c, h, trace, k) && CommitAt(c, h, trace, k);
    }
  }

  /** So whatever holds of every serial run holds of every concurrent one; for instance the invariant. */
  lemma ConcurrentIsSound(c: Codec, h: seq<Txn>, trace: seq<Record>, k: nat)
    requires Concurrent(c, h, trace) && k <= |h|
    ensures Inv(c, trace[k]) && (trace[k].header.Some? ==> InspectStage(c, trace[k]).Ok?)
  {
    AllSerial(c, h, trace, k);
    InspectionSucceeds(c, trace[k]);
  }

  // ---------------------------------------------------------------- why the first begin touches the barrier row

  /**
   Let a first begin and a barrier write overlap from the same snapshot. Without the intent on the
   barrier row they share no row, both would commit, and the outcome is that of neither order.
   */
  lemma BarrierIntentIsNeeded(c: Codec, r: Record, begin: Op, h: Header, b: Barrier)
    requires CodecOk(c) && Inv(c, r) && r.fence.None?
    requires Decide(c, r, begin) == Ok(CreateStage(h))
    ensures var raise := BarrierOp(b);
            var plan := WriteBarrier(MergeBarrier(r.barrier, b));
            && Decide(c, r, raise) == Ok(plan)
            && (forall row | row != BarrierRow :: !(Writes(r, CreateStage(h), row) && Writes(r, plan, row)))
            && Writes(r, CreateStage(h), BarrierRow) && Writes(r, plan, BarrierRow)
            && var both := Effect(r, CreateStage(h)).(barrier := Effect(r, plan).barrier);
               && both != Step(c, Step(c, r, begin), raise)
               && both != Step(c, Step(c, r, raise), begin)
  {
    CreateFacts(c, r, begin, h);
    var raised := Step(c, r, BarrierOp(b));
    assert raised.barrier.Some? && raised.fence.None?;
    BeginRefusedUnderBarrier(c, raised, begin);
    var begun := Step(c, r, begin);
    var twice := Step(c, begun, BarrierOp(b));
    if Decide(c, begun, BarrierOp(b)).Ok? {
      assert begun.fence == Some(Fence(1, true));
      assert twice.fence == Some(Fence(2, true));
    } else {
      assert twice.barrier.None?;
    }
  }

  lemma BeginRefusedUnderBarrier(c: Codec, r: Record, op: Op)
    requires op.BeginOp? && r.barrier.Some?
    ensures Step(c, r, op) == r
  {
  }
}
