/**
 Histories of the durable stage: the inductive invariant, budgets, at-most-once installation,
 the authorization floor and stale handles, over every run of operations on one key.
 */
module BootstrapHistory {
  import opened Common
  import opened FenceText
  import opened ReadProtocol
  import opened BootstrapModel
  import opened BootstrapBudget

  // ---------------------------------------------------------------- the inductive invariant

  ghost function StageOf(c: Codec, r: Record): Stage
    requires r.header.Some? && c.manifest(r.header.value.manifest).Some?
  {
    Stage(r.header.value, c.manifest(r.header.value.manifest).value, r.pages)
  }

  /** Missing, or a structurally sound stage within its budget whose marker the journal has reached. */
  ghost predicate Inv(c: Codec, r: Record) {
    && (r.header.Some? <==> r.fence.Some?)
    && JournalFits(c.budget(r.state))
    && (r.header.None? ==> r.pages == map[])
    && (r.header.Some? ==>
          && StructurallySound(c, r)
          && 1 <= r.header.value.incarnation
          && HeaderBytes(r.header.value) <= MAX_SYNC_STATE_BYTES
          && (r.header.value.consumedRevision.Some? ==> r.header.value.consumedRevision.value <= r.state.revision)
          && StageFits(c, c.budget(r.state), StageOf(c, r)))
  }

  /** A record before its first begin. */
  ghost predicate Fresh(c: Codec, r: Record) {
    r.header.None? && r.fence.None? && r.pages == map[] && JournalFits(c.budget(r.state))
  }

  // ---------------------------------------------------------------- inspection never fails

  lemma HeaderKeysAreShort(h: Header)
    ensures HeaderKeyBytes(h) <= 40
  {
    U64HasAtMostTwentyDigits(h.incarnation);
    if h.consumedRevision.Some? { U64HasAtMostTwentyDigits(h.consumedRevision.value); }
  }

  lemma ActiveScalarsFit(c: Codec, r: Record)
    requires CodecOk(c) && Inv(c, r) && r.header.Some? && !r.header.value.cancelled
    ensures ScalarsFit(c, r)
  {
    HeaderKeysAreShort(r.header.value);
    forall i | i in r.pages
      ensures |r.pages[i]| <= MAX_SYNC_STATE_BYTES && c.rowKeyBytes(i) <= MAX_ROW_KEY_BYTES
      ensures Weigh(c, Scalars, i, r.pages[i]) <= Weigh(c, Reserved, i, r.pages[i])
    {
      assert PageSound(c, StageOf(c, r).manifest, i, r.pages[i]);
    }
    SumOfLighter(c, Scalars, Reserved, r.pages, Ceiling());
  }

  lemma ClosedScalarsFit(c: Codec, r: Record)
    requires Inv(c, r) && r.header.Some? && r.header.value.cancelled
    ensures ScalarsFit(c, r)
  {
    HeaderKeysAreShort(r.header.value);
    SumOfNone(c, Scalars);
    SumOfNone(c, Pages);
  }

  /** No state the protocol produced is reported corrupt or too large once a stage exists. */
  lemma InspectionSucceeds(c: Codec, r: Record)
    requires CodecOk(c) && Inv(c, r)
    ensures r.header.Some? ==> InspectStage(c, r) == Ok(Some(StageOf(c, r)))
    ensures r.header.None? ==>
              InspectStage(c, r) == if c.budget(r.state).items <= MAX_COMPONENT_ITEMS
                                    then Ok(None) else Err(StateTooLarge)
  {
    if r.header.Some? {
      if r.header.value.cancelled { ClosedScalarsFit(c, r); } else { ActiveScalarsFit(c, r); }
    } else {
      SumOfNone(c, Scalars);
      SumOfNone(c, Pages);
    }
  }

  // ---------------------------------------------------------------- what each plan was admitted on

  lemma GuardedState(c: Codec, r: Record, b: Budget)
    requires CodecOk(c) && Inv(c, r) && GuardState(c, r, b).Ok?
    ensures r.header.Some? ==> StageFits(c, b, StageOf(c, r)) && r.fence.value.counter < U64_MAX
  {
    InspectionSucceeds(c, r);
  }

  ghost predicate Creates(c: Codec, r: Record, op: Op, h: Header) {
    && op.BeginOp?
    && h == Header(false, h.incarnation, op.start, op.manifest, None, None)
    && c.manifest(op.manifest).Some?
    && ValidHeader(c, op.start, c.manifest(op.manifest).value, op.expected)
    && |op.start| + |op.manifest| <= MAX_SYNC_STATE_BYTES
    && FenceCounter(r) < U64_MAX && h.incarnation == FenceCounter(r) + 1
    && r.barrier.None?
    && (r.header.Some? ==>
          && r.header.value.cancelled && r.header.value.manifest != op.manifest
          && c.manifest(r.header.value.manifest).Some?
          && AdmitContext(c.manifest(r.header.value.manifest).value.context, op.expected, true))
    && (r.state.checkpoint.Some? ==>
          r.state.checkpoint.value.scope.authorizationRevision <= op.expected.scope.authorizationRevision)
    && StageFits(c, c.budget(r.state), Stage(h, c.manifest(op.manifest).value, map[]))
  }

  lemma CreateFacts(c: Codec, r: Record, op: Op, h: Header)
    requires CodecOk(c) && Inv(c, r) && Decide(c, r, op) == Ok(CreateStage(h))
    ensures Creates(c, r, op, h)
  {
    InspectionSucceeds(c, r);
  }

  ghost predicate Adds(c: Codec, r: Record, op: Op, index: U64, raw: Bytes) {
    && op.PageOp? && raw == op.raw
    && r.header.Some? && r.fence.Some? && r.fence.value.counter < U64_MAX
    && !r.header.value.cancelled && r.header.value.incarnation == op.incarnation
    && r.barrier.None? && index !in r.pages
    && c.manifest(r.header.value.manifest).Some?
    && StageFits(c, c.budget(r.state), StageOf(c, r).(pages := r.pages[index := raw]))
  }

  lemma AddFacts(c: Codec, r: Record, op: Op, index: U64, raw: Bytes)
    requires CodecOk(c) && Inv(c, r) && Decide(c, r, op) == Ok(AddPage(index, raw))
    ensures Adds(c, r, op, index, raw)
  {
    InspectionSucceeds(c, r);
  }

  ghost predicate Consumes(c: Codec, r: Record, op: Op, receipt: Bytes, next: ClientState) {
    && op.CompleteOp? && receipt == op.receipt && op.timely
    && r.header.Some? && r.fence.Some? && r.fence.value.counter < U64_MAX - 1
    && !r.header.value.cancelled && r.header.value.incarnation == op.incarnation
    && r.barrier.None?
    && c.manifest(r.header.value.manifest).Some?
    && ValidHeader(c, r.header.value.start, StageOf(c, r).manifest, op.expected)
    && c.receipt(receipt).Some? && ValidReceipt(c, StageOf(c, r).manifest, c.receipt(receipt).value)
    && next.revision == r.state.revision + 1
    && FinalFits(c, c.budget(r.state), c.budget(next), StageOf(c, r), receipt)
  }

  lemma ConsumeFacts(c: Codec, r: Record, op: Op, receipt: Bytes, next: ClientState)
    requires CodecOk(c) && Inv(c, r) && Decide(c, r, op) == Ok(Consume(receipt, next))
    ensures Consumes(c, r, op, receipt, next)
  {
    InspectionSucceeds(c, r);
    assert op.CompleteOp?;
    var s := StageOf(c, r);
    assert DecideInstall(c, r, s, op.receipt) == Ok(Consume(receipt, next));
  }

  ghost predicate Cancels(r: Record, op: Op) {
    && op.CancelOp?
    && r.header.Some? && r.fence.Some? && r.fence.value.counter < U64_MAX
    && r.header.value.incarnation == op.incarnation && r.header.value.manifest == op.manifest
    && r.header.value.consumedReceipt.None?
  }

  lemma CancelFacts(c: Codec, r: Record, op: Op)
    requires CodecOk(c) && Inv(c, r) && Decide(c, r, op) == Ok(CancelStage)
    ensures Cancels(r, op)
  {
    InspectionSucceeds(c, r);
  }

  // ---------------------------------------------------------------- every step keeps the invariant

  lemma CreateKeeps(c: Codec, r: Record, op: Op, h: Header)
    requires Inv(c, r) && Creates(c, r, op, h) && Addressed(r, op)
    ensures Inv(c, Effect(r, CreateStage(h)))
  {
    assert r.pages == map[];
  }

  lemma AddKeeps(c: Codec, r: Record, op: Op, index: U64, raw: Bytes)
    requires Inv(c, r) && Adds(c, r, op, index, raw)
    ensures Inv(c, Effect(r, AddPage(index, raw)))
  {
    var after := Effect(r, AddPage(index, raw));
    assert StageOf(c, after) == StageOf(c, r).(pages := r.pages[index := raw]);
  }

  lemma ConsumeKeeps(c: Codec, r: Record, op: Op, receipt: Bytes, next: ClientState)
    requires Inv(c, r) && Consumes(c, r, op, receipt, next)
    ensures Inv(c, Effect(r, Consume(receipt, next)))
  {
    FinalCoversClosedMarker(c, c.budget(r.state), c.budget(next), StageOf(c, r), receipt);
  }

  lemma CancelKeeps(c: Codec, r: Record, op: Op)
    requires Inv(c, r) && Cancels(r, op)
    ensures Inv(c, Effect(r, CancelStage))
  {
    if !r.header.value.cancelled { ActiveCoversClosedMarker(c, c.budget(r.state), StageOf(c, r)); }
  }

  /** A guarded write moves only the journal or the barrier and rotates an existing fence. */
  lemma GuardedKeeps(c: Codec, r: Record, next: ClientState, b: Option<Barrier>)
    requires Inv(c, r) && JournalFits(c.budget(next)) && r.state.revision <= next.revision
    requires r.header.Some? ==> StageFits(c, c.budget(next), StageOf(c, r)) && r.fence.value.counter < U64_MAX
    ensures r.fence.Some? ==>
              Inv(c, r.(state := next, barrier := b, fence := Advance(r.fence, 1, r.fence.value.active)))
    ensures r.fence.None? ==> Inv(c, r.(state := next, barrier := b))
  {
  }

  lemma WriteFacts(c: Codec, r: Record, op: Op, next: ClientState)
    requires CodecOk(c) && Inv(c, r) && Decide(c, r, op) == Ok(WriteState(next))
    ensures op.JournalOp? && next == op.next && r.state == op.current
    ensures next.revision == r.state.revision + 1 && JournalFits(c.budget(next))
    ensures r.header.Some? ==> StageFits(c, c.budget(next), StageOf(c, r)) && r.fence.value.counter < U64_MAX
  {
    assert op.JournalOp?;
    assert GuardState(c, r, c.budget(next)).Ok?;
    GuardedState(c, r, c.budget(next));
  }

  lemma BarrierFacts(c: Codec, r: Record, op: Op, b: Barrier)
    requires CodecOk(c) && Inv(c, r) && Decide(c, r, op) == Ok(WriteBarrier(b))
    ensures op.BarrierOp?
    ensures r.header.Some? ==> StageFits(c, c.budget(r.state), StageOf(c, r)) && r.fence.value.counter < U64_MAX
  {
    assert op.BarrierOp?;
    assert GuardState(c, r, c.budget(r.state)).Ok?;
    GuardedState(c, r, c.budget(r.state));
  }

  lemma StepKeeps(c: Codec, r: Record, op: Op)
    requires CodecOk(c) && Inv(c, r) && Addressed(r, op)
    ensures Inv(c, Step(c, r, op))
  {
    match Decide(c, r, op)
    case Err(_) =>
    case Ok(NoChange) =>
    case Ok(CreateStage(h)) => CreateFacts(c, r, op, h); CreateKeeps(c, r, op, h);
    case Ok(AddPage(i, raw)) => AddFacts(c, r, op, i, raw); AddKeeps(c, r, op, i, raw);
    case Ok(Consume(receipt, next)) =>
      ConsumeFacts(c, r, op, receipt, next);
      ConsumeKeeps(c, r, op, receipt, next);
    case Ok(CancelStage) => CancelFacts(c, r, op); CancelKeeps(c, r, op);
    case Ok(WriteState(next)) => WriteFacts(c, r, op, next); GuardedKeeps(c, r, next, r.barrier);
    case Ok(WriteBarrier(b)) => BarrierFacts(c, r, op, b); GuardedKeeps(c, r, r.state, Some(b));
  }

  // ---------------------------------------------------------------- what any later record looks like

  ghost function ContextOf(c: Codec, h: Header): Option<Context>
  {
    if c.manifest(h.manifest).Some? then Some(c.manifest(h.manifest).value.context) else None
  }

  ghost predicate SameOrNewerOwner(c: Codec, h: Header, g: Header) {
    && ContextOf(c, h).Some? && ContextOf(c, g).Some?
    && SameOwner(ContextOf(c, h).value, ContextOf(c, g).value)
    && ContextOf(c, h).value.scope.authorizationRevision <= ContextOf(c, g).value.scope.authorizationRevision
  }

  /** One incarnation keeps its bytes, and closing it is final: no marker appears or changes afterwards. */
  ghost predicate SameStage(h: Header, g: Header) {
    && g.incarnation == h.incarnation && g.start == h.start && g.manifest == h.manifest
    && (h.cancelled ==> g == h)
  }

  /** `a` is `r` or comes after it: fences rise with every change and owners never change. */
  ghost predicate Later(c: Codec, r: Record, a: Record) {
    && a.partitionId == r.partitionId && a.clientId == r.clientId
    && r.state.revision <= a.state.revision
    && FenceCounter(r) <= FenceCounter(a)
    && (r.fence.Some? && FenceCounter(a) == FenceCounter(r) ==> a == r)
    && (r.header.Some? ==>
          && a.header.Some?
          && SameOrNewerOwner(c, r.header.value, a.header.value)
          && (SameStage(r.header.value, a.header.value)
              || a.header.value.incarnation > FenceCounter(r)))
  }

  lemma LaterReflexive(c: Codec, r: Record)
    requires Inv(c, r)
    ensures Later(c, r, r)
  {
  }

  lemma LaterTransitive(c: Codec, r: Record, a: Record, b: Record)
    requires Inv(c, r) && Inv(c, a) && Inv(c, b) && Later(c, r, a) && Later(c, a, b)
    ensures Later(c, r, b)
  {
  }

  lemma CreateIsLater(c: Codec, r: Record, op: Op, h: Header)
    requires Inv(c, r) && Creates(c, r, op, h)
    ensures Later(c, r, Effect(r, CreateStage(h)))
  {
  }

  lemma CloseIsLater(c: Codec, r: Record, plan: Plan)
    requires Inv(c, r) && r.header.Some? && r.fence.value.counter < U64_MAX
    requires r.header.value.consumedReceipt.None?
    requires plan == CancelStage
             || (plan.Consume? && plan.next.revision == r.state.revision + 1 && !r.header.value.cancelled
                 && r.fence.value.counter < U64_MAX - 1)
    ensures Later(c, r, Effect(r, plan))
  {
  }

  lemma StepIsLater(c: Codec, r: Record, op: Op)
    requires CodecOk(c) && Inv(c, r) && Addressed(r, op)
    ensures Later(c, r, Step(c, r, op))
  {
    match Decide(c, r, op)
    case Err(_) =>
    case Ok(NoChange) =>
    case Ok(CreateStage(h)) => CreateFacts(c, r, op, h); CreateIsLater(c, r, op, h);
    case Ok(AddPage(i, raw)) => AddFacts(c, r, op, i, raw);
    case Ok(Consume(receipt, next)) =>
      ConsumeFacts(c, r, op, receipt, next);
      CloseIsLater(c, r, Consume(receipt, next));
    case Ok(CancelStage) => CancelFacts(c, r, op); CloseIsLater(c, r, CancelStage);
    case Ok(WriteState(next)) => WriteFacts(c, r, op, next);
    case Ok(WriteBarrier(b)) => BarrierFacts(c, r, op, b);
  }

  // ---------------------------------------------------------------- runs

  /** `trace[n]` is the record after the first `n` operations; a refused operation changes nothing. */
  ghost predicate Run(c: Codec, trace: seq<Record>, ops: seq<Op>) {
    && CodecOk(c) && |trace| == |ops| + 1 && Inv(c, trace[0])
    && (forall n | 0 <= n < |ops| :: Addressed(trace[0], ops[n]))
    && (forall n | 0 <= n < |ops| :: StepAt(c, trace, ops, n))
  }

  ghost predicate StepAt(c: Codec, trace: seq<Record>, ops: seq<Op>, n: nat)
    requires n < |ops| < |trace|
  {
    trace[n + 1] == Step(c, trace[n], ops[n])
  }

  lemma RunStep(c: Codec, trace: seq<Record>, ops: seq<Op>, n: nat)
    requires Run(c, trace, ops) && n < |ops| && Inv(c, trace[n])
    requires trace[n].partitionId == trace[0].partitionId && trace[n].clientId == trace[0].clientId
    ensures Inv(c, trace[n + 1]) && Later(c, trace[n], trace[n + 1])
  {
    assert StepAt(c, trace, ops, n);
    StepKeeps(c, trace[n], ops[n]);
    StepIsLater(c, trace[n], ops[n]);
  }

  lemma {:induction false} RunLater(c: Codec, trace: seq<Record>, ops: seq<Op>, i: nat, j: nat)
    requires Run(c, trace, ops) && i <= j <= |ops|
    ensures Inv(c, trace[i]) && Inv(c, trace[j])
    ensures Later(c, trace[i], trace[j])
    ensures trace[i].partitionId == trace[0].partitionId && trace[i].clientId == trace[0].clientId
    decreases j
  {
    if j == 0 {
      LaterReflexive(c, trace[0]);
    } else if i < j {
      RunLater(c, trace, ops, i, j - 1);
      RunLater(c, trace, ops, j - 1, j - 1);
      RunStep(c, trace, ops, j - 1);
      LaterTransitive(c, trace[i], trace[j - 1], trace[j]);
    } else {
      RunLater(c, trace, ops, i - 1, i - 1);
      RunStep(c, trace, ops, i - 1);
      LaterReflexive(c, trace[i]);
    }
  }

  /** From a record without a stage, every reachable record is well formed and inspects cleanly. */
  lemma ReachableIsSound(c: Codec, trace: seq<Record>, ops: seq<Op>, n: nat)
    requires Run(c, trace, ops) && Fresh(c, trace[0]) && n <= |ops|
    ensures Inv(c, trace[n])
    ensures InspectStage(c, trace[n]) != Err(CorruptState)
    ensures trace[n].header.Some? ==> InspectStage(c, trace[n]).Ok?
  {
    RunLater(c, trace, ops, n, n);
    InspectionSucceeds(c, trace[n]);
  }

  /**
   Every open stage a history reaches is within the combined reservation and every closed one
   within the budget of its marker, although cancelling checks no budget at all.
   */
  lemma BudgetsHoldEverywhere(c: Codec, trace: seq<Record>, ops: seq<Op>, n: nat)
    requires Run(c, trace, ops) && Fresh(c, trace[0]) && n <= |ops|
    requires trace[n].header.Some?
    ensures var now := trace[n];
            if now.header.value.cancelled then now.pages == map[] && InactiveFits(c.budget(now.state))
            else c.manifest(now.header.value.manifest).Some? && ActiveFits(c, c.budget(now.state), StageOf(c, now))
  {
    RunLater(c, trace, ops, n, n);
  }

  /** Two moments with the same fence are the same record: a fence value is never reused. */
  lemma FenceNamesRecord(c: Codec, trace: seq<Record>, ops: seq<Op>, i: nat, j: nat)
    requires Run(c, trace, ops) && i <= j <= |ops|
    requires trace[i].fence.Some?
    requires trace[i].fence == trace[j].fence
    ensures trace[i] == trace[j]
  {
    RunLater(c, trace, ops, i, j);
  }

  // ---------------------------------------------------------------- at most once, without ABA

  ghost predicate CreatedAt(c: Codec, trace: seq<Record>, ops: seq<Op>, n: nat, incarnation: U64) {
    && n < |ops| < |trace|
    && Decide(c, trace[n], ops[n]).Ok?
    && Decide(c, trace[n], ops[n]).value.CreateStage?
    && Decide(c, trace[n], ops[n]).value.created.incarnation == incarnation
  }

  ghost predicate AppliedAt(c: Codec, trace: seq<Record>, ops: seq<Op>, n: nat, incarnation: U64) {
    && n < |ops| < |trace| && ops[n].CompleteOp? && ops[n].incarnation == incarnation
    && Decide(c, trace[n], ops[n]).Ok?
    && Decide(c, trace[n], ops[n]).value.Consume?
  }

  lemma CreatedFacts(c: Codec, trace: seq<Record>, ops: seq<Op>, n: nat, incarnation: U64)
    requires Run(c, trace, ops) && CreatedAt(c, trace, ops, n, incarnation)
    ensures ops[n].BeginOp?
    ensures trace[n + 1].header.Some? && trace[n + 1].header.value.incarnation == incarnation
    ensures Creates(c, trace[n], ops[n], trace[n + 1].header.value)
    ensures incarnation == FenceCounter(trace[n]) + 1 == FenceCounter(trace[n + 1])
  {
    RunLater(c, trace, ops, n, n);
    assert StepAt(c, trace, ops, n);
    var before := trace[n];
    CreateFacts(c, before, ops[n], Decide(c, before, ops[n]).value.created);
  }

  lemma AppliedFacts(c: Codec, trace: seq<Record>, ops: seq<Op>, n: nat, incarnation: U64)
    requires Run(c, trace, ops) && AppliedAt(c, trace, ops, n, incarnation)
    ensures var before, after := trace[n], trace[n + 1];
            && Consumes(c, before, ops[n], ops[n].receipt, after.state)
            && before.header.Some? && after.header == Some(before.header.value.(
                 cancelled := true, consumedReceipt := Some(ops[n].receipt),
                 consumedRevision := Some(before.state.revision + 1)))
  {
    RunLater(c, trace, ops, n, n);
    assert StepAt(c, trace, ops, n);
    var before := trace[n];
    var plan := Decide(c, before, ops[n]).value;
    ConsumeFacts(c, before, ops[n], plan.receipt, plan.next);
  }

  /** Each creating begin gets an incarnation above every earlier one. */
  lemma IncarnationsRise(c: Codec, trace: seq<Record>, ops: seq<Op>, i: nat, a: U64, j: nat, b: U64)
    requires Run(c, trace, ops) && CreatedAt(c, trace, ops, i, a) && CreatedAt(c, trace, ops, j, b) && i < j
    ensures a < b
  {
    CreatedFacts(c, trace, ops, i, a);
    CreatedFacts(c, trace, ops, j, b);
    RunLater(c, trace, ops, i + 1, j);
  }

  /** An incarnation is installed at most once in any run. */
  lemma AppliedAtMostOnce(c: Codec, trace: seq<Record>, ops: seq<Op>, i: nat, a: U64, j: nat, b: U64)
    requires Run(c, trace, ops) && AppliedAt(c, trace, ops, i, a) && AppliedAt(c, trace, ops, j, b) && i < j
    ensures a < b
  {
    AppliedFacts(c, trace, ops, i, a);
    AppliedFacts(c, trace, ops, j, b);
    RunLater(c, trace, ops, i + 1, j);
  }

  /** How a record answers a completion addressed to its installed stage. */
  lemma ConsumedAnswer(c: Codec, r: Record, receipt: Bytes, expected: Context, incarnation: U64, timely: bool)
    requires CodecOk(c) && Inv(c, r) && |receipt| <= MAX_SYNC_STATE_BYTES
    requires r.header.Some? && r.header.value.incarnation == incarnation
    requires r.header.value.consumedReceipt.Some?
    requires ContextOf(c, r.header.value) == Some(expected)
    ensures var decision := DecideComplete(c, r, receipt, expected, incarnation, timely);
            if receipt == r.header.value.consumedReceipt.value then decision == Ok(NoChange) else decision.Err?
  {
    InspectionSucceeds(c, r);
  }

  lemma SupersededAnswer(c: Codec, r: Record, stale: Op, incarnation: U64)
    requires CodecOk(c) && Inv(c, r) && Carries(stale, incarnation)
    requires r.header.Some? && r.header.value.incarnation != incarnation
    ensures Decide(c, r, stale).Err?
  {
    InspectionSucceeds(c, r);
  }

  /** While an installed stage is the newest, its exact receipt is a historical success, any other an error. */
  lemma RetryIsHistorical(c: Codec, trace: seq<Record>, ops: seq<Op>, i: nat, j: nat, receipt: Bytes, timely: bool)
    requires Run(c, trace, ops) && i < j <= |ops| && ops[i].CompleteOp? && AppliedAt(c, trace, ops, i, ops[i].incarnation)
    requires |receipt| <= MAX_SYNC_STATE_BYTES
    ensures var now := trace[j];
            var decision := Decide(c, now, CompleteOp(receipt, ops[i].expected, ops[i].incarnation, timely));
            && now.header.Some? && now.header.value.incarnation >= ops[i].incarnation
            && (decision == Ok(NoChange)
                <==> now.header.value.incarnation == ops[i].incarnation && receipt == ops[i].receipt)
            && (decision != Ok(NoChange) ==> decision.Err?)
  {
    AppliedFacts(c, trace, ops, i, ops[i].incarnation);
    RunLater(c, trace, ops, i + 1, j);
    var now := trace[j];
    if now.header.value.incarnation == ops[i].incarnation {
      ConsumedAnswer(c, now, receipt, ops[i].expected, ops[i].incarnation, timely);
    } else {
      SupersededAnswer(c, now, CompleteOp(receipt, ops[i].expected, ops[i].incarnation, timely), ops[i].incarnation);
    }
  }

  /** A closed stage is never installed afterwards. */
  lemma ClosedNeverInstalls(c: Codec, trace: seq<Record>, ops: seq<Op>, i: nat, j: nat, incarnation: U64)
    requires Run(c, trace, ops) && i <= j && AppliedAt(c, trace, ops, j, incarnation)
    requires trace[i].header.Some? && trace[i].header.value.incarnation == incarnation
    ensures !trace[i].header.value.cancelled
  {
    AppliedFacts(c, trace, ops, j, incarnation);
    RunLater(c, trace, ops, i, j);
  }

  ghost predicate Carries(op: Op, incarnation: U64) {
    match op
    case PageOp(_, _, i) => i == incarnation
    case CompleteOp(_, _, i, _) => i == incarnation
    case CancelOp(_, _, i) => i == incarnation
    case _ => false
  }

  /** Once a successor exists, a handle of an older stage is refused for ever, whatever bytes it carries. */
  lemma StaleHandleIsRefused(c: Codec, trace: seq<Record>, ops: seq<Op>, i: nat, b: U64, j: nat, stale: Op, a: U64)
    requires Run(c, trace, ops) && CreatedAt(c, trace, ops, i, b) && i < j <= |ops|
    requires Carries(stale, a) && a < b
    ensures Decide(c, trace[j], stale).Err?
    ensures Step(c, trace[j], stale) == trace[j]
  {
    CreatedFacts(c, trace, ops, i, b);
    RunLater(c, trace, ops, i + 1, j);
    SupersededAnswer(c, trace[j], stale, a);
  }

  // ---------------------------------------------------------------- durable authorization floor

  /** Owners are fixed and authorization never falls; both change only when a closed stage is replaced. */
  lemma AuthorizationFloor(c: Codec, trace: seq<Record>, ops: seq<Op>, i: nat, j: nat)
    requires Run(c, trace, ops) && i <= j <= |ops|
    requires trace[i].header.Some?
    ensures trace[j].header.Some?
    ensures SameOrNewerOwner(c, trace[i].header.value, trace[j].header.value)
    ensures ContextOf(c, trace[i].header.value) != ContextOf(c, trace[j].header.value) ==>
              exists k, b :: i <= k < j && CreatedAt(c, trace, ops, k, b)
                             && trace[k].header.Some? && trace[k].header.value.cancelled
  {
    RunLater(c, trace, ops, i, j);
    if ContextOf(c, trace[i].header.value) != ContextOf(c, trace[j].header.value) {
      ContextChangeIsCreation(c, trace, ops, i, j);
    }
  }

  lemma {:induction false} ContextChangeIsCreation(c: Codec, trace: seq<Record>, ops: seq<Op>, i: nat, j: nat)
    requires Run(c, trace, ops) && i <= j <= |ops|
    requires trace[i].header.Some? && trace[j].header.Some?
    requires ContextOf(c, trace[i].header.value) != ContextOf(c, trace[j].header.value)
    ensures exists k, b :: i <= k < j && CreatedAt(c, trace, ops, k, b)
                           && trace[k].header.Some? && trace[k].header.value.cancelled
    decreases j
  {
    RunLater(c, trace, ops, i, j - 1);
    var before := trace[j - 1];
    if ContextOf(c, before.header.value) == ContextOf(c, trace[j].header.value) {
      ContextChangeIsCreation(c, trace, ops, i, j - 1);
    } else {
      HeaderChangeIsCreation(c, trace, ops, j - 1);
    }
  }

  lemma HeaderChangeIsCreation(c: Codec, trace: seq<Record>, ops: seq<Op>, n: nat)
    requires Run(c, trace, ops) && n < |ops| && trace[n].header.Some?
    requires trace[n + 1].header.Some?
    requires trace[n].header.value.manifest != trace[n + 1].header.value.manifest
    ensures trace[n].header.value.cancelled
    ensures CreatedAt(c, trace, ops, n, trace[n + 1].header.value.incarnation)
  {
    RunLater(c, trace, ops, n, n);
    assert StepAt(c, trace, ops, n);
    var before := trace[n];
    assert Decide(c, before, ops[n]).Ok?;
    assert Decide(c, before, ops[n]).value.CreateStage?;
    CreateFacts(c, before, ops[n], Decide(c, before, ops[n]).value.created);
  }

  /** A stage is never created below the authorization its journal has already reached. */
  lemma CreatedAboveCheckpoint(c: Codec, trace: seq<Record>, ops: seq<Op>, n: nat, incarnation: U64)
    requires Run(c, trace, ops) && CreatedAt(c, trace, ops, n, incarnation)
    requires trace[n].state.checkpoint.Some?
    ensures trace[n + 1].header.Some?
    ensures var created := ContextOf(c, trace[n + 1].header.value);
            created.Some? && trace[n].state.checkpoint.value.scope.authorizationRevision
                             <= created.value.scope.authorizationRevision
  {
    CreatedFacts(c, trace, ops, n, incarnation);
  }

  // ---------------------------------------------------------------- resuming

  /**
   On a state the protocol produced, a session that names a stage finds it exactly when it names
   the newest one, and then sees its pages; the only refusal of a well-formed request is a conflict.
   */
  lemma ResumeFindsNewestStage(c: Codec, r: Record, manifest: Bytes, incarnation: Option<U64>)
    requires CodecOk(c) && Inv(c, r) && r.header.Some?
    requires |manifest| <= MAX_SYNC_STATE_BYTES && c.manifest(manifest).Some?
    ensures var h := r.header.value;
            var answer := Resume(c, r, true, Some(manifest), c.manifest(manifest).value.context, incarnation);
            if manifest == h.manifest && (incarnation.None? || incarnation.value == h.incarnation)
            then answer == Ok(Some(Inventory(
                   h.incarnation,
                   if h.consumedRevision.Some? then Consumed(h.consumedRevision.value)
                   else if h.cancelled then Cancelled else Staging,
                   r.pages.Keys, StageOf(c, r).manifest.pageCount)))
            else answer == Err(RevisionConflict)
  {
    InspectionSucceeds(c, r);
  }

  /** A trusted caller without a manifest is admitted exactly as a new begin would be. */
  lemma ResumeAdmitsNewerAuthorization(c: Codec, r: Record, expected: Context)
    requires CodecOk(c) && Inv(c, r) && r.header.Some?
    ensures Resume(c, r, true, None, expected, None).Ok?
            <==> AdmitContext(StageOf(c, r).manifest.context, expected, r.header.value.cancelled)
    ensures Resume(c, r, true, None, expected, None).Err? ==> Resume(c, r, true, None, expected, None).error == RevisionConflict
  {
    InspectionSucceeds(c, r);
  }

  /** Before its first begin a journal of any admissible size has no stage; only defined tables make size matter. */
  lemma ResumeFindsNothing(c: Codec, r: Record, tables: bool, expected: Context)
    requires CodecOk(c) && Fresh(c, r)
    ensures Resume(c, r, tables, None, expected, None)
         == if tables && c.budget(r.state).items > MAX_COMPONENT_ITEMS then Err(StateTooLarge) else Ok(None)
  {
    if tables { InspectionSucceeds(c, r); }
  }
}
