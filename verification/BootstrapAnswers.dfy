/**
 What each operation answers and writes on any record the protocol produces, said field by field
 and in both directions: exactly when it is admitted, and exactly what is stored then.
 */
module BootstrapAnswers {
  import opened Common
  import opened FenceText
  import Ordering
  import opened ReadProtocol
  import opened BootstrapModel
  import opened BootstrapBudget
  import opened BootstrapHistory

  // ---------------------------------------------------------------- completion

  /** `downloaded` are the stored pages, decoded. */
  ghost predicate IsDownload(c: Codec, pages: map<U64, Bytes>, downloaded: map<U64, Page>) {
    && (forall i :: i in downloaded <==> i in pages)
    && (forall i | i in pages :: c.page(pages[i]) == Some(downloaded[i]))
  }

  /** The receipt closes this download: same session, digest, feed cursor, scope and expiry. */
  ghost predicate Closes(c: Codec, m: Manifest, rc: Receipt) {
    && rc.sessionId == m.sessionId && rc.manifestDigest == c.digest(m)
    && rc.checkpoint.cursor == m.cursor && rc.checkpoint.scope == m.context.scope
    && rc.expiresAt == m.expiresAt
  }

  /** An open, timely, unbarred stage whose whole download verifies and whose installation fits. */
  ghost predicate Installable(
    c: Codec, r: Record, receipt: Bytes, expected: Context, incarnation: U64, timely: bool,
    downloaded: map<U64, Page>, next: ClientState)
  {
    && r.header.Some? && !r.header.value.cancelled && r.header.value.incarnation == incarnation
    && c.manifest(r.header.value.manifest).Some? && r.barrier.None? && timely
    && |receipt| <= 4194304 && c.receipt(receipt).Some?
    && var m, rc := c.manifest(r.header.value.manifest).value, c.receipt(receipt).value;
       && m.context == expected && Closes(c, m, rc)
       && c.verifies(m, downloaded)
       && c.install(r.state, rc, downloaded) == Some(next)
       && next.revision == r.state.revision + 1 && c.valid(next)
       && (r.state.subscriptions.Some? ==> next.subscriptions.Some?)
       && FinalFits(c, c.budget(r.state), c.budget(next), StageOf(c, r), receipt)
       && ActiveFits(c, c.budget(next), StageOf(c, r))
       && FenceCounter(r) + 2 <= U64_MAX
  }

  /** In every state the protocol reaches, the stored pages are such a download. */
  lemma DownloadExists(c: Codec, r: Record)
    requires Inv(c, r)
    ensures exists downloaded: map<U64, Page> :: IsDownload(c, r.pages, downloaded)
  {
    assert forall i | i in r.pages :: c.page(r.pages[i]).Some?;
    assert IsDownload(c, r.pages, DecodedPages(c, r.pages));
  }

  lemma DownloadIsDecoded(c: Codec, pages: map<U64, Bytes>, downloaded: map<U64, Page>)
    requires IsDownload(c, pages, downloaded)
    ensures (forall i | i in pages :: c.page(pages[i]).Some?) && DecodedPages(c, pages) == downloaded
  {
  }

  lemma InstallDecision(
    c: Codec, r: Record, receipt: Bytes, downloaded: map<U64, Page>, next: ClientState)
    requires Inv(c, r) && r.header.Some? && !r.header.value.cancelled && c.receipt(receipt).Some?
    requires IsDownload(c, r.pages, downloaded)
    ensures var rc := c.receipt(receipt).value;
            DecideInstall(c, r, StageOf(c, r), receipt) == Ok(Consume(receipt, next))
            <==> && c.verifies(StageOf(c, r).manifest, downloaded)
                 && c.install(r.state, rc, downloaded) == Some(next)
                 && next.revision == r.state.revision + 1 && c.valid(next)
                 && (r.state.subscriptions.Some? ==> next.subscriptions.Some?)
                 && FinalFits(c, c.budget(r.state), c.budget(next), StageOf(c, r), receipt)
                 && ActiveFits(c, c.budget(next), StageOf(c, r))
                 && FenceCounter(r) + 2 <= U64_MAX
  {
    DownloadIsDecoded(c, r.pages, downloaded);
  }

  /** A completion installs `next` if and only if the whole staged download yields it and everything fits. */
  lemma InstallAnswer(
    c: Codec, r: Record, receipt: Bytes, expected: Context, incarnation: U64, timely: bool,
    downloaded: map<U64, Page>, next: ClientState)
    requires CodecOk(c) && Inv(c, r) && IsDownload(c, r.pages, downloaded)
    ensures DecideComplete(c, r, receipt, expected, incarnation, timely) == Ok(Consume(receipt, next))
            <==> Installable(c, r, receipt, expected, incarnation, timely, downloaded, next)
  {
    InspectionSucceeds(c, r);
    if r.header.Some? && !r.header.value.cancelled && c.receipt(receipt).Some? {
      InstallDecision(c, r, receipt, downloaded, next);
    }
  }

  /** What an installation stores: the new journal, no pages, a closed header with its marker, two rotations. */
  lemma InstallStores(c: Codec, r: Record, op: Op, next: ClientState)
    requires CodecOk(c) && Inv(c, r) && op.CompleteOp? && Decide(c, r, op) == Ok(Consume(op.receipt, next))
    ensures r.header.Some? && r.fence.Some? && r.fence.value.counter + 2 <= U64_MAX
    ensures Step(c, r, op)
         == Record(r.partitionId, r.clientId, next, Some(Fence(r.fence.value.counter + 2, false)),
                   Some(Header(true, r.header.value.incarnation, r.header.value.start, r.header.value.manifest,
                               Some(op.receipt), Some(next.revision))),
                   map[], r.barrier)
  {
    ConsumeFacts(c, r, op, op.receipt, next);
  }

  /**
   In every run an installation installs exactly the pages that were staged: they verify against
   the manifest, and the journal after it is what installing all of them over the journal before
   it gives.
   */
  lemma AppliedInstallsDownload(
    c: Codec, trace: seq<Record>, ops: seq<Op>, n: nat, incarnation: U64, downloaded: map<U64, Page>)
    requires Run(c, trace, ops) && AppliedAt(c, trace, ops, n, incarnation)
    requires IsDownload(c, trace[n].pages, downloaded)
    ensures Installable(c, trace[n], ops[n].receipt, ops[n].expected, incarnation, true, downloaded, trace[n + 1].state)
    ensures trace[n + 1].pages == map[] && trace[n + 1].header.Some? && trace[n + 1].header.value.cancelled
    ensures trace[n].fence.Some? && trace[n].fence.value.counter + 2 <= U64_MAX
    ensures trace[n + 1].fence == Some(Fence(trace[n].fence.value.counter + 2, false))
  {
    RunLater(c, trace, ops, n, n);
    assert StepAt(c, trace, ops, n);
    var next := Decide(c, trace[n], ops[n]).value.next;
    ConsumeFacts(c, trace[n], ops[n], Decide(c, trace[n], ops[n]).value.receipt, next);
    InstallStores(c, trace[n], ops[n], next);
    InstallAnswer(c, trace[n], ops[n].receipt, ops[n].expected, incarnation, true, downloaded, next);
  }

  /** A completion changes nothing and succeeds if and only if this exact receipt was installed before. */
  lemma HistoricalAnswer(c: Codec, r: Record, receipt: Bytes, expected: Context, incarnation: U64, timely: bool)
    requires CodecOk(c) && Inv(c, r)
    ensures DecideComplete(c, r, receipt, expected, incarnation, timely) == Ok(NoChange)
            <==> && |receipt| <= 4194304 && r.header.Some? && r.header.value.incarnation == incarnation
                 && r.header.value.consumedReceipt == Some(receipt)
                 && ContextOf(c, r.header.value) == Some(expected)
  {
    InspectionSucceeds(c, r);
  }

  // ---------------------------------------------------------------- cancel

  /** The handle names this stage: incarnation, manifest bytes and context. */
  ghost predicate OwnStage(c: Codec, r: Record, manifest: Bytes, expected: Context, incarnation: U64) {
    && r.header.Some? && r.header.value.incarnation == incarnation && r.header.value.manifest == manifest
    && ContextOf(c, r.header.value) == Some(expected)
  }

  lemma CancelAnswer(c: Codec, r: Record, manifest: Bytes, expected: Context, incarnation: U64)
    requires CodecOk(c) && Inv(c, r)
    ensures DecideCancel(c, r, manifest, expected, incarnation) == Ok(CancelStage)
            <==> OwnStage(c, r, manifest, expected, incarnation) && r.header.value.consumedReceipt.None?
                 && FenceCounter(r) < U64_MAX
    ensures DecideCancel(c, r, manifest, expected, incarnation) == Ok(NoChange)
            <==> r.header.None?
                 || (OwnStage(c, r, manifest, expected, incarnation) && r.header.value.consumedReceipt.Some?)
  {
    InspectionSucceeds(c, r);
  }

  /** A cancel closes the stage, drops its pages and rotates the fence; journal and barrier stay. */
  lemma CancelStores(c: Codec, r: Record, op: Op)
    requires CodecOk(c) && Inv(c, r) && Decide(c, r, op) == Ok(CancelStage)
    ensures r.header.Some? && r.fence.Some? && r.fence.value.counter < U64_MAX
    ensures Step(c, r, op)
         == Record(r.partitionId, r.clientId, r.state, Some(Fence(r.fence.value.counter + 1, false)),
                   Some(Header(true, r.header.value.incarnation, r.header.value.start, r.header.value.manifest,
                               None, None)),
                   map[], r.barrier)
  {
    CancelFacts(c, r, op);
  }

  // ---------------------------------------------------------------- begin

  /** What every begin needs: a sound request for this journal, at no lower authorization, and no barrier. */
  ghost predicate BeginRequest(c: Codec, r: Record, start: Bytes, manifest: Bytes, expected: Context) {
    && c.manifest(manifest).Some? && c.startMatches(start, c.manifest(manifest).value)
    && c.manifest(manifest).value.context == expected
    && |start| + |manifest| <= 4194304
    && r.barrier.None?
    && r.state.requestedScope == expected.scope.identity
    && r.state.subscriptionRevision == expected.scope.subscriptionRevision
    && (r.state.checkpoint.Some? ==>
          r.state.checkpoint.value.scope.authorizationRevision <= expected.scope.authorizationRevision)
  }

  /** The same owner as before, field by field, at no lower authorization. */
  predicate Succeeds(before: Context, now: Context) {
    && now.authorityId == before.authorityId && now.principalId == before.principalId
    && now.partitionId == before.partitionId && now.clientId == before.clientId
    && now.journalGeneration == before.journalGeneration
    && now.scope.identity == before.scope.identity
    && now.scope.subscriptionRevision == before.scope.subscriptionRevision
    && before.scope.authorizationRevision <= now.scope.authorizationRevision
  }

  /** Twice the journal, 12 MiB, the header and one key fit in 64 MiB, and twice its components in 16,384. */
  predicate RoomForStage(c: Codec, b: Budget, start: Bytes, manifest: Bytes) {
    && 2 * b.bytes + 12582912 + |start| + |manifest| + c.keyBytes(U64_MAX) <= 67108864
    && 2 * b.items + 4 <= 16384
  }

  lemma EmptyStageFits(c: Codec, b: Budget, h: Header, m: Manifest)
    requires !h.cancelled
    ensures StageFits(c, b, Stage(h, m, map[])) <==> RoomForStage(c, b, h.start, h.manifest)
  {
    SumOfNone(c, Reserved);
    SumOfNone(c, Records);
    SumOfNone(c, Pages);
  }

  lemma CreateDecision(c: Codec, r: Record, start: Bytes, manifest: Bytes, m: Manifest)
    ensures DecideCreate(c, r, start, manifest, m)
         == if FenceCounter(r) == U64_MAX || !RoomForStage(c, c.budget(r.state), start, manifest) then Err(StateTooLarge)
            else Ok(CreateStage(Header(false, FenceCounter(r) + 1, start, manifest, None, None)))
  {
    if FenceCounter(r) < U64_MAX {
      var h := Header(false, FenceCounter(r) + 1, start, manifest, None, None);
      EmptyStageFits(c, c.budget(r.state), h, m);
      assert PagesSound(c, m, map[]);
    }
  }

  /** A begin creates a stage if and only if there is none or a closed one it may succeed, and there is room. */
  lemma CreateAnswer(c: Codec, r: Record, start: Bytes, manifest: Bytes, expected: Context)
    requires CodecOk(c) && Inv(c, r)
    ensures var decision := DecideBegin(c, r, start, manifest, expected);
            (decision.Ok? && decision.value.CreateStage?)
            <==> && BeginRequest(c, r, start, manifest, expected)
                 && (r.header.Some? ==>
                       && r.header.value.cancelled && r.header.value.manifest != manifest
                       && ContextOf(c, r.header.value).Some?
                       && Succeeds(ContextOf(c, r.header.value).value, expected))
                 && FenceCounter(r) < U64_MAX && RoomForStage(c, c.budget(r.state), start, manifest)
  {
    InspectionSucceeds(c, r);
    if c.manifest(manifest).Some? { CreateDecision(c, r, start, manifest, c.manifest(manifest).value); }
  }

  lemma CreateStores(c: Codec, r: Record, op: Op, h: Header)
    requires CodecOk(c) && Inv(c, r) && op.BeginOp? && Decide(c, r, op) == Ok(CreateStage(h))
    ensures FenceCounter(r) < U64_MAX
    ensures Step(c, r, op)
         == Record(r.partitionId, r.clientId, r.state, Some(Fence(FenceCounter(r) + 1, true)),
                   Some(Header(false, FenceCounter(r) + 1, op.start, op.manifest, None, None)), map[], r.barrier)
  {
    CreateFacts(c, r, op, h);
  }

  /** A begin succeeds without change if and only if it repeats the open stage byte for byte. */
  lemma BeginRetryAnswer(c: Codec, r: Record, start: Bytes, manifest: Bytes, expected: Context)
    requires CodecOk(c) && Inv(c, r)
    ensures DecideBegin(c, r, start, manifest, expected) == Ok(NoChange)
            <==> && BeginRequest(c, r, start, manifest, expected)
                 && r.header.Some? && !r.header.value.cancelled
                 && r.header.value.start == start && r.header.value.manifest == manifest
  {
    InspectionSucceeds(c, r);
    if c.manifest(manifest).Some? { CreateDecision(c, r, start, manifest, c.manifest(manifest).value); }
  }

  // ---------------------------------------------------------------- pages

  /** The page belongs to this open stage: handle, context, session, digest and index. */
  ghost predicate OwnPage(c: Codec, r: Record, raw: Bytes, expected: Context, incarnation: U64) {
    && r.header.Some? && !r.header.value.cancelled && r.header.value.incarnation == incarnation && r.barrier.None?
    && ContextOf(c, r.header.value) == Some(expected)
    && c.page(raw).Some? && c.reservation(c.page(raw).value).Some?
    && var m, p := c.manifest(r.header.value.manifest).value, c.page(raw).value;
       p.sessionId == m.sessionId && p.manifestDigest == c.digest(m) && p.index < m.pageCount
  }

  /** A page is stored if and only if it is this stage's, new, within the reservation, and the fence can rotate. */
  lemma PageAnswer(c: Codec, r: Record, raw: Bytes, expected: Context, incarnation: U64)
    requires CodecOk(c) && Inv(c, r)
    ensures var decision := DecidePage(c, r, raw, expected, incarnation);
            && (decision.Ok? ==> OwnPage(c, r, raw, expected, incarnation))
            && (OwnPage(c, r, raw, expected, incarnation) ==>
                  var i := c.page(raw).value.index;
                  && (decision == Ok(NoChange) <==> i in r.pages && r.pages[i] == raw)
                  && (decision == Ok(AddPage(i, raw))
                      <==> && i !in r.pages && FenceCounter(r) < U64_MAX
                           && ActiveFits(c, c.budget(r.state), StageOf(c, r).(pages := r.pages[i := raw]))))
  {
    InspectionSucceeds(c, r);
  }

  lemma PageStores(c: Codec, r: Record, op: Op, i: U64, raw: Bytes)
    requires CodecOk(c) && Inv(c, r) && Decide(c, r, op) == Ok(AddPage(i, raw))
    ensures r.fence.Some? && r.fence.value.counter < U64_MAX
    ensures Step(c, r, op)
         == Record(r.partitionId, r.clientId, r.state, Some(Fence(r.fence.value.counter + 1, true)),
                   r.header, r.pages[i := raw], r.barrier)
  {
    AddFacts(c, r, op, i, raw);
  }

  // ---------------------------------------------------------------- journal and barrier writes

  /** An ordinary write goes through if and only if it is the next valid revision of the stored journal and fits. */
  lemma JournalAnswer(c: Codec, r: Record, current: ClientState, next: ClientState)
    requires CodecOk(c) && Inv(c, r)
    ensures DecideJournal(c, r, current, next) == Ok(WriteState(next))
            <==> && r.state == current && current != next && next.revision == current.revision + 1
                 && current.partitionId == next.partitionId && current.clientId == next.clientId
                 && c.valid(current) && c.valid(next)
                 && c.budget(next).bytes <= 67108864 && c.budget(next).items <= 16385
                 && (current.subscriptions.Some? ==> next.subscriptions.Some?)
                 && (r.header.Some? ==> StageFits(c, c.budget(next), StageOf(c, r)) && FenceCounter(r) < U64_MAX)
    ensures DecideJournal(c, r, current, next) == Ok(NoChange)
            <==> current == next && r.state == current && c.valid(current)
  {
    InspectionSucceeds(c, r);
  }

  lemma JournalStores(c: Codec, r: Record, op: Op, next: ClientState)
    requires CodecOk(c) && Inv(c, r) && Decide(c, r, op) == Ok(WriteState(next))
    ensures r.fence.Some? ==> r.fence.value.counter < U64_MAX
    ensures Step(c, r, op)
         == r.(state := next,
               fence := if r.fence.None? then None
                        else Some(Fence(r.fence.value.counter + 1, r.fence.value.active)))
  {
    WriteFacts(c, r, op, next);
  }

  /** A barrier write is refused only for want of fence counters, and never weakens a quarantine. */
  lemma BarrierAnswer(c: Codec, r: Record, b: Barrier)
    requires CodecOk(c) && Inv(c, r)
    ensures DecideBarrier(c, r, b).Ok? <==> r.fence.None? || r.fence.value.counter < U64_MAX
    ensures DecideBarrier(c, r, b).Ok? ==>
              var after := Step(c, r, BarrierOp(b));
              && after == r.(barrier := after.barrier,
                             fence := if r.fence.None? then None
                                      else Some(Fence(r.fence.value.counter + 1, r.fence.value.active)))
              && after.barrier.Some?
              && after.barrier.value.requiredScope == b.requiredScope
              && after.barrier.value.requiredSubscription == b.requiredSubscription
              && after.barrier.value.requiredAuthorization == b.requiredAuthorization
              && (after.barrier.value.quarantine
                  <==> b.quarantine || (r.barrier.Some? && r.barrier.value.quarantine))
  {
    InspectionSucceeds(c, r);
  }

  ghost predicate Quarantined(r: Record) { r.barrier.Some? && r.barrier.value.quarantine }

  lemma BarrierStays(c: Codec, r: Record, op: Op)
    ensures r.barrier.Some? ==> Step(c, r, op).barrier.Some?
    ensures Quarantined(r) ==> Quarantined(Step(c, r, op))
  {
  }

  /** A barrier once raised is never removed, and a quarantine never lifted, in any run. */
  lemma {:induction false} QuarantineSurvives(c: Codec, trace: seq<Record>, ops: seq<Op>, i: nat, j: nat)
    requires Run(c, trace, ops) && i <= j <= |ops|
    ensures trace[i].barrier.Some? ==> trace[j].barrier.Some?
    ensures Quarantined(trace[i]) ==> Quarantined(trace[j])
    decreases j
  {
    if i < j {
      QuarantineSurvives(c, trace, ops, i, j - 1);
      assert StepAt(c, trace, ops, j - 1);
      BarrierStays(c, trace[j - 1], ops[j - 1]);
    }
  }

  // ---------------------------------------------------------------- inspection

  /** Every stored row is within its cap, and together with the journal they are within 64 MiB and 16,384 rows. */
  ghost predicate RowsWithin(c: Codec, r: Record) {
    var headerBytes := if r.header.None? then 0
                       else |r.header.value.start| + |r.header.value.manifest|
                            + (if r.header.value.consumedReceipt.Some? then |r.header.value.consumedReceipt.value| else 0);
    var keyBytes := if r.header.None? then 0
                    else |Decimal(r.header.value.incarnation)|
                         + (if r.header.value.consumedRevision.Some?
                            then |Decimal(r.header.value.consumedRevision.value)| else 0);
    && headerBytes <= 4194304 && keyBytes <= 6272
    && (forall i | i in r.pages :: |r.pages[i]| <= 4194304 && c.rowKeyBytes(i) <= 6272)
    && headerBytes + keyBytes + Sum(c, Scalars, r.pages) + c.budget(r.state).bytes <= 67108864
    && |r.pages| + (if r.header.Some? then 1 else 0) + c.budget(r.state).items <= 16384
  }

  /** The stored stage tells one consistent story. */
  ghost predicate Consistent(c: Codec, r: Record)
    requires r.header.Some?
  {
    var h := r.header.value;
    && (h.consumedReceipt.Some? <==> h.consumedRevision.Some?)
    && (h.consumedRevision.Some? ==> h.consumedRevision.value > 0 && h.cancelled)
    && r.fence.Some? && (h.cancelled <==> !r.fence.value.active) && h.incarnation <= r.fence.value.counter
    && c.manifest(h.manifest).Some?
    && var m := c.manifest(h.manifest).value;
       && c.startMatches(h.start, m)
       && m.context.partitionId == r.partitionId && m.context.clientId == r.clientId
       && (h.consumedReceipt.Some? ==>
             c.receipt(h.consumedReceipt.value).Some? && Closes(c, m, c.receipt(h.consumedReceipt.value).value))
       && (h.cancelled ==> r.pages == map[])
  }

  /**
   Inspection of any stored rows, sound or not: too large exactly when a cap is exceeded; otherwise
   corrupt exactly when there are pages without a header or the stage contradicts itself.
   */
  lemma InspectionAnswer(c: Codec, r: Record)
    ensures InspectStage(c, r) == Err(StateTooLarge) <==> !RowsWithin(c, r)
    ensures InspectStage(c, r) == Err(CorruptState)
            <==> RowsWithin(c, r) && (if r.header.None? then r.pages != map[] else !Consistent(c, r))
    ensures InspectStage(c, r) == Ok(None) <==> RowsWithin(c, r) && r.header.None? && r.pages == map[]
    ensures InspectStage(c, r).Ok? && r.header.Some? ==>
              c.manifest(r.header.value.manifest).Some? && InspectStage(c, r) == Ok(Some(StageOf(c, r)))
  {
    PagesAreCounted(c, r.pages);
  }

  // ---------------------------------------------------------------- what the budgets reserve

  /** The native rows a page will become. */
  function NativeBytes(c: Codec, raw: Bytes): nat
  {
    if c.page(raw).Some? && c.reservation(c.page(raw).value).Some? then c.reservation(c.page(raw).value).value else 0
  }

  ghost function NativeBelow(c: Codec, pages: map<U64, Bytes>, n: nat): nat
  {
    if n == 0 then 0 else NativeBelow(c, pages, n - 1) + (if n - 1 in pages then NativeBytes(c, pages[n - 1]) else 0)
  }

  lemma {:induction false} ReservedIsAll(c: Codec, pages: map<U64, Bytes>, n: nat)
    ensures SumBelow(c, Reserved, pages, n)
         == SumBelow(c, Payload, pages, n) + SumBelow(c, Framing, pages, n) + NativeBelow(c, pages, n)
  {
    if n > 0 { ReservedIsAll(c, pages, n - 1); }
  }

  /** What each sum adds up per page. */
  lemma WeightsMeaning(c: Codec, i: U64, raw: Bytes)
    ensures Weigh(c, Pages, i, raw) == 1 && Weigh(c, Payload, i, raw) == |raw|
    ensures Weigh(c, Framing, i, raw) == 2 * c.keyBytes(i) + 128
    ensures Weigh(c, Scalars, i, raw) == |raw| + c.rowKeyBytes(i)
    ensures Weigh(c, Reserved, i, raw) == |raw| + 2 * c.keyBytes(i) + 128 + NativeBytes(c, raw)
    ensures c.page(raw).Some? ==> Weigh(c, Records, i, raw) == |c.page(raw).value.records|
  {
  }

  /**
   What the reservation of an open stage is for: an installed journal that grew by no more than the
   native rows reserved for its pages passes the final budget, up to the bytes of the receipt,
   which only the final budget charges.
   */
  lemma ReservationSuffices(c: Codec, current: Budget, next: Budget, s: Stage, receipt: Bytes)
    requires ActiveFits(c, current, s)
    requires next.bytes <= current.bytes + NativeBelow(c, s.pages, Ceiling())
    requires next.items <= current.items + Sum(c, Records, s.pages)
    requires |s.header.start| + |s.header.manifest| + |receipt| <= 4194304
    requires |receipt| <= c.keyBytes(U64_MAX)
    ensures FinalFits(c, current, next, s, receipt)
  {
    ReservedIsAll(c, s.pages, Ceiling());
  }

  /** In a sound stage no record is staged twice: ids rise through the pages in index order. */
  lemma NoRecordTwice(c: Codec, m: Manifest, pages: map<U64, Bytes>, i: U64, x: nat, j: U64, y: nat)
    requires PagesSound(c, m, pages) && i in pages && j in pages
    requires c.page(pages[i]).Some? && x < |c.page(pages[i]).value.records|
    requires c.page(pages[j]).Some? && y < |c.page(pages[j]).value.records|
    requires i < j || (i == j && x < y)
    ensures Ordering.Less(c.page(pages[i]).value.records[x].recordId, c.page(pages[j]).value.records[y].recordId)
  {
    var a, b := RecordIds(c.page(pages[i]).value), RecordIds(c.page(pages[j]).value);
    assert PageSound(c, m, i, pages[i]) && PageSound(c, m, j, pages[j]);
    assert a[x] == c.page(pages[i]).value.records[x].recordId && b[y] == c.page(pages[j]).value.records[y].recordId;
    if i < j { assert AllLess(a, b); }
  }
}
