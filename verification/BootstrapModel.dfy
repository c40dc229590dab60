/**
 The durable bootstrap stage of one (partition, client) key: rows, admission budgets and the
 decision each operation takes. Wire codecs and validators are parameters of the model.
 */
module BootstrapModel {
  import opened Common
  import opened FenceText
  import opened Ordering
  import opened ReadProtocol

  const MAX_SYNC_STATE_BYTES: nat := 4 * 1024 * 1024
  const MAX_AGGREGATE_STATE_BYTES: nat := 64 * 1024 * 1024
  const MAX_COMPONENT_ITEMS: nat := 16_384
  const MAX_ROW_KEY_BYTES: nat := 12 * 512 + 128
  const FINAL_OVERHEAD: nat := 3 * MAX_SYNC_STATE_BYTES
  const CLOSED_MARKER_BYTES: nat := MAX_SYNC_STATE_BYTES + 65_536

  datatype StoreError =
    CorruptState | StateTooLarge | RevisionConflict | RevisionMismatch | UnsupportedPage | InvalidTransition

  // ---------------------------------------------------------------- protocol values

  datatype Context = Context(
    authorityId: string, principalId: string, partitionId: string, clientId: string,
    journalGeneration: string, scope: ScopeSnapshot)

  datatype Manifest = Manifest(
    sessionId: string, context: Context, cursor: FeedCursor, pageCount: U64, recordCount: U64,
    expiresAt: U64, root: Bytes)

  datatype SnapshotRecord = SnapshotRecord(recordId: RecordId, state: RecordState)
  datatype Page = Page(sessionId: string, manifestDigest: Bytes, index: U64, records: seq<SnapshotRecord>)
  datatype Receipt = Receipt(sessionId: string, manifestDigest: Bytes, checkpoint: Checkpoint, expiresAt: U64)

  /** Encoded size of a journal: payload bytes and number of components, metadata included. */
  datatype Budget = Budget(bytes: nat, items: nat)

  /**
   Everything the store calls and this model does not define. `startMatches` is the part of the
   header validator that ties the start request to the manifest, `rowKeyBytes` the scalar the
   database reports for a stored page key, `keyBytes` the tagged encoding the budget charges.
   */
  datatype Codec = Codec(
    manifest: Bytes -> Option<Manifest>,
    page: Bytes -> Option<Page>,
    receipt: Bytes -> Option<Receipt>,
    digest: Manifest -> Bytes,
    startMatches: (Bytes, Manifest) -> bool,
    reservation: Page -> Option<nat>,
    keyBytes: U64 -> nat,
    rowKeyBytes: U64 -> nat,
    valid: ClientState -> bool,
    budget: ClientState -> Budget,
    verifies: (Manifest, map<U64, Page>) -> bool,
    install: (ClientState, Receipt, map<U64, Page>) -> Option<ClientState>)

  /** What the budgets rely on: page frames are bounded and key text is charged at least in full. */
  ghost predicate CodecOk(c: Codec) {
    && (forall raw :: c.page(raw).Some? ==> |raw| <= MAX_SYNC_STATE_BYTES)
    && (forall i :: c.rowKeyBytes(i) <= 2 * c.keyBytes(i) + 128)
    && (forall i :: c.rowKeyBytes(i) <= MAX_ROW_KEY_BYTES)
  }

  // ---------------------------------------------------------------- rows

  datatype Header = Header(
    cancelled: bool, incarnation: U64, start: Bytes, manifest: Bytes,
    consumedReceipt: Option<Bytes>, consumedRevision: Option<U64>)

  datatype Barrier = Barrier(
    quarantine: bool, requiredScope: string, requiredSubscription: U64, requiredAuthorization: U64)

  /** All durable rows of one key; the journal state and the fence live on the same metadata row. */
  datatype Record = Record(
    partitionId: string, clientId: string, state: ClientState, fence: Option<Fence>,
    header: Option<Header>, pages: map<U64, Bytes>, barrier: Option<Barrier>)

  datatype Stage = Stage(header: Header, manifest: Manifest, pages: map<U64, Bytes>)

  // ---------------------------------------------------------------- validators

  predicate ValidHeader(c: Codec, start: Bytes, manifest: Manifest, expected: Context) {
    c.startMatches(start, manifest) && manifest.context == expected
  }

  predicate ValidReceipt(c: Codec, m: Manifest, r: Receipt) {
    && r.sessionId == m.sessionId
    && r.manifestDigest == c.digest(m)
    && r.checkpoint.cursor == m.cursor
    && r.checkpoint.scope == m.context.scope
    && r.expiresAt == m.expiresAt
  }

  predicate ValidPage(c: Codec, m: Manifest, p: Page) {
    p.sessionId == m.sessionId && p.manifestDigest == c.digest(m) && p.index < m.pageCount
  }

  predicate SameOwner(a: Context, b: Context) {
    && a.authorityId == b.authorityId
    && a.principalId == b.principalId
    && a.partitionId == b.partitionId
    && a.clientId == b.clientId
    && a.journalGeneration == b.journalGeneration
    && a.scope.identity == b.scope.identity
    && a.scope.subscriptionRevision == b.scope.subscriptionRevision
  }

  predicate AdmitContext(previous: Context, incoming: Context, terminal: bool) {
    && SameOwner(previous, incoming)
    && incoming.scope.authorizationRevision >= previous.scope.authorizationRevision
    && (terminal || previous == incoming)
  }

  // ---------------------------------------------------------------- sums over a page map

  /** What a sum over the stored pages adds up for each of them. */
  datatype Weight = Pages | Payload | Framing | Scalars | Records | Reserved

  function Weigh(c: Codec, w: Weight, index: U64, raw: Bytes): nat
  {
    match w
    case Pages => 1
    case Payload => |raw|
    case Framing => 2 * c.keyBytes(index) + 128
    case Scalars => |raw| + c.rowKeyBytes(index)
    case Records => if c.page(raw).Some? then |c.page(raw).value.records| else 0
    case Reserved =>
      // Its bytes, its future native rows and its key framing.
      |raw| + (2 * c.keyBytes(index) + 128)
      + (if c.page(raw).Some? && c.reservation(c.page(raw).value).Some?
         then c.reservation(c.page(raw).value).value else 0)
  }

  ghost function SumBelow(c: Codec, w: Weight, pages: map<U64, Bytes>, n: nat): nat
  {
    if n == 0 then 0
    else SumBelow(c, w, pages, n - 1) + (if n - 1 in pages then Weigh(c, w, n - 1, pages[n - 1]) else 0)
  }

  ghost function Ceiling(): (n: nat)
    ensures n > U64_MAX
  {
    var n: nat :| n > U64_MAX;
    n
  }

  ghost function Sum(c: Codec, w: Weight, pages: map<U64, Bytes>): nat
  {
    SumBelow(c, w, pages, Ceiling())
  }

  // ---------------------------------------------------------------- admission budgets

  function RecordIds(p: Page): seq<RecordId>
  {
    seq(|p.records|, i requires 0 <= i < |p.records| => p.records[i].recordId)
  }

  predicate StrictlyAscending(ids: seq<RecordId>) {
    forall i, j | 0 <= i < j < |ids| :: Less(ids[i], ids[j])
  }

  predicate AllLess(a: seq<RecordId>, b: seq<RecordId>) {
    forall i, j | 0 <= i < |a| && 0 <= j < |b| :: Less(a[i], b[j])
  }

  /** One stored page is what it claims to be, can be stored natively, and is sorted inside. */
  predicate PageSound(c: Codec, m: Manifest, index: U64, raw: Bytes) {
    && c.page(raw).Some?
    && ValidPage(c, m, c.page(raw).value)
    && c.page(raw).value.index == index
    && c.reservation(c.page(raw).value).Some?
    && StrictlyAscending(RecordIds(c.page(raw).value))
  }

  /** Record ids rise across the stored pages in index order: no record is staged twice. */
  predicate PagesAscend(c: Codec, pages: map<U64, Bytes>)
    requires forall i | i in pages :: c.page(pages[i]).Some?
  {
    forall i, j | i in pages && j in pages && i < j ::
      AllLess(RecordIds(c.page(pages[i]).value), RecordIds(c.page(pages[j]).value))
  }

  predicate PagesSound(c: Codec, m: Manifest, pages: map<U64, Bytes>) {
    && (forall i | i in pages :: PageSound(c, m, i, pages[i]))
    && PagesAscend(c, pages)
  }

  /** The combined reservation of an active stage over a journal of this size. */
  ghost predicate ActiveFits(c: Codec, b: Budget, s: Stage) {
    && PagesSound(c, s.manifest, s.pages)
    && 2 * b.bytes + FINAL_OVERHEAD + |s.header.start| + |s.header.manifest|
       + Sum(c, Reserved, s.pages) + c.keyBytes(U64_MAX) <= MAX_AGGREGATE_STATE_BYTES
    && 2 * b.items + 4 + Sum(c, Records, s.pages) + Sum(c, Pages, s.pages) <= MAX_COMPONENT_ITEMS
    && Sum(c, Records, s.pages) <= s.manifest.recordCount
  }

  predicate InactiveFits(b: Budget) {
    && b.bytes + CLOSED_MARKER_BYTES <= MAX_AGGREGATE_STATE_BYTES
    && b.items + 4 <= MAX_COMPONENT_ITEMS
  }

  /** What any stored journal satisfies by itself; the metadata row is not a component. */
  predicate JournalFits(b: Budget) {
    b.bytes <= MAX_AGGREGATE_STATE_BYTES && b.items <= MAX_COMPONENT_ITEMS + 1
  }

  ghost predicate StageFits(c: Codec, b: Budget, s: Stage) {
    if s.header.cancelled then s.pages == map[] && InactiveFits(b) else ActiveFits(c, b, s)
  }

  /** Why `check_budget` refuses: unsound pages are corruption, everything else is size. */
  ghost function BudgetError(c: Codec, s: Stage): StoreError
  {
    if s.header.cancelled then (if s.pages != map[] then CorruptState else StateTooLarge)
    else if !PagesSound(c, s.manifest, s.pages) then CorruptState
    else StateTooLarge
  }

  ghost predicate FinalFits(c: Codec, current: Budget, next: Budget, s: Stage, receipt: Bytes) {
    var header := |s.header.start| + |s.header.manifest| + |receipt|;
    && header <= MAX_SYNC_STATE_BYTES
    && current.bytes + next.bytes + FINAL_OVERHEAD + header + Sum(c, Payload, s.pages) + Sum(c, Framing, s.pages)
       <= MAX_AGGREGATE_STATE_BYTES
    && current.items + next.items + 4 + Sum(c, Pages, s.pages) <= MAX_COMPONENT_ITEMS
  }

  // ---------------------------------------------------------------- inspection

  function HeaderBytes(h: Header): nat
  {
    |h.start| + |h.manifest| + (if h.consumedReceipt.Some? then |h.consumedReceipt.value| else 0)
  }

  function HeaderKeyBytes(h: Header): nat
  {
    |Decimal(h.incarnation)| + (if h.consumedRevision.Some? then |Decimal(h.consumedRevision.value)| else 0)
  }

  /** The scalar preflight: row caps, the aggregate and the component count, before any blob is read. */
  ghost predicate ScalarsFit(c: Codec, r: Record) {
    && (r.header.Some? ==> HeaderBytes(r.header.value) <= MAX_SYNC_STATE_BYTES
                           && HeaderKeyBytes(r.header.value) <= MAX_ROW_KEY_BYTES)
    && (forall i | i in r.pages :: |r.pages[i]| <= MAX_SYNC_STATE_BYTES && c.rowKeyBytes(i) <= MAX_ROW_KEY_BYTES)
    && (if r.header.Some? then HeaderBytes(r.header.value) + HeaderKeyBytes(r.header.value) else 0)
       + Sum(c, Scalars, r.pages)
       + c.budget(r.state).bytes <= MAX_AGGREGATE_STATE_BYTES
    && Sum(c, Pages, r.pages) + (if r.header.Some? then 1 else 0) + c.budget(r.state).items <= MAX_COMPONENT_ITEMS
  }

  /** Every structural test inspection applies to a stored header, its fence and its pages. */
  predicate StructurallySound(c: Codec, r: Record)
    requires r.header.Some?
  {
    var h := r.header.value;
    && (h.consumedReceipt.Some? <==> h.consumedRevision.Some?)
    && (h.consumedRevision.Some? ==> h.consumedRevision.value != 0 && h.cancelled)
    && r.fence.Some?
    && h.cancelled != r.fence.value.active
    && h.incarnation <= r.fence.value.counter
    && c.manifest(h.manifest).Some?
    && ValidHeader(c, h.start, c.manifest(h.manifest).value, c.manifest(h.manifest).value.context)
    && (h.consumedReceipt.Some? ==>
          c.receipt(h.consumedReceipt.value).Some?
          && ValidReceipt(c, c.manifest(h.manifest).value, c.receipt(h.consumedReceipt.value).value))
    && c.manifest(h.manifest).value.context.partitionId == r.partitionId
    && c.manifest(h.manifest).value.context.clientId == r.clientId
    && (h.cancelled ==> r.pages == map[])
  }

  ghost function InspectStage(c: Codec, r: Record): Result<Option<Stage>, StoreError>
  {
    if !ScalarsFit(c, r) then Err(StateTooLarge)
    else if r.header.None? then (if r.pages == map[] then Ok(None) else Err(CorruptState))
    else if !StructurallySound(c, r) then Err(CorruptState)
    else Ok(Some(Stage(r.header.value, c.manifest(r.header.value.manifest).value, r.pages)))
  }

  // ---------------------------------------------------------------- operations and their decisions

  datatype Op =
    | BeginOp(start: Bytes, manifest: Bytes, expected: Context)
    | PageOp(raw: Bytes, expected: Context, incarnation: U64)
    | CompleteOp(receipt: Bytes, expected: Context, incarnation: U64, timely: bool)
    | CancelOp(manifest: Bytes, expected: Context, incarnation: U64)
    | JournalOp(current: ClientState, next: ClientState)
    | BarrierOp(barrier: Barrier)

  /** What an admitted operation will write. `NoChange` is an idempotent retry or a no-op. */
  datatype Plan =
    | NoChange
    | CreateStage(created: Header)
    | AddPage(index: U64, raw: Bytes)
    | Consume(receipt: Bytes, next: ClientState)
    | CancelStage
    | WriteState(next: ClientState)
    | WriteBarrier(barrier: Barrier)

  function FenceCounter(r: Record): U64 { if r.fence.None? then 0 else r.fence.value.counter }

  ghost function DecideBegin(c: Codec, r: Record, start: Bytes, manifest: Bytes, expected: Context)
    : Result<Plan, StoreError>
  {
    var decoded := c.manifest(manifest);
    if decoded.None? || !ValidHeader(c, start, decoded.value, expected) then Err(CorruptState)
    else if |start| + |manifest| > MAX_SYNC_STATE_BYTES then Err(StateTooLarge)
    else
      var inspected := InspectStage(c, r);
      var b := c.budget(r.state);
      if inspected.Err? then Err(inspected.error)
      else if inspected.value.None?
              && (2 * b.bytes + FINAL_OVERHEAD + |start| + |manifest| > MAX_AGGREGATE_STATE_BYTES
                  || 2 * b.items + 4 > MAX_COMPONENT_ITEMS) then Err(StateTooLarge)
      else if r.barrier.Some? then Err(RevisionConflict)
      else if r.state.requestedScope != expected.scope.identity
              || r.state.subscriptionRevision != expected.scope.subscriptionRevision then Err(CorruptState)
      else if r.state.checkpoint.Some?
              && expected.scope.authorizationRevision < r.state.checkpoint.value.scope.authorizationRevision
        then Err(RevisionConflict)
      else if inspected.value.Some? then DecideBeginOver(c, r, inspected.value.value, start, manifest, expected)
      else DecideCreate(c, r, start, manifest, decoded.value)
  }

  /** A begin that finds a stage: an exact retry of an active one, or a successor of a closed one. */
  ghost function DecideBeginOver(
    c: Codec, r: Record, s: Stage, start: Bytes, manifest: Bytes, expected: Context): Result<Plan, StoreError>
    requires c.manifest(manifest).Some?
  {
    if !AdmitContext(s.manifest.context, expected, s.header.cancelled) then Err(RevisionConflict)
    else if !ValidHeader(c, s.header.start, s.manifest, s.manifest.context) then Err(CorruptState)
    else if !StageFits(c, c.budget(r.state), s) then Err(BudgetError(c, s))
    else if s.header.cancelled then
      if s.header.manifest == manifest then Err(RevisionConflict)
      else DecideCreate(c, r, start, manifest, c.manifest(manifest).value)
    else if !ValidHeader(c, s.header.start, s.manifest, expected) then Err(CorruptState)
    else if s.header.start == start && s.header.manifest == manifest then Ok(NoChange)
    else Err(RevisionConflict)
  }

  ghost function DecideCreate(c: Codec, r: Record, start: Bytes, manifest: Bytes, decoded: Manifest)
    : Result<Plan, StoreError>
  {
    if FenceCounter(r) == U64_MAX then Err(StateTooLarge)
    else
      var h := Header(false, FenceCounter(r) + 1, start, manifest, None, None);
      var s := Stage(h, decoded, map[]);
      if !StageFits(c, c.budget(r.state), s) then Err(BudgetError(c, s)) else Ok(CreateStage(h))
  }

  ghost function DecidePage(c: Codec, r: Record, raw: Bytes, expected: Context, incarnation: U64)
    : Result<Plan, StoreError>
  {
    var decoded := c.page(raw);
    if decoded.None? then Err(CorruptState)
    else if c.reservation(decoded.value).None? then Err(UnsupportedPage)
    else if r.fence.None? then Err(CorruptState)
    else
      var inspected := InspectStage(c, r);
      if inspected.Err? then Err(inspected.error)
      else if inspected.value.None? then Err(CorruptState)
      else
        var s, page := inspected.value.value, decoded.value;
        if !ValidHeader(c, s.header.start, s.manifest, expected) then Err(CorruptState)
        else if s.header.incarnation != incarnation || s.header.cancelled || r.barrier.Some?
          then Err(RevisionConflict)
        else if !ValidPage(c, s.manifest, page) then Err(CorruptState)
        else if page.index in s.pages then
          if s.pages[page.index] == raw then Ok(NoChange) else Err(RevisionConflict)
        else
          var staged := s.(pages := s.pages[page.index := raw]);
          if !StageFits(c, c.budget(r.state), staged) then Err(BudgetError(c, staged))
          else if r.fence.value.counter == U64_MAX then Err(StateTooLarge)
          else Ok(AddPage(page.index, raw))
  }

  function DecodedPages(c: Codec, pages: map<U64, Bytes>): map<U64, Page>
    requires forall i | i in pages :: c.page(pages[i]).Some?
  {
    map i | i in pages :: c.page(pages[i]).value
  }

  ghost function DecideComplete(
    c: Codec, r: Record, receipt: Bytes, expected: Context, incarnation: U64, timely: bool)
    : Result<Plan, StoreError>
  {
    if |receipt| > MAX_SYNC_STATE_BYTES then Err(StateTooLarge)
    else if c.receipt(receipt).None? then Err(CorruptState)
    else
      var inspected := InspectStage(c, r);
      if inspected.Err? then Err(inspected.error)
      else if inspected.value.None? then Err(CorruptState)
      else
        var s := inspected.value.value;
        if !ValidHeader(c, s.header.start, s.manifest, expected) then Err(CorruptState)
        else if s.header.incarnation != incarnation then Err(RevisionConflict)
        else if !ValidReceipt(c, s.manifest, c.receipt(receipt).value) then Err(CorruptState)
        else if s.header.consumedReceipt.Some? then
          if s.header.consumedReceipt.value != receipt then Err(RevisionConflict)
          else if s.header.consumedRevision.None? || r.state.revision < s.header.consumedRevision.value
            then Err(CorruptState)
          else Ok(NoChange)
        else if s.header.cancelled || r.barrier.Some? || !timely then Err(RevisionConflict)
        else DecideInstall(c, r, s, receipt)
  }

  /** A journal that has subscriptions never loses the feature, with its durable cancellations, to an ordinary save. */
  predicate ErasesSubscriptions(current: ClientState, next: ClientState) {
    current.subscriptions.Some? && next.subscriptions.None?
  }

  /** A first completion of an open, complete, verified stage. */
  ghost function DecideInstall(c: Codec, r: Record, s: Stage, receipt: Bytes): Result<Plan, StoreError>
    requires c.receipt(receipt).Some? && !s.header.cancelled
  {
    if !StageFits(c, c.budget(r.state), s) then Err(BudgetError(c, s))
    else if !c.verifies(s.manifest, DecodedPages(c, s.pages)) then Err(CorruptState)
    else
      var next := c.install(r.state, c.receipt(receipt).value, DecodedPages(c, s.pages));
      if next.None? then Err(InvalidTransition)
      else if !FinalFits(c, c.budget(r.state), c.budget(next.value), s, receipt) then Err(StateTooLarge)
      else if next.value.revision != r.state.revision + 1 then Err(RevisionMismatch)
      else if !c.valid(next.value) then Err(InvalidTransition)
      else if ErasesSubscriptions(r.state, next.value) then Err(CorruptState)
      else if !StageFits(c, c.budget(next.value), s) then Err(BudgetError(c, s))
      else if FenceCounter(r) >= U64_MAX - 1 then Err(StateTooLarge)
      else Ok(Consume(receipt, next.value))
  }

  ghost function DecideCancel(c: Codec, r: Record, manifest: Bytes, expected: Context, incarnation: U64)
    : Result<Plan, StoreError>
  {
    if r.fence.None? then Ok(NoChange)
    else
      var inspected := InspectStage(c, r);
      if inspected.Err? then Err(inspected.error)
      else if inspected.value.None? then Ok(NoChange)
      else
        var s := inspected.value.value;
        if !ValidHeader(c, s.header.start, s.manifest, expected) then Err(CorruptState)
        else if s.header.incarnation != incarnation || s.header.manifest != manifest then Err(RevisionConflict)
        else if s.header.consumedReceipt.Some? then Ok(NoChange)
        else if r.fence.value.counter == U64_MAX then Err(StateTooLarge)
        else Ok(CancelStage)
  }

  /** `guard_state_write`: may a journal of this size be written beside the stage? */
  ghost function GuardState(c: Codec, r: Record, b: Budget): Result<(), StoreError>
  {
    if r.fence.None? then Ok(())
    else
      var inspected := InspectStage(c, r);
      if inspected.Err? then Err(inspected.error)
      else if inspected.value.None? || inspected.value.value.header.cancelled == r.fence.value.active
        then Err(CorruptState)
      else if !StageFits(c, b, inspected.value.value) then Err(BudgetError(c, inspected.value.value))
      else if r.fence.value.counter == U64_MAX then Err(StateTooLarge)
      else Ok(())
  }

  datatype StageState = Staging | Cancelled | Consumed(revision: U64)

  datatype Inventory = Inventory(incarnation: U64, state: StageState, indices: set<U64>, expectedPages: U64)

  /**
   `resume`: inspection only, bound to a manifest and an incarnation when the caller has them.
   `tables` is whether the stage tables have ever been defined; without them nothing is inspected.
   */
  ghost function Resume(
    c: Codec, r: Record, tables: bool, manifest: Option<Bytes>, expected: Context, incarnation: Option<U64>)
    : Result<Option<Inventory>, StoreError>
  {
    if manifest.Some? && |manifest.value| > MAX_SYNC_STATE_BYTES then Err(StateTooLarge)
    else if manifest.Some? && (c.manifest(manifest.value).None? || c.manifest(manifest.value).value.context != expected)
      then Err(CorruptState)
    else if !tables then (if r.fence.Some? then Err(CorruptState) else Ok(None))
    else
      var inspected := InspectStage(c, r);
      if inspected.Err? then Err(inspected.error)
      else if inspected.value.None? then (if r.fence.Some? then Err(CorruptState) else Ok(None))
      else
        var s := inspected.value.value;
        if !AdmitContext(s.manifest.context, expected, manifest.None? && s.header.cancelled) then Err(RevisionConflict)
        else if !ValidHeader(c, s.header.start, s.manifest, s.manifest.context) then Err(CorruptState)
        else if (manifest.Some? && s.header.manifest != manifest.value)
                || (incarnation.Some? && s.header.incarnation != incarnation.value) then Err(RevisionConflict)
        else if !StageFits(c, c.budget(r.state), s) then Err(BudgetError(c, s))
        else Ok(Some(Inventory(s.header.incarnation, StateOf(s.header), s.pages.Keys, s.manifest.pageCount)))
  }

  function StateOf(h: Header): StageState
  {
    if h.consumedRevision.Some? then Consumed(h.consumedRevision.value) else if h.cancelled then Cancelled else Staging
  }

  ghost function DecideJournal(c: Codec, r: Record, current: ClientState, next: ClientState)
    : Result<Plan, StoreError>
  {
    if current.partitionId != next.partitionId || current.clientId != next.clientId then Err(CorruptState)
    else if !c.valid(current) then Err(InvalidTransition)
    else if next == current then (if r.state == current then Ok(NoChange) else Err(RevisionConflict))
    else if next.revision != current.revision + 1 then Err(RevisionMismatch)
    else if !c.valid(next) then Err(InvalidTransition)
    else if !JournalFits(c.budget(next)) then Err(StateTooLarge)
    else if r.state != current then Err(RevisionConflict)
    else if ErasesSubscriptions(current, next) then Err(CorruptState)
    else
      var guarded := GuardState(c, r, c.budget(next));
      if guarded.Err? then Err(guarded.error) else Ok(WriteState(next))
  }

  /** An upsert that never weakens a stored quarantine. */
  function MergeBarrier(old_: Option<Barrier>, b: Barrier): Barrier
  {
    b.(quarantine := b.quarantine || (old_.Some? && old_.value.quarantine))
  }

  ghost function DecideBarrier(c: Codec, r: Record, b: Barrier): Result<Plan, StoreError>
  {
    var guarded := GuardState(c, r, c.budget(r.state));
    if guarded.Err? then Err(guarded.error) else Ok(WriteBarrier(MergeBarrier(r.barrier, b)))
  }

  ghost function Decide(c: Codec, r: Record, op: Op): Result<Plan, StoreError>
  {
    match op
    case BeginOp(start, manifest, expected) => DecideBegin(c, r, start, manifest, expected)
    case PageOp(raw, expected, incarnation) => DecidePage(c, r, raw, expected, incarnation)
    case CompleteOp(receipt, expected, incarnation, timely) =>
      DecideComplete(c, r, receipt, expected, incarnation, timely)
    case CancelOp(manifest, expected, incarnation) => DecideCancel(c, r, manifest, expected, incarnation)
    case JournalOp(current, next) => DecideJournal(c, r, current, next)
    case BarrierOp(barrier) => DecideBarrier(c, r, barrier)
  }

  // ---------------------------------------------------------------- effects

  /** The fence after `steps` rotations, when there is room for them. */
  function Advance(f: Option<Fence>, steps: nat, active: bool): Option<Fence>
  {
    var counter := (if f.None? then 0 else f.value.counter) + steps;
    if counter <= U64_MAX then Some(Fence(counter, active)) else f
  }

  function Effect(r: Record, plan: Plan): Record
  {
    match plan
    case NoChange => r
    case CreateStage(h) => r.(header := Some(h), fence := Advance(r.fence, 1, true))
    case AddPage(index, raw) =>
      r.(pages := r.pages[index := raw],
         fence := Advance(r.fence, 1, r.fence.Some? && r.fence.value.active))
    case Consume(receipt, next) =>
      if r.header.None? then r
      else r.(state := next, pages := map[],
              header := Some(r.header.value.(cancelled := true, consumedReceipt := Some(receipt),
                                             consumedRevision := Some(next.revision))),
              fence := Advance(r.fence, 2, false))
    case CancelStage =>
      if r.header.None? then r
      else r.(pages := map[], header := Some(r.header.value.(cancelled := true)),
              fence := Advance(r.fence, 1, false))
    case WriteState(next) =>
      r.(state := next, fence := if r.fence.None? then None else Advance(r.fence, 1, r.fence.value.active))
    case WriteBarrier(b) =>
      r.(barrier := Some(b), fence := if r.fence.None? then None else Advance(r.fence, 1, r.fence.value.active))
  }

  ghost function Step(c: Codec, r: Record, op: Op): Record
  {
    var plan := Decide(c, r, op);
    if plan.Ok? then Effect(r, plan.value) else r
  }

  /** The operations addressed to this key. */
  predicate Addressed(r: Record, op: Op) {
    match op
    case BeginOp(_, _, e) => e.partitionId == r.partitionId && e.clientId == r.clientId
    case PageOp(_, e, _) => e.partitionId == r.partitionId && e.clientId == r.clientId
    case CompleteOp(_, e, _, _) => e.partitionId == r.partitionId && e.clientId == r.clientId
    case CancelOp(_, e, _) => e.partitionId == r.partitionId && e.clientId == r.clientId
    case JournalOp(current, _) => current.partitionId == r.partitionId && current.clientId == r.clientId
    case BarrierOp(_) => true
  }
}
