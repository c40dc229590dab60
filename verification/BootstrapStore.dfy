/**
 The store's transactions as they run: inspect the rows, decide, write row by row and roll back
 on any late refusal. Every method is proved to take exactly the step the state machine takes.
 */
module BootstrapStore {
  import opened Common
  import opened FenceText
  import opened ReadProtocol
  import opened BootstrapModel
  import opened BootstrapBudget

  /** The scalar preflight over the stored page rows. */
  method PageScalars(c: Codec, pages: map<U64, Bytes>) returns (ok: bool, bytes: nat, count: nat)
    ensures ok <==> forall i | i in pages :: |pages[i]| <= MAX_SYNC_STATE_BYTES && c.rowKeyBytes(i) <= MAX_ROW_KEY_BYTES
    ensures ok ==> bytes == Sum(c, Scalars, pages) && count == Sum(c, Pages, pages)
  {
    bytes, count := 0, 0;
    var next: nat := 0;
    while exists k :: k in pages && next <= k
      invariant next <= U64_MAX + 1
      invariant forall i | i in pages && i < next ::
                  |pages[i]| <= MAX_SYNC_STATE_BYTES && c.rowKeyBytes(i) <= MAX_ROW_KEY_BYTES
      invariant bytes == SumBelow(c, Scalars, pages, next) && count == SumBelow(c, Pages, pages, next)
      decreases U64_MAX + 1 - next
    {
      ghost var some :| some in pages && next <= some;
      NextIndex(pages, next, some);
      var k :| k in pages && next <= k && forall j | j in pages && next <= j :: k <= j;
      if |pages[k]| > MAX_SYNC_STATE_BYTES || c.rowKeyBytes(k) > MAX_ROW_KEY_BYTES {
        return false, bytes, count;
      }
      SumNext(c, Scalars, pages, next, k);
      SumNext(c, Pages, pages, next, k);
      bytes, count, next := bytes + |pages[k]| + c.rowKeyBytes(k), count + 1, k + 1;
    }
    SumSkips(c, Scalars, pages, next, Ceiling());
    SumSkips(c, Pages, pages, next, Ceiling());
    ok := true;
  }

  /** Inspection of the rows a transaction sees. */
  method Inspect(c: Codec, r: Record) returns (result: Result<Option<Stage>, StoreError>)
    ensures result == InspectStage(c, r)
  {
    var ok, pageBytes, pageCount := PageScalars(c, r.pages);
    var current := c.budget(r.state);
    if !ok { return Err(StateTooLarge); }
    var aggregate, headers := pageBytes, 0;
    if r.header.Some? {
      if HeaderBytes(r.header.value) > MAX_SYNC_STATE_BYTES || HeaderKeyBytes(r.header.value) > MAX_ROW_KEY_BYTES {
        return Err(StateTooLarge);
      }
      aggregate, headers := aggregate + HeaderBytes(r.header.value) + HeaderKeyBytes(r.header.value), 1;
    }
    if aggregate + current.bytes > MAX_AGGREGATE_STATE_BYTES
       || pageCount + headers + current.items > MAX_COMPONENT_ITEMS {
      return Err(StateTooLarge);
    }
    if r.header.None? {
      if r.pages == map[] { return Ok(None); } else { return Err(CorruptState); }
    }
    if !StructurallySound(c, r) { return Err(CorruptState); }
    return Ok(Some(Stage(r.header.value, c.manifest(r.header.value.manifest).value, r.pages)));
  }

  class Store {
    const c: Codec
    const partitionId: string
    const clientId: string
    var state: ClientState
    var fence: Option<Fence>
    var header: Option<Header>
    var pages: map<U64, Bytes>
    var barrier: Option<Barrier>

    function Rows(): (r: Record)
      reads this
    {
      Record(partitionId, clientId, state, fence, header, pages, barrier)
    }

    /** The rows of an initialized journal that never staged anything. */
    constructor (codec: Codec, partition: string, client: string, initial: ClientState)
      ensures c == codec && Rows() == Record(partition, client, initial, None, None, map[], None)
    {
      c, partitionId, clientId := codec, partition, client;
      state, fence, header, pages, barrier := initial, None, None, map[], None;
    }

    /** A cancelled transaction leaves no trace. */
    method Rollback(saved: Record)
      requires saved.partitionId == partitionId && saved.clientId == clientId
      modifies this
      ensures Rows() == saved
    {
      state, fence, header, pages, barrier := saved.state, saved.fence, saved.header, saved.pages, saved.barrier;
    }

    method Begin(start: Bytes, manifest: Bytes, expected: Context) returns (result: Result<U64, StoreError>)
      modifies this
      ensures Rows() == Step(c, old(Rows()), BeginOp(start, manifest, expected))
      ensures var decision := DecideBegin(c, old(Rows()), start, manifest, expected);
              if decision.Err? then result == Err(decision.error)
              else header.Some? && result == Ok(header.value.incarnation)
    {
      var decoded := c.manifest(manifest);
      if decoded.None? || !ValidHeader(c, start, decoded.value, expected) { return Err(CorruptState); }
      if |start| + |manifest| > MAX_SYNC_STATE_BYTES { return Err(StateTooLarge); }
      var inspected := Inspect(c, Rows());
      if inspected.Err? { return Err(inspected.error); }
      var b := c.budget(state);
      if inspected.value.None?
         && (2 * b.bytes + FINAL_OVERHEAD + (|start| + |manifest|) > MAX_AGGREGATE_STATE_BYTES
             || 2 * b.items + 4 > MAX_COMPONENT_ITEMS) {
        return Err(StateTooLarge);
      }
      if barrier.Some? { return Err(RevisionConflict); }
      if state.requestedScope != expected.scope.identity
         || state.subscriptionRevision != expected.scope.subscriptionRevision {
        return Err(CorruptState);
      }
      if state.checkpoint.Some?
         && expected.scope.authorizationRevision < state.checkpoint.value.scope.authorizationRevision {
        return Err(RevisionConflict);
      }
      if inspected.value.Some? {
        var s := inspected.value.value;
        if !AdmitContext(s.manifest.context, expected, s.header.cancelled) { return Err(RevisionConflict); }
        if !ValidHeader(c, s.header.start, s.manifest, s.manifest.context) { return Err(CorruptState); }
        var fits := CheckBudget(c, b, s);
        if fits.Err? { return Err(fits.error); }
        if !s.header.cancelled {
          if !ValidHeader(c, s.header.start, s.manifest, expected) { return Err(CorruptState); }
          if s.header.start == start && s.header.manifest == manifest { return Ok(s.header.incarnation); }
          return Err(RevisionConflict);
        }
        if s.header.manifest == manifest { return Err(RevisionConflict); }
      }
      result := CreateStage(start, manifest, decoded.value);
    }

    method CreateStage(start: Bytes, manifest: Bytes, decoded: Manifest) returns (result: Result<U64, StoreError>)
      modifies this
      ensures var decision := DecideCreate(c, old(Rows()), start, manifest, decoded);
              if decision.Err? then result == Err(decision.error) && Rows() == old(Rows())
              else Rows() == Effect(old(Rows()), decision.value)
                   && header.Some? && result == Ok(header.value.incarnation)
    {
      var counter := FenceCounter(Rows());
      if counter == U64_MAX { return Err(StateTooLarge); }
      var incarnation: U64 := counter + 1;
      var created := Header(false, incarnation, start, manifest, None, None);
      var fits := CheckBudget(c, c.budget(state), Stage(created, decoded, map[]));
      if fits.Err? { return Err(fits.error); }
      header := Some(created);
      fence := Some(Fence(incarnation, true));
      return Ok(incarnation);
    }

    method StagePage(raw: Bytes, expected: Context, incarnation: U64) returns (result: Result<(), StoreError>)
      modifies this
      ensures Rows() == Step(c, old(Rows()), PageOp(raw, expected, incarnation))
      ensures var decision := DecidePage(c, old(Rows()), raw, expected, incarnation);
              if decision.Err? then result == Err(decision.error) else result == Ok(())
    {
      var decoded := c.page(raw);
      if decoded.None? { return Err(CorruptState); }
      var page := decoded.value;
      if c.reservation(page).None? { return Err(UnsupportedPage); }
      if fence.None? { return Err(CorruptState); }
      var inspected := Inspect(c, Rows());
      if inspected.Err? { return Err(inspected.error); }
      if inspected.value.None? { return Err(CorruptState); }
      var s := inspected.value.value;
      if !ValidHeader(c, s.header.start, s.manifest, expected) { return Err(CorruptState); }
      if s.header.incarnation != incarnation || s.header.cancelled || barrier.Some? {
        return Err(RevisionConflict);
      }
      if !ValidPage(c, s.manifest, page) { return Err(CorruptState); }
      if page.index in s.pages {
        if s.pages[page.index] == raw { return Ok(()); }
        return Err(RevisionConflict);
      }
      var fits := CheckBudget(c, c.budget(state), s.(pages := s.pages[page.index := raw]));
      if fits.Err? { return Err(fits.error); }
      var saved := Rows();
      pages := pages[page.index := raw];
      if fence.value.counter == U64_MAX {
        Rollback(saved);
        return Err(StateTooLarge);
      }
      fence := Some(Fence(fence.value.counter + 1, fence.value.active));
      return Ok(());
    }

    /** Whether a journal of this size may be written, and the fence to store with it. */
    method GuardStateWrite(b: Budget) returns (result: Result<Option<Fence>, StoreError>)
      ensures result.Err? <==> GuardState(c, Rows(), b).Err?
      ensures result.Err? ==> result.error == GuardState(c, Rows(), b).error
      ensures result.Ok? ==>
                result.value == if fence.None? then None else Advance(fence, 1, fence.value.active)
      ensures result.Ok? && fence.Some? ==> fence.value.counter < U64_MAX
    {
      if fence.None? { return Ok(None); }
      var inspected := Inspect(c, Rows());
      if inspected.Err? { return Err(inspected.error); }
      if inspected.value.None? { return Err(CorruptState); }
      var s := inspected.value.value;
      if s.header.cancelled == fence.value.active { return Err(CorruptState); }
      var fits := CheckBudget(c, b, s);
      if fits.Err? { return Err(fits.error); }
      if fence.value.counter == U64_MAX { return Err(StateTooLarge); }
      return Ok(Some(Fence(fence.value.counter + 1, fence.value.active)));
    }

    /** An ordinary journal transition. */
    method WriteJournal(current: ClientState, next: ClientState) returns (result: Result<(), StoreError>)
      modifies this
      ensures Rows() == Step(c, old(Rows()), JournalOp(current, next))
      ensures var decision := DecideJournal(c, old(Rows()), current, next);
              if decision.Err? then result == Err(decision.error) else result == Ok(())
    {
      if current.partitionId != next.partitionId || current.clientId != next.clientId { return Err(CorruptState); }
      if !c.valid(current) { return Err(InvalidTransition); }
      if next == current {
        if state == current { return Ok(()); }
        return Err(RevisionConflict);
      }
      if next.revision != current.revision + 1 { return Err(RevisionMismatch); }
      if !c.valid(next) { return Err(InvalidTransition); }
      if !JournalFits(c.budget(next)) { return Err(StateTooLarge); }
      if state != current { return Err(RevisionConflict); }
      if ErasesSubscriptions(current, next) { return Err(CorruptState); }
      var guarded := GuardStateWrite(c.budget(next));
      if guarded.Err? { return Err(guarded.error); }
      state := next;
      if guarded.value.Some? { fence := guarded.value; }
      return Ok(());
    }

    method WriteBarrier(b: Barrier) returns (result: Result<(), StoreError>)
      modifies this
      ensures Rows() == Step(c, old(Rows()), BarrierOp(b))
      ensures var decision := DecideBarrier(c, old(Rows()), b);
              if decision.Err? then result == Err(decision.error) else result == Ok(())
    {
      var guarded := GuardStateWrite(c.budget(state));
      if guarded.Err? { return Err(guarded.error); }
      if guarded.value.Some? { fence := guarded.value; }
      barrier := Some(MergeBarrier(barrier, b));
      return Ok(());
    }

    method Cancel(manifest: Bytes, expected: Context, incarnation: U64) returns (result: Result<(), StoreError>)
      modifies this
      ensures Rows() == Step(c, old(Rows()), CancelOp(manifest, expected, incarnation))
      ensures var decision := DecideCancel(c, old(Rows()), manifest, expected, incarnation);
              if decision.Err? then result == Err(decision.error) else result == Ok(())
    {
      if fence.None? { return Ok(()); }
      var saved := Rows();
      var inspected := Inspect(c, saved);
      if inspected.Err? { return Err(inspected.error); }
      if inspected.value.None? { return Ok(()); }
      var s := inspected.value.value;
      if !ValidHeader(c, s.header.start, s.manifest, expected) { return Err(CorruptState); }
      if s.header.incarnation != incarnation || s.header.manifest != manifest { return Err(RevisionConflict); }
      if s.header.consumedReceipt.Some? { return Ok(()); }
      pages := map[];
      header := Some(s.header.(cancelled := true));
      if fence.value.counter == U64_MAX {
        Rollback(saved);
        return Err(StateTooLarge);
      }
      fence := Some(Fence(fence.value.counter + 1, false));
      return Ok(());
    }

    /**
     A completion. `early` is the clock at admission and `late` whether every later reading was
     still before the deadline; the last one is taken after all rows have been written.
     */
    method Complete(receipt: Bytes, expected: Context, incarnation: U64, early: bool, late: bool)
      returns (result: Result<Option<ClientState>, StoreError>)
      modifies this
      ensures Rows() == Step(c, old(Rows()), CompleteOp(receipt, expected, incarnation, early && late))
      ensures var decision := DecideComplete(c, old(Rows()), receipt, expected, incarnation, early && late);
              && (result.Ok? <==> decision.Ok?)
              && (result.Ok? ==> result.value == if decision.value.Consume? then Some(state) else None)
              && (result.Err? && (late || !early) ==> result.error == decision.error)
    {
      if |receipt| > MAX_SYNC_STATE_BYTES { return Err(StateTooLarge); }
      var decoded := c.receipt(receipt);
      if decoded.None? { return Err(CorruptState); }
      var inspected := Inspect(c, Rows());
      if inspected.Err? { return Err(inspected.error); }
      if inspected.value.None? { return Err(CorruptState); }
      var s := inspected.value.value;
      if !ValidHeader(c, s.header.start, s.manifest, expected) { return Err(CorruptState); }
      if s.header.incarnation != incarnation { return Err(RevisionConflict); }
      if !ValidReceipt(c, s.manifest, decoded.value) { return Err(CorruptState); }
      if s.header.consumedReceipt.Some? {
        if s.header.consumedReceipt.value != receipt { return Err(RevisionConflict); }
        if s.header.consumedRevision.None? { return Err(CorruptState); }
        if state.revision < s.header.consumedRevision.value { return Err(CorruptState); }
        return Ok(None);
      }
      if s.header.cancelled || barrier.Some? || !early { return Err(RevisionConflict); }
      result := Install(receipt, s, late);
    }

    /** Verify the download, compute the journal it installs, and check everything but the guarded write. */
    method PrepareInstall(receipt: Bytes, s: Stage) returns (prepared: Result<ClientState, StoreError>)
      requires InspectStage(c, Rows()) == Ok(Some(s)) && !s.header.cancelled && c.receipt(receipt).Some?
      ensures prepared.Err? ==> DecideInstall(c, Rows(), s, receipt) == Err(prepared.error)
      ensures prepared.Ok? ==>
                DecideInstall(c, Rows(), s, receipt)
                == if !StageFits(c, c.budget(prepared.value), s) then Err(BudgetError(c, s))
                   else if FenceCounter(Rows()) >= U64_MAX - 1 then Err(StateTooLarge)
                   else Ok(Consume(receipt, prepared.value))
    {
      var fits := CheckBudget(c, c.budget(state), s);
      if fits.Err? { return Err(fits.error); }
      if !c.verifies(s.manifest, DecodedPages(c, s.pages)) { return Err(CorruptState); }
      var installed := c.install(state, c.receipt(receipt).value, DecodedPages(c, s.pages));
      if installed.None? { return Err(InvalidTransition); }
      var next := installed.value;
      var final := FinalBudget(c, c.budget(state), c.budget(next), s, receipt);
      if final.Err? { return Err(final.error); }
      if next.revision != state.revision + 1 { return Err(RevisionMismatch); }
      if !c.valid(next) { return Err(InvalidTransition); }
      if ErasesSubscriptions(state, next) { return Err(CorruptState); }
      return Ok(next);
    }

    /** Writes the installed journal, drops the pages, closes the header and rotates the fence twice. */
    method Install(receipt: Bytes, s: Stage, late: bool) returns (result: Result<Option<ClientState>, StoreError>)
      requires InspectStage(c, Rows()) == Ok(Some(s)) && !s.header.cancelled && c.receipt(receipt).Some?
      modifies this
      ensures var decision := DecideInstall(c, old(Rows()), s, receipt);
              if decision.Ok? && late then
                decision.value.Consume? && result == Ok(Some(state)) && Rows() == Effect(old(Rows()), decision.value)
              else
                result.Err? && Rows() == old(Rows()) && (late ==> result.error == decision.error)
    {
      var saved := Rows();
      var prepared := PrepareInstall(receipt, s);
      if prepared.Err? { return Err(prepared.error); }
      var next := prepared.value;
      var guarded := GuardStateWrite(c.budget(next));
      if guarded.Err? { return Err(guarded.error); }
      state := next;
      fence := guarded.value;
      pages := map[];
      header := Some(s.header.(cancelled := true, consumedReceipt := Some(receipt),
                               consumedRevision := Some(next.revision)));
      if fence.value.counter == U64_MAX {
        Rollback(saved);
        return Err(StateTooLarge);
      }
      fence := Some(Fence(fence.value.counter + 1, false));
      if !late {
        Rollback(saved);
        return Err(RevisionConflict);
      }
      return Ok(Some(next));
    }

    /** Inspect only: what a session finds when it comes back. */
    method ResumeStage(tables: bool, manifest: Option<Bytes>, expected: Context, incarnation: Option<U64>)
      returns (result: Result<Option<Inventory>, StoreError>)
      ensures result == Resume(c, Rows(), tables, manifest, expected, incarnation)
    {
      if manifest.Some? {
        if |manifest.value| > MAX_SYNC_STATE_BYTES { return Err(StateTooLarge); }
        var incoming := c.manifest(manifest.value);
        if incoming.None? || incoming.value.context != expected { return Err(CorruptState); }
      }
      if !tables {
        if fence.Some? { return Err(CorruptState); }
        return Ok(None);
      }
      var inspected := Inspect(c, Rows());
      if inspected.Err? { return Err(inspected.error); }
      if inspected.value.None? {
        if fence.Some? { return Err(CorruptState); }
        return Ok(None);
      }
      var s := inspected.value.value;
      if !AdmitContext(s.manifest.context, expected, manifest.None? && s.header.cancelled) {
        return Err(RevisionConflict);
      }
      if !ValidHeader(c, s.header.start, s.manifest, s.manifest.context) { return Err(CorruptState); }
      if (manifest.Some? && s.header.manifest != manifest.value)
         || (incarnation.Some? && s.header.incarnation != incarnation.value) {
        return Err(RevisionConflict);
      }
      var fits := CheckBudget(c, c.budget(state), s);
      if fits.Err? { return Err(fits.error); }
      return Ok(Some(Inventory(s.header.incarnation, StateOf(s.header), s.pages.Keys, s.manifest.pageCount)));
    }
  }
}
