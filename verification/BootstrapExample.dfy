/** The laws of the staging protocol are not vacuous: a smallest download runs from begin to installation. */
module BootstrapExample {
  import opened Common
  import opened FenceText
  import opened ReadProtocol
  import opened BootstrapModel
  import opened BootstrapBudget
  import opened BootstrapHistory

  const START: Bytes := [0]
  const MANIFEST: Bytes := [1]
  const PAGE: Bytes := [2]
  const RECEIPT: Bytes := [3]

  function TheManifest(context: Context, checkpoint: Checkpoint): Manifest
  {
    Manifest("s", context, checkpoint.cursor, 1, 1, 0, [])
  }

  function ThePage(): Page { Page("s", [], 0, [SnapshotRecord("r", Tombstone(0))]) }

  function TheReceipt(checkpoint: Checkpoint): Receipt { Receipt("s", [], checkpoint, 0) }

  /** One manifest, one page of one record, one receipt; everything else is refused. */
  function TheCodec(context: Context, checkpoint: Checkpoint, installed: ClientState): Codec
  {
    Codec(
      (raw: Bytes) => if raw == MANIFEST then Some(TheManifest(context, checkpoint)) else None,
      (raw: Bytes) => if raw == PAGE then Some(ThePage()) else None,
      (raw: Bytes) => if raw == RECEIPT then Some(TheReceipt(checkpoint)) else None,
      (m: Manifest) => [],
      (start: Bytes, m: Manifest) => true,
      (p: Page) => Some(7),
      (i: U64) => 5,
      (i: U64) => 3,
      (s: ClientState) => true,
      (s: ClientState) => Budget(0, 1),
      (m: Manifest, pages: map<U64, Page>) => pages == map[0 := ThePage()],
      (s: ClientState, r: Receipt, pages: map<U64, Page>) => if pages == map[0 := ThePage()] then Some(installed) else None)
  }

  /** The situation: a journal of this context without a checkpoint, and what will be installed over it. */
  predicate Situation(context: Context, checkpoint: Checkpoint, state: ClientState, installed: ClientState) {
    && checkpoint.scope == context.scope
    && state.requestedScope == context.scope.identity
    && state.subscriptionRevision == context.scope.subscriptionRevision
    && state.checkpoint.None?
    && installed.revision == state.revision + 1 && !ErasesSubscriptions(state, installed)
  }

  function R0(context: Context, state: ClientState): Record
  {
    Record(context.partitionId, context.clientId, state, None, None, map[], None)
  }

  function R1(context: Context, state: ClientState): Record
  {
    R0(context, state).(header := Some(Header(false, 1, START, MANIFEST, None, None)), fence := Some(Fence(1, true)))
  }

  function R2(context: Context, state: ClientState): Record
  {
    R1(context, state).(pages := map[0 := PAGE], fence := Some(Fence(2, true)))
  }

  function R3(context: Context, state: ClientState, installed: ClientState): Record
  {
    Record(context.partitionId, context.clientId, installed, Some(Fence(4, false)),
           Some(Header(true, 1, START, MANIFEST, Some(RECEIPT), Some(installed.revision))), map[], None)
  }

  lemma BeginStep(context: Context, checkpoint: Checkpoint, state: ClientState, installed: ClientState)
    requires Situation(context, checkpoint, state, installed)
    ensures var c := TheCodec(context, checkpoint, installed);
            && CodecOk(c) && Fresh(c, R0(context, state)) && Inv(c, R0(context, state))
            && Step(c, R0(context, state), BeginOp(START, MANIFEST, context)) == R1(context, state)
  {
    var c, r := TheCodec(context, checkpoint, installed), R0(context, state);
    InspectionSucceeds(c, r);
    SumOfNone(c, Reserved);
    SumOfNone(c, Records);
    SumOfNone(c, Pages);
    var h := Header(false, 1, START, MANIFEST, None, None);
    assert StageFits(c, c.budget(state), Stage(h, TheManifest(context, checkpoint), map[]));
    assert DecideBegin(c, r, START, MANIFEST, context) == Ok(CreateStage(h));
  }

  lemma OnePageTotals(context: Context, checkpoint: Checkpoint, installed: ClientState)
    ensures var c := TheCodec(context, checkpoint, installed);
            && Sum(c, Reserved, map[0 := PAGE]) == 146 && Sum(c, Records, map[0 := PAGE]) == 1
            && Sum(c, Pages, map[0 := PAGE]) == 1 && Sum(c, Payload, map[0 := PAGE]) == 1
            && Sum(c, Framing, map[0 := PAGE]) == 138
  {
    var c := TheCodec(context, checkpoint, installed);
    assert map[][0 := PAGE] == map[0 := PAGE];
    forall w: Weight ensures Sum(c, w, map[0 := PAGE]) == Weigh(c, w, 0, PAGE) {
      SumOfNone(c, w);
      SumAdds(c, w, map[], 0, PAGE);
    }
  }

  lemma OnePageFits(context: Context, checkpoint: Checkpoint, installed: ClientState, h: Header)
    requires !h.cancelled && |h.start| == 1 && |h.manifest| == 1
    ensures StageFits(TheCodec(context, checkpoint, installed), Budget(0, 1),
                      Stage(h, TheManifest(context, checkpoint), map[0 := PAGE]))
  {
    OnePageTotals(context, checkpoint, installed);
    var c := TheCodec(context, checkpoint, installed);
    assert PageSound(c, TheManifest(context, checkpoint), 0, PAGE);
  }

  /** A first page for an open stage, decided from the facts about the stage alone. */
  lemma FirstPage(c: Codec, r: Record, s: Stage, raw: Bytes, page: Page, expected: Context)
    requires InspectStage(c, r) == Ok(Some(s)) && s.pages == map[] && !s.header.cancelled
    requires r.fence.Some? && r.fence.value.counter < U64_MAX && r.barrier.None?
    requires c.page(raw) == Some(page) && c.reservation(page).Some?
    requires ValidHeader(c, s.header.start, s.manifest, expected) && ValidPage(c, s.manifest, page)
    requires StageFits(c, c.budget(r.state), s.(pages := map[page.index := raw]))
    ensures DecidePage(c, r, raw, expected, s.header.incarnation) == Ok(AddPage(page.index, raw))
  {
    assert s.pages[page.index := raw] == map[page.index := raw];
  }

  lemma PageDecision(context: Context, checkpoint: Checkpoint, state: ClientState, installed: ClientState)
    requires Situation(context, checkpoint, state, installed)
    requires Inv(TheCodec(context, checkpoint, installed), R1(context, state))
    requires CodecOk(TheCodec(context, checkpoint, installed))
    ensures DecidePage(TheCodec(context, checkpoint, installed), R1(context, state), PAGE, context, 1)
         == Ok(AddPage(0, PAGE))
  {
    var c, r := TheCodec(context, checkpoint, installed), R1(context, state);
    InspectionSucceeds(c, r);
    OnePageFits(context, checkpoint, installed, r.header.value);
    FirstPage(c, r, StageOf(c, r), PAGE, ThePage(), context);
  }

  lemma PageRecord(context: Context, state: ClientState)
    ensures Effect(R1(context, state), AddPage(0, PAGE)) == R2(context, state)
  {
    var r := R1(context, state);
    assert r.pages[0 := PAGE] == map[0 := PAGE];
  }

  lemma PageStep(context: Context, checkpoint: Checkpoint, state: ClientState, installed: ClientState)
    requires Situation(context, checkpoint, state, installed)
    requires Inv(TheCodec(context, checkpoint, installed), R1(context, state))
    requires CodecOk(TheCodec(context, checkpoint, installed))
    ensures var c := TheCodec(context, checkpoint, installed);
            Step(c, R1(context, state), PageOp(PAGE, context, 1)) == R2(context, state)
  {
    PageDecision(context, checkpoint, state, installed);
    PageRecord(context, state);
  }

  lemma InstallDecision(context: Context, checkpoint: Checkpoint, state: ClientState, installed: ClientState)
    requires Situation(context, checkpoint, state, installed)
    ensures var c := TheCodec(context, checkpoint, installed);
            var s := Stage(R2(context, state).header.value, TheManifest(context, checkpoint), map[0 := PAGE]);
            DecideInstall(c, R2(context, state), s, RECEIPT) == Ok(Consume(RECEIPT, installed))
  {
    var c, r := TheCodec(context, checkpoint, installed), R2(context, state);
    var s := Stage(r.header.value, TheManifest(context, checkpoint), map[0 := PAGE]);
    OnePageFits(context, checkpoint, installed, r.header.value);
    OnePageFinal(context, checkpoint, installed, s);
    OnePageDecodes(context, checkpoint, installed);
    assert c.verifies(s.manifest, DecodedPages(c, s.pages));
    assert c.install(r.state, c.receipt(RECEIPT).value, DecodedPages(c, s.pages)) == Some(installed);
  }

  lemma OnePageFinal(context: Context, checkpoint: Checkpoint, installed: ClientState, s: Stage)
    requires s.pages == map[0 := PAGE] && |s.header.start| == 1 && |s.header.manifest| == 1
    ensures FinalFits(TheCodec(context, checkpoint, installed), Budget(0, 1), Budget(0, 1), s, RECEIPT)
  {
    OnePageTotals(context, checkpoint, installed);
  }

  lemma OnePageDecodes(context: Context, checkpoint: Checkpoint, installed: ClientState)
    ensures var c := TheCodec(context, checkpoint, installed);
            && (forall i | i in map[0 := PAGE] :: c.page(map[0 := PAGE][i]).Some?)
            && DecodedPages(c, map[0 := PAGE]) == map[0 := ThePage()]
  {
  }

  lemma CompleteDecision(context: Context, checkpoint: Checkpoint, state: ClientState, installed: ClientState)
    requires Situation(context, checkpoint, state, installed)
    requires Inv(TheCodec(context, checkpoint, installed), R2(context, state))
    requires CodecOk(TheCodec(context, checkpoint, installed))
    ensures DecideComplete(TheCodec(context, checkpoint, installed), R2(context, state), RECEIPT, context, 1, true)
         == Ok(Consume(RECEIPT, installed))
  {
    var c, r := TheCodec(context, checkpoint, installed), R2(context, state);
    InspectionSucceeds(c, r);
    InstallDecision(context, checkpoint, state, installed);
    var s := Stage(r.header.value, TheManifest(context, checkpoint), map[0 := PAGE]);
    assert InspectStage(c, r) == Ok(Some(s));
  }

  lemma InstalledRecord(context: Context, state: ClientState, installed: ClientState)
    requires installed.revision == state.revision + 1
    ensures Effect(R2(context, state), Consume(RECEIPT, installed)) == R3(context, state, installed)
  {
  }

  lemma CompleteStep(context: Context, checkpoint: Checkpoint, state: ClientState, installed: ClientState)
    requires Situation(context, checkpoint, state, installed)
    requires Inv(TheCodec(context, checkpoint, installed), R2(context, state))
    requires CodecOk(TheCodec(context, checkpoint, installed))
    ensures var c, op := TheCodec(context, checkpoint, installed), CompleteOp(RECEIPT, context, 1, true);
            && Decide(c, R2(context, state), op) == Ok(Consume(RECEIPT, installed))
            && Step(c, R2(context, state), op) == R3(context, state, installed)
  {
    CompleteDecision(context, checkpoint, state, installed);
    InstalledRecord(context, state, installed);
  }

  lemma ThreeSteps(
    c: Codec, r0: Record, r1: Record, r2: Record, r3: Record, first: Op, second: Op, third: Op)
    requires CodecOk(c) && Inv(c, r0) && Addressed(r0, first) && Addressed(r0, second) && Addressed(r0, third)
    requires r1 == Step(c, r0, first) && r2 == Step(c, r1, second) && r3 == Step(c, r2, third)
    ensures Run(c, [r0, r1, r2, r3], [first, second, third])
  {
    var trace, ops := [r0, r1, r2, r3], [first, second, third];
    assert StepAt(c, trace, ops, 0) && StepAt(c, trace, ops, 1) && StepAt(c, trace, ops, 2);
  }

  /** Begin, one page and a completion take any fresh journal to its installed successor. */
  lemma InstallationIsReachable(context: Context, checkpoint: Checkpoint, state: ClientState, installed: ClientState)
    requires Situation(context, checkpoint, state, installed)
    ensures var c := TheCodec(context, checkpoint, installed);
            var ops := [BeginOp(START, MANIFEST, context), PageOp(PAGE, context, 1),
                        CompleteOp(RECEIPT, context, 1, true)];
            var trace := [R0(context, state), R1(context, state), R2(context, state), R3(context, state, installed)];
            Run(c, trace, ops) && Fresh(c, trace[0]) && Decide(c, trace[2], ops[2]) == Ok(Consume(RECEIPT, installed))
  {
    var c := TheCodec(context, checkpoint, installed);
    var r0, r1, r2, r3 := R0(context, state), R1(context, state), R2(context, state), R3(context, state, installed);
    var begin, page, complete :=
      BeginOp(START, MANIFEST, context), PageOp(PAGE, context, 1), CompleteOp(RECEIPT, context, 1, true);
    BeginStep(context, checkpoint, state, installed);
    StepKeeps(c, r0, begin);
    PageStep(context, checkpoint, state, installed);
    StepKeeps(c, r1, page);
    CompleteStep(context, checkpoint, state, installed);
    ThreeSteps(c, r0, r1, r2, r3, begin, page, complete);
  }
}
