/**
 Durable client state, the local read snapshot and the incremental batch between two revisions.
 */
module ReadProtocol {
  import opened Common
  import opened Ordering

  /** The application payload; the read protocol only copies and compares it. */
  type Value(==, !new)

  type RecordId = string

  datatype RecordState =
    | Absent
    | Present(value: Value, version: U64, reference: Option<RecordId>)
    | Tombstone(tombstone: U64)

  datatype BaseVersion = BaseAbsent | Exact(exact: U64)

  datatype Operation =
    | Upsert(recordId: RecordId, baseVersion: BaseVersion, value: Value, reference: Option<RecordId>)
    | Delete(recordId: RecordId, deletedVersion: U64)

  datatype CommitIdentity = CommitIdentity(clientCommitId: string, fingerprint: string)
  datatype ClientCommit = ClientCommit(identity: CommitIdentity, operations: seq<Operation>)

  datatype ConflictResolution =
    | KeepServer
    | PreferServerPolicyV1
    | KeepLocal(replacement: CommitIdentity)
    | Merge(replacement: CommitIdentity)

  datatype DurableOutcome =
    | Accepted(sequence: U64)
    | Conflict(conflictId: RecordId, authoritative: RecordState)
    | Rejected

  datatype ResolvedCommit = ResolvedCommit(
    localCommit: ClientCommit, outcome: DurableOutcome,
    resolution: Option<ConflictResolution>, coveredByReset: bool)

  datatype FeedCursor = FeedCursor(epoch: U64, sequence: U64)
  datatype ScopeSnapshot = ScopeSnapshot(
    identity: string, authorizationRevision: U64, subscriptionRevision: U64)
  datatype Checkpoint = Checkpoint(cursor: FeedCursor, scope: ScopeSnapshot, token: string)
  datatype ResetCoverage = ResetCoverage(cursor: FeedCursor, scope: ScopeSnapshot)

  /** `idMap` and the subscription rows are carried along; the read protocol does not look at them. */
  datatype ClientState = ClientState(
    partitionId: string, clientId: string, requestedScope: string, subscriptionRevision: U64,
    revision: U64, confirmed: map<RecordId, RecordState>, outbox: seq<ClientCommit>,
    outcomes: seq<ResolvedCommit>, checkpoint: Option<Checkpoint>,
    resetCoverage: Option<ResetCoverage>, idMap: map<RecordId, RecordId>,
    subscriptions: Option<map<string, Value>>)

  datatype OptimisticRecord =
    | OptimisticPresent(value: Value, baseVersion: BaseVersion, reference: Option<RecordId>)
    | OptimisticDeleted(deletedVersion: U64)

  // ---------------------------------------------------------------- read model

  datatype ReadScope = ReadScope(
    partitionId: string, scopeIdentity: string, subscriptionRevision: U64,
    authorizationRevision: Option<U64>)
  datatype Readiness = LocalAvailableAwaitingCoverage | AuthorizedScopeAsOf
  datatype Coverage = UnknownCoverage | AuthorizedReset(cursor: FeedCursor)
  datatype Metadata = Metadata(
    revision: U64, scope: ReadScope, asOf: Option<FeedCursor>, readiness: Readiness,
    coverage: Coverage)
  datatype ConfirmedAbsence = NotAbsent | UnknownAbsence | AbsentWithinAuthorizedScope
  datatype ReadConflict = ReadConflict(identity: CommitIdentity, resolution: Option<ConflictResolution>)
  datatype AcceptedStatus = CoveredByAuthorizedReset | AwaitingPullEpochUnknown
  datatype ReadAccepted = ReadAccepted(identity: CommitIdentity, sequence: U64, status: AcceptedStatus)

  datatype ReadRow = ReadRow(
    recordId: RecordId, confirmed: RecordState, confirmedAbsence: ConfirmedAbsence,
    optimistic: Option<OptimisticRecord>, pending: seq<CommitIdentity>,
    conflicts: seq<ReadConflict>, accepted: seq<ReadAccepted>)

  datatype ReadSnapshot = ReadSnapshot(
    protocolVersion: nat, metadata: Metadata, rows: Rows)

  datatype RowChange = UpsertRow(row: ReadRow) | RemoveRow(recordId: RecordId)

  datatype ReadBatch = ReadBatch(
    protocolVersion: nat, beforeRevision: U64, revision: U64, metadata: Metadata,
    changes: seq<RowChange>)

  const READ_PROTOCOL_VERSION: nat := 1

  // ---------------------------------------------------------------- optimistic view

  function AcceptedNotPulled(outcomes: seq<ResolvedCommit>, applied: U64): seq<ClientCommit>
  {
    if outcomes == [] then []
    else
      var r := outcomes[0];
      (if r.outcome.Accepted? && !r.coveredByReset && r.outcome.sequence > applied
       then [r.localCommit] else [])
      + AcceptedNotPulled(outcomes[1..], applied)
  }

  function OptimisticCommits(state: ClientState): seq<ClientCommit>
  {
    var applied := if state.checkpoint.None? then 0 else state.checkpoint.value.cursor.sequence;
    AcceptedNotPulled(state.outcomes, applied) + state.outbox
  }

  function ConfirmedProjection(confirmed: map<RecordId, RecordState>): map<RecordId, OptimisticRecord>
  {
    map id | id in confirmed && !confirmed[id].Absent? ::
      match confirmed[id]
      case Present(value, version, reference) => OptimisticPresent(value, Exact(version), reference)
      case Tombstone(version) => OptimisticDeleted(version)
  }

  function ProjectOperation(base: map<RecordId, OptimisticRecord>, op: Operation)
    : map<RecordId, OptimisticRecord>
  {
    match op
    case Upsert(id, baseVersion, value, reference) =>
      base[id := OptimisticPresent(value, baseVersion, reference)]
    case Delete(id, version) => base[id := OptimisticDeleted(version)]
  }

  function ProjectOperations(base: map<RecordId, OptimisticRecord>, ops: seq<Operation>)
    : map<RecordId, OptimisticRecord>
    decreases |ops|
  {
    if ops == [] then base
    else ProjectOperations(ProjectOperation(base, ops[0]), ops[1..])
  }

  function ProjectCommits(base: map<RecordId, OptimisticRecord>, commits: seq<ClientCommit>)
    : map<RecordId, OptimisticRecord>
    decreases |commits|
  {
    if commits == [] then base
    else ProjectCommits(ProjectOperations(base, commits[0].operations), commits[1..])
  }

  /** Confirmed records, overwritten by accepted-but-unpulled and then by pending operations. */
  function OptimisticProjection(state: ClientState): map<RecordId, OptimisticRecord>
  {
    ProjectCommits(ConfirmedProjection(state.confirmed), OptimisticCommits(state))
  }

  // ---------------------------------------------------------------- one row, read off the state

  function MetadataOf(state: ClientState): Metadata
  {
    Metadata(
      state.revision,
      ReadScope(state.partitionId, state.requestedScope, state.subscriptionRevision,
                if state.checkpoint.None? then None
                else Some(state.checkpoint.value.scope.authorizationRevision)),
      if state.checkpoint.None? then None else Some(state.checkpoint.value.cursor),
      if state.resetCoverage.Some? then AuthorizedScopeAsOf else LocalAvailableAwaitingCoverage,
      if state.resetCoverage.None? then UnknownCoverage
      else AuthorizedReset(state.resetCoverage.value.cursor))
  }

  function EmptyRow(id: RecordId, complete: bool): ReadRow
  {
    ReadRow(id, Absent, if complete then AbsentWithinAuthorizedScope else UnknownAbsence,
            None, [], [], [])
  }

  /** One identity for each of the first `n` operations of the commit on this record. */
  function Touches(commit: ClientCommit, n: nat, id: RecordId): seq<CommitIdentity>
    requires n <= |commit.operations|
  {
    if n == 0 then []
    else Touches(commit, n - 1, id)
         + (if commit.operations[n - 1].recordId == id then [commit.identity] else [])
  }

  function PendingFor(outbox: seq<ClientCommit>, n: nat, id: RecordId): seq<CommitIdentity>
    requires n <= |outbox|
  {
    if n == 0 then []
    else PendingFor(outbox, n - 1, id) + Touches(outbox[n - 1], |outbox[n - 1].operations|, id)
  }

  function AcceptedOf(r: ResolvedCommit): ReadAccepted
    requires r.outcome.Accepted?
  {
    ReadAccepted(r.localCommit.identity, r.outcome.sequence,
                 if r.coveredByReset then CoveredByAuthorizedReset else AwaitingPullEpochUnknown)
  }

  function AcceptedIn(r: ResolvedCommit, n: nat, id: RecordId): seq<ReadAccepted>
    requires n <= |r.localCommit.operations|
  {
    if n == 0 || !r.outcome.Accepted? then []
    else AcceptedIn(r, n - 1, id)
         + (if r.localCommit.operations[n - 1].recordId == id then [AcceptedOf(r)] else [])
  }

  function ConflictsIn(r: ResolvedCommit, n: nat, id: RecordId): seq<ReadConflict>
    requires n <= |r.localCommit.operations|
  {
    if n == 0 || !r.outcome.Conflict? then []
    else ConflictsIn(r, n - 1, id)
         + (if r.localCommit.operations[n - 1].recordId == id
            then [ReadConflict(r.localCommit.identity, r.resolution)] else [])
  }

  function AcceptedFor(outcomes: seq<ResolvedCommit>, n: nat, id: RecordId): seq<ReadAccepted>
    requires n <= |outcomes|
  {
    if n == 0 then []
    else AcceptedFor(outcomes, n - 1, id)
         + AcceptedIn(outcomes[n - 1], |outcomes[n - 1].localCommit.operations|, id)
  }

  function ConflictsFor(outcomes: seq<ResolvedCommit>, n: nat, id: RecordId): seq<ReadConflict>
    requires n <= |outcomes|
  {
    if n == 0 then []
    else ConflictsFor(outcomes, n - 1, id)
         + ConflictsIn(outcomes[n - 1], |outcomes[n - 1].localCommit.operations|, id)
  }

  /** Everything the state says about one record, whether or not it has a row. */
  function RowOf(state: ClientState, id: RecordId): ReadRow
  {
    var optimistic := OptimisticProjection(state);
    var empty := EmptyRow(id, state.resetCoverage.Some?);
    ReadRow(
      id,
      if id in state.confirmed then state.confirmed[id] else Absent,
      if id in state.confirmed then NotAbsent else empty.confirmedAbsence,
      if id in optimistic then Some(optimistic[id]) else None,
      PendingFor(state.outbox, |state.outbox|, id),
      ConflictsFor(state.outcomes, |state.outcomes|, id),
      AcceptedFor(state.outcomes, |state.outcomes|, id))
  }

  // ---------------------------------------------------------------- the accumulating passes

  type Rows = map<RecordId, ReadRow>

  /** `rows.entry(id).or_insert_with(empty_row)`. */
  function Entry(rows: Rows, id: RecordId, complete: bool): ReadRow
  {
    if id in rows then rows[id] else EmptyRow(id, complete)
  }

  function ConfirmedRow(confirmed: map<RecordId, RecordState>, id: RecordId, complete: bool): ReadRow
    requires id in confirmed
  {
    EmptyRow(id, complete).(confirmed := confirmed[id], confirmedAbsence := NotAbsent)
  }

  function ConfirmedRows(confirmed: map<RecordId, RecordState>, complete: bool): Rows
  {
    map id | id in confirmed :: ConfirmedRow(confirmed, id, complete)
  }

  function WithOptimistic(row: ReadRow, projection: map<RecordId, OptimisticRecord>, id: RecordId): ReadRow
  {
    if id in projection then row.(optimistic := Some(projection[id])) else row
  }

  function OptimisticRows(rows: Rows, projection: map<RecordId, OptimisticRecord>, complete: bool): Rows
  {
    map id | id in rows.Keys + projection.Keys ::
      WithOptimistic(Entry(rows, id, complete), projection, id)
  }

  function PushPending(rows: Rows, id: RecordId, identity: CommitIdentity, complete: bool): Rows
  {
    var row := Entry(rows, id, complete);
    rows[id := row.(pending := row.pending + [identity])]
  }

  function CommitRows(rows: Rows, commit: ClientCommit, n: nat, complete: bool): Rows
    requires n <= |commit.operations|
  {
    if n == 0 then rows
    else PushPending(CommitRows(rows, commit, n - 1, complete),
                     commit.operations[n - 1].recordId, commit.identity, complete)
  }

  function OutboxRows(rows: Rows, outbox: seq<ClientCommit>, n: nat, complete: bool): Rows
    requires n <= |outbox|
  {
    if n == 0 then rows
    else CommitRows(OutboxRows(rows, outbox, n - 1, complete),
                    outbox[n - 1], |outbox[n - 1].operations|, complete)
  }

  function PushOutcome(rows: Rows, id: RecordId, r: ResolvedCommit, complete: bool): Rows
  {
    var row := Entry(rows, id, complete);
    match r.outcome
    case Accepted(_) => rows[id := row.(accepted := row.accepted + [AcceptedOf(r)])]
    case Conflict(_, _) =>
      rows[id := row.(conflicts := row.conflicts + [ReadConflict(r.localCommit.identity, r.resolution)])]
    case Rejected => rows
  }

  function ResolvedRows(rows: Rows, r: ResolvedCommit, n: nat, complete: bool): Rows
    requires n <= |r.localCommit.operations|
  {
    if n == 0 then rows
    else PushOutcome(ResolvedRows(rows, r, n - 1, complete),
                     r.localCommit.operations[n - 1].recordId, r, complete)
  }

  function OutcomeRows(rows: Rows, outcomes: seq<ResolvedCommit>, n: nat, complete: bool): Rows
    requires n <= |outcomes|
  {
    if n == 0 then rows
    else ResolvedRows(OutcomeRows(rows, outcomes, n - 1, complete),
                      outcomes[n - 1], |outcomes[n - 1].localCommit.operations|, complete)
  }

  function RowsOf(state: ClientState): Rows
  {
    var complete := state.resetCoverage.Some?;
    var visible := OptimisticRows(ConfirmedRows(state.confirmed, complete),
                                  OptimisticProjection(state), complete);
    OutcomeRows(OutboxRows(visible, state.outbox, |state.outbox|, complete),
                state.outcomes, |state.outcomes|, complete)
  }

  function SnapshotOf(state: ClientState): ReadSnapshot
  {
    ReadSnapshot(READ_PROTOCOL_VERSION, MetadataOf(state), RowsOf(state))
  }

  /** `ReadSnapshotV1::row`: a missing row is authoritative absence only under reset coverage. */
  function RowIn(snapshot: ReadSnapshot, id: RecordId): ReadRow
  {
    Entry(snapshot.rows, id, snapshot.metadata.coverage.AuthorizedReset?)
  }

  // ---------------------------------------------------------------- each pass, one record at a time

  function WithPending(row: ReadRow, more: seq<CommitIdentity>): ReadRow
  {
    row.(pending := row.pending + more)
  }

  lemma WithPendingTwice(row: ReadRow, a: seq<CommitIdentity>, b: seq<CommitIdentity>)
    ensures WithPending(WithPending(row, a), b) == WithPending(row, a + b)
  {
    assert row.pending + a + b == row.pending + (a + b);
  }

  lemma {:induction false} CommitRowAt(rows: Rows, commit: ClientCommit, n: nat, complete: bool, id: RecordId)
    requires n <= |commit.operations|
    ensures
      var after, more := CommitRows(rows, commit, n, complete), Touches(commit, n, id);
      && (id in after <==> id in rows || more != [])
      && Entry(after, id, complete) == WithPending(Entry(rows, id, complete), more)
  {
    if n > 0 {
      CommitRowAt(rows, commit, n - 1, complete, id);
      WithPendingTwice(Entry(rows, id, complete), Touches(commit, n - 1, id), [commit.identity]);
    }
  }

  lemma {:induction false} OutboxRowAt(rows: Rows, outbox: seq<ClientCommit>, n: nat, complete: bool, id: RecordId)
    requires n <= |outbox|
    ensures
      var after, more := OutboxRows(rows, outbox, n, complete), PendingFor(outbox, n, id);
      && (id in after <==> id in rows || more != [])
      && Entry(after, id, complete) == WithPending(Entry(rows, id, complete), more)
  {
    if n > 0 {
      OutboxRowAt(rows, outbox, n - 1, complete, id);
      CommitRowAt(OutboxRows(rows, outbox, n - 1, complete), outbox[n - 1],
                  |outbox[n - 1].operations|, complete, id);
      WithPendingTwice(Entry(rows, id, complete), PendingFor(outbox, n - 1, id),
                       Touches(outbox[n - 1], |outbox[n - 1].operations|, id));
    }
  }

  function WithOutcomes(row: ReadRow, conflicts: seq<ReadConflict>, accepted: seq<ReadAccepted>): ReadRow
  {
    row.(conflicts := row.conflicts + conflicts, accepted := row.accepted + accepted)
  }

  lemma WithOutcomesTwice(
    row: ReadRow, c: seq<ReadConflict>, a: seq<ReadAccepted>, c': seq<ReadConflict>, a': seq<ReadAccepted>)
    ensures WithOutcomes(WithOutcomes(row, c, a), c', a') == WithOutcomes(row, c + c', a + a')
  {
    assert row.conflicts + c + c' == row.conflicts + (c + c');
    assert row.accepted + a + a' == row.accepted + (a + a');
  }

  lemma {:induction false} ResolvedRowAt(rows: Rows, r: ResolvedCommit, n: nat, complete: bool, id: RecordId)
    requires n <= |r.localCommit.operations|
    ensures
      var after := ResolvedRows(rows, r, n, complete);
      && (id in after <==> id in rows || ConflictsIn(r, n, id) != [] || AcceptedIn(r, n, id) != [])
      && Entry(after, id, complete)
         == WithOutcomes(Entry(rows, id, complete), ConflictsIn(r, n, id), AcceptedIn(r, n, id))
  {
    if n > 0 {
      ResolvedRowAt(rows, r, n - 1, complete, id);
      var row, c, a := Entry(rows, id, complete), ConflictsIn(r, n - 1, id), AcceptedIn(r, n - 1, id);
      if r.outcome.Accepted? {
        WithOutcomesTwice(row, c, a, [], [AcceptedOf(r)]);
      } else if r.outcome.Conflict? {
        WithOutcomesTwice(row, c, a, [ReadConflict(r.localCommit.identity, r.resolution)], []);
      }
    }
  }

  lemma {:induction false} OutcomeRowAt(rows: Rows, outcomes: seq<ResolvedCommit>, n: nat, complete: bool, id: RecordId)
    requires n <= |outcomes|
    ensures
      var after := OutcomeRows(rows, outcomes, n, complete);
      && (id in after <==> id in rows || ConflictsFor(outcomes, n, id) != [] || AcceptedFor(outcomes, n, id) != [])
      && Entry(after, id, complete)
         == WithOutcomes(Entry(rows, id, complete), ConflictsFor(outcomes, n, id), AcceptedFor(outcomes, n, id))
  {
    if n > 0 {
      OutcomeRowAt(rows, outcomes, n - 1, complete, id);
      ResolvedRowAt(OutcomeRows(rows, outcomes, n - 1, complete), outcomes[n - 1],
                    |outcomes[n - 1].localCommit.operations|, complete, id);
      var r := outcomes[n - 1];
      WithOutcomesTwice(Entry(rows, id, complete), ConflictsFor(outcomes, n - 1, id), AcceptedFor(outcomes, n - 1, id),
                        ConflictsIn(r, |r.localCommit.operations|, id), AcceptedIn(r, |r.localCommit.operations|, id));
    }
  }

  /** The row after the confirmed and optimistic passes. */
  ghost function VisibleRow(state: ClientState, id: RecordId): ReadRow
  {
    RowOf(state, id).(pending := [], conflicts := [], accepted := [])
  }

  lemma VisibleRowAt(state: ClientState, id: RecordId)
    ensures
      var complete := state.resetCoverage.Some?;
      var visible := OptimisticRows(ConfirmedRows(state.confirmed, complete),
                                    OptimisticProjection(state), complete);
      && Entry(visible, id, complete) == VisibleRow(state, id)
      && (id in visible <==> VisibleRow(state, id) != EmptyRow(id, complete))
  {
  }

  /**
   Asking a snapshot for any record, present or missing, answers what the state says of it, and
   exactly the records the state says something about have a row.
   */
  lemma RowInSnapshot(state: ClientState, id: RecordId)
    ensures RowIn(SnapshotOf(state), id) == RowOf(state, id)
    ensures id in SnapshotOf(state).rows <==> RowOf(state, id) != EmptyRow(id, state.resetCoverage.Some?)
  {
    var complete := state.resetCoverage.Some?;
    var visible := OptimisticRows(ConfirmedRows(state.confirmed, complete),
                                  OptimisticProjection(state), complete);
    var queued := OutboxRows(visible, state.outbox, |state.outbox|, complete);
    VisibleRowAt(state, id);
    OutboxRowAt(visible, state.outbox, |state.outbox|, complete, id);
    OutcomeRowAt(queued, state.outcomes, |state.outcomes|, complete, id);
  }

  predicate RowsNamed(rows: Rows) {
    forall id | id in rows :: rows[id].recordId == id
  }

  lemma SnapshotRowsNamed(state: ClientState)
    ensures RowsNamed(SnapshotOf(state).rows)
  {
    forall id | id in SnapshotOf(state).rows ensures SnapshotOf(state).rows[id].recordId == id {
      RowInSnapshot(state, id);
    }
  }

  // ---------------------------------------------------------------- the loops themselves

  method CollectConfirmed(confirmed: map<RecordId, RecordState>, complete: bool) returns (rows: Rows)
    ensures rows == ConfirmedRows(confirmed, complete)
  {
    rows := map[];
    var rest := confirmed.Keys;
    while rest != {}
      invariant forall id | id in rest :: id in confirmed
      invariant forall id :: id in rows <==> id in confirmed && id !in rest
      invariant forall id | id in rows :: rows[id] == ConfirmedRow(confirmed, id, complete)
      decreases |rest|
    {
      var id :| id in rest;
      rows := rows[id := ConfirmedRow(confirmed, id, complete)];
      rest := rest - {id};
    }
  }

  lemma OptimisticRowsAre(rows: Rows, before: Rows, projection: map<RecordId, OptimisticRecord>, complete: bool)
    requires forall id :: id in rows <==> id in before || id in projection
    requires forall id | id in rows ::
               rows[id] == WithOptimistic(Entry(before, id, complete), projection, id)
    ensures rows == OptimisticRows(before, projection, complete)
  {
    var all := OptimisticRows(before, projection, complete);
    forall id ensures Lookup(rows, id) == Lookup(all, id) {
      assert id in all <==> id in before.Keys + projection.Keys;
    }
    SameLookups(rows, all);
  }

  method CollectOptimistic(before: Rows, projection: map<RecordId, OptimisticRecord>, complete: bool)
    returns (rows: Rows)
    ensures rows == OptimisticRows(before, projection, complete)
  {
    rows := before;
    var rest := projection.Keys;
    while rest != {}
      invariant forall id | id in rest :: id in projection
      invariant forall id :: id in rows <==> id in before || (id in projection && id !in rest)
      invariant forall id | id in rest && id in rows :: rows[id] == before[id]
      invariant forall id | id in rows && id !in rest ::
                  rows[id] == WithOptimistic(Entry(before, id, complete), projection, id)
      decreases |rest|
    {
      var id :| id in rest;
      rows := rows[id := Entry(rows, id, complete).(optimistic := Some(projection[id]))];
      rest := rest - {id};
    }
    OptimisticRowsAre(rows, before, projection, complete);
  }

  method CollectPending(before: Rows, outbox: seq<ClientCommit>, complete: bool) returns (rows: Rows)
    ensures rows == OutboxRows(before, outbox, |outbox|, complete)
  {
    rows := before;
    for i := 0 to |outbox|
      invariant rows == OutboxRows(before, outbox, i, complete)
    {
      var commit := outbox[i];
      for j := 0 to |commit.operations|
        invariant rows == CommitRows(OutboxRows(before, outbox, i, complete), commit, j, complete)
      {
        var id := commit.operations[j].recordId;
        var row := Entry(rows, id, complete);
        rows := rows[id := row.(pending := row.pending + [commit.identity])];
      }
    }
  }

  method CollectOutcomes(before: Rows, outcomes: seq<ResolvedCommit>, complete: bool) returns (rows: Rows)
    ensures rows == OutcomeRows(before, outcomes, |outcomes|, complete)
  {
    rows := before;
    for i := 0 to |outcomes|
      invariant rows == OutcomeRows(before, outcomes, i, complete)
    {
      var r := outcomes[i];
      var ops := r.localCommit.operations;
      for j := 0 to |ops|
        invariant rows == ResolvedRows(OutcomeRows(before, outcomes, i, complete), r, j, complete)
      {
        var id := ops[j].recordId;
        match r.outcome {
          case Accepted(_) =>
            var row := Entry(rows, id, complete);
            rows := rows[id := row.(accepted := row.accepted + [AcceptedOf(r)])];
          case Conflict(_, _) =>
            var row := Entry(rows, id, complete);
            rows := rows[id := row.(conflicts := row.conflicts
                                    + [ReadConflict(r.localCommit.identity, r.resolution)])];
          case Rejected =>
        }
      }
    }
  }

  /** The four accumulating loops build exactly the record-by-record reading of the state. */
  method Snapshot(state: ClientState) returns (snapshot: ReadSnapshot)
    ensures snapshot == SnapshotOf(state)
    ensures forall id :: RowIn(snapshot, id) == RowOf(state, id)
    ensures forall id :: id in snapshot.rows <==> RowOf(state, id) != EmptyRow(id, state.resetCoverage.Some?)
  {
    var complete := state.resetCoverage.Some?;
    var rows := CollectConfirmed(state.confirmed, complete);
    var projection := OptimisticProjection(state);
    rows := CollectOptimistic(rows, projection, complete);
    rows := CollectPending(rows, state.outbox, complete);
    rows := CollectOutcomes(rows, state.outcomes, complete);
    snapshot := ReadSnapshot(READ_PROTOCOL_VERSION, MetadataOf(state), rows);
    forall id
      ensures RowIn(snapshot, id) == RowOf(state, id)
      ensures id in snapshot.rows <==> RowOf(state, id) != EmptyRow(id, state.resetCoverage.Some?)
    {
      RowInSnapshot(state, id);
    }
  }

  // ---------------------------------------------------------------- incremental batches

  function Lookup(rows: Rows, id: RecordId): Option<ReadRow>
  {
    if id in rows then Some(rows[id]) else None
  }

  function ChangeOf(before: Rows, after: Rows, id: RecordId): seq<RowChange>
  {
    if Lookup(before, id) == Lookup(after, id) then []
    else if id in after then [UpsertRow(after[id])]
    else [RemoveRow(id)]
  }

  /** The changes of the first `n` records. */
  function RowChangesOf(before: Rows, after: Rows, ids: seq<RecordId>, n: nat): (changes: seq<RowChange>)
    requires n <= |ids|
  {
    if n == 0 then []
    else RowChangesOf(before, after, ids, n - 1) + ChangeOf(before, after, ids[n - 1])
  }

  function ChangesBetween(before: Rows, after: Rows): (changes: seq<RowChange>)
  {
    var ids := Ascending(before.Keys + after.Keys);
    RowChangesOf(before, after, ids, |ids|)
  }

  function BatchBetween(before: ReadSnapshot, after: ReadSnapshot): (batch: ReadBatch)
  {
    ReadBatch(
      READ_PROTOCOL_VERSION, before.metadata.revision, after.metadata.revision, after.metadata,
      ChangesBetween(before.rows, after.rows))
  }

  /** `committed_batch` as a function of the two states. */
  function CommittedBatch(before: ClientState, after: ClientState): (batch: Option<ReadBatch>)
  {
    if before.revision == after.revision then None
    else Some(BatchBetween(SnapshotOf(before), SnapshotOf(after)))
  }

  method DiffRows(before: Rows, after: Rows, ids: seq<RecordId>) returns (changes: seq<RowChange>)
    ensures changes == RowChangesOf(before, after, ids, |ids|)
  {
    changes := [];
    for i := 0 to |ids|
      invariant changes == RowChangesOf(before, after, ids, i)
    {
      var id := ids[i];
      var now := Lookup(after, id);
      if Lookup(before, id) != now {
        changes := changes + [if now.Some? then UpsertRow(now.value) else RemoveRow(id)];
      }
    }
  }

  method ComputeCommittedBatch(before: ClientState, after: ClientState)
    returns (batch: Option<ReadBatch>)
    ensures batch.Some? <==> before.revision != after.revision
    ensures batch == CommittedBatch(before, after)
  {
    if before.revision == after.revision { return None; }
    var earlier := Snapshot(before);
    var later := Snapshot(after);
    var changes := DiffRows(earlier.rows, later.rows, Ascending(earlier.rows.Keys + later.rows.Keys));
    batch := Some(ReadBatch(READ_PROTOCOL_VERSION, earlier.metadata.revision, later.metadata.revision,
                            later.metadata, changes));
  }

  function ChangeId(change: RowChange): RecordId {
    if change.UpsertRow? then change.row.recordId else change.recordId
  }

  /** What a reader does with one change, one batch. */
  function ApplyChange(rows: Rows, change: RowChange): Rows
  {
    match change
    case UpsertRow(row) => rows[row.recordId := row]
    case RemoveRow(id) => rows - {id}
  }

  function ApplyChanges(rows: Rows, changes: seq<RowChange>): Rows
  {
    if changes == [] then rows
    else ApplyChange(ApplyChanges(rows, changes[..|changes| - 1]), changes[|changes| - 1])
  }

  function ApplyBatch(snapshot: ReadSnapshot, batch: ReadBatch): ReadSnapshot
  {
    ReadSnapshot(batch.protocolVersion, batch.metadata, ApplyChanges(snapshot.rows, batch.changes))
  }

  lemma SameLookups(a: Rows, b: Rows)
    requires forall id :: Lookup(a, id) == Lookup(b, id)
    ensures a == b
  {
    assert forall id :: id in a <==> Lookup(a, id).Some?;
    assert forall id :: id in b <==> Lookup(b, id).Some?;
    assert forall id | id in a :: Lookup(a, id).value == a[id] && Lookup(b, id).value == b[id];
  }

  lemma ApplyChangeAt(rows: Rows, change: RowChange, id: RecordId)
    ensures Lookup(ApplyChange(rows, change), id)
            == if ChangeId(change) != id then Lookup(rows, id)
               else if change.UpsertRow? then Some(change.row)
               else None
  {
  }

  /** One more record's change settles that record and no other. */
  lemma ChangeSettles(before: Rows, after: Rows, done: seq<RowChange>, next: RecordId, id: RecordId)
    requires RowsNamed(after)
    requires id == next ==> Lookup(ApplyChanges(before, done), id) == Lookup(before, id)
                            || Lookup(ApplyChanges(before, done), id) == Lookup(after, id)
    ensures Lookup(ApplyChanges(before, done + ChangeOf(before, after, next)), id)
            == if id == next then Lookup(after, id) else Lookup(ApplyChanges(before, done), id)
  {
    var last := ChangeOf(before, after, next);
    if last == [] {
      assert done + last == done;
    } else {
      assert (done + last)[..|done + last| - 1] == done;
      ApplyChangeAt(ApplyChanges(before, done), last[0], id);
    }
  }

  /** After the changes of a prefix of the ids, those ids already agree with `after`. */
  lemma {:induction false} ChangesMove(before: Rows, after: Rows, ids: seq<RecordId>, n: nat, id: RecordId)
    requires RowsNamed(after) && n <= |ids|
    ensures Lookup(ApplyChanges(before, RowChangesOf(before, after, ids, n)), id)
            == Lookup(if id in ids[..n] then after else before, id)
  {
    if n > 0 {
      ChangesMove(before, after, ids, n - 1, id);
      ChangeSettles(before, after, RowChangesOf(before, after, ids, n - 1), ids[n - 1], id);
      assert id in ids[..n] <==> id in ids[..n - 1] || id == ids[n - 1];
    }
  }

  lemma BatchBetweenReplays(before: ReadSnapshot, after: ReadSnapshot)
    requires RowsNamed(after.rows) && after.protocolVersion == READ_PROTOCOL_VERSION
    ensures ApplyBatch(before, BatchBetween(before, after)) == after
  {
    var ids := Ascending(before.rows.Keys + after.rows.Keys);
    var moved := ApplyChanges(before.rows, ChangesBetween(before.rows, after.rows));
    forall id ensures Lookup(moved, id) == Lookup(after.rows, id) {
      ChangesMove(before.rows, after.rows, ids, |ids|, id);
      assert ids[..|ids|] == ids;
      assert id in ids <==> id in before.rows.Keys + after.rows.Keys;
    }
    SameLookups(moved, after.rows);
  }

  /** The batch carries the reader exactly from the snapshot before to the snapshot after. */
  lemma BatchReplays(before: ClientState, after: ClientState)
    requires before.revision != after.revision
    ensures ApplyBatch(SnapshotOf(before), CommittedBatch(before, after).value) == SnapshotOf(after)
    ensures CommittedBatch(before, after).value.beforeRevision == before.revision
    ensures CommittedBatch(before, after).value.revision == after.revision
  {
    SnapshotRowsNamed(after);
    BatchBetweenReplays(SnapshotOf(before), SnapshotOf(after));
  }

  /** A change that is not redundant: the two snapshots really differ there, and this is how. */
  predicate RealChange(before: Rows, after: Rows, c: RowChange) {
    Lookup(before, ChangeId(c)) != Lookup(after, ChangeId(c))
    && (c.UpsertRow? <==> ChangeId(c) in after)
    && (c.UpsertRow? ==> c.row == after[ChangeId(c)])
  }

  /** Change `i` is real and belongs to an id among the first `n`. */
  ghost predicate ChangeWithin(before: Rows, after: Rows, ids: seq<RecordId>, n: nat, c: RowChange)
    requires n <= |ids|
  {
    RealChange(before, after, c) && exists k | 0 <= k < n :: ids[k] == ChangeId(c)
  }

  lemma {:induction false} ChangesAreReal(before: Rows, after: Rows, ids: seq<RecordId>, n: nat, i: nat)
    requires RowsNamed(after) && n <= |ids| && i < |RowChangesOf(before, after, ids, n)|
    ensures ChangeWithin(before, after, ids, n, RowChangesOf(before, after, ids, n)[i])
  {
    var done := RowChangesOf(before, after, ids, n - 1);
    if i < |done| {
      ChangesAreReal(before, after, ids, n - 1, i);
    } else {
      assert RowChangesOf(before, after, ids, n)[i] == ChangeOf(before, after, ids[n - 1])[0];
    }
  }

  lemma {:induction false} ChangesAscend(before: Rows, after: Rows, ids: seq<RecordId>, n: nat, i: nat, j: nat)
    requires RowsNamed(after) && n <= |ids| && i < j < |RowChangesOf(before, after, ids, n)|
    requires forall a, b | 0 <= a < b < |ids| :: Less(ids[a], ids[b])
    ensures Less(ChangeId(RowChangesOf(before, after, ids, n)[i]), ChangeId(RowChangesOf(before, after, ids, n)[j]))
  {
    var done, all := RowChangesOf(before, after, ids, n - 1), RowChangesOf(before, after, ids, n);
    if j < |done| {
      ChangesAscend(before, after, ids, n - 1, i, j);
    } else {
      ChangesAreReal(before, after, ids, n - 1, i);
      assert all[i] == done[i] && all[j] == ChangeOf(before, after, ids[n - 1])[0];
    }
  }

  /** A batch lists real changes only, each record once, in ascending order. */
  lemma BatchIsMinimal(before: Rows, after: Rows)
    requires RowsNamed(after)
    ensures forall c | c in ChangesBetween(before, after) :: RealChange(before, after, c)
    ensures
      var changes := ChangesBetween(before, after);
      forall i, j | 0 <= i < j < |changes| :: Less(ChangeId(changes[i]), ChangeId(changes[j]))
  {
    var ids, changes := Ascending(before.Keys + after.Keys), ChangesBetween(before, after);
    forall i | 0 <= i < |changes| ensures RealChange(before, after, changes[i]) {
      ChangesAreReal(before, after, ids, |ids|, i);
    }
    forall i, j | 0 <= i < j < |changes| ensures Less(ChangeId(changes[i]), ChangeId(changes[j])) {
      ChangesAscend(before, after, ids, |ids|, i, j);
    }
  }

  // ---------------------------------------------------------------- preparing a transition

  datatype PrepareError = RevisionExhausted | InvalidState
  datatype Prepared = Prepared(baseRevision: U64, state: ClientState)

  /**
   `ClientRuntime::prepare`: `edited` is the current state with any fields but the revision changed;
   `valid` is the verdict of the state validator.
   */
  function Prepare(state: ClientState, edited: ClientState, valid: bool): (r: Result<Prepared, PrepareError>)
    requires edited.revision == state.revision
    ensures r.Ok? && r.value.state.revision == state.revision ==> r.value.state == state
    ensures r == Err(RevisionExhausted) <==> edited != state && state.revision == U64_MAX
    ensures r == Err(InvalidState) <==> !(edited != state && state.revision == U64_MAX) && !valid
    ensures r.Ok? ==> r.value.baseRevision == state.revision
    ensures r.Ok? ==> r.value.state == edited.(revision := r.value.state.revision)
    ensures r.Ok? ==> r.value.state == state || r.value.state.revision == state.revision + 1
  {
    if edited != state && state.revision == U64_MAX then Err(RevisionExhausted)
    else if !valid then Err(InvalidState)
    else Ok(Prepared(state.revision,
                     if edited != state then edited.(revision := state.revision + 1) else state))
  }
}
