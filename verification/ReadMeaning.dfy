/**
 What a snapshot says about one record, by positions in the state: which operation it shows, which
 commits are pending on it, and what became of the settled ones.
 */
module ReadMeaning {
  import opened Common
  import opened ReadProtocol

  // ---------------------------------------------------------------- positions

  predicate At(ops: seq<Operation>, j: nat, id: RecordId) { j < |ops| && ops[j].recordId == id }

  predicate NoneIn(ops: seq<Operation>, id: RecordId) { forall j | 0 <= j < |ops| :: ops[j].recordId != id }

  predicate LastIn(ops: seq<Operation>, j: nat, id: RecordId) {
    At(ops, j, id) && forall i | j < i < |ops| :: ops[i].recordId != id
  }

  /** The `j`-th operation of the `k`-th commit is the last of all on this record. */
  predicate LastOf(commits: seq<ClientCommit>, k: nat, j: nat, id: RecordId) {
    && k < |commits| && LastIn(commits[k].operations, j, id)
    && forall i | k < i < |commits| :: NoneIn(commits[i].operations, id)
  }

  predicate NoneOf(commits: seq<ClientCommit>, id: RecordId) {
    forall k | 0 <= k < |commits| :: NoneIn(commits[k].operations, id)
  }

  /** Accepted by the server, not yet seen through a pull and not covered by a reset. */
  predicate Unpulled(state: ClientState, k: nat) {
    && k < |state.outcomes| && state.outcomes[k].outcome.Accepted? && !state.outcomes[k].coveredByReset
    && (if state.checkpoint.Some? then state.outcomes[k].outcome.sequence > state.checkpoint.value.cursor.sequence
        else state.outcomes[k].outcome.sequence > 0)
  }

  predicate LastUnpulled(state: ClientState, k: nat, j: nat, id: RecordId) {
    && Unpulled(state, k) && LastIn(state.outcomes[k].localCommit.operations, j, id)
    && forall i | k < i < |state.outcomes| && Unpulled(state, i) :: NoneIn(state.outcomes[i].localCommit.operations, id)
  }

  predicate NoneUnpulled(state: ClientState, id: RecordId) {
    forall k | 0 <= k < |state.outcomes| && Unpulled(state, k) :: NoneIn(state.outcomes[k].localCommit.operations, id)
  }

  /** The optimistic record an operation leaves. */
  predicate Leaves(op: Operation, o: OptimisticRecord) {
    match op
    case Upsert(_, base, value, reference) =>
      o.OptimisticPresent? && o.value == value && o.baseVersion == base && o.reference == reference
    case Delete(_, version) => o.OptimisticDeleted? && o.deletedVersion == version
  }

  predicate ShowsConfirmed(state: ClientState, id: RecordId, o: Option<OptimisticRecord>) {
    if id !in state.confirmed || state.confirmed[id].Absent? then o.None?
    else
      match state.confirmed[id]
      case Present(value, version, reference) =>
        o.Some? && o.value.OptimisticPresent? && o.value.value == value && o.value.baseVersion == Exact(version)
        && o.value.reference == reference
      case Tombstone(version) => o.Some? && o.value.OptimisticDeleted? && o.value.deletedVersion == version
      case Absent => true
  }

  // ---------------------------------------------------------------- the projection, by positions

  type Projection = map<RecordId, OptimisticRecord>

  function Find(p: Projection, id: RecordId): Option<OptimisticRecord>
  {
    if id in p then Some(p[id]) else None
  }

  lemma {:induction false} OpsNone(base: Projection, ops: seq<Operation>, id: RecordId)
    requires NoneIn(ops, id)
    ensures Find(ProjectOperations(base, ops), id) == Find(base, id)
    decreases |ops|
  {
    if ops != [] {
      assert ops[0].recordId != id;
      OpsNone(ProjectOperation(base, ops[0]), ops[1..], id);
    }
  }

  lemma {:induction false} OpsLast(base: Projection, ops: seq<Operation>, j: nat, id: RecordId)
    requires LastIn(ops, j, id)
    ensures Find(ProjectOperations(base, ops), id).Some?
    ensures Leaves(ops[j], Find(ProjectOperations(base, ops), id).value)
    decreases |ops|
  {
    var next := ProjectOperation(base, ops[0]);
    if j == 0 {
      OpsNone(next, ops[1..], id);
    } else {
      assert ops[1..][j - 1] == ops[j];
      OpsLast(next, ops[1..], j - 1, id);
    }
  }

  lemma {:induction false} CommitsNone(base: Projection, commits: seq<ClientCommit>, id: RecordId)
    requires NoneOf(commits, id)
    ensures Find(ProjectCommits(base, commits), id) == Find(base, id)
    decreases |commits|
  {
    if commits != [] {
      OpsNone(base, commits[0].operations, id);
      CommitsNone(ProjectOperations(base, commits[0].operations), commits[1..], id);
    }
  }

  lemma {:induction false} CommitsLast(base: Projection, commits: seq<ClientCommit>, k: nat, j: nat, id: RecordId)
    requires LastOf(commits, k, j, id)
    ensures Find(ProjectCommits(base, commits), id).Some?
    ensures Leaves(commits[k].operations[j], Find(ProjectCommits(base, commits), id).value)
    decreases |commits|
  {
    var next := ProjectOperations(base, commits[0].operations);
    if k == 0 {
      OpsLast(base, commits[0].operations, j, id);
      CommitsNone(next, commits[1..], id);
    } else {
      assert commits[1..][k - 1] == commits[k];
      CommitsLast(next, commits[1..], k - 1, j, id);
    }
  }

  lemma {:induction false} CommitsConcat(base: Projection, a: seq<ClientCommit>, b: seq<ClientCommit>)
    ensures ProjectCommits(base, a + b) == ProjectCommits(ProjectCommits(base, a), b)
    decreases |a|
  {
    if a == [] {
      assert a + b == b;
    } else {
      assert (a + b)[0] == a[0] && (a + b)[1..] == a[1..] + b;
      CommitsConcat(ProjectOperations(base, a[0].operations), a[1..], b);
    }
  }

  // ---------------------------------------------------------------- accepted and not yet pulled

  predicate Eligible(r: ResolvedCommit, applied: U64) {
    r.outcome.Accepted? && !r.coveredByReset && r.outcome.sequence > applied
  }

  lemma {:induction false} EligibleNone(outcomes: seq<ResolvedCommit>, applied: U64, id: RecordId)
    requires forall k | 0 <= k < |outcomes| && Eligible(outcomes[k], applied) ::
               NoneIn(outcomes[k].localCommit.operations, id)
    ensures NoneOf(AcceptedNotPulled(outcomes, applied), id)
  {
    if outcomes != [] {
      EligibleNone(outcomes[1..], applied, id);
      assert Eligible(outcomes[0], applied) ==> NoneIn(outcomes[0].localCommit.operations, id);
    }
  }

  lemma {:induction false} EligibleLast(
    outcomes: seq<ResolvedCommit>, applied: U64, k: nat, j: nat, id: RecordId) returns (at: nat)
    requires k < |outcomes| && Eligible(outcomes[k], applied) && LastIn(outcomes[k].localCommit.operations, j, id)
    requires forall i | k < i < |outcomes| && Eligible(outcomes[i], applied) ::
               NoneIn(outcomes[i].localCommit.operations, id)
    ensures LastOf(AcceptedNotPulled(outcomes, applied), at, j, id)
    ensures AcceptedNotPulled(outcomes, applied)[at] == outcomes[k].localCommit
  {
    var rest := outcomes[1..];
    if k == 0 {
      EligibleNone(rest, applied, id);
      at := 0;
    } else {
      assert rest[k - 1] == outcomes[k];
      forall i | k - 1 < i < |rest| && Eligible(rest[i], applied) ensures NoneIn(rest[i].localCommit.operations, id) {
        assert rest[i] == outcomes[i + 1];
      }
      at := EligibleLast(rest, applied, k - 1, j, id);
      if Eligible(outcomes[0], applied) { at := at + 1; }
    }
  }

  function Applied(state: ClientState): U64
  {
    if state.checkpoint.None? then 0 else state.checkpoint.value.cursor.sequence
  }

  lemma AcceptedLast(state: ClientState, base: Projection, k: nat, j: nat, id: RecordId)
    requires LastUnpulled(state, k, j, id)
    ensures var p := ProjectCommits(base, AcceptedNotPulled(state.outcomes, Applied(state)));
            Find(p, id).Some? && Leaves(state.outcomes[k].localCommit.operations[j], Find(p, id).value)
  {
    forall i | k < i < |state.outcomes| && Eligible(state.outcomes[i], Applied(state))
      ensures NoneIn(state.outcomes[i].localCommit.operations, id)
    {
      assert Unpulled(state, i);
    }
    var at := EligibleLast(state.outcomes, Applied(state), k, j, id);
    CommitsLast(base, AcceptedNotPulled(state.outcomes, Applied(state)), at, j, id);
  }

  lemma AcceptedNone(state: ClientState, base: Projection, id: RecordId)
    requires NoneUnpulled(state, id)
    ensures Find(ProjectCommits(base, AcceptedNotPulled(state.outcomes, Applied(state))), id) == Find(base, id)
  {
    forall i | 0 <= i < |state.outcomes| && Eligible(state.outcomes[i], Applied(state))
      ensures NoneIn(state.outcomes[i].localCommit.operations, id)
    {
      assert Unpulled(state, i);
    }
    EligibleNone(state.outcomes, Applied(state), id);
    CommitsNone(base, AcceptedNotPulled(state.outcomes, Applied(state)), id);
  }

  /**
   The optimistic record a reader sees: what the last pending operation on the record leaves; with
   none pending, what the last accepted and unpulled one leaves; with none of those either, the
   confirmed record, and nothing when that is absent.
   */
  lemma OptimisticMeaning(state: ClientState, id: RecordId)
    ensures var shown := RowIn(SnapshotOf(state), id).optimistic;
            && (forall k: nat, j: nat | LastOf(state.outbox, k, j, id) ::
                  shown.Some? && Leaves(state.outbox[k].operations[j], shown.value))
            && (NoneOf(state.outbox, id) ==>
                  forall k: nat, j: nat | LastUnpulled(state, k, j, id) ::
                    shown.Some? && Leaves(state.outcomes[k].localCommit.operations[j], shown.value))
            && (NoneOf(state.outbox, id) && NoneUnpulled(state, id) ==> ShowsConfirmed(state, id, shown))
  {
    RowInSnapshot(state, id);
    var base := ConfirmedProjection(state.confirmed);
    var accepted := AcceptedNotPulled(state.outcomes, Applied(state));
    var settled := ProjectCommits(base, accepted);
    CommitsConcat(base, accepted, state.outbox);
    assert RowIn(SnapshotOf(state), id).optimistic == Find(ProjectCommits(settled, state.outbox), id);
    forall k: nat, j: nat | LastOf(state.outbox, k, j, id)
      ensures Find(ProjectCommits(settled, state.outbox), id).Some?
      ensures Leaves(state.outbox[k].operations[j], Find(ProjectCommits(settled, state.outbox), id).value)
    {
      CommitsLast(settled, state.outbox, k, j, id);
    }
    if NoneOf(state.outbox, id) {
      CommitsNone(settled, state.outbox, id);
      forall k: nat, j: nat | LastUnpulled(state, k, j, id)
        ensures Find(settled, id).Some? && Leaves(state.outcomes[k].localCommit.operations[j], Find(settled, id).value)
      {
        AcceptedLast(state, base, k, j, id);
      }
      if NoneUnpulled(state, id) { AcceptedNone(state, base, id); }
    }
  }

  lemma {:induction false} LastExists(ops: seq<Operation>, n: nat, id: RecordId)
    requires n <= |ops| && !NoneIn(ops, id) && forall i | n <= i < |ops| :: ops[i].recordId != id
    ensures exists j: nat :: LastIn(ops, j, id)
  {
    if n > 0 {
      if ops[n - 1].recordId == id {
        assert LastIn(ops, n - 1, id);
      } else {
        LastExists(ops, n - 1, id);
      }
    }
  }

  /** The first case applies whenever some pending operation touches the record. */
  lemma {:induction false} LastPendingExists(commits: seq<ClientCommit>, n: nat, id: RecordId)
    requires n <= |commits| && !NoneOf(commits, id)
    requires forall i | n <= i < |commits| :: NoneIn(commits[i].operations, id)
    ensures exists k: nat, j: nat :: LastOf(commits, k, j, id)
  {
    if n > 0 {
      var ops := commits[n - 1].operations;
      if NoneIn(ops, id) {
        LastPendingExists(commits, n - 1, id);
      } else {
        LastExists(ops, |ops|, id);
        var j: nat :| LastIn(ops, j, id);
        assert LastOf(commits, n - 1, j, id);
      }
    }
  }

  /** The second case applies whenever some accepted and unpulled operation touches it. */
  lemma {:induction false} LastUnpulledExists(state: ClientState, n: nat, id: RecordId)
    requires n <= |state.outcomes| && !NoneUnpulled(state, id)
    requires forall i | n <= i < |state.outcomes| && Unpulled(state, i) ::
               NoneIn(state.outcomes[i].localCommit.operations, id)
    ensures exists k: nat, j: nat :: LastUnpulled(state, k, j, id)
  {
    if n > 0 {
      var ops := state.outcomes[n - 1].localCommit.operations;
      if !Unpulled(state, n - 1) || NoneIn(ops, id) {
        LastUnpulledExists(state, n - 1, id);
      } else {
        LastExists(ops, |ops|, id);
        var j: nat :| LastIn(ops, j, id);
        assert LastUnpulled(state, n - 1, j, id);
      }
    }
  }

  // ---------------------------------------------------------------- pending and settled commits

  /** How many of the first `j` operations are on this record. */
  function RankIn(ops: seq<Operation>, j: nat, id: RecordId): nat
    requires j <= |ops|
  {
    if j == 0 then 0 else RankIn(ops, j - 1, id) + (if ops[j - 1].recordId == id then 1 else 0)
  }

  /** How many operations of the first `k` commits are. */
  function RankOf(commits: seq<ClientCommit>, k: nat, id: RecordId): nat
    requires k <= |commits|
  {
    if k == 0 then 0
    else RankOf(commits, k - 1, id) + RankIn(commits[k - 1].operations, |commits[k - 1].operations|, id)
  }

  lemma {:induction false} TouchesRank(commit: ClientCommit, n: nat, id: RecordId)
    requires n <= |commit.operations|
    ensures |Touches(commit, n, id)| == RankIn(commit.operations, n, id)
    ensures forall i | 0 <= i < |Touches(commit, n, id)| :: Touches(commit, n, id)[i] == commit.identity
  {
    if n > 0 { TouchesRank(commit, n - 1, id); }
  }

  lemma {:induction false} RankGrows(ops: seq<Operation>, i: nat, j: nat, id: RecordId)
    requires i <= j <= |ops|
    ensures RankIn(ops, i, id) <= RankIn(ops, j, id)
    ensures i < j && ops[i].recordId == id ==> RankIn(ops, i, id) < RankIn(ops, j, id)
    decreases j
  {
    if i < j { RankGrows(ops, i, j - 1, id); }
  }

  lemma {:induction false} PendingAt(commits: seq<ClientCommit>, n: nat, k: nat, j: nat, id: RecordId)
    requires n <= |commits| && k < n && At(commits[k].operations, j, id)
    ensures |PendingFor(commits, n, id)| == RankOf(commits, n, id)
    ensures RankOf(commits, k, id) + RankIn(commits[k].operations, j, id) < |PendingFor(commits, n, id)|
    ensures PendingFor(commits, n, id)[RankOf(commits, k, id) + RankIn(commits[k].operations, j, id)]
         == commits[k].identity
    decreases n
  {
    PendingLength(commits, n - 1, id);
    var last := commits[n - 1];
    TouchesRank(last, |last.operations|, id);
    if k < n - 1 {
      PendingAt(commits, n - 1, k, j, id);
    } else {
      RankGrows(last.operations, j, |last.operations|, id);
    }
  }

  lemma {:induction false} PendingLength(commits: seq<ClientCommit>, n: nat, id: RecordId)
    requires n <= |commits|
    ensures |PendingFor(commits, n, id)| == RankOf(commits, n, id)
  {
    if n > 0 {
      PendingLength(commits, n - 1, id);
      TouchesRank(commits[n - 1], |commits[n - 1].operations|, id);
    }
  }

  /** The pending list has one entry per pending operation on the record, in queue order. */
  lemma PendingMeaning(state: ClientState, id: RecordId)
    ensures var pending := RowIn(SnapshotOf(state), id).pending;
            && |pending| == RankOf(state.outbox, |state.outbox|, id)
            && forall k: nat, j: nat | k < |state.outbox| && At(state.outbox[k].operations, j, id) ::
                 var rank := RankOf(state.outbox, k, id) + RankIn(state.outbox[k].operations, j, id);
                 rank < |pending| && pending[rank] == state.outbox[k].identity
  {
    RowInSnapshot(state, id);
    PendingLength(state.outbox, |state.outbox|, id);
    forall k: nat, j: nat | k < |state.outbox| && At(state.outbox[k].operations, j, id)
      ensures var rank := RankOf(state.outbox, k, id) + RankIn(state.outbox[k].operations, j, id);
              rank < |PendingFor(state.outbox, |state.outbox|, id)|
              && PendingFor(state.outbox, |state.outbox|, id)[rank] == state.outbox[k].identity
    {
      PendingAt(state.outbox, |state.outbox|, k, j, id);
    }
  }

  predicate AcceptedAs(r: ResolvedCommit, a: ReadAccepted) {
    && r.outcome.Accepted? && a.identity == r.localCommit.identity && a.sequence == r.outcome.sequence
    && (a.status == CoveredByAuthorizedReset <==> r.coveredByReset)
    && (a.status == AwaitingPullEpochUnknown <==> !r.coveredByReset)
  }

  predicate ConflictedAs(r: ResolvedCommit, x: ReadConflict) {
    r.outcome.Conflict? && x.identity == r.localCommit.identity && x.resolution == r.resolution
  }

  /** One of the first `n` operations of the settled commit is on this record. */
  ghost predicate Touched(r: ResolvedCommit, n: nat, id: RecordId) {
    exists j: nat | j < n :: At(r.localCommit.operations, j, id)
  }

  ghost predicate Concerns(r: ResolvedCommit, id: RecordId) { Touched(r, |r.localCommit.operations|, id) }

  lemma TouchedNext(r: ResolvedCommit, n: nat, id: RecordId)
    ensures Touched(r, n + 1, id) <==> Touched(r, n, id) || At(r.localCommit.operations, n, id)
  {
  }

  lemma {:induction false} SettledIn(r: ResolvedCommit, n: nat, id: RecordId, a: ReadAccepted, x: ReadConflict)
    requires n <= |r.localCommit.operations|
    ensures a in AcceptedIn(r, n, id) <==> AcceptedAs(r, a) && Touched(r, n, id)
    ensures x in ConflictsIn(r, n, id) <==> ConflictedAs(r, x) && Touched(r, n, id)
  {
    if n > 0 {
      SettledIn(r, n - 1, id, a, x);
      TouchedNext(r, n - 1, id);
    }
  }

  /** Some of the first `n` settled commits was accepted as `a` and touched the record. */
  ghost predicate AcceptedAmong(outcomes: seq<ResolvedCommit>, n: nat, id: RecordId, a: ReadAccepted) {
    exists k: nat | k < n && k < |outcomes| :: AcceptedAs(outcomes[k], a) && Concerns(outcomes[k], id)
  }

  ghost predicate ConflictAmong(outcomes: seq<ResolvedCommit>, n: nat, id: RecordId, x: ReadConflict) {
    exists k: nat | k < n && k < |outcomes| :: ConflictedAs(outcomes[k], x) && Concerns(outcomes[k], id)
  }

  lemma AmongNext(outcomes: seq<ResolvedCommit>, n: nat, id: RecordId, a: ReadAccepted, x: ReadConflict)
    requires n < |outcomes|
    ensures AcceptedAmong(outcomes, n + 1, id, a) <==>
              AcceptedAmong(outcomes, n, id, a) || (AcceptedAs(outcomes[n], a) && Concerns(outcomes[n], id))
    ensures ConflictAmong(outcomes, n + 1, id, x) <==>
              ConflictAmong(outcomes, n, id, x) || (ConflictedAs(outcomes[n], x) && Concerns(outcomes[n], id))
  {
  }

  lemma {:induction false} SettledFor(
    outcomes: seq<ResolvedCommit>, n: nat, id: RecordId, a: ReadAccepted, x: ReadConflict)
    requires n <= |outcomes|
    ensures a in AcceptedFor(outcomes, n, id) <==> AcceptedAmong(outcomes, n, id, a)
    ensures x in ConflictsFor(outcomes, n, id) <==> ConflictAmong(outcomes, n, id, x)
  {
    if n > 0 {
      var r := outcomes[n - 1];
      SettledFor(outcomes, n - 1, id, a, x);
      SettledIn(r, |r.localCommit.operations|, id, a, x);
      AmongNext(outcomes, n - 1, id, a, x);
    }
  }

  /** A settled commit is listed on each record it touched, with what became of it; a rejected one nowhere. */
  lemma SettledMeaning(state: ClientState, id: RecordId, a: ReadAccepted, x: ReadConflict)
    ensures var row := RowIn(SnapshotOf(state), id);
            && (a in row.accepted <==> AcceptedAmong(state.outcomes, |state.outcomes|, id, a))
            && (x in row.conflicts <==> ConflictAmong(state.outcomes, |state.outcomes|, id, x))
  {
    RowInSnapshot(state, id);
    SettledFor(state.outcomes, |state.outcomes|, id, a, x);
  }

  /** The confirmed part, and when a missing record may be called absent. */
  lemma ConfirmedMeaning(state: ClientState, id: RecordId)
    ensures var row := RowIn(SnapshotOf(state), id);
            && row.recordId == id
            && (id in state.confirmed ==> row.confirmed == state.confirmed[id] && row.confirmedAbsence == NotAbsent)
            && (id !in state.confirmed ==>
                  row.confirmed == Absent
                  && row.confirmedAbsence
                     == if state.resetCoverage.Some? then AbsentWithinAuthorizedScope else UnknownAbsence)
  {
    RowInSnapshot(state, id);
  }

  /** The header of a snapshot: it is authorized as of a cursor exactly when a reset covers the scope. */
  lemma MetadataMeaning(state: ClientState)
    ensures var m := SnapshotOf(state).metadata;
            && SnapshotOf(state).protocolVersion == 1 && m.revision == state.revision
            && m.scope.partitionId == state.partitionId && m.scope.scopeIdentity == state.requestedScope
            && m.scope.subscriptionRevision == state.subscriptionRevision
            && (m.asOf.Some? <==> state.checkpoint.Some?)
            && (m.scope.authorizationRevision.Some? <==> state.checkpoint.Some?)
            && (state.checkpoint.Some? ==>
                  m.asOf.value == state.checkpoint.value.cursor
                  && m.scope.authorizationRevision.value == state.checkpoint.value.scope.authorizationRevision)
            && (m.readiness == AuthorizedScopeAsOf <==> state.resetCoverage.Some?)
            && (m.coverage.AuthorizedReset? <==> state.resetCoverage.Some?)
            && (state.resetCoverage.Some? ==> m.coverage.cursor == state.resetCoverage.value.cursor)
  {
  }
}
