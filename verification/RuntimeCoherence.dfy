/**
 One shared runtime slot over one durable journal. Storage calls may land or not and report or
 not, the session may be lost, and the worker holding the slot may die at any moment: dying is
 the guard's `Drop`.
 */
module RuntimeCoherence {
  import opened Common
  import opened ReadProtocol
  import opened ReadReplay
  import opened ReplayRuns

  datatype Phase = Clean | InFlight | Settled

  datatype Outcome = Committed | RolledBack | CommitUnknown | RollbackFailed

  /** What a storage call would make durable. Staging rows and the scope barrier leave the journal alone. */
  datatype Call =
    | Schema
    | Initial(created: ClientState)
    | Transition(current: ClientState, next: ClientState)
    | Completion(applied: Option<ClientState>)
    | Staging
    | ScopeBarrier

  datatype Work =
    | Ready
    | Storing(call: Call, landed: bool)
    | Stored(call: Call, outcome: Outcome)

  /** `cleared`: this hold has asked whether the database is poisoned, and the latest answer was no. */
  datatype Guard = Guard(phase: Phase, work: Work, cleared: bool)

  /**
   `live`: the database is open and still at the session generation of this slot's clients.
   `reader` is a reader of the slot, with the cursor it was last given.
   */
  datatype Machine = Machine(
    durable: Option<ClientState>, poisoned: bool, live: bool, cell: Cell, guard: Option<Guard>,
    reader: Option<Reader>)

  datatype Event =
    | ClientJoined
    | Inspected(report: Option<ClientState>)
    | Acquire
    | Checked
    | Arm(call: Call)
    | Land
    | Settle(outcome: Outcome)
    | Invalidated
    | Disarm
    | Installed(encoded: Option<nat>)
    | Published(otherRotates: bool)
    | Opened(otherRotates: bool)
    | OpenReturned
    | Taken
    | ViewRemembered(cursor: Bytes)
    | ReaderBootstraps
    | ReaderPolls(limit: nat, delivered: bool)
    | Release
    | SessionLost
    | PoisonedElsewhere
    | ForeignWrite(state: Option<ClientState>)
    | SlotRecreated(prefix: string)

  /** `ensure_session`: every client operation asks this first. */
  predicate Gate(m: Machine) { !m.poisoned && m.live }

  predicate Uncertain(o: Outcome) { o == CommitUnknown || o == RollbackFailed }

  /** May the storage transaction commit? Each call compares what it replaces inside the transaction. */
  predicate CanLand(durable: Option<ClientState>, call: Call) {
    match call
    case Initial(_) => durable.None?
    case Transition(current, _) => durable == Some(current)
    case Completion(_) => durable.Some?
    case _ => true
  }

  function Written(durable: Option<ClientState>, call: Call): Option<ClientState>
  {
    match call
    case Initial(created) => Some(created)
    case Transition(_, next) => Some(next)
    case Completion(Some(applied)) => Some(applied)
    case _ => durable
  }

  predicate Holding(m: Machine, phase: Phase) { m.guard.Some? && m.guard.value.phase == phase }

  /** The transitions `ClientRuntime::prepare` yields: nothing, or a change one revision up. */
  predicate PreparedFrom(current: ClientState, next: ClientState) {
    next == current
    || (next.revision == current.revision + 1 && next.(revision := current.revision) != current)
  }

  /** Held, with no storage call pending. */
  predicate AtRest(m: Machine) { m.guard.Some? && m.guard.value.phase == Clean && m.guard.value.work == Ready }

  /** A barrier write has committed; some callers disarm at once, others go on to a transition. */
  predicate BarrierSaved(m: Machine) {
    Holding(m, Settled) && m.guard.value.work == Stored(ScopeBarrier, Committed)
  }

  /** Every call but the initial save is armed in the same breath as a passed gate. */
  predicate MayArm(m: Machine, call: Call) {
    match call
    case Schema => AtRest(m) && Gate(m) && m.cell.runtime.None?
    case Initial(_) => m.guard == Some(Guard(Settled, Stored(Schema, Committed), true)) && m.cell.runtime.None?
    case Transition(current, next) =>
      && (AtRest(m) || BarrierSaved(m)) && Gate(m)
      && m.cell.runtime == Some(current) && PreparedFrom(current, next)
    case _ => AtRest(m) && Gate(m) && m.cell.runtime.Some?
  }

  /** The points of `initialize_runtime` from which the slot is filled and the open returns. */
  predicate OpenPoint(m: Machine) {
    || AtRest(m)
    || (Holding(m, Settled)
        && (m.guard.value.work == Stored(Schema, Committed)
            || (m.guard.value.work.Stored? && m.guard.value.work.call.Initial?
                && !Uncertain(m.guard.value.work.outcome))))
  }

  predicate Cleared(m: Machine) { m.guard.Some? && m.guard.value.cleared }

  /** An empty slot may be filled from what was just read; poison is not asked about again before that. */
  predicate MayOpen(m: Machine) { Cleared(m) && OpenPoint(m) && m.durable.Some? && m.cell.runtime.None? }

  predicate MayDisarm(m: Machine) {
    && Holding(m, Settled) && m.guard.value.work.Stored?
    && match m.guard.value.work
       case Stored(ScopeBarrier, outcome) => outcome == Committed
       case Stored(Staging, outcome) => Gate(m) && !Uncertain(outcome)
       case Stored(Transition(_, _), outcome) => Gate(m) && outcome == RolledBack
       case Stored(Completion(applied), outcome) =>
         Gate(m) && (outcome == RolledBack || (outcome == Committed && applied.None? && m.cell.runtime == m.durable))
       case _ => false
  }

  /** The runtime may be dropped without rotating: after a failed barrier access or a late session test. */
  predicate MayDropRuntime(m: Machine) { Holding(m, Settled) || (AtRest(m) && Cleared(m)) }

  predicate Enabled(m: Machine, e: Event) {
    match e
    case ClientJoined => !m.poisoned
    case Inspected(report) => Gate(m) && report == m.durable
    case Acquire => m.guard.None?
    case Checked => AtRest(m) && Gate(m)
    case Arm(call) => MayArm(m, call)
    case Land => Holding(m, InFlight) && m.guard.value.work.Storing? && !m.guard.value.work.landed
                 && CanLand(m.durable, m.guard.value.work.call)
    case Settle(outcome) =>
      Holding(m, InFlight) && m.guard.value.work.Storing?
      && (outcome == Committed ==> m.guard.value.work.landed)
      && (outcome == RolledBack ==> !m.guard.value.work.landed)
    case Invalidated => MayDropRuntime(m)
    case Disarm => MayDisarm(m)
    case Installed(_) =>
      Holding(m, Settled) && Gate(m) && m.guard.value.work.Stored? && m.guard.value.work.outcome == Committed
      && m.guard.value.work.call.Transition? && m.cell.runtime.Some?
    case Published(_) =>
      Holding(m, Settled) && Gate(m) && m.guard.value.work.Stored? && m.guard.value.work.outcome == Committed
      && m.guard.value.work.call.Completion? && m.guard.value.work.call.applied.Some?
      && m.durable == m.guard.value.work.call.applied && m.cell.runtime.Some?
    case Opened(_) => MayOpen(m)
    case OpenReturned => Gate(m) && OpenPoint(m) && m.cell.runtime.Some?
    case Taken => MayDropRuntime(m)
    case ViewRemembered(_) => AtRest(m) && Gate(m) && m.cell.runtime.Some?
    case ReaderBootstraps => AtRest(m) && Gate(m) && m.cell.runtime.Some?
    case ReaderPolls(_, _) => AtRest(m) && Gate(m) && m.cell.runtime.Some?
    case Release => m.guard.Some?
    case SessionLost => true
    case PoisonedElsewhere => true
    case ForeignWrite(_) => m.poisoned || !m.live
    case SlotRecreated(_) => m.guard.None?
  }

  /** `Drop`: an unsettled mutation poisons the database, an undisarmed one drops the runtime. */
  function Dropped(m: Machine): Machine
    requires m.guard.Some?
  {
    match m.guard.value.phase
    case Clean => m.(guard := None)
    case InFlight => m.(guard := None, poisoned := true, cell := InvalidateCell(m.cell))
    case Settled => m.(guard := None, cell := InvalidateCell(m.cell))
  }

  const READY := Some(Guard(Clean, Ready, true))

  /** The slot after a read-back: clean if a runtime came out, else still to be dropped. */
  function CleanIfFilled(m: Machine, cell: Cell): Machine
  {
    m.(cell := cell, guard := if cell.runtime.Some? then READY else m.guard)
  }

  function Next(m: Machine, e: Event): Machine
    requires Enabled(m, e)
  {
    match e
    case ClientJoined => m
    case Inspected(_) => m
    case Acquire => m.(guard := Some(Guard(Clean, Ready, false)))
    case Checked => m.(guard := READY)
    case Arm(call) => m.(guard := Some(Guard(InFlight, Storing(call, false), true)))
    case Land =>
      m.(durable := Written(m.durable, m.guard.value.work.call),
         guard := Some(m.guard.value.(work := Storing(m.guard.value.work.call, true))))
    case Settle(outcome) =>
      // After the initial save, and only there, poison is asked about once more.
      var call, poisoned := m.guard.value.work.call, m.poisoned || Uncertain(outcome);
      m.(poisoned := poisoned,
         guard := Some(Guard(Settled, Stored(call, outcome), m.guard.value.cleared && !(call.Initial? && poisoned))))
    case Invalidated => m.(cell := InvalidateCell(m.cell))
    case Disarm => m.(guard := Some(Guard(Clean, Ready, m.guard.value.cleared)))
    case Installed(encoded) =>
      m.(cell := InstallCell(m.cell, m.guard.value.work.call.next, encoded), guard := READY)
    case Published(otherRotates) =>
      CleanIfFilled(m, ReplaceCell(m.cell, m.durable.value, otherRotates))
    case Opened(otherRotates) => m.(cell := ReopenCell(m.cell, m.durable.value, otherRotates))
    case OpenReturned => m.(guard := READY)
    case Taken => m.(cell := TakeCell(m.cell))
    case ViewRemembered(cursor) => m.(cell := m.cell.(journal := RememberCursor(m.cell.journal, cursor)))
    case ReaderBootstraps => m.(reader := ReaderAfter(World(m.cell, map[], m.reader), ReaderBootstrap))
    case ReaderPolls(limit, delivered) =>
      m.(reader := ReaderAfter(World(m.cell, map[], m.reader), ReaderPoll(limit, delivered)))
    case Release => Dropped(m)
    case SessionLost => m.(live := false)
    case PoisonedElsewhere => m.(poisoned := true)
    case ForeignWrite(state) => m.(durable := state)
    case SlotRecreated(prefix) => m.(cell := Cell(None, false, Fresh(prefix)))
  }

  // ---------------------------------------------------------------- coherence

  predicate Coherent(m: Machine) { m.cell.runtime.Some? ==> m.durable == m.cell.runtime }

  /** Between arming and disarming: what the call has or has not made durable so far. */
  predicate PendingInv(m: Machine, call: Call, landed: bool) {
    if !landed then Coherent(m)
    else
      match call
      case Transition(current, next) =>
        m.durable == Some(next) && (m.cell.runtime.Some? ==> m.cell.runtime == Some(current))
      case Completion(Some(applied)) => m.durable == Some(applied)
      case _ => Coherent(m)
  }

  predicate GuardShape(g: Guard) {
    match g.phase
    case Clean => g.work == Ready
    case InFlight => g.work.Storing?
    case Settled => g.work.Stored?
  }

  predicate PreparedCall(w: Work) {
    !w.Ready? && w.call.Transition? ==> PreparedFrom(w.call.current, w.call.next)
  }

  predicate SlotInv(m: Machine) {
    && (m.guard.Some? ==> GuardShape(m.guard.value) && PreparedCall(m.guard.value.work))
    && (Gate(m) ==>
          match m.guard
          case None => Coherent(m)
          case Some(Guard(_, Ready, _)) => Coherent(m)
          case Some(Guard(_, Storing(call, landed), _)) => PendingInv(m, call, landed)
          case Some(Guard(_, Stored(call, outcome), _)) =>
            !Uncertain(outcome) && PendingInv(m, call, outcome == Committed))
  }

  /** Nothing is cached yet. */
  function Initially(durable: Option<ClientState>, prefix: string): Machine
  {
    Machine(durable, false, true, Cell(None, false, Fresh(prefix)), None, None)
  }

  lemma NextKeeps(m: Machine, e: Event)
    requires SlotInv(m) && Enabled(m, e)
    ensures SlotInv(Next(m, e))
    ensures m.poisoned ==> Next(m, e).poisoned
    ensures !m.live ==> !Next(m, e).live
  {
  }

  // ---------------------------------------------------------------- runs

  predicate Run(trace: seq<Machine>, events: seq<Event>, durable: Option<ClientState>, prefix: string) {
    && |trace| == |events| + 1 && trace[0] == Initially(durable, prefix)
    && forall i | 0 <= i < |events| :: StepAt(trace, events, i)
  }

  predicate StepAt(trace: seq<Machine>, events: seq<Event>, i: nat)
    requires i < |events| < |trace|
  {
    Enabled(trace[i], events[i]) && trace[i + 1] == Next(trace[i], events[i])
  }

  lemma {:induction false} RunKeeps(
    trace: seq<Machine>, events: seq<Event>, durable: Option<ClientState>, prefix: string, i: nat, j: nat)
    requires Run(trace, events, durable, prefix) && i <= j <= |events|
    ensures SlotInv(trace[j])
    ensures trace[i].poisoned ==> trace[j].poisoned
    ensures !trace[i].live ==> !trace[j].live
    decreases j
  {
    if j > 0 {
      RunKeeps(trace, events, durable, prefix, if i < j then i else j - 1, j - 1);
      assert StepAt(trace, events, j - 1);
      NextKeeps(trace[j - 1], events[j - 1]);
    }
  }

  /**
   Cache coherence under failure: whatever storage did and wherever a worker died, a slot that is
   free, or held by an operation with nothing pending, shows exactly the durable journal.
   */
  lemma FreeSlotIsCoherent(
    trace: seq<Machine>, events: seq<Event>, durable: Option<ClientState>, prefix: string, i: nat)
    requires Run(trace, events, durable, prefix) && i <= |events|
    requires Gate(trace[i]) && (trace[i].guard.None? || Holding(trace[i], Clean))
    requires trace[i].cell.runtime.Some?
    ensures trace[i].durable == trace[i].cell.runtime
  {
    RunKeeps(trace, events, durable, prefix, i, i);
  }

  // ---------------------------------------------------------------- poison

  predicate SameHold(events: seq<Event>, i: nat, j: nat)
    requires i <= j <= |events|
  {
    forall m | i <= m < j :: events[m] != Acquire && events[m] != Release
  }

  /** No initial save was settled between these moments. */
  predicate NoSaveSettled(trace: seq<Machine>, events: seq<Event>, i: nat, j: nat)
    requires i <= j <= |events| < |trace|
  {
    forall m | i <= m < j :: !SavesInitial(trace[m], events[m])
  }

  predicate SavesInitial(m: Machine, e: Event) {
    e.Settle? && m.guard.Some? && m.guard.value.work.Storing? && m.guard.value.work.call.Initial?
  }

  lemma ClearedStep(m: Machine, e: Event)
    requires SlotInv(m) && Enabled(m, e) && m.poisoned
    ensures Cleared(Next(m, e)) <==> Cleared(m) && e != Acquire && e != Release && !SavesInitial(m, e)
  {
  }

  /**
   Under poison nobody is cleared any more: a hold is cleared if and only if it already was, and has
   not let go or settled an initial save since.
   */
  lemma {:induction false} ClearedIffBefore(
    trace: seq<Machine>, events: seq<Event>, durable: Option<ClientState>, prefix: string, i: nat, j: nat)
    requires Run(trace, events, durable, prefix) && i <= j <= |events| && trace[i].poisoned
    ensures Cleared(trace[j]) <==>
              Cleared(trace[i]) && SameHold(events, i, j) && NoSaveSettled(trace, events, i, j)
    decreases j
  {
    if i < j {
      RunKeeps(trace, events, durable, prefix, i, j - 1);
      assert StepAt(trace, events, j - 1);
      ClearedStep(trace[j - 1], events[j - 1]);
      ClearedIffBefore(trace, events, durable, prefix, i, j - 1);
    }
  }

  /** What only an unpoisoned database lets happen. */
  predicate Gated(e: Event) {
    || e.ClientJoined? || e.Inspected? || e.Checked? || e.OpenReturned? || e.Installed? || e.Published?
    || e.ReaderBootstraps? || e.ReaderPolls? || e.ViewRemembered?
    || (e.Arm? && !e.call.Initial?)
  }

  predicate Pending(m: Machine, call: Call) {
    m.guard.Some? && m.guard.value.work != Ready && m.guard.value.work.call == call
  }

  lemma PendingStep(m: Machine, e: Event, call: Call)
    requires SlotInv(m) && Enabled(m, e) && Pending(Next(m, e), call)
    ensures e == Arm(call) || (Pending(m, call) && e != Acquire && e != Release)
  {
  }

  /** A pending call was armed earlier in the same hold. */
  lemma {:induction false} PendingWasArmed(
    trace: seq<Machine>, events: seq<Event>, durable: Option<ClientState>, prefix: string, j: nat, call: Call)
    returns (a: nat)
    requires Run(trace, events, durable, prefix) && j <= |events| && Pending(trace[j], call)
    ensures a < j && events[a] == Arm(call) && SameHold(events, a, j)
    decreases j
  {
    RunKeeps(trace, events, durable, prefix, j - 1, j - 1);
    assert StepAt(trace, events, j - 1);
    PendingStep(trace[j - 1], events[j - 1], call);
    if events[j - 1] == Arm(call) {
      a := j - 1;
    } else {
      a := PendingWasArmed(trace, events, durable, prefix, j - 1, call);
    }
  }

  /**
   Poison is for the lifetime of the database. From then on no client joins, no inspection
   reports, no open returns, and no operation passes its gate, reads, installs, publishes or arms
   a call other than the initial save of an open already under way.
   */
  lemma PoisonIsForever(
    trace: seq<Machine>, events: seq<Event>, durable: Option<ClientState>, prefix: string, i: nat, j: nat)
    requires Run(trace, events, durable, prefix) && i <= j < |events| && trace[i].poisoned
    ensures !Gate(trace[j]) && !Gated(events[j])
    ensures events[j].Arm? ==>
              Cleared(trace[i]) && SameHold(events, i, j) && NoSaveSettled(trace, events, i, j)
  {
    RunKeeps(trace, events, durable, prefix, i, j);
    assert StepAt(trace, events, j);
    if events[j].Arm? { ClearedIffBefore(trace, events, durable, prefix, i, j); }
  }

  /**
   Exactly when a slot can still be filled under poison: an open is at a point that fills, it had
   its last answer about poison before it came, it has not let go since and settled no initial save.
   */
  lemma FillUnderPoison(
    trace: seq<Machine>, events: seq<Event>, durable: Option<ClientState>, prefix: string, i: nat, j: nat, b: bool)
    requires Run(trace, events, durable, prefix) && i <= j <= |events| && trace[i].poisoned
    ensures Enabled(trace[j], Opened(b)) <==>
              && Cleared(trace[i]) && SameHold(events, i, j) && NoSaveSettled(trace, events, i, j)
              && OpenPoint(trace[j]) && trace[j].durable.Some? && trace[j].cell.runtime.None?
  {
    ClearedIffBefore(trace, events, durable, prefix, i, j);
  }

  /**
   Exactly when a hold can still disarm under poison: it has a committed barrier write, which asks
   nothing before it disarms; and that write was armed in the same hold before the poison came.
   */
  lemma DisarmUnderPoison(
    trace: seq<Machine>, events: seq<Event>, durable: Option<ClientState>, prefix: string, i: nat, j: nat)
    requires Run(trace, events, durable, prefix) && i <= j <= |events| && trace[i].poisoned
    ensures Enabled(trace[j], Disarm) <==> BarrierSaved(trace[j])
    ensures BarrierSaved(trace[j]) ==>
              exists a | 0 <= a < i :: events[a] == Arm(ScopeBarrier) && SameHold(events, a, j)
  {
    RunKeeps(trace, events, durable, prefix, i, j);
    if BarrierSaved(trace[j]) {
      var a := PendingWasArmed(trace, events, durable, prefix, j, ScopeBarrier);
      if i <= a {
        PoisonIsForever(trace, events, durable, prefix, i, a);
        assert false;
      }
    }
  }

  /** The first exception is real: attaching an existing journal fills the slot, though the open then fails. */
  lemma EarlyOpenStillFills(s: ClientState, prefix: string) returns (trace: seq<Machine>, events: seq<Event>)
    ensures Run(trace, events, Some(s), prefix)
    ensures var last := trace[|events|]; last.poisoned && last.cell.runtime == Some(s) && last.guard.None?
  {
    var m0 := Initially(Some(s), prefix);
    var m1 := m0.(guard := Some(Guard(Clean, Ready, false)));
    var m2 := m0.(guard := READY);
    var m3 := m2.(poisoned := true);
    var m4 := m3.(cell := m0.cell.(runtime := Some(s)));
    var m5 := m4.(guard := None);
    trace, events := [m0, m1, m2, m3, m4, m5], [Acquire, Checked, PoisonedElsewhere, Opened(true), Release];
    assert StepAt(trace, events, 0) && StepAt(trace, events, 1) && StepAt(trace, events, 2);
    assert StepAt(trace, events, 3) && StepAt(trace, events, 4);
  }

  lemma RunOneMore(
    trace: seq<Machine>, events: seq<Event>, durable: Option<ClientState>, prefix: string, e: Event, after: Machine)
    requires Run(trace, events, durable, prefix) && Enabled(trace[|events|], e) && after == Next(trace[|events|], e)
    ensures Run(trace + [after], events + [e], durable, prefix)
  {
    forall i | 0 <= i <= |events| ensures StepAt(trace + [after], events + [e], i) {
      if i < |events| { assert StepAt(trace, events, i); }
    }
  }

  lemma OpenFills(s: ClientState, prefix: string) returns (trace: seq<Machine>, events: seq<Event>)
    ensures Run(trace, events, Some(s), prefix)
    ensures trace[|events|] == Initially(Some(s), prefix).(cell := Cell(Some(s), false, Fresh(prefix)), guard := READY)
  {
    var m0 := Initially(Some(s), prefix);
    var m1 := m0.(guard := Some(Guard(Clean, Ready, false)));
    var m2 := m0.(guard := READY);
    var m3 := m2.(cell := Cell(Some(s), false, Fresh(prefix)));
    trace, events := [m0, m1, m2, m3], [Acquire, Checked, Opened(true)];
    assert StepAt(trace, events, 0) && StepAt(trace, events, 1) && StepAt(trace, events, 2);
  }

  /** The second exception is real: a barrier write caught by the poison disarms and keeps its runtime. */
  lemma BarrierWriteStillDisarms(s: ClientState, prefix: string) returns (trace: seq<Machine>, events: seq<Event>)
    ensures Run(trace, events, Some(s), prefix) && |events| > 0 && events[|events| - 1] == Disarm
    ensures var last := trace[|events|]; last.poisoned && last.cell.runtime == Some(s) && AtRest(last)
  {
    trace, events := OpenFills(s, prefix);
    var m := trace[|events|];
    var m1 := m.(guard := Some(Guard(InFlight, Storing(ScopeBarrier, false), true)));
    RunOneMore(trace, events, Some(s), prefix, Arm(ScopeBarrier), m1);
    trace, events := trace + [m1], events + [Arm(ScopeBarrier)];
    var m2 := m1.(poisoned := true);
    RunOneMore(trace, events, Some(s), prefix, PoisonedElsewhere, m2);
    trace, events := trace + [m2], events + [PoisonedElsewhere];
    var m3 := m2.(guard := Some(Guard(InFlight, Storing(ScopeBarrier, true), true)));
    RunOneMore(trace, events, Some(s), prefix, Land, m3);
    trace, events := trace + [m3], events + [Land];
    var m4 := m3.(guard := Some(Guard(Settled, Stored(ScopeBarrier, Committed), true)));
    RunOneMore(trace, events, Some(s), prefix, Settle(Committed), m4);
    trace, events := trace + [m4], events + [Settle(Committed)];
    var m5 := m4.(guard := READY);
    RunOneMore(trace, events, Some(s), prefix, Disarm, m5);
    trace, events := trace + [m5], events + [Disarm];
  }

  predicate Outside(e: Event) { e.SessionLost? || e.PoisonedElsewhere? || e.ForeignWrite? }

  lemma InertStep(m: Machine, e: Event)
    requires Enabled(m, e) && m.poisoned && m.guard == Some(Guard(Clean, Ready, false))
    ensures e == Release ==> Next(m, e) == m.(guard := None)
    ensures e != Release ==> Outside(e) && Next(m, e).guard == m.guard
    ensures e != Release ==> Next(m, e).cell == m.cell && Next(m, e).reader == m.reader
    ensures Next(m, e).poisoned && (!e.ForeignWrite? ==> Next(m, e).durable == m.durable)
  {
  }

  /**
   A hold taken after the poison does nothing: until it lets go it stays at the gate, whatever
   happens meanwhile happens outside it, and runtime, journal and reader are as it found them.
   */
  lemma {:induction false} LateHoldIsInert(
    trace: seq<Machine>, events: seq<Event>, durable: Option<ClientState>, prefix: string, a: nat, j: nat)
    requires Run(trace, events, durable, prefix) && a < j <= |events|
    requires trace[a].poisoned && events[a] == Acquire && SameHold(events, a + 1, j)
    ensures trace[j].guard == Some(Guard(Clean, Ready, false))
    ensures forall m | a < m < j :: Outside(events[m])
    ensures trace[j].cell == trace[a].cell && trace[j].reader == trace[a].reader
    ensures (forall m | a < m < j :: !events[m].ForeignWrite?) ==> trace[j].durable == trace[a].durable
    ensures j < |events| && events[j] == Release ==> trace[j + 1] == trace[j].(guard := None)
    decreases j
  {
    RunKeeps(trace, events, durable, prefix, a, j);
    if a + 1 < j {
      LateHoldIsInert(trace, events, durable, prefix, a, j - 1);
      RunKeeps(trace, events, durable, prefix, a, j - 1);
      assert StepAt(trace, events, j - 1);
      InertStep(trace[j - 1], events[j - 1]);
    } else {
      assert StepAt(trace, events, a);
    }
    if j < |events| {
      assert StepAt(trace, events, j);
      InertStep(trace[j], events[j]);
    }
  }

  // ---------------------------------------------------------------- what a whole hold leaves

  /** Some call armed at or after `a` was settled for certain before `r`. */
  predicate SettledForCertain(events: seq<Event>, k: nat, r: nat)
    requires r <= |events|
  {
    exists s :: k < s < r && events[s].Settle? && !Uncertain(events[s].outcome)
  }

  /** The hold brought its last armed call to an end that leaves a runtime. */
  predicate Closing(e: Event) { e.Disarm? || e.Installed? || e.Published? || e.OpenReturned? }

  predicate ClosedSince(events: seq<Event>, k: nat, r: nat)
    requires r <= |events|
  {
    exists s :: k < s < r && Closing(events[s])
  }

  lemma HoldStep(m: Machine, e: Event)
    requires SlotInv(m) && Enabled(m, e) && m.guard.Some? && e != Release
    ensures Next(m, e).guard.Some?
    ensures m.poisoned ==> Next(m, e).poisoned
    ensures Holding(m, InFlight) && !Holding(Next(m, e), InFlight) ==>
              e.Settle? && (Uncertain(e.outcome) ==> Next(m, e).poisoned)
    ensures !Holding(m, Clean) && Holding(Next(m, e), Clean) ==> Closing(e)
    ensures e.Arm? ==> Holding(Next(m, e), InFlight)
  {
  }

  lemma {:induction false} HoldProgress(
    trace: seq<Machine>, events: seq<Event>, durable: Option<ClientState>, prefix: string, a: nat, j: nat, k: nat)
    requires Run(trace, events, durable, prefix) && a < k < j <= |events|
    requires events[a] == Acquire && SameHold(events, a + 1, j) && events[k].Arm?
    ensures trace[j].guard.Some?
    ensures trace[j].poisoned || Holding(trace[j], InFlight) || SettledForCertain(events, k, j)
    ensures Holding(trace[j], Clean) ==> ClosedSince(events, k, j)
    decreases j
  {
    RunKeeps(trace, events, durable, prefix, j - 1, j - 1);
    assert StepAt(trace, events, j - 1);
    var e := events[j - 1];
    if k == j - 1 {
      HoldStep(trace[k], e);
    } else {
      HoldProgress(trace, events, durable, prefix, a, j - 1, k);
      HoldStep(trace[j - 1], e);
      if SettledForCertain(events, k, j - 1) {
        var s :| k < s < j - 1 && events[s].Settle? && !Uncertain(events[s].outcome);
        assert SettledForCertain(events, k, j);
      } else if e.Settle? && !Uncertain(e.outcome) {
        assert SettledForCertain(events, k, j);
      }
      if ClosedSince(events, k, j - 1) {
        var s :| k < s < j - 1 && Closing(events[s]);
        assert ClosedSince(events, k, j);
      } else if Closing(e) {
        assert ClosedSince(events, k, j);
      }
    }
  }

  /**
   From lock to release, wherever the worker died: either the database is poisoned, or every call
   it armed was settled for certain; a hold whose last call was not carried to its end leaves no
   runtime; and on a live database whatever runtime it leaves is the durable journal.
   */
  lemma HoldIsNeverSilent(
    trace: seq<Machine>, events: seq<Event>, durable: Option<ClientState>, prefix: string, a: nat, r: nat)
    requires Run(trace, events, durable, prefix) && a < r < |events|
    requires events[a] == Acquire && events[r] == Release && SameHold(events, a + 1, r)
    ensures trace[r + 1].guard.None?
    ensures trace[r + 1].poisoned || forall k | a < k < r && events[k].Arm? :: SettledForCertain(events, k, r)
    ensures forall k | a < k < r && events[k].Arm? ::
              ClosedSince(events, k, r) || trace[r + 1].cell.runtime.None?
    ensures Gate(trace[r + 1]) && trace[r + 1].cell.runtime.Some? ==>
              trace[r + 1].durable == trace[r + 1].cell.runtime
  {
    RunKeeps(trace, events, durable, prefix, r, r);
    RunKeeps(trace, events, durable, prefix, r + 1, r + 1);
    assert StepAt(trace, events, r);
    forall k | a < k < r && events[k].Arm?
      ensures trace[r + 1].poisoned || SettledForCertain(events, k, r)
      ensures ClosedSince(events, k, r) || trace[r + 1].cell.runtime.None?
    {
      HoldProgress(trace, events, durable, prefix, a, r, k);
    }
  }
}
