/**
 The client's own code over the shared slot: arm, call storage, settle, check, install, disarm.
 Each method is proved to be a sequence of enabled events of the slot, so that everything stated of
 its runs holds here, and to leave the installed state, the untouched state or no runtime at all.
 */
module RuntimeSlot {
  import opened Common
  import opened ReadProtocol
  import ReadReplay
  import opened ReplayRuns
  import opened RuntimeCoherence

  datatype ClientError = Closed | RecoveryRequired | Protocol | Persistence

  /** What may happen to the session and to the database while something is awaited. */
  datatype Meanwhile = Meanwhile(sessionLost: bool, poisonedElsewhere: bool)

  /** What storage does and answers, and what happens while it is awaited. */
  datatype Reply = Reply(landed: bool, outcome: Outcome, meanwhile: Meanwhile)

  /** Storage tells the truth when it claims to know, and compares before it writes. */
  predicate Possible(durable: Option<ClientState>, call: Call, reply: Reply) {
    && (reply.landed ==> CanLand(durable, call))
    && (reply.outcome == Committed ==> reply.landed)
    && (reply.outcome == RolledBack ==> !reply.landed)
  }

  predicate Calm(m: Meanwhile) { !m.sessionLost && !m.poisonedElsewhere }

  /** Both journals can rotate. */
  predicate Rotates(c: Cell, otherRotates: bool) { c.journal.generation < U64_MAX && otherRotates }

  // ---------------------------------------------------------------- sequences of events

  ghost predicate Path(trace: seq<Machine>, events: seq<RuntimeCoherence.Event>, a: Machine, b: Machine) {
    && |trace| == |events| + 1 && trace[0] == a && trace[|events|] == b
    && forall i | 0 <= i < |events| :: StepAt(trace, events, i)
  }

  /** Some sequence of enabled events leads from `a` to `b`. */
  ghost predicate Reaches(a: Machine, b: Machine) { exists trace, events :: Path(trace, events, a, b) }

  lemma ReachesSelf(a: Machine)
    ensures Reaches(a, a)
  {
    assert Path([a], [], a, a);
  }

  lemma ReachesNext(a: Machine, m: Machine, e: RuntimeCoherence.Event, after: Machine)
    requires Reaches(a, m) && SlotInv(m) && Enabled(m, e) && after == Next(m, e)
    ensures Reaches(a, after) && SlotInv(after)
  {
    NextKeeps(m, e);
    var trace, events :| Path(trace, events, a, m);
    forall i | 0 <= i <= |events| ensures StepAt(trace + [after], events + [e], i) {
      if i < |events| { assert StepAt(trace, events, i); }
    }
    assert Path(trace + [after], events + [e], a, after);
  }

  lemma {:induction false} PathExtendsRun(
    trace: seq<Machine>, events: seq<RuntimeCoherence.Event>, durable: Option<ClientState>, prefix: string,
    path: seq<Machine>, steps: seq<RuntimeCoherence.Event>, b: Machine)
    requires RuntimeCoherence.Run(trace, events, durable, prefix) && Path(path, steps, trace[|events|], b)
    ensures RuntimeCoherence.Run(trace + path[1..], events + steps, durable, prefix)
    ensures (trace + path[1..])[|events + steps|] == b
  {
    var all, es := trace + path[1..], events + steps;
    forall i | 0 <= i < |es| ensures StepAt(all, es, i) {
      if i < |events| {
        assert StepAt(trace, events, i);
      } else {
        assert StepAt(path, steps, i - |events|);
      }
    }
  }

  /** What a method reaches from a moment of a run is a moment of a longer run. */
  lemma ReachedIsReachable(
    trace: seq<Machine>, events: seq<RuntimeCoherence.Event>, durable: Option<ClientState>, prefix: string, b: Machine)
    requires RuntimeCoherence.Run(trace, events, durable, prefix) && Reaches(trace[|events|], b)
    ensures exists longer, more ::
              && RuntimeCoherence.Run(longer, more, durable, prefix) && |events| <= |more|
              && more[..|events|] == events && longer[..|trace|] == trace && longer[|more|] == b
  {
    var path, steps :| Path(path, steps, trace[|events|], b);
    PathExtendsRun(trace, events, durable, prefix, path, steps, b);
    var longer, more := trace + path[1..], events + steps;
    assert more[..|events|] == events && longer[..|trace|] == trace;
  }

  // ---------------------------------------------------------------- the client

  class SyncClient {
    var durable: Option<ClientState>
    var poisoned: bool
    var live: bool
    var cell: Cell
    var guard: Option<Guard>
    var reader: Option<Reader>

    function View(): Machine
      reads this
    {
      Machine(durable, poisoned, live, cell, guard, reader)
    }

    constructor (stored: Option<ClientState>, prefix: string)
      ensures View() == Initially(stored, prefix) && SlotInv(View())
    {
      durable, poisoned, live, cell, guard := stored, false, true, Cell(None, false, ReadReplay.Fresh(prefix)), None;
      reader := None;
    }

    method LockRuntime()
      requires guard.None?
      modifies this`guard
      ensures View() == Next(old(View()), Acquire)
    {
      guard := Some(Guard(Clean, Ready, false));
    }

    /** `Drop` of the guard, on every return path and on every death of the worker. */
    method Drop()
      requires guard.Some?
      modifies this
      ensures View() == Next(old(View()), Release)
    {
      if guard.value.phase != Clean {
        if guard.value.phase == InFlight { poisoned := true; }
        cell := InvalidateCell(cell);
      }
      guard := None;
    }

    /** An await: the session may be lost and another slot may poison the database. */
    method Await(meanwhile: Meanwhile, ghost start: Machine)
      requires SlotInv(View()) && Reaches(start, View())
      modifies this`live, this`poisoned
      ensures SlotInv(View()) && Reaches(start, View())
      ensures live == (old(live) && !meanwhile.sessionLost)
      ensures poisoned == (old(poisoned) || meanwhile.poisonedElsewhere)
    {
      ghost var m := View();
      if meanwhile.sessionLost {
        live := false;
        ReachesNext(start, m, SessionLost, View());
      }
      ghost var m1 := View();
      if meanwhile.poisonedElsewhere {
        poisoned := true;
        ReachesNext(start, m1, PoisonedElsewhere, View());
      }
    }

    method ArmMutation(call: Call, ghost start: Machine)
      requires SlotInv(View()) && MayArm(View(), call) && Reaches(start, View())
      modifies this`guard
      ensures View() == Next(old(View()), Arm(call)) && SlotInv(View()) && Reaches(start, View())
    {
      ghost var m := View();
      guard := Some(Guard(InFlight, Storing(call, false), true));
      ReachesNext(start, m, Arm(call), View());
    }

    /** The engine makes the write durable while the call is in flight. */
    method Commit(call: Call, ghost start: Machine)
      requires SlotInv(View()) && guard == Some(Guard(InFlight, Storing(call, false), true)) && CanLand(durable, call)
      requires Reaches(start, View())
      modifies this`guard, this`durable
      ensures View() == Next(old(View()), Land) && SlotInv(View()) && Reaches(start, View())
    {
      ghost var m := View();
      durable := Written(durable, call);
      guard := Some(Guard(InFlight, Storing(call, true), true));
      ReachesNext(start, m, Land, View());
    }

    method SettledMutation(outcome: Outcome, ghost start: Machine)
      requires SlotInv(View()) && Enabled(View(), Settle(outcome)) && Reaches(start, View())
      modifies this`guard, this`poisoned
      ensures View() == Next(old(View()), Settle(outcome)) && SlotInv(View()) && Reaches(start, View())
    {
      ghost var m := View();
      var call := guard.value.work.call;
      if Uncertain(outcome) { poisoned := true; }
      guard := Some(Guard(Settled, Stored(call, outcome), guard.value.cleared && !(call.Initial? && poisoned)));
      ReachesNext(start, m, Settle(outcome), View());
    }

    /** Arm, await and settle one storage call. */
    method Store(call: Call, reply: Reply, ghost start: Machine)
      requires SlotInv(View()) && MayArm(View(), call) && Possible(durable, call, reply) && Reaches(start, View())
      modifies this
      ensures SlotInv(View()) && Reaches(start, View()) && cell == old(cell) && reader == old(reader)
      ensures guard == Some(Guard(Settled, Stored(call, reply.outcome), !(call.Initial? && poisoned)))
      ensures durable == if reply.landed then Written(old(durable), call) else old(durable)
      ensures poisoned == (old(poisoned) || reply.meanwhile.poisonedElsewhere || Uncertain(reply.outcome))
      ensures live == (old(live) && !reply.meanwhile.sessionLost)
    {
      ArmMutation(call, start);
      if reply.landed { Commit(call, start); }
      Await(reply.meanwhile, start);
      SettledMutation(reply.outcome, start);
    }

    method Invalidate(ghost start: Machine)
      requires SlotInv(View()) && Enabled(View(), Invalidated) && Reaches(start, View())
      modifies this`cell
      ensures View() == Next(old(View()), Invalidated) && SlotInv(View()) && Reaches(start, View())
    {
      ghost var m := View();
      cell := InvalidateCell(cell);
      ReachesNext(start, m, Invalidated, View());
    }

    method DisarmMutation(ghost start: Machine)
      requires SlotInv(View()) && Enabled(View(), Disarm) && Reaches(start, View())
      modifies this`guard
      ensures View() == Next(old(View()), Disarm) && SlotInv(View()) && Reaches(start, View())
    {
      ghost var m := View();
      guard := Some(Guard(Clean, Ready, guard.value.cleared));
      ReachesNext(start, m, Disarm, View());
    }

    /**
     Persist a prepared transition, then install it; also straight after a committed barrier write.
     `reports` is whether the runtime accepted the transition and its status could be expressed.
     */
    method PersistAndInstall(next: ClientState, encodable: bool, reply: Reply, reports: bool, encoded: Option<nat>)
      returns (r: Result<U64, ClientError>)
      requires SlotInv(View()) && (AtRest(View()) || BarrierSaved(View()))
      requires cell.runtime.Some? ==> PreparedFrom(cell.runtime.value, next)
                                      && Possible(durable, Transition(cell.runtime.value, next), reply)
      modifies this
      ensures SlotInv(View()) && Reaches(old(View()), View())
      // Exactly when it succeeds, and what success means.
      ensures r.Ok? <==>
                && Gate(old(View())) && old(cell).runtime.Some? && encodable
                && reply.outcome == Committed && Calm(reply.meanwhile) && reports
      ensures r.Ok? ==>
                && cell == InstallCell(old(cell), next, encoded)
                && durable == Some(next) && r.value == next.revision && guard == READY && Gate(View())
      // Exactly when nothing is stored at all.
      ensures !Gate(old(View())) || old(cell).runtime.None? || !encodable ==> r.Err? && View() == old(View())
      ensures Gate(old(View())) && old(cell).runtime.Some? && encodable ==>
                durable == if reply.landed then Some(next) else old(durable)
      // A failure leaves the runtime alone only if nothing was stored or the write was rolled back.
      ensures r.Err? && AtRest(View()) ==>
                && cell == old(cell) && durable == old(durable)
                && (!Gate(old(View())) || old(cell).runtime.None? || !encodable
                    || (reply.outcome == RolledBack && Calm(reply.meanwhile) && r == Err(Persistence)))
      ensures r.Err? && !AtRest(View()) && View() != old(View()) ==>
                && Holding(View(), Settled) && cell == InvalidateCell(old(cell)) && r == Err(RecoveryRequired)
                && (Uncertain(reply.outcome) || !Calm(reply.meanwhile) || (reply.outcome == Committed && !reports))
    {
      ghost var start := View();
      ReachesSelf(start);
      if poisoned || !live { return Err(RecoveryRequired); }
      if cell.runtime.None? {
        return Err(if cell.recoveryRequired then RecoveryRequired else Closed);
      }
      if !encodable { return Err(Protocol); }
      Store(Transition(cell.runtime.value, next), reply, start);
      if Uncertain(reply.outcome) || poisoned || !live {
        Invalidate(start);
        return Err(RecoveryRequired);
      }
      if reply.outcome == RolledBack {
        DisarmMutation(start);
        return Err(Persistence);
      }
      if !reports {
        Invalidate(start);
        return Err(RecoveryRequired);
      }
      InstallPrepared(encoded, start);
      return Ok(next.revision);
    }

    method InstallPrepared(encoded: Option<nat>, ghost start: Machine)
      requires SlotInv(View()) && Enabled(View(), Installed(encoded)) && Reaches(start, View())
      modifies this`cell, this`guard
      ensures View() == Next(old(View()), Installed(encoded)) && SlotInv(View()) && Reaches(start, View())
    {
      ghost var m := View();
      cell := InstallCell(cell, guard.value.work.call.next, encoded);
      guard := READY;
      ReachesNext(start, m, Installed(encoded), View());
    }

    /**
     Complete a bootstrap: storage answers what it applied, or nothing for a completion already
     made. The journal is read back before anything is shown; `readBack` is that read.
     */
    method CompleteBootstrap(
      applied: Option<ClientState>, reply: Reply, readBack: Option<ClientState>, barred: bool, otherRotates: bool)
      returns (r: Result<bool, ClientError>)
      requires SlotInv(View()) && AtRest(View())
      requires Possible(durable, Completion(applied), reply)
      modifies this
      ensures SlotInv(View()) && Reaches(old(View()), View())
      ensures !Gate(old(View())) || old(cell).runtime.None? ==> r.Err? && View() == old(View())
      ensures r == Ok(true) <==>
                && Gate(old(View())) && old(cell).runtime.Some?
                && reply.outcome == Committed && Calm(reply.meanwhile)
                && applied.Some? && readBack == applied && !barred && Rotates(old(cell), otherRotates)
      ensures r == Ok(true) ==>
                && durable == applied && cell.runtime == applied && guard == READY
                && ReadReplay.RotateJournal(old(cell).journal) == Ok(cell.journal)
      ensures r == Ok(false) <==>
                && Gate(old(View())) && old(cell).runtime.Some?
                && reply.outcome == Committed && Calm(reply.meanwhile)
                && applied.None? && readBack == old(cell).runtime
      ensures r == Ok(false) ==> cell == old(cell) && durable == cell.runtime && guard == READY
      ensures r.Err? && AtRest(View()) ==>
                && cell == old(cell) && durable == old(durable)
                && (!Gate(old(View())) || old(cell).runtime.None?
                    || (reply.outcome == RolledBack && Calm(reply.meanwhile)))
      ensures r.Err? && !AtRest(View()) ==> Holding(View(), Settled) && cell.runtime.None?
    {
      ghost var start := View();
      ReachesSelf(start);
      if poisoned || !live { return Err(RecoveryRequired); }
      if cell.runtime.None? {
        return Err(if cell.recoveryRequired then RecoveryRequired else Closed);
      }
      Store(Completion(applied), reply, start);
      if Uncertain(reply.outcome) || poisoned || !live {
        Invalidate(start);
        return Err(RecoveryRequired);
      }
      if reply.outcome == RolledBack {
        DisarmMutation(start);
        return Err(Persistence);
      }
      r := FinishCompletion(applied, readBack, barred, otherRotates, start);
    }

    /** After a committed completion: show what was read back, if it is what was applied. */
    method FinishCompletion(
      applied: Option<ClientState>, readBack: Option<ClientState>, barred: bool, otherRotates: bool,
      ghost start: Machine)
      returns (r: Result<bool, ClientError>)
      requires SlotInv(View()) && Gate(View()) && Reaches(start, View()) && cell.runtime.Some?
      requires guard == Some(Guard(Settled, Stored(Completion(applied), Committed), true))
      modifies this`cell, this`guard
      ensures SlotInv(View()) && Reaches(start, View())
      ensures r == Ok(true) <==>
                applied.Some? && readBack == applied && !barred && Rotates(old(cell), otherRotates)
      ensures r == Ok(true) ==>
                && cell.runtime == durable == applied && guard == READY
                && ReadReplay.RotateJournal(old(cell).journal) == Ok(cell.journal)
      ensures r == Ok(false) <==> applied.None? && readBack == old(cell).runtime
      ensures r == Ok(false) ==> cell == old(cell) && durable == cell.runtime && guard == READY
      ensures r.Err? ==> guard == old(guard) && cell.runtime.None?
    {
      if readBack.None? {
        Invalidate(start);
        return Err(RecoveryRequired);
      }
      if applied.None? {
        if cell.runtime != readBack {
          Invalidate(start);
          return Err(RecoveryRequired);
        }
        DisarmMutation(start);
        return Ok(false);
      }
      if readBack != applied || barred {
        Invalidate(start);
        return Err(RecoveryRequired);
      }
      r := Publish(otherRotates, start);
    }

    /** Show an installed bootstrap under a rotated epoch, or give the runtime up. */
    method Publish(otherRotates: bool, ghost start: Machine) returns (r: Result<bool, ClientError>)
      requires SlotInv(View()) && Enabled(View(), Published(otherRotates)) && Reaches(start, View())
      modifies this`cell, this`guard
      ensures SlotInv(View()) && Reaches(start, View())
      ensures r == Ok(true) <==> Rotates(old(cell), otherRotates)
      ensures r == Ok(true) ==>
                cell.runtime == durable && guard == READY && ReadReplay.RotateJournal(old(cell).journal) == Ok(cell.journal)
      ensures r != Ok(true) ==> r == Err(RecoveryRequired) && guard == old(guard) && cell.runtime.None?
    {
      ghost var m := View();
      cell := ReplaceCell(cell, durable.value, otherRotates);
      if cell.runtime.None? {
        ReachesNext(start, m, Published(otherRotates), View());
        return Err(RecoveryRequired);
      }
      guard := READY;
      ReachesNext(start, m, Published(otherRotates), View());
      return Ok(true);
    }

    /** A staging write: the journal is not touched, but doubt, poison or a lost session cost the runtime. */
    method FinishStagingCall(reply: Reply) returns (r: Result<(), ClientError>)
      requires SlotInv(View()) && AtRest(View()) && Gate(View()) && cell.runtime.Some?
      requires Possible(durable, Staging, reply)
      modifies this
      ensures SlotInv(View()) && Reaches(old(View()), View()) && durable == old(durable)
      ensures !Gate(View()) ==>
                r == Err(RecoveryRequired) && Holding(View(), Settled) && cell == InvalidateCell(old(cell))
      ensures Gate(View()) ==> AtRest(View()) && cell == old(cell)
      ensures Gate(View()) <==> !Uncertain(reply.outcome) && !reply.meanwhile.sessionLost
                                && !reply.meanwhile.poisonedElsewhere
      ensures r.Ok? <==> reply.outcome == Committed && Gate(View())
    {
      ghost var start := View();
      ReachesSelf(start);
      Store(Staging, reply, start);
      if Uncertain(reply.outcome) || poisoned || !live {
        Invalidate(start);
        return Err(RecoveryRequired);
      }
      DisarmMutation(start);
      if reply.outcome == RolledBack { return Err(Persistence); }
      return Ok(());
    }

    /**
     A barrier write. Once committed it is disarmed, or left for the transition that follows,
     without asking about poison or session again; any failure takes the runtime away unrotated.
     */
    method SaveScopeBarrier(reply: Reply, disarms: bool) returns (r: Result<(), ClientError>)
      requires SlotInv(View()) && AtRest(View()) && Gate(View()) && cell.runtime.Some?
      requires Possible(durable, ScopeBarrier, reply)
      modifies this
      ensures SlotInv(View()) && Reaches(old(View()), View()) && durable == old(durable)
      ensures r.Ok? <==> reply.outcome == Committed
      ensures r.Ok? ==> cell == old(cell) && if disarms then AtRest(View()) else BarrierSaved(View())
      ensures r.Err? ==> Holding(View(), Settled) && cell == TakeCell(old(cell))
    {
      ghost var start := View();
      ReachesSelf(start);
      Store(ScopeBarrier, reply, start);
      if reply.outcome != Committed {
        ghost var m := View();
        cell := TakeCell(cell);
        ReachesNext(start, m, Taken, View());
        return Err(RecoveryRequired);
      }
      if disarms { DisarmMutation(start); }
      return Ok(());
    }

    /** The barrier is read before an operation; a failed read takes the runtime away unrotated. */
    method RefreshScopeBarrier(meanwhile: Meanwhile, read: bool) returns (r: Result<(), ClientError>)
      requires SlotInv(View()) && AtRest(View())
      modifies this
      ensures SlotInv(View()) && Reaches(old(View()), View()) && AtRest(View()) && durable == old(durable)
      ensures !Gate(old(View())) || old(cell).runtime.None? ==> r.Err? && View() == old(View())
      ensures Gate(old(View())) && old(cell).runtime.Some? ==>
                (r.Ok? <==> read) && cell == if read then old(cell) else TakeCell(old(cell))
    {
      ghost var start := View();
      ReachesSelf(start);
      if poisoned || !live { return Err(RecoveryRequired); }
      if cell.runtime.None? {
        return Err(if cell.recoveryRequired then RecoveryRequired else Closed);
      }
      guard := READY;
      ReachesNext(start, start, Checked, View());
      Await(meanwhile, start);
      if !read {
        ghost var m := View();
        cell := TakeCell(cell);
        ReachesNext(start, m, Taken, View());
        return Err(RecoveryRequired);
      }
      return Ok(());
    }

    /** The last part of every open: fill an empty slot from what was read, then ask the gate once more. */
    method FillAndReturn(otherRotates: bool, ghost start: Machine) returns (r: Result<(), ClientError>)
      requires SlotInv(View()) && OpenPoint(View()) && Cleared(View()) && durable.Some? && Reaches(start, View())
      modifies this`cell, this`guard
      ensures SlotInv(View()) && Reaches(start, View())
      ensures cell == if old(cell).runtime.Some? then old(cell) else ReopenCell(old(cell), durable.value, otherRotates)
      ensures r.Ok? <==> Gate(View()) && cell.runtime.Some?
      ensures r.Ok? ==> guard == READY && durable == cell.runtime
      ensures r.Err? ==> guard == old(guard)
    {
      ghost var m := View();
      if cell.runtime.None? {
        cell := ReopenCell(cell, durable.value, otherRotates);
        ReachesNext(start, m, Opened(otherRotates), View());
        if cell.runtime.None? { return Err(RecoveryRequired); }
      }
      if poisoned || !live { return Err(RecoveryRequired); }
      ghost var m1 := View();
      guard := READY;
      ReachesNext(start, m1, OpenReturned, View());
      return Ok(());
    }

    /** An existing journal is attached to an empty slot, or compared with the one already there. */
    method AttachExisting(otherRotates: bool, meanwhile: Meanwhile) returns (r: Result<(), ClientError>)
      requires SlotInv(View()) && AtRest(View())
      modifies this
      ensures SlotInv(View()) && Reaches(old(View()), View()) && AtRest(View()) && durable == old(durable)
      ensures !Gate(old(View())) ==> r.Err? && View() == old(View())
      ensures r.Ok? <==>
                && Gate(old(View())) && Calm(meanwhile) && durable.Some?
                && (old(cell).runtime.Some? || !old(cell).recoveryRequired || Rotates(old(cell), otherRotates))
      ensures r.Ok? ==> Gate(View()) && cell.runtime.Some? && durable == cell.runtime
      ensures old(cell).runtime.Some? ==> cell == old(cell)
    {
      ghost var start := View();
      ReachesSelf(start);
      if poisoned || !live { return Err(RecoveryRequired); }
      guard := READY;
      ReachesNext(start, start, Checked, View());
      Await(meanwhile, start);
      if durable.None? { return Err(RecoveryRequired); }
      if cell.runtime.Some? && cell.runtime != durable { return Err(RecoveryRequired); }
      r := FillAndReturn(otherRotates, start);
    }

    /** Define the schema, load the journal or create an empty one, and fill the empty slot. */
    method Initialize(initial: ClientState, schema: Reply, save: Reply, meanwhile: Meanwhile, otherRotates: bool)
      returns (r: Result<(), ClientError>)
      requires SlotInv(View()) && AtRest(View()) && cell.runtime.None?
      requires Possible(durable, Schema, schema) && Possible(durable, Initial(initial), save)
      modifies this
      ensures SlotInv(View()) && Reaches(old(View()), View())
      ensures !Gate(old(View())) ==> r.Err? && View() == old(View())
      ensures r.Ok? <==>
                && Gate(old(View())) && schema.outcome == Committed && Calm(schema.meanwhile)
                && (old(durable).Some? || (save.outcome == Committed && Calm(save.meanwhile)))
                && Calm(meanwhile) && (!old(cell).recoveryRequired || Rotates(old(cell), otherRotates))
      ensures r.Ok? ==> guard == READY && Gate(View()) && cell.runtime.Some? && durable == cell.runtime
                        && (old(durable).Some? ==> durable == old(durable))
                        && (old(durable).None? ==> durable == Some(initial))
      ensures r.Err? && cell.runtime.Some? ==> Holding(View(), Settled) && !Gate(View())
    {
      ghost var start := View();
      ReachesSelf(start);
      if poisoned || !live { return Err(RecoveryRequired); }
      Store(Schema, schema, start);
      if schema.outcome != Committed { return Err(RecoveryRequired); }
      if durable.None? {
        Store(Initial(initial), save, start);
        if poisoned { return Err(RecoveryRequired); }
        if durable.None? { return Err(Persistence); }
      }
      Await(meanwhile, start);
      r := FillAndReturn(otherRotates, start);
    }
  }
}
