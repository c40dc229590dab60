/**
 Explicit transactions against `close`. A begin checks the closed flag, starts a native
 transaction, and rechecks the flag under the registry lock before it hands the handle out; a close
 raises the flag, then empties the registry under the same lock and cancels what it found.
 */
module TransactionRegistry {
  import opened Common

  /** `live`: somebody still holds the handle. `closed` is the handle's own flag. */
  datatype Handle = Handle(returned: bool, live: bool, closed: bool)

  /** `remaining` is what the close that holds the lifecycle lock has yet to cancel. */
  datatype Registry = Registry(
    closed: bool, finished: bool, aborted: bool, entries: set<nat>, remaining: Option<set<nat>>,
    handles: map<nat, Handle>)

  datatype Event =
    | Begun(id: nat)
    | Registered(id: nat)
    | EndedByUser(id: nat)
    | Dropped(id: nat)
    | CloseFlagged
    | CloseCollected
    | CloseCancelled(id: nat)
    | CloseAborted(id: nat)
    | CloseFinished

  predicate Enabled(d: Registry, e: Event) {
    match e
    case Begun(id) => id !in d.handles && !d.closed
    case Registered(id) => id in d.handles && !d.handles[id].returned && !d.handles[id].closed
    case EndedByUser(id) => id in d.handles && d.handles[id].returned && d.handles[id].live
    case Dropped(id) => id in d.handles && d.handles[id].returned
    case CloseFlagged => true
    case CloseCollected => d.closed && d.remaining.None?
    case CloseCancelled(id) => d.remaining.Some? && id in d.remaining.value && id in d.handles
    case CloseAborted(id) => d.remaining.Some? && id in d.remaining.value && id in d.handles
    case CloseFinished => d.remaining == Some({})
  }

  function Shut(d: Registry, id: nat): Registry
    requires id in d.handles
  {
    d.(handles := d.handles[id := d.handles[id].(closed := true)])
  }

  function LiveOnly(d: Registry): set<nat>
  {
    set id | id in d.entries && id in d.handles && d.handles[id].live
  }

  function Next(d: Registry, e: Event): Registry
    requires Enabled(d, e)
  {
    match e
    case Begun(id) => d.(handles := d.handles[id := Handle(false, true, false)])
    case Registered(id) =>
      // One step under the registry lock: recheck the flag, then cancel or publish.
      if d.closed then Shut(d, id)
      else d.(handles := d.handles[id := d.handles[id].(returned := true)], entries := LiveOnly(d) + {id})
    case EndedByUser(id) => Shut(d, id)
    case Dropped(id) => d.(handles := d.handles[id := d.handles[id].(live := false, closed := true)])
    case CloseFlagged => d.(closed := true)
    case CloseCollected => d.(remaining := Some(LiveOnly(d)), entries := {})
    case CloseCancelled(id) => Shut(d, id).(remaining := Some(d.remaining.value - {id}))
    case CloseAborted(id) => Shut(d, id).(remaining := None, aborted := true)
    case CloseFinished => d.(remaining := None, finished := true)
  }

  // ---------------------------------------------------------------- the invariant

  predicate Open(h: Handle) { h.returned && h.live && !h.closed }

  /** A close gave up: nothing is registered any more and no later close finds anything. */
  predicate Abandoned(d: Registry) {
    d.closed && d.entries == {} && (d.remaining.Some? ==> d.remaining.value == {})
  }

  /** Every open handle is still known to the registry or to the close at work on it, unless a close gave up. */
  predicate Inv(d: Registry) {
    && (d.aborted ==> Abandoned(d))
    && (d.remaining.Some? ==> d.closed && d.entries == {})
    && (d.finished ==> d.closed && d.entries == {} && (d.remaining.Some? ==> d.remaining.value == {}))
    && (!d.aborted ==>
          forall id | id in d.handles && Open(d.handles[id]) ::
            id in d.entries || (d.remaining.Some? && id in d.remaining.value))
  }

  lemma NextKeeps(d: Registry, e: Event)
    requires Inv(d) && Enabled(d, e)
    ensures Inv(Next(d, e))
    ensures d.finished ==> Next(d, e).finished
    ensures d.closed ==> Next(d, e).closed
  {
    assert d.entries == {} ==> LiveOnly(d) == {};
  }

  predicate Leads(d: Registry, e: Event, after: Registry) { Enabled(d, e) && after == Next(d, e) }

  predicate Run(trace: seq<Registry>, events: seq<Event>) {
    && |trace| == |events| + 1
    && trace[0] == Registry(false, false, false, {}, None, map[])
    && forall i | 0 <= i < |events| :: Leads(trace[i], events[i], trace[i + 1])
  }

  lemma {:induction false} RunKeeps(trace: seq<Registry>, events: seq<Event>, i: nat, j: nat)
    requires Run(trace, events) && i <= j <= |events|
    ensures Inv(trace[j])
    ensures trace[i].finished ==> trace[j].finished
    decreases j
  {
    if j > 0 {
      RunKeeps(trace, events, if i < j then i else j - 1, j - 1);
      assert Leads(trace[j - 1], events[j - 1], trace[j]);
      NextKeeps(trace[j - 1], events[j - 1]);
    }
  }

  /** Once a close has finished with no cancel failing, no handle is ever open again. */
  lemma NothingOpenAfterClose(trace: seq<Registry>, events: seq<Event>, i: nat, j: nat, id: nat)
    requires Run(trace, events) && i <= j <= |events| && trace[i].finished && !trace[j].aborted
    requires id in trace[j].handles && trace[j].handles[id].returned && trace[j].handles[id].live
    ensures trace[j].handles[id].closed
  {
    RunKeeps(trace, events, i, j);
  }

  // ---------------------------------------------------------------- when a cancel fails

  predicate OpenIn(d: Registry, id: nat) { id in d.handles && Open(d.handles[id]) }

  lemma AbandonedStep(d: Registry, e: Event, id: nat)
    requires Abandoned(d) && Enabled(d, e)
    ensures Abandoned(Next(d, e))
    ensures OpenIn(Next(d, e), id) <==> OpenIn(d, id) && e != EndedByUser(id) && e != Dropped(id)
  {
    assert LiveOnly(d) == {};
  }

  /** Nobody ended or dropped this handle between these moments. */
  predicate LeftAlone(events: seq<Event>, i: nat, j: nat, id: nat)
    requires i <= j <= |events|
  {
    forall m | i <= m < j :: events[m] != EndedByUser(id) && events[m] != Dropped(id)
  }

  lemma {:induction false} AbandonedStays(trace: seq<Registry>, events: seq<Event>, i: nat, j: nat, id: nat)
    requires Run(trace, events) && i <= j <= |events| && Abandoned(trace[i])
    ensures Abandoned(trace[j])
    ensures OpenIn(trace[j], id) <==> OpenIn(trace[i], id) && LeftAlone(events, i, j, id)
    decreases j
  {
    if i < j {
      AbandonedStays(trace, events, i, j - 1, id);
      assert Leads(trace[j - 1], events[j - 1], trace[j]);
      AbandonedStep(trace[j - 1], events[j - 1], id);
    }
  }

  /**
   Exactly what a failed cancel leaves open, at every later moment and whatever later closes do:
   the handles that close had collected and not yet cancelled, other than the failing one, that
   were open then and that nobody has ended or dropped since.
   */
  lemma SurvivorsOfFailedCancel(
    trace: seq<Registry>, events: seq<Event>, i: nat, failing: nat, j: nat, id: nat)
    requires Run(trace, events) && i < j <= |events| && events[i] == CloseAborted(failing)
    ensures trace[i].remaining.Some?
    ensures OpenIn(trace[j], id) <==>
              && id in trace[i].remaining.value && id != failing
              && OpenIn(trace[i], id) && LeftAlone(events, i + 1, j, id)
  {
    RunKeeps(trace, events, i, i);
    assert Leads(trace[i], events[i], trace[i + 1]);
    AbandonedStays(trace, events, i + 1, j, id);
  }

  /** The registry with these two transactions returned, before and after a close whose first cancel fails. */
  const TWO_OPEN := Registry(false, false, false, {1, 2}, None, map[1 := Handle(true, true, false), 2 := Handle(true, true, false)])
  const ONE_LEFT := Registry(true, false, true, {}, None, map[1 := Handle(true, true, true), 2 := Handle(true, true, false)])

  lemma TwoBegin() returns (trace: seq<Registry>, events: seq<Event>)
    ensures Run(trace, events) && trace[|events|] == TWO_OPEN
  {
    var pending, open := Handle(false, true, false), Handle(true, true, false);
    var d0 := Registry(false, false, false, {}, None, map[]);
    var d1 := d0.(handles := map[1 := pending]);
    var d2 := d0.(handles := map[1 := open], entries := {1});
    var d3 := d2.(handles := map[1 := open, 2 := pending]);
    assert Leads(d0, Begun(1), d1);
    assert Leads(d1, Registered(1), d2) by { assert LiveOnly(d1) == {}; }
    assert Leads(d2, Begun(2), d3);
    assert Leads(d3, Registered(2), TWO_OPEN) by { assert LiveOnly(d3) == {1}; }
    trace, events := [d0, d1, d2, d3, TWO_OPEN], [Begun(1), Registered(1), Begun(2), Registered(2)];
  }

  lemma CloseFails(d5: Registry, d6: Registry)
    requires d5 == TWO_OPEN.(closed := true) && d6 == d5.(remaining := Some({1, 2}), entries := {})
    ensures Leads(TWO_OPEN, CloseFlagged, d5) && Leads(d5, CloseCollected, d6) && Leads(d6, CloseAborted(1), ONE_LEFT)
  {
    assert LiveOnly(d5) == {1, 2};
  }

  lemma RunOneMore(trace: seq<Registry>, events: seq<Event>, e: Event, after: Registry)
    requires Run(trace, events) && Leads(trace[|events|], e, after)
    ensures Run(trace + [after], events + [e])
  {
  }

  /** Such a run exists: two transactions, a close whose first cancel fails, and a second close that finishes. */
  lemma FailedCancelLeavesOthersOpen() returns (trace: seq<Registry>, events: seq<Event>)
    ensures Run(trace, events) && trace[|events|].finished && OpenIn(trace[|events|], 2)
  {
    trace, events := TwoBegin();
    var d5 := TWO_OPEN.(closed := true);
    var d6 := d5.(remaining := Some({1, 2}), entries := {});
    CloseFails(d5, d6);
    RunOneMore(trace, events, CloseFlagged, d5);
    trace, events := trace + [d5], events + [CloseFlagged];
    RunOneMore(trace, events, CloseCollected, d6);
    trace, events := trace + [d6], events + [CloseCollected];
    RunOneMore(trace, events, CloseAborted(1), ONE_LEFT);
    trace, events := trace + [ONE_LEFT], events + [CloseAborted(1)];
    var d8 := ONE_LEFT.(remaining := Some({}));
    assert LiveOnly(ONE_LEFT) == {};
    RunOneMore(trace, events, CloseCollected, d8);
    trace, events := trace + [d8], events + [CloseCollected];
    var d9 := ONE_LEFT.(finished := true);
    RunOneMore(trace, events, CloseFinished, d9);
    trace, events := trace + [d9], events + [CloseFinished];
  }

  // ---------------------------------------------------------------- the database's own code

  class Database {
    var closed: bool
    var entries: set<nat>
    var handles: map<nat, Handle>

    /** Every open handle is registered, and nothing is registered after a close. */
    predicate Valid()
      reads this
    {
      && (forall id | id in entries :: id in handles)
      && (forall id | id in handles && Open(handles[id]) :: id in entries)
    }

    constructor ()
      ensures Valid() && !closed && handles == map[]
    {
      closed, entries, handles := false, {}, map[];
    }

    /** The second half of `begin_transaction`; `id` is the native transaction just begun. */
    method Register(id: nat) returns (ok: bool)
      requires Valid() && id !in handles
      modifies this
      ensures Valid() && closed == old(closed)
      ensures ok == !old(closed)
      ensures handles == old(handles)[id := Handle(ok, true, !ok)]
    {
      if closed {
        handles := handles[id := Handle(false, true, true)];
        return false;
      }
      entries := set e | e in entries && handles[e].live;
      handles := handles[id := Handle(true, true, false)];
      entries := entries + {id};
      return true;
    }

    /** `close`: flag, empty the registry, cancel everything collected. */
    method Close()
      requires Valid()
      modifies this
      ensures Valid() && closed && entries == {}
      ensures forall id :: id in handles <==> id in old(handles)
      ensures forall id | id in handles :: !Open(handles[id])
      ensures forall id | id in handles && !Open(old(handles[id])) && old(handles[id].closed) ::
                handles[id] == old(handles[id])
    {
      closed := true;
      var rest := set e | e in entries && handles[e].live;
      entries := {};
      while rest != {}
        invariant closed && entries == {}
        invariant forall id :: id in handles <==> id in old(handles)
        invariant forall id | id in rest :: id in handles
        invariant forall id | id in handles && Open(handles[id]) :: id in rest
        invariant forall id | id in handles :: handles[id] == old(handles[id])
                                               || handles[id] == old(handles[id]).(closed := true)
        decreases rest
      {
        var id :| id in rest;
        handles := handles[id := handles[id].(closed := true)];
        rest := rest - {id};
      }
    }
  }
}
