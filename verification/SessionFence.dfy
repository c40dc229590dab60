/**
 Typed session changes against sync clients. A change reserves the session generation, waits for
 the lifecycle write lock, reserves it again and only then touches the session; a client remembers
 the generation it opened at and every operation rechecks it under the lifecycle read lock.
 */
module SessionFence {
  import opened Common

  /** The engine session a client's statements run under: namespace, database and credentials. */
  type Session(==)

  datatype Writer = Free | Granted | Armed

  /** `initialized` is the session the client's first admitted operation ran under. */
  datatype Client = Client(generation: U64, initialized: Option<Session>)

  /** An operation holding the read lock, and whether it has passed `ensure_session` yet. */
  datatype Operation = Operation(client: nat, admitted: bool)

  datatype Database = Database(
    generation: U64, closed: bool, session: Session, waiting: nat, writer: Writer,
    operations: map<nat, Operation>, clients: map<nat, Client>)

  datatype Event =
    | Open(client: nat)
    | Lock(operation: nat, client: nat)
    | Admit(operation: nat)
    | Unlock(operation: nat)
    | ReserveFirst
    | Grant
    | ReserveSecond
    | Touch(session: Session)
    | Finish
    | Close

  predicate Admissible(d: Database, c: Client) { !d.closed && c.generation == d.generation }

  predicate Enabled(d: Database, e: Event) {
    match e
    case Open(c) => c !in d.clients
    case Lock(o, c) => o !in d.operations && c in d.clients && d.writer == Free
    case Admit(o) => o in d.operations && d.operations[o].client in d.clients
                     && Admissible(d, d.clients[d.operations[o].client])
    case Unlock(o) => o in d.operations
    case ReserveFirst => true
    case Grant => d.waiting > 0 && d.writer == Free && d.operations == map[]
    case ReserveSecond => d.writer == Granted
    case Touch(_) => d.writer == Armed
    case Finish => d.writer == Armed
    case Close => true
  }

  /** `reserve_session_change`: a checked increment, or the database closes. */
  function Reserve(d: Database): Database
  {
    if d.generation == U64_MAX then d.(closed := true) else d.(generation := d.generation + 1)
  }

  function Next(d: Database, e: Event): Database
    requires Enabled(d, e)
  {
    match e
    case Open(c) => d.(clients := d.clients[c := Client(d.generation, None)])
    case Lock(o, c) => d.(operations := d.operations[o := Operation(c, false)])
    case Admit(o) =>
      var c := d.operations[o].client;
      d.(operations := d.operations[o := Operation(c, true)],
         clients := if d.clients[c].initialized.Some? then d.clients
                    else d.clients[c := d.clients[c].(initialized := Some(d.session))])
    case Unlock(o) => d.(operations := d.operations - {o})
    case ReserveFirst => if d.generation == U64_MAX then Reserve(d) else Reserve(d).(waiting := d.waiting + 1)
    case Grant => d.(waiting := d.waiting - 1, writer := Granted)
    case ReserveSecond => Reserve(d).(writer := if d.generation == U64_MAX then Free else Armed)
    case Touch(session) => d.(session := session)
    case Finish => d.(writer := Free)
    case Close => Reserve(d).(closed := true)
  }

  function Initially(session: Session): Database
  {
    Database(0, false, session, 0, Free, map[], map[])
  }

  // ---------------------------------------------------------------- the invariant

  predicate Inv(d: Database) {
    && (d.writer != Free ==> d.operations == map[])
    && (forall c | c in d.clients :: d.clients[c].generation <= d.generation)
    // Whoever could still be admitted was initialized under the present session.
    && (forall c | c in d.clients && d.clients[c].initialized.Some? && d.clients[c].generation == d.generation ::
          d.clients[c].initialized.value == d.session && d.writer != Armed)
    // Whoever was admitted and still holds the lock is running under the session it knows.
    && (forall o | o in d.operations && d.operations[o].admitted ::
          && d.operations[o].client in d.clients
          && d.clients[d.operations[o].client].initialized == Some(d.session))
  }

  lemma AdmitKeeps(d: Database, o: nat)
    requires Inv(d) && Enabled(d, Admit(o))
    ensures Inv(Next(d, Admit(o)))
  {
    var c := d.operations[o].client;
    var after := Next(d, Admit(o));
    assert after.clients[c].initialized == Some(d.session);
    forall p | p in after.operations && after.operations[p].admitted
      ensures after.operations[p].client in after.clients
              && after.clients[after.operations[p].client].initialized == Some(d.session)
    {
      if p != o { assert p in d.operations && d.operations[p].admitted; }
    }
  }

  lemma NextKeeps(d: Database, e: Event)
    requires Inv(d) && Enabled(d, e)
    ensures Inv(Next(d, e))
    ensures d.generation <= Next(d, e).generation
    ensures d.closed ==> Next(d, e).closed
    ensures forall c | c in d.clients ::
              && c in Next(d, e).clients
              && Next(d, e).clients[c].generation == d.clients[c].generation
              && (d.clients[c].initialized.Some? ==>
                    Next(d, e).clients[c].initialized == d.clients[c].initialized)
  {
    if e.Admit? { AdmitKeeps(d, e.operation); }
  }

  // ---------------------------------------------------------------- runs

  predicate Run(trace: seq<Database>, events: seq<Event>) {
    && |trace| == |events| + 1 && trace[0] == Initially(trace[0].session)
    && forall i | 0 <= i < |events| :: Enabled(trace[i], events[i]) && trace[i + 1] == Next(trace[i], events[i])
  }

  lemma {:induction false} RunKeeps(trace: seq<Database>, events: seq<Event>, i: nat, j: nat)
    requires Run(trace, events) && i <= j <= |events|
    ensures Inv(trace[j])
    ensures trace[i].generation <= trace[j].generation
    ensures trace[i].closed ==> trace[j].closed
    ensures forall c | c in trace[i].clients ::
              && c in trace[j].clients && trace[j].clients[c].generation == trace[i].clients[c].generation
              && (trace[i].clients[c].initialized.Some? ==>
                    trace[j].clients[c].initialized == trace[i].clients[c].initialized)
    decreases j
  {
    if j > 0 {
      RunKeeps(trace, events, if i < j then i else j - 1, j - 1);
      NextKeeps(trace[j - 1], events[j - 1]);
    }
  }

  /** At moment `i` an admitted operation of this client holds the lifecycle read lock. */
  predicate Running(d: Database, client: nat) {
    exists o :: o in d.operations && d.operations[o] == Operation(client, true)
  }

  /** All operations of one client run under one session, however often the session changed meanwhile. */
  lemma OneClientOneSession(trace: seq<Database>, events: seq<Event>, i: nat, j: nat, client: nat)
    requires Run(trace, events) && i <= j <= |events|
    requires Running(trace[i], client) && Running(trace[j], client)
    ensures trace[i].session == trace[j].session
  {
    RunKeeps(trace, events, i, i);
    RunKeeps(trace, events, i, j);
  }

  /** Once the generation has moved on, or the database closed, an old client is never admitted again. */
  lemma OldClientNeverRevived(trace: seq<Database>, events: seq<Event>, i: nat, j: nat, client: nat)
    requires Run(trace, events) && i <= j < |events| && client in trace[i].clients
    requires !Admissible(trace[i], trace[i].clients[client])
    requires events[j].Admit?
    ensures trace[j].operations[events[j].operation].client != client
  {
    RunKeeps(trace, events, i, i);
    RunKeeps(trace, events, i, j);
  }

  /** The fence shuts out nobody it need not: on an open database with no change at work, a new client is served. */
  lemma NewClientIsServed(trace: seq<Database>, events: seq<Event>, i: nat, c: nat, o: nat)
    requires Run(trace, events) && i <= |events| && !trace[i].closed && trace[i].writer == Free
    requires c !in trace[i].clients && o !in trace[i].operations
    ensures Enabled(trace[i], Open(c))
    ensures var joined := Next(trace[i], Open(c));
            && Enabled(joined, Lock(o, c))
            && Enabled(Next(joined, Lock(o, c)), Admit(o))
            && var served := Next(Next(joined, Lock(o, c)), Admit(o));
               && Running(served, c) && served.clients[c].initialized == Some(trace[i].session)
               && served.session == trace[i].session
  {
    var served := Next(Next(Next(trace[i], Open(c)), Lock(o, c)), Admit(o));
    assert o in served.operations && served.operations[o] == Operation(c, true);
  }

  /** A session is only ever touched after both reservations, with no operation running. */
  lemma TouchedOnlyWhenFenced(trace: seq<Database>, events: seq<Event>, i: nat, client: nat)
    requires Run(trace, events) && i < |events| && events[i].Touch?
    requires client in trace[i].clients && trace[i].clients[client].initialized.Some?
    ensures !Admissible(trace[i + 1], trace[i + 1].clients[client])
    ensures !Running(trace[i], client)
  {
    RunKeeps(trace, events, i, i);
  }

  predicate NoFinish(events: seq<Event>, i: nat, j: nat)
    requires i <= j <= |events|
  {
    forall m | i <= m < j :: events[m] != Finish
  }

  lemma ExhaustedStep(d: Database, e: Event)
    requires Enabled(d, e) && d.generation == U64_MAX
    ensures Next(d, e).generation == U64_MAX
    ensures Next(d, e).writer == Armed <==> d.writer == Armed && e != Finish
    ensures d.writer != Armed ==> Next(d, e).session == d.session
  {
  }

  /** With the generation exhausted no change is ever armed again, and only one already armed can touch. */
  lemma {:induction false} ExhaustedArmsNobody(trace: seq<Database>, events: seq<Event>, i: nat, j: nat)
    requires Run(trace, events) && i <= j <= |events| && trace[i].generation == U64_MAX
    ensures trace[j].generation == U64_MAX
    ensures trace[j].writer == Armed <==> trace[i].writer == Armed && NoFinish(events, i, j)
    ensures trace[i].writer != Armed ==> trace[j].session == trace[i].session
    decreases j
  {
    if i < j {
      ExhaustedArmsNobody(trace, events, i, j - 1);
      ExhaustedStep(trace[j - 1], events[j - 1]);
    }
  }

  /**
   A reservation that finds the generation exhausted closes the database before any side effect:
   from then on nobody is admitted, and the session can be touched if and only if a change was
   already armed and has not finished.
   */
  lemma ExhaustionClosesFirst(trace: seq<Database>, events: seq<Event>, i: nat, j: nat)
    requires Run(trace, events) && i < j <= |events|
    requires (events[i] == ReserveFirst || events[i] == ReserveSecond) && trace[i].generation == U64_MAX
    ensures trace[j].closed
    ensures trace[i].writer != Armed ==> trace[j].session == trace[i].session && trace[j].writer != Armed
    ensures j < |events| ==> !events[j].Admit?
    ensures forall session :: Enabled(trace[j], Touch(session)) <==> trace[i].writer == Armed && NoFinish(events, i, j)
  {
    assert Enabled(trace[i], events[i]) && trace[i + 1] == Next(trace[i], events[i]);
    RunKeeps(trace, events, i + 1, j);
    ExhaustedArmsNobody(trace, events, i, j);
  }

  /**
   Why the generation is reserved twice: while a change waits between its reservations, a client
   can open at the new generation and be initialized under the session that is about to change.
   Only the second reservation shuts it out.
   */
  lemma WindowClientNeedsSecondReservation(d: Database, c: nat, o: nat)
    requires d.waiting > 0 && d.writer == Free && d.operations == map[] && !d.closed && c !in d.clients
    requires d.generation < U64_MAX
    ensures var arrived := Next(d, Open(c));
            var admitted := Next(Next(arrived, Lock(o, c)), Admit(o));
            var after := Next(admitted, Unlock(o));
            && after.operations == map[] && c in after.clients
            && var granted := Next(after, Grant);
               && granted.clients[c].initialized == Some(d.session)
               && Admissible(granted, granted.clients[c])
               && !Admissible(Next(granted, ReserveSecond), granted.clients[c])
  {
    var arrived := Next(d, Open(c));
    var admitted := Next(Next(arrived, Lock(o, c)), Admit(o));
    assert Next(admitted, Unlock(o)).operations == map[];
  }

  // ---------------------------------------------------------------- the database's own code

  class Lifecycle {
    var state: Database

    constructor (session: Session)
      ensures state == Initially(session) && Inv(state)
    {
      state := Initially(session);
    }

    method ReserveSessionChange() returns (ok: bool)
      requires Inv(state)
      modifies this
      ensures Inv(state) && state == Reserve(old(state))
      ensures ok == (old(state.generation) < U64_MAX) && (!ok ==> state.closed)
      ensures ok ==> state.generation == old(state.generation) + 1 && state.closed == old(state.closed)
      ensures state.session == old(state.session)
    {
      if state.generation == U64_MAX {
        state := state.(closed := true);
        return false;
      }
      state := state.(generation := state.generation + 1);
      return true;
    }

    /** The half of a change after its wait: the write lock, the second reservation, the session itself. */
    method ChangeSession(session: Session) returns (ok: bool)
      requires Inv(state) && Enabled(state, Grant)
      modifies this
      ensures Inv(state) && state.writer == Free
      ensures ok ==> state.session == session && state.generation == old(state.generation) + 1
                     && forall c | c in state.clients :: !Admissible(state, state.clients[c])
      ensures !ok ==> state.session == old(state.session) && state.closed
    {
      NextKeeps(state, Grant);
      state := Next(state, Grant);
      ok := ReserveSessionChange();
      if !ok {
        state := state.(writer := Free);
        return;
      }
      state := state.(writer := Armed);
      state := state.(session := session);
      state := state.(writer := Free);
    }
  }
}
