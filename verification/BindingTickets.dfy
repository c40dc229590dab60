/**
 Bootstrap binding of one runtime cell. A session binds the cell to its context and gets a ticket;
 the binding survives every loss and recovery of the runtime, so old tickets stay stale.
 */
module BindingTickets {
  import opened Common
  import opened ReadProtocol
  import opened BootstrapModel

  datatype BindError = NoRuntime | ContextMismatch | Exhausted

  datatype Binding = Binding(bound: Option<Context>, ticket: U64)

  /** Does the open journal belong to this context, at an authorization not below its checkpoint? */
  predicate OwnsJournal(partition: string, client: string, state: ClientState, expected: Context) {
    && partition == expected.partitionId && client == expected.clientId
    && state.requestedScope == expected.scope.identity
    && state.subscriptionRevision == expected.scope.subscriptionRevision
    && (state.checkpoint.Some? ==>
          state.checkpoint.value.scope.authorizationRevision <= expected.scope.authorizationRevision)
  }

  /** `bootstrap_access`, with or without a ticket. */
  predicate MayAccess(b: Binding, expected: Context, ticket: Option<U64>) {
    && (b.bound.Some? ==>
          SameOwner(b.bound.value, expected)
          && b.bound.value.scope.authorizationRevision <= expected.scope.authorizationRevision)
    && (ticket.Some? ==> ticket.value == b.ticket && b.bound == Some(expected))
  }

  class BindingSlot {
    const partition: string
    const client: string
    var runtime: Option<ClientState>
    var bound: Option<Context>
    var ticket: U64

    function View(): Binding
      reads this
    {
      Binding(bound, ticket)
    }

    constructor (partitionId: string, clientId: string)
      ensures View() == Binding(None, 0) && runtime.None?
    {
      partition, client, runtime, bound, ticket := partitionId, clientId, None, None, 0;
    }

    method Access(expected: Context, presented: Option<U64>) returns (r: Result<(), BindError>)
      ensures r.Ok? <==> runtime.Some? && OwnsJournal(partition, client, runtime.value, expected)
                         && MayAccess(View(), expected, presented)
      // The same, field by field.
      ensures r.Ok? <==>
                && runtime.Some? && partition == expected.partitionId && client == expected.clientId
                && runtime.value.requestedScope == expected.scope.identity
                && runtime.value.subscriptionRevision == expected.scope.subscriptionRevision
                && (runtime.value.checkpoint.Some? ==>
                      runtime.value.checkpoint.value.scope.authorizationRevision
                      <= expected.scope.authorizationRevision)
                && (bound.Some? ==>
                      && bound.value.authorityId == expected.authorityId
                      && bound.value.principalId == expected.principalId
                      && bound.value.partitionId == expected.partitionId && bound.value.clientId == expected.clientId
                      && bound.value.journalGeneration == expected.journalGeneration
                      && bound.value.scope.identity == expected.scope.identity
                      && bound.value.scope.subscriptionRevision == expected.scope.subscriptionRevision
                      && bound.value.scope.authorizationRevision <= expected.scope.authorizationRevision)
                && (presented.Some? ==> presented.value == ticket && bound == Some(expected))
      ensures r == Err(NoRuntime) <==> runtime.None?
    {
      if runtime.None? { return Err(NoRuntime); }
      var state := runtime.value;
      if partition != expected.partitionId || client != expected.clientId
         || state.requestedScope != expected.scope.identity
         || state.subscriptionRevision != expected.scope.subscriptionRevision {
        return Err(ContextMismatch);
      }
      if state.checkpoint.Some?
         && expected.scope.authorizationRevision < state.checkpoint.value.scope.authorizationRevision {
        return Err(ContextMismatch);
      }
      if bound.Some? && (!SameOwner(bound.value, expected)
                         || expected.scope.authorizationRevision < bound.value.scope.authorizationRevision) {
        return Err(ContextMismatch);
      }
      if presented.Some? && (presented.value != ticket || bound != Some(expected)) {
        return Err(ContextMismatch);
      }
      return Ok(());
    }

    /** A new context takes the next ticket; the bound one keeps its own. */
    method Bind(expected: Context) returns (r: Result<U64, BindError>)
      modifies this`bound, this`ticket
      ensures r.Err? <==> old(bound) != Some(expected) && old(ticket) == U64_MAX
      ensures r.Err? ==> View() == old(View())
      ensures r.Ok? ==> View() == Rebound(old(View()), expected) && r.value == ticket
      ensures r.Ok? ==> bound == Some(expected)
                        && ticket == if old(bound) == Some(expected) then old(ticket) else old(ticket) + 1
    {
      if bound != Some(expected) {
        if ticket == U64_MAX { return Err(Exhausted); }
        bound := Some(expected);
        ticket := ticket + 1;
      }
      return Ok(ticket);
    }

    /** Losing or recovering the runtime leaves the binding alone. */
    method SetRuntime(state: Option<ClientState>)
      modifies this`runtime
      ensures runtime == state && View() == old(View())
    {
      runtime := state;
    }
  }

  predicate MayBind(b: Binding, expected: Context) { b.bound == Some(expected) || b.ticket < U64_MAX }

  function Rebound(b: Binding, expected: Context): Binding
    requires MayBind(b, expected)
  {
    if b.bound == Some(expected) then b else Binding(Some(expected), b.ticket + 1)
  }

  // ---------------------------------------------------------------- runs

  /** Sessions bind after a ticketless access; everything else presents a ticket. Recovery is silent. */
  datatype Event = Bound(context: Context) | Used(context: Context, ticket: U64) | RuntimeMoved

  predicate Enabled(b: Binding, e: Event) {
    match e
    case Bound(context) => MayAccess(b, context, None) && MayBind(b, context)
    case Used(context, ticket) => MayAccess(b, context, Some(ticket))
    case RuntimeMoved => true
  }

  function Next(b: Binding, e: Event): Binding
    requires Enabled(b, e)
  {
    if e.Bound? then Rebound(b, e.context) else b
  }

  predicate Run(trace: seq<Binding>, events: seq<Event>) {
    && |trace| == |events| + 1 && trace[0] == Binding(None, 0)
    && forall i | 0 <= i < |events| :: Enabled(trace[i], events[i]) && trace[i + 1] == Next(trace[i], events[i])
  }

  /** Same binding, or a later ticket for the same owner with a strictly larger authorization. */
  predicate Supersedes(b: Binding, a: Binding) {
    b == a
    || (b.ticket > a.ticket && b.bound.Some?
        && (a.bound.Some? ==>
              SameOwner(a.bound.value, b.bound.value)
              && a.bound.value.scope.authorizationRevision < b.bound.value.scope.authorizationRevision))
  }

  /** Two contexts of one owner at one authorization are one context. */
  lemma OwnerAndAuthorizationDetermineContext(a: Context, b: Context)
    requires SameOwner(a, b) && a.scope.authorizationRevision == b.scope.authorizationRevision
    ensures a == b
  {
  }

  lemma {:induction false} RunSupersedes(trace: seq<Binding>, events: seq<Event>, i: nat, j: nat)
    requires Run(trace, events) && i <= j <= |events|
    ensures Supersedes(trace[j], trace[i])
    ensures trace[j].bound.None? <==> trace[j].ticket == 0
    decreases j
  {
    if j > 0 {
      RunSupersedes(trace, events, if i < j then i else j - 1, j - 1);
      var before := trace[j - 1];
      var e := events[j - 1];
      if e.Bound? && before.bound.Some? && before.bound.value != e.context
         && before.bound.value.scope.authorizationRevision == e.context.scope.authorizationRevision {
        OwnerAndAuthorizationDetermineContext(before.bound.value, e.context);
      }
    }
  }

  /** The ticket an accepted event carries or is given, for the context it names. */
  predicate Accepts(trace: seq<Binding>, events: seq<Event>, i: nat, context: Context, ticket: U64) {
    && i < |events| && |trace| == |events| + 1
    && (events[i] == Used(context, ticket) || (events[i] == Bound(context) && trace[i + 1].ticket == ticket))
  }

  /** In every run a ticket names one context, and a later ticket the same owner at a larger authorization. */
  lemma TicketsNameContexts(
    trace: seq<Binding>, events: seq<Event>, i: nat, a: Context, s: U64, j: nat, b: Context, t: U64)
    requires Run(trace, events) && i <= j
    requires Accepts(trace, events, i, a, s) && Accepts(trace, events, j, b, t)
    ensures s <= t && (s == t <==> a == b)
    ensures s < t ==> SameOwner(a, b) && a.scope.authorizationRevision < b.scope.authorizationRevision
  {
    RunSupersedes(trace, events, i + 1, j + 1);
  }

  /** A ticket once superseded is never accepted again, whatever happened to the runtime in between. */
  lemma SupersededTicketStaysStale(trace: seq<Binding>, events: seq<Event>, i: nat, j: nat, a: Context, s: U64)
    requires Run(trace, events) && i <= j < |events| && s < trace[i].ticket
    ensures !Accepts(trace, events, j, a, s)
  {
    RunSupersedes(trace, events, i, j);
    RunSupersedes(trace, events, i, j + 1);
  }
}
