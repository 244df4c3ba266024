/** The write path over the in-memory adapters as a state machine. Every mutex-guarded call is one
    step: an append takes its whole batch, and use cases, being two calls, interleave between them. */
module MemoryProtocol {
  import opened Collections
  import opened Domain
  import opened Outbox
  import Projections = MemoryProjection
  import Aggregate

  datatype Relay =
    | Idle
    | Listed(pending: seq<Entry>)
    | Planned(run: seq<Entry>)
    | Marking(rest: seq<Entry>)

  /** `ready` has the batches of commands that have decided and not yet appended. `boundaries` has every
      length the log has had between appends, and `listed` its length when the relay last listed the outbox. */
  datatype State = State(
    log: seq<Event>,
    boundaries: set<nat>,
    pending: map<Sequence, Event>,
    ready: map<nat, seq<Event>>,
    projection: Projections.State,
    relay: Relay,
    listed: nat,
    used: set<string>)

  const INITIAL := State([], {0}, map[], map[], Projections.EMPTY, Idle, 0, {})

  datatype Step =
    | StartConversation(k: nat, url: Option<string>, thread: ThreadParams)
    | AddThread(k: nat, thread: ThreadParams)
    | Reply(k: nat, reply: ReplyParams)
    | AddParticipant(k: nat, membership: Aggregate.ManageParams)
    | RemoveParticipant(k: nat, membership: Aggregate.ManageParams)
    | Append(k: nat)
    | RelayList
    | RelayPlan
    | RelayApply
    | RelayMark

  predicate IsDecision(step: Step) {
    step.StartConversation? || step.AddThread? || step.Reply? || step.AddParticipant? || step.RemoveParticipant?
  }

  /** The batch a deciding step raises; None when it is refused, or a membership change has nothing to do. */
  function Raised(s: State, step: Step): Option<seq<Event>> {
    match step
    case StartConversation(_, url, p) =>
      var r := Domain.StartConversation(url, p);
      if r.Success? then Some(r.value) else None
    case AddThread(_, p) =>
      var r := Domain.AddThread(p);
      if r.Success? && Projections.Exists(s.projection, p.conversation) then Some(r.value) else None
    case Reply(_, p) =>
      var reply := ValidateReply(p);
      if reply.Failure? then None
      else
        var view := Projections.Get(s.projection, p.conversation);
        if view.Success? && AuthorizeReply(view.value, reply.value) == None then Some([reply.value]) else None
    case AddParticipant(_, p) =>
      var r := Aggregate.AddParticipant(Aggregate.Replay(Aggregate.Own(s.log, p.conversation)), p);
      if Aggregate.Validate(p) == None && r.Success? && r.value.Some? then Some([r.value.value]) else None
    case RemoveParticipant(_, p) =>
      var r := Aggregate.RemoveParticipant(Aggregate.Replay(Aggregate.Own(s.log, p.conversation)), p);
      if Aggregate.Validate(p) == None && r.Success? && r.value.Some? then Some([r.value.value]) else None
    case _ => None
  }

  function Drawn(step: Step): set<string> {
    match step
    case StartConversation(_, _, p) => {p.conversation, p.thread, p.message}
    case AddThread(_, p) => {p.thread, p.message}
    case Reply(_, p) => {p.message}
    case _ => {}
  }

  predicate Enabled(s: State, step: Step) {
    match step
    case Append(k) => k in s.ready
    case RelayList => s.relay.Idle?
    case RelayPlan => s.relay.Listed?
    case RelayApply => s.relay.Planned?
    case RelayMark => s.relay.Marking?
    case _ => step.k !in s.ready && Raised(s, step).Some? && Drawn(step) !! s.used
  }

  /** The outbox with a batch's entries added after the first n. */
  function Enqueued(pending: map<Sequence, Event>, n: nat, batch: seq<Event>): (r: map<Sequence, Event>)
    ensures forall k :: k in r <==> k in pending || n < k <= n + |batch|
    ensures forall k :: k in r ==> r[k] == if n < k <= n + |batch| then batch[k - n - 1] else pending[k]
  {
    if batch == [] then pending
    else
      var init := batch[..|batch| - 1];
      Enqueued(pending, n, init)[n + |batch| := batch[|init|]]
  }

  function After(s: State, step: Step): State
    requires Enabled(s, step)
  {
    match step
    case Append(k) =>
      var batch := s.ready[k];
      s.(log := s.log + batch,
         boundaries := s.boundaries + {|s.log| + |batch|},
         pending := Enqueued(s.pending, |s.log|, batch),
         ready := s.ready - {k})
    case RelayList => s.(relay := Listed(Listing(s.pending, |s.log|)), listed := |s.log|)
    case RelayPlan =>
      var run := TakeRun(s.relay.pending, s.projection.checkpoint + 1);
      s.(relay := if run == [] then Idle else Planned(run))
    case RelayApply =>
      var r := Projections.ApplyEntries(s.projection, s.relay.run);
      s.(projection := r.state, relay := if r.ok then Marking(s.relay.run) else Idle)
    case RelayMark =>
      if s.relay.rest == [] then s.(relay := Idle)
      else s.(pending := s.pending - {s.relay.rest[0].sequence}, relay := Marking(s.relay.rest[1..]))
    case _ => s.(ready := s.ready[step.k := Raised(s, step).value], used := s.used + Drawn(step))
  }

  ghost predicate Next(s: State, s': State) {
    exists step :: Enabled(s, step) && s' == After(s, step)
  }

  ghost predicate StepAt(run: seq<State>, i: nat)
    requires i + 1 < |run|
  {
    Next(run[i], run[i + 1])
  }

  ghost predicate IsRun(run: seq<State>) {
    && run != [] && run[0] == INITIAL
    && forall i :: 0 <= i < |run| - 1 ==> StepAt(run, i)
  }
}
