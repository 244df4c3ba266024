/** The write path against Postgres as a state machine: commands decide, draw numbers for their rows
    one insert at a time and commit or roll back in any order, while one relay lists, plans, applies
    and marks done, and may stop between any two of its calls. */
module PostgresProtocol {
  import opened Collections
  import opened Domain
  import opened Outbox
  import opened PostgresTables
  import Aggregate

  datatype Phase = Ready | Open | Committed | RolledBack

  /** A command that decided to raise `batch`; its rows so far carry `sequences`. */
  datatype Command = Command(batch: seq<Event>, sequences: seq<Sequence>, phase: Phase)

  datatype Relay =
    | Idle
    | Listed(pending: seq<Entry>)
    | Planned(run: seq<Entry>)
    | Marking(rest: seq<Sequence>)

  /** `log` has every row that drew a number, number i + 1 at i, rolled back or not; `owner` says whose
      it is. `snapshots` has every committed state of the projection tables, the current one last.
      `used` has every id ever drawn. */
  datatype State = State(
    log: seq<Event>,
    owner: seq<nat>,
    commands: map<nat, Command>,
    done: set<Sequence>,
    snapshots: seq<Tables>,
    relay: Relay,
    used: set<string>)

  const INITIAL := State([], [], map[], {}, [EMPTY_TABLES], Idle, {})

  ghost predicate Shaped(s: State) {
    |s.owner| == |s.log| && s.snapshots != []
  }

  function Current(s: State): Tables
    requires s.snapshots != []
  {
    s.snapshots[|s.snapshots| - 1]
  }

  ghost predicate IsCommitted(s: State, n: Sequence)
    requires Shaped(s)
  {
    && 1 <= n <= |s.log|
    && s.owner[n - 1] in s.commands
    && s.commands[s.owner[n - 1]].phase == Committed
  }

  /** The committed rows among the first n, in sequence order: what conversation_events holds. */
  ghost function CommittedLog(s: State, n: nat): seq<Event>
    requires Shaped(s) && n <= |s.log|
  {
    if n == 0 then []
    else CommittedLog(s, n - 1) + (if IsCommitted(s, n) then [s.log[n - 1]] else [])
  }

  /** The outbox rows not marked done. */
  ghost function PendingRows(s: State): map<Sequence, Event>
    requires Shaped(s)
  {
    map n: Sequence | 1 <= n <= |s.log| && IsCommitted(s, n) && n !in s.done :: s.log[n - 1]
  }

  datatype Step =
    | StartConversation(k: nat, url: Option<string>, thread: ThreadParams)
    | AddThread(k: nat, thread: ThreadParams, seen: nat)
    | Reply(k: nat, reply: ReplyParams, row: nat, rows: nat, posts: nat)
    | AddParticipant(k: nat, membership: Aggregate.ManageParams)
    | RemoveParticipant(k: nat, membership: Aggregate.ManageParams)
    | Insert(k: nat)
    | Commit(k: nat)
    | Rollback(k: nat)
    | RelayList
    | RelayPlan
    | RelayApply
    | RelayMark
    | RelayStop

  // What a command decides

  /** The reply's view: each of Get's three reads may see the tables as they were at any moment so far. */
  ghost function TornRead(s: State, c: ConversationId, row: nat, rows: nat, posts: nat)
    : Result<ConversationView, Error>
    requires row < |s.snapshots| && rows < |s.snapshots| && posts < |s.snapshots|
  {
    Assemble(c, ConversationRow(s.snapshots[row], c), ListThreads(s.snapshots[rows], c),
             ListMessages(s.snapshots[posts], c))
  }

  ghost function Rehydrated(s: State, c: ConversationId): Aggregate.Conversation
    requires Shaped(s)
  {
    Aggregate.Replay(Aggregate.Own(CommittedLog(s, |s.log|), c))
  }

  /** The batch a deciding step raises; None when the step is not a decision or the command is refused. */
  ghost function Raised(s: State, step: Step): Option<seq<Event>>
    requires Shaped(s)
  {
    match step
    case StartConversation(_, url, p) =>
      var r := Domain.StartConversation(url, p);
      if r.Success? then Some(r.value) else None
    case AddThread(_, p, seen) =>
      var r := Domain.AddThread(p);
      if r.Success? && seen < |s.snapshots| && ExistsRow(s.snapshots[seen], p.conversation) then Some(r.value) else None
    case Reply(_, p, row, rows, posts) =>
      var reply := ValidateReply(p);
      if reply.Failure? || row >= |s.snapshots| || rows >= |s.snapshots| || posts >= |s.snapshots| then None
      else
        var view := TornRead(s, p.conversation, row, rows, posts);
        if view.Success? && AuthorizeReply(view.value, reply.value) == None then Some([reply.value]) else None
    case AddParticipant(_, p) =>
      var r := Aggregate.AddParticipant(Rehydrated(s, p.conversation), p);
      if Aggregate.Validate(p) == None && r.Success? && r.value.Some? then Some([r.value.value]) else None
    case RemoveParticipant(_, p) =>
      var r := Aggregate.RemoveParticipant(Rehydrated(s, p.conversation), p);
      if Aggregate.Validate(p) == None && r.Success? && r.value.Some? then Some([r.value.value]) else None
    case _ => None
  }

  /** The ids a deciding step draws. */
  function Drawn(step: Step): set<string> {
    match step
    case StartConversation(_, _, p) => {p.conversation, p.thread, p.message}
    case AddThread(_, p, _) => {p.thread, p.message}
    case Reply(_, p, _, _, _) => {p.message}
    case _ => {}
  }

  predicate IsDecision(step: Step) {
    step.StartConversation? || step.AddThread? || step.Reply? || step.AddParticipant? || step.RemoveParticipant?
  }

  // Steps

  ghost predicate Enabled(s: State, step: Step)
    requires Shaped(s)
  {
    match step
    case Insert(k) =>
      && k in s.commands && (s.commands[k].phase == Ready || s.commands[k].phase == Open)
      && |s.commands[k].sequences| < |s.commands[k].batch|
    case Commit(k) =>
      k in s.commands && s.commands[k].phase == Open && |s.commands[k].sequences| == |s.commands[k].batch|
    case Rollback(k) => k in s.commands && (s.commands[k].phase == Ready || s.commands[k].phase == Open)
    case RelayList => s.relay.Idle?
    case RelayPlan => s.relay.Listed?
    case RelayApply => s.relay.Planned?
    case RelayMark => s.relay.Marking?
    case RelayStop => true
    case _ => step.k !in s.commands && Raised(s, step).Some? && Drawn(step) !! s.used
  }

  ghost function After(s: State, step: Step): State
    requires Shaped(s) && Enabled(s, step)
  {
    match step
    case Insert(k) =>
      var c := s.commands[k];
      s.(log := s.log + [c.batch[|c.sequences|]],
         owner := s.owner + [k],
         commands := s.commands[k := Command(c.batch, c.sequences + [|s.log| + 1], Open)])
    case Commit(k) => s.(commands := s.commands[k := s.commands[k].(phase := Committed)])
    case Rollback(k) => s.(commands := s.commands[k := s.commands[k].(phase := RolledBack)])
    case RelayList => s.(relay := Listed(Listing(PendingRows(s), |s.log|)))
    case RelayPlan =>
      var run := TakeRun(s.relay.pending, Current(s).checkpoint + 1);
      s.(relay := if run == [] then Idle else Planned(run))
    case RelayApply =>
      var r := ApplyBatch(Current(s), s.relay.run);
      if r.None? then s.(relay := Idle)
      else s.(snapshots := s.snapshots + [r.value],
              relay := Marking(seq(|s.relay.run|, i requires 0 <= i < |s.relay.run| => s.relay.run[i].sequence)))
    case RelayMark =>
      if s.relay.rest == [] then s.(relay := Idle)
      else s.(done := s.done + {s.relay.rest[0]}, relay := Marking(s.relay.rest[1..]))
    case RelayStop => s.(relay := Idle)
    case _ =>
      s.(commands := s.commands[step.k := Command(Raised(s, step).value, [], Ready)], used := s.used + Drawn(step))
  }

  ghost predicate Next(s: State, s': State) {
    Shaped(s) && exists step :: Enabled(s, step) && s' == After(s, step)
  }

  ghost predicate StepAt(run: seq<State>, i: nat)
    requires i + 1 < |run|
  {
    Next(run[i], run[i + 1])
  }

  ghost predicate IsRun(run: seq<State>) {
    && run != [] && run[0] == INITIAL
    && forall i :: 0 <= i < |run| - 1 ==> StepAt(run, i)
  }
}
