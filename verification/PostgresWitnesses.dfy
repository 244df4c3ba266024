/** Runs of the Postgres protocol that reach what the guarantees do not exclude: a stalled relay, a batch
    half applied, a reply numbered after its author's removal. Each starts from any acceptable conversation. */
module PostgresWitnesses {
  import opened Collections
  import opened Domain
  import opened ReadModel
  import opened PostgresTables
  import opened PostgresRefinement
  import opened PostgresProtocol
  import opened PostgresInvariant
  import opened PostgresSteps
  import opened PostgresRuns
  import opened PostgresTransactions
  import opened PostgresGuarantees
  import opened PostgresProgress
  import opened PostgresBatches
  import opened History
  import Aggregate

  // One conversation

  function Created(p: ThreadParams, url: string): Event {
    ConversationCreated(p.conversation, PLACEHOLDER_CREATOR, url, p.at)
  }

  /** The state in which the command that starts the conversation has decided. */
  function Decided(p: ThreadParams, url: string): State
    requires NewThread(p).Success?
  {
    var batch := [Created(p, url), NewThread(p).value.0, NewThread(p).value.1];
    INITIAL.(commands := map[0 := Command(batch, [], Ready)], used := {p.conversation, p.thread, p.message})
  }

  lemma DecidedRun(p: ThreadParams, url: string) returns (run: seq<State>)
    requires NewThread(p).Success?
    ensures IsRun(run) && Last(run) == Decided(p, url)
  {
    var step := StartConversation(0, Some(url), p);
    OneMoreStep([INITIAL], step);
    run := [INITIAL] + [After(INITIAL, step)];
  }

  /** The conversation's three events are numbered and committed, and nothing else has happened. */
  ghost predicate OnlyStarted(s: State, p: ThreadParams, url: string)
    requires NewThread(p).Success?
  {
    && Shaped(s) && s.log == [Created(p, url), NewThread(p).value.0, NewThread(p).value.1]
    && s.commands == map[0 := Command(s.log, [1, 2, 3], Committed)] && s.used == {p.conversation, p.thread, p.message}
    && AllCommitted(s) && s.relay == Idle && s.done == {}
  }

  lemma AppendedRun(p: ThreadParams, url: string) returns (run: seq<State>)
    requires NewThread(p).Success?
    ensures IsRun(run) && OnlyStarted(Last(run), p, url) && Current(Last(run)).checkpoint == 0
  {
    var decided := DecidedRun(p, url);
    run := LoneAppend(decided, 0);
    AppendedStarted(p, url);
  }

  lemma AppendedStarted(p: ThreadParams, url: string)
    requires NewThread(p).Success?
    ensures OnlyStarted(Appended(Decided(p, url), 0), p, url)
    ensures Current(Appended(Decided(p, url), 0)).checkpoint == 0
  {
    var batch := Decided(p, url).commands[0].batch;
    var s := Appended(Decided(p, url), 0);
    assert batch[..|batch|] == batch && [] + batch == batch && Numbers(1, 3) == [1, 2, 3];
    forall n | 1 <= n <= |s.log| ensures IsCommitted(s, n) {
      assert s.owner[n - 1] == 0;
    }
  }

  // Stalled by a gap

  /** From any state that has applied everything, an append that rolls back after its first insert leaves
      the gap the relay cannot pass. */
  lemma GapAfter(run: seq<State>, k: nat) returns (run': seq<State>)
    requires IsRun(run) && Shaped(Last(run)) && Current(Last(run)).checkpoint == |Last(run).log|
    requires k in Last(run).commands && Last(run).commands[k].phase == Ready
    ensures IsRun(run') && Shaped(Last(run')) && Current(Last(run')) == Current(Last(run))
    ensures RolledBackAt(Last(run'), Current(Last(run')).checkpoint + 1)
    ensures |Last(run').log| == |Last(run).log| + 1
    ensures EventTable(Last(run')) == EventTable(Last(run)) && OutboxTable(Last(run')) == OutboxTable(Last(run))
  {
    var s := Last(run);
    RunKeepsInv(run, |run| - 1);
    ReadyToAppend(s, k);
    run' := LoneRollback(run, k, 1);
  }

  lemma GapReached(p: ThreadParams, url: string) returns (run: seq<State>)
    requires NewThread(p).Success?
    ensures IsRun(run) && Shaped(Last(run)) && RolledBackAt(Last(run), Current(Last(run)).checkpoint + 1)
  {
    var decided := DecidedRun(p, url);
    run := GapAfter(decided, 0);
  }

  // Stalled by an applied entry left pending

  /** From any state with something to drain, a relay that stops after applying leaves an applied entry
      pending and is idle again. */
  lemma LeftPendingAfter(run: seq<State>) returns (run': seq<State>)
    requires IsRun(run) && Shaped(Last(run)) && Last(run).relay == Idle && Drainable(Last(run)) != []
    ensures ApplyBatch(Current(Last(run)), Drainable(Last(run))).Some?
    ensures IsRun(run') && Shaped(Last(run')) && Last(run').relay == Idle
    ensures LeftPending(Last(run'), Current(Last(run)).checkpoint + 1)
    ensures Last(run') == Last(run).(
      snapshots := Last(run).snapshots + [ApplyBatch(Current(Last(run)), Drainable(Last(run))).value])
  {
    var s := Last(run);
    RunKeepsInv(run, |run| - 1);
    DrainAdvances(s);
    var drained := UndisturbedDrain(run);
    OneMoreStep(drained, RelayStop);
    run' := drained + [After(Last(drained), RelayStop)];
    assert SnapshotOk(s, s.snapshots[|s.snapshots| - 1]);
  }

  /** The whole conversation applied, the relay stopped before marking anything done. */
  lemma LeftPendingReached(p: ThreadParams, url: string) returns (run: seq<State>)
    requires NewThread(p).Success?
    ensures IsRun(run) && OnlyStarted(Last(run), p, url) && LeftPending(Last(run), 1)
    ensures Current(Last(run)).checkpoint == |Last(run).log|
  {
    var appended := AppendedRun(p, url);
    DrainsStarted(appended, p, url);
    run := LeftPendingAfter(appended);
    StillStarted(Last(appended), Last(run), p, url);
  }

  lemma DrainsStarted(run: seq<State>, p: ThreadParams, url: string)
    requires IsRun(run) && NewThread(p).Success? && OnlyStarted(Last(run), p, url)
    requires Current(Last(run)).checkpoint == 0
    ensures Drainable(Last(run)) != [] && ApplyBatch(Current(Last(run)), Drainable(Last(run))).Some?
    ensures ApplyBatch(Current(Last(run)), Drainable(Last(run))).value.checkpoint == |Last(run).log|
  {
    RunKeepsInv(run, |run| - 1);
    assert forall n :: !LeftPending(Last(run), n);
    DrainsAll(Last(run));
  }

  lemma StillStarted(s: State, s': State, p: ThreadParams, url: string)
    requires NewThread(p).Success? && OnlyStarted(s, p, url) && Shaped(s') && s' == s.(snapshots := s'.snapshots)
    ensures OnlyStarted(s', p, url)
  {
    forall n | 1 <= n <= |s.log| ensures IsCommitted(s', n) {
      assert IsCommitted(s, n);
    }
  }

  // A reply numbered after its author's removal

  /** A removal and a reply by the member removed are both accepted in state s. */
  ghost predicate Racing(s: State, removal: Step, reply: Step) {
    && Shaped(s) && removal.RemoveParticipant? && reply.Reply? && removal.k != reply.k
    && Enabled(s, removal) && Enabled(s, reply)
    && removal.membership.conversation == reply.reply.conversation
    && removal.membership.thread == reply.reply.thread
    && reply.reply.author == Some(removal.membership.participant)
  }

  /** The removal may be decided, numbered and committed first, and the reply, judged by the tables as they
      were, still decided, numbered and committed: its author is then no participant at its number. */
  lemma LateReply(run: seq<State>, removal: Step, reply: Step) returns (run': seq<State>)
    requires IsRun(run) && Racing(Last(run), removal, reply)
    ensures IsRun(run') && Shaped(Last(run'))
    ensures var s, s', p := Last(run), Last(run'), removal.membership;
            var removed := ParticipantRemoved(p.conversation, p.thread, p.participant, p.at);
            && ValidateReply(reply.reply).Success?
            && s'.log == s.log + [removed] + [ValidateReply(reply.reply).value]
            && IsCommitted(s', |s.log| + 1) && IsCommitted(s', |s.log| + 2)
            && p.participant !in Participants(CommittedLog(s', |s.log| + 1), p.conversation, p.thread)
  {
    var s, p := Last(run), removal.membership;
    var removed := ParticipantRemoved(p.conversation, p.thread, p.participant, p.at);
    RacingRaises(run, removal, reply);
    var removing := AppendOne(run, removal, removed);
    StillDecides(s, Last(removing), reply);
    run' := AppendOne(removing, reply, ValidateReply(reply.reply).value);
    RemovedAtNumber(Last(run'), |s.log|, removed);
  }

  lemma RacingRaises(run: seq<State>, removal: Step, reply: Step)
    requires IsRun(run) && Racing(Last(run), removal, reply)
    ensures ValidateReply(reply.reply).Success?
    ensures Raised(Last(run), reply) == Some([ValidateReply(reply.reply).value])
    ensures var p := removal.membership;
            Raised(Last(run), removal) == Some([ParticipantRemoved(p.conversation, p.thread, p.participant, p.at)])
  {
    MembershipNamesItsConversation(run, |run| - 1, removal);
  }

  lemma RemovedAtNumber(s: State, n: nat, removed: Event)
    requires Shaped(s) && n < |s.log| && s.log[n] == removed && removed.ParticipantRemoved? && IsCommitted(s, n + 1)
    ensures removed.participant !in Participants(CommittedLog(s, n + 1), removed.conversation, removed.thread)
  {
    assert CommittedLog(s, n + 1) == CommittedLog(s, n) + [removed];
    Snoc(CommittedLog(s, n), removed, removed.conversation, removed.thread);
  }

  /** A decision of a single event, appended at once. */
  lemma AppendOne(run: seq<State>, step: Step, e: Event) returns (run': seq<State>)
    requires IsRun(run) && Shaped(Last(run)) && IsDecision(step) && Enabled(Last(run), step)
    requires Raised(Last(run), step) == Some([e])
    ensures IsRun(run') && OneAppended(Last(run), Last(run'), step, e)
  {
    OneMoreStep(run, step);
    DecidedThenAppended(Last(run), step, e);
    run' := LoneAppend(run + [After(Last(run), step)], step.k);
  }

  ghost predicate OneAppended(s: State, s': State, step: Step, e: Event)
    requires Shaped(s) && IsDecision(step)
  {
    && Shaped(s') && s'.log == s.log + [e] && s'.snapshots == s.snapshots && s'.used == s.used + Drawn(step)
    && s'.commands.Keys == s.commands.Keys + {step.k}
    && forall n :: IsCommitted(s, n) || n == |s.log| + 1 ==> IsCommitted(s', n)
  }

  lemma DecidedThenAppended(s: State, step: Step, e: Event)
    requires Shaped(s) && IsDecision(step) && Enabled(s, step) && Raised(s, step) == Some([e])
    ensures step.k in After(s, step).commands && After(s, step).commands[step.k] == Command([e], [], Ready)
    ensures OneAppended(s, Appended(After(s, step), step.k), step, e)
  {
    var decided := After(s, step);
    assert decided == s.(commands := s.commands[step.k := Command([e], [], Ready)], used := s.used + Drawn(step));
    assert [e][..1] == [e] && Copies(step.k, 1) == [step.k] && Numbers(|s.log| + 1, 1) == [|s.log| + 1];
  }

  /** A reply is decided on snapshots alone, and those stay. */
  lemma StillDecides(s: State, s': State, reply: Step)
    requires Shaped(s) && Shaped(s') && reply.Reply? && Enabled(s, reply)
    requires s'.snapshots == s.snapshots && s'.used == s.used && reply.k !in s'.commands
    ensures Enabled(s', reply) && Raised(s', reply) == Raised(s, reply)
  {
  }

  /** Such a state is reached from any acceptable conversation whose author has an id: its author is
      removed and replies. */
  lemma LateReplyReached(p: ThreadParams, url: string, message: string, text: string, at: Time)
    returns (run: seq<State>, i: nat)
    requires NewThread(p).Success? && p.author.value != "" && message !in {p.conversation, p.thread, p.message}
    ensures IsRun(run) && i < |run| && Shaped(run[i]) && |run[i].log| == 5
    ensures IsCommitted(run[i], 4) && IsCommitted(run[i], 5)
    ensures run[i].log[3].ParticipantRemoved?
    ensures run[i].log[4] == MessagePosted(p.conversation, p.thread, message, p.author.value, text, at)
    ensures p.author.value !in Participants(CommittedLog(run[i], 4), p.conversation, p.thread)
  {
    var applied, removal, reply := RacingReached(p, url, message, text, at);
    ReplyMessage(p, message, text, at);
    run := LateReply(applied, removal, reply);
    i := |run| - 1;
  }

  lemma ReplyMessage(p: ThreadParams, message: string, text: string, at: Time)
    requires NewThread(p).Success?
    ensures ValidateReply(ReplyParams(p.conversation, p.thread, message, p.author, Some(text), at))
         == Success(MessagePosted(p.conversation, p.thread, message, p.author.value, text, at))
  {
  }

  lemma RacingReached(p: ThreadParams, url: string, message: string, text: string, at: Time)
    returns (run: seq<State>, removal: Step, reply: Step)
    requires NewThread(p).Success? && p.author.value != "" && message !in {p.conversation, p.thread, p.message}
    ensures IsRun(run) && Racing(Last(run), removal, reply) && |Last(run).log| == 3
    ensures removal.membership == Aggregate.ManageParams(p.conversation, p.thread, p.author.value, at)
    ensures reply.reply == ReplyParams(p.conversation, p.thread, message, p.author, Some(text), at)
  {
    run := LeftPendingReached(p, url);
    removal := RemovalOffered(run, p, url, at);
    reply := ReplyOffered(run, p, url, message, text, at);
  }

  lemma RemovalOffered(run: seq<State>, p: ThreadParams, url: string, at: Time) returns (removal: Step)
    requires IsRun(run) && NewThread(p).Success? && p.author.value != "" && OnlyStarted(Last(run), p, url)
    ensures removal.RemoveParticipant? && removal.k == 1 && Enabled(Last(run), removal)
    ensures removal.membership == Aggregate.ManageParams(p.conversation, p.thread, p.author.value, at)
  {
    removal := RemoveParticipant(1, Aggregate.ManageParams(p.conversation, p.thread, p.author.value, at));
    RunKeepsInv(run, |run| - 1);
    AuthorIsIn(Last(run).log, p, url);
    RemovalAccepted(Last(run), removal, p.author.value);
  }

  lemma ReplyOffered(run: seq<State>, p: ThreadParams, url: string, message: string, text: string, at: Time)
    returns (reply: Step)
    requires IsRun(run) && NewThread(p).Success? && message !in {p.conversation, p.thread, p.message}
    requires OnlyStarted(Last(run), p, url) && Current(Last(run)).checkpoint == |Last(run).log|
    ensures reply.Reply? && reply.k == 2 && Enabled(Last(run), reply)
    ensures reply.reply == ReplyParams(p.conversation, p.thread, message, p.author, Some(text), at)
  {
    var q := |Last(run).snapshots| - 1;
    reply := Reply(2, ReplyParams(p.conversation, p.thread, message, p.author, Some(text), at), q, q, q);
    RunKeepsInv(run, |run| - 1);
    AuthorIsIn(Last(run).log, p, url);
    ReplyAccepted(Last(run), reply);
  }

  lemma AuthorIsIn(log: seq<Event>, p: ThreadParams, url: string)
    requires NewThread(p).Success? && log == [Created(p, url), NewThread(p).value.0, NewThread(p).value.1]
    ensures p.author.value in Participants(log, p.conversation, p.thread) && Started(log, p.conversation, p.thread)
  {
    var c, t, created, started, posted := p.conversation, p.thread, log[0], log[1], log[2];
    assert log == [] + [created] + [started] + [posted];
    Snoc([] + [created], started, c, t);
    Snoc([] + [created] + [started], posted, c, t);
    assert started.author in Members(started);
    assert Starts(log[1], c, t);
  }

  lemma RemovalAccepted(s: State, removal: Step, author: ParticipantId)
    requires Inv(s) && AllCommitted(s) && removal.RemoveParticipant? && removal.k !in s.commands
    requires removal.membership.participant == author != ""
    requires Started(s.log, removal.membership.conversation, removal.membership.thread)
    requires author in Participants(s.log, removal.membership.conversation, removal.membership.thread)
    ensures Enabled(s, removal)
  {
    var p := removal.membership;
    CommittedIsAll(s, |s.log|);
    assert s.log[..|s.log|] == s.log;
    LogWellFormed(s);
    Aggregate.AggregateOf(s.log, p.conversation, p.thread);
    Aggregate.AdmittedIsHeld(s.log, p.conversation, p.thread, author);
  }

  lemma ReplyAccepted(s: State, reply: Step)
    requires Inv(s) && Current(s).checkpoint == |s.log| && reply.Reply? && reply.k !in s.commands
    requires reply.row == reply.rows == reply.posts == |s.snapshots| - 1 && reply.reply.message !in s.used
    requires ValidateReply(reply.reply).Success?
    requires var r := reply.reply;
             Started(s.log, r.conversation, r.thread) && r.author.value in Participants(s.log, r.conversation, r.thread)
    ensures Enabled(s, reply)
  {
    ReadsEverything(s, reply.reply.conversation, reply.reply.thread);
    MayReply(s, reply.reply);
  }

  /** A read of the current tables, when they have applied everything, is the whole log's view. */
  lemma ReadsEverything(s: State, c: ConversationId, t: ThreadId)
    requires Inv(s) && Current(s).checkpoint == |s.log| && Started(s.log, c, t)
    ensures var q := |s.snapshots| - 1; TornRead(s, c, q, q, q) == Success(View(s.log, c))
  {
    CurrentMatches(s);
    assert s.log[..|s.log|] == s.log;
    WholeGet(Current(s), s.log, c);
    var m :| 0 <= m < |s.log| && Starts(s.log[m], c, t);
    StartsFound(s.log, c, m);
  }

  lemma MayReply(s: State, r: ReplyParams)
    requires Inv(s) && ValidateReply(r).Success? && Started(s.log, r.conversation, r.thread)
    requires r.author.value in Participants(s.log, r.conversation, r.thread)
    ensures AuthorizeReply(View(s.log, r.conversation), ValidateReply(r).value) == None
  {
    LogWellFormed(s);
    ReplyAuthorised(s.log, ValidateReply(r).value);
    ParticipantsAreLastWord(s.log, r.conversation, r.thread, r.author.value);
  }

  // A read torn inside a batch

  /** Any acceptable conversation, alone and so with consecutive numbers, can be read with its thread and
      without its opening message, by a Get whose messages are read before and whose threads are read after
      the one Apply. */
  lemma TornInsideBatch(p: ThreadParams, url: string) returns (run: seq<State>, m: nat)
    requires NewThread(p).Success?
    ensures IsRun(run) && m < |run| && Shaped(Last(run)) && Shaped(run[m])
    ensures CommittedBatch(Last(run), 0) && Last(run).commands[0].sequences == [1, 2, 3]
    ensures ReadAcross(Last(run), Last(run), run[m], p.conversation)
         == Success(ConversationView(p.conversation, url,
              [ThreadView(p.thread, p.title.value, Members(NewThread(p).value.0), [])]))
  {
    run := LeftPendingReached(p, url);
    m := 0;
    ReadAcrossRun(run, |run| - 1, |run| - 1, 0, |run| - 1, p.conversation);
    ThreeShown(p, url, Last(run).log);
  }

  lemma ThreeShown(p: ThreadParams, url: string, log: seq<Event>)
    requires NewThread(p).Success? && log == [Created(p, url), NewThread(p).value.0, NewThread(p).value.1]
    ensures ReadModel.Created(log[..3], p.conversation) && StartsOf(log[..3], p.conversation) != []
    ensures TornView(log, p.conversation, 3, 3, 0)
         == ConversationView(p.conversation, url,
              [ThreadView(p.thread, p.title.value, Members(NewThread(p).value.0), [])])
  {
    assert log == [Created(p, url), NewThread(p).value.0] + [log[2]];
    FirstTwoShown(p, url, NewThread(p).value.0);
    ReadBeforePost([Created(p, url), NewThread(p).value.0], log[2], p.conversation, log);
  }

  /** With messages read from the empty log, a message that follows the only thread is not shown. */
  lemma ReadBeforePost(log: seq<Event>, posted: Event, c: ConversationId, log': seq<Event>)
    requires log' == log + [posted] && |log| > 0 && log[0].ConversationCreated? && log[0].conversation == c
    requires posted.MessagePosted? && |StartsOf(log, c)| == 1 && Threads(log, c)[0].messages == []
    ensures ReadModel.Created(log'[..|log'|], c) && StartsOf(log'[..|log'|], c) != []
    ensures TornView(log', c, |log'|, |log'|, 0) == View(log, c)
  {
    assert log'[..|log'|] == log' && log'[0] == log[0];
    Unread(log', c);
    Snoc(log, posted, c, "");
    OneThreadLeft(log, posted, c);
    assert TornView(log', c, |log'|, |log'|, 0).threads == Threads(log, c);
  }

  lemma Unread(log: seq<Event>, c: ConversationId)
    ensures var torn := TornView(log, c, |log|, |log|, 0);
            && torn == View(log, c).(threads := torn.threads) && |torn.threads| == |Threads(log, c)|
            && forall j :: 0 <= j < |torn.threads| ==> torn.threads[j] == Threads(log, c)[j].(messages := [])
  {
    assert log[..|log|] == log && log[..0] == [];
  }

  /** A message changes nothing of a thread but its messages. */
  lemma OneThreadLeft(log: seq<Event>, posted: Event, c: ConversationId)
    requires posted.MessagePosted? && |StartsOf(log, c)| == 1
    ensures |Threads(log + [posted], c)| == 1
    ensures Threads(log + [posted], c)[0].(messages := []) == Threads(log, c)[0].(messages := [])
  {
    Snoc(log, posted, c, "");
    OldThreadsSnoc(log, posted, c, 0);
  }

  // A batch half applied

  lemma FirstTwoShown(p: ThreadParams, url: string, started: Event)
    requires NewThread(p).Success? && started == NewThread(p).value.0
    ensures View([Created(p, url), started], p.conversation)
         == ConversationView(p.conversation, url, [ThreadView(p.thread, started.title, Members(started), [])])
    ensures StartsOf([Created(p, url), started], p.conversation) == [1]
  {
    var c, created := p.conversation, Created(p, url);
    var log := [created, started];
    assert [created] + [started] == log && [] + [created] == [created];
    Snoc([], created, c, p.thread);
    Snoc([created], started, c, p.thread);
    assert Threads(log, c)[0] == ThreadAt(log, 1);
  }

  /** Commands 0 and 1 with rows among those of the log. */
  function Rows(log: seq<Event>, owner: seq<nat>, a: Command, b: Command, used: set<string>): State {
    INITIAL.(log := log, owner := owner, commands := map[0 := a, 1 := b], used := used)
  }

  lemma TwoDecisions(first: Step, second: Step) returns (run: seq<State>)
    requires first.StartConversation? && second.StartConversation? && first.k == 0 && second.k == 1
    requires Raised(INITIAL, first).Some? && Raised(INITIAL, second).Some? && Drawn(first) !! Drawn(second)
    ensures IsRun(run)
    ensures Last(run) == Rows([], [], Command(Raised(INITIAL, first).value, [], Ready),
                              Command(Raised(INITIAL, second).value, [], Ready), Drawn(first) + Drawn(second))
  {
    run := [INITIAL];
    OneMoreStep(run, first);
    run := run + [After(INITIAL, first)];
    OneMoreStep(run, second);
    run := run + [After(Last(run), second)];
  }

  lemma InsertFirst(run: seq<State>, log: seq<Event>, owner: seq<nat>, a: Command, b: Command, used: set<string>)
    returns (run': seq<State>)
    requires IsRun(run) && Last(run) == Rows(log, owner, a, b, used) && |log| == |owner|
    requires (a.phase == Ready || a.phase == Open) && |a.sequences| < |a.batch|
    ensures IsRun(run')
    ensures Last(run') == Rows(log + [a.batch[|a.sequences|]], owner + [0],
                               Command(a.batch, a.sequences + [|log| + 1], Open), b, used)
  {
    OneMoreStep(run, Insert(0));
    run' := run + [After(Last(run), Insert(0))];
  }

  lemma InsertSecond(run: seq<State>, log: seq<Event>, owner: seq<nat>, a: Command, b: Command, used: set<string>)
    returns (run': seq<State>)
    requires IsRun(run) && Last(run) == Rows(log, owner, a, b, used) && |log| == |owner|
    requires (b.phase == Ready || b.phase == Open) && |b.sequences| < |b.batch|
    ensures IsRun(run')
    ensures Last(run') == Rows(log + [b.batch[|b.sequences|]], owner + [1], a,
                               Command(b.batch, b.sequences + [|log| + 1], Open), used)
  {
    OneMoreStep(run, Insert(1));
    run' := run + [After(Last(run), Insert(1))];
  }

  lemma CommitFirst(run: seq<State>, log: seq<Event>, owner: seq<nat>, a: Command, b: Command, used: set<string>)
    returns (run': seq<State>)
    requires IsRun(run) && Last(run) == Rows(log, owner, a, b, used) && |log| == |owner|
    requires a.phase == Open && |a.sequences| == |a.batch|
    ensures IsRun(run') && Last(run') == Rows(log, owner, a.(phase := Committed), b, used)
  {
    OneMoreStep(run, Commit(0));
    run' := run + [After(Last(run), Commit(0))];
  }

  /** The second command's first row falls between the first command's second and third. */
  lemma FourInserts(run: seq<State>, a: seq<Event>, b: seq<Event>, used: set<string>) returns (run': seq<State>)
    requires IsRun(run) && |a| == 3 && |b| == 3
    requires Last(run) == Rows([], [], Command(a, [], Ready), Command(b, [], Ready), used)
    ensures IsRun(run')
    ensures Last(run') == Rows([a[0], a[1], b[0], a[2]], [0, 0, 1, 0],
                               Command(a, [1, 2, 4], Committed), Command(b, [3], Open), used)
  {
    var ready := Command(b, [], Ready);
    run' := InsertFirst(run, [], [], Command(a, [], Ready), ready, used);
    run' := InsertFirst(run', [] + [a[0]], [] + [0], Command(a, [] + [1], Open), ready, used);
    var open, log, owner := Command(a, [] + [1] + [2], Open), [] + [a[0]] + [a[1]], [] + [0] + [0];
    run' := InsertSecond(run', log, owner, open, ready, used);
    run' := InsertFirst(run', log + [b[0]], owner + [1], open, Command(b, [] + [3], Open), used);
    run' := CommitFirst(run', log + [b[0]] + [a[2]], owner + [1] + [0],
                        Command(a, open.sequences + [4], Open), Command(b, [] + [3], Open), used);
    assert log + [b[0]] + [a[2]] == [a[0], a[1], b[0], a[2]] && owner + [1] + [0] == [0, 0, 1, 0];
    assert open.sequences + [4] == [1, 2, 4] && [] + [3] == [3];
  }

  /** The first command has committed around a row of the second, which is still open. */
  ghost predicate Interleaved(s: State, log: seq<Event>) {
    && |log| == 4 && s.log == log && s.owner == [0, 0, 1, 0]
    && s.commands.Keys == {0, 1} && s.commands[0].phase == Committed && s.commands[1].phase == Open
    && s.snapshots == [EMPTY_TABLES] && s.relay == Idle && s.done == {}
  }

  lemma GapStopsDrain(s: State, log: seq<Event>)
    requires Inv(s) && Interleaved(s, log)
    ensures Drainable(s) != [] && ApplyBatch(Current(s), Drainable(s)).Some?
    ensures ApplyBatch(Current(s), Drainable(s)).value.checkpoint == 2
  {
    assert IsCommitted(s, 1) && IsCommitted(s, 2) && !IsCommitted(s, 3);
    assert forall n :: !LeftPending(s, n);
    DrainNoOp(s);
    DrainAdvances(s);
  }

  lemma ReadFirstTwo(s: State, p: ThreadParams, url: string, started: Event)
    requires Inv(s) && Current(s).checkpoint == 2 <= |s.log| && s.log[..2] == [Created(p, url), started]
    requires NewThread(p).Success? && started == NewThread(p).value.0
    ensures ReadAt(s, p.conversation) == Success(ConversationView(p.conversation, url,
              [ThreadView(p.thread, p.title.value, Members(started), [])]))
  {
    var log := [Created(p, url), started];
    assert TablesMatch(Current(s), log) && WellFormed(log) by {
      CurrentMatches(s);
    }
    WholeGet(Current(s), log, p.conversation);
    FirstTwoShown(p, url, started);
  }

  /** Any two accepted conversations can be started so that a reader sees the first one's thread without
      its opening message: numbers of open transactions interleave, and the relay stops at the gap. */
  lemma HalfAppliedBatch(p: ThreadParams, url: string, q: ThreadParams, url': string) returns (run: seq<State>)
    requires NewThread(p).Success? && NewThread(q).Success?
    requires {p.conversation, p.thread, p.message} !! {q.conversation, q.thread, q.message}
    ensures IsRun(run) && Shaped(Last(run))
    ensures ReadAt(Last(run), p.conversation) == Success(ConversationView(p.conversation, url,
              [ThreadView(p.thread, p.title.value, Members(NewThread(p).value.0), [])]))
  {
    var first, second := StartConversation(0, Some(url), p), StartConversation(1, Some(url'), q);
    var a, b := Raised(INITIAL, first).value, Raised(INITIAL, second).value;
    run := TwoDecisions(first, second);
    run := FourInserts(run, a, b, Drawn(first) + Drawn(second));
    run := DrainToGap(run, [a[0], a[1], b[0], a[2]]);
    ReadFirstTwo(Last(run), p, url, a[1]);
  }

  lemma DrainToGap(run: seq<State>, log: seq<Event>) returns (run': seq<State>)
    requires IsRun(run) && Interleaved(Last(run), log)
    ensures IsRun(run') && Inv(Last(run')) && Last(run').log == log
    ensures Current(Last(run')).checkpoint == 2
  {
    RunKeepsInv(run, |run| - 1);
    GapStopsDrain(Last(run), log);
    run' := DrainOnce(run);
  }

  lemma DrainOnce(run: seq<State>) returns (run': seq<State>)
    requires IsRun(run) && Shaped(Last(run)) && Last(run).relay == Idle && Drainable(Last(run)) != []
    ensures ApplyBatch(Current(Last(run)), Drainable(Last(run))).Some?
    ensures IsRun(run') && Inv(Last(run')) && Last(run').log == Last(run).log
    ensures Current(Last(run')) == ApplyBatch(Current(Last(run)), Drainable(Last(run))).value
  {
    run' := UndisturbedDrain(run);
    RunKeepsInv(run', |run'| - 1);
  }
}
