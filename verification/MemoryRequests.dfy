/** The same requests over the in-memory adapters. */
module MemoryRequests {
  import opened Collections
  import opened Domain
  import opened ReadModel
  import opened Outbox
  import opened MemoryProtocol
  import opened MemoryGuarantees
  import opened MemoryRuns
  import opened History
  import opened Requests
  import Projections = MemoryProjection
  import Refinement = MemoryRefinement
  import Aggregate

  // Deciding

  function StepFor(k: nat, r: Request): Step {
    match r
    case StartRequest(url, p) => StartConversation(k, url, p)
    case ThreadRequest(p) => AddThread(k, p)
    case ReplyRequest(p) => Reply(k, p)
    case AddRequest(p) => AddParticipant(k, p)
    case RemoveRequest(p) => RemoveParticipant(k, p)
  }

  ghost predicate CaughtUp(s: State) {
    s.projection.checkpoint == |s.log|
  }

  lemma CaughtUpMatches(s: State)
    requires Inv(s) && CaughtUp(s)
    ensures WellFormed(s.log) && Refinement.Matches(s.projection, s.log)
  {
    assert s.log[..|s.log|] == s.log;
  }

  lemma MembershipRaised(s: State, k: nat, add: bool, p: Aggregate.ManageParams)
    requires WellFormed(s.log)
    ensures var r := MembershipRequest(add, p);
            Raised(s, StepFor(k, r)) == if Effective(s.log, r) then Some(Raises(r)) else None
  {
    MembershipEffective(s.log, add, p);
    RaisedIsDecision(s, k, add, p, Aggregate.Own(s.log, p.conversation));
  }

  lemma RaisedIsDecision(s: State, k: nat, add: bool, p: Aggregate.ManageParams, own: seq<Event>)
    requires own == Aggregate.Own(s.log, p.conversation)
    ensures var r := MembershipDecision(own, add, p);
            Raised(s, if add then AddParticipant(k, p) else RemoveParticipant(k, p))
            == if r.Success? && r.value.Some? then Some([r.value.value]) else None
  {
  }

  /** A request is accepted exactly when no rule is broken, and then raises exactly its events. */
  lemma RaisedByRules(s: State, k: nat, r: Request)
    requires WellFormed(s.log) && Refinement.Matches(s.projection, s.log)
    ensures Raised(s, StepFor(k, r)) == if Effective(s.log, r) then Some(Raises(r)) else None
  {
    Refinement.MatchingReads(s.projection, s.log, ConversationOf(r));
    ThreadsIffStarted(s.log, ConversationOf(r));
    match r
    case StartRequest(url, p) => StartEffective(s.log, url, p);
    case ThreadRequest(p) => ThreadEffective(s.log, p);
    case ReplyRequest(p) => ReplyEffective(s.log, p);
    case AddRequest(p) => MembershipRaised(s, k, true, p);
    case RemoveRequest(p) => MembershipRaised(s, k, false, p);
  }

  // Reading, in every run

  /** GetConversation: without `after`, or once the checkpoint has reached it, the answer is the view of what
      is applied; it is not caught up exactly while the checkpoint read first is below `after`. */
  lemma GetAnswers(run: seq<State>, i: nat, r: nat, c: ConversationId, after: Option<int>)
    requires IsRun(run) && i < |run| && r < |run|
    ensures run[r].projection.checkpoint <= |run[r].log|
    ensures var applied := run[r].log[..run[r].projection.checkpoint];
            GetConversation(after, run[i].projection.checkpoint, Projections.Get(run[r].projection, c))
            == if after.Some? && run[i].projection.checkpoint < after.value then Failure(ProjectionNotCaughtUp)
               else if StartsOf(applied, c) == [] then Failure(ConversationNotFound)
               else Success(View(applied, c))
  {
    RunKeepsInv(run, r);
    WellFormedPrefix(run[r].log, run[r].projection.checkpoint);
    Refinement.MatchingReads(run[r].projection, run[r].log[..run[r].projection.checkpoint], c);
  }

  /** A thread whose start is applied is shown with the author and the recipients as participants, as later
      membership changes leave them. */
  lemma StartersRead(run: seq<State>, i: nat, n: nat, x: ParticipantId)
    requires IsRun(run) && i < |run| && n < run[i].projection.checkpoint <= |run[i].log|
    requires run[i].log[n].ThreadStarted?
    ensures var e, log, upTo := run[i].log[n], run[i].log, run[i].projection.checkpoint;
            var read := Projections.Get(run[i].projection, e.conversation);
            && read.Success?
            && var t := FindThread(read.value.threads, e.thread);
            && t < |read.value.threads|
            && (x in read.value.threads[t].participants
                <==> if x == e.author || x in e.recipients then KeptIn(log, n + 1, upTo, e.conversation, e.thread, x)
                     else LetIn(log, n + 1, upTo, e.conversation, e.thread, x))
  {
    var s, c := run[i], run[i].log[n].conversation;
    var applied := s.log[..s.projection.checkpoint];
    RunKeepsInv(run, i);
    WellFormedPrefix(s.log, s.projection.checkpoint);
    Refinement.MatchingReads(s.projection, applied, c);
    StartsFound(applied, c, n);
    StarterLater(s.log, n, s.projection.checkpoint, x);
    assert Starts(applied[n], c, applied[n].thread);
    ThreadFound(applied, c, applied[n].thread);
  }

  // Serving

  /** Everything is applied, nothing is pending, and the relay rests. */
  ghost predicate Settled(s: State) {
    CaughtUp(s) && s.relay.Idle? && s.pending == map[]
  }

  lemma {:induction false} MarkAll(run: seq<State>) returns (run': seq<State>)
    requires IsRun(run) && Last(run).relay.Marking?
    ensures IsRun(run') && Last(run') == Last(run).(relay := Idle, pending := Last(run').pending)
    decreases |Last(run).relay.rest|
  {
    run' := OneMoreStep(run, RelayMark);
    if Last(run).relay.rest != [] {
      run' := MarkAll(run');
    }
  }

  /** A relay left alone applies everything appended so far and marks it done. */
  lemma DrainSettles(run: seq<State>) returns (run': seq<State>)
    requires IsRun(run) && Last(run).relay.Idle? && Last(run).projection.checkpoint < |Last(run).log|
    ensures IsRun(run') && Settled(Last(run')) && Last(run').log == Last(run).log
    ensures Last(run').used == Last(run).used && Last(run').ready == Last(run).ready
  {
    var listed := OneMoreStep(run, RelayList);
    ListsRest(listed);
    var planned := OneMoreStep(listed, RelayPlan);
    DrainReachesListing(planned, |planned| - 1);
    var applied := OneMoreStep(planned, RelayApply);
    run' := MarkAll(applied);
    IdleHoldsNothing(run');
  }

  lemma ListsRest(run: seq<State>)
    requires IsRun(run) && Last(run).relay.Listed? && Last(run).projection.checkpoint < Last(run).listed
    ensures TakeRun(Last(run).relay.pending, Last(run).projection.checkpoint + 1) == Last(run).relay.pending != []
  {
    RunKeepsInv(run, |run| - 1);
    var s := Last(run);
    TakeAll(s.projection.checkpoint, s.log[s.projection.checkpoint..s.listed]);
  }

  lemma IdleHoldsNothing(run: seq<State>)
    requires IsRun(run) && Last(run).relay.Idle? && CaughtUp(Last(run))
    ensures Settled(Last(run))
  {
    RunKeepsInv(run, |run| - 1);
    assert forall n :: n !in Last(run).pending;
  }

  /** From any settled state: an accepted request, appended and drained, leads to a settled state with its
      events at the end of the log, and its conversation reads as the request makes it. */
  lemma Served(run: seq<State>, k: nat, r: Request) returns (run': seq<State>)
    requires IsRun(run) && Settled(Last(run)) && k !in Last(run).ready && Effective(Last(run).log, r)
    requires Drawn(StepFor(k, r)) !! Last(run).used
    ensures IsRun(run') && Settled(Last(run')) && Last(run').log == Last(run).log + Raises(r)
    ensures Last(run').used == Last(run).used + Drawn(StepFor(k, r)) && Last(run').ready == Last(run).ready
    ensures Projections.Get(Last(run').projection, ConversationOf(r))
         == Success(ViewAfter(View(Last(run).log, ConversationOf(r)), r))
  {
    var s := Last(run);
    RunKeepsInv(run, |run| - 1);
    CaughtUpMatches(s);
    RaisedByRules(s, k, r);
    var decided := OneMoreStep(run, StepFor(k, r));
    assert Last(decided).ready - {k} == s.ready;
    var appended := OneMoreStep(decided, Append(k));
    run' := DrainSettles(appended);
    ReadsAfter(run', s.log, r);
  }

  lemma ReadsAfter(run: seq<State>, log: seq<Event>, r: Request)
    requires IsRun(run) && CaughtUp(Last(run)) && Filled(r) && Last(run).log == log + Raises(r)
    ensures Projections.Get(Last(run).projection, ConversationOf(r))
         == Success(ViewAfter(View(log, ConversationOf(r)), r))
  {
    RunKeepsInv(run, |run| - 1);
    CaughtUpMatches(Last(run));
    Refinement.MatchingReads(Last(run).projection, Last(run).log, ConversationOf(r));
    RequestHasThread(log, r);
    RequestShows(log, r, ConversationOf(r));
  }

  // Conversations and threads, opened and read

  /** Any acceptable conversation is started and then read with its url, its title, its author and recipients
      as participants, and its opening message. */
  lemma StartedAndRead(p: ThreadParams, url: string) returns (run: seq<State>)
    requires Acceptable(p)
    ensures IsRun(run) && Settled(Last(run)) && Last(run).ready == map[]
    ensures Last(run).used == {p.conversation, p.thread, p.message}
    ensures Projections.Get(Last(run).projection, p.conversation)
         == Success(ConversationView(p.conversation, url,
              [ThreadView(p.thread, p.title.value, [p.author.value] + p.recipients.value,
                          [MessageView(p.author.value, p.text.value, p.at)])]))
  {
    AcceptableIsEffective([], url, p);
    run := Served([INITIAL], 0, StartRequest(Some(url), p));
  }

  /** Any acceptable thread can be added to any conversation that can be read, and is then read after the
      threads that were there. */
  lemma ThreadAddedAndRead(run: seq<State>, k: nat, p: ThreadParams) returns (run': seq<State>)
    requires IsRun(run) && Settled(Last(run)) && k !in Last(run).ready && Acceptable(p)
    requires {p.thread, p.message} !! Last(run).used
    requires Projections.Get(Last(run).projection, p.conversation).Success?
    ensures IsRun(run') && Settled(Last(run'))
    ensures var before := Projections.Get(Last(run).projection, p.conversation).value;
            Projections.Get(Last(run').projection, p.conversation)
            == Success(ConversationView(before.id, before.url, before.threads +
                 [ThreadView(p.thread, p.title.value, [p.author.value] + p.recipients.value,
                             [MessageView(p.author.value, p.text.value, p.at)])]))
  {
    ThreadIsAccepted(run, p);
    run' := Served(run, k, ThreadRequest(p));
  }

  lemma ThreadIsAccepted(run: seq<State>, p: ThreadParams)
    requires IsRun(run) && CaughtUp(Last(run)) && Acceptable(p)
    requires Projections.Get(Last(run).projection, p.conversation).Success?
    ensures Effective(Last(run).log, ThreadRequest(p))
    ensures Projections.Get(Last(run).projection, p.conversation).value == View(Last(run).log, p.conversation)
  {
    RunKeepsInv(run, |run| - 1);
    CaughtUpMatches(Last(run));
    Refinement.MatchingReads(Last(run).projection, Last(run).log, p.conversation);
    ThreadsIffStarted(Last(run).log, p.conversation);
    AcceptableIsEffective(Last(run).log, "", p);
  }
}
