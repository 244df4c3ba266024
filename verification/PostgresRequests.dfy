/** Requests on Postgres. From any state in which everything is applied, each of the five commands is accepted
    exactly when its rules say so, and once appended and drained its conversation reads just as it should. */
module PostgresRequests {
  import opened Collections
  import opened Domain
  import opened ReadModel
  import opened Outbox
  import opened PostgresTables
  import opened PostgresRefinement
  import opened PostgresProtocol
  import opened PostgresInvariant
  import opened PostgresSteps
  import opened PostgresRuns
  import opened PostgresTransactions
  import opened PostgresGuarantees
  import opened PostgresProgress
  import opened History
  import opened Requests
  import Aggregate

  // Deciding

  /** Everything drawn is committed and applied. */
  ghost predicate CaughtUp(s: State) {
    Shaped(s) && AllCommitted(s) && Current(s).checkpoint == |s.log|
  }

  /** The step that decides a request on the current tables. */
  function StepFor(s: State, k: nat, r: Request): Step
    requires s.snapshots != []
  {
    var q := |s.snapshots| - 1;
    match r
    case StartRequest(url, p) => StartConversation(k, url, p)
    case ThreadRequest(p) => AddThread(k, p, q)
    case ReplyRequest(p) => Reply(k, p, q, q, q)
    case AddRequest(p) => AddParticipant(k, p)
    case RemoveRequest(p) => RemoveParticipant(k, p)
  }

  /** Get returns the view of the whole log. */
  ghost predicate ReadsLog(s: State, c: ConversationId)
    requires Shaped(s)
  {
    ReadAt(s, c) == if StartsOf(s.log, c) == [] then Failure(ConversationNotFound) else Success(View(s.log, c))
  }

  lemma CaughtUpReads(s: State, c: ConversationId)
    requires Inv(s) && CaughtUp(s)
    ensures WellFormed(s.log) && Rehydrated(s, c) == Aggregate.Replay(Aggregate.Own(s.log, c))
    ensures ExistsRow(Current(s), c) <==> HasThreads(s.log, c)
    ensures ReadsLog(s, c)
  {
    CurrentMatches(s);
    assert s.log[..|s.log|] == s.log;
    CommittedIsAll(s, |s.log|);
    ExistsMatches(Current(s), s.log, c);
    ThreadsIffStarted(s.log, c);
    WholeGet(Current(s), s.log, c);
  }

  lemma ThreadRaised(s: State, k: nat, p: ThreadParams)
    requires Shaped(s) && (ExistsRow(Current(s), p.conversation) <==> HasThreads(s.log, p.conversation))
    ensures var r := ThreadRequest(p);
            Raised(s, StepFor(s, k, r)) == if Effective(s.log, r) then Some(Raises(r)) else None
  {
    ThreadEffective(s.log, p);
  }

  lemma ReplyRaised(s: State, k: nat, p: ReplyParams)
    requires Shaped(s) && WellFormed(s.log) && ReadsLog(s, p.conversation)
    ensures var r := ReplyRequest(p);
            Raised(s, StepFor(s, k, r)) == if Effective(s.log, r) then Some(Raises(r)) else None
  {
    ReplyEffective(s.log, p);
    RaisedIsReply(s, k, p);
  }

  lemma RaisedIsReply(s: State, k: nat, p: ReplyParams)
    requires Shaped(s)
    ensures var r, view := ValidateReply(p), ReadAt(s, p.conversation);
            Raised(s, StepFor(s, k, ReplyRequest(p)))
            == if r.Success? && view.Success? && AuthorizeReply(view.value, r.value) == None then Some([r.value])
               else None
  {
  }

  lemma MembershipRaised(s: State, k: nat, add: bool, p: Aggregate.ManageParams)
    requires Shaped(s) && WellFormed(s.log)
    requires Rehydrated(s, p.conversation) == Aggregate.Replay(Aggregate.Own(s.log, p.conversation))
    ensures var r := MembershipRequest(add, p);
            Raised(s, StepFor(s, k, r)) == if Effective(s.log, r) then Some(Raises(r)) else None
  {
    MembershipEffective(s.log, add, p);
    RaisedIsDecision(s, k, add, p, Aggregate.Own(s.log, p.conversation));
  }

  lemma RaisedIsDecision(s: State, k: nat, add: bool, p: Aggregate.ManageParams, own: seq<Event>)
    requires Shaped(s) && Rehydrated(s, p.conversation) == Aggregate.Replay(own)
    ensures var r := MembershipDecision(own, add, p);
            Raised(s, if add then AddParticipant(k, p) else RemoveParticipant(k, p))
            == if r.Success? && r.value.Some? then Some([r.value.value]) else None
  {
  }

  /** A request is accepted exactly when no rule is broken, and then raises exactly its events. */
  lemma RaisedByRules(s: State, k: nat, r: Request)
    requires Inv(s) && CaughtUp(s)
    ensures Raised(s, StepFor(s, k, r)) == if Effective(s.log, r) then Some(Raises(r)) else None
  {
    CaughtUpReads(s, ConversationOf(r));
    match r
    case StartRequest(url, p) => StartEffective(s.log, url, p);
    case ThreadRequest(p) => ThreadRaised(s, k, p);
    case ReplyRequest(p) => ReplyRaised(s, k, p);
    case AddRequest(p) => MembershipRaised(s, k, true, p);
    case RemoveRequest(p) => MembershipRaised(s, k, false, p);
  }

  // Reading, in every run

  /** GetConversation: without `after`, or once the checkpoint has reached it, the answer is what the three
      reads found; it is not caught up exactly while the checkpoint read first is below `after`. */
  lemma GetAnswers(run: seq<State>, i: nat, u: nat, k: nat, m: nat, c: ConversationId, after: Option<int>)
    requires IsRun(run) && i < |run| && u < |run| && k < |run| && m < |run|
    ensures Shaped(run[i]) && Shaped(run[u]) && Shaped(run[k]) && Shaped(run[m])
    ensures var log := Last(run).log;
            var cu, ck, cm := Current(run[u]).checkpoint, Current(run[k]).checkpoint, Current(run[m]).checkpoint;
            && cu <= |log| && ck <= |log| && cm <= |log|
            && GetConversation(after, Current(run[i]).checkpoint, ReadAcross(run[u], run[k], run[m], c))
            == if after.Some? && Current(run[i]).checkpoint < after.value then Failure(ProjectionNotCaughtUp)
               else if StartsOf(log[..ck], c) == [] || !Created(log[..cu], c) then Failure(ConversationNotFound)
               else Success(TornView(log, c, cu, ck, cm))
  {
    RunKeepsInv(run, i);
    ReadAcrossRun(run, u, k, m, |run| - 1, c);
  }

  /** Any read that succeeds shows a thread whose start its thread rows have seen with the author and the
      recipients as participants, as later membership changes leave them. */
  lemma StartersRead(run: seq<State>, u: nat, k: nat, m: nat, n: nat, x: ParticipantId)
    requires IsRun(run) && u < |run| && k < |run| && m < |run|
    requires Shaped(run[u]) && Shaped(run[k]) && Shaped(run[m])
    requires n < Current(run[k]).checkpoint <= |Last(run).log| && Last(run).log[n].ThreadStarted?
    requires ReadAcross(run[u], run[k], run[m], Last(run).log[n].conversation).Success?
    ensures var e, log, upTo := Last(run).log[n], Last(run).log, Current(run[k]).checkpoint;
            var threads := ReadAcross(run[u], run[k], run[m], e.conversation).value.threads;
            var t := FindThread(threads, e.thread);
            && t < |threads|
            && (x in threads[t].participants
                <==> if x == e.author || x in e.recipients then KeptIn(log, n + 1, upTo, e.conversation, e.thread, x)
                     else LetIn(log, n + 1, upTo, e.conversation, e.thread, x))
  {
    ReadAcrossRun(run, u, k, m, |run| - 1, Last(run).log[n].conversation);
    var cu, ck, cm := Current(run[u]).checkpoint, Current(run[k]).checkpoint, Current(run[m]).checkpoint;
    TornStarter(Last(run).log, cu, ck, cm, n, x);
  }

  // Serving

  /** Everything is marked done as well, and the relay rests. */
  ghost predicate Settled(s: State) {
    CaughtUp(s) && s.relay.Idle? && forall n :: 1 <= n <= |s.log| ==> n in s.done
  }

  /** A relay left alone while marking marks every entry and goes idle. */
  lemma {:induction false} MarkAll(run: seq<State>) returns (run': seq<State>)
    requires IsRun(run) && Shaped(Last(run)) && Last(run).relay.Marking?
    ensures IsRun(run') && Shaped(Last(run'))
    ensures Last(run') == Last(run).(relay := Idle, done := Last(run').done)
    ensures Last(run').done == Last(run).done + set n | n in Last(run).relay.rest
    decreases |Last(run).relay.rest|
  {
    var s := Last(run);
    OneMoreStep(run, RelayMark);
    var marked := run + [After(s, RelayMark)];
    if s.relay.rest == [] {
      run' := marked;
    } else {
      run' := MarkAll(marked);
      assert s.relay.rest == [s.relay.rest[0]] + s.relay.rest[1..];
    }
  }

  lemma AppendedSettles(run: seq<State>, k: nat)
    requires IsRun(run) && Settled(Last(run)) && k in Last(run).commands && Last(run).commands[k].phase == Ready
    ensures Last(run).commands[k].batch != []
    ensures var s, s' := Last(run), Appended(Last(run), k);
            && Shaped(s') && AllCommitted(s') && s'.log == s.log + s.commands[k].batch && s'.relay == s.relay
            && s'.used == s.used && s'.commands.Keys == s.commands.Keys && Current(s') == Current(s)
            && forall n :: !LeftPending(s', n)
  {
    var s := Last(run);
    RunKeepsInv(run, |run| - 1);
    ReadyToAppend(s, k);
    var s', batch := Appended(s, k), s.commands[k].batch;
    assert batch[..|batch|] == batch;
    forall n | 1 <= n <= |s'.log| ensures IsCommitted(s', n) {
      assert n <= |s.log| ==> IsCommitted(s, n);
      CommittedByThen(s, k, n);
    }
  }

  /** An undisturbed relay drains a state with everything committed and nothing left pending completely. */
  lemma DrainSettles(run: seq<State>) returns (run': seq<State>)
    requires IsRun(run) && Shaped(Last(run)) && AllCommitted(Last(run)) && Last(run).relay == Idle
    requires Current(Last(run)).checkpoint < |Last(run).log| && forall n :: !LeftPending(Last(run), n)
    ensures IsRun(run') && Settled(Last(run')) && Last(run').log == Last(run).log
    ensures Last(run').used == Last(run).used && Last(run').commands == Last(run).commands
  {
    var s := Last(run);
    RunKeepsInv(run, |run| - 1);
    DrainsAll(s);
    DrainAdvances(s);
    var drained := UndisturbedDrain(run);
    run' := MarkAll(drained);
    AllMarked(s, Last(drained).relay.rest);
    SameCommitted(s, Last(run'));
  }

  lemma AllMarked(s: State, rest: seq<Sequence>)
    requires Inv(s) && Drainable(s) != [] && Current(s).checkpoint + |Drainable(s)| == |s.log|
    requires forall n :: !LeftPending(s, n)
    requires |rest| == |Drainable(s)| && forall i :: 0 <= i < |rest| ==> rest[i] == Drainable(s)[i].sequence
    ensures forall n :: 1 <= n <= |s.log| ==> n in s.done || n in rest
  {
    var from := Current(s).checkpoint;
    RunOfListing(PendingRows(s), |s.log|, from + 1);
    forall n | 1 <= n <= |s.log| ensures n in s.done || n in rest {
      if n <= from {
        assert !LeftPending(s, n);
      } else {
        assert rest[n - from - 1] == n;
      }
    }
  }

  lemma SameCommitted(s: State, s': State)
    requires Shaped(s) && Shaped(s') && AllCommitted(s)
    requires s'.log == s.log && s'.owner == s.owner && s'.commands == s.commands
    ensures AllCommitted(s')
  {
    assert forall n :: IsCommitted(s, n) ==> IsCommitted(s', n);
  }

  /** From any settled state: an accepted request, appended and drained, leads to a settled state with its
      events at the end of the log, and its conversation reads as the request makes it. */
  lemma Served(run: seq<State>, k: nat, r: Request) returns (run': seq<State>)
    requires IsRun(run) && Settled(Last(run)) && k !in Last(run).commands && Effective(Last(run).log, r)
    requires Drawn(StepFor(Last(run), k, r)) !! Last(run).used
    ensures IsRun(run') && Settled(Last(run')) && Last(run').log == Last(run).log + Raises(r)
    ensures Last(run').used == Last(run).used + Drawn(StepFor(Last(run), k, r))
    ensures Last(run').commands.Keys == Last(run).commands.Keys + {k}
    ensures ReadAt(Last(run'), ConversationOf(r)) == Success(ViewAfter(View(Last(run).log, ConversationOf(r)), r))
  {
    var s := Last(run);
    var decided := DecidedAlone(run, k, r);
    var appended := LoneAppend(decided, k);
    AppendedSettles(decided, k);
    run' := DrainSettles(appended);
    ReadsAfter(run', s.log, r);
  }

  lemma DecidedAlone(run: seq<State>, k: nat, r: Request) returns (run': seq<State>)
    requires IsRun(run) && Settled(Last(run)) && k !in Last(run).commands && Effective(Last(run).log, r)
    requires Drawn(StepFor(Last(run), k, r)) !! Last(run).used
    ensures IsRun(run') && Settled(Last(run'))
    ensures Last(run') == Last(run).(commands := Last(run).commands[k := Command(Raises(r), [], Ready)],
                                     used := Last(run).used + Drawn(StepFor(Last(run), k, r)))
  {
    var s := Last(run);
    RunKeepsInv(run, |run| - 1);
    RaisedByRules(s, k, r);
    OneMoreStep(run, StepFor(s, k, r));
    run' := run + [After(s, StepFor(s, k, r))];
    assert forall n :: IsCommitted(s, n) ==> IsCommitted(Last(run'), n);
  }

  lemma ReadsAfter(run: seq<State>, log: seq<Event>, r: Request)
    requires IsRun(run) && CaughtUp(Last(run)) && Filled(r) && Last(run).log == log + Raises(r)
    ensures ReadAt(Last(run), ConversationOf(r)) == Success(ViewAfter(View(log, ConversationOf(r)), r))
  {
    RunKeepsInv(run, |run| - 1);
    CaughtUpReads(Last(run), ConversationOf(r));
    RequestHasThread(log, r);
    RequestShows(log, r, ConversationOf(r));
  }

  // Conversations and threads, opened and read

  /** Any acceptable conversation is started and then read with its url, its title, its author and recipients
      as participants, and its opening message. */
  lemma StartedAndRead(p: ThreadParams, url: string) returns (run: seq<State>)
    requires Acceptable(p)
    ensures IsRun(run) && Settled(Last(run)) && Last(run).commands.Keys == {0}
    ensures Last(run).log == Raises(StartRequest(Some(url), p))
    ensures Last(run).used == {p.conversation, p.thread, p.message}
    ensures ReadAt(Last(run), p.conversation)
         == Success(ConversationView(p.conversation, url,
              [ThreadView(p.thread, p.title.value, [p.author.value] + p.recipients.value,
                          [MessageView(p.author.value, p.text.value, p.at)])]))
  {
    assert Settled(INITIAL);
    AcceptableIsEffective([], url, p);
    run := Served([INITIAL], 0, StartRequest(Some(url), p));
    assert [] + Raises(StartRequest(Some(url), p)) == Raises(StartRequest(Some(url), p));
  }

  /** Any acceptable thread can be added to any conversation that can be read, and is then read after the
      threads that were there. */
  lemma ThreadAddedAndRead(run: seq<State>, k: nat, p: ThreadParams) returns (run': seq<State>)
    requires IsRun(run) && Settled(Last(run)) && k !in Last(run).commands && Acceptable(p)
    requires {p.thread, p.message} !! Last(run).used && ReadAt(Last(run), p.conversation).Success?
    ensures IsRun(run') && Settled(Last(run'))
    ensures var before := ReadAt(Last(run), p.conversation).value;
            ReadAt(Last(run'), p.conversation)
            == Success(ConversationView(before.id, before.url, before.threads +
                 [ThreadView(p.thread, p.title.value, [p.author.value] + p.recipients.value,
                             [MessageView(p.author.value, p.text.value, p.at)])]))
  {
    ThreadIsAccepted(run, p);
    run' := Served(run, k, ThreadRequest(p));
  }

  lemma ThreadIsAccepted(run: seq<State>, p: ThreadParams)
    requires IsRun(run) && CaughtUp(Last(run)) && Acceptable(p) && ReadAt(Last(run), p.conversation).Success?
    ensures Effective(Last(run).log, ThreadRequest(p))
    ensures ReadAt(Last(run), p.conversation).value == View(Last(run).log, p.conversation)
  {
    RunKeepsInv(run, |run| - 1);
    CaughtUpReads(Last(run), p.conversation);
    ThreadsIffStarted(Last(run).log, p.conversation);
    AcceptableIsEffective(Last(run).log, "", p);
  }
}
