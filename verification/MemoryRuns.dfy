/** What whole runs over the in-memory adapters give a caller: its own writes back, replies only from
    participants, and member lists that agree as long as membership commands do not overlap. */
module MemoryRuns {
  import opened Collections
  import opened Domain
  import opened ReadModel
  import opened MemoryProtocol
  import opened MemoryGuarantees
  import opened History
  import Projections = MemoryProjection
  import Refinement = MemoryRefinement
  import Aggregate

  function Last(run: seq<State>): State
    requires run != []
  {
    run[|run| - 1]
  }

  lemma OneMoreStep(run: seq<State>, step: Step) returns (run': seq<State>)
    requires IsRun(run) && Enabled(Last(run), step)
    ensures IsRun(run') && Last(run') == After(Last(run), step)
  {
    run' := run + [After(Last(run), step)];
    forall i | 0 <= i < |run'| - 1 ensures StepAt(run', i) {
      if i < |run| - 1 {
        assert StepAt(run, i);
      }
    }
  }

  lemma StepOf(run: seq<State>, i: nat) returns (step: Step)
    requires IsRun(run) && i + 1 < |run|
    ensures Enabled(run[i], step) && run[i + 1] == After(run[i], step)
  {
    assert StepAt(run, i);
    step :| Enabled(run[i], step) && run[i + 1] == After(run[i], step);
  }

  /** Every batch waiting to be appended was raised in an earlier state. */
  ghost predicate Decided(run: seq<State>, d: nat, i: nat, k: nat, step: Step) {
    && d < i < |run| && IsDecision(step) && step.k == k && Enabled(run[d], step)
    && k in run[i].ready && Raised(run[d], step) == Some(run[i].ready[k])
  }

  lemma {:induction false} DecidedAt(run: seq<State>, i: nat, k: nat) returns (d: nat, step: Step)
    requires IsRun(run) && i < |run| && k in run[i].ready
    ensures Decided(run, d, i, k, step)
  {
    assert i > 0;
    var last := StepOf(run, i - 1);
    if k in run[i - 1].ready {
      d, step := DecidedAt(run, i - 1, k);
    } else {
      d, step := i - 1, last;
    }
  }

  /** Every record was appended by a step, with the rest of its batch. */
  ghost predicate AppendedBy(run: seq<State>, j: nat, i: nat, n: nat, k: nat) {
    && j < i < |run| && k in run[j].ready && run[j + 1] == After(run[j], Append(k))
    && |run[j].log| <= n < |run[j].log| + |run[j].ready[k]| <= |run[i].log|
    && run[i].log[..|run[j].log|] == run[j].log
    && run[i].log[|run[j].log|..|run[j].log| + |run[j].ready[k]|] == run[j].ready[k]
  }

  lemma {:induction false} AppendedAt(run: seq<State>, i: nat, n: nat) returns (j: nat, k: nat)
    requires IsRun(run) && i < |run| && n < |run[i].log|
    ensures AppendedBy(run, j, i, n, k)
  {
    assert i > 0;
    var last := StepOf(run, i - 1);
    if n < |run[i - 1].log| {
      j, k := AppendedAt(run, i - 1, n);
      StillAppended(run, j, i - 1, n, k);
    } else {
      j, k := i - 1, last.k;
    }
  }

  lemma StillAppended(run: seq<State>, j: nat, i: nat, n: nat, k: nat)
    requires IsRun(run) && i + 1 < |run| && AppendedBy(run, j, i, n, k)
    ensures AppendedBy(run, j, i + 1, n, k)
  {
    StepExtends(run, i);
    var log, log' := run[i].log, run[i + 1].log;
    var a, b := |run[j].log|, |run[j].log| + |run[j].ready[k]|;
    assert log'[..a] == log[..a] && log'[a..b] == log[a..b];
  }

  // Reading one's own writes

  /** A caller waiting for the sequence its append returned is told to come back exactly while the
      checkpoint, read at i, is below it; after that the read, at r, succeeds and shows what was appended. */
  lemma ReadYourWrites(run: seq<State>, j: nat, k: nat, b: nat, i: nat, r: nat)
    requires IsRun(run) && j < i <= r < |run| && k in run[j].ready && run[j + 1] == After(run[j], Append(k))
    requires b < |run[j].ready[k]|
    ensures var e, n, after := run[j].ready[k][b], |run[j].log| + b, |run[j + 1].log|;
            var got := GetConversation(Some(after), run[i].projection.checkpoint,
                                       Projections.Get(run[r].projection, e.conversation));
            if run[i].projection.checkpoint < after then got == Failure(ProjectionNotCaughtUp)
            else
              && n < run[r].projection.checkpoint <= |run[r].log| && run[r].log[n] == e
              && got.Success? && Shows(got.value, e)
              && (e.ParticipantAdded? || e.ParticipantRemoved? ==>
                    MembershipShown(got.value, run[r].log, n, run[r].projection.checkpoint))
  {
    var n := |run[j].log| + b;
    if |run[j + 1].log| <= run[i].projection.checkpoint {
      RunExtends(run, j + 1, r);
      RunExtends(run, i, r);
      RunKeepsInv(run, r);
      assert run[j + 1].log[n] == run[j].ready[k][b];
      BatchApplied(run, j, k, b, r);
      AppliedShown(run[r], n);
    }
  }

  /** A whole batch below the checkpoint leaves its conversation readable. */
  lemma BatchApplied(run: seq<State>, j: nat, k: nat, b: nat, r: nat)
    requires IsRun(run) && j < r < |run| && k in run[j].ready && run[j + 1] == After(run[j], Append(k))
    requires b < |run[j].ready[k]| && |run[j + 1].log| <= run[r].projection.checkpoint
    ensures Inv(run[r]) && |run[j].log| + b < run[r].projection.checkpoint <= |run[r].log|
    ensures StartsOf(run[r].log[..run[r].projection.checkpoint], run[j].ready[k][b].conversation) != []
  {
    WholeWaits(run, j, k, b);
    RunKeepsInv(run, r);
    var s, batch := run[r], run[j].ready[k];
    var x := if batch[b].ConversationCreated? then b + 1 else b;
    AppliedAt(run, j, k, x, r);
    WellFormedPrefix(s.log, s.projection.checkpoint);
    assert s.log[..s.projection.checkpoint][|run[j].log| + x] == batch[x];
    HasThreadIfNotNew(s.log[..s.projection.checkpoint], |run[j].log| + x);
  }

  lemma WholeWaits(run: seq<State>, j: nat, k: nat, b: nat)
    requires IsRun(run) && j < |run| && k in run[j].ready && b < |run[j].ready[k]|
    ensures WholeAt(run[j].ready[k], b)
  {
    RunKeepsInv(run, j);
    assert ReadyOk(run[j], k);
  }

  lemma AppliedAt(run: seq<State>, j: nat, k: nat, x: nat, r: nat)
    requires IsRun(run) && j < r < |run| && k in run[j].ready && run[j + 1] == After(run[j], Append(k))
    requires x < |run[j].ready[k]| && |run[j + 1].log| <= run[r].projection.checkpoint
    ensures |run[j].log| + x < run[r].projection.checkpoint <= |run[r].log|
    ensures run[r].log[|run[j].log| + x] == run[j].ready[k][x]
  {
    RunKeepsInv(run, r);
    RunExtends(run, j + 1, r);
    assert run[j + 1].log[|run[j].log| + x] == run[j].ready[k][x];
  }

  lemma AppliedShown(s: State, n: nat)
    requires Inv(s) && n < s.projection.checkpoint
    requires StartsOf(s.log[..s.projection.checkpoint], s.log[n].conversation) != []
    ensures var e, got := s.log[n], Projections.Get(s.projection, s.log[n].conversation);
            && got.Success? && Shows(got.value, e)
            && (e.ParticipantAdded? || e.ParticipantRemoved? ==>
                  MembershipShown(got.value, s.log, n, s.projection.checkpoint))
  {
    var checkpoint, c := s.projection.checkpoint, s.log[n].conversation;
    var applied := s.log[..checkpoint];
    WellFormedPrefix(s.log, checkpoint);
    Refinement.MatchingReads(s.projection, applied, c);
    ViewShows(applied, n);
    if s.log[n].ParticipantAdded? || s.log[n].ParticipantRemoved? {
      TornMembership(s.log, c, checkpoint, checkpoint, checkpoint, n);
      TornViewWhole(s.log, c, checkpoint);
    }
  }

  // Authors

  /** State j, before the message was appended, had applied the thread's start and had the author a
      participant. */
  ghost predicate AdmittedAt(run: seq<State>, i: nat, j: nat, n: nat)
    requires i < |run| && n < |run[i].log| && run[i].log[n].MessagePosted?
  {
    && j < i && run[j].projection.checkpoint <= |run[j].log| <= n
    && var applied, e := run[i].log[..run[j].projection.checkpoint], run[i].log[n];
    && Started(applied, e.conversation, e.thread)
    && e.author in Participants(applied, e.conversation, e.thread)
  }

  /** Every message opens the thread started right before it or was admitted by an earlier projection. */
  lemma MessagesAreAuthorised(run: seq<State>, i: nat, n: nat)
    requires IsRun(run) && i < |run| && n < |run[i].log| && run[i].log[n].MessagePosted?
    ensures (n > 0 && Opens(run[i].log[n - 1], run[i].log[n])) || exists j :: 0 <= j && AdmittedAt(run, i, j, n)
  {
    var j, k := AppendedAt(run, i, n);
    var d, step := DecidedAt(run, j, k);
    var batch, first := run[j].ready[k], |run[j].log|;
    assert run[i].log[n] == run[i].log[first..first + |batch|][n - first] == batch[n - first];
    if step.Reply? {
      ReplyAdmitted(run, i, j, n, d, step);
    } else {
      assert run[i].log[n - 1] == run[i].log[first..first + |batch|][n - 1 - first] == batch[n - 1 - first];
    }
  }

  lemma ReplyAdmitted(run: seq<State>, i: nat, j: nat, n: nat, d: nat, step: Step)
    requires IsRun(run) && d < j < i < |run| && step.Reply? && Enabled(run[d], step)
    requires |run[j].log| <= n < |run[i].log| && Raised(run[d], step) == Some([run[i].log[n]])
    ensures AdmittedAt(run, i, d, n)
  {
    RunKeepsInv(run, d);
    RunExtends(run, d, j);
    RunExtends(run, d, i);
    var s, reply := run[d], run[i].log[n];
    var applied := s.log[..s.projection.checkpoint];
    assert applied == run[i].log[..s.projection.checkpoint];
    ShownIsLogged(s, reply.conversation);
    WellFormedPrefix(s.log, s.projection.checkpoint);
    ReplyAuthorised(applied, reply);
    ParticipantsAreLastWord(applied, reply.conversation, reply.thread, reply.author);
  }

  /** The author of such a message is a participant where it stands in the log exactly when every removal
      appended since that projection's checkpoint has an addition after it. */
  lemma AuthorAtAppend(run: seq<State>, i: nat, j: nat, n: nat)
    requires IsRun(run) && i < |run| && n < |run[i].log| && run[i].log[n].MessagePosted?
    requires AdmittedAt(run, i, j, n)
    ensures var log, e := run[i].log, run[i].log[n];
            e.author in Participants(log[..n], e.conversation, e.thread)
            <==> KeptIn(log, run[j].projection.checkpoint, n, e.conversation, e.thread, e.author)
  {
    RunKeepsInv(run, i);
    var e := run[i].log[n];
    ParticipantLater(run[i].log, e.conversation, e.thread, e.author, run[j].projection.checkpoint, n);
  }

  /** Once a removal is applied and no later addition is, a readable conversation refuses the participant's
      replies to that thread. */
  lemma RemovedIsRefused(run: seq<State>, i: nat, reply: Event, n: nat)
    requires IsRun(run) && i < |run| && reply.MessagePosted?
    requires Projections.Get(run[i].projection, reply.conversation).Success?
    requires n < run[i].projection.checkpoint <= |run[i].log|
    requires Removes(run[i].log[n], reply.conversation, reply.thread, reply.author)
    requires !AddedBetween(run[i].log, n, run[i].projection.checkpoint, reply.conversation, reply.thread, reply.author)
    ensures AuthorizeReply(Projections.Get(run[i].projection, reply.conversation).value, reply) == Some(ReplyForbidden)
  {
    RunKeepsInv(run, i);
    var s := run[i];
    var applied := s.log[..s.projection.checkpoint];
    ShownIsLogged(s, reply.conversation);
    WellFormedPrefix(s.log, s.projection.checkpoint);
    forall j | n < j < |applied| && applied[j].ParticipantAdded?
               && Concerns(applied[j], reply.conversation, reply.thread)
      ensures applied[j].participant != reply.author
    {
      assert !Adds(s.log[j], reply.conversation, reply.thread, reply.author);
    }
    RemovedMayNotReply(applied, n, reply);
  }

  // Membership commands that do not overlap

  predicate MembershipWaits(s: State, k: nat) {
    k in s.ready && Aggregate.IsMembership(s.ready[k])
  }

  ghost predicate NoMembershipWaits(s: State) {
    forall k :: !MembershipWaits(s, k)
  }

  /** Step i of the run decides membership command k. */
  ghost predicate DecidesAt(run: seq<State>, i: nat, k: nat)
    requires i + 1 < |run|
  {
    k !in run[i].ready && k in run[i + 1].ready && Aggregate.IsMembership(run[i + 1].ready[k])
  }

  /** Every membership decision is followed at once by its append. */
  ghost predicate Immediate(run: seq<State>) {
    forall i: nat, k: nat :: i + 2 < |run| && DecidesAt(run, i, k) ==> run[i + 2] == After(run[i + 1], Append(k))
  }

  /** A waiting batch is plain, or was decided by the last step from the log as it is. */
  ghost predicate Waiting(run: seq<State>, i: nat, k: nat)
    requires i < |run| && k in run[i].ready
  {
    var batch := run[i].ready[k];
    if Aggregate.IsMembership(batch) then
      && i > 0 && DecidesAt(run, i - 1, k)
      && Aggregate.DecidedInPlace(run[i].log + batch, |run[i].log|)
    else forall e :: e in batch ==> Aggregate.Plain(e)
  }

  ghost predicate NothingOverlaps(run: seq<State>, i: nat)
    requires i < |run|
  {
    Aggregate.Uninterleaved(run[i].log) && forall k :: k in run[i].ready ==> Waiting(run, i, k)
  }

  /** Then the log is uninterleaved in every state. */
  lemma {:induction false} ImmediateIsUninterleaved(run: seq<State>, i: nat)
    requires IsRun(run) && Immediate(run) && i < |run|
    ensures NothingOverlaps(run, i)
  {
    if i > 0 {
      ImmediateIsUninterleaved(run, i - 1);
      var before := run[i - 1];
      if l :| MembershipWaits(before, l) {
        assert Waiting(run, i - 1, l) && DecidesAt(run, i - 2, l);
        MembershipAppended(run, i, l);
      } else {
        var step := StepOf(run, i - 1);
        NoneWaiting(run, i, step);
      }
    }
  }

  lemma NoneWaiting(run: seq<State>, i: nat, step: Step)
    requires IsRun(run) && 0 < i < |run| && NothingOverlaps(run, i - 1) && NoMembershipWaits(run[i - 1])
    requires Enabled(run[i - 1], step) && run[i] == After(run[i - 1], step)
    ensures NothingOverlaps(run, i)
  {
    if step.Append? {
      PlainAppended(run, i, step.k);
    } else if IsDecision(step) {
      NewlyDecided(run, i, step);
    } else {
      SameWaiting(run, i);
    }
  }

  /** Only one command is decided in a step. */
  lemma OneDecision(run: seq<State>, i: nat, k: nat, l: nat)
    requires IsRun(run) && i + 1 < |run| && DecidesAt(run, i, k) && DecidesAt(run, i, l)
    ensures k == l
  {
    var step := StepOf(run, i);
  }

  lemma MembershipAppended(run: seq<State>, i: nat, l: nat)
    requires IsRun(run) && Immediate(run) && 2 <= i < |run| && NothingOverlaps(run, i - 1)
    requires l in run[i - 1].ready && DecidesAt(run, i - 2, l)
    ensures NothingOverlaps(run, i)
  {
    assert Waiting(run, i - 1, l);
    assert run[i] == After(run[i - 1], Append(l));
    var e := run[i - 1].ready[l][0];
    assert run[i - 1].ready[l] == [e];
    Aggregate.StaysUninterleaved(run[i - 1].log, e);
    forall k | k in run[i].ready ensures Waiting(run, i, k) {
      assert Waiting(run, i - 1, k);
      if Aggregate.IsMembership(run[i - 1].ready[k]) {
        OneDecision(run, i - 2, k, l);
      }
    }
  }

  lemma PlainAppended(run: seq<State>, i: nat, l: nat)
    requires IsRun(run) && 0 < i < |run| && NothingOverlaps(run, i - 1)
    requires l in run[i - 1].ready && run[i] == After(run[i - 1], Append(l))
    requires NoMembershipWaits(run[i - 1])
    ensures NothingOverlaps(run, i)
  {
    assert Waiting(run, i - 1, l) && !MembershipWaits(run[i - 1], l);
    Aggregate.PlainStaysUninterleaved(run[i - 1].log, run[i - 1].ready[l]);
    forall k | k in run[i].ready ensures Waiting(run, i, k) {
      assert Waiting(run, i - 1, k) && !MembershipWaits(run[i - 1], k);
    }
  }

  lemma SameWaiting(run: seq<State>, i: nat)
    requires IsRun(run) && 0 < i < |run| && NothingOverlaps(run, i - 1)
    requires run[i].ready == run[i - 1].ready && run[i].log == run[i - 1].log
    requires NoMembershipWaits(run[i - 1])
    ensures NothingOverlaps(run, i)
  {
    forall k | k in run[i].ready ensures Waiting(run, i, k) {
      assert Waiting(run, i - 1, k) && !MembershipWaits(run[i - 1], k);
    }
  }

  lemma NewlyDecided(run: seq<State>, i: nat, step: Step)
    requires IsRun(run) && 0 < i < |run| && NothingOverlaps(run, i - 1)
    requires IsDecision(step) && Enabled(run[i - 1], step) && run[i] == After(run[i - 1], step)
    requires NoMembershipWaits(run[i - 1])
    ensures NothingOverlaps(run, i)
  {
    RunKeepsInv(run, i - 1);
    DecisionWaits(run[i - 1], step);
    NewWaits(run, i, step);
    forall k | k in run[i].ready && k != step.k ensures Waiting(run, i, k) {
      assert Waiting(run, i - 1, k) && !MembershipWaits(run[i - 1], k);
    }
  }

  lemma NewWaits(run: seq<State>, i: nat, step: Step)
    requires 0 < i < |run| && IsDecision(step) && Enabled(run[i - 1], step) && run[i] == After(run[i - 1], step)
    requires var batch := Raised(run[i - 1], step).value;
             if Aggregate.IsMembership(batch)
             then Aggregate.DecidedInPlace(run[i - 1].log + batch, |run[i - 1].log|)
             else forall e :: e in batch ==> Aggregate.Plain(e)
    ensures Waiting(run, i, step.k)
  {
  }

  lemma DecisionWaits(s: State, step: Step)
    requires WellFormed(s.log) && IsDecision(step) && Raised(s, step).Some?
    ensures var batch := Raised(s, step).value;
            if step.AddParticipant? || step.RemoveParticipant?
            then Aggregate.IsMembership(batch) && Aggregate.DecidedInPlace(s.log + batch, |s.log|)
            else !Aggregate.IsMembership(batch) && forall e :: e in batch ==> Aggregate.Plain(e)
  {
    var batch := Raised(s, step).value;
    match step {
      case StartConversation(_, url, p) => Aggregate.BatchesArePlain(p, url, NO_REPLY);
      case AddThread(_, p) => Aggregate.BatchesArePlain(p, None, NO_REPLY);
      case Reply(_, p) =>
      case AddParticipant(_, p) =>
        Aggregate.ReplayHolds(s.log, p.conversation, p.thread);
        Aggregate.AggregateOf(s.log, p.conversation, p.thread);
        assert (s.log + batch)[..|s.log|] == s.log;
      case RemoveParticipant(_, p) =>
        Aggregate.ReplayHolds(s.log, p.conversation, p.thread);
        Aggregate.AggregateOf(s.log, p.conversation, p.thread);
        assert (s.log + batch)[..|s.log|] == s.log;
    }
  }

  const NO_REPLY := ReplyParams("", "", "", None, None, ZERO_TIME)

  /** So in such runs the projection and the aggregate of what it has applied list the same members. */
  lemma ImmediateAgrees(run: seq<State>, i: nat, c: ConversationId, t: ThreadId)
    requires IsRun(run) && Immediate(run) && i < |run|
    ensures run[i].projection.checkpoint <= |run[i].log|
    ensures var applied := run[i].log[..run[i].projection.checkpoint];
            var a := Aggregate.Replay(Aggregate.Own(applied, c));
            && (t in a.threads <==> Started(applied, c, t))
            && Aggregate.MembersOf(a, t) == Participants(applied, c, t)
            && NoDuplicates(Participants(applied, c, t))
  {
    RunKeepsInv(run, i);
    ImmediateIsUninterleaved(run, i);
    Aggregate.UninterleavedAgrees(run[i].log, c, t, run[i].projection.checkpoint);
  }

  // Membership commands that do

  /** From any state in which somebody is absent from a started thread: two additions decided before either
      is appended, and one removal, leave the aggregate holding that person and the projection not. */
  lemma InterleavedAdds(run: seq<State>, p: Aggregate.ManageParams, k: nat, l: nat, m: nat)
    returns (run': seq<State>)
    requires IsRun(run) && p.participant != "" && Started(Last(run).log, p.conversation, p.thread)
    requires p.participant !in Aggregate.Held(Last(run).log, p.conversation, p.thread)
    requires k != l && k !in Last(run).ready && l !in Last(run).ready && m !in Last(run).ready
    ensures IsRun(run')
    ensures var log, log' := Last(run).log, Last(run').log;
            var added := ParticipantAdded(p.conversation, p.thread, p.participant, p.at);
            && log' == log + [added] + [added] + [ParticipantRemoved(p.conversation, p.thread, p.participant, p.at)]
            && p.participant in Aggregate.MembersOf(Aggregate.Replay(Aggregate.Own(log', p.conversation)), p.thread)
            && p.participant !in Participants(log', p.conversation, p.thread)
  {
    var log := Last(run).log;
    var added := ParticipantAdded(p.conversation, p.thread, p.participant, p.at);
    var removed := ParticipantRemoved(p.conversation, p.thread, p.participant, p.at);
    RunKeepsInv(run, |run| - 1);
    Aggregate.InterleavedAddsDiverge(log, p, added, removed);
    run' := TwoAdds(run, p, k, l, added);
    run' := OneRemoval(run', p, m, removed);
  }

  lemma TwoAdds(run: seq<State>, p: Aggregate.ManageParams, k: nat, l: nat, added: Event) returns (run': seq<State>)
    requires IsRun(run) && k != l && k !in Last(run).ready && l !in Last(run).ready && p.participant != ""
    requires Aggregate.AddParticipant(Aggregate.Replay(Aggregate.Own(Last(run).log, p.conversation)), p)
          == Success(Some(added))
    ensures IsRun(run') && Last(run').log == Last(run).log + [added] + [added]
    ensures Last(run').ready.Keys == Last(run).ready.Keys
  {
    var first := OneMoreStep(run, AddParticipant(k, p));
    var second := OneMoreStep(first, AddParticipant(l, p));
    assert Last(second).ready == Last(run).ready[k := [added]][l := [added]];
    var third := OneMoreStep(second, Append(k));
    assert Last(third).log == Last(run).log + [added] && Last(third).ready[l] == [added];
    run' := OneMoreStep(third, Append(l));
  }

  lemma OneRemoval(run: seq<State>, p: Aggregate.ManageParams, m: nat, removed: Event) returns (run': seq<State>)
    requires IsRun(run) && m !in Last(run).ready && p.participant != ""
    requires Aggregate.RemoveParticipant(Aggregate.Replay(Aggregate.Own(Last(run).log, p.conversation)), p)
          == Success(Some(removed))
    ensures IsRun(run') && Last(run').log == Last(run).log + [removed]
  {
    var first := OneMoreStep(run, RemoveParticipant(m, p));
    run' := OneMoreStep(first, Append(m));
  }

  /** Such a state is reached from any acceptable conversation, with anybody not among its participants. */
  lemma InterleavedAddsReached(p: ThreadParams, url: string, participant: ParticipantId, at: Time)
    returns (run: seq<State>)
    requires NewThread(p).Success? && participant != "" && participant !in Members(NewThread(p).value.0)
    ensures IsRun(run)
    ensures participant in Aggregate.MembersOf(Aggregate.Replay(Aggregate.Own(Last(run).log, p.conversation)), p.thread)
    ensures participant !in Participants(Last(run).log, p.conversation, p.thread)
  {
    run := OneMoreStep([INITIAL], StartConversation(0, Some(url), p));
    run := OneMoreStep(run, Append(0));
    HeldAtStart(p, url, Last(run).log);
    run := InterleavedAdds(run, Aggregate.ManageParams(p.conversation, p.thread, participant, at), 1, 2, 3);
  }

  lemma HeldAtStart(p: ThreadParams, url: string, log: seq<Event>)
    requires NewThread(p).Success? && log == [] + Domain.StartConversation(Some(url), p).value
    ensures Started(log, p.conversation, p.thread)
    ensures Aggregate.Held(log, p.conversation, p.thread) == Members(NewThread(p).value.0)
  {
    var c, t, created, started, posted := p.conversation, p.thread, log[0], log[1], log[2];
    assert [] + [created] == [created] && [created] + [started] + [posted] == log;
    Aggregate.OwnSnoc([], created, c);
    Aggregate.OwnSnoc([created], started, c);
    Aggregate.OwnSnoc([created] + [started], posted, c);
    assert Starts(log[1], c, t);
  }
}
