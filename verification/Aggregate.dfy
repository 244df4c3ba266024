/** The event-sourced aggregate behind membership commands, and how the members it holds relate to
    the members the projections show for the same log. */
module Aggregate {
  import opened Collections
  import opened Domain
  import opened ReadModel

  datatype Conversation = Conversation(id: ConversationId, threads: map<ThreadId, seq<ParticipantId>>)

  // A zero Conversation: no id, and a missing thread reads as an empty list.
  const BLANK := Conversation("", map[])

  function MembersOf(a: Conversation, t: ThreadId): seq<ParticipantId> {
    if t in a.threads then a.threads[t] else []
  }

  function Apply(a: Conversation, e: Event): Conversation {
    match e
    case ConversationCreated(c, _, _, _) => a.(id := c)
    case ThreadStarted(_, t, _, _, _, _) => a.(threads := a.threads[t := Members(e)])
    case MessagePosted(_, _, _, _, _, _) => a
    case ParticipantAdded(_, t, p, _) => a.(threads := a.threads[t := MembersOf(a, t) + [p]])
    case ParticipantRemoved(_, t, p, _) =>
      if p in MembersOf(a, t) then a.(threads := a.threads[t := WithoutFirst(MembersOf(a, t), p)]) else a
  }

  function Replay(events: seq<Event>): Conversation {
    if events == [] then BLANK else Apply(Replay(events[..|events| - 1]), events[|events| - 1])
  }

  method RehydrateConversation(records: seq<Entry>) returns (r: Result<Conversation, Error>)
    ensures r == if records == [] then Failure(ConversationNotFound) else Success(Replay(EventsOf(records)))
  {
    if |records| == 0 {
      return Failure(ConversationNotFound);
    }
    var id: ConversationId := "";
    var threads: map<ThreadId, seq<ParticipantId>> := map[];
    for k := 0 to |records|
      invariant Conversation(id, threads) == Replay(EventsOf(records)[..k])
    {
      var e := records[k].event;
      assert EventsOf(records)[..k + 1][..k] == EventsOf(records)[..k];
      ghost var before := Conversation(id, threads);
      match e {
        case ConversationCreated(c, _, _, _) => id := c;
        case ThreadStarted(_, t, _, _, _, _) => threads := threads[t := Members(e)];
        case MessagePosted(_, _, _, _, _, _) =>
        case ParticipantAdded(_, t, p, _) =>
          threads := threads[t := (if t in threads then threads[t] else []) + [p]];
        case ParticipantRemoved(_, t, p, _) =>
          var participants := if t in threads then threads[t] else [];
          var i := 0;
          while i < |participants| && participants[i] != p
            invariant i <= |participants| && p !in participants[..i]
          {
            i := i + 1;
          }
          if i < |participants| {
            FirstOccurrence(participants, p, i);
            threads := threads[t := participants[..i] + participants[i + 1..]];
          }
      }
      assert Conversation(id, threads) == Apply(before, e);
    }
    assert EventsOf(records)[..|records|] == EventsOf(records);
    return Success(Conversation(id, threads));
  }

  lemma FirstOccurrence<T>(s: seq<T>, x: T, i: nat)
    requires i < |s| && s[i] == x && x !in s[..i]
    ensures IndexOf(s, x) == i
  {
  }

  // Membership commands

  datatype ManageParams =
    ManageParams(conversation: ConversationId, thread: ThreadId, participant: ParticipantId, at: Time)

  function Validate(p: ManageParams): Option<Error> {
    if p.participant == "" then Some(ParticipantIdRequired) else None
  }

  /** Success(None) is the no-op for someone who is a member already. */
  function AddParticipant(a: Conversation, p: ManageParams): Result<Option<Event>, Error> {
    if p.thread !in a.threads then Failure(ThreadNotFound)
    else if p.participant in a.threads[p.thread] then Success(None)
    else Success(Some(ParticipantAdded(a.id, p.thread, p.participant, p.at)))
  }

  function RemoveParticipant(a: Conversation, p: ManageParams): Result<Option<Event>, Error> {
    if p.thread !in a.threads then Failure(ThreadNotFound)
    else if p.participant !in a.threads[p.thread] then Success(None)
    else Success(Some(ParticipantRemoved(a.id, p.thread, p.participant, p.at)))
  }

  /** A repeated addition raises nothing, on any aggregate. */
  lemma RepeatedAddition(a: Conversation, p: ManageParams, e: Event)
    requires AddParticipant(a, p) == Success(Some(e))
    ensures AddParticipant(Apply(a, e), p) == Success(None)
  {
  }

  /** A repeated removal raises nothing exactly when there was only one occurrence to remove. */
  lemma RepeatedRemoval(a: Conversation, p: ManageParams, e: Event)
    requires RemoveParticipant(a, p) == Success(Some(e))
    ensures RemoveParticipant(Apply(a, e), p) == Success(None)
       <==> multiset(a.threads[p.thread])[p.participant] <= 1
  {
    var members := a.threads[p.thread];
    WithoutFirstCounts(members, p.participant);
    assert p.participant in WithoutFirst(members, p.participant)
      <==> p.participant in multiset(WithoutFirst(members, p.participant));
  }

  /** Adding someone absent and removing them again restores the aggregate, list order included. */
  lemma AddThenRemoveRestores(a: Conversation, p: ManageParams, added: Event)
    requires AddParticipant(a, p) == Success(Some(added))
    ensures var removed := RemoveParticipant(Apply(a, added), p);
            removed.Success? && removed.value.Some? && Apply(Apply(a, added), removed.value.value) == a
  {
    var members := a.threads[p.thread];
    FirstOccurrence(members + [p.participant], p.participant, |members|);
    assert WithoutFirst(members + [p.participant], p.participant) == members;
    assert Apply(Apply(a, added), RemoveParticipant(Apply(a, added), p).value.value).threads == a.threads;
  }

  // The aggregate of one conversation within a log

  /** The events about c, in order. */
  function Own(log: seq<Event>, c: ConversationId): seq<Event> {
    if log == [] then []
    else
      var e := log[|log| - 1];
      Own(log[..|log| - 1], c) + (if e.conversation == c then [e] else [])
  }

  function HoldingStep(members: seq<ParticipantId>, e: Event, c: ConversationId, t: ThreadId): seq<ParticipantId> {
    if Concerns(e, c, t) && e.ParticipantRemoved? then WithoutFirst(members, e.participant)
    else MembershipStep(members, e, c, t)
  }

  /** Thread t's members as the aggregate keeps them: a removal takes out the first occurrence only. */
  function Held(log: seq<Event>, c: ConversationId, t: ThreadId): seq<ParticipantId> {
    if log == [] then [] else HoldingStep(Held(log[..|log| - 1], c, t), log[|log| - 1], c, t)
  }

  lemma OwnSnoc(log: seq<Event>, e: Event, c: ConversationId)
    ensures Own(log + [e], c) == Own(log, c) + if e.conversation == c then [e] else []
    ensures forall t :: Held(log + [e], c, t) == HoldingStep(Held(log, c, t), e, c, t)
  {
    assert (log + [e])[..|log|] == log;
  }

  lemma ReplaySnoc(events: seq<Event>, e: Event)
    ensures Replay(events + [e]) == Apply(Replay(events), e)
  {
    assert (events + [e])[..|events|] == events;
  }

  lemma {:induction false} HeldBeforeStart(log: seq<Event>, c: ConversationId, t: ThreadId)
    requires WellFormed(log) && !Started(log, c, t)
    ensures Held(log, c, t) == []
  {
    if log != [] {
      var init, e := log[..|log| - 1], log[|log| - 1];
      assert log == init + [e];
      WellFormedSnoc(init, e);
      StartedSnoc(init, e, c, t);
      HeldBeforeStart(init, c, t);
      if Concerns(e, c, t) && !e.ThreadStarted? {
        ChangeTarget(init, e);
      }
    }
  }

  ghost predicate ReplayFits(log: seq<Event>, c: ConversationId, t: ThreadId) {
    var a := Replay(Own(log, c));
    && (t in a.threads <==> Started(log, c, t))
    && MembersOf(a, t) == Held(log, c, t)
    && (Created(log, c) ==> a.id == c)
  }

  /** Replaying c's own events gives c's id and exactly the threads started in c, with their members. */
  lemma {:induction false} ReplayHolds(log: seq<Event>, c: ConversationId, t: ThreadId)
    requires WellFormed(log)
    ensures ReplayFits(log, c, t)
  {
    if log != [] {
      var init, e := log[..|log| - 1], log[|log| - 1];
      assert log == init + [e];
      WellFormedSnoc(init, e);
      ReplayHolds(init, c, t);
      ReplayHoldsStep(init, e, c, t);
    }
  }

  lemma ReplayHoldsStep(log: seq<Event>, e: Event, c: ConversationId, t: ThreadId)
    requires WellFormed(log + [e]) && ReplayFits(log, c, t)
    ensures ReplayFits(log + [e], c, t)
  {
    OwnSnoc(log, e, c);
    StartedSnoc(log, e, c, t);
    CreatedOrOlder(log, e, c);
    if e.conversation == c {
      ReplaySnoc(Own(log, c), e);
      if Concerns(e, c, t) && !e.ThreadStarted? {
        ChangeTarget(log, e);
      }
      ApplyHolds(Replay(Own(log, c)), e, c, t);
    } else {
      assert Own(log, c) + [] == Own(log, c);
    }
  }

  /** What one event of c does to thread t of the aggregate. */
  lemma ApplyHolds(a: Conversation, e: Event, c: ConversationId, t: ThreadId)
    requires e.conversation == c
    requires Concerns(e, c, t) && !e.ThreadStarted? ==> t in a.threads
    ensures t in Apply(a, e).threads <==> t in a.threads || Starts(e, c, t)
    ensures MembersOf(Apply(a, e), t) == HoldingStep(MembersOf(a, t), e, c, t)
    ensures Apply(a, e).id == if e.ConversationCreated? then c else a.id
  {
    AbsentRemoval(MembersOf(a, t), e, c, t);
  }

  lemma CreatedOrOlder(log: seq<Event>, e: Event, c: ConversationId)
    ensures Created(log + [e], c) ==> Created(log, c) || (e.ConversationCreated? && e.conversation == c)
  {
    if i :| 0 <= i < |log + [e]| && (log + [e])[i].ConversationCreated? && (log + [e])[i].conversation == c {
      assert i < |log| ==> log[i].ConversationCreated? && log[i].conversation == c;
    }
  }

  lemma AbsentRemoval(members: seq<ParticipantId>, e: Event, c: ConversationId, t: ThreadId)
    ensures e.ParticipantRemoved? && e.participant !in members ==> HoldingStep(members, e, c, t) == members
  {
  }

  // Aggregate and projections

  /** On every log, interleaved commands included: nobody occurs more often in the projection than in
      the aggregate, so whoever the projection admits is a member in the aggregate. */
  lemma {:induction false} ProjectionWithinAggregate(log: seq<Event>, c: ConversationId, t: ThreadId)
    ensures multiset(Participants(log, c, t)) <= multiset(Held(log, c, t))
  {
    if log != [] {
      var init, e := log[..|log| - 1], log[|log| - 1];
      ProjectionWithinAggregate(init, c, t);
      var shown, held := Participants(init, c, t), Held(init, c, t);
      if Concerns(e, c, t) && e.ParticipantRemoved? {
        WithoutCounts(shown, e.participant);
        WithoutFirstCounts(held, e.participant);
      }
    }
  }

  lemma AdmittedIsHeld(log: seq<Event>, c: ConversationId, t: ThreadId, p: ParticipantId)
    requires p in Participants(log, c, t)
    ensures p in Held(log, c, t)
  {
    ProjectionWithinAggregate(log, c, t);
    assert p in multiset(Participants(log, c, t));
    assert p in multiset(Held(log, c, t));
  }

  /** Each removal from thread t met its participant at most once in the aggregate before it. */
  ghost predicate SingleRemovals(log: seq<Event>, c: ConversationId, t: ThreadId) {
    forall i :: 0 <= i < |log| && Concerns(log[i], c, t) && log[i].ParticipantRemoved? ==>
      multiset(Held(log[..i], c, t))[log[i].participant] <= 1
  }

  ghost predicate Agree(log: seq<Event>, c: ConversationId, t: ThreadId) {
    Participants(log, c, t) == Held(log, c, t)
  }

  /** Aggregate and projection list the same members, in the same order, after every prefix exactly
      when no removal met a participant the aggregate held twice. */
  lemma AgreementCondition(log: seq<Event>, c: ConversationId, t: ThreadId)
    ensures (forall k :: 0 <= k <= |log| ==> Agree(log[..k], c, t)) <==> SingleRemovals(log, c, t)
  {
    if SingleRemovals(log, c, t) {
      forall k | 0 <= k <= |log| ensures Agree(log[..k], c, t) {
        AgreeUpTo(log, c, t, k);
      }
    }
    if forall k :: 0 <= k <= |log| ==> Agree(log[..k], c, t) {
      forall i | 0 <= i < |log| && Concerns(log[i], c, t) && log[i].ParticipantRemoved?
        ensures multiset(Held(log[..i], c, t))[log[i].participant] <= 1
      {
        assert Agree(log[..i], c, t) && Agree(log[..i + 1], c, t);
        assert log[..i + 1][..i] == log[..i];
        RemovalsAgree(Held(log[..i], c, t), log[i].participant);
      }
    }
  }

  lemma {:induction false} AgreeUpTo(log: seq<Event>, c: ConversationId, t: ThreadId, k: nat)
    requires k <= |log| && SingleRemovals(log, c, t)
    ensures Agree(log[..k], c, t)
  {
    if k > 0 {
      AgreeUpTo(log, c, t, k - 1);
      assert log[..k][..k - 1] == log[..k - 1];
      var e := log[k - 1];
      if Concerns(e, c, t) && e.ParticipantRemoved? {
        RemovalsAgree(Held(log[..k - 1], c, t), e.participant);
      }
    }
  }

  /** The membership event at i is what its command decides from the log just before it: the command's
      list and append had no other append between them. */
  ghost predicate DecidedInPlace(log: seq<Event>, i: nat)
    requires i < |log|
  {
    var e := log[i];
    var a := Replay(Own(log[..i], e.conversation));
    && (e.ParticipantAdded? ==>
          AddParticipant(a, ManageParams(e.conversation, e.thread, e.participant, e.at)) == Success(Some(e)))
    && (e.ParticipantRemoved? ==>
          RemoveParticipant(a, ManageParams(e.conversation, e.thread, e.participant, e.at)) == Success(Some(e)))
  }

  ghost predicate Uninterleaved(log: seq<Event>) {
    forall i :: 0 <= i < |log| ==> WellStarted(log[i]) && DecidedInPlace(log, i)
  }

  lemma DecidedBefore(log: seq<Event>, e: Event, i: nat)
    requires i < |log| && DecidedInPlace(log, i)
    ensures DecidedInPlace(log + [e], i)
  {
    assert (log + [e])[..i] == log[..i];
  }

  lemma StaysUninterleaved(log: seq<Event>, e: Event)
    requires Uninterleaved(log) && WellStarted(e) && DecidedInPlace(log + [e], |log|)
    ensures Uninterleaved(log + [e])
  {
    forall i | 0 <= i < |log + [e]|
      ensures WellStarted((log + [e])[i]) && DecidedInPlace(log + [e], i)
    {
      if i < |log| {
        assert WellStarted(log[i]) && DecidedInPlace(log, i);
        DecidedBefore(log, e, i);
      }
    }
  }

  predicate IsMembership(batch: seq<Event>) {
    |batch| == 1 && (batch[0].ParticipantAdded? || batch[0].ParticipantRemoved?)
  }

  /** An event that no membership command raises, and that starts a thread, if at all, without duplicates. */
  predicate Plain(e: Event) {
    WellStarted(e) && !e.ParticipantAdded? && !e.ParticipantRemoved?
  }

  lemma BatchesArePlain(p: ThreadParams, url: Option<string>, r: ReplyParams)
    ensures var started := StartConversation(url, p); started.Success? ==> forall e :: e in started.value ==> Plain(e)
    ensures var added := AddThread(p); added.Success? ==> forall e :: e in added.value ==> Plain(e)
    ensures ValidateReply(r).Success? ==> Plain(ValidateReply(r).value)
  {
    StartedMembersDistinct(p);
  }

  /** So starting conversations, adding threads and replying never interleave anything. */
  lemma {:induction false} PlainStaysUninterleaved(log: seq<Event>, batch: seq<Event>)
    requires Uninterleaved(log) && forall e :: e in batch ==> Plain(e)
    ensures Uninterleaved(log + batch)
    decreases |batch|
  {
    if batch == [] {
      assert log + batch == log;
    } else {
      var init, last := batch[..|batch| - 1], batch[|batch| - 1];
      assert batch == init + [last] && log + batch == log + init + [last];
      PlainStaysUninterleaved(log, init);
      assert last in batch && (log + init + [last])[|log + init|] == last;
      StaysUninterleaved(log + init, last);
    }
  }

  lemma {:induction false} UninterleavedDistinct(log: seq<Event>, c: ConversationId, t: ThreadId, k: nat)
    requires WellFormed(log) && Uninterleaved(log) && k <= |log|
    ensures NoDuplicates(Held(log[..k], c, t))
  {
    if k > 0 {
      UninterleavedDistinct(log, c, t, k - 1);
      assert log[..k][..k - 1] == log[..k - 1];
      var e := log[k - 1];
      assert WellStarted(e) && DecidedInPlace(log, k - 1);
      if Concerns(e, c, t) {
        WellFormedPrefix(log, k - 1);
        ReplayHolds(log[..k - 1], c, t);
        if e.ParticipantRemoved? {
          NoDuplicatesCounts(Held(log[..k - 1], c, t), e.participant);
          RemovalsAgree(Held(log[..k - 1], c, t), e.participant);
          WithoutKeepsDistinct(Held(log[..k - 1], c, t), e.participant);
        }
      }
    }
  }

  lemma {:induction false} WithoutKeepsDistinct<T>(s: seq<T>, x: T)
    requires NoDuplicates(s)
    ensures NoDuplicates(Without(s, x))
    ensures forall y :: y in Without(s, x) ==> y in s
  {
    if s != [] {
      WithoutKeepsDistinct(s[..|s| - 1], x);
      assert s[|s| - 1] !in s[..|s| - 1];
    }
  }

  /** When membership commands do not interleave, the rehydrated aggregate and the projection of every
      prefix hold the same duplicate-free list for every thread. */
  lemma UninterleavedAgrees(log: seq<Event>, c: ConversationId, t: ThreadId, k: nat)
    requires WellFormed(log) && Uninterleaved(log) && k <= |log|
    ensures var a := Replay(Own(log[..k], c));
            && (t in a.threads <==> Started(log[..k], c, t))
            && MembersOf(a, t) == Participants(log[..k], c, t)
            && NoDuplicates(MembersOf(a, t))
  {
    forall i | 0 <= i < |log| && Concerns(log[i], c, t) && log[i].ParticipantRemoved?
      ensures multiset(Held(log[..i], c, t))[log[i].participant] <= 1
    {
      UninterleavedDistinct(log, c, t, i);
      NoDuplicatesCounts(Held(log[..i], c, t), log[i].participant);
    }
    AgreeUpTo(log, c, t, k);
    UninterleavedDistinct(log, c, t, k);
    WellFormedPrefix(log, k);
    ReplayHolds(log[..k], c, t);
  }

  /** On any log: two commands that both listed it before either appended add the same absent person
      twice, and after one removal the aggregate still holds that person while the projection does not. */
  lemma InterleavedAddsDiverge(log: seq<Event>, p: ManageParams, added: Event, removed: Event)
    requires WellFormed(log) && Started(log, p.conversation, p.thread)
    requires p.participant !in Held(log, p.conversation, p.thread)
    requires added == ParticipantAdded(p.conversation, p.thread, p.participant, p.at)
    requires removed == ParticipantRemoved(p.conversation, p.thread, p.participant, p.at)
    ensures AddParticipant(Replay(Own(log, p.conversation)), p) == Success(Some(added))
    ensures RemoveParticipant(Replay(Own(log + [added] + [added], p.conversation)), p) == Success(Some(removed))
    ensures var after := log + [added] + [added] + [removed];
            && WellFormed(after)
            && p.participant in MembersOf(Replay(Own(after, p.conversation)), p.thread)
            && p.participant !in Participants(after, p.conversation, p.thread)
  {
    AggregateOf(log, p.conversation, p.thread);
    AddedTwice(log, p, added);
    RemovedOnce(log, log + [added] + [added], p, removed);
  }

  lemma AddedTwice(log: seq<Event>, p: ManageParams, added: Event)
    requires WellFormed(log) && Started(log, p.conversation, p.thread)
    requires added == ParticipantAdded(p.conversation, p.thread, p.participant, p.at)
    ensures var twice := log + [added] + [added];
            && WellFormed(twice) && Started(twice, p.conversation, p.thread)
            && Held(twice, p.conversation, p.thread)
            == Held(log, p.conversation, p.thread) + [p.participant] + [p.participant]
  {
    OneMoreChange(log, added, p.conversation, p.thread);
    OneMoreChange(log + [added], added, p.conversation, p.thread);
  }

  lemma RemovedOnce(log: seq<Event>, twice: seq<Event>, p: ManageParams, removed: Event)
    requires WellFormed(twice) && Started(twice, p.conversation, p.thread)
    requires Held(twice, p.conversation, p.thread)
          == Held(log, p.conversation, p.thread) + [p.participant] + [p.participant]
    requires removed == ParticipantRemoved(p.conversation, p.thread, p.participant, p.at)
    ensures RemoveParticipant(Replay(Own(twice, p.conversation)), p) == Success(Some(removed))
    ensures WellFormed(twice + [removed])
    ensures p.participant in MembersOf(Replay(Own(twice + [removed], p.conversation)), p.thread)
    ensures p.participant !in Participants(twice + [removed], p.conversation, p.thread)
  {
    AggregateOf(twice, p.conversation, p.thread);
    OneMoreChange(twice, removed, p.conversation, p.thread);
    AggregateOf(twice + [removed], p.conversation, p.thread);
    OneLeft(Held(log, p.conversation, p.thread), p.participant);
  }

  lemma OneLeft(members: seq<ParticipantId>, p: ParticipantId)
    ensures p in WithoutFirst(members + [p] + [p], p)
  {
    WithoutFirstCounts(members + [p] + [p], p);
    assert p in multiset(WithoutFirst(members + [p] + [p], p));
  }

  lemma AggregateOf(log: seq<Event>, c: ConversationId, t: ThreadId)
    requires WellFormed(log) && Started(log, c, t)
    ensures var a := Replay(Own(log, c)); a.id == c && t in a.threads && a.threads[t] == Held(log, c, t)
  {
    StartedIsCreated(log, c, t);
    ReplayHolds(log, c, t);
  }

  lemma OneMoreChange(log: seq<Event>, e: Event, c: ConversationId, t: ThreadId)
    requires WellFormed(log) && Started(log, c, t)
    requires Concerns(e, c, t) && !e.ThreadStarted?
    ensures WellFormed(log + [e]) && Started(log + [e], c, t)
    ensures Held(log + [e], c, t) == HoldingStep(Held(log, c, t), e, c, t)
    ensures Participants(log + [e], c, t) == MembershipStep(Participants(log, c, t), e, c, t)
  {
    assert Admissible(log, e) by {
      var i :| 0 <= i < |log| && Starts(log[i], c, t);
      assert Needs(e, log[i]);
    }
    WellFormedSnoc(log, e);
    StartedSnoc(log, e, c, t);
    OwnSnoc(log, e, c);
    Snoc(log, e, c, t);
  }
}
