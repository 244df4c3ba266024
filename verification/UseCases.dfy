/** The write use cases over the in-memory store and projection: what each call appends, in which order
    it rejects, and that a rejection appends nothing. Ids and the clock are parameters. */
module UseCases {
  import opened Collections
  import opened Domain
  import opened ReadModel
  import opened Outbox
  import opened MemoryEventStore
  import opened MemoryRefinement
  import opened Requests
  import Projections = MemoryProjection
  import Aggregate

  method StartConversation(events: EventStore, url: Option<string>, p: ThreadParams)
    returns (r: Result<Sequence, Error>)
    requires events.Valid()
    modifies events
    ensures events.Valid()
    ensures match Domain.StartConversation(url, p)
            case Failure(error) => r == Failure(error) && events.Log() == old(events.Log())
            case Success(batch) => r == Success(|events.records|) && events.Log() == old(events.Log()) + batch
    ensures Verdict(Rules(old(events.Log()), StartRequest(url, p)), ErrorOf(r))
    ensures r.Success? ==> Filled(StartRequest(url, p))
    ensures r.Success? ==> events.Log() == old(events.Log()) + Raises(StartRequest(url, p))
  {
    StartDecided(events.Log(), url, p);
    var decided := Domain.StartConversation(url, p);
    if decided.Failure? {
      return Failure(decided.error);
    }
    var sequence := events.Append(decided.value);
    return Success(sequence);
  }

  method AddThread(events: EventStore, projection: Projections.Projection, p: ThreadParams)
    returns (r: Result<Sequence, Error>)
    requires events.Valid()
    modifies events
    ensures events.Valid()
    ensures match Domain.AddThread(p)
            case Failure(error) => r == Failure(error) && events.Log() == old(events.Log())
            case Success(batch) =>
              if Projections.Exists(projection.Contents(), p.conversation)
              then r == Success(|events.records|) && events.Log() == old(events.Log()) + batch
              else r == Failure(ConversationNotFound) && events.Log() == old(events.Log())
    ensures forall applied :: WellFormed(applied) && Matches(projection.Contents(), applied) ==>
      Verdict(Rules(applied, ThreadRequest(p)), ErrorOf(r))
    ensures r.Success? ==> Filled(ThreadRequest(p))
    ensures r.Success? ==> events.Log() == old(events.Log()) + Raises(ThreadRequest(p))
  {
    ThreadAdded(events.Log(), p);
    forall applied | WellFormed(applied) && Matches(projection.Contents(), applied)
      ensures Verdict(Rules(applied, ThreadRequest(p)),
        if Domain.AddThread(p).Success? && !Projections.Exists(projection.Contents(), p.conversation)
        then Some(ConversationNotFound) else ErrorOf(Domain.AddThread(p)))
    {
      ThreadAdded(applied, p);
      ThreadsIffStarted(applied, p.conversation);
      MatchingReads(projection.Contents(), applied, p.conversation);
    }
    var decided := Domain.AddThread(p);
    if decided.Failure? {
      return Failure(decided.error);
    }
    if !Projections.Exists(projection.Contents(), p.conversation) {
      return Failure(ConversationNotFound);
    }
    var sequence := events.Append(decided.value);
    return Success(sequence);
  }

  /** The error a reply meets, if any. */
  function ReplyError(s: Projections.State, p: ReplyParams): Option<Error> {
    var reply, view := ValidateReply(p), Projections.Get(s, p.conversation);
    if reply.Failure? then Some(reply.error)
    else if view.Failure? then Some(view.error)
    else AuthorizeReply(view.value, reply.value)
  }

  method ReplyToThread(events: EventStore, projection: Projections.Projection, p: ReplyParams)
    returns (r: Result<Sequence, Error>)
    requires events.Valid()
    modifies events
    ensures events.Valid()
    ensures r.Failure? ==> events.Log() == old(events.Log())
    ensures r.Success? ==> r.value == |events.records| && ValidateReply(p).Success?
    ensures r.Success? ==> events.Log() == old(events.Log()) + [ValidateReply(p).value]
    ensures ValidateReply(p).Failure? ==> r == Failure(ValidateReply(p).error)
    ensures ValidateReply(p).Success? ==>
      var view := Projections.Get(projection.Contents(), p.conversation);
      && (view.Failure? ==> r == Failure(ConversationNotFound))
      && (view.Success? ==>
            match AuthorizeReply(view.value, ValidateReply(p).value)
            case Some(error) => r == Failure(error)
            case None => r.Success?)
    ensures forall applied :: WellFormed(applied) && Matches(projection.Contents(), applied) ==>
      Verdict(Rules(applied, ReplyRequest(p)), ErrorOf(r))
    ensures r.Success? ==> Filled(ReplyRequest(p))
    ensures r.Success? ==> events.Log() == old(events.Log()) + Raises(ReplyRequest(p))
  {
    forall applied | WellFormed(applied) && Matches(projection.Contents(), applied)
      ensures Verdict(Rules(applied, ReplyRequest(p)), ReplyError(projection.Contents(), p))
    {
      ReplyDecided(applied, p);
      MatchingReads(projection.Contents(), applied, p.conversation);
    }
    var reply := ValidateReply(p);
    if reply.Failure? {
      return Failure(reply.error);
    }
    var view := Projections.Get(projection.Contents(), p.conversation);
    if view.Failure? {
      return Failure(view.error);
    }
    var refused := AuthorizeReply(view.value, reply.value);
    if refused.Some? {
      return Failure(refused.value);
    }
    var sequence := events.Append([reply.value]);
    return Success(sequence);
  }

  /** What a membership command makes of a log; Success(None) is the no-op. */
  function Managed(log: seq<Event>, add: bool, p: Aggregate.ManageParams): Result<Option<Event>, Error> {
    MembershipDecision(Aggregate.Own(log, p.conversation), add, p)
  }

  /** The result is None for a command that changed nothing. */
  method Manage(events: EventStore, add: bool, p: Aggregate.ManageParams)
    returns (r: Result<Option<Sequence>, Error>)
    requires events.Valid()
    modifies events
    ensures events.Valid()
    ensures match Managed(old(events.Log()), add, p)
            case Failure(error) => r == Failure(error) && events.Log() == old(events.Log())
            case Success(None) => r == Success(None) && events.Log() == old(events.Log())
            case Success(Some(e)) => r == Success(Some(|events.records|)) && events.Log() == old(events.Log()) + [e]
    ensures WellFormed(old(events.Log())) ==>
      var request := MembershipRequest(add, p);
      && Verdict(Rules(old(events.Log()), request), ErrorOf(r))
      && (r.Success? ==> events.Log() == old(events.Log())
                         + if Effective(old(events.Log()), request) then Raises(request) else [])
  {
    if WellFormed(events.Log()) {
      MembershipDecided(events.Log(), add, p);
    }
    var invalid := Aggregate.Validate(p);
    if invalid.Some? {
      return Failure(invalid.value);
    }
    var records := events.ListByConversation(p.conversation);
    ListingIsOwn(events.Log(), p.conversation);
    var conversation := Aggregate.RehydrateConversation(records);
    if conversation.Failure? {
      return Failure(conversation.error);
    }
    var decided := if add then Aggregate.AddParticipant(conversation.value, p)
                   else Aggregate.RemoveParticipant(conversation.value, p);
    if decided.Failure? {
      return Failure(decided.error);
    }
    if decided.value.None? {
      return Success(None);
    }
    var sequence := events.Append([decided.value.value]);
    return Success(Some(sequence));
  }

  // Reading

  /** Without `after` the checkpoint is not looked at. */
  method GetConversation(projection: Projections.Projection, c: ConversationId, after: Option<int>)
    returns (r: Result<ConversationView, Error>)
    ensures r == Domain.GetConversation(after, projection.checkpoint, Projections.Get(projection.Contents(), c))
    ensures r == Failure(ProjectionNotCaughtUp) <==> after.Some? && projection.checkpoint < after.value
    ensures r != Failure(ProjectionNotCaughtUp) ==> r == Projections.Get(projection.Contents(), c)
  {
    if after.Some? {
      if projection.checkpoint < after.value {
        return Failure(ProjectionNotCaughtUp);
      }
    }
    r := Projections.Get(projection.Contents(), c);
  }

  /** The records of one conversation in order; not found exactly when there are none. */
  method ListConversationEvents(events: EventStore, c: ConversationId) returns (r: Result<seq<Entry>, Error>)
    requires events.Valid()
    ensures r.Failure? ==> r.error == ConversationNotFound
    ensures r.Failure? <==> forall x :: x in events.records ==> x.event.conversation != c
    ensures r.Success? ==>
      && StrictlySortedBy(r.value, EntrySequence())
      && forall x :: x in r.value <==> x in events.records && x.event.conversation == c
  {
    var records := events.ListByConversation(c);
    AboutFacts(events.records, c);
    if |records| == 0 {
      return Failure(ConversationNotFound);
    }
    assert records[0] in records;
    return Success(records);
  }

  // Membership commands that run alone

  /** The log after a membership command that nothing comes between: its event, if any, appended. */
  function AfterManage(log: seq<Event>, add: bool, p: Aggregate.ManageParams): seq<Event> {
    match Managed(log, add, p)
    case Success(Some(e)) => log + [e]
    case _ => log
  }

  lemma ManagedFacts(log: seq<Event>, add: bool, p: Aggregate.ManageParams)
    requires WellFormed(log) && Managed(log, add, p).Success?
    ensures var a := Aggregate.Replay(Aggregate.Own(log, p.conversation));
            && Started(log, p.conversation, p.thread) && a.id == p.conversation
            && p.thread in a.threads && a.threads[p.thread] == Aggregate.Held(log, p.conversation, p.thread)
  {
    Aggregate.ReplayHolds(log, p.conversation, p.thread);
    Aggregate.AggregateOf(log, p.conversation, p.thread);
  }

  /** The event a command decides names the thread it was asked about. */
  lemma ManagedEvent(log: seq<Event>, add: bool, p: Aggregate.ManageParams)
    requires WellFormed(log) && Managed(log, add, p).Success? && Managed(log, add, p).value.Some?
    ensures var e := Managed(log, add, p).value.value;
            e == if add then ParticipantAdded(p.conversation, p.thread, p.participant, p.at)
                 else ParticipantRemoved(p.conversation, p.thread, p.participant, p.at)
  {
    ManagedFacts(log, add, p);
  }

  lemma DecidedNow(log: seq<Event>, add: bool, p: Aggregate.ManageParams, e: Event)
    requires WellFormed(log) && Managed(log, add, p) == Success(Some(e))
    ensures Aggregate.DecidedInPlace(log + [e], |log|)
  {
    ManagedEvent(log, add, p);
    assert (log + [e])[..|log|] == log;
  }

  /** Such a command keeps the log well formed and free of interleavings, so every thread's members stay
      distinct and the same in the aggregate and the projection. */
  lemma ManageKeepsUninterleaved(log: seq<Event>, add: bool, p: Aggregate.ManageParams)
    requires WellFormed(log) && Aggregate.Uninterleaved(log)
    ensures WellFormed(AfterManage(log, add, p)) && Aggregate.Uninterleaved(AfterManage(log, add, p))
  {
    var decided := Managed(log, add, p);
    if decided.Success? && decided.value.Some? {
      var e := decided.value.value;
      ManagedEvent(log, add, p);
      ManagedFacts(log, add, p);
      Aggregate.OneMoreChange(log, e, p.conversation, p.thread);
      DecidedNow(log, add, p, e);
      Aggregate.StaysUninterleaved(log, e);
    }
  }

  /** The aggregate the same command meets after its event. */
  lemma AfterEvent(log: seq<Event>, add: bool, p: Aggregate.ManageParams, e: Event)
    requires WellFormed(log) && Managed(log, add, p) == Success(Some(e))
    ensures var a := Aggregate.Replay(Aggregate.Own(log, p.conversation));
            Managed(log + [e], add, p)
            == if add then Aggregate.AddParticipant(Aggregate.Apply(a, e), p)
               else Aggregate.RemoveParticipant(Aggregate.Apply(a, e), p)
  {
    ManagedEvent(log, add, p);
    AggregateAfter(log, e, p);
  }

  /** The same addition twice appends once, on every log. */
  lemma RepeatedAddition(log: seq<Event>, p: Aggregate.ManageParams)
    requires WellFormed(log)
    ensures AfterManage(AfterManage(log, true, p), true, p) == AfterManage(log, true, p)
  {
    var decided := Managed(log, true, p);
    if decided.Success? && decided.value.Some? {
      var e := decided.value.value;
      AfterEvent(log, true, p, e);
      Aggregate.RepeatedAddition(Aggregate.Replay(Aggregate.Own(log, p.conversation)), p, e);
    }
  }

  /** The same removal twice appends once exactly when it is refused or the aggregate held the
      participant at most once. */
  lemma RepeatedRemoval(log: seq<Event>, p: Aggregate.ManageParams)
    requires WellFormed(log)
    ensures AfterManage(AfterManage(log, false, p), false, p) == AfterManage(log, false, p)
       <==> Managed(log, false, p).Failure?
            || multiset(Aggregate.Held(log, p.conversation, p.thread))[p.participant] <= 1
  {
    var decided := Managed(log, false, p);
    if decided.Success? {
      HeldCount(log, p);
      if decided.value.Some? {
        AfterEvent(log, false, p, decided.value.value);
        Aggregate.RepeatedRemoval(Aggregate.Replay(Aggregate.Own(log, p.conversation)), p, decided.value.value);
      }
    }
  }

  /** A removal that is not refused has something to do exactly when the aggregate holds the participant. */
  lemma HeldCount(log: seq<Event>, p: Aggregate.ManageParams)
    requires WellFormed(log) && Managed(log, false, p).Success?
    ensures var a := Aggregate.Replay(Aggregate.Own(log, p.conversation));
            p.thread in a.threads && a.threads[p.thread] == Aggregate.Held(log, p.conversation, p.thread)
    ensures Managed(log, false, p).value.None?
       <==> multiset(Aggregate.Held(log, p.conversation, p.thread))[p.participant] == 0
  {
    ManagedFacts(log, false, p);
    var members := Aggregate.Held(log, p.conversation, p.thread);
    assert p.participant in members <==> p.participant in multiset(members);
  }

  lemma DistinctMembers(log: seq<Event>, p: Aggregate.ManageParams)
    requires WellFormed(log) && Aggregate.Uninterleaved(log)
    ensures NoDuplicates(Aggregate.Held(log, p.conversation, p.thread))
  {
    Aggregate.UninterleavedDistinct(log, p.conversation, p.thread, |log|);
    assert log[..|log|] == log;
  }

  lemma AggregateAfter(log: seq<Event>, e: Event, p: Aggregate.ManageParams)
    requires e.conversation == p.conversation
    ensures Aggregate.Replay(Aggregate.Own(log + [e], p.conversation))
         == Aggregate.Apply(Aggregate.Replay(Aggregate.Own(log, p.conversation)), e)
    ensures Aggregate.Own(log + [e], p.conversation) != []
  {
    Aggregate.OwnSnoc(log, e, p.conversation);
    Aggregate.ReplaySnoc(Aggregate.Own(log, p.conversation), e);
  }

  /** The removal finds the member just added and leaves the aggregate as it was before both. */
  lemma RemovalUndoesAdd(log: seq<Event>, p: Aggregate.ManageParams, added: Event)
    requires WellFormed(log) && Managed(log, true, p) == Success(Some(added))
    ensures var removal := Managed(log + [added], false, p);
            && removal.Success? && removal.value.Some?
            && Aggregate.Replay(Aggregate.Own(log + [added] + [removal.value.value], p.conversation))
            == Aggregate.Replay(Aggregate.Own(log, p.conversation))
  {
    ManagedEvent(log, true, p);
    Aggregate.AddThenRemoveRestores(Aggregate.Replay(Aggregate.Own(log, p.conversation)), p, added);
    AggregateAfter(log, added, p);
    var removed := Managed(log + [added], false, p).value.value;
    ManagedFacts(log, true, p);
    assert removed.conversation == p.conversation;
    AggregateAfter(log + [added], removed, p);
  }

  /** Adding somebody absent and removing them again restores the member list of every thread of every
      conversation, in the projection and in the aggregate, on every log. */
  lemma AddThenRemove(log: seq<Event>, p: Aggregate.ManageParams, c: ConversationId, t: ThreadId)
    requires WellFormed(log) && Managed(log, true, p).Success? && Managed(log, true, p).value.Some?
    ensures var restored := AfterManage(AfterManage(log, true, p), false, p);
            && Participants(restored, c, t) == Participants(log, c, t)
            && Aggregate.Held(restored, c, t) == Aggregate.Held(log, c, t)
  {
    var added := Managed(log, true, p).value.value;
    RemovalUndoesAdd(log, p, added);
    ManagedEvent(log, true, p);
    ManagedFacts(log, true, p);
    var removed := Managed(log + [added], false, p).value.value;
    AddedIsWellFormed(log, p, added);
    ManagedEvent(log + [added], false, p);
    ListsRestored(log, p, added, removed, c, t);
  }

  lemma ListsRestored(log: seq<Event>, p: Aggregate.ManageParams, added: Event, removed: Event,
                      c: ConversationId, t: ThreadId)
    requires p.participant !in Aggregate.Held(log, p.conversation, p.thread)
    requires added == ParticipantAdded(p.conversation, p.thread, p.participant, p.at)
    requires removed == ParticipantRemoved(p.conversation, p.thread, p.participant, p.at)
    ensures Participants(log + [added] + [removed], c, t) == Participants(log, c, t)
    ensures Aggregate.Held(log + [added] + [removed], c, t) == Aggregate.Held(log, c, t)
  {
    ListRestored(log, p);
    ShownRestored(log, p, added, removed, c, t);
    HeldRestored(log, p, added, removed, c, t);
  }

  lemma ShownRestored(log: seq<Event>, p: Aggregate.ManageParams, added: Event, removed: Event,
                      c: ConversationId, t: ThreadId)
    requires added == ParticipantAdded(p.conversation, p.thread, p.participant, p.at)
    requires removed == ParticipantRemoved(p.conversation, p.thread, p.participant, p.at)
    requires var shown := Participants(log, p.conversation, p.thread);
             Without(shown + [p.participant], p.participant) == shown
    ensures Participants(log + [added] + [removed], c, t) == Participants(log, c, t)
  {
    var mid := log + [added];
    OneMember(log, added, c, t);
    OneMember(mid, removed, c, t);
  }

  lemma OneMember(log: seq<Event>, e: Event, c: ConversationId, t: ThreadId)
    ensures Participants(log + [e], c, t) == MembershipStep(Participants(log, c, t), e, c, t)
  {
    Snoc(log, e, c, t);
  }

  lemma HeldRestored(log: seq<Event>, p: Aggregate.ManageParams, added: Event, removed: Event,
                     c: ConversationId, t: ThreadId)
    requires added == ParticipantAdded(p.conversation, p.thread, p.participant, p.at)
    requires removed == ParticipantRemoved(p.conversation, p.thread, p.participant, p.at)
    requires var held := Aggregate.Held(log, p.conversation, p.thread);
             WithoutFirst(held + [p.participant], p.participant) == held
    ensures Aggregate.Held(log + [added] + [removed], c, t) == Aggregate.Held(log, c, t)
  {
    Aggregate.OwnSnoc(log, added, c);
    Aggregate.OwnSnoc(log + [added], removed, c);
  }

  lemma AddedIsWellFormed(log: seq<Event>, p: Aggregate.ManageParams, added: Event)
    requires WellFormed(log) && Managed(log, true, p) == Success(Some(added))
    ensures WellFormed(log + [added])
  {
    ManagedEvent(log, true, p);
    ManagedFacts(log, true, p);
    Aggregate.OneMoreChange(log, added, p.conversation, p.thread);
  }

  /** Whoever the aggregate lacks the projection lacks too, so both removals find only the new entry. */
  lemma ListRestored(log: seq<Event>, p: Aggregate.ManageParams)
    requires p.participant !in Aggregate.Held(log, p.conversation, p.thread)
    ensures var shown := Participants(log, p.conversation, p.thread);
            var held := Aggregate.Held(log, p.conversation, p.thread);
            && Without(shown + [p.participant], p.participant) == shown
            && WithoutFirst(held + [p.participant], p.participant) == held
  {
    var shown, held := Participants(log, p.conversation, p.thread), Aggregate.Held(log, p.conversation, p.thread);
    if p.participant in shown {
      Aggregate.AdmittedIsHeld(log, p.conversation, p.thread, p.participant);
    }
    WithoutSnoc(shown, p.participant, p.participant);
    Aggregate.FirstOccurrence(held + [p.participant], p.participant, |held|);
  }
}
