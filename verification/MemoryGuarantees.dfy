/** What every run over the in-memory adapters keeps: the outbox holds exactly the unapplied events
    between drains, and a reader never sees half a batch. */
module MemoryGuarantees {
  import opened Collections
  import opened Domain
  import opened ReadModel
  import opened Outbox
  import opened MemoryProtocol
  import opened History
  import Projections = MemoryProjection
  import Refinement = MemoryRefinement
  import Aggregate

  // The invariant

  predicate NewIdsUsed(events: seq<Event>, used: set<string>) {
    forall i :: 0 <= i < |events| ==>
      && (events[i].ConversationCreated? ==> events[i].conversation in used)
      && (events[i].ThreadStarted? ==> events[i].thread in used)
  }

  predicate NoClash(a: seq<Event>, b: seq<Event>) {
    forall i, j :: 0 <= i < |a| && 0 <= j < |b| ==> !Clash(a[i], b[j])
  }

  ghost predicate FitsAt(log: seq<Event>, batch: seq<Event>, i: nat)
    requires i < |batch|
  {
    && (batch[i].ConversationCreated?
        || (exists m :: 0 <= m < |log| && Needs(batch[i], log[m]))
        || (exists j :: 0 <= j < i && Needs(batch[i], batch[j])))
    && (forall j :: 0 <= j < i ==> !Clash(batch[j], batch[i]))
  }

  /** The batch may be appended to the log as it stands. */
  ghost predicate Fits(log: seq<Event>, batch: seq<Event>) {
    && NoClash(log, batch)
    && (forall i :: 0 <= i < |batch| ==> FitsAt(log, batch, i))
  }

  ghost predicate ReadyOk(s: State, k: nat)
    requires k in s.ready
  {
    && WholeBatch(s.ready[k]) && Fits(s.log, s.ready[k]) && NewIdsUsed(s.ready[k], s.used)
  }

  ghost predicate WriteSide(s: State) {
    && WellFormed(s.log) && NewIdsUsed(s.log, s.used)
    && (forall k :: k in s.ready ==> ReadyOk(s, k))
    && (forall k, l :: k in s.ready && l in s.ready && k != l ==> NoClash(s.ready[k], s.ready[l]))
  }

  ghost predicate BoundariesOk(s: State) {
    && |s.log| in s.boundaries
    && (forall b :: b in s.boundaries ==> b <= |s.log| && WholeBatch(s.log[..b]))
  }

  /** The outbox holds the events from `from` on, and nothing else but `also`. */
  ghost predicate Holds(s: State, from: Sequence, also: set<Sequence>) {
    && (forall n :: n in s.pending <==> from < n <= |s.log| || n in also)
    && (forall n :: n in s.pending ==> 1 <= n <= |s.log| && s.pending[n] == s.log[n - 1])
  }

  ghost predicate RestOk(rest: seq<Entry>, checkpoint: Sequence) {
    && (forall i :: 0 <= i < |rest| ==> 1 <= rest[i].sequence <= checkpoint)
    && (forall i, j :: 0 <= i < j < |rest| ==> rest[i].sequence < rest[j].sequence)
  }

  /** Where the relay is, and what the outbox holds meanwhile. */
  ghost predicate RelayOk(s: State)
    requires s.projection.checkpoint <= s.listed <= |s.log|
  {
    var checkpoint := s.projection.checkpoint;
    match s.relay
    case Idle => checkpoint == s.listed && Holds(s, checkpoint, {})
    case Listed(pending) =>
      pending == EntriesFrom(checkpoint, s.log[checkpoint..s.listed]) && Holds(s, checkpoint, {})
    case Planned(run) =>
      run != [] && run == EntriesFrom(checkpoint, s.log[checkpoint..s.listed]) && Holds(s, checkpoint, {})
    case Marking(rest) =>
      checkpoint == s.listed && RestOk(rest, checkpoint) && Holds(s, checkpoint, SequencesOf(rest))
  }

  ghost predicate ReadSide(s: State) {
    && s.projection.checkpoint in s.boundaries && s.listed in s.boundaries
    && s.projection.checkpoint <= s.listed <= |s.log|
    && Refinement.Matches(s.projection, s.log[..s.projection.checkpoint])
    && RelayOk(s)
  }

  ghost predicate Inv(s: State) {
    WriteSide(s) && BoundariesOk(s) && ReadSide(s)
  }

  // Appending

  lemma {:induction false} FitsAppends(log: seq<Event>, batch: seq<Event>)
    requires WellFormed(log) && Fits(log, batch)
    ensures WellFormed(log + batch)
    decreases |batch|
  {
    if batch == [] {
      assert log + batch == log;
    } else {
      var init, last := batch[..|batch| - 1], batch[|batch| - 1];
      forall i | 0 <= i < |init| ensures FitsAt(log, init, i) {
        assert FitsAt(log, batch, i);
      }
      FitsAppends(log, init);
      LastFits(log, batch);
      WellFormedSnoc(log + init, last);
      assert log + init + [last] == log + batch;
    }
  }

  lemma LastFits(log: seq<Event>, batch: seq<Event>)
    requires Fits(log, batch) && batch != []
    ensures Admissible(log + batch[..|batch| - 1], batch[|batch| - 1])
  {
    var n := |batch| - 1;
    var before := log + batch[..n];
    assert FitsAt(log, batch, n);
    if m :| 0 <= m < |log| && Needs(batch[n], log[m]) {
      assert Needs(batch[n], before[m]);
    } else if j :| 0 <= j < n && Needs(batch[n], batch[j]) {
      assert Needs(batch[n], before[|log| + j]);
    }
    forall j | 0 <= j < |before| ensures !Clash(before[j], batch[n]) {
      if j < |log| {
        assert !Clash(log[j], batch[n]);
      } else {
        assert !Clash(batch[j - |log|], batch[n]);
      }
    }
  }

  lemma StillFits(log: seq<Event>, added: seq<Event>, batch: seq<Event>)
    requires Fits(log, batch) && NoClash(added, batch)
    ensures Fits(log + added, batch)
  {
    forall i | 0 <= i < |batch| ensures FitsAt(log + added, batch, i) {
      assert FitsAt(log, batch, i);
      if m :| 0 <= m < |log| && Needs(batch[i], log[m]) {
        assert Needs(batch[i], (log + added)[m]);
      }
    }
    forall i, j | 0 <= i < |log + added| && 0 <= j < |batch| ensures !Clash((log + added)[i], batch[j]) {
      if i < |log| {
        assert !Clash(log[i], batch[j]);
      } else {
        assert !Clash(added[i - |log|], batch[j]);
      }
    }
  }

  lemma WholeAppend(a: seq<Event>, b: seq<Event>)
    requires WholeBatch(a) && WholeBatch(b)
    ensures WholeBatch(a + b)
  {
    forall i | 0 <= i < |a + b| ensures WholeAt(a + b, i) {
      if i < |a| {
        assert WholeAt(a, i);
        assert i + 1 < |a| ==> (a + b)[i + 1] == a[i + 1];
      } else {
        assert WholeAt(b, i - |a|);
        assert i + 1 < |a + b| ==> (a + b)[i + 1] == b[i - |a| + 1];
      }
    }
  }

  lemma AppendWriteSide(s: State, k: nat)
    requires Inv(s) && k in s.ready
    ensures WriteSide(After(s, Append(k)))
  {
    var s', batch := After(s, Append(k)), s.ready[k];
    assert ReadyOk(s, k);
    FitsAppends(s.log, batch);
    forall l | l in s'.ready ensures ReadyOk(s', l) {
      assert ReadyOk(s, l) && NoClash(batch, s.ready[l]);
      StillFits(s.log, batch, s.ready[l]);
    }
    forall i, j | i in s'.ready && j in s'.ready && i != j ensures NoClash(s'.ready[i], s'.ready[j]) {
      assert NoClash(s.ready[i], s.ready[j]);
    }
    IdsAppend(s.log, batch, s.used);
  }

  lemma IdsAppend(log: seq<Event>, batch: seq<Event>, used: set<string>)
    requires NewIdsUsed(log, used) && NewIdsUsed(batch, used)
    ensures NewIdsUsed(log + batch, used)
  {
  }

  lemma AppendBoundaries(s: State, k: nat)
    requires Inv(s) && k in s.ready
    ensures BoundariesOk(After(s, Append(k)))
  {
    var s', batch := After(s, Append(k)), s.ready[k];
    assert ReadyOk(s, k);
    assert s.log[..|s.log|] == s.log;
    WholeAppend(s.log, batch);
    forall b | b in s'.boundaries ensures b <= |s'.log| && WholeBatch(s'.log[..b]) {
      if b in s.boundaries {
        assert s'.log[..b] == s.log[..b];
      } else {
        assert s'.log[..b] == s'.log;
      }
    }
  }

  lemma AppendReadSide(s: State, k: nat)
    requires Inv(s) && k in s.ready
    ensures ReadSide(After(s, Append(k)))
  {
    var s', checkpoint := After(s, Append(k)), s.projection.checkpoint;
    assert s'.log[..checkpoint] == s.log[..checkpoint];
    assert s'.log[checkpoint..s.listed] == s.log[checkpoint..s.listed];
    match s.relay {
      case Marking(rest) => MoreHeld(s, s', k, SequencesOf(rest));
      case _ => MoreHeld(s, s', k, {});
    }
  }

  lemma MoreHeld(s: State, s': State, k: nat, also: set<Sequence>)
    requires k in s.ready && s' == After(s, Append(k)) && s.projection.checkpoint <= |s.log|
    requires Holds(s, s.projection.checkpoint, also)
    ensures Holds(s', s.projection.checkpoint, also)
  {
    forall n | n in s'.pending ensures 1 <= n <= |s'.log| && s'.pending[n] == s'.log[n - 1] {
      if n <= |s.log| {
        assert n in s.pending;
      }
    }
  }

  // The relay

  lemma ListStep(s: State)
    requires Inv(s) && s.relay.Idle?
    ensures Inv(After(s, RelayList))
  {
    var s', checkpoint := After(s, RelayList), s.projection.checkpoint;
    WholeListing(s.pending, s.log, checkpoint, |s.log|);
    assert s.log[checkpoint..|s.log|] == s.log[checkpoint..s'.listed];
    SameWriteSide(s, s');
    assert checkpoint == |s.log| ==> s'.relay.pending == EntriesFrom(checkpoint, s.log[checkpoint..s'.listed]);
    assert Holds(s', checkpoint, {});
  }

  lemma SameWriteSide(s: State, s': State)
    requires WriteSide(s) && BoundariesOk(s)
    requires s'.log == s.log && s'.ready == s.ready && s'.used == s.used && s'.boundaries == s.boundaries
    ensures WriteSide(s') && BoundariesOk(s')
  {
    forall k | k in s'.ready ensures ReadyOk(s', k) {
      assert ReadyOk(s, k);
    }
  }

  lemma PlanStep(s: State)
    requires Inv(s) && s.relay.Listed?
    ensures Inv(After(s, RelayPlan))
  {
    var checkpoint := s.projection.checkpoint;
    TakeAll(checkpoint, s.log[checkpoint..s.listed]);
    SameWriteSide(s, After(s, RelayPlan));
    assert Holds(After(s, RelayPlan), checkpoint, {});
  }

  lemma ApplyStep(s: State)
    requires Inv(s) && s.relay.Planned?
    ensures Inv(After(s, RelayApply)) && After(s, RelayApply).projection.checkpoint == s.listed
  {
    var s', checkpoint, run := After(s, RelayApply), s.projection.checkpoint, s.relay.run;
    var before, added := s.log[..checkpoint], s.log[checkpoint..s.listed];
    assert before + added == s.log[..s.listed];
    WellFormedPrefix(s.log, s.listed);
    Refinement.RunFollows(s.projection, before, added);
    SameWriteSide(s, s');
    AppliedHolds(s, s', run);
  }

  /** What came after the checkpoint is now the run or after the listing. */
  lemma AppliedHolds(s: State, s': State, run: seq<Entry>)
    requires s.projection.checkpoint <= s.listed <= |s.log| && Holds(s, s.projection.checkpoint, {})
    requires run == EntriesFrom(s.projection.checkpoint, s.log[s.projection.checkpoint..s.listed])
    requires s'.pending == s.pending && s'.log == s.log
    ensures Holds(s', s.listed, SequencesOf(run))
  {
    var checkpoint := s.projection.checkpoint;
    forall n ensures n in s'.pending <==> s.listed < n <= |s.log| || n in SequencesOf(run) {
      if checkpoint < n <= s.listed {
        assert run[n - checkpoint - 1].sequence == n;
      }
    }
  }

  lemma MarkStep(s: State)
    requires Inv(s) && s.relay.Marking?
    ensures Inv(After(s, RelayMark))
  {
    var s', rest := After(s, RelayMark), s.relay.rest;
    SameWriteSide(s, s');
    if rest == [] {
      assert Holds(s', s.listed, {});
    } else {
      var others := rest[1..];
      assert RestOk(others, s.listed);
      RestSequences(rest, s.listed);
      assert Holds(s', s.listed, SequencesOf(others));
    }
  }

  lemma RestSequences(rest: seq<Entry>, checkpoint: Sequence)
    requires rest != [] && RestOk(rest, checkpoint)
    ensures SequencesOf(rest) == {rest[0].sequence} + SequencesOf(rest[1..])
    ensures rest[0].sequence !in SequencesOf(rest[1..]) && rest[0].sequence <= checkpoint
  {
    assert rest == [rest[0]] + rest[1..];
    forall i | 0 < i < |rest| ensures rest[i].sequence in SequencesOf(rest[1..]) {
      assert rest[1..][i - 1] == rest[i];
    }
  }

  // Decisions

  lemma FreshBatch(s: State, step: Step)
    requires IsDecision(step) && Raised(s, step).Some?
    ensures NewIdsUsed(Raised(s, step).value, Drawn(step)) && WholeBatch(Raised(s, step).value)
  {
  }

  /** A batch whose new ids were never used clashes with nothing that came before. */
  lemma FreshNoClash(a: seq<Event>, used: set<string>, b: seq<Event>, drawn: set<string>)
    requires NewIdsUsed(a, used) && NewIdsUsed(b, drawn) && drawn !! used
    ensures NoClash(a, b) && NoClash(b, a)
  {
  }

  /** What the projection showed was in the log already. */
  lemma ShownIsLogged(s: State, c: ConversationId)
    requires Inv(s) && Projections.Exists(s.projection, c)
    ensures Created(s.log, c) && Projections.Get(s.projection, c) == Success(View(s.log[..s.projection.checkpoint], c))
  {
    var applied := s.log[..s.projection.checkpoint];
    WellFormedPrefix(s.log, s.projection.checkpoint);
    Refinement.MatchingReads(s.projection, applied, c);
    Refinement.StartedInView(applied, c);
    var m :| 0 <= m < |applied| && applied[m].ConversationCreated? && applied[m].conversation == c;
    assert s.log[m] == applied[m];
  }

  lemma ReplyIsLogged(s: State, reply: Event)
    requires Inv(s) && reply.MessagePosted? && Projections.Get(s.projection, reply.conversation).Success?
    requires AuthorizeReply(Projections.Get(s.projection, reply.conversation).value, reply) == None
    ensures Started(s.log, reply.conversation, reply.thread)
  {
    var applied := s.log[..s.projection.checkpoint];
    ShownIsLogged(s, reply.conversation);
    WellFormedPrefix(s.log, s.projection.checkpoint);
    ReplyAuthorised(applied, reply);
    var m :| 0 <= m < |applied| && Starts(applied[m], reply.conversation, reply.thread);
    assert Starts(s.log[m], reply.conversation, reply.thread);
  }

  lemma DecisionFits(s: State, step: Step)
    requires Inv(s) && IsDecision(step) && Enabled(s, step)
    ensures Fits(s.log, Raised(s, step).value)
  {
    var batch := Raised(s, step).value;
    FreshBatch(s, step);
    FreshNoClash(s.log, s.used, batch, Drawn(step));
    match step {
      case StartConversation(_, url, p) =>
        assert Needs(batch[1], batch[0]) && Needs(batch[2], batch[1]);
      case AddThread(_, p) =>
        ShownIsLogged(s, p.conversation);
        assert Needs(batch[1], batch[0]);
        var m :| 0 <= m < |s.log| && s.log[m].ConversationCreated? && s.log[m].conversation == p.conversation;
        assert Needs(batch[0], s.log[m]);
      case Reply(_, p) =>
        ReplyIsLogged(s, batch[0]);
        var m :| 0 <= m < |s.log| && Starts(s.log[m], p.conversation, p.thread);
        assert Needs(batch[0], s.log[m]);
      case AddParticipant(_, p) => MembershipFits(s, p, batch[0]);
      case RemoveParticipant(_, p) => MembershipFits(s, p, batch[0]);
    }
  }

  lemma MembershipFits(s: State, p: Aggregate.ManageParams, e: Event)
    requires Inv(s) && (e.ParticipantAdded? || e.ParticipantRemoved?)
    requires var a := Aggregate.Replay(Aggregate.Own(s.log, p.conversation));
             p.thread in a.threads && e.conversation == a.id && e.thread == p.thread
    ensures Fits(s.log, [e])
  {
    Aggregate.ReplayHolds(s.log, p.conversation, p.thread);
    StartedIsCreated(s.log, p.conversation, p.thread);
    var m :| 0 <= m < |s.log| && Starts(s.log[m], p.conversation, p.thread);
    assert Needs(e, s.log[m]);
    assert FitsAt(s.log, [e], 0);
  }

  lemma DecisionStep(s: State, step: Step)
    requires Inv(s) && IsDecision(step) && Enabled(s, step)
    ensures Inv(After(s, step))
  {
    var s', batch := After(s, step), Raised(s, step).value;
    FreshBatch(s, step);
    DecisionFits(s, step);
    forall k | k in s'.ready ensures ReadyOk(s', k) {
      if k != step.k {
        assert ReadyOk(s, k);
      }
    }
    forall k, l | k in s'.ready && l in s'.ready && k != l ensures NoClash(s'.ready[k], s'.ready[l]) {
      if k == step.k {
        assert ReadyOk(s, l);
        FreshNoClash(s.ready[l], s.used, batch, Drawn(step));
      } else if l == step.k {
        assert ReadyOk(s, k);
        FreshNoClash(s.ready[k], s.used, batch, Drawn(step));
      } else {
        assert NoClash(s.ready[k], s.ready[l]);
      }
    }
    SameReadSide(s, s');
  }

  lemma SameReadSide(s: State, s': State)
    requires ReadSide(s)
    requires s' == s.(ready := s'.ready, used := s'.used)
    ensures ReadSide(s')
  {
    match s.relay {
      case Marking(rest) => assert Holds(s', s.projection.checkpoint, SequencesOf(rest));
      case _ => assert Holds(s', s.projection.checkpoint, {});
    }
  }

  // Every run

  /** Earlier records stay, and the checkpoint never moves back. */
  ghost predicate Extends(s: State, s': State) {
    s.log <= s'.log && s.projection.checkpoint <= s'.projection.checkpoint
  }

  lemma AppendStep(s: State, k: nat)
    requires Inv(s) && Enabled(s, Append(k))
    ensures Inv(After(s, Append(k)))
  {
    AppendWriteSide(s, k);
    AppendBoundaries(s, k);
    AppendReadSide(s, k);
  }

  lemma StepKeepsInv(s: State, step: Step)
    requires Inv(s) && Enabled(s, step)
    ensures Inv(After(s, step))
  {
    match step {
      case Append(k) => AppendStep(s, k);
      case RelayList => ListStep(s);
      case RelayPlan => PlanStep(s);
      case RelayApply => ApplyStep(s);
      case RelayMark => MarkStep(s);
      case _ => DecisionStep(s, step);
    }
  }

  lemma OnlyExtends(s: State, step: Step)
    requires Inv(s) && Enabled(s, step)
    ensures Extends(s, After(s, step))
  {
    if step.RelayApply? {
      ApplyStep(s);
    }
  }

  lemma NextKeepsInv(s: State, s': State)
    requires Inv(s) && Next(s, s')
    ensures Inv(s') && Extends(s, s')
  {
    var step :| Enabled(s, step) && s' == After(s, step);
    StepKeepsInv(s, step);
    OnlyExtends(s, step);
  }

  lemma InitialInv()
    ensures Inv(INITIAL)
  {
    assert INITIAL.log[..0] == [];
    Refinement.EmptyMatches();
    assert Holds(INITIAL, 0, {});
  }

  lemma {:induction false} RunKeepsInv(run: seq<State>, i: nat)
    requires IsRun(run) && i < |run|
    ensures Inv(run[i])
  {
    if i == 0 {
      InitialInv();
    } else {
      RunKeepsInv(run, i - 1);
      assert StepAt(run, i - 1);
      NextKeepsInv(run[i - 1], run[i]);
    }
  }

  lemma {:induction false} RunExtends(run: seq<State>, i: nat, j: nat)
    requires IsRun(run) && i <= j < |run|
    ensures Extends(run[i], run[j])
    decreases j - i
  {
    if i < j {
      RunExtends(run, i, j - 1);
      StepExtends(run, j - 1);
      assert run[i].log <= run[j - 1].log <= run[j].log;
    }
  }

  lemma StepExtends(run: seq<State>, i: nat)
    requires IsRun(run) && i + 1 < |run|
    ensures Extends(run[i], run[i + 1])
  {
    RunKeepsInv(run, i);
    assert StepAt(run, i);
    NextKeepsInv(run[i], run[i + 1]);
  }

  /** Between drains the outbox holds exactly the events after the checkpoint, and the checkpoint is the
      log's length when the outbox was last listed, whatever was appended while the drain went on. */
  lemma BetweenDrains(run: seq<State>, i: nat)
    requires IsRun(run) && i < |run| && run[i].relay.Idle?
    ensures run[i].projection.checkpoint == run[i].listed <= |run[i].log|
    ensures Listing(run[i].pending, |run[i].log|) == EntriesFrom(run[i].listed, run[i].log[run[i].listed..])
    ensures Refinement.Matches(run[i].projection, run[i].log[..run[i].listed])
  {
    RunKeepsInv(run, i);
    var s := run[i];
    WholeListing(s.pending, s.log, s.listed, |s.log|);
    assert s.log[s.listed..|s.log|] == s.log[s.listed..];
  }

  /** A planned batch is never refused, and applying it reaches the listed length. */
  lemma DrainReachesListing(run: seq<State>, i: nat)
    requires IsRun(run) && i < |run| && run[i].relay.Planned?
    ensures Projections.ApplyEntries(run[i].projection, run[i].relay.run).ok
    ensures Projections.ApplyEntries(run[i].projection, run[i].relay.run).state.checkpoint == run[i].listed
  {
    RunKeepsInv(run, i);
    ApplyStep(run[i]);
    var s := run[i];
    var before, added := s.log[..s.projection.checkpoint], s.log[s.projection.checkpoint..s.listed];
    assert before + added == s.log[..s.listed];
    WellFormedPrefix(s.log, s.listed);
    Refinement.RunFollows(s.projection, before, added);
  }

  // Batches are seen whole

  /** In a log of whole batches every thread's first message is its opening one. */
  lemma OpeningFirst(log: seq<Event>, c: ConversationId, j: nat)
    requires WellFormed(log) && WholeBatch(log) && j < |StartsOf(log, c)|
    ensures var n := StartsOf(log, c)[j]; var thread := Threads(log, c)[j];
            && n + 1 < |log| && Opens(log[n], log[n + 1])
            && thread.messages != [] && thread.messages[0] == MessageOf(log[n + 1])
            && thread.messages[0].author == log[n].author
  {
    var n := StartsOf(log, c)[j];
    assert WholeAt(log, n);
    OpeningShown(log, n);
  }

  lemma OpeningShown(log: seq<Event>, n: nat)
    requires WellFormed(log) && n + 1 < |log| && Opens(log[n], log[n + 1])
    ensures var messages := Messages(log, log[n].conversation, log[n].thread);
            messages != [] && messages[0] == MessageOf(log[n + 1])
  {
    var c, t := log[n].conversation, log[n].thread;
    NothingBefore(log, n);
    assert log[..n + 1] == log[..n] + [log[n]];
    assert log[..n + 2] == log[..n + 1] + [log[n + 1]];
    Snoc(log[..n], log[n], c, t);
    Snoc(log[..n + 1], log[n + 1], c, t);
    MessagesPrefix(log, n + 2, |log|, c, t);
    assert log[..|log|] == log;
  }

  lemma NothingBefore(log: seq<Event>, n: nat)
    requires WellFormed(log) && n < |log| && log[n].ThreadStarted?
    ensures Messages(log[..n], log[n].conversation, log[n].thread) == []
  {
    WellFormedPrefix(log, n);
    assert forall m :: 0 <= m < n ==> !Clash(log[m], log[n]);
    assert forall m :: 0 <= m < n ==> log[..n][m] == log[m];
    NothingBeforeStart(log[..n], log[n].conversation, log[n].thread);
  }

  /** The checkpoint always lies on a boundary between appends, so a reader sees every thread with its
      opening message first, by the thread's author. */
  lemma BatchesSeenWhole(run: seq<State>, i: nat, c: ConversationId, j: nat)
    requires IsRun(run) && i < |run|
    requires Projections.Get(run[i].projection, c).Success?
    requires j < |Projections.Get(run[i].projection, c).value.threads|
    ensures run[i].projection.checkpoint in run[i].boundaries
    ensures var thread := Projections.Get(run[i].projection, c).value.threads[j];
            && run[i].projection.checkpoint <= |run[i].log|
            && var applied := run[i].log[..run[i].projection.checkpoint];
            && j < |StartsOf(applied, c)|
            && thread.id == applied[StartsOf(applied, c)[j]].thread
            && var n := StartsOf(applied, c)[j];
            && n + 1 < |applied| && Opens(applied[n], applied[n + 1])
            && thread.messages != [] && thread.messages[0] == MessageOf(applied[n + 1])
  {
    RunKeepsInv(run, i);
    var s := run[i];
    var applied := s.log[..s.projection.checkpoint];
    ShownIsLogged(s, c);
    WellFormedPrefix(s.log, s.projection.checkpoint);
    OpeningFirst(applied, c, j);
  }

  /** A conversation once readable stays readable, and its view only grows. */
  lemma ReadsGrow(run: seq<State>, i: nat, j: nat, c: ConversationId)
    requires IsRun(run) && i <= j < |run| && Projections.Get(run[i].projection, c).Success?
    ensures Projections.Get(run[j].projection, c).Success?
    ensures GrownFrom(Projections.Get(run[i].projection, c).value, Projections.Get(run[j].projection, c).value)
  {
    RunKeepsInv(run, i);
    RunKeepsInv(run, j);
    RunExtends(run, i, j);
    var k, m, log := run[i].projection.checkpoint, run[j].projection.checkpoint, run[j].log;
    assert run[i].log[..k] == log[..k];
    WellFormedPrefix(log, k);
    WellFormedPrefix(log, m);
    Refinement.MatchingReads(run[i].projection, log[..k], c);
    Refinement.MatchingReads(run[j].projection, log[..m], c);
    Refinement.StartedInView(log[..k], c);
    StartsPrefix(log, k, m, c);
    ViewsGrow(log, c, k, m);
  }
}
