/** What the Postgres write path guarantees in every run, and what it does not. */
module PostgresGuarantees {
  import opened Collections
  import opened Domain
  import opened ReadModel
  import opened Outbox
  import opened PostgresTables
  import opened PostgresRefinement
  import opened PostgresProtocol
  import opened PostgresInvariant
  import opened PostgresSteps
  import opened PostgresRuns
  import opened History

  // Safety

  lemma TablesUnique(a: Tables, b: Tables, log: seq<Event>)
    requires TablesMatch(a, log) && TablesMatch(b, log) && a.checkpoint == b.checkpoint
    ensures a == b
  {
    forall c ensures c in a.conversations <==> c in b.conversations {
      assert RowMatches(a, log, c) && RowMatches(b, log, c);
    }
    forall c | c in a.conversations ensures a.conversations[c] == b.conversations[c] {
      assert RowMatches(a, log, c) && RowMatches(b, log, c);
    }
    assert a.conversations == b.conversations;
  }

  /** Whatever commits out of order or rolls back, and wherever the relay stops: every number up to the
      checkpoint is committed, and the tables are those events applied once each in number order. */
  lemma ProjectionIsFold(run: seq<State>, i: nat)
    requires IsRun(run) && i < |run|
    ensures Shaped(run[i]) && Current(run[i]).checkpoint <= |run[i].log|
    ensures forall n :: 1 <= n <= Current(run[i]).checkpoint ==> IsCommitted(run[i], n)
    ensures FoldOf(run[i].log[..Current(run[i]).checkpoint]) == Some(Current(run[i]))
  {
    RunKeepsInv(run, i);
    CurrentMatches(run[i]);
    FoldMatches(run[i].log[..Current(run[i]).checkpoint]);
    TablesUnique(FoldOf(run[i].log[..Current(run[i]).checkpoint]).value, Current(run[i]),
                 run[i].log[..Current(run[i]).checkpoint]);
  }

  /** The tables after applying a log's events in number order, from nothing. */
  function FoldOf(log: seq<Event>): Option<Tables> {
    ApplyBatch(EMPTY_TABLES, EntriesFrom(0, log))
  }

  lemma FoldMatches(log: seq<Event>)
    requires WellFormed(log)
    ensures FoldOf(log).Some? && TablesMatch(FoldOf(log).value, log) && FoldOf(log).value.checkpoint == |log|
  {
    assert [] + log == log;
    EmptyTablesMatch();
    BatchApplies(EMPTY_TABLES, [], log);
  }

  /** Numbers respect causality although commits do not come in number order; so does what is committed
      at any moment; and the relay's Apply is never refused. */
  lemma CausalOrder(run: seq<State>, i: nat)
    requires IsRun(run) && i < |run|
    ensures Shaped(run[i]) && WellFormed(run[i].log)
    ensures WellFormed(CommittedLog(run[i], |run[i].log|))
    ensures run[i].relay.Planned? ==> ApplyBatch(Current(run[i]), run[i].relay.run).Some?
  {
    RunKeepsInv(run, i);
    LogWellFormed(run[i]);
    CommittedLogWellFormed(run[i], |run[i].log|);
    if run[i].relay.Planned? {
      PlannedApplies(run[i]);
    }
  }

  /** A membership command only ever raises events of the conversation and thread it was asked about. */
  lemma MembershipNamesItsConversation(run: seq<State>, i: nat, step: Step)
    requires IsRun(run) && i < |run| && Shaped(run[i])
    requires (step.AddParticipant? || step.RemoveParticipant?) && Raised(run[i], step).Some?
    ensures var e := Raised(run[i], step).value[0]; var p := step.membership;
            e == if step.AddParticipant? then ParticipantAdded(p.conversation, p.thread, p.participant, p.at)
                 else ParticipantRemoved(p.conversation, p.thread, p.participant, p.at)
  {
    RunKeepsInv(run, i);
    var m := ManageRests(run[i], step.membership.conversation, step.membership.thread);
  }

  // Progress

  /** The run a drain would take if it ran now, undisturbed. */
  ghost function Drainable(s: State): seq<Entry>
    requires Shaped(s)
  {
    TakeRun(Listing(PendingRows(s), |s.log|), Current(s).checkpoint + 1)
  }

  ghost predicate RolledBackAt(s: State, n: Sequence)
    requires Shaped(s)
  {
    && 1 <= n <= |s.log| && s.owner[n - 1] in s.commands && s.commands[s.owner[n - 1]].phase == RolledBack
  }

  /** An applied event whose outbox row is still pending, left by an interrupted marking loop. */
  ghost predicate LeftPending(s: State, n: Sequence)
    requires Shaped(s)
  {
    1 <= n <= Current(s).checkpoint && n !in s.done
  }

  /** A drain does nothing exactly when the next number is not committed or an applied entry is still pending. */
  lemma DrainNoOp(s: State)
    requires Inv(s)
    ensures Drainable(s) == []
       <==> !IsCommitted(s, Current(s).checkpoint + 1) || exists n :: LeftPending(s, n)
  {
    var pending, next := PendingRows(s), Current(s).checkpoint + 1;
    RunOfListing(pending, |s.log|, next);
    LeftPendingIffListed(s);
    assert next in pending <==> IsCommitted(s, next);
  }

  lemma LeftPendingIffListed(s: State)
    requires Inv(s)
    ensures (exists n :: LeftPending(s, n)) <==> exists k :: k in PendingRows(s) && k < Current(s).checkpoint + 1
  {
    if n: nat :| LeftPending(s, n) {
      assert IsCommitted(s, n);
      assert n in PendingRows(s);
    }
    if k :| k in PendingRows(s) && k < Current(s).checkpoint + 1 {
      assert LeftPending(s, k);
    }
  }

  /** Otherwise it applies everything up to the first number that is not committed. */
  lemma DrainAdvances(s: State)
    requires Inv(s) && Drainable(s) != []
    ensures ApplyBatch(Current(s), Drainable(s)).Some?
    ensures var checkpoint := ApplyBatch(Current(s), Drainable(s)).value.checkpoint;
      && checkpoint == Current(s).checkpoint + |Drainable(s)|
      && (forall n :: Current(s).checkpoint < n <= checkpoint ==> IsCommitted(s, n))
      && !IsCommitted(s, checkpoint + 1)
  {
    DrainablePlanned(s);
    var planned := s.(relay := Planned(Drainable(s)));
    PlannedApplies(planned);
    forall n | Current(s).checkpoint < n <= Current(s).checkpoint + |Drainable(s)| ensures IsCommitted(s, n) {
      assert IsCommitted(planned, n);
    }
    DrainMaximal(s);
  }

  /** What an undisturbed relay plans. */
  lemma DrainablePlanned(s: State)
    requires Inv(s) && Drainable(s) != []
    ensures Inv(s.(relay := Planned(Drainable(s))))
  {
    var listed := s.(relay := Listed(Listing(PendingRows(s), |s.log|)));
    ListedKeeps(s);
    PlanStep(listed);
    assert After(listed, RelayPlan) == s.(relay := Planned(Drainable(s)));
  }

  lemma ListedKeeps(s: State)
    requires Inv(s)
    ensures Inv(s.(relay := Listed(Listing(PendingRows(s), |s.log|))))
  {
    var idle := s.(relay := Idle);
    IdleKeeps(s);
    ListStep(idle);
    SamePending(s, idle);
  }

  lemma IdleKeeps(s: State)
    requires Inv(s)
    ensures Inv(s.(relay := Idle))
  {
    MarkStep(s, RelayStop);
    assert After(s, RelayStop) == s.(relay := Idle);
  }

  lemma DrainMaximal(s: State)
    requires Inv(s) && Drainable(s) != []
    ensures !IsCommitted(s, Current(s).checkpoint + 1 + |Drainable(s)|)
  {
    var pending, next := PendingRows(s), Current(s).checkpoint + 1;
    RunOfListing(pending, |s.log|, next);
    assert forall k :: k in pending ==> k >= next;
    assert next + |Drainable(s)| !in pending;
    assert next + |Drainable(s)| !in s.done;
  }

  /** A relay that lists, plans and applies with nobody in between gets exactly that far. */
  lemma UndisturbedDrain(run: seq<State>) returns (run': seq<State>)
    requires IsRun(run) && Shaped(Last(run)) && Last(run).relay == Idle && Drainable(Last(run)) != []
    ensures ApplyBatch(Current(Last(run)), Drainable(Last(run))).Some?
    ensures IsRun(run') && Last(run').relay.Marking?
    ensures Last(run') == Last(run).(
      snapshots := Last(run).snapshots + [ApplyBatch(Current(Last(run)), Drainable(Last(run))).value],
      relay := Last(run').relay)
    ensures var rest, drained := Last(run').relay.rest, Drainable(Last(run));
            |rest| == |drained| && forall i :: 0 <= i < |rest| ==> rest[i] == drained[i].sequence
  {
    RunKeepsInv(run, |run| - 1);
    DrainAdvances(Last(run));
    var planned := PlanAlone(run);
    OneMoreStep(planned, RelayApply);
    run' := planned + [After(Last(planned), RelayApply)];
  }

  lemma PlanAlone(run: seq<State>) returns (run': seq<State>)
    requires IsRun(run) && Shaped(Last(run)) && Last(run).relay == Idle && Drainable(Last(run)) != []
    ensures IsRun(run') && Last(run') == Last(run).(relay := Planned(Drainable(Last(run))))
  {
    var s := Last(run);
    OneMoreStep(run, RelayList);
    var listed := run + [After(s, RelayList)];
    OneMoreStep(listed, RelayPlan);
    run' := listed + [After(Last(listed), RelayPlan)];
  }

  lemma SamePending(s: State, s': State)
    requires Shaped(s) && Shaped(s') && s'.log == s.log && s'.owner == s.owner
    requires s'.commands == s.commands && s'.done == s.done
    ensures PendingRows(s') == PendingRows(s)
  {
    forall n ensures n in PendingRows(s') <==> n in PendingRows(s) {
      assert IsCommitted(s', n) <==> IsCommitted(s, n);
    }
  }

  ghost predicate NoneOpen(s: State) {
    forall k :: k in s.commands ==> s.commands[k].phase != Open
  }

  /** With no transaction open, a drain does nothing in exactly three cases: every number drawn is applied,
      the next number belongs to a rolled-back append, or an applied entry was left pending. */
  lemma QuietDrain(run: seq<State>, i: nat)
    requires IsRun(run) && i < |run| && NoneOpen(run[i])
    ensures Shaped(run[i])
    ensures Drainable(run[i]) == []
       <==> || Current(run[i]).checkpoint == |run[i].log|
            || RolledBackAt(run[i], Current(run[i]).checkpoint + 1)
            || exists n :: LeftPending(run[i], n)
  {
    RunKeepsInv(run, i);
    var s := run[i];
    DrainNoOp(s);
    var next := Current(s).checkpoint + 1;
    if next <= |s.log| {
      assert RowOk(s, next - 1);
      assert CommandOk(s, s.owner[next - 1]);
    }
    assert SnapshotOk(s, Current(s)) by {
      assert SnapshotOk(s, s.snapshots[|s.snapshots| - 1]);
    }
  }

  // Two ways to stall for good

  ghost predicate Blocked(s: State, n: Sequence)
    requires Shaped(s)
  {
    && LeftPending(s, n)
    && (s.relay.Idle? || (s.relay.Listed? && TakeRun(s.relay.pending, Current(s).checkpoint + 1) == []))
  }

  lemma BlockedStep(s: State, step: Step, n: Sequence)
    requires Inv(s) && Blocked(s, n) && Enabled(s, step)
    ensures Shaped(After(s, step)) && Blocked(After(s, step), n)
    ensures Current(After(s, step)).checkpoint == Current(s).checkpoint
  {
    if step.RelayList? {
      ListsNothing(s, n);
    }
  }

  lemma ListsNothing(s: State, n: Sequence)
    requires Inv(s) && LeftPending(s, n)
    ensures Drainable(s) == []
  {
    DrainNoOp(s);
  }

  lemma BlockedNext(s: State, s': State, n: Sequence)
    requires Inv(s) && Blocked(s, n) && Next(s, s')
    ensures Shaped(s') && Blocked(s', n) && Current(s').checkpoint == Current(s).checkpoint
  {
    var step :| Enabled(s, step) && s' == After(s, step);
    BlockedStep(s, step, n);
  }

  lemma GapNext(s: State, s': State)
    requires Inv(s) && Next(s, s') && RolledBackAt(s, Current(s).checkpoint + 1)
    ensures Shaped(s') && Current(s').checkpoint == Current(s).checkpoint
    ensures RolledBackAt(s', Current(s).checkpoint + 1)
  {
    NextKeepsInv(s, s');
    var next := Current(s).checkpoint + 1;
    assert CommandExtends(s, s', s.owner[next - 1]);
    assert !IsCommitted(s, next);
    assert !s.relay.Planned?;
  }

  /** Once an applied entry is left pending and the relay is between drains, the checkpoint never moves again. */
  lemma {:induction false} LeftPendingStalls(run: seq<State>, i: nat, j: nat, n: Sequence)
    requires IsRun(run) && i <= j < |run|
    requires Shaped(run[i]) && run[i].relay.Idle? && LeftPending(run[i], n)
    ensures Shaped(run[j]) && Blocked(run[j], n)
    ensures Current(run[j]).checkpoint == Current(run[i]).checkpoint
    decreases j - i
  {
    if i < j {
      LeftPendingStalls(run, i, j - 1, n);
      RunKeepsInv(run, j - 1);
      assert StepAt(run, j - 1);
      BlockedNext(run[j - 1], run[j], n);
    }
  }

  /** A number drawn by a rolled-back append right after the checkpoint holds it there for ever. */
  lemma {:induction false} GapStalls(run: seq<State>, i: nat, j: nat)
    requires IsRun(run) && i <= j < |run|
    requires Shaped(run[i]) && RolledBackAt(run[i], Current(run[i]).checkpoint + 1)
    ensures Shaped(run[j]) && Current(run[j]).checkpoint == Current(run[i]).checkpoint
    ensures RolledBackAt(run[j], Current(run[i]).checkpoint + 1)
    decreases j - i
  {
    if i < j {
      GapStalls(run, i, j - 1);
      RunKeepsInv(run, j - 1);
      assert StepAt(run, j - 1);
      GapNext(run[j - 1], run[j]);
    }
  }

  // Views over time

  lemma CurrentMatches(s: State)
    requires Inv(s)
    ensures Current(s).checkpoint <= |s.log|
    ensures TablesMatch(Current(s), s.log[..Current(s).checkpoint])
    ensures WellFormed(s.log) && WellFormed(s.log[..Current(s).checkpoint])
  {
    assert SnapshotOk(s, s.snapshots[|s.snapshots| - 1]);
    LogWellFormed(s);
    WellFormedPrefix(s.log, Current(s).checkpoint);
  }

  /** Get against the tables of one state. */
  ghost function ReadAt(s: State, c: ConversationId): Result<ConversationView, Error>
    requires Shaped(s)
  {
    Assemble(c, ConversationRow(Current(s), c), ListThreads(Current(s), c), ListMessages(Current(s), c))
  }

  /** A Get whose three reads fall on three states of a run. */
  ghost function ReadAcross(u: State, k: State, m: State, c: ConversationId): Result<ConversationView, Error>
    requires Shaped(u) && Shaped(k) && Shaped(m)
  {
    Assemble(c, ConversationRow(Current(u), c), ListThreads(Current(k), c), ListMessages(Current(m), c))
  }

  /** What a torn read of a run returns, in terms of the last state's log. */
  lemma ReadAcrossRun(run: seq<State>, u: nat, k: nat, m: nat, z: nat, c: ConversationId)
    requires IsRun(run) && u <= z < |run| && k <= z && m <= z
    ensures Shaped(run[u]) && Shaped(run[k]) && Shaped(run[m]) && WellFormed(run[z].log)
    ensures var cu, ck, cm := Current(run[u]).checkpoint, Current(run[k]).checkpoint, Current(run[m]).checkpoint;
            && cu <= |run[z].log| && ck <= |run[z].log| && cm <= |run[z].log|
            && ReadAcross(run[u], run[k], run[m], c)
            == if StartsOf(run[z].log[..ck], c) == [] || !Created(run[z].log[..cu], c)
               then Failure(ConversationNotFound)
               else Success(TornView(run[z].log, c, cu, ck, cm))
  {
    TablesSeen(run, u, z);
    TablesSeen(run, k, z);
    TablesSeen(run, m, z);
    TornGet(run[z].log, c, Current(run[u]).checkpoint, Current(run[k]).checkpoint, Current(run[m]).checkpoint,
            Current(run[u]), Current(run[k]), Current(run[m]));
  }

  lemma TablesSeen(run: seq<State>, j: nat, z: nat)
    requires IsRun(run) && j <= z < |run|
    ensures Shaped(run[j]) && WellFormed(run[z].log) && Current(run[j]).checkpoint <= |run[z].log|
    ensures TablesMatch(Current(run[j]), run[z].log[..Current(run[j]).checkpoint])
  {
    SeenFrom(run, j, z);
  }

  lemma ReadIsTorn(run: seq<State>, u: nat, k: nat, m: nat, c: ConversationId)
    requires IsRun(run) && u < |run| && k < |run| && m < |run|
    requires Shaped(run[u]) && Shaped(run[k]) && Shaped(run[m])
    requires ReadAcross(run[u], run[k], run[m], c).Success?
    ensures var log := run[|run| - 1].log;
            var cu, ck, cm := Current(run[u]).checkpoint, Current(run[k]).checkpoint, Current(run[m]).checkpoint;
            && cu <= |log| && ck <= |log| && cm <= |log|
            && ReadAcross(run[u], run[k], run[m], c).value == TornView(log, c, cu, ck, cm)
  {
    ReadAcrossRun(run, u, k, m, |run| - 1, c);
  }

  /** An earlier state's tables match a prefix of a later state's log. */
  lemma SeenFrom(run: seq<State>, i: nat, z: nat)
    requires IsRun(run) && i <= z < |run|
    ensures Inv(run[i]) && Inv(run[z]) && WellFormed(run[z].log)
    ensures Current(run[i]).checkpoint <= |run[i].log| <= |run[z].log|
    ensures run[i].log == run[z].log[..|run[i].log|]
    ensures TablesMatch(Current(run[i]), run[z].log[..Current(run[i]).checkpoint])
  {
    RunKeepsInv(run, i);
    RunExtends(run, i, z);
    CurrentMatches(run[i]);
    CurrentMatches(run[z]);
    assert run[i].log[..Current(run[i]).checkpoint] == run[z].log[..Current(run[i]).checkpoint];
  }

  /** A Get each of whose reads comes no earlier than an earlier Get's shows everything that one did, in the
      same places; only participants may differ. Either may be torn. */
  lemma ReadsGrow(run: seq<State>, u: nat, k: nat, m: nat, u': nat, k': nat, m': nat, c: ConversationId)
    requires IsRun(run) && u <= u' < |run| && k <= k' < |run| && m <= m' < |run|
    requires Shaped(run[u]) && Shaped(run[k]) && Shaped(run[m])
    requires ReadAcross(run[u], run[k], run[m], c).Success?
    ensures Shaped(run[u']) && Shaped(run[k']) && Shaped(run[m'])
    ensures ReadAcross(run[u'], run[k'], run[m'], c).Success?
    ensures GrownFrom(ReadAcross(run[u], run[k], run[m], c).value, ReadAcross(run[u'], run[k'], run[m'], c).value)
  {
    var z := |run| - 1;
    var log := run[z].log;
    ReadAcrossRun(run, u, k, m, z, c);
    ReadAcrossRun(run, u', k', m', z, c);
    LogGrows(run, u, u');
    LogGrows(run, k, k');
    LogGrows(run, m, m');
    StartsPrefix(log, Current(run[k]).checkpoint, Current(run[k']).checkpoint, c);
    CreatedStays(log, c, Current(run[u]).checkpoint, Current(run[u']).checkpoint);
    TornViewGrows(log, c, Current(run[u]).checkpoint, Current(run[k]).checkpoint, Current(run[m]).checkpoint,
                  Current(run[u']).checkpoint, Current(run[k']).checkpoint, Current(run[m']).checkpoint);
  }

  lemma CreatedStays(log: seq<Event>, c: ConversationId, k: nat, m: nat)
    requires k <= m <= |log| && Created(log[..k], c)
    ensures Created(log[..m], c)
  {
    var i :| 0 <= i < k && log[..k][i].ConversationCreated? && log[..k][i].conversation == c;
    assert log[..m][i] == log[..k][i];
  }

  // Reading one's own writes

  /** Read your writes: a caller waiting for the sequence its committed command returned is told to come
      back exactly while the checkpoint, read at i, is below it; after that the read succeeds and shows
      what the command did, even when its three reads fall on three different later states. */
  lemma ReadYourWrites(run: seq<State>, i: nat, u: nat, k: nat, m: nat, command: nat, b: nat)
    requires IsRun(run) && i <= u < |run| && i <= k < |run| && i <= m < |run| && Shaped(run[i])
    requires command in run[i].commands && run[i].commands[command].phase == Committed
    requires b < |run[i].commands[command].batch| && run[i].commands[command].sequences != []
    ensures Shaped(run[u]) && Shaped(run[k]) && Shaped(run[m])
    ensures var sequences, e := run[i].commands[command].sequences, run[i].commands[command].batch[b];
            var after := sequences[|sequences| - 1];
            var read := ReadAcross(run[u], run[k], run[m], e.conversation);
            var got := GetConversation(Some(after), Current(run[i]).checkpoint, read);
            if Current(run[i]).checkpoint < after then got == Failure(ProjectionNotCaughtUp)
            else got.Success? && Shows(got.value, e)
  {
    RunKeepsInv(run, i);
    RunKeepsInv(run, u);
    RunKeepsInv(run, k);
    RunKeepsInv(run, m);
    var s, e := run[i], run[i].commands[command].batch[b];
    var sequences := s.commands[command].sequences;
    if sequences[|sequences| - 1] <= Current(s).checkpoint {
      OwnWriteShown(run, i, command, b);
      ReadsGrow(run, i, i, i, u, k, m, e.conversation);
      GrownShows(ReadAt(s, e.conversation).value, ReadAcross(run[u], run[k], run[m], e.conversation).value, e);
    }
  }

  /** And of a membership command that read shows the participant in or out of the thread, exactly as the
      events after the command's, up to the checkpoint of the thread rows, leave them. */
  lemma ReadYourMembership(run: seq<State>, i: nat, u: nat, k: nat, m: nat, command: nat, b: nat)
    requires IsRun(run) && i <= u < |run| && i <= k < |run| && i <= m < |run| && Shaped(run[i])
    requires command in run[i].commands && run[i].commands[command].phase == Committed
    requires b < |run[i].commands[command].batch| && b < |run[i].commands[command].sequences|
    requires var e := run[i].commands[command].batch[b]; e.ParticipantAdded? || e.ParticipantRemoved?
    requires var sequences := run[i].commands[command].sequences;
             sequences[|sequences| - 1] <= Current(run[i]).checkpoint
    ensures Shaped(run[u]) && Shaped(run[k]) && Shaped(run[m])
    ensures var n := run[i].commands[command].sequences[b];
            var e, log, upTo := run[i].commands[command].batch[b], run[k].log, Current(run[k]).checkpoint;
            && 1 <= n <= upTo <= |log| && log[n - 1] == e
            && ReadAcross(run[u], run[k], run[m], e.conversation).Success?
            && MembershipShown(ReadAcross(run[u], run[k], run[m], e.conversation).value, log, n - 1, upTo)
  {
    ReadYourWrites(run, i, u, k, m, command, b);
    OwnNumber(run, i, k, command, b);
    ReadShowsMembership(run, u, k, m, run[i].commands[command].sequences[b] - 1);
  }

  /** Any read that succeeds shows the membership events its thread rows have seen. */
  lemma ReadShowsMembership(run: seq<State>, u: nat, k: nat, m: nat, n: nat)
    requires IsRun(run) && u < |run| && k < |run| && m < |run|
    requires Shaped(run[u]) && Shaped(run[k]) && Shaped(run[m])
    requires n < Current(run[k]).checkpoint <= |run[k].log|
    requires run[k].log[n].ParticipantAdded? || run[k].log[n].ParticipantRemoved?
    requires ReadAcross(run[u], run[k], run[m], run[k].log[n].conversation).Success?
    ensures MembershipShown(ReadAcross(run[u], run[k], run[m], run[k].log[n].conversation).value,
                            run[k].log, n, Current(run[k]).checkpoint)
  {
    var z, c := |run| - 1, run[k].log[n].conversation;
    LogGrows(run, k, z);
    ReadIsTorn(run, u, k, m, c);
    TornMembershipSeen(run[z].log, run[k].log, Current(run[u]).checkpoint, Current(run[k]).checkpoint,
                       Current(run[m]).checkpoint, n);
  }

  lemma OwnNumber(run: seq<State>, i: nat, j: nat, command: nat, b: nat)
    requires IsRun(run) && i <= j < |run| && Shaped(run[i]) && command in run[i].commands
    requires run[i].commands[command].phase == Committed && b < |run[i].commands[command].sequences|
    requires var sequences := run[i].commands[command].sequences;
             sequences[|sequences| - 1] <= Current(run[i]).checkpoint
    ensures Inv(run[i]) && Inv(run[j]) && b < |run[i].commands[command].batch|
    ensures var n := run[i].commands[command].sequences[b];
            1 <= n <= Current(run[j]).checkpoint <= |run[j].log|
            && run[j].log[n - 1] == run[i].commands[command].batch[b]
  {
    RunKeepsInv(run, i);
    RunExtends(run, i, j);
    assert CommandOk(run[i], command);
    CurrentMatches(run[j]);
    var n := run[i].commands[command].sequences[b];
    assert run[j].log[n - 1] == run[i].log[n - 1];
  }

  /** The tables of the moment the checkpoint was read show it already. */
  lemma OwnWriteShown(run: seq<State>, i: nat, command: nat, b: nat)
    requires IsRun(run) && i < |run| && Inv(run[i])
    requires command in run[i].commands && run[i].commands[command].phase == Committed
    requires b < |run[i].commands[command].batch|
    requires var sequences := run[i].commands[command].sequences;
             sequences != [] && sequences[|sequences| - 1] <= Current(run[i]).checkpoint
    ensures var e := run[i].commands[command].batch[b];
            ReadAt(run[i], e.conversation).Success? && Shows(ReadAt(run[i], e.conversation).value, e)
  {
    var s := run[i];
    var n := BatchApplied(s, command, b);
    var applied := s.log[..Current(s).checkpoint];
    CurrentMatches(s);
    assert applied[n] == s.commands[command].batch[b];
    BatchHasThread(s, command, b);
    WholeGet(Current(s), applied, applied[n].conversation);
    ViewShows(applied, n);
  }

  /** Each event of a committed batch that lies below the checkpoint is among the applied ones. */
  lemma BatchApplied(s: State, command: nat, b: nat) returns (n: nat)
    requires Inv(s) && command in s.commands && s.commands[command].phase == Committed
    requires b < |s.commands[command].batch|
    requires var sequences := s.commands[command].sequences;
             sequences != [] && sequences[|sequences| - 1] <= Current(s).checkpoint
    ensures n < Current(s).checkpoint <= |s.log| && s.log[n] == s.commands[command].batch[b]
  {
    assert CommandOk(s, command);
    CurrentMatches(s);
    n := s.commands[command].sequences[b] - 1;
  }

  /** Such a batch has a thread or a thread's event for the conversation it names. */
  lemma BatchReaches(s: State, command: nat, b: nat) returns (n: nat)
    requires Inv(s) && command in s.commands && s.commands[command].phase == Committed
    requires b < |s.commands[command].batch|
    requires var sequences := s.commands[command].sequences;
             sequences != [] && sequences[|sequences| - 1] <= Current(s).checkpoint
    ensures n < Current(s).checkpoint <= |s.log| && !s.log[n].ConversationCreated?
    ensures s.log[n].conversation == s.commands[command].batch[b].conversation
  {
    var batch := s.commands[command].batch;
    assert CommandOk(s, command) && WholeAt(batch, b);
    n := BatchApplied(s, command, if batch[b].ConversationCreated? then b + 1 else b);
  }

  /** A committed batch that lies below the checkpoint leaves its conversation readable. */
  lemma BatchHasThread(s: State, command: nat, b: nat)
    requires Inv(s) && command in s.commands && s.commands[command].phase == Committed
    requires b < |s.commands[command].batch|
    requires var sequences := s.commands[command].sequences;
             sequences != [] && sequences[|sequences| - 1] <= Current(s).checkpoint
    ensures Current(s).checkpoint <= |s.log|
    ensures StartsOf(s.log[..Current(s).checkpoint], s.commands[command].batch[b].conversation) != []
  {
    var n := BatchReaches(s, command, b);
    CurrentMatches(s);
    assert s.log[..Current(s).checkpoint][n] == s.log[n];
    HasThreadIfNotNew(s.log[..Current(s).checkpoint], n);
  }
}
