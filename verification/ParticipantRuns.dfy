/** The list of one participant's conversations in every run, the queries of one listing together or apart. */
module ParticipantRuns {
  import opened Collections
  import opened Domain
  import opened ReadModel
  import opened ByParticipant
  import opened PostgresTables
  import opened PostgresProtocol
  import opened PostgresSteps
  import opened PostgresRuns
  import opened PostgresGuarantees
  import opened ParticipantQueries
  import opened ParticipantAnswers
  import MemoryGuarantees
  import MemoryProjection
  import MemoryProtocol
  import MemoryRefinement

  /** In every state of every run over the in-memory adapters the answer is exact for what is applied. */
  lemma MemoryRunAnswers(run: seq<MemoryProtocol.State>, i: nat, p: ParticipantId, views: seq<ConversationView>)
    requires MemoryProtocol.IsRun(run) && i < |run| && MemoryProjection.Lists(run[i].projection, p, views)
    ensures MemoryProjection.OwnIds(run[i].projection) && run[i].projection.checkpoint <= |run[i].log|
    ensures Answers(run[i].log[..run[i].projection.checkpoint], p, views)
  {
    MemoryGuarantees.RunKeepsInv(run, i);
    var s, applied := run[i].projection, run[i].log[..run[i].projection.checkpoint];
    WellFormedPrefix(run[i].log, s.checkpoint);
    forall c | c in s.conversations ensures s.conversations[c].id == c {
      assert MemoryRefinement.ConversationMatches(s, applied, c);
    }
    MemoryAnswers(s, applied, p, views);
  }

  /** The states of a run at which the three queries for one conversation ran. */
  datatype Reads = Reads(row: nat, threads: nat, messages: nat)

  ghost predicate Within(run: seq<State>, from: nat, q: Reads) {
    && from <= q.row < |run| && from <= q.threads < |run| && from <= q.messages < |run|
    && Shaped(run[q.row]) && Shaped(run[q.threads])
    && Shaped(run[q.messages])
  }

  ghost function MomentsOf(run: seq<State>, from: nat, q: Reads): Moments
    requires Within(run, from, q)
  {
    Moments(Current(run[q.row]), Current(run[q.threads]),
            Current(run[q.messages]))
  }

  /** A listing whose first query sees state i and whose other queries see any later states lists the
      conversations p took part in at i, each torn over the states its own queries saw. */
  lemma TornListing(run: seq<State>, i: nat, p: ParticipantId, ids: seq<ConversationId>,
                    qs: seq<Reads>, x: nat)
    requires IsRun(run) && i < |run| && Shaped(run[i])
    requires Selected(Current(run[i]), p, ids) && |qs| == |ids|
    requires (forall y :: 0 <= y < |ids| ==> Within(run, i, qs[y])) && x < |ids|
    ensures var at := seq(|ids|, y requires 0 <= y < |ids| => MomentsOf(run, i, qs[y]));
            var views, log := ViewsAt(at, p, ids), run[|run| - 1].log;
            var u, k, m := at[x].row.checkpoint, at[x].threads.checkpoint, at[x].messages.checkpoint;
            && |views| == |ids| && u <= |log| && k <= |log| && m <= |log|
            && views[x] == TornVisible(log, ids[x], p, u, k, m)
    ensures Selects(run, i, p, ids)
  {
    var at := seq(|ids|, y requires 0 <= y < |ids| => MomentsOf(run, i, qs[y]));
    SelectedInRun(run, i, p, ids);
    var views := seq(|ids|, y requires 0 <= y < |ids| => TornAcross(run, i, p, ids[y], qs[y]));
    forall y | 0 <= y < |ids| ensures ViewAt(at[y], p, ids[y]) == [views[y]] {
      OneTorn(run, i, p, ids[y], qs[y]);
    }
    ViewsOneByOne(at, p, ids, views);
    OneTorn(run, i, p, ids[x], qs[x]);
  }

  ghost predicate Selects(run: seq<State>, i: nat, p: ParticipantId, ids: seq<ConversationId>)
    requires i < |run| && Shaped(run[i])
  {
    var checkpoint := Current(run[i]).checkpoint;
    && checkpoint <= |run[i].log|
    && NoDuplicates(ids) && forall c :: c in ids <==> TakesPart(run[i].log[..checkpoint], c, p)
  }

  lemma SelectedInRun(run: seq<State>, i: nat, p: ParticipantId, ids: seq<ConversationId>)
    requires IsRun(run) && i < |run| && Shaped(run[i])
    requires Selected(Current(run[i]), p, ids)
    ensures Selects(run, i, p, ids)
  {
    RunKeepsInv(run, i);
    CurrentMatches(run[i]);
    var tables := Current(run[i]);
    forall c ensures c in ids <==> TakesPart(run[i].log[..tables.checkpoint], c, p) {
      GroupIffTakesPart(tables, run[i].log[..tables.checkpoint], p, c);
    }
  }

  /** One conversation of such a listing, in terms of the last state's log. */
  ghost function TornAcross(run: seq<State>, i: nat, p: ParticipantId, c: ConversationId, q: Reads)
    : ConversationView
    requires Within(run, i, q)
  {
    var log, at := run[|run| - 1].log, MomentsOf(run, i, q);
    if at.row.checkpoint <= |log| && at.threads.checkpoint <= |log| && at.messages.checkpoint <= |log|
    then TornVisible(log, c, p, at.row.checkpoint, at.threads.checkpoint, at.messages.checkpoint)
    else ConversationView(c, "", [])
  }

  lemma OneTorn(run: seq<State>, i: nat, p: ParticipantId, c: ConversationId, q: Reads)
    requires IsRun(run) && i < |run| && Shaped(run[i]) && Within(run, i, q)
    requires Current(run[i]).checkpoint <= |run[i].log|
    requires TakesPart(run[i].log[..Current(run[i]).checkpoint], c, p)
    ensures var log, at := run[|run| - 1].log, MomentsOf(run, i, q);
            && at.row.checkpoint <= |log| && at.threads.checkpoint <= |log| && at.messages.checkpoint <= |log|
            && ViewAt(at, p, c) == [TornAcross(run, i, p, c, q)]
  {
    var z, at := |run| - 1, MomentsOf(run, i, q);
    TablesSeen(run, q.row, z);
    TablesSeen(run, q.threads, z);
    TablesSeen(run, q.messages, z);
    CreatedByThen(run, i, q.row, p, c);
    TornViewAt(run[z].log, c, p, at.row.checkpoint, at.threads.checkpoint, at.messages.checkpoint, at);
  }

  /** Who takes part in a conversation at state i finds its row at any later state. */
  lemma CreatedByThen(run: seq<State>, i: nat, j: nat, p: ParticipantId, c: ConversationId)
    requires IsRun(run) && i <= j < |run| && Shaped(run[i])
    requires Current(run[i]).checkpoint <= |run[i].log|
    requires TakesPart(run[i].log[..Current(run[i]).checkpoint], c, p)
    ensures Shaped(run[j]) && Current(run[j]).checkpoint <= |run[|run| - 1].log|
    ensures Created(run[|run| - 1].log[..Current(run[j]).checkpoint], c)
  {
    LogGrows(run, i, |run| - 1);
    LogGrows(run, j, |run| - 1);
    LogGrows(run, i, j);
    TakesPartCreated(run[i].log, run[|run| - 1].log, Current(run[i]).checkpoint, Current(run[j]).checkpoint, p, c);
  }

  lemma TakesPartCreated(log: seq<Event>, log': seq<Event>, n: nat, m: nat, p: ParticipantId, c: ConversationId)
    requires WellFormed(log') && log <= log' && n <= |log| && n <= m <= |log'| && TakesPart(log[..n], c, p)
    ensures Created(log'[..m], c)
  {
    assert log[..n] == log'[..n];
    WellFormedPrefix(log', n);
    var t :| Started(log'[..n], c, t) && p in Participants(log'[..n], c, t);
    StartedIsCreated(log'[..n], c, t);
    CreatedStays(log', c, n, m);
  }

  /** When all of them see one state, the list is exact. */
  lemma PostgresRunAnswers(run: seq<State>, i: nat, p: ParticipantId, ids: seq<ConversationId>)
    requires IsRun(run) && i < |run| && Shaped(run[i])
    requires Selected(Current(run[i]), p, ids)
    ensures var tables := Current(run[i]);
            tables.checkpoint <= |run[i].log| && Answers(run[i].log[..tables.checkpoint], p, ViewsOf(tables, p, ids))
  {
    RunKeepsInv(run, i);
    CurrentMatches(run[i]);
    var tables := Current(run[i]);
    PostgresAnswers(tables, run[i].log[..tables.checkpoint], p, ids);
  }
}
