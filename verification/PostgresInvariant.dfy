/** What every step of the protocol keeps. */
module PostgresInvariant {
  import opened Domain
  import opened ReadModel
  import opened PostgresTables
  import opened PostgresRefinement
  import opened PostgresProtocol

  // The log and its commands

  ghost predicate CommandOk(s: State, k: nat)
    requires Shaped(s) && k in s.commands
  {
    var c := s.commands[k];
    && |c.sequences| <= |c.batch| && c.batch != [] && WholeBatch(c.batch)
    && (forall i :: 0 <= i < |c.sequences| ==>
          && 1 <= c.sequences[i] <= |s.log|
          && s.owner[c.sequences[i] - 1] == k
          && s.log[c.sequences[i] - 1] == c.batch[i])
    && (forall i, j :: 0 <= i < j < |c.sequences| ==> c.sequences[i] < c.sequences[j])
    && (c.phase == Ready ==> c.sequences == [])
    && (c.phase == Committed ==> |c.sequences| == |c.batch|)
  }

  ghost predicate RowOk(s: State, n: nat)
    requires Shaped(s) && n < |s.log|
  {
    && s.owner[n] in s.commands
    && n + 1 in s.commands[s.owner[n]].sequences
  }

  ghost predicate Ledger(s: State)
    requires Shaped(s)
  {
    && (forall k :: k in s.commands ==> CommandOk(s, k))
    && (forall n :: 0 <= n < |s.log| ==> RowOk(s, n))
  }

  // Ids

  predicate NewIdsUsed(e: Event, used: set<string>) {
    && (e.ConversationCreated? ==> e.conversation in used)
    && (e.ThreadStarted? ==> e.thread in used)
  }

  ghost predicate DistinctIds(s: State) {
    && (forall k, i :: k in s.commands && 0 <= i < |s.commands[k].batch| ==>
          NewIdsUsed(s.commands[k].batch[i], s.used))
    && (forall k, i, l, j ::
          && k in s.commands && 0 <= i < |s.commands[k].batch|
          && l in s.commands && 0 <= j < |s.commands[l].batch|
          && (k != l || i != j)
          ==> !Clash(s.commands[k].batch[i], s.commands[l].batch[j]))
  }

  // What each raised event rests on

  ghost predicate RestsOn(s: State, k: nat, e: Event, m: nat)
    requires Shaped(s) && k in s.commands
  {
    && m < |s.log| && IsCommitted(s, m + 1) && Needs(e, s.log[m])
    && forall j :: 0 <= j < |s.commands[k].sequences| ==> m + 1 < s.commands[k].sequences[j]
  }

  /** What event i needs comes earlier in its own batch, or was committed before its rows were numbered. */
  ghost predicate Justified(s: State, k: nat, i: nat)
    requires Shaped(s) && k in s.commands && i < |s.commands[k].batch|
  {
    var batch := s.commands[k].batch;
    || batch[i].ConversationCreated?
    || (exists j :: 0 <= j < i && Needs(batch[i], batch[j]))
    || (exists m :: RestsOn(s, k, batch[i], m))
  }

  ghost predicate Grounds(s: State)
    requires Shaped(s)
  {
    forall k, i :: k in s.commands && 0 <= i < |s.commands[k].batch| ==> Justified(s, k, i)
  }

  // The projection

  ghost predicate SnapshotOk(s: State, q: Tables)
    requires Shaped(s)
  {
    && q.checkpoint <= Current(s).checkpoint <= |s.log|
    && TablesMatch(q, s.log[..q.checkpoint])
  }

  ghost predicate ProjectionOk(s: State)
    requires Shaped(s)
  {
    && (forall i :: 0 <= i < |s.snapshots| ==> SnapshotOk(s, s.snapshots[i]))
    && (forall n :: 1 <= n <= Current(s).checkpoint ==> IsCommitted(s, n))
    && (forall n :: n in s.done ==> 1 <= n <= Current(s).checkpoint)
  }

  ghost predicate RelayOk(s: State)
    requires Shaped(s)
  {
    match s.relay
    case Idle => true
    case Listed(pending) =>
      forall i :: 0 <= i < |pending| ==>
        IsCommitted(s, pending[i].sequence) && pending[i].event == s.log[pending[i].sequence - 1]
    case Planned(run) =>
      && run != []
      && var checkpoint := Current(s).checkpoint;
      && checkpoint + |run| <= |s.log|
      && run == EntriesFrom(checkpoint, s.log[checkpoint..checkpoint + |run|])
      && forall n :: checkpoint < n <= checkpoint + |run| ==> IsCommitted(s, n)
    case Marking(rest) => forall i :: 0 <= i < |rest| ==> 1 <= rest[i] <= Current(s).checkpoint
  }

  ghost predicate Inv(s: State) {
    && Shaped(s) && Ledger(s) && DistinctIds(s) && Grounds(s) && ProjectionOk(s) && RelayOk(s)
  }

  // The log is well formed

  lemma SlotOf(s: State, n: nat) returns (k: nat, i: nat)
    requires Shaped(s) && Ledger(s) && n < |s.log|
    ensures k == s.owner[n] && k in s.commands && i < |s.commands[k].sequences| <= |s.commands[k].batch|
    ensures s.commands[k].sequences[i] == n + 1 && s.commands[k].batch[i] == s.log[n]
  {
    k := s.owner[n];
    assert RowOk(s, n);
    i :| 0 <= i < |s.commands[k].sequences| && s.commands[k].sequences[i] == n + 1;
    assert CommandOk(s, k);
  }

  /** What a row's event needs stands at an earlier number, in a row of the same command or a committed one. */
  lemma RowRests(s: State, n: nat) returns (m: nat)
    requires Shaped(s) && Ledger(s) && Grounds(s) && n < |s.log| && !s.log[n].ConversationCreated?
    ensures m < n && Needs(s.log[n], s.log[m]) && (IsCommitted(s, m + 1) || s.owner[m] == s.owner[n])
  {
    var k, i := SlotOf(s, n);
    var c := s.commands[k];
    assert CommandOk(s, k) && Justified(s, k, i);
    if j :| 0 <= j < i && Needs(c.batch[i], c.batch[j]) {
      m := c.sequences[j] - 1;
    } else {
      m :| RestsOn(s, k, c.batch[i], m);
    }
  }

  lemma RowsDistinct(s: State, n: nat, m: nat)
    requires Shaped(s) && Ledger(s) && DistinctIds(s) && m < n < |s.log|
    ensures !Clash(s.log[m], s.log[n])
  {
    var k, i := SlotOf(s, n);
    var l, j := SlotOf(s, m);
    assert !Clash(s.commands[l].batch[j], s.commands[k].batch[i]);
  }

  /** Numbers respect causality, committed or not: a message or membership change always has a larger
      number than its thread's start, and a start a larger one than its conversation's creation. */
  lemma LogWellFormed(s: State)
    requires Shaped(s) && Ledger(s) && DistinctIds(s) && Grounds(s)
    ensures WellFormed(s.log)
  {
    forall n | 0 <= n < |s.log| ensures Grounded(s.log[..n], s.log[n]) {
      if !s.log[n].ConversationCreated? {
        var m := RowRests(s, n);
        assert Needs(s.log[n], s.log[..n][m]);
      }
    }
    forall n, m | 0 <= m < n < |s.log| ensures !Clash(s.log[m], s.log[n]) {
      RowsDistinct(s, n, m);
    }
  }

  lemma {:induction false} CommittedIn(s: State, n: nat, m: nat)
    requires Shaped(s) && m < n <= |s.log| && IsCommitted(s, m + 1)
    ensures s.log[m] in CommittedLog(s, n)
  {
    if m < n - 1 {
      CommittedIn(s, n - 1, m);
    }
  }

  lemma {:induction false} CommittedFrom(s: State, n: nat, e: Event)
    requires Shaped(s) && n <= |s.log| && e in CommittedLog(s, n)
    ensures exists m :: 0 <= m < n && IsCommitted(s, m + 1) && s.log[m] == e
  {
    if IsCommitted(s, n) && e == s.log[n - 1] {
      assert IsCommitted(s, (n - 1) + 1);
    } else {
      CommittedFrom(s, n - 1, e);
    }
  }

  /** The committed rows alone are well formed too, whatever was rolled back or is still open. */
  lemma {:induction false} CommittedLogWellFormed(s: State, n: nat)
    requires Shaped(s) && Ledger(s) && DistinctIds(s) && Grounds(s) && n <= |s.log|
    ensures WellFormed(CommittedLog(s, n))
  {
    if n > 0 {
      CommittedLogWellFormed(s, n - 1);
      if IsCommitted(s, n) {
        var before, e := CommittedLog(s, n - 1), s.log[n - 1];
        assert Grounded(before, e) by {
          if !e.ConversationCreated? {
            var m := RowRests(s, n - 1);
            CommittedIn(s, n - 1, m);
            var j :| 0 <= j < |before| && before[j] == s.log[m];
            assert Needs(e, before[j]);
          }
        }
        forall j | 0 <= j < |before| ensures !Clash(before[j], e) {
          CommittedFrom(s, n - 1, before[j]);
          var m :| 0 <= m < n - 1 && IsCommitted(s, m + 1) && s.log[m] == before[j];
          RowsDistinct(s, n - 1, m);
        }
        WellFormedSnoc(before, e);
      } else {
        assert CommittedLog(s, n) == CommittedLog(s, n - 1);
      }
    }
  }
}
