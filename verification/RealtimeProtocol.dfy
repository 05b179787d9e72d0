/** One replica's cursor over the shared event table, under any interleaving of commits, polls and pruning. Ids are
    taken before their rows become visible, so rows may become visible out of id order. */
module RealtimeProtocol {
  import opened Text
  import opened Selection
  import opened Realtime

  datatype State = State(
    table: Table,
    cursor: Id,
    handed: seq<Id>,
    used: set<Id>,    // ids of every row ever visible
    seen: set<Id>,    // those of them written by other replicas
    late: set<Id>,    // seen ids that became visible at or behind the cursor
    pruned: set<Id>)  // seen ids deleted while still ahead of the cursor

  datatype Step = Commit(id: Id, row: Row) | Poll(ids: seq<Id>) | Prune(cutoff: int)

  function Initial(): State {
    State(map[], 0, [], {}, {}, {}, {})
  }

  function PendingIds(s: State, source: string): set<Id> {
    Foreign(s.table, s.cursor, source)
  }

  function Expired(table: Table, cutoff: int): set<Id> {
    set id | id in table && table[id].createdAt < cutoff
  }

  ghost predicate Enabled(s: State, step: Step, source: string) {
    match step
    case Commit(id, _) => 0 < id && id !in s.used
    case Poll(ids) => FirstOf(PendingIds(s, source), POLL_LIMIT, ids)
    case Prune(_) => true
  }

  function Apply(s: State, step: Step, source: string): State {
    match step
    case Commit(id, row) =>
      var foreign := row.source != source;
      s.(table := s.table[id := row],
         used := s.used + {id},
         seen := if foreign then s.seen + {id} else s.seen,
         late := if foreign && id <= s.cursor then s.late + {id} else s.late)
    case Poll(ids) => s.(cursor := CursorAfter(s.cursor, ids), handed := s.handed + ids)
    case Prune(cutoff) =>
      var expired := Expired(s.table, cutoff);
      s.(table := s.table - expired, pruned := s.pruned + (PendingIds(s, source) * expired))
  }

  ghost predicate Behaviour(s: State, steps: seq<Step>, source: string)
    decreases |steps|
  {
    steps == [] || (Enabled(s, steps[0], source) && Behaviour(Apply(s, steps[0], source), steps[1..], source))
  }

  function Run(s: State, steps: seq<Step>, source: string): State
    decreases |steps|
  {
    if steps == [] then s else Run(Apply(s, steps[0], source), steps[1..], source)
  }

  /** Ids handed over ascend and lie behind the cursor; late ones lie behind it too. */
  ghost predicate Behind(s: State) {
    && Ascending(s.handed)
    && (forall i :: 0 <= i < |s.handed| ==> s.handed[i] <= s.cursor)
    && (forall id :: id in s.late ==> id <= s.cursor)
    && (s.cursor == 0 || s.cursor in s.seen)
  }

  /** Every foreign id seen was handed over, or is pending, late or pruned, and only one of these. */
  ghost predicate Accounted(s: State, source: string) {
    var handed, pending := SetOf(s.handed), PendingIds(s, source);
    && s.seen == handed + pending + s.late + s.pruned
    && handed !! s.late && handed !! s.pruned && s.late !! s.pruned && pending !! s.pruned
    && s.table.Keys <= s.used && s.seen <= s.used
  }

  lemma CommitKeeps(s: State, id: Id, row: Row, source: string)
    requires Behind(s) && Accounted(s, source) && Enabled(s, Commit(id, row), source)
    ensures Behind(Apply(s, Commit(id, row), source)) && Accounted(Apply(s, Commit(id, row), source), source)
  {
    var t := Apply(s, Commit(id, row), source);
    assert PendingIds(t, source) == PendingIds(s, source) + if row.source != source && id > s.cursor then {id} else {};
  }

  /** A poll takes from what is pending exactly the ids it hands over. */
  lemma PollTakes(table: Table, cursor: Id, source: string, ids: seq<Id>)
    requires FirstOf(Foreign(table, cursor, source), POLL_LIMIT, ids)
    ensures Foreign(table, CursorAfter(cursor, ids), source) == Foreign(table, cursor, source) - SetOf(ids)
    ensures ids != [] ==> CursorAfter(cursor, ids) in SetOf(ids)
  {
    var pending, next := Foreign(table, cursor, source), CursorAfter(cursor, ids);
    if ids != [] {
      assert forall k :: 0 <= k < |ids| ==> ids[k] in SetOf(ids);
      assert next in SetOf(ids) && next > cursor;
      forall id | id in pending ensures id > next <==> id !in SetOf(ids) {
        if id in SetOf(ids) {
          var k :| 0 <= k < |ids| && ids[k] == id;
        } else {
          assert AllBelow(ids, id);
        }
      }
    }
  }

  lemma Moved(seen: set<Id>, handed: set<Id>, pending: set<Id>, late: set<Id>, pruned: set<Id>, taken: set<Id>)
    requires seen == handed + pending + late + pruned && taken <= pending && taken !! late
    requires handed !! late && handed !! pruned && pending !! pruned
    ensures seen == (handed + taken) + (pending - taken) + late + pruned
    ensures handed + taken !! late && handed + taken !! pruned && pending - taken !! pruned
  {
  }

  lemma PollStaysBehind(s: State, ids: seq<Id>, source: string)
    requires Behind(s) && Accounted(s, source) && Enabled(s, Poll(ids), source)
    ensures Behind(Apply(s, Poll(ids), source)) && SetOf(ids) !! s.late
  {
    NextIdsAscend(s.handed, ids, s.cursor, s.table, source);
    PollTakes(s.table, s.cursor, source, ids);
    assert forall id :: id in SetOf(ids) ==> id > s.cursor;
    assert s.cursor <= CursorAfter(s.cursor, ids);
  }

  lemma PollKeeps(s: State, ids: seq<Id>, source: string)
    requires Behind(s) && Accounted(s, source) && Enabled(s, Poll(ids), source)
    ensures Behind(Apply(s, Poll(ids), source)) && Accounted(Apply(s, Poll(ids), source), source)
    ensures PendingIds(Apply(s, Poll(ids), source), source) == PendingIds(s, source) - SetOf(ids)
  {
    PollStaysBehind(s, ids, source);
    PollTakes(s.table, s.cursor, source, ids);
    Moved(s.seen, SetOf(s.handed), PendingIds(s, source), s.late, s.pruned, SetOf(ids));
    ConcatSet(s.handed, ids);
  }

  lemma PruneKeeps(s: State, cutoff: int, source: string)
    requires Behind(s) && Accounted(s, source)
    ensures Behind(Apply(s, Prune(cutoff), source)) && Accounted(Apply(s, Prune(cutoff), source), source)
  {
    var t := Apply(s, Prune(cutoff), source);
    assert PendingIds(t, source) == PendingIds(s, source) - Expired(s.table, cutoff);
    assert SetOf(s.handed) !! PendingIds(s, source) by {
      assert forall id :: id in SetOf(s.handed) ==> id <= s.cursor;
    }
  }

  lemma StepKeeps(s: State, step: Step, source: string)
    requires Behind(s) && Accounted(s, source) && Enabled(s, step, source)
    ensures Behind(Apply(s, step, source)) && Accounted(Apply(s, step, source), source)
  {
    match step
    case Commit(id, row) => CommitKeeps(s, id, row, source);
    case Poll(ids) => PollKeeps(s, ids, source);
    case Prune(cutoff) => PruneKeeps(s, cutoff, source);
  }

  /** In every run, ids are handed over in strictly increasing order, and what is missed is exactly what was late or
      pruned. */
  lemma {:induction false} RunKeeps(s: State, steps: seq<Step>, source: string)
    requires Behind(s) && Accounted(s, source) && Behaviour(s, steps, source)
    ensures Behind(Run(s, steps, source)) && Accounted(Run(s, steps, source), source)
    decreases |steps|
  {
    if steps != [] {
      StepKeeps(s, steps[0], source);
      RunKeeps(Apply(s, steps[0], source), steps[1..], source);
    }
  }

  /** An id that came late or was pruned stays missed in every continuation. */
  lemma {:induction false} MissedForGood(s: State, steps: seq<Step>, source: string, id: Id)
    requires Behind(s) && Accounted(s, source) && Behaviour(s, steps, source) && (id in s.late || id in s.pruned)
    ensures id !in Run(s, steps, source).handed
    decreases |steps|
  {
    if steps != [] {
      StepKeeps(s, steps[0], source);
      MissedForGood(Apply(s, steps[0], source), steps[1..], source, id);
    } else {
      assert id !in SetOf(s.handed);
    }
  }

  /** A foreign row becomes visible after all earlier ids, and pruning spares what is still ahead of the cursor. */
  predicate Orderly(s: State, step: Step, source: string) {
    match step
    case Commit(id, row) => row.source != source ==> forall earlier :: earlier in s.seen ==> earlier < id
    case Poll(_) => true
    case Prune(cutoff) => PendingIds(s, source) !! Expired(s.table, cutoff)
  }

  predicate OrderlyRun(s: State, steps: seq<Step>, source: string)
    decreases |steps|
  {
    steps == [] || (Orderly(s, steps[0], source) && OrderlyRun(Apply(s, steps[0], source), steps[1..], source))
  }

  lemma {:induction false} OrderlyMissesNothing(s: State, steps: seq<Step>, source: string)
    requires Behind(s) && Accounted(s, source) && Behaviour(s, steps, source) && OrderlyRun(s, steps, source)
    requires s.late == {} && s.pruned == {}
    ensures var t := Run(s, steps, source); t.seen == SetOf(t.handed) + PendingIds(t, source)
    decreases |steps|
  {
    if steps != [] {
      StepKeeps(s, steps[0], source);
      OrderlyMissesNothing(Apply(s, steps[0], source), steps[1..], source);
    }
  }

  /** A poll that hands over fewer than its limit has caught up. */
  lemma ShortPollCatchesUp(s: State, ids: seq<Id>, source: string)
    requires Behind(s) && Accounted(s, source) && Enabled(s, Poll(ids), source) && |ids| < POLL_LIMIT
    ensures PendingIds(Apply(s, Poll(ids), source), source) == {}
  {
    PollTakes(s.table, s.cursor, source, ids);
    FewerIsAll(PendingIds(s, source), POLL_LIMIT, ids);
  }

  lemma AfterCommit(row: Row)
    requires row.source != "self"
    ensures Apply(Initial(), Commit(2, row), "self") == State(map[2 := row], 0, [], {2}, {2}, {}, {})
  {
  }

  lemma AfterPoll(row: Row)
    requires row.source != "self"
    ensures var s := State(map[2 := row], 0, [], {2}, {2}, {}, {});
      Enabled(s, Poll([2]), "self") && Apply(s, Poll([2]), "self") == State(map[2 := row], 2, [2], {2}, {2}, {}, {})
  {
    var s := State(map[2 := row], 0, [], {2}, {2}, {}, {});
    assert PendingIds(s, "self") == {2} && SetOf([2]) == {2};
    assert s.handed + [2] == [2];
  }

  lemma {:induction false} TwoSteps(s: State, a: Step, b: Step, source: string)
    requires Enabled(s, a, source) && Enabled(Apply(s, a, source), b, source)
    ensures Behaviour(s, [a, b], source) && Run(s, [a, b], source) == Apply(Apply(s, a, source), b, source)
  {
    var t := Apply(s, a, source);
    assert [a, b][1..] == [b] && [b][1..] == [];
    assert Behaviour(t, [b], source) && Run(t, [b], source) == Apply(t, b, source);
  }

  /** Two writers whose rows become visible in the other order: the lower id is never handed over. */
  lemma OutOfOrderIsMissed(row: Row)
    requires row.source != "self"
    ensures var s := Apply(Initial(), Commit(2, row), "self");
      var t := Run(s, [Poll([2]), Commit(1, row)], "self");
      && Enabled(Initial(), Commit(2, row), "self") && Behaviour(s, [Poll([2]), Commit(1, row)], "self")
      && t.seen == {1, 2} && t.handed == [2] && t.late == {1}
  {
    AfterCommit(row);
    AfterPoll(row);
    TwoSteps(Apply(Initial(), Commit(2, row), "self"), Poll([2]), Commit(1, row), "self");
  }
}
