/** The outbox under any interleaving of requests, which publish, look up the latest unmarked row of their key and mark
    it, with the sweep, which publishes and marks the rows it has claimed, with pruning, and with crashes anywhere. */
module OutboxProtocol {
  import opened Text
  import opened Selection
  import opened Outbox

  /** How far a request has come since its write committed. */
  datatype Phase = Owing | Published | Found(id: Id)

  datatype Request = Request(key: Key, phase: Phase)

  datatype State = State(
    rows: Rows,
    next: Id,
    requests: map<Id, Request>,
    queue: seq<Id>,           // events the running sweep has claimed and not yet published
    marking: Option<Id>,      // the event it has published and not yet marked
    written: map<Id, Key>,    // every row ever inserted
    marked: set<Id>,          // every row ever marked
    publishes: map<Key, nat>) // publish steps run for each key

  datatype Step =
    | Commit(key: Key, insertsRow: bool, now: Time)
    | Publish(request: Id)
    | Find(request: Id, found: Option<Id>)
    | Mark(request: Id, now: Time)
    | Leave(request: Id)
    | Claim(cutoff: Time, ids: seq<Id>)
    | PublishSwept(succeeds: bool)
    | MarkSwept(succeeds: bool, now: Time)
    | StopSweep
    | Prune(cutoff: Time)

  function Initial(): State {
    State(map[], 0, map[], [], None, map[], {}, map[])
  }

  function PublishesOf(s: State, key: Key): nat {
    if key in s.publishes then s.publishes[key] else 0
  }

  function CountPublish(s: State, key: Key): State {
    s.(publishes := s.publishes[key := PublishesOf(s, key) + 1])
  }

  function MarkRow(s: State, id: Id, now: Time): State {
    s.(rows := Marked(s.rows, id, now), marked := if Pending(s.rows, id) then s.marked + {id} else s.marked)
  }

  /** Whether a step can be taken. Some committed writes insert no row: an update that changes nothing, or a
      collection without history. */
  ghost predicate Enabled(s: State, step: Step) {
    match step
    case Commit(_, _, _) => true
    case Publish(r) => r in s.requests && s.requests[r].phase == Owing
    case Find(r, found) =>
      r in s.requests && s.requests[r].phase == Published && IsLatest(s.rows, s.requests[r].key, found)
    case Mark(r, _) => r in s.requests && s.requests[r].phase.Found?
    case Leave(r) => r in s.requests
    case Claim(cutoff, ids) =>
      s.queue == [] && s.marking == None && AmongFirst(EligibleIds(s.rows, cutoff), SWEEP_BATCH, ids)
    case PublishSwept(_) => s.queue != [] && s.marking == None && s.queue[0] in s.written
    case MarkSwept(_, _) => s.marking.Some?
    case StopSweep => true
    case Prune(_) => true
  }

  function Apply(s: State, step: Step): State {
    match step
    case Commit(key, insertsRow, now) =>
      var t := s.(next := s.next + 1, requests := s.requests[s.next := Request(key, Owing)]);
      if !insertsRow then t
      else t.(rows := t.rows[s.next := Row(key, now, None, 0)], written := t.written[s.next := key])
    case Publish(r) =>
      if r !in s.requests then s
      else CountPublish(s, s.requests[r].key).(requests := s.requests[r := s.requests[r].(phase := Published)])
    case Find(r, found) =>
      if r !in s.requests then s
      else if found.None? then s.(requests := s.requests - {r})
      else s.(requests := s.requests[r := s.requests[r].(phase := Found(found.value))])
    case Mark(r, now) =>
      if r !in s.requests || !s.requests[r].phase.Found? then s
      else MarkRow(s, s.requests[r].phase.id, now).(requests := s.requests - {r})
    case Leave(r) => s.(requests := s.requests - {r})
    case Claim(cutoff, ids) => s.(rows := Attempted(s.rows, ids), queue := ids)
    case PublishSwept(succeeds) =>
      if s.queue == [] || s.queue[0] !in s.written then s
      else
        var marking := if succeeds then Some(s.queue[0]) else None;
        CountPublish(s, s.written[s.queue[0]]).(queue := s.queue[1..], marking := marking)
    case MarkSwept(succeeds, now) =>
      if s.marking.None? then s
      else (if succeeds then MarkRow(s, s.marking.value, now) else s).(marking := None)
    case StopSweep => s.(queue := [], marking := None)
    case Prune(cutoff) => s.(rows := Pruned(s.rows, cutoff))
  }

  ghost predicate Behaviour(s: State, steps: seq<Step>)
    decreases |steps|
  {
    steps == [] || (Enabled(s, steps[0]) && Behaviour(Apply(s, steps[0]), steps[1..]))
  }

  function Run(s: State, steps: seq<Step>): State
    decreases |steps|
  {
    if steps == [] then s else Run(Apply(s, steps[0]), steps[1..])
  }

  // ---------- The invariant ----------

  function WrittenFor(s: State, key: Key): set<Id> {
    set id | id in s.written && s.written[id] == key
  }

  function MarkedFor(s: State, key: Key): set<Id> {
    set id | id in s.marked && id in s.written && s.written[id] == key
  }

  /** Requests of this key that have published and may yet mark a row. */
  function PublishedFor(s: State, key: Key): set<Id> {
    set r | r in s.requests && s.requests[r].key == key && !s.requests[r].phase.Owing?
  }

  function SweepOwes(s: State, key: Key): nat {
    if s.marking.Some? && s.marking.value in s.written && s.written[s.marking.value] == key then 1 else 0
  }

  /** Rows are what was written, less what was marked and pruned. */
  ghost predicate RowsMatchHistory(s: State) {
    && (forall id :: id in s.rows ==> id in s.written && s.rows[id].key == s.written[id])
    && (forall id :: id in s.rows && s.rows[id].publishedAt.Some? ==> id in s.marked)
    && (forall id :: id in s.written && id !in s.marked ==> Pending(s.rows, id))
    && (forall id :: id in s.marked ==> id in s.written && !Pending(s.rows, id))
    && (forall id :: id in s.written ==> id < s.next)
    && (forall r :: r in s.requests ==> r < s.next)
    && (forall r :: r in s.requests && s.requests[r].phase.Found? ==>
          s.requests[r].phase.id in s.written && s.written[s.requests[r].phase.id] == s.requests[r].key)
    && (forall i :: 0 <= i < |s.queue| ==> s.queue[i] in s.written)
    && (s.marking.Some? ==> s.marking.value in s.written)
    && AttemptsBounded(s.rows)
  }

  /** Marks never outrun publishes: every mark made, or still to be made, was preceded by a publish of its key. */
  ghost predicate MarksCovered(s: State, key: Key) {
    |MarkedFor(s, key)| + |PublishedFor(s, key)| + SweepOwes(s, key) <= PublishesOf(s, key)
  }

  lemma RequestBeginsKeepsRows(s: State, key: Key)
    requires RowsMatchHistory(s)
    ensures RowsMatchHistory(s.(next := s.next + 1, requests := s.requests[s.next := Request(key, Owing)]))
  {
  }

  lemma InsertKeepsRows(s: State, id: Id, row: Row)
    requires RowsMatchHistory(s) && id < s.next && id !in s.written && row.publishedAt.None? && row.attempts == 0
    ensures RowsMatchHistory(s.(rows := s.rows[id := row], written := s.written[id := row.key]))
  {
  }

  lemma CommitKeepsRows(s: State, key: Key, insertsRow: bool, now: Time)
    requires RowsMatchHistory(s)
    ensures RowsMatchHistory(Apply(s, Commit(key, insertsRow, now)))
  {
    RequestBeginsKeepsRows(s, key);
    if insertsRow {
      var t := s.(next := s.next + 1, requests := s.requests[s.next := Request(key, Owing)]);
      InsertKeepsRows(t, s.next, Row(key, now, None, 0));
    }
  }

  lemma RequestsKeepRows(s: State, requests: map<Id, Request>)
    requires RowsMatchHistory(s)
    requires forall r :: r in requests ==> r in s.requests && requests[r].key == s.requests[r].key
    requires forall r :: r in requests && requests[r].phase.Found? ==>
               requests[r].phase.id in s.written && s.written[requests[r].phase.id] == requests[r].key
    ensures RowsMatchHistory(s.(requests := requests))
  {
  }

  lemma CountKeepsRows(s: State, key: Key)
    requires RowsMatchHistory(s)
    ensures RowsMatchHistory(CountPublish(s, key))
  {
  }

  lemma MarkKeepsRows(s: State, id: Id, now: Time)
    requires RowsMatchHistory(s) && id in s.written
    ensures RowsMatchHistory(MarkRow(s, id, now))
  {
    if Pending(s.rows, id) {
      PendingMarkKeepsRows(s, id, now);
    } else {
      assert MarkRow(s, id, now) == s;
    }
  }

  lemma PendingMarkKeepsRows(s: State, id: Id, now: Time)
    requires RowsMatchHistory(s) && Pending(s.rows, id)
    ensures RowsMatchHistory(s.(rows := s.rows[id := s.rows[id].(publishedAt := Some(now))], marked := s.marked + {id}))
  {
  }

  lemma ClaimKeepsRows(s: State, cutoff: Time, ids: seq<Id>)
    requires RowsMatchHistory(s) && AmongFirst(EligibleIds(s.rows, cutoff), SWEEP_BATCH, ids)
    ensures RowsMatchHistory(s.(rows := Attempted(s.rows, ids), queue := ids))
  {
    AttemptsStayBounded(s.rows, ids, cutoff);
    forall i | 0 <= i < |ids| ensures ids[i] in s.written {
      assert ids[i] in SetOf(ids);
    }
  }

  lemma SweepKeepsRows(s: State, queue: seq<Id>, marking: Option<Id>)
    requires RowsMatchHistory(s)
    requires forall i :: 0 <= i < |queue| ==> queue[i] in s.written
    requires marking.Some? ==> marking.value in s.written
    ensures RowsMatchHistory(s.(queue := queue, marking := marking))
  {
  }

  lemma PruneKeepsRows(s: State, cutoff: Time)
    requires RowsMatchHistory(s)
    ensures RowsMatchHistory(s.(rows := Pruned(s.rows, cutoff)))
  {
  }

  lemma RequestStepKeepsRows(s: State, step: Step)
    requires RowsMatchHistory(s) && Enabled(s, step) && (step.Publish? || step.Find? || step.Mark? || step.Leave?)
    ensures RowsMatchHistory(Apply(s, step))
  {
    match step {
      case Publish(r) =>
        var t := CountPublish(s, s.requests[r].key);
        CountKeepsRows(s, s.requests[r].key);
        RequestsKeepRows(t, Apply(s, step).requests);
      case Find(r, found) => RequestsKeepRows(s, Apply(s, step).requests);
      case Mark(r, now) =>
        MarkKeepsRows(s, s.requests[r].phase.id, now);
        RequestsKeepRows(MarkRow(s, s.requests[r].phase.id, now), s.requests - {r});
      case Leave(r) => RequestsKeepRows(s, s.requests - {r});
    }
  }

  lemma DeliveryStepKeepsRows(s: State, step: Step)
    requires RowsMatchHistory(s) && Enabled(s, step) && (step.PublishSwept? || step.MarkSwept?)
    ensures RowsMatchHistory(Apply(s, step))
  {
    match step {
      case PublishSwept(succeeds) =>
        CountKeepsRows(s, s.written[s.queue[0]]);
        var marking := if succeeds then Some(s.queue[0]) else None;
        SweepKeepsRows(CountPublish(s, s.written[s.queue[0]]), s.queue[1..], marking);
      case MarkSwept(succeeds, now) =>
        MarkKeepsRows(s, s.marking.value, now);
        SweepKeepsRows(if succeeds then MarkRow(s, s.marking.value, now) else s, s.queue, None);
    }
  }

  lemma StepKeepsRows(s: State, step: Step)
    requires RowsMatchHistory(s) && Enabled(s, step)
    ensures RowsMatchHistory(Apply(s, step))
  {
    match step {
      case Commit(key, insertsRow, now) => CommitKeepsRows(s, key, insertsRow, now);
      case Claim(cutoff, ids) => ClaimKeepsRows(s, cutoff, ids);
      case StopSweep => SweepKeepsRows(s, [], None);
      case Prune(cutoff) => PruneKeepsRows(s, cutoff);
      case PublishSwept(_) => DeliveryStepKeepsRows(s, step);
      case MarkSwept(_, _) => DeliveryStepKeepsRows(s, step);
      case _ => RequestStepKeepsRows(s, step);
    }
  }

  lemma MarkAddsOne(s: State, id: Id, now: Time, key: Key)
    requires RowsMatchHistory(s) && id in s.written
    ensures |MarkedFor(MarkRow(s, id, now), key)| <= |MarkedFor(s, key)| + if s.written[id] == key then 1 else 0
  {
    var t := MarkRow(s, id, now);
    if s.written[id] == key && Pending(s.rows, id) {
      assert MarkedFor(t, key) == MarkedFor(s, key) + {id};
    } else {
      assert MarkedFor(t, key) == MarkedFor(s, key);
    }
  }

  lemma RemovedRequest(s: State, t: State, r: Id, key: Key)
    requires r in s.requests && t.requests == s.requests - {r}
    ensures |PublishedFor(t, key)| == |PublishedFor(s, key)| - if r in PublishedFor(s, key) then 1 else 0
  {
    assert PublishedFor(t, key) == PublishedFor(s, key) - {r};
  }

  lemma PublishedRequest(s: State, t: State, r: Id, key: Key)
    requires r in s.requests && s.requests[r].phase.Owing? &&
             t.requests == s.requests[r := s.requests[r].(phase := Published)]
    ensures |PublishedFor(t, key)| == |PublishedFor(s, key)| + if s.requests[r].key == key then 1 else 0
  {
    var own := if s.requests[r].key == key then {r} else {};
    assert PublishedFor(t, key) == PublishedFor(s, key) + own;
  }

  lemma PublishKeepsMarksCovered(s: State, r: Id, key: Key)
    requires r in s.requests && s.requests[r].phase.Owing? && MarksCovered(s, key)
    ensures MarksCovered(Apply(s, Publish(r)), key)
  {
    var t := Apply(s, Publish(r));
    assert MarkedFor(t, key) == MarkedFor(s, key);
    PublishedRequest(s, t, r, key);
  }

  lemma FindKeepsMarksCovered(s: State, r: Id, found: Option<Id>, key: Key)
    requires r in s.requests && s.requests[r].phase == Published && MarksCovered(s, key)
    ensures MarksCovered(Apply(s, Find(r, found)), key)
  {
    var t := Apply(s, Find(r, found));
    assert MarkedFor(t, key) == MarkedFor(s, key);
    if found.None? {
      RemovedRequest(s, t, r, key);
    } else {
      assert PublishedFor(t, key) == PublishedFor(s, key);
    }
  }

  lemma LeaveKeepsMarksCovered(s: State, r: Id, key: Key)
    requires r in s.requests && MarksCovered(s, key)
    ensures MarksCovered(Apply(s, Leave(r)), key)
  {
    assert MarkedFor(Apply(s, Leave(r)), key) == MarkedFor(s, key);
    RemovedRequest(s, Apply(s, Leave(r)), r, key);
  }

  lemma MarkKeepsMarksCovered(s: State, r: Id, now: Time, key: Key)
    requires RowsMatchHistory(s) && r in s.requests && s.requests[r].phase.Found? && MarksCovered(s, key)
    ensures MarksCovered(Apply(s, Mark(r, now)), key)
  {
    var id := s.requests[r].phase.id;
    var t, m := Apply(s, Mark(r, now)), MarkRow(s, id, now);
    MarkAddsOne(s, id, now, key);
    assert MarkedFor(t, key) == MarkedFor(m, key);
    RemovedRequest(s, t, r, key);
    assert r in PublishedFor(s, key) <==> s.written[id] == key;
  }

  lemma MarkSweptKeepsMarksCovered(s: State, succeeds: bool, now: Time, key: Key)
    requires RowsMatchHistory(s) && s.marking.Some? && MarksCovered(s, key)
    ensures MarksCovered(Apply(s, MarkSwept(succeeds, now)), key)
  {
    var t, m := Apply(s, MarkSwept(succeeds, now)), MarkRow(s, s.marking.value, now);
    MarkAddsOne(s, s.marking.value, now, key);
    assert PublishedFor(t, key) == PublishedFor(s, key);
    assert MarkedFor(t, key) == if succeeds then MarkedFor(m, key) else MarkedFor(s, key);
  }

  lemma CommitKeepsMarksCovered(s: State, key: Key, insertsRow: bool, now: Time, k: Key)
    requires RowsMatchHistory(s) && MarksCovered(s, k)
    ensures MarksCovered(Apply(s, Commit(key, insertsRow, now)), k)
  {
    var t := Apply(s, Commit(key, insertsRow, now));
    assert MarkedFor(t, k) == MarkedFor(s, k);
    assert PublishedFor(t, k) == PublishedFor(s, k);
  }

  lemma StepKeepsMarksCovered(s: State, step: Step, key: Key)
    requires RowsMatchHistory(s) && Enabled(s, step) && MarksCovered(s, key)
    ensures MarksCovered(Apply(s, step), key)
  {
    if step.Publish? {
      PublishKeepsMarksCovered(s, step.request, key);
    } else if step.Find? {
      FindKeepsMarksCovered(s, step.request, step.found, key);
    } else if step.Mark? {
      MarkKeepsMarksCovered(s, step.request, step.now, key);
    } else if step.Leave? {
      LeaveKeepsMarksCovered(s, step.request, key);
    } else if step.Commit? {
      CommitKeepsMarksCovered(s, step.key, step.insertsRow, step.now, key);
    } else if step.MarkSwept? {
      MarkSweptKeepsMarksCovered(s, step.succeeds, step.now, key);
    } else {
      var t := Apply(s, step);
      assert MarkedFor(t, key) == MarkedFor(s, key) && PublishedFor(t, key) == PublishedFor(s, key);
    }
  }

  lemma {:induction false} RunKeepsInvariant(s: State, steps: seq<Step>, key: Key)
    requires RowsMatchHistory(s) && MarksCovered(s, key) && Behaviour(s, steps)
    ensures RowsMatchHistory(Run(s, steps)) && MarksCovered(Run(s, steps), key)
    decreases |steps|
  {
    if steps != [] {
      StepKeepsRows(s, steps[0]);
      StepKeepsMarksCovered(s, steps[0], key);
      RunKeepsInvariant(Apply(s, steps[0]), steps[1..], key);
    }
  }

  // ---------- What the outbox promises ----------

  /** In every run, the rows of a key ever marked never outnumber the publishes run for that key. */
  lemma MarksNeverOutnumberPublishes(steps: seq<Step>, key: Key)
    requires Behaviour(Initial(), steps)
    ensures |MarkedFor(Run(Initial(), steps), key)| <= PublishesOf(Run(Initial(), steps), key)
  {
    assert MarkedFor(Initial(), key) == {} && PublishedFor(Initial(), key) == {};
    RunKeepsInvariant(Initial(), steps, key);
  }

  /** In every run, when more rows of a key were written than publishes were run for it, an unmarked row of the
      key is still in the table, with at most ten attempts spent: crashes and pruning never lose what is owed. */
  lemma OwedPublishLeavesRow(steps: seq<Step>, key: Key) returns (id: Id)
    requires Behaviour(Initial(), steps)
    requires PublishesOf(Run(Initial(), steps), key) < |WrittenFor(Run(Initial(), steps), key)|
    ensures PendingFor(Run(Initial(), steps).rows, key, id) && Run(Initial(), steps).rows[id].attempts <= MAX_ATTEMPTS
  {
    var t := Run(Initial(), steps);
    MarksNeverOutnumberPublishes(steps, key);
    assert MarkedFor(Initial(), key) == {} && PublishedFor(Initial(), key) == {};
    RunKeepsInvariant(Initial(), steps, key);
    if WrittenFor(t, key) <= MarkedFor(t, key) {
      Smaller(WrittenFor(t, key), MarkedFor(t, key));
    }
    id :| id in WrittenFor(t, key) && id !in MarkedFor(t, key);
  }

  lemma RunCons(s: State, a: Step, rest: seq<Step>)
    ensures Run(s, [a] + rest) == Run(Apply(s, a), rest)
    ensures Behaviour(s, [a] + rest) <==> Enabled(s, a) && Behaviour(Apply(s, a), rest)
  {
    assert ([a] + rest)[1..] == rest;
  }

  /** Delivery is at least once, not exactly once: a request that publishes and stops before its mark, as every batch
      write does, leaves its row to the sweep, which publishes it again. */
  lemma RowsMayBePublishedTwice(key: Key) returns (steps: seq<Step>)
    ensures Behaviour(Initial(), steps)
    ensures |WrittenFor(Run(Initial(), steps), key)| < PublishesOf(Run(Initial(), steps), key)
  {
    var commit, claim := Commit(key, true, 0), Claim(1, [0]);
    var s1 := Apply(Initial(), commit);
    var s2 := Apply(s1, Publish(0));
    var s3 := Apply(s2, Leave(0));
    assert EligibleIds(s3.rows, 1) == {0} && SetOf([0]) == {0};
    var s4 := Apply(s3, claim);
    assert Enabled(s3, claim) && Enabled(s4, PublishSwept(true));
    var s5 := Apply(s4, PublishSwept(true));
    RunCons(s4, PublishSwept(true), []);
    RunCons(s3, claim, [PublishSwept(true)] + []);
    RunCons(s2, Leave(0), [claim] + ([PublishSwept(true)] + []));
    RunCons(s1, Publish(0), [Leave(0)] + ([claim] + ([PublishSwept(true)] + [])));
    steps := [commit] + ([Publish(0)] + ([Leave(0)] + ([claim] + ([PublishSwept(true)] + []))));
    RunCons(Initial(), commit, [Publish(0)] + ([Leave(0)] + ([claim] + ([PublishSwept(true)] + []))));
    assert WrittenFor(s5, key) == {0};
  }
}
