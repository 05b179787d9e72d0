/** The event outbox of one project: rows that record an owed event, their delivery marks, and the sweep. */
module Outbox {
  import opened Text
  import opened Selection

  type Time = int

  datatype Key = Key(collection: string, record: string, action: string)

  datatype Row = Row(key: Key, createdAt: Time, publishedAt: Option<Time>, attempts: nat)

  type Rows = map<Id, Row>

  const MAX_ATTEMPTS := 10
  const DEFAULT_LIMIT := 100
  const SWEEP_BATCH := 200
  const MAX_BATCHES := 50

  predicate Pending(rows: Rows, id: Id) {
    id in rows && rows[id].publishedAt.None?
  }

  predicate Eligible(rows: Rows, cutoff: Time, id: Id) {
    Pending(rows, id) && rows[id].createdAt < cutoff && rows[id].attempts < MAX_ATTEMPTS
  }

  function EligibleIds(rows: Rows, cutoff: Time): set<Id> {
    set id | id in rows && Eligible(rows, cutoff, id)
  }

  predicate PendingFor(rows: Rows, key: Key, id: Id) {
    Pending(rows, id) && rows[id].key == key
  }

  /** The row a request takes for its own: the latest unmarked one of its key. */
  predicate IsLatest(rows: Rows, key: Key, found: Option<Id>) {
    match found
    case None => forall id :: id in rows ==> !PendingFor(rows, key, id)
    case Some(latest) =>
      PendingFor(rows, key, latest) && forall id :: id in rows && PendingFor(rows, key, id) ==> id <= latest
  }

  function Marked(rows: Rows, id: Id, now: Time): Rows {
    if Pending(rows, id) then rows[id := rows[id].(publishedAt := Some(now))] else rows
  }

  function Attempted(rows: Rows, ids: seq<Id>): Rows {
    map id | id in rows :: if id in ids then rows[id].(attempts := rows[id].attempts + 1) else rows[id]
  }

  predicate Prunable(row: Row, cutoff: Time) {
    row.publishedAt.Some? && row.publishedAt.value < cutoff
  }

  function Pruned(rows: Rows, cutoff: Time): Rows {
    map id | id in rows && !Prunable(rows[id], cutoff) :: rows[id]
  }

  /** How one delivery of a swept event ends. */
  datatype Outcome = Delivered | PublishFailed | MarkFailed

  /** The positions from `base` on at which `id` was delivered and marked. */
  ghost predicate DeliveredIn(events: seq<Id>, base: nat, outcome: nat -> Outcome, id: Id) {
    exists k :: 0 <= k < |events| && events[k] == id && outcome(base + k) == Delivered
  }

  predicate FailsAt(events: seq<Id>, base: nat, outcome: nat -> Outcome, k: nat) {
    k < |events| && outcome(base + k) == PublishFailed
  }

  function MarkedRow(row: Row, delivered: bool, now: Time): Row {
    if delivered && row.publishedAt.None? then row.(publishedAt := Some(now)) else row
  }

  ghost predicate FailedBefore(events: seq<Id>, base: nat, outcome: nat -> Outcome, i: nat) {
    exists k: nat :: k < i && FailsAt(events, base, outcome, k)
  }

  lemma FailedNext(events: seq<Id>, base: nat, outcome: nat -> Outcome, i: nat)
    requires i < |events|
    ensures FailedBefore(events, base, outcome, i + 1) <==>
            FailedBefore(events, base, outcome, i) || outcome(base + i) == PublishFailed
  {
    if outcome(base + i) == PublishFailed { assert FailsAt(events, base, outcome, i); }
  }

  lemma FailedAtAll(events: seq<Id>, base: nat, outcome: nat -> Outcome)
    ensures FailedBefore(events, base, outcome, |events|) <==> exists k: nat :: FailsAt(events, base, outcome, k)
  {
  }

  /** The rows after delivering `events`, whose outcomes start at `base`. */
  ghost function AfterDelivery(rows: Rows, events: seq<Id>, base: nat, outcome: nat -> Outcome, now: Time): Rows {
    map id | id in rows :: MarkedRow(rows[id], DeliveredIn(events, base, outcome, id), now)
  }

  function SweptRow(row: Row, attempts: nat, delivered: bool, now: Time): Row {
    MarkedRow(row.(attempts := row.attempts + attempts), delivered, now)
  }

  /** The rows after a sweep has claimed `claimed`, one attempt for each claim. */
  ghost function Swept(rows: Rows, claimed: seq<Id>, outcome: nat -> Outcome, now: Time): Rows {
    map id | id in rows :: SweptRow(rows[id], multiset(claimed)[id], DeliveredIn(claimed, 0, outcome, id), now)
  }

  predicate AttemptsBounded(rows: Rows) {
    forall id :: id in rows ==> rows[id].attempts <= MAX_ATTEMPTS
  }

  ghost predicate Never(claimed: seq<Id>, outcome: nat -> Outcome, bad: Outcome) {
    forall k :: 0 <= k < |claimed| ==> outcome(k) != bad
  }

  predicate IsBefore(mark: Option<Time>, cutoff: Time) {
    mark.Some? && mark.value < cutoff
  }

  /** Unmarked, older than the cutoff and not yet tried ten times. */
  predicate Due(row: Row, cutoff: Time) {
    row.publishedAt == None && row.createdAt < cutoff && row.attempts < 10
  }

  /** Different rows that are due; one that is due and left out is younger than all of them, and then they are `n`. */
  ghost predicate TakesOldest(rows: Rows, cutoff: Time, n: nat, events: seq<Id>) {
    && Distinct(events) && |events| <= n
    && (forall k :: 0 <= k < |events| ==> events[k] in rows && Due(rows[events[k]], cutoff))
    && (forall id :: id in rows && Due(rows[id], cutoff) && id !in events ==> |events| == n && AllBelow(events, id))
  }

  predicate AllDue(rows: Rows, cutoff: Time, claimed: seq<Id>) {
    forall k :: 0 <= k < |claimed| ==> claimed[k] in rows && Due(rows[claimed[k]], cutoff)
  }

  /** Every row that is not due comes out as it was, or goes because its mark is older than `keepSince`. */
  predicate SparesTheRest(was: Rows, rows: Rows, cutoff: Time, pruned: bool, keepSince: Time) {
    forall id :: id in was && !Due(was[id], cutoff) ==>
      if id in rows then rows[id] == was[id]
      else pruned && was[id].publishedAt.Some? && was[id].publishedAt.value < keepSince
  }

  /** No batch runs out of time and no claim fails. */
  ghost predicate Uninterrupted(timeUp: nat -> bool, claimErrs: nat -> bool) {
    forall b: nat :: !timeUp(b) && !claimErrs(b)
  }

  class OutboxTable {
    var rows: Rows
    var next: Id

    ghost predicate Valid()
      reads this
    {
      AttemptsBounded(rows) && forall id :: id in rows ==> id < next
    }

    constructor ()
      ensures Valid() && rows == map[]
    {
      rows, next := map[], 0;
    }

    /** The history trigger inserts the row inside the transaction that writes the record. */
    method Insert(key: Key, now: Time) returns (id: Id)
      requires Valid()
      modifies this
      ensures Valid() && id !in old(rows) && rows == old(rows)[id := Row(key, now, None, 0)]
    {
      id := next;
      next := next + 1;
      rows := rows[id := Row(key, now, None, 0)];
    }

    method LatestOutboxID(key: Key) returns (found: Option<Id>)
      ensures IsLatest(rows, key, found)
      ensures found.Some? ==>
                found.value in rows && rows[found.value].publishedAt == None && rows[found.value].key == key
      ensures forall id :: id in rows && rows[id].publishedAt == None && rows[id].key == key ==>
                found.Some? && id <= found.value
    {
      found := None;
      var todo := rows.Keys;
      while todo != {}
        invariant todo <= rows.Keys
        invariant found.Some? ==> PendingFor(rows, key, found.value)
        invariant forall id :: id in rows && id !in todo && PendingFor(rows, key, id) ==>
                  found.Some? && id <= found.value
      {
        var id :| id in todo;
        todo := todo - {id};
        if PendingFor(rows, key, id) && (found.None? || found.value < id) { found := Some(id); }
      }
    }

    method MarkOutboxPublished(id: Id, now: Time)
      requires Valid()
      modifies this`rows
      ensures Valid() && rows == Marked(old(rows), id, now)
      ensures rows.Keys == old(rows).Keys && forall other :: other in rows ==>
                rows[other] == if other == id && old(rows)[id].publishedAt == None
                               then old(rows)[id].(publishedAt := Some(now)) else old(rows)[other]
    {
      if id in rows && rows[id].publishedAt.None? {
        rows := rows[id := rows[id].(publishedAt := Some(now))];
      }
    }

    /** One attempt is charged to each of the first `limit` eligible rows, which come back in no promised order. */
    method ClaimPendingOutbox(cutoff: Time, limit: int) returns (events: seq<Id>)
      requires Valid()
      modifies this`rows
      ensures Valid()
      ensures AmongFirst(EligibleIds(old(rows), cutoff), if limit <= 0 then DEFAULT_LIMIT else limit, events)
      ensures rows == Attempted(old(rows), events)
      ensures TakesOldest(old(rows), cutoff, if limit <= 0 then 100 else limit, events)
      ensures rows.Keys == old(rows).Keys && forall id :: id in rows ==>
                rows[id] == if id !in events then old(rows)[id]
                            else old(rows)[id].(attempts := old(rows)[id].attempts + 1)
    {
      ghost var was := rows;
      var n := if limit <= 0 then DEFAULT_LIMIT else limit;
      var chosen := SelectFirst(EligibleIds(rows, cutoff), n);
      events := InAnyOrder(chosen);
      ReorderedAmongFirst(EligibleIds(rows, cutoff), n, chosen, events);
      ClaimsTakeOldest(was, cutoff, n, events);
      AttemptsStayBounded(rows, events, cutoff);
      rows := map id | id in rows :: if id in events then rows[id].(attempts := rows[id].attempts + 1) else rows[id];
    }

    /** Publishes each event and marks it; a failed mark is only logged. `outcome` says how each delivery ends. */
    method DeliverEvents(events: seq<Id>, base: nat, outcome: nat -> Outcome, now: Time) returns (failed: bool)
      requires Valid()
      modifies this`rows
      ensures Valid() && rows == AfterDelivery(old(rows), events, base, outcome, now)
      ensures failed <==> exists k :: FailsAt(events, base, outcome, k)
    {
      failed := false;
      ghost var before := rows;
      assert events[..0] == [];
      for i := 0 to |events|
        invariant Valid() && rows == AfterDelivery(before, events[..i], base, outcome, now)
        invariant failed <==> FailedBefore(events, base, outcome, i)
      {
        DeliveredNext(before, events, i, base, outcome, now);
        FailedNext(events, base, outcome, i);
        if outcome(base + i) == PublishFailed {
          failed := true;
        } else if outcome(base + i) == Delivered {
          MarkOutboxPublished(events[i], now);
        }
      }
      assert events[..|events|] == events;
      FailedAtAll(events, base, outcome);
    }

    /** The next batch of a sweep that started from `start` and has claimed `claimed`. */
    method SweepBatch(ghost start: Rows, claimed: seq<Id>, cutoff: Time, now: Time, outcome: nat -> Outcome,
                      ghost batch: nat)
      returns (events: seq<Id>, failed: bool)
      requires Valid() && rows == Swept(start, claimed, outcome, now) && AllDue(start, cutoff, claimed)
      requires batch < MAX_BATCHES && OnTrack(EligibleIds(start, cutoff), claimed, outcome, batch * SWEEP_BATCH)
      modifies this`rows
      ensures Valid() && rows == Swept(start, claimed + events, outcome, now) && AllDue(start, cutoff, claimed + events)
      ensures |events| <= SWEEP_BATCH && (events == [] ==> rows == old(rows))
      ensures failed <==> !Never(claimed + events, outcome, PublishFailed)
      ensures Never(claimed + events, outcome, MarkFailed) ==>
                Distinct(claimed + events) &&
                AmongFirst(EligibleIds(start, cutoff), (batch + 1) * SWEEP_BATCH, claimed + events)
      ensures Never(claimed, outcome, MarkFailed) && events == [] ==>
                AmongFirst(EligibleIds(start, cutoff), MAX_BATCHES * SWEEP_BATCH, claimed)
    {
      events := ClaimPendingOutbox(cutoff, SWEEP_BATCH);
      failed := DeliverEvents(events, |claimed|, outcome, now);
      BatchSwept(start, claimed, events, outcome, now, cutoff, batch);
    }

    /** Claims and delivers batch after batch while delivery works and time is left. `timeUp` says after which batches
        the time budget is spent, and `claimErrs` which claims fail. */
    method DrainBacklog(cutoff: Time, now: Time, outcome: nat -> Outcome, timeUp: nat -> bool, claimErrs: nat -> bool)
      returns (claimed: seq<Id>)
      requires Valid()
      modifies this`rows
      ensures Valid() && rows == Swept(old(rows), claimed, outcome, now) && AllDue(old(rows), cutoff, claimed)
      ensures |claimed| <= MAX_BATCHES * SWEEP_BATCH
      ensures Never(claimed, outcome, MarkFailed) ==> Distinct(claimed)
      ensures Never(claimed, outcome, MarkFailed) && Never(claimed, outcome, PublishFailed) &&
              Uninterrupted(timeUp, claimErrs) ==>
              AmongFirst(EligibleIds(old(rows), cutoff), MAX_BATCHES * SWEEP_BATCH, claimed)
    {
      claimed := [];
      var batch := 0;
      ghost var start, all := rows, EligibleIds(rows, cutoff);
      NothingSwept(rows, outcome, now);
      while batch < MAX_BATCHES
        invariant 0 <= batch <= MAX_BATCHES && |claimed| <= batch * SWEEP_BATCH
        invariant Valid() && rows == Swept(start, claimed, outcome, now)
        invariant OnTrack(all, claimed, outcome, batch * SWEEP_BATCH) && AllDue(start, cutoff, claimed)
      {
        if claimErrs(batch) { break; }
        var events, failed := SweepBatch(start, claimed, cutoff, now, outcome, batch);
        if |events| == 0 { break; }
        batch := batch + 1;
        claimed := claimed + events;
        if failed || timeUp(batch) { break; }
      }
    }

    /** Drains the backlog and then prunes, unless the statement that prunes fails. */
    method SweepOutbox(cutoff: Time, now: Time, keepSince: Time, outcome: nat -> Outcome, timeUp: nat -> bool,
                       claimErrs: nat -> bool, pruneErrs: bool)
      returns (claimed: seq<Id>)
      requires Valid()
      modifies this`rows
      ensures Valid()
      ensures var swept := Swept(old(rows), claimed, outcome, now);
              rows == if pruneErrs then swept else Pruned(swept, keepSince)
      ensures AllDue(old(rows), cutoff, claimed) && SparesTheRest(old(rows), rows, cutoff, !pruneErrs, keepSince)
      ensures |claimed| <= 10_000
      ensures Never(claimed, outcome, MarkFailed) ==> Distinct(claimed)
      ensures Never(claimed, outcome, MarkFailed) && Never(claimed, outcome, PublishFailed) &&
              Uninterrupted(timeUp, claimErrs) ==>
              AmongFirst(EligibleIds(old(rows), cutoff), 10_000, claimed)
    {
      claimed := DrainBacklog(cutoff, now, outcome, timeUp, claimErrs);
      RestIsSpared(old(rows), claimed, outcome, now, cutoff, keepSince);
      if !pruneErrs { var _ := PruneOutbox(keepSince); }
    }

    method PruneOutbox(cutoff: Time) returns (removed: nat)
      requires Valid()
      modifies this`rows
      ensures Valid() && rows == Pruned(old(rows), cutoff) && removed == |old(rows)| - |rows|
      ensures forall id :: id in rows <==> id in old(rows) && !IsBefore(old(rows)[id].publishedAt, cutoff)
      ensures forall id :: id in rows ==> rows[id] == old(rows)[id]
    {
      var before := rows;
      rows := map id | id in rows && !Prunable(rows[id], cutoff) :: rows[id];
      assert rows.Keys <= before.Keys;
      Smaller(rows.Keys, before.Keys);
      removed := |before| - |rows|;
    }
  }

  // ---------- The sweep ----------

  lemma {:induction false} CountOfDistinct(ids: seq<Id>, id: Id)
    requires Distinct(ids)
    ensures multiset(ids)[id] == if id in ids then 1 else 0
  {
    if ids != [] {
      var front, last := ids[..|ids| - 1], ids[|ids| - 1];
      assert ids == front + [last];
      CountOfDistinct(front, id);
      assert last !in front;
    }
  }

  lemma DeliveredInBoth(a: seq<Id>, b: seq<Id>, outcome: nat -> Outcome, id: Id)
    ensures DeliveredIn(a + b, 0, outcome, id) <==> DeliveredIn(a, 0, outcome, id) || DeliveredIn(b, |a|, outcome, id)
  {
    var ab := a + b;
    if k :| 0 <= k < |b| && b[k] == id && outcome(|a| + k) == Delivered {
      assert ab[|a| + k] == id && outcome(0 + (|a| + k)) == Delivered;
    }
    if k :| 0 <= k < |a| && a[k] == id && outcome(0 + k) == Delivered {
      assert ab[k] == id;
    }
    if k :| 0 <= k < |ab| && ab[k] == id && outcome(0 + k) == Delivered {
      if k >= |a| {
        assert b[k - |a|] == id && outcome(|a| + (k - |a|)) == Delivered;
      } else {
        assert a[k] == id;
      }
    }
  }

  lemma MarkedTwice(row: Row, m: nat, n: nat, first: bool, second: bool, now: Time)
    ensures var claimed := SweptRow(row, m, first, now);
            MarkedRow(claimed.(attempts := claimed.attempts + n), second, now) ==
            SweptRow(row, m + n, first || second, now)
  {
  }

  lemma SweptExtendsAt(rows: Rows, claimed: seq<Id>, events: seq<Id>, outcome: nat -> Outcome, now: Time, id: Id)
    requires Distinct(events) && id in rows
    ensures AfterDelivery(Attempted(Swept(rows, claimed, outcome, now), events), events, |claimed|, outcome, now)[id] ==
            Swept(rows, claimed + events, outcome, now)[id]
  {
    CountOfDistinct(events, id);
    DeliveredInBoth(claimed, events, outcome, id);
    var first, second := DeliveredIn(claimed, 0, outcome, id), DeliveredIn(events, |claimed|, outcome, id);
    MarkedTwice(rows[id], multiset(claimed)[id], multiset(events)[id], first, second, now);
    assert multiset(claimed + events)[id] == multiset(claimed)[id] + multiset(events)[id];
  }

  lemma ClaimsTakeOldest(rows: Rows, cutoff: Time, n: nat, events: seq<Id>)
    requires AmongFirst(EligibleIds(rows, cutoff), n, events)
    ensures TakesOldest(rows, cutoff, n, events)
  {
    var all := EligibleIds(rows, cutoff);
    forall k | 0 <= k < |events| ensures events[k] in rows && Due(rows[events[k]], cutoff) {
      assert events[k] in SetOf(events);
    }
    forall id | id in rows && Due(rows[id], cutoff) && id !in events ensures |events| == n && AllBelow(events, id) {
      assert id in all - SetOf(events);
      SizeOfDistinct(events);
      if |all| == |events| { SameSizeIsSame(SetOf(events), all); }
    }
  }

  /** What a later batch claims was due when the sweep began. */
  lemma BatchIsDue(rows: Rows, claimed: seq<Id>, events: seq<Id>, outcome: nat -> Outcome, now: Time, cutoff: Time)
    requires AllDue(rows, cutoff, claimed)
    requires AmongFirst(EligibleIds(Swept(rows, claimed, outcome, now), cutoff), SWEEP_BATCH, events)
    ensures AllDue(rows, cutoff, claimed + events)
  {
    ClaimsTakeOldest(Swept(rows, claimed, outcome, now), cutoff, SWEEP_BATCH, events);
    forall k | 0 <= k < |events| ensures events[k] in rows && Due(rows[events[k]], cutoff) {
      assert Due(Swept(rows, claimed, outcome, now)[events[k]], cutoff);
    }
  }

  lemma RestIsSpared(rows: Rows, claimed: seq<Id>, outcome: nat -> Outcome, now: Time, cutoff: Time, keepSince: Time)
    requires AllDue(rows, cutoff, claimed)
    ensures SparesTheRest(rows, Swept(rows, claimed, outcome, now), cutoff, false, keepSince)
    ensures SparesTheRest(rows, Pruned(Swept(rows, claimed, outcome, now), keepSince), cutoff, true, keepSince)
  {
    forall id | id in rows && !Due(rows[id], cutoff) ensures Swept(rows, claimed, outcome, now)[id] == rows[id] {
      assert id !in claimed;
      assert multiset(claimed)[id] == 0;
    }
  }

  lemma SameSizeIsSame(a: set<Id>, b: set<Id>)
    requires a <= b && |a| == |b|
    ensures a == b
  {
    assert b == a + (b - a);
  }

  /** Claiming and delivering one more batch extends the sweep by that batch. */
  lemma SweptExtends(rows: Rows, claimed: seq<Id>, events: seq<Id>, outcome: nat -> Outcome, now: Time)
    requires Distinct(events)
    ensures AfterDelivery(Attempted(Swept(rows, claimed, outcome, now), events), events, |claimed|, outcome, now) ==
            Swept(rows, claimed + events, outcome, now)
  {
    forall id | id in rows
      ensures var was := Attempted(Swept(rows, claimed, outcome, now), events);
              AfterDelivery(was, events, |claimed|, outcome, now)[id] ==
              Swept(rows, claimed + events, outcome, now)[id]
    {
      SweptExtendsAt(rows, claimed, events, outcome, now, id);
    }
  }

  lemma NothingSwept(rows: Rows, outcome: nat -> Outcome, now: Time)
    ensures Swept(rows, [], outcome, now) == rows
  {
  }

  lemma DeliveredNext(rows: Rows, events: seq<Id>, i: nat, base: nat, outcome: nat -> Outcome, now: Time)
    requires i < |events|
    ensures var before := AfterDelivery(rows, events[..i], base, outcome, now);
            AfterDelivery(rows, events[..i + 1], base, outcome, now) ==
            if outcome(base + i) == Delivered then Marked(before, events[i], now) else before
  {
    var shorter, longer := events[..i], events[..i + 1];
    forall id
      ensures DeliveredIn(longer, base, outcome, id) <==>
              DeliveredIn(shorter, base, outcome, id) || (events[i] == id && outcome(base + i) == Delivered)
    {
      if k :| 0 <= k < i && shorter[k] == id && outcome(base + k) == Delivered {
        assert longer[k] == id;
      }
      if events[i] == id && outcome(base + i) == Delivered {
        assert longer[i] == id;
      }
      if k :| 0 <= k < |longer| && longer[k] == id && outcome(base + k) == Delivered {
        assert k < i ==> shorter[k] == id;
      }
    }
  }

  /** Once every claim was delivered and marked, no claimed row is eligible again. */
  lemma MarkedRowsAreDone(rows: Rows, claimed: seq<Id>, outcome: nat -> Outcome, now: Time, cutoff: Time)
    requires Never(claimed, outcome, PublishFailed) && Never(claimed, outcome, MarkFailed)
    ensures EligibleIds(Swept(rows, claimed, outcome, now), cutoff) == EligibleIds(rows, cutoff) - SetOf(claimed)
  {
    var swept := Swept(rows, claimed, outcome, now);
    forall id | id in rows
      ensures Eligible(swept, cutoff, id) <==> Eligible(rows, cutoff, id) && id !in claimed
    {
      if id in claimed {
        var k :| 0 <= k < |claimed| && claimed[k] == id;
        assert outcome(0 + k) == Delivered;
        assert DeliveredIn(claimed, 0, outcome, id);
      } else {
        assert multiset(claimed)[id] == 0;
        assert !DeliveredIn(claimed, 0, outcome, id);
      }
    }
  }

  /** What a sweep keeps: while every delivery so far succeeded, it has claimed the first n eligible rows. */
  ghost predicate OnTrack(all: set<Id>, claimed: seq<Id>, outcome: nat -> Outcome, n: nat) {
    && Never(claimed, outcome, PublishFailed)
    && (Never(claimed, outcome, MarkFailed) ==> Distinct(claimed) && AmongFirst(all, n, claimed))
  }

  /** A sweep fails with the batch that does. */
  lemma BatchSucceeds(claimed: seq<Id>, events: seq<Id>, outcome: nat -> Outcome)
    requires Never(claimed, outcome, PublishFailed)
    ensures (exists k :: FailsAt(events, |claimed|, outcome, k)) <==> !Never(claimed + events, outcome, PublishFailed)
  {
    if Never(claimed + events, outcome, PublishFailed) {
      forall k | 0 <= k < |events| ensures !FailsAt(events, |claimed|, outcome, k) {
        assert outcome(|claimed| + k) != PublishFailed;
      }
    } else {
      var k :| 0 <= k < |claimed + events| && outcome(k) == PublishFailed;
      assert FailsAt(events, |claimed|, outcome, k - |claimed|);
    }
  }

  /** While every delivery succeeds, a batch repeats no claimed row and takes the next eligible ones. */
  lemma BatchTakesNext(rows: Rows, claimed: seq<Id>, events: seq<Id>, outcome: nat -> Outcome, now: Time, cutoff: Time,
                       n: nat)
    requires Never(claimed, outcome, PublishFailed) && Never(claimed, outcome, MarkFailed)
    requires AmongFirst(EligibleIds(rows, cutoff), n, claimed)
    requires AmongFirst(EligibleIds(Swept(rows, claimed, outcome, now), cutoff), SWEEP_BATCH, events)
    ensures AmongFirst(EligibleIds(rows, cutoff), n + SWEEP_BATCH, claimed + events)
    ensures events == [] ==> |EligibleIds(rows, cutoff)| == |claimed|
  {
    MarkedRowsAreDone(rows, claimed, outcome, now, cutoff);
    AmongFirstAppend(EligibleIds(rows, cutoff), n, claimed, SWEEP_BATCH, events);
    if events == [] { NoneLeft(EligibleIds(rows, cutoff), claimed); }
  }

  lemma NoneLeft(all: set<Id>, claimed: seq<Id>)
    requires Distinct(claimed) && SetOf(claimed) <= all && |all - SetOf(claimed)| == 0
    ensures |all| == |claimed|
  {
    SizeOfDistinct(claimed);
    assert all == SetOf(claimed) + (all - SetOf(claimed));
  }

  lemma AllAreAmongFirst(all: set<Id>, n: nat, m: nat, claimed: seq<Id>)
    requires AmongFirst(all, n, claimed) && |all| == |claimed| && n <= m
    ensures AmongFirst(all, m, claimed)
  {
  }

  lemma BatchExtends(rows: Rows, claimed: seq<Id>, events: seq<Id>, outcome: nat -> Outcome, now: Time, cutoff: Time,
                     batch: nat)
    requires OnTrack(EligibleIds(rows, cutoff), claimed, outcome, batch * SWEEP_BATCH) && batch < MAX_BATCHES
    requires AmongFirst(EligibleIds(Swept(rows, claimed, outcome, now), cutoff), SWEEP_BATCH, events)
    ensures |events| <= SWEEP_BATCH
    ensures Never(claimed, outcome, MarkFailed) ==>
              Distinct(claimed + events) &&
              AmongFirst(EligibleIds(rows, cutoff), (batch + 1) * SWEEP_BATCH, claimed + events)
    ensures Never(claimed, outcome, MarkFailed) && events == [] ==>
              AmongFirst(EligibleIds(rows, cutoff), MAX_BATCHES * SWEEP_BATCH, claimed)
    ensures (exists k :: FailsAt(events, |claimed|, outcome, k)) <==> !Never(claimed + events, outcome, PublishFailed)
    ensures Never(claimed + events, outcome, MarkFailed) ==> Never(claimed, outcome, MarkFailed)
  {
    if Never(claimed, outcome, MarkFailed) {
      BatchTakesNext(rows, claimed, events, outcome, now, cutoff, batch * SWEEP_BATCH);
      if events == [] {
        AllAreAmongFirst(EligibleIds(rows, cutoff), batch * SWEEP_BATCH, MAX_BATCHES * SWEEP_BATCH, claimed);
      }
    }
    BatchSucceeds(claimed, events, outcome);
  }

  /** What the sweep has done after one more batch. */
  lemma BatchSwept(rows: Rows, claimed: seq<Id>, events: seq<Id>, outcome: nat -> Outcome, now: Time, cutoff: Time,
                   batch: nat)
    requires AllDue(rows, cutoff, claimed) && batch < MAX_BATCHES
    requires OnTrack(EligibleIds(rows, cutoff), claimed, outcome, batch * SWEEP_BATCH)
    requires AmongFirst(EligibleIds(Swept(rows, claimed, outcome, now), cutoff), SWEEP_BATCH, events)
    ensures var was := Attempted(Swept(rows, claimed, outcome, now), events);
            AfterDelivery(was, events, |claimed|, outcome, now) == Swept(rows, claimed + events, outcome, now)
    ensures AllDue(rows, cutoff, claimed + events) && |events| <= SWEEP_BATCH
    ensures events == [] ==> claimed + events == claimed
    ensures Never(claimed + events, outcome, MarkFailed) ==>
              Distinct(claimed + events) &&
              AmongFirst(EligibleIds(rows, cutoff), (batch + 1) * SWEEP_BATCH, claimed + events)
    ensures Never(claimed, outcome, MarkFailed) && events == [] ==>
              AmongFirst(EligibleIds(rows, cutoff), MAX_BATCHES * SWEEP_BATCH, claimed)
    ensures (exists k :: FailsAt(events, |claimed|, outcome, k)) <==> !Never(claimed + events, outcome, PublishFailed)
  {
    SweptExtends(rows, claimed, events, outcome, now);
    BatchIsDue(rows, claimed, events, outcome, now, cutoff);
    BatchExtends(rows, claimed, events, outcome, now, cutoff, batch);
  }

  lemma AttemptsStayBounded(rows: Rows, events: seq<Id>, cutoff: Time)
    requires AttemptsBounded(rows) && SetOf(events) <= EligibleIds(rows, cutoff)
    ensures AttemptsBounded(Attempted(rows, events)) && Attempted(rows, events).Keys == rows.Keys
  {
    forall id | id in rows && id in events ensures rows[id].attempts < MAX_ATTEMPTS {
      assert id in SetOf(events);
    }
  }

  /** While every mark succeeds, a sweep spends at most one attempt on a row, so a failing row keeps its retries. */
  lemma OneAttemptPerSweep(rows: Rows, claimed: seq<Id>, outcome: nat -> Outcome, now: Time, id: Id)
    requires Distinct(claimed) && id in rows
    ensures Swept(rows, claimed, outcome, now)[id].attempts == rows[id].attempts + if id in claimed then 1 else 0
  {
    CountOfDistinct(claimed, id);
  }

  lemma ClaimedRowsAreMarked(rows: Rows, claimed: seq<Id>, outcome: nat -> Outcome, now: Time, id: Id)
    requires id in rows && (id in claimed ==> rows[id].publishedAt.None?)
    requires Never(claimed, outcome, PublishFailed) && Never(claimed, outcome, MarkFailed)
    ensures Swept(rows, claimed, outcome, now)[id].publishedAt != rows[id].publishedAt <==> id in claimed
  {
    if id in claimed {
      var k :| 0 <= k < |claimed| && claimed[k] == id;
      assert outcome(0 + k) == Delivered;
      assert DeliveredIn(claimed, 0, outcome, id);
    } else {
      assert !DeliveredIn(claimed, 0, outcome, id);
    }
  }

  lemma ClaimedArePending(rows: Rows, claimed: seq<Id>, cutoff: Time, limit: nat, id: Id)
    requires AmongFirst(EligibleIds(rows, cutoff), limit, claimed) && id in claimed
    ensures id in rows && rows[id].publishedAt.None?
  {
    assert id in SetOf(claimed);
  }

  /** A sweep without failures marks exactly the rows it claimed, the first `limit` eligible ones. */
  lemma SweepDelivers(rows: Rows, claimed: seq<Id>, outcome: nat -> Outcome, now: Time, cutoff: Time, limit: nat)
    requires AmongFirst(EligibleIds(rows, cutoff), limit, claimed)
    requires Never(claimed, outcome, PublishFailed) && Never(claimed, outcome, MarkFailed)
    ensures var swept, eligible := Swept(rows, claimed, outcome, now), EligibleIds(rows, cutoff);
            && (forall id :: id in rows ==> (swept[id].publishedAt != rows[id].publishedAt <==> id in claimed))
            && |EligibleIds(swept, cutoff)| == if |eligible| <= limit then 0 else |eligible| - limit
  {
    MarkedRowsAreDone(rows, claimed, outcome, now, cutoff);
    SizeOfDistinct(claimed);
    var eligible := EligibleIds(rows, cutoff);
    assert eligible == SetOf(claimed) + (eligible - SetOf(claimed));
    forall id | id in rows
      ensures Swept(rows, claimed, outcome, now)[id].publishedAt != rows[id].publishedAt <==> id in claimed
    {
      if id in claimed { ClaimedArePending(rows, claimed, cutoff, limit, id); }
      ClaimedRowsAreMarked(rows, claimed, outcome, now, id);
    }
  }
}
