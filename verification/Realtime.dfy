/** Realtime fan-out. The hub offers each event to its matching subscribers without ever waiting for one; each replica
    polls the shared event table with a cursor and hands what other replicas wrote to its own hub. */
module Realtime {
  import opened Text
  import opened Selection

  datatype Event = Event(project: string, collection: string, action: string, id: string)

  /** Events a subscriber's channel can hold. */
  const QUEUE_SIZE := 64

  /** Empty sets of collections or actions mean all of them. `queue` is what the channel holds. */
  datatype Subscriber = Subscriber(project: string, collections: set<string>, actions: set<string>, queue: seq<Event>)

  /** What a subscriber has been through: the log's length when it joined, what it received and how many events it
      lost. */
  datatype History = History(since: nat, taken: seq<Event>, dropped: nat)

  predicate Publishable(ev: Event) {
    ev.project != "" && ev.collection != "" && ev.action != ""
  }

  predicate Matches(sub: Subscriber, ev: Event) {
    && sub.project == ev.project
    && (sub.collections == {} || ev.collection in sub.collections)
    && (sub.actions == {} || ev.action in sub.actions)
  }

  /** The events of a log that concern a subscriber, in order, from position `since` on. */
  function Matching(sub: Subscriber, events: seq<Event>, since: nat): seq<Event> {
    if |events| <= since then []
    else
      var last := |events| - 1;
      Matching(sub, events[..last], since) + if Matches(sub, events[last]) then [events[last]] else []
  }

  /** Where in `b` the elements of `a` are found, in order. */
  predicate Embeds(at: seq<Id>, a: seq<Event>, b: seq<Event>) {
    && |at| == |a| && Ascending(at)
    && forall i :: 0 <= i < |a| ==> at[i] < |b| && a[i] == b[at[i]]
  }

  /** `a` can be had from `b` by leaving events out. */
  ghost predicate Subsequence(a: seq<Event>, b: seq<Event>) {
    exists at :: Embeds(at, a, b)
  }

  lemma SubsequenceGrows(a: seq<Event>, b: seq<Event>, ev: Event)
    requires Subsequence(a, b)
    ensures Subsequence(a + [ev], b + [ev]) && Subsequence(a, b + [ev])
  {
    var at: seq<Id> :| Embeds(at, a, b);
    var more: seq<Id> := at + [|b|];
    assert Embeds(more, a + [ev], b + [ev]);
    assert Embeds(at, a, b + [ev]);
  }

  lemma {:induction false} AscendingIsAtLeast(at: seq<Id>, i: nat)
    requires Ascending(at) && i < |at|
    ensures at[i] >= i
  {
    if i > 0 { AscendingIsAtLeast(at, i - 1); }
  }

  lemma {:induction false} AscendingLeavesRoom(at: seq<Id>, n: nat, i: nat)
    requires Ascending(at) && i < |at| && forall j :: 0 <= j < |at| ==> at[j] < n
    ensures at[i] + |at| <= n + i
    decreases |at| - i
  {
    if i + 1 < |at| { AscendingLeavesRoom(at, n, i + 1); }
  }

  lemma SubsequenceIsShorter(a: seq<Event>, b: seq<Event>)
    requires Subsequence(a, b)
    ensures |a| <= |b|
    ensures |a| == |b| ==> a == b
  {
    var at: seq<Id> :| Embeds(at, a, b);
    if a != [] { AscendingLeavesRoom(at, |b|, 0); }
    forall i | 0 <= i < |a| ensures i <= at[i] && at[i] + |a| <= |b| + i {
      AscendingIsAtLeast(at, i);
      AscendingLeavesRoom(at, |b|, i);
    }
  }

  /** The events received and waiting are an ordered subsequence of the matching ones, and the lost ones make up the
      rest. */
  ghost predicate Follows(sub: Subscriber, h: History, log: seq<Event>) {
    && |sub.queue| <= QUEUE_SIZE
    && h.since <= |log|
    && var matching := Matching(sub, log, h.since);
       Subsequence(h.taken + sub.queue, matching) && |matching| == |h.taken| + |sub.queue| + h.dropped
  }

  /** The event is of the subscriber's project, and of a collection and action it asked for, if it named any. */
  predicate Concerns(sub: Subscriber, ev: Event) {
    && ev.project == sub.project
    && (sub.collections != {} ==> ev.collection in sub.collections)
    && (sub.actions != {} ==> ev.action in sub.actions)
  }

  predicate GetsIfConcerned(was: Subscriber, now: Subscriber, ev: Event) {
    now == was.(queue := if Concerns(was, ev) && |was.queue| < 64 then was.queue + [ev] else was.queue)
  }

  /** The events that match are those of the log, from the subscriber's place on, that concern it. */
  lemma {:induction false} MatchingConcerns(sub: Subscriber, events: seq<Event>, since: nat, ev: Event)
    ensures ev in Matching(sub, events, since) <==>
            Concerns(sub, ev) && exists k :: since <= k < |events| && events[k] == ev
  {
    if |events| > since {
      var last := |events| - 1;
      MatchingConcerns(sub, events[..last], since, ev);
      if k :| since <= k < |events| && events[k] == ev { assert k < last ==> events[..last][k] == ev; }
      if k :| since <= k < last && events[..last][k] == ev { assert events[k] == ev; }
    }
  }

  /** What a subscriber received or has waiting are events published since it joined, of its own project and of what it
      asked for. */
  lemma OnlyConcerningEvents(sub: Subscriber, h: History, log: seq<Event>, ev: Event)
    requires Follows(sub, h, log) && ev in h.taken + sub.queue
    ensures Concerns(sub, ev) && exists k :: h.since <= k < |log| && log[k] == ev
  {
    var got, matching := h.taken + sub.queue, Matching(sub, log, h.since);
    var at: seq<Id> :| Embeds(at, got, matching);
    var i :| 0 <= i < |got| && got[i] == ev;
    assert matching[at[i]] == ev;
    MatchingConcerns(sub, log, h.since, ev);
  }

  /** A subscriber that never had 64 events waiting has lost nothing. */
  lemma NothingLostUnlessFull(sub: Subscriber, h: History, log: seq<Event>)
    requires Follows(sub, h, log) && h.dropped == 0
    ensures h.taken + sub.queue == Matching(sub, log, h.since)
  {
    SubsequenceIsShorter(h.taken + sub.queue, Matching(sub, log, h.since));
  }

  function Offered(sub: Subscriber, ev: Event): Subscriber {
    if Matches(sub, ev) && |sub.queue| < QUEUE_SIZE then sub.(queue := sub.queue + [ev]) else sub
  }

  function Counted(sub: Subscriber, h: History, ev: Event): History {
    if Matches(sub, ev) && |sub.queue| >= QUEUE_SIZE then h.(dropped := h.dropped + 1) else h
  }

  lemma {:induction false} QueueDoesNotMatter(sub: Subscriber, queue: seq<Event>, events: seq<Event>, since: nat)
    ensures Matching(sub.(queue := queue), events, since) == Matching(sub, events, since)
  {
    if |events| > since { QueueDoesNotMatter(sub, queue, events[..|events| - 1], since); }
  }

  lemma OfferFollows(sub: Subscriber, h: History, log: seq<Event>, ev: Event)
    requires Follows(sub, h, log)
    ensures Follows(Offered(sub, ev), Counted(sub, h, ev), log + [ev])
  {
    var had, matching := h.taken + sub.queue, Matching(sub, log, h.since);
    MatchingGrows(sub, log, h.since, ev);
    if Matches(sub, ev) {
      OfferKeepsOrder(had, matching, ev);
      QueueDoesNotMatter(sub, sub.queue + [ev], log + [ev], h.since);
      assert h.taken + (sub.queue + [ev]) == had + [ev];
    }
  }

  lemma MatchingGrows(sub: Subscriber, events: seq<Event>, since: nat, ev: Event)
    requires since <= |events|
    ensures Matching(sub, events + [ev], since) ==
      if Matches(sub, ev) then Matching(sub, events, since) + [ev] else Matching(sub, events, since)
  {
    assert (events + [ev])[..|events|] == events;
  }

  lemma OfferKeepsOrder(had: seq<Event>, matching: seq<Event>, ev: Event)
    requires Subsequence(had, matching)
    ensures Subsequence(had + [ev], matching + [ev]) && Subsequence(had, matching + [ev])
  {
    SubsequenceGrows(had, matching, ev);
  }

  lemma TakeFollows(sub: Subscriber, h: History, log: seq<Event>)
    requires Follows(sub, h, log) && sub.queue != []
    ensures Follows(sub.(queue := sub.queue[1..]), h.(taken := h.taken + [sub.queue[0]]), log)
  {
    QueueDoesNotMatter(sub, sub.queue[1..], log, h.since);
    assert h.taken + [sub.queue[0]] + sub.queue[1..] == h.taken + sub.queue;
  }

  ghost predicate FollowsAt(subscribers: map<Id, Subscriber>, histories: map<Id, History>, log: seq<Event>, id: Id) {
    id in subscribers && id in histories && Follows(subscribers[id], histories[id], log)
  }

  ghost predicate AllFollow(subscribers: map<Id, Subscriber>, histories: map<Id, History>, log: seq<Event>) {
    subscribers.Keys == histories.Keys && forall id :: id in subscribers ==> FollowsAt(subscribers, histories, log, id)
  }

  /** Every matching subscriber with room gets the event, and every matching one without room loses it. */
  function OfferedAll(was: map<Id, Subscriber>, ev: Event): map<Id, Subscriber> {
    map id | id in was :: Offered(was[id], ev)
  }

  function CountedAll(was: map<Id, Subscriber>, had: map<Id, History>, ev: Event): map<Id, History> {
    map id | id in had && id in was :: Counted(was[id], had[id], ev)
  }

  lemma NewcomerFollows(was: map<Id, Subscriber>, had: map<Id, History>, log: seq<Event>, id: Id, sub: Subscriber)
    requires AllFollow(was, had, log) && sub.queue == []
    ensures AllFollow(was[id := sub], had[id := History(|log|, [], 0)], log)
  {
    var none: seq<Event> := [];
    assert Embeds([], none, none) && none + sub.queue == none;
    forall other | other in was && other != id
      ensures FollowsAt(was[id := sub], had[id := History(|log|, [], 0)], log, other)
    {
      assert FollowsAt(was, had, log, other);
    }
  }

  lemma EveryoneFollows(was: map<Id, Subscriber>, had: map<Id, History>, log: seq<Event>, ev: Event,
                        offered: map<Id, Subscriber>, counted: map<Id, History>, more: seq<Event>)
    requires AllFollow(was, had, log)
    requires offered == OfferedAll(was, ev) && counted == CountedAll(was, had, ev) && more == log + [ev]
    ensures AllFollow(offered, counted, more) && offered.Keys == was.Keys
  {
    forall id | id in was ensures FollowsAt(offered, counted, more, id) {
      assert FollowsAt(was, had, log, id);
      OfferFollows(was[id], had[id], log, ev);
    }
  }

  class Hub {
    var nextID: nat
    var subscribers: map<Id, Subscriber>
    ghost var log: seq<Event>
    ghost var histories: map<Id, History>

    ghost predicate Valid()
      reads this
    {
      && AllFollow(subscribers, histories, log)
      && (forall id :: id in subscribers ==> id <= nextID)
    }

    constructor ()
      ensures Valid() && subscribers == map[] && log == []
    {
      nextID, subscribers, log, histories := 0, map[], [], map[];
    }

    method Subscribe(project: string, collections: set<string>, actions: set<string>) returns (id: Id)
      requires Valid()
      modifies this
      ensures Valid() && log == old(log) && id !in old(subscribers)
      ensures subscribers == old(subscribers)[id := Subscriber(project, collections, actions, [])]
      ensures histories == old(histories)[id := History(|log|, [], 0)]
    {
      nextID := nextID + 1;
      id := nextID;
      NewcomerFollows(subscribers, histories, log, id, Subscriber(project, collections, actions, []));
      subscribers := subscribers[id := Subscriber(project, collections, actions, [])];
      histories := histories[id := History(|log|, [], 0)];
    }

    method Unsubscribe(id: Id)
      requires Valid()
      modifies this
      ensures Valid() && log == old(log) && nextID == old(nextID)
      ensures subscribers == old(subscribers) - {id} && histories == old(histories) - {id}
    {
      subscribers, histories := subscribers - {id}, histories - {id};
    }

    /** Never waits: a subscriber whose channel is full misses the event. */
    method Publish(ev: Event)
      requires Valid()
      modifies this`subscribers, this`log, this`histories
      ensures Valid()
      ensures log == if ev.project != "" && ev.collection != "" && ev.action != "" then old(log) + [ev] else old(log)
      ensures Publishable(ev) ==> subscribers == OfferedAll(old(subscribers), ev)
      ensures Publishable(ev) ==> histories == CountedAll(old(subscribers), old(histories), ev)
      ensures !Publishable(ev) ==> subscribers == old(subscribers) && histories == old(histories)
      ensures subscribers.Keys == old(subscribers).Keys
      ensures log != old(log) ==>
                forall id :: id in subscribers ==> GetsIfConcerned(old(subscribers)[id], subscribers[id], ev)
    {
      if ev.project == "" || ev.collection == "" || ev.action == "" { return; }
      Offer(ev);
    }

    method Offer(ev: Event)
      requires Valid()
      modifies this`subscribers, this`log, this`histories
      ensures Valid() && log == old(log) + [ev]
      ensures subscribers == OfferedAll(old(subscribers), ev)
      ensures histories == CountedAll(old(subscribers), old(histories), ev)
    {
      ghost var counted, more := CountedAll(subscribers, histories, ev), log + [ev];
      ghost var was, had, before := subscribers, histories, log;
      OfferToAll(ev);
      EveryoneFollows(was, had, before, ev, subscribers, counted, more);
      histories, log := counted, more;
    }

    method OfferToAll(ev: Event)
      modifies this`subscribers
      ensures subscribers == OfferedAll(old(subscribers), ev)
    {
      ghost var was := subscribers;
      var left := subscribers.Keys;
      while left != {}
        invariant left <= was.Keys && subscribers.Keys == was.Keys
        invariant forall id :: id in was ==> subscribers[id] == if id in left then was[id] else Offered(was[id], ev)
        decreases left
      {
        var id :| id in left;
        left := left - {id};
        if Matches(subscribers[id], ev) && |subscribers[id].queue| < QUEUE_SIZE {
          subscribers := subscribers[id := subscribers[id].(queue := subscribers[id].queue + [ev])];
        }
      }
    }

    /** The subscriber's stream takes the next waiting event. */
    method Receive(id: Id) returns (ev: Option<Event>)
      requires Valid()
      modifies this`subscribers, this`histories
      ensures Valid()
      ensures ev.Some? <==> id in old(subscribers) && old(subscribers)[id].queue != []
      ensures ev.None? ==> subscribers == old(subscribers) && histories == old(histories)
      ensures ev.Some? ==> id in old(histories) && ev.value == old(subscribers)[id].queue[0]
      ensures ev.Some? ==>
              subscribers == old(subscribers)[id := old(subscribers)[id].(queue := old(subscribers)[id].queue[1..])]
      ensures ev.Some? ==>
              histories == old(histories)[id := old(histories)[id].(taken := old(histories)[id].taken + [ev.value])]
    {
      if id !in subscribers || subscribers[id].queue == [] { return None; }
      TakeFollows(subscribers[id], histories[id], log);
      ev := Some(subscribers[id].queue[0]);
      histories := histories[id := histories[id].(taken := histories[id].taken + [subscribers[id].queue[0]])];
      subscribers := subscribers[id := subscribers[id].(queue := subscribers[id].queue[1..])];
    }
  }

  // ---------- The cursor ----------

  /** A shared event: which replica wrote it and when. */
  datatype Row = Row(source: string, event: Event, createdAt: int)

  type Table = map<Id, Row>

  const POLL_LIMIT := 100

  function Foreign(table: Table, after: Id, source: string): set<Id> {
    set id | id in table && id > after && table[id].source != source
  }

  /** Ascending ids of rows beyond the cursor that another replica wrote; one left out is beyond all of them, and then
      they are `n`. */
  ghost predicate NextForeign(table: Table, after: Id, source: string, n: nat, ids: seq<Id>) {
    && Ascending(ids) && |ids| <= n
    && (forall k :: 0 <= k < |ids| ==> ids[k] in table && after < ids[k] && table[ids[k]].source != source)
    && (forall id :: id in table && after < id && table[id].source != source && id !in ids ==>
          |ids| == n && AllBelow(ids, id))
  }

  lemma FirstAreNext(table: Table, after: Id, source: string, n: nat, ids: seq<Id>)
    requires FirstOf(Foreign(table, after, source), n, ids)
    ensures NextForeign(table, after, source, n, ids)
  {
    forall k | 0 <= k < |ids| ensures ids[k] in Foreign(table, after, source) { assert ids[k] in SetOf(ids); }
    forall id | id in Foreign(table, after, source) && id !in ids ensures |ids| == n && AllBelow(ids, id) {
      assert id in Foreign(table, after, source) - SetOf(ids);
      if |ids| < n { FewerIsAll(Foreign(table, after, source), n, ids); }
    }
  }

  function Limit(limit: int): nat {
    if limit <= 0 || limit > 500 then 100 else limit
  }

  method ListRealtimeEventsAfter(table: Table, after: Id, source: string, limit: int) returns (ids: seq<Id>)
    ensures FirstOf(Foreign(table, after, source), Limit(limit), ids)
    ensures NextForeign(table, after, source, if 0 < limit <= 500 then limit else 100, ids)
  {
    ids := SelectFirst(Foreign(table, after, source), Limit(limit));
    FirstAreNext(table, after, source, Limit(limit), ids);
  }

  /** The publishable events of the rows handed over, in order. */
  function EventsOf(table: Table, ids: seq<Id>): seq<Event> {
    if ids == [] then []
    else
      var last := |ids| - 1;
      EventsOf(table, ids[..last]) +
      if ids[last] in table && Publishable(table[ids[last]].event) then [table[ids[last]].event] else []
  }

  function CursorAfter(cursor: Id, ids: seq<Id>): Id {
    if ids == [] then cursor else ids[|ids| - 1]
  }

  class Replica {
    const source: string
    const hub: Hub
    var lastRecordID: Id
    ghost var handed: seq<Id>

    ghost predicate Valid()
      reads this, hub
    {
      hub.Valid() && Ascending(handed) && forall i :: 0 <= i < |handed| ==> handed[i] <= lastRecordID
    }

    constructor (source: string, hub: Hub)
      requires hub.Valid()
      ensures Valid() && this.source == source && this.hub == hub && lastRecordID == 0 && handed == []
    {
      this.source, this.hub, lastRecordID, handed := source, hub, 0, [];
    }

    /** Hands the next foreign events, strictly increasing and none twice, to the hub; a poll that gets no answer
        changes nothing. */
    method PollFanout(table: Table, answered: bool) returns (ids: seq<Id>)
      requires Valid()
      modifies this`lastRecordID, this`handed, hub
      ensures Valid()
      ensures if answered then FirstOf(Foreign(table, old(lastRecordID), source), POLL_LIMIT, ids) else ids == []
      ensures answered ==> NextForeign(table, old(lastRecordID), source, 100, ids)
      ensures handed == old(handed) + ids && lastRecordID == CursorAfter(old(lastRecordID), ids)
      ensures hub.log == old(hub.log) + EventsOf(table, ids)
    {
      if !answered {
        assert handed + [] == handed && hub.log + [] == hub.log;
        return [];
      }
      ids := ListRealtimeEventsAfter(table, lastRecordID, source, POLL_LIMIT);
      NextIdsAscend(handed, ids, lastRecordID, table, source);
      HandOver(table, ids);
      handed := handed + ids;
    }

    method HandOver(table: Table, ids: seq<Id>)
      requires hub.Valid() && forall k :: 0 <= k < |ids| ==> ids[k] in table
      requires forall k :: 0 <= k < |ids| ==> CursorAfter(lastRecordID, ids[..k]) < ids[k]
      modifies this`lastRecordID, hub
      ensures hub.Valid() && hub.log == old(hub.log) + EventsOf(table, ids)
      ensures lastRecordID == CursorAfter(old(lastRecordID), ids)
    {
      ghost var start, log := lastRecordID, hub.log;
      for k := 0 to |ids|
        invariant hub.Valid() && lastRecordID == CursorAfter(start, ids[..k])
        invariant hub.log == log + EventsOf(table, ids[..k])
      {
        EventsGrow(table, ids[..k], ids[k]);
        assert ids[..k + 1] == ids[..k] + [ids[k]];
        if ids[k] > lastRecordID { lastRecordID := ids[k]; }
        hub.Publish(table[ids[k]].event);
      }
      assert ids[..|ids|] == ids;
    }
  }

  lemma EventsGrow(table: Table, ids: seq<Id>, id: Id)
    ensures EventsOf(table, ids + [id]) ==
      EventsOf(table, ids) + if id in table && Publishable(table[id].event) then [table[id].event] else []
  {
    assert (ids + [id])[..|ids|] == ids;
  }

  lemma NextIdsAscend(handed: seq<Id>, ids: seq<Id>, cursor: Id, table: Table, source: string)
    requires Ascending(handed) && forall i :: 0 <= i < |handed| ==> handed[i] <= cursor
    requires FirstOf(Foreign(table, cursor, source), POLL_LIMIT, ids)
    ensures Ascending(handed + ids)
    ensures forall i :: 0 <= i < |handed + ids| ==> (handed + ids)[i] <= CursorAfter(cursor, ids)
    ensures forall k :: 0 <= k < |ids| ==> ids[k] in table && CursorAfter(cursor, ids[..k]) < ids[k]
  {
    assert forall k :: 0 <= k < |ids| ==> ids[k] in SetOf(ids);
    ConcatAscending(handed, ids);
  }
}
