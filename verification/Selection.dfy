/**
 `order by id limit n`: the least elements of a set of row ids, in id order, or returned in whatever order. The first n
 followed by the first m of the rest are the first n + m, fewer than the limit is all there is, and taking the least
 element again and again selects them. Sets of distinct ids have as many elements as the sequences that list them.
 */
module Selection {
  type Id = nat

  predicate Ascending(ids: seq<Id>) {
    forall i, j :: 0 <= i < j < |ids| ==> ids[i] < ids[j]
  }

  function SetOf(ids: seq<Id>): set<Id> {
    set id | id in ids
  }

  predicate AllBelow(ids: seq<Id>, id: Id) {
    forall i :: 0 <= i < |ids| ==> ids[i] < id
  }

  /** `ids` are the `limit` least of a set, in order, or all of it when it is smaller. */
  ghost predicate FirstOf(all: set<Id>, limit: nat, ids: seq<Id>) {
    && Ascending(ids)
    && SetOf(ids) <= all
    && |ids| == (if |all| <= limit then |all| else limit)
    && (forall id :: id in all - SetOf(ids) ==> AllBelow(ids, id))
  }

  predicate Distinct(ids: seq<Id>) {
    forall i, j :: 0 <= i < j < |ids| ==> ids[i] != ids[j]
  }

  /** The same rows, returned in whatever order. */
  ghost predicate AmongFirst(all: set<Id>, limit: nat, ids: seq<Id>) {
    && Distinct(ids)
    && SetOf(ids) <= all
    && |ids| == (if |all| <= limit then |all| else limit)
    && (forall id :: id in all - SetOf(ids) ==> AllBelow(ids, id))
  }

  lemma AppendedSet(ids: seq<Id>, id: Id)
    ensures SetOf(ids + [id]) == SetOf(ids) + {id}
  {
  }

  lemma {:induction false} SizeOfDistinct(ids: seq<Id>)
    requires Distinct(ids)
    ensures |SetOf(ids)| == |ids|
  {
    if ids != [] {
      var front, last := ids[..|ids| - 1], ids[|ids| - 1];
      assert ids == front + [last];
      AppendedSet(front, last);
      assert forall k :: 0 <= k < |front| ==> front[k] == ids[k] != last;
      SizeOfDistinct(front);
    }
  }

  lemma ConcatSet(a: seq<Id>, b: seq<Id>)
    ensures SetOf(a + b) == SetOf(a) + SetOf(b)
  {
  }

  lemma ConcatAscending(a: seq<Id>, b: seq<Id>)
    requires Ascending(a) && Ascending(b) && forall i, j :: 0 <= i < |a| && 0 <= j < |b| ==> a[i] < b[j]
    ensures Ascending(a + b)
  {
  }

  lemma AscendingIsDistinct(ids: seq<Id>)
    requires Ascending(ids)
    ensures Distinct(ids)
  {
  }

  lemma ConcatDistinct(a: seq<Id>, b: seq<Id>)
    requires Distinct(a) && Distinct(b) && forall i, j :: 0 <= i < |a| && 0 <= j < |b| ==> a[i] != b[j]
    ensures Distinct(a + b)
  {
  }

  /** In any order too, the first n followed by the first m of the rest are the first n + m. */
  lemma AmongFirstAppend(all: set<Id>, n: nat, a: seq<Id>, m: nat, b: seq<Id>)
    requires AmongFirst(all, n, a) && AmongFirst(all - SetOf(a), m, b)
    ensures AmongFirst(all, n + m, a + b)
  {
    SizeOfDistinct(a);
    assert all == SetOf(a) + (all - SetOf(a));
    assert |all - SetOf(a)| == |all| - |a|;
    ConcatSet(a, b);
    forall i, j | 0 <= i < |a| && 0 <= j < |b| ensures a[i] != b[j] {
      assert a[i] in SetOf(a) && b[j] in SetOf(b);
    }
    ConcatDistinct(a, b);
    forall id | id in all - SetOf(a + b) ensures AllBelow(a + b, id) {
      assert id in all - SetOf(a) && id in (all - SetOf(a)) - SetOf(b);
      assert AllBelow(a, id) && AllBelow(b, id);
    }
  }

  /** Another order of the same ids. */
  lemma ReorderedAmongFirst(all: set<Id>, n: nat, a: seq<Id>, b: seq<Id>)
    requires FirstOf(all, n, a) && Distinct(b) && SetOf(b) == SetOf(a)
    ensures AmongFirst(all, n, b)
  {
    SizeOfDistinct(a);
    SizeOfDistinct(b);
    forall id | id in all - SetOf(b) ensures AllBelow(b, id) {
      forall i | 0 <= i < |b| ensures b[i] < id {
        assert b[i] in SetOf(a) && AllBelow(a, id);
      }
    }
  }

  /** Fewer than the limit is all there is. */
  lemma FewerIsAll(all: set<Id>, limit: nat, ids: seq<Id>)
    requires FirstOf(all, limit, ids) && |ids| < limit
    ensures all == SetOf(ids)
  {
    AscendingIsDistinct(ids);
    SizeOfDistinct(ids);
    assert all == SetOf(ids) + (all - SetOf(ids));
    assert |all - SetOf(ids)| == 0;
  }

  /** Taking the least elements of a set one by one: `events` so far, `left` to go. */
  ghost predicate Taking(all: set<Id>, left: set<Id>, events: seq<Id>) {
    && left == all - SetOf(events) && SetOf(events) <= all
    && Ascending(events) && |left| + |events| == |all|
    && (forall id :: id in left ==> AllBelow(events, id))
  }

  lemma AppendedAscends(ids: seq<Id>, id: Id)
    requires Ascending(ids) && AllBelow(ids, id)
    ensures Ascending(ids + [id]) && forall later :: id < later ==> AllBelow(ids + [id], later)
  {
  }

  lemma TakenSets(all: set<Id>, left: set<Id>, events: seq<Id>, least: Id)
    requires left == all - SetOf(events) && SetOf(events) <= all && least in left
    ensures left - {least} == all - SetOf(events + [least]) && SetOf(events + [least]) <= all
  {
    AppendedSet(events, least);
  }

  lemma TakeNext(all: set<Id>, left: set<Id>, events: seq<Id>, least: Id)
    requires Taking(all, left, events) && least in left && forall id :: id in left ==> least <= id
    ensures Taking(all, left - {least}, events + [least])
  {
    TakenSets(all, left, events, least);
    AppendedAscends(events, least);
    forall id | id in left - {least} ensures AllBelow(events + [least], id) {
      assert least < id;
    }
  }

  lemma Taken(all: set<Id>, left: set<Id>, events: seq<Id>, n: nat)
    requires Taking(all, left, events) && |events| <= n && (left == {} || |events| == n)
    ensures FirstOf(all, n, events)
  {
  }

  lemma {:induction false} Smaller<T>(a: set<T>, b: set<T>)
    requires a <= b
    ensures |a| <= |b|
  {
    if a != {} {
      var x :| x in a;
      Smaller(a - {x}, b - {x});
    }
  }

  /** `order by id limit n` over a set of ids. */
  method SelectFirst(all: set<Id>, n: nat) returns (ids: seq<Id>)
    ensures FirstOf(all, n, ids)
  {
    ids := [];
    var left := all;
    while left != {} && |ids| < n
      invariant Taking(all, left, ids) && |ids| <= n
      decreases |left|
    {
      var id := Least(left);
      TakeNext(all, left, ids, id);
      left := left - {id};
      ids := ids + [id];
    }
    Taken(all, left, ids, n);
  }

  /** The rows of a set in whatever order the database returns them. */
  method InAnyOrder(all: seq<Id>) returns (ids: seq<Id>)
    requires Distinct(all)
    ensures Distinct(ids) && SetOf(ids) == SetOf(all)
  {
    ids := [];
    var left := SetOf(all);
    while left != {}
      invariant SetOf(ids) + left == SetOf(all) && SetOf(ids) !! left && Distinct(ids)
      decreases left
    {
      var id :| id in left;
      AppendedSet(ids, id);
      assert forall k :: 0 <= k < |ids| ==> ids[k] in SetOf(ids);
      left := left - {id};
      ids := ids + [id];
    }
  }

  method Least(ids: set<Id>) returns (least: Id)
    requires ids != {}
    ensures least in ids && forall id :: id in ids ==> least <= id
  {
    least :| least in ids;
    var todo := ids - {least};
    while todo != {}
      invariant todo <= ids && least in ids
      invariant forall id :: id in ids && id !in todo ==> least <= id
    {
      var id :| id in todo;
      todo := todo - {id};
      if id < least { least := id; }
    }
  }
}
