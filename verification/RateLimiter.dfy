/**
 A sliding-window rate limiter over per-key lists of hit times, compacted in place, swept now and then, and
 bounded by evicting a key. Times are integers and 0 is the zero time.
 */
module RateLimiter {
  import opened Selection

  type Time = int

  type Hits = map<string, seq<Time>>

  // ---------- Lists of hits ----------

  function AfterTo(hits: seq<Time>, n: nat, cutoff: Time): seq<Time>
    requires n <= |hits|
  {
    if n == 0 then [] else AfterTo(hits, n - 1, cutoff) + (if hits[n - 1] > cutoff then [hits[n - 1]] else [])
  }

  /** The hits strictly later than `cutoff`, in order. */
  function After(hits: seq<Time>, cutoff: Time): seq<Time> {
    AfterTo(hits, |hits|, cutoff)
  }

  function ListOf(hits: Hits, key: string): seq<Time> {
    if key in hits then hits[key] else []
  }

  predicate Ordered(hits: seq<Time>) {
    forall i, j :: 0 <= i < j < |hits| ==> hits[i] <= hits[j]
  }

  /** Compaction through `hits[:0]`: the kept hits overwrite the front of the array they are read from. */
  method CompactInPlace(hits: array<Time>, n: nat, cutoff: Time) returns (kept: nat)
    requires n <= hits.Length
    modifies hits
    ensures kept <= n && hits[..kept] == After(old(hits[..n]), cutoff)
    ensures hits[n..] == old(hits[n..])
  {
    kept := 0;
    ghost var was := hits[..n];
    for i := 0 to n
      invariant kept <= i && hits[..kept] == AfterTo(was, i, cutoff)
      invariant hits[i..] == old(hits[i..])
    {
      assert hits[i] == hits[i..][0] == was[i];
      if hits[i] > cutoff {
        hits[kept] := hits[i];
        kept := kept + 1;
      }
    }
  }

  method Compact(hits: seq<Time>, cutoff: Time) returns (keep: seq<Time>)
    ensures keep == After(hits, cutoff)
  {
    keep := [];
    for i := 0 to |hits|
      invariant keep == AfterTo(hits, i, cutoff)
    {
      if hits[i] > cutoff {
        keep := keep + [hits[i]];
      }
    }
  }

  lemma {:induction false} SamePrefix(a: seq<Time>, b: seq<Time>, n: nat, cutoff: Time)
    requires n <= |a| && n <= |b| && a[..n] == b[..n]
    ensures AfterTo(a, n, cutoff) == AfterTo(b, n, cutoff)
  {
    if n > 0 {
      assert a[n - 1] == a[..n][n - 1] && b[n - 1] == b[..n][n - 1];
      assert a[..n - 1] == a[..n][..n - 1] && b[..n - 1] == b[..n][..n - 1];
      SamePrefix(a, b, n - 1, cutoff);
    }
  }

  lemma AfterLast(hits: seq<Time>, cutoff: Time)
    requires hits != []
    ensures var last := |hits| - 1;
      After(hits, cutoff) == After(hits[..last], cutoff) + (if hits[last] > cutoff then [hits[last]] else [])
  {
    var last := |hits| - 1;
    assert hits[..last][..last] == hits[..last];
    SamePrefix(hits, hits[..last], last, cutoff);
  }

  lemma {:induction false} AfterTwice(hits: seq<Time>, early: Time, late: Time)
    requires early <= late
    ensures After(After(hits, early), late) == After(hits, late)
  {
    if hits != [] {
      var last := |hits| - 1;
      AfterLast(hits, early);
      AfterLast(hits, late);
      AfterTwice(hits[..last], early, late);
      if hits[last] > early {
        AfterAppend(After(hits[..last], early), hits[last], late);
      } else {
        assert After(hits, early) == After(hits[..last], early);
      }
    }
  }

  lemma AfterAppend(hits: seq<Time>, hit: Time, cutoff: Time)
    ensures After(hits + [hit], cutoff) == After(hits, cutoff) + (if hit > cutoff then [hit] else [])
  {
    AfterLast(hits + [hit], cutoff);
    assert (hits + [hit])[..|hits|] == hits;
  }

  lemma {:induction false} AfterKeeps(hits: seq<Time>, cutoff: Time)
    ensures var kept := After(hits, cutoff);
      && |kept| <= |hits|
      && (forall i :: 0 <= i < |kept| ==> kept[i] in hits && kept[i] > cutoff)
      && (Ordered(hits) ==> Ordered(kept))
  {
    if hits != [] {
      var last := |hits| - 1;
      AfterLast(hits, cutoff);
      AfterKeeps(hits[..last], cutoff);
      assert forall h :: h in hits[..last] ==> h in hits;
      assert Ordered(hits) ==> forall h :: h in hits[..last] ==> h <= hits[last];
    }
  }

  lemma {:induction false} NoneAfter(hits: seq<Time>, cutoff: Time)
    requires forall i :: 0 <= i < |hits| ==> hits[i] <= cutoff
    ensures After(hits, cutoff) == []
  {
    if hits != [] {
      AfterLast(hits, cutoff);
      NoneAfter(hits[..|hits| - 1], cutoff);
    }
  }

  /** In an ordered list, how many hits are later than `cutoff` tells which ones they are. */
  lemma {:induction false} AfterIsSuffix(hits: seq<Time>, cutoff: Time, j: nat)
    requires Ordered(hits) && j < |hits|
    ensures hits[j] > cutoff ==> |After(hits, cutoff)| >= |hits| - j
    ensures hits[j] <= cutoff ==> |After(hits, cutoff)| < |hits| - j
  {
    var last := |hits| - 1;
    AfterLast(hits, cutoff);
    if j < last {
      AfterIsSuffix(hits[..last], cutoff, j);
    } else {
      if hits[last] <= cutoff { NoneAfter(hits[..last], cutoff); }
    }
  }

  // ---------- The simple rule ----------

  /** The hits of the half-open window (start, end]. */
  function Between(hits: seq<Time>, start: Time, end: Time): seq<Time> {
    if hits == [] then []
    else
      var last := |hits| - 1;
      Between(hits[..last], start, end) + (if start < hits[last] <= end then [hits[last]] else [])
  }

  /** While no hit lies in the future, those after the cutoff are those of the window that ends now. */
  lemma {:induction false} AfterIsBetween(hits: seq<Time>, n: nat, cutoff: Time, now: Time)
    requires n <= |hits| && forall i :: 0 <= i < |hits| ==> hits[i] <= now
    ensures AfterTo(hits, n, cutoff) == Between(hits[..n], cutoff, now)
  {
    if n > 0 {
      assert hits[..n][..n - 1] == hits[..n - 1];
      AfterIsBetween(hits, n - 1, cutoff, now);
    }
  }

  /** Any hit and the cap-th one after it lie at least a window apart. */
  ghost predicate Spaced(hits: seq<Time>, cap: nat, window: int) {
    forall i, j :: 0 <= i && j == i + cap && j < |hits| ==> hits[j] - hits[i] >= window
  }

  lemma SpacedGrows(hits: seq<Time>, cap: nat, more: nat, window: int)
    requires Ordered(hits) && Spaced(hits, cap, window) && cap <= more
    ensures Spaced(hits, more, window)
  {
    forall i, j | 0 <= i && j == i + more && j < |hits| ensures hits[j] - hits[i] >= window {
      var m := i + cap;
      assert hits[m] - hits[i] >= window;
    }
  }

  /** A hit allowed by the rule keeps the spacing. */
  lemma AllowedKeepsSpacing(hits: seq<Time>, cap: nat, window: int, now: Time)
    requires Ordered(hits) && Spaced(hits, cap, window)
    requires forall i :: 0 <= i < |hits| ==> hits[i] <= now
    requires |After(hits, now - window)| < cap
    ensures Ordered(hits + [now]) && Spaced(hits + [now], cap, window)
  {
    if cap <= |hits| {
      AfterIsSuffix(hits, now - window, |hits| - cap);
    }
  }

  lemma {:induction false} BetweenIsAfter(hits: seq<Time>, start: Time, end: Time)
    requires forall i :: 0 <= i < |hits| ==> hits[i] <= end
    ensures Between(hits, start, end) == After(hits, start)
  {
    if hits != [] {
      AfterLast(hits, start);
      BetweenIsAfter(hits[..|hits| - 1], start, end);
    }
  }

  /** No window of the configured length ever holds more hits than the cap. */
  lemma {:induction false} NoWindowOverflows(hits: seq<Time>, cap: nat, window: int, start: Time)
    requires Ordered(hits) && Spaced(hits, cap, window)
    ensures |Between(hits, start, start + window)| <= cap
  {
    if hits != [] {
      var last := |hits| - 1;
      var front := hits[..last];
      if hits[last] > start + window {
        NoWindowOverflows(front, cap, window, start);
      } else {
        BetweenIsAfter(hits, start, start + window);
        AfterKeeps(hits, start);
        if last >= cap {
          var j := last - cap;
          assert hits[last] - hits[j] >= window;
          AfterIsSuffix(hits, start, j);
        }
      }
    }
  }

  // ---------- Sweeping and evicting ----------

  /** Every list cut down to the window and the empty ones dropped. */
  function Swept(hits: Hits, cutoff: Time): Hits {
    map key | key in hits && After(hits[key], cutoff) != [] :: After(hits[key], cutoff)
  }

  function Later(a: Time, b: Time): Time {
    if a > b then a else b
  }

  function LatestTo(hits: seq<Time>, n: nat): Time
    requires n <= |hits|
  {
    if n == 0 then 0 else Later(LatestTo(hits, n - 1), hits[n - 1])
  }

  /** The latest of a key's hits, or the zero time. */
  function Latest(hits: seq<Time>): Time {
    LatestTo(hits, |hits|)
  }

  lemma {:induction false} LatestIsLast(hits: seq<Time>, n: nat)
    requires Ordered(hits) && 0 < n <= |hits| && hits[0] > 0
    ensures LatestTo(hits, n) == hits[n - 1]
  {
    if n > 1 { LatestIsLast(hits, n - 1); }
  }

  /** Each key once, in whatever order the map yields them. */
  ghost predicate OrderOf(order: seq<string>, hits: Hits) {
    && (forall key :: key in order <==> key in hits)
    && (forall i, j :: 0 <= i < j < |order| ==> order[i] != order[j])
  }

  /** The key the search ends on, "" standing for none, after seeing `order`. */
  function Victim(order: seq<string>, hits: Hits): string
    requires forall key :: key in order ==> key in hits
  {
    if order == [] then ""
    else
      var last := |order| - 1;
      var best := Victim(order[..last], hits);
      if best == "" || Latest(hits[order[last]]) < Latest(ListOf(hits, best)) then order[last] else best
  }

  /** The position of the key the search ends on after `n` keys. */
  lemma {:induction false} VictimAt(order: seq<string>, hits: Hits, n: nat) returns (k: nat)
    requires 0 < n <= |order| && forall key :: key in order ==> key in hits && key != ""
    ensures k < n && Victim(order[..n], hits) == order[k]
    ensures forall i :: 0 <= i < n ==> Latest(hits[order[k]]) <= Latest(hits[order[i]])
  {
    assert order[..n][..n - 1] == order[..n - 1] && order[..n][n - 1] == order[n - 1];
    assert order[n - 1] in order;
    if n == 1 {
      k := 0;
    } else {
      k := VictimAt(order, hits, n - 1);
      assert order[k] in order && ListOf(hits, order[k]) == hits[order[k]];
      if Latest(hits[order[n - 1]]) < Latest(hits[order[k]]) { k := n - 1; }
    }
  }

  lemma VictimIsOldest(order: seq<string>, hits: Hits)
    requires forall key :: key in order ==> key in hits && key != ""
    requires order != []
    ensures Victim(order, hits) in order
    ensures forall key :: key in order ==> Latest(hits[Victim(order, hits)]) <= Latest(hits[key])
  {
    var k := VictimAt(order, hits, |order|);
    assert order[..|order|] == order;
  }

  method LatestHit(hits: seq<Time>) returns (latest: Time)
    ensures latest == Latest(hits)
  {
    latest := 0;
    for i := 0 to |hits|
      invariant latest == LatestTo(hits, i)
    {
      if hits[i] > latest { latest := hits[i]; }
    }
  }

  /** The map without the victim; the empty key is never removed. */
  function Without(hits: Hits, victim: string): Hits {
    if victim == "" then hits else hits - {victim}
  }

  lemma OrderExists(keys: set<string>) returns (order: seq<string>)
    ensures forall key :: key in order <==> key in keys
    ensures forall i, j :: 0 <= i < j < |order| ==> order[i] != order[j]
  {
    order := [];
    var left := keys;
    while left != {}
      invariant left <= keys
      invariant forall key :: key in order <==> key in keys - left
      invariant forall i, j :: 0 <= i < j < |order| ==> order[i] != order[j]
    {
      var key :| key in left;
      assert key !in order;
      order, left := order + [key], left - {key};
    }
  }

  ghost predicate MayEvictNothing(hits: Hits) {
    exists order :: OrderOf(order, hits) && Victim(order, hits) == ""
  }

  /** The search comes back empty-handed in some order exactly when the empty key is in use and older than all
      others. */
  lemma EvictsUnlessEmptyKeyIsOldest(hits: Hits)
    requires hits != map[]
    ensures MayEvictNothing(hits) <==>
      "" in hits && forall key :: key in hits && key != "" ==> Latest(hits[""]) < Latest(hits[key])
  {
    if MayEvictNothing(hits) {
      var order :| OrderOf(order, hits) && Victim(order, hits) == "";
      EmptyVictim(order, hits);
    }
    if "" in hits && forall key :: key in hits && key != "" ==> Latest(hits[""]) < Latest(hits[key]) {
      OldestEmptyKeyHides(hits);
    }
  }

  /** Seen last, an empty key older than all others takes the place of the victim found so far. */
  lemma OldestEmptyKeyHides(hits: Hits)
    requires "" in hits && forall key :: key in hits && key != "" ==> Latest(hits[""]) < Latest(hits[key])
    ensures MayEvictNothing(hits)
  {
    var others := OrderExists(hits.Keys - {""});
    var order := others + [""];
    assert order[..|others|] == others;
    if others != [] { VictimIsOldest(others, hits); }
    assert OrderOf(order, hits);
  }

  /** A search that ends on the empty key saw it last and found it older than the best so far. */
  lemma EndsOnEmptyKey(order: seq<string>, hits: Hits)
    requires forall key :: key in order ==> key in hits
    requires order != [] && Victim(order, hits) == ""
    ensures var last := |order| - 1; var best := Victim(order[..last], hits);
            order[last] == "" && (best != "" ==> Latest(hits[""]) < Latest(ListOf(hits, best)))
  {
  }

  /** In an order that ends on `last`, every other key comes before it. */
  lemma OthersComeBefore(order: seq<string>, hits: Hits, key: string)
    requires OrderOf(order, hits) && order != [] && key in hits && key != order[|order| - 1]
    ensures key in order[..|order| - 1]
  {
    var i :| 0 <= i < |order| && order[i] == key;
    assert order[..|order| - 1][i] == key;
  }

  lemma FrontAvoidsLast(order: seq<string>, hits: Hits)
    requires OrderOf(order, hits) && order != []
    ensures forall key :: key in order[..|order| - 1] ==> key in hits && key != order[|order| - 1]
  {
  }

  lemma EmptyVictim(order: seq<string>, hits: Hits)
    requires hits != map[] && OrderOf(order, hits) && Victim(order, hits) == ""
    ensures "" in hits && forall key :: key in hits && key != "" ==> Latest(hits[""]) < Latest(hits[key])
  {
    var some :| some in hits;
    assert some in order;
    var front := order[..|order| - 1];
    EndsOnEmptyKey(order, hits);
    FrontAvoidsLast(order, hits);
    assert order[|order| - 1] in order;
    forall key | key in hits && key != "" ensures Latest(hits[""]) < Latest(hits[key]) {
      OthersComeBefore(order, hits, key);
      VictimIsOldest(front, hits);
    }
  }

  // ---------- One call ----------

  /** The map as the call finds it: swept when a window has passed since the last sweep. */
  function Current(hits: Hits, lastSweep: Time, window: int, now: Time): Hits {
    if lastSweep == 0 || now - lastSweep >= window then Swept(hits, now - window) else hits
  }

  function SweepTime(lastSweep: Time, window: int, now: Time): Time {
    if lastSweep == 0 || now - lastSweep >= window then now else lastSweep
  }

  predicate Crowded(hits: Hits, key: string, maxKeys: int) {
    key !in hits && |hits| >= maxKeys
  }

  /** The map after making room for `key`, which takes `victim` when every surviving key is still in the window. */
  function Roomy(hits: Hits, key: string, maxKeys: int, cutoff: Time, victim: string): Hits {
    if Crowded(hits, key, maxKeys) then
      Without(Swept(hits, cutoff), victim)
    else hits
  }

  predicate SameAfter(a: seq<Time>, b: seq<Time>, cutoff: Time) {
    After(a, cutoff) == After(b, cutoff)
  }

  predicate AgreeOn(hits: Hits, log: Hits, key: string, cutoff: Time) {
    SameAfter(ListOf(hits, key), ListOf(log, key), cutoff)
  }

  /** Each list holds, past the cutoff, exactly what the log of its key holds there. */
  ghost predicate Agree(hits: Hits, log: Hits, cutoff: Time) {
    forall key :: AgreeOn(hits, log, key, cutoff)
  }

  /** Times in order, none of them zero or in the future. */
  predicate Timely(hits: seq<Time>, clock: Time) {
    Ordered(hits) && forall i :: 0 <= i < |hits| ==> 0 < hits[i] <= clock
  }

  predicate KeptAt(hits: Hits, key: string, clock: Time)
    requires key in hits
  {
    hits[key] != [] && Timely(hits[key], clock)
  }

  ghost predicate WellKept(hits: Hits, clock: Time) {
    forall key :: key in hits ==> KeptAt(hits, key, clock)
  }

  lemma AgreeLater(hits: Hits, log: Hits, early: Time, late: Time)
    requires Agree(hits, log, early) && early <= late
    ensures Agree(hits, log, late)
  {
    forall key ensures AgreeOn(hits, log, key, late) {
      assert AgreeOn(hits, log, key, early);
      AfterTwice(ListOf(hits, key), early, late);
      AfterTwice(ListOf(log, key), early, late);
    }
  }

  lemma AfterIsTimely(hits: seq<Time>, cutoff: Time, clock: Time)
    requires Timely(hits, clock)
    ensures Timely(After(hits, cutoff), clock)
  {
    AfterKeeps(hits, cutoff);
  }

  lemma SweptKeeps(hits: Hits, log: Hits, cutoff: Time, clock: Time)
    requires Agree(hits, log, cutoff) && WellKept(hits, clock)
    ensures Agree(Swept(hits, cutoff), log, cutoff) && WellKept(Swept(hits, cutoff), clock)
    ensures |Swept(hits, cutoff)| <= |hits|
  {
    var swept := Swept(hits, cutoff);
    forall key ensures AgreeOn(swept, log, key, cutoff) {
      assert AgreeOn(hits, log, key, cutoff);
      AfterTwice(ListOf(hits, key), cutoff, cutoff);
    }
    forall key | key in swept ensures Timely(swept[key], clock) {
      AfterIsTimely(hits[key], cutoff, clock);
    }
    Smaller(swept.Keys, hits.Keys);
  }

  function Recorded(hits: Hits, key: string, cutoff: Time, now: Time, allowed: bool): Hits {
    hits[key := After(ListOf(hits, key), cutoff) + (if allowed then [now] else [])]
  }

  function Logged(log: Hits, key: string, now: Time, allowed: bool): Hits {
    if allowed then log[key := ListOf(log, key) + [now]] else log
  }

  function Capped(caps: map<string, nat>, key: string, limit: nat): map<string, nat> {
    caps[key := if key in caps && caps[key] > limit then caps[key] else limit]
  }

  predicate Full(hits: Hits, key: string, maxKeys: int, cutoff: Time) {
    Crowded(hits, key, maxKeys) && |Swept(hits, cutoff)| >= maxKeys
  }

  /** No victim unless the map is full of keys still in the window, and then one the search may end on. */
  ghost predicate Chosen(victim: string, order: seq<string>, hits: Hits, key: string, maxKeys: int, cutoff: Time) {
    if Full(hits, key, maxKeys, cutoff) then
      OrderOf(order, Swept(hits, cutoff)) && Victim(order, Swept(hits, cutoff)) == victim
    else victim == ""
  }

  /** How a call made room: the map it found, the order it searched for a victim, the victim, and the map it left. */
  datatype Room = Room(current: Hits, order: seq<string>, victim: string, roomy: Hits)

  ghost predicate MadeRoom(room: Room, hits: Hits, lastSweep: Time, window: int, key: string, maxKeys: int, now: Time) {
    && room.current == Current(hits, lastSweep, window, now)
    && Chosen(room.victim, room.order, room.current, key, maxKeys, now - window)
    && room.roomy == Roomy(room.current, key, maxKeys, now - window, room.victim)
  }

  /** When a key is evicted, at least `maxKeys` keys have a hit in the window and the victim's last hit is the
      oldest. */
  lemma EvictionIsJustified(victim: string, order: seq<string>, hits: Hits, key: string, maxKeys: int, cutoff: Time,
                            clock: Time)
    requires WellKept(hits, clock) && "" !in hits && victim != "" && Chosen(victim, order, hits, key, maxKeys, cutoff)
    ensures var live := Swept(hits, cutoff);
      && |live| >= maxKeys && victim in live && victim != key
      && (forall k :: k in live ==> live[k] != [] && live[k][|live[k]| - 1] > cutoff)
      && (forall k :: k in live ==> live[victim][|live[victim]| - 1] <= live[k][|live[k]| - 1])
  {
    var live := Swept(hits, cutoff);
    assert order != [];
    VictimIsOldest(order, live);
    forall k | k in live
      ensures live[k] != [] && live[k][|live[k]| - 1] > cutoff && Latest(live[k]) == live[k][|live[k]| - 1]
    {
      AfterKeeps(hits[k], cutoff);
      LatestIsLast(live[k], |live[k]|);
    }
  }

  lemma WithoutKeeps(hits: Hits, log: Hits, victim: string, cutoff: Time, clock: Time)
    requires Agree(hits, log, cutoff) && WellKept(hits, clock)
    ensures Agree(Without(hits, victim), Without(log, victim), cutoff) && WellKept(Without(hits, victim), clock)
  {
    forall key ensures AgreeOn(Without(hits, victim), Without(log, victim), key, cutoff) {
      assert AgreeOn(hits, log, key, cutoff);
    }
  }

  lemma RoomyKeeps(hits: Hits, log: Hits, key: string, maxKeys: int, cutoff: Time, clock: Time, victim: string)
    requires Agree(hits, log, cutoff) && WellKept(hits, clock)
    requires victim != "" ==> Crowded(hits, key, maxKeys)
    ensures Agree(Roomy(hits, key, maxKeys, cutoff, victim), Without(log, victim), cutoff)
    ensures WellKept(Roomy(hits, key, maxKeys, cutoff, victim), clock)
  {
    if key !in hits && |hits| >= maxKeys {
      SweptKeeps(hits, log, cutoff, clock);
      WithoutKeeps(Swept(hits, cutoff), log, victim, cutoff, clock);
    }
  }

  lemma VictimIsAnother(order: seq<string>, hits: Hits, key: string, maxKeys: int, cutoff: Time, victim: string)
    requires Chosen(victim, order, hits, key, maxKeys, cutoff) && victim != ""
    ensures victim in hits && victim != key && Crowded(hits, key, maxKeys)
  {
    var live := Swept(hits, cutoff);
    VictimIsSeen(order, live);
  }

  lemma {:induction false} VictimIsSeen(order: seq<string>, hits: Hits)
    requires forall key :: key in order ==> key in hits
    ensures Victim(order, hits) == "" || Victim(order, hits) in order
  {
    if order != [] {
      var last := |order| - 1;
      assert order == order[..last] + [order[last]];
      assert forall key :: key in order[..last] ==> key in order;
      VictimIsSeen(order[..last], hits);
    }
  }

  function Bound(maxKeys: int): nat {
    if maxKeys < 1 then 1 else maxKeys
  }

  predicate Fits(roomy: Hits, key: string, maxKeys: int) {
    "" !in roomy && |roomy| <= Bound(maxKeys) && (key !in roomy ==> |roomy| < Bound(maxKeys))
  }

  /** With no empty key there is always room for one more key. */
  lemma RoomyFits(order: seq<string>, hits: Hits, key: string, maxKeys: int, cutoff: Time, victim: string)
    requires Chosen(victim, order, hits, key, maxKeys, cutoff) && "" !in hits && |hits| <= Bound(maxKeys)
    ensures Fits(Roomy(hits, key, maxKeys, cutoff, victim), key, maxKeys)
  {
    if key !in hits && |hits| >= maxKeys {
      var live := Swept(hits, cutoff);
      Smaller(live.Keys, hits.Keys);
      if |live| >= maxKeys {
        if order != [] {
          VictimIsOldest(order, live);
          assert (live - {victim}).Keys == live.Keys - {victim};
        } else {
          assert live.Keys == {};
        }
      }
    }
  }

  lemma ListGrows(hits: seq<Time>, cutoff: Time, now: Time, allowed: bool, limit: nat)
    requires Timely(hits, now) && 0 < now
    requires 0 < limit && allowed == (|After(hits, cutoff)| < limit)
    ensures var grown := After(hits, cutoff) + (if allowed then [now] else []); grown != [] && Timely(grown, now)
  {
    AfterKeeps(hits, cutoff);
  }

  lemma RecordedIsKept(hits: Hits, key: string, cutoff: Time, now: Time, allowed: bool, limit: nat)
    requires WellKept(hits, now) && 0 < now && 0 < limit
    requires allowed == (|After(ListOf(hits, key), cutoff)| < limit)
    ensures WellKept(Recorded(hits, key, cutoff, now, allowed), now)
  {
    ListGrows(ListOf(hits, key), cutoff, now, allowed, limit);
  }

  lemma LoggedIsKept(log: Hits, key: string, now: Time, allowed: bool)
    requires WellKept(log, now) && 0 < now
    ensures WellKept(Logged(log, key, now, allowed), now)
  {
    assert Timely(ListOf(log, key) + [now], now);
  }

  lemma ListsAgree(hits: seq<Time>, log: seq<Time>, cutoff: Time, now: Time, allowed: bool)
    requires SameAfter(hits, log, cutoff)
    ensures var hit := if allowed then [now] else []; SameAfter(After(hits, cutoff) + hit, log + hit, cutoff)
  {
    AfterTwice(hits, cutoff, cutoff);
    AfterAppend(After(hits, cutoff), now, cutoff);
    AfterAppend(log, now, cutoff);
    assert log + [] == log && After(hits, cutoff) + [] == After(hits, cutoff);
  }

  lemma RecordedAgrees(hits: Hits, log: Hits, key: string, cutoff: Time, now: Time, allowed: bool)
    requires Agree(hits, log, cutoff)
    ensures Agree(Recorded(hits, key, cutoff, now, allowed), Logged(log, key, now, allowed), cutoff)
  {
    var hits', log' := Recorded(hits, key, cutoff, now, allowed), Logged(log, key, now, allowed);
    var more := if allowed then [now] else [];
    assert ListOf(log', key) == ListOf(log, key) + more;
    assert AgreeOn(hits, log, key, cutoff);
    ListsAgree(ListOf(hits, key), ListOf(log, key), cutoff, now, allowed);
    forall k | k != key ensures AgreeOn(hits', log', k, cutoff) {
      assert AgreeOn(hits, log, k, cutoff);
      assert ListOf(hits', k) == ListOf(hits, k) && ListOf(log', k) == ListOf(log, k);
    }
  }

  ghost predicate AllSpaced(log: Hits, caps: map<string, nat>, window: int) {
    log.Keys <= caps.Keys && forall key :: key in log ==> Spaced(log[key], caps[key], window)
  }

  lemma LoggedIsSpaced(log: Hits, caps: map<string, nat>, key: string, limit: nat, window: int, now: Time,
                       allowed: bool)
    requires WellKept(log, now) && AllSpaced(log, caps, window)
    requires allowed == (|After(ListOf(log, key), now - window)| < limit)
    ensures AllSpaced(Logged(log, key, now, allowed), Capped(caps, key, limit), window)
  {
    var list, cap := ListOf(log, key), Capped(caps, key, limit)[key];
    if key in log { SpacedGrows(list, caps[key], cap, window); }
    if allowed { AllowedKeepsSpacing(list, cap, window, now); }
  }

  lemma CurrentShrinks(hits: Hits, lastSweep: Time, window: int, now: Time)
    ensures |Current(hits, lastSweep, window, now)| <= |hits| && Current(hits, lastSweep, window, now).Keys <= hits.Keys
  {
    Smaller(Current(hits, lastSweep, window, now).Keys, hits.Keys);
  }

  lemma MakingRoomWorks(order: seq<string>, hits: Hits, roomy: Hits, key: string, maxKeys: int, cutoff: Time,
                        victim: string)
    requires Chosen(victim, order, hits, key, maxKeys, cutoff) && roomy == Roomy(hits, key, maxKeys, cutoff, victim)
    ensures victim != "" ==> victim != key && Crowded(hits, key, maxKeys)
    ensures "" !in hits && |hits| <= Bound(maxKeys) ==> Fits(roomy, key, maxKeys)
  {
    if victim != "" { VictimIsAnother(order, hits, key, maxKeys, cutoff, victim); }
    if "" !in hits && |hits| <= Bound(maxKeys) { RoomyFits(order, hits, key, maxKeys, cutoff, victim); }
  }

  lemma CurrentFits(hits: Hits, current: Hits, lastSweep: Time, maxKeys: int, window: int, now: Time)
    requires current == Current(hits, lastSweep, window, now)
    requires "" !in hits && |hits| <= Bound(maxKeys)
    ensures "" !in current && |current| <= Bound(maxKeys)
  {
    CurrentShrinks(hits, lastSweep, window, now);
  }

  lemma CurrentKeeps(hits: Hits, log: Hits, lastSweep: Time, window: int, now: Time)
    requires Agree(hits, log, now - window) && WellKept(hits, now)
    ensures var current := Current(hits, lastSweep, window, now);
      Agree(current, log, now - window) && WellKept(current, now)
  {
    SweptKeeps(hits, log, now - window, now);
  }

  lemma RecordedFits(roomy: Hits, key: string, maxKeys: int, cutoff: Time, now: Time, allowed: bool)
    requires Fits(roomy, key, maxKeys) && key != ""
    ensures "" !in Recorded(roomy, key, cutoff, now, allowed) &&
            |Recorded(roomy, key, cutoff, now, allowed)| <= Bound(maxKeys)
  {
    assert Recorded(roomy, key, cutoff, now, allowed).Keys == roomy.Keys + {key};
  }

  lemma RoomIsMade(hits: Hits, roomy: Hits, log: Hits, caps: map<string, nat>, window: int, key: string, maxKeys: int,
                   cutoff: Time, clock: Time, victim: string)
    requires Agree(hits, log, cutoff) && WellKept(hits, clock) && WellKept(log, clock) && AllSpaced(log, caps, window)
    requires victim != "" ==> victim != key && Crowded(hits, key, maxKeys)
    requires roomy == Roomy(hits, key, maxKeys, cutoff, victim)
    ensures Agree(roomy, Without(log, victim), cutoff) && WellKept(roomy, clock) &&
            WellKept(Without(log, victim), clock)
    ensures AllSpaced(Without(log, victim), caps, window)
    ensures |After(ListOf(roomy, key), cutoff)| == |After(ListOf(log, key), cutoff)|
  {
    RoomyKeeps(hits, log, key, maxKeys, cutoff, clock, victim);
    assert AgreeOn(roomy, Without(log, victim), key, cutoff);
  }

  lemma HitIsRecorded(hits: Hits, log: Hits, caps: map<string, nat>, key: string, limit: nat, window: int, now: Time,
                      allowed: bool)
    requires 0 < now && 0 < limit
    requires Agree(hits, log, now - window) && WellKept(hits, now) && WellKept(log, now) && AllSpaced(log, caps, window)
    requires allowed == (|After(ListOf(hits, key), now - window)| < limit)
    ensures Agree(Recorded(hits, key, now - window, now, allowed), Logged(log, key, now, allowed), now - window)
    ensures WellKept(Recorded(hits, key, now - window, now, allowed), now) &&
            WellKept(Logged(log, key, now, allowed), now)
    ensures AllSpaced(Logged(log, key, now, allowed), Capped(caps, key, limit), window)
  {
    assert AgreeOn(hits, log, key, now - window);
    RecordedAgrees(hits, log, key, now - window, now, allowed);
    RecordedIsKept(hits, key, now - window, now, allowed, limit);
    LoggedIsKept(log, key, now, allowed);
    LoggedIsSpaced(log, caps, key, limit, window, now, allowed);
  }

  /**
   What the limiter is held to: the hits recorded for each key since it was last evicted, the largest limit each
   key was held to, and whether the empty key was ever used.
   */
  datatype Book = Book(log: Hits, caps: map<string, nat>, emptyKeyUsed: bool)

  function Entered(book: Book, victim: string, key: string, limit: nat, now: Time, allowed: bool): Book {
    Book(Logged(Without(book.log, victim), key, now, allowed), Capped(book.caps, key, limit),
         book.emptyKeyUsed || key == "")
  }

  ghost predicate Consistent(hits: Hits, book: Book, clock: Time, window: int, maxKeys: int) {
    && WellKept(hits, clock) && WellKept(book.log, clock)
    && Agree(hits, book.log, clock - window)
    && AllSpaced(book.log, book.caps, window)
    && (!book.emptyKeyUsed ==> "" !in hits && |hits| <= Bound(maxKeys))
  }

  lemma WellKeptLater(hits: Hits, clock: Time, now: Time)
    requires WellKept(hits, clock) && clock <= now
    ensures WellKept(hits, now)
  {
    assert forall key :: key in hits ==> Timely(hits[key], clock) && Timely(hits[key], now);
  }

  lemma ConsistentLater(hits: Hits, book: Book, clock: Time, now: Time, window: int, maxKeys: int)
    requires Consistent(hits, book, clock, window, maxKeys) && clock <= now
    ensures Consistent(hits, book, now, window, maxKeys)
  {
    AgreeLater(hits, book.log, clock - window, now - window);
    WellKeptLater(hits, clock, now);
    WellKeptLater(book.log, clock, now);
  }

  /** A call leaves a consistent state, and counting its key's list is counting its key's log. */
  lemma CallIsConsistent(hits: Hits, book: Book, clock: Time, room: Room, lastSweep: Time, window: int, maxKeys: int,
                         key: string, limit: nat, now: Time, allowed: bool, hits': Hits, book': Book)
    requires Consistent(hits, book, clock, window, maxKeys) && clock <= now && 0 < now && 0 < limit
    requires room.current == Current(hits, lastSweep, window, now)
    requires room.roomy == Roomy(room.current, key, maxKeys, now - window, room.victim)
    requires room.victim != "" ==> room.victim != key && Crowded(room.current, key, maxKeys)
    requires "" !in hits && |hits| <= Bound(maxKeys) ==> Fits(room.roomy, key, maxKeys)
    requires allowed == (|After(ListOf(room.roomy, key), now - window)| < limit)
    requires hits' == Recorded(room.roomy, key, now - window, now, allowed) &&
             book' == Entered(book, room.victim, key, limit, now, allowed)
    ensures Consistent(hits', book', now, window, maxKeys)
    ensures allowed == (|Between(ListOf(book.log, key), now - window, now)| < limit)
  {
    var cutoff := now - window;
    ConsistentLater(hits, book, clock, now, window, maxKeys);
    CurrentKeeps(hits, book.log, lastSweep, window, now);
    RoomIsMade(room.current, room.roomy, book.log, book.caps, window, key, maxKeys, cutoff, now, room.victim);
    HitIsRecorded(room.roomy, Without(book.log, room.victim), book.caps, key, limit, window, now, allowed);
    if !book.emptyKeyUsed && key != "" { RecordedFits(room.roomy, key, maxKeys, cutoff, now, allowed); }
    LoggedInWindow(book.log, key, clock, now, window);
  }

  /** No window of any consistent state holds more hits of a key than the largest limit the key was held to. */
  lemma LimitHoldsInEveryWindow(hits: Hits, book: Book, clock: Time, window: int, maxKeys: int, key: string,
                                start: Time)
    requires Consistent(hits, book, clock, window, maxKeys) && key in book.log
    ensures |Between(book.log[key], start, start + window)| <= book.caps[key]
  {
    assert KeptAt(book.log, key, clock);
    NoWindowOverflows(book.log[key], book.caps[key], window, start);
  }

  lemma LoggedInWindow(log: Hits, key: string, clock: Time, now: Time, window: int)
    requires WellKept(log, clock) && clock <= now
    ensures After(ListOf(log, key), now - window) == Between(ListOf(log, key), now - window, now)
  {
    var hits := ListOf(log, key);
    if key in log { assert KeptAt(log, key, clock); }
    AfterIsBetween(hits, |hits|, now - window, now);
    assert hits[..|hits|] == hits;
  }

  class Limiter {
    const limit: int
    const window: int
    const maxKeys: int
    var hits: Hits
    var lastSweep: Time
    ghost var clock: Time
    ghost var book: Book

    ghost predicate Valid()
      reads this
    {
      0 <= clock && 0 <= lastSweep && Consistent(hits, book, clock, window, maxKeys)
    }

    constructor (limit: int, window: int, maxKeys: int)
      ensures Valid() && this.limit == limit && this.window == window && this.maxKeys == maxKeys
      ensures hits == map[] && book == Book(map[], map[], false) && clock == 0
    {
      this.limit, this.window, this.maxKeys := limit, window, maxKeys;
      hits, lastSweep, clock, book := map[], 0, 0, Book(map[], map[], false);
    }

    method Sweep(now: Time)
      modifies this`hits
      ensures hits == Swept(old(hits), now - window)
    {
      var left := hits.Keys;
      while left != {}
        invariant left <= old(hits).Keys
        invariant forall key :: key in hits <==> key in left || key in Swept(old(hits), now - window)
        invariant forall key :: key in left ==> hits[key] == old(hits)[key]
        invariant forall key :: key in hits && key !in left ==> hits[key] == Swept(old(hits), now - window)[key]
        decreases left
      {
        var key :| key in left;
        var keep := Compact(hits[key], now - window);
        left := left - {key};
        if keep == [] {
          hits := hits - {key};
        } else {
          hits := hits[key := keep];
        }
      }
    }

    method EvictOldest() returns (ghost order: seq<string>)
      modifies this`hits
      ensures OrderOf(order, old(hits)) && hits == Without(old(hits), Victim(order, old(hits)))
    {
      order := [];
      var oldestKey, oldest := "", 0;
      var left := hits.Keys;
      while left != {}
        invariant left <= hits.Keys && hits == old(hits)
        invariant forall key :: key in order <==> key in hits.Keys - left
        invariant forall i, j :: 0 <= i < j < |order| ==> order[i] != order[j]
        invariant oldestKey == Victim(order, hits)
        invariant oldestKey != "" ==> oldest == Latest(ListOf(hits, oldestKey))
        decreases left
      {
        var key :| key in left;
        left := left - {key};
        var latest := LatestHit(hits[key]);
        assert key !in order && (order + [key])[..|order|] == order;
        order := order + [key];
        if oldestKey == "" || latest < oldest {
          oldestKey, oldest := key, latest;
        }
      }
      if oldestKey != "" {
        hits := hits - {oldestKey};
      }
    }

    /** Makes room for a key the map does not hold. */
    method MakeRoom(key: string, now: Time) returns (ghost victim: string, ghost order: seq<string>)
      modifies this`hits
      ensures Chosen(victim, order, old(hits), key, maxKeys, now - window)
      ensures hits == Roomy(old(hits), key, maxKeys, now - window, victim)
    {
      victim, order := "", [];
      if key !in hits && |hits| >= maxKeys {
        Sweep(now);
        if |hits| >= maxKeys {
          ghost var swept := hits;
          order := EvictOldest();
          victim := Victim(order, swept);
        }
      }
    }

    /**
     One request at time `now`: allowed exactly when fewer than `limit` hits of its key's log lie in the window.
     A limit of zero or less allows everything and records nothing.
     */
    method AllowLimit(key: string, limit: int, now: Time) returns (allowed: bool, ghost room: Room)
      requires Valid() && clock <= now && 0 < now
      modifies this
      ensures Valid() && clock == now
      ensures limit <= 0 ==> allowed && hits == old(hits) && book == old(book) && lastSweep == old(lastSweep)
      ensures limit > 0 ==> allowed == (|Between(ListOf(old(book).log, key), now - window, now)| < limit)
      ensures limit > 0 ==> book == Entered(old(book), room.victim, key, limit, now, allowed)
      ensures limit > 0 ==> MadeRoom(room, old(hits), old(lastSweep), window, key, maxKeys, now)
      ensures limit > 0 ==> lastSweep == SweepTime(old(lastSweep), window, now)
      ensures limit > 0 ==> hits == Recorded(room.roomy, key, now - window, now, allowed)
    {
      ghost var was, booked, swept, earlier := hits, book, lastSweep, clock;
      clock := now;
      if limit <= 0 {
        ConsistentLater(hits, book, earlier, now, window, maxKeys);
        return true, Room(hits, [], "", hits);
      }
      room := PrepareRoom(key, now);
      allowed := RecordHit(key, limit, now);
      book := Entered(booked, room.victim, key, limit, now, allowed);
      CallIsConsistent(was, booked, earlier, room, swept, window, maxKeys, key, limit, now, allowed, hits, book);
    }

    method PrepareRoom(key: string, now: Time) returns (ghost room: Room)
      modifies this`hits, this`lastSweep
      ensures MadeRoom(room, old(hits), old(lastSweep), window, key, maxKeys, now) && hits == room.roomy
      ensures room.victim != "" ==> room.victim != key && Crowded(room.current, key, maxKeys)
      ensures "" !in old(hits) && |old(hits)| <= Bound(maxKeys) ==> Fits(room.roomy, key, maxKeys)
      ensures lastSweep == SweepTime(old(lastSweep), window, now)
    {
      ghost var was, swept := hits, lastSweep;
      SweepWhenDue(now);
      ghost var current := hits;
      ghost var victim, order := MakeRoom(key, now);
      room := Room(current, order, victim, hits);
      MakingRoomWorks(order, current, hits, key, maxKeys, now - window, victim);
      if "" !in was && |was| <= Bound(maxKeys) { CurrentFits(was, current, swept, maxKeys, window, now); }
    }

    /** Counts the key's hits in the window and records this one if there are fewer than `limit`. */
    method RecordHit(key: string, limit: int, now: Time) returns (allowed: bool)
      requires 0 < limit
      modifies this`hits
      ensures allowed == (|After(ListOf(old(hits), key), now - window)| < limit)
      ensures hits == Recorded(old(hits), key, now - window, now, allowed)
    {
      var keep := Compact(ListOf(hits, key), now - window);
      allowed := |keep| < limit;
      assert keep + [] == keep;
      hits := hits[key := if allowed then keep + [now] else keep];
    }

    method SweepWhenDue(now: Time)
      modifies this`hits, this`lastSweep
      ensures hits == Current(old(hits), old(lastSweep), window, now)
      ensures lastSweep == SweepTime(old(lastSweep), window, now)
    {
      if lastSweep == 0 || now - lastSweep >= window {
        Sweep(now);
        lastSweep := now;
      }
    }

    method Allow(key: string, now: Time) returns (allowed: bool, ghost room: Room)
      requires Valid() && clock <= now && 0 < now
      modifies this
      ensures Valid() && clock == now
      ensures limit > 0 ==> allowed == (|Between(ListOf(old(book).log, key), now - window, now)| < limit)
      ensures limit <= 0 ==> allowed
    {
      allowed, room := AllowLimit(key, limit, now);
    }
  }
}
