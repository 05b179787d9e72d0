/** Exported columns: dotted paths along single relations. Related records are fetched once per path prefix for a whole
    chunk of rows and cached on each row; every cell must read as a walk of its own row would. */
module RecordExport {
  import opened Schema
  import opened Text

  /** Segments a path may have. */
  const MAX_EXPORT_DEPTH := 4

  datatype Value = Nil | Text(text: string) | Other(shown: string)

  type Record = map<string, Value>

  type Collections = map<string, Collection>

  /** The related records as the caller may read them, by collection and id; fetching from a failing collection errs. */
  datatype Store = Store(records: map<string, map<string, Record>>, failing: set<string>)

  /** How a related record is labelled and how a plain value is printed. */
  datatype Printing = Printing(labelOf: (Record, Collection, string) -> string, format: Value -> string)

  datatype Path = Path(header: string, steps: seq<string>, leaf: string)

  function Read(record: Record, name: string): Value {
    if name in record then record[name] else Nil
  }

  function IdOf(v: Value): string {
    if v.Text? then v.text else ""
  }

  function Lookup(store: Store, target: string, id: string): Option<Record> {
    if id != "" && target in store.records && id in store.records[target] then Some(store.records[target][id]) else None
  }

  // ---------- The row-by-row walk ----------

  /** Where one relation step leads, when the schema has it. */
  function Target(current: Collection, reachable: Collections, step: string): Option<string> {
    match FieldOn(current.fields, step)
    case None => None
    case Some(f) => if TargetOf(f) in reachable then Some(TargetOf(f)) else None
  }

  /** The collection the first `n` steps land on, if the schema has them all. */
  function CollectionAt(from: Collection, reachable: Collections, steps: seq<string>, n: nat): Option<Collection>
    requires n <= |steps|
  {
    if n == 0 then Some(from)
    else match CollectionAt(from, reachable, steps, n - 1)
      case None => None
      case Some(current) =>
        match Target(current, reachable, steps[n - 1])
        case None => None
        case Some(target) => Some(reachable[target])
  }

  function WalkCollection(from: Collection, reachable: Collections, steps: seq<string>): Option<Collection> {
    CollectionAt(from, reachable, steps, |steps|)
  }

  /** One lookup, from where the walk stands. */
  function NextRecord(current: Option<Collection>, record: Option<Record>, reachable: Collections, store: Store,
                      step: string): Option<Record> {
    if current.None? || record.None? then None
    else match Target(current.value, reachable, step)
      case None => None
      case Some(target) => Lookup(store, target, IdOf(Read(record.value, step)))
  }

  /** The record a single row reaches by the first `n` steps, one lookup at a time. */
  function RecordAt(root: Record, from: Collection, reachable: Collections, store: Store, steps: seq<string>,
                    n: nat): Option<Record>
    requires n <= |steps|
  {
    if n == 0 then Some(root)
    else
      NextRecord(CollectionAt(from, reachable, steps, n - 1), RecordAt(root, from, reachable, store, steps, n - 1),
                 reachable, store, steps[n - 1])
  }

  function Walk(root: Record, from: Collection, reachable: Collections, store: Store,
                steps: seq<string>): Option<Record> {
    RecordAt(root, from, reachable, store, steps, |steps|)
  }

  function LeafText(record: Record, current: Collection, leaf: string, reachable: Collections, rawIds: bool,
                    printing: Printing, related: Option<Record>): string {
    match FieldOn(current.fields, leaf)
    case Some(f) =>
      if f.kind.Relation? && !rawIds && !f.multiple then
        var id := IdOf(Read(record, leaf));
        if id == "" then ""
        else if related.Some? && TargetOf(f) in reachable then
          printing.labelOf(related.value, reachable[TargetOf(f)], f.displayField)
        else id
      else printing.format(Read(record, leaf))
    case None => printing.format(Read(record, leaf))
  }

  /** The cell of one row, walked on its own. */
  function NaiveCell(root: Record, path: Path, from: Collection, reachable: Collections, store: Store, rawIds: bool,
                     printing: Printing): string {
    match (WalkCollection(from, reachable, path.steps), Walk(root, from, reachable, store, path.steps))
    case (Some(current), Some(record)) =>
      LeafText(record, current, path.leaf, reachable, rawIds, printing,
               Walk(root, from, reachable, store, path.steps + [path.leaf]))
    case _ => ""
  }

  // ---------- Cache keys ----------

  function KeyAt(steps: seq<string>, n: nat): string
    requires n <= |steps|
  {
    if n == 0 then "" else KeyAt(steps, n - 1) + "/" + steps[n - 1]
  }

  /** The key a prefix is cached under: "/client/home_location". */
  function Key(steps: seq<string>): string {
    KeyAt(steps, |steps|)
  }

  lemma {:induction false} SamePrefix(from: Collection, reachable: Collections, p: seq<string>, q: seq<string>, n: nat)
    requires n <= |p| && n <= |q| && p[..n] == q[..n]
    ensures CollectionAt(from, reachable, p, n) == CollectionAt(from, reachable, q, n)
  {
    if n > 0 {
      assert p[n - 1] == p[..n][n - 1] && q[n - 1] == q[..n][n - 1];
      assert p[..n - 1] == p[..n][..n - 1] && q[..n - 1] == q[..n][..n - 1];
      SamePrefix(from, reachable, p, q, n - 1);
    }
  }

  lemma {:induction false} SameRecord(root: Record, from: Collection, reachable: Collections, store: Store,
                                      p: seq<string>, q: seq<string>, n: nat)
    requires n <= |p| && n <= |q| && p[..n] == q[..n]
    ensures RecordAt(root, from, reachable, store, p, n) == RecordAt(root, from, reachable, store, q, n)
  {
    if n > 0 {
      assert p[n - 1] == p[..n][n - 1] && q[n - 1] == q[..n][n - 1];
      assert p[..n - 1] == p[..n][..n - 1] && q[..n - 1] == q[..n][..n - 1];
      SamePrefix(from, reachable, p, q, n - 1);
      SameRecord(root, from, reachable, store, p, q, n - 1);
    }
  }

  /** A walk over a prefix is the start of the walk. */
  lemma PrefixWalk(root: Record, from: Collection, reachable: Collections, store: Store, steps: seq<string>, n: nat)
    requires n <= |steps|
    ensures Walk(root, from, reachable, store, steps[..n]) == RecordAt(root, from, reachable, store, steps, n)
    ensures WalkCollection(from, reachable, steps[..n]) == CollectionAt(from, reachable, steps, n)
    ensures Key(steps[..n]) == KeyAt(steps, n)
  {
    assert steps[..n][..n] == steps[..n];
    SamePrefix(from, reachable, steps[..n], steps, n);
    KeyPrefix(steps[..n], steps, n);
    SameRecord(root, from, reachable, store, steps[..n], steps, n);
  }

  lemma WalkCollectionStep(from: Collection, reachable: Collections, front: seq<string>, step: string)
    ensures WalkCollection(from, reachable, front + [step]) ==
      match WalkCollection(from, reachable, front)
      case None => None
      case Some(current) =>
        match Target(current, reachable, step)
        case None => None
        case Some(target) => Some(reachable[target])
    ensures Key(front + [step]) == Key(front) + "/" + step
  {
    assert (front + [step])[..|front|] == front[..|front|];
    SamePrefix(from, reachable, front + [step], front, |front|);
    KeyPrefix(front + [step], front, |front|);
  }

  lemma WalkStep(root: Record, from: Collection, reachable: Collections, store: Store, front: seq<string>, step: string)
    ensures Walk(root, from, reachable, store, front + [step]) ==
      match (WalkCollection(from, reachable, front), Walk(root, from, reachable, store, front))
      case (Some(current), Some(record)) =>
        (match Target(current, reachable, step)
         case None => None
         case Some(target) => Lookup(store, target, IdOf(Read(record, step))))
      case _ => None
  {
    assert (front + [step])[..|front|] == front[..|front|];
    SamePrefix(from, reachable, front + [step], front, |front|);
    SameRecord(root, from, reachable, store, front + [step], front, |front|);
  }

  lemma KeyLast(steps: seq<string>)
    requires steps != []
    ensures Key(steps) == Key(steps[..|steps| - 1]) + "/" + steps[|steps| - 1]
  {
    var n := |steps| - 1;
    assert steps[..n][..n] == steps[..n];
    KeyPrefix(steps[..n], steps, n);
  }

  lemma {:induction false} KeyPrefix(p: seq<string>, q: seq<string>, n: nat)
    requires n <= |p| && n <= |q| && p[..n] == q[..n]
    ensures KeyAt(p, n) == KeyAt(q, n)
  {
    if n > 0 {
      assert p[n - 1] == p[..n][n - 1] && q[n - 1] == q[..n][n - 1];
      assert p[..n - 1] == p[..n][..n - 1] && q[..n - 1] == q[..n][..n - 1];
      KeyPrefix(p, q, n - 1);
    }
  }

  predicate Clean(steps: seq<string>) {
    forall i :: 0 <= i < |steps| ==> '/' !in steps[i]
  }

  lemma LastSlash(a: string, s: string, b: string, t: string)
    requires a + "/" + s == b + "/" + t && '/' !in s && '/' !in t
    ensures a == b && s == t
  {
    var x := a + "/" + s;
    assert x[|a|] == '/' && x[|b|] == '/';
    assert forall k :: |a| < k < |x| ==> x[k] == s[k - |a| - 1];
    assert forall k :: |b| < k < |x| ==> x[k] == t[k - |b| - 1];
    assert a == x[..|a|] && b == x[..|b|];
    assert s == x[|a| + 1..] && t == x[|b| + 1..];
  }

  /** Two prefixes of relation names never share a cache key. */
  lemma {:induction false} KeysAreDistinct(p: seq<string>, q: seq<string>)
    requires Clean(p) && Clean(q) && Key(p) == Key(q)
    ensures p == q
  {
    if p != [] && q != [] {
      var p', q' := p[..|p| - 1], q[..|q| - 1];
      KeyLast(p);
      KeyLast(q);
      LastSlash(Key(p'), p[|p| - 1], Key(q'), q[|q| - 1]);
      KeysAreDistinct(p', q');
      assert p == p' + [p[|p| - 1]] && q == q' + [q[|q| - 1]];
    }
  }

  /** Field names are identifiers, so none holds a slash. */
  predicate CleanNames(from: Collection, reachable: Collections) {
    && (forall f :: f in from.fields ==> '/' !in f.name)
    && (forall name, f :: name in reachable && f in reachable[name].fields ==> '/' !in f.name)
  }

  lemma {:induction false} WalkableIsClean(from: Collection, reachable: Collections, steps: seq<string>)
    requires CleanNames(from, reachable) && WalkCollection(from, reachable, steps).Some?
    ensures Clean(steps)
    ensures WalkCollection(from, reachable, steps) == Some(from) ||
            WalkCollection(from, reachable, steps).value in reachable.Values
  {
    if steps != [] {
      var front, step := steps[..|steps| - 1], steps[|steps| - 1];
      assert steps == front + [step];
      WalkCollectionStep(from, reachable, front, step);
      WalkableIsClean(from, reachable, front);
      var current := WalkCollection(from, reachable, front).value;
      FoundFieldIsDeclared(current.fields, step);
    }
  }

  // ---------- The batched resolver ----------

  /** The steps a path needs resolved: its own, and its leaf where the leaf is a single relation to be labelled. */
  function StepsToResolve(path: Path, from: Collection, reachable: Collections, rawIds: bool): seq<string> {
    if rawIds then path.steps
    else match WalkCollection(from, reachable, path.steps)
      case None => path.steps
      case Some(owner) =>
        match FieldOn(owner.fields, path.leaf)
        case Some(f) => if f.kind.Relation? && !f.multiple then path.steps + [path.leaf] else path.steps
        case None => path.steps
  }

  /** A bag of resolved records agrees with the walk on every prefix that is done, and holds nothing else. */
  ghost predicate BagAgrees(bag: map<string, Record>, root: Record, from: Collection, reachable: Collections,
                            store: Store, done: set<string>) {
    && bag.Keys <= done
    && forall p :: p != [] && WalkCollection(from, reachable, p).Some? && Key(p) in done ==>
         (if Key(p) in bag then Some(bag[Key(p)]) else None) == Walk(root, from, reachable, store, p)
  }

  /** Every key done belongs to a prefix the schema can walk. */
  ghost predicate DoneIsWalkable(done: set<string>, from: Collection, reachable: Collections) {
    forall k :: k in done ==> exists p :: p != [] && WalkCollection(from, reachable, p).Some? && Key(p) == k
  }

  /** All the prefixes of `steps` that the schema can walk are done. */
  ghost predicate Covered(steps: seq<string>, done: set<string>, from: Collection, reachable: Collections) {
    forall n :: 0 < n <= |steps| && CollectionAt(from, reachable, steps, n).Some? ==> KeyAt(steps, n) in done
  }

  lemma {:induction false} KeyIsEmptyAtRoot(steps: seq<string>)
    ensures Key(steps) == "" <==> steps == []
  {
  }

  lemma {:induction false} BrokenStaysBroken(from: Collection, reachable: Collections, steps: seq<string>, n: nat,
                                             m: nat)
    requires n <= m <= |steps| && CollectionAt(from, reachable, steps, n).None?
    ensures CollectionAt(from, reachable, steps, m).None?
  {
    if n < m { BrokenStaysBroken(from, reachable, steps, n, m - 1); }
  }

  /** The first `n` prefixes are done. */
  ghost predicate DoneTo(steps: seq<string>, n: nat, done: set<string>)
    requires n <= |steps|
  {
    forall m :: 0 < m <= n ==> KeyAt(steps, m) in done
  }

  lemma DoneNext(steps: seq<string>, n: nat, was: set<string>, done: set<string>)
    requires n < |steps| && DoneTo(steps, n, was) && was <= done && KeyAt(steps, n + 1) in done
    ensures DoneTo(steps, n + 1, done)
  {
  }

  /** Once a step breaks, no longer prefix is walkable, so what is done covers the path. */
  lemma NothingBeyond(steps: seq<string>, n: nat, done: set<string>, from: Collection, reachable: Collections)
    requires 0 < n <= |steps| && CollectionAt(from, reachable, steps, n).None?
    requires DoneTo(steps, n - 1, done)
    ensures Covered(steps, done, from, reachable)
  {
    forall m | n <= m <= |steps| ensures CollectionAt(from, reachable, steps, m).None? {
      BrokenStaysBroken(from, reachable, steps, n, m);
    }
  }

  lemma CoveredFront(path: Path, done: set<string>, from: Collection, reachable: Collections, rawIds: bool)
    requires Covered(StepsToResolve(path, from, reachable, rawIds), done, from, reachable)
    ensures Covered(path.steps, done, from, reachable)
  {
    var steps := StepsToResolve(path, from, reachable, rawIds);
    forall n | 0 < n <= |path.steps| && CollectionAt(from, reachable, path.steps, n).Some?
      ensures KeyAt(path.steps, n) in done
    {
      assert steps[..n] == path.steps[..n];
      SamePrefix(from, reachable, steps, path.steps, n);
      KeyPrefix(steps, path.steps, n);
    }
  }

  /** A row whose walk stops never resumes. */
  lemma {:induction false} LostStaysLost(root: Record, from: Collection, reachable: Collections, store: Store,
                                         steps: seq<string>, n: nat, m: nat)
    requires n <= m <= |steps| && RecordAt(root, from, reachable, store, steps, n).None?
    ensures RecordAt(root, from, reachable, store, steps, m).None?
  {
    if n < m { LostStaysLost(root, from, reachable, store, steps, n, m - 1); }
  }

  // ---------- What a cell prints ----------

  /** One step of a row's chain: the first field of the name leads to an available collection, and the next record is
      the stored one of that collection whose id the record holds under the name. */
  predicate StepsTo(c: Collection, r: Record, step: string, next: Collection, s: Record, reachable: Collections,
                    store: Store) {
    && step in r && r[step].Text? && r[step].text != ""
    && exists f :: f in c.fields && FirstNamed(c.fields, step, f) &&
                   Holds(NormalizeIdentifier(f.target), r[step].text, next, s, reachable, store)
  }

  predicate Holds(target: string, id: string, c: Collection, r: Record, reachable: Collections, store: Store) {
    && target in reachable && c == reachable[target]
    && target in store.records && id in store.records[target] && r == store.records[target][id]
  }

  /** The records a row's steps pass through, and the collections they belong to. */
  ghost predicate Passes(records: seq<Record>, places: seq<Collection>, root: Record, from: Collection,
                         reachable: Collections, store: Store, steps: seq<string>) {
    && |records| == |places| == |steps| + 1
    && records[0] == root && places[0] == from
    && forall k {:trigger steps[k]} :: 0 <= k < |steps| ==>
         StepsTo(places[k], records[k], steps[k], places[k + 1], records[k + 1], reachable, store)
  }

  /** The label of the related record, else the id held, else nothing. */
  predicate PrintsLabel(cell: string, f: Field, held: Value, reachable: Collections, store: Store,
                        printing: Printing) {
    var target := NormalizeIdentifier(f.target);
    if !held.Text? || held.text == "" then cell == ""
    else if target in reachable && target in store.records && held.text in store.records[target] then
      cell == printing.labelOf(store.records[target][held.text], reachable[target], f.displayField)
    else cell == held.text
  }

  /** A single relation is labelled unless raw ids are asked for; any other leaf is printed as it is. */
  predicate PrintsLeaf(cell: string, r: Record, c: Collection, leaf: string, reachable: Collections, store: Store,
                       rawIds: bool, printing: Printing) {
    var held := if leaf in r then r[leaf] else Nil;
    && (forall f :: f in c.fields && FirstNamed(c.fields, leaf, f) && f.kind == Relation && !f.multiple && !rawIds ==>
          PrintsLabel(cell, f, held, reachable, store, printing))
    && ((forall f :: f in c.fields && FirstNamed(c.fields, leaf, f) ==> f.kind != Relation || f.multiple || rawIds) ==>
          cell == printing.format(held))
  }

  /** The cell prints the leaf of the record the row's chain ends with, and nothing where the chain breaks. */
  ghost predicate PrintsChainEnd(cell: string, root: Record, path: Path, from: Collection, reachable: Collections,
                                 store: Store, rawIds: bool, printing: Printing) {
    && (forall records, places :: Passes(records, places, root, from, reachable, store, path.steps) ==>
          PrintsLeaf(cell, records[|path.steps|], places[|path.steps|], path.leaf, reachable, store, rawIds, printing))
    && ((forall records, places :: !Passes(records, places, root, from, reachable, store, path.steps)) ==> cell == "")
  }

  /** The same step as the walk takes it. */
  predicate Leads(c: Collection, r: Record, step: string, next: Collection, s: Record, reachable: Collections,
                  store: Store) {
    && Target(c, reachable, step).Some? && next == reachable[Target(c, reachable, step).value]
    && NextRecord(Some(c), Some(r), reachable, store, step) == Some(s)
  }

  lemma StepIsWalked(c: Collection, r: Record, step: string, next: Collection, s: Record, reachable: Collections,
                     store: Store)
    ensures StepsTo(c, r, step, next, s, reachable, store) <==> Leads(c, r, step, next, s, reachable, store)
  {
    match FieldOn(c.fields, step)
    case None =>
      forall f | FirstNamed(c.fields, step, f) ensures false { LookupFindsFirst(c.fields, step, f); }
    case Some(f) =>
      LookupFindsFirst(c.fields, step, f);
      FoundFieldIsDeclared(c.fields, step);
      forall g | FirstNamed(c.fields, step, g) ensures g == f { LookupFindsFirst(c.fields, step, g); }
  }

  ghost predicate LeadsOn(records: seq<Record>, places: seq<Collection>, root: Record, from: Collection,
                          reachable: Collections, store: Store, steps: seq<string>) {
    && |records| == |places| == |steps| + 1
    && records[0] == root && places[0] == from
    && forall k {:trigger steps[k]} :: 0 <= k < |steps| ==>
         Leads(places[k], records[k], steps[k], places[k + 1], records[k + 1], reachable, store)
  }

  lemma PassesLeadsOn(records: seq<Record>, places: seq<Collection>, root: Record, from: Collection,
                      reachable: Collections, store: Store, steps: seq<string>)
    ensures Passes(records, places, root, from, reachable, store, steps) <==>
            LeadsOn(records, places, root, from, reachable, store, steps)
  {
    if |records| == |places| == |steps| + 1 {
      forall k | 0 <= k < |steps|
        ensures StepsTo(places[k], records[k], steps[k], places[k + 1], records[k + 1], reachable, store) <==>
                Leads(places[k], records[k], steps[k], places[k + 1], records[k + 1], reachable, store)
      {
        StepIsWalked(places[k], records[k], steps[k], places[k + 1], records[k + 1], reachable, store);
      }
    }
  }

  lemma WalkNext(root: Record, from: Collection, reachable: Collections, store: Store, steps: seq<string>, n: nat,
                 c: Collection, r: Record, next: Collection, s: Record)
    requires n < |steps| && Leads(c, r, steps[n], next, s, reachable, store)
    requires CollectionAt(from, reachable, steps, n) == Some(c)
    requires RecordAt(root, from, reachable, store, steps, n) == Some(r)
    ensures CollectionAt(from, reachable, steps, n + 1) == Some(next)
    ensures RecordAt(root, from, reachable, store, steps, n + 1) == Some(s)
  {
  }

  lemma {:induction false} ChainIsWalked(records: seq<Record>, places: seq<Collection>, root: Record, from: Collection,
                                         reachable: Collections, store: Store, steps: seq<string>, n: nat)
    requires LeadsOn(records, places, root, from, reachable, store, steps) && n <= |steps|
    ensures CollectionAt(from, reachable, steps, n) == Some(places[n])
    ensures RecordAt(root, from, reachable, store, steps, n) == Some(records[n])
  {
    if n > 0 {
      var k := n - 1;
      ChainIsWalked(records, places, root, from, reachable, store, steps, k);
      assert Leads(places[k], records[k], steps[k], places[k + 1], records[k + 1], reachable, store);
      WalkNext(root, from, reachable, store, steps, k, places[k], records[k], places[k + 1], records[k + 1]);
    }
  }

  lemma WalkBegan(root: Record, from: Collection, reachable: Collections, store: Store, steps: seq<string>, n: nat)
    requires n < |steps| && RecordAt(root, from, reachable, store, steps, n + 1).Some?
    ensures CollectionAt(from, reachable, steps, n).Some? && CollectionAt(from, reachable, steps, n + 1).Some?
    ensures RecordAt(root, from, reachable, store, steps, n).Some?
    ensures Leads(CollectionAt(from, reachable, steps, n).value, RecordAt(root, from, reachable, store, steps, n).value,
                  steps[n], CollectionAt(from, reachable, steps, n + 1).value,
                  RecordAt(root, from, reachable, store, steps, n + 1).value, reachable, store)
  {
  }

  lemma {:induction false} WalkPasses(root: Record, from: Collection, reachable: Collections, store: Store,
                                      steps: seq<string>, n: nat)
    returns (records: seq<Record>, places: seq<Collection>)
    requires n <= |steps| && RecordAt(root, from, reachable, store, steps, n).Some?
    ensures LeadsOn(records, places, root, from, reachable, store, steps[..n])
    ensures CollectionAt(from, reachable, steps, n) == Some(places[n])
    ensures RecordAt(root, from, reachable, store, steps, n) == Some(records[n])
  {
    if n == 0 {
      records, places := [root], [from];
    } else {
      WalkBegan(root, from, reachable, store, steps, n - 1);
      var was, at := WalkPasses(root, from, reachable, store, steps, n - 1);
      var next := CollectionAt(from, reachable, steps, n).value;
      var s := RecordAt(root, from, reachable, store, steps, n).value;
      assert steps[..n] == steps[..n - 1] + [steps[n - 1]];
      OneMoreLead(was, at, root, from, reachable, store, steps[..n - 1], steps[n - 1], next, s);
      records, places := was + [s], at + [next];
    }
  }

  lemma OneMoreLead(was: seq<Record>, at: seq<Collection>, root: Record, from: Collection, reachable: Collections,
                    store: Store, front: seq<string>, step: string, next: Collection, s: Record)
    requires LeadsOn(was, at, root, from, reachable, store, front)
    requires Leads(at[|front|], was[|front|], step, next, s, reachable, store)
    ensures LeadsOn(was + [s], at + [next], root, from, reachable, store, front + [step])
  {
    var records, places, steps := was + [s], at + [next], front + [step];
    forall k | 0 <= k < |steps|
      ensures Leads(places[k], records[k], steps[k], places[k + 1], records[k + 1], reachable, store)
    {
      if k < |front| { assert steps[k] == front[k]; }
    }
  }

  lemma LeafPrints(r: Record, c: Collection, leaf: string, reachable: Collections, store: Store, rawIds: bool,
                   printing: Printing)
    ensures var related := NextRecord(Some(c), Some(r), reachable, store, leaf);
            PrintsLeaf(LeafText(r, c, leaf, reachable, rawIds, printing, related), r, c, leaf, reachable, store, rawIds,
                       printing)
  {
    match FieldOn(c.fields, leaf)
    case None =>
      forall f | FirstNamed(c.fields, leaf, f) ensures false { LookupFindsFirst(c.fields, leaf, f); }
    case Some(f) =>
      LookupFindsFirst(c.fields, leaf, f);
      FoundFieldIsDeclared(c.fields, leaf);
      forall g | FirstNamed(c.fields, leaf, g) ensures g == f { LookupFindsFirst(c.fields, leaf, g); }
  }

  /** What a row walked on its own prints. */
  lemma NaiveCellPrintsChainEnd(root: Record, path: Path, from: Collection, reachable: Collections, store: Store,
                                rawIds: bool, printing: Printing)
    ensures PrintsChainEnd(NaiveCell(root, path, from, reachable, store, rawIds, printing), root, path, from, reachable,
                           store, rawIds, printing)
  {
    var steps, cell := path.steps, NaiveCell(root, path, from, reachable, store, rawIds, printing);
    forall records, places | Passes(records, places, root, from, reachable, store, steps)
      ensures PrintsLeaf(cell, records[|steps|], places[|steps|], path.leaf, reachable, store, rawIds, printing)
    {
      PassesLeadsOn(records, places, root, from, reachable, store, steps);
      ChainIsWalked(records, places, root, from, reachable, store, steps, |steps|);
      WalkStep(root, from, reachable, store, steps, path.leaf);
      LeafPrints(records[|steps|], places[|steps|], path.leaf, reachable, store, rawIds, printing);
    }
    if Walk(root, from, reachable, store, steps).Some? {
      var records, places := WalkPasses(root, from, reachable, store, steps, |steps|);
      assert steps[..|steps|] == steps;
      PassesLeadsOn(records, places, root, from, reachable, store, steps);
    }
  }

  /** The leaf's cache key is in use exactly when the leaf can be walked. */
  lemma LeafKeyInUse(path: Path, done: set<string>, from: Collection, reachable: Collections)
    requires CleanNames(from, reachable) && DoneIsWalkable(done, from, reachable)
    requires Covered(StepsToResolve(path, from, reachable, false), done, from, reachable)
    requires WalkCollection(from, reachable, path.steps).Some?
    requires var leaf := FieldOn(WalkCollection(from, reachable, path.steps).value.fields, path.leaf);
      leaf.Some? && leaf.value.kind.Relation? && !leaf.value.multiple
    ensures Key(path.steps + [path.leaf]) in done <==> WalkCollection(from, reachable, path.steps + [path.leaf]).Some?
  {
    var full := path.steps + [path.leaf];
    if Key(full) in done {
      var p :| p != [] && WalkCollection(from, reachable, p).Some? && Key(p) == Key(full);
      WalkableIsClean(from, reachable, p);
      WalkableIsClean(from, reachable, path.steps);
      FoundFieldIsDeclared(WalkCollection(from, reachable, path.steps).value.fields, path.leaf);
      KeysAreDistinct(p, full);
    }
  }

  method FollowCollections(from: Collection, reachable: Collections, steps: seq<string>) returns (r: Option<Collection>)
    ensures r == WalkCollection(from, reachable, steps)
  {
    var current := from;
    for k := 0 to |steps|
      invariant CollectionAt(from, reachable, steps, k) == Some(current)
    {
      match Target(current, reachable, steps[k]) {
        case None =>
          BrokenStaysBroken(from, reachable, steps, k + 1, |steps|);
          return None;
        case Some(target) => current := reachable[target];
      }
    }
    return Some(current);
  }

  /** The relation value for one hop: from the row itself at the root, else from what the prefix resolved to. */
  function StepValue(root: Record, bag: map<string, Record>, prefix: string, step: string): Value {
    if prefix == "" then Read(root, step)
    else if prefix in bag then Read(bag[prefix], step)
    else Nil
  }

  /** With the prefix done, the hop's value is the one the walk reads, and one lookup continues the walk. */
  lemma StepValueFollowsWalk(root: Record, bag: map<string, Record>, from: Collection, reachable: Collections,
                             store: Store, done: set<string>, front: seq<string>, step: string, target: string)
    requires BagAgrees(bag, root, from, reachable, store, done)
    requires WalkCollection(from, reachable, front).Some?
    requires Target(WalkCollection(from, reachable, front).value, reachable, step) == Some(target)
    requires front == [] || Key(front) in done
    ensures Walk(root, from, reachable, store, front + [step]) ==
      Lookup(store, target, IdOf(StepValue(root, bag, Key(front), step)))
  {
    KeyIsEmptyAtRoot(front);
    WalkStep(root, from, reachable, store, front, step);
  }

  /** What a fetch of `ids` must return: the store restricted to them. */
  predicate Fetched(byID: map<string, Record>, store: Store, target: string, ids: seq<string>) {
    && (forall id :: id in byID ==> Lookup(store, target, id) == Some(byID[id]))
    && (forall id :: id in ids && Lookup(store, target, id).Some? ==> id in byID)
  }

  function Extended(root: Record, bag: map<string, Record>, prefix: string, step: string,
                    byID: map<string, Record>): map<string, Record> {
    var id := IdOf(StepValue(root, bag, prefix, step));
    if id in byID then bag[prefix + "/" + step := byID[id]] else bag
  }

  lemma ExtendedAgrees(root: Record, bag: map<string, Record>, from: Collection, reachable: Collections, store: Store,
                       done: set<string>, front: seq<string>, step: string, target: string,
                       byID: map<string, Record>, ids: seq<string>)
    requires CleanNames(from, reachable)
    requires BagAgrees(bag, root, from, reachable, store, done)
    requires WalkCollection(from, reachable, front).Some?
    requires Target(WalkCollection(from, reachable, front).value, reachable, step) == Some(target)
    requires front == [] || Key(front) in done
    requires Key(front + [step]) !in done
    requires Fetched(byID, store, target, ids)
    requires IdOf(StepValue(root, bag, Key(front), step)) in ids || IdOf(StepValue(root, bag, Key(front), step)) == ""
    ensures BagAgrees(Extended(root, bag, Key(front), step, byID), root, from, reachable, store,
                      done + {Key(front + [step])})
  {
    var key := Key(front + [step]);
    var bag' := Extended(root, bag, Key(front), step, byID);
    WalkCollectionStep(from, reachable, front, step);
    StepValueFollowsWalk(root, bag, from, reachable, store, done, front, step, target);
    forall p | p != [] && WalkCollection(from, reachable, p).Some? && Key(p) in done + {key}
      ensures (if Key(p) in bag' then Some(bag'[Key(p)]) else None) == Walk(root, from, reachable, store, p)
    {
      if Key(p) == key {
        WalkableIsClean(from, reachable, p);
        WalkableIsClean(from, reachable, front + [step]);
        KeysAreDistinct(p, front + [step]);
      }
    }
  }

  /** What a done prefix holds for a row is what the row's walk reaches. */
  lemma CachedPrefix(root: Record, bag: map<string, Record>, done: set<string>, from: Collection,
                     reachable: Collections, store: Store, steps: seq<string>, n: nat)
    requires BagAgrees(bag, root, from, reachable, store, done) && Covered(steps, done, from, reachable)
    requires 0 < n <= |steps| && CollectionAt(from, reachable, steps, n).Some?
    ensures (if KeyAt(steps, n) in bag then Some(bag[KeyAt(steps, n)]) else None) ==
            RecordAt(root, from, reachable, store, steps, n)
  {
    PrefixWalk(root, from, reachable, store, steps, n);
    assert steps[..n] != [];
  }

  /** Where a row's own walk ends, with the key of its path. */
  function WalkEnd(root: Record, from: Collection, reachable: Collections, store: Store, steps: seq<string>):
    Option<(Collection, Record, string)>
  {
    match (WalkCollection(from, reachable, steps), Walk(root, from, reachable, store, steps))
    case (Some(current), Some(source)) => Some((current, source, Key(steps)))
    case _ => None
  }

  /** One step through a row's cache, from where its walk stands. */
  lemma FollowStep(root: Record, bag: map<string, Record>, done: set<string>, from: Collection, reachable: Collections,
                   store: Store, steps: seq<string>, k: nat, current: Collection)
    requires BagAgrees(bag, root, from, reachable, store, done) && Covered(steps, done, from, reachable) && k < |steps|
    requires CollectionAt(from, reachable, steps, k) == Some(current)
    ensures var prefix := KeyAt(steps, k) + "/" + steps[k];
            && KeyAt(steps, k + 1) == prefix
            && match Target(current, reachable, steps[k])
               case None => WalkEnd(root, from, reachable, store, steps) == None
               case Some(target) =>
                 if prefix !in bag then WalkEnd(root, from, reachable, store, steps) == None
                 else
                   && CollectionAt(from, reachable, steps, k + 1) == Some(reachable[target])
                   && RecordAt(root, from, reachable, store, steps, k + 1) == Some(bag[prefix])
  {
    if Target(current, reachable, steps[k]).None? {
      BrokenStaysBroken(from, reachable, steps, k + 1, |steps|);
    } else {
      CachedPrefix(root, bag, done, from, reachable, store, steps, k + 1);
      if KeyAt(steps, k + 1) !in bag { LostStaysLost(root, from, reachable, store, steps, k + 1, |steps|); }
    }
  }

  /** Follows a path through one row's cache. */
  method FollowCached(root: Record, bag: map<string, Record>, ghost done: set<string>, from: Collection,
                      reachable: Collections, ghost store: Store, steps: seq<string>)
    returns (end: Option<(Collection, Record, string)>)
    requires BagAgrees(bag, root, from, reachable, store, done) && Covered(steps, done, from, reachable)
    ensures end == WalkEnd(root, from, reachable, store, steps)
  {
    var current, prefix, source := from, "", root;
    for k := 0 to |steps|
      invariant CollectionAt(from, reachable, steps, k) == Some(current) && prefix == KeyAt(steps, k)
      invariant RecordAt(root, from, reachable, store, steps, k) == Some(source)
    {
      var found := Target(current, reachable, steps[k]);
      FollowStep(root, bag, done, from, reachable, store, steps, k, current);
      if found.None? { return None; }
      prefix := prefix + "/" + steps[k];
      if prefix !in bag { return None; }
      source, current := bag[prefix], reachable[found.value];
    }
    return Some((current, source, prefix));
  }

  class ExportChunk {
    const records: seq<Record>
    const from: Collection
    const reachable: Collections
    const store: Store
    var bags: seq<map<string, Record>>
    var done: set<string>
    var queries: seq<string>

    ghost predicate Valid()
      reads this
    {
      && CleanNames(from, reachable)
      && |bags| == |records|
      && (forall i :: 0 <= i < |records| ==> BagAgrees(bags[i], records[i], from, reachable, store, done))
      && DoneIsWalkable(done, from, reachable)
      && (forall i, j :: 0 <= i < j < |queries| ==> queries[i] != queries[j])
      && (forall i :: 0 <= i < |queries| ==> queries[i] in done)
    }

    constructor (records: seq<Record>, from: Collection, reachable: Collections, store: Store)
      requires CleanNames(from, reachable)
      ensures Valid() && this.records == records && this.from == from && this.reachable == reachable &&
              this.store == store
      ensures done == {} && queries == []
    {
      this.records, this.from, this.reachable, this.store := records, from, reachable, store;
      bags, done, queries := seq(|records|, i => map[]), {}, [];
    }

    method CollectIDs(prefix: string, step: string) returns (ids: seq<string>)
      requires |bags| == |records|
      ensures forall i :: 0 <= i < |records| ==>
        var id := IdOf(StepValue(records[i], bags[i], prefix, step)); id == "" || id in ids
      ensures "" !in ids && forall a, b :: 0 <= a < b < |ids| ==> ids[a] != ids[b]
    {
      ids := [];
      for i := 0 to |records|
        invariant forall j :: 0 <= j < i ==>
          var id := IdOf(StepValue(records[j], bags[j], prefix, step)); id == "" || id in ids
        invariant "" !in ids && forall a, b :: 0 <= a < b < |ids| ==> ids[a] != ids[b]
      {
        var id := IdOf(StepValue(records[i], bags[i], prefix, step));
        if id != "" && id !in ids {
          ids := ids + [id];
        }
      }
    }

    /** The records of one collection by id, or an error. */
    method GetRecordsByIDs(target: string, ids: seq<string>) returns (r: Option<map<string, Record>>)
      ensures r.None? <==> target in store.failing
      ensures r.Some? ==> Fetched(r.value, store, target, ids)
    {
      if target in store.failing { return None; }
      return Some(map id | id in ids && Lookup(store, target, id).Some? :: Lookup(store, target, id).value);
    }

    method SetResolved(prefix: string, step: string, byID: map<string, Record>)
      requires |bags| == |records|
      modifies this`bags
      ensures |bags| == |records|
      ensures forall i :: 0 <= i < |records| ==> bags[i] == Extended(records[i], old(bags)[i], prefix, step, byID)
    {
      for i := 0 to |records|
        invariant |bags| == |records|
        invariant forall j :: 0 <= j < i ==> bags[j] == Extended(records[j], old(bags)[j], prefix, step, byID)
        invariant forall j :: i <= j < |records| ==> bags[j] == old(bags)[j]
      {
        var id := IdOf(StepValue(records[i], bags[i], prefix, step));
        if id in byID {
          bags := bags[i := bags[i][prefix + "/" + step := byID[id]]];
        }
      }
    }

    /** Resolves one hop for the whole chunk with at most one query. */
    method ResolveHop(ghost front: seq<string>, prefix: string, step: string, target: string) returns (ok: bool)
      requires Valid() && prefix == Key(front) && Key(front + [step]) !in done
      requires WalkCollection(from, reachable, front).Some?
      requires Target(WalkCollection(from, reachable, front).value, reachable, step) == Some(target)
      requires front == [] || Key(front) in done
      modifies this
      ensures Valid()
      ensures ok ==> done == old(done) + {Key(front + [step])}
      ensures ok ==> queries == old(queries) || queries == old(queries) + [Key(front + [step])]
      ensures !ok ==> target in store.failing && done == old(done) && queries == old(queries)
    {
      WalkCollectionStep(from, reachable, front, step);
      ghost var before, key := bags, Key(front + [step]);
      var ids := CollectIDs(prefix, step);
      var byID: map<string, Record> := map[];
      if |ids| > 0 {
        var fetched := GetRecordsByIDs(target, ids);
        if fetched.None? { return false; }
        byID := fetched.value;
        queries := queries + [prefix + "/" + step];
        SetResolved(prefix, step, byID);
      }
      done := done + {prefix + "/" + step};
      forall i | 0 <= i < |records|
        ensures BagAgrees(bags[i], records[i], from, reachable, store, done)
      {
        ExtendedAgrees(records[i], before[i], from, reachable, store, old(done), front, step, target, byID, ids);
      }
      return true;
    }

    /** Resolves every hop of one path that the schema can walk. */
    method ResolveSteps(steps: seq<string>) returns (ok: bool)
      requires Valid()
      modifies this
      ensures Valid() && old(done) <= done
      ensures ok ==> Covered(steps, done, from, reachable)
      ensures !ok ==> exists target :: target in reachable && target in store.failing
    {
      var current, prefix := from, "";
      for k := 0 to |steps|
        invariant Valid() && old(done) <= done
        invariant CollectionAt(from, reachable, steps, k) == Some(current) && prefix == KeyAt(steps, k)
        invariant DoneTo(steps, k, done)
      {
        var next;
        ok, next := ResolveAt(steps, k, prefix, current);
        if !ok { return; }
        if next.None? {
          NothingBeyond(steps, k + 1, done, from, reachable);
          return;
        }
        prefix, current := prefix + "/" + steps[k], next.value;
      }
      ok := true;
    }

    /** Resolves the hop after the first `k` unless the schema lacks it or its prefix is done. */
    method ResolveAt(steps: seq<string>, k: nat, prefix: string, current: Collection)
      returns (ok: bool, next: Option<Collection>)
      requires Valid() && k < |steps| && prefix == KeyAt(steps, k) && DoneTo(steps, k, done)
      requires CollectionAt(from, reachable, steps, k) == Some(current)
      modifies this
      ensures Valid() && old(done) <= done
      ensures ok ==>
                next == CollectionAt(from, reachable, steps, k + 1) &&
                DoneTo(steps, if next.Some? then k + 1 else k, done)
      ensures !ok ==> exists target :: target in reachable && target in store.failing
    {
      var found := Target(current, reachable, steps[k]);
      if found.None? { return true, None; }
      ghost var front, was := steps[..k], done;
      ok := true;
      if prefix + "/" + steps[k] !in done {
        PrefixWalk(map[], from, reachable, store, steps, k);
        WalkCollectionStep(from, reachable, front, steps[k]);
        ok := ResolveHop(front, prefix, steps[k], found.value);
      }
      if ok { DoneNext(steps, k, was, done); }
      next := Some(reachable[found.value]);
    }

    /** After this every path's hops are cached as far as the schema can walk them, and no prefix was queried twice. */
    method ResolveExportPaths(paths: seq<Path>, rawIds: bool) returns (ok: bool)
      requires Valid()
      modifies this
      ensures Valid() && old(done) <= done
      ensures ok ==> forall p :: p in paths ==>
              Covered(StepsToResolve(p, from, reachable, rawIds), done, from, reachable)
      ensures !ok ==> exists target :: target in reachable && target in store.failing
    {
      for n := 0 to |paths|
        invariant Valid() && old(done) <= done
        invariant forall m :: 0 <= m < n ==>
                  Covered(StepsToResolve(paths[m], from, reachable, rawIds), done, from, reachable)
      {
        var path := paths[n];
        var steps := path.steps;
        if !rawIds {
          var owner := FollowCollections(from, reachable, path.steps);
          if owner.Some? {
            var leaf := FieldOn(owner.value.fields, path.leaf);
            if leaf.Some? && leaf.value.kind.Relation? && !leaf.value.multiple {
              steps := path.steps + [path.leaf];
            }
          }
        }
        ok := ResolveSteps(steps);
        if !ok { return; }
      }
      ok := true;
    }

    /** The cell read from the cache is the one a walk of the row on its own gives: the leaf of the record the row's
        chain ends with. */
    method ExportPathValue(i: nat, path: Path, rawIds: bool, printing: Printing) returns (cell: string)
      requires Valid() && i < |records|
      requires Covered(StepsToResolve(path, from, reachable, rawIds), done, from, reachable)
      ensures cell == NaiveCell(records[i], path, from, reachable, store, rawIds, printing)
      ensures PrintsChainEnd(cell, records[i], path, from, reachable, store, rawIds, printing)
    {
      NaiveCellPrintsChainEnd(records[i], path, from, reachable, store, rawIds, printing);
      CoveredFront(path, done, from, reachable, rawIds);
      var end := FollowCached(records[i], bags[i], done, from, reachable, store, path.steps);
      if end.None? { return ""; }
      var (current, source, prefix) := end.value;
      var leaf := FieldOn(current.fields, path.leaf);
      if leaf.Some? && leaf.value.kind.Relation? && !rawIds && !leaf.value.multiple {
        var id := IdOf(Read(source, path.leaf));
        if id == "" { return ""; }
        WalkCollectionStep(from, reachable, path.steps, path.leaf);
        LeafKeyInUse(path, done, from, reachable);
        WalkStep(records[i], from, reachable, store, path.steps, path.leaf);
        var leafPrefix := prefix + "/" + path.leaf;
        if leafPrefix in bags[i] {
          return printing.labelOf(bags[i][leafPrefix], reachable[TargetOf(leaf.value)], leaf.value.displayField);
        }
        return id;
      }
      return printing.format(Read(source, path.leaf));
    }
  }
}
