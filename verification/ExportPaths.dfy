/** Which paths an export accepts, and which collections it loads before it looks at any path. */
module ExportPaths {
  import opened Schema
  import opened Text
  import opened RecordExport

  // ---------- Parsing a path ----------

  function Names(raw: string): (names: seq<string>)
    ensures |names| >= 1
  {
    var parts := Split(raw, '.');
    seq(|parts|, i requires 0 <= i < |parts| => NormalizeIdentifier(parts[i]))
  }

  /** The k-th name is a single relation, on the collection the names before it lead to, to an available collection. */
  predicate HopsAt(from: Collection, collections: Collections, names: seq<string>, k: nat)
    requires k < |names|
  {
    match CollectionAt(from, collections, names, k)
    case None => false
    case Some(c) =>
      match FieldOn(c.fields, names[k])
      case None => false
      case Some(f) => f.kind.Relation? && !f.multiple && TargetOf(f) in collections
  }

  predicate ReadableLeaf(c: Collection, name: string) {
    FieldOn(c.fields, name).Some? || name == c.primaryKey || name == "created" || name == "updated"
  }

  /** At most four names, none empty; every name but the last hops, and the last can be read where the hops end. */
  predicate Exportable(from: Collection, collections: Collections, names: seq<string>) {
    && 0 < |names| <= MAX_EXPORT_DEPTH
    && names[|names| - 1] != "" && HopsTo(from, collections, names, |names| - 1)
    && var end := CollectionAt(from, collections, names, |names| - 1);
       end.Some? && ReadableLeaf(end.value, names[|names| - 1])
  }

  /** The first `n` names are not empty and all hop. */
  predicate HopsTo(from: Collection, collections: Collections, names: seq<string>, n: nat)
    requires n <= |names|
  {
    forall k :: 0 <= k < n ==> names[k] != "" && HopsAt(from, collections, names, k)
  }

  lemma HopsNext(from: Collection, collections: Collections, names: seq<string>, n: nat, current: Collection)
    requires n < |names| && HopsTo(from, collections, names, n) && names[n] != "" &&
             CollectionAt(from, collections, names, n) == Some(current)
    requires var field := FieldOn(current.fields, names[n]);
      field.Some? && field.value.kind.Relation? && !field.value.multiple && TargetOf(field.value) in collections
    ensures HopsTo(from, collections, names, n + 1)
    ensures CollectionAt(from, collections, names, n + 1) ==
            Some(collections[TargetOf(FieldOn(current.fields, names[n]).value)])
  {
    assert HopsAt(from, collections, names, n);
    assert Target(current, collections, names[n]) == Some(TargetOf(FieldOn(current.fields, names[n]).value));
  }

  lemma StuckIsNotExportable(from: Collection, collections: Collections, names: seq<string>, n: nat)
    requires n < |names| && (names[n] == "" || (n < |names| - 1 && !HopsAt(from, collections, names, n)))
    ensures !Exportable(from, collections, names)
  {
  }

  method ParseExportPath(from: Collection, collections: Collections, raw: string) returns (r: Option<Path>)
    ensures r.Some? <==> Exportable(from, collections, Names(raw))
    ensures r.Some? ==> r.value.header == raw && r.value.steps + [r.value.leaf] == Names(raw)
  {
    if |Split(raw, '.')| > MAX_EXPORT_DEPTH { return None; }
    r := FollowNames(from, collections, raw, Names(raw));
  }

  method FollowNames(from: Collection, collections: Collections, raw: string, names: seq<string>)
    returns (r: Option<Path>)
    requires 0 < |names| <= MAX_EXPORT_DEPTH
    ensures r.Some? <==> Exportable(from, collections, names)
    ensures r.Some? ==> r.value.header == raw && r.value.steps + [r.value.leaf] == names
  {
    var current, steps := from, [];
    for i := 0 to |names|
      invariant i < |names| && steps == names[..i] && HopsTo(from, collections, names, i)
      invariant CollectionAt(from, collections, names, i) == Some(current)
    {
      var name := names[i];
      if name == "" {
        StuckIsNotExportable(from, collections, names, i);
        return None;
      }
      var field := FieldOn(current.fields, name);
      if i == |names| - 1 {
        if field.None? && !(name == current.primaryKey || name == "created" || name == "updated") { return None; }
        assert names == names[..i] + [name];
        return Some(Path(raw, steps, name));
      }
      if field.None? || !field.value.kind.Relation? || field.value.multiple || TargetOf(field.value) !in collections {
        StuckIsNotExportable(from, collections, names, i);
        return None;
      }
      HopsNext(from, collections, names, i, current);
      steps := steps + [name];
      current := collections[TargetOf(field.value)];
    }
  }

  /** An accepted path takes at most three hops, and they lead to the collection its leaf is read on. */
  lemma AcceptedPathIsWalkable(from: Collection, collections: Collections, path: Path)
    requires Exportable(from, collections, path.steps + [path.leaf])
    ensures |path.steps| <= 3
    ensures var end := WalkCollection(from, collections, path.steps); end.Some? && ReadableLeaf(end.value, path.leaf)
    ensures forall k :: 0 <= k < |path.steps| ==> HopsAt(from, collections, path.steps, k)
  {
    var names := path.steps + [path.leaf];
    forall k | 0 <= k <= |path.steps|
      ensures CollectionAt(from, collections, names, k) == CollectionAt(from, collections, path.steps, k)
    {
      assert names[..k] == path.steps[..k];
      SamePrefix(from, collections, names, path.steps, k);
    }
    forall k | 0 <= k < |path.steps| ensures HopsAt(from, collections, path.steps, k) {
      assert HopsAt(from, collections, names, k);
    }
  }

  // ---------- What an accepted path names ----------

  /** The first field of the name is a single relation to the next collection. */
  predicate SingleHop(c: Collection, name: string, next: Collection, collections: Collections) {
    exists f :: f in c.fields && FirstNamed(c.fields, name, f) && f.kind == Relation && !f.multiple &&
                LeadsTo(NormalizeIdentifier(f.target), next, collections)
  }

  predicate LeadsTo(target: string, next: Collection, collections: Collections) {
    target in collections && next == collections[target]
  }

  /** Each of the first `n` names hops from one collection to the next. */
  ghost predicate HopFrom(places: seq<Collection>, collections: Collections, names: seq<string>, n: nat)
    requires n < |places| && n <= |names|
  {
    forall k {:trigger names[k]} :: 0 <= k < n ==> SingleHop(places[k], names[k], places[k + 1], collections)
  }

  /** The collections the names are read on. */
  ghost predicate Along(places: seq<Collection>, from: Collection, collections: Collections, names: seq<string>) {
    && |places| == |names| && |names| > 0 && places[0] == from
    && HopFrom(places, collections, names, |names| - 1)
  }

  predicate HasLeaf(c: Collection, name: string) {
    name == c.primaryKey || name == "created" || name == "updated" || exists f :: f in c.fields && f.name == name
  }

  lemma HopIsSingle(c: Collection, name: string, next: Collection, collections: Collections)
    ensures SingleHop(c, name, next, collections) <==>
            && FieldOn(c.fields, name).Some?
            && var f := FieldOn(c.fields, name).value;
               f.kind.Relation? && !f.multiple && TargetOf(f) in collections && next == collections[TargetOf(f)]
  {
    match FieldOn(c.fields, name)
    case None =>
      forall f | FirstNamed(c.fields, name, f) ensures false { LookupFindsFirst(c.fields, name, f); }
    case Some(f) =>
      LookupFindsFirst(c.fields, name, f);
      FoundFieldIsDeclared(c.fields, name);
      forall g | FirstNamed(c.fields, name, g) ensures g == f { LookupFindsFirst(c.fields, name, g); }
  }

  lemma LeafIsReadable(c: Collection, name: string)
    ensures ReadableLeaf(c, name) <==> HasLeaf(c, name)
  {
    match FieldOn(c.fields, name)
    case None =>
      forall f | f in c.fields ensures f.name != name { LookupFindsFirst(c.fields, name, f); }
    case Some(f) => FoundFieldIsDeclared(c.fields, name);
  }

  lemma SingleHopIsWalked(from: Collection, collections: Collections, names: seq<string>, k: nat, c: Collection,
                          next: Collection)
    requires k < |names| && CollectionAt(from, collections, names, k) == Some(c)
    requires SingleHop(c, names[k], next, collections)
    ensures HopsAt(from, collections, names, k) && CollectionAt(from, collections, names, k + 1) == Some(next)
  {
    HopIsSingle(c, names[k], next, collections);
  }

  lemma {:induction false} AlongIsWalked(places: seq<Collection>, from: Collection, collections: Collections,
                                         names: seq<string>, n: nat)
    requires Along(places, from, collections, names) && n < |names|
    ensures CollectionAt(from, collections, names, n) == Some(places[n])
  {
    if n > 0 {
      var k := n - 1;
      AlongIsWalked(places, from, collections, names, k);
      assert SingleHop(places[k], names[k], places[k + 1], collections);
      SingleHopIsWalked(from, collections, names, k, places[k], places[k + 1]);
    }
  }

  function PlaceAt(from: Collection, collections: Collections, names: seq<string>, k: nat): Collection
    requires k <= |names|
  {
    match CollectionAt(from, collections, names, k)
    case Some(c) => c
    case None => from
  }

  lemma PlaceIsHopped(from: Collection, collections: Collections, names: seq<string>, k: nat, c: Collection,
                      next: Collection)
    requires k + 1 < |names| && HopsAt(from, collections, names, k)
    requires c == PlaceAt(from, collections, names, k) && next == PlaceAt(from, collections, names, k + 1)
    ensures FieldOn(c.fields, names[k]).Some?
    ensures var f := FieldOn(c.fields, names[k]).value;
            f.kind.Relation? && !f.multiple && TargetOf(f) in collections && next == collections[TargetOf(f)]
    ensures CollectionAt(from, collections, names, k + 1) == Some(next)
  {
  }

  lemma PlaceIsSingleHop(from: Collection, collections: Collections, names: seq<string>, k: nat, c: Collection,
                         next: Collection)
    requires k + 1 < |names| && HopsAt(from, collections, names, k)
    requires c == PlaceAt(from, collections, names, k) && next == PlaceAt(from, collections, names, k + 1)
    ensures SingleHop(c, names[k], next, collections)
  {
    PlaceIsHopped(from, collections, names, k, c, next);
    HopIsSingle(c, names[k], next, collections);
  }

  lemma HopsLand(from: Collection, collections: Collections, names: seq<string>, n: nat)
    requires n < |names| && HopsTo(from, collections, names, n)
    ensures CollectionAt(from, collections, names, n) == Some(PlaceAt(from, collections, names, n))
  {
    if n > 0 {
      var k := n - 1;
      assert HopsAt(from, collections, names, k);
      var c, next := PlaceAt(from, collections, names, k), PlaceAt(from, collections, names, k + 1);
      PlaceIsHopped(from, collections, names, k, c, next);
    }
  }

  lemma HopsGoAlong(from: Collection, collections: Collections, names: seq<string>, n: nat, places: seq<Collection>)
    requires n < |names| && HopsTo(from, collections, names, n)
    requires |places| == n + 1 && forall k :: 0 <= k <= n ==> places[k] == PlaceAt(from, collections, names, k)
    ensures HopFrom(places, collections, names, n)
  {
    forall k | 0 <= k < n ensures SingleHop(places[k], names[k], places[k + 1], collections) {
      assert HopsAt(from, collections, names, k);
      PlaceIsSingleHop(from, collections, names, k, places[k], places[k + 1]);
    }
  }

  lemma ExportableGoesAlong(from: Collection, collections: Collections, names: seq<string>)
    returns (places: seq<Collection>)
    requires Exportable(from, collections, names)
    ensures Along(places, from, collections, names) && HasLeaf(places[|names| - 1], names[|names| - 1])
  {
    var last := |names| - 1;
    places := seq(last + 1, k requires 0 <= k <= last => PlaceAt(from, collections, names, k));
    HopsLand(from, collections, names, last);
    HopsGoAlong(from, collections, names, last, places);
    LeafIsReadable(places[last], names[last]);
  }

  lemma AlongHops(places: seq<Collection>, from: Collection, collections: Collections, names: seq<string>, k: nat)
    requires Along(places, from, collections, names) && k < |names| - 1
    ensures HopsAt(from, collections, names, k)
  {
    AlongIsWalked(places, from, collections, names, k);
    assert SingleHop(places[k], names[k], places[k + 1], collections);
    SingleHopIsWalked(from, collections, names, k, places[k], places[k + 1]);
  }

  lemma AlongIsExportable(places: seq<Collection>, from: Collection, collections: Collections, names: seq<string>)
    requires Along(places, from, collections, names) && HasLeaf(places[|names| - 1], names[|names| - 1])
    requires |names| <= MAX_EXPORT_DEPTH && forall k :: 0 <= k < |names| ==> names[k] != ""
    ensures Exportable(from, collections, names)
  {
    forall k | 0 <= k < |names| - 1 ensures HopsAt(from, collections, names, k) {
      AlongHops(places, from, collections, names, k);
    }
    AlongIsWalked(places, from, collections, names, |names| - 1);
    LeafIsReadable(places[|names| - 1], names[|names| - 1]);
  }

  /** A path is accepted exactly when it has at most four names, none of them empty, all but the last lead along single
      relations, and the collection they lead to has the last as a field, its key or a time stamp. */
  lemma ExportableMeans(from: Collection, collections: Collections, names: seq<string>)
    ensures Exportable(from, collections, names) <==>
            && 0 < |names| <= 4 && (forall k :: 0 <= k < |names| ==> names[k] != "")
            && exists places :: Along(places, from, collections, names) &&
                                HasLeaf(places[|names| - 1], names[|names| - 1])
  {
    if Exportable(from, collections, names) { var places := ExportableGoesAlong(from, collections, names); }
    if 0 < |names| <= 4 && forall k :: 0 <= k < |names| ==> names[k] != "" {
      forall places | Along(places, from, collections, names) && HasLeaf(places[|names| - 1], names[|names| - 1])
        ensures Exportable(from, collections, names)
      {
        AlongIsExportable(places, from, collections, names);
      }
    }
  }

  // ---------- Loading what paths can reach ----------

  predicate Links(c: Collection, name: string) {
    name != "" && exists f :: f in c.fields && f.kind.Relation? && !f.hidden && TargetOf(f) == name
  }

  /** The readable collections, each under its own name, the exported one among them. */
  predicate Catalog(catalog: Collections, root: Collection) {
    && root.name in catalog && catalog[root.name] == root
    && forall name :: name in catalog ==> catalog[name].name == name
  }

  function TargetsOf(c: Collection, catalog: Collections): set<string> {
    set name | name in catalog && Links(c, name)
  }

  function Layer(names: set<string>, catalog: Collections): set<string> {
    set name, m | m in names && m in catalog && name in TargetsOf(catalog[m], catalog) :: name
  }

  function Within(root: string, catalog: Collections, d: nat): set<string> {
    if d == 0 then {root} else Within(root, catalog, d - 1) + Layer(Within(root, catalog, d - 1), catalog)
  }

  /** A field that may be seen relates to the collection of that name. */
  predicate LinksVisibly(c: Collection, name: string) {
    name != "" && exists f :: f in c.fields && f.kind == Relation && !f.hidden && NormalizeIdentifier(f.target) == name
  }

  /** Names that start at the root, each a readable collection the one before links to. */
  predicate Chain(root: string, catalog: Collections, names: seq<string>) {
    if |names| <= 1 then names == [root]
    else
      var last := |names| - 1;
      && Chain(root, catalog, names[..last])
      && names[last - 1] in catalog && names[last] in catalog && LinksVisibly(catalog[names[last - 1]], names[last])
  }

  ghost predicate ChainTo(root: string, catalog: Collections, d: nat, name: string) {
    exists names :: Chain(root, catalog, names) && |names| <= d + 1 && names[|names| - 1] == name
  }

  lemma ExtendChain(root: string, catalog: Collections, names: seq<string>, name: string)
    requires Chain(root, catalog, names) && |names| > 0
    requires names[|names| - 1] in catalog && name in TargetsOf(catalog[names[|names| - 1]], catalog)
    ensures Chain(root, catalog, names + [name])
  {
    assert (names + [name])[..|names|] == names;
    LinkIsVisible(catalog[names[|names| - 1]], name);
  }

  lemma ChainThrough(root: string, catalog: Collections, d: nat, m: string, name: string)
    requires d > 0 && ChainTo(root, catalog, d - 1, m) && m in catalog && name in TargetsOf(catalog[m], catalog)
    ensures ChainTo(root, catalog, d, name)
  {
    var names :| Chain(root, catalog, names) && |names| <= d && names[|names| - 1] == m;
    ExtendChain(root, catalog, names, name);
    var longer := names + [name];
    assert longer[|longer| - 1] == name;
  }

  /** The set holds exactly the ends of chains of at most `d` links. */
  ghost predicate EndsOfChains(names: set<string>, root: string, catalog: Collections, d: nat) {
    forall name :: name in names <==> ChainTo(root, catalog, d, name)
  }

  lemma LongerChain(root: string, catalog: Collections, d: nat, inner: set<string>, name: string)
    requires EndsOfChains(inner, root, catalog, d) && name in Layer(inner, catalog)
    ensures ChainTo(root, catalog, d + 1, name)
  {
    var m := LinkedFrom(inner, catalog, name);
    ChainThrough(root, catalog, d + 1, m, name);
  }

  lemma ChainsEnd(root: string, catalog: Collections, d: nat, names: seq<string>)
    requires Chain(root, catalog, names) && 2 <= |names| <= d + 2
    ensures var (m, name) := (names[|names| - 2], names[|names| - 1]);
            ChainTo(root, catalog, d, m) && m in catalog && name in catalog && Links(catalog[m], name)
  {
    var last := |names| - 1;
    var front := names[..last];
    assert front[|front| - 1] == names[last - 1];
    assert Chain(root, catalog, front) && |front| <= d + 1;
    LinkIsVisible(catalog[names[last - 1]], names[last]);
  }

  lemma ShorterChain(root: string, catalog: Collections, d: nat, inner: set<string>, name: string)
    requires EndsOfChains(inner, root, catalog, d) && ChainTo(root, catalog, d + 1, name)
    ensures name in inner + Layer(inner, catalog)
  {
    var names :| Chain(root, catalog, names) && |names| <= d + 2 && names[|names| - 1] == name;
    if |names| == 1 {
      assert ChainTo(root, catalog, d, name);
    } else {
      ChainsEnd(root, catalog, d, names);
      TargetIsInLayer(inner, catalog, names[|names| - 2], name);
    }
  }

  lemma LinkIsVisible(c: Collection, name: string)
    ensures Links(c, name) <==> LinksVisibly(c, name)
  {
  }

  lemma TargetIsInLayer(names: set<string>, catalog: Collections, m: string, name: string)
    requires m in names && m in catalog && name in catalog && Links(catalog[m], name)
    ensures name in Layer(names, catalog)
  {
    assert name in TargetsOf(catalog[m], catalog);
  }

  /** The layers hold exactly the ends of chains of at most `d` visible links. */
  lemma {:induction false} WithinMeansChain(root: string, catalog: Collections, d: nat)
    ensures EndsOfChains(Within(root, catalog, d), root, catalog, d)
  {
    if d == 0 {
      assert Chain(root, catalog, [root]);
    } else {
      WithinMeansChain(root, catalog, d - 1);
      NextLayerOfChains(root, catalog, d - 1, Within(root, catalog, d - 1));
    }
  }

  lemma NextLayerOfChains(root: string, catalog: Collections, d: nat, inner: set<string>)
    requires EndsOfChains(inner, root, catalog, d)
    ensures EndsOfChains(inner + Layer(inner, catalog), root, catalog, d + 1)
  {
    forall name ensures name in inner + Layer(inner, catalog) <==> ChainTo(root, catalog, d + 1, name) {
      if name in Layer(inner, catalog) {
        LongerChain(root, catalog, d, inner, name);
      }
      if ChainTo(root, catalog, d + 1, name) {
        ShorterChain(root, catalog, d, inner, name);
      }
    }
  }

  lemma LinkedFrom(names: set<string>, catalog: Collections, name: string) returns (m: string)
    requires name in Layer(names, catalog)
    ensures m in names && m in catalog && name in TargetsOf(catalog[m], catalog)
  {
    m :| m in names && m in catalog && name in TargetsOf(catalog[m], catalog);
  }

  function NamesOf(collections: seq<Collection>): set<string> {
    set c | c in collections :: c.name
  }

  /** Adds the unseen readable targets of one collection to the map and the next frontier. */
  method Discover(collection: Collection, catalog: Collections, before: Collections, queue: seq<Collection>)
    returns (out: Collections, next: seq<Collection>)
    requires forall name :: name in catalog ==> catalog[name].name == name
    requires forall name :: name in before ==> name in catalog && before[name] == catalog[name]
    requires forall c :: c in queue ==> c.name in before && c == before[c.name]
    ensures out.Keys == before.Keys + TargetsOf(collection, catalog)
    ensures forall name :: name in out ==> name in catalog && out[name] == catalog[name]
    ensures forall c :: c in next ==> c.name in out && c == out[c.name]
    ensures NamesOf(next) == NamesOf(queue) + (out.Keys - before.Keys)
  {
    out, next := before, queue;
    for j := 0 to |collection.fields|
      invariant before.Keys <= out.Keys <= before.Keys + TargetsOf(collection, catalog)
      invariant forall i :: 0 <= i < j ==> var f := collection.fields[i];
        f.kind.Relation? && !f.hidden && TargetOf(f) != "" && TargetOf(f) in catalog ==> TargetOf(f) in out
      invariant forall name :: name in out ==> name in catalog && out[name] == catalog[name]
      invariant forall c :: c in next ==> c.name in out && c == out[c.name]
      invariant NamesOf(next) == NamesOf(queue) + (out.Keys - before.Keys)
    {
      var field := collection.fields[j];
      if !field.kind.Relation? || field.hidden { continue; }
      var name := TargetOf(field);
      if name == "" || name in out || name !in catalog { continue; }
      var target := catalog[name];
      out, next := out[name := target], next + [target];
    }
  }

  /** What the map and the frontier must satisfy: only the frontier can still link to something unseen. */
  ghost predicate Explored(out: Collections, frontier: seq<Collection>, catalog: Collections) {
    && (forall name :: name in out ==> name in catalog && out[name] == catalog[name])
    && (forall c :: c in frontier ==> c.name in out && c == out[c.name])
    && (forall name :: name in out && name !in NamesOf(frontier) ==> TargetsOf(out[name], catalog) <= out.Keys)
  }

  method NextFrontier(frontier: seq<Collection>, catalog: Collections, was: Collections)
    returns (out: Collections, next: seq<Collection>)
    requires forall name :: name in catalog ==> catalog[name].name == name
    requires Explored(was, frontier, catalog)
    ensures out.Keys == was.Keys + Layer(was.Keys, catalog)
    ensures Explored(out, next, catalog)
  {
    out, next := was, [];
    for k := 0 to |frontier|
      invariant Discovered(was, frontier[..k], out, next, catalog)
    {
      ghost var before := out;
      out, next := Discover(frontier[k], catalog, out, next);
      assert frontier[..k + 1] == frontier[..k] + [frontier[k]];
      TargetsAreInLayer(was, frontier[k], catalog);
      DiscoveredMore(was, frontier[..k], frontier[k], before, out, next, catalog);
    }
    assert frontier[..|frontier|] == frontier;
    LayerIsCovered(was, frontier, out, next, catalog);
  }

  ghost predicate Discovered(was: Collections, expanded: seq<Collection>, out: Collections, next: seq<Collection>,
                             catalog: Collections) {
    && was.Keys <= out.Keys
    && out.Keys - was.Keys <= Layer(was.Keys, catalog)
    && (forall c :: c in expanded ==> TargetsOf(c, catalog) <= out.Keys)
    && (forall name :: name in out ==> name in catalog && out[name] == catalog[name])
    && (forall c :: c in next ==> c.name in out && c == out[c.name])
    && NamesOf(next) == out.Keys - was.Keys
  }

  lemma DiscoveredMore(was: Collections, expanded: seq<Collection>, c: Collection, before: Collections,
                       out: Collections, next: seq<Collection>, catalog: Collections)
    requires was.Keys <= before.Keys && before.Keys - was.Keys <= Layer(was.Keys, catalog)
    requires forall c :: c in expanded ==> TargetsOf(c, catalog) <= before.Keys
    requires TargetsOf(c, catalog) <= Layer(was.Keys, catalog)
    requires out.Keys == before.Keys + TargetsOf(c, catalog)
    requires forall name :: name in out ==> name in catalog && out[name] == catalog[name]
    requires forall c :: c in next ==> c.name in out && c == out[c.name]
    requires NamesOf(next) == out.Keys - was.Keys
    ensures Discovered(was, expanded + [c], out, next, catalog)
  {
  }

  lemma TargetsAreInLayer(was: Collections, c: Collection, catalog: Collections)
    requires c.name in was && c.name in catalog && catalog[c.name] == c
    ensures TargetsOf(c, catalog) <= Layer(was.Keys, catalog)
  {
  }

  /** What a preload leaves: exactly the collections within four links, as the catalogue has them. */
  ghost predicate Preloads(root: Collection, catalog: Collections, preload: Collections) {
    && Catalog(catalog, root)
    && preload.Keys == Within(root.name, catalog, MAX_EXPORT_DEPTH)
    && forall name :: name in preload ==> name in catalog && preload[name] == catalog[name]
  }

  /** Loads exactly the collections at most four visible links from the root. */
  method ReachableCollections(root: Collection, catalog: Collections) returns (out: Collections)
    requires Catalog(catalog, root)
    ensures Preloads(root, catalog, out)
  {
    out := map[root.name := root];
    var frontier, depth := [root], 0;
    while depth < MAX_EXPORT_DEPTH && |frontier| > 0
      invariant 0 <= depth <= MAX_EXPORT_DEPTH
      invariant out.Keys == Within(root.name, catalog, depth)
      invariant Explored(out, frontier, catalog)
    {
      out, frontier := NextFrontier(frontier, catalog, out);
      depth := depth + 1;
    }
    if depth < MAX_EXPORT_DEPTH {
      assert NamesOf(frontier) == {};
      ClosedStays(root.name, catalog, depth, MAX_EXPORT_DEPTH);
    }
  }

  lemma LayerIsCovered(was: Collections, frontier: seq<Collection>, out: Collections, next: seq<Collection>,
                       catalog: Collections)
    requires Explored(was, frontier, catalog) && Discovered(was, frontier, out, next, catalog)
    ensures out.Keys == was.Keys + Layer(was.Keys, catalog)
    ensures Explored(out, next, catalog)
  {
    forall name | name in was ensures TargetsOf(was[name], catalog) <= out.Keys {
      if name in NamesOf(frontier) {
        var c :| c in frontier && c.name == name;
      }
    }
  }

  lemma {:induction false} ClosedStays(root: string, catalog: Collections, d: nat, e: nat)
    requires d <= e
    requires forall m :: m in Within(root, catalog, d) && m in catalog ==>
             TargetsOf(catalog[m], catalog) <= Within(root, catalog, d)
    ensures Within(root, catalog, e) == Within(root, catalog, d)
    decreases e
  {
    if d < e {
      ClosedStays(root, catalog, d, e - 1);
    }
  }

  lemma {:induction false} WithinGrows(root: string, catalog: Collections, d: nat, e: nat)
    requires d <= e
    ensures Within(root, catalog, d) <= Within(root, catalog, e)
    decreases e
  {
    if d < e { WithinGrows(root, catalog, d, e - 1); }
  }

  /** Every field the path names on the way is a visible relation with a target. */
  predicate VisibleSteps(root: Collection, catalog: Collections, steps: seq<string>) {
    forall k :: 0 <= k < |steps| ==> VisibleAt(CollectionAt(root, catalog, steps, k), steps[k])
  }

  predicate VisibleAt(c: Option<Collection>, step: string) {
    c.Some? && FieldOn(c.value.fields, step).Some? ==>
      var f := FieldOn(c.value.fields, step).value;
      f.kind.Relation? && !f.hidden && TargetOf(f) != ""
  }

  predicate Listed(c: Option<Collection>, catalog: Collections, names: set<string>) {
    c.Some? ==> c.value.name in names && c.value.name in catalog && catalog[c.value.name] == c.value
  }

  /** Along at most four visible relations the preloaded collections serve as well as the whole catalogue. */
  lemma {:induction false} PreloadSuffices(root: Collection, catalog: Collections, preload: Collections,
                                           steps: seq<string>, n: nat)
    requires Preloads(root, catalog, preload) && n <= |steps| && n <= MAX_EXPORT_DEPTH &&
             VisibleSteps(root, catalog, steps)
    ensures CollectionAt(root, preload, steps, n) == CollectionAt(root, catalog, steps, n)
    ensures Listed(CollectionAt(root, catalog, steps, n), catalog, Within(root.name, catalog, n))
  {
    if n > 0 {
      PreloadSuffices(root, catalog, preload, steps, n - 1);
      PreloadStep(root, catalog, preload, steps, n - 1);
    }
  }

  lemma PreloadStep(root: Collection, catalog: Collections, preload: Collections, steps: seq<string>, n: nat)
    requires Preloads(root, catalog, preload) && n < |steps| && n < MAX_EXPORT_DEPTH
    requires VisibleAt(CollectionAt(root, catalog, steps, n), steps[n])
    requires CollectionAt(root, preload, steps, n) == CollectionAt(root, catalog, steps, n)
    requires Listed(CollectionAt(root, catalog, steps, n), catalog, Within(root.name, catalog, n))
    ensures CollectionAt(root, preload, steps, n + 1) == CollectionAt(root, catalog, steps, n + 1)
    ensures Listed(CollectionAt(root, catalog, steps, n + 1), catalog, Within(root.name, catalog, n + 1))
  {
    var c := CollectionAt(root, catalog, steps, n);
    if c.Some? { SameTarget(root, catalog, preload, c.value, steps[n], n); }
  }

  lemma NearIsPreloaded(root: Collection, catalog: Collections, preload: Collections, name: string, d: nat)
    requires Preloads(root, catalog, preload) && d < MAX_EXPORT_DEPTH && name in Within(root.name, catalog, d + 1)
    ensures name in preload && preload[name] == catalog[name] && catalog[name].name == name
  {
    WithinGrows(root.name, catalog, d + 1, MAX_EXPORT_DEPTH);
  }

  lemma SameTarget(root: Collection, catalog: Collections, preload: Collections, c: Collection, step: string, d: nat)
    requires Preloads(root, catalog, preload) && d < MAX_EXPORT_DEPTH && VisibleAt(Some(c), step)
    requires Listed(Some(c), catalog, Within(root.name, catalog, d))
    ensures Target(c, preload, step) == Target(c, catalog, step)
    ensures Target(c, catalog, step).Some? ==>
      var name := Target(c, catalog, step).value;
      name in Within(root.name, catalog, d + 1) && catalog[name].name == name && preload[name] == catalog[name]
  {
    if Target(c, catalog, step).Some? {
      var name := Target(c, catalog, step).value;
      TargetIsNear(root, catalog, d, c, step, Within(root.name, catalog, d), name);
      NearIsPreloaded(root, catalog, preload, name, d);
    }
  }

  lemma TargetIsNear(root: Collection, catalog: Collections, d: nat, c: Collection, step: string, near: set<string>,
                     name: string)
    requires Catalog(catalog, root) && near == Within(root.name, catalog, d) && Listed(Some(c), catalog, near)
    requires VisibleAt(Some(c), step) && Target(c, catalog, step) == Some(name)
    ensures name in Within(root.name, catalog, d + 1)
  {
    LinkIsNear(c, catalog, near, step, name);
  }

  lemma LinkIsNear(c: Collection, catalog: Collections, near: set<string>, step: string, name: string)
    requires Listed(Some(c), catalog, near) && VisibleAt(Some(c), step) && Target(c, catalog, step) == Some(name)
    ensures name in Layer(near, catalog)
  {
    FoundFieldIsDeclared(c.fields, step);
    assert Links(c, name);
    assert name in TargetsOf(catalog[c.name], catalog);
  }
}
