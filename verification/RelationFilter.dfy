/** Dotted filter and sort keys, such as `conversation.workspace.plan`: what their segments name, how they compile into
    nested subqueries, from the last hop outwards, and what these mean in terms of rows that follow the relations. */
module RelationFilter {
  import opened Schema
  import opened Text

  /** The number of segments a key may have, so a key walks at most three relations. */
  const MAX_FILTER_RELATION_DEPTH := 4

  const ROOT_ALIAS := "t"

  /** The collections reachable from the root, by name. */
  type Relations = map<string, Collection>

  datatype FilterError = TooDeep | EmptySegment | UnknownField | NotARelation | Unavailable | BadPredicate | UnknownSort

  predicate Filterable(c: Collection, f: Field) {
    !f.hidden && !f.kind.Password? && f.name !in c.concealed
  }

  function FilterableIn(c: Collection, fields: seq<Field>, name: string): Option<Field> {
    if fields == [] then None
    else if fields[0].name == name && Filterable(c, fields[0]) then Some(fields[0])
    else FilterableIn(c, fields[1..], name)
  }

  function TextField(name: string): Field {
    Field(name, Plain, false, false, "", name, "")
  }

  function FilterableField(c: Collection, name: string): Option<Field> {
    if name == c.primaryKey then Some(TextField(name))
    else if c.systemColumns && (name == "created" || name == "updated") then Some(TextField(name))
    else FilterableIn(c, c.fields, name)
  }

  function ColumnOf(c: Collection, name: string): string {
    if name == c.primaryKey then c.keyColumn
    else if c.systemColumns && (name == "created" || name == "updated") then name
    else match LastField(c.fields, name)
      case Some(f) => f.sourceColumn
      case None => name
  }

  /** The field a map by name holds: the last one that bears it. */
  function LastField(fields: seq<Field>, name: string): Option<Field> {
    if fields == [] then None
    else
      var last := |fields| - 1;
      if fields[last].name == name then Some(fields[last]) else LastField(fields[..last], name)
  }

  // ---------- Resolving a key ----------

  datatype Hop = Hop(field: Field, target: Collection, table: string)

  datatype Path = Path(hops: seq<Hop>, leafCollection: Collection, leafField: Field)

  function NextHop(current: Collection, name: string, relations: Relations): Result<Hop, FilterError> {
    match FieldOn(current.fields, name)
    case None => Err(NotARelation)
    case Some(f) =>
      if !f.kind.Relation? then Err(NotARelation)
      else if f.hidden then Err(UnknownField)
      else
        var target := TargetOf(f);
        if target !in relations || relations[target].table.None? then Err(Unavailable)
        else Ok(Hop(f, relations[target], relations[target].table.value))
  }

  function ResolveFrom(current: Collection, parts: seq<string>, relations: Relations): Result<Path, FilterError>
    requires parts != []
    decreases |parts|
  {
    var name := NormalizeIdentifier(parts[0]);
    if name == "" then Err(EmptySegment)
    else if |parts| == 1 then
      match FilterableField(current, name)
      case None => Err(UnknownField)
      case Some(f) => Ok(Path([], current, f))
    else
      match NextHop(current, name, relations)
      case Err(e) => Err(e)
      case Ok(hop) => Prepend([hop], ResolveFrom(hop.target, parts[1..], relations))
  }

  function Prepend(hops: seq<Hop>, rest: Result<Path, FilterError>): Result<Path, FilterError> {
    match rest
    case Err(e) => Err(e)
    case Ok(path) => Ok(path.(hops := hops + path.hops))
  }

  function ResolvedPath(root: Collection, relations: Option<Relations>, raw: string): Result<Path, FilterError> {
    var parts := Split(raw, '.');
    if |parts| > MAX_FILTER_RELATION_DEPTH then Err(TooDeep)
    else if relations.None? then Err(UnknownField)
    else ResolveFrom(root, parts, relations.value)
  }

  method ResolveFilterPath(root: Collection, relations: Option<Relations>, raw: string)
    returns (r: Result<Path, FilterError>)
    ensures r == ResolvedPath(root, relations, raw)
  {
    var parts := Split(raw, '.');
    if |parts| > MAX_FILTER_RELATION_DEPTH { return Err(TooDeep); }
    if relations.None? { return Err(UnknownField); }
    var current, hops := root, [];
    var whole := ResolveFrom(root, parts, relations.value);
    assert parts[0..] == parts;
    assert Prepend([], whole) == whole by { if whole.Ok? { assert [] + whole.value.hops == whole.value.hops; } }
    for i := 0 to |parts|
      invariant i < |parts| ==> whole == Prepend(hops, ResolveFrom(current, parts[i..], relations.value))
      invariant i < |parts|
    {
      var name := NormalizeIdentifier(parts[i]);
      if name == "" { return Err(EmptySegment); }
      if i == |parts| - 1 {
        match FilterableField(current, name) {
          case None => return Err(UnknownField);
          case Some(f) =>
            assert hops + [] == hops;
            return Ok(Path(hops, current, f));
        }
      }
      match NextHop(current, name, relations.value) {
        case Err(e) => return Err(e);
        case Ok(hop) =>
          assert parts[i..][1..] == parts[i + 1..];
          PrependTwice(hops, [hop], ResolveFrom(hop.target, parts[i + 1..], relations.value));
          hops := hops + [hop];
          current := hop.target;
      }
    }
  }

  lemma PrependTwice(a: seq<Hop>, b: seq<Hop>, rest: Result<Path, FilterError>)
    ensures Prepend(a, Prepend(b, rest)) == Prepend(a + b, rest)
  {
    if rest.Ok? { assert a + (b + rest.value.hops) == a + b + rest.value.hops; }
  }

  function ParentCollection(root: Collection, hops: seq<Hop>, i: nat): Collection
    requires i <= |hops|
  {
    if i == 0 then root else hops[i - 1].target
  }

  /** A hop is a visible relation its parent collection declares, into a reachable collection with a table. */
  predicate Declared(parent: Collection, hop: Hop, relations: Relations) {
    && hop.field in parent.fields && hop.field.kind.Relation? && !hop.field.hidden
    && TargetOf(hop.field) in relations
    && hop.target == relations[TargetOf(hop.field)]
    && hop.target.table == Some(hop.table)
  }

  ghost predicate FollowsSchema(root: Collection, path: Path, relations: Relations) {
    && (forall i :: 0 <= i < |path.hops| ==> Declared(ParentCollection(root, path.hops, i), path.hops[i], relations))
    && path.leafCollection == ParentCollection(root, path.hops, |path.hops|)
    && FilterableField(path.leafCollection, path.leafField.name) == Some(path.leafField)
  }

  lemma FilterableFieldHasName(c: Collection, fields: seq<Field>, name: string)
    ensures FilterableIn(c, fields, name).Some? ==> FilterableIn(c, fields, name).value.name == name
  {
  }

  lemma SchemaExtends(root: Collection, hop: Hop, rest: Path, relations: Relations)
    requires Declared(root, hop, relations) && FollowsSchema(hop.target, rest, relations)
    ensures FollowsSchema(root, rest.(hops := [hop] + rest.hops), relations)
  {
    var hops := [hop] + rest.hops;
    forall i | 0 <= i < |hops|
      ensures Declared(ParentCollection(root, hops, i), hops[i], relations)
    {
      if i > 0 { ParentShifts(root, hop, rest.hops, i); }
    }
    ParentShifts(root, hop, rest.hops, |hops|);
  }

  lemma ParentShifts(root: Collection, hop: Hop, hops: seq<Hop>, i: nat)
    requires 0 < i <= |hops| + 1
    ensures ParentCollection(root, [hop] + hops, i) == ParentCollection(hop.target, hops, i - 1)
    ensures i <= |hops| ==> ([hop] + hops)[i] == hops[i - 1]
  {
  }

  lemma {:induction false} ResolveFromFollowsSchema(root: Collection, parts: seq<string>, relations: Relations)
    requires parts != [] && ResolveFrom(root, parts, relations).Ok?
    ensures FollowsSchema(root, ResolveFrom(root, parts, relations).value, relations)
    ensures |ResolveFrom(root, parts, relations).value.hops| == |parts| - 1
    decreases |parts|
  {
    var name := NormalizeIdentifier(parts[0]);
    if |parts| == 1 {
      FilterableFieldHasName(root, root.fields, name);
    } else {
      FoundFieldIsDeclared(root.fields, name);
      var hop := NextHop(root, name, relations).value;
      ResolveFromFollowsSchema(hop.target, parts[1..], relations);
      SchemaExtends(root, hop, ResolveFrom(hop.target, parts[1..], relations).value, relations);
    }
  }

  lemma DottedKeySplits(raw: string)
    requires '.' in raw
    ensures |Split(raw, '.')| >= 2
  {
  }

  /** A dotted key that resolves walks one to three relations, all declared by the schema. */
  lemma ResolvedPathFollowsSchema(root: Collection, relations: Option<Relations>, raw: string)
    requires ResolvedPath(root, relations, raw).Ok?
    ensures var path := ResolvedPath(root, relations, raw).value;
            && relations.Some? && FollowsSchema(root, path, relations.value)
            && |path.hops| <= 3 && ('.' in raw ==> |path.hops| >= 1)
  {
    ResolveFromFollowsSchema(root, Split(raw, '.'), relations.value);
    if '.' in raw { DottedKeySplits(raw); }
  }

  // ---------- What a key names ----------

  predicate IsSystemColumn(c: Collection, name: string) {
    name == c.primaryKey || (c.systemColumns && (name == "created" || name == "updated"))
  }

  /** A filter may see the field. */
  predicate Visible(c: Collection, f: Field) {
    !f.hidden && f.kind != Password && f.name !in c.concealed
  }

  /** None of the first `n` fields both bears the name and may be seen. */
  predicate NoneSeenBefore(c: Collection, name: string, n: nat)
    requires n <= |c.fields|
  {
    forall j :: 0 <= j < n ==> IsNotSeen(c, c.fields[j], name)
  }

  predicate IsNotSeen(c: Collection, f: Field, name: string) {
    f.name != name || !Visible(c, f)
  }

  /** The last segment of a key names a key or system column, or the first visible field that bears the name. */
  predicate NamesLeaf(c: Collection, name: string, f: Field) {
    && name != "" && f.name == name
    && if IsSystemColumn(c, name) then f == Field(name, Plain, false, false, "", name, "")
       else exists i :: 0 <= i < |c.fields| && c.fields[i] == f && Visible(c, f) && NoneSeenBefore(c, name, i)
  }

  /** Any other segment names the first field that bears it, a visible relation into an available table. */
  predicate NamesHop(parent: Collection, name: string, hop: Hop, relations: Relations) {
    && name != "" && FirstNamed(parent.fields, name, hop.field)
    && hop.field.kind == Relation && !hop.field.hidden
    && NormalizeIdentifier(hop.field.target) in relations
    && hop.target == relations[NormalizeIdentifier(hop.field.target)] && hop.target.table == Some(hop.table)
  }

  predicate NamesHops(root: Collection, parts: seq<string>, hops: seq<Hop>, relations: Relations)
    requires |hops| <= |parts|
  {
    forall i :: 0 <= i < |hops| ==>
      NamesHop(ParentCollection(root, hops, i), NormalizeIdentifier(parts[i]), hops[i], relations)
  }

  /** Every segment but the last names a hop, and the last names the leaf on the collection they lead to. */
  predicate NamesPath(root: Collection, parts: seq<string>, path: Path, relations: Relations) {
    && |path.hops| + 1 == |parts|
    && NamesHops(root, parts, path.hops, relations)
    && path.leafCollection == ParentCollection(root, path.hops, |path.hops|)
    && NamesLeaf(path.leafCollection, NormalizeIdentifier(parts[|path.hops|]), path.leafField)
  }

  lemma {:induction false} FirstSeen(c: Collection, name: string, i: nat) returns (k: nat)
    requires i <= |c.fields| && NoneSeenBefore(c, name, i)
    ensures k <= |c.fields| && NoneSeenBefore(c, name, k)
    ensures FilterableIn(c, c.fields[i..], name) == if k < |c.fields| then Some(c.fields[k]) else None
    ensures k < |c.fields| ==> c.fields[k].name == name && Visible(c, c.fields[k])
    decreases |c.fields| - i
  {
    k := i;
    if i < |c.fields| && IsNotSeen(c, c.fields[i], name) {
      assert c.fields[i..][1..] == c.fields[i + 1..];
      k := FirstSeen(c, name, i + 1);
    }
  }

  lemma LeafIsNamed(c: Collection, name: string, f: Field)
    requires name != ""
    ensures FilterableField(c, name) == Some(f) <==> NamesLeaf(c, name, f)
    ensures FilterableField(c, name) == None <==>
            !IsSystemColumn(c, name) && NoneSeenBefore(c, name, |c.fields|)
  {
    if !IsSystemColumn(c, name) {
      var k := FirstSeen(c, name, 0);
      assert c.fields[0..] == c.fields;
      if NamesLeaf(c, name, f) {
        var i :| 0 <= i < |c.fields| && c.fields[i] == f && Visible(c, f) && NoneSeenBefore(c, name, i);
        assert !IsNotSeen(c, c.fields[i], name);
        assert k < |c.fields| ==> !IsNotSeen(c, c.fields[k], name);
      }
    }
  }

  lemma HopIsNamed(parent: Collection, name: string, hop: Hop, relations: Relations)
    requires name != ""
    ensures NextHop(parent, name, relations) == Ok(hop) <==> NamesHop(parent, name, hop, relations)
  {
    LookupFindsFirst(parent.fields, name, hop.field);
  }

  /** Reading a key's segments splits into its first hop and the rest. */
  lemma NamesStep(root: Collection, parts: seq<string>, hop: Hop, rest: Path, relations: Relations)
    requires |parts| >= 2
    ensures NamesPath(root, parts, rest.(hops := [hop] + rest.hops), relations) <==>
            NamesHop(root, NormalizeIdentifier(parts[0]), hop, relations) &&
            NamesPath(hop.target, parts[1..], rest, relations)
  {
    var hops := [hop] + rest.hops;
    if |hops| + 1 == |parts| {
      ParentShifts(root, hop, rest.hops, |hops|);
      NamesHopsStep(root, parts, hop, rest.hops, relations);
    }
  }

  lemma NamesHopsStep(root: Collection, parts: seq<string>, hop: Hop, rest: seq<Hop>, relations: Relations)
    requires |rest| + 1 <= |parts|
    ensures NamesHops(root, parts, [hop] + rest, relations) <==>
            NamesHop(root, NormalizeIdentifier(parts[0]), hop, relations) &&
            NamesHops(hop.target, parts[1..], rest, relations)
  {
    var hops := [hop] + rest;
    forall i | 0 < i < |hops|
      ensures NamesHop(ParentCollection(root, hops, i), NormalizeIdentifier(parts[i]), hops[i], relations) <==>
              NamesHop(ParentCollection(hop.target, rest, i - 1), NormalizeIdentifier(parts[1..][i - 1]), rest[i - 1],
                       relations)
    {
      ParentShifts(root, hop, rest, i);
    }
    if NamesHops(root, parts, hops, relations) {
      assert NamesHop(ParentCollection(root, hops, 0), NormalizeIdentifier(parts[0]), hops[0], relations);
      forall i | 0 <= i < |rest|
        ensures NamesHop(ParentCollection(hop.target, rest, i), NormalizeIdentifier(parts[1..][i]), rest[i], relations)
      {
        assert NamesHop(ParentCollection(root, hops, i + 1), NormalizeIdentifier(parts[i + 1]), hops[i + 1], relations);
      }
    }
  }

  lemma {:induction false} ResolvesAsNamed(current: Collection, parts: seq<string>, path: Path, relations: Relations)
    requires parts != []
    ensures ResolveFrom(current, parts, relations) == Ok(path) <==> NamesPath(current, parts, path, relations)
    decreases |parts|
  {
    var name := NormalizeIdentifier(parts[0]);
    if |parts| == 1 {
      if name != "" { LeafIsNamed(current, name, path.leafField); }
    } else if path.hops != [] {
      var hop, rest := path.hops[0], path.(hops := path.hops[1..]);
      assert [hop] + rest.hops == path.hops && rest.(hops := [hop] + rest.hops) == path;
      if name != "" { HopIsNamed(current, name, hop, relations); }
      ResolvesAsNamed(hop.target, parts[1..], rest, relations);
      NamesStep(current, parts, hop, rest, relations);
    }
  }

  /** A key resolves to a path exactly when it has at most four segments and they name that path. The segments are
      what stands between the dots of the key. */
  lemma KeyNamesItsPath(root: Collection, relations: Option<Relations>, raw: string, parts: seq<string>, path: Path)
    requires parts != [] && NoneHolds(parts, '.') && Join(parts, '.') == raw
    ensures ResolvedPath(root, relations, raw) == Ok(path) <==>
            |parts| <= 4 && relations.Some? && NamesPath(root, parts, path, relations.value)
  {
    JoinSplits(parts, '.');
    if relations.Some? { ResolvesAsNamed(root, parts, path, relations.value); }
  }

  // ---------- Why a key does not resolve ----------

  /** The error of a segment read on the collection reached before it. */
  predicate SegmentFails(c: Collection, name: string, last: bool, relations: Relations, e: FilterError) {
    match e
    case EmptySegment => name == ""
    case UnknownField =>
      && name != ""
      && if last then !IsSystemColumn(c, name) && NoneSeenBefore(c, name, |c.fields|)
         else exists f :: f in c.fields && FirstNamed(c.fields, name, f) && f.kind == Relation && f.hidden
    case NotARelation =>
      && name != "" && !last
      && (NoneBefore(c.fields, name, |c.fields|) ||
          exists f :: f in c.fields && FirstNamed(c.fields, name, f) && f.kind != Relation)
    case Unavailable =>
      && name != "" && !last
      && exists f :: f in c.fields && FirstNamed(c.fields, name, f) && f.kind == Relation && !f.hidden &&
                     !HasTable(NormalizeIdentifier(f.target), relations)
    case _ => false
  }

  predicate HasTable(target: string, relations: Relations) {
    target in relations && relations[target].table.Some?
  }

  /** The segments before the failing one name hops. */
  predicate FailsAfter(root: Collection, parts: seq<string>, hops: seq<Hop>, relations: Relations, e: FilterError) {
    && |hops| < |parts| && NamesHops(root, parts, hops, relations)
    && SegmentFails(ParentCollection(root, hops, |hops|), NormalizeIdentifier(parts[|hops|]), |hops| + 1 == |parts|,
                    relations, e)
  }

  lemma HopFails(c: Collection, name: string, relations: Relations, e: FilterError)
    requires name != ""
    ensures NextHop(c, name, relations) == Err(e) <==> SegmentFails(c, name, false, relations, e)
  {
    match FieldOn(c.fields, name)
    case None => LookupFindsFirst(c.fields, name, TextField(name));
    case Some(f) => LookupFindsFirst(c.fields, name, f);
    forall f | FirstNamed(c.fields, name, f) ensures FieldOn(c.fields, name) == Some(f) {
      LookupFindsFirst(c.fields, name, f);
    }
  }

  lemma LastSegmentFails(c: Collection, name: string, relations: Relations, e: FilterError)
    requires name != ""
    ensures SegmentFails(c, name, true, relations, e) <==> FilterableField(c, name) == None && e == UnknownField
  {
    LeafIsNamed(c, name, TextField(name));
  }

  /** The first segment fails at once, or names a hop and the rest is read from there. */
  lemma FailsStep(c: Collection, parts: seq<string>, hop: Hop, rest: seq<Hop>, relations: Relations, e: FilterError)
    requires |parts| >= 2
    ensures FailsAfter(c, parts, [hop] + rest, relations, e) <==>
            NamesHop(c, NormalizeIdentifier(parts[0]), hop, relations) &&
            FailsAfter(hop.target, parts[1..], rest, relations, e)
  {
    var hops, n := [hop] + rest, |rest| + 1;
    assert |hops| == n && |parts[1..]| == |parts| - 1;
    if n < |parts| {
      NamesHopsStep(c, parts, hop, rest, relations);
      ParentShifts(c, hop, rest, n);
      assert parts[1..][|rest|] == parts[n];
      assert FailsAfter(c, parts, hops, relations, e) <==>
             NamesHops(c, parts, hops, relations) &&
             SegmentFails(ParentCollection(hop.target, rest, |rest|), NormalizeIdentifier(parts[n]), n + 1 == |parts|,
                          relations, e);
    }
  }

  lemma FailsAtOnce(c: Collection, parts: seq<string>, relations: Relations, e: FilterError)
    requires parts != []
    ensures FailsAfter(c, parts, [], relations, e) <==>
            SegmentFails(c, NormalizeIdentifier(parts[0]), |parts| == 1, relations, e)
  {
  }

  lemma {:induction false} FailingHops(current: Collection, parts: seq<string>, relations: Relations, e: FilterError)
    returns (hops: seq<Hop>)
    requires parts != [] && ResolveFrom(current, parts, relations) == Err(e)
    ensures FailsAfter(current, parts, hops, relations, e)
    decreases |parts|
  {
    var name := NormalizeIdentifier(parts[0]);
    hops := [];
    FailsAtOnce(current, parts, relations, e);
    if name != "" && |parts| == 1 {
      LastSegmentFails(current, name, relations, e);
    } else if name != "" {
      HopFails(current, name, relations, e);
      if NextHop(current, name, relations).Ok? {
        var hop := NextHop(current, name, relations).value;
        var rest := FailingHops(hop.target, parts[1..], relations, e);
        HopIsNamed(current, name, hop, relations);
        FailsStep(current, parts, hop, rest, relations, e);
        hops := [hop] + rest;
      }
    }
  }

  lemma {:induction false} FailsThere(current: Collection, parts: seq<string>, hops: seq<Hop>, relations: Relations,
                                      e: FilterError)
    requires FailsAfter(current, parts, hops, relations, e)
    ensures ResolveFrom(current, parts, relations) == Err(e)
    decreases |parts|
  {
    var name := NormalizeIdentifier(parts[0]);
    if hops == [] {
      FailsAtOnce(current, parts, relations, e);
      if name != "" && |parts| == 1 {
        LastSegmentFails(current, name, relations, e);
      } else if name != "" {
        HopFails(current, name, relations, e);
      }
    } else {
      assert [hops[0]] + hops[1..] == hops;
      FailsStep(current, parts, hops[0], hops[1..], relations, e);
      HopIsNamed(current, name, hops[0], relations);
      FailsThere(hops[0].target, parts[1..], hops[1..], relations, e);
    }
  }

  /** A key fails with the error of its first segment that does not read. */
  lemma KeyFailsAtASegment(root: Collection, relations: Option<Relations>, raw: string, parts: seq<string>,
                           e: FilterError)
    requires parts != [] && NoneHolds(parts, '.') && Join(parts, '.') == raw
    ensures ResolvedPath(root, relations, raw) == Err(e) <==>
            if |parts| > 4 then e == TooDeep
            else if relations.None? then e == UnknownField
            else exists hops :: FailsAfter(root, parts, hops, relations.value, e)
  {
    JoinSplits(parts, '.');
    if |parts| <= 4 && relations.Some? {
      if ResolvedPath(root, relations, raw) == Err(e) {
        var hops := FailingHops(root, parts, relations.value, e);
      }
      forall hops | FailsAfter(root, parts, hops, relations.value, e)
        ensures ResolvedPath(root, relations, raw) == Err(e)
      {
        FailsThere(root, parts, hops, relations.value, e);
      }
    }
  }

  // ---------- Where values are stored ----------

  /** No two fields of the collection share this field's name. */
  predicate OnlyNamed(c: Collection, f: Field) {
    f in c.fields && forall g :: g in c.fields && g.name == f.name ==> g == f
  }

  lemma {:induction false} LastIsTheOnly(fields: seq<Field>, f: Field)
    requires f in fields && forall g :: g in fields && g.name == f.name ==> g == f
    ensures LastField(fields, f.name) == Some(f)
  {
    var front, last := fields[..|fields| - 1], fields[|fields| - 1];
    assert fields == front + [last] && last in fields;
    if last.name != f.name {
      forall g | g in front ensures g in fields {}
      LastIsTheOnly(front, f);
    }
  }

  /** A key is read from the key column, another system column from its own, and any other field from the column that
      stores it. */
  lemma FieldsReadTheirColumns(c: Collection, f: Field)
    requires OnlyNamed(c, f)
    ensures ColumnOf(c, f.name) == if f.name == c.primaryKey then c.keyColumn
                                   else if c.systemColumns && f.name in {"created", "updated"} then f.name
                                   else f.sourceColumn
    ensures ColumnOf(c, c.primaryKey) == c.keyColumn
  {
    LastIsTheOnly(c.fields, f);
  }

  // ---------- A small SQL ----------

  datatype Value = Null | Scalar(text: string) | Array(elems: seq<Value>)

  /** SQL's three truth values. */
  datatype Truth = True | False | Unknown

  datatype Column = Column(alias: string, name: string)

  datatype Cond =
    | Equal(left: Column, right: Column)
    | EqualAny(left: Column, right: Column)
    | Test(column: Column, holds: Value -> Truth)
    | And(first: Cond, second: Cond)
    | Exists(table: string, alias: string, where: Cond)

  type Row = map<string, Value>

  type Database = map<string, set<Row>>

  /** The row each alias in scope stands for; an inner scope shadows an outer one of the same name. */
  type Scope = map<string, Row>

  function Bind(scope: Scope, alias: string, row: Row): Scope {
    scope[alias := row]
  }

  function Rows(db: Database, table: string): set<Row> {
    if table in db then db[table] else {}
  }

  function Read(row: Row, column: string): Value {
    if column in row then row[column] else Null
  }

  function Lookup(scope: Scope, column: Column): Value {
    if column.alias in scope then Read(scope[column.alias], column.name) else Null
  }

  function Equals(a: Value, b: Value): Truth {
    if a.Null? || b.Null? then Unknown else if a == b then True else False
  }

  function Both(a: Truth, b: Truth): Truth {
    if a.False? || b.False? then False else if a.True? && b.True? then True else Unknown
  }

  /** `a = any(array)`: true on a match, else unknown when a null could have been one. */
  ghost function EqualsAny(a: Value, values: Value): Truth {
    if !values.Array? then Unknown
    else if exists e :: e in values.elems && Equals(a, e) == True then True
    else if exists e :: e in values.elems && Equals(a, e) == Unknown then Unknown
    else False
  }

  ghost function Eval(c: Cond, db: Database, scope: Scope): Truth {
    match c
    case Equal(left, right) => Equals(Lookup(scope, left), Lookup(scope, right))
    case EqualAny(left, right) => EqualsAny(Lookup(scope, left), Lookup(scope, right))
    case Test(column, holds) => holds(Lookup(scope, column))
    case And(first, second) => Both(Eval(first, db, scope), Eval(second, db, scope))
    case Exists(table, alias, where) =>
      if exists row :: row in Rows(db, table) && Eval(where, db, Bind(scope, alias, row)) == True then True else False
  }

  // ---------- Compiling a filter ----------

  function Alias(prefix: string, i: nat): string {
    prefix + Digits(i)
  }

  function ParentAlias(prefix: string, i: nat): string {
    if i == 0 then ROOT_ALIAS else Alias(prefix, i)
  }

  lemma AliasesAreDistinct(prefix: string, i: nat, j: nat)
    requires i > 0 && i != j && |prefix| >= 2
    ensures Alias(prefix, i) != ParentAlias(prefix, j)
  {
    if Alias(prefix, i) == Alias(prefix, j) {
      assert Alias(prefix, i)[|prefix|..] == Digits(i);
      assert Alias(prefix, j)[|prefix|..] == Digits(j);
      DigitsInjective(i, j);
    }
  }

  function JoinCondition(prefix: string, root: Collection, hops: seq<Hop>, i: nat): Cond
    requires i < |hops|
  {
    var hop := hops[i];
    var childKey := Column(Alias(prefix, i + 1), ColumnOf(hop.target, hop.target.primaryKey));
    var parentColumn := Column(ParentAlias(prefix, i), ColumnOf(ParentCollection(root, hops, i), hop.field.name));
    if hop.field.multiple then EqualAny(childKey, parentColumn) else Equal(childKey, parentColumn)
  }

  const FILTER_PREFIX := "dbo_rel"
  const ORDER_PREFIX := "dbo_ord"

  /** The subqueries from hop `i` inwards. */
  function Nested(root: Collection, hops: seq<Hop>, i: nat, leaf: Cond): Cond
    requires i <= |hops|
    decreases |hops| - i
  {
    if i == |hops| then leaf
    else Exists(hops[i].table, Alias(FILTER_PREFIX, i + 1),
                And(JoinCondition(FILTER_PREFIX, root, hops, i), Nested(root, hops, i + 1, leaf)))
  }

  function LeafColumn(prefix: string, path: Path): Column {
    Column(Alias(prefix, |path.hops|), ColumnOf(path.leafCollection, path.leafField.name))
  }

  function FilterCondition(root: Collection, path: Path, holds: Value -> Truth): Cond {
    Nested(root, path.hops, 0, Test(LeafColumn(FILTER_PREFIX, path), holds))
  }

  /** Builds the innermost predicate first, then wraps it hop by hop. `compileLeaf` turns the
      operator map of the last segment into a test on its column, or refuses it. */
  method CompileRelationPath(root: Collection, relations: Option<Relations>, raw: string,
                             compileLeaf: Field -> Option<Value -> Truth>)
    returns (r: Result<Cond, FilterError>)
    ensures var resolved := ResolvedPath(root, relations, raw);
            match resolved
            case Err(e) => r == Err(e)
            case Ok(path) =>
              match compileLeaf(path.leafField)
              case None => r == Err(BadPredicate)
              case Some(holds) => r == Ok(FilterCondition(root, path, holds))
  {
    var resolved := ResolveFilterPath(root, relations, raw);
    match resolved {
      case Err(e) => return Err(e);
      case Ok(path) =>
        var test := compileLeaf(path.leafField);
        if test.None? { return Err(BadPredicate); }
        var hops := path.hops;
        var inner := Test(LeafColumn(FILTER_PREFIX, path), test.value);
        var leaf := inner;
        for i := |hops| downto 0
          invariant inner == Nested(root, hops, i, leaf)
        {
          inner := Exists(hops[i].table, Alias(FILTER_PREFIX, i + 1),
                          And(JoinCondition(FILTER_PREFIX, root, hops, i), inner));
        }
        return Ok(inner);
    }
  }

  // ---------- What a filter means ----------

  /** The child row carries the key its parent's relation column holds, alone or in an array. */
  predicate Linked(parentCollection: Collection, hop: Hop, parent: Row, child: Row) {
    var key := Read(child, ColumnOf(hop.target, hop.target.primaryKey));
    var reference := Read(parent, ColumnOf(parentCollection, hop.field.name));
    !key.Null? && if hop.field.multiple then reference.Array? && key in reference.elems else key == reference
  }

  /** A hop links a row to those whose key column holds what the relation's own column holds, alone or in an array. */
  lemma LinkedByColumns(parentCollection: Collection, hop: Hop, parent: Row, child: Row)
    requires OnlyNamed(parentCollection, hop.field) && !IsSystemColumn(parentCollection, hop.field.name)
    ensures Linked(parentCollection, hop, parent, child) <==>
            && hop.target.keyColumn in child && hop.field.sourceColumn in parent
            && var (key, held) := (child[hop.target.keyColumn], parent[hop.field.sourceColumn]);
               key != Null && if hop.field.multiple then held.Array? && key in held.elems else held == key
  {
    FieldsReadTheirColumns(parentCollection, hop.field);
  }

  /** `child` is a stored row that hop `i` leads to from `parent`. */
  predicate Follows(root: Collection, hops: seq<Hop>, db: Database, i: nat, parent: Row, child: Row)
    requires i < |hops|
  {
    child in Rows(db, hops[i].table) && Linked(ParentCollection(root, hops, i), hops[i], parent, child)
  }

  /** `chain` follows the relations from hop `i` on, starting at `parent`. */
  predicate Chain(root: Collection, hops: seq<Hop>, db: Database, i: nat, parent: Row, chain: seq<Row>)
    requires i <= |hops|
    decreases |hops| - i
  {
    if i == |hops| then chain == []
    else
      && chain != [] && Follows(root, hops, db, i, parent, chain[0])
      && Chain(root, hops, db, i + 1, chain[0], chain[1..])
  }

  function Last(parent: Row, chain: seq<Row>): Row {
    if chain == [] then parent else chain[|chain| - 1]
  }

  function LeafValue(path: Path, row: Row): Value {
    Read(row, ColumnOf(path.leafCollection, path.leafField.name))
  }

  lemma JoinMeansLinked(prefix: string, root: Collection, hops: seq<Hop>, i: nat, db: Database, scope: Scope,
                        parent: Row, child: Row)
    requires i < |hops| && |prefix| >= 2
    requires ParentAlias(prefix, i) in scope && scope[ParentAlias(prefix, i)] == parent
    ensures Eval(JoinCondition(prefix, root, hops, i), db, Bind(scope, Alias(prefix, i + 1), child)) == True <==>
            Linked(ParentCollection(root, hops, i), hops[i], parent, child)
  {
    AliasesAreDistinct(prefix, i + 1, i);
    var key := Read(child, ColumnOf(hops[i].target, hops[i].target.primaryKey));
    var reference := Read(parent, ColumnOf(ParentCollection(root, hops, i), hops[i].field.name));
    if hops[i].field.multiple && reference.Array? && key in reference.elems && !key.Null? {
      assert Equals(key, key) == True;
    }
  }

  /** Some chain from hop `i` ends in a row whose leaf satisfies the predicate. */
  ghost predicate Reaches(root: Collection, path: Path, holds: Value -> Truth, db: Database, i: nat, parent: Row)
    requires i <= |path.hops|
  {
    exists chain :: Chain(root, path.hops, db, i, parent, chain) && holds(LeafValue(path, Last(parent, chain))) == True
  }

  lemma ReachesStep(root: Collection, path: Path, holds: Value -> Truth, db: Database, i: nat, parent: Row)
    requires i < |path.hops|
    ensures Reaches(root, path, holds, db, i, parent) <==>
            exists child ::
              Follows(root, path.hops, db, i, parent, child) && Reaches(root, path, holds, db, i + 1, child)
  {
    var hops := path.hops;
    if Reaches(root, path, holds, db, i, parent) {
      var chain :| Chain(root, hops, db, i, parent, chain) && holds(LeafValue(path, Last(parent, chain))) == True;
      assert Last(parent, chain) == Last(chain[0], chain[1..]);
      assert Reaches(root, path, holds, db, i + 1, chain[0]);
    }
    forall child | Follows(root, hops, db, i, parent, child) && Reaches(root, path, holds, db, i + 1, child)
      ensures Reaches(root, path, holds, db, i, parent)
    {
      var rest :| Chain(root, hops, db, i + 1, child, rest) && holds(LeafValue(path, Last(child, rest))) == True;
      var chain := [child] + rest;
      assert chain[1..] == rest;
      assert Last(parent, chain) == Last(child, rest);
    }
  }

  lemma {:induction false} NestedMeansChain(root: Collection, path: Path, holds: Value -> Truth, db: Database,
                                            i: nat, scope: Scope, parent: Row)
    requires 1 <= |path.hops| && i <= |path.hops|
    requires ParentAlias(FILTER_PREFIX, i) in scope && scope[ParentAlias(FILTER_PREFIX, i)] == parent
    ensures Eval(Nested(root, path.hops, i, Test(LeafColumn(FILTER_PREFIX, path), holds)), db, scope) == True <==>
            Reaches(root, path, holds, db, i, parent)
    decreases |path.hops| - i
  {
    var hops, leaf := path.hops, Test(LeafColumn(FILTER_PREFIX, path), holds);
    if i == |hops| {
      assert Chain(root, hops, db, i, parent, []);
    } else {
      var alias, inner := Alias(FILTER_PREFIX, i + 1), Nested(root, hops, i + 1, leaf);
      var where := And(JoinCondition(FILTER_PREFIX, root, hops, i), inner);
      forall child
        ensures Eval(where, db, Bind(scope, alias, child)) == True <==>
                Linked(ParentCollection(root, hops, i), hops[i], parent, child) &&
                Reaches(root, path, holds, db, i + 1, child)
      {
        JoinMeansLinked(FILTER_PREFIX, root, hops, i, db, scope, parent, child);
        NestedMeansChain(root, path, holds, db, i + 1, Bind(scope, alias, child), child);
      }
      ReachesStep(root, path, holds, db, i, parent);
      assert Nested(root, hops, i, leaf) == Exists(hops[i].table, alias, where);
      ExistsMeansReaches(root, path, holds, db, i, i + 1, scope, alias, parent, where);
    }
  }

  lemma ExistsMeansReaches(root: Collection, path: Path, holds: Value -> Truth, db: Database, i: nat, next: nat,
                           scope: Scope, alias: string, parent: Row, where: Cond)
    requires next == i + 1 <= |path.hops|
    requires forall child :: Eval(where, db, Bind(scope, alias, child)) == True <==>
                             Linked(ParentCollection(root, path.hops, i), path.hops[i], parent, child) &&
                             Reaches(root, path, holds, db, next, child)
    requires Reaches(root, path, holds, db, i, parent) <==>
              exists child ::
                Follows(root, path.hops, db, i, parent, child) && Reaches(root, path, holds, db, next, child)
    ensures Eval(Exists(path.hops[i].table, alias, where), db, scope) == True <==>
            Reaches(root, path, holds, db, i, parent)
  {
  }

  /** The compiled filter is true of a root row exactly when some chain of rows follows the relations to a
      row whose leaf satisfies the predicate, and false (never unknown) otherwise. */
  lemma FilterMeansChain(root: Collection, path: Path, holds: Value -> Truth, db: Database, row: Row)
    requires |path.hops| >= 1
    ensures Eval(FilterCondition(root, path, holds), db, map[ROOT_ALIAS := row]) ==
            if Reaches(root, path, holds, db, 0, row) then True else False
  {
    NestedMeansChain(root, path, holds, db, 0, map[ROOT_ALIAS := row], row);
  }

  // ---------- Sort keys ----------

  datatype ScalarQuery =
    | Leaf(column: Column)
    | FirstRow(select: ScalarQuery, table: string, alias: string, where: Cond)

  /** `v` is a value the scalar subquery may return: `limit 1` without an order picks any matching row,
      and a subquery without rows is null. */
  ghost predicate Yields(q: ScalarQuery, db: Database, scope: Scope, v: Value) {
    match q
    case Leaf(column) => v == Lookup(scope, column)
    case FirstRow(select, table, alias, where) =>
      || (exists row :: row in Rows(db, table) && Eval(where, db, Bind(scope, alias, row)) == True &&
                        Yields(select, db, Bind(scope, alias, row), v))
      || (v == Null && forall row :: row in Rows(db, table) ==> Eval(where, db, Bind(scope, alias, row)) != True)
  }

  function NestedOrder(root: Collection, hops: seq<Hop>, i: nat, leaf: ScalarQuery): ScalarQuery
    requires i <= |hops|
    decreases |hops| - i
  {
    if i == |hops| then leaf
    else FirstRow(NestedOrder(root, hops, i + 1, leaf), hops[i].table, Alias(ORDER_PREFIX, i + 1),
                  JoinCondition(ORDER_PREFIX, root, hops, i))
  }

  function OrderQuery(root: Collection, path: Path): ScalarQuery {
    NestedOrder(root, path.hops, 0, Leaf(LeafColumn(ORDER_PREFIX, path)))
  }

  method RelationOrderExpr(root: Collection, relations: Option<Relations>, raw: string)
    returns (r: Result<ScalarQuery, FilterError>)
    ensures var resolved := ResolvedPath(root, relations, raw);
            r == if resolved.Ok? && resolved.value.hops != [] then Ok(OrderQuery(root, resolved.value))
                 else Err(UnknownSort)
  {
    var resolved := ResolveFilterPath(root, relations, raw);
    match resolved {
      case Err(_) => return Err(UnknownSort);
      case Ok(path) =>
        var hops := path.hops;
        if |hops| == 0 { return Err(UnknownSort); }
        var leaf := Leaf(LeafColumn(ORDER_PREFIX, path));
        var expr := leaf;
        for i := |hops| downto 0
          invariant expr == NestedOrder(root, hops, i, leaf)
        {
          expr := FirstRow(expr, hops[i].table, Alias(ORDER_PREFIX, i + 1), JoinCondition(ORDER_PREFIX, root, hops, i));
        }
        return Ok(expr);
    }
  }

  /** The values a walk may end with: it follows linked rows, any of them where there are several,
      and ends with null where there is none. */
  ghost predicate WalkEnds(root: Collection, path: Path, db: Database, i: nat, parent: Row, v: Value)
    requires i <= |path.hops|
    decreases |path.hops| - i
  {
    if i == |path.hops| then v == LeafValue(path, parent)
    else
      || (exists child :: Follows(root, path.hops, db, i, parent, child) && WalkEnds(root, path, db, i + 1, child, v))
      || (v == Null && forall child :: !Follows(root, path.hops, db, i, parent, child))
  }

  lemma {:induction false} OrderMeansWalk(root: Collection, path: Path, db: Database, i: nat, scope: Scope, parent: Row,
                                          v: Value)
    requires 1 <= |path.hops| && i <= |path.hops|
    requires ParentAlias(ORDER_PREFIX, i) in scope && scope[ParentAlias(ORDER_PREFIX, i)] == parent
    ensures Yields(NestedOrder(root, path.hops, i, Leaf(LeafColumn(ORDER_PREFIX, path))), db, scope, v) <==>
            WalkEnds(root, path, db, i, parent, v)
    decreases |path.hops| - i
  {
    var hops := path.hops;
    if i < |hops| {
      var alias, where := Alias(ORDER_PREFIX, i + 1), JoinCondition(ORDER_PREFIX, root, hops, i);
      var select := NestedOrder(root, hops, i + 1, Leaf(LeafColumn(ORDER_PREFIX, path)));
      forall child
        ensures child in Rows(db, hops[i].table) && Eval(where, db, Bind(scope, alias, child)) == True <==>
                Follows(root, hops, db, i, parent, child)
        ensures Yields(select, db, Bind(scope, alias, child), v) <==> WalkEnds(root, path, db, i + 1, child, v)
      {
        JoinMeansLinked(ORDER_PREFIX, root, hops, i, db, scope, parent, child);
        OrderMeansWalk(root, path, db, i + 1, Bind(scope, alias, child), child, v);
      }
      StepMeansWalk(root, path, db, i, i + 1, scope, alias, parent, v, select, where);
    }
  }

  lemma StepMeansWalk(root: Collection, path: Path, db: Database, i: nat, next: nat, scope: Scope, alias: string,
                      parent: Row, v: Value, select: ScalarQuery, where: Cond)
    requires next == i + 1 <= |path.hops|
    requires forall child ::
               child in Rows(db, path.hops[i].table) && Eval(where, db, Bind(scope, alias, child)) == True <==>
               Follows(root, path.hops, db, i, parent, child)
    requires forall child :: Yields(select, db, Bind(scope, alias, child), v) <==>
             WalkEnds(root, path, db, next, child, v)
    ensures Yields(FirstRow(select, path.hops[i].table, alias, where), db, scope, v) <==>
            WalkEnds(root, path, db, i, parent, v)
  {
  }

  /** The sort subquery returns exactly the values a walk along the relations may end with. */
  lemma SortMeansWalk(root: Collection, path: Path, db: Database, row: Row, v: Value)
    requires |path.hops| >= 1
    ensures Yields(OrderQuery(root, path), db, map[ROOT_ALIAS := row], v) <==> WalkEnds(root, path, db, 0, row, v)
  {
    OrderMeansWalk(root, path, db, 0, map[ROOT_ALIAS := row], row, v);
  }

  function KeyOf(hop: Hop, row: Row): Value {
    Read(row, ColumnOf(hop.target, hop.target.primaryKey))
  }

  /** No two rows of a hop's table share a key. */
  ghost predicate UniqueKeys(hops: seq<Hop>, db: Database) {
    forall i, a, b :: 0 <= i < |hops| && a in Rows(db, hops[i].table) && b in Rows(db, hops[i].table) ==>
                      (KeyOf(hops[i], a) == KeyOf(hops[i], b) ==> a == b)
  }

  lemma OneChild(root: Collection, hops: seq<Hop>, db: Database, i: nat, parent: Row, a: Row, b: Row)
    requires i < |hops| && UniqueKeys(hops, db) && !hops[i].field.multiple
    requires Follows(root, hops, db, i, parent, a) && Follows(root, hops, db, i, parent, b)
    ensures a == b
  {
    assert KeyOf(hops[i], a) == KeyOf(hops[i], b);
  }

  /** A walk with one child to go to ends where the walk from that child ends. */
  lemma {:induction false} SingleWalk(root: Collection, path: Path, db: Database, i: nat, parent: Row, v: Value)
    requires i <= |path.hops| && UniqueKeys(path.hops, db)
    requires forall k :: 0 <= k < |path.hops| ==> !path.hops[k].field.multiple
    ensures forall chain :: Chain(root, path.hops, db, i, parent, chain) ==>
              (WalkEnds(root, path, db, i, parent, v) <==> v == LeafValue(path, Last(parent, chain)))
    ensures (forall chain :: !Chain(root, path.hops, db, i, parent, chain)) ==>
              (WalkEnds(root, path, db, i, parent, v) <==> v == Null)
    decreases |path.hops| - i
  {
    var hops := path.hops;
    if i == |hops| {
      assert Chain(root, hops, db, i, parent, []);
    } else if child :| Follows(root, hops, db, i, parent, child) {
      SingleWalk(root, path, db, i + 1, child, v);
      forall other | Follows(root, hops, db, i, parent, other)
        ensures other == child
      {
        OneChild(root, hops, db, i, parent, child, other);
      }
      assert WalkEnds(root, path, db, i, parent, v) <==> WalkEnds(root, path, db, i + 1, child, v);
      ChainsGoThrough(root, hops, db, i, i + 1, parent, child);
    }
  }

  /** When a row has one child, its chains are those of the child with the child put first. */
  lemma ChainsGoThrough(root: Collection, hops: seq<Hop>, db: Database, i: nat, next: nat, parent: Row, child: Row)
    requires i < |hops| && next == i + 1 && Follows(root, hops, db, i, parent, child)
    requires forall other :: Follows(root, hops, db, i, parent, other) ==> other == child
    ensures forall chain :: Chain(root, hops, db, i, parent, chain) ==>
              Chain(root, hops, db, next, child, chain[1..]) && Last(parent, chain) == Last(child, chain[1..])
    ensures (exists rest :: Chain(root, hops, db, next, child, rest)) ==>
            exists chain :: Chain(root, hops, db, i, parent, chain)
  {
    forall chain | Chain(root, hops, db, i, parent, chain)
      ensures Chain(root, hops, db, next, child, chain[1..]) && Last(parent, chain) == Last(child, chain[1..])
    {
    }
    if rest :| Chain(root, hops, db, next, child, rest) {
      assert ([child] + rest)[1..] == rest;
      assert Chain(root, hops, db, i, parent, [child] + rest);
    }
  }

  /** Along single-valued relations with unique keys the sort subquery has one value: the leaf at the end of
      the chain of related rows, or null when the chain breaks. */
  lemma SortKeyIsChainEnd(root: Collection, path: Path, db: Database, row: Row, v: Value)
    requires |path.hops| >= 1 && UniqueKeys(path.hops, db)
    requires forall k :: 0 <= k < |path.hops| ==> !path.hops[k].field.multiple
    ensures forall chain :: Chain(root, path.hops, db, 0, row, chain) ==>
              (Yields(OrderQuery(root, path), db, map[ROOT_ALIAS := row], v) <==>
               v == LeafValue(path, Last(row, chain)))
    ensures (forall chain :: !Chain(root, path.hops, db, 0, row, chain)) ==>
              (Yields(OrderQuery(root, path), db, map[ROOT_ALIAS := row], v) <==> v == Null)
  {
    SortMeansWalk(root, path, db, row, v);
    SingleWalk(root, path, db, 0, row, v);
  }
}
