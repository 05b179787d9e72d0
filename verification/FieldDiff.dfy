/** Column diffing: a collection's stored fields are compared with the wanted ones and the difference is applied to its
    table, one column statement at a time, inside a transaction that is rolled back on any error. */
module FieldDiff {
  import opened Text

  /** What a column holds: data from before, nothing yet, or the values of a computed expression. */
  datatype Column = Data(rows: seq<string>) | Blank | Computed(expression: string)

  type Table = map<string, Column>

  /** `ddl` is None where no column definition can be built; `computed` is "" for a plain field. */
  datatype Field =
    Field(name: string, oldName: string, ddl: Option<string>, computed: string, generated: bool, adopt: bool)

  datatype Statement = Rename(from: string, name: string) | Drop(name: string) | Add(name: string)

  /** What the model leaves open: valid identifiers, columns fit for adoption, and statements the database refuses for
      its own reasons. */
  datatype Env = Env(valid: string -> bool, adoptable: string -> bool, refused: Statement -> bool)

  datatype DiffError = Invalid | Destructive | Rejected

  // ---------- Statements ----------

  function Lookup(t: Table, name: string): Option<Column> {
    if name in t then Some(t[name]) else None
  }

  function Execute(t: Table, s: Statement, column: Column, env: Env): Option<Table> {
    if env.refused(s) then None
    else match s
      case Rename(from, name) => if from in t && name !in t then Some((t - {from})[name := t[from]]) else None
      case Drop(name) => if name in t then Some(t - {name}) else None
      case Add(name) => if name !in t then Some(t[name := column]) else None
  }

  // ---------- The diff as a function ----------

  /** The field a name stands for; the last one wins. */
  function FieldNamed(fields: seq<Field>, name: string): (r: Option<Field>)
    ensures r.Some? ==> r.value in fields && r.value.name == name
    ensures r.None? ==> forall f :: f in fields ==> f.name != name
  {
    if fields == [] then None
    else
      var last := |fields| - 1;
      if fields[last].name == name then Some(fields[last]) else FieldNamed(fields[..last], name)
  }

  predicate Renames(f: Field) {
    NormalizeIdentifier(f.oldName) != "" && NormalizeIdentifier(f.oldName) != f.name
  }

  function OldName(f: Field): string {
    NormalizeIdentifier(f.oldName)
  }

  datatype Progress = Progress(table: Table, used: set<string>)

  function RenameField(p: Progress, f: Field, current: seq<Field>, env: Env): Result<Progress, DiffError> {
    var from := OldName(f);
    if !env.valid(from) || FieldNamed(current, from).None? || FieldNamed(current, f.name).Some? || from in p.used then
      Err(Invalid)
    else match Execute(p.table, Rename(from, f.name), Blank, env)
      case None => Err(Rejected)
      case Some(t) => Ok(Progress(t, p.used + {from}))
  }

  function KeepField(p: Progress, existing: Field, f: Field, dropMissing: bool, env: Env): Result<Progress, DiffError> {
    if existing.ddl.None? || f.ddl.None? then Err(Invalid)
    else if existing.ddl != f.ddl then Err(Destructive)
    else if existing.computed == f.computed then Ok(p)
    else if !dropMissing then Err(Destructive)
    else if !f.generated then Err(Invalid)
    else match Execute(p.table, Drop(f.name), Blank, env)
      case None => Err(Rejected)
      case Some(t) =>
        match Execute(t, Add(f.name), Rebuilt(f), env)
        case None => Err(Rejected)
        case Some(t') => Ok(Progress(t', p.used))
  }

  function Rebuilt(f: Field): Column {
    if f.computed == "" then Blank else Computed(f.computed)
  }

  function NewField(p: Progress, f: Field, env: Env): Result<Progress, DiffError> {
    if f.adopt then
      if f.name in p.table && env.adoptable(f.name) then Ok(p) else Err(Invalid)
    else if f.ddl.None? then Err(Invalid)
    else match Execute(p.table, Add(f.name), Blank, env)
      case None => Err(Rejected)
      case Some(t) => Ok(Progress(t, p.used))
  }

  function ApplyField(p: Progress, f: Field, current: seq<Field>, dropMissing: bool,
                      env: Env): Result<Progress, DiffError> {
    if Renames(f) then RenameField(p, f, current, env)
    else match FieldNamed(current, f.name)
      case Some(existing) => KeepField(p, existing, f, dropMissing, env)
      case None => NewField(p, f, env)
  }

  function ApplyFields(t: Table, current: seq<Field>, next: seq<Field>, dropMissing: bool,
                       env: Env): Result<Progress, DiffError> {
    if next == [] then Ok(Progress(t, {}))
    else
      var last := |next| - 1;
      match ApplyFields(t, current, next[..last], dropMissing, env)
      case Err(e) => Err(e)
      case Ok(p) => ApplyField(p, next[last], current, dropMissing, env)
  }

  function DropField(t: Table, used: set<string>, f: Field, next: seq<Field>, dropMissing: bool,
                     env: Env): Result<Table, DiffError> {
    if FieldNamed(next, f.name).Some? || f.name in used then Ok(t)
    else if !dropMissing then Err(Destructive)
    else match Execute(t, Drop(f.name), Blank, env)
      case None => Err(Rejected)
      case Some(t') => Ok(t')
  }

  function DropFields(t: Table, used: set<string>, current: seq<Field>, next: seq<Field>, dropMissing: bool,
                      env: Env): Result<Table, DiffError> {
    if current == [] then Ok(t)
    else
      var last := |current| - 1;
      match DropFields(t, used, current[..last], next, dropMissing, env)
      case Err(e) => Err(e)
      case Ok(t') => DropField(t', used, current[last], next, dropMissing, env)
  }

  function Diff(t: Table, current: seq<Field>, next: seq<Field>, dropMissing: bool,
                env: Env): Result<Table, DiffError> {
    match ApplyFields(t, current, next, dropMissing, env)
    case Err(e) => Err(e)
    case Ok(p) => DropFields(p.table, p.used, current, next, dropMissing, env)
  }

  // ---------- The diff as it runs ----------

  class ManagedTable {
    var columns: Table

    constructor (columns: Table)
      ensures this.columns == columns
    {
      this.columns := columns;
    }

    method Exec(s: Statement, column: Column, env: Env) returns (ok: bool)
      modifies this
      ensures ok <==> Execute(old(columns), s, column, env).Some?
      ensures columns == if ok then Execute(old(columns), s, column, env).value else old(columns)
    {
      if env.refused(s) { return false; }
      match s {
        case Rename(from, name) =>
          if from !in columns || name in columns { return false; }
          columns := (columns - {from})[name := columns[from]];
        case Drop(name) =>
          if name !in columns { return false; }
          columns := columns - {name};
        case Add(name) =>
          if name in columns { return false; }
          columns := columns[name := column];
      }
      return true;
    }

    /** One wanted field: rename, keep, rebuild, adopt or add its column. */
    method ApplyOne(f: Field, current: seq<Field>, dropMissing: bool, env: Env, usedOldNames: set<string>)
      returns (error: Option<DiffError>, used: set<string>)
      modifies this
      ensures match ApplyField(Progress(old(columns), usedOldNames), f, current, dropMissing, env)
        case Ok(p) => error == None && columns == p.table && used == p.used
        case Err(e) => error == Some(e)
    {
      used := usedOldNames;
      var oldName := NormalizeIdentifier(f.oldName);
      var ok;
      if oldName != "" && oldName != f.name {
        if !env.valid(oldName) { return Some(Invalid), used; }
        if FieldNamed(current, oldName).None? { return Some(Invalid), used; }
        if FieldNamed(current, f.name).Some? { return Some(Invalid), used; }
        if oldName in used { return Some(Invalid), used; }
        used := used + {oldName};
        ok := Exec(Rename(oldName, f.name), Blank, env);
        return if ok then None else Some(Rejected), used;
      }
      var existing := FieldNamed(current, f.name);
      if existing.Some? {
        if existing.value.ddl.None? || f.ddl.None? { return Some(Invalid), used; }
        if existing.value.ddl != f.ddl { return Some(Destructive), used; }
        if existing.value.computed == f.computed { return None, used; }
        if !dropMissing { return Some(Destructive), used; }
        if !f.generated { return Some(Invalid), used; }
        ok := Exec(Drop(f.name), Blank, env);
        if !ok { return Some(Rejected), used; }
        ok := Exec(Add(f.name), Rebuilt(f), env);
        return if ok then None else Some(Rejected), used;
      }
      if f.adopt {
        return if f.name in columns && env.adoptable(f.name) then None else Some(Invalid), used;
      }
      if f.ddl.None? { return Some(Invalid), used; }
      ok := Exec(Add(f.name), Blank, env);
      return if ok then None else Some(Rejected), used;
    }

    /** The wanted fields' turn. */
    method ApplyWanted(current: seq<Field>, next: seq<Field>, dropMissing: bool, env: Env)
      returns (error: Option<DiffError>, usedOldNames: set<string>)
      modifies this
      ensures match ApplyFields(old(columns), current, next, dropMissing, env)
        case Ok(p) => error == None && columns == p.table && usedOldNames == p.used
        case Err(e) => error == Some(e)
    {
      error, usedOldNames := None, {};
      ghost var was := columns;
      for i := 0 to |next|
        invariant error == None
        invariant ApplyFields(was, current, next[..i], dropMissing, env) == Ok(Progress(columns, usedOldNames))
      {
        assert next[..i + 1][..i] == next[..i];
        error, usedOldNames := ApplyOne(next[i], current, dropMissing, env, usedOldNames);
        if error.Some? {
          ErrorsStay(was, current, next, dropMissing, env, i + 1);
          return;
        }
      }
      assert next[..|next|] == next;
    }

    /** The stored fields' turn: those no one wants or renamed are dropped. */
    method DropUnwanted(current: seq<Field>, next: seq<Field>, dropMissing: bool, env: Env, usedOldNames: set<string>)
      returns (error: Option<DiffError>)
      modifies this
      ensures match DropFields(old(columns), usedOldNames, current, next, dropMissing, env)
        case Ok(t) => error == None && columns == t
        case Err(e) => error == Some(e)
    {
      ghost var applied := columns;
      for i := 0 to |current|
        invariant DropFields(applied, usedOldNames, current[..i], next, dropMissing, env) == Ok(columns)
      {
        assert current[..i + 1][..i] == current[..i];
        if FieldNamed(next, current[i].name).None? && current[i].name !in usedOldNames {
          if !dropMissing {
            DropErrorsStay(applied, usedOldNames, current, next, dropMissing, env, i + 1);
            return Some(Destructive);
          }
          var ok := Exec(Drop(current[i].name), Blank, env);
          if !ok {
            DropErrorsStay(applied, usedOldNames, current, next, dropMissing, env, i + 1);
            return Some(Rejected);
          }
        }
      }
      assert current[..|current|] == current;
      return None;
    }

    method ApplyFieldDiff(current: seq<Field>, next: seq<Field>, dropMissing: bool, env: Env)
      returns (error: Option<DiffError>)
      modifies this
      ensures match Diff(old(columns), current, next, dropMissing, env)
        case Ok(t) => error == None && columns == t
        case Err(e) => error == Some(e)
    {
      var usedOldNames;
      error, usedOldNames := ApplyWanted(current, next, dropMissing, env);
      if error.None? { error := DropUnwanted(current, next, dropMissing, env, usedOldNames); }
    }
  }

  lemma {:induction false} ErrorsStay(t: Table, current: seq<Field>, next: seq<Field>, dropMissing: bool, env: Env,
                                      n: nat)
    requires n <= |next| && ApplyFields(t, current, next[..n], dropMissing, env).Err?
    ensures ApplyFields(t, current, next, dropMissing, env) == ApplyFields(t, current, next[..n], dropMissing, env)
    decreases |next|
  {
    if n == |next| {
      assert next[..n] == next;
    } else {
      assert next[..|next| - 1][..n] == next[..n];
      ErrorsStay(t, current, next[..|next| - 1], dropMissing, env, n);
    }
  }

  lemma {:induction false} DropErrorsStay(t: Table, used: set<string>, current: seq<Field>, next: seq<Field>,
                                          dropMissing: bool, env: Env, n: nat)
    requires n <= |current| && DropFields(t, used, current[..n], next, dropMissing, env).Err?
    ensures DropFields(t, used, current, next, dropMissing, env) ==
            DropFields(t, used, current[..n], next, dropMissing, env)
    decreases |current|
  {
    if n == |current| {
      assert current[..n] == current;
    } else {
      assert current[..|current| - 1][..n] == current[..n];
      DropErrorsStay(t, used, current[..|current| - 1], next, dropMissing, env, n);
    }
  }

  // ---------- What a successful diff leaves ----------

  predicate Unique(fields: seq<Field>) {
    forall i, j :: 0 <= i < j < |fields| ==> fields[i].name != fields[j].name
  }

  function NamesIn(fields: seq<Field>): set<string> {
    set f | f in fields :: f.name
  }

  /** Some wanted field keeps or reuses a name another one renames from. */
  predicate Clash(next: seq<Field>) {
    exists f, g :: f in next && g in next && Renames(g) && OldName(g) == f.name
  }

  /** Every stored field has its column. */
  predicate InSync(t: Table, current: seq<Field>) {
    NamesIn(current) <= t.Keys
  }

  function RenamedFrom(next: seq<Field>): set<string> {
    set f | f in next && Renames(f) :: OldName(f)
  }

  /** The column a wanted field ends with, told from the table as it was. */
  function Outcome(was: Table, current: seq<Field>, f: Field): Option<Column> {
    if Renames(f) then Lookup(was, OldName(f))
    else match FieldNamed(current, f.name)
      case Some(existing) => if existing.computed == f.computed then Lookup(was, f.name) else Some(Rebuilt(f))
      case None => if f.adopt then Lookup(was, f.name) else Some(Blank)
  }

  function AfterFields(was: Table, current: seq<Field>, next: seq<Field>, name: string): Option<Column> {
    match FieldNamed(next, name)
    case Some(f) => Outcome(was, current, f)
    case None => if name in RenamedFrom(next) then None else Lookup(was, name)
  }

  /** A renamed column came from a stored field; a renamed or added name was free; an adopted one was there. */
  predicate Fitted(was: Table, current: seq<Field>, f: Field) {
    if Renames(f) then OldName(f) in was && OldName(f) in NamesIn(current) && f.name !in was
    else FieldNamed(current, f.name).None? ==> (f.adopt <==> f.name in was)
  }

  ghost predicate Matches(p: Progress, was: Table, current: seq<Field>, next: seq<Field>) {
    && p.used == RenamedFrom(next)
    && (forall name :: Lookup(p.table, name) == AfterFields(was, current, next, name))
    && (forall f :: f in next ==> Fitted(was, current, f))
  }

  lemma OneMoreField(next: seq<Field>, f: Field, name: string)
    ensures FieldNamed(next + [f], name) == if f.name == name then Some(f) else FieldNamed(next, name)
    ensures RenamedFrom(next + [f]) == RenamedFrom(next) + (if Renames(f) then {OldName(f)} else {})
  {
    assert (next + [f])[..|next|] == next;
  }

  /** Before its turn, the names a field depends on are as they were. */
  lemma UntouchedSoFar(p: Progress, was: Table, current: seq<Field>, next: seq<Field>, f: Field)
    requires Matches(p, was, current, next) && Unique(next + [f]) && !Clash(next + [f])
    ensures Lookup(p.table, f.name) == Lookup(was, f.name)
    ensures Renames(f) && OldName(f) !in p.used ==> Lookup(p.table, OldName(f)) == Lookup(was, OldName(f))
  {
    var all := next + [f];
    assert f in all && forall g :: g in next ==> g in all;
    assert f.name !in RenamedFrom(next);
    if FieldNamed(next, f.name).Some? {
      NameTakenTwice(next, f, FieldNamed(next, f.name).value);
    }
    assert Lookup(p.table, f.name) == AfterFields(was, current, next, f.name);
    if Renames(f) {
      var from := OldName(f);
      assert FieldNamed(next, from).None?;
      assert Lookup(p.table, from) == AfterFields(was, current, next, from);
    }
  }

  lemma NameTakenTwice(next: seq<Field>, f: Field, g: Field)
    requires g in next && g.name == f.name
    ensures !Unique(next + [f])
  {
    var i :| 0 <= i < |next| && next[i] == g;
    var all := next + [f];
    assert all[i] == g && all[|next|] == f;
  }

  lemma RenamedAway(p: Progress, was: Table, current: seq<Field>, next: seq<Field>, f: Field)
    requires Matches(p, was, current, next) && !Clash(next + [f]) && Renames(f)
    ensures AfterFields(was, current, next + [f], OldName(f)) == None
  {
    assert f in next + [f] && forall g :: g in next ==> g in next + [f];
    OneMoreField(next, f, OldName(f));
    assert FieldNamed(next, OldName(f)).None?;
  }

  /** The rename moves one column and leaves the rest. */
  lemma RenameMoves(p: Progress, was: Table, current: seq<Field>, next: seq<Field>, f: Field, name: string)
    requires Matches(p, was, current, next) && Unique(next + [f]) && !Clash(next + [f])
    requires Renames(f) && OldName(f) in p.table && OldName(f) !in p.used
    ensures Lookup((p.table - {OldName(f)})[f.name := p.table[OldName(f)]], name) ==
            AfterFields(was, current, next + [f], name)
  {
    UntouchedSoFar(p, was, current, next, f);
    RenamedAway(p, was, current, next, f);
    OneMoreField(next, f, name);
    assert Lookup(p.table, name) == AfterFields(was, current, next, name);
  }

  lemma RenameMatches(p: Progress, was: Table, current: seq<Field>, next: seq<Field>, f: Field, env: Env)
    requires Matches(p, was, current, next) && Unique(next + [f]) && !Clash(next + [f])
    requires Renames(f) && RenameField(p, f, current, env).Ok?
    ensures Matches(RenameField(p, f, current, env).value, was, current, next + [f])
  {
    var p', from := RenameField(p, f, current, env).value, OldName(f);
    assert p'.table == (p.table - {from})[f.name := p.table[from]];
    forall name ensures Lookup(p'.table, name) == AfterFields(was, current, next + [f], name) {
      RenameMoves(p, was, current, next, f, name);
    }
    UntouchedSoFar(p, was, current, next, f);
    OneMoreField(next, f, from);
    assert FieldNamed(current, from).Some? && FieldNamed(current, from).value in current;
  }

  lemma KeptMatches(p: Progress, was: Table, current: seq<Field>, next: seq<Field>, f: Field)
    requires Matches(p, was, current, next) && Unique(next + [f]) && !Clash(next + [f])
    requires !Renames(f) && FieldNamed(current, f.name).Some? &&
             FieldNamed(current, f.name).value.computed == f.computed
    ensures Matches(p, was, current, next + [f])
  {
    UntouchedSoFar(p, was, current, next, f);
    forall name ensures Lookup(p.table, name) == AfterFields(was, current, next + [f], name) {
      OneMoreField(next, f, name);
      assert Lookup(p.table, name) == AfterFields(was, current, next, name);
    }
    OneMoreField(next, f, f.name);
  }

  lemma RebuiltMatches(p: Progress, was: Table, current: seq<Field>, next: seq<Field>, f: Field)
    requires Matches(p, was, current, next)
    requires !Renames(f) && FieldNamed(current, f.name).Some? &&
             FieldNamed(current, f.name).value.computed != f.computed
    ensures Matches(Progress(p.table[f.name := Rebuilt(f)], p.used), was, current, next + [f])
  {
    var t := p.table[f.name := Rebuilt(f)];
    forall name ensures Lookup(t, name) == AfterFields(was, current, next + [f], name) {
      OneMoreField(next, f, name);
      assert Lookup(p.table, name) == AfterFields(was, current, next, name);
    }
    OneMoreField(next, f, f.name);
  }

  lemma KeepMatches(p: Progress, was: Table, current: seq<Field>, next: seq<Field>, f: Field, dropMissing: bool,
                    env: Env)
    requires Matches(p, was, current, next) && Unique(next + [f]) && !Clash(next + [f])
    requires !Renames(f) && FieldNamed(current, f.name).Some?
    requires KeepField(p, FieldNamed(current, f.name).value, f, dropMissing, env).Ok?
    ensures Matches(KeepField(p, FieldNamed(current, f.name).value, f, dropMissing, env).value,
                    was, current, next + [f])
  {
    if FieldNamed(current, f.name).value.computed == f.computed {
      KeptMatches(p, was, current, next, f);
    } else {
      RebuiltMatches(p, was, current, next, f);
      RebuildReplaces(p, FieldNamed(current, f.name).value, f, dropMissing, env);
    }
  }

  lemma RebuildReplaces(p: Progress, existing: Field, f: Field, dropMissing: bool, env: Env)
    requires KeepField(p, existing, f, dropMissing, env).Ok? && existing.computed != f.computed
    ensures KeepField(p, existing, f, dropMissing, env).value == Progress(p.table[f.name := Rebuilt(f)], p.used)
  {
    assert (p.table - {f.name})[f.name := Rebuilt(f)] == p.table[f.name := Rebuilt(f)];
  }

  lemma NewMatches(p: Progress, was: Table, current: seq<Field>, next: seq<Field>, f: Field, env: Env)
    requires Matches(p, was, current, next) && Unique(next + [f]) && !Clash(next + [f])
    requires !Renames(f) && FieldNamed(current, f.name).None? && NewField(p, f, env).Ok?
    ensures Matches(NewField(p, f, env).value, was, current, next + [f])
  {
    var p' := NewField(p, f, env).value;
    UntouchedSoFar(p, was, current, next, f);
    forall name ensures Lookup(p'.table, name) == AfterFields(was, current, next + [f], name) {
      OneMoreField(next, f, name);
      assert Lookup(p.table, name) == AfterFields(was, current, next, name);
    }
    OneMoreField(next, f, f.name);
  }

  /** After the wanted fields' turn every column is told by the wanted field of its name, if no names clash. */
  lemma {:induction false} FieldsMatch(was: Table, current: seq<Field>, next: seq<Field>, dropMissing: bool, env: Env)
    requires ApplyFields(was, current, next, dropMissing, env).Ok? && Unique(next) && !Clash(next)
    ensures Matches(ApplyFields(was, current, next, dropMissing, env).value, was, current, next)
  {
    if next != [] {
      var last := |next| - 1;
      var front, f := next[..last], next[last];
      assert next == front + [f] && forall g :: g in front ==> g in next;
      FieldsMatch(was, current, front, dropMissing, env);
      var p := ApplyFields(was, current, front, dropMissing, env).value;
      if Renames(f) {
        RenameMatches(p, was, current, front, f, env);
      } else if FieldNamed(current, f.name).Some? {
        KeepMatches(p, was, current, front, f, dropMissing, env);
      } else {
        NewMatches(p, was, current, front, f, env);
      }
    }
  }

  /** A name is dropped when a stored field bore it, no wanted field does, and nothing was renamed from it. */
  predicate Dropped(current: seq<Field>, next: seq<Field>, used: set<string>, name: string) {
    name in NamesIn(current) && FieldNamed(next, name).None? && name !in used
  }

  lemma DropTakesOne(t: Table, used: set<string>, f: Field, next: seq<Field>, dropMissing: bool, env: Env, name: string)
    requires DropField(t, used, f, next, dropMissing, env).Ok?
    ensures Lookup(DropField(t, used, f, next, dropMissing, env).value, name) ==
            if name == f.name && FieldNamed(next, name).None? && name !in used then None else Lookup(t, name)
    ensures !dropMissing ==> DropField(t, used, f, next, dropMissing, env).value == t
  {
  }

  lemma {:induction false} DropsMatch(t: Table, used: set<string>, current: seq<Field>, next: seq<Field>,
                                      dropMissing: bool, env: Env)
    requires DropFields(t, used, current, next, dropMissing, env).Ok?
    ensures var t' := DropFields(t, used, current, next, dropMissing, env).value;
      forall name :: Lookup(t', name) == if Dropped(current, next, used, name) then None else Lookup(t, name)
    ensures !dropMissing ==> DropFields(t, used, current, next, dropMissing, env).value == t
  {
    if current != [] {
      var last := |current| - 1;
      var front, f := current[..last], current[last];
      assert current == front + [f];
      DropsMatch(t, used, front, next, dropMissing, env);
      assert NamesIn(current) == NamesIn(front) + {f.name};
      var before := DropFields(t, used, front, next, dropMissing, env).value;
      forall name
        ensures Lookup(DropFields(t, used, current, next, dropMissing, env).value, name) ==
                if Dropped(current, next, used, name) then None else Lookup(t, name)
      {
        DropTakesOne(before, used, f, next, dropMissing, env, name);
        assert Lookup(before, name) == if Dropped(front, next, used, name) then None else Lookup(t, name);
      }
    }
  }

  /** The column a name ends with, told from the table as it was. */
  function Final(was: Table, current: seq<Field>, next: seq<Field>, name: string): Option<Column> {
    match FieldNamed(next, name)
    case Some(f) => Outcome(was, current, f)
    case None => if name in RenamedFrom(next) || name in NamesIn(current) then None else Lookup(was, name)
  }

  /** Without a clash, a successful diff leaves under every name exactly the column told by the wanted field of that
      name. */
  lemma DiffLeaves(was: Table, current: seq<Field>, next: seq<Field>, dropMissing: bool, env: Env)
    requires Diff(was, current, next, dropMissing, env).Ok? && Unique(next) && !Clash(next)
    ensures var t := Diff(was, current, next, dropMissing, env).value;
      forall name :: Lookup(t, name) == Final(was, current, next, name)
    ensures forall f :: f in next ==> Fitted(was, current, f)
  {
    FieldsMatch(was, current, next, dropMissing, env);
    var p := ApplyFields(was, current, next, dropMissing, env).value;
    DropsMatch(p.table, p.used, current, next, dropMissing, env);
    var t := Diff(was, current, next, dropMissing, env).value;
    forall name ensures Lookup(t, name) == Final(was, current, next, name) {
      assert Lookup(p.table, name) == AfterFields(was, current, next, name);
    }
  }

  /** Stored columns end up as exactly the wanted ones, and columns the collection does not manage stay. */
  lemma ColumnsAreTheWantedOnes(was: Table, current: seq<Field>, next: seq<Field>, dropMissing: bool, env: Env)
    requires Diff(was, current, next, dropMissing, env).Ok? && Unique(next) && !Clash(next) && InSync(was, current)
    ensures Diff(was, current, next, dropMissing, env).value.Keys == NamesIn(next) + (was.Keys - NamesIn(current))
  {
    DiffLeaves(was, current, next, dropMissing, env);
    var t := Diff(was, current, next, dropMissing, env).value;
    forall name ensures name in t <==> name in NamesIn(next) || (name in was && name !in NamesIn(current)) {
      assert Lookup(t, name) == Final(was, current, next, name);
      var found := FieldNamed(next, name);
      if found.Some? {
        assert Fitted(was, current, found.value);
        assert FieldNamed(current, name).Some? ==> FieldNamed(current, name).value in current;
      } else if name in RenamedFrom(next) {
        var g :| g in next && Renames(g) && OldName(g) == name;
        assert Fitted(was, current, g);
      }
    }
  }

  /** Renamed and kept columns hold their data; columns outside the collection are untouched. */
  lemma DataIsKept(was: Table, current: seq<Field>, next: seq<Field>, dropMissing: bool, env: Env, f: Field)
    requires Diff(was, current, next, dropMissing, env).Ok? && Unique(next) && !Clash(next) && InSync(was, current)
    ensures var t := Diff(was, current, next, dropMissing, env).value;
      && (f in next && Renames(f) ==> f.name in t && OldName(f) in was && t[f.name] == was[OldName(f)])
      && (f in next && !Renames(f) && FieldNamed(current, f.name).Some? &&
          FieldNamed(current, f.name).value.computed == f.computed ==>
            f.name in t && f.name in was && t[f.name] == was[f.name])
      && (forall name :: name in was && name !in NamesIn(current) ==> name in t && t[name] == was[name])
  {
    DiffLeaves(was, current, next, dropMissing, env);
    var t := Diff(was, current, next, dropMissing, env).value;
    if f in next {
      OnlyOneBears(next, f);
      assert Lookup(t, f.name) == Final(was, current, next, f.name);
      assert Fitted(was, current, f);
      assert FieldNamed(current, f.name).Some? ==> FieldNamed(current, f.name).value in current;
    }
    forall name | name in was && name !in NamesIn(current) ensures name in t && t[name] == was[name] {
      UnmanagedStays(was, current, next, t, name);
    }
  }

  /** A column rebuilt out of a computed expression comes back empty: its computed values are not kept. */
  lemma PlainRebuildLosesValues(was: Table, current: seq<Field>, next: seq<Field>, dropMissing: bool, env: Env,
                                f: Field)
    requires Diff(was, current, next, dropMissing, env).Ok? && Unique(next) && !Clash(next)
    requires f in next && !Renames(f) && f.computed == ""
    requires FieldNamed(current, f.name).Some? && FieldNamed(current, f.name).value.computed != ""
    ensures Lookup(Diff(was, current, next, dropMissing, env).value, f.name) == Some(Blank)
  {
    DiffLeaves(was, current, next, dropMissing, env);
    OnlyOneBears(next, f);
    assert Lookup(Diff(was, current, next, dropMissing, env).value, f.name) == Final(was, current, next, f.name);
  }

  lemma OnlyOneBears(next: seq<Field>, f: Field)
    requires Unique(next) && f in next
    ensures FieldNamed(next, f.name) == Some(f)
  {
    var g := FieldNamed(next, f.name).value;
    var i :| 0 <= i < |next| && next[i] == f;
    var j :| 0 <= j < |next| && next[j] == g;
  }

  lemma UnmanagedStays(was: Table, current: seq<Field>, next: seq<Field>, t: Table, name: string)
    requires forall name :: Lookup(t, name) == Final(was, current, next, name)
    requires forall f :: f in next ==> Fitted(was, current, f)
    requires name in was && name !in NamesIn(current)
    ensures name in t && t[name] == was[name]
  {
    assert Lookup(t, name) == Final(was, current, next, name);
    assert FieldNamed(current, name).None?;
    assert forall g :: g in next && Renames(g) ==> Fitted(was, current, g) && OldName(g) != name;
    assert FieldNamed(next, name).Some? ==> Fitted(was, current, FieldNamed(next, name).value);
  }

  // ---------- When a diff goes through ----------

  /** What one wanted field needs: of the stored fields, of the table, and of the caller's leave to rebuild. */
  predicate Permitted(was: Table, current: seq<Field>, f: Field, dropMissing: bool, env: Env) {
    if Renames(f) then
      && env.valid(OldName(f)) && OldName(f) in NamesIn(current) && f.name !in NamesIn(current)
      && OldName(f) in was && f.name !in was && !env.refused(Rename(OldName(f), f.name))
    else if f.name in NamesIn(current) then
      && f.ddl.Some? && (forall e :: e in current && e.name == f.name ==> Keeps(was, e, f, dropMissing, env))
    else if f.adopt then f.name in was && env.adoptable(f.name)
    else f.ddl.Some? && f.name !in was && !env.refused(Add(f.name))
  }

  /** A kept column's definition is the same; another expression takes leave to drop, and a rebuild that goes
      through. */
  predicate Keeps(was: Table, e: Field, f: Field, dropMissing: bool, env: Env) {
    && e.ddl == f.ddl
    && (e.computed != f.computed ==>
          dropMissing && f.generated && f.name in was &&
          !env.refused(Drop(f.name)) && !env.refused(Add(f.name)))
  }

  predicate OldNamesDiffer(next: seq<Field>) {
    forall i, j :: 0 <= i < j < |next| && Renames(next[i]) && Renames(next[j]) ==> OldName(next[i]) != OldName(next[j])
  }

  /** A stored field is wanted, renamed from, or may be dropped. */
  predicate MayGo(was: Table, e: Field, next: seq<Field>, dropMissing: bool, env: Env) {
    e.name in NamesIn(next) || e.name in RenamedFrom(next) ||
    (dropMissing && e.name in was && !env.refused(Drop(e.name)))
  }

  lemma OnlyNamedSo(current: seq<Field>, f: Field)
    requires Unique(current)
    ensures FieldNamed(current, f.name).Some? <==> f.name in NamesIn(current)
    ensures forall e :: e in current && e.name == f.name ==> FieldNamed(current, f.name) == Some(e)
  {
    forall e | e in current && e.name == f.name ensures FieldNamed(current, f.name) == Some(e) {
      OnlyOneBears(current, e);
    }
  }

  lemma FieldGoes(p: Progress, was: Table, current: seq<Field>, front: seq<Field>, f: Field, dropMissing: bool,
                  env: Env)
    requires Matches(p, was, current, front) && Unique(front + [f]) && !Clash(front + [f]) && Unique(current)
    ensures ApplyField(p, f, current, dropMissing, env).Ok? <==>
            Permitted(was, current, f, dropMissing, env) && (Renames(f) ==> OldName(f) !in RenamedFrom(front))
  {
    UntouchedSoFar(p, was, current, front, f);
    OnlyNamedSo(current, f);
    if Renames(f) { OnlyNamedSo(current, f.(name := OldName(f))); }
  }

  lemma OneMoreOldName(front: seq<Field>, f: Field)
    ensures OldNamesDiffer(front + [f]) <==>
            OldNamesDiffer(front) && (Renames(f) ==> OldName(f) !in RenamedFrom(front))
  {
    var next := front + [f];
    if Renames(f) && OldName(f) in RenamedFrom(front) {
      var g :| g in front && Renames(g) && OldName(g) == OldName(f);
      var i :| 0 <= i < |front| && front[i] == g;
      assert next[i] == g && next[|front|] == f;
    }
    if OldNamesDiffer(next) {
      forall i, j | 0 <= i < j < |front| && Renames(front[i]) && Renames(front[j])
        ensures OldName(front[i]) != OldName(front[j])
      {
        assert next[i] == front[i] && next[j] == front[j];
      }
    }
  }

  lemma {:induction false} FieldsGo(was: Table, current: seq<Field>, next: seq<Field>, dropMissing: bool, env: Env)
    requires Unique(next) && !Clash(next) && Unique(current)
    ensures ApplyFields(was, current, next, dropMissing, env).Ok? <==>
            (forall f :: f in next ==> Permitted(was, current, f, dropMissing, env)) && OldNamesDiffer(next)
  {
    if next != [] {
      var front, f := next[..|next| - 1], next[|next| - 1];
      assert next == front + [f] && forall g :: g in front ==> g in next;
      FieldsGo(was, current, front, dropMissing, env);
      OneMoreOldName(front, f);
      if ApplyFields(was, current, front, dropMissing, env).Ok? {
        FieldsMatch(was, current, front, dropMissing, env);
        FieldGoes(ApplyFields(was, current, front, dropMissing, env).value, was, current, front, f, dropMissing, env);
      }
    }
  }

  lemma {:induction false} DropsGo(t: Table, used: set<string>, current: seq<Field>, next: seq<Field>,
                                   dropMissing: bool, env: Env)
    requires Unique(current)
    ensures DropFields(t, used, current, next, dropMissing, env).Ok? <==>
            forall e :: e in current && e.name !in NamesIn(next) && e.name !in used ==>
              dropMissing && e.name in t && !env.refused(Drop(e.name))
  {
    if current != [] {
      var front, e := current[..|current| - 1], current[|current| - 1];
      assert current == front + [e];
      DropsGo(t, used, front, next, dropMissing, env);
      assert FieldNamed(next, e.name).Some? <==> e.name in NamesIn(next);
      if DropFields(t, used, front, next, dropMissing, env).Ok? {
        DropsMatch(t, used, front, next, dropMissing, env);
        var left := DropFields(t, used, front, next, dropMissing, env).value;
        assert e.name !in NamesIn(front);
        assert Lookup(left, e.name) == Lookup(t, e.name);
      }
    }
  }

  /** Without a clash a diff goes through exactly when every wanted field is permitted, no two rename from one name, and
      every stored field is wanted, renamed from, or may be dropped. */
  lemma DiffGoesThrough(was: Table, current: seq<Field>, next: seq<Field>, dropMissing: bool, env: Env)
    requires Unique(next) && !Clash(next) && Unique(current)
    ensures Diff(was, current, next, dropMissing, env).Ok? <==>
            && (forall f :: f in next ==> Permitted(was, current, f, dropMissing, env)) && OldNamesDiffer(next)
            && (forall e :: e in current ==> MayGo(was, e, next, dropMissing, env))
  {
    FieldsGo(was, current, next, dropMissing, env);
    if ApplyFields(was, current, next, dropMissing, env).Ok? {
      var p := ApplyFields(was, current, next, dropMissing, env).value;
      FieldsMatch(was, current, next, dropMissing, env);
      DropsGo(p.table, p.used, current, next, dropMissing, env);
      forall e | e in current && e.name !in NamesIn(next) && e.name !in p.used
        ensures e.name in p.table <==> e.name in was
      {
        assert Lookup(p.table, e.name) == AfterFields(was, current, next, e.name);
      }
    }
  }

  ghost predicate Gone(p: Progress, current: seq<Field>) {
    forall name :: name in p.used ==> FieldNamed(current, name).Some? && name !in p.table
  }

  lemma StepKeepsGone(p: Progress, f: Field, current: seq<Field>, dropMissing: bool, env: Env)
    requires Gone(p, current) && ApplyField(p, f, current, dropMissing, env).Ok?
    ensures var p' := ApplyField(p, f, current, dropMissing, env).value;
      Gone(p', current) && p'.used == p.used + if Renames(f) then {OldName(f)} else {}
  {
  }

  /** A name renamed from never comes back, clash or no clash. */
  lemma {:induction false} RenamedNamesAreGone(was: Table, current: seq<Field>, next: seq<Field>, dropMissing: bool,
                                               env: Env)
    requires ApplyFields(was, current, next, dropMissing, env).Ok?
    ensures var p := ApplyFields(was, current, next, dropMissing, env).value;
      p.used == RenamedFrom(next) && Gone(p, current)
  {
    if next != [] {
      var last := |next| - 1;
      var front, f := next[..last], next[last];
      assert next == front + [f];
      RenamedNamesAreGone(was, current, front, dropMissing, env);
      StepKeepsGone(ApplyFields(was, current, front, dropMissing, env).value, f, current, dropMissing, env);
      OneMoreField(front, f, f.name);
    }
  }

  /** Exactly when no names clash does a successful diff leave a column for every wanted field. */
  lemma EveryFieldHasItsColumnUnlessNamesClash(was: Table, current: seq<Field>, next: seq<Field>, dropMissing: bool,
                                               env: Env)
    requires Diff(was, current, next, dropMissing, env).Ok? && Unique(next) && InSync(was, current)
    ensures NamesIn(next) <= Diff(was, current, next, dropMissing, env).value.Keys <==> !Clash(next)
  {
    if Clash(next) {
      var f, g :| f in next && g in next && Renames(g) && OldName(g) == f.name;
      RenamedNamesAreGone(was, current, next, dropMissing, env);
      var p := ApplyFields(was, current, next, dropMissing, env).value;
      assert f.name in RenamedFrom(next);
      DropsMatch(p.table, p.used, current, next, dropMissing, env);
      assert Lookup(Diff(was, current, next, dropMissing, env).value, f.name) == None;
      assert f.name in NamesIn(next);
    } else {
      ColumnsAreTheWantedOnes(was, current, next, dropMissing, env);
    }
  }

  /** A database that refuses nothing for reasons of its own. */
  const WILLING := Env(name => true, name => true, statement => false)

  /** A clash that goes through: `b` is renamed from `a` while `a` stays a field, and `a` is left without a column. */
  lemma ClashGoesThrough()
    ensures var was, a := map["a" := Data(["x"])], Field("a", "", Some("text"), "", true, false);
            var next := [a.(name := "b", oldName := "a"), a];
            && Unique(next) && InSync(was, [a])
            && Diff(was, [a], next, false, WILLING) == Ok(map["b" := Data(["x"])])
  {
    var was, a := map["a" := Data(["x"])], Field("a", "", Some("text"), "", true, false);
    var b := a.(name := "b", oldName := "a");
    PlainNames();
    assert [b, a][..1] == [b] && [b][..0] == [] && [a][..0] == [];
    assert FieldNamed([b, a], "a") == Some(a);
    var p := Progress(map["b" := Data(["x"])], {"a"});
    assert FieldNamed([a], "b").None? && FieldNamed([a], "a") == Some(a);
    assert (was - {"a"})["b" := was["a"]] == p.table && Progress(was, {}).used + {"a"} == p.used;
    assert Execute(was, Rename("a", "b"), Blank, WILLING) == Some(p.table);
    assert RenameField(Progress(was, {}), b, [a], WILLING) == Ok(p);
    assert ApplyFields(was, [a], [b], false, WILLING) == Ok(p);
    assert ApplyField(p, a, [a], false, WILLING) == Ok(p);
    assert DropFields(p.table, p.used, [a], [b, a], false, WILLING) == Ok(p.table);
  }

  lemma PlainNames()
    ensures NormalizeIdentifier("a") == "a" && NormalizeIdentifier("") == ""
  {
    assert TrimSpace("a") == "a" && TrimSpace("") == "";
    assert ToLower("a")[0] == 'a' && ToLower("a") == "a";
  }

  /** A rebuild that goes through: the computed column `a` becomes a plain one and its values are gone. */
  lemma PlainRebuildGoesThrough()
    ensures var was, a := map["a" := Computed("x + 1")], Field("a", "", Some("int"), "x + 1", true, false);
            Diff(was, [a], [a.(computed := "")], true, WILLING) == Ok(map["a" := Blank])
  {
    var was, a := map["a" := Computed("x + 1")], Field("a", "", Some("int"), "x + 1", true, false);
    var plain := a.(computed := "");
    PlainNames();
    assert [plain][..0] == [] && [a][..0] == [];
    assert FieldNamed([plain], "a") == Some(plain);
    assert Execute(was, Drop("a"), Blank, WILLING) == Some(map[]);
    assert ApplyFields(was, [a], [plain], true, WILLING) == Ok(Progress(map["a" := Blank], {}));
    assert DropFields(map["a" := Blank], {}, [a], [plain], true, WILLING) == Ok(map["a" := Blank]);
  }

  /** `to` tells under which name each old column's data is now, and no two share one. */
  ghost predicate Carries(was: Table, t: Table, to: map<string, string>) {
    && to.Keys == was.Keys
    && (forall name :: name in to ==> to[name] in t && t[to[name]] == was[name])
    && (forall a, b :: a in to && b in to && to[a] == to[b] ==> a == b)
  }

  lemma RenameCarries(was: Table, t: Table, from: string, name: string, to: map<string, string>)
    returns (to': map<string, string>)
    requires Carries(was, t, to) && from in t && name !in t
    ensures Carries(was, (t - {from})[name := t[from]], to')
  {
    to' := map n | n in to :: if to[n] == from then name else to[n];
  }

  lemma StepCarries(was: Table, p: Progress, f: Field, current: seq<Field>, env: Env, to: map<string, string>)
    returns (to': map<string, string>)
    requires Carries(was, p.table, to) && ApplyField(p, f, current, false, env).Ok?
    ensures Carries(was, ApplyField(p, f, current, false, env).value.table, to')
  {
    to' := to;
    if Renames(f) { to' := RenameCarries(was, p.table, OldName(f), f.name, to); }
  }

  lemma {:induction false} FieldsCarry(was: Table, current: seq<Field>, next: seq<Field>, env: Env)
    returns (to: map<string, string>)
    requires ApplyFields(was, current, next, false, env).Ok?
    ensures Carries(was, ApplyFields(was, current, next, false, env).value.table, to)
  {
    if next == [] {
      to := map name | name in was :: name;
    } else {
      var last := |next| - 1;
      to := FieldsCarry(was, current, next[..last], env);
      to := StepCarries(was, ApplyFields(was, current, next[..last], false, env).value, next[last], current, env, to);
    }
  }

  /** Without leave to drop, a successful diff carries every column over to a name of its own, clash or no clash. */
  lemma DiffLosesNothingUndeclared(was: Table, current: seq<Field>, next: seq<Field>, env: Env)
    returns (to: map<string, string>)
    requires Diff(was, current, next, false, env).Ok?
    ensures Carries(was, Diff(was, current, next, false, env).value, to)
  {
    to := FieldsCarry(was, current, next, env);
    var p := ApplyFields(was, current, next, false, env).value;
    DropsMatch(p.table, p.used, current, next, false, env);
  }
}
