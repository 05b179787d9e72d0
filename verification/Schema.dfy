/** Collections and their fields, as far as relation paths depend on them. */
module Schema {
  import opened Text

  datatype FieldKind = Relation | Password | Plain

  /** `target` names the related collection, `sourceColumn` the column the field is stored in. */
  datatype Field = Field(name: string, kind: FieldKind, hidden: bool, multiple: bool, target: string,
                         sourceColumn: string, displayField: string)

  datatype Collection = Collection(
    name: string,
    fields: seq<Field>,
    primaryKey: string,
    keyColumn: string,
    systemColumns: bool,
    concealed: set<string>,
    table: Option<string>)

  function TargetOf(f: Field): string {
    NormalizeIdentifier(f.target)
  }

  function FieldFrom(fields: seq<Field>, name: string, i: nat): Option<Field>
    requires i <= |fields|
    decreases |fields| - i
  {
    if i == |fields| then None
    else if fields[i].name == name then Some(fields[i])
    else FieldFrom(fields, name, i + 1)
  }

  /** The first field of that name. */
  function FieldOn(fields: seq<Field>, name: string): Option<Field> {
    FieldFrom(fields, name, 0)
  }

  lemma FoundFieldIsDeclared(fields: seq<Field>, name: string)
    ensures FieldOn(fields, name).Some? ==>
            FieldOn(fields, name).value in fields && FieldOn(fields, name).value.name == name
  {
    FoundFrom(fields, name, 0);
  }

  lemma FoundFrom(fields: seq<Field>, name: string, i: nat)
    requires i <= |fields|
    ensures FieldFrom(fields, name, i).Some? ==>
      FieldFrom(fields, name, i).value in fields && FieldFrom(fields, name, i).value.name == name
    decreases |fields| - i
  {
  }

  /** No field before the n-th bears the name. */
  predicate NoneBefore(fields: seq<Field>, name: string, n: nat)
    requires n <= |fields|
  {
    forall j :: 0 <= j < n ==> fields[j].name != name
  }

  /** `f` is the first field that bears the name. */
  predicate FirstNamed(fields: seq<Field>, name: string, f: Field) {
    f.name == name && exists i :: 0 <= i < |fields| && fields[i] == f && NoneBefore(fields, name, i)
  }

  lemma {:induction false} FoundIsFirst(fields: seq<Field>, name: string, i: nat) returns (k: nat)
    requires i <= |fields| && NoneBefore(fields, name, i)
    ensures k <= |fields| && NoneBefore(fields, name, k)
    ensures FieldFrom(fields, name, i) == if k < |fields| then Some(fields[k]) else None
    ensures k < |fields| ==> fields[k].name == name
    decreases |fields| - i
  {
    k := i;
    if i < |fields| && fields[i].name != name { k := FoundIsFirst(fields, name, i + 1); }
  }

  /** The lookup finds the first field of the name, and finds none exactly when no field bears it. */
  lemma LookupFindsFirst(fields: seq<Field>, name: string, f: Field)
    ensures FieldOn(fields, name) == Some(f) <==> FirstNamed(fields, name, f)
    ensures FieldOn(fields, name) == None <==> NoneBefore(fields, name, |fields|)
  {
    var k := FoundIsFirst(fields, name, 0);
    if k < |fields| { assert FirstNamed(fields, name, fields[k]); }
  }
}
