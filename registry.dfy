/**
 * Schema registration: `ModelMetaClass.__new__` (www/orm.py:179-239). It
 * runs once per class statement, scans the class body in declaration
 * order, splits the Field attributes into one primary key and the ordered
 * non-key fields, takes the Fields off the class, and builds the four SQL
 * templates.
 */
module Registry {
  import opened PyValues
  import opened Text
  import opened Fields

  /** One entry of a class body: a Field or any other attribute. */
  datatype Attr = FieldAttr(field: Field) | Plain(value: Value)

  /** A class body in declaration order: the `attrs` dict the metaclass receives. */
  type Namespace = seq<(string, Attr)>

  /** A dict holds each key once. */
  predicate DistinctNames(attrs: Namespace) {
    forall i, j :: 0 <= i < j < |attrs| ==> attrs[i].0 != attrs[j].0
  }

  predicate IsKeyField(a: Attr) {
    a.FieldAttr? && IsKey(a.field)
  }

  predicate IsNonKeyField(a: Attr) {
    a.FieldAttr? && !IsKey(a.field)
  }

  /** The class attributes registration writes. */
  const MetadataNames: set<string> :=
    {"__mappings__", "__table__", "__primary_key__", "__fields__",
     "__select__", "__insert__", "__update__", "__delete__"}

  /** What registration attaches to a mapped class. */
  datatype Schema = Schema(
    table: string,                  // `__table__`, as the templates render it
    mappings: map<string, Field>,   // `__mappings__`
    primaryKey: string,             // `__primary_key__`
    fields: seq<string>,            // `__fields__`
    classAttrs: map<string, Value>, // the other attributes left on the class
    select: string,                 // `__select__`
    insert: string,                 // `__insert__`
    update: string,                 // `__update__`
    delete: string)                 // `__delete__`

  /** A class named `Model` is created untouched; every other class is mapped. */
  datatype Registration = Exempt | Mapped(schema: Schema)

  /** The class body as a dict. */
  function AsMap(attrs: Namespace): map<string, Attr>
    decreases |attrs|
  {
    if |attrs| == 0 then map[]
    else AsMap(attrs[..|attrs| - 1])[attrs[|attrs| - 1].0 := attrs[|attrs| - 1].1]
  }

  /** `attrs.get('__table__', None) or name`, rendered by `'%s'`. */
  function TableName(name: string, attrs: Namespace): string {
    var ns := AsMap(attrs);
    if "__table__" !in ns then name
    else match ns["__table__"]
      case FieldAttr(f) => FieldText(f)  // a Field object is truthy
      case Plain(v) => if Truthy(v) then Str(v) else name
  }

  /** The names of the attributes `keep` selects, in declaration order. */
  function NamesWhere(attrs: Namespace, keep: Attr -> bool): seq<string>
    decreases |attrs|
  {
    if |attrs| == 0 then []
    else
      NamesWhere(attrs[..|attrs| - 1], keep)
      + (if keep(attrs[|attrs| - 1].1) then [attrs[|attrs| - 1].0] else [])
  }

  /** The attributes holding a key Field, in declaration order. */
  function PkNames(attrs: Namespace): seq<string> {
    NamesWhere(attrs, IsKeyField)
  }

  /** The attributes holding a non-key Field, in declaration order. */
  function NonKeyFields(attrs: Namespace): seq<string> {
    NamesWhere(attrs, IsNonKeyField)
  }

  /** `mappings`: every Field attribute by name. */
  function Mappings(attrs: Namespace): map<string, Field>
    decreases |attrs|
  {
    if |attrs| == 0 then map[]
    else
      var m := Mappings(attrs[..|attrs| - 1]);
      var (k, a) := attrs[|attrs| - 1];
      if a.FieldAttr? then m[k := a.field] else m
  }

  /**
   * The position of the first key name that is truthy (not ''). The loop
   * keeps `primaryKey` falsy until it meets one, and raises at the next key.
   */
  function FirstNamed(pks: seq<string>): (i: nat)
    ensures i <= |pks|
    ensures i < |pks| ==> pks[i] != ""
    ensures forall j :: 0 <= j < i ==> pks[j] == ""
  {
    if |pks| == 0 then 0 else if pks[0] != "" then 0 else 1 + FirstNamed(pks[1..])
  }

  /** The class attributes once the Fields are popped and the metadata written. */
  function ClassAttrs(attrs: Namespace): map<string, Value> {
    var ns := AsMap(attrs) - Mappings(attrs).Keys;
    map k | k in ns && k !in MetadataNames && ns[k].Plain? :: ns[k].value
  }

  /** `__select__`: the key column first, then the non-key columns. */
  function SelectTemplate(table: string, pk: string, fields: seq<string>): string {
    "select " + Quote(pk) + ", " + Join(",", QuoteAll(fields)) + " from " + Quote(table)
  }

  /** `__insert__`: the non-key columns, then the key, and one `?` per column. */
  function InsertTemplate(table: string, pk: string, fields: seq<string>): string {
    "insert into " + Quote(table) + " (" + Join(",", QuoteAll(fields)) + ", " + Quote(pk)
    + ") values(" + ArgsString(|fields| + 1) + ")"
  }

  /** '`%s`=?' % (mappings.get(f).name or f) for each non-key field. */
  function Assignments(fields: seq<string>, mappings: map<string, Field>): (r: seq<string>)
    requires forall f <- fields :: f in mappings
    ensures |r| == |fields|
  {
    seq(|fields|, k requires 0 <= k < |fields| => Quote(ColumnName(mappings[fields[k]], fields[k])) + "=?")
  }

  /**
   * `__update__` as written: it ends in `= >`, so the key has no
   * placeholder (www/orm.py:235).
   */
  function UpdateTemplate(table: string, pk: string, fields: seq<string>, mappings: map<string, Field>): string
    requires forall f <- fields :: f in mappings
  {
    "update " + Quote(table) + " set " + Join(", ", Assignments(fields, mappings))
    + " where " + Quote(pk) + " = >"
  }

  /** `__update__` as evidently intended: the key bound by a final `?`. */
  function IntendedUpdateTemplate(table: string, pk: string, fields: seq<string>, mappings: map<string, Field>): string
    requires forall f <- fields :: f in mappings
  {
    "update " + Quote(table) + " set " + Join(", ", Assignments(fields, mappings))
    + " where " + Quote(pk) + " = ?"
  }

  /** `__delete__`. */
  function DeleteTemplate(table: string, pk: string): string {
    "delete from " + Quote(table) + " where " + Quote(pk) + " = ?"
  }

  function BuildSchema(table: string, attrs: Namespace, pk: string): Schema {
    var mappings := Mappings(attrs);
    var fields := NonKeyFields(attrs);
    NamesMapped(attrs, IsNonKeyField);
    Schema(table, mappings, pk, fields, ClassAttrs(attrs),
           SelectTemplate(table, pk, fields),
           InsertTemplate(table, pk, fields),
           UpdateTemplate(table, pk, fields, mappings),
           DeleteTemplate(table, pk))
  }

  /** What `ModelMetaClass.__new__` produces for the class `name` with body `attrs`. */
  function Register(name: string, attrs: Namespace): Result<Registration> {
    if name == "Model" then Ok(Exempt)
    else
      var pks := PkNames(attrs);
      var i := FirstNamed(pks);
      if i + 1 < |pks| then Err(DuplicatePrimaryKey(pks[i + 1]))
      else if i == |pks| then Err(PrimaryKeyNotFound)
      else Ok(Mapped(BuildSchema(TableName(name, attrs), attrs, pks[i])))
  }

  /** Every key but the last one is '' (so the loop has not raised yet). */
  predicate AtMostLastNamed(pks: seq<string>) {
    forall j :: 0 <= j < |pks| - 1 ==> pks[j] == ""
  }

  /**
   * `ModelMetaClass.__new__`: one pass over the class body, then the Fields
   * are popped from the namespace and the templates built.
   */
  method RegisterClass(name: string, attrs: Namespace) returns (r: Result<Registration>)
    requires DistinctNames(attrs)
    ensures r == Register(name, attrs)
  {
    if name == "Model" {
      return Ok(Exempt);
    }
    var tableName := TableName(name, attrs);
    var mappings: map<string, Field> := map[];
    var fields: seq<string> := [];
    var primaryKey := "";  // None and '' are both falsy
    var i := 0;
    while i < |attrs|
      invariant 0 <= i <= |attrs|
      invariant mappings == Mappings(attrs[..i])
      invariant fields == NonKeyFields(attrs[..i])
      invariant AtMostLastNamed(PkNames(attrs[..i]))
      invariant primaryKey == LastOr(PkNames(attrs[..i]))
    {
      var k, v := attrs[i].0, attrs[i].1;
      ScanStep(attrs, i);
      if v.FieldAttr? {
        mappings := mappings[k := v.field];
        if IsKey(v.field) {
          if primaryKey != "" {
            DuplicateAt(name, attrs, i);
            return Err(DuplicatePrimaryKey(k));
          }
          primaryKey := k;
        } else {
          fields := fields + [k];
        }
      }
      i := i + 1;
    }
    assert attrs[..i] == attrs;
    ScanEnd(name, attrs);
    if primaryKey == "" {
      return Err(PrimaryKeyNotFound);
    }
    var classAttrs := PopFields(attrs, mappings);
    NamesMapped(attrs, IsNonKeyField);
    r := Ok(Mapped(Schema(tableName, mappings, primaryKey, fields, classAttrs,
                          SelectTemplate(tableName, primaryKey, fields),
                          InsertTemplate(tableName, primaryKey, fields),
                          UpdateTemplate(tableName, primaryKey, fields, mappings),
                          DeleteTemplate(tableName, primaryKey))));
  }

  /** `for k in mappings.keys(): attrs.pop(k)`, then the attributes left on the class. */
  method PopFields(attrs: Namespace, mappings: map<string, Field>) returns (classAttrs: map<string, Value>)
    requires mappings == Mappings(attrs)
    ensures classAttrs == ClassAttrs(attrs)
  {
    var ns := AsMap(attrs);
    var keys := mappings.Keys;
    while keys != {}
      invariant keys <= mappings.Keys
      invariant ns == AsMap(attrs) - (mappings.Keys - keys)
      decreases keys
    {
      var k :| k in keys;
      ns := ns - {k};
      keys := keys - {k};
    }
    classAttrs := map k | k in ns && k !in MetadataNames && ns[k].Plain? :: ns[k].value;
  }

  /** The last key name, or '' when there is none. */
  function LastOr(pks: seq<string>): string {
    if pks == [] then "" else pks[|pks| - 1]
  }

  lemma ScanStep(attrs: Namespace, i: nat)
    requires i < |attrs|
    ensures Mappings(attrs[..i + 1]) ==
              if attrs[i].1.FieldAttr? then Mappings(attrs[..i])[attrs[i].0 := attrs[i].1.field] else Mappings(attrs[..i])
    ensures NonKeyFields(attrs[..i + 1]) ==
              NonKeyFields(attrs[..i]) + if IsNonKeyField(attrs[i].1) then [attrs[i].0] else []
    ensures PkNames(attrs[..i + 1]) ==
              PkNames(attrs[..i]) + if IsKeyField(attrs[i].1) then [attrs[i].0] else []
  {
    assert attrs[..i + 1][..i] == attrs[..i];
  }

  /** After a pass without a duplicate, the outcome hangs on the last key name. */
  lemma ScanEnd(name: string, attrs: Namespace)
    requires name != "Model"
    requires AtMostLastNamed(PkNames(attrs))
    ensures LastOr(PkNames(attrs)) == "" ==> Register(name, attrs) == Err(PrimaryKeyNotFound)
    ensures LastOr(PkNames(attrs)) != "" ==>
              Register(name, attrs) == Ok(Mapped(BuildSchema(TableName(name, attrs), attrs, LastOr(PkNames(attrs)))))
  {
    FirstNamedOfLast(PkNames(attrs));
  }

  // ----- the scan -----------------------------------------------------------

  lemma {:induction false} NamesWhereAppend(a: Namespace, b: Namespace, keep: Attr -> bool)
    ensures NamesWhere(a + b, keep) == NamesWhere(a, keep) + NamesWhere(b, keep)
    decreases |b|
  {
    if |b| == 0 {
      assert a + b == a;
    } else {
      assert (a + b)[..|a + b| - 1] == a + b[..|b| - 1];
      NamesWhereAppend(a, b[..|b| - 1], keep);
    }
  }

  /** The name of a selected attribute sits after those of the selected attributes before it. */
  lemma NamesWhereAt(attrs: Namespace, keep: Attr -> bool, i: nat)
    requires i < |attrs| && keep(attrs[i].1)
    ensures |NamesWhere(attrs[..i], keep)| < |NamesWhere(attrs, keep)|
    ensures NamesWhere(attrs, keep)[|NamesWhere(attrs[..i], keep)|] == attrs[i].0
  {
    assert attrs == attrs[..i] + [attrs[i]] + attrs[i + 1..];
    NamesWhereAppend(attrs[..i] + [attrs[i]], attrs[i + 1..], keep);
    NamesWhereAppend(attrs[..i], [attrs[i]], keep);
    assert [attrs[i]][..0] == [];
  }

  /** Each selected name comes from a selected attribute. */
  lemma {:induction false} NamesWhereFrom(attrs: Namespace, keep: Attr -> bool, p: nat)
    requires p < |NamesWhere(attrs, keep)|
    ensures exists i :: 0 <= i < |attrs| && attrs[i].0 == NamesWhere(attrs, keep)[p] && keep(attrs[i].1)
    decreases |attrs|
  {
    var init := attrs[..|attrs| - 1];
    if p < |NamesWhere(init, keep)| {
      NamesWhereFrom(init, keep, p);
      var i :| 0 <= i < |init| && init[i].0 == NamesWhere(init, keep)[p] && keep(init[i].1);
      assert attrs[i] == init[i];
    } else {
      assert attrs[|attrs| - 1].0 == NamesWhere(attrs, keep)[p];
    }
  }

  /** Distinct attribute names give distinct selected names. */
  lemma {:induction false} NamesWhereDistinct(attrs: Namespace, keep: Attr -> bool)
    requires DistinctNames(attrs)
    ensures forall p, q :: 0 <= p < q < |NamesWhere(attrs, keep)| ==>
              NamesWhere(attrs, keep)[p] != NamesWhere(attrs, keep)[q]
    decreases |attrs|
  {
    if |attrs| > 0 {
      var init := attrs[..|attrs| - 1];
      NamesWhereDistinct(init, keep);
      var names := NamesWhere(attrs, keep);
      forall p, q | 0 <= p < q < |names| ensures names[p] != names[q] {
        if q >= |NamesWhere(init, keep)| {
          NamesWhereFrom(init, keep, p);
        }
      }
    }
  }

  /** Every selected Field attribute is a key of `mappings`. */
  lemma {:induction false} NamesMapped(attrs: Namespace, keep: Attr -> bool)
    requires forall a :: keep(a) ==> a.FieldAttr?
    ensures forall f <- NamesWhere(attrs, keep) :: f in Mappings(attrs)
    decreases |attrs|
  {
    if |attrs| > 0 {
      NamesMapped(attrs[..|attrs| - 1], keep);
    }
  }

  lemma {:induction false} MappingsKeys(attrs: Namespace, k: string)
    ensures k in Mappings(attrs) <==> exists i :: 0 <= i < |attrs| && attrs[i].0 == k && attrs[i].1.FieldAttr?
    decreases |attrs|
  {
    if |attrs| > 0 {
      var init := attrs[..|attrs| - 1];
      MappingsKeys(init, k);
      if k in Mappings(init) {
        var i :| 0 <= i < |init| && init[i].0 == k && init[i].1.FieldAttr?;
        assert attrs[i] == init[i];
      }
      if exists i :: 0 <= i < |attrs| && attrs[i].0 == k && attrs[i].1.FieldAttr? {
        var i :| 0 <= i < |attrs| && attrs[i].0 == k && attrs[i].1.FieldAttr?;
        if i < |init| {
          assert init[i] == attrs[i];
        }
      }
    }
  }

  lemma {:induction false} MappingsAt(attrs: Namespace, i: nat)
    requires DistinctNames(attrs)
    requires i < |attrs| && attrs[i].1.FieldAttr?
    ensures attrs[i].0 in Mappings(attrs) && Mappings(attrs)[attrs[i].0] == attrs[i].1.field
    decreases |attrs|
  {
    if i < |attrs| - 1 {
      var init := attrs[..|attrs| - 1];
      assert init[i] == attrs[i];
      MappingsAt(init, i);
    }
  }

  lemma {:induction false} AsMapKeys(attrs: Namespace, k: string)
    ensures k in AsMap(attrs) <==> exists i :: 0 <= i < |attrs| && attrs[i].0 == k
    decreases |attrs|
  {
    if |attrs| > 0 {
      var init := attrs[..|attrs| - 1];
      AsMapKeys(init, k);
      if k in AsMap(init) {
        var i :| 0 <= i < |init| && init[i].0 == k;
        assert attrs[i] == init[i];
      }
      if exists i :: 0 <= i < |attrs| && attrs[i].0 == k {
        var i :| 0 <= i < |attrs| && attrs[i].0 == k;
        if i < |init| {
          assert init[i] == attrs[i];
        }
      }
    }
  }

  lemma {:induction false} AsMapAt(attrs: Namespace, i: nat)
    requires DistinctNames(attrs) && i < |attrs|
    ensures attrs[i].0 in AsMap(attrs) && AsMap(attrs)[attrs[i].0] == attrs[i].1
    decreases |attrs|
  {
    if i < |attrs| - 1 {
      var init := attrs[..|attrs| - 1];
      assert init[i] == attrs[i];
      AsMapAt(init, i);
    }
  }

  lemma {:induction false} FirstNamedOfLast(pks: seq<string>)
    requires AtMostLastNamed(pks)
    ensures FirstNamed(pks) == if pks != [] && pks[|pks| - 1] != "" then |pks| - 1 else |pks|
    decreases |pks|
  {
    if |pks| > 0 && pks[0] == "" {
      FirstNamedOfLast(pks[1..]);
    }
  }

  lemma {:induction false} FirstNamedPrefix(p: seq<string>, q: seq<string>)
    requires FirstNamed(p) < |p|
    ensures FirstNamed(p + q) == FirstNamed(p)
    decreases |p|
  {
    if p[0] == "" {
      assert (p + q)[1..] == p[1..] + q;
      FirstNamedPrefix(p[1..], q);
    }
  }

  /** A key Field met while the key found so far is truthy is reported as the duplicate. */
  lemma DuplicateAt(name: string, attrs: Namespace, i: nat)
    requires name != "Model"
    requires i < |attrs| && IsKeyField(attrs[i].1)
    requires AtMostLastNamed(PkNames(attrs[..i]))
    requires LastOr(PkNames(attrs[..i])) != ""
    ensures Register(name, attrs) == Err(DuplicatePrimaryKey(attrs[i].0))
  {
    var before := PkNames(attrs[..i]);
    var upto := PkNames(attrs[..i + 1]);
    assert attrs[..i + 1] == attrs[..i] + [attrs[i]];
    NamesWhereAppend(attrs[..i], [attrs[i]], IsKeyField);
    assert [attrs[i]][..0] == [];
    assert upto == before + [attrs[i].0];
    FirstNamedOfLast(before);
    FirstNamedPrefix(before, [attrs[i].0]);
    assert attrs == attrs[..i + 1] + attrs[i + 1..];
    NamesWhereAppend(attrs[..i + 1], attrs[i + 1..], IsKeyField);
    FirstNamedPrefix(upto, PkNames(attrs[i + 1..]));
  }

  // ----- what registration promises ----------------------------------------

  /** The parts of a registered schema, read off the specification. */
  lemma RegisteredParts(name: string, attrs: Namespace, s: Schema)
    requires Register(name, attrs) == Ok(Mapped(s))
    ensures name != "Model"
    ensures FirstNamed(PkNames(attrs)) == |PkNames(attrs)| - 1
    ensures s.primaryKey == PkNames(attrs)[|PkNames(attrs)| - 1]
    ensures s.fields == NonKeyFields(attrs)
    ensures s.mappings == Mappings(attrs)
    ensures s.classAttrs == ClassAttrs(attrs)
    ensures s.table == TableName(name, attrs)
  {
  }

  /**
   * With no key Field under the name '', registration fails with "Primary key
   * is not found" exactly when there is no key Field, with "Duplicate primary
   * key" naming the second key Field exactly when there are two or more, and
   * succeeds exactly when there is one. A class named `Model` is exempt.
   */
  lemma RegisterOutcome(name: string, attrs: Namespace)
    requires forall k <- PkNames(attrs) :: k != ""
    ensures name == "Model" ==> Register(name, attrs) == Ok(Exempt)
    ensures name != "Model" ==>
              (Register(name, attrs) == Err(PrimaryKeyNotFound) <==> |PkNames(attrs)| == 0)
    ensures name != "Model" ==>
              (Register(name, attrs).Ok? <==> |PkNames(attrs)| == 1)
    ensures name != "Model" ==>
              (Register(name, attrs).Err? && Register(name, attrs).error.DuplicatePrimaryKey?
               <==> |PkNames(attrs)| >= 2)
    ensures name != "Model" && |PkNames(attrs)| >= 2 ==>
              Register(name, attrs) == Err(DuplicatePrimaryKey(PkNames(attrs)[1]))
  {
    if PkNames(attrs) != [] {
      assert PkNames(attrs)[0] in PkNames(attrs);
    }
  }

  /** A Field built by `BooleanField(...)` or `TextField(...)`, whatever its name and default. */
  predicate Unkeyable(f: Field) {
    f == BooleanField(f.name, f.default) || f == TextField(f.name, f.default)
  }

  /** A class whose Fields are all Boolean or Text fields never registers. */
  lemma {:induction false} UnkeyableFieldsNeverRegister(name: string, attrs: Namespace)
    requires name != "Model"
    requires forall i :: 0 <= i < |attrs| && attrs[i].1.FieldAttr? ==> Unkeyable(attrs[i].1.field)
    ensures Register(name, attrs) == Err(PrimaryKeyNotFound)
    decreases |attrs|
  {
    if |attrs| > 0 {
      var init := attrs[..|attrs| - 1];
      forall i | 0 <= i < |init| && init[i].1.FieldAttr?
        ensures Unkeyable(init[i].1.field)
      {
        assert init[i] == attrs[i];
      }
      UnkeyableFieldsNeverRegister(name, init);
    }
  }

  /**
   * The key of a registered class is a truthy attribute name holding a key
   * Field; every other key Field (if any) sits under the name ''.
   */
  lemma RegisteredKey(name: string, attrs: Namespace, s: Schema)
    requires DistinctNames(attrs)
    requires Register(name, attrs) == Ok(Mapped(s))
    ensures s.primaryKey != ""
    ensures exists i :: 0 <= i < |attrs| && attrs[i].0 == s.primaryKey && IsKeyField(attrs[i].1)
    ensures s.primaryKey in s.mappings && IsKey(s.mappings[s.primaryKey])
    ensures s.primaryKey !in s.fields
    ensures forall i :: 0 <= i < |attrs| && IsKeyField(attrs[i].1) && attrs[i].0 != s.primaryKey ==> attrs[i].0 == ""
  {
    RegisteredParts(name, attrs, s);
    ScannedKey(attrs);
  }

  /** `RegisteredKey` stated on the scan of a class body with one named key Field, last. */
  lemma ScannedKey(attrs: Namespace)
    requires DistinctNames(attrs)
    requires |PkNames(attrs)| > 0 && FirstNamed(PkNames(attrs)) == |PkNames(attrs)| - 1
    ensures var pk := PkNames(attrs)[|PkNames(attrs)| - 1];
            && pk != ""
            && (exists i :: 0 <= i < |attrs| && attrs[i].0 == pk && IsKeyField(attrs[i].1))
            && pk in Mappings(attrs) && IsKey(Mappings(attrs)[pk])
            && pk !in NonKeyFields(attrs)
            && forall i :: 0 <= i < |attrs| && IsKeyField(attrs[i].1) && attrs[i].0 != pk ==> attrs[i].0 == ""
  {
    var pks := PkNames(attrs);
    var f := FirstNamed(pks);
    var pk := pks[f];
    NamesWhereFrom(attrs, IsKeyField, f);
    var i :| 0 <= i < |attrs| && attrs[i].0 == pk && IsKeyField(attrs[i].1);
    MappingsAt(attrs, i);
    if pk in NonKeyFields(attrs) {
      var p :| 0 <= p < |NonKeyFields(attrs)| && NonKeyFields(attrs)[p] == pk;
      NamesWhereFrom(attrs, IsNonKeyField, p);
    }
    forall j | 0 <= j < |attrs| && IsKeyField(attrs[j].1) && attrs[j].0 != pk
      ensures attrs[j].0 == ""
    {
      NamesWhereAt(attrs, IsKeyField, j);
    }
  }

  /** `__fields__` is exactly the non-key Field attributes, in declaration order. */
  lemma RegisteredFields(name: string, attrs: Namespace, s: Schema)
    requires DistinctNames(attrs)
    requires Register(name, attrs) == Ok(Mapped(s))
    ensures forall i :: 0 <= i < |attrs| && IsNonKeyField(attrs[i].1) ==>
              |NonKeyFields(attrs[..i])| < |s.fields| && s.fields[|NonKeyFields(attrs[..i])|] == attrs[i].0
    ensures forall p, q :: 0 <= p < q < |s.fields| ==> s.fields[p] != s.fields[q]
    ensures forall f <- s.fields :: f in s.mappings && !IsKey(s.mappings[f])
  {
    RegisteredParts(name, attrs, s);
    ScannedFields(attrs, s.fields, s.mappings);
  }

  /** `RegisteredFields` stated on the scan of a class body. */
  lemma ScannedFields(attrs: Namespace, fields: seq<string>, mappings: map<string, Field>)
    requires DistinctNames(attrs)
    requires fields == NonKeyFields(attrs) && mappings == Mappings(attrs)
    ensures forall i :: 0 <= i < |attrs| && IsNonKeyField(attrs[i].1) ==>
              |NonKeyFields(attrs[..i])| < |fields| && fields[|NonKeyFields(attrs[..i])|] == attrs[i].0
    ensures forall p, q :: 0 <= p < q < |fields| ==> fields[p] != fields[q]
    ensures forall f <- fields :: f in mappings && !IsKey(mappings[f])
  {
    ScannedFieldPositions(attrs);
    ScannedFieldOrigins(attrs);
    NamesWhereDistinct(attrs, IsNonKeyField);
  }

  /** Each non-key Field attribute sits in `__fields__` after those declared before it. */
  lemma ScannedFieldPositions(attrs: Namespace)
    ensures forall i :: 0 <= i < |attrs| && IsNonKeyField(attrs[i].1) ==>
              |NonKeyFields(attrs[..i])| < |NonKeyFields(attrs)| && NonKeyFields(attrs)[|NonKeyFields(attrs[..i])|] == attrs[i].0
  {
    forall i | 0 <= i < |attrs| && IsNonKeyField(attrs[i].1)
      ensures |NonKeyFields(attrs[..i])| < |NonKeyFields(attrs)| && NonKeyFields(attrs)[|NonKeyFields(attrs[..i])|] == attrs[i].0
    {
      NamesWhereAt(attrs, IsNonKeyField, i);
    }
  }

  /** Each entry of `__fields__` is mapped to a non-key Field. */
  lemma ScannedFieldOrigins(attrs: Namespace)
    requires DistinctNames(attrs)
    ensures forall f <- NonKeyFields(attrs) :: f in Mappings(attrs) && !IsKey(Mappings(attrs)[f])
  {
    var fields := NonKeyFields(attrs);
    forall f <- fields ensures f in Mappings(attrs) && !IsKey(Mappings(attrs)[f]) {
      var p :| 0 <= p < |fields| && fields[p] == f;
      NamesWhereFrom(attrs, IsNonKeyField, p);
      var i :| 0 <= i < |attrs| && attrs[i].0 == f && IsNonKeyField(attrs[i].1);
      MappingsAt(attrs, i);
    }
  }

  /** `__mappings__` holds every Field attribute, unchanged, and nothing else. */
  lemma RegisteredMappings(name: string, attrs: Namespace, s: Schema)
    requires DistinctNames(attrs)
    requires Register(name, attrs) == Ok(Mapped(s))
    ensures forall i :: 0 <= i < |attrs| && attrs[i].1.FieldAttr? ==>
              attrs[i].0 in s.mappings && s.mappings[attrs[i].0] == attrs[i].1.field
    ensures forall k <- s.mappings :: exists i :: 0 <= i < |attrs| && attrs[i].0 == k && attrs[i].1.FieldAttr?
  {
    RegisteredParts(name, attrs, s);
    forall i | 0 <= i < |attrs| && attrs[i].1.FieldAttr?
      ensures attrs[i].0 in s.mappings && s.mappings[attrs[i].0] == attrs[i].1.field
    {
      MappingsAt(attrs, i);
    }
    forall k <- s.mappings
      ensures exists i :: 0 <= i < |attrs| && attrs[i].0 == k && attrs[i].1.FieldAttr?
    {
      MappingsKeys(attrs, k);
    }
  }

  /** When no key Field is named '', the keys of `__mappings__` are the non-key fields plus the key. */
  lemma RegisteredMappingKeys(name: string, attrs: Namespace, s: Schema)
    requires Register(name, attrs) == Ok(Mapped(s))
    requires forall k <- PkNames(attrs) :: k != ""
    ensures s.mappings.Keys == (set f <- s.fields) + {s.primaryKey}
  {
    RegisteredParts(name, attrs, s);
    var pks := PkNames(attrs);
    assert pks[0] in pks;
    assert |pks| == 1;
    NamesMapped(attrs, IsNonKeyField);
    NamesMapped(attrs, IsKeyField);
    assert pks[0] in pks;
    forall k <- s.mappings ensures k in s.fields || k == s.primaryKey {
      MappingsKeys(attrs, k);
      var i :| 0 <= i < |attrs| && attrs[i].0 == k && attrs[i].1.FieldAttr?;
      if IsKeyField(attrs[i].1) {
        NamesWhereAt(attrs, IsKeyField, i);
      } else {
        NamesWhereAt(attrs, IsNonKeyField, i);
      }
    }
  }

  /**
   * Registration takes every Field off the class and leaves every other
   * attribute as declared (the metadata names are rewritten).
   */
  lemma RegisteredClassAttrs(name: string, attrs: Namespace, s: Schema)
    requires DistinctNames(attrs)
    requires Register(name, attrs) == Ok(Mapped(s))
    ensures forall i :: 0 <= i < |attrs| && attrs[i].1.FieldAttr? ==> attrs[i].0 !in s.classAttrs
    ensures forall i :: 0 <= i < |attrs| && attrs[i].1.Plain? && attrs[i].0 !in MetadataNames ==>
              attrs[i].0 in s.classAttrs && s.classAttrs[attrs[i].0] == attrs[i].1.value
    ensures forall k <- s.classAttrs :: k !in MetadataNames &&
              exists i :: 0 <= i < |attrs| && attrs[i] == (k, Plain(s.classAttrs[k]))
  {
    RegisteredParts(name, attrs, s);
    ScannedClassAttrs(attrs, s.classAttrs);
  }

  /** `RegisteredClassAttrs` stated on the class body. */
  lemma ScannedClassAttrs(attrs: Namespace, classAttrs: map<string, Value>)
    requires DistinctNames(attrs)
    requires classAttrs == ClassAttrs(attrs)
    ensures forall i :: 0 <= i < |attrs| && attrs[i].1.FieldAttr? ==> attrs[i].0 !in classAttrs
    ensures forall i :: 0 <= i < |attrs| && attrs[i].1.Plain? && attrs[i].0 !in MetadataNames ==>
              attrs[i].0 in classAttrs && classAttrs[attrs[i].0] == attrs[i].1.value
    ensures forall k <- classAttrs :: k !in MetadataNames &&
              exists i :: 0 <= i < |attrs| && attrs[i] == (k, Plain(classAttrs[k]))
  {
    forall i | 0 <= i < |attrs| && attrs[i].1.FieldAttr? ensures attrs[i].0 !in classAttrs {
      MappingsAt(attrs, i);
    }
    forall i | 0 <= i < |attrs| && attrs[i].1.Plain? && attrs[i].0 !in MetadataNames
      ensures attrs[i].0 in classAttrs && classAttrs[attrs[i].0] == attrs[i].1.value
    {
      AsMapAt(attrs, i);
      MappingsKeys(attrs, attrs[i].0);
    }
    forall k <- classAttrs
      ensures k !in MetadataNames && exists i :: 0 <= i < |attrs| && attrs[i] == (k, Plain(classAttrs[k]))
    {
      AsMapKeys(attrs, k);
      var i :| 0 <= i < |attrs| && attrs[i].0 == k;
      AsMapAt(attrs, i);
    }
  }

  /**
   * The table is the class's `__table__` when that is truthy (a string as
   * it is, any other value as `str()` renders it), and the class name when
   * `__table__` is absent or falsy.
   */
  lemma TableNameChoice(name: string, attrs: Namespace)
    requires DistinctNames(attrs)
    ensures forall i :: (0 <= i < |attrs| && attrs[i].0 == "__table__" && attrs[i].1.Plain? &&
                         attrs[i].1.value.VStr? && attrs[i].1.value.s != "") ==>
              TableName(name, attrs) == attrs[i].1.value.s
    ensures forall i :: (0 <= i < |attrs| && attrs[i].0 == "__table__" && attrs[i].1.Plain? &&
                         !Truthy(attrs[i].1.value)) ==>
              TableName(name, attrs) == name
    ensures forall i :: (0 <= i < |attrs| && attrs[i].0 == "__table__" && attrs[i].1.Plain? &&
                         Truthy(attrs[i].1.value)) ==>
              TableName(name, attrs) == Str(attrs[i].1.value)
    ensures forall i :: (0 <= i < |attrs| && attrs[i].0 == "__table__" && attrs[i].1.FieldAttr?) ==>
              TableName(name, attrs) == FieldText(attrs[i].1.field)
    ensures (forall i :: 0 <= i < |attrs| ==> attrs[i].0 != "__table__") ==> TableName(name, attrs) == name
  {
    AsMapKeys(attrs, "__table__");
    forall i | 0 <= i < |attrs| && attrs[i].0 == "__table__" ensures AsMap(attrs)["__table__"] == attrs[i].1 {
      AsMapAt(attrs, i);
    }
  }

  // ----- placeholders in the templates --------------------------------------

  /** No identifier in the templates contains a question mark. */
  predicate QuestionFree(table: string, pk: string, fields: seq<string>, mappings: map<string, Field>) {
    && '?' !in table && '?' !in pk
    && forall f <- fields :: '?' !in f && f in mappings && '?' !in ColumnName(mappings[f], f)
  }

  lemma QuotedNamesCount(fields: seq<string>)
    requires forall f <- fields :: '?' !in f
    ensures Count('?', Join(",", QuoteAll(fields))) == 0
  {
    var q := QuoteAll(fields);
    assert forall k :: 0 <= k < |q| ==> '?' !in q[k];
    CountJoin('?', ",", q);
    CountAllNone('?', q);
  }

  /** The select template binds nothing. */
  lemma SelectPlaceholders(table: string, pk: string, fields: seq<string>)
    requires '?' !in table && '?' !in pk && forall f <- fields :: '?' !in f
    ensures Count('?', SelectTemplate(table, pk, fields)) == 0
  {
    var cols := Join(",", QuoteAll(fields));
    QuotedNamesCount(fields);
    CountAbsent('?', pk);
    CountAbsent('?', table);
    QuoteCount('?', pk);
    QuoteCount('?', table);
    var s := "select " + Quote(pk);
    CountSkip('?', "select ", Quote(pk));
    CountSkipEnd('?', s, ", ");
    CountAppend('?', s + ", ", cols);
    CountSkipEnd('?', s + ", " + cols, " from ");
    CountAppend('?', s + ", " + cols + " from ", Quote(table));
  }

  /** The insert template has one placeholder per column: the non-key fields and the key. */
  lemma InsertPlaceholders(table: string, pk: string, fields: seq<string>)
    requires '?' !in table && '?' !in pk && forall f <- fields :: '?' !in f
    ensures Count('?', InsertTemplate(table, pk, fields)) == |fields| + 1
  {
    var cols := Join(",", QuoteAll(fields));
    var marks := ArgsString(|fields| + 1);
    QuotedNamesCount(fields);
    ArgsStringCount(|fields| + 1);
    CountAbsent('?', pk);
    CountAbsent('?', table);
    QuoteCount('?', pk);
    QuoteCount('?', table);
    var s := "insert into " + Quote(table);
    CountSkip('?', "insert into ", Quote(table));
    CountSkipEnd('?', s, " (");
    CountAppend('?', s + " (", cols);
    s := s + " (" + cols;
    CountSkipEnd('?', s, ", ");
    CountAppend('?', s + ", ", Quote(pk));
    s := s + ", " + Quote(pk);
    CountSkipEnd('?', s, ") values(");
    CountAppend('?', s + ") values(", marks);
    s := s + ") values(" + marks;
    CountSkipEnd('?', s, ")");
  }

  lemma AssignmentsCount(fields: seq<string>, mappings: map<string, Field>)
    requires forall f <- fields :: f in mappings && '?' !in ColumnName(mappings[f], f)
    ensures Count('?', Join(", ", Assignments(fields, mappings))) == |fields|
  {
    var parts := Assignments(fields, mappings);
    forall k | 0 <= k < |parts| ensures Count('?', parts[k]) == 1 {
      var col := ColumnName(mappings[fields[k]], fields[k]);
      CountAbsent('?', col);
      QuoteCount('?', col);
      CountAppend('?', Quote(col), "=?");
    }
    CountJoin('?', ", ", parts);
    CountAllOnce('?', parts);
  }

  /** The part the two update templates share: everything up to the key's column. */
  lemma UpdateHeadCount(table: string, pk: string, sets: string)
    requires '?' !in table && '?' !in pk
    ensures Count('?', "update " + Quote(table) + " set " + sets + " where " + Quote(pk)) == Count('?', sets)
  {
    CountAbsent('?', pk);
    CountAbsent('?', table);
    QuoteCount('?', pk);
    QuoteCount('?', table);
    var s := "update " + Quote(table);
    CountSkip('?', "update ", Quote(table));
    CountSkipEnd('?', s, " set ");
    CountAppend('?', s + " set ", sets);
    s := s + " set " + sets;
    CountSkipEnd('?', s, " where ");
    CountAppend('?', s + " where ", Quote(pk));
  }

  /**
   * As written, the update template has a placeholder per non-key field and
   * none for the key: one fewer than the values `update` binds.
   */
  lemma UpdatePlaceholders(table: string, pk: string, fields: seq<string>, mappings: map<string, Field>)
    requires QuestionFree(table, pk, fields, mappings)
    ensures Count('?', UpdateTemplate(table, pk, fields, mappings)) == |fields|
  {
    var sets := Join(", ", Assignments(fields, mappings));
    AssignmentsCount(fields, mappings);
    UpdateHeadCount(table, pk, sets);
    CountSkipEnd('?', "update " + Quote(table) + " set " + sets + " where " + Quote(pk), " = >");
  }

  /** The intended update template binds the non-key fields and then the key. */
  lemma IntendedUpdatePlaceholders(table: string, pk: string, fields: seq<string>, mappings: map<string, Field>)
    requires QuestionFree(table, pk, fields, mappings)
    ensures Count('?', IntendedUpdateTemplate(table, pk, fields, mappings)) == |fields| + 1
  {
    var sets := Join(", ", Assignments(fields, mappings));
    AssignmentsCount(fields, mappings);
    UpdateHeadCount(table, pk, sets);
    CountMarkEnd("update " + Quote(table) + " set " + sets + " where " + Quote(pk));
  }

  /** The delete template binds the key alone. */
  lemma DeletePlaceholders(table: string, pk: string)
    requires '?' !in table && '?' !in pk
    ensures Count('?', DeleteTemplate(table, pk)) == 1
  {
    CountAbsent('?', pk);
    CountAbsent('?', table);
    QuoteCount('?', pk);
    QuoteCount('?', table);
    var s := "delete from " + Quote(table);
    CountSkip('?', "delete from ", Quote(table));
    CountSkipEnd('?', s, " where ");
    CountAppend('?', s + " where ", Quote(pk));
    CountMarkEnd(s + " where " + Quote(pk));
  }
}
