/**
 * The record side of `Model` (www/orm.py:249-344): an instance is a dict
 * (Model subclasses dict) read through Python attribute lookup; the class
 * methods `findAll`, `findNumber` and `find` build the statement they hand
 * to `select`; `save`, `update` and `remove` build the statement they hand
 * to `execute`. The database itself is not modelled: the rows `select`
 * returns and the affected-row count `execute` reports are parameters.
 */
module Records {
  import opened PyValues
  import opened Text
  import opened Fields
  import opened Registry

  /** What `select` receives: SQL with `?` placeholders, the bound values, and how many rows to fetch (None: all). */
  datatype Query = Query(sql: string, args: seq<Value>, size: Option<nat>)

  /** What `execute` receives, and whether the affected-row count then logs a warning. */
  datatype Persisted = Persisted(sql: string, args: seq<Value>, warned: bool)

  /** A fetched row: column name to value. */
  type Row = map<string, Value>

  /** Every non-key field and the key have a Field in `__mappings__`. */
  predicate WellFormed(s: Schema) {
    (forall f <- s.fields :: f in s.mappings) && s.primaryKey in s.mappings
  }

  /** The four statement templates are built from the schema's own table, key and fields. */
  predicate Templated(s: Schema)
    requires WellFormed(s)
  {
    && s.select == SelectTemplate(s.table, s.primaryKey, s.fields)
    && s.insert == InsertTemplate(s.table, s.primaryKey, s.fields)
    && s.update == UpdateTemplate(s.table, s.primaryKey, s.fields, s.mappings)
    && s.delete == DeleteTemplate(s.table, s.primaryKey)
  }

  /** No column is bound twice by `save`: the non-key fields are distinct and the key is not among them. */
  predicate DistinctColumns(s: Schema) {
    (forall p, q :: 0 <= p < q < |s.fields| ==> s.fields[p] != s.fields[q]) && s.primaryKey !in s.fields
  }

  /**
   * Every schema registration produces is well formed and templated, and,
   * for a class body without repeated names, binds no column twice.
   */
  lemma RegisteredSchema(name: string, attrs: Namespace, s: Schema)
    requires Register(name, attrs) == Ok(Mapped(s))
    ensures WellFormed(s) && Templated(s)
    ensures DistinctNames(attrs) ==> DistinctColumns(s)
  {
    RegisteredParts(name, attrs, s);
    NamesMapped(attrs, IsNonKeyField);
    NamesMapped(attrs, IsKeyField);
    assert PkNames(attrs)[|PkNames(attrs)| - 1] in PkNames(attrs);
    if DistinctNames(attrs) {
      ScannedKey(attrs);
      NamesWhereDistinct(attrs, IsNonKeyField);
    }
  }

  // ----- the instance --------------------------------------------------------

  /** An instance of a mapped class: its schema and its dict. */
  class Record {
    const schema: Schema
    var items: map<string, Value>

    /**
     * `cls(**kw)`: Model defines `__index__` rather than `__init__`, so
     * construction is dict's own and the instance dict is exactly `kw`.
     */
    constructor (schema: Schema, kw: map<string, Value>)
      ensures this.schema == schema && items == kw
    {
      this.schema := schema;
      items := kw;
    }

    /** `__setattr__`: every assignment lands in the dict. */
    method SetAttr(key: string, value: Value)
      modifies this
      ensures items == old(items)[key := value]
      ensures forall k :: GetValue(schema, items, k) ==
                if k == key && k !in schema.classAttrs then value else GetValue(schema, old(items), k)
    {
      items := items[key := value];
      SetThenGet(schema, old(items), key, value);
    }

    /**
     * `getValueOrDefault` as evidently intended (www/orm.py:266-274 with
     * `field.default` for `filter.default`): a falsy value is replaced by
     * the Field's default, which is stored back into the dict.
     */
    method GetValueOrDefaultIntended(key: string, made: string -> Value) returns (r: Result<Value>)
      modifies this
      ensures ResolveDefault(schema, old(items), key, made).Err? ==>
                r == Err(ResolveDefault(schema, old(items), key, made).error) && items == old(items)
      ensures ResolveDefault(schema, old(items), key, made).Ok? ==>
                r == Ok(ResolveDefault(schema, old(items), key, made).value.0)
                && items == ResolveDefault(schema, old(items), key, made).value.1
    {
      var value := GetValue(schema, items, key);
      if !Truthy(value) {
        if key !in schema.mappings {
          return Err(KeyError(key));
        }
        var field := schema.mappings[key];
        if field.default != VNone {
          value := if field.default.VCallable? then made(key) else field.default;
          SetAttr(key, value);
        }
      }
      r := Ok(value);
    }

    /**
     * `save` as evidently intended: resolves the non-key fields and then the
     * key through the intended `getValueOrDefault`, and binds them to the
     * insert template. `rows` is the count `execute` reports.
     */
    method SaveIntended(rows: int, made: string -> Value) returns (p: Persisted)
      requires WellFormed(schema)
      modifies this
      ensures (p.args, items) == ResolveAll(schema, old(items), schema.fields + [schema.primaryKey], made)
      ensures p.sql == schema.insert && p.warned == (rows != 1)
    {
      var keys := schema.fields + [schema.primaryKey];
      var args: seq<Value> := [];
      var i := 0;
      assert keys[0..] == keys;
      assert args + ResolveAll(schema, items, keys, made).0 == ResolveAll(schema, items, keys, made).0;
      while i < |keys|
        invariant 0 <= i <= |keys|
        invariant forall k <- keys :: k in schema.mappings
        invariant ResolveAll(schema, old(items), keys, made).0 == args + ResolveAll(schema, items, keys[i..], made).0
        invariant ResolveAll(schema, old(items), keys, made).1 == ResolveAll(schema, items, keys[i..], made).1
      {
        ghost var before := items;
        assert keys[i..][1..] == keys[i + 1..];
        var v := GetValueOrDefaultIntended(keys[i], made);
        assert ResolveAll(schema, before, keys[i..], made) ==
               ([v.value] + ResolveAll(schema, items, keys[i + 1..], made).0, ResolveAll(schema, items, keys[i + 1..], made).1);
        args := args + [v.value];
        i := i + 1;
      }
      assert keys[i..] == [];
      assert args + [] == args;
      p := Persisted(schema.insert, args, rows != 1);
    }
  }

  /** A Python list the caller owns: `findAll` appends to it in place. */
  class ArgList {
    var items: seq<Value>

    constructor (items: seq<Value>)
      ensures this.items == items
    {
      this.items := items;
    }

    /** `args.append(v)`. */
    method Append(v: Value)
      modifies this
      ensures items == old(items) + [v]
    {
      items := items + [v];
    }

    /** `args.extend(vs)`. */
    method Extend(vs: seq<Value>)
      modifies this
      ensures items == old(items) + vs
    {
      items := items + vs;
    }
  }

  // ----- attribute access ------------------------------------------------------

  /**
   * `getattr(self, key)`: a plain attribute left on the class is found
   * before the dict; otherwise `__getattr__` reads the dict and raises
   * AttributeError for an absent key.
   */
  function Attribute(s: Schema, items: map<string, Value>, key: string): Result<Value> {
    if key in s.classAttrs then Ok(s.classAttrs[key])
    else if key in items then Ok(items[key])
    else Err(NoAttribute(key))
  }

  /** `getValue`: `getattr(self, key, None)`. */
  function GetValue(s: Schema, items: map<string, Value>, key: string): Value {
    match Attribute(s, items, key)
    case Ok(v) => v
    case Err(_) => VNone
  }

  /**
   * `__getattr__` raises on a key neither on the class nor in the dict;
   * `getValue` returns the dict's value, or None, and never raises.
   */
  lemma AttributeAccess(s: Schema, items: map<string, Value>, key: string)
    requires key !in s.classAttrs
    ensures key !in items <==> Attribute(s, items, key) == Err(NoAttribute(key))
    ensures key in items ==> GetValue(s, items, key) == items[key]
    ensures key !in items ==> GetValue(s, items, key) == VNone
  {
  }

  /** After `setattr(self, key, v)`, `getValue(key)` is `v` unless a class attribute shadows it; other keys read as before. */
  lemma SetThenGet(s: Schema, items: map<string, Value>, key: string, v: Value)
    ensures forall k :: GetValue(s, items[key := v], k) ==
              if k == key && k !in s.classAttrs then v else GetValue(s, items, k)
  {
  }

  /**
   * `getValueOrDefault` as written: after a falsy value it looks up
   * `filter.default`, an attribute the builtin `filter` does not have, so
   * every falsy value raises and the default-filling branch never runs.
   */
  function GetValueOrDefault(s: Schema, items: map<string, Value>, key: string): (r: Result<Value>)
    ensures r.Ok? <==> Truthy(GetValue(s, items, key))
    ensures r.Ok? ==> r.value == GetValue(s, items, key)
    ensures r.Err? ==> r.error == (if key in s.mappings then FilterHasNoDefault else KeyError(key))
  {
    var value := GetValue(s, items, key);
    if Truthy(value) then Ok(value)
    else if key !in s.mappings then Err(KeyError(key))
    else Err(FilterHasNoDefault)
  }

  /**
   * The intended `getValueOrDefault`, with the instance dict it leaves: a
   * truthy value comes back unchanged; a falsy one is replaced by the
   * Field's default (what `made(key)` returns when the default is
   * callable), unless that default is None.
   */
  function ResolveDefault(s: Schema, items: map<string, Value>, key: string, made: string -> Value)
    : Result<(Value, map<string, Value>)>
  {
    var value := GetValue(s, items, key);
    if Truthy(value) then Ok((value, items))
    else if key !in s.mappings then Err(KeyError(key))
    else
      var d := s.mappings[key].default;
      if d == VNone then Ok((value, items))
      else
        var dv := if d.VCallable? then made(key) else d;
        Ok((dv, items[key := dv]))
  }

  /**
   * A truthy value is returned unchanged and the dict is left alone; a
   * falsy one with a default is replaced by the default, which `getValue`
   * then reads back; a falsy one whose default is None comes back as it is;
   * an unmapped falsy key raises KeyError; a second call changes nothing
   * further.
   */
  lemma ResolveDefaultProperties(s: Schema, items: map<string, Value>, key: string, made: string -> Value)
    ensures Truthy(GetValue(s, items, key)) ==>
              ResolveDefault(s, items, key, made) == Ok((GetValue(s, items, key), items))
    ensures !Truthy(GetValue(s, items, key)) && key in s.mappings && key !in s.classAttrs
            && s.mappings[key].default != VNone ==>
              var r := ResolveDefault(s, items, key, made);
              r.Ok? && r.value.0 == (if s.mappings[key].default.VCallable? then made(key) else s.mappings[key].default)
              && GetValue(s, r.value.1, key) == r.value.0
              && forall k :: k != key ==> GetValue(s, r.value.1, k) == GetValue(s, items, k)
    ensures !Truthy(GetValue(s, items, key)) && key in s.mappings && s.mappings[key].default == VNone ==>
              ResolveDefault(s, items, key, made) == Ok((GetValue(s, items, key), items))
    ensures !Truthy(GetValue(s, items, key)) && key !in s.mappings ==>
              ResolveDefault(s, items, key, made) == Err(KeyError(key))
    ensures ResolveDefault(s, items, key, made).Ok? ==>
              var (v, after) := ResolveDefault(s, items, key, made).value;
              ResolveDefault(s, after, key, made) == Ok((v, after))
  {
    var r := ResolveDefault(s, items, key, made);
    if r.Ok? && r.value.1 != items {
      SetThenGet(s, items, key, r.value.0);
      assert r.value.1[key := r.value.0] == r.value.1;
    }
  }

  /**
   * Where a falsy mapped value has a default, the code as written raises
   * while the intended resolution succeeds with that default.
   */
  lemma DefaultNeverApplied(s: Schema, items: map<string, Value>, key: string, made: string -> Value)
    requires key in s.mappings && s.mappings[key].default != VNone
    requires !Truthy(GetValue(s, items, key))
    ensures GetValueOrDefault(s, items, key) == Err(FilterHasNoDefault)
    ensures ResolveDefault(s, items, key, made).Ok?
    ensures ResolveDefault(s, items, key, made).value.0 ==
              if s.mappings[key].default.VCallable? then made(key) else s.mappings[key].default
  {
  }

  /** Resolves `keys` in order, each call seeing the dict the previous ones left. */
  function ResolveAll(s: Schema, items: map<string, Value>, keys: seq<string>, made: string -> Value)
    : (seq<Value>, map<string, Value>)
    requires forall k <- keys :: k in s.mappings
    decreases |keys|
  {
    if keys == [] then ([], items)
    else
      var (v, after) := ResolveDefault(s, items, keys[0], made).value;
      var (vs, last) := ResolveAll(s, after, keys[1..], made);
      ([v] + vs, last)
  }

  /** With distinct keys, each value is what resolving that key alone against the original dict gives. */
  lemma {:induction false} ResolveAllEach(s: Schema, items: map<string, Value>, keys: seq<string>, made: string -> Value)
    requires forall k <- keys :: k in s.mappings
    requires forall p, q :: 0 <= p < q < |keys| ==> keys[p] != keys[q]
    ensures |ResolveAll(s, items, keys, made).0| == |keys|
    ensures forall p :: 0 <= p < |keys| ==>
              ResolveAll(s, items, keys, made).0[p] == ResolveDefault(s, items, keys[p], made).value.0
    decreases |keys|
  {
    if keys != [] {
      var after := ResolveDefault(s, items, keys[0], made).value.1;
      ResolveAllEach(s, after, keys[1..], made);
      forall p | 1 <= p < |keys|
        ensures ResolveAll(s, items, keys, made).0[p] == ResolveDefault(s, items, keys[p], made).value.0
      {
        assert keys[1..][p - 1] == keys[p];
        if after != items {
          SetThenGet(s, items, keys[0], ResolveDefault(s, items, keys[0], made).value.0);
        }
        assert GetValue(s, after, keys[p]) == GetValue(s, items, keys[p]);
      }
    }
  }

  // ----- save, update, remove --------------------------------------------------

  /** `list(map(self.getValueOrDefault, keys))` as written: stops at the first raise. */
  function SaveValues(s: Schema, items: map<string, Value>, keys: seq<string>): Result<seq<Value>>
    decreases |keys|
  {
    if keys == [] then Ok([])
    else match GetValueOrDefault(s, items, keys[0])
      case Err(e) => Err(e)
      case Ok(v) =>
        match SaveValues(s, items, keys[1..])
        case Err(e) => Err(e)
        case Ok(vs) => Ok([v] + vs)
  }

  /** `save` as written: the non-key values, then the key, bound to the insert template. */
  function Save(s: Schema, items: map<string, Value>, rows: int): Result<Persisted> {
    match SaveValues(s, items, s.fields + [s.primaryKey])
    case Err(e) => Err(e)
    case Ok(args) => Ok(Persisted(s.insert, args, rows != 1))
  }

  lemma {:induction false} SaveValuesAsWritten(s: Schema, items: map<string, Value>, keys: seq<string>)
    ensures SaveValues(s, items, keys).Ok? <==> forall k <- keys :: Truthy(GetValue(s, items, k))
    ensures SaveValues(s, items, keys).Ok? ==>
              SaveValues(s, items, keys).value == seq(|keys|, p requires 0 <= p < |keys| => GetValue(s, items, keys[p]))
    ensures SaveValues(s, items, keys).Err? && (forall k <- keys :: k in s.mappings) ==>
              SaveValues(s, items, keys).error == FilterHasNoDefault
    decreases |keys|
  {
    if keys != [] {
      SaveValuesAsWritten(s, items, keys[1..]);
      assert forall k <- keys[1..] :: k in keys;
      assert forall k <- keys :: k == keys[0] || k in keys[1..];
    }
  }

  /**
   * `save` as written succeeds exactly when every non-key value and the key
   * value are truthy; it then binds them in `__fields__` order, key last.
   * On a registered class any falsy value raises the `filter.default`
   * AttributeError. The affected-row count only decides the warning.
   */
  lemma SaveAsWritten(s: Schema, items: map<string, Value>, rows: int)
    ensures var keys := s.fields + [s.primaryKey];
            Save(s, items, rows).Ok? <==> forall k <- keys :: Truthy(GetValue(s, items, k))
    ensures Save(s, items, rows).Ok? ==>
              var p := Save(s, items, rows).value;
              p.sql == s.insert && p.warned == (rows != 1) && |p.args| == |s.fields| + 1
              && (forall q :: 0 <= q < |s.fields| ==> p.args[q] == GetValue(s, items, s.fields[q]))
              && p.args[|s.fields|] == GetValue(s, items, s.primaryKey)
    ensures WellFormed(s) && Save(s, items, rows).Err? ==> Save(s, items, rows).error == FilterHasNoDefault
  {
    var keys := s.fields + [s.primaryKey];
    SaveValuesAsWritten(s, items, keys);
  }

  /**
   * `save` as intended binds, for each non-key field and then the key, the
   * value resolving that column alone would give; it never raises.
   */
  lemma SaveIntendedArgs(s: Schema, items: map<string, Value>, made: string -> Value)
    requires WellFormed(s) && DistinctColumns(s)
    ensures var keys := s.fields + [s.primaryKey];
            var args := ResolveAll(s, items, keys, made).0;
            |args| == |s.fields| + 1
            && (forall q :: 0 <= q < |s.fields| ==> args[q] == ResolveDefault(s, items, s.fields[q], made).value.0)
            && args[|s.fields|] == ResolveDefault(s, items, s.primaryKey, made).value.0
  {
    var keys := s.fields + [s.primaryKey];
    assert forall p, q :: 0 <= p < q < |keys| ==> keys[p] != keys[q] by {
      forall p, q | 0 <= p < q < |keys| ensures keys[p] != keys[q] {
        if q == |s.fields| {
          assert keys[p] in s.fields;
        }
      }
    }
    ResolveAllEach(s, items, keys, made);
  }

  /** `map(self.getValue, self.__fields__)` followed by the key value. */
  function UpdateValues(s: Schema, items: map<string, Value>): (r: seq<Value>)
    ensures |r| == |s.fields| + 1
    ensures forall q :: 0 <= q < |s.fields| ==> r[q] == GetValue(s, items, s.fields[q])
    ensures r[|s.fields|] == GetValue(s, items, s.primaryKey)
  {
    seq(|s.fields|, q requires 0 <= q < |s.fields| => GetValue(s, items, s.fields[q])) + [GetValue(s, items, s.primaryKey)]
  }

  /** `update` as written: current values, no default substitution, bound to `__update__`. */
  function Update(s: Schema, items: map<string, Value>, rows: int): Persisted {
    Persisted(s.update, UpdateValues(s, items), rows != 1)
  }

  /** `update` with the evidently intended template, whose last placeholder binds the key. */
  function IntendedUpdate(s: Schema, items: map<string, Value>, rows: int): Persisted
    requires WellFormed(s)
  {
    Persisted(IntendedUpdateTemplate(s.table, s.primaryKey, s.fields, s.mappings), UpdateValues(s, items), rows != 1)
  }

  /** `remove`: the key value alone, bound to `__delete__`. */
  function Remove(s: Schema, items: map<string, Value>, rows: int): (p: Persisted)
    ensures p.args == [GetValue(s, items, s.primaryKey)]
    ensures p.sql == s.delete && p.warned == (rows != 1)
  {
    Persisted(s.delete, [GetValue(s, items, s.primaryKey)], rows != 1)
  }

  /**
   * On a templated schema whose identifiers hold no `?`: the insert and
   * delete statements bind exactly as many values as they have
   * placeholders; the update statement as written binds one value more than
   * its placeholders (the key has none), and the intended one matches.
   */
  lemma PlaceholdersMatchArgs(s: Schema, items: map<string, Value>, rows: int)
    requires WellFormed(s) && Templated(s)
    requires QuestionFree(s.table, s.primaryKey, s.fields, s.mappings)
    ensures Save(s, items, rows).Ok? ==> Count('?', Save(s, items, rows).value.sql) == |Save(s, items, rows).value.args|
    ensures Count('?', Remove(s, items, rows).sql) == |Remove(s, items, rows).args|
    ensures Count('?', Update(s, items, rows).sql) + 1 == |Update(s, items, rows).args|
    ensures Count('?', IntendedUpdate(s, items, rows).sql) == |IntendedUpdate(s, items, rows).args|
  {
    SaveAsWritten(s, items, rows);
    InsertPlaceholders(s.table, s.primaryKey, s.fields);
    DeletePlaceholders(s.table, s.primaryKey);
    UpdatePlaceholders(s.table, s.primaryKey, s.fields, s.mappings);
    IntendedUpdatePlaceholders(s.table, s.primaryKey, s.fields, s.mappings);
  }

  // ----- class-level queries --------------------------------------------------

  /** The `limit` keyword: a tuple (of any length) or any other value; None stands for "no limit". */
  datatype LimitArg = Scalar(v: Value) | Tuple(elems: seq<Value>)

  /** The words and values a limit adds, or the ValueError a wrong shape raises. */
  function LimitClause(limit: LimitArg): Result<(seq<string>, seq<Value>)> {
    match limit
    case Scalar(v) =>
      if v == VNone then Ok(([], []))
      else if IsInt(v) then Ok((["limit", "?"], [v]))
      else Err(InvalidLimit)
    case Tuple(elems) =>
      if |elems| == 2 then Ok((["limit", "?, ?"], elems)) else Err(InvalidLimit)
  }

  /** The select template and the `where` and `order by` clauses that are present. */
  function FindAllParts(s: Schema, where: string, orderBy: string): seq<string> {
    [s.select] + (if where != "" then ["where", where] else []) + (if orderBy != "" then ["order by", orderBy] else [])
  }

  /**
   * The statement `findAll` hands to `select`: `where` and `orderBy` are
   * strings, '' standing also for None (both are falsy); `args` is the
   * caller's list ([] for None).
   */
  function FindAllQuery(s: Schema, where: string, args: seq<Value>, orderBy: string, limit: LimitArg): Result<Query> {
    match LimitClause(limit)
    case Err(e) => Err(e)
    case Ok((words, values)) => Ok(Query(Join(" ", FindAllParts(s, where, orderBy) + words), args + values, None))
  }

  /**
   * `findAll` up to the call to `select`: grows the list of SQL words and
   * appends the limit values to the caller's `args` list in place (a fresh
   * list when `args` is None). A bad limit raises before anything is
   * appended.
   */
  method FindAll(s: Schema, where: string, args: ArgList?, orderBy: string, limit: LimitArg) returns (r: Result<Query>)
    modifies args
    ensures r == FindAllQuery(s, where, if args == null then [] else old(args.items), orderBy, limit)
    ensures args != null ==> args.items == if r.Ok? then r.value.args else old(args.items)
  {
    var sql := [s.select];
    if where != "" {
      sql := sql + ["where", where];
    }
    var list: ArgList;
    if args == null {
      list := new ArgList([]);
    } else {
      list := args;
    }
    if orderBy != "" {
      sql := sql + ["order by", orderBy];
    }
    assert sql == FindAllParts(s, where, orderBy);
    ghost var start := list.items;
    assert start == if args == null then [] else old(args.items);
    if limit != Scalar(VNone) {
      sql := sql + ["limit"];
      if limit.Scalar? && IsInt(limit.v) {
        sql := sql + ["?"];
        list.Append(limit.v);
        assert sql == FindAllParts(s, where, orderBy) + ["limit", "?"];
        assert LimitClause(limit) == Ok((["limit", "?"], [limit.v]));
        assert list.items == start + [limit.v];
      } else if limit.Tuple? && |limit.elems| == 2 {
        sql := sql + ["?, ?"];
        list.Extend(limit.elems);
        assert sql == FindAllParts(s, where, orderBy) + ["limit", "?, ?"];
        assert LimitClause(limit) == Ok((["limit", "?, ?"], limit.elems));
        assert list.items == start + limit.elems;
      } else {
        return Err(InvalidLimit);
      }
    } else {
      assert sql == FindAllParts(s, where, orderBy) + [];
      assert LimitClause(limit) == Ok(([], []));
      assert list.items == start + [];
    }
    r := Ok(Query(Join(" ", sql), list.items, None));
  }

  /** ` <word> <value>` when `value` is non-empty, else nothing. */
  function Clause(word: string, value: string): string {
    if value != "" then " " + word + " " + value else ""
  }

  /** The text a limit adds: `limit ?` or `limit ?, ?` after one space, or nothing. */
  function LimitText(limit: LimitArg): string {
    match limit
    case Scalar(v) => if v == VNone then "" else Clause("limit", "?")
    case Tuple(_) => Clause("limit", "?, ?")
  }

  /** Appending a present clause's two words adds the clause's text. */
  lemma JoinClause(a: seq<string>, word: string, value: string)
    requires |a| > 0 && value != ""
    ensures Join(" ", a + [word, value]) == Join(" ", a) + Clause(word, value)
  {
    JoinSnoc2(" ", a, word, value);
  }

  lemma PartsSql(s: Schema, where: string, orderBy: string)
    ensures Join(" ", FindAllParts(s, where, orderBy)) == s.select + Clause("where", where) + Clause("order by", orderBy)
  {
    var a := [s.select] + (if where != "" then ["where", where] else []);
    if where != "" {
      JoinClause([s.select], "where", where);
    } else {
      assert a == [s.select];
    }
    if orderBy != "" {
      JoinClause(a, "order by", orderBy);
    } else {
      assert FindAllParts(s, where, orderBy) == a;
    }
  }

  lemma LimitSql(a: seq<string>, limit: LimitArg)
    requires |a| > 0 && LimitClause(limit).Ok?
    ensures Join(" ", a + LimitClause(limit).value.0) == Join(" ", a) + LimitText(limit)
  {
    var words := LimitClause(limit).value.0;
    if words == [] {
      assert a + words == a;
    } else {
      JoinClause(a, "limit", words[1]);
    }
  }

  /**
   * The SQL of `findAll` is the select template followed, each after one
   * space, by `where <where>` and `order by <orderBy>` when they are
   * non-empty, then `limit ?` or `limit ?, ?`.
   */
  lemma FindAllSql(s: Schema, where: string, args: seq<Value>, orderBy: string, limit: LimitArg)
    requires FindAllQuery(s, where, args, orderBy, limit).Ok?
    ensures FindAllQuery(s, where, args, orderBy, limit).value.sql ==
              s.select + Clause("where", where) + Clause("order by", orderBy) + LimitText(limit)
  {
    PartsSql(s, where, orderBy);
    LimitSql(FindAllParts(s, where, orderBy), limit);
  }

  lemma ClauseCount(word: string, value: string)
    requires '?' !in word
    ensures Count('?', Clause(word, value)) == Count('?', value)
  {
    if value != "" {
      CountSkip('?', " " + word + " ", value);
    } else {
      CountAbsent('?', value);
    }
  }

  lemma LimitCount(limit: LimitArg)
    requires LimitClause(limit).Ok?
    ensures Count('?', LimitText(limit)) == |LimitClause(limit).value.1|
  {
    match limit
    case Scalar(v) =>
      if v != VNone {
        ClauseCount("limit", "?");
      }
    case Tuple(_) =>
      ClauseCount("limit", "?, ?");
      CountAppend('?', "?", ", ?");
  }

  /**
   * A limit is accepted exactly when it is None, an int (bool included) or
   * a 2-tuple; it adds one placeholder per value it appends to the caller's
   * arguments, and the arguments are otherwise passed on unchanged.
   */
  lemma FindAllLimit(s: Schema, where: string, args: seq<Value>, orderBy: string, limit: LimitArg)
    ensures FindAllQuery(s, where, args, orderBy, limit).Ok? <==>
              (limit == Scalar(VNone) || (limit.Scalar? && IsInt(limit.v)) || (limit.Tuple? && |limit.elems| == 2))
    ensures FindAllQuery(s, where, args, orderBy, limit).Err? ==>
              FindAllQuery(s, where, args, orderBy, limit).error == InvalidLimit
    ensures FindAllQuery(s, where, args, orderBy, limit).Ok? ==>
              var q := FindAllQuery(s, where, args, orderBy, limit).value;
              q.size == None
              && q.args == args + (match limit case Scalar(v) => if v == VNone then [] else [v] case Tuple(e) => e)
              && Count('?', q.sql) == Count('?', s.select) + Count('?', where) + Count('?', orderBy) + |q.args| - |args|
  {
    if FindAllQuery(s, where, args, orderBy, limit).Ok? {
      FindAllSql(s, where, args, orderBy, limit);
      var w := Clause("where", where);
      var o := Clause("order by", orderBy);
      ClauseCount("where", where);
      ClauseCount("order by", orderBy);
      LimitCount(limit);
      CountAppend('?', s.select, w);
      CountAppend('?', s.select + w, o);
      CountAppend('?', s.select + w + o, LimitText(limit));
    }
  }

  /** `findNumber`: `select <expr> _num_ from <table>`, an optional where clause, the caller's args, one row. */
  function FindNumber(s: Schema, selectField: string, where: string, args: seq<Value>): Query {
    var parts := ["select " + selectField + " _num_ from " + Quote(s.table)]
                 + (if where != "" then ["where", where] else []);
    Query(Join(" ", parts), args, Some(1))
  }

  lemma FindNumberSql(s: Schema, selectField: string, where: string, args: seq<Value>)
    ensures FindNumber(s, selectField, where, args).sql ==
              "select " + selectField + " _num_ from " + Quote(s.table) + (if where != "" then " where " + where else "")
    ensures FindNumber(s, selectField, where, args).args == args
    ensures FindNumber(s, selectField, where, args).size == Some(1)
  {
    var head := ["select " + selectField + " _num_ from " + Quote(s.table)];
    if where != "" {
      JoinConcat(" ", head, ["where", where]);
    }
  }

  /** `res[0]['_num_']`, or None when `select` returned no row. */
  function NumberResult(rows: seq<Row>): (r: Result<Option<Value>>)
    ensures rows == [] ==> r == Ok(None)
    ensures rows != [] && "_num_" in rows[0] ==> r == Ok(Some(rows[0]["_num_"]))
    ensures rows != [] && "_num_" !in rows[0] ==> r == Err(MissingColumn("_num_"))
  {
    if |rows| == 0 then Ok(None)
    else if "_num_" in rows[0] then Ok(Some(rows[0]["_num_"]))
    else Err(MissingColumn("_num_"))
  }

  /** `find`: the select template restricted to the key, binding the key value alone, one row. */
  function Find(s: Schema, pk: Value): Query {
    Query(s.select + " where " + Quote(s.primaryKey) + " = ?", [pk], Some(1))
  }

  /** On a templated schema whose identifiers hold no `?`, `find` has one placeholder for its one value. */
  lemma FindBindsKey(s: Schema, pk: Value)
    requires WellFormed(s) && Templated(s)
    requires QuestionFree(s.table, s.primaryKey, s.fields, s.mappings)
    ensures Count('?', Find(s, pk).sql) == |Find(s, pk).args| == 1
    ensures Find(s, pk).size == Some(1)
  {
    SelectPlaceholders(s.table, s.primaryKey, s.fields);
    CountAbsent('?', s.primaryKey);
    QuoteCount('?', s.primaryKey);
    CountSkipEnd('?', s.select, " where ");
    CountAppend('?', s.select + " where ", Quote(s.primaryKey));
    CountMarkEnd(s.select + " where " + Quote(s.primaryKey));
  }

  /** `find`'s result: the first row as a new instance's dict, or None. */
  function FindResult(rows: seq<Row>): (r: Option<Row>)
    ensures r == None <==> rows == []
    ensures r.Some? ==> r.value == rows[0]
  {
    if |rows| == 0 then None else Some(rows[0])
  }

  /** `[cls(**r) for r in res]`: one new instance per fetched row, its dict the row. */
  method Materialize(s: Schema, rows: seq<Row>) returns (records: seq<Record>)
    ensures |records| == |rows|
    ensures forall k :: 0 <= k < |records| ==>
              fresh(records[k]) && records[k].schema == s && records[k].items == rows[k]
  {
    records := [];
    var k := 0;
    while k < |rows|
      invariant 0 <= k <= |rows| && |records| == k
      invariant forall j :: 0 <= j < k ==> fresh(records[j]) && records[j].schema == s && records[j].items == rows[j]
    {
      var rec := new Record(s, rows[k]);
      records := records + [rec];
      k := k + 1;
    }
  }

  /** `sql.replace('?', '%s')` on a statement: the driver sees one marker per placeholder. */
  lemma DriverSeesArgs(q: Query)
    requires '%' !in q.sql && Count('?', q.sql) == |q.args|
    ensures Count('%', ToDriver(q.sql)) == |q.args|
    ensures FromDriver(ToDriver(q.sql)) == q.sql
  {
    DriverMarkers(q.sql);
    CountAbsent('%', q.sql);
    DriverRoundTrip(q.sql);
  }
}
