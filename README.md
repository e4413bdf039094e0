# orm: a verified model of the mapper core

This project models the core of `www/orm.py`, a small object-relational
mapper over MySQL. A class that subclasses `Model` declares its columns as
`Field` attributes. When the class statement runs, the metaclass
`ModelMetaClass` registers it:
- it scans the class body;
- it picks exactly one primary key;
- it takes the Fields off the class;
- it builds four SQL templates: select, insert, update and delete.

An instance is a dict read and written through attribute syntax. The class
methods `findAll`, `findNumber` and `find` build the statement they hand to
`select`. The instance methods `save`, `update` and `remove` build the
statement and arguments they hand to `execute`. Both gateways rewrite every
`?` into the driver's `%s` marker.

Modules:

- `values.dfy` (`PyValues`): Python values as the mapper sees them, with
  truthiness (`if x:`), `isinstance(x, int)` (bool included) and `str()`. It
  also holds the error outcomes.
- `text.dfy` (`Text`): `str.join`, backtick quoting, `create_args_string`,
  and the `?`→`%s` rewrite with its inverse.
- `fields.dfy` (`Fields`): `Field` and its five subclasses.
- `registry.dfy` (`Registry`): `ModelMetaClass.__new__`. The specification
  function `Register` is defined over the class body in declaration order.
  Two methods implement it and are proved against it: `RegisterClass`, the
  scan loop, and `PopFields`, the pop loop.
- `records.dfy` (`Records`): the instance (class `Record`, whose dict is
  updated in place), attribute lookup, `getValue`, `getValueOrDefault`,
  `save`, `update`, `remove`, `findAll` (method `FindAll`, which appends to
  the caller's list `ArgList` in place), `findNumber` and `find`.

Python's truthiness is written out wherever the code relies on it:
- The key loop keeps `primaryKey` falsy until it meets a key Field whose
  attribute name is non-empty. A key Field stored under `''` therefore
  never becomes the key and does not make a later key a duplicate; after a
  named key, however, it is itself reported as the duplicate (with the
  name `''`).
- `where` and `orderBy` are strings; `''` also stands for `None`.
- A falsy or absent `__table__` falls back to the class name; any truthy
  value is kept and rendered with `str()` in the templates.

Behaviours of the code a reader may not expect, all modelled as written:
- The update template separates assignments with `', '` and ends in `= >`
  rather than `= ?`.
- The insert template reads `values(` with no space.
- A Field's `name` is not defaulted to the attribute name. Only the update
  template uses `name or attr`.
- `getValueOrDefault` raises on every falsy value instead of filling in
  the default.
- Reading an undeclared key is not always an error: a plain class attribute
  is found before the dict.
- `Model` defines `__index__`, not `__init__`, so `cls(**kw)` builds the
  dict from `kw` alone.

## Model

| member | source | states |
|---|---|---|
| Text.CreateArgsString | www/orm.py:114-119 | the loop's result is `num` question marks joined by commas (`ArgsString(num)`), and empty for `num <= 0` |
| Text.ArgsStringShape | www/orm.py:114-119 | for n ≥ 1 the placeholder list has length 2n−1, with `?` at even positions and `,` at odd positions |
| Text.ArgsStringCount | www/orm.py:114-119 | the placeholder list holds exactly n question marks and n−1 commas |
| Text.ToDriver | www/orm.py:76 | the rewritten SQL holds no `?` and is one character longer per `?` |
| Text.DriverMarkers | www/orm.py:99 | every `?` becomes one `%` marker and no other character does |
| Text.DriverRoundTrip | www/orm.py:76 | on SQL without a literal `%`, reading the markers back restores the SQL exactly |
| Fields.FieldConventions | www/orm.py:138-160 | each subclass's column type and default; Boolean and Text fields can never be keys, while the others are keys exactly when `primary_key` is truthy |
| Registry.FirstNamed | www/orm.py:199-205 | the position of the first key name that is non-empty, with every earlier one `''` |
| Registry.RegisterClass | www/orm.py:179-239 | the scan loop (mappings, fields, key, duplicate check, pop, templates) returns exactly `Register(name, attrs)` |
| Registry.PopFields | www/orm.py:215-216 | popping every mapped name leaves exactly the non-Field, non-metadata attributes (`ClassAttrs`) |
| Registry.RegisterOutcome | www/orm.py:181-212 | with no key Field under `''`: `Model` is exempt; no key Field gives "Primary key is not found"; exactly one key Field gives success; two or more give "Duplicate primary key" naming the second — each case an if-and-only-if |
| Registry.UnkeyableFieldsNeverRegister | www/orm.py:143-160 | a class whose Fields were all built by `BooleanField(...)` or `TextField(...)` never registers: the key is not found |
| Registry.RegisteredKey | www/orm.py:199-205 | the key is a non-empty name holding a key Field, is mapped to a key Field, is not among `__fields__`, and every other key Field sits under `''` |
| Registry.RegisteredFields | www/orm.py:192-207 | `__fields__` lists the non-key Field attributes in declaration order, without repeats, each mapped to a non-key Field |
| Registry.RegisteredMappings | www/orm.py:192-197 | `__mappings__` holds every Field attribute unchanged and nothing else |
| Registry.RegisteredMappingKeys | www/orm.py:189-207 | with no key Field under `''`, the mapped names are exactly the non-key fields plus the key |
| Registry.RegisteredClassAttrs | www/orm.py:215-228 | registration removes every Field from the class and leaves every other non-metadata attribute as declared |
| Registry.TableNameChoice | www/orm.py:185 | the table is `__table__` when that is truthy: a string as it is, any other value (a Field included) as `str()` renders it; the class name when `__table__` is absent or falsy |
| Registry.SelectPlaceholders | www/orm.py:232 | the select template has no placeholder |
| Registry.InsertPlaceholders | www/orm.py:233-234 | the insert template has one placeholder per non-key field plus one for the key |
| Registry.UpdatePlaceholders | www/orm.py:235-236 | as written, the update template has one placeholder per non-key field and none for the key |
| Registry.IntendedUpdatePlaceholders | www/orm.py:235-236 | the intended update template (ending `= ?`) has one placeholder per non-key field plus one for the key |
| Registry.DeletePlaceholders | www/orm.py:237 | the delete template has exactly one placeholder |
| Records.RegisteredSchema | www/orm.py:222-237 | a registered schema maps every field and the key, its templates are built from its own table, key and fields, and (for a body without repeated names) no column is bound twice |
| Records.Record.constructor | www/orm.py:249-251 | a new instance's dict is exactly the keyword arguments |
| Records.Record.SetAttr | www/orm.py:259-260 | assignment stores the key in the dict; `getValue` then sees the new value unless a class attribute shadows it, and every other key reads as before |
| Records.SetThenGet | www/orm.py:259-264 | after storing `key`, `getValue(key)` is the stored value unless a class attribute shadows it; other keys are unchanged |
| Records.AttributeAccess | www/orm.py:253-264 | for a key not on the class: attribute access raises exactly when the key is absent from the dict, and `getValue` returns the stored value or None |
| Records.GetValueOrDefault | www/orm.py:266-274 | as written: succeeds exactly on a truthy value and returns it; any falsy value raises, with KeyError for an unmapped key and the `filter.default` AttributeError otherwise |
| Records.DefaultNeverApplied | www/orm.py:266-274 | on a falsy mapped value with a default, the code as written raises while the intended version returns the default |
| Records.Record.GetValueOrDefaultIntended | www/orm.py:266-274 | the intended lookup returns and leaves the dict exactly as `ResolveDefault` says |
| Records.ResolveDefaultProperties | www/orm.py:266-274 | intended: a truthy value is returned and the dict is unchanged; a falsy value with a default is replaced by the default (the factory's result for a callable), which `getValue` then reads back, and no other key changes; a falsy value whose default is None comes back unchanged with the dict untouched; an unmapped falsy key raises KeyError; a second call changes nothing |
| Records.ResolveAllEach | www/orm.py:327-328 | resolving distinct keys in turn gives, for each key, what resolving it alone against the original dict gives |
| Records.Record.SaveIntended | www/orm.py:326-331 | intended `save`: binds the resolved non-key values then the key to the insert template; the dict gains the defaults; the warning flag is `rows != 1` |
| Records.SaveIntendedArgs | www/orm.py:326-328 | intended `save` never raises and binds, in `__fields__` order with the key last, each column's own resolved value |
| Records.SaveValuesAsWritten | www/orm.py:327-328 | `list(map(getValueOrDefault, keys))` succeeds exactly when every value is truthy, then yields the values in order; on mapped keys every failure is the `filter.default` error |
| Records.SaveAsWritten | www/orm.py:326-331 | `save` as written succeeds exactly when all non-key values and the key value are truthy. It then binds them in order, key last, to the insert template, and warns exactly when `rows != 1`. On a well-formed schema every failure is the `filter.default` error |
| Records.UpdateValues | www/orm.py:334-335 | `update` binds the current non-key values in `__fields__` order, then the key value, with no default substitution |
| Records.Remove | www/orm.py:340-344 | `remove` binds the key value alone to the delete template and warns exactly when `rows != 1` |
| Records.PlaceholdersMatchArgs | www/orm.py:326-344 | insert and delete bind exactly as many values as they have placeholders; update as written binds one value more than its placeholders, and the intended update matches |
| Records.ArgList.Append | www/orm.py:297 | `args.append(limit)` adds one value at the end of the caller's list |
| Records.ArgList.Extend | www/orm.py:300 | `args.extend(limit)` adds the tuple's values at the end of the caller's list |
| Records.FindAll | www/orm.py:278-303 | the statement is `FindAllQuery`. The caller's list ends up holding the bound arguments, or is left untouched when the limit is rejected. A fresh list is used when none is given |
| Records.FindAllSql | www/orm.py:280-303 | the SQL is the select template, then ` where w` and ` order by o` when present, then ` limit ?` or ` limit ?, ?` |
| Records.FindAllLimit | www/orm.py:292-302 | a limit is accepted exactly when it is None, an int (bool included) or a 2-tuple, else ValueError. It appends its values to the arguments and adds exactly one placeholder per appended value |
| Records.FindNumberSql | www/orm.py:307-313 | the SQL is `select e _num_ from` the quoted table, plus ` where w` when given; the arguments pass unchanged; one row is fetched |
| Records.NumberResult | www/orm.py:313-316 | None for no row, the `_num_` column of the first row otherwise, KeyError when that column is missing |
| Records.FindBindsKey | www/orm.py:321 | `find` adds a key condition to the select template: exactly one placeholder, one bound value, one row fetched |
| Records.FindResult | www/orm.py:321-324 | None exactly when no row came back, else the first row as the new instance's dict |
| Records.Materialize | www/orm.py:304 | one fresh instance per fetched row, in order, each with that row as its dict |
| Records.DriverSeesArgs | www/orm.py:76 | when the SQL has as many `?` as bound values and no literal `%`, the driver sees exactly one `%s` marker per value, and the rewrite loses nothing |

## Left out

- `Fields.FieldText`: the module part of a Field's class name is fixed as `orm`, whereas Python shows whatever path imported the file (`www.orm`, `__main__`); this only shows when a Field is declared as `__table__`.
- The connection pool, `select`/`execute` against the database, and every `await`. The rows `select` returns and the affected-row count `execute` reports are parameters.
- Logging (`log`, `logging.info`/`debug`/`warning`). A warning is modelled as the boolean `warned`.
- Calling a callable default. What the factory returns is the parameter `made(key)`.
- Float arithmetic. A float is carried by its repr and only its truthiness is used.
- The `__main__` block.
- Attribute lookup of the metadata names (`__fields__` and the others) and of methods inherited from `dict` and `Model`. Class attributes cover only the plain attributes declared in the class body.
- `where`, `orderBy` and `selectField` of any type other than `str`; `''` stands for `None`.
- `bases`: inheritance of Fields from a parent mapped class is not modelled, since the code looks only at the class's own body.
- `autocommit`, `commit` and `rollback` in `execute`. Errors raised by the driver are not modelled.
- `Records.FindAll`: the model stops at the statement handed to `select`. `Records.Materialize` models the list comprehension that follows.

## Findings

| source | as written | input that shows it | evidently intended | confidence | as-written member | corrected member |
|---|---|---|---|---|---|---|
| www/orm.py:235 | the update template ends in `= >`, so the key has no placeholder while `update` binds the key as a last value | any mapped class, e.g. key `id` and field `name`: `update `User` set `name`=? where `id` = >` with two bound values | `= ?`, binding the key | high; not executed | Registry.UpdatePlaceholders, Records.PlaceholdersMatchArgs | Registry.IntendedUpdatePlaceholders, Records.IntendedUpdate |
| www/orm.py:270 | `filter.default` reads an attribute of the builtin `filter`, which has none, so every falsy value makes `getValueOrDefault` (and so `save`) raise AttributeError | saving an instance whose `IntegerField` column holds `0` or whose `StringField` column is missing | `field.default`: fill in the Field's default, store it, and return it | high; not executed | Records.GetValueOrDefault, Records.DefaultNeverApplied, Records.SaveAsWritten | Records.Record.GetValueOrDefaultIntended, Records.ResolveDefaultProperties, Records.Record.SaveIntended, Records.SaveIntendedArgs |
