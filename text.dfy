/**
 * String building shared by the templates and the queries: `str.join`,
 * backtick quoting, the placeholder list of `create_args_string`
 * (www/orm.py:114-119) and the `'?'` to `'%s'` rewrite that `select` and
 * `execute` apply before handing SQL to the driver (www/orm.py:76, 99).
 */
module Text {

  /** `sep.join(parts)`. */
  function Join(sep: string, parts: seq<string>): string
    decreases |parts|
  {
    if |parts| == 0 then ""
    else if |parts| == 1 then parts[0]
    else Join(sep, parts[..|parts| - 1]) + sep + parts[|parts| - 1]
  }

  /** Joining two non-empty lists: the separator goes between them once. */
  lemma {:induction false} JoinConcat(sep: string, xs: seq<string>, ys: seq<string>)
    requires |xs| > 0 && |ys| > 0
    ensures Join(sep, xs + ys) == Join(sep, xs) + sep + Join(sep, ys)
    decreases |ys|
  {
    if |ys| == 1 {
      assert (xs + ys)[..|xs + ys| - 1] == xs;
    } else {
      assert (xs + ys)[..|xs + ys| - 1] == xs + ys[..|ys| - 1];
      JoinConcat(sep, xs, ys[..|ys| - 1]);
    }
  }

  /** Appending two parts to a non-empty list. */
  lemma {:induction false} JoinSnoc2(sep: string, a: seq<string>, w: string, v: string)
    requires |a| > 0
    ensures Join(sep, a + [w, v]) == Join(sep, a) + (sep + w + sep + v)
  {
    assert (a + [w, v])[..|a| + 1] == a + [w];
    assert (a + [w])[..|a|] == a;
  }

  /** The number of occurrences of `c` in `s`. */
  function Count(c: char, s: string): nat {
    if s == "" then 0 else (if s[0] == c then 1 else 0) + Count(c, s[1..])
  }

  lemma {:induction false} CountAppend(c: char, a: string, b: string)
    ensures Count(c, a + b) == Count(c, a) + Count(c, b)
  {
    if a == "" {
      assert a + b == b;
    } else {
      assert (a + b)[1..] == a[1..] + b;
      CountAppend(c, a[1..], b);
    }
  }

  lemma {:induction false} CountAbsent(c: char, s: string)
    requires c !in s
    ensures Count(c, s) == 0
  {
    if s != "" {
      CountAbsent(c, s[1..]);
    }
  }

  /** A prefix without `c` adds nothing. */
  lemma CountSkip(c: char, a: string, x: string)
    requires c !in a
    ensures Count(c, a + x) == Count(c, x)
  {
    CountAppend(c, a, x);
    CountAbsent(c, a);
  }

  /** A suffix without `c` adds nothing. */
  lemma CountSkipEnd(c: char, x: string, a: string)
    requires c !in a
    ensures Count(c, x + a) == Count(c, x)
  {
    CountAppend(c, x, a);
    CountAbsent(c, a);
  }

  /** A suffix with one `?` after a space-padded `=` adds one. */
  lemma CountMarkEnd(x: string)
    ensures Count('?', x + " = ?") == Count('?', x) + 1
  {
    CountAppend('?', x, " = ?");
  }

  /** The sum of `Count(c, p)` over the parts. */
  function CountAll(c: char, parts: seq<string>): nat
    decreases |parts|
  {
    if |parts| == 0 then 0 else CountAll(c, parts[..|parts| - 1]) + Count(c, parts[|parts| - 1])
  }

  /** Joining adds no occurrence of a character the separator lacks. */
  lemma {:induction false} CountJoin(c: char, sep: string, parts: seq<string>)
    requires c !in sep
    ensures Count(c, Join(sep, parts)) == CountAll(c, parts)
    decreases |parts|
  {
    if |parts| == 1 {
      assert parts[..0] == [];
    } else if |parts| > 1 {
      var init := parts[..|parts| - 1];
      CountJoin(c, sep, init);
      CountAppend(c, Join(sep, init), sep);
      CountAppend(c, Join(sep, init) + sep, parts[|parts| - 1]);
      CountAbsent(c, sep);
    }
  }

  /** Python's '`%s`' % name. */
  function Quote(name: string): string {
    "`" + name + "`"
  }

  /** `map(lambda f: '`%s`' % f, names)`. */
  function QuoteAll(names: seq<string>): (r: seq<string>)
    ensures |r| == |names|
    ensures forall k :: 0 <= k < |r| ==> r[k] == Quote(names[k])
  {
    seq(|names|, k requires 0 <= k < |names| => Quote(names[k]))
  }

  /** The placeholder list for `n` values: `n` question marks joined by commas. */
  function ArgsString(n: int): string
    decreases n
  {
    if n <= 0 then "" else if n == 1 then "?" else ArgsString(n - 1) + ",?"
  }

  lemma {:induction false} ArgsStringShape(n: int)
    requires n >= 1
    ensures |ArgsString(n)| == 2 * n - 1
    ensures forall k :: 0 <= k < |ArgsString(n)| ==>
              ArgsString(n)[k] == (if k % 2 == 0 then '?' else ',')
    decreases n
  {
    if n > 1 {
      ArgsStringShape(n - 1);
    }
  }

  lemma {:induction false} ArgsStringCount(n: int)
    ensures Count('?', ArgsString(n)) == (if n > 0 then n else 0)
    ensures Count(',', ArgsString(n)) == (if n > 0 then n - 1 else 0)
    decreases n
  {
    if n > 1 {
      ArgsStringCount(n - 1);
      CountAppend('?', ArgsString(n - 1), ",?");
      CountAppend(',', ArgsString(n - 1), ",?");
    }
  }

  lemma {:induction false} JoinMarks(k: nat)
    ensures Join(",", seq(k, _ => "?")) == ArgsString(k)
  {
    if k >= 2 {
      assert seq(k, _ => "?")[..k - 1] == seq(k - 1, _ => "?");
      JoinMarks(k - 1);
    }
  }

  /** `create_args_string`: appends one `'?'` per value, then joins with `','`. */
  method CreateArgsString(num: int) returns (s: string)
    ensures s == ArgsString(num)
  {
    var marks: seq<string> := [];
    var n := 0;
    while n < num
      invariant 0 <= n <= (if num > 0 then num else 0)
      invariant marks == seq(n, _ => "?")
    {
      marks := marks + ["?"];
      n := n + 1;
    }
    JoinMarks(n);
    s := Join(",", marks);
  }

  /** `sql.replace('?', '%s')`: the driver's positional marker is `%s`. */
  function ToDriver(sql: string): (r: string)
    ensures '?' !in r
    ensures |r| == |sql| + Count('?', sql)
  {
    if sql == "" then ""
    else (if sql[0] == '?' then "%s" else [sql[0]]) + ToDriver(sql[1..])
  }

  /** Reads driver markers back as question marks. */
  function FromDriver(s: string): string
    decreases |s|
  {
    if s == "" then ""
    else if |s| >= 2 && s[0] == '%' && s[1] == 's' then "?" + FromDriver(s[2..])
    else [s[0]] + FromDriver(s[1..])
  }

  /** Every placeholder becomes one driver marker, and nothing else does. */
  lemma {:induction false} DriverMarkers(sql: string)
    ensures Count('%', ToDriver(sql)) == Count('%', sql) + Count('?', sql)
  {
    if sql != "" {
      var head := if sql[0] == '?' then "%s" else [sql[0]];
      DriverMarkers(sql[1..]);
      CountAppend('%', head, ToDriver(sql[1..]));
    }
  }

  /** On SQL without a literal `%`, the rewrite loses nothing. */
  lemma {:induction false} DriverRoundTrip(sql: string)
    requires '%' !in sql
    ensures FromDriver(ToDriver(sql)) == sql
  {
    if sql != "" {
      var rest := ToDriver(sql[1..]);
      DriverRoundTrip(sql[1..]);
      if sql[0] == '?' {
        assert ("%s" + rest)[2..] == rest;
      } else {
        assert ([sql[0]] + rest)[1..] == rest;
      }
      assert sql == [sql[0]] + sql[1..];
    }
  }

  /** Parts free of `c` contribute nothing. */
  lemma {:induction false} CountAllNone(c: char, parts: seq<string>)
    requires forall k :: 0 <= k < |parts| ==> c !in parts[k]
    ensures CountAll(c, parts) == 0
    decreases |parts|
  {
    if |parts| > 0 {
      CountAllNone(c, parts[..|parts| - 1]);
      CountAbsent(c, parts[|parts| - 1]);
    }
  }

  /** Parts holding one `c` each contribute one each. */
  lemma {:induction false} CountAllOnce(c: char, parts: seq<string>)
    requires forall k :: 0 <= k < |parts| ==> Count(c, parts[k]) == 1
    ensures CountAll(c, parts) == |parts|
    decreases |parts|
  {
    if |parts| > 0 {
      CountAllOnce(c, parts[..|parts| - 1]);
    }
  }

  lemma QuoteCount(c: char, name: string)
    requires c != '`'
    ensures Count(c, Quote(name)) == Count(c, name)
  {
    CountAppend(c, "`", name);
    CountAppend(c, "`" + name, "`");
  }
}
