/** `extract_top_configs`: from a table of OpenMP experiment results, keep the
    rows of one executable, take the fastest tenth of them (at least one row),
    and report, per knob, the distinct values those rows use in ascending
    order. The CSV is given as a table value; writing the JSON file is left
    out. */
module TopConfigs {
  import opened Wrappers
  import opened Text

  /** One result row; the columns the function reads. */
  datatype Row = Row(executable: string, threads: int, procBind: string, schedule: string, time: real)

  /** The column names of the file and its rows, in file order. */
  datatype Table = Table(columns: set<string>, rows: seq<Row>)

  /** The dict the function returns: one ascending list per knob. */
  datatype Configs = Configs(threads: seq<int>, procBind: seq<string>, schedule: seq<string>)

  /** The two ValueErrors: missing columns, and no row for the executable. */
  datatype ConfigError = MissingColumns(missing: set<string>) | NoRows(executable: string)

  const RequiredColumns: set<string> :=
    {"Executable", "OMP_NUM_THREADS", "OMP_PROC_BIND", "OMP_SCHEDULE", "Execution Time (s)"}

  // ---------------------------------------------------------------------------
  // Filtering
  // ---------------------------------------------------------------------------

  /** `df[df["Executable"] == name]`: the rows of one executable, in order. */
  function Filter(rows: seq<Row>, exe: string): (sub: seq<Row>)
    ensures |sub| <= |rows|
    ensures forall i :: 0 <= i < |sub| ==> sub[i].executable == exe
    ensures forall r :: r in sub <==> r in rows && r.executable == exe
    ensures multiset(sub) <= multiset(rows)
    ensures forall r :: multiset(sub)[r] == if r.executable == exe then multiset(rows)[r] else 0
  {
    if rows == [] then []
    else
      assert rows == [rows[0]] + rows[1..];
      if rows[0].executable == exe then [rows[0]] + Filter(rows[1..], exe)
      else Filter(rows[1..], exe)
  }

  /** Filtering by the same executable twice changes nothing. */
  lemma {:induction false} FilterIdempotent(rows: seq<Row>, exe: string)
    ensures Filter(Filter(rows, exe), exe) == Filter(rows, exe)
  {
    if rows != [] {
      FilterIdempotent(rows[1..], exe);
      if rows[0].executable == exe {
        assert ([rows[0]] + Filter(rows[1..], exe))[1..] == Filter(rows[1..], exe);
      }
    }
  }

  /** Rows of other executables appended after the rows are dropped. */
  lemma {:induction false} FilterAppendOthers(rows: seq<Row>, others: seq<Row>, exe: string)
    requires forall i :: 0 <= i < |others| ==> others[i].executable != exe
    ensures Filter(rows + others, exe) == Filter(rows, exe)
  {
    if rows == [] {
      FilterNone(others, exe);
      assert rows + others == others;
    } else {
      assert (rows + others)[1..] == rows[1..] + others;
      FilterAppendOthers(rows[1..], others, exe);
    }
  }

  lemma {:induction false} FilterNone(rows: seq<Row>, exe: string)
    requires forall i :: 0 <= i < |rows| ==> rows[i].executable != exe
    ensures Filter(rows, exe) == []
  {
    if rows != [] {
      FilterNone(rows[1..], exe);
    }
  }

  // ---------------------------------------------------------------------------
  // Ordering by time
  // ---------------------------------------------------------------------------

  predicate SortedByTime(s: seq<Row>)
  {
    forall i, j :: 0 <= i < j < |s| ==> s[i].time <= s[j].time
  }

  /** Places `x` after every row at most as slow. */
  function InsertByTime(x: Row, s: seq<Row>): (t: seq<Row>)
    ensures multiset(t) == multiset(s) + multiset{x}
    ensures |t| == |s| + 1
  {
    if s == [] then [x]
    else
      assert s == [s[0]] + s[1..];
      if x.time < s[0].time then [x] + s
      else [s[0]] + InsertByTime(x, s[1..])
  }

  /** Every row of an insertion is the inserted one or an old one. */
  lemma InsertByTimeFrom(x: Row, s: seq<Row>, r: Row)
    requires r in InsertByTime(x, s)
    ensures r == x || r in s
  {
    assert r in multiset(InsertByTime(x, s));
  }

  /** A row no slower than every row of an ordered list can go in front. */
  lemma SortedCons(h: Row, rest: seq<Row>)
    requires SortedByTime(rest)
    requires forall r :: r in rest ==> h.time <= r.time
    ensures SortedByTime([h] + rest)
  {
    var t := [h] + rest;
    forall i, j | 0 <= i < j < |t| ensures t[i].time <= t[j].time {
      assert t[j] == rest[j - 1];
      if i > 0 {
        assert t[i] == rest[i - 1];
      }
    }
  }

  /** The head of an ordered list is no slower than any of its rows. */
  lemma SortedHead(s: seq<Row>)
    requires s != [] && SortedByTime(s)
    ensures forall r :: r in s ==> s[0].time <= r.time
  {
    forall r | r in s ensures s[0].time <= r.time {
      var m :| 0 <= m < |s| && s[m] == r;
    }
  }

  /** Insertion keeps a list ordered by time. */
  lemma {:induction false} InsertByTimeSorted(x: Row, s: seq<Row>)
    requires SortedByTime(s)
    ensures SortedByTime(InsertByTime(x, s))
  {
    if s != [] {
      SortedHead(s);
      if x.time < s[0].time {
        SortedCons(x, s);
      } else {
        var rest := InsertByTime(x, s[1..]);
        InsertByTimeSorted(x, s[1..]);
        forall r | r in rest ensures s[0].time <= r.time {
          InsertByTimeFrom(x, s[1..], r);
        }
        SortedCons(s[0], rest);
      }
    }
  }

  /** `sort_values("Execution Time (s)", ascending=True)`: the same rows,
      fastest first. */
  function SortByTime(s: seq<Row>): (t: seq<Row>)
    ensures multiset(t) == multiset(s) && |t| == |s|
    ensures SortedByTime(t)
  {
    if s == [] then []
    else
      assert s == [s[0]] + s[1..];
      InsertByTimeSorted(s[0], SortByTime(s[1..]));
      InsertByTime(s[0], SortByTime(s[1..]))
  }

  // ---------------------------------------------------------------------------
  // The fastest tenth
  // ---------------------------------------------------------------------------

  /** `max(1, ceil(0.10 * n))`; for every `n` the product `0.10 * n` rounds to
      a double whose ceiling is the integer ceiling of `n / 10`. */
  function NTop(n: nat): (k: nat)
    ensures k >= 1
    ensures n >= 1 ==> k <= n && 10 * (k - 1) < n <= 10 * k
    ensures n == 0 ==> k == 1
  {
    if (n + 9) / 10 >= 1 then (n + 9) / 10 else 1
  }

  /** `subset.sort_values(...).head(n_top)` */
  function Fastest(subset: seq<Row>): (top: seq<Row>)
    requires subset != []
    ensures |top| == NTop(|subset|)
  {
    SortByTime(subset)[..NTop(|subset|)]
  }

  lemma SplitMultiset(t: seq<Row>, k: nat)
    requires k <= |t|
    ensures multiset(t) == multiset(t[..k]) + multiset(t[k..])
  {
    assert t == t[..k] + t[k..];
  }

  /** In a list ordered by time, each row of a prefix is at most as slow as
      each row after it. */
  lemma SortedSplit(t: seq<Row>, k: nat)
    requires k <= |t| && SortedByTime(t)
    ensures forall x, y :: x in t[..k] && y in t[k..] ==> x.time <= y.time
  {
    forall x, y | x in t[..k] && y in t[k..] ensures x.time <= y.time {
      var i :| 0 <= i < k && t[..k][i] == x;
      var j :| 0 <= j < |t| - k && t[k..][j] == y;
      assert t[i] == x && t[k + j] == y;
    }
  }

  /** The selected rows come from the subset, and none of them is slower than
      any row left out. */
  lemma FastestAreFastest(subset: seq<Row>)
    requires subset != []
    ensures multiset(Fastest(subset)) <= multiset(subset)
    ensures forall x, y :: x in Fastest(subset) && y in multiset(subset) - multiset(Fastest(subset)) ==> x.time <= y.time
  {
    var t := SortByTime(subset);
    var k := NTop(|subset|);
    SplitMultiset(t, k);
    SortedSplit(t, k);
    forall y | y in multiset(subset) - multiset(t[..k]) ensures y in t[k..] {
      assert y in multiset(t[k..]);
    }
  }

  // ---------------------------------------------------------------------------
  // Distinct values in ascending order
  // ---------------------------------------------------------------------------

  /** Irreflexive, transitive and total: the order `sorted` uses. */
  ghost predicate StrictTotalOrder<T(!new)>(less: (T, T) -> bool)
  {
    && (forall a :: !less(a, a))
    && (forall a, b, c :: less(a, b) && less(b, c) ==> less(a, c))
    && (forall a, b :: a == b || less(a, b) || less(b, a))
  }

  predicate Ascending<T>(s: seq<T>, less: (T, T) -> bool)
  {
    forall i, j :: 0 <= i < j < |s| ==> less(s[i], s[j])
  }

  /** Adds `x` to an ascending list unless it is already there. */
  function InsertUnique<T(==, !new)>(x: T, s: seq<T>, less: (T, T) -> bool): (t: seq<T>)
    ensures forall v :: v in t <==> v == x || v in s
  {
    if s == [] then [x]
    else if x == s[0] then s
    else if less(x, s[0]) then [x] + s
    else [s[0]] + InsertUnique(x, s[1..], less)
  }

  lemma {:induction false} InsertUniqueAscending<T(!new)>(x: T, s: seq<T>, less: (T, T) -> bool)
    requires StrictTotalOrder(less) && Ascending(s, less)
    ensures Ascending(InsertUnique(x, s, less), less)
  {
    if s != [] && x != s[0] && !less(x, s[0]) {
      InsertUniqueAscending(x, s[1..], less);
      var rest := InsertUnique(x, s[1..], less);
      assert less(s[0], x);
      forall v | v in rest ensures less(s[0], v) {
        if v != x {
          var j :| 0 <= j < |s[1..]| && s[1..][j] == v;
          assert s[j + 1] == v;
        }
      }
      var t := [s[0]] + rest;
      forall i, j | 0 <= i < j < |t| ensures less(t[i], t[j]) {
        if i == 0 {
          assert t[j] == rest[j - 1];
          assert t[j] in rest;
        } else {
          assert t[i] == rest[i - 1] && t[j] == rest[j - 1];
        }
      }
    }
  }

  /** `sorted(set(values))`: the distinct values, in ascending order. */
  function SortedUnique<T(==, !new)>(xs: seq<T>, less: (T, T) -> bool): (u: seq<T>)
    ensures forall v :: v in u <==> v in xs
    decreases |xs|
  {
    if xs == [] then []
    else
      var u := InsertUnique(xs[|xs| - 1], SortedUnique(xs[..|xs| - 1], less), less);
      assert forall v :: v in xs <==> v in xs[..|xs| - 1] || v == xs[|xs| - 1] by {
        assert xs == xs[..|xs| - 1] + [xs[|xs| - 1]];
      }
      u
  }

  lemma {:induction false} SortedUniqueAscending<T(!new)>(xs: seq<T>, less: (T, T) -> bool)
    requires StrictTotalOrder(less)
    ensures Ascending(SortedUnique(xs, less), less)
    decreases |xs|
  {
    if xs != [] {
      SortedUniqueAscending(xs[..|xs| - 1], less);
      InsertUniqueAscending(xs[|xs| - 1], SortedUnique(xs[..|xs| - 1], less), less);
    }
  }

  /** An ascending list is fixed by its elements: whatever order `unique`
      meets the values in, the sorted result is the same. */
  lemma {:induction false} AscendingDeterminedBySet<T(!new)>(a: seq<T>, b: seq<T>, less: (T, T) -> bool)
    requires StrictTotalOrder(less) && Ascending(a, less) && Ascending(b, less)
    requires forall v :: v in a <==> v in b
    ensures a == b
    decreases |a|
  {
    assert a != [] ==> a[0] in a;
    assert b != [] ==> b[0] in b;
    if a != [] && b != [] {
      var j :| 0 <= j < |b| && b[j] == a[0];
      var i :| 0 <= i < |a| && a[i] == b[0];
      assert a[0] == b[0];
      forall v ensures v in a[1..] <==> v in b[1..] {
        if v in a[1..] {
          var i :| 0 <= i < |a[1..]| && a[1..][i] == v;
          assert less(a[0], a[i + 1]);
          assert v in b && v != b[0];
          var j :| 0 <= j < |b| && b[j] == v;
          assert b[1..][j - 1] == v;
        }
        if v in b[1..] {
          var j :| 0 <= j < |b[1..]| && b[1..][j] == v;
          assert less(b[0], b[j + 1]);
          assert v in a && v != a[0];
          var i :| 0 <= i < |a| && a[i] == v;
          assert a[1..][i - 1] == v;
        }
      }
      AscendingDeterminedBySet(a[1..], b[1..], less);
      assert a == [a[0]] + a[1..] && b == [b[0]] + b[1..];
    }
  }

  function IntLess(a: int, b: int): bool
  {
    a < b
  }

  lemma IntLessIsOrder()
    ensures StrictTotalOrder(IntLess)
  {
  }

  lemma StrLessIsOrder()
    ensures StrictTotalOrder(StrLess)
  {
    forall a: string ensures !StrLess(a, a) {
      StrLessIrreflexive(a);
    }
    forall a: string, b: string, c: string | StrLess(a, b) && StrLess(b, c) ensures StrLess(a, c) {
      StrLessTransitive(a, b, c);
    }
    forall a: string, b: string | a != b ensures StrLess(a, b) || StrLess(b, a) {
      StrLessTotal(a, b);
    }
  }

  function ThreadsOf(rows: seq<Row>): (vs: seq<int>)
    ensures |vs| == |rows| && forall i :: 0 <= i < |rows| ==> vs[i] == rows[i].threads
  {
    seq(|rows|, i requires 0 <= i < |rows| => rows[i].threads)
  }

  function ProcBindOf(rows: seq<Row>): (vs: seq<string>)
    ensures |vs| == |rows| && forall i :: 0 <= i < |rows| ==> vs[i] == rows[i].procBind
  {
    seq(|rows|, i requires 0 <= i < |rows| => rows[i].procBind)
  }

  function ScheduleOf(rows: seq<Row>): (vs: seq<string>)
    ensures |vs| == |rows| && forall i :: 0 <= i < |rows| ==> vs[i] == rows[i].schedule
  {
    seq(|rows|, i requires 0 <= i < |rows| => rows[i].schedule)
  }

  // ---------------------------------------------------------------------------
  // The whole function
  // ---------------------------------------------------------------------------

  /** The reported values of the selected rows, knob by knob. */
  function Summarise(top: seq<Row>): (c: Configs)
    ensures forall v :: v in c.threads <==> exists i :: 0 <= i < |top| && top[i].threads == v
    ensures forall v :: v in c.procBind <==> exists i :: 0 <= i < |top| && top[i].procBind == v
    ensures forall v :: v in c.schedule <==> exists i :: 0 <= i < |top| && top[i].schedule == v
  {
    Configs(SortedUnique(ThreadsOf(top), IntLess), SortedUnique(ProcBindOf(top), StrLess),
            SortedUnique(ScheduleOf(top), StrLess))
  }

  /** No row of the executable exactly when filtering leaves nothing. */
  lemma FilterEmpty(rows: seq<Row>, exe: string)
    ensures Filter(rows, exe) == [] <==> forall i :: 0 <= i < |rows| ==> rows[i].executable != exe
  {
    if Filter(rows, exe) == [] {
      forall i | 0 <= i < |rows| ensures rows[i].executable != exe {
        assert rows[i] in rows;
      }
    } else {
      assert Filter(rows, exe)[0] in rows;
    }
  }

  /** `extract_top_configs` up to the JSON file. */
  function ExtractTopConfigs(table: Table, exe: string): (r: Result<Configs, ConfigError>)
    ensures !(RequiredColumns <= table.columns) <==> r == Err(MissingColumns(RequiredColumns - table.columns))
    ensures RequiredColumns <= table.columns ==>
      (r == Err(NoRows(exe)) <==> forall i :: 0 <= i < |table.rows| ==> table.rows[i].executable != exe)
    ensures r.Ok? ==> Filter(table.rows, exe) != [] && r.value == Summarise(Fastest(Filter(table.rows, exe)))
  {
    var missing := RequiredColumns - table.columns;
    if missing != {} then Err(MissingColumns(missing))
    else
      assert RequiredColumns <= table.columns by {
        forall c | c in RequiredColumns ensures c in table.columns {
          assert c !in missing;
        }
      }
      FilterEmpty(table.rows, exe);
      var subset := Filter(table.rows, exe);
      if subset == [] then Err(NoRows(exe))
      else Ok(Summarise(Fastest(subset)))
  }

  /** Each reported list is strictly ascending, so it has no duplicates:
      thread counts as integers, the other knobs as strings. */
  lemma ConfigsAscending(table: Table, exe: string)
    requires ExtractTopConfigs(table, exe).Ok?
    ensures var c := ExtractTopConfigs(table, exe).value;
      Ascending(c.threads, IntLess) && Ascending(c.procBind, StrLess) && Ascending(c.schedule, StrLess)
  {
    IntLessIsOrder();
    StrLessIsOrder();
    var top := Fastest(Filter(table.rows, exe));
    assert ExtractTopConfigs(table, exe).value == Summarise(top);
    SortedUniqueAscending(ThreadsOf(top), IntLess);
    SortedUniqueAscending(ProcBindOf(top), StrLess);
    SortedUniqueAscending(ScheduleOf(top), StrLess);
  }

  /** Only the executable's own rows matter: adding rows of other executables
      after them leaves the result as it was. */
  lemma OtherExecutablesIgnored(columns: set<string>, rows: seq<Row>, others: seq<Row>, exe: string)
    requires forall i :: 0 <= i < |others| ==> others[i].executable != exe
    ensures ExtractTopConfigs(Table(columns, rows + others), exe) == ExtractTopConfigs(Table(columns, rows), exe)
  {
    FilterAppendOthers(rows, others, exe);
  }

  /** Only the executable's own rows matter, wherever the other rows sit:
      the result on the whole table is the result on the filtered one. */
  lemma OnlyOwnRowsMatter(columns: set<string>, rows: seq<Row>, exe: string)
    ensures ExtractTopConfigs(Table(columns, rows), exe) == ExtractTopConfigs(Table(columns, Filter(rows, exe)), exe)
  {
    FilterIdempotent(rows, exe);
    FilterEmpty(rows, exe);
    FilterEmpty(Filter(rows, exe), exe);
  }
}
