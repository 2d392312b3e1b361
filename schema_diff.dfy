/**
 * The comparison of a frontend and a backend schema dict: which tables only
 * one side has, listed in sorted order, and for every common table whose
 * column dicts differ, which columns only one side has and which common
 * columns have different descriptors. The report is returned as a value; the
 * printing and the `schema_differences` header flag are left to the caller.
 */
module SchemaDiff {
  import opened SchemaInfo

  /** Python's `a <= b` on strings: lexicographic by code point. */
  predicate StringLe(a: string, b: string) {
    a == [] || (b != [] && (a[0] < b[0] || (a[0] == b[0] && StringLe(a[1..], b[1..]))))
  }

  lemma {:induction false} StringLeTotal(a: string, b: string)
    ensures StringLe(a, b) || StringLe(b, a)
  {
    if a != [] && b != [] && a[0] == b[0] {
      StringLeTotal(a[1..], b[1..]);
    }
  }

  lemma {:induction false} StringLeTransitive(a: string, b: string, c: string)
    requires StringLe(a, b) && StringLe(b, c)
    ensures StringLe(a, c)
  {
    if a != [] && a[0] == b[0] && b[0] == c[0] {
      StringLeTransitive(a[1..], b[1..], c[1..]);
    }
  }

  lemma {:induction false} StringLeAntisymmetric(a: string, b: string)
    requires StringLe(a, b) && StringLe(b, a)
    ensures a == b
  {
    if a != [] {
      StringLeAntisymmetric(a[1..], b[1..]);
      assert a == [a[0]] + a[1..] && b == [b[0]] + b[1..];
    }
  }

  /** In strictly increasing order, hence without repetitions. */
  predicate Increasing(xs: seq<string>) {
    forall i, j :: 0 <= i < j < |xs| ==> StringLe(xs[i], xs[j]) && xs[i] != xs[j]
  }

  /** A head below every element of an increasing tail keeps it increasing. */
  lemma ConsIncreasing(h: string, t: seq<string>)
    requires Increasing(t)
    requires forall k :: 0 <= k < |t| ==> StringLe(h, t[k]) && h != t[k]
    ensures Increasing([h] + t)
  {
    forall i, j | 0 <= i < j < |[h] + t| ensures StringLe(([h] + t)[i], ([h] + t)[j]) && ([h] + t)[i] != ([h] + t)[j] {
      if i == 0 {
        assert ([h] + t)[j] == t[j - 1];
      } else {
        assert ([h] + t)[i] == t[i - 1] && ([h] + t)[j] == t[j - 1];
      }
    }
  }

  /** `x` put into its place in an increasing listing, unless already there. */
  function InsertName(x: string, xs: seq<string>): (r: seq<string>)
    requires Increasing(xs)
    ensures Increasing(r)
    ensures forall y :: y in r <==> y == x || y in xs
  {
    if xs == [] then [x]
    else if x == xs[0] then xs
    else if StringLe(x, xs[0]) then
      assert forall k :: 0 <= k < |xs| ==> StringLe(x, xs[k]) && x != xs[k] by {
        forall k | 0 <= k < |xs| ensures StringLe(x, xs[k]) && x != xs[k] {
          if k > 0 {
            StringLeTransitive(x, xs[0], xs[k]);
            if x == xs[k] {
              StringLeAntisymmetric(x, xs[0]);
            }
          }
        }
      }
      ConsIncreasing(x, xs);
      [x] + xs
    else
      var rest := InsertName(x, xs[1..]);
      StringLeTotal(x, xs[0]);
      assert forall k :: 0 <= k < |rest| ==> StringLe(xs[0], rest[k]) && xs[0] != rest[k] by {
        forall k | 0 <= k < |rest| ensures StringLe(xs[0], rest[k]) && xs[0] != rest[k] {
          if rest[k] != x {
            assert rest[k] in xs[1..];
            var j :| 0 <= j < |xs[1..]| && xs[1..][j] == rest[k];
            assert xs[j + 1] == rest[k];
          }
        }
      }
      ConsIncreasing(xs[0], rest);
      assert xs == [xs[0]] + xs[1..];
      [xs[0]] + rest
  }

  /** `sorted(set(xs))`: the distinct elements of `xs` in increasing order. */
  function SortedSet(xs: seq<string>): (r: seq<string>)
    ensures Increasing(r)
    ensures forall y :: y in r <==> y in xs
  {
    if xs == [] then [] else InsertName(xs[0], SortedSet(xs[1..]))
  }

  /** There is only one increasing listing of a set, so `SortedSet` gives the
      same answer for any two sequences with the same elements. */
  lemma {:induction false} IncreasingUnique(a: seq<string>, b: seq<string>)
    requires Increasing(a) && Increasing(b)
    requires forall y :: y in a <==> y in b
    ensures a == b
    decreases |a|
  {
    if a != [] && b != [] {
      assert a == [a[0]] + a[1..] && b == [b[0]] + b[1..];
      assert b[0] in a && a[0] in b;
      var i :| 0 <= i < |a| && a[i] == b[0];
      var j :| 0 <= j < |b| && b[j] == a[0];
      if i != 0 {
        // a[0] < a[i] == b[0] <= b[j] == a[0]
        if j != 0 {
          StringLeTransitive(a[0], a[i], b[j]);
        }
        StringLeAntisymmetric(a[0], a[i]);
      }
      assert a[0] == b[0];
      forall y ensures y in a[1..] <==> y in b[1..] {
        if y in a[1..] {
          var k :| 0 <= k < |a[1..]| && a[1..][k] == y;
          assert a[k + 1] == y && y != a[0] && y in b;
          var m :| 0 <= m < |b| && b[m] == y;
          assert m != 0 && b[1..][m - 1] == y;
        }
        if y in b[1..] {
          var k :| 0 <= k < |b[1..]| && b[1..][k] == y;
          assert b[k + 1] == y && y != b[0] && y in a;
          var m :| 0 <= m < |a| && a[m] == y;
          assert m != 0 && a[1..][m - 1] == y;
        }
      }
      IncreasingUnique(a[1..], b[1..]);
      assert a == [a[0]] + a[1..] && b == [b[0]] + b[1..];
    } else if a != [] {
      HeadIn(a);
      assert false;
    } else if b != [] {
      HeadIn(b);
      assert false;
    }
  }

  /** The elements of `xs` that are (`inside`) or are not in `other`:
      the set intersection or difference, before sorting. */
  function Keep(xs: seq<string>, other: seq<string>, inside: bool): (r: seq<string>)
    ensures forall y :: y in r <==> y in xs && (y in other <==> inside)
  {
    if xs == [] then []
    else (if (xs[0] in other) == inside then [xs[0]] else []) + Keep(xs[1..], other, inside)
  }

  /** `{col['name']: col for col in columns}`: a later column with the same
      name replaces an earlier one. */
  function ColumnMap(cols: seq<Column>): (m: map<string, Column>)
    ensures m.Keys == set c | c in cols :: c.name
    ensures forall n :: n in m ==> m[n] in cols && m[n].name == n
  {
    if cols == [] then map[]
    else
      var n := |cols| - 1;
      var m := ColumnMap(cols[..n]);
      assert forall c :: c in cols <==> c in cols[..n] || c == cols[n];
      m[cols[n].name := cols[n]]
  }

  /** The dict holds, for each name, the last column carrying it. */
  lemma {:induction false} ColumnMapLast(cols: seq<Column>, i: nat)
    requires i < |cols|
    requires forall j :: i < j < |cols| ==> cols[j].name != cols[i].name
    ensures cols[i].name in ColumnMap(cols) && ColumnMap(cols)[cols[i].name] == cols[i]
    decreases |cols|
  {
    var n := |cols| - 1;
    if i < n {
      ColumnMapLast(cols[..n], i);
    }
  }

  /** What is printed under `Table: name` for a common table. */
  datatype TableReport = TableReport(table: string, missingColumns: set<string>, extraColumns: set<string>,
                                     changedColumns: set<string>)

  /** The three column checks on the frontend and backend column dicts. */
  function CompareColumns(table: string, front: map<string, Column>, back: map<string, Column>): (r: TableReport)
    ensures r.table == table
    ensures forall n :: n in r.missingColumns <==> n in front && n !in back
    ensures forall n :: n in r.extraColumns <==> n in back && n !in front
    ensures forall n :: n in r.changedColumns <==> n in front && n in back && front[n] != back[n]
  {
    TableReport(table, front.Keys - back.Keys, back.Keys - front.Keys,
                set n | n in front.Keys * back.Keys && front[n] != back[n])
  }

  /** A table whose column dicts differ always shows at least one missing,
      extra or changed column, and one whose dicts agree shows none. */
  lemma ReportedIffDifferent(table: string, front: map<string, Column>, back: map<string, Column>)
    ensures var r := CompareColumns(table, front, back);
      front != back <==> r.missingColumns != {} || r.extraColumns != {} || r.changedColumns != {}
  {
    var r := CompareColumns(table, front, back);
    if r.missingColumns == {} && r.extraColumns == {} && r.changedColumns == {} {
      assert front.Keys == back.Keys by {
        forall n ensures n in front <==> n in back {
          assert n !in r.missingColumns && n !in r.extraColumns;
        }
      }
      forall n | n in front ensures front[n] == back[n] {
        assert n !in r.changedColumns;
      }
    } else if r.missingColumns != {} {
      var n :| n in r.missingColumns;
    } else if r.extraColumns != {} {
      var n :| n in r.extraColumns;
    } else {
      var n :| n in r.changedColumns;
    }
  }

  /** The whole comparison. */
  datatype SchemaReport = SchemaReport(missingTables: seq<string>, extraTables: seq<string>,
                                       changedTables: seq<TableReport>)

  /** `sorted(frontend_tables & backend_tables)`. */
  function CommonTables(front: Schema, back: Schema): (r: seq<string>)
    ensures Increasing(r)
    ensures forall t :: t in r <==> t in Names(front) && t in Names(back)
  {
    SortedSet(Keep(Names(front), Names(back), true))
  }

  /** The column dicts of `table` differ between the two schemas. */
  predicate Differs(front: Schema, back: Schema, table: string)
    requires table in Names(front) && table in Names(back)
  {
    ColumnMap(Lookup(front, table)) != ColumnMap(Lookup(back, table))
  }

  /** The report printed for a common table. */
  function ReportFor(front: Schema, back: Schema, table: string): (r: TableReport)
    requires table in Names(front) && table in Names(back)
    ensures r == CompareColumns(table, ColumnMap(Lookup(front, table)), ColumnMap(Lookup(back, table)))
  {
    CompareColumns(table, ColumnMap(Lookup(front, table)), ColumnMap(Lookup(back, table)))
  }

  /** The loop over the common tables: a report for each one that differs, in order. */
  function ChangedTables(front: Schema, back: Schema, tables: seq<string>): (r: seq<TableReport>)
    requires forall t :: t in tables ==> t in Names(front) && t in Names(back)
    ensures |r| <= |tables|
    ensures forall k :: 0 <= k < |r| ==> r[k].table in tables && Differs(front, back, r[k].table)
    ensures forall k :: 0 <= k < |r| ==> r[k] == ReportFor(front, back, r[k].table)
  {
    if tables == [] then []
    else
      var t := tables[0];
      var rest := ChangedTables(front, back, tables[1..]);
      if Differs(front, back, t) then [ReportFor(front, back, t)] + rest else rest
  }

  function TableNames(rs: seq<TableReport>): (ns: seq<string>)
    ensures |ns| == |rs|
    ensures forall k :: 0 <= k < |rs| ==> ns[k] == rs[k].table
  {
    if rs == [] then [] else [rs[0].table] + TableNames(rs[1..])
  }

  /** A table is reported exactly when it is listed and differs. */
  lemma {:induction false} ChangedTablesMembers(front: Schema, back: Schema, tables: seq<string>)
    requires forall t :: t in tables ==> t in Names(front) && t in Names(back)
    ensures forall t :: t in TableNames(ChangedTables(front, back, tables)) <==> t in tables && Differs(front, back, t)
    decreases |tables|
  {
    if tables != [] {
      var t := tables[0];
      var rest := ChangedTables(front, back, tables[1..]);
      ChangedTablesMembers(front, back, tables[1..]);
      assert tables == [t] + tables[1..];
      if Differs(front, back, t) {
        assert TableNames(ChangedTables(front, back, tables)) == [t] + TableNames(rest);
      }
    }
  }

  /** The reports follow the order of the listed tables. */
  lemma {:induction false} ChangedTablesIncreasing(front: Schema, back: Schema, tables: seq<string>)
    requires forall t :: t in tables ==> t in Names(front) && t in Names(back)
    requires Increasing(tables)
    ensures Increasing(TableNames(ChangedTables(front, back, tables)))
    decreases |tables|
  {
    if tables != [] {
      var t := tables[0];
      var rest := ChangedTables(front, back, tables[1..]);
      ChangedTablesIncreasing(front, back, tables[1..]);
      if Differs(front, back, t) {
        ChangedTablesMembers(front, back, tables[1..]);
        var names := TableNames(rest);
        forall k | 0 <= k < |names| ensures StringLe(t, names[k]) && t != names[k] {
          assert names[k] in tables[1..];
          var j :| 0 <= j < |tables[1..]| && tables[1..][j] == names[k];
          assert tables[j + 1] == names[k];
        }
        ConsIncreasing(t, names);
        assert TableNames(ChangedTables(front, back, tables)) == [t] + names;
      }
    }
  }

  /** `print_schema_diff(frontend_schema, backend_schema)` as the report it prints. */
  function Compare(front: Schema, back: Schema): (r: SchemaReport)
    ensures Increasing(r.missingTables) && Increasing(r.extraTables)
    ensures forall t :: t in r.missingTables <==> t in Names(front) && t !in Names(back)
    ensures forall t :: t in r.extraTables <==> t in Names(back) && t !in Names(front)
    ensures Increasing(TableNames(r.changedTables))
    ensures forall t :: t in TableNames(r.changedTables) <==>
      t in Names(front) && t in Names(back) && Differs(front, back, t)
    ensures forall k :: 0 <= k < |r.changedTables| ==>
      var t := r.changedTables[k].table;
      t in Names(front) && t in Names(back) && r.changedTables[k] == ReportFor(front, back, t)
  {
    var common := CommonTables(front, back);
    ChangedTablesMembers(front, back, common);
    ChangedTablesIncreasing(front, back, common);
    SchemaReport(SortedSet(Keep(Names(front), Names(back), false)),
                 SortedSet(Keep(Names(back), Names(front), false)),
                 ChangedTables(front, back, common))
  }

  /** Every table of either side is exactly one of: missing from the backend,
      extra in the backend, or common to both. */
  lemma TablesPartitioned(front: Schema, back: Schema, t: string)
    requires t in Names(front) || t in Names(back)
    ensures var r := Compare(front, back);
      && (t in r.missingTables ==> t !in r.extraTables && t !in CommonTables(front, back))
      && (t in r.extraTables ==> t !in CommonTables(front, back))
      && (t in r.missingTables || t in r.extraTables || t in CommonTables(front, back))
  {
  }

  /** Comparing a schema with itself reports nothing. */
  lemma CompareIdentical(s: Schema)
    ensures Compare(s, s) == SchemaReport([], [], [])
  {
    var r := Compare(s, s);
    NoElements(r.missingTables);
    NoElements(r.extraTables);
    NoElements(TableNames(r.changedTables));
  }

  lemma NoElements(xs: seq<string>)
    requires forall t :: t !in xs
    ensures xs == []
  {
    if xs != [] {
      HeadIn(xs);
      assert false;
    }
  }

  lemma HeadIn(xs: seq<string>)
    requires xs != []
    ensures xs[0] in xs
  {
  }
}
