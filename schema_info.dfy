/**
 * What the two schema utilities read out of a SQLite database: the names of
 * the user tables (`name NOT LIKE 'sqlite_%'` over `sqlite_master`) and, per
 * table, the `PRAGMA table_info` rows turned into column descriptor dicts.
 * The database itself is an input: `sqlite_master`'s rows and a function from
 * table name to its `table_info` rows.
 */
module SchemaInfo {
  import opened Wrappers
  import opened Text
  import opened Sequences

  /** One `PRAGMA table_info` row: (cid, name, type, notnull, dflt_value, pk). */
  datatype PragmaRow = PragmaRow(cid: int, name: string, sqlType: string, notNull: int,
                                 defaultValue: Option<string>, pk: int)

  /** The descriptor dict of a column: name, type, required, default, is_primary_key. */
  datatype Column = Column(name: string, sqlType: string, required: bool, default: Option<string>,
                           isPrimaryKey: bool)

  /** The descriptor of a `table_info` row: `bool(notnull)` and `bool(pk)`. */
  function Describe(row: PragmaRow): (c: Column)
    ensures c.name == row.name && c.sqlType == row.sqlType && c.default == row.defaultValue
    ensures c.required <==> row.notNull != 0
    ensures c.isPrimaryKey <==> row.pk != 0
  {
    Column(row.name, row.sqlType, row.notNull != 0, row.defaultValue, row.pk != 0)
  }

  /** Two rows have the same descriptor exactly when they agree on name, type
      and default and on whether notnull and pk are set: the column position
      and the particular non-zero flag values are forgotten. */
  lemma DescribeSame(a: PragmaRow, b: PragmaRow)
    ensures Describe(a) == Describe(b) <==>
      && a.name == b.name && a.sqlType == b.sqlType && a.defaultValue == b.defaultValue
      && (a.notNull != 0 <==> b.notNull != 0) && (a.pk != 0 <==> b.pk != 0)
  {
  }

  /** The descriptors of a table's columns, in `table_info` order. */
  function Columns(rows: seq<PragmaRow>): (cs: seq<Column>)
    ensures |cs| == |rows|
    ensures forall i :: 0 <= i < |rows| ==> cs[i] == Describe(rows[i])
  {
    seq(|rows|, i requires 0 <= i < |rows| => Describe(rows[i]))
  }

  /** SQLite's `s LIKE pattern`: `%` matches any run of characters, `_` any
      one character, and other characters match ignoring ASCII case. */
  predicate Like(pattern: string, s: string)
    decreases |pattern| + |s|
  {
    if pattern == [] then s == []
    else if pattern[0] == '%' then Like(pattern[1..], s) || (s != [] && Like(pattern, s[1..]))
    else s != [] && (pattern[0] == '_' || LowerChar(pattern[0]) == LowerChar(s[0])) && Like(pattern[1..], s[1..])
  }

  /** A trailing `%` matches whatever is left. */
  lemma {:induction false} LikeAnyRest(s: string)
    ensures Like("%", s)
    decreases |s|
  {
    assert "%"[1..] == [];
    if s != [] {
      LikeAnyRest(s[1..]);
    }
  }

  /** A pattern that starts with a literal character matches exactly the
      strings that start with that character, in either case, and go on matching. */
  lemma LikeLiteral(c: char, rest: string, s: string)
    requires c != '%' && c != '_'
    ensures Like([c] + rest, s) <==> s != [] && LowerChar(c) == LowerChar(s[0]) && Like(rest, s[1..])
  {
    assert ([c] + rest)[0] == c && ([c] + rest)[1..] == rest;
  }

  /** A wildcard-free word at the head of a pattern matches the same number
      of characters, ignoring ASCII case. */
  lemma {:induction false} LikeWord(w: string, rest: string, s: string)
    requires '%' !in w && '_' !in w
    ensures Like(w + rest, s) <==> |s| >= |w| && Lower(s[..|w|]) == Lower(w) && Like(rest, s[|w|..])
    decreases |w|
  {
    if w == [] {
      assert w + rest == rest && s[..0] == [] && s[0..] == s;
    } else {
      assert w + rest == [w[0]] + (w[1..] + rest);
      assert w[0] in w && forall c :: c in w[1..] ==> c in w;
      LikeLiteral(w[0], w[1..] + rest, s);
      LowerCons(w[0], w[1..]);
      assert [w[0]] + w[1..] == w;
      if s != [] {
        LikeWord(w[1..], rest, s[1..]);
        if |s| >= |w| {
          assert s[..|w|] == [s[0]] + s[1..][..|w| - 1];
          assert s[1..][|w| - 1..] == s[|w|..];
          LowerCons(s[0], s[1..][..|w| - 1]);
        }
      }
    }
  }

  lemma LowerCons(c: char, x: string)
    ensures Lower([c] + x) == [LowerChar(c)] + Lower(x)
  {
    assert ([c] + x)[1..] == x;
  }

  /** `_%` matches every non-empty string. */
  lemma OneThenAny(v: string)
    ensures Like("_%", v) <==> v != []
  {
    assert "_%"[0] == '_' && "_%"[1..] == "%";
    if v != [] {
      LikeAnyRest(v[1..]);
    }
  }

  /** The internal-table pattern of both utilities. */
  const InternalPattern := "sqlite_%"

  /** `name LIKE 'sqlite_%'` holds exactly for names of at least seven
      characters whose first six spell "sqlite" in any mix of case; the
      seventh may be any character, not only `_`. */
  lemma InternalPatternMeaning(name: string)
    ensures Like(InternalPattern, name) <==> |name| >= 7 && Lower(name[..6]) == "sqlite"
  {
    ReservedWord();
    LikeWord("sqlite", "_%", name);
    if |name| >= 6 {
      OneThenAny(name[6..]);
    }
  }

  /** The pattern is the word "sqlite", already lower-case and free of
      wildcards, followed by `_%`. */
  lemma ReservedWord()
    ensures InternalPattern == "sqlite" + "_%"
    ensures '%' !in "sqlite" && '_' !in "sqlite"
    ensures Lower("sqlite") == "sqlite"
  {
    var w := "sqlite";
    assert forall i :: 0 <= i < 6 ==> Lower(w)[i] == w[i];
  }

  /** The name-filtering query of `get_all_tables` and `get_table_schema`:
      the name of a `sqlite_master` row when it is a table not named like `sqlite_%`. */
  function UserTable(row: MasterRow): Option<string> {
    if row.kind == "table" && !Like(InternalPattern, row.name) then Some(row.name) else None
  }

  /** A row of `sqlite_master`: its `type` and `name` columns. */
  datatype MasterRow = MasterRow(kind: string, name: string)

  /** The table names the query returns, in `sqlite_master` order. */
  function AllTables(master: seq<MasterRow>): (ts: seq<string>)
    ensures |ts| <= |master|
  {
    FilterMap(master, UserTable)
  }

  /** Every listed name is a user table of the database, and every user table
      is listed. */
  lemma AllTablesExact(master: seq<MasterRow>, name: string)
    ensures name in AllTables(master) <==>
      exists i :: 0 <= i < |master| && master[i].kind == "table" && master[i].name == name
                  && !Like(InternalPattern, name)
  {
    if name in AllTables(master) {
      var k :| 0 <= k < |AllTables(master)| && AllTables(master)[k] == name;
      var i := FilterMapSound(master, UserTable, k);
      assert master[i].kind == "table" && master[i].name == name;
    }
    if exists i :: 0 <= i < |master| && master[i].kind == "table" && master[i].name == name
                   && !Like(InternalPattern, name) {
      var i :| 0 <= i < |master| && master[i].kind == "table" && master[i].name == name
               && !Like(InternalPattern, name);
      FilterMapComplete(master, UserTable, i);
    }
  }

  /** One table of a schema dict: its name and its column descriptors. */
  datatype TableSchema = TableSchema(name: string, columns: seq<Column>)

  /** A schema dict `{table: columns}` in insertion order. */
  type Schema = seq<TableSchema>

  function Names(s: Schema): (ns: seq<string>)
    ensures |ns| == |s|
    ensures forall i :: 0 <= i < |s| ==> ns[i] == s[i].name
  {
    if s == [] then [] else [s[0].name] + Names(s[1..])
  }

  /** `schema[table]`: the columns under the first entry with that name (the
      only one, the keys of a dict being distinct). */
  function Lookup(s: Schema, name: string): seq<Column>
    requires name in Names(s)
  {
    if s[0].name == name then s[0].columns else Lookup(s[1..], name)
  }

  /** The columns looked up are those of the first entry with the name. */
  lemma {:induction false} LookupFirst(s: Schema, name: string) returns (i: nat)
    requires name in Names(s)
    ensures i < |s| && s[i].name == name && s[i].columns == Lookup(s, name)
    ensures forall j :: 0 <= j < i ==> s[j].name != name
  {
    if s[0].name == name {
      i := 0;
    } else {
      var k := LookupFirst(s[1..], name);
      i := k + 1;
    }
  }

  /** `get_table_schema(db_path)` of the comparison script: one entry per user
      table, in query order, holding its described `table_info` rows. */
  function ReadSchema(master: seq<MasterRow>, tableInfo: string -> seq<PragmaRow>): (s: Schema)
    ensures Names(s) == AllTables(master)
    ensures forall i :: 0 <= i < |s| ==> s[i].columns == Columns(tableInfo(s[i].name))
  {
    var ts := AllTables(master);
    seq(|ts|, i requires 0 <= i < |ts| => TableSchema(ts[i], Columns(tableInfo(ts[i]))))
  }
}
