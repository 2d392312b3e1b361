/**
 * An SQLite table whose key is `INTEGER PRIMARY KEY AUTOINCREMENT`, as a value:
 * the rows in insertion (rowid) order, and the id the next insert receives.
 * No table of the repository ever has a row deleted, so the next id is one
 * more than the last one handed out.
 */
module Tables {
  import opened Wrappers

  datatype Row<R> = Row(id: int, data: R)

  datatype Table<R> = Table(rows: seq<Row<R>>, next: int)

  function Empty<R>(): (t: Table<R>)
    ensures Valid(t) && Ids(t) == {}
  {
    Table([], 1)
  }

  /** Ids are positive, strictly increasing in insertion order and below `next`. */
  predicate Valid<R>(t: Table<R>) {
    && 1 <= t.next
    && (forall i :: 0 <= i < |t.rows| ==> 1 <= t.rows[i].id < t.next)
    && (forall i, j :: 0 <= i < j < |t.rows| ==> t.rows[i].id < t.rows[j].id)
  }

  function Ids<R>(t: Table<R>): set<int> {
    set i | 0 <= i < |t.rows| :: t.rows[i].id
  }

  /** The rows that inserting `ds` in order appends, numbered from `first`. */
  function Numbered<R>(ds: seq<R>, first: int): (rows: seq<Row<R>>)
    ensures |rows| == |ds|
    ensures forall i :: 0 <= i < |ds| ==> rows[i] == Row(first + i, ds[i])
  {
    seq(|ds|, i requires 0 <= i < |ds| => Row(first + i, ds[i]))
  }

  /** Inserting each of `ds` in order (one `INSERT` and `lastrowid` per element). */
  function InsertAll<R>(t: Table<R>, ds: seq<R>): Table<R> {
    Table(t.rows + Numbered(ds, t.next), t.next + |ds|)
  }

  /** The rows past the old ones carry the inserted data in order. */
  lemma InsertedRow<R>(t: Table<R>, ds: seq<R>, i: int)
    requires |t.rows| <= i < |InsertAll(t, ds).rows|
    ensures InsertAll(t, ds).rows[i] == Row(t.next + (i - |t.rows|), ds[i - |t.rows|])
  {
  }

  function Insert<R>(t: Table<R>, d: R): Table<R> {
    InsertAll(t, [d])
  }

  /** The data of the row with this id, if any (`SELECT ... WHERE id = ?`). */
  function Find<R>(t: Table<R>, id: int): (r: Option<R>)
    ensures r.None? <==> id !in Ids(t)
    ensures r.Some? ==> Row(id, r.value) in t.rows
  {
    FindIn(t.rows, id)
  }

  function FindIn<R>(rows: seq<Row<R>>, id: int): (r: Option<R>)
    ensures r.None? <==> forall i :: 0 <= i < |rows| ==> rows[i].id != id
    ensures r.Some? ==> Row(id, r.value) in rows
  {
    if rows == [] then None
    else if rows[0].id == id then Some(rows[0].data)
    else FindIn(rows[1..], id)
  }

  lemma InsertAllValid<R>(t: Table<R>, ds: seq<R>)
    requires Valid(t)
    ensures Valid(InsertAll(t, ds))
    ensures forall k :: k in Ids(InsertAll(t, ds)) <==> k in Ids(t) || t.next <= k < t.next + |ds|
  {
    var t' := InsertAll(t, ds);
    forall k | t.next <= k < t.next + |ds| ensures k in Ids(t') {
      assert t'.rows[|t.rows| + (k - t.next)].id == k;
    }
    forall k | k in Ids(t') ensures k in Ids(t) || t.next <= k < t.next + |ds| {
      var i :| 0 <= i < |t'.rows| && t'.rows[i].id == k;
      if i < |t.rows| {
        assert t.rows[i].id == k;
      }
    }
    forall k | k in Ids(t) ensures k in Ids(t') {
      var i :| 0 <= i < |t.rows| && t.rows[i].id == k;
      assert t'.rows[i].id == k;
    }
  }

  /** The id an insert hands out is fresh in its table, and the new row is found under it. */
  lemma InsertFresh<R>(t: Table<R>, d: R)
    requires Valid(t)
    ensures t.next !in Ids(t)
    ensures Find(Insert(t, d), t.next) == Some(d)
    ensures forall id :: id != t.next ==> Find(Insert(t, d), id) == Find(t, id)
  {
    var t' := Insert(t, d);
    assert t'.rows == t.rows + [Row(t.next, d)];
    FindInAppend(t.rows, Row(t.next, d));
  }

  lemma {:induction false} FindInAppend<R>(rows: seq<Row<R>>, row: Row<R>)
    requires forall i :: 0 <= i < |rows| ==> rows[i].id != row.id
    ensures FindIn(rows + [row], row.id) == Some(row.data)
    ensures forall id :: id != row.id ==> FindIn(rows + [row], id) == FindIn(rows, id)
  {
    if rows != [] {
      assert (rows + [row])[1..] == rows[1..] + [row];
      FindInAppend(rows[1..], row);
    }
  }

  /** Two batches inserted one after the other are one batch. */
  lemma InsertAllAppend<R>(t: Table<R>, a: seq<R>, b: seq<R>)
    ensures InsertAll(InsertAll(t, a), b) == InsertAll(t, a + b)
  {
    assert Numbered(a, t.next) + Numbered(b, t.next + |a|) == Numbered(a + b, t.next);
  }

  lemma InsertAllNothing<R>(t: Table<R>)
    ensures InsertAll(t, []) == t
  {
    assert t.rows + Numbered([], t.next) == t.rows;
  }

  /** The k-th of a batch of inserts is found under the k-th id handed out. */
  lemma FindInserted<R>(t: Table<R>, ds: seq<R>, k: int)
    requires Valid(t) && 0 <= k < |ds|
    ensures Find(InsertAll(t, ds), t.next + k) == Some(ds[k])
  {
    InsertAllValid(t, ds);
    var t' := InsertAll(t, ds);
    var at := |t.rows| + k;
    assert t'.rows[at] == Row(t.next + k, ds[k]);
    assert t.next + k in Ids(t');
  }
}
