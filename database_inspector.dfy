/**
 * `DatabaseInspector`: pydantic models derived from a SQLite database's
 * tables. A model is named after its table and has one field per column,
 * except an INTEGER primary key, which the database numbers itself. The
 * database is an input, as in `SchemaInfo`; `create_model` is represented by
 * the name and the field list it is given.
 */
module DatabaseInspector {
  import opened Wrappers
  import opened Text
  import opened Sequences
  import opened SchemaInfo

  /** The Python types of `type_mapping`. */
  datatype FieldType = IntField | StrField | FloatField | BoolField

  /** The `(type, None)` pair of one field: the type, possibly wrapped in
      `Optional`. Every field's default is None, so it is not recorded. */
  datatype Field = Field(name: string, fieldType: FieldType, optional: bool)

  /** The arguments of `create_model`: the model name and the fields in dict order. */
  datatype Model = Model(name: string, fields: seq<Field>)

  /** `type_mapping`: upper-cased column type to Python type. */
  const TypeMapping: map<string, FieldType> :=
    map["INTEGER" := IntField, "TEXT" := StrField, "TIMESTAMP" := StrField,
        "REAL" := FloatField, "NUMERIC" := FloatField, "BOOLEAN" := BoolField]

  /** `type_mapping.get(sql_type.upper(), str)`. */
  function FieldTypeOf(sqlType: string): FieldType {
    var key := Upper(sqlType);
    if key in TypeMapping then TypeMapping[key] else StrField
  }

  /** Reading the mapping back: int only for INTEGER, float only for REAL and
      NUMERIC, bool only for BOOLEAN, in any case of letters, and str for every
      other type, known or not. */
  lemma FieldTypeOfMeaning(sqlType: string)
    ensures FieldTypeOf(sqlType) == IntField <==> Upper(sqlType) == "INTEGER"
    ensures FieldTypeOf(sqlType) == FloatField <==> Upper(sqlType) == "REAL" || Upper(sqlType) == "NUMERIC"
    ensures FieldTypeOf(sqlType) == BoolField <==> Upper(sqlType) == "BOOLEAN"
    ensures FieldTypeOf(sqlType) == StrField <==>
      Upper(sqlType) !in {"INTEGER", "REAL", "NUMERIC", "BOOLEAN"}
  {
  }

  /** The auto-numbered primary key the loop skips. */
  predicate Skipped(c: Column) {
    c.isPrimaryKey && Upper(c.sqlType) == "INTEGER"
  }

  /** The field of a kept column: optional when the column is nullable or has a default. */
  function FieldOf(c: Column): (f: Field)
    ensures f.name == c.name && f.fieldType == FieldTypeOf(c.sqlType)
    ensures f.optional <==> !c.required || c.default.Some?
  {
    Field(c.name, FieldTypeOf(c.sqlType), !c.required || c.default.Some?)
  }

  /** The `fields` dict: its keys in insertion order and its entries. */
  datatype FieldDict = FieldDict(names: seq<string>, entries: map<string, Field>)

  /** The keys listed once each, and every entry stored under its field's name. */
  ghost predicate Valid(d: FieldDict) {
    && (forall n :: n in d.names <==> n in d.entries)
    && (forall i, j :: 0 <= i < j < |d.names| ==> d.names[i] != d.names[j])
    && (forall n :: n in d.entries ==> d.entries[n].name == n)
  }

  /** The dict's values in key order: what `create_model(name, **fields)` receives. */
  function Items(d: FieldDict): (fs: seq<Field>)
    requires Valid(d)
    ensures |fs| == |d.names|
    ensures forall i :: 0 <= i < |fs| ==> fs[i] == d.entries[d.names[i]]
  {
    seq(|d.names|, i requires 0 <= i < |d.names| => d.entries[d.names[i]])
  }

  /** `fields[f.name] = f`: a key already present keeps its place, a new one goes last. */
  function Put(d: FieldDict, f: Field): (r: FieldDict)
    requires Valid(d)
    ensures Valid(r)
    ensures r.entries == d.entries[f.name := f]
    ensures f.name in d.entries ==> r.names == d.names
    ensures f.name !in d.entries ==> r.names == d.names + [f.name]
  {
    if f.name in d.entries then FieldDict(d.names, d.entries[f.name := f])
    else FieldDict(d.names + [f.name], d.entries[f.name := f])
  }

  /** Assigning a new key adds its value after the others. */
  lemma PutNewItem(d: FieldDict, f: Field)
    requires Valid(d) && f.name !in d.entries
    ensures Items(Put(d, f)) == Items(d) + [f]
  {
    var r := Put(d, f);
    assert forall i :: 0 <= i < |d.names| ==> d.names[i] != f.name;
    assert forall i :: 0 <= i < |d.names| ==> Items(r)[i] == Items(d)[i];
  }

  function EmptyDict(): (d: FieldDict)
    ensures Valid(d) && Items(d) == []
  {
    FieldDict([], map[])
  }

  /** The entries of the fields dict after the loop has seen `cols`. */
  function EntriesOf(cols: seq<Column>): map<string, Field> {
    if cols == [] then map[]
    else
      var n := |cols| - 1;
      var prev := EntriesOf(cols[..n]);
      if Skipped(cols[n]) then prev else prev[cols[n].name := FieldOf(cols[n])]
  }

  /** The fields dict after the loop has seen `cols`. */
  function FieldsOf(cols: seq<Column>): (d: FieldDict)
    ensures Valid(d) && d.entries == EntriesOf(cols)
  {
    if cols == [] then EmptyDict()
    else
      var n := |cols| - 1;
      var prev := FieldsOf(cols[..n]);
      if Skipped(cols[n]) then prev else Put(prev, FieldOf(cols[n]))
  }

  /** Every field comes from a kept column with its name. */
  lemma {:induction false} FieldsOfSound(cols: seq<Column>, name: string) returns (i: nat)
    requires name in EntriesOf(cols)
    ensures i < |cols| && !Skipped(cols[i]) && cols[i].name == name
    ensures EntriesOf(cols)[name] == FieldOf(cols[i])
    decreases |cols|
  {
    var n := |cols| - 1;
    if !Skipped(cols[n]) && cols[n].name == name {
      i := n;
    } else {
      i := FieldsOfSound(cols[..n], name);
      assert cols[..n][i] == cols[i];
    }
  }

  /** The field under a name is that of the last kept column with the name. */
  lemma {:induction false} FieldsOfLast(cols: seq<Column>, i: nat)
    requires i < |cols| && !Skipped(cols[i])
    requires forall j :: i < j < |cols| ==> Skipped(cols[j]) || cols[j].name != cols[i].name
    ensures cols[i].name in EntriesOf(cols) && EntriesOf(cols)[cols[i].name] == FieldOf(cols[i])
    decreases |cols|
  {
    var n := |cols| - 1;
    if i < n {
      assert cols[..n][i] == cols[i];
      FieldsOfLast(cols[..n], i);
    }
  }

  /** Every kept column's name is a key. */
  lemma {:induction false} FieldsOfComplete(cols: seq<Column>, i: nat)
    requires i < |cols| && !Skipped(cols[i])
    ensures cols[i].name in EntriesOf(cols)
    decreases |cols|
  {
    var n := |cols| - 1;
    if i < n {
      assert cols[..n][i] == cols[i];
      FieldsOfComplete(cols[..n], i);
    }
  }

  /** The field of a column, or none for the skipped primary key. */
  function KeptField(c: Column): Option<Field> {
    if Skipped(c) then None else Some(FieldOf(c))
  }

  predicate DistinctColumns(cols: seq<Column>) {
    forall i, j :: 0 <= i < j < |cols| ==> cols[i].name != cols[j].name
  }

  /** With distinct column names, as a table's columns have, there is one field
      per kept column, in column order. */
  lemma {:induction false} FieldsInColumnOrder(cols: seq<Column>)
    requires DistinctColumns(cols)
    ensures Items(FieldsOf(cols)) == FilterMap(cols, KeptField)
    decreases |cols|
  {
    if cols != [] {
      var n := |cols| - 1;
      var prev := FieldsOf(cols[..n]);
      assert DistinctColumns(cols[..n]);
      FieldsInColumnOrder(cols[..n]);
      if !Skipped(cols[n]) {
        if cols[n].name in EntriesOf(cols[..n]) {
          var i := FieldsOfSound(cols[..n], cols[n].name);
          assert false;
        }
        PutNewItem(prev, FieldOf(cols[n]));
      }
    }
  }

  /** A lower-case word of a snake_case table name. */
  predicate LowerWord(w: string) {
    w != [] && forall i :: 0 <= i < |w| ==> 'a' <= w[i] <= 'z'
  }

  /** The word with its first letter upper-cased. */
  function Capitalized(w: string): string
    requires LowerWord(w)
  {
    [UpperChar(w[0])] + w[1..]
  }

  /** The words capitalized and run together. */
  function CamelCase(words: seq<string>): string
    requires forall k :: 0 <= k < |words| ==> LowerWord(words[k])
  {
    if words == [] then "" else Capitalized(words[0]) + CamelCase(words[1..])
  }

  /** `f"{table_name.title().replace('_', '')}Model"`. */
  function ModelName(table: string): (name: string)
    ensures |name| >= 5 && name[|name| - 5..] == "Model"
    ensures '_' !in name
  {
    var stem := RemoveChar(Title(table), '_');
    assert (stem + "Model")[|stem|..] == "Model";
    stem + "Model"
  }

  /** A lower-case word title-cases to itself capitalized, or to itself
      after a letter. */
  lemma {:induction false} TitleOfWord(w: string, afterLetter: bool)
    requires LowerWord(w)
    ensures TitleAfter(w, afterLetter) == if afterLetter then w else Capitalized(w)
    ensures IsLetter(w[|w| - 1])
    decreases |w|
  {
    if |w| > 1 {
      assert LowerWord(w[1..]);
      TitleOfWord(w[1..], true);
      assert w == [w[0]] + w[1..];
    } else {
      assert w[1..] == [];
    }
  }

  /** An underscore is kept as it is and ends the word before it. */
  lemma TitleAfterUnderscore(j: string, afterLetter: bool)
    ensures TitleAfter("_" + j, afterLetter) == "_" + TitleAfter(j, false)
  {
    assert ("_" + j)[0] == '_' && ("_" + j)[1..] == j;
  }

  lemma RemoveUnderscoreHead(t: string)
    ensures RemoveChar("_" + t, '_') == RemoveChar(t, '_')
  {
    assert ("_" + t)[0] == '_' && ("_" + t)[1..] == t;
  }

  /** A capitalized lower-case word holds no underscore. */
  lemma CapitalizedPlain(w: string)
    requires LowerWord(w)
    ensures RemoveChar(Capitalized(w), '_') == Capitalized(w)
  {
    assert forall i :: 0 < i < |Capitalized(w)| ==> Capitalized(w)[i] == w[i];
    RemoveCharAbsent(Capitalized(w), '_');
  }

  /** One word and an underscore at the front of a table name. */
  lemma StemOfFirstWord(w: string, j: string)
    requires LowerWord(w)
    ensures RemoveChar(TitleAfter(w + ("_" + j), false), '_') == Capitalized(w) + RemoveChar(TitleAfter(j, false), '_')
  {
    TitleAfterConcat(w, "_" + j, false);
    TitleOfWord(w, false);
    TitleAfterUnderscore(j, true);
    RemoveCharConcat(Capitalized(w), "_" + TitleAfter(j, false), '_');
    RemoveUnderscoreHead(TitleAfter(j, false));
    CapitalizedPlain(w);
  }

  /** The part of the model name that comes from the table name made of the
      given words joined by underscores. */
  lemma {:induction false} StemOfWords(words: seq<string>)
    requires words != [] && forall k :: 0 <= k < |words| ==> LowerWord(words[k])
    ensures RemoveChar(TitleAfter(Join(words, "_"), false), '_') == CamelCase(words)
    decreases |words|
  {
    var w := words[0];
    if |words| == 1 {
      TitleOfWord(w, false);
      CapitalizedPlain(w);
      assert CamelCase(words[1..]) == "";
    } else {
      var j := Join(words[1..], "_");
      assert Join(words, "_") == w + ("_" + j);
      StemOfFirstWord(w, j);
      StemOfWords(words[1..]);
    }
  }

  /** A snake_case table name gives the CamelCase of its words plus "Model",
      e.g. `job_descriptions` gives `JobDescriptionsModel`. */
  lemma ModelNameOfWords(words: seq<string>)
    requires words != [] && forall k :: 0 <= k < |words| ==> LowerWord(words[k])
    ensures ModelName(Join(words, "_")) == CamelCase(words) + "Model"
  {
    StemOfWords(words);
  }

  /** The model `create_pydantic_model(table)` builds from the table's rows. */
  function ModelOf(table: string, rows: seq<PragmaRow>): Model {
    Model(ModelName(table), Items(FieldsOf(Columns(rows))))
  }

  /** `create_pydantic_model`: the loop over the described columns filling
      the fields dict, then the model name. */
  method CreatePydanticModel(table: string, rows: seq<PragmaRow>) returns (model: Model)
    ensures model == ModelOf(table, rows)
  {
    var columns := Columns(rows);
    var fields := EmptyDict();
    for i := 0 to |columns|
      invariant fields == FieldsOf(columns[..i])
    {
      assert columns[..i + 1][..i] == columns[..i];
      var col := columns[i];
      if col.isPrimaryKey && Upper(col.sqlType) == "INTEGER" {
        continue;
      }
      var fieldType := FieldTypeOf(col.sqlType);
      var optional := !col.required || col.default.Some?;
      fields := Put(fields, Field(col.name, fieldType, optional));
    }
    assert columns[..|columns|] == columns;
    model := Model(ModelName(table), Items(fields));
  }

  /** `get_all_models`: a model for every table `get_all_tables` lists, under its name. */
  function GetAllModels(master: seq<MasterRow>, tableInfo: string -> seq<PragmaRow>): (models: map<string, Model>)
    ensures forall t :: t in models <==> t in AllTables(master)
    ensures forall t :: t in models ==> models[t] == ModelOf(t, tableInfo(t))
  {
    map t | t in AllTables(master) :: ModelOf(t, tableInfo(t))
  }
}
