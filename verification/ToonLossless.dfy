/** Exactly what a printed document keeps: two objects print alike precisely when the normalisation
    makes them equal, and an object reads back unchanged precisely when it is plain. */
module ToonLossless {
  import Text
  import opened Wrappers
  import opened ToonEncoder
  import opened ToonDecoder
  import opened ToonRoundTrip

  // ---- columns ----

  predicate Distinct(cols: seq<string>) {
    forall i, j | 0 <= i < j < |cols| :: cols[i] != cols[j]
  }

  lemma {:induction false} AddColumnsDistinct(cols: seq<string>, fields: Fields)
    requires Distinct(cols)
    ensures Distinct(AddColumns(cols, fields))
    decreases fields
  {
    if fields != [] {
      AddColumnsDistinct(if fields[0].key in cols then cols else cols + [fields[0].key], fields[1..]);
    }
  }

  lemma {:induction false} ColumnsDistinct(cols: seq<string>, rows: seq<Value>)
    requires AllDicts(rows) && Distinct(cols)
    ensures Distinct(ColumnsFrom(cols, rows))
    decreases rows
  {
    if rows != [] {
      AddColumnsDistinct(cols, rows[0].fields);
      ColumnsDistinct(AddColumns(cols, rows[0].fields), rows[1..]);
    }
  }

  /** The keys of a record, in order. */
  function KeysOf(fields: Fields): seq<string> {
    seq(|fields|, i requires 0 <= i < |fields| => fields[i].key)
  }

  /** A record whose keys are new columns adds exactly them. */
  lemma {:induction false} AddNewColumns(cols: seq<string>, fields: Fields)
    requires Distinct(cols + KeysOf(fields))
    ensures AddColumns(cols, fields) == cols + KeysOf(fields)
    decreases fields
  {
    if fields != [] {
      var k := fields[0].key;
      assert (cols + KeysOf(fields))[|cols|] == k;
      assert k !in cols by {
        assert forall i | 0 <= i < |cols| :: (cols + KeysOf(fields))[i] == cols[i];
      }
      assert cols + KeysOf(fields) == cols + [k] + KeysOf(fields[1..]);
      AddNewColumns(cols + [k], fields[1..]);
    }
  }

  lemma {:induction false} AddOldColumns(cols: seq<string>, fields: Fields)
    requires forall f | f in fields :: f.key in cols
    ensures AddColumns(cols, fields) == cols
    decreases fields
  {
    if fields != [] {
      AddOldColumns(cols, fields[1..]);
    }
  }

  predicate RowsHaveKeys(rows: seq<Value>, cols: seq<string>)
    requires AllDicts(rows)
  {
    forall row | row in rows :: KeysOf(row.fields) == cols
  }

  lemma {:induction false} KeptColumns(cols: seq<string>, rows: seq<Value>)
    requires AllDicts(rows) && RowsHaveKeys(rows, cols)
    ensures ColumnsFrom(cols, rows) == cols
    decreases rows
  {
    if rows != [] {
      forall f | f in rows[0].fields ensures f.key in cols {
        var i :| 0 <= i < |rows[0].fields| && rows[0].fields[i] == f;
        assert KeysOf(rows[0].fields)[i] == f.key;
      }
      AddOldColumns(cols, rows[0].fields);
      KeptColumns(cols, rows[1..]);
    }
  }

  /** Rows that all list the same distinct keys have those keys as their columns. */
  lemma UniformColumns(rows: seq<Value>, cols: seq<string>)
    requires rows != [] && AllDicts(rows) && Distinct(cols) && RowsHaveKeys(rows, cols)
    ensures Columns(rows) == cols
  {
    var first := rows[0].fields;
    assert [] + KeysOf(first) == cols;
    AddNewColumns([], first);
    KeptColumns(cols, rows[1..]);
  }

  /** Looking a key up where it stands. */
  lemma {:induction false} GetAt(fields: Fields, i: nat)
    requires i < |fields| && Distinct(KeysOf(fields))
    ensures Get(fields, fields[i].key) == fields[i].value
    decreases fields
  {
    if i > 0 {
      assert KeysOf(fields)[0] != KeysOf(fields)[i];
      assert KeysOf(fields[1..]) == KeysOf(fields)[1..];
      GetAt(fields[1..], i - 1);
    }
  }

  // ---- printing forgets exactly what the normalisation forgets ----

  lemma CellOfNorm(v: Value)
    requires IsScalar(v)
    ensures IsScalar(NormCell(v)) && Cell(NormCell(v)) == Cell(v)
  {
  }

  lemma RowOfNorm(row: Value, cols: seq<string>, depth: nat)
    requires row.Dict? && FlatRow(row, cols) && Distinct(cols)
    ensures var r := NormRow(row, cols);
      KeysOf(r.fields) == cols && FlatRow(r, cols) && RowLine(r, cols, depth) == RowLine(row, cols, depth)
  {
    var r := NormRow(row, cols);
    assert KeysOf(r.fields) == cols;
    forall i | 0 <= i < |cols| ensures Get(r.fields, cols[i]) == NormCell(Get(row.fields, cols[i])) {
      GetAt(r.fields, i);
    }
    assert FlatRow(r, cols) by {
      forall c | c in cols ensures IsScalar(Get(r.fields, c)) {
        var i :| 0 <= i < |cols| && cols[i] == c;
        CellOfNorm(Get(row.fields, c));
      }
    }
    forall i | 0 <= i < |cols| ensures Cells(RowValues(r, cols))[i] == Cells(RowValues(row, cols))[i] {
      CellOfNorm(Get(row.fields, cols[i]));
    }
    assert Cells(RowValues(r, cols)) == Cells(RowValues(row, cols));
  }

  lemma {:induction false} RowsOfNorm(rows: seq<Value>, cols: seq<string>, depth: nat)
    requires AllDicts(rows) && Distinct(cols) && AllFlat(rows, cols)
    ensures var rs := NormRows(rows, cols);
      && AllDicts(rs) && RowsHaveKeys(rs, cols) && AllFlat(rs, cols)
      && RowLines(rs, cols, depth) == RowLines(rows, cols, depth)
    decreases rows
  {
    if rows != [] {
      RowOfNorm(rows[0], cols, depth);
      RowsOfNorm(rows[1..], cols, depth);
      assert NormRows(rows, cols)[1..] == NormRows(rows[1..], cols);
    }
  }

  lemma ArrayOfNorm(dumps: JsonDumps, key: string, arr: seq<Value>, depth: nat)
    ensures ArrayLines(dumps, key, NormArray(arr), depth) == ArrayLines(dumps, key, arr, depth)
  {
    if arr == [] {
      assert NormArray(arr) == [];
    } else if AllScalars(arr) {
      forall i | 0 <= i < |arr| ensures IsScalar(NormCells(arr)[i]) && Cell(NormCells(arr)[i]) == Cell(arr[i]) {
        CellOfNorm(arr[i]);
      }
      assert Cells(NormCells(arr)) == Cells(arr);
    } else if Tabular(arr) {
      var cols := Columns(arr);
      ColumnsDistinct([], arr);
      RowsOfNorm(arr, cols, depth);
      var rs := NormRows(arr, cols);
      UniformColumns(rs, cols);
      assert !IsScalar(rs[0]);
    }
  }

  lemma {:induction false} KvOfNorm(dumps: JsonDumps, key: string, v: Value, depth: nat)
    ensures KvLines(dumps, key, Normalize(v), depth) == KvLines(dumps, key, v, depth)
    decreases v
  {
    if v.Dict? {
      FieldsOfNorm(dumps, v.fields, depth + 1);
    } else if v.List? {
      ArrayOfNorm(dumps, key, v.items, depth);
    }
  }

  lemma {:induction false} FieldsOfNorm(dumps: JsonDumps, fields: Fields, depth: nat)
    ensures FieldsLines(dumps, NormFields(fields), depth) == FieldsLines(dumps, fields, depth)
    decreases fields
  {
    if fields != [] {
      KvOfNorm(dumps, fields[0].key, fields[0].value, depth);
      FieldsOfNorm(dumps, fields[1..], depth);
    }
  }

  /** Two objects print alike exactly when they are equal up to the normalisation. */
  lemma PrintAlikeIff(dumps: JsonDumps, loads: JsonLoads, a: Value, b: Value)
    requires Faithful(dumps, loads) && a.Dict? && b.Dict? && WellFormed(a) && WellFormed(b)
    ensures Document(dumps, a) == Document(dumps, b) <==> Normalize(a) == Normalize(b)
  {
    RoundTrip(dumps, loads, a);
    RoundTrip(dumps, loads, b);
    FieldsOfNorm(dumps, a.fields, 0);
    FieldsOfNorm(dumps, b.fields, 0);
  }

  // ---- when nothing at all is lost ----

  predicate PlainCell(v: Value) {
    v != Str("") && !v.IntegralFloat?
  }

  /** A row that lists every column, in column order, with plain cells. */
  predicate PlainRow(row: Value, cols: seq<string>)
    requires row.Dict?
  {
    KeysOf(row.fields) == cols && forall f | f in row.fields :: PlainCell(f.value)
  }

  predicate PlainArray(arr: seq<Value>) {
    if AllScalars(arr) then forall x | x in arr :: PlainCell(x)
    else if Tabular(arr) then forall row | row in arr :: PlainRow(row, Columns(arr))
    else true
  }

  /** No integral float, no empty string in a cell, no ragged or reordered table row. */
  predicate Plain(v: Value) {
    match v
    case Dict(fields) => forall f | f in fields :: Plain(f.value)
    case List(items) => PlainArray(items)
    case _ => !v.IntegralFloat?
  }

  lemma NormRowAt(row: Value, cols: seq<string>, i: nat)
    requires row.Dict? && KeysOf(row.fields) == cols && Distinct(cols) && i < |cols|
    ensures row.fields[i].key == cols[i] && NormRow(row, cols).fields[i] == Field(cols[i], NormCell(row.fields[i].value))
  {
    assert KeysOf(row.fields)[i] == cols[i];
    GetAt(row.fields, i);
  }

  lemma NormRowIff(row: Value, cols: seq<string>)
    requires row.Dict? && Distinct(cols)
    ensures NormRow(row, cols) == row <==> PlainRow(row, cols)
  {
    var r := NormRow(row, cols);
    assert KeysOf(r.fields) == cols;
    if KeysOf(row.fields) == cols {
      assert |row.fields| == |cols| == |r.fields|;
      if PlainRow(row, cols) {
        forall i | 0 <= i < |cols| ensures r.fields[i] == row.fields[i] {
          NormRowAt(row, cols, i);
        }
        assert r.fields == row.fields;
      } else {
        var f :| f in row.fields && !PlainCell(f.value);
        var i :| 0 <= i < |cols| && row.fields[i] == f;
        NormRowAt(row, cols, i);
      }
    }
  }

  lemma NormArrayIff(arr: seq<Value>)
    ensures NormArray(arr) == arr <==> PlainArray(arr)
  {
    if AllScalars(arr) {
      if PlainArray(arr) {
        forall i | 0 <= i < |arr| ensures NormCells(arr)[i] == arr[i] {
          assert arr[i] in arr && PlainCell(arr[i]);
        }
        assert NormCells(arr) == arr;
      } else {
        var i :| 0 <= i < |arr| && !PlainCell(arr[i]);
        assert NormCells(arr)[i] != arr[i];
      }
    } else if Tabular(arr) {
      ColumnsDistinct([], arr);
      forall i | 0 <= i < |arr| ensures NormRows(arr, Columns(arr))[i] == arr[i] <==> PlainRow(arr[i], Columns(arr)) {
        NormRowIff(arr[i], Columns(arr));
      }
      if PlainArray(arr) {
        assert NormRows(arr, Columns(arr)) == arr;
      } else {
        var i :| 0 <= i < |arr| && !PlainRow(arr[i], Columns(arr));
        assert NormRows(arr, Columns(arr))[i] != arr[i];
      }
    }
  }

  lemma {:induction false} NormalizeIff(v: Value)
    ensures Normalize(v) == v <==> Plain(v)
    decreases v
  {
    if v.Dict? {
      NormFieldsIff(v.fields);
    } else if v.List? {
      NormArrayIff(v.items);
    }
  }

  lemma {:induction false} NormFieldsIff(fields: Fields)
    ensures NormFields(fields) == fields <==> forall f | f in fields :: Plain(f.value)
    decreases fields
  {
    hide Normalize, Plain;
    if fields != [] {
      NormalizeIff(fields[0].value);
      NormFieldsIff(fields[1..]);
      var n := NormFields(fields);
      assert n[1..] == NormFields(fields[1..]);
      assert n == fields <==> n[0] == fields[0] && n[1..] == fields[1..] by {
        assert n == [n[0]] + n[1..] && fields == [fields[0]] + fields[1..];
      }
    }
  }

  /** The documented claim that nothing is ever lost holds of exactly the plain objects. */
  lemma LosslessIff(dumps: JsonDumps, loads: JsonLoads, v: Value)
    requires Faithful(dumps, loads) && v.Dict? && WellFormed(v)
    ensures Decode(loads, Document(dumps, v)) == Some(v) <==> Plain(v)
  {
    RoundTrip(dumps, loads, v);
    NormalizeIff(v);
  }

  lemma OneArray(dumps: JsonDumps, key: string, items: seq<Value>)
    requires items != [] && AllScalars(items)
    ensures Document(dumps, Dict([Field(key, List(items))])) == ArrayHead(key, items, 0) + ": " + Text.Join(",", Cells(items))
  {
    var fields := [Field(key, List(items))];
    assert FieldsLines(dumps, fields[1..], 0) == [];
    assert FieldsLines(dumps, fields, 0) == ArrayLines(dumps, key, items, 0);
  }

  /** Two different objects with one printed form: a null and an empty string in a cell. */
  lemma NullAndEmptyCollide(dumps: JsonDumps)
    ensures var a := Dict([Field("a", List([Null]))]);
      var b := Dict([Field("a", List([Str("")]))]);
      WellFormed(a) && WellFormed(b) && a != b && Document(dumps, a) == Document(dumps, b)
  {
    OneArray(dumps, "a", [Null]);
    OneArray(dumps, "a", [Str("")]);
    assert Cells([Null]) == [""] == Cells([Str("")]);
    assert [Null][0] != [Str("")][0];
  }

  /** A list at top level prints as the object that holds it under `items`. */
  lemma TopLevelList(dumps: JsonDumps, items: seq<Value>)
    ensures Document(dumps, List(items)) == Document(dumps, Dict([Field("items", List(items))]))
  {
    var fields := [Field("items", List(items))];
    assert FieldsLines(dumps, fields[1..], 0) == [];
    assert FieldsLines(dumps, fields, 0) == ArrayLines(dumps, "items", items, 0);
  }
}
