/** How the printer lays things out: which of its forms an array takes, and which texts stay bare. */
module ToonLayout {
  import opened Text
  import opened ToonEncoder

  // ---- arrays ----

  /** A record whose values are all scalars, under different keys. */
  predicate FlatRecord(v: Value) {
    v.Dict? && UniqueKeys(v.fields) && forall f | f in v.fields :: IsScalar(f.value)
  }

  predicate Records(arr: seq<Value>) {
    forall v | v in arr :: v.Dict? && UniqueKeys(v.fields)
  }

  predicate HasColumn(row: Value, c: string)
    requires row.Dict?
  {
    exists f | f in row.fields :: f.key == c
  }

  lemma {:induction false} AddColumnsIff(cols: seq<string>, fields: Fields, c: string)
    ensures c in AddColumns(cols, fields) <==> c in cols || exists f | f in fields :: f.key == c
    decreases fields
  {
    if fields != [] {
      AddColumnsIff(if fields[0].key in cols then cols else cols + [fields[0].key], fields[1..], c);
      assert fields == [fields[0]] + fields[1..];
    }
  }

  lemma {:induction false} ColumnsFromIff(cols: seq<string>, rows: seq<Value>, c: string)
    requires AllDicts(rows)
    ensures c in ColumnsFrom(cols, rows) <==> c in cols || exists row | row in rows :: HasColumn(row, c)
    decreases rows
  {
    if rows != [] {
      assert rows == [rows[0]] + rows[1..];
      AddColumnsIff(cols, rows[0].fields, c);
      ColumnsFromIff(AddColumns(cols, rows[0].fields), rows[1..], c);
    }
  }

  predicate NoRepeats(cols: seq<string>) {
    forall i, j | 0 <= i < j < |cols| :: cols[i] != cols[j]
  }

  lemma {:induction false} AddColumnsOnce(cols: seq<string>, fields: Fields)
    requires NoRepeats(cols)
    ensures NoRepeats(AddColumns(cols, fields)) && cols <= AddColumns(cols, fields)
    decreases fields
  {
    if fields != [] {
      AddColumnsOnce(if fields[0].key in cols then cols else cols + [fields[0].key], fields[1..]);
    }
  }

  lemma {:induction false} ColumnsFromOnce(cols: seq<string>, rows: seq<Value>)
    requires AllDicts(rows) && NoRepeats(cols)
    ensures NoRepeats(ColumnsFrom(cols, rows)) && cols <= ColumnsFrom(cols, rows)
    decreases rows
  {
    if rows != [] {
      AddColumnsOnce(cols, rows[0].fields);
      ColumnsFromOnce(AddColumns(cols, rows[0].fields), rows[1..]);
    }
  }

  lemma {:induction false} NewColumns(cols: seq<string>, fields: Fields)
    requires UniqueKeys(fields) && forall f | f in fields :: f.key !in cols
    ensures AddColumns(cols, fields) == cols + seq(|fields|, i requires 0 <= i < |fields| => fields[i].key)
    decreases fields
  {
    if fields != [] {
      assert fields[0] in fields && fields == [fields[0]] + fields[1..];
      forall f | f in fields[1..] ensures f.key !in cols + [fields[0].key] {
        var i :| 0 <= i < |fields[1..]| && fields[1..][i] == f;
        assert fields[i + 1] == f;
      }
      NewColumns(cols + [fields[0].key], fields[1..]);
      var keys := seq(|fields|, i requires 0 <= i < |fields| => fields[i].key);
      assert keys == [fields[0].key] + seq(|fields[1..]|, i requires 0 <= i < |fields[1..]| => fields[1..][i].key);
    }
  }

  /** The columns are the keys that occur, each once, those of the first row in its order before all others. */
  lemma ColumnsAre(rows: seq<Value>)
    requires Records(rows)
    ensures NoRepeats(Columns(rows))
    ensures forall c :: c in Columns(rows) <==> exists row | row in rows :: HasColumn(row, c)
    ensures rows != [] ==>
              seq(|rows[0].fields|, i requires 0 <= i < |rows[0].fields| => rows[0].fields[i].key) <= Columns(rows)
  {
    ColumnsFromOnce([], rows);
    forall c ensures c in Columns(rows) <==> exists row | row in rows :: HasColumn(row, c) {
      ColumnsFromIff([], rows, c);
    }
    if rows != [] {
      NewColumns([], rows[0].fields);
      AddColumnsOnce([], rows[0].fields);
      ColumnsFromOnce(AddColumns([], rows[0].fields), rows[1..]);
    }
  }

  lemma {:induction false} GetOwn(fields: Fields, f: Field)
    requires UniqueKeys(fields) && f in fields
    ensures Get(fields, f.key) == f.value
  {
    if fields[0] != f {
      assert fields == [fields[0]] + fields[1..];
      assert fields[0].key != f.key;
      GetOwn(fields[1..], f);
    }
  }

  /** Records make a table exactly when none of them holds anything nested. */
  lemma TabularIff(arr: seq<Value>)
    requires Records(arr)
    ensures Tabular(arr) <==> forall v | v in arr :: FlatRecord(v)
  {
    ColumnsAre(arr);
    if Tabular(arr) {
      forall v, f | v in arr && f in v.fields ensures IsScalar(f.value) {
        assert HasColumn(v, f.key) && f.key in Columns(arr) && FlatRow(v, Columns(arr));
        GetOwn(v.fields, f);
      }
    }
    if forall v | v in arr :: FlatRecord(v) {
      forall v, c | v in arr && c in Columns(arr) ensures IsScalar(Get(v.fields, c)) {
        assert FlatRecord(v);
        if !Get(v.fields, c).Null? {
          var i :| 0 <= i < |v.fields| && v.fields[i] == Field(c, Get(v.fields, c));
          assert v.fields[i] in v.fields;
        }
      }
    }
  }

  lemma {:induction false} RowLineAt(rows: seq<Value>, cols: seq<string>, depth: nat, i: nat)
    requires AllDicts(rows) && AllFlat(rows, cols) && i < |rows|
    ensures RowLines(rows, cols, depth)[i] == Pad(depth) + "  " + Join(",", Cells(RowValues(rows[i], cols)))
  {
    if i > 0 {
      RowLineAt(rows[1..], cols, depth, i - 1);
    }
  }

  lemma TableLayout(dumps: JsonDumps, key: string, arr: seq<Value>, depth: nat)
    requires arr != [] && !AllScalars(arr) && Tabular(arr)
    ensures var lines, head := ArrayLines(dumps, key, arr, depth), Pad(depth) + Key(key) + "[" + OfNat(|arr|) + "]";
      && |lines| == 1 + |arr|
      && lines[0] == head + "{" + Join(",", Keys(Columns(arr))) + "}:"
      && forall i | 0 <= i < |arr| :: lines[i + 1] == Pad(depth) + "  " + Join(",", Cells(RowValues(arr[i], Columns(arr))))
  {
    hide Pad, Key, Keys, Cells, RowValues, RowLine, Join;
    forall i | 0 <= i < |arr|
      ensures RowLines(arr, Columns(arr), depth)[i] == Pad(depth) + "  " + Join(",", Cells(RowValues(arr[i], Columns(arr))))
    {
      RowLineAt(arr, Columns(arr), depth, i);
    }
  }

  /** What an array is printed as: nothing at all, one line of cells, a table with a line for its columns and
      one for each row, or else JSON on one line.  The last is only for what holds something nested. */
  lemma ArrayLayout(dumps: JsonDumps, key: string, arr: seq<Value>, depth: nat)
    requires forall v | v in arr && v.Dict? :: UniqueKeys(v.fields)
    ensures var lines, head := ArrayLines(dumps, key, arr, depth), Pad(depth) + Key(key) + "[" + OfNat(|arr|) + "]";
      if arr == [] then lines == [Pad(depth) + Key(key) + "[0]:"]
      else if forall v | v in arr :: !v.Dict? && !v.List? then lines == [head + ": " + Join(",", Cells(arr))]
      else if forall v | v in arr :: FlatRecord(v) then
        && Tabular(arr) && |lines| == 1 + |arr|
        && lines[0] == head + "{" + Join(",", Keys(Columns(arr))) + "}:"
        && forall i | 0 <= i < |arr| :: lines[i + 1] == Pad(depth) + "  " + Join(",", Cells(RowValues(arr[i], Columns(arr))))
      else lines == [head + ": " + dumps(arr)]
  {
    hide Pad, Key, Keys, Cells, RowValues, RowLines, Join, AllFlat, Columns;
    if arr != [] && !AllScalars(arr) {
      if Records(arr) {
        TabularIff(arr);
      }
      if Tabular(arr) {
        TableLayout(dumps, key, arr, depth);
      }
    }
  }

  /** Each level is indented by two more blanks. */
  lemma {:induction false} PadIs(depth: nat)
    ensures |Pad(depth)| == 2 * depth && forall i | 0 <= i < |Pad(depth)| :: Pad(depth)[i] == ' '
  {
    if depth > 0 {
      PadIs(depth - 1);
    }
  }

  // ---- bare texts ----

  /** Characters that need quotes wherever they are in a value, in a key, and in front of a value. */
  predicate Unsafe(c: char) { c == '"' || c == '\n' || c == '\t' || c == '\r' || c == ':' }

  predicate KeyUnsafe(c: char) { Unsafe(c) || c == ',' || c == '{' || c == '}' || c == '[' || c == ']' }

  predicate LeadUnsafe(c: char) {
    || c == '[' || c == '{' || c == '#' || c == '-' || c == '&' || c == '*' || c == '!' || c == '|'
    || c == '>' || c == '%' || c == '@' || c == '`' || c == '"' || c == '\''
  }

  /** A text that would read as something else than itself. */
  predicate ReadsOtherwise(s: string) {
    s == "true" || s == "false" || s == "null" || MatchesNumber(s)
  }

  /** A key stays bare exactly when it has no blank around it and no character that ends it. */
  lemma BareKeyIff(k: string)
    ensures Key(k) == k <==> k != "" && !IsSpace(k[0]) && !IsSpace(k[|k| - 1]) && forall c | c in k :: !KeyUnsafe(c)
  {
    assert forall c :: c in KEY_UNSAFE <==> KeyUnsafe(c);
    LongerQuoted(k);
  }

  lemma {:induction false} ReplaceLonger(s: string, c: char, t: string)
    requires |t| == 2
    ensures |Replace(s, c, t)| >= |s|
  {
    if s != "" {
      ReplaceLonger(s[1..], c, t);
    }
  }

  lemma LongerQuoted(s: string)
    ensures |Quote(s)| >= |s| + 2
  {
    var a := Replace(s, '\\', "\\\\");
    ReplaceLonger(s, '\\', "\\\\");
    var b := Replace(a, '"', "\\\"");
    ReplaceLonger(a, '"', "\\\"");
    var c := Replace(b, '\n', "\\n");
    ReplaceLonger(b, '\n', "\\n");
    var d := Replace(c, '\t', "\\t");
    ReplaceLonger(c, '\t', "\\t");
    ReplaceLonger(d, '\r', "\\r");
  }

  /** A string stays bare exactly when nothing in it could be taken for something else: no blank around it, no
      unsafe character, in a cell no comma, no keyword or number, no mark in front; the empty one only in a
      cell. */
  lemma BareStringIff(s: string, inCell: bool)
    ensures (if inCell then Cell(Str(s)) else Scalar(Str(s))) == s <==>
            if s == "" then inCell
            else
              && !IsSpace(s[0]) && !IsSpace(s[|s| - 1]) && !LeadUnsafe(s[0]) && !ReadsOtherwise(s)
              && forall c | c in s :: !Unsafe(c) && (inCell ==> c != ',')
  {
    LongerQuoted(s);
    assert forall c :: c in LEAD_UNSAFE <==> LeadUnsafe(c);
  }
}
