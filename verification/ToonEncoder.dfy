/** The TOON printer: indentation for objects, header-once CSV for arrays of flat records. */
module ToonEncoder {
  import opened Text

  /** A JSON value as the printer sees it.  Objects keep their insertion order.  A float is known to
      the printer only through `is_integer()`, `int(v)` and `repr(v)`: an integral one carries its
      integer, any other one the text of its `repr`, which identifies it. */
  datatype Value =
    | Null
    | Bool(b: bool)
    | Int(n: int)
    | IntegralFloat(n: int)
    | Float(repr: string)
    | Str(s: string)
    | Dict(fields: seq<Field>)
    | List(items: seq<Value>)

  datatype Field = Field(key: string, value: Value)

  type Fields = seq<Field>

  /** `json.dumps(arr, ensure_ascii=False)`, the fallback for arrays that are not tabular. */
  type JsonDumps = seq<Value> -> string

  // ---- what a Python value guarantees ----

  predicate UniqueKeys(fields: Fields) {
    forall i, j | 0 <= i < j < |fields| :: fields[i].key != fields[j].key
  }

  /** The shape of `repr` of a finite float that is not integral. */
  predicate FloatRepr(s: string) {
    && MatchesNumber(s) && !IsIntText(s)
    && forall i | 0 <= i < |s| :: NumberChar(s[i])
  }

  predicate NumberChar(c: char) {
    IsAsciiDigit(c) || c == '+' || c == '-' || c == '.' || c == 'e' || c == 'E'
  }

  predicate WellFormed(v: Value) {
    match v
    case Float(repr) => FloatRepr(repr)
    case Dict(fields) => WellFormedFields(fields)
    case List(items) => forall x | x in items :: WellFormed(x)
    case _ => true
  }

  predicate WellFormedFields(fields: Fields) {
    UniqueKeys(fields) && forall f | f in fields :: WellFormed(f.value)
  }

  // ---- scalars, cells and keys ----

  predicate IsScalar(v: Value) {
    !v.Dict? && !v.List?
  }

  /** `s != s.strip()`. */
  predicate Padded(s: string) {
    s != "" && (IsSpace(s[0]) || IsSpace(s[|s| - 1]))
  }

  predicate IsIntText(s: string) {
    var digits := if s != "" && s[0] == '-' then s[1..] else s;
    digits != "" && AllDigits(digits)
  }

  /** The pattern `-?\d+(\.\d+)?([eE][+-]?\d+)?`. */
  predicate MatchesNumber(s: string) {
    var digits := if s != "" && s[0] == '-' then s[1..] else s;
    var n := Span(digits, IsDigit);
    n > 0 && MatchesFraction(digits[n..])
  }

  predicate MatchesFraction(s: string) {
    if s != "" && s[0] == '.' then
      var n := Span(s[1..], IsDigit);
      n > 0 && MatchesExponent(s[1..][n..])
    else
      MatchesExponent(s)
  }

  predicate MatchesExponent(s: string) {
    s == "" ||
    (s[0] in "eE" &&
     var digits := if |s| > 1 && s[1] in "+-" then s[2..] else s[1..];
     digits != "" && Span(digits, IsDigit) == |digits|)
  }

  const KEY_UNSAFE := ":,{}[]\"\n\t\r"
  const LEAD_UNSAFE := "[{#-&*!|>%@`\"'"

  predicate NeedsQuote(s: string, inCell: bool) {
    if s == "" then !inCell
    else
      || Padded(s)
      || '"' in s || '\n' in s || '\t' in s || '\r' in s
      || ':' in s
      || (inCell && ',' in s)
      || s == "true" || s == "false" || s == "null" || MatchesNumber(s)
      || s[0] in LEAD_UNSAFE
  }

  /** `s.replace(c, t)` for a one-character `c`. */
  function Replace(s: string, c: char, t: string): string {
    if s == "" then "" else (if s[0] == c then t else [s[0]]) + Replace(s[1..], c, t)
  }

  function Quote(s: string): string {
    var a := Replace(s, '\\', "\\\\");
    var b := Replace(a, '"', "\\\"");
    var c := Replace(b, '\n', "\\n");
    var d := Replace(c, '\t', "\\t");
    "\"" + Replace(d, '\r', "\\r") + "\""
  }

  function Key(k: string): string {
    if k == "" || Padded(k) || (exists c | c in k :: c in KEY_UNSAFE) then Quote(k) else k
  }

  /** `_num` of an integer or a float. */
  function Num(v: Value): string
    requires v.Int? || v.IntegralFloat? || v.Float?
  {
    if v.Float? then v.repr else OfInt(v.n)
  }

  /** A value after `key: `. */
  function Scalar(v: Value): string
    requires IsScalar(v)
  {
    match v
    case Null => "null"
    case Bool(b) => if b then "true" else "false"
    case Str(s) => if NeedsQuote(s, false) then Quote(s) else s
    case Int(_) => Num(v)
    case IntegralFloat(_) => Num(v)
    case Float(_) => Num(v)
  }

  /** A value in a comma-separated cell. */
  function Cell(v: Value): string
    requires IsScalar(v)
  {
    match v
    case Null => ""
    case Bool(b) => if b then "true" else "false"
    case Str(s) => if NeedsQuote(s, true) then Quote(s) else s
    case Int(_) => Num(v)
    case IntegralFloat(_) => Num(v)
    case Float(_) => Num(v)
  }

  // ---- lines ----

  function Pad(depth: nat): string {
    if depth == 0 then "" else "  " + Pad(depth - 1)
  }

  /** `row.get(c)`. */
  function Get(fields: Fields, c: string): (v: Value)
    ensures (exists i | 0 <= i < |fields| :: fields[i] == Field(c, v)) || (v.Null? && forall f | f in fields :: f.key != c)
  {
    if fields == [] then Null
    else if fields[0].key == c then fields[0].value
    else Get(fields[1..], c)
  }

  /** The columns after the keys of one more row have been seen. */
  function AddColumns(cols: seq<string>, fields: Fields): seq<string>
    decreases fields
  {
    if fields == [] then cols
    else AddColumns(if fields[0].key in cols then cols else cols + [fields[0].key], fields[1..])
  }

  function ColumnsFrom(cols: seq<string>, rows: seq<Value>): seq<string>
    requires forall x | x in rows :: x.Dict?
    decreases rows
  {
    if rows == [] then cols else ColumnsFrom(AddColumns(cols, rows[0].fields), rows[1..])
  }

  /** Every key of every row, in the order first seen. */
  function Columns(rows: seq<Value>): seq<string>
    requires forall x | x in rows :: x.Dict?
  {
    ColumnsFrom([], rows)
  }

  predicate AllScalars(arr: seq<Value>) {
    forall x | x in arr :: IsScalar(x)
  }

  predicate AllDicts(arr: seq<Value>) {
    forall x | x in arr :: x.Dict?
  }

  predicate FlatRow(row: Value, cols: seq<string>)
    requires row.Dict?
  {
    forall c | c in cols :: IsScalar(Get(row.fields, c))
  }

  predicate AllFlat(rows: seq<Value>, cols: seq<string>)
    requires AllDicts(rows)
  {
    forall row | row in rows :: FlatRow(row, cols)
  }

  /** An array of records none of whose columns holds a nested value. */
  predicate Tabular(arr: seq<Value>) {
    AllDicts(arr) && AllFlat(arr, Columns(arr))
  }

  function Keys(cols: seq<string>): seq<string> {
    seq(|cols|, i requires 0 <= i < |cols| => Key(cols[i]))
  }

  function Cells(arr: seq<Value>): seq<string>
    requires AllScalars(arr)
  {
    seq(|arr|, i requires 0 <= i < |arr| => Cell(arr[i]))
  }

  function RowValues(row: Value, cols: seq<string>): (vs: seq<Value>)
    requires row.Dict? && FlatRow(row, cols)
    ensures |vs| == |cols| && AllScalars(vs)
  {
    seq(|cols|, i requires 0 <= i < |cols| => Get(row.fields, cols[i]))
  }

  function RowLine(row: Value, cols: seq<string>, depth: nat): string
    requires row.Dict? && FlatRow(row, cols)
  {
    Pad(depth) + "  " + Join(",", Cells(RowValues(row, cols)))
  }

  function RowLines(rows: seq<Value>, cols: seq<string>, depth: nat): (lines: seq<string>)
    requires AllDicts(rows) && AllFlat(rows, cols)
    ensures |lines| == |rows|
  {
    if rows == [] then [] else [RowLine(rows[0], cols, depth)] + RowLines(rows[1..], cols, depth)
  }

  function ArrayHead(key: string, arr: seq<Value>, depth: nat): string {
    Pad(depth) + Key(key) + "[" + OfNat(|arr|) + "]"
  }

  function ArrayLines(dumps: JsonDumps, key: string, arr: seq<Value>, depth: nat): seq<string> {
    var head := ArrayHead(key, arr, depth);
    if arr == [] then [Pad(depth) + Key(key) + "[0]:"]
    else if AllScalars(arr) then [head + ": " + Join(",", Cells(arr))]
    else if Tabular(arr) then
      [head + "{" + Join(",", Keys(Columns(arr))) + "}:"] + RowLines(arr, Columns(arr), depth)
    else [head + ": " + dumps(arr)]
  }

  function KvLines(dumps: JsonDumps, key: string, value: Value, depth: nat): seq<string>
    decreases value
  {
    match value
    case Dict(fields) => [Pad(depth) + Key(key) + ":"] + FieldsLines(dumps, fields, depth + 1)
    case List(items) => ArrayLines(dumps, key, items, depth)
    case _ => [Pad(depth) + Key(key) + ": " + Scalar(value)]
  }

  function FieldsLines(dumps: JsonDumps, fields: Fields, depth: nat): seq<string>
    decreases fields
  {
    if fields == [] then []
    else KvLines(dumps, fields[0].key, fields[0].value, depth) + FieldsLines(dumps, fields[1..], depth)
  }

  function Document(dumps: JsonDumps, v: Value): string {
    Join("\n",
         match v
         case Dict(fields) => FieldsLines(dumps, fields, 0)
         case List(items) => ArrayLines(dumps, "items", items, 0)
         case _ => [Scalar(v)])
  }

  // ---- the printer itself, appending to one shared list of lines ----

  class Encoder {
    const dumps: JsonDumps
    var lines: seq<string>

    constructor (dumps: JsonDumps)
      ensures this.dumps == dumps && lines == []
    {
      this.dumps, lines := dumps, [];
    }

    method ToToon(obj: Value) returns (text: string)
      modifies this
      ensures text == Document(dumps, obj)
    {
      lines := [];
      if obj.Dict? {
        EmitFields(obj.fields, 0);
      } else if obj.List? {
        EmitArray("items", obj.items, 0);
      } else {
        lines := lines + [Scalar(obj)];
      }
      assert lines == match obj
             case Dict(fields) => FieldsLines(dumps, fields, 0)
             case List(items) => ArrayLines(dumps, "items", items, 0)
             case _ => [Scalar(obj)];
      text := Join("\n", lines);
    }

    method EmitFields(fields: Fields, depth: nat)
      modifies this
      ensures lines == old(lines) + FieldsLines(dumps, fields, depth)
      decreases fields, 1
    {
      var i := 0;
      assert fields[i..] == fields;
      while i < |fields|
        invariant 0 <= i <= |fields|
        invariant lines + FieldsLines(dumps, fields[i..], depth)
               == old(lines) + FieldsLines(dumps, fields, depth)
      {
        ghost var before := lines;
        EmitKv(fields[i].key, fields[i].value, depth);
        assert fields[i..][1..] == fields[i + 1..];
        ConcatAssoc(before, KvLines(dumps, fields[i].key, fields[i].value, depth), FieldsLines(dumps, fields[i + 1..], depth));
        i := i + 1;
      }
    }

    method EmitKv(key: string, value: Value, depth: nat)
      modifies this
      ensures lines == old(lines) + KvLines(dumps, key, value, depth)
      decreases value, 0
    {
      if value.Dict? {
        var head := [Pad(depth) + Key(key) + ":"];
        ConcatAssoc(lines, head, FieldsLines(dumps, value.fields, depth + 1));
        lines := lines + head;
        EmitFields(value.fields, depth + 1);
      } else if value.List? {
        EmitArray(key, value.items, depth);
      } else {
        lines := lines + [Pad(depth) + Key(key) + ": " + Scalar(value)];
      }
    }

    method EmitArray(key: string, arr: seq<Value>, depth: nat)
      modifies this
      ensures lines == old(lines) + ArrayLines(dumps, key, arr, depth)
    {
      if arr == [] {
        lines := lines + [Pad(depth) + Key(key) + "[0]:"];
        return;
      }
      if AllScalars(arr) {
        lines := lines + [ArrayHead(key, arr, depth) + ": " + Join(",", Cells(arr))];
        return;
      }
      if AllDicts(arr) {
        var cols := CollectColumns(arr);
        if AllFlat(arr, cols) {
          var head := [ArrayHead(key, arr, depth) + "{" + Join(",", Keys(cols)) + "}:"];
          ConcatAssoc(lines, head, RowLines(arr, cols, depth));
          lines := lines + head;
          EmitRows(arr, cols, depth);
          return;
        }
      }
      lines := lines + [ArrayHead(key, arr, depth) + ": " + dumps(arr)];
    }

    /** The loop over the rows of a table. */
    method EmitRows(rows: seq<Value>, cols: seq<string>, depth: nat)
      requires AllDicts(rows) && AllFlat(rows, cols)
      modifies this
      ensures lines == old(lines) + RowLines(rows, cols, depth)
    {
      var i := 0;
      assert rows[i..] == rows;
      while i < |rows|
        invariant 0 <= i <= |rows|
        invariant lines + RowLines(rows[i..], cols, depth) == old(lines) + RowLines(rows, cols, depth)
      {
        ghost var before := lines;
        lines := lines + [RowLine(rows[i], cols, depth)];
        assert rows[i..][1..] == rows[i + 1..];
        ConcatAssoc(before, [RowLine(rows[i], cols, depth)], RowLines(rows[i + 1..], cols, depth));
        i := i + 1;
      }
    }
  }

  /** The nested loop over rows and keys, with the set of keys already seen. */
  method CollectColumns(rows: seq<Value>) returns (cols: seq<string>)
    requires AllDicts(rows)
    ensures cols == Columns(rows)
  {
    cols := [];
    var seen: set<string> := {};
    var i := 0;
    assert rows[i..] == rows;
    while i < |rows|
      invariant 0 <= i <= |rows|
      invariant seen == set c | c in cols
      invariant ColumnsFrom(cols, rows[i..]) == Columns(rows)
    {
      var fields := rows[i].fields;
      var j := 0;
      ghost var before := cols;
      assert fields[j..] == fields;
      while j < |fields|
        invariant 0 <= j <= |fields|
        invariant seen == set c | c in cols
        invariant AddColumns(cols, fields[j..]) == AddColumns(before, fields)
      {
        var k := fields[j].key;
        if k !in seen {
          seen := seen + {k};
          cols := cols + [k];
        }
        assert fields[j..][1..] == fields[j + 1..];
        j := j + 1;
      }
      assert rows[i..][1..] == rows[i + 1..];
      i := i + 1;
    }
  }
}
