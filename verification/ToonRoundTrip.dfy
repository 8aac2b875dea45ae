/** Printing loses nothing but what one stated normalisation forgets. */
module ToonRoundTrip {
  import opened Text
  import opened Wrappers
  import opened ToonEncoder
  import opened ToonDecoder

  // ---- the normalisation ----

  /** An integral float reads back as the integer. */
  function NormScalar(v: Value): Value {
    if v.IntegralFloat? then Int(v.n) else v
  }

  /** In a cell, moreover, the empty string reads back as null. */
  function NormCell(v: Value): Value {
    if v == Str("") then Null else NormScalar(v)
  }

  function NormCells(vs: seq<Value>): seq<Value> {
    seq(|vs|, i requires 0 <= i < |vs| => NormCell(vs[i]))
  }

  /** A row of a table: every column in order, a missing field being null. */
  function NormRow(row: Value, cols: seq<string>): Value
    requires row.Dict?
  {
    Dict(seq(|cols|, i requires 0 <= i < |cols| => Field(cols[i], NormCell(Get(row.fields, cols[i])))))
  }

  function NormRows(rows: seq<Value>, cols: seq<string>): (r: seq<Value>)
    requires AllDicts(rows)
    ensures |r| == |rows| && forall i | 0 <= i < |rows| :: r[i] == NormRow(rows[i], cols)
  {
    if rows == [] then [] else [NormRow(rows[0], cols)] + NormRows(rows[1..], cols)
  }

  function NormArray(arr: seq<Value>): seq<Value> {
    if AllScalars(arr) then NormCells(arr)
    else if Tabular(arr) then NormRows(arr, Columns(arr))
    else arr
  }

  function Normalize(v: Value): Value
    decreases v
  {
    match v
    case Dict(fields) => Dict(NormFields(fields))
    case List(items) => List(NormArray(items))
    case _ => NormScalar(v)
  }

  function NormFields(fields: Fields): Fields
    decreases fields
  {
    if fields == [] then []
    else [Field(fields[0].key, Normalize(fields[0].value))] + NormFields(fields[1..])
  }

  /** What `json.dumps` guarantees: its text has no line break, starts with a bracket, and determines
      the array. */
  ghost predicate Faithful(dumps: JsonDumps, loads: JsonLoads) {
    forall arr :: dumps(arr) != "" && dumps(arr)[0] == '[' && '\n' !in dumps(arr) && loads(dumps(arr)) == arr
  }

  // ---- quoting ----

  /** Quoting one character at a time. */
  function EscapeChar(c: char): string {
    if c == '\\' then "\\\\" else if c == '"' then "\\\"" else if c == '\n' then "\\n"
    else if c == '\t' then "\\t" else if c == '\r' then "\\r" else [c]
  }

  function Escape(s: string): string {
    if s == "" then "" else EscapeChar(s[0]) + Escape(s[1..])
  }

  lemma {:induction false} ReplaceConcat(s: string, s': string, c: char, t: string)
    ensures Replace(s + s', c, t) == Replace(s, c, t) + Replace(s', c, t)
  {
    if s == "" {
      assert s + s' == s';
    } else {
      assert (s + s')[1..] == s[1..] + s';
      ReplaceConcat(s[1..], s', c, t);
    }
  }

  /** The five passes of `replace`, innermost first. */
  function Passes(s: string): string {
    Replace(Replace(Replace(Replace(Replace(s, '\\', "\\\\"), '"', "\\\""), '\n', "\\n"), '\t', "\\t"), '\r', "\\r")
  }

  lemma PassesConcat(s: string, s': string)
    ensures Passes(s + s') == Passes(s) + Passes(s')
  {
    var a, a' := Replace(s, '\\', "\\\\"), Replace(s', '\\', "\\\\");
    var b, b' := Replace(a, '"', "\\\""), Replace(a', '"', "\\\"");
    var c, c' := Replace(b, '\n', "\\n"), Replace(b', '\n', "\\n");
    var d, d' := Replace(c, '\t', "\\t"), Replace(c', '\t', "\\t");
    ReplaceConcat(s, s', '\\', "\\\\");
    ReplaceConcat(a, a', '"', "\\\"");
    ReplaceConcat(b, b', '\n', "\\n");
    ReplaceConcat(c, c', '\t', "\\t");
    ReplaceConcat(d, d', '\r', "\\r");
  }

  lemma Replace1(x: char, c: char, t: string)
    ensures Replace([x], c, t) == if x == c then t else [x]
  {
    assert Replace([x][1..], c, t) == "";
  }

  lemma Replace2(x: char, y: char, c: char, t: string)
    ensures Replace([x, y], c, t) == (if x == c then t else [x]) + (if y == c then t else [y])
  {
    Replace1(x, c, t);
    Replace1(y, c, t);
    ReplaceConcat([x], [y], c, t);
    assert [x] + [y] == [x, y];
  }

  lemma PassesChar(x: char)
    ensures Passes([x]) == EscapeChar(x)
  {
    Replace1(x, '\\', "\\\\");
    Replace1(x, '"', "\\\"");
    Replace1(x, '\n', "\\n");
    Replace1(x, '\t', "\\t");
    Replace1(x, '\r', "\\r");
    var e := EscapeChar(x);
    if |e| == 2 {
      Replace2(e[0], e[1], '"', "\\\"");
      Replace2(e[0], e[1], '\n', "\\n");
      Replace2(e[0], e[1], '\t', "\\t");
      Replace2(e[0], e[1], '\r', "\\r");
      assert e == [e[0], e[1]];
    }
  }

  /** The five passes never rewrite each other's output. */
  lemma {:induction false} QuoteIsEscape(s: string)
    ensures Quote(s) == "\"" + Escape(s) + "\""
  {
    EscapeIsPasses(s);
  }

  lemma {:induction false} EscapeIsPasses(s: string)
    ensures Passes(s) == Escape(s)
  {
    if s != "" {
      PassesChar(s[0]);
      EscapeIsPasses(s[1..]);
      PassesConcat([s[0]], s[1..]);
      assert [s[0]] + s[1..] == s;
    }
  }

  lemma ReadPlainChar(c: char, tail: string)
    requires c != '"' && c != '\\' && ReadQuoted(tail).Some?
    ensures ReadQuoted([c] + tail) == Some(([c] + ReadQuoted(tail).value.0, ReadQuoted(tail).value.1))
  {
    DropFront([c], tail);
  }

  lemma ReadPair(e: char, tail: string)
    requires ReadQuoted(tail).Some?
    ensures ReadQuoted(['\\', e] + tail) == Some(([EscapedChar(e)] + ReadQuoted(tail).value.0, ReadQuoted(tail).value.1))
  {
    DropFront(['\\', e], tail);
    assert (['\\', e] + tail)[1] == e;
  }

  /** The letter that stands for an escaped character, after the backslash. */
  function Mark(c: char): char {
    if c == '\n' then 'n' else if c == '\t' then 't' else if c == '\r' then 'r' else c
  }

  predicate Special(c: char) {
    c == '\\' || c == '"' || c == '\n' || c == '\t' || c == '\r'
  }

  lemma EscapeCharIs(c: char)
    ensures EscapeChar(c) == (if Special(c) then ['\\', Mark(c)] else [c]) && (Special(c) ==> EscapedChar(Mark(c)) == c)
  {
  }

  lemma ReadEscapedChar(c: char, tail: string)
    requires ReadQuoted(tail).Some?
    ensures ReadQuoted(EscapeChar(c) + tail) == Some(([c] + ReadQuoted(tail).value.0, ReadQuoted(tail).value.1))
  {
    EscapeCharIs(c);
    if Special(c) {
      ReadPair(Mark(c), tail);
    } else {
      ReadPlainChar(c, tail);
    }
  }

  lemma {:induction false} ReadEscaped(s: string, rest: string)
    ensures ReadQuoted(Escape(s) + "\"" + rest) == Some((s, rest))
  {
    if s == "" {
      var t := Escape(s) + "\"" + rest;
      assert t[0] == '"' && t[1..] == rest;
    } else {
      ReadEscaped(s[1..], rest);
      ReadEscapedChar(s[0], Escape(s[1..]) + "\"" + rest);
      assert Escape(s) + "\"" + rest == EscapeChar(s[0]) + (Escape(s[1..]) + "\"" + rest);
      assert [s[0]] + s[1..] == s;
    }
  }

  lemma ReadQuote(s: string, rest: string)
    ensures var t := Quote(s) + rest;
      t != "" && t[0] == '"' && ReadQuoted(t[1..]) == Some((s, rest))
  {
    QuoteIsEscape(s);
    ReadEscaped(s, rest);
    assert (Quote(s) + rest)[1..] == Escape(s) + "\"" + rest;
  }

  lemma {:induction false} EscapeOneLine(s: string)
    ensures '\n' !in Escape(s)
  {
    if s != "" {
      EscapeOneLine(s[1..]);
    }
  }

  // ---- tokens ----

  lemma ReadKeyOfKey(k: string, rest: string)
    requires rest != "" && rest[0] in KEY_UNSAFE && rest[0] != '"'
    ensures ReadKey(Key(k) + rest) == Some((k, rest))
    ensures Key(k) != "" && Key(k)[0] != ' ' && Key(k)[0] != '}' && '\n' !in Key(k)
  {
    if Key(k) == k && !(k == "" || Padded(k) || exists c | c in k :: c in KEY_UNSAFE) {
      assert forall i | 0 <= i < |k| :: k[i] in k;
      assert '"' in KEY_UNSAFE && '}' in KEY_UNSAFE && '\n' in KEY_UNSAFE;
      SpanPrefix(k, rest, BareKeyChar);
      assert (Key(k) + rest)[0] == k[0];
    } else {
      QuoteIsEscape(k);
      EscapeOneLine(k);
      ReadQuote(k, rest);
    }
  }

  predicate IsNumber(v: Value) {
    v.Int? || v.IntegralFloat? || v.Float?
  }

  predicate NumberChars(t: string) {
    t != "" && forall i | 0 <= i < |t| :: NumberChar(t[i])
  }

  lemma NotKeyword(t: string)
    requires NumberChars(t)
    ensures t != "null" && t != "true" && t != "false"
  {
    assert NumberChar(t[0]);
  }

  lemma IntegerText(n: int)
    ensures NumberChars(OfInt(n)) && ReadBare(OfInt(n)) == Int(n)
  {
    ToIntOfInt(n);
    var t := OfInt(n);
    if n < 0 {
      forall i | 0 <= i < |t| ensures NumberChar(t[i]) {
        if i > 0 { assert t[i] == t[1..][i - 1]; }
      }
    }
    NotKeyword(t);
  }

  lemma NumberText(v: Value)
    requires WellFormed(v) && IsNumber(v)
    ensures ReadBare(Num(v)) == NormScalar(v)
    ensures NumberChars(Num(v))
  {
    if v.Float? {
      assert v.repr != "";
      NotKeyword(v.repr);
    } else {
      IntegerText(v.n);
    }
  }

  /** A bare token can be mistaken neither for a quoted one nor for the start of a JSON array. */
  predicate PlainStart(t: string) {
    t == "" || (t[0] != '"' && t[0] != '[')
  }

  lemma NumberIsPlain(t: string)
    requires NumberChars(t)
    ensures PlainStart(t) && '\n' !in t && forall i | 0 <= i < |t| :: NotComma(t[i])
  {
    assert forall i | 0 <= i < |t| :: NumberChar(t[i]);
  }

  lemma BareString(s: string, inCell: bool)
    requires !NeedsQuote(s, inCell) && s != ""
    ensures ReadBare(s) == Str(s)
    ensures PlainStart(s) && '\n' !in s
    ensures inCell ==> forall i | 0 <= i < |s| :: NotComma(s[i])
  {
    assert LEAD_UNSAFE[|LEAD_UNSAFE| - 2] == '"' && LEAD_UNSAFE[0] == '[';
    if IsIntText(s) {
      IntTextMatches(s);
    }
  }

  lemma IntTextMatches(s: string)
    requires IsIntText(s)
    ensures MatchesNumber(s)
  {
    var digits := if s[0] == '-' then s[1..] else s;
    SpanPrefix(digits, "", IsDigit);
    assert digits + "" == digits;
  }

  lemma ReadQuotedString(s: string)
    ensures ReadScalar(Quote(s)) == Some(Str(s)) && Quote(s) != "" && '\n' !in Quote(s)
  {
    ReadQuote(s, "");
    assert Quote(s) + "" == Quote(s);
    QuoteIsEscape(s);
    EscapeOneLine(s);
  }

  lemma ReadScalarOfScalar(v: Value)
    requires IsScalar(v) && WellFormed(v)
    ensures ReadScalar(Scalar(v)) == Some(NormScalar(v))
    ensures Scalar(v) != "" && '\n' !in Scalar(v)
  {
    if v.Str? {
      if NeedsQuote(v.s, false) {
        ReadQuotedString(v.s);
      } else {
        BareString(v.s, false);
      }
    } else if IsNumber(v) {
      NumberText(v);
      NumberIsPlain(Num(v));
    }
  }

  lemma ReadQuotedCell(s: string, rest: string)
    ensures ReadCell(Quote(s) + rest) == Some((Str(s), rest))
    ensures '\n' !in Quote(s) && Quote(s)[0] == '"'
  {
    ReadQuote(s, rest);
    QuoteIsEscape(s);
    EscapeOneLine(s);
  }

  lemma ReadBareCell(t: string, rest: string)
    requires PlainStart(t) && forall i | 0 <= i < |t| :: NotComma(t[i])
    requires rest == "" || rest[0] == ','
    ensures ReadCell(t + rest) == Some((ReadBare(t), rest))
  {
    SpanPrefix(t, rest, NotComma);
    assert t + rest == "" || (t + rest)[0] == if t == "" then rest[0] else t[0];
  }

  /** An unquoted cell reads back as its value. */
  lemma BareCell(v: Value)
    requires IsScalar(v) && WellFormed(v) && !(v.Str? && NeedsQuote(v.s, true))
    ensures var t := Cell(v);
      ReadBare(t) == NormCell(v) && PlainStart(t) && '\n' !in t && forall i | 0 <= i < |t| :: NotComma(t[i])
  {
    if v.Str? && v.s != "" {
      BareString(v.s, true);
    } else if IsNumber(v) {
      NumberText(v);
      NumberIsPlain(Num(v));
    }
  }

  lemma ReadCellOfCell(v: Value, rest: string)
    requires IsScalar(v) && WellFormed(v)
    requires rest == "" || rest[0] == ','
    ensures ReadCell(Cell(v) + rest) == Some((NormCell(v), rest))
    ensures '\n' !in Cell(v) && (Cell(v) != "" ==> Cell(v)[0] != '[')
  {
    if v.Str? && NeedsQuote(v.s, true) {
      ReadQuotedCell(v.s, rest);
    } else {
      BareCell(v);
      ReadBareCell(Cell(v), rest);
    }
  }

  // ---- comma-separated lists ----

  /** The text reads back as the value, whether more cells follow or not. */
  ghost predicate ReadsAs(text: string, v: Value) {
    && ReadCell(text) == Some((v, ""))
    && forall tail: string :: ReadCell(text + ("," + tail)) == Some((v, "," + tail))
  }

  lemma CellReadsAs(v: Value)
    requires IsScalar(v) && WellFormed(v)
    ensures ReadsAs(Cell(v), NormCell(v))
  {
    ReadCellOfCell(v, "");
    assert Cell(v) + "" == Cell(v);
    forall tail: string ensures ReadCell(Cell(v) + ("," + tail)) == Some((NormCell(v), "," + tail)) {
      ReadCellOfCell(v, "," + tail);
    }
  }

  lemma ReadCellsStep(text: string, v: Value, tail: string, vs: seq<Value>, n: nat)
    requires n > 1 && ReadsAs(text, v) && ReadCells(tail, n - 1) == Some(vs)
    ensures ReadCells(text + "," + tail, n) == Some([v] + vs)
  {
    ConcatAssoc(text, ",", tail);
    assert ("," + tail)[1..] == tail;
  }

  lemma {:induction false} ReadCellsOfTexts(texts: seq<string>, vs: seq<Value>)
    requires |texts| == |vs| > 0 && forall i | 0 <= i < |vs| :: ReadsAs(texts[i], vs[i])
    ensures ReadCells(Join(",", texts), |vs|) == Some(vs)
    decreases vs
  {
    hide ReadsAs;
    if |vs| == 1 {
      ReadLastCell(texts[0], vs[0]);
      assert [vs[0]] == vs;
    } else {
      ReadCellsOfTexts(texts[1..], vs[1..]);
      ReadCellsStep(texts[0], vs[0], Join(",", texts[1..]), vs[1..], |vs|);
      assert [vs[0]] + vs[1..] == vs;
    }
  }

  lemma ReadLastCell(text: string, v: Value)
    requires ReadsAs(text, v)
    ensures ReadCells(text, 1) == Some([v])
  {
  }

  lemma ReadCellsOfCells(vs: seq<Value>)
    requires AllScalars(vs) && forall v | v in vs :: WellFormed(v)
    ensures ReadCells(Join(",", Cells(vs)), |vs|) == Some(NormCells(vs))
  {
    if vs == [] {
      assert NormCells(vs) == [];
    } else {
      forall i | 0 <= i < |vs| ensures ReadsAs(Cells(vs)[i], NormCells(vs)[i]) {
        CellReadsAs(vs[i]);
      }
      hide ReadsAs;
      ReadCellsOfTexts(Cells(vs), NormCells(vs));
    }
  }

  lemma {:induction false} JoinOneLine(parts: seq<string>)
    requires forall p | p in parts :: '\n' !in p
    ensures '\n' !in Join(",", parts)
  {
    if |parts| > 1 {
      JoinOneLine(parts[1..]);
    }
  }

  lemma CellsOneLine(vs: seq<Value>)
    requires AllScalars(vs) && forall v | v in vs :: WellFormed(v)
    ensures var t := Join(",", Cells(vs)); '\n' !in t && (t != "" ==> t[0] != '[')
  {
    forall p | p in Cells(vs) ensures '\n' !in p {
      var i :| 0 <= i < |vs| && Cells(vs)[i] == p;
      ReadCellOfCell(vs[i], "");
    }
    JoinOneLine(Cells(vs));
    if vs != [] {
      ReadCellOfCell(vs[0], "");
    }
  }

  lemma ReadColumnsStep(t: string, k: string, tail: string)
    requires ReadKey(t) == Some((k, "," + tail)) && ReadMoreColumns(tail).Some?
    ensures var (ks, rest) := ReadMoreColumns(tail).value; ReadMoreColumns(t) == Some(([k] + ks, rest))
  {
    assert ("," + tail)[1..] == tail;
  }

  lemma KeysCons(cols: seq<string>, rest: string)
    requires |cols| > 1
    ensures Join(",", Keys(cols)) + "}" + rest == Key(cols[0]) + ("," + (Join(",", Keys(cols[1..])) + "}" + rest))
  {
    assert Keys(cols)[1..] == Keys(cols[1..]);
    var tail := Join(",", Keys(cols)[1..]);
    assert Join(",", Keys(cols)) == Keys(cols)[0] + "," + tail;
    assert Keys(cols)[0] + "," + tail + "}" + rest == Keys(cols)[0] + ("," + (tail + "}" + rest));
  }

  lemma ReadColumnsCons(cols: seq<string>, rest: string)
    requires |cols| > 1
    requires ReadMoreColumns(Join(",", Keys(cols[1..])) + "}" + rest) == Some((cols[1..], rest))
    ensures ReadMoreColumns(Join(",", Keys(cols)) + "}" + rest) == Some((cols, rest))
  {
    var tail := Join(",", Keys(cols[1..])) + "}" + rest;
    KeysCons(cols, rest);
    ReadKeyOfKey(cols[0], "," + tail);
    ReadColumnsStep(Join(",", Keys(cols)) + "}" + rest, cols[0], tail);
    assert [cols[0]] + cols[1..] == cols;
  }

  lemma ReadLastColumn(k: string, rest: string)
    ensures ReadMoreColumns(Key(k) + "}" + rest) == Some(([k], rest))
  {
    var after := "}" + rest;
    ReadKeyOfKey(k, after);
    assert Key(k) + "}" + rest == Key(k) + after;
    assert after[1..] == rest;
  }

  lemma {:induction false} ReadMoreColumnsOfKeys(cols: seq<string>, rest: string)
    requires cols != []
    ensures ReadMoreColumns(Join(",", Keys(cols)) + "}" + rest) == Some((cols, rest))
    decreases cols
  {
    if |cols| == 1 {
      assert Join(",", Keys(cols)) == Key(cols[0]) && cols == [cols[0]];
      ReadLastColumn(cols[0], rest);
    } else {
      ReadMoreColumnsOfKeys(cols[1..], rest);
      ReadColumnsCons(cols, rest);
    }
  }

  lemma KeysOneLine(cols: seq<string>)
    ensures var t := Join(",", Keys(cols)); '\n' !in t && (cols != [] ==> t != "" && t[0] != '}')
  {
    forall p | p in Keys(cols) ensures '\n' !in p {
      var i :| 0 <= i < |cols| && Keys(cols)[i] == p;
      ReadKeyOfKey(cols[i], ":");
    }
    JoinOneLine(Keys(cols));
    if cols != [] {
      ReadKeyOfKey(cols[0], ":");
    }
  }

  lemma ReadColumnsOfKeys(cols: seq<string>, rest: string)
    ensures ReadColumns(Join(",", Keys(cols)) + "}" + rest) == Some((cols, rest))
  {
    if cols == [] {
      assert Join(",", Keys(cols)) + "}" + rest == "}" + rest;
      assert ("}" + rest)[1..] == rest;
    } else {
      KeysOneLine(cols);
      ReadMoreColumnsOfKeys(cols, rest);
      assert (Join(",", Keys(cols)) + "}" + rest)[0] == Join(",", Keys(cols))[0];
    }
  }

  // ---- heads of entries ----

  lemma ReadDictHead(key: string)
    ensures ReadHead(Key(key) + ":") == Some(DictHead(key))
  {
    ReadKeyOfKey(key, ":");
  }

  lemma ReadScalarHead(key: string, v: Value)
    requires IsScalar(v) && WellFormed(v)
    ensures ReadHead(Key(key) + ": " + Scalar(v)) == Some(ScalarHead(key, NormScalar(v)))
  {
    hide ReadKey, ReadScalar, Key, Scalar, NormScalar, ReadArrayHead;
    var rest := ": " + Scalar(v);
    ReadKeyOfKey(key, rest);
    ReadScalarOfScalar(v);
    assert Key(key) + ": " + Scalar(v) == Key(key) + rest;
    assert rest[2..] == Scalar(v);
  }

  /** Reading the bracketed count of an array. */
  lemma ReadCount(key: string, n: nat, tail: string)
    requires tail != "" && tail[0] == ']'
    ensures ReadHead(Key(key) + "[" + OfNat(n) + tail) == ReadArrayBody(key, n, tail)
  {
    var t := OfNat(n) + tail;
    SpanPrefix(OfNat(n), tail, IsAsciiDigit);
    ToNatOfNat(n);
    ReadKeyOfKey(key, "[" + t);
    ConcatAssoc(Key(key) + "[", OfNat(n), tail);
    ConcatAssoc(Key(key), "[", t);
    DropFront("[", t);
  }

  lemma ReadEmptyHead(key: string)
    ensures ReadHead(Key(key) + "[0]:") == Some(EmptyHead(key))
  {
    ReadCount(key, 0, "]:");
    assert Key(key) + "[" + OfNat(0) + "]:" == Key(key) + "[0]:";
  }

  /** The head of an array whose elements follow on the same line. */
  lemma ReadInlineHead(key: string, n: nat, text: string)
    ensures ReadHead(Key(key) + "[" + OfNat(n) + "]" + ": " + text) == ReadInlineArray(key, n, text)
  {
    var tail := "]" + ": " + text;
    ReadCount(key, n, tail);
    var front := Key(key) + "[" + OfNat(n);
    assert front + "]" + ": " + text == front + tail;
    assert tail[3..] == text;
  }

  lemma ReadCellsHead(key: string, vs: seq<Value>)
    requires AllScalars(vs) && forall v | v in vs :: WellFormed(v)
    ensures ReadInlineArray(key, |vs|, Join(",", Cells(vs))) == Some(CellsHead(key, NormCells(vs)))
  {
    CellsOneLine(vs);
    ReadCellsOfCells(vs);
  }

  lemma ReadTableBody(key: string, n: nat, cols: seq<string>, header: string)
    requires header == Join(",", Keys(cols))
    ensures ReadArrayBody(key, n, "]" + "{" + header + "}:") == Some(TableHead(key, n, cols))
  {
    ReadColumnsOfKeys(cols, ":");
    var tail := "]" + "{" + header + "}:";
    assert tail[2..] == header + "}" + ":";
  }

  lemma Regroup(a: string, b: string, c: string, d: string, e: string)
    ensures a + b + c + d + e == a + (b + c + d + e)
  {
  }

  lemma ReadTableHead(key: string, n: nat, cols: seq<string>)
    ensures ReadHead(Key(key) + "[" + OfNat(n) + "]" + "{" + Join(",", Keys(cols)) + "}:")
         == Some(TableHead(key, n, cols))
  {
    var header := Join(",", Keys(cols));
    var front := Key(key) + "[" + OfNat(n);
    ReadCount(key, n, "]" + "{" + header + "}:");
    ReadTableBody(key, n, cols, header);
    Regroup(front, "]", "{", header, "}:");
  }

  // ---- indentation ----

  lemma IndentTwoMore(t: string)
    ensures Indent("  " + t) == 2 + Indent(t)
  {
    assert ("  " + t)[1..] == " " + t;
    assert (" " + t)[1..] == t;
  }

  lemma {:induction false} PadIndent(depth: nat, t: string)
    requires t != "" && t[0] != ' '
    ensures |Pad(depth)| == 2 * depth && Indent(Pad(depth) + t) == 2 * depth
    ensures (Pad(depth) + t)[2 * depth..] == t
  {
    PadLength(depth);
    DropFront(Pad(depth), t);
    if depth == 0 {
      assert Pad(0) + t == t;
    } else {
      PadIndent(depth - 1, t);
      ConcatAssoc("  ", Pad(depth - 1), t);
      IndentTwoMore(Pad(depth - 1) + t);
    }
  }

  lemma {:induction false} PadLength(depth: nat)
    ensures |Pad(depth)| == 2 * depth && '\n' !in Pad(depth)
  {
    if depth > 0 {
      PadLength(depth - 1);
    }
  }

  // ---- rows ----

  lemma RowOfRow(row: Value, cols: seq<string>, depth: nat)
    requires row.Dict? && WellFormed(row) && FlatRow(row, cols)
    ensures var line := RowLine(row, cols, depth);
      && |line| >= 2 * depth + 2 && '\n' !in line
      && ReadCells(line[2 * depth + 2..], |cols|) == Some(NormCells(RowValues(row, cols)))
      && MakeRow(cols, NormCells(RowValues(row, cols))) == NormRow(row, cols)
  {
    var line := RowLine(row, cols, depth);
    var vs := RowValues(row, cols);
    forall v | v in vs ensures WellFormed(v) {
      var i :| 0 <= i < |cols| && vs[i] == v;
      assert v == Get(row.fields, cols[i]);
    }
    PadLength(depth);
    CellsOneLine(vs);
    ReadCellsOfCells(vs);
    assert line[2 * depth + 2..] == Join(",", Cells(vs));
    var made := MakeRow(cols, NormCells(vs));
    assert made.fields == NormRow(row, cols).fields;
  }

  lemma {:induction false} ReadRowsOfRows(rows: seq<Value>, cols: seq<string>, depth: nat)
    requires AllDicts(rows) && AllFlat(rows, cols) && forall row | row in rows :: WellFormed(row)
    ensures ReadRows(RowLines(rows, cols, depth), cols, depth) == Some(NormRows(rows, cols))
    ensures forall line | line in RowLines(rows, cols, depth) :: '\n' !in line
    decreases rows
  {
    if rows != [] {
      RowOfRow(rows[0], cols, depth);
      ReadRowsOfRows(rows[1..], cols, depth);
      assert RowLines(rows, cols, depth)[1..] == RowLines(rows[1..], cols, depth);
    }
  }

  // ---- documents ----

  /** A continuation that belongs to an enclosing object, not to one at `depth`. */
  predicate Closed(rest: seq<string>, depth: nat) {
    rest == [] || Indent(rest[0]) < 2 * depth
  }

  /** What printing one entry must give back, whatever lines follow it. */
  ghost predicate ReadsBack(loads: JsonLoads, lines: seq<string>, depth: nat, f: Field, rest: seq<string>) {
    && lines != [] && Indent(lines[0]) == 2 * depth <= |lines[0]|
    && ReadKv(loads, lines + rest, depth) == Some((f, rest))
  }

  lemma KeyLine(key: string, depth: nat, tail: string)
    ensures var line := Pad(depth) + (Key(key) + tail);
      Indent(line) == 2 * depth <= |line| && line[2 * depth..] == Key(key) + tail
  {
    ReadKeyOfKey(key, ":");
    PadIndent(depth, Key(key) + tail);
  }

  predicate OneLines(lines: seq<string>) {
    forall line | line in lines :: '\n' !in line
  }

  /** One line, read as a head that stands alone. */
  lemma LineBack(loads: JsonLoads, key: string, tail: string, depth: nat, rest: seq<string>)
    requires tail != "" && tail[0] != ' '
    ensures var line := Pad(depth) + Key(key) + tail;
      && Indent(line) == 2 * depth <= |line|
      && line[2 * depth..] == Key(key) + tail
      && (forall more :: ([line] + more)[1..] == more)
      && ('\n' !in tail ==> '\n' !in line)
  {
    KeyLine(key, depth, tail);
    assert Pad(depth) + Key(key) + tail == Pad(depth) + (Key(key) + tail);
    PadLength(depth);
    ReadKeyOfKey(key, ":");
  }

  lemma ScalarBack(loads: JsonLoads, key: string, v: Value, depth: nat, rest: seq<string>)
    requires IsScalar(v) && WellFormed(v)
    ensures ReadsBack(loads, [Pad(depth) + Key(key) + ": " + Scalar(v)], depth, Field(key, NormScalar(v)), rest)
    ensures OneLines([Pad(depth) + Key(key) + ": " + Scalar(v)])
  {
    var tail := ": " + Scalar(v);
    LineBack(loads, key, tail, depth, rest);
    ReadScalarOfScalar(v);
    ReadScalarHead(key, v);
    var line := Pad(depth) + Key(key) + ": " + Scalar(v);
    ConcatAssoc(Pad(depth) + Key(key), ": ", Scalar(v));
    ConcatAssoc(Key(key), ": ", Scalar(v));
    ScalarKv(loads, key, line, NormScalar(v), depth, rest);
  }

  lemma ScalarKv(loads: JsonLoads, key: string, line: string, v: Value, depth: nat, rest: seq<string>)
    requires Indent(line) == 2 * depth <= |line| && ReadHead(line[2 * depth..]) == Some(ScalarHead(key, v))
    ensures ReadsBack(loads, [line], depth, Field(key, v), rest)
  {
    DropFront([line], rest);
  }

  lemma {:induction false} NatOneLine(n: nat)
    ensures '\n' !in OfNat(n)
  {
    assert AllDigits(OfNat(n));
  }

  /** `head` with its count, in front of `tail`. */
  lemma CountedLine(key: string, n: nat, depth: nat, tail: string)
    ensures Pad(depth) + Key(key) + "[" + OfNat(n) + "]" + tail
         == Pad(depth) + Key(key) + ("[" + OfNat(n) + "]" + tail)
    ensures Key(key) + ("[" + OfNat(n) + "]" + tail) == Key(key) + "[" + OfNat(n) + "]" + tail
    ensures '\n' !in tail ==> '\n' !in "[" + OfNat(n) + "]" + tail
  {
    NatOneLine(n);
  }

  lemma InlineBack(loads: JsonLoads, key: string, n: nat, text: string, depth: nat, items: seq<Value>, rest: seq<string>)
    requires match ReadInlineArray(key, n, text)
             case Some(CellsHead(k, vs)) => k == key && vs == items
             case Some(JsonHead(k, t)) => k == key && loads(t) == items
             case _ => false
    requires '\n' !in text
    ensures var line := Pad(depth) + Key(key) + "[" + OfNat(n) + "]" + ": " + text;
      ReadsBack(loads, [line], depth, Field(key, List(items)), rest) && OneLines([line])
  {
    var tail := "[" + OfNat(n) + "]" + (": " + text);
    LineBack(loads, key, tail, depth, rest);
    CountedLine(key, n, depth, ": " + text);
    var line := Pad(depth) + Key(key) + "[" + OfNat(n) + "]" + ": " + text;
    assert line == Pad(depth) + Key(key) + tail;
    assert Key(key) + tail == Key(key) + "[" + OfNat(n) + "]" + ": " + text;
    ReadInlineHead(key, n, text);
    assert ([line] + rest)[0] == line;
  }

  lemma TableKv(loads: JsonLoads, key: string, line: string, table: seq<string>, cols: seq<string>, rows: seq<Value>,
                depth: nat, rest: seq<string>)
    requires Indent(line) == 2 * depth <= |line|
    requires ReadHead(line[2 * depth..]) == Some(TableHead(key, |table|, cols))
    requires ReadRows(table, cols, depth) == Some(rows)
    ensures ReadsBack(loads, [line] + table, depth, Field(key, List(rows)), rest)
  {
    var lines, n := [line] + table, |table|;
    assert (lines + rest)[0] == line;
    assert (lines + rest)[1..1 + n] == table;
    assert (lines + rest)[1 + n..] == rest;
  }

  lemma TableLine(key: string, n: nat, cols: seq<string>, depth: nat)
    ensures var line := Pad(depth) + Key(key) + "[" + OfNat(n) + "]" + "{" + Join(",", Keys(cols)) + "}:";
      && Indent(line) == 2 * depth <= |line| && '\n' !in line
      && ReadHead(line[2 * depth..]) == Some(TableHead(key, n, cols))
  {
    var header := Join(",", Keys(cols));
    var columns := "{" + header + "}:";
    var tail := "[" + OfNat(n) + "]" + columns;
    LineBack(s => [], key, tail, depth, []);
    CountedLine(key, n, depth, columns);
    KeysOneLine(cols);
    ReadTableHead(key, n, cols);
    Reassociate(Pad(depth) + Key(key) + "[" + OfNat(n) + "]", "{", header, "}:");
    Reassociate(Key(key) + "[" + OfNat(n) + "]", "{", header, "}:");
  }

  lemma Reassociate(a: string, b: string, c: string, d: string)
    ensures a + b + c + d == a + (b + c + d)
  {
  }

  lemma TableBack(loads: JsonLoads, key: string, rows: seq<Value>, cols: seq<string>, depth: nat, rest: seq<string>)
    requires AllDicts(rows) && AllFlat(rows, cols) && forall row | row in rows :: WellFormed(row)
    ensures var lines := [Pad(depth) + Key(key) + "[" + OfNat(|rows|) + "]" + "{" + Join(",", Keys(cols)) + "}:"]
                         + RowLines(rows, cols, depth);
      ReadsBack(loads, lines, depth, Field(key, List(NormRows(rows, cols))), rest) && OneLines(lines)
  {
    var line := Pad(depth) + Key(key) + "[" + OfNat(|rows|) + "]" + "{" + Join(",", Keys(cols)) + "}:";
    TableLine(key, |rows|, cols, depth);
    ReadRowsOfRows(rows, cols, depth);
    TableKv(loads, key, line, RowLines(rows, cols, depth), cols, NormRows(rows, cols), depth, rest);
  }

  lemma ArrayBack(dumps: JsonDumps, loads: JsonLoads, key: string, arr: seq<Value>, depth: nat, rest: seq<string>)
    requires Faithful(dumps, loads) && forall x | x in arr :: WellFormed(x)
    ensures var lines := ArrayLines(dumps, key, arr, depth);
      ReadsBack(loads, lines, depth, Field(key, List(NormArray(arr))), rest) && OneLines(lines)
  {
    if arr == [] {
      LineBack(loads, key, "[0]:", depth, rest);
      ReadEmptyHead(key);
      assert NormArray(arr) == [];
    } else if AllScalars(arr) {
      CellsOneLine(arr);
      ReadCellsHead(key, arr);
      InlineBack(loads, key, |arr|, Join(",", Cells(arr)), depth, NormCells(arr), rest);
    } else if Tabular(arr) {
      TableBack(loads, key, arr, Columns(arr), depth, rest);
    } else {
      InlineBack(loads, key, |arr|, dumps(arr), depth, arr, rest);
    }
  }

  /** An entry whose value is an object, given that its members read back. */
  lemma DictBack(loads: JsonLoads, key: string, members: seq<string>, fields: Fields, depth: nat, rest: seq<string>)
    requires ReadFields(loads, members + rest, depth + 1) == Some((fields, rest))
    ensures ReadsBack(loads, [Pad(depth) + Key(key) + ":"] + members, depth, Field(key, Dict(fields)), rest)
    ensures OneLines([Pad(depth) + Key(key) + ":"])
  {
    LineBack(loads, key, ":", depth, rest);
    ReadDictHead(key);
    var line := Pad(depth) + Key(key) + ":";
    DictKv(loads, key, line, members, fields, depth, rest);
  }

  lemma DictKv(loads: JsonLoads, key: string, line: string, members: seq<string>, fields: Fields, depth: nat, rest: seq<string>)
    requires Indent(line) == 2 * depth <= |line| && ReadHead(line[2 * depth..]) == Some(DictHead(key))
    requires ReadFields(loads, members + rest, depth + 1) == Some((fields, rest))
    ensures ReadsBack(loads, [line] + members, depth, Field(key, Dict(fields)), rest)
  {
    ConcatAssoc([line], members, rest);
    DropFront([line], members + rest);
  }

  lemma {:induction false} KvBack(dumps: JsonDumps, loads: JsonLoads, key: string, v: Value, depth: nat, rest: seq<string>)
    requires Faithful(dumps, loads) && WellFormed(v) && Closed(rest, depth + 1)
    ensures ReadsBack(loads, KvLines(dumps, key, v, depth), depth, Field(key, Normalize(v)), rest)
    ensures OneLines(KvLines(dumps, key, v, depth))
    decreases v
  {
    if v.Dict? {
      FieldsBack(dumps, loads, v.fields, depth + 1, rest);
      DictBack(loads, key, FieldsLines(dumps, v.fields, depth + 1), NormFields(v.fields), depth, rest);
    } else if v.List? {
      ArrayBack(dumps, loads, key, v.items, depth, rest);
    } else {
      ScalarBack(loads, key, v, depth, rest);
    }
  }

  lemma FieldsStep(loads: JsonLoads, lines: seq<string>, depth: nat, f: Field, more: seq<string>)
    requires ReadsBack(loads, lines, depth, f, more) && ReadFields(loads, more, depth).Some?
    ensures var (fs, rest) := ReadFields(loads, more, depth).value;
      ReadFields(loads, lines + more, depth) == Some(([f] + fs, rest))
  {
    assert (lines + more)[0] == lines[0];
  }

  /** What printing a run of entries must give back. */
  ghost predicate FieldsReadBack(loads: JsonLoads, lines: seq<string>, depth: nat, fields: Fields, rest: seq<string>) {
    && ReadFields(loads, lines + rest, depth) == Some((fields, rest))
    && Closed(lines + rest, depth + 1)
    && OneLines(lines)
  }

  lemma FieldsCons(loads: JsonLoads, lines: seq<string>, tail: seq<string>, depth: nat, f: Field, fs: Fields, rest: seq<string>)
    requires ReadsBack(loads, lines, depth, f, tail + rest) && OneLines(lines)
    requires FieldsReadBack(loads, tail, depth, fs, rest)
    ensures FieldsReadBack(loads, lines + tail, depth, [f] + fs, rest)
  {
    ConcatAssoc(lines, tail, rest);
    FieldsStep(loads, lines, depth, f, tail + rest);
    ClosedAfter(lines, tail + rest, depth);
  }

  lemma ClosedAfter(lines: seq<string>, more: seq<string>, depth: nat)
    requires lines != [] && Indent(lines[0]) == 2 * depth
    ensures Closed(lines + more, depth + 1)
  {
    DropFront(lines, more);
  }

  lemma {:induction false} FieldsBack(dumps: JsonDumps, loads: JsonLoads, fields: Fields, depth: nat, rest: seq<string>)
    requires Faithful(dumps, loads) && Closed(rest, depth)
    requires forall f | f in fields :: WellFormed(f.value)
    ensures FieldsReadBack(loads, FieldsLines(dumps, fields, depth), depth, NormFields(fields), rest)
    decreases fields
  {
    if fields == [] {
      assert [] + rest == rest;
    } else {
      var tail := FieldsLines(dumps, fields[1..], depth);
      FieldsBack(dumps, loads, fields[1..], depth, rest);
      KvBack(dumps, loads, fields[0].key, fields[0].value, depth, tail + rest);
      FieldsCons(loads, KvLines(dumps, fields[0].key, fields[0].value, depth), tail, depth,
                 Field(fields[0].key, Normalize(fields[0].value)), NormFields(fields[1..]), rest);
    }
  }

  lemma NonBlank(loads: JsonLoads, lines: seq<string>, f: Field, rest: seq<string>)
    requires ReadsBack(loads, lines, 0, f, rest)
    ensures lines[0] != ""
  {
    var line := lines[0];
    assert (lines + rest)[0] == line;
    assert line[0..] == line;
    assert ReadHead(line).Some?;
  }

  lemma {:induction false} SplitOfJoin(lines: seq<string>)
    requires lines != [] && OneLines(lines)
    ensures SplitLines(Join("\n", lines)) == lines
    decreases lines
  {
    assert forall i | 0 <= i < |lines[0]| :: NotNewline(lines[0][i]) by {
      assert '\n' !in lines[0];
    }
    if |lines| == 1 {
      SpanPrefix(lines[0], "", NotNewline);
      assert lines[0] + "" == lines[0];
      assert lines == [lines[0]];
    } else {
      var tail := "\n" + Join("\n", lines[1..]);
      SpanPrefix(lines[0], tail, NotNewline);
      assert Join("\n", lines) == lines[0] + tail;
      assert (lines[0] + tail)[|lines[0]| + 1..] == Join("\n", lines[1..]);
      SplitOfJoin(lines[1..]);
      assert [lines[0]] + lines[1..] == lines;
    }
  }

  // ---- the main results ----

  /** Reading a printed object gives the object back, normalised: nothing else is ever lost. */
  lemma RoundTrip(dumps: JsonDumps, loads: JsonLoads, v: Value)
    requires Faithful(dumps, loads) && v.Dict? && WellFormed(v)
    ensures Decode(loads, Document(dumps, v)) == Some(Normalize(v))
  {
    FieldsBack(dumps, loads, v.fields, 0, []);
    var lines := FieldsLines(dumps, v.fields, 0);
    assert lines + [] == lines;
    if v.fields != [] {
      SplitOfJoin(lines);
      KvBack(dumps, loads, v.fields[0].key, v.fields[0].value, 0, []);
      NonBlank(loads, KvLines(dumps, v.fields[0].key, v.fields[0].value, 0), Field(v.fields[0].key, Normalize(v.fields[0].value)), []);
      assert Join("\n", lines) != "";
    }
  }
}
