/** A reader of TOON documents, the reference against which the printer is judged: it recovers the
    structure of a document from its text alone. */
module ToonDecoder {
  import opened Text
  import opened Wrappers
  import opened ToonEncoder

  /** `json.loads`, for the arrays the printer hands to `json.dumps`. */
  type JsonLoads = string -> seq<Value>

  // ---- tokens ----

  predicate BareKeyChar(c: char) { c !in KEY_UNSAFE }

  predicate NotComma(c: char) { c != ',' }

  predicate NotNewline(c: char) { c != '\n' }

  function EscapedChar(c: char): char {
    if c == 'n' then '\n' else if c == 't' then '\t' else if c == 'r' then '\r' else c
  }

  /** The text up to the closing quote, unescaped, and what follows that quote. */
  function ReadQuoted(t: string): (r: Option<(string, string)>)
    ensures r.Some? ==> |r.value.1| < |t|
  {
    if t == "" then None
    else if t[0] == '"' then Some(("", t[1..]))
    else if t[0] == '\\' then
      if |t| == 1 then None
      else var (s, rest) :- ReadQuoted(t[2..]); Some(([EscapedChar(t[1])] + s, rest))
    else var (s, rest) :- ReadQuoted(t[1..]); Some(([t[0]] + s, rest))
  }

  function ReadKey(t: string): (r: Option<(string, string)>)
    ensures r.Some? ==> |r.value.1| <= |t|
  {
    if t != "" && t[0] == '"' then ReadQuoted(t[1..])
    else var n := Span(t, BareKeyChar); Some((t[..n], t[n..]))
  }

  /** A bare token: a keyword, a number, or else a string. */
  function ReadBare(t: string): Value {
    if t == "" || t == "null" then Null
    else if t == "true" then Bool(true)
    else if t == "false" then Bool(false)
    else if IsIntText(t) then Int(ToInt(t))
    else if MatchesNumber(t) then Float(t)
    else Str(t)
  }

  function ReadScalar(t: string): Option<Value> {
    if t != "" && t[0] == '"' then
      var (s, rest) :- ReadQuoted(t[1..]);
      if rest == "" then Some(Str(s)) else None
    else Some(ReadBare(t))
  }

  function ReadCell(t: string): Option<(Value, string)> {
    if t != "" && t[0] == '"' then
      var (s, rest) :- ReadQuoted(t[1..]);
      Some((Str(s), rest))
    else
      var n := Span(t, NotComma);
      Some((ReadBare(t[..n]), t[n..]))
  }

  /** Exactly `n` cells. */
  function ReadCells(t: string, n: nat): (r: Option<seq<Value>>)
    ensures r.Some? ==> |r.value| == n
    decreases n
  {
    if n == 0 then (if t == "" then Some([]) else None)
    else
      var (v, rest) :- ReadCell(t);
      if n == 1 then (if rest == "" then Some([v]) else None)
      else if rest != "" && rest[0] == ',' then
        var vs :- ReadCells(rest[1..], n - 1);
        Some([v] + vs)
      else None
  }

  /** Column names up to the closing brace, and what follows it. */
  function ReadColumns(t: string): Option<(seq<string>, string)> {
    if t != "" && t[0] == '}' then Some(([], t[1..])) else ReadMoreColumns(t)
  }

  function ReadMoreColumns(t: string): Option<(seq<string>, string)>
    decreases |t|
  {
    var (k, rest) :- ReadKey(t);
    if rest == "" then None
    else if rest[0] == '}' then Some(([k], rest[1..]))
    else if rest[0] == ',' then
      var (ks, rest') :- ReadMoreColumns(rest[1..]);
      Some(([k] + ks, rest'))
    else None
  }

  // ---- lines ----

  datatype Head =
    | DictHead(key: string)
    | ScalarHead(key: string, value: Value)
    | EmptyHead(key: string)
    | CellsHead(key: string, values: seq<Value>)
    | JsonHead(key: string, text: string)
    | TableHead(key: string, count: nat, cols: seq<string>)

  /** The first line of an entry, its indentation removed. */
  function ReadHead(t: string): Option<Head> {
    var (key, rest) :- ReadKey(t);
    if rest == "" then None
    else if rest == ":" then Some(DictHead(key))
    else if rest[0] == ':' then
      if rest[1] == ' ' then var v :- ReadScalar(rest[2..]); Some(ScalarHead(key, v)) else None
    else if rest[0] == '[' then ReadArrayHead(key, rest[1..])
    else None
  }

  /** What follows the opening bracket of an array's first line. */
  function ReadArrayHead(key: string, t: string): Option<Head> {
    var d := Span(t, IsAsciiDigit);
    ReadArrayBody(key, ToNat(t[..d]), t[d..])
  }

  /** What follows the count of an array. */
  function ReadArrayBody(key: string, n: nat, t: string): Option<Head> {
    if |t| < 2 || t[0] != ']' then None
    else if t[1] == '{' then
      var (cols, after) :- ReadColumns(t[2..]);
      if after == ":" then Some(TableHead(key, n, cols)) else None
    else if t[1] != ':' then None
    else if |t| == 2 then (if n == 0 then Some(EmptyHead(key)) else None)
    else if t[2] != ' ' then None
    else ReadInlineArray(key, n, t[3..])
  }

  function ReadInlineArray(key: string, n: nat, t: string): Option<Head> {
    if t != "" && t[0] == '[' then Some(JsonHead(key, t))
    else var vs :- ReadCells(t, n); Some(CellsHead(key, vs))
  }

  /** The number of leading blanks. */
  function Indent(line: string): nat {
    if line != "" && line[0] == ' ' then 1 + Indent(line[1..]) else 0
  }

  function MakeRow(cols: seq<string>, vs: seq<Value>): Value
    requires |cols| == |vs|
  {
    Dict(seq(|cols|, i requires 0 <= i < |cols| => Field(cols[i], vs[i])))
  }

  function ReadRows(lines: seq<string>, cols: seq<string>, depth: nat): Option<seq<Value>> {
    if lines == [] then Some([])
    else if |lines[0]| < 2 * depth + 2 then None
    else
      var vs :- ReadCells(lines[0][2 * depth + 2..], |cols|);
      var rows :- ReadRows(lines[1..], cols, depth);
      Some([MakeRow(cols, vs)] + rows)
  }

  function ReadKv(loads: JsonLoads, lines: seq<string>, depth: nat): (r: Option<(Field, seq<string>)>)
    requires lines != [] && Indent(lines[0]) == 2 * depth <= |lines[0]|
    ensures r.Some? ==> |r.value.1| < |lines|
    decreases |lines|, 0
  {
    var head :- ReadHead(lines[0][2 * depth..]);
    match head
    case DictHead(k) =>
      var (fields, rest) :- ReadFields(loads, lines[1..], depth + 1);
      Some((Field(k, Dict(fields)), rest))
    case ScalarHead(k, v) => Some((Field(k, v), lines[1..]))
    case EmptyHead(k) => Some((Field(k, List([])), lines[1..]))
    case CellsHead(k, vs) => Some((Field(k, List(vs)), lines[1..]))
    case JsonHead(k, text) => Some((Field(k, List(loads(text))), lines[1..]))
    case TableHead(k, n, cols) =>
      if |lines| < 1 + n then None
      else
        var rows :- ReadRows(lines[1..1 + n], cols, depth);
        Some((Field(k, List(rows)), lines[1 + n..]))
  }

  /** The entries indented at `depth`, up to the first line that is not. */
  function ReadFields(loads: JsonLoads, lines: seq<string>, depth: nat): (r: Option<(Fields, seq<string>)>)
    ensures r.Some? ==> |r.value.1| <= |lines|
    decreases |lines|, 1
  {
    if lines == [] || Indent(lines[0]) != 2 * depth || |lines[0]| < 2 * depth then Some(([], lines))
    else
      var (f, rest) :- ReadKv(loads, lines, depth);
      var (fs, rest') :- ReadFields(loads, rest, depth);
      Some(([f] + fs, rest'))
  }

  /** `text.split("\n")`. */
  function SplitLines(text: string): (lines: seq<string>)
    ensures lines != []
  {
    var n := Span(text, NotNewline);
    if n == |text| then [text] else [text[..n]] + SplitLines(text[n + 1..])
  }

  /** The object a document denotes. */
  function Decode(loads: JsonLoads, text: string): Option<Value> {
    if text == "" then Some(Dict([]))
    else
      var (fields, rest) :- ReadFields(loads, SplitLines(text), 0);
      if rest == [] then Some(Dict(fields)) else None
  }
}
