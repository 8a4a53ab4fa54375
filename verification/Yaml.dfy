/**
 The YAML printer of backend/app/services/subscriptions.py and an independent reader for
 the subset it prints: block mappings and sequences (section 8.2 of YAML 1.2.2) over plain
 and double-quoted scalars (section 7.3.1), comment lines allowed.
 */
module Yaml {
  import opened Wrappers
  import Decimal

  /** `Number` is any number but a decimal integer, by its spelling: a Python float is what `str` makes of it. */
  datatype Scalar = Bool(b: bool) | Int(n: int) | Number(spelling: string) | Text(s: string) | Null

  /** The trees the printer is given; a mapping keeps its insertion order. */
  datatype Value = Leaf(scalar: Scalar) | Dict(entries: seq<Entry>) | List(items: seq<Value>)
  datatype Entry = Entry(key: Scalar, value: Value)

  /** `str(value)` of a mapping or list. */
  type Repr = Value -> string

  // ---------- scalars ----------

  function Replace(s: string, c: char, sub: string): string {
    if s == [] then [] else (if s[0] == c then sub else [s[0]]) + Replace(s[1..], c, sub)
  }

  function Quoted(s: string): string {
    "\"" + Replace(Replace(s, '\\', "\\\\"), '\"', "\\\"") + "\""
  }

  function ShowInt(n: int): string {
    if n < 0 then "-" + Decimal.Print(-n) else Decimal.Print(n)
  }

  /** `yaml_scalar`. */
  function Show(v: Value, repr: Repr): string {
    match v
    case Leaf(Bool(b)) => if b then "true" else "false"
    case Leaf(Null) => "\"\""
    case Leaf(Int(n)) => ShowInt(n)
    case Leaf(Number(spelling)) => spelling
    case Leaf(Text(s)) => Quoted(s)
    case _ => Quoted(repr(v))
  }

  /** A key in an f-string: `str(key)`, without quotes. */
  function KeyText(key: Scalar): string {
    match key
    case Bool(b) => if b then "True" else "False"
    case Null => "None"
    case Int(n) => ShowInt(n)
    case Number(spelling) => spelling
    case Text(s) => s
  }

  // ---------- lines ----------

  datatype Line = Line(indent: nat, content: string)

  function Spaces(n: nat): string {
    seq(n, i => ' ')
  }

  function Print(l: Line): string {
    Spaces(l.indent) + l.content
  }

  function Texts(lines: seq<Line>): seq<string> {
    if lines == [] then [] else [Print(lines[0])] + Texts(lines[1..])
  }

  /** `"\n".join(parts)`. */
  function Join(parts: seq<string>): string {
    if parts == [] then ""
    else if |parts| == 1 then parts[0]
    else parts[0] + "\n" + Join(parts[1..])
  }

  /** What an empty mapping or list prints: `"\n".join([])` on a line of its own. */
  const BLANK: seq<Line> := [Line(0, "")]

  /** The lines of `render_yaml(v, ind)`, an empty mapping or list printing `gap`. */
  function Lines(v: Value, ind: nat, gap: seq<Line>, repr: Repr): (r: seq<Line>)
    ensures gap != [] ==> r != []
  {
    match v
    case Leaf(_) => [Line(ind, Show(v, repr))]
    case Dict(es) => if es == [] then gap else DictLines(es, ind, gap, repr)
    case List(xs) => if xs == [] then gap else ListLines(xs, ind, gap, repr)
  }

  function DictLines(es: seq<Entry>, ind: nat, gap: seq<Line>, repr: Repr): (r: seq<Line>)
    ensures es != [] ==> r != []
  {
    if es == [] then [] else EntryLines(es[0], ind, gap, repr) + DictLines(es[1..], ind, gap, repr)
  }

  function EntryLines(e: Entry, ind: nat, gap: seq<Line>, repr: Repr): (r: seq<Line>)
    ensures r != []
  {
    if e.value.Leaf? then [Line(ind, KeyText(e.key) + (": " + Show(e.value, repr)))]
    else [Line(ind, KeyText(e.key) + ":")] + Lines(e.value, ind + 2, gap, repr)
  }

  function ListLines(xs: seq<Value>, ind: nat, gap: seq<Line>, repr: Repr): (r: seq<Line>)
    ensures xs != [] ==> r != []
  {
    if xs == [] then [] else ItemLines(xs[0], ind, gap, repr) + ListLines(xs[1..], ind, gap, repr)
  }

  /** The first entry of a mapping shares the line of the dash, and is printed as a scalar. */
  function ItemLines(x: Value, ind: nat, gap: seq<Line>, repr: Repr): (r: seq<Line>)
    ensures r != []
  {
    if x.Dict? && x.entries != [] then
      [Line(ind, "- " + (KeyText(x.entries[0].key) + (": " + Show(x.entries[0].value, repr))))]
          + DictLines(x.entries[1..], ind + 2, gap, repr)
    else [Line(ind, "- " + Show(x, repr))]
  }

  /** The text of `render_yaml`. */
  function Render(v: Value, ind: nat, repr: Repr): string {
    Join(Texts(Lines(v, ind, BLANK, repr)))
  }

  /** Some list the printer reaches holds an empty mapping, whose first key it asks for. */
  predicate Raises(v: Value) {
    match v
    case Leaf(_) => false
    case Dict(es) => exists e :: e in es && Raises(e.value)
    case List(xs) => exists x :: x in xs && ItemRaises(x)
  }

  predicate ItemRaises(x: Value) {
    x.Dict? && (x.entries == [] || exists e :: e in x.entries[1..] && Raises(e.value))
  }

  // ---------- the reader ----------

  function IndexOf(s: string, c: char): (k: nat)
    ensures k <= |s|
    ensures forall i :: 0 <= i < k ==> s[i] != c
    ensures k < |s| ==> s[k] == c
  {
    if s == [] || s[0] == c then 0 else 1 + IndexOf(s[1..], c)
  }

  predicate IsBreak(c: char) {
    c == '\n' || c == '\r'
  }

  /** No control character other than a tab (section 5.1), and so no line break. */
  predicate Clean(s: string) {
    forall i :: 0 <= i < |s| ==> s[i] >= ' ' || s[i] == '\t'
  }

  /** The characters a document may hold. */
  predicate Admitted(text: string) {
    forall i :: 0 <= i < |text| ==> text[i] >= ' ' || text[i] == '\t' || IsBreak(text[i])
  }

  function EndOfLine(s: string): (k: nat)
    ensures k <= |s|
    ensures forall i :: 0 <= i < k ==> !IsBreak(s[i])
    ensures k < |s| ==> IsBreak(s[k])
  {
    if s == [] || IsBreak(s[0]) then 0 else 1 + EndOfLine(s[1..])
  }

  function SplitLines(text: string): seq<string>
    decreases |text|
  {
    var k := EndOfLine(text);
    if k == |text| then [text] else [text[..k]] + SplitLines(text[k + 1..])
  }

  function Lex(s: string): Line {
    if s != [] && s[0] == ' ' then
      var rest := Lex(s[1..]);
      rest.(indent := rest.indent + 1)
    else Line(0, s)
  }

  /** The lines with content, comments left out. */
  function Significant(texts: seq<string>): seq<Line> {
    if texts == [] then []
    else
      var l := Lex(texts[0]);
      (if l.content == "" || l.content[0] == '#' then [] else [l]) + Significant(texts[1..])
  }

  /** The part of a double-quoted scalar after the opening quote. */
  function ReadQuoted(s: string): Option<string> {
    if s == [] then None
    else if s[0] == '\"' then (if |s| == 1 then Some("") else None)
    else if s[0] == '\\' then
      if |s| < 2 || (s[1] != '\\' && s[1] != '\"') then None
      else Prepended(s[1], ReadQuoted(s[2..]))
    else Prepended(s[0], ReadQuoted(s[1..]))
  }

  function Prepended(c: char, rest: Option<string>): Option<string> {
    if rest.None? then None else Some([c] + rest.value)
  }

  const TRUE_WORDS: set<string> := {"true", "True", "TRUE"}
  const FALSE_WORDS: set<string> := {"false", "False", "FALSE"}
  const NULL_WORDS: set<string> := {"null", "Null", "NULL", "~"}

  predicate IsDigits(s: string) {
    s != [] && forall i :: 0 <= i < |s| ==> '0' <= s[i] <= '9'
  }

  const INFINITIES: set<string> := {".inf", ".Inf", ".INF"}
  const NOT_NUMBERS: set<string> := {".nan", ".NaN", ".NAN"}

  function AfterSign(s: string): string {
    if s != "" && (s[0] == '-' || s[0] == '+') then s[1..] else s
  }

  /** The length of the run of digits in front. */
  function DigitRun(s: string): (k: nat)
    ensures k <= |s|
    ensures forall i :: 0 <= i < k ==> '0' <= s[i] <= '9'
  {
    if s == [] || !('0' <= s[0] <= '9') then 0 else 1 + DigitRun(s[1..])
  }

  predicate IsExponent(s: string) {
    s == "" || ((s[0] == 'e' || s[0] == 'E') && IsDigits(AfterSign(s[1..])))
  }

  predicate IsFloat(s: string) {
    var k := DigitRun(s);
    if k < |s| && s[k] == '.' then
      var f := DigitRun(s[k + 1..]);
      k + f > 0 && IsExponent(s[k + 1..][f..])
    else k > 0 && IsExponent(s[k..])
  }

  /** An octal or hexadecimal number. */
  predicate IsBased(s: string) {
    && |s| > 2 && s[0] == '0'
    && ((s[1] == 'o' && forall i :: 2 <= i < |s| ==> '0' <= s[i] <= '7')
        || (s[1] == 'x' && forall i :: 2 <= i < |s| ==>
              '0' <= s[i] <= '9' || 'a' <= s[i] <= 'f' || 'A' <= s[i] <= 'F'))
  }

  predicate IsNumber(s: string) {
    IsFloat(AfterSign(s)) || IsBased(s) || AfterSign(s) in INFINITIES || s in NOT_NUMBERS
  }

  /** A plain scalar, of a value or of a key, resolved as in the core schema (section 10.3.2). */
  function ReadPlain(s: string): Scalar {
    if s in TRUE_WORDS then Bool(true)
    else if s in FALSE_WORDS then Bool(false)
    else if s == "" || s in NULL_WORDS then Null
    else if IsDigits(s) then Int(Decimal.Read(s))
    else if s[0] == '-' && IsDigits(s[1..]) then (var n: int := Decimal.Read(s[1..]); Int(-n))
    else if s[0] == '+' && IsDigits(s[1..]) then Int(Decimal.Read(s[1..]))
    else if IsNumber(s) then Number(s)
    else Text(s)
  }

  function ReadScalar(s: string): Option<Scalar> {
    if s != "" && s[0] == '\"' then
      var q := ReadQuoted(s[1..]);
      if q.None? then None else Some(Text(q.value))
    else Some(ReadPlain(s))
  }

  predicate IsItem(content: string) {
    |content| >= 2 && content[0] == '-' && content[1] == ' '
  }

  predicate HasKey(content: string) {
    content != "" && content[0] != '\"' && IndexOf(content, ':') < |content|
  }

  /** One block node, and the lines after it. */
  function ReadValue(lines: seq<Line>): (r: Option<(Value, seq<Line>)>)
    requires lines != []
    ensures r.Some? ==> |r.value.1| < |lines|
    decreases |lines|, 4
  {
    var ind, content := lines[0].indent, lines[0].content;
    if IsItem(content) then
      var xs := ReadItems(lines, ind);
      if xs.None? then None else Some((List(xs.value.0), xs.value.1))
    else if HasKey(content) then
      var es := ReadEntries(lines, ind);
      if es.None? then None else Some((Dict(es.value.0), es.value.1))
    else
      var s := ReadScalar(content);
      if s.None? then None else Some((Leaf(s.value), lines[1..]))
  }

  /** The items at indentation `ind`; a mapping in an item is a block two columns further in. */
  function ReadItems(lines: seq<Line>, ind: nat): (r: Option<(seq<Value>, seq<Line>)>)
    ensures r.Some? ==> |r.value.1| <= |lines|
    ensures r.Some? && lines != [] && lines[0].indent == ind && IsItem(lines[0].content) ==> |r.value.1| < |lines|
    decreases |lines|, 3
  {
    if lines == [] || lines[0].indent != ind || !IsItem(lines[0].content) then Some(([], lines))
    else
      var item := ReadItem(lines, ind);
      if item.None? then None
      else
        var more := ReadItems(item.value.1, ind);
        if more.None? then None else Some(([item.value.0] + more.value.0, more.value.1))
  }

  function ReadItem(lines: seq<Line>, ind: nat): (r: Option<(Value, seq<Line>)>)
    requires lines != [] && IsItem(lines[0].content)
    ensures r.Some? ==> |r.value.1| < |lines|
    decreases |lines|, 2
  {
    var body := lines[0].content[2..];
    if HasKey(body) then
      var es := ReadEntries([Line(ind + 2, body)] + lines[1..], ind + 2);
      if es.None? || |es.value.1| >= |lines| then None else Some((Dict(es.value.0), es.value.1))
    else
      var s := ReadScalar(body);
      if s.None? then None else Some((Leaf(s.value), lines[1..]))
  }

  function ReadEntries(lines: seq<Line>, ind: nat): (r: Option<(seq<Entry>, seq<Line>)>)
    ensures r.Some? ==> |r.value.1| <= |lines|
    ensures r.Some? && lines != [] && lines[0].indent == ind && !IsItem(lines[0].content) ==> |r.value.1| < |lines|
    decreases |lines|, 1
  {
    if lines == [] || lines[0].indent != ind || IsItem(lines[0].content) then Some(([], lines))
    else
      var e := ReadEntry(lines, ind);
      if e.None? then None
      else
        var more := ReadEntries(e.value.1, ind);
        if more.None? then None else Some(([e.value.0] + more.value.0, more.value.1))
  }

  /** `key: scalar`, or `key:` over a block further in, or over nothing. */
  function ReadEntry(lines: seq<Line>, ind: nat): (r: Option<(Entry, seq<Line>)>)
    requires lines != []
    ensures r.Some? ==> |r.value.1| < |lines|
    decreases |lines|, 0
  {
    var content := lines[0].content;
    var k := IndexOf(content, ':');
    if !HasKey(content) then None
    else if k + 1 < |content| then
      var s := ReadScalar(content[k + 2..]);
      if content[k + 1] != ' ' || s.None? then None
      else Some((Entry(ReadPlain(content[..k]), Leaf(s.value)), lines[1..]))
    else if |lines| > 1 && lines[1].indent > ind then
      var v := ReadValue(lines[1..]);
      if v.None? then None else Some((Entry(ReadPlain(content[..k]), v.value.0), v.value.1))
    else Some((Entry(ReadPlain(content[..k]), Leaf(Null)), lines[1..]))
  }

  /** A whole document. */
  function Read(text: string): Option<Value> {
    var lines := Significant(SplitLines(text));
    if !Admitted(text) then None
    else if lines == [] then Some(Leaf(Null))
    else
      var v := ReadValue(lines);
      if v.None? || v.value.1 != [] then None else Some(v.value.0)
  }

  // ---------- what a printed tree reads as ----------

  predicate IsLetter(c: char) {
    'a' <= c <= 'z' || 'A' <= c <= 'Z'
  }

  predicate IsDigit(c: char) {
    '0' <= c <= '9'
  }

  /** A printable character (section 5.1) that means nothing special inside a plain scalar. */
  predicate PlainChar(c: char) {
    var n := c as int;
    || (0x20 <= n <= 0x7E && c != ':' && c != '#')
    || 0xA0 <= n <= 0xD7FF || 0xE000 <= n <= 0xFEFE || 0xFF00 <= n <= 0xFFFD || n >= 0x1_0000
  }

  /** Nothing that would be taken for an item, a quote or an indicator (section 7.3.3). */
  predicate PlainStart(k: string) {
    && k != ""
    && (IsLetter(k[0]) || IsDigit(k[0]) || k[0] == '_' || k[0] as int >= 0xA0
        || (k[0] == '-' && |k| > 1 && (IsLetter(k[1]) || IsDigit(k[1]))))
  }

  /** A key that needs no quotes. */
  predicate PlainKey(k: string) {
    PlainStart(k) && k[|k| - 1] != ' ' && forall i :: 0 <= i < |k| ==> PlainChar(k[i])
  }

  const FLOAT_WORDS: set<string> := {"inf", "-inf", "nan"}

  /** Digits with a fraction, an exponent or both. */
  predicate FloatDigits(s: string) {
    var k := DigitRun(s);
    && 0 < k < |s|
    && if s[k] == '.' then
         var f := DigitRun(s[k + 1..]);
         f > 0 && (s[k + 1..][f..] == "" || FloatExponent(s[k + 1..][f..]))
       else FloatExponent(s[k..])
  }

  predicate FloatExponent(s: string) {
    |s| > 2 && s[0] == 'e' && (s[1] == '+' || s[1] == '-') && IsDigits(s[2..])
  }

  /** What `str` makes of a Python float. */
  predicate FloatText(s: string) {
    s in FLOAT_WORDS || FloatDigits(if s != "" && s[0] == '-' then s[1..] else s)
  }

  /** Keys that need no quotes, and floats spelled as Python spells them. */
  predicate Printable(v: Value) {
    match v
    case Leaf(s) => s.Number? ==> FloatText(s.spelling)
    case Dict(es) => PrintableEntries(es)
    case List(xs) => forall x :: x in xs ==> Printable(x)
  }

  predicate PrintableEntries(es: seq<Entry>) {
    forall e :: e in es ==> PlainKey(KeyText(e.key)) && (assert e.value < e; Printable(e.value))
  }

  predicate CleanLeaf(v: Value) {
    v.Leaf? && v.scalar.Text? ==> Clean(v.scalar.s)
  }

  /** Every text of the tree is free of control characters. */
  predicate CleanTexts(v: Value) {
    match v
    case Leaf(_) => CleanLeaf(v)
    case Dict(es) => CleanEntries(es)
    case List(xs) => forall x :: x in xs ==> CleanTexts(x)
  }

  predicate CleanEntries(es: seq<Entry>) {
    forall e :: e in es ==> (assert e.value < e; CleanTexts(e.value))
  }

  /** Every text that is printed as it is; a value nested where a scalar is due is printed by `str`. */
  predicate PrintsClean(v: Value) {
    match v
    case Leaf(_) => CleanLeaf(v)
    case Dict(es) => EntriesPrintClean(es)
    case List(xs) => forall x :: x in xs ==> ItemPrintsClean(x)
  }

  predicate EntriesPrintClean(es: seq<Entry>) {
    forall e :: e in es ==> (assert e.value < e; PrintsClean(e.value))
  }

  predicate ItemPrintsClean(x: Value) {
    if x.Dict? && x.entries != [] then CleanLeaf(x.entries[0].value) && EntriesPrintClean(x.entries[1..])
    else CleanLeaf(x)
  }

  /** Python's `str` of a mapping or list escapes the control characters of its parts. */
  ghost predicate EscapesControls(repr: Repr) {
    forall v :: Clean(repr(v))
  }

  function ReadAsScalar(v: Value, repr: Repr): Scalar {
    match v
    case Leaf(Null) => Text("")
    case Leaf(Number(spelling)) => ReadPlain(spelling)
    case Leaf(s) => s
    case _ => Text(repr(v))
  }

  /** The tree a reader gets: what the printed text means. */
  function ReadAs(v: Value, repr: Repr): Value {
    match v
    case Leaf(_) => Leaf(ReadAsScalar(v, repr))
    case Dict(es) => if es == [] then Leaf(Null) else Dict(EntriesReadAs(es, repr))
    case List(xs) => if xs == [] then Leaf(Null) else List(ItemsReadAs(xs, repr))
  }

  function EntriesReadAs(es: seq<Entry>, repr: Repr): seq<Entry> {
    if es == [] then []
    else
      assert es[0].value < es[0];
      [Entry(ReadPlain(KeyText(es[0].key)), ReadAs(es[0].value, repr))] + EntriesReadAs(es[1..], repr)
  }

  function ItemsReadAs(xs: seq<Value>, repr: Repr): seq<Value> {
    if xs == [] then [] else [ItemReadAs(xs[0], repr)] + ItemsReadAs(xs[1..], repr)
  }

  /** The first entry of an item is printed as a scalar. */
  function FirstReadAs(e: Entry, repr: Repr): Entry {
    Entry(ReadPlain(KeyText(e.key)), Leaf(ReadAsScalar(e.value, repr)))
  }

  function ItemReadAs(x: Value, repr: Repr): Value {
    if x.Dict? && x.entries != [] then
      Dict([FirstReadAs(x.entries[0], repr)] + EntriesReadAs(x.entries[1..], repr))
    else Leaf(ReadAsScalar(x, repr))
  }

  /**
   The trees that survive: no empty mapping or list, no `None`, no infinity, no key that resolves
   to something else, and list items that are scalars or mappings that begin with a scalar.
   */
  predicate Faithful(v: Value)
    decreases v, 0
  {
    match v
    case Leaf(s) => s != Null && (s.Number? ==> s.spelling !in FLOAT_WORDS)
    case Dict(es) => es != [] && forall e :: e in es ==> KeyIsText(e) && Faithful(e.value)
    case List(xs) => xs != [] && forall x :: x in xs ==> FaithfulItem(x)
  }

  /** The printed key resolves to the key itself: no text such as `true` or `null`. */
  predicate KeyIsText(e: Entry) {
    ReadPlain(KeyText(e.key)) == e.key
  }

  predicate FaithfulItem(x: Value)
    decreases x, 1
  {
    Faithful(x) && !x.List? && (x.Dict? ==> x.entries[0].value.Leaf?)
  }

  // ---------- scalars read back ----------

  lemma ReplaceOne(c: char, s: string)
    ensures Replace(Replace([c] + s, '\\', "\\\\"), '\"', "\\\"") ==
            (if c == '\\' then "\\\\" else if c == '\"' then "\\\"" else [c])
                + Replace(Replace(s, '\\', "\\\\"), '\"', "\\\"")
  {
    var inner := Replace(s, '\\', "\\\\");
    assert ([c] + s)[1..] == s;
    if c == '\\' {
      var twice := "\\\\" + inner;
      assert twice[1..] == "\\" + inner && twice[1..][1..] == inner;
      assert Replace(twice[1..], '\"', "\\\"") == "\\" + Replace(inner, '\"', "\\\"");
    } else {
      assert ([c] + inner)[1..] == inner;
    }
  }

  lemma {:induction false} ReadQuotedBack(s: string)
    ensures ReadQuoted(Replace(Replace(s, '\\', "\\\\"), '\"', "\\\"") + "\"") == Some(s)
  {
    if s != [] {
      var rest := Replace(Replace(s[1..], '\\', "\\\\"), '\"', "\\\"") + "\"";
      ReadQuotedBack(s[1..]);
      ReplaceOne(s[0], s[1..]);
      assert [s[0]] + s[1..] == s;
      var all := Replace(Replace(s, '\\', "\\\\"), '\"', "\\\"") + "\"";
      if s[0] == '\\' || s[0] == '\"' {
        assert all == ['\\', s[0]] + rest;
        assert all[2..] == rest;
      } else {
        assert all == [s[0]] + rest;
        assert all[1..] == rest;
      }
    }
  }

  /** What a printed scalar looks like to the reader of lines. */
  predicate ScalarText(s: string) {
    s != "" && s[0] != ' ' && s[0] != '#' && !IsItem(s) && !HasKey(s)
  }

  lemma QuotedIsScalar(s: string)
    ensures ScalarText(Quoted(s)) && ReadScalar(Quoted(s)) == Some(Text(s))
  {
    ReadQuotedBack(s);
    var q := Quoted(s);
    assert q[1..] == Replace(Replace(s, '\\', "\\\\"), '\"', "\\\"") + "\"";
  }

  lemma QuotedIsClean(s: string)
    requires Clean(s)
    ensures Clean(Quoted(s))
  {
    ReplaceIsClean(s, '\\', "\\\\");
    ReplaceIsClean(Replace(s, '\\', "\\\\"), '\"', "\\\"");
  }

  lemma {:induction false} ReplaceIsClean(s: string, c: char, sub: string)
    requires Clean(s) && Clean(sub)
    ensures Clean(Replace(s, c, sub))
  {
    if s != [] {
      ReplaceIsClean(s[1..], c, sub);
    }
  }

  /** Text that begins with a digit or a minus is none of the words for booleans and null. */
  lemma NoWord(s: string)
    requires s != "" && ('0' <= s[0] <= '9' || s[0] == '-')
    ensures s !in TRUE_WORDS && s !in FALSE_WORDS && s !in NULL_WORDS
  {
    assert forall w :: w in TRUE_WORDS + FALSE_WORDS + NULL_WORDS ==> w != "" && (IsLetter(w[0]) || w[0] == '~');
  }

  lemma DigitsAreScalar(n: nat)
    ensures var s := Decimal.Print(n);
            IsDigits(s) && ScalarText(s) && ReadScalar(s) == Some(Int(n)) && IndexOf(s, ':') == |s|
  {
    Decimal.ReadPrint(n);
    NoWord(Decimal.Print(n));
    assert IndexOf(Decimal.Print(n), ':') == |Decimal.Print(n)|;
  }

  lemma MinusReads(digits: string)
    requires IsDigits(digits)
    ensures ReadScalar("-" + digits) == Some(Int(0 - Decimal.Read(digits)))
  {
    assert ("-" + digits)[1..] == digits;
    ReadMinus("-" + digits);
  }

  lemma MinusText(digits: string)
    requires IsDigits(digits) && IndexOf(digits, ':') == |digits|
    ensures ScalarText("-" + digits)
  {
    var s := "-" + digits;
    NoKeyBehindMinus(digits);
    assert s[0] == '-' && s[1] == digits[0];
    assert forall i :: 0 < i < |s| ==> s[i] == digits[i - 1];
  }

  lemma NoKeyBehindMinus(digits: string)
    requires IndexOf(digits, ':') == |digits|
    ensures !HasKey("-" + digits)
  {
    assert ("-" + digits)[1..] == digits;
  }

  lemma ReadMinus(s: string)
    requires |s| > 1 && s[0] == '-' && IsDigits(s[1..])
    ensures ReadScalar(s) == Some(Int(0 - Decimal.Read(s[1..])))
  {
    NoWord(s);
  }

  lemma IntIsScalar(n: int)
    ensures ScalarText(ShowInt(n)) && ReadScalar(ShowInt(n)) == Some(Int(n))
  {
    if n < 0 {
      NegativeIsScalar(-n);
    } else {
      DigitsAreScalar(n);
    }
  }

  lemma NegativeIsScalar(n: nat)
    ensures ScalarText("-" + Decimal.Print(n)) && ReadScalar("-" + Decimal.Print(n)) == Some(Int(0 - n))
  {
    DigitsAreScalar(n);
    Decimal.ReadPrint(n);
    MinusText(Decimal.Print(n));
    MinusReads(Decimal.Print(n));
  }

  /** A letter, a digit or another character of a float. */
  predicate FloatChar(c: char) {
    IsLetter(c) || IsDigit(c) || c == '.' || c == '+' || c == '-'
  }

  predicate FloatChars(s: string) {
    forall i :: 0 <= i < |s| ==> FloatChar(s[i])
  }

  lemma FloatCharsAppend(a: string, b: string)
    requires FloatChars(a) && FloatChars(b)
    ensures FloatChars(a + b)
  {
  }

  lemma ExponentIsExponent(s: string)
    requires FloatExponent(s)
    ensures IsExponent(s) && FloatChars(s)
  {
    assert s[1..][1..] == s[2..];
    assert forall i :: 2 <= i < |s| ==> s[i] == s[2..][i - 2];
  }

  lemma FractionIsFraction(s: string, f: nat)
    requires f <= |s| && (forall i :: 0 <= i < f ==> IsDigit(s[i])) && (s[f..] == "" || FloatExponent(s[f..]))
    ensures IsExponent(s[f..]) && FloatChars(s)
  {
    if s[f..] != "" {
      ExponentIsExponent(s[f..]);
    }
    FloatCharsAppend(s[..f], s[f..]);
    assert s[..f] + s[f..] == s;
  }

  lemma FloatIsFloat(s: string)
    requires FloatDigits(s)
    ensures IsFloat(s) && IsDigit(s[0]) && !IsDigits(s) && FloatChars(s)
  {
    var k := DigitRun(s);
    if s[k] == '.' {
      var fraction := s[k + 1..];
      FractionIsFraction(fraction, DigitRun(fraction));
      FloatCharsAppend(s[..k] + ".", fraction);
      assert s == s[..k] + "." + fraction;
    } else {
      ExponentIsExponent(s[k..]);
      assert s[k] == s[k..][0];
      FloatCharsAppend(s[..k], s[k..]);
      assert s == s[..k] + s[k..];
    }
  }

  /** A Python float reads as the number it spells, except for the infinities and the undefined value. */
  lemma FloatIsScalar(s: string)
    requires FloatText(s)
    ensures ScalarText(s) && Clean(s) && ReadScalar(s) == Some(ReadPlain(s))
    ensures ReadPlain(s) == Number(s) <==> s !in FLOAT_WORDS
  {
    if s in FLOAT_WORDS {
      var t := if s == "nan" then "nan" else "inf";
      assert s == "-inf" ==> s[1..] == t;
      FloatReads(s, t);
      WordIsText(s, t);
    } else {
      var t := if s != "" && s[0] == '-' then s[1..] else s;
      FloatIsFloat(t);
      FloatReads(s, t);
      NoWord(s);
      NumberReads(s, t);
    }
  }

  lemma WordIsText(s: string, t: string)
    requires t != "" && IsLetter(t[0]) && (s == t || (s != "" && s[0] == '-' && s[1..] == t))
    requires s !in TRUE_WORDS && s !in FALSE_WORDS && s !in NULL_WORDS
    ensures ReadPlain(s) == Text(s)
  {
    assert AfterSign(s) == t;
    assert DigitRun(t) == 0;
    assert t !in INFINITIES && t !in NOT_NUMBERS;
  }

  lemma NumberReads(s: string, t: string)
    requires s != "" && s !in TRUE_WORDS && s !in FALSE_WORDS && s !in NULL_WORDS
    requires (s == t && IsDigit(s[0])) || (s[0] == '-' && s[1..] == t)
    requires !IsDigits(t) && IsFloat(t)
    ensures ReadPlain(s) == Number(s)
  {
    assert AfterSign(s) == t;
    assert s[0] == '-' ==> !IsDigits(s);
  }

  lemma FloatReads(s: string, t: string)
    requires t != "" && (IsDigit(t[0]) || IsLetter(t[0])) && FloatChars(t)
    requires s == t || (s != "" && s[0] == '-' && s[1..] == t)
    ensures ScalarText(s) && Clean(s) && ReadScalar(s) == Some(ReadPlain(s))
  {
    assert s != t ==> s[1] == t[0] && forall i :: 0 < i < |s| ==> s[i] == t[i - 1];
    assert ':' !in s;
  }

  lemma ScalarReadsBack(v: Value, repr: Repr)
    requires Printable(v)
    ensures ScalarText(Show(v, repr)) && ReadScalar(Show(v, repr)) == Some(ReadAsScalar(v, repr))
  {
    match v
    case Leaf(Bool(b)) =>
      assert IndexOf("true", ':') == 4 && IndexOf("false", ':') == 5;
    case Leaf(Null) =>
      QuotedIsScalar("");
    case Leaf(Int(n)) => IntIsScalar(n);
    case Leaf(Number(spelling)) => FloatIsScalar(spelling);
    case Leaf(Text(t)) => QuotedIsScalar(t);
    case _ => QuotedIsScalar(repr(v));
  }

  lemma ShowIsClean(v: Value, repr: Repr)
    requires Printable(v) && EscapesControls(repr) && CleanLeaf(v)
    ensures Clean(Show(v, repr))
  {
    match v
    case Leaf(Bool(_)) =>
    case Leaf(Null) =>
    case Leaf(Int(n)) =>
    case Leaf(Number(spelling)) => FloatIsScalar(spelling);
    case Leaf(Text(t)) => QuotedIsClean(t);
    case _ =>
      assert Clean(repr(v));
      QuotedIsClean(repr(v));
  }

  // ---------- lines read back ----------

  lemma {:induction false} IndexAfterKey(k: string, rest: string)
    requires forall i :: 0 <= i < |k| ==> k[i] != ':'
    requires rest != "" && rest[0] == ':'
    ensures IndexOf(k + rest, ':') == |k|
  {
    if k == [] {
      assert k + rest == rest;
    } else {
      IndexAfterKey(k[1..], rest);
      assert (k + rest)[1..] == k[1..] + rest;
    }
  }

  /** The line of a key with a scalar, and of a key over a block. */
  lemma KeyLine(k: string, rest: string)
    requires PlainKey(k) && rest != "" && rest[0] == ':'
    ensures var c := k + rest;
            && HasKey(c) && !IsItem(c) && IndexOf(c, ':') == |k| && c[..|k|] == k && c[|k| + 1..] == rest[1..]
            && c[0] != ' ' && c[0] != '#'
  {
    IndexAfterKey(k, rest);
  }

  /** The rest of the lines does not continue a block at `ind`. */
  predicate Stops(rest: seq<Line>, ind: nat) {
    rest == [] || rest[0].indent < ind
  }

  lemma ReadScalarEntry(key: string, v: Value, ind: nat, rest: seq<Line>, repr: Repr)
    requires PlainKey(key) && Printable(v)
    ensures ReadEntry([Line(ind, key + (": " + Show(v, repr)))] + rest, ind) ==
            Some((Entry(ReadPlain(key), Leaf(ReadAsScalar(v, repr))), rest))
  {
    ScalarReadsBack(v, repr);
    ReadShownEntry(key, Show(v, repr), ReadAsScalar(v, repr), ind, rest);
  }

  lemma ReadShownEntry(key: string, shown: string, s: Scalar, ind: nat, rest: seq<Line>)
    requires PlainKey(key) && ReadScalar(shown) == Some(s)
    ensures ReadEntry([Line(ind, key + (": " + shown))] + rest, ind) == Some((Entry(ReadPlain(key), Leaf(s)), rest))
  {
    var content := key + (": " + shown);
    KeyLine(key, ": " + shown);
    assert content[|key| + 2..] == shown;
    assert content[|key| + 1] == ' ';
    var lines := [Line(ind, content)] + rest;
    assert lines[1..] == rest;
  }

  lemma ReadKeyOverBlock(key: string, block: seq<Line>, v: Value, ind: nat, rest: seq<Line>)
    requires PlainKey(key) && block != [] && block[0].indent == ind + 2 && ReadValue(block + rest) == Some((v, rest))
    ensures ReadEntry([Line(ind, key + ":")] + block + rest, ind) == Some((Entry(ReadPlain(key), v), rest))
  {
    var line := Line(ind, key + ":");
    KeyLine(key, ":");
    Associate([line], block, rest);
    ReadKeyLine(line, block + rest, key, ind, v, rest);
  }

  lemma ReadKeyLine(line: Line, below: seq<Line>, key: string, ind: nat, v: Value, rest: seq<Line>)
    requires HasKey(line.content) && IndexOf(line.content, ':') == |key| == |line.content| - 1
             && line.content[..|key|] == key
    requires below != [] && below[0].indent > ind && ReadValue(below) == Some((v, rest))
    ensures ReadEntry([line] + below, ind) == Some((Entry(ReadPlain(key), v), rest))
  {
    assert ([line] + below)[1..] == below;
  }

  lemma ReadKeyOverNothing(key: string, ind: nat, rest: seq<Line>)
    requires PlainKey(key) && (rest == [] || rest[0].indent <= ind)
    ensures ReadEntry([Line(ind, key + ":")] + rest, ind) == Some((Entry(ReadPlain(key), Leaf(Null)), rest))
  {
    var all := [Line(ind, key + ":")] + rest;
    KeyLine(key, ":");
    assert all[1..] == rest;
  }

  lemma EntryOpens(e: Entry, ind: nat, gap: seq<Line>, repr: Repr)
    requires PlainKey(KeyText(e.key))
    ensures var l := EntryLines(e, ind, gap, repr)[0]; l.indent == ind && !IsItem(l.content) && HasKey(l.content)
  {
    if e.value.Leaf? {
      KeyLine(KeyText(e.key), ": " + Show(e.value, repr));
    } else {
      KeyLine(KeyText(e.key), ":");
    }
  }

  lemma FirstEntryApart(es: seq<Entry>, ind: nat, rest: seq<Line>, repr: Repr)
    requires es != [] && PlainKey(KeyText(es[0].key))
    ensures DictLines(es, ind, [], repr) + rest ==
            EntryLines(es[0], ind, [], repr) + (DictLines(es[1..], ind, [], repr) + rest)
    ensures var l := DictLines(es, ind, [], repr)[0]; l.indent == ind && !IsItem(l.content) && HasKey(l.content)
    ensures (DictLines(es, ind, [], repr) + rest)[0] == DictLines(es, ind, [], repr)[0]
  {
    Associate(EntryLines(es[0], ind, [], repr), DictLines(es[1..], ind, [], repr), rest);
    FirstEntryOpens(es, ind, repr);
  }

  lemma FirstEntryOpens(es: seq<Entry>, ind: nat, repr: Repr)
    requires es != [] && PlainKey(KeyText(es[0].key))
    ensures var l := DictLines(es, ind, [], repr)[0]; l.indent == ind && !IsItem(l.content) && HasKey(l.content)
  {
    EntryOpens(es[0], ind, [], repr);
    assert DictLines(es, ind, [], repr)[0] == EntryLines(es[0], ind, [], repr)[0];
  }

  lemma FirstItem(xs: seq<Value>, ind: nat, repr: Repr)
    requires xs != []
    ensures ListLines(xs, ind, [], repr)[0].indent == ind && IsItem(ListLines(xs, ind, [], repr)[0].content)
  {
  }

  lemma FirstItemApart(xs: seq<Value>, ind: nat, rest: seq<Line>, repr: Repr)
    requires xs != []
    ensures ListLines(xs, ind, [], repr) + rest ==
            ItemLines(xs[0], ind, [], repr) + (ListLines(xs[1..], ind, [], repr) + rest)
  {
    Associate(ItemLines(xs[0], ind, [], repr), ListLines(xs[1..], ind, [], repr), rest);
  }

  lemma Associate(a: seq<Line>, b: seq<Line>, c: seq<Line>)
    ensures (a + b) + c == a + (b + c)
  {
  }

  lemma OneMoreEntry(lines: seq<Line>, ind: nat, e: Entry, es: seq<Entry>, more: seq<Line>, rest: seq<Line>)
    requires lines != [] && lines[0].indent == ind && !IsItem(lines[0].content)
    requires ReadEntry(lines, ind) == Some((e, more)) && ReadEntries(more, ind) == Some((es, rest))
    ensures ReadEntries(lines, ind) == Some(([e] + es, rest))
  {
  }

  lemma OneMoreItem(lines: seq<Line>, ind: nat, x: Value, xs: seq<Value>, more: seq<Line>, rest: seq<Line>)
    requires lines != [] && lines[0].indent == ind && IsItem(lines[0].content)
    requires ReadItem(lines, ind) == Some((x, more)) && ReadItems(more, ind) == Some((xs, rest))
    ensures ReadItems(lines, ind) == Some(([x] + xs, rest))
  {
  }

  /** The lines of a mapping are read as its entries, whatever follows further out. */
  lemma {:induction false} EntriesRead(es: seq<Entry>, ind: nat, rest: seq<Line>, repr: Repr)
    requires PrintableEntries(es) && Stops(rest, ind)
    requires forall e :: e in es ==> !Raises(e.value)
    ensures ReadEntries(DictLines(es, ind, [], repr) + rest, ind) == Some((EntriesReadAs(es, repr), rest))
    decreases es, 1
  {
    if es == [] {
      assert DictLines(es, ind, [], repr) + rest == rest;
    } else {
      var more := DictLines(es[1..], ind, [], repr) + rest;
      EntriesRead(es[1..], ind, rest, repr);
      if |es| > 1 {
        FirstEntryApart(es[1..], ind, rest, repr);
      }
      FirstEntryApart(es, ind, rest, repr);
      EntryReads(es[0], ind, more, repr);
      OneMoreEntry(DictLines(es, ind, [], repr) + rest, ind,
                   Entry(ReadPlain(KeyText(es[0].key)), ReadAs(es[0].value, repr)),
                   EntriesReadAs(es[1..], repr), more, rest);
    }
  }

  lemma {:induction false} EntryReads(e: Entry, ind: nat, rest: seq<Line>, repr: Repr)
    requires PlainKey(KeyText(e.key)) && Printable(e.value) && !Raises(e.value)
             && (rest == [] || rest[0].indent <= ind)
    ensures ReadEntry(EntryLines(e, ind, [], repr) + rest, ind) ==
            Some((Entry(ReadPlain(KeyText(e.key)), ReadAs(e.value, repr)), rest))
    decreases e
  {
    if e.value.Leaf? {
      ReadScalarEntry(KeyText(e.key), e.value, ind, rest, repr);
    } else {
      var block := Lines(e.value, ind + 2, [], repr);
      if block != [] {
        BlockReads(e.value, ind + 2, rest, repr);
        ReadKeyOverBlock(KeyText(e.key), block, ReadAs(e.value, repr), ind, rest);
      } else {
        ReadKeyOverNothing(KeyText(e.key), ind, rest);
        assert EntryLines(e, ind, [], repr) == [Line(ind, KeyText(e.key) + ":")];
      }
    }
  }

  lemma {:induction false} BlockReads(v: Value, ind: nat, rest: seq<Line>, repr: Repr)
    requires Printable(v) && !Raises(v) && !v.Leaf? && Stops(rest, ind)
             && Lines(v, ind, [], repr) != []
    ensures Lines(v, ind, [], repr)[0].indent == ind
    ensures ReadValue(Lines(v, ind, [], repr) + rest) == Some((ReadAs(v, repr), rest))
    decreases v
  {
    match v
    case Dict(es) =>
      EntriesRead(es, ind, rest, repr);
      FirstEntryApart(es, ind, rest, repr);
    case List(xs) =>
      ItemsRead(xs, ind, rest, repr);
      FirstItem(xs, ind, repr);
  }

  lemma {:induction false} ItemsRead(xs: seq<Value>, ind: nat, rest: seq<Line>, repr: Repr)
    requires (forall x :: x in xs ==> Printable(x) && !ItemRaises(x)) && Stops(rest, ind)
    ensures ReadItems(ListLines(xs, ind, [], repr) + rest, ind) == Some((ItemsReadAs(xs, repr), rest))
    decreases xs
  {
    if xs == [] {
      assert ListLines(xs, ind, [], repr) + rest == rest;
    } else {
      var x, more := xs[0], ListLines(xs[1..], ind, [], repr) + rest;
      ItemsRead(xs[1..], ind, rest, repr);
      if |xs| > 1 {
        FirstItem(xs[1..], ind, repr);
      }
      FirstItemApart(xs, ind, rest, repr);
      FirstItem(xs, ind, repr);
      ItemReads(x, ind, more, repr);
      OneMoreItem(ListLines(xs, ind, [], repr) + rest, ind, ItemReadAs(x, repr), ItemsReadAs(xs[1..], repr), more,
                  rest);
    }
  }

  lemma {:induction false} ItemReads(x: Value, ind: nat, rest: seq<Line>, repr: Repr)
    requires Printable(x) && !ItemRaises(x) && Stops(rest, ind + 2)
    ensures ReadItem(ItemLines(x, ind, [], repr) + rest, ind) == Some((ItemReadAs(x, repr), rest))
    decreases x, 0
  {
    if x.Dict? {
      var es := x.entries;
      assert forall e :: e in es[1..] ==> e in es;
      EntriesRead(es[1..], ind + 2, rest, repr);
      if |es| > 1 {
        FirstEntryApart(es[1..], ind + 2, rest, repr);
      }
      var first := [Line(ind, "- " + (KeyText(es[0].key) + (": " + Show(es[0].value, repr))))];
      ReadDictItem(es[0], DictLines(es[1..], ind + 2, [], repr) + rest, EntriesReadAs(es[1..], repr), ind, rest, repr);
      Associate(first, DictLines(es[1..], ind + 2, [], repr), rest);
    } else {
      ScalarReadsBack(x, repr);
      ReadScalarItem(Show(x, repr), ReadAsScalar(x, repr), ind, rest);
    }
  }

  lemma ReadScalarItem(shown: string, s: Scalar, ind: nat, rest: seq<Line>)
    requires !HasKey(shown) && ReadScalar(shown) == Some(s)
    ensures ReadItem([Line(ind, "- " + shown)] + rest, ind) == Some((Leaf(s), rest))
  {
    assert ("- " + shown)[2..] == shown;
    assert ([Line(ind, "- " + shown)] + rest)[1..] == rest;
  }

  /** The dash and the first key share a line; the reader takes them apart. */
  lemma ReadDictItem(e: Entry, more: seq<Line>, es: seq<Entry>, ind: nat, rest: seq<Line>, repr: Repr)
    requires PlainKey(KeyText(e.key)) && Printable(e.value)
    requires ReadEntries(more, ind + 2) == Some((es, rest))
    ensures ReadItem([Line(ind, "- " + (KeyText(e.key) + (": " + Show(e.value, repr))))] + more, ind) ==
            Some((Dict([Entry(ReadPlain(KeyText(e.key)), Leaf(ReadAsScalar(e.value, repr)))] + es), rest))
  {
    var body := KeyText(e.key) + (": " + Show(e.value, repr));
    KeyLine(KeyText(e.key), ": " + Show(e.value, repr));
    ReadScalarEntry(KeyText(e.key), e.value, ind + 2, more, repr);
    var first := Entry(ReadPlain(KeyText(e.key)), Leaf(ReadAsScalar(e.value, repr)));
    OneMoreEntry([Line(ind + 2, body)] + more, ind + 2, first, es, more, rest);
    TakeDashApart(body, more, [first] + es, ind, rest);
  }

  lemma TakeDashApart(body: string, more: seq<Line>, es: seq<Entry>, ind: nat, rest: seq<Line>)
    requires HasKey(body) && |rest| <= |more| && ReadEntries([Line(ind + 2, body)] + more, ind + 2) == Some((es, rest))
    ensures ReadItem([Line(ind, "- " + body)] + more, ind) == Some((Dict(es), rest))
  {
    var all := [Line(ind, "- " + body)] + more;
    DashApart(all, body, more, es, ind, rest);
  }

  lemma DashApart(all: seq<Line>, body: string, more: seq<Line>, es: seq<Entry>, ind: nat, rest: seq<Line>)
    requires all != [] && IsItem(all[0].content) && all[0].content[2..] == body && all[1..] == more
    requires HasKey(body) && |rest| <= |more| && ReadEntries([Line(ind + 2, body)] + more, ind + 2) == Some((es, rest))
    ensures ReadItem(all, ind) == Some((Dict(es), rest))
  {
  }

  // ---------- from lines to text and back ----------

  lemma {:induction false} SplitJoin(parts: seq<string>)
    requires parts != [] && forall p :: p in parts ==> Clean(p)
    ensures SplitLines(Join(parts)) == parts && Admitted(Join(parts))
  {
    assert Clean(parts[0]);
    if |parts| == 1 {
      assert EndOfLine(parts[0]) == |parts[0]|;
    } else {
      SplitJoin(parts[1..]);
      SplitFirst(parts[0], Join(parts[1..]));
    }
  }

  lemma SplitFirst(p: string, rest: string)
    requires Clean(p) && Admitted(rest)
    ensures SplitLines(p + "\n" + rest) == [p] + SplitLines(rest) && Admitted(p + "\n" + rest)
  {
    var text := p + "\n" + rest;
    assert text == p + ("\n" + rest);
    EndsInFront(p, "\n" + rest);
    assert text[..|p|] == p && text[|p| + 1..] == rest;
  }

  lemma {:induction false} EndsInFront(p: string, rest: string)
    requires Clean(p) && rest != "" && IsBreak(rest[0])
    ensures EndOfLine(p + rest) == |p|
  {
    if p == [] {
      assert p + rest == rest;
    } else {
      EndsInFront(p[1..], rest);
      assert (p + rest)[1..] == p[1..] + rest;
    }
  }

  lemma {:induction false} LexSpaces(n: nat, content: string)
    requires content == "" || content[0] != ' '
    ensures Lex(Spaces(n) + content) == Line(n, content)
  {
    if n == 0 {
      assert Spaces(n) + content == content;
    } else {
      LexSpaces(n - 1, content);
      assert (Spaces(n) + content)[1..] == Spaces(n - 1) + content;
    }
  }

  lemma {:induction false} TextsAppend(a: seq<Line>, b: seq<Line>)
    ensures Texts(a + b) == Texts(a) + Texts(b)
  {
    if a == [] {
      assert a + b == b;
    } else {
      TextsAppend(a[1..], b);
      assert (a + b)[1..] == a[1..] + b;
      assert [Print(a[0])] + (Texts(a[1..]) + Texts(b)) == ([Print(a[0])] + Texts(a[1..])) + Texts(b);
    }
  }

  lemma {:induction false} SignificantAppend(a: seq<string>, b: seq<string>)
    ensures Significant(a + b) == Significant(a) + Significant(b)
  {
    if a == [] {
      assert a + b == b;
    } else {
      SignificantAppend(a[1..], b);
      assert (a + b)[1..] == a[1..] + b;
      var l := Lex(a[0]);
      var kept := if l.content == "" || l.content[0] == '#' then [] else [l];
      Associate(kept, Significant(a[1..]), Significant(b));
    }
  }

  /** The printed lines `a` are, for the reader, the lines `b`. */
  ghost predicate Denotes(a: seq<Line>, b: seq<Line>) {
    (forall t :: t in Texts(a) ==> Clean(t)) && Significant(Texts(a)) == b
  }

  lemma DenotesAppend(a: seq<Line>, b: seq<Line>, a': seq<Line>, b': seq<Line>)
    requires Denotes(a, b) && Denotes(a', b')
    ensures Denotes(a + a', b + b')
  {
    TextsAppend(a, a');
    SignificantAppend(Texts(a), Texts(a'));
  }

  lemma DenotesOne(l: Line)
    requires l.content != "" && l.content[0] != ' ' && l.content[0] != '#' && Clean(l.content)
    ensures Denotes([l], [l])
  {
    LexSpaces(l.indent, l.content);
    assert Texts([l]) == [Print(l)];
  }

  lemma DenotesBlank()
    ensures Denotes(BLANK, [])
  {
    LexSpaces(0, "");
    assert Texts(BLANK) == [Print(Line(0, ""))];
  }

  lemma KeyLineDenotes(key: string, v: Value, ind: nat, repr: Repr)
    requires PlainKey(key) && Printable(v) && EscapesControls(repr) && CleanLeaf(v)
    ensures Denotes([Line(ind, key + (": " + Show(v, repr)))], [Line(ind, key + (": " + Show(v, repr)))])
    ensures Denotes([Line(ind, "- " + (key + (": " + Show(v, repr))))],
                    [Line(ind, "- " + (key + (": " + Show(v, repr))))])
  {
    ShowIsClean(v, repr);
    ShownKeyLineDenotes(key, Show(v, repr), ind);
  }

  lemma ShownKeyLineDenotes(key: string, shown: string, ind: nat)
    requires PlainKey(key) && Clean(shown)
    ensures Denotes([Line(ind, key + (": " + shown))], [Line(ind, key + (": " + shown))])
    ensures Denotes([Line(ind, "- " + (key + (": " + shown)))], [Line(ind, "- " + (key + (": " + shown)))])
  {
    var content := key + (": " + shown);
    assert Clean(key) && content[0] == key[0];
    CleanAppend(": ", shown);
    CleanAppend(key, ": " + shown);
    DenotesOne(Line(ind, content));
    DashDenotes(content, ind);
  }

  lemma CleanAppend(a: string, b: string)
    requires Clean(a) && Clean(b)
    ensures Clean(a + b)
  {
  }

  lemma DashDenotes(content: string, ind: nat)
    requires Clean(content)
    ensures Denotes([Line(ind, "- " + content)], [Line(ind, "- " + content)])
  {
    CleanAppend("- ", content);
    DenotesOne(Line(ind, "- " + content));
  }

  lemma {:induction false} LinesDenote(v: Value, ind: nat, repr: Repr)
    requires Printable(v) && PrintsClean(v) && EscapesControls(repr)
    ensures Denotes(Lines(v, ind, BLANK, repr), Lines(v, ind, [], repr))
    decreases v
  {
    match v
    case Leaf(_) =>
      ScalarReadsBack(v, repr);
      ShowIsClean(v, repr);
      DenotesOne(Line(ind, Show(v, repr)));
    case Dict(es) =>
      DenotesBlank();
      EntriesDenote(es, ind, repr);
    case List(xs) =>
      DenotesBlank();
      ItemsDenote(xs, ind, repr);
  }

  lemma {:induction false} EntriesDenote(es: seq<Entry>, ind: nat, repr: Repr)
    requires PrintableEntries(es) && EntriesPrintClean(es) && EscapesControls(repr)
    ensures Denotes(DictLines(es, ind, BLANK, repr), DictLines(es, ind, [], repr))
    decreases es, 1
  {
    if es != [] {
      EntryDenotes(es[0], ind, repr);
      EntriesDenote(es[1..], ind, repr);
      DenotesAppend(EntryLines(es[0], ind, BLANK, repr), EntryLines(es[0], ind, [], repr),
                    DictLines(es[1..], ind, BLANK, repr), DictLines(es[1..], ind, [], repr));
    }
  }

  lemma {:induction false} EntryDenotes(e: Entry, ind: nat, repr: Repr)
    requires PlainKey(KeyText(e.key)) && Printable(e.value) && PrintsClean(e.value) && EscapesControls(repr)
    ensures Denotes(EntryLines(e, ind, BLANK, repr), EntryLines(e, ind, [], repr))
    decreases e
  {
    if e.value.Leaf? {
      KeyLineDenotes(KeyText(e.key), e.value, ind, repr);
    } else {
      LinesDenote(e.value, ind + 2, repr);
      DenotesOne(Line(ind, KeyText(e.key) + ":"));
      DenotesAppend([Line(ind, KeyText(e.key) + ":")], [Line(ind, KeyText(e.key) + ":")],
                    Lines(e.value, ind + 2, BLANK, repr), Lines(e.value, ind + 2, [], repr));
    }
  }

  lemma {:induction false} ItemsDenote(xs: seq<Value>, ind: nat, repr: Repr)
    requires (forall x :: x in xs ==> Printable(x) && ItemPrintsClean(x)) && EscapesControls(repr)
    ensures Denotes(ListLines(xs, ind, BLANK, repr), ListLines(xs, ind, [], repr))
    decreases xs
  {
    if xs != [] {
      ItemDenotes(xs[0], ind, repr);
      ItemsDenote(xs[1..], ind, repr);
      DenotesAppend(ItemLines(xs[0], ind, BLANK, repr), ItemLines(xs[0], ind, [], repr),
                    ListLines(xs[1..], ind, BLANK, repr), ListLines(xs[1..], ind, [], repr));
    }
  }

  lemma {:induction false} ItemDenotes(x: Value, ind: nat, repr: Repr)
    requires Printable(x) && ItemPrintsClean(x) && EscapesControls(repr)
    ensures Denotes(ItemLines(x, ind, BLANK, repr), ItemLines(x, ind, [], repr))
    decreases x, 0
  {
    if x.Dict? && x.entries != [] {
      var es := x.entries;
      EntriesDenote(es[1..], ind + 2, repr);
      KeyLineDenotes(KeyText(es[0].key), es[0].value, ind, repr);
      var first := [Line(ind, "- " + (KeyText(es[0].key) + (": " + Show(es[0].value, repr))))];
      DenotesAppend(first, first, DictLines(es[1..], ind + 2, BLANK, repr), DictLines(es[1..], ind + 2, [], repr));
    } else {
      ScalarReadsBack(x, repr);
      ShowIsClean(x, repr);
      DenotesOne(Line(ind, "- " + Show(x, repr)));
    }
  }

  // ---------- what is read is clean ----------

  predicate CleanLines(lines: seq<Line>) {
    forall l :: l in lines ==> Clean(l.content)
  }

  lemma {:induction false} SplitIsClean(text: string)
    requires Admitted(text)
    ensures forall t :: t in SplitLines(text) ==> Clean(t)
    decreases |text|
  {
    var k := EndOfLine(text);
    if k < |text| {
      SplitIsClean(text[k + 1..]);
    }
  }

  lemma {:induction false} LexIsClean(s: string)
    requires Clean(s)
    ensures Clean(Lex(s).content)
  {
    if s != [] && s[0] == ' ' {
      LexIsClean(s[1..]);
    }
  }

  lemma {:induction false} SignificantIsClean(texts: seq<string>)
    requires forall t :: t in texts ==> Clean(t)
    ensures CleanLines(Significant(texts))
  {
    if texts != [] {
      LexIsClean(texts[0]);
      SignificantIsClean(texts[1..]);
    }
  }

  lemma {:induction false} QuotedReadsClean(s: string)
    requires Clean(s)
    ensures ReadQuoted(s).Some? ==> Clean(ReadQuoted(s).value)
  {
    if s == [] || s[0] == '\"' {
    } else if s[0] == '\\' {
      if |s| > 1 {
        QuotedReadsClean(s[2..]);
      }
    } else {
      QuotedReadsClean(s[1..]);
    }
  }

  lemma ScalarReadsClean(s: string)
    requires Clean(s)
    ensures ReadScalar(s).Some? ==> CleanTexts(Leaf(ReadScalar(s).value))
  {
    if s != "" && s[0] == '\"' {
      QuotedReadsClean(s[1..]);
    }
  }

  lemma {:induction false} ValueReadsClean(lines: seq<Line>)
    requires lines != [] && CleanLines(lines)
    ensures ReadValue(lines).Some? ==> CleanTexts(ReadValue(lines).value.0) && CleanLines(ReadValue(lines).value.1)
    decreases |lines|, 4
  {
    var ind, content := lines[0].indent, lines[0].content;
    if IsItem(content) {
      ItemsReadClean(lines, ind);
    } else if HasKey(content) {
      EntriesReadClean(lines, ind);
    } else {
      ScalarReadsClean(content);
    }
  }

  lemma {:induction false} ItemsReadClean(lines: seq<Line>, ind: nat)
    requires CleanLines(lines)
    ensures var r := ReadItems(lines, ind);
            r.Some? ==> (forall x :: x in r.value.0 ==> CleanTexts(x)) && CleanLines(r.value.1)
    decreases |lines|, 3
  {
    if lines != [] && lines[0].indent == ind && IsItem(lines[0].content) {
      ItemReadsClean(lines, ind);
      var item := ReadItem(lines, ind);
      if item.Some? {
        ItemsReadClean(item.value.1, ind);
      }
    }
  }

  lemma {:induction false} ItemReadsClean(lines: seq<Line>, ind: nat)
    requires lines != [] && IsItem(lines[0].content) && CleanLines(lines)
    ensures var r := ReadItem(lines, ind); r.Some? ==> CleanTexts(r.value.0) && CleanLines(r.value.1)
    decreases |lines|, 2
  {
    var body := lines[0].content[2..];
    assert Clean(lines[0].content);
    if HasKey(body) {
      EntriesReadClean([Line(ind + 2, body)] + lines[1..], ind + 2);
    } else {
      ScalarReadsClean(body);
    }
  }

  lemma {:induction false} EntriesReadClean(lines: seq<Line>, ind: nat)
    requires CleanLines(lines)
    ensures var r := ReadEntries(lines, ind); r.Some? ==> CleanEntries(r.value.0) && CleanLines(r.value.1)
    decreases |lines|, 1
  {
    if lines != [] && lines[0].indent == ind && !IsItem(lines[0].content) {
      EntryReadsClean(lines, ind);
      var e := ReadEntry(lines, ind);
      if e.Some? {
        EntriesReadClean(e.value.1, ind);
      }
    }
  }

  lemma {:induction false} EntryReadsClean(lines: seq<Line>, ind: nat)
    requires lines != [] && CleanLines(lines)
    ensures var r := ReadEntry(lines, ind); r.Some? ==> CleanTexts(r.value.0.value) && CleanLines(r.value.1)
    decreases |lines|, 0
  {
    var content := lines[0].content;
    var k := IndexOf(content, ':');
    if HasKey(content) && k + 1 < |content| {
      assert Clean(content);
      ScalarReadsClean(content[k + 2..]);
    } else if HasKey(content) && |lines| > 1 && lines[1].indent > ind {
      ValueReadsClean(lines[1..]);
    }
  }

  /** Whatever the document, no text that is read from it holds a control character. */
  lemma ReadsClean(text: string)
    ensures Read(text).Some? ==> CleanTexts(Read(text).value)
  {
    if Admitted(text) {
      SplitIsClean(text);
      SignificantIsClean(SplitLines(text));
      var lines := Significant(SplitLines(text));
      if lines != [] {
        ValueReadsClean(lines);
      }
    }
  }

  lemma {:induction false} CleanTreePrintsClean(v: Value)
    requires CleanTexts(v)
    ensures PrintsClean(v)
    decreases v, 0
  {
    match v
    case Leaf(_) =>
    case Dict(es) => CleanEntriesPrintClean(es);
    case List(xs) =>
      forall x | x in xs
        ensures ItemPrintsClean(x)
      {
        CleanItemPrintsClean(x);
      }
  }

  lemma {:induction false} CleanItemPrintsClean(x: Value)
    requires CleanTexts(x)
    ensures ItemPrintsClean(x)
    decreases x, 0
  {
    if x.Dict? && x.entries != [] {
      assert forall e :: e in x.entries[1..] ==> e in x.entries;
      assert CleanTexts(x.entries[0].value);
      CleanEntriesPrintClean(x.entries[1..]);
    }
  }

  lemma {:induction false} CleanEntriesPrintClean(es: seq<Entry>)
    requires CleanEntries(es)
    ensures EntriesPrintClean(es)
    decreases es, 1
  {
    forall e | e in es
      ensures PrintsClean(e.value)
    {
      assert e.value < e;
      CleanTreePrintsClean(e.value);
    }
  }

  /** If the tree that is read is clean, so is all that was printed for it. */
  lemma {:induction false} ReadAsClean(v: Value, repr: Repr)
    requires CleanTexts(ReadAs(v, repr))
    ensures PrintsClean(v)
    decreases v, 0
  {
    match v
    case Leaf(_) =>
    case Dict(es) => EntriesReadAsClean(es, repr);
    case List(xs) => ItemsReadAsClean(xs, repr);
  }

  lemma {:induction false} EntriesReadAsClean(es: seq<Entry>, repr: Repr)
    requires CleanEntries(EntriesReadAs(es, repr))
    ensures EntriesPrintClean(es)
    decreases es, 1
  {
    if es != [] {
      var read := EntriesReadAs(es, repr);
      assert es[0].value < es[0] && read[1..] == EntriesReadAs(es[1..], repr);
      assert read[0] in read && forall e :: e in read[1..] ==> e in read;
      ReadAsClean(es[0].value, repr);
      EntriesReadAsClean(es[1..], repr);
      assert es == [es[0]] + es[1..];
    }
  }

  lemma {:induction false} ItemsReadAsClean(xs: seq<Value>, repr: Repr)
    requires forall x :: x in ItemsReadAs(xs, repr) ==> CleanTexts(x)
    ensures forall x :: x in xs ==> ItemPrintsClean(x)
    decreases xs, 1
  {
    if xs != [] {
      var read := ItemsReadAs(xs, repr);
      assert read[1..] == ItemsReadAs(xs[1..], repr);
      assert read[0] in read && forall x :: x in read[1..] ==> x in read;
      ItemReadAsClean(xs[0], repr);
      ItemsReadAsClean(xs[1..], repr);
      assert xs == [xs[0]] + xs[1..];
    }
  }

  lemma {:induction false} ItemReadAsClean(x: Value, repr: Repr)
    requires CleanTexts(ItemReadAs(x, repr))
    ensures ItemPrintsClean(x)
    decreases x, 1
  {
    if x.Dict? && x.entries != [] {
      var es, read := x.entries, ItemReadAs(x, repr).entries;
      assert read[1..] == EntriesReadAs(es[1..], repr);
      assert read[0] in read && forall e :: e in read[1..] ==> e in read;
      EntriesReadAsClean(es[1..], repr);
      ScalarReadAsClean(es[0].value, repr);
    } else {
      ScalarReadAsClean(x, repr);
    }
  }

  lemma ScalarReadAsClean(v: Value, repr: Repr)
    requires CleanTexts(Leaf(ReadAsScalar(v, repr)))
    ensures CleanLeaf(v)
  {
  }

  // ---------- the round trip ----------

  /** Comment lines put in front, as `clash_yaml` does with its notice. */
  predicate IsNotice(notice: seq<string>) {
    forall t :: t in notice ==> t != "" && t[0] == '#' && forall i :: 0 <= i < |t| ==> !IsBreak(t[i])
  }

  predicate CleanNotice(notice: seq<string>) {
    forall t :: t in notice ==> Clean(t)
  }

  lemma {:induction false} PartsAdmitted(parts: seq<string>)
    requires Admitted(Join(parts))
    ensures forall p :: p in parts ==> Admitted(p)
  {
    if |parts| > 1 {
      var text, rest := Join(parts), "\n" + Join(parts[1..]);
      assert text == parts[0] + rest;
      assert forall i :: 0 <= i < |parts[0]| ==> parts[0][i] == text[i];
      assert forall i :: 0 <= i < |rest| ==> rest[i] == text[|parts[0]| + i];
      assert forall i :: 0 <= i < |rest| - 1 ==> Join(parts[1..])[i] == rest[i + 1];
      PartsAdmitted(parts[1..]);
    }
  }

  lemma {:induction false} NoticeIsSkipped(notice: seq<string>)
    requires IsNotice(notice)
    ensures Significant(notice) == []
  {
    if notice != [] {
      NoticeIsSkipped(notice[1..]);
      assert Lex(notice[0]) == Line(0, notice[0]);
    }
  }

  lemma CleanPrintReads(notice: seq<string>, v: Value, ind: nat, repr: Repr)
    requires IsNotice(notice) && CleanNotice(notice) && Printable(v) && PrintsClean(v)
    requires EscapesControls(repr) && !Raises(v)
    ensures Read(Join(notice + Texts(Lines(v, ind, BLANK, repr)))) == Some(ReadAs(v, repr))
  {
    var texts := Texts(Lines(v, ind, BLANK, repr));
    LinesDenote(v, ind, repr);
    NoticeIsSkipped(notice);
    SignificantAppend(notice, texts);
    SplitJoin(notice + texts);
    var lines := Lines(v, ind, [], repr);
    assert Significant(SplitLines(Join(notice + texts))) == lines;
    LinesRead(v, ind, repr);
  }

  /**
   A printed tree reads, behind its notice, as the tree `ReadAs` gives, exactly when no line of
   the notice and no printed text holds a control character; a line break is one.
   */
  lemma PrintedTreeReads(notice: seq<string>, v: Value, ind: nat, repr: Repr)
    requires IsNotice(notice) && Printable(v) && EscapesControls(repr) && !Raises(v)
    ensures Read(Join(notice + Texts(Lines(v, ind, BLANK, repr)))) == Some(ReadAs(v, repr)) <==>
            CleanNotice(notice) && PrintsClean(v)
  {
    var parts := notice + Texts(Lines(v, ind, BLANK, repr));
    if CleanNotice(notice) && PrintsClean(v) {
      CleanPrintReads(notice, v, ind, repr);
    }
    if Read(Join(parts)) == Some(ReadAs(v, repr)) {
      ReadsClean(Join(parts));
      ReadAsClean(v, repr);
      PartsAdmitted(parts);
      assert forall t :: t in notice ==> t in parts;
    }
  }

  lemma LinesRead(v: Value, ind: nat, repr: Repr)
    requires Printable(v) && !Raises(v)
    ensures var lines := Lines(v, ind, [], repr);
            if lines == [] then ReadAs(v, repr) == Leaf(Null) else ReadValue(lines) == Some((ReadAs(v, repr), []))
  {
    var lines := Lines(v, ind, [], repr);
    if lines != [] {
      assert lines + [] == lines;
      if v.Leaf? {
        ScalarReadsBack(v, repr);
      } else {
        BlockReads(v, ind, [], repr);
      }
    }
  }

  lemma {:induction false} FaithfulExactly(v: Value, repr: Repr)
    requires Printable(v)
    ensures ReadAs(v, repr) == v <==> Faithful(v)
    decreases v, 0
  {
    match v
    case Leaf(_) => ScalarFaithful(v, repr);
    case Dict(es) =>
      EntriesFaithful(es, repr);
    case List(xs) =>
      ItemsFaithful(xs, repr);
  }

  lemma {:induction false} EntriesFaithful(es: seq<Entry>, repr: Repr)
    requires PrintableEntries(es)
    ensures EntriesReadAs(es, repr) == es <==> forall e :: e in es ==> KeyIsText(e) && Faithful(e.value)
    decreases es, 1
  {
    if es != [] {
      assert es[0].value < es[0];
      FaithfulExactly(es[0].value, repr);
      EntriesFaithful(es[1..], repr);
      assert es == [es[0]] + es[1..];
      assert EntriesReadAs(es, repr)[1..] == EntriesReadAs(es[1..], repr);
    }
  }

  lemma {:induction false} ItemsFaithful(xs: seq<Value>, repr: Repr)
    requires forall x :: x in xs ==> Printable(x)
    ensures ItemsReadAs(xs, repr) == xs <==> forall x :: x in xs ==> FaithfulItem(x)
    decreases xs, 1
  {
    if xs != [] {
      ItemFaithful(xs[0], repr);
      ItemsFaithful(xs[1..], repr);
      assert xs == [xs[0]] + xs[1..];
      assert ItemsReadAs(xs, repr)[1..] == ItemsReadAs(xs[1..], repr);
    }
  }

  lemma {:induction false} ItemFaithful(x: Value, repr: Repr)
    requires Printable(x)
    ensures ItemReadAs(x, repr) == x <==> FaithfulItem(x)
    decreases x, 1
  {
    if x.Dict? && x.entries != [] {
      var es := x.entries;
      EntriesFaithful(es[1..], repr);
      FirstFaithful(es[0], repr);
      HeadAndTail(FirstReadAs(es[0], repr), EntriesReadAs(es[1..], repr), es);
      FaithfulDict(es);
    } else {
      ScalarFaithful(x, repr);
    }
  }

  lemma ScalarFaithful(v: Value, repr: Repr)
    requires Printable(v)
    ensures Leaf(ReadAsScalar(v, repr)) == v <==> v.Leaf? && Faithful(v)
  {
    if v.Leaf? && v.scalar.Number? {
      FloatIsScalar(v.scalar.spelling);
    }
  }

  lemma FirstFaithful(e: Entry, repr: Repr)
    requires Printable(e.value)
    ensures FirstReadAs(e, repr) == e <==> KeyIsText(e) && e.value.Leaf? && Faithful(e.value)
  {
    ScalarFaithful(e.value, repr);
  }

  lemma HeadAndTail<T>(head: T, tail: seq<T>, all: seq<T>)
    requires all != []
    ensures [head] + tail == all <==> head == all[0] && tail == all[1..]
  {
    assert ([head] + tail)[1..] == tail;
    assert [all[0]] + all[1..] == all;
  }

  lemma FaithfulDict(es: seq<Entry>)
    requires es != []
    ensures Faithful(Dict(es)) <==>
            KeyIsText(es[0]) && Faithful(es[0].value) && forall e :: e in es[1..] ==> KeyIsText(e) && Faithful(e.value)
  {
    assert es == [es[0]] + es[1..];
  }

  /** The round trip, with its exact condition. */
  lemma RoundTripExactlyWhen(v: Value, ind: nat, repr: Repr)
    requires Printable(v) && EscapesControls(repr) && !Raises(v)
    ensures Read(Render(v, ind, repr)) == Some(v) <==> Faithful(v) && CleanTexts(v)
  {
    assert [] + Texts(Lines(v, ind, BLANK, repr)) == Texts(Lines(v, ind, BLANK, repr));
    PrintedTreeReads([], v, ind, repr);
    FaithfulExactly(v, repr);
    ReadsClean(Render(v, ind, repr));
    if CleanTexts(v) {
      CleanTreePrintsClean(v);
    }
  }

  // ---------- the printer as the source runs it ----------

  datatype PrintError = StopIteration

  lemma {:induction false} JoinAppend(a: seq<string>, b: seq<string>)
    requires a != [] && b != []
    ensures Join(a + b) == Join(a) + "\n" + Join(b)
  {
    if |a| == 1 {
      assert (a + b)[1..] == b;
    } else {
      JoinAppend(a[1..], b);
      assert (a + b)[1..] == a[1..] + b;
    }
  }

  /** `lines` joins to the same text as `printed`. */
  ghost predicate Joins(lines: seq<string>, printed: seq<Line>) {
    (lines == [] <==> printed == []) && Join(lines) == Join(Texts(printed))
  }

  lemma TextsNonEmpty(lines: seq<Line>)
    ensures Texts(lines) == [] <==> lines == []
  {
  }

  lemma JoinsAppend(a: seq<string>, p: seq<Line>, b: seq<string>, q: seq<Line>)
    requires Joins(a, p) && Joins(b, q)
    ensures Joins(a + b, p + q)
  {
    TextsAppend(p, q);
    TextsNonEmpty(p);
    TextsNonEmpty(q);
    if a == [] {
      assert a + b == b && p + q == q;
    } else if b == [] {
      assert a + b == a && p + q == p;
    } else {
      JoinAppend(a, b);
      JoinAppend(Texts(p), Texts(q));
    }
  }

  lemma JoinsOne(text: string, printed: seq<Line>)
    requires printed != [] && text == Join(Texts(printed))
    ensures Joins([text], printed)
  {
  }

  lemma JoinsLine(l: Line)
    ensures Joins([Print(l)], [l])
  {
    assert Texts([l]) == [Print(l)];
  }

  lemma {:induction false} DictLinesAppend(es: seq<Entry>, e: Entry, ind: nat, repr: Repr)
    ensures DictLines(es + [e], ind, BLANK, repr) == DictLines(es, ind, BLANK, repr) + EntryLines(e, ind, BLANK, repr)
  {
    if es != [] {
      DictLinesAppend(es[1..], e, ind, repr);
      assert (es + [e])[1..] == es[1..] + [e];
    }
  }

  lemma {:induction false} ListLinesAppend(xs: seq<Value>, x: Value, ind: nat, repr: Repr)
    ensures ListLines(xs + [x], ind, BLANK, repr) == ListLines(xs, ind, BLANK, repr) + ItemLines(x, ind, BLANK, repr)
  {
    if xs != [] {
      ListLinesAppend(xs[1..], x, ind, repr);
      assert (xs + [x])[1..] == xs[1..] + [x];
    }
  }

  lemma EmptyJoins(ind: nat, repr: Repr)
    ensures Render(Dict([]), ind, repr) == "" && Render(List([]), ind, repr) == ""
  {
    assert Texts(BLANK) == [Print(Line(0, ""))];
  }

  /** `render_yaml`; it raises exactly on the trees `Raises` describes. */
  method RenderYaml(v: Value, ind: nat, repr: Repr) returns (r: Result<string, PrintError>)
    ensures r.Failure? <==> Raises(v)
    ensures r.Success? ==> r.value == Render(v, ind, repr)
    decreases v
  {
    match v {
      case Leaf(_) =>
        JoinsLine(Line(ind, Show(v, repr)));
        return Success(Spaces(ind) + Show(v, repr));
      case Dict(es) =>
        var lines :- RenderEntries(es, ind, repr);
        EmptyJoins(ind, repr);
        return Success(Join(lines));
      case List(xs) =>
        var lines :- RenderItems(xs, ind, repr);
        EmptyJoins(ind, repr);
        return Success(Join(lines));
    }
  }

  lemma NextEntryJoins(lines: seq<string>, es: seq<Entry>, i: nat, added: seq<string>, ind: nat, repr: Repr)
    requires i < |es| && Joins(lines, DictLines(es[..i], ind, BLANK, repr))
    requires Joins(added, EntryLines(es[i], ind, BLANK, repr))
    ensures Joins(lines + added, DictLines(es[..i + 1], ind, BLANK, repr))
  {
    assert es[..i + 1] == es[..i] + [es[i]];
    DictLinesAppend(es[..i], es[i], ind, repr);
    JoinsAppend(lines, DictLines(es[..i], ind, BLANK, repr), added, EntryLines(es[i], ind, BLANK, repr));
  }

  lemma NextItemJoins(lines: seq<string>, xs: seq<Value>, i: nat, added: seq<string>, ind: nat, repr: Repr)
    requires i < |xs| && Joins(lines, ListLines(xs[..i], ind, BLANK, repr))
    requires Joins(added, ItemLines(xs[i], ind, BLANK, repr))
    ensures Joins(lines + added, ListLines(xs[..i + 1], ind, BLANK, repr))
  {
    assert xs[..i + 1] == xs[..i] + [xs[i]];
    ListLinesAppend(xs[..i], xs[i], ind, repr);
    JoinsAppend(lines, ListLines(xs[..i], ind, BLANK, repr), added, ItemLines(xs[i], ind, BLANK, repr));
  }

  /** The loop over the entries of a mapping. */
  method RenderEntries(es: seq<Entry>, ind: nat, repr: Repr) returns (r: Result<seq<string>, PrintError>)
    ensures r.Failure? <==> exists e :: e in es && Raises(e.value)
    ensures r.Success? ==> Joins(r.value, DictLines(es, ind, BLANK, repr))
    decreases es, 1
  {
    var lines: seq<string> := [];
    for i := 0 to |es|
      invariant forall j :: 0 <= j < i ==> !Raises(es[j].value)
      invariant Joins(lines, DictLines(es[..i], ind, BLANK, repr))
    {
      var added :- RenderEntry(es[i], ind, repr);
      NextEntryJoins(lines, es, i, added, ind, repr);
      lines := lines + added;
    }
    assert es[..|es|] == es;
    return Success(lines);
  }

  method RenderEntry(e: Entry, ind: nat, repr: Repr) returns (r: Result<seq<string>, PrintError>)
    ensures r.Failure? <==> Raises(e.value)
    ensures r.Success? ==> Joins(r.value, EntryLines(e, ind, BLANK, repr))
    decreases e
  {
    if e.value.Leaf? {
      JoinsLine(Line(ind, KeyText(e.key) + (": " + Show(e.value, repr))));
      return Success([Spaces(ind) + (KeyText(e.key) + (": " + Show(e.value, repr)))]);
    }
    var nested :- RenderYaml(e.value, ind + 2, repr);
    JoinsLine(Line(ind, KeyText(e.key) + ":"));
    JoinsOne(nested, Lines(e.value, ind + 2, BLANK, repr));
    JoinsAppend([Spaces(ind) + (KeyText(e.key) + ":")], [Line(ind, KeyText(e.key) + ":")], [nested],
                Lines(e.value, ind + 2, BLANK, repr));
    return Success([Spaces(ind) + (KeyText(e.key) + ":")] + [nested]);
  }

  /** The loop over the items of a list. */
  method RenderItems(xs: seq<Value>, ind: nat, repr: Repr) returns (r: Result<seq<string>, PrintError>)
    ensures r.Failure? <==> Raises(List(xs))
    ensures r.Success? ==> Joins(r.value, ListLines(xs, ind, BLANK, repr))
    decreases xs, 1
  {
    var lines: seq<string> := [];
    for i := 0 to |xs|
      invariant forall j :: 0 <= j < i ==> !ItemRaises(xs[j])
      invariant Joins(lines, ListLines(xs[..i], ind, BLANK, repr))
    {
      assert xs[i] in xs;
      var added :- RenderItem(xs[i], ind, repr);
      NextItemJoins(lines, xs, i, added, ind, repr);
      lines := lines + added;
    }
    assert xs[..|xs|] == xs;
    return Success(lines);
  }

  method RenderItem(x: Value, ind: nat, repr: Repr) returns (r: Result<seq<string>, PrintError>)
    ensures r.Failure? <==> ItemRaises(x)
    ensures r.Success? ==> Joins(r.value, ItemLines(x, ind, BLANK, repr))
    decreases x, 0
  {
    if !x.Dict? {
      JoinsLine(Line(ind, "- " + Show(x, repr)));
      return Success([Spaces(ind) + ("- " + Show(x, repr))]);
    }
    if x.entries == [] {
      return Failure(StopIteration);
    }
    var first := x.entries[0];
    var head := "- " + (KeyText(first.key) + (": " + Show(first.value, repr)));
    var children :- RenderEntries(x.entries[1..], ind + 2, repr);
    JoinsLine(Line(ind, head));
    JoinsAppend([Spaces(ind) + head], [Line(ind, head)], children, DictLines(x.entries[1..], ind + 2, BLANK, repr));
    return Success([Spaces(ind) + head] + children);
  }
}
