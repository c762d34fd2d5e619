/** The one formatter a release file is written with, and a reader of what it writes. */
module JsonText {
  import opened Outcomes
  import opened Digits

  // ------------------------------------------------------------- numbers

  predicate NumberChar(c: char) {
    IsDigit(c) || c == '-' || c == '+' || c == '.' || c == 'e' || c == 'E'
  }

  /** How many digits `s` begins with. */
  function Run(s: string): (n: nat)
    ensures n <= |s|
    ensures forall i | 0 <= i < n :: IsDigit(s[i])
    ensures n < |s| ==> !IsDigit(s[n])
  {
    if s == [] || !IsDigit(s[0]) then 0 else 1 + Run(s[1..])
  }

  predicate SomeDigits(s: string) {
    s != [] && AllDigits(s)
  }

  predicate IsExponent(s: string) {
    && s != [] && (s[0] == 'e' || s[0] == 'E')
    && (SomeDigits(s[1..]) || (|s| > 1 && (s[1] == '+' || s[1] == '-') && SomeDigits(s[2..])))
  }

  predicate IsTail(s: string) {
    || s == []
    || IsExponent(s)
    || (s[0] == '.' && (var n := Run(s[1..]); n > 0 && (s[1 + n..] == [] || IsExponent(s[1 + n..]))))
  }

  predicate IsUnsigned(s: string) {
    s != [] && IsDigit(s[0]) && IsTail(if s[0] == '0' then s[1..] else s[Run(s)..])
  }

  /** A number as section 6 of RFC 8259 has it. */
  predicate IsNumber(s: string) {
    IsUnsigned(s) || (s != [] && s[0] == '-' && IsUnsigned(s[1..]))
  }

  type Number = s: string | IsNumber(s) witness "0"

  // -------------------------------------------------------------- values

  /** A value as the formatter is given it; an object keeps its keys in order. */
  datatype Value =
    | Null
    | Bool(on: bool)
    | Num(number: Number)
    | Str(text: string)
    | Arr(items: seq<Value>)
    | Obj(fields: seq<Field>)

  datatype Field = Field(key: string, value: Value)

  predicate Scalar(value: Value) {
    !value.Arr? && !value.Obj?
  }

  predicate DistinctKeys(fields: seq<Field>) {
    forall i, j | 0 <= i < j < |fields| :: fields[i].key != fields[j].key
  }

  /** No object in `value` has a key twice. */
  predicate Proper(value: Value) {
    match value
    case Arr(items) => forall i | 0 <= i < |items| :: Proper(items[i])
    case Obj(fields) => DistinctKeys(fields) && forall i | 0 <= i < |fields| :: Proper(fields[i].value)
    case _ => true
  }

  // ------------------------------------------------------------- writing

  const INDENT := "  "

  function Indent(depth: nat): string {
    if depth == 0 then "" else INDENT + Indent(depth - 1)
  }

  function HexDigit(n: nat): char
    requires n < 16
  {
    if n < 10 then ('0' as int + n) as char else ('a' as int + n - 10) as char
  }

  /** One character of a string, as `json.dumps` writes it where it keeps text as it is. */
  function Escape(c: char): string {
    if c == '"' then "\\\""
    else if c == '\\' then "\\\\"
    else if c == '\n' then "\\n"
    else if c == '\r' then "\\r"
    else if c == '\t' then "\\t"
    else if c == '\U{08}' then "\\b"
    else if c == '\U{0C}' then "\\f"
    else if c < ' ' then "\\u00" + [HexDigit(c as int / 16), HexDigit(c as int % 16)]
    else [c]
  }

  function Escaped(s: string): string {
    if s == [] then "" else Escape(s[0]) + Escaped(s[1..])
  }

  function Quoted(s: string): string {
    "\"" + Escaped(s) + "\""
  }

  /** `items` at `depth`, each after the first led by a comma and `lead`. */
  function ItemsLaid(items: seq<Value>, depth: nat, lead: string): string
    requires items != []
    decreases items
  {
    var first := Dumps(items[0], depth);
    if |items| == 1 then first else first + "," + lead + ItemsLaid(items[1..], depth, lead)
  }

  function FieldsLaid(fields: seq<Field>, depth: nat, lead: string): string
    requires fields != []
    decreases fields
  {
    var first := Quoted(fields[0].key) + ": " + Dumps(fields[0].value, depth);
    if |fields| == 1 then first else first + "," + lead + FieldsLaid(fields[1..], depth, lead)
  }

  /** What a container puts before its first member, before each other one, and before it closes. */
  datatype Layout = Layout(before: string, lead: string, close: string, depth: nat)

  /** All scalars on one line; anything nested on lines of its own, one step further in. */
  function LayoutOf(flat: bool, depth: nat): Layout {
    var inner := "\n" + Indent(depth + 1);
    if flat then Layout("", " ", "", depth) else Layout(inner, inner, "\n" + Indent(depth), depth + 1)
  }

  predicate AllScalars(items: seq<Value>) {
    forall i | 0 <= i < |items| :: Scalar(items[i])
  }

  predicate AllScalarFields(fields: seq<Field>) {
    forall i | 0 <= i < |fields| :: Scalar(fields[i].value)
  }

  /** `dumps`: the text of a value whose lines are indented from `depth` on. */
  function Dumps(value: Value, depth: nat): string
    decreases value
  {
    match value
    case Null => "null"
    case Bool(on) => if on then "true" else "false"
    case Num(number) => number
    case Str(text) => Quoted(text)
    case Arr(items) =>
      if items == [] then "[]"
      else
        var l := LayoutOf(AllScalars(items), depth);
        "[" + (l.before + ItemsLaid(items, l.depth, l.lead) + l.close + "]")
    case Obj(fields) =>
      if fields == [] then "{}"
      else
        var l := LayoutOf(AllScalarFields(fields), depth);
        "{" + (l.before + FieldsLaid(fields, l.depth, l.lead) + l.close + "}")
  }

  /** `rendered`: a release file's whole text. */
  function Rendered(value: Value): string {
    Dumps(value, 0) + "\n"
  }

  // ------------------------------------------------------------- reading

  predicate Space(c: char) {
    c == ' ' || c == '\n' || c == '\r' || c == '\t'
  }

  function Skip(s: string): (r: string)
    ensures |r| <= |s|
    ensures r != [] ==> !Space(r[0])
  {
    if s != [] && Space(s[0]) then Skip(s[1..]) else s
  }

  function HexValue(c: char): Option<nat> {
    if IsDigit(c) then Some(c as int - '0' as int)
    else if 'a' <= c <= 'f' then Some(c as int - 'a' as int + 10)
    else if 'A' <= c <= 'F' then Some(c as int - 'A' as int + 10)
    else None
  }

  /** The character four hexadecimal digits name; a surrogate is not one on its own. */
  function Coded(s: string): Option<char>
    requires |s| == 4
  {
    var a, b, c, d := HexValue(s[0]), HexValue(s[1]), HexValue(s[2]), HexValue(s[3]);
    if a.None? || b.None? || c.None? || d.None? then None
    else
      var code := a.value * 4096 + b.value * 256 + c.value * 16 + d.value;
      if 0 <= code < 0xD800 || 0xE000 <= code < 0x10000 then Some(code as char) else None
  }

  function Unescaped(c: char): Option<char> {
    match c
    case '"' => Some('"')
    case '\\' => Some('\\')
    case '/' => Some('/')
    case 'b' => Some('\U{08}')
    case 'f' => Some('\U{0C}')
    case 'n' => Some('\n')
    case 'r' => Some('\r')
    case 't' => Some('\t')
    case _ => None
  }

  /** One character of a string and what follows it. */
  function ReadChar(s: string): (r: Option<(char, string)>)
    requires s != []
    ensures r.Some? ==> |r.value.1| < |s|
  {
    if s[0] < ' ' then None
    else if s[0] != '\\' then Some((s[0], s[1..]))
    else if |s| < 2 then None
    else if s[1] != 'u' then
      match Unescaped(s[1])
      case None => None
      case Some(c) => Some((c, s[2..]))
    else if |s| < 6 then None
    else
      match Coded(s[2..6])
      case None => None
      case Some(c) => Some((c, s[6..]))
  }

  /** The string `s` goes on with, up to its closing quote. */
  function ReadText(s: string): (r: Option<(string, string)>)
    ensures r.Some? ==> |r.value.1| < |s|
  {
    if s == [] then None
    else if s[0] == '"' then Some(("", s[1..]))
    else
      match ReadChar(s)
      case None => None
      case Some((c, more)) =>
        match ReadText(more)
        case None => None
        case Some((text, rest)) => Some(([c] + text, rest))
  }

  function NumberRun(s: string): (n: nat)
    ensures n <= |s|
  {
    if s == [] || !NumberChar(s[0]) then 0 else 1 + NumberRun(s[1..])
  }

  function Literal(s: string, word: string, value: Value): (r: Option<(Value, string)>)
    requires word != []
    ensures r.Some? ==> |r.value.1| < |s|
  {
    if word <= s then Some((value, s[|word|..])) else None
  }

  /** A dictionary given a key it has keeps the key's place and the later value. */
  function Put(fields: seq<Field>, key: string, value: Value): seq<Field> {
    if fields == [] then [Field(key, value)]
    else if fields[0].key == key then [Field(key, value)] + fields[1..]
    else [fields[0]] + Put(fields[1..], key, value)
  }

  function ReadValue(s: string): (r: Option<(Value, string)>)
    ensures r.Some? ==> |r.value.1| < |s|
    decreases |s|, 0
  {
    var t := Skip(s);
    if t == [] then None
    else if t[0] == 'n' then Literal(t, "null", Null)
    else if t[0] == 't' then Literal(t, "true", Bool(true))
    else if t[0] == 'f' then Literal(t, "false", Bool(false))
    else if t[0] == '"' then
      match ReadText(t[1..])
      case None => None
      case Some((text, rest)) => Some((Str(text), rest))
    else if t[0] == '[' then
      var u := Skip(t[1..]);
      if u != [] && u[0] == ']' then Some((Arr([]), u[1..])) else ReadItems(u, [])
    else if t[0] == '{' then
      var u := Skip(t[1..]);
      if u != [] && u[0] == '}' then Some((Obj([]), u[1..])) else ReadFields(u, [])
    else
      var n := NumberRun(t);
      if n > 0 && IsNumber(t[..n]) then Some((Num(t[..n]), t[n..])) else None
  }

  function ReadItems(s: string, read: seq<Value>): (r: Option<(Value, string)>)
    ensures r.Some? ==> |r.value.1| < |s|
    decreases |s|, 1
  {
    match ReadValue(s)
    case None => None
    case Some((value, more)) =>
      var t := Skip(more);
      if t == [] then None
      else if t[0] == ',' then ReadItems(t[1..], read + [value])
      else if t[0] == ']' then Some((Arr(read + [value]), t[1..]))
      else None
  }

  function ReadFields(s: string, read: seq<Field>): (r: Option<(Value, string)>)
    ensures r.Some? ==> |r.value.1| < |s|
    decreases |s|, 1
  {
    var k := Skip(s);
    if k == [] || k[0] != '"' then None
    else
      match ReadText(k[1..])
      case None => None
      case Some((key, after)) =>
        var c := Skip(after);
        if c == [] || c[0] != ':' then None
        else
          match ReadValue(c[1..])
          case None => None
          case Some((value, more)) =>
            var t := Skip(more);
            if t == [] then None
            else if t[0] == ',' then ReadFields(t[1..], Put(read, key, value))
            else if t[0] == '}' then Some((Obj(Put(read, key, value)), t[1..]))
            else None
  }

  /** A whole file: one value, and nothing but space after it. */
  function Load(s: string): Option<Value> {
    match ReadValue(s)
    case None => None
    case Some((value, rest)) => if Skip(rest) == [] then Some(value) else None
  }

  // ------------------------------------------------------- the round trip

  predicate Blank(w: string) {
    forall i | 0 <= i < |w| :: Space(w[i])
  }

  lemma {:induction false} SkipBlank(w: string, s: string)
    requires Blank(w)
    ensures Skip(w + s) == Skip(s)
  {
    if w == [] {
      assert w + s == s;
    } else {
      assert (w + s)[1..] == w[1..] + s;
      SkipBlank(w[1..], s);
    }
  }

  lemma {:induction false} IndentBlank(depth: nat)
    ensures Blank(Indent(depth))
    ensures Blank("\n" + Indent(depth))
  {
    if depth > 0 {
      IndentBlank(depth - 1);
    }
  }

  lemma EscapeRead(c: char, rest: string)
    ensures Escape(c) + rest != [] && (Escape(c) + rest)[0] != '"'
    ensures ReadChar(Escape(c) + rest) == Some((c, rest))
  {
    var s := Escape(c) + rest;
    if s[0] == '\\' && s[1] == 'u' {
      assert s[2..6] == ['0', '0', HexDigit(c as int / 16), HexDigit(c as int % 16)];
      assert s[6..] == rest;
    } else if s[0] == '\\' {
      assert s[2..] == rest;
    } else {
      assert s[1..] == rest;
    }
  }

  /** A quoted string is read back whole, whatever follows it. */
  lemma {:induction false} TextRead(text: string, rest: string)
    ensures ReadText(Escaped(text) + "\"" + rest) == Some((text, rest))
  {
    if text == [] {
      assert Escaped(text) + "\"" + rest == "\"" + rest;
    } else {
      var more := Escaped(text[1..]) + "\"" + rest;
      assert Escaped(text) + "\"" + rest == Escape(text[0]) + more;
      EscapeRead(text[0], more);
      TextRead(text[1..], rest);
      assert text == [text[0]] + text[1..];
    }
  }

  /** Whether a number just before `rest` would end there. */
  predicate Ends(rest: string) {
    rest == [] || !NumberChar(rest[0])
  }

  lemma {:induction false} RunAll(number: string, rest: string)
    requires forall i | 0 <= i < |number| :: NumberChar(number[i])
    requires Ends(rest)
    ensures NumberRun(number + rest) == |number|
  {
    if number == [] {
      assert number + rest == rest;
    } else {
      assert (number + rest)[1..] == number[1..] + rest;
      RunAll(number[1..], rest);
    }
  }

  lemma ExponentChars(s: string)
    requires IsExponent(s)
    ensures forall i | 0 <= i < |s| :: NumberChar(s[i])
  {
    if SomeDigits(s[1..]) {
      assert forall i | 1 <= i < |s| :: s[i] == s[1..][i - 1];
    } else {
      assert forall i | 2 <= i < |s| :: s[i] == s[2..][i - 2];
    }
  }

  lemma TailChars(s: string)
    requires IsTail(s)
    ensures forall i | 0 <= i < |s| :: NumberChar(s[i])
  {
    if s != [] && s[0] == '.' {
      var n := Run(s[1..]);
      assert forall i | 1 <= i < 1 + n :: s[i] == s[1..][i - 1];
      if s[1 + n..] != [] {
        ExponentChars(s[1 + n..]);
        assert forall i | 1 + n <= i < |s| :: s[i] == s[1 + n..][i - 1 - n];
      }
    } else if s != [] {
      ExponentChars(s);
    }
  }

  lemma UnsignedChars(s: string)
    requires IsUnsigned(s)
    ensures forall i | 0 <= i < |s| :: NumberChar(s[i])
  {
    var n := if s[0] == '0' then 1 else Run(s);
    TailChars(s[n..]);
    assert forall i | n <= i < |s| :: s[i] == s[n..][i - n];
  }

  lemma NumberChars(s: string)
    requires IsNumber(s)
    ensures s != [] && forall i | 0 <= i < |s| :: NumberChar(s[i])
  {
    if IsUnsigned(s) {
      UnsignedChars(s);
    } else {
      UnsignedChars(s[1..]);
      assert forall i | 1 <= i < |s| :: s[i] == s[1..][i - 1];
    }
  }

  lemma NumberRead(number: Number, rest: string)
    requires Ends(rest)
    ensures ReadValue(number + rest) == Some((Num(number), rest))
  {
    NumberChars(number);
    RunAll(number, rest);
    var s := number + rest;
    assert s[0] == number[0];
    assert Skip(s) == s;
    assert s[..|number|] == number;
    assert s[|number|..] == rest;
  }

  lemma WordRead(word: string, value: Value, rest: string)
    requires (word == "null" && value == Null) || (word == "true" && value == Bool(true))
             || (word == "false" && value == Bool(false))
    ensures ReadValue(word + rest) == Some((value, rest))
  {
    var s := word + rest;
    assert s[0] == word[0];
    assert Skip(s) == s && word <= s && s[|word|..] == rest;
  }

  lemma StringRead(text: string, rest: string)
    ensures ReadValue(Quoted(text) + rest) == Some((Str(text), rest))
  {
    hide Escaped, ReadText;
    var s := Quoted(text) + rest;
    assert Skip(s) == s;
    assert s[1..] == Escaped(text) + "\"" + rest;
    TextRead(text, rest);
  }

  lemma ScalarRead(value: Value, depth: nat, rest: string)
    requires Scalar(value)
    requires Ends(rest)
    ensures ReadValue(Dumps(value, depth) + rest) == Some((value, rest))
  {
    hide ReadValue, Quoted;
    match value {
      case Null => WordRead("null", value, rest);
      case Bool(on) => WordRead(if on then "true" else "false", value, rest);
      case Num(number) => NumberRead(number, rest);
      case Str(text) => StringRead(text, rest);
    }
  }

  /** Space before a value is not part of it. */
  lemma ReadAfterBlank(w: string, s: string)
    requires Blank(w)
    ensures ReadValue(w + s) == ReadValue(s)
  {
    SkipBlank(w, s);
  }

  lemma CloseEnds(w: string, c: char, rest: string)
    requires Blank(w)
    requires c == ']' || c == '}'
    ensures Ends(w + [c] + rest)
    ensures Skip(w + [c] + rest) == [c] + rest
  {
    assert w + [c] + rest == w + ([c] + rest);
    SkipBlank(w, [c] + rest);
    if w == [] {
      assert (w + [c] + rest)[0] == c;
    } else {
      assert (w + [c] + rest)[0] == w[0];
    }
  }

  /** The items of an array are read back in order, up to its bracket. */
  lemma {:induction false} ItemsRead(items: seq<Value>, depth: nat, lead: string, close: string, before: string,
                                     read: seq<Value>, rest: string)
    requires items != []
    requires Blank(lead) && Blank(close) && Blank(before)
    requires forall i | 0 <= i < |items| :: Proper(items[i])
    ensures ReadItems(before + ItemsLaid(items, depth, lead) + close + "]" + rest, read)
            == Some((Arr(read + items), rest))
    decreases items, 0
  {
    hide Dumps, ReadValue, Skip, Blank, NumberChar, Proper;
    var value, first := items[0], Dumps(items[0], depth);
    if |items| == 1 {
      var after := close + "]" + rest;
      CloseEnds(close, ']', rest);
      ValueRead(value, depth, after);
      ReadAfterBlank(before, first + after);
      assert before + ItemsLaid(items, depth, lead) + close + "]" + rest == before + (first + after);
      assert ([']'] + rest)[1..] == rest;
      assert items == [value];
    } else {
      var next := lead + ItemsLaid(items[1..], depth, lead) + close + "]" + rest;
      var after := "," + next;
      CommaEnds(next);
      ValueRead(value, depth, after);
      ReadAfterBlank(before, first + after);
      assert before + ItemsLaid(items, depth, lead) + close + "]" + rest == before + (first + after);
      assert after[1..] == next;
      ItemsRead(items[1..], depth, lead, close, lead, read + [value], rest);
      assert read + [value] + items[1..] == read + items;
    }
  }

  lemma SkipTwice(s: string)
    ensures Skip(Skip(s)) == Skip(s)
    ensures ReadValue(Skip(s)) == ReadValue(s)
    ensures forall read :: ReadItems(Skip(s), read) == ReadItems(s, read)
  {
  }

  lemma OpenArray(s: string)
    requires ReadItems(s, []).Some?
    ensures ReadValue("[" + s) == ReadItems(s, [])
  {
    SkipTwice(s);
    assert ("[" + s)[1..] == s;
    assert Skip("[" + s) == "[" + s;
    assert ReadValue(Skip(s)).Some?;
  }

  lemma {:induction false} ArrayRead(items: seq<Value>, depth: nat, rest: string)
    requires forall i | 0 <= i < |items| :: Proper(items[i])
    ensures ReadValue(Dumps(Arr(items), depth) + rest) == Some((Arr(items), rest))
    decreases items, 1
  {
    if items == [] {
      EmptyRead(depth, rest);
    } else {
      hide *;
      var l := LayoutOf(AllScalars(items), depth);
      var s := l.before + ItemsLaid(items, l.depth, l.lead) + l.close + "]" + rest;
      LayoutBlank(AllScalars(items), depth);
      assert [] + items == items;
      ItemsRead(items, l.depth, l.lead, l.close, l.before, [], rest);
      OpenArray(s);
      ArrayText(items, depth, rest);
    }
  }

  lemma LayoutBlank(flat: bool, depth: nat)
    ensures var l := LayoutOf(flat, depth); Blank(l.before) && Blank(l.lead) && Blank(l.close)
  {
    IndentBlank(depth + 1);
    IndentBlank(depth);
  }

  lemma ArrayText(items: seq<Value>, depth: nat, rest: string)
    requires items != []
    ensures var l := LayoutOf(AllScalars(items), depth);
            Dumps(Arr(items), depth) + rest
              == "[" + (l.before + ItemsLaid(items, l.depth, l.lead) + l.close + "]" + rest)
  {
    hide ItemsLaid, LayoutOf, AllScalars;
  }

  lemma ObjectText(fields: seq<Field>, depth: nat, rest: string)
    requires fields != []
    ensures var l := LayoutOf(AllScalarFields(fields), depth);
            Dumps(Obj(fields), depth) + rest
              == "{" + (l.before + FieldsLaid(fields, l.depth, l.lead) + l.close + "}" + rest)
  {
    hide FieldsLaid, LayoutOf, AllScalarFields;
  }

  lemma EmptyRead(depth: nat, rest: string)
    ensures ReadValue(Dumps(Arr([]), depth) + rest) == Some((Arr([]), rest))
    ensures ReadValue(Dumps(Obj([]), depth) + rest) == Some((Obj([]), rest))
  {
    var a, o := "[]" + rest, "{}" + rest;
    assert Skip(a) == a && Skip(o) == o;
    assert Skip(a[1..]) == a[1..] && Skip(o[1..]) == o[1..];
    assert a[1..][1..] == rest && o[1..][1..] == rest;
  }

  lemma {:induction false} PutNew(read: seq<Field>, key: string, value: Value)
    requires forall i | 0 <= i < |read| :: read[i].key != key
    ensures Put(read, key, value) == read + [Field(key, value)]
  {
    if read != [] {
      PutNew(read[1..], key, value);
      assert read == [read[0]] + read[1..];
    }
  }

  lemma OpenObject(s: string)
    requires ReadFields(s, []).Some?
    ensures ReadValue("{" + s) == ReadFields(s, [])
  {
    assert Skip(Skip(s)) == Skip(s);
    assert ("{" + s)[1..] == s;
    assert Skip("{" + s) == "{" + s;
  }

  /** A key, its colon and its value are read back, up to what follows. */
  lemma FieldRead(field: Field, depth: nat, before: string, rest: string, read: seq<Field>)
    requires Blank(before)
    requires ReadValue(" " + (Dumps(field.value, depth) + rest)) == Some((field.value, rest))
    requires forall i | 0 <= i < |read| :: read[i].key != field.key
    ensures var s := before + Quoted(field.key) + ": " + Dumps(field.value, depth) + rest;
            var t := Skip(rest);
            ReadFields(s, read)
              == if t == [] then None
                 else if t[0] == ',' then ReadFields(t[1..], read + [field])
                 else if t[0] == '}' then Some((Obj(read + [field]), t[1..]))
                 else None
  {
    hide Dumps, ReadValue, ReadText, Put, Escaped;
    var s := before + Quoted(field.key) + ": " + Dumps(field.value, depth) + rest;
    var told := " " + (Dumps(field.value, depth) + rest);
    var after := ":" + told;
    var k := Quoted(field.key) + after;
    assert s == before + k;
    SkipBlank(before, k);
    assert Skip(k) == k;
    assert k[1..] == Escaped(field.key) + "\"" + after;
    TextRead(field.key, after);
    assert Skip(after) == after && after[1..] == told;
    PutNew(read, field.key, field.value);
  }

  /** The fields of an object are read back in order, up to its brace. */
  lemma {:induction false} FieldsRead(fields: seq<Field>, depth: nat, lead: string, close: string, before: string,
                                      read: seq<Field>, rest: string)
    requires fields != []
    requires Blank(lead) && Blank(close) && Blank(before)
    requires forall i | 0 <= i < |fields| :: Proper(fields[i].value)
    requires DistinctKeys(read + fields)
    ensures ReadFields(before + FieldsLaid(fields, depth, lead) + close + "}" + rest, read)
            == Some((Obj(read + fields), rest))
    decreases fields, 0
  {
    hide *;
    var field := fields[0];
    var told := Dumps(field.value, depth);
    KeyNew(read, fields);
    if |fields| == 1 {
      var after := close + "}" + rest;
      CloseEnds(close, '}', rest);
      ValueRead(field.value, depth, after);
      SpaceBlank();
      ReadAfterBlank(" ", told + after);
      FieldRead(field, depth, before, after, read);
      LastField(fields, depth, lead, before, after);
      assert Skip(after) == ['}'] + rest;
      assert before + FieldsLaid(fields, depth, lead) + close + "}" + rest
             == before + FieldsLaid(fields, depth, lead) + after;
      assert (['}'] + rest)[1..] == rest;
      assert fields == [field];
    } else {
      var next := lead + FieldsLaid(fields[1..], depth, lead) + close + "}" + rest;
      var after := "," + next;
      CommaEnds(next);
      ValueRead(field.value, depth, after);
      SpaceBlank();
      ReadAfterBlank(" ", told + after);
      FieldRead(field, depth, before, after, read);
      MoreFields(fields, depth, lead, before, close + "}" + rest);
      assert before + FieldsLaid(fields, depth, lead) + close + "}" + rest
             == before + FieldsLaid(fields, depth, lead) + (close + "}" + rest);
      assert lead + FieldsLaid(fields[1..], depth, lead) + (close + "}" + rest) == next;
      assert after[1..] == next;
      assert read + [field] + fields[1..] == read + fields;
      FieldsRead(fields[1..], depth, lead, close, lead, read + [field], rest);
    }
  }

  lemma SpaceBlank()
    ensures Blank(" ")
  {
  }

  lemma CommaEnds(next: string)
    ensures Ends("," + next)
    ensures Skip("," + next) == "," + next
  {
  }

  lemma KeyNew(read: seq<Field>, fields: seq<Field>)
    requires fields != []
    requires DistinctKeys(read + fields)
    ensures forall i | 0 <= i < |read| :: read[i].key != fields[0].key
  {
    forall i | 0 <= i < |read|
      ensures read[i].key != fields[0].key
    {
      assert (read + fields)[i] == read[i] && (read + fields)[|read|] == fields[0];
    }
  }

  lemma LastField(fields: seq<Field>, depth: nat, lead: string, before: string, after: string)
    requires |fields| == 1
    ensures before + FieldsLaid(fields, depth, lead) + after
            == before + Quoted(fields[0].key) + ": " + Dumps(fields[0].value, depth) + after
  {
    hide Quoted, Dumps;
  }

  lemma MoreFields(fields: seq<Field>, depth: nat, lead: string, before: string, end: string)
    requires |fields| > 1
    ensures before + FieldsLaid(fields, depth, lead) + end
            == before + Quoted(fields[0].key) + ": " + Dumps(fields[0].value, depth)
               + ("," + (lead + FieldsLaid(fields[1..], depth, lead) + end))
  {
    hide Quoted, Dumps;
  }

  lemma {:induction false} ObjectRead(fields: seq<Field>, depth: nat, rest: string)
    requires DistinctKeys(fields)
    requires forall i | 0 <= i < |fields| :: Proper(fields[i].value)
    ensures ReadValue(Dumps(Obj(fields), depth) + rest) == Some((Obj(fields), rest))
    decreases fields, 1
  {
    if fields == [] {
      EmptyRead(depth, rest);
    } else {
      hide *;
      var l := LayoutOf(AllScalarFields(fields), depth);
      var s := l.before + FieldsLaid(fields, l.depth, l.lead) + l.close + "}" + rest;
      LayoutBlank(AllScalarFields(fields), depth);
      assert [] + fields == fields;
      FieldsRead(fields, l.depth, l.lead, l.close, l.before, [], rest);
      OpenObject(s);
      ObjectText(fields, depth, rest);
    }
  }

  /** Whatever follows it, a value is read back from what the formatter wrote of it. */
  lemma {:induction false} ValueRead(value: Value, depth: nat, rest: string)
    requires Proper(value)
    requires Ends(rest)
    ensures ReadValue(Dumps(value, depth) + rest) == Some((value, rest))
    decreases value, 1
  {
    if Scalar(value) {
      ScalarRead(value, depth, rest);
    } else if value.Arr? {
      ArrayRead(value.items, depth, rest);
    } else {
      ObjectRead(value.fields, depth, rest);
    }
  }

  /** A file read back is the value it was written from, and rendered again is the same text. */
  lemma FileRoundTrip(value: Value)
    requires Proper(value)
    ensures Load(Rendered(value)) == Some(value)
    ensures Rendered(Load(Rendered(value)).value) == Rendered(value)
  {
    ValueRead(value, 0, "\n");
    assert Skip("\n") == [];
  }

  /** Two values written alike, at whatever depths, are one value. */
  lemma DumpsTellApart(a: Value, b: Value, depth: nat, other: nat)
    requires Proper(a) && Proper(b)
    requires Dumps(a, depth) == Dumps(b, other)
    ensures a == b
  {
    hide Dumps, ReadValue, Proper;
    ValueRead(a, depth, "");
    ValueRead(b, other, "");
  }

  // ------------------------------------------------------------ one line

  /** A value written on one line: a scalar, or a container of nothing but scalars. */
  predicate Flat(value: Value) {
    match value
    case Arr(items) => AllScalars(items)
    case Obj(fields) => AllScalarFields(fields)
    case _ => true
  }

  lemma {:induction false} QuotedOneLine(text: string)
    ensures '\n' !in Quoted(text)
  {
    if text != [] {
      QuotedOneLine(text[1..]);
      assert '\n' !in Escape(text[0]);
      assert Quoted(text[1..])[1..|Quoted(text[1..])| - 1] == Escaped(text[1..]);
      assert forall i | 0 <= i < |Escaped(text[1..])| :: Escaped(text[1..])[i] == Quoted(text[1..])[i + 1];
    }
  }

  lemma ScalarOneLine(value: Value, depth: nat)
    requires Scalar(value)
    ensures '\n' !in Dumps(value, depth)
  {
    if value.Str? {
      QuotedOneLine(value.text);
    } else if value.Num? {
      NumberChars(value.number);
    }
  }

  lemma {:induction false} ItemsOneLine(items: seq<Value>, depth: nat)
    requires items != []
    requires AllScalars(items)
    ensures '\n' !in ItemsLaid(items, depth, " ")
  {
    hide Dumps;
    ScalarOneLine(items[0], depth);
    if |items| > 1 {
      ItemsOneLine(items[1..], depth);
    }
  }

  lemma {:induction false} FieldsOneLine(fields: seq<Field>, depth: nat)
    requires fields != []
    requires AllScalarFields(fields)
    ensures '\n' !in FieldsLaid(fields, depth, " ")
  {
    hide Dumps, Quoted;
    ScalarOneLine(fields[0].value, depth);
    QuotedOneLine(fields[0].key);
    if |fields| > 1 {
      FieldsOneLine(fields[1..], depth);
    }
  }

  /** The formatter breaks lines exactly in a value that nests one container in another. */
  lemma OneLineWhenFlat(value: Value, depth: nat)
    ensures '\n' !in Dumps(value, depth) <==> Flat(value)
  {
    if Scalar(value) {
      ScalarOneLine(value, depth);
    } else if value.Arr? && value.items != [] {
      ArrayText(value.items, depth, "");
      if AllScalars(value.items) {
        ItemsOneLine(value.items, depth);
      } else {
        assert Dumps(value, depth)[1] == '\n';
      }
    } else if value.Obj? && value.fields != [] {
      if AllScalarFields(value.fields) {
        FieldsOneLine(value.fields, depth);
      } else {
        assert Dumps(value, depth)[1] == '\n';
      }
    }
  }
}
