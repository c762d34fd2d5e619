/** How a release file is laid out: its indents, its commas, its quotes and its escapes. */
module JsonLayout {
  import opened Digits
  import opened JsonText

  /** So many spaces. */
  function Spaces(n: nat): string {
    seq(n, _ => ' ')
  }

  /** Texts one after another, `between` each two of them. */
  function Strung(parts: seq<string>, between: string): string
    requires parts != []
  {
    if |parts| == 1 then parts[0] else Strung(parts[..|parts| - 1], between) + between + parts[|parts| - 1]
  }

  lemma {:induction false} Indented(depth: nat)
    ensures Indent(depth) == Spaces(2 * depth)
  {
    if depth > 0 {
      Indented(depth - 1);
      assert "  " + Spaces(2 * (depth - 1)) == Spaces(2 * depth);
    }
  }

  lemma {:induction false} StrungRest(parts: seq<string>, between: string)
    requires |parts| > 1
    ensures Strung(parts, between) == parts[0] + between + Strung(parts[1..], between)
  {
    var init, last := parts[..|parts| - 1], parts[|parts| - 1];
    if |parts| == 2 {
      assert init == [parts[0]] && parts[1..] == [parts[1]];
    } else {
      StrungRest(init, between);
      assert init[1..] == parts[1..][..|parts| - 2];
      var middle := Strung(init[1..], between);
      assert (parts[0] + between + middle) + between + last == parts[0] + between + (middle + between + last);
    }
  }

  function Each(items: seq<Value>, depth: nat): seq<string> {
    seq(|items|, i requires 0 <= i < |items| => Dumps(items[i], depth))
  }

  /** A key, a colon, a space and its value. */
  function EachField(fields: seq<Field>, depth: nat): seq<string> {
    seq(|fields|, i requires 0 <= i < |fields| => Quoted(fields[i].key) + ": " + Dumps(fields[i].value, depth))
  }

  lemma {:induction false} ItemsStrung(items: seq<Value>, depth: nat, lead: string)
    requires items != []
    ensures ItemsLaid(items, depth, lead) == Strung(Each(items, depth), "," + lead)
  {
    hide Dumps;
    var parts := Each(items, depth);
    if |items| > 1 {
      ItemsStrung(items[1..], depth, lead);
      assert Each(items[1..], depth) == parts[1..];
      StrungRest(parts, "," + lead);
    }
  }

  lemma {:induction false} FieldsStrung(fields: seq<Field>, depth: nat, lead: string)
    requires fields != []
    ensures FieldsLaid(fields, depth, lead) == Strung(EachField(fields, depth), "," + lead)
  {
    hide Dumps, Quoted;
    var parts := EachField(fields, depth);
    if |fields| > 1 {
      FieldsStrung(fields[1..], depth, lead);
      assert EachField(fields[1..], depth) == parts[1..];
      StrungRest(parts, "," + lead);
    }
  }

  /** A container with nothing nested in it is one line; any other has each member on a line of its
      own, two spaces further in than its brackets. */
  function Laid(open: string, parts: seq<string>, close: string, flat: bool, depth: nat): string
    requires parts != []
  {
    if flat then open + Strung(parts, ", ") + close
    else
      open + "\n" + Spaces(2 * depth + 2) + Strung(parts, ",\n" + Spaces(2 * depth + 2))
      + "\n" + Spaces(2 * depth) + close
  }

  predicate Plain(value: Value) {
    value.Null? || value.Bool? || value.Num? || value.Str?
  }

  lemma LaidAs(open: string, parts: seq<string>, close: string, flat: bool, depth: nat)
    requires parts != []
    ensures var l := LayoutOf(flat, depth);
            && open + (l.before + Strung(parts, "," + l.lead) + l.close + close)
                 == Laid(open, parts, close, flat, depth)
            && l.depth == if flat then depth else depth + 1
  {
    hide Strung;
    Indented(depth);
    Indented(depth + 1);
    if flat {
      assert "," + " " == ", ";
      assert "" + Strung(parts, ", ") + "" == Strung(parts, ", ");
    } else {
      var inner := "\n" + Spaces(2 * depth + 2);
      assert "," + inner == ",\n" + Spaces(2 * depth + 2);
      var text := Strung(parts, ",\n" + Spaces(2 * depth + 2));
      assert open + (inner + text + ("\n" + Spaces(2 * depth)) + close)
             == open + "\n" + Spaces(2 * depth + 2) + text + "\n" + Spaces(2 * depth) + close;
    }
  }

  /** Every list and every object, at every depth. */
  lemma ListLaid(items: seq<Value>, depth: nat)
    ensures items == [] ==> Dumps(Arr(items), depth) == "[]"
    ensures items != [] ==>
              var flat := forall i | 0 <= i < |items| :: Plain(items[i]);
              Dumps(Arr(items), depth) == Laid("[", Each(items, if flat then depth else depth + 1), "]", flat, depth)
  {
    if items != [] {
      var flat := forall i | 0 <= i < |items| :: Plain(items[i]);
      assert flat == AllScalars(items);
      var l := LayoutOf(flat, depth);
      ItemsStrung(items, l.depth, l.lead);
      LaidAs("[", Each(items, l.depth), "]", flat, depth);
      hide LayoutOf, ItemsLaid, Laid, Strung, Each;
    }
  }

  lemma ObjectLaid(fields: seq<Field>, depth: nat)
    ensures fields == [] ==> Dumps(Obj(fields), depth) == "{}"
    ensures fields != [] ==>
              var flat := forall i | 0 <= i < |fields| :: Plain(fields[i].value);
              Dumps(Obj(fields), depth)
                == Laid("{", EachField(fields, if flat then depth else depth + 1), "}", flat, depth)
  {
    if fields != [] {
      var flat := forall i | 0 <= i < |fields| :: Plain(fields[i].value);
      assert flat == AllScalarFields(fields);
      var l := LayoutOf(flat, depth);
      FieldsStrung(fields, l.depth, l.lead);
      LaidAs("{", EachField(fields, l.depth), "}", flat, depth);
      hide LayoutOf, FieldsLaid, Laid, Strung, EachField;
    }
  }

  /** Everything else is a word, a number's own digits, or a text in quotes. */
  lemma PlainLaid(value: Value, depth: nat)
    requires Plain(value)
    ensures Dumps(value, depth) == match value
                                   case Null => "null"
                                   case Bool(on) => if on then "true" else "false"
                                   case Num(number) => number
                                   case Str(text) => Quoted(text)
                                   case _ => ""
  {
  }

  // ------------------------------------------------------- quotes

  /** A character that must not stand as it is: a quote, a backslash, or a control. */
  predicate Unsafe(c: char) {
    c == '"' || c == '\\' || c < ' '
  }

  /** What stands for `c`: itself where it may, and otherwise a backslash with the letter it has, or
      with `u` and its four hexadecimal digits in lower case. */
  predicate StandsFor(c: char, written: string) {
    if !Unsafe(c) then written == [c]
    else if c in "\"\\" then written == ['\\', c]
    else if c == '\n' then written == ['\\', 'n']
    else if c == '\r' then written == ['\\', 'r']
    else if c == '\t' then written == ['\\', 't']
    else if c as int == 8 then written == ['\\', 'b']
    else if c as int == 12 then written == ['\\', 'f']
    else
      && |written| == 6 && written[..4] == "\\u00"
      && written[4] in "01" && written[5] in "0123456789abcdef"
      && Hex(written[4]) * 16 + Hex(written[5]) == c as int
  }

  function Hex(c: char): nat {
    if '0' <= c <= '9' then c as int - '0' as int else if 'a' <= c <= 'f' then c as int - 'a' as int + 10 else 0
  }

  lemma EscapeMeans(c: char)
    ensures StandsFor(c, Escape(c))
  {
    var quotes := "\"\\";
    assert quotes[0] == '"' && quotes[1] == '\\';
    if c < ' ' {
      var high, low := HexDigit(c as int / 16), HexDigit(c as int % 16);
      var digits := "0123456789abcdef";
      assert digits[c as int % 16] == low;
      var two := "01";
      assert two[c as int / 16] == high;
    }
  }

  /** A text is written character by character, a quote on either side. */
  lemma QuotedMeans(text: string) returns (pieces: seq<string>)
    ensures |pieces| == |text|
    ensures forall i | 0 <= i < |text| :: StandsFor(text[i], pieces[i])
    ensures Quoted(text) == "\"" + (if text == "" then "" else Strung(pieces, "")) + "\""
  {
    hide StandsFor, Escape;
    pieces := Pieces(text);
  }

  lemma {:induction false} Pieces(text: string) returns (pieces: seq<string>)
    ensures |pieces| == |text|
    ensures forall i | 0 <= i < |text| :: StandsFor(text[i], pieces[i])
    ensures Escaped(text) == if text == "" then "" else Strung(pieces, "")
  {
    hide StandsFor, Escape;
    pieces := [];
    if text != "" {
      var rest := Pieces(text[1..]);
      EscapeMeans(text[0]);
      pieces := [Escape(text[0])] + rest;
      if |text| > 1 {
        StrungRest(pieces, "");
        assert pieces[1..] == rest;
        assert Escape(text[0]) + "" + Strung(rest, "") == Escape(text[0]) + Strung(rest, "");
      } else {
        assert Escaped(text[1..]) == "";
        assert Escape(text[0]) + "" == Escape(text[0]);
      }
    }
  }

  /** A file's text is its value's, with one line feed after it. */
  lemma FileLaid(value: Value)
    ensures Rendered(value) == Dumps(value, 0) + ['\n']
  {
  }

  // ------------------------------------------------------- what may be written

  /** Whether `inner` is `value`, or a member of it at any depth. */
  ghost predicate Holds(value: Value, inner: Value)
    decreases value
  {
    || value == inner
    || (value.Arr? && exists i :: 0 <= i < |value.items| && Holds(value.items[i], inner))
    || (value.Obj? && exists i :: 0 <= i < |value.fields| && Holds(value.fields[i].value, inner))
  }

  predicate KeyTwice(fields: seq<Field>) {
    exists i, j :: 0 <= i < j < |fields| && fields[i].key == fields[j].key
  }

  /** A value may be written and read back unless some object in it has a key twice. */
  lemma {:induction false} ProperMeans(value: Value)
    ensures Proper(value) <==> forall inner | Holds(value, inner) :: !(inner.Obj? && KeyTwice(inner.fields))
    decreases value
  {
    match value {
      case Arr(items) =>
        forall i | 0 <= i < |items|
          ensures Proper(items[i]) <==> forall inner | Holds(items[i], inner) :: !(inner.Obj? && KeyTwice(inner.fields))
        {
          ProperMeans(items[i]);
        }
        hide Proper, Holds, KeyTwice;
        ArrParts(items);
      case Obj(fields) =>
        forall i | 0 <= i < |fields|
          ensures Proper(fields[i].value)
             <==> forall inner | Holds(fields[i].value, inner) :: !(inner.Obj? && KeyTwice(inner.fields))
        {
          ProperMeans(fields[i].value);
        }
        hide Proper, Holds;
        ObjParts(fields);
      case _ =>
    }
  }

  lemma ArrParts(items: seq<Value>)
    ensures Proper(Arr(items)) <==> forall i | 0 <= i < |items| :: Proper(items[i])
    ensures forall inner :: Holds(Arr(items), inner) <==>
              inner == Arr(items) || exists i :: 0 <= i < |items| && Holds(items[i], inner)
  {
  }

  lemma ObjParts(fields: seq<Field>)
    ensures Proper(Obj(fields)) <==> DistinctKeys(fields) && forall i | 0 <= i < |fields| :: Proper(fields[i].value)
    ensures forall inner :: Holds(Obj(fields), inner) <==>
              inner == Obj(fields) || exists i :: 0 <= i < |fields| && Holds(fields[i].value, inner)
  {
  }

  predicate Numerals(s: string) {
    s != "" && forall c | c in s :: '0' <= c <= '9'
  }

  predicate Whole(s: string) {
    Numerals(s) && (s == "0" || s[0] != '0')
  }

  predicate Fraction(s: string) {
    s == "" || (s[0] == '.' && Numerals(s[1..]))
  }

  predicate Exponent(s: string) {
    s == "" || ((s[0] == 'e' || s[0] == 'E')
                && (Numerals(s[1..]) || (|s| > 1 && (s[1] == '+' || s[1] == '-') && Numerals(s[2..]))))
  }

  /** Whether a text is a sign or none, a whole number with no zero before it, a fraction or none, and
      an exponent or none. */
  predicate NumberOf(s: string, sign: string, whole: string, fraction: string, exponent: string) {
    && s == sign + (whole + (fraction + exponent))
    && (sign == "" || sign == "-") && Whole(whole) && Fraction(fraction) && Exponent(exponent)
  }

  lemma DigitsMeans(s: string)
    ensures SomeDigits(s) <==> Numerals(s)
  {
    if Numerals(s) {
      assert forall i | 0 <= i < |s| :: s[i] in s;
    }
  }

  lemma ExponentMeans(s: string)
    ensures s == "" || IsExponent(s) <==> Exponent(s)
  {
    if s != "" {
      DigitsMeans(s[1..]);
      if |s| > 1 {
        DigitsMeans(s[2..]);
      }
    }
    hide SomeDigits, Numerals;
  }

  /** The digits a text begins with, all of them. */
  lemma {:induction false} RunOf(digits: string, rest: string)
    requires Numerals(digits) && (rest == "" || !('0' <= rest[0] <= '9'))
    ensures Run(digits + rest) == |digits|
  {
    var s := digits + rest;
    assert digits[0] in digits && s[0] == digits[0] && s[1..] == digits[1..] + rest;
    assert forall c | c in digits[1..] :: c in digits;
    if |digits| > 1 {
      RunOf(digits[1..], rest);
    } else {
      assert s[1..] == rest;
    }
  }

  lemma RunDigits(s: string)
    requires Run(s) > 0
    ensures Numerals(s[..Run(s)])
  {
    var digits := s[..Run(s)];
    forall c | c in digits
      ensures '0' <= c <= '9'
    {
      var i :| 0 <= i < |digits| && digits[i] == c;
    }
  }

  ghost predicate TailOf(s: string, fraction: string, exponent: string) {
    s == fraction + exponent && Fraction(fraction) && Exponent(exponent)
  }

  lemma TailCut(s: string) returns (fraction: string, exponent: string)
    requires IsTail(s)
    ensures TailOf(s, fraction, exponent)
  {
    if s == "" || IsExponent(s) {
      ExponentMeans(s);
      fraction, exponent := "", s;
    } else {
      var n := Run(s[1..]);
      fraction, exponent := s[..1 + n], s[1 + n..];
      RunDigits(s[1..]);
      ExponentMeans(exponent);
      assert fraction[1..] == s[1..][..n];
      hide Numerals;
    }
  }

  lemma TailJoined(s: string, fraction: string, exponent: string)
    requires TailOf(s, fraction, exponent)
    ensures IsTail(s)
  {
    ExponentMeans(exponent);
    if fraction == "" {
      assert s == exponent;
    } else {
      var digits := fraction[1..];
      assert s[1..] == digits + exponent;
      RunOf(digits, exponent);
      assert s[1 + |digits|..] == exponent;
      hide Numerals, IsExponent;
    }
  }

  ghost predicate UnsignedOf(s: string, whole: string, fraction: string, exponent: string) {
    s == whole + (fraction + exponent) && Whole(whole) && Fraction(fraction) && Exponent(exponent)
  }

  lemma UnsignedCut(s: string) returns (whole: string, fraction: string, exponent: string)
    requires IsUnsigned(s)
    ensures UnsignedOf(s, whole, fraction, exponent)
  {
    hide IsTail, Fraction, Exponent, Numerals;
    var n := if s[0] == '0' then 1 else Run(s);
    var rest := s[n..];
    whole := s[..n];
    assert IsTail(rest);
    WholeCut(s);
    hide Whole, Run, IsUnsigned;
    fraction, exponent := TailCut(rest);
  }

  lemma WholeCut(s: string)
    requires s != "" && IsDigit(s[0])
    ensures Whole(s[..if s[0] == '0' then 1 else Run(s)])
  {
    if s[0] == '0' {
      assert s[..1] == "0";
    } else {
      RunDigits(s);
      assert s[..Run(s)][0] == s[0];
    }
  }

  lemma UnsignedJoined(s: string, whole: string, fraction: string, exponent: string)
    requires UnsignedOf(s, whole, fraction, exponent)
    ensures IsUnsigned(s)
  {
    var rest := fraction + exponent;
    TailApart(fraction, exponent);
    TailJoined(rest, fraction, exponent);
    assert whole[0] in whole && s[0] == whole[0];
    if s[0] == '0' {
      assert s[1..] == rest;
    } else {
      RunOf(whole, rest);
      assert s[|whole|..] == rest;
    }
    hide IsTail, Fraction, Exponent;
  }

  lemma TailApart(fraction: string, exponent: string)
    requires Fraction(fraction) && Exponent(exponent)
    ensures fraction + exponent == "" || !('0' <= (fraction + exponent)[0] <= '9')
  {
  }

  /** The numbers are those of section 6 of RFC 8259. */
  lemma NumberMeans(s: string)
    ensures IsNumber(s) <==> exists sign, whole, fraction, exponent :: NumberOf(s, sign, whole, fraction, exponent)
  {
    hide IsUnsigned, Fraction, Exponent, Whole;
    if IsUnsigned(s) {
      var whole, fraction, exponent := UnsignedCut(s);
      assert s == "" + (whole + (fraction + exponent));
      assert NumberOf(s, "", whole, fraction, exponent);
    } else if s != [] && s[0] == '-' && IsUnsigned(s[1..]) {
      var whole, fraction, exponent := UnsignedCut(s[1..]);
      assert s == "-" + s[1..];
      assert NumberOf(s, "-", whole, fraction, exponent);
    }
    if sign, whole, fraction, exponent :| NumberOf(s, sign, whole, fraction, exponent) {
      var rest := whole + (fraction + exponent);
      UnsignedJoined(rest, whole, fraction, exponent);
      assert s == if sign == "" then rest else "-" + rest;
      if sign != "" {
        assert s[1..] == rest;
      }
    }
  }

  /** A file that goes on after its value, with anything but space, is not read. */
  lemma NothingAfter(value: Value, rest: string)
    requires Proper(value) && Ends(rest)
    ensures Load(Dumps(value, 0) + rest).Some? <==> Skip(rest) == ""
  {
    ValueRead(value, 0, rest);
  }
}
