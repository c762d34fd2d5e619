/** The placeholders a case's ask holds, as they are written and as they are read back. */
module Placeholders {
  import opened Outcomes
  import opened Digits
  import opened Texts

  const MINTED := "minted"

  const CERTIFICATE := "certificate"

  const PINNED := "certificate:sha256"

  const UPSTREAM := "upstream:"

  const MARK := '#'

  /** A hole in the body of a case, and where its filling comes from. */
  datatype Placeholder =
    | Minted
    | Upstream(field: string)
    | MintedUpstream(field: string)
    | Certificate
    | Pinned
    | Answered(case_: string, pointer: string)

  // -------------------------------------------------------------- writing

  function Inner(p: Placeholder): string {
    match p
    case Minted => MINTED
    case Certificate => CERTIFICATE
    case Pinned => PINNED
    case Upstream(field) => UPSTREAM + field
    case MintedUpstream(field) => MINTED + ":" + UPSTREAM + field
    case Answered(c, pointer) => c + [MARK] + pointer
  }

  /** The text that stands for a placeholder. */
  function Written(p: Placeholder): string {
    "{" + Inner(p) + "}"
  }

  // -------------------------------------------------------------- reading

  /** What Rust reads as a `u32`: digits, which one plus may come before, within the width. */
  predicate IsU32(s: string) {
    var digits := if s != [] && s[0] == '+' then s[1..] else s;
    digits != [] && AllDigits(digits) && DigitsValue(digits) < 0x1_0000_0000
  }

  /** `field`, where it names one. */
  function NamedField(field: string): Option<string> {
    if field != "" && ':' !in field then Some(field) else None
  }

  /** The field a minted credential is kept as, where `inner` names one. */
  function MintedField(inner: string): Option<string> {
    match StripPrefix(inner, MINTED)
    case None => None
    case Some(rest) =>
      match StripPrefix(rest, ":")
      case None => None
      case Some(more) => StripPrefix(more, UPSTREAM)
  }

  /** A case and a pointer into its answer, where `inner` is both. */
  function ReadAnswered(inner: string): Option<Placeholder> {
    match SplitOnce(inner, MARK)
    case None => None
    case Some((c, pointer)) =>
      match SplitOnce(c, '/')
      case None => None
      case Some((contract, name)) =>
        match SplitOnce(contract, '@')
        case None => None
        case Some((capability, major)) =>
          if capability != "" && IsU32(major) && name != "" && (pointer == "" || StartsWith(pointer, "/"))
          then Some(Answered(c, pointer)) else None
  }

  function ReadInner(inner: string): Option<Placeholder> {
    if '{' in inner || '}' in inner then None
    else if inner == MINTED then Some(Minted)
    else if inner == CERTIFICATE then Some(Certificate)
    else if inner == PINNED then Some(Pinned)
    else
      match MintedField(inner)
      case Some(field) => (match NamedField(field) case None => None case Some(f) => Some(MintedUpstream(f)))
      case None =>
        match StripPrefix(inner, UPSTREAM)
        case Some(field) => (match NamedField(field) case None => None case Some(f) => Some(Upstream(f)))
        case None => ReadAnswered(inner)
  }

  /** Parses a whole text as one placeholder, if it is one. */
  function Read(text: string): Option<Placeholder> {
    match StripPrefix(text, "{")
    case None => None
    case Some(rest) =>
      match StripSuffix(rest, "}")
      case None => None
      case Some(inner) => ReadInner(inner)
  }

  // ------------------------------------------------------- the round trip

  predicate Braceless(s: string) {
    '{' !in s && '}' !in s
  }

  predicate SoundField(field: string) {
    field != "" && ':' !in field && Braceless(field)
  }

  /** A case as `<capability>@<major>/<case>`, cut at its first slash and its first at sign. */
  predicate NamesACase(c: string) {
    var cut := SplitOnce(c, '/');
    cut.Some? && cut.value.1 != ""
    && (var at := SplitOnce(cut.value.0, '@');
        at.Some? && at.value.0 != "" && IsU32(at.value.1))
  }

  /** A placeholder that can be written so it is read as itself. */
  predicate WellFormed(p: Placeholder) {
    match p
    case Upstream(field) => SoundField(field)
    case MintedUpstream(field) => SoundField(field)
    case Answered(c, pointer) =>
      && Braceless(c) && Braceless(pointer)
      && MARK !in c && NamesACase(c)
      && (pointer == "" || StartsWith(pointer, "/"))
      && !StartsWith(c, UPSTREAM) && !StartsWith(c, MINTED + ":" + UPSTREAM)
    case _ => true
  }

  lemma WrittenInner(p: Placeholder)
    ensures Read(Written(p)) == ReadInner(Inner(p))
  {
    var rest := Inner(p) + "}";
    assert Written(p) == "{" + rest;
    assert Written(p)[1..] == rest;
    assert rest[|rest| - 1..] == "}";
    assert rest[..|rest| - 1] == Inner(p);
  }

  lemma MintedFieldMeans(inner: string)
    ensures MintedField(inner).Some? <==> StartsWith(inner, MINTED + ":" + UPSTREAM)
    ensures MintedField(inner).Some? ==> inner == MINTED + ":" + UPSTREAM + MintedField(inner).value
    ensures forall field :: inner == MINTED + ":" + UPSTREAM + field ==> MintedField(inner) == Some(field)
  {
    var long := MINTED + ":" + UPSTREAM;
    assert long == "minted:upstream:";
    if StartsWith(inner, long) {
      var rest := inner[|MINTED|..];
      assert inner[..|long|] == long;
      assert rest[..1] == ":" by {
        assert inner[6] == long[6];
      }
      assert rest[1..][..|UPSTREAM|] == UPSTREAM by {
        assert rest[1..][..|UPSTREAM|] == inner[..|long|][7..];
      }
      assert rest[1..][|UPSTREAM|..] == inner[|long|..];
    }
    if MintedField(inner).Some? {
      var rest := inner[|MINTED|..];
      assert inner == MINTED + rest;
      assert rest == ":" + rest[1..];
      assert rest[1..] == UPSTREAM + rest[1..][|UPSTREAM|..];
    }
    forall field | inner == long + field
      ensures MintedField(inner) == Some(field)
    {
      assert inner[..|long|] == long;
      assert inner[|long|..] == field;
    }
  }

  /** Whatever is read was written so: the text is the placeholder's and no other's. */
  lemma ReadIsWritten(text: string)
    ensures Read(text).Some? ==> Written(Read(text).value) == text && WellFormed(Read(text).value)
  {
    if Read(text).Some? {
      var rest := text[1..];
      var inner := rest[..|rest| - 1];
      assert text == "{" + inner + "}" by {
        assert text == "{" + rest;
        assert rest == inner + "}";
      }
      InnerIsWritten(inner);
    }
  }

  lemma AnsweredIsWritten(inner: string)
    requires Braceless(inner)
    requires ReadAnswered(inner).Some?
    ensures var p := ReadAnswered(inner).value;
            && p.Answered? && p.case_ + [MARK] + p.pointer == inner
            && Braceless(p.case_) && Braceless(p.pointer)
            && MARK !in p.case_ && NamesACase(p.case_)
            && (p.pointer == "" || StartsWith(p.pointer, "/"))
  {
    hide IsU32, SplitOnce, StartsWith;
  }

  lemma AnsweredReads(c: string, pointer: string)
    requires MARK !in c && NamesACase(c)
    requires pointer == "" || StartsWith(pointer, "/")
    ensures ReadAnswered(c + [MARK] + pointer) == Some(Answered(c, pointer))
  {
    hide IsU32, SplitOnce, StartsWith;
    SplitOnceOf(c, pointer, MARK);
  }

  lemma InnerIsWritten(inner: string)
    requires ReadInner(inner).Some?
    ensures Inner(ReadInner(inner).value) == inner
    ensures WellFormed(ReadInner(inner).value)
  {
    hide IsU32, ReadAnswered, MintedField, NamesACase;
    MintedFieldMeans(inner);
    if MintedField(inner).None? {
      if StartsWith(inner, UPSTREAM) {
        assert inner == UPSTREAM + inner[|UPSTREAM|..];
      } else if inner != MINTED && inner != CERTIFICATE && inner != PINNED {
        CaseIsWritten(inner, UPSTREAM, MINTED + ":" + UPSTREAM);
      }
    }
  }

  lemma CaseIsWritten(inner: string, short: string, long: string)
    requires Braceless(inner)
    requires ReadAnswered(inner).Some?
    requires short == UPSTREAM && long == MINTED + ":" + UPSTREAM
    requires !StartsWith(inner, short) && !StartsWith(inner, long)
    ensures Inner(ReadAnswered(inner).value) == inner
    ensures WellFormed(ReadAnswered(inner).value)
  {
    hide IsU32, ReadAnswered, NamesACase, StartsWith;
    AnsweredIsWritten(inner);
    var p := ReadAnswered(inner).value;
    PrefixOfCase(p.case_, p.pointer, short);
    PrefixOfCase(p.case_, p.pointer, long);
  }

  /** A prefix free of the pointer's mark begins the whole exactly where it begins the case. */
  lemma PrefixOfCase(c: string, pointer: string, prefix: string)
    requires MARK !in prefix
    ensures StartsWith(c + [MARK] + pointer, prefix) <==> StartsWith(c, prefix)
  {
    var whole := c + [MARK] + pointer;
    assert whole[|c|] == MARK;
    assert forall i | 0 <= i < |prefix| :: prefix[i] in prefix;
  }

  /** A placeholder is read back from what is written of it exactly when it is well formed. */
  lemma ReadOfWritten(p: Placeholder)
    ensures Read(Written(p)) == Some(p) <==> WellFormed(p)
  {
    hide Read, Written, Inner, ReadInner, WellFormed;
    WrittenInner(p);
    if WellFormed(p) {
      WellFormedReads(p);
    } else if Read(Written(p)) == Some(p) {
      InnerIsWritten(Inner(p));
    }
  }

  lemma WellFormedReads(p: Placeholder)
    requires WellFormed(p)
    ensures ReadInner(Inner(p)) == Some(p)
  {
    if p.Upstream? {
      UpstreamReads(p.field, UPSTREAM);
    } else if p.MintedUpstream? {
      MintedReads(p.field, MINTED + ":" + UPSTREAM);
    } else if p.Answered? {
      CaseReads(p.case_, p.pointer, UPSTREAM, MINTED + ":" + UPSTREAM);
    } else {
      assert MINTED[0] == 'm' && CERTIFICATE[0] == 'c' && PINNED[0] == 'c' && |PINNED| > |CERTIFICATE|;
    }
  }

  lemma UpstreamReads(field: string, short: string)
    requires short == UPSTREAM && SoundField(field)
    ensures ReadInner(short + field) == Some(Upstream(field))
  {
    hide ReadAnswered, MintedField;
    var inner := short + field;
    MintedFieldMeans(inner);
    assert inner[0] == 'u' && MINTED[0] == 'm' && CERTIFICATE[0] == 'c' && PINNED[0] == 'c';
    assert (MINTED + ":" + UPSTREAM)[0] == 'm';
    assert inner[|UPSTREAM|..] == field;
  }

  lemma MintedReads(field: string, long: string)
    requires long == MINTED + ":" + UPSTREAM && SoundField(field)
    ensures ReadInner(long + field) == Some(MintedUpstream(field))
  {
    hide ReadAnswered, MintedField;
    var inner := long + field;
    MintedFieldMeans(inner);
    assert inner[0] == 'm' && |inner| > |MINTED| && CERTIFICATE[0] == 'c' && PINNED[0] == 'c';
  }

  lemma CaseReads(c: string, pointer: string, short: string, long: string)
    requires short == UPSTREAM && long == MINTED + ":" + UPSTREAM
    requires WellFormed(Answered(c, pointer))
    ensures ReadInner(c + [MARK] + pointer) == Some(Answered(c, pointer))
  {
    hide ReadAnswered, MintedField, NamesACase, StartsWith;
    var inner := c + [MARK] + pointer;
    MintedFieldMeans(inner);
    AnsweredReads(c, pointer);
    PrefixOfCase(c, pointer, short);
    PrefixOfCase(c, pointer, long);
    StripNone(inner, short);
    assert MARK in inner && MARK !in MINTED && MARK !in CERTIFICATE && MARK !in PINNED;
  }

  lemma StripNone(s: string, prefix: string)
    ensures StripPrefix(s, prefix).None? <==> !StartsWith(s, prefix)
  {
  }

  // --------------------------------------------------- an answer's own case

  /** The placeholder filled from an earlier answer: of which operation, and where in it. */
  function Answer(capability: string, major: nat, operation: string, pointer: string): Placeholder {
    Answered(capability + "@" + Decimal(major) + "/" + operation + "-answers", pointer)
  }

  /** A capability's answer is read back as itself, where its name holds none of the marks. */
  lemma AnswerRoundTrips(capability: string, major: nat, operation: string, pointer: string)
    requires major < 0x1_0000_0000
    requires capability != "" && '/' !in capability && '@' !in capability && ':' !in capability
    requires MARK !in capability && MARK !in operation
    requires Braceless(capability) && Braceless(operation) && Braceless(pointer)
    requires pointer == "" || StartsWith(pointer, "/")
    ensures Read(Written(Answer(capability, major, operation, pointer)))
            == Some(Answer(capability, major, operation, pointer))
  {
    AnswerNamesACase(capability, major, operation);
    AnswerCase(capability, Decimal(major), operation, UPSTREAM, MINTED + ":" + UPSTREAM);
    hide NamesACase, Decimal, StartsWith, Read, Written;
    assert WellFormed(Answer(capability, major, operation, pointer));
    ReadOfWritten(Answer(capability, major, operation, pointer));
  }

  lemma AnswerNamesACase(capability: string, major: nat, operation: string)
    requires major < 0x1_0000_0000
    requires capability != "" && '/' !in capability && '@' !in capability
    ensures NamesACase(capability + "@" + Decimal(major) + "/" + operation + "-answers")
  {
    hide Decimal;
    var number, name := Decimal(major), operation + "-answers";
    var contract := capability + "@" + number;
    DecimalValue(major);
    assert number[0] != '+';
    assert '/' !in number;
    assert capability + "@" + Decimal(major) + "/" + operation + "-answers" == contract + ['/'] + name;
    SplitOnceOf(contract, name, '/');
    assert contract == capability + ['@'] + number;
    SplitOnceOf(capability, number, '@');
  }

  lemma AnswerCase(capability: string, number: string, operation: string, short: string, long: string)
    requires AllDigits(number) && short == UPSTREAM && long == MINTED + ":" + UPSTREAM
    requires ':' !in capability
    requires MARK !in capability && MARK !in operation
    requires Braceless(capability) && Braceless(operation)
    ensures var c := capability + "@" + number + "/" + operation + "-answers";
            MARK !in c && Braceless(c) && !StartsWith(c, short) && !StartsWith(c, long)
  {
    hide StartsWith;
    var contract, name := capability + "@" + number, operation + "-answers";
    var c := capability + "@" + number + "/" + operation + "-answers";
    assert c == contract + ['/'] + name;
    NoColon(contract, name, short, 8);
    NoColon(contract, name, long, 6);
  }

  /** Text with no colon before its slash begins with no prefix that has one and no slash. */
  lemma NoColon(contract: string, name: string, prefix: string, colon: nat)
    requires ':' !in contract
    requires colon < |prefix| && prefix[colon] == ':' && '/' !in prefix
    ensures !StartsWith(contract + ['/'] + name, prefix)
  {
    var whole := contract + ['/'] + name;
    assert whole[|contract|] == '/';
    assert forall i | 0 <= i < |contract| :: whole[i] == contract[i] && contract[i] in contract;
    assert forall i | 0 <= i < |prefix| :: prefix[i] in prefix;
  }

  // --------------------------------------------------- marks, letter by letter

  /** What each placeholder is written as. */
  lemma WrittenMeans(p: Placeholder)
    ensures match p
            case Minted => Written(p) == "{minted}"
            case Certificate => Written(p) == "{certificate}"
            case Pinned => Written(p) == "{certificate:sha256}"
            case Upstream(field) => Written(p) == "{upstream:" + field + "}"
            case MintedUpstream(field) => Written(p) == "{minted:upstream:" + field + "}"
            case Answered(c, pointer) => Written(p) == "{" + c + "#" + pointer + "}"
  {
    match p {
      case Upstream(field) =>
        assert "{" + ("upstream:" + field) + "}" == "{upstream:" + field + "}";
      case MintedUpstream(field) =>
        assert "minted" + ":" + "upstream:" == "minted:upstream:";
        assert "{" + ("minted:upstream:" + field) + "}" == "{minted:upstream:" + field + "}";
      case Answered(c, pointer) =>
        assert "{" + (c + "#" + pointer) + "}" == "{" + c + "#" + pointer + "}";
      case _ =>
    }
  }

  /** A text reads as 32 bits exactly where it is a number below 2 to the 32nd, zeros and one plus
      before it allowed. */
  lemma U32Means(n: nat)
    ensures IsU32(Decimal(n)) <==> n < 4294967296
    ensures IsU32("+" + Decimal(n)) <==> n < 4294967296
  {
    DecimalValue(n);
    assert IsDigit(Decimal(n)[0]);
    assert ("+" + Decimal(n))[1..] == Decimal(n);
  }

  lemma U32Zeros(digits: string)
    requires digits != "" && AllDigits(digits)
    ensures IsU32("0" + digits) <==> IsU32(digits)
    ensures IsU32("+" + digits) <==> IsU32(digits)
  {
    ZeroFirst(digits);
    assert IsDigit(digits[0]);
    assert ("+" + digits)[1..] == digits;
  }

  lemma {:induction false} ZeroFirst(digits: string)
    requires AllDigits(digits)
    ensures AllDigits("0" + digits) && DigitsValue("0" + digits) == DigitsValue(digits)
  {
    var longer := "0" + digits;
    assert forall i | 0 < i < |longer| :: longer[i] == digits[i - 1];
    if digits == "" {
      assert longer[..0] == "" && DigitsValue("") == 0;
    } else {
      ZeroFirst(digits[..|digits| - 1]);
      assert longer[..|longer| - 1] == "0" + digits[..|digits| - 1];
    }
  }

  lemma U32Digits(s: string)
    requires IsU32(s)
    ensures AllDigits(s) || (s[0] == '+' && AllDigits(s[1..]))
    ensures s != "" && s != "+"
  {
  }

  /** Whether `c` is a case of a capability at a major: the capability before the first at sign, and
      both before the first slash. */
  ghost predicate CaseOf(c: string, capability: string, major: string, name: string) {
    && c == capability + "@" + major + "/" + name
    && capability != "" && name != "" && IsU32(major)
    && '@' !in capability && '/' !in capability && '/' !in major
  }

  lemma CaseMeans(c: string)
    ensures NamesACase(c) <==> exists capability, major, name :: CaseOf(c, capability, major, name)
  {
    hide IsU32;
    if NamesACase(c) {
      var (contract, name) := SplitOnce(c, '/').value;
      var (capability, major) := SplitOnce(contract, '@').value;
      assert c == capability + "@" + major + "/" + name;
      assert CaseOf(c, capability, major, name);
    }
    if capability, major, name :| CaseOf(c, capability, major, name) {
      var contract := capability + ['@'] + major;
      assert c == contract + ['/'] + name;
      SplitOnceOf(contract, name, '/');
      SplitOnceOf(capability, major, '@');
    }
  }
}
