/** The shapes of text the rules recognise, said character by character or number by number. */
module Shapes {
  import opened Digits
  import opened Texts
  import opened Recognisers

  // ------------------------------------------------------- pieces of a text

  ghost predicate Filled(words: seq<string>, from: nat) {
    forall i | from <= i < |words| :: words[i] != ""
  }

  /** Whether a text has no separator last and none twice running. */
  predicate Single(s: string, sep: char) {
    s == "" || (s[|s| - 1] != sep && forall i | 0 <= i < |s| - 1 :: !(s[i] == sep && s[i + 1] == sep))
  }

  lemma SingleRest(s: string, sep: char)
    requires s != ""
    ensures Single(s, sep) <==> Single(s[1..], sep) && !(s[0] == sep && (|s| == 1 || s[1] == sep))
  {
    assert forall i | 0 <= i < |s| - 1 :: s[1..][i] == s[i + 1];
    if Single(s[1..], sep) && !(s[0] == sep && (|s| == 1 || s[1] == sep)) {
      forall i | 0 <= i < |s| - 1
        ensures !(s[i] == sep && s[i + 1] == sep)
      {
        if i > 0 {
          assert s[1..][i - 1] == s[i] && s[1..][i] == s[i + 1];
        }
      }
    }
  }

  lemma {:induction false} PiecesFilled(s: string, sep: char)
    ensures Filled(Split(s, sep), 1) <==> Single(s, sep)
    ensures Split(s, sep)[0] == "" <==> s == "" || s[0] == sep
  {
    if s != "" {
      var rest := s[1..];
      var more, all := Split(rest, sep), Split(s, sep);
      PiecesFilled(rest, sep);
      SingleRest(s, sep);
      if s[0] == sep {
        assert all == [[]] + more;
        assert Filled(all, 1) ==> forall i | 0 <= i < |more| :: all[i + 1] == more[i] && more[i] != "";
        assert Filled(more, 0) <==> more[0] != "" && Filled(more, 1);
        assert Filled(all, 1) <==> Filled(more, 0);
      } else {
        assert forall i | 1 <= i < |more| :: all[i] == more[i];
        assert |all| == |more|;
      }
    }
  }

  /** What the pieces are made of is what the text is, its separators apart. */
  lemma {:induction false} PiecesHold(s: string, sep: char, c: char)
    ensures (exists word :: word in Split(s, sep) && c in word) <==> c in s && c != sep
  {
    if s != "" {
      var more := Split(s[1..], sep);
      PiecesHold(s[1..], sep, c);
      var all := Split(s, sep);
      assert s == [s[0]] + s[1..];
      if word :| word in more && c in word {
        if s[0] == sep {
          assert word in all;
        } else {
          var i :| 0 <= i < |more| && more[i] == word;
          assert c in all[i] && all[i] in all;
        }
      }
      if s[0] == c && c != sep {
        assert c in all[0] && all[0] in all;
      }
      if word :| word in all && c in word {
        var i :| 0 <= i < |all| && all[i] == word;
        if s[0] == sep {
          assert i > 0 && word == more[i - 1];
        } else if i == 0 {
          assert more[0] in more;
        } else {
          assert word == more[i];
        }
      }
    }
  }

  // ------------------------------------------------------- ids

  /** An id's characters are small letters, digits and single hyphens, a letter first and no hyphen
      last. */
  predicate IdShape(text: string) {
    && text != "" && 'a' <= text[0] <= 'z' && text[|text| - 1] != '-'
    && (forall c | c in text :: 'a' <= c <= 'z' || '0' <= c <= '9' || c == '-')
    && (forall i | 0 <= i < |text| - 1 :: !(text[i] == '-' && text[i + 1] == '-'))
  }

  lemma IdMeans(text: string)
    ensures IsId(text) <==> IdShape(text)
  {
    var words := Split(text, '-');
    PiecesFilled(text, '-');
    forall c
      ensures (exists word :: word in words && c in word) <==> c in text && c != '-'
    {
      PiecesHold(text, '-', c);
    }
    hide Split;
    assert Filled(words, 0) <==> words[0] != "" && Filled(words, 1);
    assert Filled(words, 0) <==> forall word | word in words :: word != "" by {
      if forall word | word in words :: word != "" {
        assert forall i | 0 <= i < |words| :: words[i] in words;
      }
    }
    hide Filled;
    assert (forall word | word in words :: forall c | c in word :: IsLower(c) || IsDigit(c))
      <==> forall c | c in text :: IsLower(c) || IsDigit(c) || c == '-' by {
      if forall c | c in text :: IsLower(c) || IsDigit(c) || c == '-' {
        forall word, c | word in words && c in word
          ensures IsLower(c) || IsDigit(c)
        {
          assert c in text && c != '-';
        }
      }
    }
  }

  // ------------------------------------------------------- releases

  /** Three numbers, written the shortest way and joined by dots. */
  ghost predicate ReleaseShape(text: string) {
    exists major: nat, minor: nat, patch: nat :: Numbered(text, major, minor, patch)
  }

  predicate Numbered(text: string, major: nat, minor: nat, patch: nat) {
    text == Decimal(major) + ['.'] + (Decimal(minor) + ['.'] + Decimal(patch))
  }

  predicate Shortest(part: string) {
    part != "" && AllDigits(part) && (part == "0" || part[0] != '0')
  }

  lemma {:induction false} ShortestIsDecimal(part: string)
    requires Shortest(part)
    ensures Decimal(DigitsValue(part)) == part
  {
    var init, digit := part[..|part| - 1], part[|part| - 1];
    assert part == init + [digit] && IsDigit(digit);
    if init == "" {
      assert DigitsValue(init) == 0;
      assert part == [digit];
    } else {
      assert init[0] == part[0] != '0';
      ShortestIsDecimal(init);
      assert IsDigit(init[0]);
      PositiveValue(init);
      assert DigitsValue(part) / 10 == DigitsValue(init);
    }
  }

  lemma {:induction false} PositiveValue(part: string)
    requires part != "" && AllDigits(part) && part[0] != '0'
    ensures DigitsValue(part) > 0
  {
    if |part| > 1 {
      PositiveValue(part[..|part| - 1]);
    } else {
      assert part[..0] == "";
    }
  }

  lemma {:induction false} DecimalShortest(n: nat)
    ensures Shortest(Decimal(n)) && (n > 0 ==> Decimal(n)[0] != '0')
  {
    if n >= 10 {
      DecimalShortest(n / 10);
      assert Decimal(n)[0] == Decimal(n / 10)[0];
    }
  }

  lemma ReleaseMeans(text: string)
    ensures IsRelease(text) <==> ReleaseShape(text)
  {
    if IsRelease(text) {
      var parts := Split(text, '.');
      assert parts[0] in parts && parts[1] in parts && parts[2] in parts;
      ShortestIsDecimal(parts[0]);
      ShortestIsDecimal(parts[1]);
      ShortestIsDecimal(parts[2]);
      JoinOfSplit(text, '.');
      hide Decimal, DigitsValue, Split;
      assert parts[1..][1..] == [parts[2]] && parts[1..] == [parts[1], parts[2]];
      assert Join(parts[1..], '.') == parts[1] + ['.'] + parts[2];
      assert text == parts[0] + ['.'] + (parts[1] + ['.'] + parts[2]);
      assert Numbered(text, DigitsValue(parts[0]), DigitsValue(parts[1]), DigitsValue(parts[2]));
    }
    if major: nat, minor: nat, patch: nat :| Numbered(text, major, minor, patch) {
      DecimalShortest(major);
      DecimalShortest(minor);
      DecimalShortest(patch);
      ThreeParts(Decimal(major), Decimal(minor), Decimal(patch), '.');
      hide Decimal, Split;
    }
  }

  lemma ThreeParts(a: string, b: string, c: string, sep: char)
    requires sep !in a && sep !in b && sep !in c
    ensures Split(a + [sep] + (b + [sep] + c), sep) == [a, b, c]
  {
    hide Split;
    SplitOfFree(a, sep);
    SplitOfFree(b, sep);
    SplitOfFree(c, sep);
    SplitOfConcat(b, c, sep);
    SplitOfConcat(a, b + [sep] + c, sep);
  }

  // ------------------------------------------------------- hexadecimal

  predicate HexShape(text: string, digits: nat) {
    |text| == digits && forall c | c in text :: c in "0123456789abcdef"
  }

  lemma HexMeans(text: string, digits: nat)
    ensures IsHex(text, digits) <==> HexShape(text, digits)
  {
    var all := "0123456789abcdef";
    assert forall c :: c in all <==> exists i :: 0 <= i < 16 && all[i] == c;
    assert forall i | 0 <= i < 10 :: all[i] as int == '0' as int + i;
    assert forall i | 10 <= i < 16 :: all[i] as int == 'a' as int + i - 10;
    forall c
      ensures c in all <==> '0' <= c <= '9' || 'a' <= c <= 'f'
    {
      if '0' <= c <= '9' {
        assert all[c as int - '0' as int] == c;
      }
      if 'a' <= c <= 'f' {
        assert all[c as int - 'a' as int + 10] == c;
      }
    }
  }

  ghost predicate DigestShape(text: string) {
    exists sum :: HexShape(sum, 64) && text == "sha256:" + sum
  }

  lemma DigestMeans(text: string)
    ensures IsDigest(text) <==> DigestShape(text)
  {
    if IsDigest(text) {
      HexMeans(text[7..], 64);
      assert text == "sha256:" + text[7..];
    }
    if sum :| HexShape(sum, 64) && text == "sha256:" + sum {
      HexMeans(sum, 64);
      assert text[7..] == sum;
    }
  }

  ghost predicate CommitShape(text: string) {
    exists commit :: HexShape(commit, 12) && text == "main-" + commit
  }

  lemma CommitMeans(text: string)
    ensures IsCommitImage(text) <==> CommitShape(text)
  {
    if IsCommitImage(text) {
      HexMeans(text[5..], 12);
      assert text == "main-" + text[5..];
    }
    if commit :| HexShape(commit, 12) && text == "main-" + commit {
      HexMeans(commit, 12);
      assert text[5..] == commit;
    }
  }

  // ------------------------------------------------------- days

  predicate Two(a: char, b: char, least: nat, most: nat) {
    '0' <= a <= '9' && '0' <= b <= '9'
    && least <= (a as int - '0' as int) * 10 + (b as int - '0' as int) <= most
  }

  /** Ten characters: four digits, a hyphen, a month of two, a hyphen, and a day of two. */
  predicate DayShape(text: string) {
    && |text| == 10 && text[4] == '-' && text[7] == '-'
    && (forall i | 0 <= i < 4 :: '0' <= text[i] <= '9')
    && Two(text[5], text[6], 1, 12)
    && Two(text[8], text[9], 1, 31)
  }

  lemma TwoDigits(text: string)
    requires |text| == 2 && AllDigits(text)
    ensures DigitsValue(text) == (text[0] as int - '0' as int) * 10 + (text[1] as int - '0' as int)
  {
    assert text[..1][..0] == "" && DigitsValue("") == 0;
    assert DigitsValue(text[..1]) == text[0] as int - '0' as int;
  }

  lemma DayMeans(text: string)
    ensures IsDay(text) <==> DayShape(text)
  {
    hide Split, DigitsValue;
    if IsDay(text) {
      var parts := Split(text, '-');
      JoinOfSplit(text, '-');
      assert parts[1..][1..] == [parts[2]] && parts[1..] == [parts[1], parts[2]];
      assert Join(parts[1..], '-') == parts[1] + ['-'] + parts[2];
      assert text == parts[0] + ['-'] + (parts[1] + ['-'] + parts[2]);
      TwoDigits(parts[1]);
      TwoDigits(parts[2]);
    }
    if DayShape(text) {
      var year, month, day := text[..4], text[5..7], text[8..];
      assert text == year + ['-'] + (month + ['-'] + day);
      ThreeParts(year, month, day, '-');
      TwoDigits(month);
      TwoDigits(day);
    }
  }
}
