/** What becomes of each commit and each section of a changelog, read off the commits themselves. */
module ChangelogReads {
  import opened Outcomes
  import opened Digits
  import ReleaseRecord
  import opened Changelog

  // ------------------------------------------------------- pre-releases

  predicate Numeral(text: string) {
    text != "" && forall c | c in text :: '0' <= c <= '9'
  }

  /** A tag that is `v`, three numerals with dots between, a dash, and whatever follows. */
  ghost predicate PreRelease(tag: string) {
    exists a, b, c, rest :: Numeral(a) && Numeral(b) && Numeral(c)
                            && tag == "v" + a + "." + b + "." + c + "-" + rest
  }

  lemma {:induction false} DigitsFirst(s: string)
    returns (digits: string, rest: string)
    requires AfterDigits(s).Some?
    ensures Numeral(digits) && s == digits + rest && rest == AfterDigits(s).value
    ensures rest == [] || !IsDigit(rest[0])
  {
    if AfterDigits(s[1..]).None? {
      digits, rest := [s[0]], s[1..];
    } else {
      digits, rest := DigitsFirst(s[1..]);
      digits := [s[0]] + digits;
      assert s == [s[0]] + s[1..];
    }
  }

  lemma {:induction false} DigitsPast(digits: string, mark: char, rest: string)
    requires Numeral(digits) && !IsDigit(mark)
    ensures AfterPart(digits + [mark] + rest, mark) == Some(rest)
  {
    var s := digits + [mark] + rest;
    AfterAll(digits, [mark] + rest);
    assert s == digits + ([mark] + rest);
  }

  lemma {:induction false} AfterAll(digits: string, rest: string)
    requires Numeral(digits) && (rest == [] || !IsDigit(rest[0]))
    ensures AfterDigits(digits + rest) == Some(rest)
  {
    var s := digits + rest;
    assert digits[0] in digits && s[1..] == digits[1..] + rest;
    assert forall c | c in digits[1..] :: c in digits;
    if |digits| > 1 {
      AfterAll(digits[1..], rest);
    } else {
      assert digits[1..] + rest == rest;
    }
  }

  lemma PartFirst(s: string, mark: char) returns (digits: string)
    requires AfterPart(s, mark).Some?
    ensures Numeral(digits) && s == digits + [mark] + AfterPart(s, mark).value
  {
    var rest;
    digits, rest := DigitsFirst(s);
    assert rest == [mark] + rest[1..];
  }

  /** The tags set aside are just those. */
  lemma AheadMeans(tag: string)
    ensures IsAhead(tag) <==> PreRelease(tag)
  {
    if IsAhead(tag) {
      hide AfterPart;
      var one := tag[1..];
      var two := AfterPart(one, '.').value;
      var three := AfterPart(two, '.').value;
      var rest := AfterPart(three, '-').value;
      var a := PartFirst(one, '.');
      var b := PartFirst(two, '.');
      var c := PartFirst(three, '-');
      TagSpelt(a, b, c, rest);
      assert tag == ['v'] + one;
    }
    if a, b, c, rest :| Numeral(a) && Numeral(b) && Numeral(c) && tag == "v" + a + "." + b + "." + c + "-" + rest {
      hide AfterPart;
      TagSpelt(a, b, c, rest);
      var three := c + ['-'] + rest;
      var two := b + ['.'] + three;
      var one := a + ['.'] + two;
      assert tag[1..] == one;
      DigitsPast(a, '.', two);
      DigitsPast(b, '.', three);
      DigitsPast(c, '-', rest);
    }
  }

  lemma TagSpelt(a: string, b: string, c: string, rest: string)
    ensures ['v'] + (a + ['.'] + (b + ['.'] + (c + ['-'] + rest))) == "v" + a + "." + b + "." + c + "-" + rest
  {
  }

  // ------------------------------------------------------- sections

  /** Whether the pre-releases that follow section `i`, older and older, end before `j`. */
  predicate RunFrom(context: seq<Section>, i: nat, j: nat) {
    && i < j <= |context|
    && (forall k | i < k < j :: Ahead(context[k]))
    && (j < |context| ==> !Ahead(context[j]))
  }

  /** How many sections stay of those before `i`, one made to hold a first pre-release among them. */
  function Staying(context: seq<Section>, i: nat): nat
    requires i <= |context|
  {
    if i == 0 then (if context != [] && Ahead(context[0]) then 1 else 0)
    else Staying(context, i - 1) + if Ahead(context[i - 1]) then 0 else 1
  }

  lemma {:induction false} FoldedSize(context: seq<Section>, n: nat)
    requires n <= |context| && n > 0
    ensures |Folded(context[..n])| == Staying(context, n)
  {
    hide IsAhead;
    assert context[..n][..n - 1] == context[..n - 1];
    if n == 1 {
      assert context[..0] == [];
      assert Folded(context[..0]) == [];
    } else {
      FoldedSize(context, n - 1);
    }
  }

  lemma {:induction false} RunTaken(context: seq<Section>, i: nat, n: nat)
    requires i < n <= |context| && !Ahead(context[i])
    requires forall k | i < k < n :: Ahead(context[k])
    ensures |Folded(context[..n])| == Staying(context, i) + 1
    ensures Folded(context[..n])[Staying(context, i)] == Section(context[i].version, OldestFirst(context[i..n]))
  {
    hide IsAhead;
    assert context[..n][..n - 1] == context[..n - 1];
    if n == i + 1 {
      if i > 0 {
        FoldedSize(context, i);
      } else {
        assert Folded(context[..0]) == [];
      }
      assert context[i..n] == [context[i]];
      assert [context[i]][..0] == [] && OldestFirst([]) == [];
      assert OldestFirst([context[i]]) == context[i].commits + [];
    } else {
      RunTaken(context, i, n - 1);
      assert context[i..n][..n - i - 1] == context[i..n - 1];
    }
  }

  /** Folding more sections leaves all but the last that stayed as they were. */
  lemma {:induction false} EarlierKept(context: seq<Section>, n: nat, m: nat, p: nat)
    requires n <= m <= |context|
    requires p < |Folded(context[..n])| && (p < |Folded(context[..n])| - 1 || (n < |context| && !Ahead(context[n])))
    ensures p < |Folded(context[..m])| && Folded(context[..m])[p] == Folded(context[..n])[p]
    ensures m > n ==> p < |Folded(context[..m])| - 1
  {
    hide IsAhead;
    if m > n {
      assert context[..m][..m - 1] == context[..m - 1];
      EarlierKept(context, n, m - 1, p);
    }
  }

  /** A section that is no pre-release stays, at its place among those that do, with the commits of the
      pre-releases that follow it before its own, oldest first. */
  lemma SectionTakes(context: seq<Section>, i: nat, j: nat)
    requires RunFrom(context, i, j) && !Ahead(context[i])
    ensures Staying(context, i) < |Folded(context)|
    ensures Folded(context)[Staying(context, i)] == Section(context[i].version, OldestFirst(context[i..j]))
  {
    hide IsAhead, Folded, OldestFirst, Staying;
    RunTaken(context, i, j);
    if j < |context| {
      EarlierKept(context, j, |context|, Staying(context, i));
    }
    assert context[..|context|] == context;
  }

  // ------------------------------------------------------- groups

  predicate OfGroup(commit: Commit, title: string) {
    commit.said != ""
    && if commit.cites == [] then title == "Maintenance"
       else if commit.kind == "Features" then title == "New"
       else if commit.kind == "Fixes" then title == "Fixed"
       else if commit.kind == "Performance" then title == "Faster"
       else title == "Maintenance"
  }

  function Of(commits: seq<Commit>, title: string): set<nat> {
    set i | 0 <= i < |commits| && OfGroup(commits[i], title)
  }

  lemma OfGroupMeans(commit: Commit, title: string)
    ensures OfGroup(commit, title) <==> commit.said != "" && SpokenGroup(commit) == title
  {
  }

  lemma OfMore(commits: seq<Commit>, title: string)
    requires commits != []
    ensures var init, last := commits[..|commits| - 1], commits[|commits| - 1];
            |Of(commits, title)| == |Of(init, title)| + if OfGroup(last, title) then 1 else 0
  {
    hide OfGroup;
    var init, last := commits[..|commits| - 1], commits[|commits| - 1];
    assert Of(commits, title) == Of(init, title) + if OfGroup(last, title) then {|init|} else {};
  }

  /** Whether the `i`th commit is at its turn among the entries of a group. */
  ghost predicate AtTurn(commits: seq<Commit>, title: string, entries: seq<ReleaseRecord.Entry>, i: nat)
    requires i < |commits|
  {
    var turn := |Of(commits[..i], title)|;
    turn < |entries| && entries[turn] == ReleaseRecord.Entry(commits[i].said, commits[i].reference, commits[i].cites)
  }

  lemma {:induction false} UnderMeans(commits: seq<Commit>, title: string)
    ensures |Under(commits, title)| == |Of(commits, title)|
    ensures forall i | 0 <= i < |commits| && OfGroup(commits[i], title) ::
              AtTurn(commits, title, Under(commits, title), i)
  {
    hide SpokenGroup, Of, OfGroup;
    if commits == [] {
      NoneOf(title);
    } else {
      var init, last := commits[..|commits| - 1], commits[|commits| - 1];
      UnderMeans(init, title);
      OfGroupMeans(last, title);
      OfMore(commits, title);
      forall i | 0 <= i < |commits| && OfGroup(commits[i], title)
        ensures AtTurn(commits, title, Under(commits, title), i)
      {
        if i < |init| {
          assert init[i] == commits[i] && init[..i] == commits[..i];
          assert AtTurn(init, title, Under(init, title), i);
        } else {
          assert commits[..i] == init;
        }
      }
    }
  }

  lemma NoneOf(title: string)
    ensures Of([], title) == {}
  {
  }

  /** Whether `g` is the group of a title: what belongs to it, each at its turn, and nothing more. */
  ghost predicate GroupOf(commits: seq<Commit>, title: string, g: ReleaseRecord.Group) {
    && g.title == title && |g.entries| == |Of(commits, title)| && g.entries != []
    && forall i | 0 <= i < |commits| && OfGroup(commits[i], title) :: AtTurn(commits, title, g.entries, i)
  }

  /** Where a title comes among the groups. */
  function Rank(title: string): nat {
    match title
    case "New" => 0
    case "Fixed" => 1
    case "Faster" => 2
    case _ => 3
  }

  /** The groups are those of the four titles that have any entry, in the order of the titles. */
  lemma GroupsMean(commits: seq<Commit>)
    ensures forall g | g in Grouped(commits) ::
              g.title in {"New", "Fixed", "Faster", "Maintenance"} && GroupOf(commits, g.title, g)
    ensures forall a, b | 0 <= a < b < |Grouped(commits)| ::
              Rank(Grouped(commits)[a].title) < Rank(Grouped(commits)[b].title)
    ensures forall title | title in {"New", "Fixed", "Faster", "Maintenance"} && Of(commits, title) != {} ::
              exists g :: g in Grouped(commits) && g.title == title
  {
    OrderDistinct();
    TitledMeans(commits, ORDER);
    TitledRanks(commits, ORDER);
    assert ORDER[0] == "New" && ORDER[1] == "Fixed" && ORDER[2] == "Faster" && ORDER[3] == "Maintenance";
    forall title
      ensures |Under(commits, title)| == |Of(commits, title)|
      ensures Under(commits, title) != [] ==> GroupOf(commits, title, ReleaseRecord.Group(title, Under(commits, title)))
    {
      UnderMeans(commits, title);
    }
    hide Under, Of, GroupOf, Titled, Rank;
    forall title | title in {"New", "Fixed", "Faster", "Maintenance"} && Of(commits, title) != {}
      ensures exists g :: g in Grouped(commits) && g.title == title
    {
      assert ReleaseRecord.Group(title, Under(commits, title)) in Grouped(commits);
    }
  }

  lemma {:induction false} TitledRanks(commits: seq<Commit>, titles: seq<string>)
    requires forall i, j | 0 <= i < j < |titles| :: Rank(titles[i]) < Rank(titles[j])
    ensures forall a, b | 0 <= a < b < |Titled(commits, titles)| ::
              Rank(Titled(commits, titles)[a].title) < Rank(Titled(commits, titles)[b].title)
    ensures forall g | g in Titled(commits, titles) :: g.title in titles
  {
    hide Under, Rank;
    if titles != [] {
      var rest, last := titles[..|titles| - 1], titles[|titles| - 1];
      assert titles == rest + [last];
      TitledRanks(commits, rest);
      forall g | g in Titled(commits, rest)
        ensures Rank(g.title) < Rank(last)
      {
        var i :| 0 <= i < |rest| && rest[i] == g.title;
        assert titles[i] == g.title;
      }
    }
  }
}
