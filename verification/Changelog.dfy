/** From the commits of each tag to a release's groups: pre-releases folded into the release they
    precede, and every entry put under the group its citations decide. */
module Changelog {
  import opened Outcomes
  import opened Digits
  import opened ReleaseRecord

  /** A commit as the record reads it: its sentence, its review, what it cites, and the name of
      its conventional group with the ordering mark taken off. */
  datatype Commit = Commit(said: string, reference: Option<string>, cites: seq<string>, kind: string)

  datatype Section = Section(version: Option<string>, commits: seq<Commit>)

  // ------------------------------------------------------- pre-releases

  /** What follows the digits `s` begins with, where it begins with any. */
  function AfterDigits(s: string): Option<string> {
    if s == [] || !IsDigit(s[0]) then None
    else
      match AfterDigits(s[1..])
      case None => Some(s[1..])
      case Some(rest) => Some(rest)
  }

  /** What follows the digits and `mark` that `s` begins with. */
  function AfterPart(s: string, mark: char): Option<string> {
    match AfterDigits(s)
    case None => None
    case Some(rest) => if rest != [] && rest[0] == mark then Some(rest[1..]) else None
  }

  /** A pre-release tag: `v`, three numbers, and a dash. */
  predicate IsAhead(tag: string) {
    && tag != [] && tag[0] == 'v'
    && (var major := AfterPart(tag[1..], '.');
        major.Some?
        && (var minor := AfterPart(major.value, '.');
            minor.Some? && AfterPart(minor.value, '-').Some?))
  }

  predicate Ahead(section: Section) {
    section.version.Some? && IsAhead(section.version.value)
  }

  /** `kept` with the pre-release `section` merged into the section last kept. */
  function Merged(kept: seq<Section>, section: Section): seq<Section> {
    var held := if kept == [] then [Section(None, [])] else kept;
    var newer := held[|held| - 1];
    held[|held| - 1 := newer.(commits := section.commits + newer.commits)]
  }

  function Folded(context: seq<Section>): seq<Section> {
    if context == [] then []
    else
      var kept, section := Folded(context[..|context| - 1]), context[|context| - 1];
      if Ahead(section) then Merged(kept, section) else kept + [section]
  }

  /** `folded`: one pass over the sections, newest first. */
  method Fold(context: seq<Section>) returns (kept: seq<Section>)
    ensures kept == Folded(context)
  {
    kept := [];
    for i := 0 to |context|
      invariant kept == Folded(context[..i])
    {
      var section := context[i];
      assert context[..i + 1][..i] == context[..i];
      if !Ahead(section) {
        kept := kept + [section];
      } else {
        if kept == [] {
          kept := kept + [Section(None, [])];
        }
        var newer := kept[|kept| - 1];
        newer := newer.(commits := section.commits + newer.commits);
        kept := kept[|kept| - 1 := newer];
      }
    }
    assert context[..|context|] == context;
  }

  /** Every commit of `sections`, oldest first: the sections arrive newest first. */
  function OldestFirst(sections: seq<Section>): seq<Commit> {
    if sections == [] then []
    else sections[|sections| - 1].commits + OldestFirst(sections[..|sections| - 1])
  }

  /** The versions of the sections that are not pre-releases. */
  function Tagged(sections: seq<Section>): seq<Option<string>> {
    if sections == [] then []
    else
      var rest, last := Tagged(sections[..|sections| - 1]), sections[|sections| - 1];
      if Ahead(last) then rest else rest + [last.version]
  }

  lemma MergedKeeps(kept: seq<Section>, section: Section)
    ensures OldestFirst(Merged(kept, section)) == section.commits + OldestFirst(kept)
    ensures (forall one | one in kept :: !Ahead(one)) ==> forall one | one in Merged(kept, section) :: !Ahead(one)
    ensures Tagged(Merged(kept, section)) == if kept == [] then [None] else Tagged(kept)
    ensures Merged(kept, section) != []
  {
    hide IsAhead;
    var held := if kept == [] then [Section(None, [])] else kept;
    var merged := Merged(kept, section);
    assert merged[..|merged| - 1] == held[..|held| - 1];
  }

  /** Folding loses no commit, moves none and doubles none. */
  lemma {:induction false} FoldedConserves(context: seq<Section>)
    ensures OldestFirst(Folded(context)) == OldestFirst(context)
  {
    if context != [] {
      var kept, section := Folded(context[..|context| - 1]), context[|context| - 1];
      FoldedConserves(context[..|context| - 1]);
      MergedKeeps(kept, section);
      assert (kept + [section])[..|kept|] == kept;
    }
  }

  /** No pre-release section is left. */
  lemma {:induction false} FoldedLeavesNone(context: seq<Section>)
    ensures forall one | one in Folded(context) :: !Ahead(one)
    ensures context != [] ==> Folded(context) != []
  {
    hide IsAhead, Merged;
    if context != [] {
      FoldedLeavesNone(context[..|context| - 1]);
      MergedKeeps(Folded(context[..|context| - 1]), context[|context| - 1]);
    }
  }

  /** The section made to hold a pre-release that came with nothing newer. */
  function MadeFor(context: seq<Section>): seq<Option<string>> {
    if context != [] && Ahead(context[0]) then [None] else []
  }

  /** Every other section keeps its place; one is made only where a pre-release came with nothing
      newer to hold it. */
  lemma {:induction false} FoldedSections(context: seq<Section>)
    ensures Tagged(Folded(context)) == MadeFor(context) + Tagged(context)
  {
    hide Ahead, Merged, Folded, Tagged;
    FoldedPush(context);
    if context != [] {
      var init, section := context[..|context| - 1], context[|context| - 1];
      FoldedSections(init);
      FoldedSectionsStep(init, section);
      assert init + [section] == context;
    }
  }

  lemma FoldedSectionsStep(init: seq<Section>, section: Section)
    requires Tagged(Folded(init)) == MadeFor(init) + Tagged(init)
    ensures Tagged(Folded(init + [section])) == MadeFor(init + [section]) + Tagged(init + [section])
  {
    hide IsAhead, Merged, Folded, Tagged;
    var context := init + [section];
    assert context[..|context| - 1] == init;
    FoldedPush(context);
    FoldedPush(init);
    FoldedLeavesNone(init);
    MergedKeeps(Folded(init), section);
    TaggedPush(init, section);
    TaggedPush(Folded(init), section);
    assert MadeFor(context) == if init == [] && Ahead(section) then [None] else MadeFor(init);
  }

  lemma FoldedPush(context: seq<Section>)
    ensures context == [] ==> Folded(context) == [] && Tagged(context) == []
    ensures context != [] ==>
              var kept, section := Folded(context[..|context| - 1]), context[|context| - 1];
              Folded(context) == if Ahead(section) then Merged(kept, section) else kept + [section]
  {
    hide Ahead, Merged;
  }

  lemma TaggedPush(sections: seq<Section>, section: Section)
    ensures Tagged(sections + [section])
            == if Ahead(section) then Tagged(sections) else Tagged(sections) + [section.version]
    ensures sections == [] ==> Tagged(sections) == []
  {
    hide Ahead;
    assert (sections + [section])[..|sections|] == sections;
  }

  // ------------------------------------------------------------- groups

  const MAINTENANCE := "Maintenance"

  const ORDER := ["New", "Fixed", "Faster", MAINTENANCE]

  /** The group a conventional one is offered as, and maintenance for any other. */
  function Spoken(kind: string): string {
    match kind
    case "Features" => "New"
    case "Fixes" => "Fixed"
    case "Performance" => "Faster"
    case _ => MAINTENANCE
  }

  /** `spoken_group`: an entry that cites nothing is maintenance, however it was typed. */
  function SpokenGroup(commit: Commit): string {
    if commit.cites == [] then MAINTENANCE else Spoken(commit.kind)
  }

  function EntryOf(commit: Commit): Entry {
    Entry(commit.said, commit.reference, commit.cites)
  }

  /** The entries of the commits that belong under `title`, in the order the commits come. */
  function Under(commits: seq<Commit>, title: string): seq<Entry> {
    if commits == [] then []
    else
      var rest, last := Under(commits[..|commits| - 1], title), commits[|commits| - 1];
      if last.said != "" && SpokenGroup(last) == title then rest + [EntryOf(last)] else rest
  }

  function Titled(commits: seq<Commit>, titles: seq<string>): seq<Group> {
    if titles == [] then []
    else
      var rest, last := Titled(commits, titles[..|titles| - 1]), titles[|titles| - 1];
      if Under(commits, last) == [] then rest else rest + [Group(last, Under(commits, last))]
  }

  /** A release's groups: those with any entry, in the order they matter in. */
  function Grouped(commits: seq<Commit>): seq<Group> {
    Titled(commits, ORDER)
  }

  /** `grouped`: gathers each commit under its title, then lists the titles that have any. */
  method GroupAll(commits: seq<Commit>) returns (groups: seq<Group>)
    ensures groups == Grouped(commits)
  {
    var gathered := Gather(commits);
    groups := [];
    for i := 0 to |ORDER|
      invariant groups == Titled(commits, ORDER[..i])
    {
      assert ORDER[..i + 1][..i] == ORDER[..i];
      if ORDER[i] in gathered {
        groups := groups + [Group(ORDER[i], gathered[ORDER[i]])];
      }
    }
    assert ORDER[..|ORDER|] == ORDER;
  }

  method Gather(commits: seq<Commit>) returns (gathered: map<string, seq<Entry>>)
    ensures forall title :: title in gathered <==> Under(commits, title) != []
    ensures forall title | title in gathered :: gathered[title] == Under(commits, title)
  {
    hide SpokenGroup;
    gathered := map[];
    for i := 0 to |commits|
      invariant forall title :: title in gathered <==> Under(commits[..i], title) != []
      invariant forall title | title in gathered :: gathered[title] == Under(commits[..i], title)
    {
      var commit := commits[i];
      assert commits[..i + 1][..i] == commits[..i];
      if commit.said != "" {
        var title := SpokenGroup(commit);
        var held := if title in gathered then gathered[title] else [];
        gathered := gathered[title := held + [EntryOf(commit)]];
      }
    }
    assert commits[..|commits|] == commits;
  }

  lemma SpokenInOrder(commit: Commit)
    ensures SpokenGroup(commit) in ORDER
    ensures SpokenGroup(commit) != MAINTENANCE
            <==> commit.cites != [] && commit.kind in ["Features", "Fixes", "Performance"]
  {
    assert ORDER[0] == "New" && ORDER[1] == "Fixed" && ORDER[2] == "Faster" && ORDER[3] == MAINTENANCE;
    assert ["Features", "Fixes", "Performance"][0] == "Features";
    assert ["Features", "Fixes", "Performance"][1] == "Fixes";
    assert ["Features", "Fixes", "Performance"][2] == "Performance";
  }

  /** Each listed group is one of `titles`, no two alike, with what belongs under it and not empty. */
  lemma {:induction false} TitledMeans(commits: seq<Commit>, titles: seq<string>)
    requires forall i, j | 0 <= i < j < |titles| :: titles[i] != titles[j]
    ensures forall g | g in Titled(commits, titles) ::
              g.title in titles && g.entries == Under(commits, g.title) && g.entries != []
    ensures forall i, j | 0 <= i < j < |Titled(commits, titles)| ::
              Titled(commits, titles)[i].title != Titled(commits, titles)[j].title
    ensures forall title | title in titles && Under(commits, title) != [] ::
              Group(title, Under(commits, title)) in Titled(commits, titles)
  {
    hide Under;
    if titles != [] {
      var rest, last := titles[..|titles| - 1], titles[|titles| - 1];
      TitledMeans(commits, rest);
      assert forall i | 0 <= i < |rest| :: rest[i] == titles[i] && rest[i] != last;
      assert forall title :: title in titles <==> title in rest || title == last;
    }
  }

  lemma OrderDistinct()
    ensures forall i, j | 0 <= i < j < |ORDER| :: ORDER[i] != ORDER[j]
  {
    assert ORDER[0][0] == 'N' && ORDER[3][0] == 'M' && ORDER[1][1] == 'i' && ORDER[2][1] == 'a';
  }

  lemma {:induction false} UnderHolds(commits: seq<Commit>, title: string, i: nat)
    requires i < |commits|
    requires commits[i].said != "" && SpokenGroup(commits[i]) == title
    ensures |Under(commits[..i], title)| < |Under(commits, title)|
    ensures Under(commits, title)[|Under(commits[..i], title)|] == EntryOf(commits[i])
  {
    hide SpokenGroup;
    if i < |commits| - 1 {
      UnderHolds(commits[..|commits| - 1], title, i);
      assert commits[..|commits| - 1][..i] == commits[..i];
    }
  }

  /** Every commit that says anything is in exactly one group, at the place its turn gives it. */
  lemma EveryCommitPlaced(commits: seq<Commit>, i: nat)
    requires i < |commits|
    requires commits[i].said != ""
    ensures exists g :: g in Grouped(commits)
              && g.title == SpokenGroup(commits[i])
              && |Under(commits[..i], g.title)| < |g.entries|
              && g.entries[|Under(commits[..i], g.title)|] == EntryOf(commits[i])
    ensures forall a, b | 0 <= a < b < |Grouped(commits)| :: Grouped(commits)[a].title != Grouped(commits)[b].title
  {
    hide SpokenGroup, Under, Titled;
    var title := SpokenGroup(commits[i]);
    OrderDistinct();
    TitledMeans(commits, ORDER);
    SpokenInOrder(commits[i]);
    UnderHolds(commits, title, i);
    assert Group(title, Under(commits, title)) in Grouped(commits);
  }

  function Count(groups: seq<Group>): nat {
    if groups == [] then 0 else Count(groups[..|groups| - 1]) + |groups[|groups| - 1].entries|
  }

  function Saying(commits: seq<Commit>): nat {
    if commits == [] then 0
    else Saying(commits[..|commits| - 1]) + if commits[|commits| - 1].said != "" then 1 else 0
  }

  lemma CountTitled(commits: seq<Commit>)
    ensures Count(Grouped(commits))
            == |Under(commits, "New")| + |Under(commits, "Fixed")| + |Under(commits, "Faster")|
               + |Under(commits, MAINTENANCE)|
  {
    CountStep(commits, [], "New");
    CountStep(commits, ["New"], "Fixed");
    CountStep(commits, ["New", "Fixed"], "Faster");
    CountStep(commits, ["New", "Fixed", "Faster"], MAINTENANCE);
    assert Count(Titled(commits, [])) == 0;
    assert ["New"] + ["Fixed"] == ["New", "Fixed"];
    assert ["New", "Fixed"] + ["Faster"] == ["New", "Fixed", "Faster"];
    assert ["New", "Fixed", "Faster"] + [MAINTENANCE] == ORDER;
    assert [] + ["New"] == ["New"];
  }

  lemma CountStep(commits: seq<Commit>, titles: seq<string>, last: string)
    ensures Count(Titled(commits, titles + [last])) == Count(Titled(commits, titles)) + |Under(commits, last)|
  {
    hide Under;
    var rest := Titled(commits, titles);
    assert (titles + [last])[..|titles|] == titles;
    assert (rest + [Group(last, Under(commits, last))])[..|rest|] == rest;
  }

  /** As many entries are listed as there are commits that say anything: none is listed twice. */
  lemma {:induction false} GroupedConserves(commits: seq<Commit>)
    ensures Count(Grouped(commits)) == Saying(commits)
  {
    CountTitled(commits);
    if commits != [] {
      var init, last := commits[..|commits| - 1], commits[|commits| - 1];
      GroupedConserves(init);
      CountTitled(init);
      SpokenInOrder(last);
      assert "New" != "Fixed" && "New" != "Faster" && "New" != MAINTENANCE;
      assert "Fixed"[1] != "Faster"[1] && "Fixed" != MAINTENANCE && "Faster" != MAINTENANCE;
    }
  }

  /** A release is one an operator would notice exactly when some entry of it cites a requirement
      under a group that is offered to them. */
  lemma UserFacing(commits: seq<Commit>)
    ensures (exists g :: g in Grouped(commits) && g.title != MAINTENANCE)
            <==> exists i :: 0 <= i < |commits| && commits[i].said != "" && commits[i].cites != []
                             && commits[i].kind in ["Features", "Fixes", "Performance"]
  {
    OrderDistinct();
    TitledMeans(commits, ORDER);
    if i :| 0 <= i < |commits| && commits[i].said != "" && commits[i].cites != []
            && commits[i].kind in ["Features", "Fixes", "Performance"] {
      SpokenInOrder(commits[i]);
      EveryCommitPlaced(commits, i);
    }
    if g :| g in Grouped(commits) && g.title != MAINTENANCE {
      var i := UnderFrom(commits, g.title);
      SpokenInOrder(commits[i]);
    }
  }

  lemma {:induction false} UnderFrom(commits: seq<Commit>, title: string) returns (i: nat)
    requires Under(commits, title) != []
    ensures i < |commits| && commits[i].said != "" && SpokenGroup(commits[i]) == title
  {
    hide SpokenGroup;
    var last := commits[|commits| - 1];
    if last.said != "" && SpokenGroup(last) == title {
      i := |commits| - 1;
    } else {
      i := UnderFrom(commits[..|commits| - 1], title);
    }
  }
}
