/** A directory tree as a walk meets it, and the two worklist walks over one. */
module Trees {
  import opened Outcomes

  /** What one name of a directory is. `Gone` is an entry whose kind can no longer be read. */
  datatype Node =
    | File(opens: bool, bytes: string)
    | Link
    | Dir(opens: bool, entries: seq<Entry>)
    | Gone

  /** A directory holds its entries in the order reading it answers them, which is any order. */
  datatype Entry = Entry(name: string, node: Node)

  /** Names are one path component each and no directory holds one twice. */
  ghost predicate Sound(node: Node) {
    match node
    case Dir(_, entries) =>
      && (forall i | 0 <= i < |entries| ::
            entries[i].name != "" && '/' !in entries[i].name && Sound(entries[i].node))
      && (forall i, j | 0 <= i < j < |entries| :: entries[i].name != entries[j].name)
    case _ => true
  }

  /** The path of `name` in the directory `relative`. */
  function Under(relative: string, name: string): string {
    if relative == "" then name else relative + "/" + name
  }

  // ------------------------------------------------------- what a tree holds

  /** What a walk reports: each file, each link, or each entry that occupies disk, which is either. */
  datatype Kind = Files | Links | Occupants

  predicate Reports(kind: Kind, node: Node) {
    match kind
    case Files => node.File?
    case Links => node.Link?
    case Occupants => node.File? || node.Link?
  }

  function Entries(node: Node): seq<Entry> {
    match node
    case Dir(_, entries) => entries
    case _ => []
  }

  /** What a directory answers when opened: a walk of occupants takes one that will not open as a
      gap, and the others stop there. */
  function Opened(kind: Kind, node: Node): seq<Entry> {
    if kind == Occupants && node.Dir? && !node.opens then [] else Entries(node)
  }

  /** How many times the tree below the `entries` of the directory at `at` holds `path`. */
  ghost function Times(kind: Kind, path: string, at: string, entries: seq<Entry>): nat
    decreases entries
  {
    if entries == [] then 0
    else
      var here := Under(at, entries[0].name);
      (if Reports(kind, entries[0].node) && here == path then 1 else 0)
      + TimesBelow(kind, path, here, entries[0].node)
      + Times(kind, path, at, entries[1..])
  }

  ghost function TimesBelow(kind: Kind, path: string, at: string, node: Node): nat
    decreases node
  {
    match node
    case Dir(opens, entries) =>
      if kind == Occupants && !opens then 0 else Times(kind, path, at, entries)
    case _ => 0
  }

  /** Whether a file or a link stands at `path`, reached through directories that all open. */
  ghost predicate Occupied(path: string, at: string, entries: seq<Entry>)
    decreases entries
  {
    exists i :: 0 <= i < |entries| && OccupiedBy(path, at, entries, i)
  }

  ghost predicate OccupiedBy(path: string, at: string, entries: seq<Entry>, i: nat)
    requires i < |entries|
    decreases entries, 0
  {
    var here := if at == "" then entries[i].name else at + "/" + entries[i].name;
    match entries[i].node
    case Dir(opens, inner) => opens && Occupied(path, here, inner)
    case _ => path == here && (entries[i].node.File? || entries[i].node.Link?)
  }

  /** Whether a link stands at `path`, whatever opens. */
  ghost predicate LinkStands(path: string, at: string, entries: seq<Entry>)
    decreases entries
  {
    exists i :: 0 <= i < |entries| && LinkStandsBy(path, at, entries, i)
  }

  ghost predicate LinkStandsBy(path: string, at: string, entries: seq<Entry>, i: nat)
    requires i < |entries|
    decreases entries, 0
  {
    var here := if at == "" then entries[i].name else at + "/" + entries[i].name;
    match entries[i].node
    case Dir(_, inner) => LinkStands(path, here, inner)
    case _ => path == here && entries[i].node.Link?
  }

  /** What a walk of occupants reports is just that, and what a walk of links is. */
  lemma {:induction false} OccupantsMean(path: string, at: string, entries: seq<Entry>)
    ensures Times(Occupants, path, at, entries) > 0 <==> Occupied(path, at, entries)
    ensures Times(Links, path, at, entries) > 0 <==> LinkStands(path, at, entries)
    decreases entries
  {
    if entries != [] {
      var rest := entries[1..];
      OccupantsMean(path, at, rest);
      assert forall i | 0 <= i < |rest| :: rest[i] == entries[i + 1];
      var here := Under(at, entries[0].name);
      match entries[0].node {
        case Dir(_, inner) => OccupantsMean(path, here, inner);
        case _ =>
      }
      FirstOrRest(path, at, entries);
    }
  }

  lemma FirstOrRest(path: string, at: string, entries: seq<Entry>)
    requires entries != []
    ensures Occupied(path, at, entries) <==> OccupiedBy(path, at, entries, 0) || Occupied(path, at, entries[1..])
    ensures LinkStands(path, at, entries) <==> LinkStandsBy(path, at, entries, 0) || LinkStands(path, at, entries[1..])
  {
    var rest := entries[1..];
    forall i | 0 <= i < |rest|
      ensures OccupiedBy(path, at, rest, i) <==> OccupiedBy(path, at, entries, i + 1)
      ensures LinkStandsBy(path, at, rest, i) <==> LinkStandsBy(path, at, entries, i + 1)
    {
      assert rest[i] == entries[i + 1];
    }
    hide OccupiedBy, LinkStandsBy;
    if i :| 0 <= i < |entries| && OccupiedBy(path, at, entries, i) && i > 0 {
      assert OccupiedBy(path, at, rest, i - 1);
    }
    if i :| 0 <= i < |entries| && LinkStandsBy(path, at, entries, i) && i > 0 {
      assert LinkStandsBy(path, at, rest, i - 1);
    }
  }

  /** Whether `path` is that of `name` in the directory at `at`, or lies beneath it. */
  predicate Heads(path: string, at: string, name: string) {
    path == Under(at, name) || Under(at, name) + "/" <= path
  }

  /** Where in a path the names of the directory at `at` begin. */
  function Start(at: string): nat {
    if at == "" then 0 else |at| + 1
  }

  lemma HeadStands(path: string, at: string, name: string)
    requires Heads(path, at, name)
    ensures Start(at) + |name| <= |path|
    ensures path[Start(at)..Start(at) + |name|] == name
    ensures Start(at) + |name| < |path| ==> path[Start(at) + |name|] == '/'
  {
    var head := Under(at, name);
    assert |head| == Start(at) + |name| && head[Start(at)..] == name;
    if path != head {
      assert path[..|head| + 1] == head + "/";
      assert path[..|head|] == head && path[|head|] == '/';
    }
    assert path[Start(at)..Start(at) + |name|] == path[..|head|][Start(at)..];
  }

  lemma NoLonger(rest: string, one: string, other: string)
    requires one <= rest && (|one| < |rest| ==> rest[|one|] == '/')
    requires other <= rest && '/' !in other
    ensures |other| <= |one|
  {
    assert forall i | 0 <= i < |other| :: rest[i] == other[i] && other[i] in other;
  }

  /** Two names of one directory never head one path. */
  lemma HeadsApart(path: string, at: string, one: string, other: string)
    requires '/' !in one && '/' !in other
    requires Heads(path, at, one) && Heads(path, at, other)
    ensures one == other
  {
    HeadStands(path, at, one);
    HeadStands(path, at, other);
    hide Heads, Under, Start;
    var rest := path[Start(at)..];
    assert rest[..|one|] == one && rest[..|other|] == other;
    NoLonger(rest, one, other);
    NoLonger(rest, other, one);
  }

  lemma {:induction false} TimesHeads(kind: Kind, path: string, at: string, entries: seq<Entry>)
    requires Sound(Dir(true, entries))
    requires Times(kind, path, at, entries) > 0
    ensures exists i :: 0 <= i < |entries| && Heads(path, at, entries[i].name)
    decreases entries
  {
    var here := Under(at, entries[0].name);
    SoundRest(entries);
    if TimesBelow(kind, path, here, entries[0].node) > 0 {
      BelowLies(kind, path, here, entries[0].node);
      assert Heads(path, at, entries[0].name);
    } else if Times(kind, path, at, entries[1..]) > 0 {
      TimesHeads(kind, path, at, entries[1..]);
      var i :| 0 <= i < |entries| - 1 && Heads(path, at, entries[1..][i].name);
      assert Heads(path, at, entries[i + 1].name);
    } else {
      assert Heads(path, at, entries[0].name);
    }
  }

  lemma {:induction false} BelowLies(kind: Kind, path: string, at: string, node: Node)
    requires Sound(node) && at != ""
    requires TimesBelow(kind, path, at, node) > 0
    ensures at + "/" <= path
    decreases node
  {
    assert Sound(Dir(true, node.entries));
    TimesHeads(kind, path, at, node.entries);
    var i :| 0 <= i < |node.entries| && Heads(path, at, node.entries[i].name);
    assert Under(at, node.entries[i].name) == at + "/" + node.entries[i].name;
  }

  lemma SoundRest(entries: seq<Entry>)
    requires entries != [] && Sound(Dir(true, entries))
    ensures Sound(Dir(true, entries[1..])) && Sound(entries[0].node)
    ensures entries[0].name != "" && '/' !in entries[0].name
    ensures forall i | 0 <= i < |entries| - 1 :: entries[1..][i].name != entries[0].name && '/' !in entries[1..][i].name
  {
    assert forall i | 0 <= i < |entries| - 1 :: entries[1..][i] == entries[i + 1];
  }

  /** A tree holds each path at most once, whatever is walked for. */
  lemma {:induction false} HeldOnce(kind: Kind, path: string, at: string, entries: seq<Entry>)
    requires Sound(Dir(true, entries))
    ensures Times(kind, path, at, entries) <= 1
    decreases entries
  {
    if entries != [] {
      var here := Under(at, entries[0].name);
      SoundRest(entries);
      HeldOnce(kind, path, at, entries[1..]);
      HeldBelowOnce(kind, path, here, entries[0].node);
      if Times(kind, path, at, entries[1..]) > 0 {
        TimesHeads(kind, path, at, entries[1..]);
        var i :| 0 <= i < |entries| - 1 && Heads(path, at, entries[1..][i].name);
        assert !Heads(path, at, entries[0].name) by {
          if Heads(path, at, entries[0].name) {
            HeadsApart(path, at, entries[0].name, entries[1..][i].name);
          }
        }
        if TimesBelow(kind, path, here, entries[0].node) > 0 {
          BelowLies(kind, path, here, entries[0].node);
        }
      }
    }
  }

  lemma TreeHeldOnce(root: Node)
    requires Sound(root)
    ensures forall kind, p :: Times(kind, p, "", Entries(root)) <= 1
  {
    if root.Dir? {
      assert Sound(Dir(true, root.entries));
      forall kind, p
        ensures Times(kind, p, "", root.entries) <= 1
      {
        HeldOnce(kind, p, "", root.entries);
      }
    }
  }

  lemma {:induction false} HeldBelowOnce(kind: Kind, path: string, at: string, node: Node)
    requires Sound(node)
    ensures TimesBelow(kind, path, at, node) <= 1
    ensures !node.Dir? ==> TimesBelow(kind, path, at, node) == 0
    decreases node
  {
    if node.Dir? {
      assert Sound(Dir(true, node.entries));
      HeldOnce(kind, path, at, node.entries);
    }
  }

  /** Whether every directory below opens and every entry can be told. */
  ghost predicate Readable(node: Node) {
    match node
    case Dir(opens, entries) => opens && forall i | 0 <= i < |entries| :: Readable(entries[i].node)
    case Gone => false
    case _ => true
  }

  ghost predicate AllReadable(entries: seq<Entry>) {
    forall i | 0 <= i < |entries| :: Readable(entries[i].node)
  }

  lemma AllReadableStep(entries: seq<Entry>)
    requires entries != []
    ensures AllReadable(entries) <==> Readable(entries[0].node) && AllReadable(entries[1..])
  {
    if Readable(entries[0].node) && AllReadable(entries[1..]) {
      forall i | 0 <= i < |entries|
        ensures Readable(entries[i].node)
      {
        if i > 0 {
          assert entries[i] == entries[1..][i - 1];
        }
      }
    }
  }

  // ------------------------------------------------------- the worklist

  /** A directory still to be walked, by its path from the root. */
  datatype Pending = Pending(at: string, node: Node)

  ghost function Size(entries: seq<Entry>): nat
    decreases entries
  {
    if entries == [] then 0
    else
      (match entries[0].node
       case Dir(_, within) => 2 + Size(within)
       case _ => 1)
      + Size(entries[1..])
  }

  ghost function SizePending(pending: seq<Pending>): nat {
    if pending == [] then 0
    else SizePending(pending[..|pending| - 1]) + 1 + Size(Entries(pending[|pending| - 1].node))
  }

  ghost function TimesPending(kind: Kind, path: string, pending: seq<Pending>): nat {
    if pending == [] then 0
    else
      var one := pending[|pending| - 1];
      TimesPending(kind, path, pending[..|pending| - 1]) + TimesBelow(kind, path, one.at, one.node)
  }

  ghost predicate ReadablePending(pending: seq<Pending>) {
    forall p | p in pending :: p.node.Dir? && Readable(p.node)
  }

  lemma Pushed(pending: seq<Pending>, one: Pending)
    ensures SizePending(pending + [one]) == SizePending(pending) + 1 + Size(Entries(one.node))
    ensures ReadablePending(pending + [one])
       <==> ReadablePending(pending) && one.node.Dir? && Readable(one.node)
  {
    assert (pending + [one])[..|pending|] == pending;
    assert one in pending + [one];
    assert forall p | p in pending :: p in pending + [one];
  }

  lemma Popped(pending: seq<Pending>)
    requires pending != []
    ensures var one := pending[|pending| - 1]; var rest := pending[..|pending| - 1];
            && SizePending(pending) == SizePending(rest) + 1 + Size(Entries(one.node))
            && (ReadablePending(pending) <==>
                  ReadablePending(rest) && one.node.Dir? && Readable(one.node))
  {
    Pushed(pending[..|pending| - 1], pending[|pending| - 1]);
    assert pending == pending[..|pending| - 1] + [pending[|pending| - 1]];
  }

  /** The whole walk in the order it reports: a directory's own entries, then the directory put on
      the list last. */
  ghost function WholeWalk(kind: Kind, at: string, entries: seq<Entry>, pending: seq<Pending>): seq<string>
    decreases Size(entries) + SizePending(pending), |entries|
  {
    if entries != [] then
      var path := Under(at, entries[0].name);
      if entries[0].node.Dir? then
        Pushed(pending, Pending(path, entries[0].node));
        WholeWalk(kind, at, entries[1..], pending + [Pending(path, entries[0].node)])
      else
        (if Reports(kind, entries[0].node) then [path] else [])
        + WholeWalk(kind, at, entries[1..], pending)
    else if pending != [] then
      Popped(pending);
      var one := pending[|pending| - 1];
      WholeWalk(kind, one.at, Opened(kind, one.node), pending[..|pending| - 1])
    else []
  }

  /** The walk unrolled by one entry. */
  lemma WalkEntry(kind: Kind, at: string, entries: seq<Entry>, pending: seq<Pending>)
    requires entries != []
    ensures var path := Under(at, entries[0].name);
            WholeWalk(kind, at, entries, pending) ==
              if entries[0].node.Dir? then
                WholeWalk(kind, at, entries[1..], pending + [Pending(path, entries[0].node)])
              else if Reports(kind, entries[0].node) then [path] + WholeWalk(kind, at, entries[1..], pending)
              else WholeWalk(kind, at, entries[1..], pending)
  {
  }

  /** The walk unrolled by taking the directory put on the list last. */
  lemma WalkPopped(kind: Kind, pending: seq<Pending>)
    requires pending != []
    ensures var one := pending[|pending| - 1];
            forall at :: WholeWalk(kind, at, [], pending)
                      == WholeWalk(kind, one.at, Opened(kind, one.node), pending[..|pending| - 1])
  {
  }

  lemma WalkAnywhere(kind: Kind, at: string, pending: seq<Pending>)
    ensures WholeWalk(kind, at, [], pending) == WholeWalk(kind, "", [], pending)
  {
  }

  lemma WalkOver(kind: Kind, at: string)
    ensures WholeWalk(kind, at, [], []) == []
  {
  }

  lemma TimesPushed(kind: Kind, path: string, pending: seq<Pending>, one: Pending)
    ensures TimesPending(kind, path, pending + [one])
         == TimesPending(kind, path, pending) + TimesBelow(kind, path, one.at, one.node)
  {
    assert (pending + [one])[..|pending|] == pending;
  }

  /** The worklist agrees with the recursive definition: the walk reports every path exactly as
      often as the tree holds it. */
  lemma {:induction false} WalkCounts(kind: Kind, path: string, at: string, entries: seq<Entry>,
                                      pending: seq<Pending>)
    ensures multiset(WholeWalk(kind, at, entries, pending))[path]
         == Times(kind, path, at, entries) + TimesPending(kind, path, pending)
    decreases Size(entries) + SizePending(pending), |entries|
  {
    if entries != [] {
      WalkCountsEntry(kind, path, at, entries, pending);
    } else if pending != [] {
      Popped(pending);
      var one := pending[|pending| - 1];
      WalkCounts(kind, path, one.at, Opened(kind, one.node), pending[..|pending| - 1]);
    }
  }

  lemma {:induction false} WalkCountsEntry(kind: Kind, path: string, at: string, entries: seq<Entry>,
                                           pending: seq<Pending>)
    requires entries != []
    ensures multiset(WholeWalk(kind, at, entries, pending))[path]
         == Times(kind, path, at, entries) + TimesPending(kind, path, pending)
    decreases Size(entries) + SizePending(pending), |entries|, 0
  {
    var here := Under(at, entries[0].name);
    WalkEntry(kind, at, entries, pending);
    if entries[0].node.Dir? {
      var one := Pending(here, entries[0].node);
      Pushed(pending, one);
      TimesPushed(kind, path, pending, one);
      WalkCounts(kind, path, at, entries[1..], pending + [one]);
    } else {
      WalkCounts(kind, path, at, entries[1..], pending);
    }
  }

  /** Sorts the entries of one directory: files and links are reported at once, directories wait. */
  method SortedOut(at: string, entries: seq<Entry>, waiting: seq<Pending>)
    returns (files: seq<string>, links: seq<string>, pending: seq<Pending>, read: bool)
    ensures read ==> files + WholeWalk(Files, "", [], pending) == WholeWalk(Files, at, entries, waiting)
    ensures read ==> links + WholeWalk(Links, "", [], pending) == WholeWalk(Links, at, entries, waiting)
    ensures read ==> (ReadablePending(pending) <==> ReadablePending(waiting) && AllReadable(entries))
    ensures !read ==> !AllReadable(entries)
    ensures read ==> SizePending(pending) <= SizePending(waiting) + Size(entries)
  {
    hide WholeWalk, Under;
    files, links, pending := [], [], waiting;
    assert entries[0..] == entries;
    for i := 0 to |entries|
      invariant files + WholeWalk(Files, at, entries[i..], pending) == WholeWalk(Files, at, entries, waiting)
      invariant links + WholeWalk(Links, at, entries[i..], pending) == WholeWalk(Links, at, entries, waiting)
      invariant ReadablePending(pending) && AllReadable(entries[i..])
           <==> ReadablePending(waiting) && AllReadable(entries)
      invariant AllReadable(entries) ==> AllReadable(entries[i..])
      invariant SizePending(pending) + Size(entries[i..]) <= SizePending(waiting) + Size(entries)
    {
      var entry := entries[i];
      assert entries[i..][0] == entry && entries[i..][1..] == entries[i + 1..];
      AllReadableStep(entries[i..]);
      WalkEntry(Files, at, entries[i..], pending);
      WalkEntry(Links, at, entries[i..], pending);
      var path := Under(at, entry.name);
      match entry.node {
        case Link =>
          Reported(links, path, WholeWalk(Links, at, entries[i + 1..], pending));
          links := links + [path];
        case Dir(_, _) =>
          Pushed(pending, Pending(path, entry.node));
          pending := pending + [Pending(path, entry.node)];
        case File(_, _) =>
          Reported(files, path, WholeWalk(Files, at, entries[i + 1..], pending));
          files := files + [path];
        case Gone =>
          return files, links, pending, false;
      }
    }
    assert entries[|entries|..] == [];
    WalkAnywhere(Files, at, pending);
    WalkAnywhere(Links, at, pending);
    return files, links, pending, true;
  }

  lemma Reported(before: seq<string>, path: string, after: seq<string>)
    ensures before + ([path] + after) == (before + [path]) + after
  {
  }

  /** Every file and every link under `root`, no link followed, or the directory that would not be
      read. Whatever order directories are read in, the walk ends, and reports each file and each
      link exactly as often as the tree holds it. */
  method Found(root: Node) returns (r: Result<(seq<string>, seq<string>), string>)
    ensures r.Ok? <==> root.Dir? && Readable(root)
    ensures r.Ok? ==> forall p :: multiset(r.value.0)[p] == Times(Files, p, "", Entries(root))
    ensures r.Ok? ==> forall p :: multiset(r.value.1)[p] == Times(Links, p, "", Entries(root))
    ensures r.Ok? && Sound(root) ==> forall p :: multiset(r.value.0)[p] <= 1 && multiset(r.value.1)[p] <= 1
  {
    hide WholeWalk, Times, Size, SizePending;
    var files: seq<string>, links: seq<string> := [], [];
    var pending := [Pending("", root)];
    WalkPopped(Files, pending);
    WalkPopped(Links, pending);
    ghost var allFiles := WholeWalk(Files, "", Entries(root), []);
    ghost var allLinks := WholeWalk(Links, "", Entries(root), []);
    assert pending == [] + [Pending("", root)];
    Pushed([], Pending("", root));
    assert pending[..0] == [];
    while pending != []
      invariant files + WholeWalk(Files, "", [], pending) == allFiles
      invariant links + WholeWalk(Links, "", [], pending) == allLinks
      invariant root.Dir? && Readable(root) <==> ReadablePending(pending)
      decreases SizePending(pending)
    {
      Popped(pending);
      WalkPopped(Files, pending);
      WalkPopped(Links, pending);
      var one := pending[|pending| - 1];
      if !one.node.Dir? || !one.node.opens {
        return Err(one.at);
      }
      assert Readable(one.node) <==> AllReadable(one.node.entries);
      var here, linked, waiting, read := SortedOut(one.at, one.node.entries, pending[..|pending| - 1]);
      if !read {
        return Err(one.at);
      }
      assert files + (here + WholeWalk(Files, "", [], waiting)) == (files + here) + WholeWalk(Files, "", [], waiting);
      assert links + (linked + WholeWalk(Links, "", [], waiting))
             == (links + linked) + WholeWalk(Links, "", [], waiting);
      files, links, pending := files + here, links + linked, waiting;
    }
    WalkOver(Files, "");
    WalkOver(Links, "");
    assert files == allFiles && links == allLinks;
    forall p
      ensures multiset(files)[p] == Times(Files, p, "", Entries(root))
      ensures multiset(links)[p] == Times(Links, p, "", Entries(root))
    {
      WalkCounts(Files, p, "", Entries(root), []);
      WalkCounts(Links, p, "", Entries(root), []);
    }
    if Sound(root) {
      TreeHeldOnce(root);
    }
    return Ok((files, links));
  }

  // ------------------------------------------------------- the walk a reader may leave

  /** The occupants below an opened root, to a reader that takes `patience` of them and then leaves:
      what it was sent is the front of the whole walk, which reports each occupant exactly as often
      as the tree holds it. */
  method Walked(top: seq<Entry>, patience: nat) returns (sent: seq<string>)
    ensures sent <= WholeWalk(Occupants, "", top, [])
    ensures |sent| <= patience
    ensures |sent| < patience ==> sent == WholeWalk(Occupants, "", top, [])
    ensures |sent| < patience ==> forall p :: multiset(sent)[p] == Times(Occupants, p, "", top)
    ensures Sound(Dir(true, top)) ==> forall p :: multiset(sent)[p] <= 1
  {
    hide WholeWalk, Times, Size, SizePending;
    sent := [];
    var at, entries, pending: seq<Pending> := "", top, [];
    ghost var whole := WholeWalk(Occupants, "", top, []);
    while true
      invariant sent + WholeWalk(Occupants, at, entries, pending) == whole
      invariant |sent| <= patience
      decreases SizePending(pending) + Size(entries)
    {
      var more, waiting, stays := SentOn(at, entries, pending, patience - |sent|);
      ghost var rest := WholeWalk(Occupants, "", [], waiting);
      if !stays {
        assert sent + more <= sent + WholeWalk(Occupants, at, entries, pending);
        sent := sent + more;
        SentOnce(top, sent);
        return;
      }
      assert sent + (more + rest) == (sent + more) + rest;
      sent := sent + more;
      if waiting == [] {
        WalkOver(Occupants, "");
        assert sent == whole;
        forall p
          ensures multiset(sent)[p] == Times(Occupants, p, "", top)
        {
          WalkCounts(Occupants, p, "", top, []);
          NothingPending(Occupants, p);
        }
        SentOnce(top, sent);
        return;
      }
      Popped(waiting);
      WalkPopped(Occupants, waiting);
      var one := waiting[|waiting| - 1];
      OpenedSize(one.node);
      at, entries, pending := one.at, Opened(Occupants, one.node), waiting[..|waiting| - 1];
    }
  }

  /** What was sent, however soon the reader left, names nothing twice. */
  lemma SentOnce(top: seq<Entry>, sent: seq<string>)
    requires sent <= WholeWalk(Occupants, "", top, [])
    ensures Sound(Dir(true, top)) ==> forall p :: multiset(sent)[p] <= 1
  {
    hide WholeWalk, Times, Sound;
    var whole := WholeWalk(Occupants, "", top, []);
    assert whole == sent + whole[|sent|..];
    if Sound(Dir(true, top)) {
      forall p
        ensures multiset(sent)[p] <= 1
      {
        WalkCounts(Occupants, p, "", top, []);
        NothingPending(Occupants, p);
        HeldOnce(Occupants, p, "", top);
        assert multiset(whole)[p] == multiset(sent)[p] + multiset(whole[|sent|..])[p];
      }
    }
  }

  lemma NothingPending(kind: Kind, path: string)
    ensures TimesPending(kind, path, []) == 0
  {
  }

  lemma OpenedSize(node: Node)
    ensures Size(Opened(Occupants, node)) <= Size(Entries(node))
  {
  }

  /** `sort_into`: directories of one directory wait, the rest is sent until the reader's patience ends. */
  method SentOn(at: string, entries: seq<Entry>, waiting: seq<Pending>, patience: nat)
    returns (sent: seq<string>, pending: seq<Pending>, stays: bool)
    ensures |sent| <= patience
    ensures stays ==> sent + WholeWalk(Occupants, "", [], pending) == WholeWalk(Occupants, at, entries, waiting)
    ensures stays ==> SizePending(pending) <= SizePending(waiting) + Size(entries)
    ensures !stays ==> |sent| == patience && sent <= WholeWalk(Occupants, at, entries, waiting)
  {
    sent, pending := [], waiting;
    for i := 0 to |entries|
      invariant sent + WholeWalk(Occupants, at, entries[i..], pending) == WholeWalk(Occupants, at, entries, waiting)
      invariant |sent| <= patience
      invariant SizePending(pending) + Size(entries[i..]) <= SizePending(waiting) + Size(entries)
    {
      var entry := entries[i];
      assert entries[i..][0] == entry && entries[i..][1..] == entries[i + 1..];
      WalkEntry(Occupants, at, entries[i..], pending);
      var path := Under(at, entry.name);
      match entry.node {
        case Dir(_, _) =>
          Pushed(pending, Pending(path, entry.node));
          pending := pending + [Pending(path, entry.node)];
        case Gone =>
        case _ =>
          if |sent| == patience {
            return sent, pending, false;
          }
          Reported(sent, path, WholeWalk(Occupants, at, entries[i + 1..], pending));
          sent := sent + [path];
      }
    }
    assert entries[|entries|..] == [];
    return sent, pending, true;
  }
}
