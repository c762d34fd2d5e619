/** Looking a path up in a tree on disk, name by name, and the files a walk of it reports. */
module Lookups {
  import opened Outcomes
  import opened Texts
  import opened Trees

  /** A relative path every step of which goes one name down. */
  predicate Inside(relative: string) {
    forall name | name in Split(relative, '/') :: name != "" && name != "." && name != ".."
  }

  /** Whether a name stands between two slashes in `text`. */
  ghost predicate Between(text: string, name: string) {
    exists before, after :: text == before + ['/'] + name + ['/'] + after
  }

  lemma SlashesAround(relative: string)
    ensures Split("/" + relative + "/", '/') == [[]] + Split(relative, '/') + [[]]
  {
    var text := "/" + relative + "/";
    assert text == [] + ['/'] + (relative + ['/'] + []);
    SplitOfConcat([], relative + ['/'] + [], '/');
    SplitOfConcat(relative, [], '/');
    assert Split([], '/') == [[]];
  }

  lemma NameBetween(text: string, names: seq<string>, i: nat)
    requires Split(text, '/') == [[]] + names + [[]] && i < |names|
    ensures Between(text, names[i])
  {
    hide Split;
    var name := names[i];
    var before, after := [[]] + names[..i], names[i + 1..] + [[]];
    JoinOfSplit(text, '/');
    assert before + ([name] + after) == [[]] + names + [[]];
    JoinOfConcat(before, [name] + after, '/');
    JoinOfConcat([name], after, '/');
    assert Join([name], '/') == name;
    hide Join;
    assert text == Join(before, '/') + ['/'] + (name + ['/'] + Join(after, '/'));
    assert text == Join(before, '/') + ['/'] + name + ['/'] + Join(after, '/');
  }

  lemma NamesBetween(relative: string, name: string)
    requires '/' !in name
    ensures name in Split(relative, '/') <==> Between("/" + relative + "/", name)
  {
    hide Split;
    var text := "/" + relative + "/";
    var names := Split(relative, '/');
    SlashesAround(relative);
    if name in names {
      var i :| 0 <= i < |names| && names[i] == name;
      NameBetween(text, names, i);
    }
    if before, after :| text == before + ['/'] + name + ['/'] + after {
      assert text == before + ['/'] + (name + ['/'] + after);
      SplitOfConcat(before, name + ['/'] + after, '/');
      SplitOfConcat(name, after, '/');
      SplitOfFree(name, '/');
      NameInside(Split(before, '/'), name, Split(after, '/'), names);
    }
  }

  /** A name with something on both sides of it is not one of the two empty ends. */
  lemma NameInside(before: seq<string>, name: string, after: seq<string>, names: seq<string>)
    requires before != [] && after != []
    requires before + ([name] + after) == [[]] + names + [[]]
    ensures name in names
  {
    var all := before + ([name] + after);
    assert all[|before|] == name;
    assert 1 <= |before| <= |names|;
    assert all[|before|] == names[|before| - 1];
  }

  /** A path goes down exactly where nothing in it, from slash to slash, is empty or dots alone. */
  lemma InsideMeans(relative: string)
    ensures var text := "/" + relative + "/";
            Inside(relative) <==> !Between(text, "") && !Between(text, ".") && !Between(text, "..")
  {
    NamesBetween(relative, "");
    NamesBetween(relative, ".");
    NamesBetween(relative, "..");
  }

  // ------------------------------------------------------- looking a path up

  /** What following names down from a node comes to: `Blocked` where one passes through what is no
      directory. */
  datatype Reach = Reached(node: Node) | Missing | Blocked

  function Find(entries: seq<Entry>, name: string): Option<Node> {
    if entries == [] then None
    else if entries[0].name == name then Some(entries[0].node)
    else Find(entries[1..], name)
  }

  function Lookup(node: Node, names: seq<string>): Reach
    decreases |names|
  {
    if names == [] then Reached(node)
    else
      match node
      case Dir(_, entries) =>
        (match Find(entries, names[0])
         case None => Missing
         case Some(child) => Lookup(child, names[1..]))
      case _ => Blocked
  }

  /** `linked`: whether any name on the way is a link. */
  predicate Linked(node: Node, names: seq<string>)
    decreases |names|
  {
    && names != []
    && node.Dir?
    && var child := Find(node.entries, names[0]);
       child.Some? && (child.value.Link? || Linked(child.value, names[1..]))
  }

  /** Names pass a link exactly where following some of them, one after another, comes to one. */
  lemma {:induction false} LinkedMeans(node: Node, names: seq<string>)
    ensures Linked(node, names) <==>
              exists k :: 0 < k <= |names| && Lookup(node, names[..k]).Reached? && Lookup(node, names[..k]).node.Link?
    decreases |names|
  {
    if names != [] && node.Dir? {
      var child := Find(node.entries, names[0]);
      assert forall k | 0 < k <= |names| :: names[..k][1..] == names[1..][..k - 1];
      if child.Some? {
        LinkedMeans(child.value, names[1..]);
        if child.value.Link? {
          assert names[..1][1..] == [];
        }
        if Linked(child.value, names[1..]) {
          var k :| 0 < k <= |names| - 1 && Lookup(child.value, names[1..][..k]).Reached?
                   && Lookup(child.value, names[1..][..k]).node.Link?;
          assert names[..k + 1][1..] == names[1..][..k];
        }
      }
    }
  }

  /** The names as far as the first link on the way. */
  function FirstLink(node: Node, names: seq<string>): (r: seq<string>)
    requires Linked(node, names)
    ensures r != []
    decreases |names|
  {
    var child := Find(node.entries, names[0]).value;
    if child.Link? then [names[0]] else [names[0]] + FirstLink(child, names[1..])
  }

  /** The names leading to every file of a tree, without passing a link. */
  ghost function FileNames(node: Node): set<seq<string>>
    decreases node
  {
    match node
    case File(_, _) => {[]}
    case Dir(_, entries) =>
      set i, q | 0 <= i < |entries| && q in FileNames(entries[i].node) :: [entries[i].name] + q
    case _ => {}
  }

  lemma {:induction false} FindAt(entries: seq<Entry>, i: nat)
    requires i < |entries|
    requires forall j | 0 <= j < i :: entries[j].name != entries[i].name
    ensures Find(entries, entries[i].name) == Some(entries[i].node)
  {
    if i > 0 {
      FindAt(entries[1..], i - 1);
    }
  }

  lemma {:induction false} FindIn(entries: seq<Entry>, name: string) returns (i: nat)
    requires Find(entries, name).Some?
    ensures i < |entries| && entries[i].name == name && entries[i].node == Find(entries, name).value
  {
    if entries[0].name == name {
      i := 0;
    } else {
      i := FindIn(entries[1..], name);
      i := i + 1;
    }
  }

  /** A path leads to a file exactly when it is one of the tree's. */
  lemma {:induction false} FileNamesLookUp(node: Node, names: seq<string>)
    requires Sound(node)
    ensures names in FileNames(node) <==>
              Lookup(node, names).Reached? && Lookup(node, names).node.File?
    ensures names in FileNames(node) ==> Free(names, '/') && "" !in names
    decreases |names|
  {
    if names != [] && node.Dir? {
      var entries := node.entries;
      var rest := names[1..];
      assert names == [names[0]] + rest;
      if names in FileNames(node) {
        var i, q :| 0 <= i < |entries| && q in FileNames(entries[i].node) && [entries[i].name] + q == names;
        assert q == rest && entries[i].name == names[0];
        FindAt(entries, i);
        FileNamesLookUp(entries[i].node, rest);
      }
      if Find(entries, names[0]).Some? {
        var i := FindIn(entries, names[0]);
        FileNamesLookUp(entries[i].node, rest);
      }
    }
  }

  lemma {:induction false} LookupOn(node: Node, over: seq<string>, rest: seq<string>)
    requires Lookup(node, over).Reached?
    ensures Lookup(node, over + rest) == Lookup(Lookup(node, over).node, rest)
    decreases |over|
  {
    if over == [] {
      assert over + rest == rest;
    } else {
      assert (over + rest)[0] == over[0] && (over + rest)[1..] == over[1..] + rest;
      LookupOn(Find(node.entries, over[0]).value, over[1..], rest);
    }
  }

  /** Above a file every name is a directory, and none is a link. */
  lemma {:induction false} AboveFile(node: Node, over: seq<string>, rest: seq<string>)
    requires Lookup(node, over + rest).Reached? && Lookup(node, over + rest).node.File?
    requires rest != []
    ensures Lookup(node, over).Reached? && Lookup(node, over).node.Dir?
    ensures !Linked(node, over)
    decreases |over|
  {
    if over == [] {
      assert over + rest == rest;
    } else {
      assert (over + rest)[0] == over[0] && (over + rest)[1..] == over[1..] + rest;
      var child := Find(node.entries, over[0]).value;
      assert Lookup(child, over[1..] + rest) == Lookup(node, over + rest);
      AboveFile(child, over[1..], rest);
    }
  }

  // ------------------------------------------------------- a checkout's files

  /** Every file of the checkout by its path. */
  ghost function AllFiles(root: Node): set<string> {
    set q | q in FileNames(root) && q != [] :: Join(q, '/')
  }

  function BytesAt(root: Node, path: string): string {
    match Lookup(root, Split(path, '/'))
    case Reached(File(_, bytes)) => bytes
    case _ => []
  }

  lemma AllFilesLookUp(root: Node, path: string)
    requires Sound(root) && root.Dir?
    ensures path in AllFiles(root) <==>
              var at := Lookup(root, Split(path, '/')); at.Reached? && at.node.File?
  {
    if path in AllFiles(root) {
      var q :| q in FileNames(root) && q != [] && Join(q, '/') == path;
      FileNamesLookUp(root, q);
      SplitOfJoin(q, '/');
    }
    JoinOfSplit(path, '/');
    FileNamesLookUp(root, Split(path, '/'));
  }

  lemma SoundBelow(node: Node, names: seq<string>)
    requires Sound(node)
    requires Lookup(node, names).Reached?
    ensures Sound(Lookup(node, names).node)
    decreases |names|
  {
    if names != [] {
      var i := FindIn(node.entries, names[0]);
      SoundBelow(node.entries[i].node, names[1..]);
    }
  }

  /** The path of the names `q` from the directory at `at`. */
  ghost function Place(at: string, q: seq<string>): string
    requires q != []
  {
    if at == "" then Join(q, '/') else at + "/" + Join(q, '/')
  }

  /** The path of the names `q` from what stands at `at`. */
  ghost function PlaceBelow(at: string, q: seq<string>): string {
    if q == [] then at else at + "/" + Join(q, '/')
  }

  lemma PlaceStep(at: string, q: seq<string>)
    requires q != []
    ensures Place(at, q) == PlaceBelow(Under(at, q[0]), q[1..])
  {
    if |q| > 1 {
      assert Join(q, '/') == q[0] + "/" + Join(q[1..], '/');
      assert at + "/" + (q[0] + "/" + Join(q[1..], '/')) == (at + "/" + q[0]) + "/" + Join(q[1..], '/');
    }
  }

  lemma SoundTail(entries: seq<Entry>)
    requires entries != [] && Sound(Dir(true, entries))
    ensures Sound(Dir(true, entries[1..])) && Sound(entries[0].node) && entries[0].name != ""
  {
    var rest := entries[1..];
    assert forall i | 0 <= i < |rest| :: rest[i] == entries[i + 1];
  }

  lemma FileNamesStep(entries: seq<Entry>, q: seq<string>)
    requires entries != []
    ensures q in FileNames(Dir(true, entries)) <==>
              || (q != [] && q[0] == entries[0].name && q[1..] in FileNames(entries[0].node))
              || q in FileNames(Dir(true, entries[1..]))
  {
    var rest := entries[1..];
    if q in FileNames(Dir(true, entries)) {
      var i, p :| 0 <= i < |entries| && p in FileNames(entries[i].node) && [entries[i].name] + p == q;
      assert q[1..] == p;
      if i > 0 {
        assert rest[i - 1] == entries[i];
      }
    }
    if q != [] && q[0] == entries[0].name && q[1..] in FileNames(entries[0].node) {
      assert q == [entries[0].name] + q[1..];
    }
    if q in FileNames(Dir(true, rest)) {
      var i, p :| 0 <= i < |rest| && p in FileNames(rest[i].node) && [rest[i].name] + p == q;
      assert rest[i] == entries[i + 1];
    }
  }

  /** Whether following names down from what stands at `at` leads to a file at `path`. */
  ghost predicate Leads(path: string, at: string, node: Node) {
    exists q :: q in FileNames(node) && path == PlaceBelow(at, q)
  }

  ghost predicate LeadsIn(path: string, at: string, entries: seq<Entry>) {
    exists q :: q in FileNames(Dir(true, entries)) && q != [] && path == Place(at, q)
  }

  lemma LeadsStep(path: string, at: string, entries: seq<Entry>)
    requires entries != []
    ensures LeadsIn(path, at, entries) <==>
              || Leads(path, Under(at, entries[0].name), entries[0].node)
              || LeadsIn(path, at, entries[1..])
  {
    var here := Under(at, entries[0].name);
    if LeadsIn(path, at, entries) {
      var q :| q in FileNames(Dir(true, entries)) && q != [] && path == Place(at, q);
      FileNamesStep(entries, q);
      PlaceStep(at, q);
    }
    if Leads(path, here, entries[0].node) {
      var q :| q in FileNames(entries[0].node) && path == PlaceBelow(here, q);
      var p := [entries[0].name] + q;
      assert p[1..] == q;
      FileNamesStep(entries, p);
      PlaceStep(at, p);
    }
    if LeadsIn(path, at, entries[1..]) {
      var q :| q in FileNames(Dir(true, entries[1..])) && q != [] && path == Place(at, q);
      FileNamesStep(entries, q);
    }
  }

  /** The files a walk reports are those following names down leads to. */
  lemma {:induction false} TimesLead(path: string, at: string, entries: seq<Entry>)
    requires Sound(Dir(true, entries))
    ensures Times(Files, path, at, entries) > 0 <==> LeadsIn(path, at, entries)
    decreases entries
  {
    if entries == [] {
      assert forall q :: q !in FileNames(Dir(true, entries));
    } else {
      SoundTail(entries);
      TimesLead(path, at, entries[1..]);
      TimesLeadBelow(path, Under(at, entries[0].name), entries[0].node);
      LeadsStep(path, at, entries);
    }
  }

  lemma {:induction false} TimesLeadBelow(path: string, at: string, node: Node)
    requires Sound(node) && at != ""
    ensures (if node.File? && at == path then 1 else 0) + TimesBelow(Files, path, at, node) > 0
       <==> Leads(path, at, node)
    decreases node
  {
    match node {
      case Dir(_, entries) =>
        TimesLead(path, at, entries);
        assert FileNames(Dir(true, entries)) == FileNames(node);
        assert [] !in FileNames(node);
        assert forall q | q != [] :: Place(at, q) == PlaceBelow(at, q);
      case File(_, _) =>
        assert FileNames(node) == {[]};
      case _ =>
    }
  }
}
