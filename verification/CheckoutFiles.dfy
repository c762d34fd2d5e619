/** Which files of a checkout belong to a plugin's tree, and where a checkout has none to digest. */
module CheckoutFiles {
  import opened Outcomes
  import opened Texts
  import opened Trees
  import opened TreeDigest
  import opened Lookups

  /** What can be wrong with a path a manifest names: it leads out of the checkout, or it meets a link.
      `Unread` below is the failure of the disk itself. */
  datatype Refusal = Outside(path: string) | Linking(path: string)

  datatype Refused = Unread(path: string) | Rules(broken: set<Refusal>)

  /** The directories walked: one for each service, then the recordings. */
  function Directories(services: seq<string>): seq<string> {
    seq(|services|, i requires 0 <= i < |services| => CONFIG + "/" + services[i]) + [CONFORMANCE]
  }

  /** Whether the file at `path` opens to be read. */
  predicate OpensAt(root: Node, path: string) {
    var at := Lookup(root, Split(path, '/'));
    at.Reached? && at.node.File? && at.node.opens
  }

  ghost predicate AllOpen(root: Node, paths: set<string>) {
    forall p | p in paths :: OpensAt(root, p)
  }

  /** Whether the directory at `node` is wholly readable, with every file of it, and without a link. */
  ghost predicate CleanWithin(root: Node, directory: string, node: Node)
    requires node.Dir?
  {
    && Readable(node)
    && (forall p :: Times(Links, p, "", node.entries) == 0)
    && AllOpen(root, FilesBeneath(root, directory))
  }

  /** Whether a named directory is inside, reached through no link, and, where it is there at all,
      wholly readable, every file of it too, with no link beneath it. */
  ghost predicate CleanDirectory(root: Node, directory: string) {
    && Inside(directory)
    && !Linked(root, Split(directory, '/'))
    && var at := Lookup(root, Split(directory, '/'));
       at.Reached? && at.node.Dir? ==>
         CleanWithin(root, directory, at.node)
  }

  /** Whether a named fixture is inside, reached through no link, and, where it is there, a file
      that opens. */
  ghost predicate CleanFixture(root: Node, fixture: string) {
    && Inside(fixture)
    && !Linked(root, Split(fixture, '/'))
    && var at := Lookup(root, Split(fixture, '/'));
       at.Missing? || (at.Reached? && at.node.File? && at.node.opens)
  }

  ghost predicate Clean(root: Node, services: seq<string>, fixtures: seq<string>) {
    && (forall d | d in Directories(services) :: CleanDirectory(root, d))
    && (forall f | f in fixtures :: CleanFixture(root, f))
  }

  /** What `digest` is given of a checkout: every file of it that belongs to the tree. */
  ghost function Belonging(root: Node, services: seq<string>, fixtures: seq<string>): map<string, string> {
    map p | p in AllFiles(root) && Holds(p, services, set f | f in fixtures) :: BytesAt(root, p)
  }

  /** Whether `directory` names one. */
  predicate IsDirectory(root: Node, directory: string) {
    var at := Lookup(root, Split(directory, '/'));
    at.Reached? && at.node.Dir?
  }

  ghost function FilesBeneath(root: Node, directory: string): set<string> {
    set p | p in AllFiles(root) && StartsWith(p, directory + "/")
  }

  ghost function FilesUnder(root: Node, directories: seq<string>): set<string> {
    set p | p in AllFiles(root) && UnderAny(p, directories)
  }

  /** The places of `paths`, each from the root its directory is under. */
  function Placed(directory: string, paths: seq<string>): set<string> {
    set i | 0 <= i < |paths| :: directory + "/" + paths[i]
  }

  /** The files a named directory holds, by their paths from the checkout's root. */
  lemma FilesOfDirectory(root: Node, directory: string, relative: string)
    requires Sound(root) && root.Dir?
    requires Inside(directory)
    requires IsDirectory(root, directory)
    ensures Times(Files, relative, "", Lookup(root, Split(directory, '/')).node.entries) > 0
       <==> directory + "/" + relative in AllFiles(root)
  {
    var over := Split(directory, '/');
    var node := Lookup(root, over).node;
    var path := directory + "/" + relative;
    SoundBelow(root, over);
    assert Sound(Dir(true, node.entries));
    TimesLead(relative, "", node.entries);
    assert FileNames(Dir(true, node.entries)) == FileNames(node);
    AllFilesLookUp(root, path);
    SplitOfConcat(directory, relative, '/');
    var rest := Split(relative, '/');
    LookupOn(root, over, rest);
    FileNamesLookUp(node, rest);
    JoinOfSplit(relative, '/');
    if LeadsIn(relative, "", node.entries) {
      var q :| q in FileNames(node) && q != [] && relative == Join(q, '/');
      FileNamesLookUp(node, q);
      SplitOfJoin(q, '/');
    }
  }

  /** A file beneath a named directory lies in it, and the directory is there. */
  lemma DirectoryOfFile(root: Node, directory: string, path: string)
    requires Sound(root) && root.Dir?
    requires path in AllFiles(root) && StartsWith(path, directory + "/")
    ensures IsDirectory(root, directory)
    ensures path == directory + "/" + path[|directory| + 1..]
  {
    var rest := path[|directory| + 1..];
    assert path == directory + ['/'] + rest;
    SplitOfConcat(directory, rest, '/');
    AllFilesLookUp(root, path);
    AboveFile(root, Split(directory, '/'), Split(rest, '/'));
  }

  ghost predicate UnderAny(path: string, directories: seq<string>) {
    exists d | d in directories :: StartsWith(path, d + "/")
  }

  /** Whether every sum is the sum of the checkout's file at its path. */
  ghost predicate TrueSums(hash: Hash, root: Node, sums: map<string, string>) {
    forall p | p in sums :: p in AllFiles(root) && sums[p] == hash(BytesAt(root, p))
  }

  /** The files the walk of a directory reports are the checkout's files beneath it. */
  lemma WalkedPathsBelong(root: Node, directory: string, paths: seq<string>)
    requires Sound(root) && root.Dir?
    requires Inside(directory)
    requires IsDirectory(root, directory)
    requires forall p :: multiset(paths)[p] == Times(Files, p, "", Lookup(root, Split(directory, '/')).node.entries)
    ensures forall p | p in AllFiles(root) && StartsWith(p, directory + "/") ::
              exists i :: 0 <= i < |paths| && p == directory + "/" + paths[i]
    ensures forall i | 0 <= i < |paths| :: directory + "/" + paths[i] in AllFiles(root)
  {
    forall p | p in AllFiles(root) && StartsWith(p, directory + "/")
      ensures exists i :: 0 <= i < |paths| && p == directory + "/" + paths[i]
    {
      DirectoryOfFile(root, directory, p);
      var relative := p[|directory| + 1..];
      FilesOfDirectory(root, directory, relative);
      assert relative in multiset(paths);
      var i :| 0 <= i < |paths| && paths[i] == relative;
    }
    forall i | 0 <= i < |paths|
      ensures directory + "/" + paths[i] in AllFiles(root)
    {
      assert paths[i] in multiset(paths);
      FilesOfDirectory(root, directory, paths[i]);
    }
  }

  /** The walk's paths all open exactly where every file beneath the directory does. */
  lemma BeneathOpens(root: Node, directory: string, paths: seq<string>)
    requires forall p | p in AllFiles(root) && StartsWith(p, directory + "/") ::
               exists i :: 0 <= i < |paths| && p == directory + "/" + paths[i]
    requires forall i | 0 <= i < |paths| :: directory + "/" + paths[i] in AllFiles(root)
    ensures (forall i | 0 <= i < |paths| :: OpensAt(root, directory + "/" + paths[i]))
       <==> AllOpen(root, FilesBeneath(root, directory))
  {
    hide OpensAt, AllFiles;
    forall i | 0 <= i < |paths|
      ensures directory + "/" + paths[i] in FilesBeneath(root, directory)
    {
      assert (directory + "/" + paths[i])[..|directory| + 1] == directory + "/";
    }
  }

  lemma PlacedBeneath(root: Node, directory: string, paths: seq<string>)
    requires forall p | p in AllFiles(root) && StartsWith(p, directory + "/") ::
               exists i :: 0 <= i < |paths| && p == directory + "/" + paths[i]
    requires forall i | 0 <= i < |paths| :: directory + "/" + paths[i] in AllFiles(root)
    ensures Placed(directory, paths) == FilesBeneath(root, directory)
  {
    hide AllFiles;
    forall i | 0 <= i < |paths|
      ensures directory + "/" + paths[i] in FilesBeneath(root, directory)
    {
      assert (directory + "/" + paths[i])[..|directory| + 1] == directory + "/";
    }
  }

  lemma NothingBeneath(root: Node, directory: string)
    requires Sound(root) && root.Dir?
    requires !IsDirectory(root, directory)
    ensures forall p | p in AllFiles(root) :: !StartsWith(p, directory + "/")
  {
    forall p | p in AllFiles(root)
      ensures !StartsWith(p, directory + "/")
    {
      if StartsWith(p, directory + "/") {
        DirectoryOfFile(root, directory, p);
      }
    }
  }

  /** The sum of each of the `paths` beneath a directory, put beside those given, where each opens. */
  method PutEach(hash: Hash, root: Node, directory: string, paths: seq<string>, given: map<string, string>)
    returns (r: Result<map<string, string>, Refused>)
    requires TrueSums(hash, root, given)
    requires forall i | 0 <= i < |paths| :: directory + "/" + paths[i] in AllFiles(root)
    ensures r.Ok? <==> forall i | 0 <= i < |paths| :: OpensAt(root, directory + "/" + paths[i])
    ensures r.Ok? ==> TrueSums(hash, root, r.value)
    ensures r.Ok? ==> r.value.Keys == given.Keys + Placed(directory, paths)
    ensures r.Err? ==> r.error.Unread?
  {
    var sums := given;
    for i := 0 to |paths|
      invariant TrueSums(hash, root, sums)
      invariant sums.Keys == given.Keys + Placed(directory, paths[..i])
      invariant forall j | 0 <= j < i :: OpensAt(root, directory + "/" + paths[j])
    {
      PlacedMore(directory, paths, i);
      var path := directory + "/" + paths[i];
      if !OpensAt(root, path) {
        return Err(Unread(path));
      }
      var sum := Digested(hash, BytesAt(root, path));
      sums := sums[path := sum];
    }
    assert paths[..|paths|] == paths;
    r := Ok(sums);
  }

  lemma PlacedMore(directory: string, paths: seq<string>, i: nat)
    requires i < |paths|
    ensures Placed(directory, paths[..i + 1]) == Placed(directory, paths[..i]) + {directory + "/" + paths[i]}
  {
    var more := paths[..i + 1];
    assert forall j | 0 <= j < i :: more[j] == paths[..i][j];
    assert more[i] == paths[i];
  }

  ghost function Among(files: set<string>, named: seq<string>): set<string> {
    set p | p in files && p in named
  }

  lemma FixtureOneMore(files: set<string>, fixtures: seq<string>, i: nat)
    requires i < |fixtures|
    ensures Among(files, fixtures[..i + 1]) == Among(files, fixtures[..i]) + ({fixtures[i]} * files)
  {
    assert fixtures[..i + 1] == fixtures[..i] + [fixtures[i]];
  }

  lemma UnderOneMore(directories: seq<string>, i: nat)
    requires i < |directories|
    ensures forall p :: UnderAny(p, directories[..i + 1])
                   <==> UnderAny(p, directories[..i]) || StartsWith(p, directories[i] + "/")
  {
    assert directories[..i + 1] == directories[..i] + [directories[i]];
    forall p
      ensures UnderAny(p, directories[..i + 1])
         <==> UnderAny(p, directories[..i]) || StartsWith(p, directories[i] + "/")
    {
      if UnderAny(p, directories[..i]) {
        var d :| d in directories[..i] && StartsWith(p, d + "/");
        assert d in directories[..i + 1];
      }
      if StartsWith(p, directories[i] + "/") {
        assert directories[i] in directories[..i + 1];
      }
    }
  }

  function SumsOf(hash: Hash, files: map<string, string>): map<string, string> {
    map p | p in files :: hash(files[p])
  }

  /** A path belongs to the tree where it is under one of its directories or is a fixture of it. */
  lemma HoldsUnder(path: string, services: seq<string>, fixtures: seq<string>)
    ensures Holds(path, services, set f | f in fixtures) <==> UnderAny(path, Directories(services)) || path in fixtures
  {
    var directories := Directories(services);
    if StartsWith(path, CONFORMANCE + "/") {
      assert directories[|services|] in directories;
    }
    if id :| id in services && StartsWith(path, CONFIG + "/" + id + "/") {
      var i :| 0 <= i < |services| && services[i] == id;
      assert directories[i] in directories;
    }
    if UnderAny(path, directories) {
      var d :| d in directories && StartsWith(path, d + "/");
      var i :| 0 <= i < |directories| && directories[i] == d;
      if i < |services| {
        assert services[i] in services;
      }
    }
  }

  /** The walk's paths are exactly those that belong. */
  lemma SumsBelong(hash: Hash, root: Node, services: seq<string>, fixtures: seq<string>,
                   sums: map<string, string>)
    requires TrueSums(hash, root, sums)
    requires sums.Keys == FilesUnder(root, Directories(services)) + Among(AllFiles(root), fixtures)
    ensures sums == SumsOf(hash, Belonging(root, services, fixtures))
  {
    hide Holds, UnderAny, Directories, AllFiles, BytesAt;
    forall p
      ensures Holds(p, services, set f | f in fixtures) <==> UnderAny(p, Directories(services)) || p in fixtures
    {
      HoldsUnder(p, services, fixtures);
    }
    assert sums.Keys == Belonging(root, services, fixtures).Keys;
  }
}
