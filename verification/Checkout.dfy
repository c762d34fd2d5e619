/** The digest `of` a checkout, summed while directories and fixtures are walked, is the digest that
    membership alone defines. */
module Checkout {
  import opened Outcomes
  import opened Texts
  import opened Trees
  import opened TreeDigest
  import opened Lookups
  import opened CheckoutFiles

  /** The directory part of `of`: the sums of every file of one directory put beside those given. */
  method SummedDirectory(hash: Hash, root: Node, directory: string, given: map<string, string>)
    returns (r: Result<map<string, string>, Refused>)
    requires Sound(root) && root.Dir?
    requires TrueSums(hash, root, given)
    ensures r.Ok? <==> CleanDirectory(root, directory)
    ensures r.Ok? ==> TrueSums(hash, root, r.value)
    ensures r.Ok? ==> r.value.Keys == given.Keys + FilesBeneath(root, directory)
    ensures r.Err? && r.error.Rules? ==> r.error.broken != {}
  {
    if !Inside(directory) {
      return Err(Rules({Outside(directory)}));
    }
    var names := Split(directory, '/');
    if Linked(root, names) {
      return Err(Rules({Linking(Join(FirstLink(root, names), '/'))}));
    }
    var at := Lookup(root, names);
    if !at.Reached? || !at.node.Dir? {
      NothingBeneath(root, directory);
      return Ok(given);
    }
    hide CleanWithin;
    r := SummedWithin(hash, root, directory, at.node, given);
  }

  /** The walk of one directory that is there, and the sum of each file it finds. */
  method SummedWithin(hash: Hash, root: Node, directory: string, node: Node, given: map<string, string>)
    returns (r: Result<map<string, string>, Refused>)
    requires Sound(root) && root.Dir?
    requires TrueSums(hash, root, given)
    requires Inside(directory)
    requires IsDirectory(root, directory) && node == Lookup(root, Split(directory, '/')).node
    ensures r.Ok? <==> CleanWithin(root, directory, node)
    ensures r.Ok? ==> TrueSums(hash, root, r.value)
    ensures r.Ok? ==> r.value.Keys == given.Keys + FilesBeneath(root, directory)
    ensures r.Err? && r.error.Rules? ==> r.error.broken != {}
  {
    hide Lookup, TrueSums, AllFiles, FilesBeneath, AllOpen, Times;
    var found := Found(node);
    if found.Err? {
      return Err(Unread(directory));
    }
    var (paths, links) := found.value;
    if links != [] {
      var broken := set i | 0 <= i < |links| :: Linking(directory + "/" + links[i]);
      assert multiset(links)[links[0]] > 0;
      assert Times(Links, links[0], "", node.entries) > 0;
      assert Linking(directory + "/" + links[0]) in broken;
      return Err(Rules(broken));
    }
    forall p
      ensures Times(Links, p, "", node.entries) == 0
    {
      assert multiset(links)[p] == 0;
    }
    WalkedPathsBelong(root, directory, paths);
    BeneathOpens(root, directory, paths);
    r := PutEach(hash, root, directory, paths, given);
    if r.Ok? {
      PlacedBeneath(root, directory, paths);
    }
  }

  /** The fixture part of `of`: the sum of one fixture put beside those given, where it is there. */
  method SummedFixture(hash: Hash, root: Node, fixture: string, given: map<string, string>)
    returns (r: Result<map<string, string>, Refused>)
    requires Sound(root) && root.Dir?
    requires TrueSums(hash, root, given)
    ensures r.Ok? <==> CleanFixture(root, fixture)
    ensures r.Ok? ==> TrueSums(hash, root, r.value)
    ensures r.Ok? ==> r.value.Keys == given.Keys + ({fixture} * AllFiles(root))
    ensures r.Err? && r.error.Rules? ==> r.error.broken != {}
  {
    if !Inside(fixture) {
      return Err(Rules({Outside(fixture)}));
    }
    if Linked(root, Split(fixture, '/')) {
      return Err(Rules({Linking(Join(FirstLink(root, Split(fixture, '/')), '/'))}));
    }
    AllFilesLookUp(root, fixture);
    match Lookup(root, Split(fixture, '/')) {
      case Reached(File(true, bytes)) =>
        var sum := Digested(hash, bytes);
        return Ok(given[fixture := sum]);
      case Missing =>
        return Ok(given);
      case _ =>
        return Err(Unread(fixture));
    }
  }

  /** The sums of every file beneath the named directories, with what the rules refuse of them. */
  method SummedDirectories(hash: Hash, root: Node, directories: seq<string>)
    returns (sums: map<string, string>, refused: set<Refusal>, unread: Option<string>)
    requires Sound(root) && root.Dir?
    ensures TrueSums(hash, root, sums)
    ensures refused == {} && unread.None? <==> forall d | d in directories :: CleanDirectory(root, d)
    ensures refused == {} && unread.None? ==>
              sums.Keys == FilesUnder(root, directories)
  {
    sums, refused, unread := map[], {}, None;
    for i := 0 to |directories|
      invariant TrueSums(hash, root, sums)
      invariant refused == {} <==> forall j | 0 <= j < i :: CleanDirectory(root, directories[j])
      invariant refused == {} ==> sums.Keys == FilesUnder(root, directories[..i])
    {
      var summed := SummedDirectory(hash, root, directories[i], sums);
      UnderOneMore(directories, i);
      match summed {
        case Ok(more) =>
          sums := more;
        case Err(Rules(broken)) =>
          refused := refused + broken;
        case Err(Unread(path)) =>
          unread := Some(path);
          return;
      }
    }
    assert directories[..|directories|] == directories;
  }

  /** The sums of the named fixtures put beside those given, with what the rules refuse of them. */
  method SummedFixtures(hash: Hash, root: Node, fixtures: seq<string>, given: map<string, string>)
    returns (sums: map<string, string>, refused: set<Refusal>, unread: Option<string>)
    requires Sound(root) && root.Dir?
    requires TrueSums(hash, root, given)
    ensures TrueSums(hash, root, sums)
    ensures refused == {} && unread.None? <==> forall f | f in fixtures :: CleanFixture(root, f)
    ensures refused == {} && unread.None? ==>
              sums.Keys == given.Keys + Among(AllFiles(root), fixtures)
  {
    sums, refused, unread := given, {}, None;
    for i := 0 to |fixtures|
      invariant TrueSums(hash, root, sums)
      invariant refused == {} <==> forall j | 0 <= j < i :: CleanFixture(root, fixtures[j])
      invariant refused == {} ==> sums.Keys == given.Keys + Among(AllFiles(root), fixtures[..i])
    {
      var summed := SummedFixture(hash, root, fixtures[i], sums);
      match summed {
        case Ok(more) =>
          FixtureOneMore(AllFiles(root), fixtures, i);
          sums := more;
        case Err(Rules(broken)) =>
          refused := refused + broken;
        case Err(Unread(path)) =>
          unread := Some(path);
          return;
      }
    }
    assert fixtures[..|fixtures|] == fixtures;
  }

  /** The digest of the checkout at `root`, for a manifest with these services and these fixtures.
      It is refused exactly where the checkout is not clean, and otherwise it
      is the digest of every file of the checkout that belongs to the tree: a file reached through a
      directory and through a fixture too counts once, and no file beside them counts. */
  method DigestOf(hash: Hash, root: Node, manifest: string, services: seq<string>, fixtures: seq<string>)
    returns (r: Result<string, Refused>)
    requires Sound(root) && root.Dir?
    ensures r.Ok? <==> Clean(root, services, fixtures)
    ensures r.Ok? ==> r.value == Digest(hash, manifest, Belonging(root, services, fixtures))
  {
    var beneath, linked, unread := SummedDirectories(hash, root, Directories(services));
    if unread.Some? {
      return Err(Unread(unread.value));
    }
    var sums, others, missed := SummedFixtures(hash, root, fixtures, beneath);
    if missed.Some? {
      return Err(Unread(missed.value));
    }
    if linked + others != {} {
      return Err(Rules(linked + others));
    }
    assert linked == {} && others == {};
    var digest := Listed(hash, manifest, sums);
    SumsBelong(hash, root, services, fixtures, sums);
    return Ok(digest);
  }
}
