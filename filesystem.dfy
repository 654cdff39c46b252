/** The part of the operating system's file system index/indexing.go relies
    on: directories listed in a fixed order, files holding text, and the
    directories the search engine keeps its indexes in. */
module FileSystem {
  import opened Wrappers
  import opened IndexData

  /** A path, as the list of names leading to it from the directory every path
      here is relative to. The empty path is Go's "". */
  type Path = seq<string>

  /** A directory with the names `Readdir` lists in their order, a file with
      its text, or an index directory seen through the documents it holds. */
  datatype Node =
    | Dir(entries: seq<string>)
    | File(data: string)
    | Store(docs: map<string, IndexedSession>)
  {
    /** What `FileInfo.IsDir` answers: an index is a directory too. */
    predicate IsDir() { Dir? || Store? }
  }

  type Nodes = map<Path, Node>

  /** What `Readdir` lists for a directory, in order. The files the search
      engine keeps inside an index directory are not modelled: it lists
      nothing. */
  function Listing(n: Node): seq<string> {
    if n.Dir? then n.entries else []
  }

  /** Whether `FileInfo.IsDir` holds for what is at p. */
  predicate IsDirAt(nodes: Nodes, p: Path) {
    p in nodes && nodes[p].IsDir()
  }

  /** filepath.Join(dir, name) for a plain name. */
  function Join(dir: Path, name: string): (p: Path)
    ensures |p| == |dir| + 1 && p[..|dir|] == dir && p[|dir|] == name
  {
    dir + [name]
  }

  /** filepath.Base: the last name of a path, "." for the empty one. */
  function Base(p: Path): string {
    if p == [] then "." else p[|p| - 1]
  }

  function Parent(p: Path): Path
    requires p != []
  {
    p[..|p| - 1]
  }

  /** The listing without one name. */
  function Without(entries: seq<string>, name: string): (r: seq<string>)
    ensures name !in r
    ensures forall e :: e in r <==> e in entries && e != name
  {
    if entries == [] then []
    else (if entries[0] == name then [] else [entries[0]]) + Without(entries[1..], name)
  }

  /** p's name added to its parent's listing, when the parent is a directory
      that does not list it yet. */
  function Listed(nodes: Nodes, p: Path): Nodes
    requires p != []
  {
    var dir := Parent(p);
    if dir in nodes && nodes[dir].Dir? && Base(p) !in nodes[dir].entries then
      nodes[dir := Dir(nodes[dir].entries + [Base(p)])]
    else nodes
  }

  /** os.RemoveAll: the node at p and everything below it go, and p's name
      leaves its parent's listing. The empty path removes nothing. */
  function Removed(nodes: Nodes, p: Path): Nodes {
    if p == [] then nodes
    else
      var kept := map q | q in nodes && !(p <= q) :: nodes[q];
      var dir := Parent(p);
      if dir in kept && kept[dir].Dir? then kept[dir := Dir(Without(kept[dir].entries, Base(p)))]
      else kept
  }

  /** os.OpenFile with O_CREATE and O_TRUNC, then one write: fails when the
      parent is not a directory or p is one; otherwise p holds exactly data. */
  function Written(nodes: Nodes, p: Path, data: string): Result<Nodes, string> {
    if p == [] || Parent(p) !in nodes || !nodes[Parent(p)].IsDir() then Err("no such file or directory")
    else if p in nodes && nodes[p].IsDir() then Err("is a directory")
    else Ok(Listed(nodes, p)[p := File(data)])
  }

  /** os.MkdirAll: every missing directory along p is made; fails when a file
      stands in the way. */
  function MadeDirs(nodes: Nodes, p: Path): Result<Nodes, string>
    decreases |p|
  {
    if p == [] then Ok(nodes)
    else
      match MadeDirs(nodes, Parent(p))
      case Err(e) => Err(e)
      case Ok(made) =>
        if p in made then (if made[p].IsDir() then Ok(made) else Err("not a directory"))
        else Ok(Listed(made, p)[p := Dir([])])
  }

  /** The text of the file at p, or None when there is no file there. */
  function ReadFile(nodes: Nodes, p: Path): Option<string> {
    if p in nodes && nodes[p].File? then Some(nodes[p].data) else None
  }

  // ---------------------------------------------------------------------------
  // The file system as the program sees it: one shared, changing state

  class Disk {
    var nodes: Nodes

    constructor (nodes: Nodes)
      ensures this.nodes == nodes
    {
      this.nodes := nodes;
    }

    method RemoveAll(p: Path)
      modifies this
      ensures nodes == Removed(old(nodes), p)
    {
      nodes := Removed(nodes, p);
    }

    method WriteFile(p: Path, data: string) returns (err: Option<string>)
      modifies this
      ensures err.None? <==> Written(old(nodes), p, data).Ok?
      ensures err.None? ==> nodes == Written(old(nodes), p, data).value
      ensures err.Some? ==> nodes == old(nodes)
    {
      match Written(nodes, p, data)
      case Err(e) => err := Some(e);
      case Ok(after) => nodes := after; err := None;
    }

    method MkdirAll(p: Path) returns (err: Option<string>)
      modifies this
      ensures err.None? <==> MadeDirs(old(nodes), p).Ok?
      ensures err.None? ==> nodes == MadeDirs(old(nodes), p).value
      ensures err.Some? ==> nodes == old(nodes)
    {
      match MadeDirs(nodes, p)
      case Err(e) => err := Some(e);
      case Ok(after) => nodes := after; err := None;
    }

    /** bleve.New on disk, as the model takes it: an empty index directory at
      p, whose parent must already be a directory and where nothing may exist
      yet. bleve.New itself also makes missing parents and accepts an existing
      directory that holds no index yet; the model does not. */
    method CreateStore(p: Path) returns (err: Option<string>)
      modifies this
      ensures err.None? <==> p != [] && Parent(p) in old(nodes) && old(nodes)[Parent(p)].IsDir() && p !in old(nodes)
      ensures err.None? ==> nodes == Listed(old(nodes), p)[p := Store(map[])]
      ensures err.Some? ==> nodes == old(nodes)
    {
      if p == [] || Parent(p) !in nodes || !nodes[Parent(p)].IsDir() {
        err := Some("no such file or directory");
      } else if p in nodes {
        err := Some("cannot create new index, path already exists");
      } else {
        nodes := Listed(nodes, p)[p := Store(map[])];
        err := None;
      }
    }

    /** What the index at p holds once a build has written to it. */
    method SaveDocs(p: Path, docs: map<string, IndexedSession>)
      modifies this
      ensures p in old(nodes) && old(nodes)[p].Store? ==> nodes == old(nodes)[p := Store(docs)]
      ensures !(p in old(nodes) && old(nodes)[p].Store?) ==> nodes == old(nodes)
    {
      if p in nodes && nodes[p].Store? {
        nodes := nodes[p := Store(docs)];
      }
    }
  }

  // ---------------------------------------------------------------------------
  // Properties

  /** Base reads back the name Join appended: a collection's slug is its
      folder's name. */
  lemma BaseOfJoin(dir: Path, name: string)
    ensures Base(Join(dir, name)) == name
  {
  }

  /** RemoveAll takes away exactly the subtree at a non-empty p; every other
      node stays as it was, except that p's parent no longer lists it. */
  lemma RemovedSubtree(nodes: Nodes, p: Path)
    requires p != []
    ensures forall q :: q in Removed(nodes, p) <==> q in nodes && !(p <= q)
    ensures forall q :: q in Removed(nodes, p) && q != Parent(p) ==> Removed(nodes, p)[q] == nodes[q]
    ensures Parent(p) in Removed(nodes, p) && nodes[Parent(p)].Dir? ==>
      Removed(nodes, p)[Parent(p)].entries == Without(nodes[Parent(p)].entries, Base(p))
  {
    assert !(p <= Parent(p));
  }

  lemma {:induction false} WithoutIdempotent(entries: seq<string>, name: string)
    ensures Without(Without(entries, name), name) == Without(entries, name)
  {
    if entries != [] {
      WithoutIdempotent(entries[1..], name);
      var r, tail := Without(entries, name), Without(entries[1..], name);
      if entries[0] != name {
        assert r == [entries[0]] + tail;
        assert r[0] == entries[0] && r[1..] == tail;
      } else {
        assert r == [] + tail == tail;
      }
    }
  }

  /** Removing twice is removing once. */
  lemma RemoveAllIdempotent(nodes: Nodes, p: Path)
    ensures Removed(Removed(nodes, p), p) == Removed(nodes, p)
  {
    if p != [] {
      var once := Removed(nodes, p);
      RemovedSubtree(nodes, p);
      RemovedSubtree(once, p);
      if Parent(p) in once && once[Parent(p)].Dir? {
        WithoutIdempotent(nodes[Parent(p)].entries, Base(p));
      }
    }
  }

  /** What a successful write puts at p is what a read gives back. */
  lemma WriteThenRead(nodes: Nodes, p: Path, data: string)
    requires Written(nodes, p, data).Ok?
    ensures ReadFile(Written(nodes, p, data).value, p) == Some(data)
  {
  }

  /** A write changes nothing but p and its parent's listing. */
  lemma WriteLeavesOthers(nodes: Nodes, p: Path, data: string, q: Path)
    requires Written(nodes, p, data).Ok? && q != p && q != Parent(p)
    ensures q in Written(nodes, p, data).value <==> q in nodes
    ensures q in nodes ==> Written(nodes, p, data).value[q] == nodes[q]
  {
  }

  /** After MkdirAll succeeds there is a directory at p and along the way, and
      nothing that was there before has gone. */
  lemma {:induction false} MadeDirsMakesPath(nodes: Nodes, p: Path)
    requires MadeDirs(nodes, p).Ok?
    ensures forall k :: 0 < k <= |p| ==> p[..k] in MadeDirs(nodes, p).value && MadeDirs(nodes, p).value[p[..k]].IsDir()
    ensures forall q :: q in nodes ==> q in MadeDirs(nodes, p).value
    decreases |p|
  {
    if p != [] {
      MadeDirsMakesPath(nodes, Parent(p));
      forall k | 0 < k < |p|
        ensures p[..k] == Parent(p)[..k]
      {
      }
      assert p[..|p|] == p;
    }
  }

  /** MkdirAll adds nothing but the directories along p. */
  lemma {:induction false} MadeDirsOnlyAlongPath(nodes: Nodes, p: Path)
    requires MadeDirs(nodes, p).Ok?
    ensures forall q :: q in MadeDirs(nodes, p).value && q !in nodes ==> q <= p && q != []
    decreases |p|
  {
    if p != [] {
      MadeDirsOnlyAlongPath(nodes, Parent(p));
    }
  }

  /** RemoveAll leaves a node of the same depth elsewhere as it was. */
  lemma RemovedSibling(nodes: Nodes, p: Path, q: Path)
    requires p != [] && |q| == |p| && q != p && q in nodes
    ensures q in Removed(nodes, p) && Removed(nodes, p)[q] == nodes[q]
  {
    RemovedSubtree(nodes, p);
  }
}
