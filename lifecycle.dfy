/** Building, replacing and opening indexes (index/indexing.go): a new index
    in its own directory under the index root, the `.state` file that says
    which data revision and which directory are live, one pass of the update
    watcher and its loop, and the start-up choice between opening an index
    and building one. */
module Lifecycle {
  import opened Wrappers
  import opened IndexData
  import opened FileSystem
  import opened Indexing

  // ---------------------------------------------------------------------------
  // createNewIndex

  /** Whether the model lets bleve.New make an index at p: the parent is a
      directory and p is a fresh name. */
  predicate CanCreate(nodes: Nodes, p: Path) {
    p != [] && IsDirAt(nodes, Parent(p)) && p !in nodes
  }

  /** The disk just after bleve.New made an empty index at p. */
  function WithStore(nodes: Nodes, p: Path): Nodes
    requires p != []
  {
    Listed(nodes, p)[p := Store(map[])]
  }

  /** createNewIndex, as a value: the new index's path or the error, and the
      disk after. The walk fills the new index; when it fails the half-filled
      index stays on disk. */
  function Created(env: Env, ctx: Context, nodes: Nodes, p: Path, dataPath: Path): (Result<Path, string>, Nodes) {
    if !CanCreate(nodes, p) then (Err("Failed to create new index"), nodes)
    else
      var made := WithStore(nodes, p);
      var filled := Filled(env, ctx, made, dataPath, map[]);
      (if filled.0.Some? then Err(filled.0.value) else Ok(p), made[p := Store(filled.1)])
  }

  /** createNewIndex: an empty index, filled from the data folder. */
  method CreateNewIndex(env: Env, ctx: Context, disk: Disk, p: Path, dataPath: Path) returns (r: Result<Index, string>)
    modifies disk
    ensures r.Ok? <==> Created(env, ctx, old(disk.nodes), p, dataPath).0.Ok?
    ensures r.Ok? ==> fresh(r.value) && r.value.path == p
    ensures r.Err? ==> r.error == Created(env, ctx, old(disk.nodes), p, dataPath).0.error
    ensures disk.nodes == Created(env, ctx, old(disk.nodes), p, dataPath).1
  {
    var err := disk.CreateStore(p);
    if err.Some? {
      return Err("Failed to create new index");
    }
    var engine := new Engine();
    var fillErr := FillIndex(env, ctx, engine, disk, dataPath);
    disk.SaveDocs(p, engine.docs);
    if fillErr.Some? {
      return Err(fillErr.value);
    }
    var idx := new Index(p);
    r := Ok(idx);
  }

  /** What createNewIndex touches: it adds the index at p, holding exactly
      what the walk put in, whether or not the walk failed, and changes
      nothing else but p's parent's listing. */
  lemma CreatedFrame(env: Env, ctx: Context, nodes: Nodes, p: Path, dataPath: Path)
    ensures var after := Created(env, ctx, nodes, p, dataPath).1;
      && (forall q :: q in after <==> q in nodes || (q == p && CanCreate(nodes, p)))
      && (forall q :: q in nodes && q != p && (p == [] || q != Parent(p)) ==> after[q] == nodes[q])
    ensures Created(env, ctx, nodes, p, dataPath).0.Ok? <==>
      CanCreate(nodes, p) && Filled(env, ctx, WithStore(nodes, p), dataPath, map[]).0.None?
    ensures CanCreate(nodes, p) ==>
      Created(env, ctx, nodes, p, dataPath).1[p] == Store(Filled(env, ctx, WithStore(nodes, p), dataPath, map[]).1)
  {
  }

  /** Once a new index was made beside a `.state` that could be read,
      `.state` can still be written: it is a file in a directory. */
  lemma StateStillWritable(env: Env, ctx: Context, nodes: Nodes, indexPath: Path, name: string, dataPath: Path, data: string)
    requires ReadState(env.codec, nodes, indexPath).Ok?
    requires Created(env, ctx, nodes, Join(indexPath, name), dataPath).0.Ok?
    ensures Written(Created(env, ctx, nodes, Join(indexPath, name), dataPath).1, Join(indexPath, StateFile), data).Ok?
  {
    CreatedFrame(env, ctx, nodes, Join(indexPath, name), dataPath);
  }

  // ---------------------------------------------------------------------------
  // One pass of WatchForUpdates

  /** How a pass ends: the context was done, an error ended the watcher, or
      it goes on after its sleep. */
  datatype Outcome = Stopped | Failed(reason: string) | Continuing

  /** How writing `.state` goes, for reasons the disk model does not track.
      The open may fail (permissions), and the file is left alone. Or the
      open truncates the file and the encoder fails (a full disk) after
      `kept` runes of the encoding reached it. */
  datatype StateWrite = WriteOk | OpenFails(error: string) | EncodeFails(error: string, kept: nat)

  /** The part of the encoding a failing encoder got to write. */
  function PartOf(data: string, kept: nat): string {
    if kept < |data| then data[..kept] else data
  }

  /** What a pass learns from outside the disk: whether the context is done
      at its start, the result of `git pull` and of reading HEAD, the fresh
      name for a new index, the context as the walk of a rebuild sees it, and
      how the writing of `.state` goes. */
  datatype Upstream = Upstream(
    stopped: bool,
    pulled: Option<string>,
    ref: Result<string, string>,
    newName: string,
    ctx: Context,
    stateWrite: StateWrite)

  /** What a pass leaves: its outcome, the disk, and the index it handed
      over, if any. */
  datatype Pass = Pass(outcome: Outcome, nodes: Nodes, published: Option<Path>)

  /** One pass of WatchForUpdates, as a value. */
  function PassOf(env: Env, nodes: Nodes, indexPath: Path, dataPath: Path, deleteOld: bool, up: Upstream): Pass {
    if up.stopped then Pass(Stopped, nodes, None)
    else if up.pulled.Some? then Pass(Failed(up.pulled.value), nodes, None)
    else if up.ref.Err? then Pass(Failed(up.ref.error), nodes, None)
    else
      match ReadState(env.codec, nodes, indexPath)
      case Err(e) => Pass(Failed(e), nodes, None)
      case Ok(st) =>
        match FoundIndex(nodes, indexPath)
        case Err(e) => Pass(Failed(e), nodes, None)
        case Ok(oldIndex) =>
          if st.ref == up.ref.value then Pass(Continuing, nodes, None)
          else Rebuilt(env, nodes, indexPath, dataPath, deleteOld, up, oldIndex)
  }

  /** The rest of a pass once the revisions differ: build the new index,
      record it in `.state`, remove the old index if asked to, hand the new
      one over. */
  function Rebuilt(env: Env, nodes: Nodes, indexPath: Path, dataPath: Path, deleteOld: bool, up: Upstream, oldIndex: Option<Path>): Pass
    requires up.ref.Ok?
  {
    var p := Join(indexPath, up.newName);
    var created := Created(env, up.ctx, nodes, p, dataPath);
    if created.0.Err? then Pass(Failed(created.0.error), created.1, None)
    else
      match up.stateWrite
      case OpenFails(e) => Pass(Failed(e), created.1, None)
      case EncodeFails(e, kept) =>
        var data := PartOf(env.codec.encodeState(State(up.ref.value, up.newName)), kept);
        (match Written(created.1, Join(indexPath, StateFile), data)
         case Err(openError) => Pass(Failed(openError), created.1, None)
         case Ok(truncated) => Pass(Failed(e), truncated, None))
      case WriteOk =>
        match StateWritten(env.codec, created.1, indexPath, State(up.ref.value, up.newName))
        case Err(e) => Pass(Failed(e), created.1, None)
        case Ok(written) =>
          Pass(Continuing, if oldIndex.Some? && deleteOld then Removed(written, oldIndex.value) else written, Some(p))
  }

  /** The passes from the first of `ups` on, until one does not go on. */
  function Run(env: Env, nodes: Nodes, indexPath: Path, dataPath: Path, deleteOld: bool, ups: seq<Upstream>, published: seq<Path>)
    : (Outcome, Nodes, seq<Path>)
    decreases |ups|
  {
    if ups == [] then (Continuing, nodes, published)
    else
      var pass := PassOf(env, nodes, indexPath, dataPath, deleteOld, ups[0]);
      var handed := published + (if pass.published.Some? then [pass.published.value] else []);
      if pass.outcome != Continuing then (pass.outcome, pass.nodes, handed)
      else Run(env, pass.nodes, indexPath, dataPath, deleteOld, ups[1..], handed)
  }

  /** The update watcher: its settings, the disk, and the indexes it has
      handed over on its channel, oldest first. */
  class Watcher {
    const env: Env
    const indexPath: Path
    const dataPath: Path
    const deleteOldIndex: bool
    const disk: Disk
    var published: seq<Path>

    constructor (env: Env, indexPath: Path, dataPath: Path, deleteOldIndex: bool, disk: Disk)
      ensures this.env == env && this.indexPath == indexPath && this.dataPath == dataPath
      ensures this.deleteOldIndex == deleteOldIndex && this.disk == disk && published == []
    {
      this.env := env;
      this.indexPath := indexPath;
      this.dataPath := dataPath;
      this.deleteOldIndex := deleteOldIndex;
      this.disk := disk;
      published := [];
    }

    /** One pass: compare the data revision with the one `.state` records,
        and on a difference build a new index, record it, drop the old one
        if asked to, and hand the new one over. */
    method Step(up: Upstream) returns (outcome: Outcome)
      modifies this, disk
      ensures var pass := PassOf(env, old(disk.nodes), indexPath, dataPath, deleteOldIndex, up);
        && outcome == pass.outcome && disk.nodes == pass.nodes
        && published == old(published) + (if pass.published.Some? then [pass.published.value] else [])
    {
      if up.stopped {
        return Stopped;
      }
      if up.pulled.Some? {
        return Failed(up.pulled.value);
      }
      if up.ref.Err? {
        return Failed(up.ref.error);
      }
      var ref := up.ref.value;
      var idxRef := ReadState(env.codec, disk.nodes, indexPath);
      if idxRef.Err? {
        return Failed(idxRef.error);
      }
      var oldIdx := FindIndex(disk, indexPath);
      if oldIdx.Err? {
        return Failed(oldIdx.error);
      }
      if idxRef.value.ref != ref {
        outcome := Rebuild(up, oldIdx.value);
      } else {
        outcome := Continuing;
      }
    }

    /** The rest of a pass once the revisions differ, on a disk whose
        `.state` was read. */
    method Rebuild(up: Upstream, oldIndex: Option<Path>) returns (outcome: Outcome)
      requires up.ref.Ok? && ReadState(env.codec, disk.nodes, indexPath).Ok?
      modifies this, disk
      ensures var pass := Rebuilt(env, old(disk.nodes), indexPath, dataPath, deleteOldIndex, up, oldIndex);
        && outcome == pass.outcome && disk.nodes == pass.nodes
        && published == old(published) + (if pass.published.Some? then [pass.published.value] else [])
    {
      var p := Join(indexPath, up.newName);
      var idx := CreateNewIndex(env, up.ctx, disk, p, dataPath);
      if idx.Err? {
        return Failed(idx.error);
      }
      if up.stateWrite.OpenFails? {
        return Failed(up.stateWrite.error);
      }
      var data := env.codec.encodeState(State(up.ref.value, up.newName));
      if up.stateWrite.EncodeFails? {
        data := PartOf(data, up.stateWrite.kept);
      }
      StateStillWritable(env, up.ctx, old(disk.nodes), indexPath, up.newName, dataPath, data);
      var err := disk.WriteFile(Join(indexPath, StateFile), data);
      // The disk model has no reason left for the open to fail.
      assert err.None?;
      if up.stateWrite.EncodeFails? {
        return Failed(up.stateWrite.error);
      }
      if oldIndex.Some? && deleteOldIndex {
        disk.RemoveAll(oldIndex.value);
      }
      published := published + [idx.value.path];
      outcome := Continuing;
    }

    /** WatchForUpdates over the passes `ups` describes: passes run until one
        stops or fails. */
    method Watch(ups: seq<Upstream>) returns (outcome: Outcome)
      modifies this, disk
      ensures (outcome, disk.nodes, published) == Run(env, old(disk.nodes), indexPath, dataPath, deleteOldIndex, ups, old(published))
    {
      var i := 0;
      while i < |ups|
        invariant 0 <= i <= |ups|
        invariant Run(env, old(disk.nodes), indexPath, dataPath, deleteOldIndex, ups, old(published))
               == Run(env, disk.nodes, indexPath, dataPath, deleteOldIndex, ups[i..], published)
      {
        assert ups[i..][0] == ups[i] && ups[i..][1..] == ups[i + 1..];
        ghost var before, handed := disk.nodes, published;
        outcome := Step(ups[i]);
        assert Run(env, before, indexPath, dataPath, deleteOldIndex, ups[i..], handed)
            == if outcome != Continuing then (outcome, disk.nodes, published)
               else Run(env, disk.nodes, indexPath, dataPath, deleteOldIndex, ups[i + 1..], published);
        if outcome != Continuing {
          return;
        }
        i := i + 1;
      }
      outcome := Continuing;
    }
  }

  // ---------------------------------------------------------------------------
  // Properties of a pass

  /** The errors before the comparison end the watcher and change nothing: a
      missing or unreadable `.state` is one of them. */
  lemma PassFailsEarly(env: Env, nodes: Nodes, indexPath: Path, dataPath: Path, deleteOld: bool, up: Upstream)
    requires !up.stopped
    requires up.pulled.Some? || up.ref.Err? || ReadState(env.codec, nodes, indexPath).Err? || FoundIndex(nodes, indexPath).Err?
    ensures PassOf(env, nodes, indexPath, dataPath, deleteOld, up).outcome.Failed?
    ensures PassOf(env, nodes, indexPath, dataPath, deleteOld, up).nodes == nodes
    ensures PassOf(env, nodes, indexPath, dataPath, deleteOld, up).published.None?
  {
  }

  /** A rebuild happens exactly when the recorded revision differs from the
      repository's; an index is handed over exactly when that rebuild and
      the writing of `.state` both succeed. */
  lemma RebuildIffRefDiffers(env: Env, nodes: Nodes, indexPath: Path, dataPath: Path, deleteOld: bool, up: Upstream)
    requires !up.stopped && up.pulled.None? && up.ref.Ok?
    requires ReadState(env.codec, nodes, indexPath).Ok? && FoundIndex(nodes, indexPath).Ok?
    ensures var pass := PassOf(env, nodes, indexPath, dataPath, deleteOld, up);
      var st := ReadState(env.codec, nodes, indexPath).value;
      var created := Created(env, up.ctx, nodes, Join(indexPath, up.newName), dataPath);
      && (st.ref == up.ref.value ==> pass == Pass(Continuing, nodes, None))
      && (pass.published.Some? <==>
            st.ref != up.ref.value && created.0.Ok? && up.stateWrite.WriteOk?
            && StateWritten(env.codec, created.1, indexPath, State(up.ref.value, up.newName)).Ok?)
  {
  }

  /** Where `.state` sits is not an index directory. */
  lemma StateIsNoIndex(env: Env, nodes: Nodes, indexPath: Path)
    requires ReadState(env.codec, nodes, indexPath).Ok?
    requires FoundIndex(nodes, indexPath).Ok? && FoundIndex(nodes, indexPath).value.Some?
    ensures var o := FoundIndex(nodes, indexPath).value.value;
      && o in nodes && |o| == |indexPath| + 1 && o[..|indexPath|] == indexPath
      && o != Join(indexPath, StateFile)
  {
    FoundIndexIsFirstDirectory(nodes, indexPath);
  }

  /** When a pass hands an index over: `.state` already records the new
      revision and the new directory, the new index is on disk, and the old
      index is gone exactly when there was one and deleting was asked for. */
  lemma PassPublishes(env: Env, nodes: Nodes, indexPath: Path, dataPath: Path, deleteOld: bool, up: Upstream)
    requires env.codec.StateRoundTrip()
    requires PassOf(env, nodes, indexPath, dataPath, deleteOld, up).published.Some?
    ensures up.ref.Ok? && FoundIndex(nodes, indexPath).Ok?
    ensures var pass := PassOf(env, nodes, indexPath, dataPath, deleteOld, up);
      var p := pass.published.value;
      && p == Join(indexPath, up.newName)
      && ReadState(env.codec, pass.nodes, indexPath) == Ok(State(up.ref.value, up.newName))
      && p in pass.nodes && pass.nodes[p].Store?
    ensures var pass := PassOf(env, nodes, indexPath, dataPath, deleteOld, up);
      var found := FoundIndex(nodes, indexPath).value;
      found.Some? ==> (found.value in pass.nodes <==> !deleteOld)
  {
    var found := FoundIndex(nodes, indexPath).value;
    if found.Some? {
      StateIsNoIndex(env, nodes, indexPath);
    }
    RebuildPublishes(env, nodes, indexPath, dataPath, deleteOld, up, found);
  }

  /** PassPublishes for the rebuilding part of a pass. */
  lemma RebuildPublishes(env: Env, nodes: Nodes, indexPath: Path, dataPath: Path, deleteOld: bool, up: Upstream, found: Option<Path>)
    requires env.codec.StateRoundTrip()
    requires up.ref.Ok? && ReadState(env.codec, nodes, indexPath).Ok?
    requires found.Some? ==> found.value in nodes && |found.value| == |indexPath| + 1 && found.value != Join(indexPath, StateFile)
    requires Rebuilt(env, nodes, indexPath, dataPath, deleteOld, up, found).published.Some?
    ensures var pass := Rebuilt(env, nodes, indexPath, dataPath, deleteOld, up, found);
      var p := pass.published.value;
      && p == Join(indexPath, up.newName)
      && ReadState(env.codec, pass.nodes, indexPath) == Ok(State(up.ref.value, up.newName))
      && p in pass.nodes && pass.nodes[p].Store?
      && (found.Some? ==> (found.value in pass.nodes <==> !deleteOld))
  {
    var p := Join(indexPath, up.newName);
    var st := State(up.ref.value, up.newName);
    var statePath := Join(indexPath, StateFile);
    var created := Created(env, up.ctx, nodes, p, dataPath);
    CreatedFrame(env, up.ctx, nodes, p, dataPath);
    var written := StateWritten(env.codec, created.1, indexPath, st).value;
    StateRoundTrip(env.codec, created.1, indexPath, st);
    assert statePath != p;
    assert p in written && written[p].Store?;
    if found.Some? {
      var o := found.value;
      assert o != p;
      assert o in written;
      if deleteOld {
        RemovedSibling(written, o, statePath);
        RemovedSibling(written, o, p);
        RemovedSubtree(written, o);
      }
    }
  }

  /** A write of `.state` that fails ends the watcher, hands nothing over
      and keeps the old index. When the open fails `.state` is as it was;
      when the encoder fails after the open truncated it, `.state` holds
      only the part of the new state that was written. */
  lemma FailedStateWriteKeepsOld(env: Env, nodes: Nodes, indexPath: Path, dataPath: Path, deleteOld: bool, up: Upstream)
    requires !up.stopped && up.pulled.None? && up.ref.Ok?
    requires ReadState(env.codec, nodes, indexPath).Ok? && FoundIndex(nodes, indexPath).Ok?
    requires ReadState(env.codec, nodes, indexPath).value.ref != up.ref.value
    requires Created(env, up.ctx, nodes, Join(indexPath, up.newName), dataPath).0.Ok?
    requires !up.stateWrite.WriteOk?
    ensures var pass := PassOf(env, nodes, indexPath, dataPath, deleteOld, up);
      && pass.outcome == Failed(up.stateWrite.error) && pass.published.None?
      && (FoundIndex(nodes, indexPath).value.Some? ==>
            FoundIndex(nodes, indexPath).value.value in pass.nodes)
    ensures up.stateWrite.OpenFails? ==>
      ReadState(env.codec, PassOf(env, nodes, indexPath, dataPath, deleteOld, up).nodes, indexPath)
        == ReadState(env.codec, nodes, indexPath)
    ensures up.stateWrite.EncodeFails? ==>
      var pass := PassOf(env, nodes, indexPath, dataPath, deleteOld, up);
      var data := env.codec.encodeState(State(up.ref.value, up.newName));
      && Join(indexPath, StateFile) in pass.nodes
      && pass.nodes[Join(indexPath, StateFile)] == File(PartOf(data, up.stateWrite.kept))
  {
    var p := Join(indexPath, up.newName);
    var statePath := Join(indexPath, StateFile);
    CreatedFrame(env, up.ctx, nodes, p, dataPath);
    assert statePath in nodes;
    var data := env.codec.encodeState(State(up.ref.value, up.newName));
    var created := Created(env, up.ctx, nodes, p, dataPath).1;
    if up.stateWrite.EncodeFails? {
      var part := PartOf(data, up.stateWrite.kept);
      StateStillWritable(env, up.ctx, nodes, indexPath, up.newName, dataPath, part);
      WriteThenRead(created, statePath, part);
      if FoundIndex(nodes, indexPath).value.Some? {
        StateIsNoIndex(env, nodes, indexPath);
        WriteLeavesOthers(created, statePath, part, FoundIndex(nodes, indexPath).value.value);
      }
    } else if FoundIndex(nodes, indexPath).value.Some? {
      StateIsNoIndex(env, nodes, indexPath);
    }
  }

  /** A `.state` the encoder truncated to text that does not decode ends
      the next watcher at once: its first pass finds `.state` unreadable,
      fails and changes nothing. */
  lemma TruncatedStateEndsNextWatch(env: Env, nodes: Nodes, indexPath: Path, dataPath: Path, deleteOld: bool, up: Upstream, next: Upstream)
    requires !up.stopped && up.pulled.None? && up.ref.Ok?
    requires ReadState(env.codec, nodes, indexPath).Ok? && FoundIndex(nodes, indexPath).Ok?
    requires ReadState(env.codec, nodes, indexPath).value.ref != up.ref.value
    requires Created(env, up.ctx, nodes, Join(indexPath, up.newName), dataPath).0.Ok?
    requires up.stateWrite.EncodeFails?
    requires env.codec.decodeState(PartOf(env.codec.encodeState(State(up.ref.value, up.newName)), up.stateWrite.kept)).None?
    requires !next.stopped
    ensures var after := PassOf(env, nodes, indexPath, dataPath, deleteOld, up).nodes;
      && ReadState(env.codec, after, indexPath).Err?
      && PassOf(env, after, indexPath, dataPath, deleteOld, next).outcome.Failed?
      && PassOf(env, after, indexPath, dataPath, deleteOld, next).nodes == after
      && PassOf(env, after, indexPath, dataPath, deleteOld, next).published.None?
  {
    FailedStateWriteKeepsOld(env, nodes, indexPath, dataPath, deleteOld, up);
    var after := PassOf(env, nodes, indexPath, dataPath, deleteOld, up).nodes;
    PassFailsEarly(env, after, indexPath, dataPath, deleteOld, next);
  }

  /** As written, a rebuild whose context is done at the first data folder
      hands over an empty index and records it in `.state`, although the
      data folder lists folders that were never looked at. */
  lemma CancelledRebuildPublishesEmptyIndex(env: Env, nodes: Nodes, indexPath: Path, dataPath: Path, deleteOld: bool, up: Upstream)
    requires env.codec.StateRoundTrip()
    requires !up.stopped && up.pulled.None? && up.ref.Ok? && up.stateWrite.WriteOk?
    requires ReadState(env.codec, nodes, indexPath).Ok? && FoundIndex(nodes, indexPath).Ok?
    requires ReadState(env.codec, nodes, indexPath).value.ref != up.ref.value
    requires CanCreate(nodes, Join(indexPath, up.newName))
    requires dataPath in nodes && nodes[dataPath].IsDir() && Listing(nodes[dataPath]) != [] && dataPath != indexPath
    requires up.ctx == CancelledAt(0)
    ensures var pass := PassOf(env, nodes, indexPath, dataPath, deleteOld, up);
      && pass.published == Some(Join(indexPath, up.newName))
      && ReadState(env.codec, pass.nodes, indexPath) == Ok(State(up.ref.value, up.newName))
      && Join(indexPath, up.newName) in pass.nodes
      && pass.nodes[Join(indexPath, up.newName)] == Store(map[])
  {
    var p := Join(indexPath, up.newName);
    var st := State(up.ref.value, up.newName);
    var statePath := Join(indexPath, StateFile);
    var made := WithStore(nodes, p);
    assert Parent(p) == indexPath;
    assert made[dataPath] == nodes[dataPath];
    assert Filled(env, up.ctx, made, dataPath, map[]) == (None, map[]);
    var created := Created(env, up.ctx, nodes, p, dataPath);
    CreatedFrame(env, up.ctx, nodes, p, dataPath);
    StateStillWritable(env, up.ctx, nodes, indexPath, up.newName, dataPath, env.codec.encodeState(st));
    RebuildIffRefDiffers(env, nodes, indexPath, dataPath, deleteOld, up);
    PassPublishes(env, nodes, indexPath, dataPath, deleteOld, up);
    var written := StateWritten(env.codec, created.1, indexPath, st).value;
    assert statePath != p;
    WriteLeavesOthers(created.1, statePath, env.codec.encodeState(st), p);
    assert written[p] == Store(map[]);
    var found := FoundIndex(nodes, indexPath).value;
    if found.Some? && deleteOld {
      StateIsNoIndex(env, nodes, indexPath);
      RemovedSibling(written, found.value, p);
    }
  }

  // ---------------------------------------------------------------------------
  // The watcher's loop

  /** The watcher's invariant: the index it handed over last is on disk and
      is the one `.state` records. */
  predicate Recorded(codec: Codec, nodes: Nodes, indexPath: Path, published: seq<Path>) {
    published == [] ||
      (ReadState(codec, nodes, indexPath).Ok?
       && Join(indexPath, ReadState(codec, nodes, indexPath).value.index) == published[|published| - 1]
       && published[|published| - 1] in nodes && nodes[published[|published| - 1]].Store?)
  }

  /** The rebuilding part of a pass reaches the writing of `.state`, and the
      encoder fails there after the open truncated the file. */
  predicate RebuildTruncates(env: Env, nodes: Nodes, indexPath: Path, dataPath: Path, up: Upstream) {
    Created(env, up.ctx, nodes, Join(indexPath, up.newName), dataPath).0.Ok? && up.stateWrite.EncodeFails?
  }

  /** A pass gets as far as rebuilding, and its rebuild truncates `.state`. */
  predicate PassTruncates(env: Env, nodes: Nodes, indexPath: Path, dataPath: Path, up: Upstream) {
    && !up.stopped && up.pulled.None? && up.ref.Ok?
    && ReadState(env.codec, nodes, indexPath).Ok? && FoundIndex(nodes, indexPath).Ok?
    && ReadState(env.codec, nodes, indexPath).value.ref != up.ref.value
    && RebuildTruncates(env, nodes, indexPath, dataPath, up)
  }

  /** The pass that ends a run of passes truncates `.state`. */
  predicate EndsTruncating(env: Env, nodes: Nodes, indexPath: Path, dataPath: Path, deleteOld: bool, ups: seq<Upstream>)
    decreases |ups|
  {
    ups != [] &&
      var pass := PassOf(env, nodes, indexPath, dataPath, deleteOld, ups[0]);
      if pass.outcome != Continuing then PassTruncates(env, nodes, indexPath, dataPath, ups[0])
      else EndsTruncating(env, pass.nodes, indexPath, dataPath, deleteOld, ups[1..])
  }

  /** A pass that hands nothing over keeps every entry of the index root,
      and leaves each as it was, except `.state` when the pass truncated
      it. */
  lemma QuietPassKeeps(env: Env, nodes: Nodes, indexPath: Path, dataPath: Path, deleteOld: bool, up: Upstream, q: Path)
    requires PassOf(env, nodes, indexPath, dataPath, deleteOld, up).published.None?
    requires q in nodes && |q| == |indexPath| + 1
    ensures q in PassOf(env, nodes, indexPath, dataPath, deleteOld, up).nodes
    ensures q != Join(indexPath, StateFile) || !PassTruncates(env, nodes, indexPath, dataPath, up) ==>
      PassOf(env, nodes, indexPath, dataPath, deleteOld, up).nodes[q] == nodes[q]
  {
    if !up.stopped && up.pulled.None? && up.ref.Ok? && ReadState(env.codec, nodes, indexPath).Ok?
       && FoundIndex(nodes, indexPath).Ok? && ReadState(env.codec, nodes, indexPath).value.ref != up.ref.value {
      QuietRebuildKeeps(env, nodes, indexPath, dataPath, deleteOld, up, FoundIndex(nodes, indexPath).value, q);
    }
  }

  lemma QuietRebuildKeeps(env: Env, nodes: Nodes, indexPath: Path, dataPath: Path, deleteOld: bool, up: Upstream, found: Option<Path>, q: Path)
    requires up.ref.Ok?
    requires Rebuilt(env, nodes, indexPath, dataPath, deleteOld, up, found).published.None?
    requires q in nodes && |q| == |indexPath| + 1
    ensures q in Rebuilt(env, nodes, indexPath, dataPath, deleteOld, up, found).nodes
    ensures q != Join(indexPath, StateFile) || !RebuildTruncates(env, nodes, indexPath, dataPath, up) ==>
      Rebuilt(env, nodes, indexPath, dataPath, deleteOld, up, found).nodes[q] == nodes[q]
  {
    var p := Join(indexPath, up.newName);
    var statePath := Join(indexPath, StateFile);
    CreatedFrame(env, up.ctx, nodes, p, dataPath);
    var created := Created(env, up.ctx, nodes, p, dataPath);
    if created.0.Ok? && up.stateWrite.EncodeFails? {
      var part := PartOf(env.codec.encodeState(State(up.ref.value, up.newName)), up.stateWrite.kept);
      if Written(created.1, statePath, part).Ok? && q != statePath {
        WriteLeavesOthers(created.1, statePath, part, q);
      }
    }
  }

  /** Every pass keeps the invariant, whatever it learns from upstream,
      unless it truncated `.state`. */
  lemma PassKeepsRecorded(env: Env, nodes: Nodes, indexPath: Path, dataPath: Path, deleteOld: bool, up: Upstream, published: seq<Path>)
    requires env.codec.StateRoundTrip()
    requires Recorded(env.codec, nodes, indexPath, published)
    ensures var pass := PassOf(env, nodes, indexPath, dataPath, deleteOld, up);
      || Recorded(env.codec, pass.nodes, indexPath,
                  published + (if pass.published.Some? then [pass.published.value] else []))
      || PassTruncates(env, nodes, indexPath, dataPath, up)
  {
    var pass := PassOf(env, nodes, indexPath, dataPath, deleteOld, up);
    if pass.published.Some? {
      PassPublishes(env, nodes, indexPath, dataPath, deleteOld, up);
    } else if published != [] {
      var last := published[|published| - 1];
      var statePath := Join(indexPath, StateFile);
      QuietPassKeeps(env, nodes, indexPath, dataPath, deleteOld, up, statePath);
      QuietPassKeeps(env, nodes, indexPath, dataPath, deleteOld, up, last);
      assert published + [] == published;
    }
  }

  /** Over any run of passes the invariant holds, unless the pass that
      ended the run truncated `.state`: the index handed over last is the
      one `.state` records, and it is on disk. */
  lemma {:induction false} RunKeepsRecorded(env: Env, nodes: Nodes, indexPath: Path, dataPath: Path, deleteOld: bool,
                                            ups: seq<Upstream>, published: seq<Path>)
    requires env.codec.StateRoundTrip()
    requires Recorded(env.codec, nodes, indexPath, published)
    ensures var run := Run(env, nodes, indexPath, dataPath, deleteOld, ups, published);
      || Recorded(env.codec, run.1, indexPath, run.2)
      || EndsTruncating(env, nodes, indexPath, dataPath, deleteOld, ups)
    decreases |ups|
  {
    if ups != [] {
      var pass := PassOf(env, nodes, indexPath, dataPath, deleteOld, ups[0]);
      PassKeepsRecorded(env, nodes, indexPath, dataPath, deleteOld, ups[0], published);
      var handed := published + (if pass.published.Some? then [pass.published.value] else []);
      if pass.outcome == Continuing {
        RunKeepsRecorded(env, pass.nodes, indexPath, dataPath, deleteOld, ups[1..], handed);
      }
    }
  }

  // ---------------------------------------------------------------------------
  // LoadIndex

  /** LoadIndex, as a value: the path of the index it returns or its error,
      and the disk after. A new index is built when a rebuild is forced or
      none is found; otherwise the first directory under the index root is
      opened, and `.state` is not consulted. */
  function Loaded(env: Env, ctx: Context, nodes: Nodes, indexPath: Path, dataFolder: Path,
                  forceRebuild: bool, deleteOld: bool, newName: string, ref: Result<string, string>)
    : (Result<Path, string>, Nodes)
  {
    match FoundIndex(nodes, indexPath)
    case Err(e) => (Err(e), nodes)
    case Ok(found) =>
      if forceRebuild || found.None? then
        var cleared := if found.Some? && deleteOld then Removed(nodes, found.value) else nodes;
        match MadeDirs(cleared, indexPath)
        case Err(e) => (Err(e), cleared)
        case Ok(made) =>
          var p := Join(indexPath, newName);
          var created := Created(env, ctx, made, p, dataFolder);
          if created.0.Err? then (Err(created.0.error), created.1)
          else if ref.Err? then (Err(ref.error), created.1)
          else
            match StateWritten(env.codec, created.1, indexPath, State(ref.value, newName))
            case Err(e) => (Err(e), created.1)
            case Ok(written) => (Ok(p), written)
      else if IsDirAt(nodes, found.value) && nodes[found.value].Store? then (Ok(found.value), nodes)
      else (Err("failed to open index"), nodes)
  }

  /** LoadIndex, with the data revision and the fresh name passed in. */
  method LoadIndex(env: Env, ctx: Context, disk: Disk, indexPath: Path, dataFolder: Path,
                   forceRebuild: bool, deleteOld: bool, newName: string, ref: Result<string, string>)
    returns (r: Result<Index, string>)
    modifies disk
    ensures var loaded := Loaded(env, ctx, old(disk.nodes), indexPath, dataFolder, forceRebuild, deleteOld, newName, ref);
      && (r.Ok? <==> loaded.0.Ok?)
      && (r.Ok? ==> r.value.path == loaded.0.value)
      && disk.nodes == loaded.1
  {
    var idxPath := FindIndex(disk, indexPath);
    if idxPath.Err? {
      return Err(idxPath.error);
    }
    var create := idxPath.value.None?;
    if forceRebuild || create {
      if idxPath.value.Some? && deleteOld {
        disk.RemoveAll(idxPath.value.value);
      }
      var err := disk.MkdirAll(indexPath);
      if err.Some? {
        return Err(err.value);
      }
      var p := Join(indexPath, newName);
      var idx := CreateNewIndex(env, ctx, disk, p, dataFolder);
      if idx.Err? {
        return Err(idx.error);
      }
      if ref.Err? {
        return Err(ref.error);
      }
      err := disk.WriteFile(Join(indexPath, StateFile), env.codec.encodeState(State(ref.value, newName)));
      if err.Some? {
        return Err(err.value);
      }
      return idx;
    }
    var found := idxPath.value.value;
    if !(IsDirAt(disk.nodes, found) && disk.nodes[found].Store?) {
      return Err("failed to open index");
    }
    var idx := new Index(found);
    r := Ok(idx);
  }

  /** Without a forced rebuild, an index that is found is opened, the disk
      is left alone, and `.state` is not consulted: the first directory under
      the index root is the one served. */
  lemma LoadOpensFound(env: Env, ctx: Context, nodes: Nodes, indexPath: Path, dataFolder: Path,
                       deleteOld: bool, newName: string, ref: Result<string, string>)
    requires FoundIndex(nodes, indexPath).Ok? && FoundIndex(nodes, indexPath).value.Some?
    ensures var found := FoundIndex(nodes, indexPath).value.value;
      var loaded := Loaded(env, ctx, nodes, indexPath, dataFolder, false, deleteOld, newName, ref);
      && loaded.1 == nodes
      && (loaded.0.Ok? <==> nodes[found].Store?)
      && (loaded.0.Ok? ==> loaded.0.value == found)
  {
    FoundIndexIsFirstDirectory(nodes, indexPath);
  }

  /** A forced rebuild, or a missing index, builds a new index at the fresh
      name, and when that succeeds `.state` records it. */
  lemma LoadBuildsNew(env: Env, ctx: Context, nodes: Nodes, indexPath: Path, dataFolder: Path,
                      forceRebuild: bool, deleteOld: bool, newName: string, ref: Result<string, string>)
    requires env.codec.StateRoundTrip()
    requires FoundIndex(nodes, indexPath).Ok?
    requires forceRebuild || FoundIndex(nodes, indexPath).value.None?
    requires Loaded(env, ctx, nodes, indexPath, dataFolder, forceRebuild, deleteOld, newName, ref).0.Ok?
    ensures var loaded := Loaded(env, ctx, nodes, indexPath, dataFolder, forceRebuild, deleteOld, newName, ref);
      && loaded.0.value == Join(indexPath, newName) && ref.Ok?
      && ReadState(env.codec, loaded.1, indexPath) == Ok(State(ref.value, newName))
  {
    var found := FoundIndex(nodes, indexPath).value;
    var cleared := if found.Some? && deleteOld then Removed(nodes, found.value) else nodes;
    var made := MadeDirs(cleared, indexPath).value;
    var created := Created(env, ctx, made, Join(indexPath, newName), dataFolder);
    StateRoundTrip(env.codec, created.1, indexPath, State(ref.value, newName));
  }

  /** A forced rebuild that deletes the old index deletes it first: when the
      build then fails, no index is left where the old one was. */
  lemma RebuildDeletesFirst(env: Env, ctx: Context, nodes: Nodes, indexPath: Path, dataFolder: Path,
                            newName: string, ref: Result<string, string>)
    requires FoundIndex(nodes, indexPath).Ok? && FoundIndex(nodes, indexPath).value.Some?
    requires Join(indexPath, newName) != FoundIndex(nodes, indexPath).value.value
    requires Loaded(env, ctx, nodes, indexPath, dataFolder, true, true, newName, ref).0.Err?
    ensures FoundIndex(nodes, indexPath).value.value !in Loaded(env, ctx, nodes, indexPath, dataFolder, true, true, newName, ref).1
  {
    var o := FoundIndex(nodes, indexPath).value.value;
    assert |o| == |indexPath| + 1;
    var cleared := Removed(nodes, o);
    RemovedSubtree(nodes, o);
    assert o !in cleared;
    if MadeDirs(cleared, indexPath).Ok? {
      var made := MadeDirs(cleared, indexPath).value;
      MadeDirsOnlyAlongPath(cleared, indexPath);
      assert o !in made;
      CreatedFrame(env, ctx, made, Join(indexPath, newName), dataFolder);
    }
  }
}
