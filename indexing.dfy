/** Reading the data repository into the search index (index/indexing.go):
    session files and collection folders, the folder walk that fills the
    index, the search for an existing index and the `.state` file. The
    goroutines of the folder walk become one loop that handles the folders in
    listing order and stops at the first error. */
module Indexing {
  import opened Wrappers
  import opened Slugify
  import opened IndexData
  import opened FileSystem

  const CategoryFile := "category.json"
  const VideosFolder := "videos"
  const StateFile := ".state"

  /** encoding/json as the program uses it: what a session file, a
      `category.json` (only its title is used) and a `.state` file decode to,
      when they decode at all, and how a state is written. */
  datatype Codec = Codec(
    decodeSession: string -> Option<Session>,
    decodeCategory: string -> Option<string>,
    decodeState: string -> Option<State>,
    encodeState: State -> string)
  {
    /** A written state reads back as itself. */
    ghost predicate StateRoundTrip() {
      forall st: State :: decodeState(encodeState(st)) == Some(st)
    }
  }

  /** What a build needs besides the disk: the transliteration tables of
      slugify, the JSON codec and the formatter of `RecordedFormatted`. */
  datatype Env = Env(tables: Tables, codec: Codec, format: Formatter)

  /** A context as a loop sees it: the loop asks before each of its steps,
      counted from 0, and `CancelledAt(n)` answers "done" from step n on. */
  datatype Context = Background | CancelledAt(step: nat)

  predicate Done(ctx: Context, i: nat) {
    ctx.CancelledAt? && ctx.step <= i
  }

  // ---------------------------------------------------------------------------
  // parseSession and parseCollection

  /** parseSession: the file must exist and decode; an empty slug becomes the
      slug of the title. A directory opens but does not decode. */
  function ParseSession(env: Env, nodes: Nodes, p: Path): (r: Result<Session, string>)
    ensures r.Ok? <==> p in nodes && nodes[p].File? && env.codec.decodeSession(nodes[p].data).Some?
    ensures p !in nodes ==> r == Err("Failed to open session file")
    ensures r.Ok? ==>
      var decoded := env.codec.decodeSession(nodes[p].data).value;
      && r.value.(slug := decoded.slug) == decoded
      && (decoded.slug != "" ==> r.value.slug == decoded.slug)
      && (decoded.slug == "" ==> r.value.slug == Slugify.Slugify(env.tables, decoded.title) && IsSlug(r.value.slug))
  {
    if p !in nodes then Err("Failed to open session file")
    else
      match (if nodes[p].File? then env.codec.decodeSession(nodes[p].data) else None)
      case None => Err("Failed to parse session file")
      case Some(s) => Ok(if s.slug == "" then s.(slug := Slugify.Slugify(env.tables, s.title)) else s)
  }

  /** Whether a videos entry is a session file. The program asks this of the
      joined path; since the path ends in "/" followed by the name and ".json"
      holds no "/", the answer is the same for the name alone. */
  predicate IsJsonName(name: string) {
    |name| >= 5 && name[|name| - 5..] == ".json"
  }

  /** The session files among some names, in order. */
  function JsonNames(names: seq<string>): (r: seq<string>)
    ensures forall n :: n in r ==> n in names && IsJsonName(n)
  {
    if names == [] then []
    else (if IsJsonName(names[0]) then [names[0]] else []) + JsonNames(names[1..])
  }

  /** Some items in front of what a later step yields, or that step's
      error. */
  function Then<T>(xs: seq<T>, r: Result<seq<T>, string>): Result<seq<T>, string> {
    match r
    case Ok(rest) => Ok(xs + rest)
    case Err(e) => Err(e)
  }

  /** Nothing in front changes nothing. */
  lemma ThenNothing<T>(r: Result<seq<T>, string>)
    ensures Then([], r) == r
  {
    if r.Ok? {
      assert [] + r.value == r.value;
    }
  }

  /** One more item taken from the later step keeps the whole. */
  lemma ThenAppend<T>(xs: seq<T>, x: T, r: Result<seq<T>, string>)
    ensures Then(xs, Then([x], r)) == Then(xs + [x], r)
  {
    if r.Ok? {
      assert xs + ([x] + r.value) == (xs + [x]) + r.value;
    }
  }

  /** The sessions of the videos entries from i on. */
  function SessionsFrom(env: Env, ctx: Context, nodes: Nodes, videos: Path, names: seq<string>, i: nat)
    : Result<seq<Session>, string>
    requires i <= |names|
    decreases |names| - i
  {
    if i == |names| then Ok([])
    else if Done(ctx, i) then Err("Canceled")
    else if !IsJsonName(names[i]) then SessionsFrom(env, ctx, nodes, videos, names, i + 1)
    else
      match ParseSession(env, nodes, Join(videos, names[i]))
      case Err(e) => Err(e)
      case Ok(s) => Then([s], SessionsFrom(env, ctx, nodes, videos, names, i + 1))
  }

  /** parseCollection, as a value: the title from `category.json`, the folder
      name as slug, the sessions of the `videos` folder. */
  function CollectionOf(env: Env, ctx: Context, nodes: Nodes, p: Path): Result<Collection, string> {
    var category := Join(p, CategoryFile);
    var videos := Join(p, VideosFolder);
    if category !in nodes then Err("Failed to open category.json")
    else
      match (if nodes[category].File? then env.codec.decodeCategory(nodes[category].data) else None)
      case None => Err("Failed to decode category.json")
      case Some(title) =>
        if videos !in nodes then Err("Failed to open videos folder")
        else if !nodes[videos].IsDir() then Err("Failed to read videos folder")
        else
          match SessionsFrom(env, ctx, nodes, videos, Listing(nodes[videos]), 0)
          case Err(e) => Err(e)
          case Ok(sessions) => Ok(Collection(title, Base(p), sessions))
  }

  /** parseCollection: the videos folder is read entry by entry, appending
      each session, and the first failure or cancellation ends it with no
      collection. */
  method ParseCollection(env: Env, ctx: Context, disk: Disk, p: Path) returns (r: Result<Collection, string>)
    ensures r == CollectionOf(env, ctx, disk.nodes, p)
  {
    var nodes := disk.nodes;
    var category := Join(p, CategoryFile);
    var videos := Join(p, VideosFolder);
    if category !in nodes {
      return Err("Failed to open category.json");
    }
    var title := if nodes[category].File? then env.codec.decodeCategory(nodes[category].data) else None;
    if title.None? {
      return Err("Failed to decode category.json");
    }
    if videos !in nodes {
      return Err("Failed to open videos folder");
    }
    if !nodes[videos].IsDir() {
      return Err("Failed to read videos folder");
    }
    var names := Listing(nodes[videos]);
    var sessions: seq<Session> := [];
    ghost var all := SessionsFrom(env, ctx, nodes, videos, names, 0);
    assert all.Ok? ==> [] + all.value == all.value;
    var i := 0;
    while i < |names|
      invariant 0 <= i <= |names|
      invariant SessionsFrom(env, ctx, nodes, videos, names, 0) == Then(sessions, SessionsFrom(env, ctx, nodes, videos, names, i))
    {
      if Done(ctx, i) {
        return Err("Canceled");
      }
      if IsJsonName(names[i]) {
        var session := ParseSession(env, nodes, Join(videos, names[i]));
        if session.Err? {
          return Err(session.error);
        }
        ghost var rest := SessionsFrom(env, ctx, nodes, videos, names, i + 1);
        if rest.Ok? {
          assert sessions + ([session.value] + rest.value) == sessions + [session.value] + rest.value;
        }
        sessions := sessions + [session.value];
      }
      i := i + 1;
    }
    assert sessions + [] == sessions;
    r := Ok(Collection(title.value, Base(p), sessions));
  }

  // ---------------------------------------------------------------------------
  // Properties of parseSession and parseCollection

  /** The session file of index/indexing_test.go, titled "Some title" with no
      slug, gets the slug "some-title". */
  lemma ParseSessionCase(env: Env, nodes: Nodes, p: Path, data: string)
    requires IdentityOnAscii(env.tables)
    requires p in nodes && nodes[p] == File(data)
    requires env.codec.decodeSession(data) == Some(Session("Some title", "", [], "", [], "", ""))
    ensures ParseSession(env, nodes, p) == Ok(Session("Some title", "", [], "", [], "some-title", ""))
  {
    SlugifySessionTitle(env.tables, "Some title");
  }

  /** On success the sessions are those of the `.json` entries, one each and
      in listing order; other entries are passed over. */
  lemma {:induction false} SessionsOfJsonEntries(env: Env, ctx: Context, nodes: Nodes, videos: Path, names: seq<string>, i: nat)
    requires i <= |names|
    requires SessionsFrom(env, ctx, nodes, videos, names, i).Ok?
    ensures var sessions := SessionsFrom(env, ctx, nodes, videos, names, i).value;
      && |sessions| == |JsonNames(names[i..])|
      && forall k :: 0 <= k < |sessions| ==>
           ParseSession(env, nodes, Join(videos, JsonNames(names[i..])[k])) == Ok(sessions[k])
    decreases |names| - i
  {
    if i < |names| {
      SessionsOfJsonEntries(env, ctx, nodes, videos, names, i + 1);
      var later := SessionsFrom(env, ctx, nodes, videos, names, i + 1).value;
      assert names[i..][0] == names[i] && names[i..][1..] == names[i + 1..];
      var json := JsonNames(names[i + 1..]);
      if IsJsonName(names[i]) {
        var s := ParseSession(env, nodes, Join(videos, names[i])).value;
        assert SessionsFrom(env, ctx, nodes, videos, names, i).value == [s] + later;
        assert JsonNames(names[i..]) == [names[i]] + json;
      } else {
        assert JsonNames(names[i..]) == [] + json == json;
      }
    }
  }

  /** No partial result: the sessions come through exactly when no entry
      sees a cancelled context and every `.json` entry parses. */
  lemma {:induction false} SessionsFromOk(env: Env, ctx: Context, nodes: Nodes, videos: Path, names: seq<string>, i: nat)
    requires i <= |names|
    ensures SessionsFrom(env, ctx, nodes, videos, names, i).Ok? <==>
      (forall j :: i <= j < |names| ==> !Done(ctx, j)) &&
      (forall j :: i <= j < |names| && IsJsonName(names[j]) ==> ParseSession(env, nodes, Join(videos, names[j])).Ok?)
    decreases |names| - i
  {
    if i < |names| {
      SessionsFromOk(env, ctx, nodes, videos, names, i + 1);
    }
  }

  /** The first entry that fails decides the error: "Canceled" when the
      context is done by then, the session file's error otherwise. */
  lemma {:induction false} FirstFailureWins(env: Env, ctx: Context, nodes: Nodes, videos: Path, names: seq<string>, i: nat, k: nat)
    requires i <= k < |names|
    requires forall j :: i <= j < k ==> !Done(ctx, j)
    requires forall j :: i <= j < k && IsJsonName(names[j]) ==> ParseSession(env, nodes, Join(videos, names[j])).Ok?
    requires Done(ctx, k) || (IsJsonName(names[k]) && ParseSession(env, nodes, Join(videos, names[k])).Err?)
    ensures SessionsFrom(env, ctx, nodes, videos, names, i) ==
      if Done(ctx, k) then Err("Canceled") else Err(ParseSession(env, nodes, Join(videos, names[k])).error)
    decreases k - i
  {
    if i < k {
      FirstFailureWins(env, ctx, nodes, videos, names, i + 1, k);
    }
  }

  /** A collection's slug is its folder's name, whatever `category.json`
      holds, and its title is the one decoded from there. */
  lemma CollectionSlugIsFolderName(env: Env, ctx: Context, nodes: Nodes, p: Path)
    requires CollectionOf(env, ctx, nodes, p).Ok?
    ensures p != [] ==> CollectionOf(env, ctx, nodes, p).value.slug == p[|p| - 1]
    ensures var category := Join(p, CategoryFile);
      && category in nodes && nodes[category].File?
      && env.codec.decodeCategory(nodes[category].data) == Some(CollectionOf(env, ctx, nodes, p).value.title)
  {
  }

  /** A successful collection lists the sessions of its `.json` entries in
      order, each as parseSession reads it. */
  lemma CollectionSessions(env: Env, ctx: Context, nodes: Nodes, p: Path)
    requires CollectionOf(env, ctx, nodes, p).Ok?
    ensures var videos := Join(p, VideosFolder);
      var sessions := CollectionOf(env, ctx, nodes, p).value.sessions;
      && videos in nodes && nodes[videos].IsDir()
      && |sessions| == |JsonNames(Listing(nodes[videos]))|
      && forall k :: 0 <= k < |sessions| ==>
           ParseSession(env, nodes, Join(videos, JsonNames(Listing(nodes[videos]))[k])) == Ok(sessions[k])
  {
    var videos := Join(p, VideosFolder);
    SessionsOfJsonEntries(env, ctx, nodes, videos, Listing(nodes[videos]), 0);
    assert Listing(nodes[videos])[0..] == Listing(nodes[videos]);
  }

  // ---------------------------------------------------------------------------
  // The search index being filled, and fillIndex

  type Docs = map<string, IndexedSession>

  type Batch = seq<(string, IndexedSession)>

  /** The id a session's document is stored under. */
  function DocKey(collectionSlug: string, sessionSlug: string): string {
    "session:" + collectionSlug + ":" + sessionSlug
  }

  /** The documents after a batch of puts, applied in order: a later put
      under the same id replaces the earlier document. */
  function PutAll(docs: Docs, batch: Batch): Docs
    decreases |batch|
  {
    if batch == [] then docs else PutAll(docs[batch[0].0 := batch[0].1], batch[1..])
  }

  /** The batch of one collection: each session's document under its id. */
  function BatchOf(env: Env, c: Collection): (b: Batch)
    ensures |b| == |c.sessions|
  {
    seq(|c.sessions|, i requires 0 <= i < |c.sessions| =>
      (DocKey(c.slug, c.sessions[i].slug), IndexedSessionOf(env.tables, env.format, c.sessions[i], c)))
  }

  /** The search index as the build sees it: documents by id. */
  class Engine {
    var docs: Docs

    constructor ()
      ensures docs == map[]
    {
      docs := map[];
    }

    /** idx.Batch: every put of the batch, in order. */
    method Batch(batch: Batch)
      modifies this
      ensures docs == PutAll(old(docs), batch)
    {
      docs := PutAll(docs, batch);
    }
  }

  /** One collection into the index: a batch with one put per session, built
      in a loop, then applied. */
  method IndexCollection(env: Env, engine: Engine, c: Collection)
    modifies engine
    ensures engine.docs == PutAll(old(engine.docs), BatchOf(env, c))
  {
    var batch: Batch := [];
    for i := 0 to |c.sessions|
      invariant batch == BatchOf(env, c)[..i]
      invariant engine.docs == old(engine.docs)
    {
      var doc := NewIndexedSession(env.tables, env.format, c.sessions[i], c);
      batch := batch + [(DocKey(c.slug, c.sessions[i].slug), doc)];
    }
    assert batch == BatchOf(env, c);
    engine.Batch(batch);
  }

  /** Folders whose name starts with "." are passed over. */
  predicate IsHidden(name: string) {
    |name| > 0 && name[0] == '.'
  }

  /** Whether a folder of the data root must hold a collection: it is not
      hidden and has a `category.json`. */
  predicate IsCollectionFolder(nodes: Nodes, root: Path, name: string) {
    !IsHidden(name) && Join(Join(root, name), CategoryFile) in nodes
  }

  /** The collection folders among some names, in order. */
  function CollectionFolders(nodes: Nodes, root: Path, names: seq<string>): (r: seq<string>)
    ensures forall n :: n in r ==> n in names && IsCollectionFolder(nodes, root, n)
  {
    if names == [] then []
    else (if IsCollectionFolder(nodes, root, names[0]) then [names[0]] else []) + CollectionFolders(nodes, root, names[1..])
  }

  /** The collections of the folders from i on, in listing order: other
      folders are passed over, every collection folder must parse, and the
      first that fails gives the error. Each folder is parsed under a context
      of its own that is cancelled only once some folder has failed. */
  function CollectionsFrom(env: Env, nodes: Nodes, root: Path, folders: seq<string>, i: nat)
    : Result<seq<Collection>, string>
    requires i <= |folders|
    decreases |folders| - i
  {
    if i == |folders| then Ok([])
    else if !IsCollectionFolder(nodes, root, folders[i]) then CollectionsFrom(env, nodes, root, folders, i + 1)
    else
      match CollectionOf(env, Background, nodes, Join(root, folders[i]))
      case Err(e) => Err(e)
      case Ok(c) => Then([c], CollectionsFrom(env, nodes, root, folders, i + 1))
  }

  /** The documents after the collections are indexed one after the other,
      a batch each. */
  function IndexAll(env: Env, docs: Docs, cs: seq<Collection>): Docs
    decreases |cs|
  {
    if cs == [] then docs else PutAll(IndexAll(env, docs, cs[..|cs| - 1]), BatchOf(env, cs[|cs| - 1]))
  }

  /** Whether the context is done before the loop over n folders is through. */
  predicate CancelledWithin(ctx: Context, n: nat) {
    ctx.CancelledAt? && ctx.step < n
  }

  /** fillIndex, as a value: its error, if any, and the documents after it.
      The indexers start only once every folder has been looked at, so a
      context done during the folder loop returns no error and indexes
      nothing, and a failed collection indexes nothing either. */
  function Filled(env: Env, ctx: Context, nodes: Nodes, root: Path, docs: Docs): (Option<string>, Docs) {
    if root !in nodes then (Some("Failed to open pyvideo data folder"), docs)
    else if !nodes[root].IsDir() then (Some("Failed to read root category folders"), docs)
    else
      var folders := Listing(nodes[root]);
      if CancelledWithin(ctx, |folders|) then (None, docs)
      else
        match CollectionsFrom(env, nodes, root, folders, 0)
        case Err(e) => (Some(e), docs)
        case Ok(cs) => (None, IndexAll(env, docs, cs))
  }

  /** fillIndex: the folder loop parses the collections, stopping at a done
      context before anything is indexed and parsing no more once one has
      failed; then, when none failed, the collections are indexed in turn. */
  method FillIndex(env: Env, ctx: Context, engine: Engine, disk: Disk, root: Path) returns (err: Option<string>)
    modifies engine
    ensures (err, engine.docs) == Filled(env, ctx, disk.nodes, root, old(engine.docs))
  {
    var nodes := disk.nodes;
    if root !in nodes {
      return Some("Failed to open pyvideo data folder");
    }
    if !nodes[root].IsDir() {
      return Some("Failed to read root category folders");
    }
    var folders := Listing(nodes[root]);
    var parsed: seq<Collection> := [];
    var failure: Option<string> := None;
    ThenNothing(CollectionsFrom(env, nodes, root, folders, 0));
    for i := 0 to |folders|
      invariant !CancelledWithin(ctx, i)
      invariant failure.None? ==> CollectionsFrom(env, nodes, root, folders, 0) == Then(parsed, CollectionsFrom(env, nodes, root, folders, i))
      invariant failure.Some? ==> CollectionsFrom(env, nodes, root, folders, 0) == Err(failure.value)
      invariant engine.docs == old(engine.docs)
    {
      if Done(ctx, i) {
        return None;
      }
      if !IsCollectionFolder(nodes, root, folders[i]) || failure.Some? {
        continue;
      }
      var c := ParseCollection(env, Background, disk, Join(root, folders[i]));
      if c.Err? {
        failure := Some(c.error);
      } else {
        ThenAppend(parsed, c.value, CollectionsFrom(env, nodes, root, folders, i + 1));
        parsed := parsed + [c.value];
      }
    }
    if failure.Some? {
      return failure;
    }
    assert parsed + [] == parsed;
    for j := 0 to |parsed|
      invariant engine.docs == IndexAll(env, old(engine.docs), parsed[..j])
    {
      assert parsed[..j + 1][..j] == parsed[..j];
      IndexCollection(env, engine, parsed[j]);
    }
    assert parsed[..|parsed|] == parsed;
    err := None;
  }

  // ---------------------------------------------------------------------------
  // Properties of the documents and the folder walk

  /** A batch's puts add exactly their ids to the index. */
  lemma {:induction false} PutAllKeys(docs: Docs, batch: Batch)
    ensures PutAll(docs, batch).Keys == docs.Keys + (set k | 0 <= k < |batch| :: batch[k].0)
    decreases |batch|
  {
    if batch != [] {
      PutAllKeys(docs[batch[0].0 := batch[0].1], batch[1..]);
      var rest := set k | 0 <= k < |batch| - 1 :: batch[1..][k].0;
      var all := set k | 0 <= k < |batch| :: batch[k].0;
      assert all == {batch[0].0} + rest by {
        forall x | x in all ensures x in {batch[0].0} + rest {
          var k :| 0 <= k < |batch| && batch[k].0 == x;
          if k > 0 {
            assert batch[1..][k - 1].0 == x;
          }
        }
      }
    }
  }

  /** The last put under an id wins. */
  lemma {:induction false} PutAllLastWins(docs: Docs, batch: Batch, k: nat)
    requires k < |batch|
    requires forall j :: k < j < |batch| ==> batch[j].0 != batch[k].0
    ensures batch[k].0 in PutAll(docs, batch) && PutAll(docs, batch)[batch[k].0] == batch[k].1
    decreases |batch|
  {
    if k == 0 {
      PutAllKeeps(docs[batch[0].0 := batch[0].1], batch[1..], batch[0].0);
    } else {
      PutAllLastWins(docs[batch[0].0 := batch[0].1], batch[1..], k - 1);
    }
  }

  /** Puts under other ids leave a document alone. */
  lemma {:induction false} PutAllKeeps(docs: Docs, batch: Batch, key: string)
    requires key in docs
    requires forall j :: 0 <= j < |batch| ==> batch[j].0 != key
    ensures key in PutAll(docs, batch) && PutAll(docs, batch)[key] == docs[key]
    decreases |batch|
  {
    if batch != [] {
      PutAllKeeps(docs[batch[0].0 := batch[0].1], batch[1..], key);
    }
  }

  /** The ids of a collection's batch are its sessions' ids. */
  lemma BatchIds(env: Env, c: Collection)
    ensures (set k | 0 <= k < |BatchOf(env, c)| :: BatchOf(env, c)[k].0) == (set s | s in c.sessions :: DocKey(c.slug, s.slug))
  {
    var batch := BatchOf(env, c);
    var ids := set k | 0 <= k < |batch| :: batch[k].0;
    var slugs := set s | s in c.sessions :: DocKey(c.slug, s.slug);
    forall x | x in slugs ensures x in ids {
      var s :| s in c.sessions && DocKey(c.slug, s.slug) == x;
      var k :| 0 <= k < |c.sessions| && c.sessions[k] == s;
      assert batch[k].0 == x;
    }
    forall x | x in ids ensures x in slugs {
      var k :| 0 <= k < |batch| && batch[k].0 == x;
      assert c.sessions[k] in c.sessions;
    }
  }

  /** A collection adds one document per distinct session slug: sessions
      sharing a slug collapse into the document of the last of them. */
  lemma CollectionDocuments(env: Env, c: Collection, docs: Docs)
    ensures PutAll(docs, BatchOf(env, c)).Keys == docs.Keys + (set s | s in c.sessions :: DocKey(c.slug, s.slug))
    ensures forall k :: 0 <= k < |c.sessions| && (forall j :: k < j < |c.sessions| ==> c.sessions[j].slug != c.sessions[k].slug) ==>
      PutAll(docs, BatchOf(env, c))[DocKey(c.slug, c.sessions[k].slug)]
        == IndexedSessionOf(env.tables, env.format, c.sessions[k], c)
  {
    PutAllKeys(docs, BatchOf(env, c));
    BatchIds(env, c);
    forall k | 0 <= k < |c.sessions| && (forall j :: k < j < |c.sessions| ==> c.sessions[j].slug != c.sessions[k].slug)
      ensures PutAll(docs, BatchOf(env, c))[DocKey(c.slug, c.sessions[k].slug)] == IndexedSessionOf(env.tables, env.format, c.sessions[k], c)
    {
      LastSessionWins(env, c, docs, k);
    }
  }

  lemma LastSessionWins(env: Env, c: Collection, docs: Docs, k: nat)
    requires k < |c.sessions|
    requires forall j :: k < j < |c.sessions| ==> c.sessions[j].slug != c.sessions[k].slug
    ensures DocKey(c.slug, c.sessions[k].slug) in PutAll(docs, BatchOf(env, c))
    ensures PutAll(docs, BatchOf(env, c))[DocKey(c.slug, c.sessions[k].slug)] == IndexedSessionOf(env.tables, env.format, c.sessions[k], c)
  {
    var batch := BatchOf(env, c);
    forall j | k < j < |batch| ensures batch[j].0 != batch[k].0 {
      if batch[j].0 == batch[k].0 {
        DocKeySameCollection(c.slug, c.sessions[j].slug, c.sessions[k].slug);
      }
    }
    PutAllLastWins(docs, batch, k);
  }

  /** Two ids are the same only for the same collection and session slugs,
      as long as collection slugs hold no ":". */
  lemma DocKeyInjective(c1: string, s1: string, c2: string, s2: string)
    requires ':' !in c1 && ':' !in c2
    requires DocKey(c1, s1) == DocKey(c2, s2)
    ensures c1 == c2 && s1 == s2
  {
    DocKeyParts(c1, s1);
    DocKeyParts(c2, s2);
  }

  /** Within one collection, different session slugs give different ids. */
  lemma DocKeySameCollection(c: string, s1: string, s2: string)
    requires DocKey(c, s1) == DocKey(c, s2)
    ensures s1 == s2
  {
    DocKeyParts(c, s1);
    DocKeyParts(c, s2);
  }

  /** Where the slugs sit in an id. */
  lemma DocKeyParts(c: string, s: string)
    ensures var u := DocKey(c, s);
      && |u| == |c| + |s| + 9
      && u[8 + |c|] == ':'
      && u[8..8 + |c|] == c
      && u[9 + |c|..] == s
  {
  }

  /** With a ":" in a folder name, two different sessions share an id: the
      folder "a:b" with the session "c" and the folder "a" with the session
      "b:c". */
  lemma DocKeyCollision(c1: string, s1: string, c2: string, s2: string)
    requires c1 == "a:b" && s1 == "c" && c2 == "a" && s2 == "b:c"
    ensures DocKey(c1, s1) == DocKey(c2, s2)
  {
    assert DocKey(c1, s1) == "session:a:b:c";
    assert DocKey(c2, s2) == "session:a:b:c";
  }

  /** Folders that are all hidden or without `category.json` yield no
      collection and no error. */
  lemma {:induction false} NoCollectionWalk(env: Env, nodes: Nodes, root: Path, folders: seq<string>, i: nat)
    requires i <= |folders|
    requires forall j :: i <= j < |folders| ==> !IsCollectionFolder(nodes, root, folders[j])
    ensures CollectionsFrom(env, nodes, root, folders, i) == Ok([])
    decreases |folders| - i
  {
    if i < |folders| {
      NoCollectionWalk(env, nodes, root, folders, i + 1);
    }
  }

  /** A data root whose folders are all hidden or without `category.json`
      leaves the index as it was and returns no error. */
  lemma NoCollectionFolders(env: Env, ctx: Context, nodes: Nodes, root: Path, docs: Docs)
    requires root in nodes && nodes[root].IsDir()
    requires forall name :: name in Listing(nodes[root]) ==> !IsCollectionFolder(nodes, root, name)
    ensures Filled(env, ctx, nodes, root, docs) == (None, docs)
  {
    NoCollectionWalk(env, nodes, root, Listing(nodes[root]), 0);
  }

  /** On success the collections are those of the collection folders, one
      each and in listing order. */
  lemma {:induction false} CollectionsOfFolders(env: Env, nodes: Nodes, root: Path, folders: seq<string>, i: nat)
    requires i <= |folders|
    requires CollectionsFrom(env, nodes, root, folders, i).Ok?
    ensures var cs := CollectionsFrom(env, nodes, root, folders, i).value;
      && |cs| == |CollectionFolders(nodes, root, folders[i..])|
      && forall k :: 0 <= k < |cs| ==>
           CollectionOf(env, Background, nodes, Join(root, CollectionFolders(nodes, root, folders[i..])[k])) == Ok(cs[k])
    decreases |folders| - i
  {
    if i < |folders| {
      CollectionsOfFolders(env, nodes, root, folders, i + 1);
      var later := CollectionsFrom(env, nodes, root, folders, i + 1).value;
      assert folders[i..][0] == folders[i] && folders[i..][1..] == folders[i + 1..];
      var named := CollectionFolders(nodes, root, folders[i + 1..]);
      if IsCollectionFolder(nodes, root, folders[i]) {
        var c := CollectionOf(env, Background, nodes, Join(root, folders[i])).value;
        assert CollectionsFrom(env, nodes, root, folders, i).value == [c] + later;
        assert CollectionFolders(nodes, root, folders[i..]) == [folders[i]] + named;
      } else {
        assert CollectionFolders(nodes, root, folders[i..]) == [] + named == named;
      }
    }
  }

  /** When the walk fails, it is with the error of the first collection
      folder that fails to parse. */
  lemma {:induction false} FirstFailingFolder(env: Env, nodes: Nodes, root: Path, folders: seq<string>, i: nat)
    returns (k: nat)
    requires i <= |folders|
    requires CollectionsFrom(env, nodes, root, folders, i).Err?
    ensures i <= k < |folders| && IsCollectionFolder(nodes, root, folders[k])
    ensures CollectionOf(env, Background, nodes, Join(root, folders[k])).Err?
    ensures CollectionsFrom(env, nodes, root, folders, i).error == CollectionOf(env, Background, nodes, Join(root, folders[k])).error
    ensures forall j :: i <= j < k && IsCollectionFolder(nodes, root, folders[j]) ==>
      CollectionOf(env, Background, nodes, Join(root, folders[j])).Ok?
    decreases |folders| - i
  {
    if IsCollectionFolder(nodes, root, folders[i]) && CollectionOf(env, Background, nodes, Join(root, folders[i])).Err? {
      k := i;
    } else {
      k := FirstFailingFolder(env, nodes, root, folders, i + 1);
    }
  }

  /** A failed fill of a readable data root: the context was not done
      during the folder loop, the error is that of the first collection
      folder that fails to parse, and nothing was indexed. */
  lemma FillErrorIsFolders(env: Env, ctx: Context, nodes: Nodes, root: Path, docs: Docs)
    returns (k: nat)
    requires root in nodes && nodes[root].IsDir()
    requires Filled(env, ctx, nodes, root, docs).0.Some?
    ensures var folders := Listing(nodes[root]);
      && k < |folders| && !CancelledWithin(ctx, |folders|)
      && IsCollectionFolder(nodes, root, folders[k])
      && CollectionOf(env, Background, nodes, Join(root, folders[k])).Err?
      && Filled(env, ctx, nodes, root, docs).0.value == CollectionOf(env, Background, nodes, Join(root, folders[k])).error
      && forall j :: 0 <= j < k && IsCollectionFolder(nodes, root, folders[j]) ==>
           CollectionOf(env, Background, nodes, Join(root, folders[j])).Ok?
    ensures Filled(env, ctx, nodes, root, docs).1 == docs
  {
    k := FirstFailingFolder(env, nodes, root, Listing(nodes[root]), 0);
  }

  /** A collection folder that fails to parse makes the walk fail. */
  lemma {:induction false} FolderErrorFailsWalk(env: Env, nodes: Nodes, root: Path, folders: seq<string>, i: nat, k: nat)
    requires i <= k < |folders| && IsCollectionFolder(nodes, root, folders[k])
    requires CollectionOf(env, Background, nodes, Join(root, folders[k])).Err?
    ensures CollectionsFrom(env, nodes, root, folders, i).Err?
    decreases k - i
  {
    if i < k {
      FolderErrorFailsWalk(env, nodes, root, folders, i + 1, k);
    }
  }

  /** Unless the context is done during the folder loop, any collection
      folder that fails to parse makes the whole fill fail and index
      nothing: there are no partial successes. */
  lemma FolderErrorFailsFill(env: Env, ctx: Context, nodes: Nodes, root: Path, docs: Docs, k: nat)
    requires root in nodes && nodes[root].IsDir()
    requires !CancelledWithin(ctx, |Listing(nodes[root])|)
    requires k < |Listing(nodes[root])| && IsCollectionFolder(nodes, root, Listing(nodes[root])[k])
    requires CollectionOf(env, Background, nodes, Join(root, Listing(nodes[root])[k])).Err?
    ensures Filled(env, ctx, nodes, root, docs).0.Some?
    ensures Filled(env, ctx, nodes, root, docs).1 == docs
  {
    FolderErrorFailsWalk(env, nodes, root, Listing(nodes[root]), 0, k);
  }

  /** The ids of the sessions of some collections. */
  function IdsOf(cs: seq<Collection>): set<string> {
    set k, s | 0 <= k < |cs| && s in cs[k].sessions :: DocKey(cs[k].slug, s.slug)
  }

  /** The ids of some collections are those of all but the last and those
      of the last. */
  lemma IdsOfSplit(cs: seq<Collection>)
    requires cs != []
    ensures IdsOf(cs) == IdsOf(cs[..|cs| - 1]) + (set s | s in cs[|cs| - 1].sessions :: DocKey(cs[|cs| - 1].slug, s.slug))
  {
    var n := |cs| - 1;
    var front := cs[..n];
    forall x | x in IdsOf(cs) ensures x in IdsOf(front) || x in (set s | s in cs[n].sessions :: DocKey(cs[n].slug, s.slug)) {
      var k, s :| 0 <= k < |cs| && s in cs[k].sessions && x == DocKey(cs[k].slug, s.slug);
      if k < n {
        assert front[k] == cs[k];
      }
    }
    forall x | x in IdsOf(front) ensures x in IdsOf(cs) {
      var k, s :| 0 <= k < n && s in front[k].sessions && x == DocKey(front[k].slug, s.slug);
      assert front[k] == cs[k];
    }
  }

  /** Indexing collections adds exactly the ids of their sessions. */
  lemma {:induction false} IndexAllKeys(env: Env, docs: Docs, cs: seq<Collection>)
    ensures IndexAll(env, docs, cs).Keys == docs.Keys + IdsOf(cs)
    decreases |cs|
  {
    if cs != [] {
      var n := |cs| - 1;
      IndexAllKeys(env, docs, cs[..n]);
      CollectionDocuments(env, cs[n], IndexAll(env, docs, cs[..n]));
      IdsOfSplit(cs);
    }
  }

  /** The fill never removes a document, and a context done during the
      folder loop leaves the index exactly as it was, with no error. */
  lemma FillKeepsKeys(env: Env, ctx: Context, nodes: Nodes, root: Path, docs: Docs)
    ensures docs.Keys <= Filled(env, ctx, nodes, root, docs).1.Keys
    ensures root in nodes && nodes[root].IsDir() && CancelledWithin(ctx, |Listing(nodes[root])|) ==>
      Filled(env, ctx, nodes, root, docs) == (None, docs)
  {
    if root in nodes && nodes[root].IsDir() && !CancelledWithin(ctx, |Listing(nodes[root])|) {
      var r := CollectionsFrom(env, nodes, root, Listing(nodes[root]), 0);
      if r.Ok? {
        IndexAllKeys(env, docs, r.value);
      }
    }
  }

  /** A fill that succeeds without a done context holds a document for every
      session of every collection folder, under that session's id. */
  lemma FillIndexesEverySession(env: Env, ctx: Context, nodes: Nodes, root: Path, docs: Docs, k: nat, s: Session)
    requires root in nodes && nodes[root].IsDir()
    requires !CancelledWithin(ctx, |Listing(nodes[root])|) && Filled(env, ctx, nodes, root, docs).0.None?
    requires k < |CollectionFolders(nodes, root, Listing(nodes[root]))|
    ensures var p := Join(root, CollectionFolders(nodes, root, Listing(nodes[root]))[k]);
      CollectionOf(env, Background, nodes, p).Ok?
    ensures var c := CollectionOf(env, Background, nodes, Join(root, CollectionFolders(nodes, root, Listing(nodes[root]))[k])).value;
      s in c.sessions ==> DocKey(c.slug, s.slug) in Filled(env, ctx, nodes, root, docs).1
  {
    var folders := Listing(nodes[root]);
    var cs := CollectionsFrom(env, nodes, root, folders, 0).value;
    CollectionsOfFolders(env, nodes, root, folders, 0);
    assert folders[0..] == folders;
    IndexAllKeys(env, docs, cs);
  }

  // ---------------------------------------------------------------------------
  // A context done during the folder loop

  /** A context done at the first folder ends fillIndex with no error and
      nothing indexed, although a collection folder was there to index. */
  lemma CancelledFillReportsSuccess(env: Env, nodes: Nodes, root: Path, conf: string, c: Collection, s: Session)
    requires root in nodes && nodes[root] == Dir([conf]) && IsCollectionFolder(nodes, root, conf)
    requires CollectionOf(env, Background, nodes, Join(root, conf)) == Ok(c) && s in c.sessions
    ensures CollectionsFrom(env, nodes, root, Listing(nodes[root]), 0) == Ok([c])
    ensures Filled(env, CancelledAt(0), nodes, root, map[]) == (None, map[])
    ensures DocKey(c.slug, s.slug) !in Filled(env, CancelledAt(0), nodes, root, map[]).1
  {
    var folders := Listing(nodes[root]);
    assert folders == [conf];
    assert CollectionsFrom(env, nodes, root, folders, 1) == Ok([]);
    assert [c] + [] == [c];
  }

  // ---------------------------------------------------------------------------
  // index/indexing_test.go

  /** The sessions of a collection whose session files all hold the same
      text, decoded with no slug, all get the same slug. */
  lemma {:induction false} SameFileSameSlug(env: Env, ctx: Context, nodes: Nodes, videos: Path, names: seq<string>, i: nat, data: string, decoded: Session)
    requires i <= |names|
    requires env.codec.decodeSession(data) == Some(decoded) && decoded.slug == ""
    requires forall j :: i <= j < |names| ==> Join(videos, names[j]) in nodes && nodes[Join(videos, names[j])] == File(data)
    requires forall j :: i <= j < |names| ==> !Done(ctx, j)
    ensures SessionsFrom(env, ctx, nodes, videos, names, i).Ok?
    ensures forall s :: s in SessionsFrom(env, ctx, nodes, videos, names, i).value ==>
      s == decoded.(slug := Slugify.Slugify(env.tables, decoded.title))
    decreases |names| - i
  {
    if i < |names| {
      SameFileSameSlug(env, ctx, nodes, videos, names, i + 1, data, decoded);
    }
  }

  /** A root that lists one collection folder fills the index with that
      collection's batch. */
  lemma OneFolderFill(env: Env, nodes: Nodes, root: Path, conf: string, c: Collection, docs: Docs)
    requires root in nodes && nodes[root] == Dir([conf]) && IsCollectionFolder(nodes, root, conf)
    requires CollectionOf(env, Background, nodes, Join(root, conf)) == Ok(c)
    ensures Filled(env, Background, nodes, root, docs) == (None, PutAll(docs, BatchOf(env, c)))
  {
    var folders := Listing(nodes[root]);
    assert folders == [conf];
    assert CollectionsFrom(env, nodes, root, folders, 1) == Ok([]);
    assert [c] + [] == [c];
    assert [c][..0] == [];
    assert IndexAll(env, docs, [c]) == PutAll(IndexAll(env, docs, []), BatchOf(env, c));
  }

  /** Two sessions with one slug make one document. */
  lemma TwinSessionsOneDocument(env: Env, c: Collection)
    requires |c.sessions| == 2 && c.sessions[0] == c.sessions[1]
    ensures |PutAll(map[], BatchOf(env, c))| == 1
  {
    PutAllKeys(map[], BatchOf(env, c));
    BatchIds(env, c);
    var id := DocKey(c.slug, c.sessions[0].slug);
    assert c.sessions == [c.sessions[0]] + [c.sessions[0]];
    assert (set s | s in c.sessions :: DocKey(c.slug, s.slug)) == {id};
    assert PutAll(map[], BatchOf(env, c)).Keys == {id};
  }

  /** The conference folder of the test: its two session files hold the same
      text, so its collection has two equal sessions. */
  lemma ConferenceFolder(env: Env, nodes: Nodes, p: Path, first: string, second: string, sessionData: string, categoryData: string)
    requires first == "my-session.json" && second == "my-other-session.json"
    requires env.codec.decodeSession(sessionData) == Some(Session("Some title", "", [], "", [], "", ""))
    requires env.codec.decodeCategory(categoryData) == Some("My Conference")
    requires Join(p, CategoryFile) in nodes && nodes[Join(p, CategoryFile)] == File(categoryData)
    requires Join(p, VideosFolder) in nodes && nodes[Join(p, VideosFolder)] == Dir([first, second])
    requires Join(Join(p, VideosFolder), first) in nodes && nodes[Join(Join(p, VideosFolder), first)] == File(sessionData)
    requires Join(Join(p, VideosFolder), second) in nodes && nodes[Join(Join(p, VideosFolder), second)] == File(sessionData)
    ensures CollectionOf(env, Background, nodes, p).Ok?
    ensures |CollectionOf(env, Background, nodes, p).value.sessions| == 2
    ensures CollectionOf(env, Background, nodes, p).value.sessions[0] == CollectionOf(env, Background, nodes, p).value.sessions[1]
  {
    var videos := Join(p, VideosFolder);
    var names := [first, second];
    TestSessionNames(first, second);
    var decoded := Session("Some title", "", [], "", [], "", "");
    SameFileSameSlug(env, Background, nodes, videos, names, 0, sessionData, decoded);
    SessionsOfJsonEntries(env, Background, nodes, videos, names, 0);
    assert names[0..] == names;
  }

  /** Both session files of the test are `.json` entries. */
  lemma TestSessionNames(first: string, second: string)
    requires first == "my-session.json" && second == "my-other-session.json"
    ensures IsJsonName(first) && IsJsonName(second)
    ensures JsonNames([first, second]) == [first, second]
  {
    var names := [first, second];
    assert IsJsonName(first) && IsJsonName(second);
    assert names[1..] == [second] && names[1..][1..] == [];
    assert JsonNames([second]) == [second];
  }

  /** TestFillIndex: one conference folder whose two session files hold the
      same title fills the index without error with exactly one document. */
  lemma FillIndexCase(env: Env, nodes: Nodes, root: Path, conf: string, sessionData: string, categoryData: string)
    requires conf == "conf-2017"
    requires env.codec.decodeSession(sessionData) == Some(Session("Some title", "", [], "", [], "", ""))
    requires env.codec.decodeCategory(categoryData) == Some("My Conference")
    requires nodes == map[
      root := Dir([conf]),
      root + [conf] := Dir([VideosFolder, CategoryFile]),
      root + [conf, VideosFolder] := Dir(["my-session.json", "my-other-session.json"]),
      root + [conf, VideosFolder, "my-session.json"] := File(sessionData),
      root + [conf, VideosFolder, "my-other-session.json"] := File(sessionData),
      root + [conf, CategoryFile] := File(categoryData)]
    ensures Filled(env, Background, nodes, root, map[]).0 == None
    ensures |Filled(env, Background, nodes, root, map[]).1| == 1
  {
    var p := Join(root, conf);
    var videos := Join(p, VideosFolder);
    assert Join(p, CategoryFile) == root + [conf, CategoryFile];
    assert videos == root + [conf, VideosFolder];
    assert Join(videos, "my-session.json") == root + [conf, VideosFolder, "my-session.json"];
    assert Join(videos, "my-other-session.json") == root + [conf, VideosFolder, "my-other-session.json"];
    ConferenceFolder(env, nodes, p, "my-session.json", "my-other-session.json", sessionData, categoryData);
    assert Listing(nodes[root]) == [conf] && IsCollectionFolder(nodes, root, conf);
    TwinFolderFill(env, nodes, root, conf, CollectionOf(env, Background, nodes, p).value);
  }

  /** A root whose one collection folder holds two equal sessions fills the
      index without error with one document. */
  lemma TwinFolderFill(env: Env, nodes: Nodes, root: Path, conf: string, c: Collection)
    requires root in nodes && nodes[root] == Dir([conf]) && IsCollectionFolder(nodes, root, conf)
    requires CollectionOf(env, Background, nodes, Join(root, conf)) == Ok(c)
    requires |c.sessions| == 2 && c.sessions[0] == c.sessions[1]
    ensures Filled(env, Background, nodes, root, map[]).0 == None
    ensures |Filled(env, Background, nodes, root, map[]).1| == 1
  {
    OneFolderFill(env, nodes, root, conf, c, map[]);
    TwinSessionsOneDocument(env, c);
  }

  /** TestFillIndexBrokenCategoryJSON: a `category.json` that does not decode
      makes the walk fail instead of passing the folder over. */
  lemma BrokenCategoryCase(env: Env, nodes: Nodes, root: Path, conf: string, categoryData: string)
    requires conf == "conf-2017"
    requires env.codec.decodeCategory(categoryData) == None
    requires nodes == map[
      root := Dir([conf]),
      root + [conf] := Dir([VideosFolder, CategoryFile]),
      root + [conf, VideosFolder] := Dir([]),
      root + [conf, CategoryFile] := File(categoryData)]
    ensures Filled(env, Background, nodes, root, map[]).0.Some?
  {
    var p := Join(root, conf);
    assert p == root + [conf];
    assert Join(p, CategoryFile) == root + [conf, CategoryFile];
    assert Listing(nodes[root]) == [conf];
  }

  // ---------------------------------------------------------------------------
  // findIndex

  /** The position of the first directory among the names from i on. */
  function FirstDirectory(nodes: Nodes, root: Path, names: seq<string>, i: nat): (r: Option<nat>)
    requires i <= |names|
    ensures r.Some? ==> (i <= r.value < |names| && IsDirAt(nodes, Join(root, names[r.value]))
      && forall j :: i <= j < r.value ==> !IsDirAt(nodes, Join(root, names[j])))
    ensures r.None? ==> forall j :: i <= j < |names| ==> !IsDirAt(nodes, Join(root, names[j]))
    decreases |names| - i
  {
    if i == |names| then None
    else if IsDirAt(nodes, Join(root, names[i])) then Some(i)
    else FirstDirectory(nodes, root, names, i + 1)
  }

  /** findIndex, as a value: no index when the root does not exist, an error
      when it cannot be listed, otherwise its first directory, if any. */
  function FoundIndex(nodes: Nodes, root: Path): Result<Option<Path>, string> {
    if root !in nodes then Ok(None)
    else if !nodes[root].IsDir() then Err("readdirent: not a directory")
    else
      match FirstDirectory(nodes, root, Listing(nodes[root]), 0)
      case None => Ok(None)
      case Some(k) => Ok(Some(Join(root, Listing(nodes[root])[k])))
  }

  /** findIndex: the root's entries in order until the first directory. */
  method FindIndex(disk: Disk, root: Path) returns (r: Result<Option<Path>, string>)
    ensures r == FoundIndex(disk.nodes, root)
  {
    var nodes := disk.nodes;
    if root !in nodes {
      return Ok(None);
    }
    if !nodes[root].IsDir() {
      return Err("readdirent: not a directory");
    }
    var files := Listing(nodes[root]);
    for i := 0 to |files|
      invariant FirstDirectory(nodes, root, files, 0) == FirstDirectory(nodes, root, files, i)
    {
      if IsDirAt(nodes, Join(root, files[i])) {
        return Ok(Some(Join(root, files[i])));
      }
    }
    r := Ok(None);
  }

  /** What findIndex finds is a directory directly under the root, listed
      before every other directory there; it finds nothing only when the
      root is missing or lists no directory. */
  lemma FoundIndexIsFirstDirectory(nodes: Nodes, root: Path)
    requires FoundIndex(nodes, root).Ok?
    ensures FoundIndex(nodes, root).value.Some? ==>
      var p := FoundIndex(nodes, root).value.value;
      && IsDirAt(nodes, p) && |p| == |root| + 1 && p[..|root|] == root
      && Base(p) in Listing(nodes[root])
      && forall i :: 0 <= i < |Listing(nodes[root])| && IsDirAt(nodes, Join(root, Listing(nodes[root])[i])) ==>
           Base(p) in Listing(nodes[root])[..i + 1]
    ensures FoundIndex(nodes, root).value.None? <==>
      root !in nodes || forall e :: e in Listing(nodes[root]) ==> !IsDirAt(nodes, Join(root, e))
  {
    if root in nodes {
      var names := Listing(nodes[root]);
      var first := FirstDirectory(nodes, root, names, 0);
      if first.Some? {
        assert names[first.value] in names;
        forall i | 0 <= i < |names| && IsDirAt(nodes, Join(root, names[i]))
          ensures names[first.value] in names[..i + 1]
        {
          assert names[..i + 1][first.value] == names[first.value];
        }
      } else {
        forall e | e in names ensures !IsDirAt(nodes, Join(root, e)) {
          var j :| 0 <= j < |names| && names[j] == e;
          assert !IsDirAt(nodes, Join(root, names[j]));
        }
      }
    }
  }

  // ---------------------------------------------------------------------------
  // The .state file and the Index handle

  /** getIndexState, as a value. */
  function ReadState(codec: Codec, nodes: Nodes, indexRoot: Path): Result<State, string> {
    var p := Join(indexRoot, StateFile);
    if p !in nodes then Err("open .state: no such file or directory")
    else
      match (if nodes[p].File? then codec.decodeState(nodes[p].data) else None)
      case None => Err("invalid state")
      case Some(st) => Ok(st)
  }

  /** setIndexState, as a value: the disk after the state is written. */
  function StateWritten(codec: Codec, nodes: Nodes, indexRoot: Path, st: State): Result<Nodes, string> {
    Written(nodes, Join(indexRoot, StateFile), codec.encodeState(st))
  }

  /** A state written with a faithful codec reads back. */
  lemma StateRoundTrip(codec: Codec, nodes: Nodes, indexRoot: Path, st: State)
    requires codec.StateRoundTrip()
    requires StateWritten(codec, nodes, indexRoot, st).Ok?
    ensures ReadState(codec, StateWritten(codec, nodes, indexRoot, st).value, indexRoot) == Ok(st)
  {
    WriteThenRead(nodes, Join(indexRoot, StateFile), codec.encodeState(st));
  }

  /** An open search index and where it lives. */
  class Index {
    const path: Path

    constructor (path: Path)
      ensures this.path == path
    {
      this.path := path;
    }

    /** Destroy: an index with no path removes nothing; otherwise exactly
        its subtree goes. */
    method Destroy(disk: Disk)
      modifies disk
      ensures path == [] ==> disk.nodes == old(disk.nodes)
      ensures path != [] ==> disk.nodes == Removed(old(disk.nodes), path)
    {
      if path != [] {
        disk.RemoveAll(path);
      }
    }
  }
}
