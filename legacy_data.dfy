/** The earlier document transformer of data.go: no speaker slugs, no
    collection URL, no thumbnail and no recording time. */
module LegacyData {
  import IndexData
  import Slugify

  datatype Video = Video(kind: string, url: string)

  datatype Session = Session(
    title: string,
    description: string,
    speakers: seq<string>,
    recorded: string,
    videos: seq<Video>,
    slug: string)

  datatype Collection = Collection(title: string, slug: string, sessions: seq<Session>)

  /** The earlier document: the collection only by title, the speakers as
      plain names. */
  datatype IndexedSession = IndexedSession(
    title: string,
    description: string,
    url: string,
    collection: string,
    speakers: seq<string>)
  {
    function Type(): string { "session" }
  }

  /** newIndexedSession of data.go; the URL has the same shape as in
      index/data.go. */
  function NewIndexedSession(session: Session, collection: Collection): IndexedSession {
    IndexedSession(
      session.title, session.description,
      IndexData.SessionURL(collection.slug, session.slug),
      collection.title, session.speakers)
  }

  /** The earlier document copies title, description, collection title and
      speaker names, and its URL gives back both slugs when the collection
      slug holds no `/`. */
  lemma LegacyDocumentFields(session: Session, collection: Collection)
    ensures var d := NewIndexedSession(session, collection);
      && d.title == session.title && d.description == session.description
      && d.collection == collection.title && d.speakers == session.speakers
      && d.Type() == "session"
    ensures '/' !in collection.slug ==>
      var u := NewIndexedSession(session, collection).url;
      && |u| == |collection.slug| + |session.slug| + 7
      && u[1..1 + |collection.slug|] == collection.slug
      && u[2 + |collection.slug|..|u| - 5] == session.slug
  {
    if '/' !in collection.slug {
      IndexData.SessionURLParts(collection.slug, session.slug);
    }
  }

  /** The same session in the records of index/data.go, with no thumbnail. */
  function Current(session: Session): IndexData.Session {
    IndexData.Session(
      session.title, session.description, session.speakers, session.recorded,
      seq(|session.videos|, i requires 0 <= i < |session.videos| =>
        IndexData.Video(session.videos[i].kind, session.videos[i].url)),
      session.slug, "")
  }

  /** The earlier document says nothing the current one does not: title,
      description and URL agree, the collection title is the current
      document's, and the plain speaker list is the names of its speaker
      entries. */
  lemma AgreesWithCurrent(t: Slugify.Tables, format: IndexData.Formatter, session: Session, collection: Collection)
    ensures var earlier := NewIndexedSession(session, collection);
      var current := IndexData.IndexedSessionOf(t, format, Current(session), IndexData.Collection(collection.title, collection.slug, []));
      && earlier.title == current.title && earlier.description == current.description
      && earlier.url == current.url && earlier.collection == current.collectionTitle
      && earlier.speakers == IndexData.Names(current.speakers)
      && earlier.Type() == current.Type()
  {
    IndexData.SpeakerNamesKept(t, session.speakers);
  }

  /** The case of data_test.go: the title is copied and the URL is
      "/conf/my-session.html". */
  lemma NewIndexedSessionCase(session: Session, collection: Collection)
    requires collection == Collection("Conference", "conf", [])
    requires session == Session("My Session", "", [], "", [], "my-session")
    ensures NewIndexedSession(session, collection).title == session.title
    ensures NewIndexedSession(session, collection).url == "/conf/my-session.html"
  {
    assert "/" + "conf" == "/conf";
    assert "/conf" + "/" == "/conf/";
    assert "/conf/" + "my-session" == "/conf/my-session";
    assert "/conf/my-session" + ".html" == "/conf/my-session.html";
  }
}
