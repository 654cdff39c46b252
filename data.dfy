/** The records of index/data.go and the document a session becomes in the
    search index. */
module IndexData {
  import opened Wrappers
  import opened Slugify
  import opened Timestamps

  /** The content of the `.state` file: which data revision the live index
      was built from, and the index directory's name. */
  datatype State = State(ref: string, index: string)

  datatype Video = Video(kind: string, url: string)

  /** A session file, once decoded. */
  datatype Session = Session(
    title: string,
    description: string,
    speakers: seq<string>,
    recorded: string,
    videos: seq<Video>,
    slug: string,
    thumbnailUrl: string)

  datatype Speaker = Speaker(name: string, slug: string)

  datatype Collection = Collection(title: string, slug: string, sessions: seq<Session>)

  /** The document stored for one session. */
  datatype IndexedSession = IndexedSession(
    title: string,
    description: string,
    url: string,
    collectionTitle: string,
    collectionUrl: string,
    speakers: seq<Speaker>,
    thumbnailUrl: string,
    recorded: Instant,
    recordedFormatted: string)
  {
    /** The document type the index maps sessions under. */
    function Type(): string { "session" }
  }

  /** `time.Time.Format` with `outputTimestampFormat` ("Mon Jan 2 2006") of the
      time at an instant in a zone, given by its offset in seconds east of
      UTC: Go formats a parsed time in the zone it was parsed with. The
      weekday and month names are Go's, passed in. */
  type Formatter = (Instant, int) -> string

  function SessionURL(collectionSlug: string, sessionSlug: string): string {
    "/" + collectionSlug + "/" + sessionSlug + ".html"
  }

  function CollectionURL(collectionSlug: string): string {
    "/events/" + collectionSlug + ".html"
  }

  /** One speaker entry per name, in order, each with its slug. */
  function SpeakersOf(t: Tables, names: seq<string>): (r: seq<Speaker>)
    ensures |r| == |names|
  {
    if names == [] then [] else SpeakersOf(t, names[..|names| - 1]) + [Speaker(names[|names| - 1], Slugify.Slugify(t, names[|names| - 1]))]
  }

  function Names(speakers: seq<Speaker>): (r: seq<string>)
    ensures |r| == |speakers|
  {
    if speakers == [] then [] else Names(speakers[..|speakers| - 1]) + [speakers[|speakers| - 1].name]
  }

  /** The instant of a non-empty `Recorded`: the first layout that reads it,
      or the zero time when none does. */
  function RecordedInstant(recorded: string): Instant {
    match FirstMatch(InputTimestampFormats, recorded)
    case Some(instant) => instant
    case None => ZeroInstant
  }

  /** The zone a non-empty `Recorded` was read in: that of the first layout
      that reads it, or UTC, the zero time's zone, when none does. */
  function RecordedOffset(recorded: string): int {
    FirstOffset(InputTimestampFormats, recorded)
  }

  /** newIndexedSession, as a value. */
  function IndexedSessionOf(t: Tables, format: Formatter, session: Session, collection: Collection): IndexedSession {
    var base := IndexedSession(
      session.title, session.description,
      SessionURL(collection.slug, session.slug),
      collection.title, CollectionURL(collection.slug),
      SpeakersOf(t, session.speakers), session.thumbnailUrl,
      ZeroInstant, "");
    if session.recorded == "" then base
    else
      var instant := RecordedInstant(session.recorded);
      base.(recorded := instant, recordedFormatted := format(instant, RecordedOffset(session.recorded)))
  }

  /** newIndexedSession: the speakers built by appending in a loop, the layouts
      tried in order until one reads `Recorded`. */
  method NewIndexedSession(t: Tables, format: Formatter, session: Session, collection: Collection)
    returns (res: IndexedSession)
    ensures res == IndexedSessionOf(t, format, session, collection)
  {
    var speakers: seq<Speaker> := [];
    for i := 0 to |session.speakers|
      invariant speakers == SpeakersOf(t, session.speakers[..i])
    {
      var name := session.speakers[i];
      speakers := speakers + [Speaker(name, Slugify.Slugify(t, name))];
      assert session.speakers[..i + 1][..i] == session.speakers[..i];
    }
    assert session.speakers[..|session.speakers|] == session.speakers;
    res := IndexedSession(
      session.title, session.description,
      SessionURL(collection.slug, session.slug),
      collection.title, CollectionURL(collection.slug),
      speakers, session.thumbnailUrl,
      ZeroInstant, "");
    if session.recorded != "" {
      var valid := false;
      var offset := 0;
      var k := 0;
      while k < |InputTimestampFormats|
        invariant 0 <= k <= |InputTimestampFormats|
        invariant !valid ==> res.recorded == ZeroInstant && offset == 0
        invariant !valid ==> FirstMatch(InputTimestampFormats, session.recorded)
                               == FirstMatch(InputTimestampFormats[k..], session.recorded)
        invariant !valid ==> FirstOffset(InputTimestampFormats, session.recorded)
                               == FirstOffset(InputTimestampFormats[k..], session.recorded)
        invariant valid ==> res.recorded == RecordedInstant(session.recorded)
        invariant valid ==> offset == RecordedOffset(session.recorded)
        invariant res.(recorded := ZeroInstant) == IndexedSessionOf(t, format, session.(recorded := ""), collection)
        decreases if valid then 0 else |InputTimestampFormats| - k
      {
        var stamp := ParseStamp(InputTimestampFormats[k], session.recorded);
        if stamp.Some? {
          res := res.(recorded := StampInstant(stamp.value));
          offset := stamp.value.offset;
          valid := true;
          break;
        }
        assert InputTimestampFormats[k..][1..] == InputTimestampFormats[k + 1..];
        k := k + 1;
      }
      res := res.(recordedFormatted := format(res.recorded, offset));
    }
  }

  // ---------------------------------------------------------------------------
  // Properties of the document

  /** The speaker names come through in order. */
  lemma {:induction false} SpeakerNamesKept(t: Tables, names: seq<string>)
    ensures Names(SpeakersOf(t, names)) == names
  {
    if names != [] {
      var init := names[..|names| - 1];
      SpeakerNamesKept(t, init);
      assert SpeakersOf(t, names)[..|names| - 1] == SpeakersOf(t, init);
      assert names == init + [names[|names| - 1]];
    }
  }

  /** Each speaker entry carries its own name's slug, which is a slug. */
  lemma {:induction false} SpeakerSlugs(t: Tables, names: seq<string>)
    ensures forall i :: 0 <= i < |names| ==>
      SpeakersOf(t, names)[i].slug == Slugify.Slugify(t, names[i]) && IsSlug(SpeakersOf(t, names)[i].slug)
  {
    if names != [] {
      var init := names[..|names| - 1];
      SpeakerSlugs(t, init);
      forall i | 0 <= i < |names|
        ensures SpeakersOf(t, names)[i].slug == Slugify.Slugify(t, names[i])
      {
        if i < |names| - 1 {
          assert SpeakersOf(t, names)[i] == SpeakersOf(t, init)[i];
          assert names[i] == init[i];
        }
      }
    }
  }

  /** A collection slug without `/` can be read back out of a session URL,
      and so can the session slug: different sessions or collections never
      share a URL. */
  lemma SessionURLInjective(c1: string, s1: string, c2: string, s2: string)
    requires '/' !in c1 && '/' !in c2
    requires SessionURL(c1, s1) == SessionURL(c2, s2)
    ensures c1 == c2 && s1 == s2
  {
    SessionURLParts(c1, s1);
    SessionURLParts(c2, s2);
  }

  /** Where the parts of a session URL sit: the collection slug is what lies
      between the leading `/` and the next one. */
  lemma SessionURLParts(c: string, s: string)
    requires '/' !in c
    ensures var u := SessionURL(c, s);
      && |u| == |c| + |s| + 7
      && u[1 + |c|] == '/'
      && (forall k :: 1 <= k < 1 + |c| ==> u[k] != '/')
      && u[1..1 + |c|] == c
      && u[2 + |c|..|u| - 5] == s
  {
    var u := SessionURL(c, s);
    forall k | 1 <= k < 1 + |c|
      ensures u[k] != '/'
    {
      assert u[k] == c[k - 1];
    }
  }

  /** Different collections never share a collection URL. */
  lemma CollectionURLInjective(c1: string, c2: string)
    requires CollectionURL(c1) == CollectionURL(c2)
    ensures c1 == c2
  {
    var u := CollectionURL(c1);
    assert c1 == u[8..|u| - 5];
    assert c2 == CollectionURL(c2)[8..|u| - 5];
  }

  /** The fields copied from the session and the collection, and the two
      URLs. */
  lemma DocumentFields(t: Tables, format: Formatter, session: Session, collection: Collection)
    ensures var d := IndexedSessionOf(t, format, session, collection);
      && d.title == session.title && d.description == session.description
      && d.thumbnailUrl == session.thumbnailUrl && d.collectionTitle == collection.title
      && d.url == SessionURL(collection.slug, session.slug)
      && d.collectionUrl == CollectionURL(collection.slug)
      && Names(d.speakers) == session.speakers
      && d.Type() == "session"
  {
    SpeakerNamesKept(t, session.speakers);
  }

  /** An empty `Recorded` leaves the zero time and no formatted text. */
  lemma EmptyRecorded(t: Tables, format: Formatter, session: Session, collection: Collection)
    requires session.recorded == ""
    ensures IndexedSessionOf(t, format, session, collection).recorded == ZeroInstant
    ensures IndexedSessionOf(t, format, session, collection).recordedFormatted == ""
  {
  }

  /** A `Recorded` no layout reads is not an error: the zero time stays, and
      its formatted text, in UTC, is still filled in. */
  lemma UnreadableRecorded(t: Tables, format: Formatter, session: Session, collection: Collection)
    requires session.recorded != ""
    requires forall k :: 0 <= k < |InputTimestampFormats| ==> Parse(InputTimestampFormats[k], session.recorded).None?
    ensures IndexedSessionOf(t, format, session, collection).recorded == ZeroInstant
    ensures IndexedSessionOf(t, format, session, collection).recordedFormatted == format(ZeroInstant, 0)
  {
    FirstMatchNone(InputTimestampFormats, session.recorded);
    FirstOffsetNone(InputTimestampFormats, session.recorded);
  }

  /** The first layout that reads `Recorded` gives the instant, and the
      formatted text is that instant in the zone the text names, whatever
      the later layouts would give. */
  lemma FirstReadingLayoutWins(t: Tables, format: Formatter, session: Session, collection: Collection, k: nat)
    requires session.recorded != "" && k < |InputTimestampFormats|
    requires Parse(InputTimestampFormats[k], session.recorded).Some?
    requires forall j :: 0 <= j < k ==> Parse(InputTimestampFormats[j], session.recorded).None?
    ensures IndexedSessionOf(t, format, session, collection).recorded
              == Parse(InputTimestampFormats[k], session.recorded).value
    ensures IndexedSessionOf(t, format, session, collection).recordedFormatted
              == format(Parse(InputTimestampFormats[k], session.recorded).value,
                        ParseStamp(InputTimestampFormats[k], session.recorded).value.offset)
  {
    FirstMatchComplete(InputTimestampFormats, session.recorded, k);
    FirstOffsetComplete(InputTimestampFormats, session.recorded, k);
  }

  // ---------------------------------------------------------------------------
  // index/data_test.go

  /** The session "My Session" with slug "my-session" in the collection "conf"
      keeps its title and is found at "/conf/my-session.html". */
  lemma NewIndexedSessionCase(t: Tables, format: Formatter, session: Session, collection: Collection)
    requires collection == Collection("Conference", "conf", [])
    requires session == Session("My Session", "", [], "", [], "my-session", "")
    ensures IndexedSessionOf(t, format, session, collection).title == session.title
    ensures IndexedSessionOf(t, format, session, collection).url == "/conf/my-session.html"
  {
    assert "/" + "conf" == "/conf";
    assert "/conf" + "/" == "/conf/";
    assert "/conf/" + "my-session" == "/conf/my-session";
    assert "/conf/my-session" + ".html" == "/conf/my-session.html";
  }

  // The three `Recorded` cases, through the whole document: the first two
  // are read in UTC, the third in its own zone, an hour east of UTC.

  lemma RecordedDateOnlyDocument(t: Tables, format: Formatter, collection: Collection, session: Session)
    requires session.recorded == "2016-02-05"
    ensures var d := IndexedSessionOf(t, format, session, collection);
      && d.recorded == CivilSeconds(Civil(2016, 2, 5, 0, 0, 0))
      && d.recordedFormatted == format(d.recorded, 0)
  {
    DateOnlyInstant(t, format, collection, session);
    DateOnlyZone(t, format, collection, session);
  }

  lemma DateOnlyInstant(t: Tables, format: Formatter, collection: Collection, session: Session)
    requires session.recorded == "2016-02-05"
    ensures IndexedSessionOf(t, format, session, collection).recorded == CivilSeconds(Civil(2016, 2, 5, 0, 0, 0))
  {
    RecordedDateOnlyCase(session.recorded);
  }

  lemma DateOnlyZone(t: Tables, format: Formatter, collection: Collection, session: Session)
    requires session.recorded == "2016-02-05"
    ensures var d := IndexedSessionOf(t, format, session, collection);
      d.recordedFormatted == format(d.recorded, 0)
  {
    RecordedDateOnlyCase(session.recorded);
  }

  lemma RecordedDateTimeDocument(t: Tables, format: Formatter, collection: Collection, session: Session)
    requires session.recorded == "2016-02-05T18:30:00"
    ensures var d := IndexedSessionOf(t, format, session, collection);
      && d.recorded == CivilSeconds(Civil(2016, 2, 5, 18, 30, 0))
      && d.recordedFormatted == format(d.recorded, 0)
  {
    RecordedDateTimeCase(session.recorded);
  }

  lemma RecordedZoneDocument(t: Tables, format: Formatter, collection: Collection, session: Session)
    requires session.recorded == "2016-02-05T18:30:00+01:00"
    ensures var d := IndexedSessionOf(t, format, session, collection);
      && d.recorded == CivilSeconds(Civil(2016, 2, 5, 17, 30, 0))
      && d.recordedFormatted == format(d.recorded, 3600)
  {
    RecordedZoneCase(session.recorded);
  }
}
