/**
 * `ItunesMusicReleasesProvider`: an input is an iTunes artist, its
 * outputs are the artist's latest songs and albums.
 */
module ItunesProvider {
  import opened Wrappers
  import opened Strings
  import opened Seqs
  import opened Json
  import opened Schema
  import opened Rows
  import opened Interfaces
  import opened ItunesRules

  // ---------------------------------------------------------------------
  // schemas

  /** `itunesMusicReleasesInputSchema`. */
  const InputFields: seq<Field> := [
    Field("wrapperType", KLiteral("artist"), Required),
    Field("artistType", KLiteral("Artist"), Required),
    Field("artistName", KString, Required),
    Field("artistLinkUrl", KUrl, Required),
    Field("artistId", KNumber, Required),
    Field("amgArtistId", KNumber, Optional),
    Field("primaryGenreName", KString, Required),
    Field("primaryGenreId", KNumber, Required)
  ]

  const ExtraFields: seq<Field> := [Field("artistImage", KUrl, Required)]

  /** `itunesMusicReleasesInputWithExtraSchema`: the input schema extended with `extra`. */
  const InputWithExtraFields: seq<Field> := InputFields + [Field("extra", KObject(ExtraFields), Required)]

  /** `itunesMusicReleasesOutputAlbumSchema`. */
  const AlbumFields: seq<Field> := [
    Field("wrapperType", KLiteral("collection"), Required),
    Field("collectionType", KLiteral("Album"), Required),
    Field("artistId", KNumber, Required),
    Field("collectionId", KNumber, Required),
    Field("amgArtistId", KNumber, Optional),
    Field("artistName", KString, Required),
    Field("collectionName", KString, Required),
    Field("collectionCensoredName", KString, Required),
    Field("artistViewUrl", KString, Required),
    Field("collectionViewUrl", KString, Required),
    Field("artworkUrl60", KString, Required),
    Field("artworkUrl100", KString, Required),
    Field("collectionPrice", KNumber, Optional),
    Field("collectionExplicitness", KString, Required),
    Field("trackCount", KNumber, Required),
    Field("copyright", KString, Optional),
    Field("country", KString, Required),
    Field("currency", KString, Required),
    Field("releaseDate", KDate(false), DefaultNow),
    Field("primaryGenreName", KString, Required),
    Field("contentAdvisoryRating", KString, Optional)
  ]

  /** `itunesMusicReleasesOutputSongSchema`. */
  const SongFields: seq<Field> := [
    Field("wrapperType", KLiteral("track"), Required),
    Field("kind", KLiteral("song"), Required),
    Field("artistId", KNumber, Required),
    Field("collectionId", KNumber, Required),
    Field("trackId", KNumber, Required),
    Field("artistName", KString, Required),
    Field("collectionName", KString, Required),
    Field("trackName", KString, Required),
    Field("collectionCensoredName", KString, Required),
    Field("trackCensoredName", KString, Required),
    Field("collectionArtistName", KString, Optional),
    Field("artistViewUrl", KString, Optional),
    Field("collectionViewUrl", KString, Required),
    Field("trackViewUrl", KString, Required),
    Field("previewUrl", KString, Optional),
    Field("artworkUrl30", KString, Required),
    Field("artworkUrl60", KString, Required),
    Field("artworkUrl100", KString, Required),
    Field("releaseDate", KDate(false), DefaultNow),
    Field("collectionExplicitness", KString, Required),
    Field("trackExplicitness", KString, Required),
    Field("discCount", KNumber, Required),
    Field("discNumber", KNumber, Required),
    Field("trackCount", KNumber, Required),
    Field("trackNumber", KNumber, Required),
    Field("trackTimeMillis", KNumber, Optional),
    Field("country", KString, Required),
    Field("currency", KString, Required),
    Field("primaryGenreName", KString, Required),
    Field("isStreamable", KBool, Required),
    Field("collectionPrice", KNumber, Optional),
    Field("trackPrice", KNumber, Optional),
    Field("contentAdvisoryRating", KString, Optional),
    Field("collectionArtistId", KNumber, Optional)
  ]

  function EntityFields(e: Entity): seq<Field>
  {
    if e.Song? then SongFields else AlbumFields
  }

  lemma InputSchemaOk()
    ensures SchemaOk(InputFields) && SchemaOk(InputWithExtraFields)
  {
    InputNamesDistinct();
    assert forall i :: 0 <= i < |InputFields| ==> KindOk(InputFields[i]);
    assert forall i :: 0 <= i < |InputFields| ==> |InputFields[i].name| != |"extra"|;
    SchemaAppend(InputFields, Field("extra", KObject(ExtraFields), Required));
  }

  lemma InputNamesDistinct()
    ensures forall i, j :: 0 <= i < j < |InputFields| ==> InputFields[i].name != InputFields[j].name
  {
    forall i, j | 0 <= i < j < |InputFields|
      ensures InputFields[i].name != InputFields[j].name
    {
      var a := InputFields[i].name;
      var b := InputFields[j].name;
      if |a| == |b| {
        assert a[0] != b[0] || a[6] != b[6];
      }
    }
  }

  lemma AlbumSchemaOk()
    ensures SchemaOk(AlbumFields)
  {
    AlbumNamesDistinct();
    AlbumKindsOk();
  }

  lemma AlbumNamesDistinct()
    ensures forall i, j :: 0 <= i < j < |AlbumFields| ==> AlbumFields[i].name != AlbumFields[j].name
  {
  }

  lemma AlbumKindsOk()
    ensures forall i :: 0 <= i < |AlbumFields| ==> KindOk(AlbumFields[i])
  {
  }

  lemma SongSchemaOk()
    ensures SchemaOk(SongFields)
  {
    SongNamesDistinctLow();
    SongNamesDistinctCross();
    SongNamesDistinctHigh();
    SongKindsOk();
  }

  lemma SongNamesDistinctLow()
    ensures forall i, j :: 0 <= i < j < 17 ==> SongFields[i].name != SongFields[j].name
  {
  }

  lemma SongNamesDistinctCross()
    ensures forall i, j :: 0 <= i < 17 <= j < |SongFields| ==> SongFields[i].name != SongFields[j].name
  {
  }

  lemma SongNamesDistinctHigh()
    ensures forall i, j :: 17 <= i < j < |SongFields| ==> SongFields[i].name != SongFields[j].name
  {
  }

  lemma SongKindsOk()
    ensures forall i :: 0 <= i < |SongFields| ==> KindOk(SongFields[i])
  {
  }

  lemma EntitySchemaOk(e: Entity)
    ensures SchemaOk(EntityFields(e))
    ensures EntityFields(e)[0] == Field("wrapperType", KLiteral(if e.Song? then "track" else "collection"), Required)
  {
    if e.Song? { SongSchemaOk(); } else { AlbumSchemaOk(); }
  }

  /** A parsed song is a track and a parsed album a collection: the literal is copied to the output. */
  lemma ParsedWrapperType(j: Json, e: Entity, val: Validators)
    requires Parse(j, EntityFields(e), val).Ok?
    ensures var out := Parse(j, EntityFields(e), val).value;
      if e.Song? then IsTrack(out) && !IsCollection(out) else IsCollection(out) && !IsTrack(out)
  {
    EntitySchemaOk(e);
    ParseLiteral(j, EntityFields(e), val, 0, if e.Song? then "track" else "collection");
  }

  // ---------------------------------------------------------------------
  // inputs

  /** `lookupInput(term)`. */
  function LookupInput(api: ItunesApi, term: string, val: Validators): Result<Option<Json>>
  {
    LookupArtist(api, term, InputFields, InputWithExtraFields, val)
  }

  /** A found artist carries the resized picture of its page, or the placeholder when there is none. */
  lemma LookupInputImage(api: ItunesApi, term: string, val: Validators)
    requires LookupInput(api, term, val).Ok? && LookupInput(api, term, val).value.Some?
    ensures var remote := api.lookup(term).value[0];
      var image := ArtistImage(api, JsString(Prop(remote, "artistLinkUrl"))).value.GetOr(PlaceholderImage);
      Prop(LookupInput(api, term, val).value.value, "extra") == Some(Obj([Member("artistImage", Str(image))]))
  {
    var remote := api.lookup(term).value[0];
    var image := ArtistImage(api, JsString(Prop(remote, "artistLinkUrl"))).value.GetOr(PlaceholderImage);
    var withImage := WithImage(Parse(remote, InputFields, val).value, image);
    assert Parse(withImage, InputWithExtraFields, val) == Ok(LookupInput(api, term, val).value.value);
    InputSchemaOk();
    ExtraField();
    ParseGet(withImage, InputWithExtraFields, val, 8);
    ExtraParse(image, val);
  }

  lemma ExtraField()
    ensures |InputWithExtraFields| == 9
    ensures InputWithExtraFields[8] == Field("extra", KObject(ExtraFields), Required)
    ensures InputWithExtraFields[4] == Field("artistId", KNumber, Required)
  {
  }

  /** The `extra` object built from a picture URL is accepted as it is, or not at all. */
  lemma ExtraParse(image: string, val: Validators)
    ensures var ms := [Member("artistImage", Str(image))];
      ParseValue(Some(Obj(ms)), KObject(ExtraFields), Required, val).Ok? ==>
        ParseValue(Some(Obj(ms)), KObject(ExtraFields), Required, val) == Ok(Some(Obj(ms)))
  {
    var ms := [Member("artistImage", Str(image))];
    assert Get(ms, "artistImage") == Some(Str(image));
    assert ParseFields(ms, ExtraFields[1..], val) == Ok([]);
    assert ExtraFields[0] == Field("artistImage", KUrl, Required);
    var v := ParseValue(Some(Str(image)), KUrl, Required, val);
    if v.Ok? {
      assert v == Ok(Some(Str(image)));
      assert [Member("artistImage", Str(image))] + [] == ms;
      assert ParseFields(ms, ExtraFields, val) == Ok(ms);
      assert ParseValue(Some(Obj(ms)), KObject(ExtraFields), Required, val) == Ok(Some(Obj(ms)));
    } else {
      assert ParseFields(ms, ExtraFields, val).Err?;
      assert ParseValue(Some(Obj(ms)), KObject(ExtraFields), Required, val).Err?;
    }
  }

  /** `fetchInput(row)`: look the stored artist up again by its `artistId`; nothing found throws. */
  function FetchInput(api: ItunesApi, row: InputRow, val: Validators): (r: Result<Json>)
    ensures FromPersistenceToInput(row, val).Err? ==> r.Err?
    ensures r.Ok? ==> LookupInput(api, ArtistTerm(FromPersistenceToInput(row, val).value), val) == Ok(Some(r.value))
    ensures FromPersistenceToInput(row, val).Ok?
      && LookupInput(api, ArtistTerm(FromPersistenceToInput(row, val).value), val) == Ok(None)
      ==> r == Err(NotFound("input"))
  {
    var parsed := FromPersistenceToInput(row, val);
    if parsed.Err? then Err(parsed.error)
    else
      var input := LookupInput(api, ArtistTerm(parsed.value), val);
      if input.Err? then Err(input.error)
      else if input.value.None? then Err(NotFound("input"))
      else Ok(input.value.value)
  }

  /** `String(input.artistId)`: the lookup term of an artist. */
  function ArtistTerm(input: Json): string
  {
    JsString(Prop(input, "artistId"))
  }

  // ---------------------------------------------------------------------
  // outputs

  /** `results.splice(0, 1)`: the first result is the artist itself. */
  function DropFirst(results: seq<Json>): (r: seq<Json>)
    ensures |results| > 0 ==> r == results[1..]
    ensures |results| == 0 ==> r == []
  {
    if |results| == 0 then [] else results[1..]
  }

  /** `#lookupLatestReleasesByArtist(artistId, entity, 50)`: drop the artist, keep usable items, parse them. */
  function LatestReleases(api: ItunesApi, artistId: string, entity: Entity, val: Validators): (r: Result<seq<Json>>)
    ensures r.Ok? ==> api.lookupReleases(artistId, entity, ReleaseLimit).Ok?
    ensures r.Ok? ==>
      var kept := FilterOk(DropFirst(api.lookupReleases(artistId, entity, ReleaseLimit).value), UsableOutput);
      kept.Ok? && |r.value| == |kept.value|
      && forall i :: 0 <= i < |r.value| ==> Parse(kept.value[i], EntityFields(entity), val) == Ok(r.value[i])
  {
    var results := api.lookupReleases(artistId, entity, ReleaseLimit);
    if results.Err? then Err(results.error)
    else
      var kept := FilterOk(DropFirst(results.value), UsableOutput);
      if kept.Err? then Err(kept.error)
      else MapOk(kept.value, (item: Json) => Parse(item, EntityFields(entity), val))
  }

  /** Every release comes from a usable lookup result other than the first, and has the entity's shape. */
  lemma LatestReleasesSound(api: ItunesApi, artistId: string, entity: Entity, val: Validators, i: nat)
    requires LatestReleases(api, artistId, entity, val).Ok? && i < |LatestReleases(api, artistId, entity, val).value|
    ensures var results := api.lookupReleases(artistId, entity, ReleaseLimit).value;
      var x := LatestReleases(api, artistId, entity, val).value[i];
      exists k :: 1 <= k < |results| && UsableOutput(results[k]) == Ok(true)
        && Parse(results[k], EntityFields(entity), val) == Ok(x)
  {
    var results := api.lookupReleases(artistId, entity, ReleaseLimit).value;
    var rest := DropFirst(results);
    var kept := FilterOk(rest, UsableOutput).value;
    var x := LatestReleases(api, artistId, entity, val).value[i];
    assert Parse(kept[i], EntityFields(entity), val) == Ok(x);
    var k := FilterOkOrigin(rest, UsableOutput, i);
    assert results[k + 1] == kept[i];
  }

  /** `fetchOutputs(input)`: the songs, then the albums, of the input's artist. */
  function FetchOutputs(api: ItunesApi, input: Json, val: Validators): (r: Result<seq<Json>>)
    ensures r.Ok? ==>
      var songs := LatestReleases(api, ArtistTerm(input), Song, val);
      var albums := LatestReleases(api, ArtistTerm(input), Album, val);
      songs.Ok? && albums.Ok? && r.value == songs.value + albums.value
  {
    var songs := LatestReleases(api, ArtistTerm(input), Song, val);
    var albums := LatestReleases(api, ArtistTerm(input), Album, val);
    if songs.Err? then Err(songs.error)
    else if albums.Err? then Err(albums.error)
    else Ok(songs.value + albums.value)
  }

  /** A song lookup yields tracks and an album lookup collections. */
  lemma LatestReleasesShape(api: ItunesApi, artistId: string, e: Entity, val: Validators, i: nat)
    requires LatestReleases(api, artistId, e, val).Ok? && i < |LatestReleases(api, artistId, e, val).value|
    ensures var x := LatestReleases(api, artistId, e, val).value[i];
      if e.Song? then IsTrack(x) && !IsCollection(x) else IsCollection(x) && !IsTrack(x)
  {
    var results := api.lookupReleases(artistId, e, ReleaseLimit).value;
    var kept := FilterOk(DropFirst(results), UsableOutput).value;
    ParsedWrapperType(kept[i], e, val);
  }

  /** Every release of a song lookup is a track, every release of an album lookup a collection. */
  lemma LatestReleasesAllShape(api: ItunesApi, artistId: string, e: Entity, val: Validators)
    requires LatestReleases(api, artistId, e, val).Ok?
    ensures var xs := LatestReleases(api, artistId, e, val).value;
      forall i :: 0 <= i < |xs| ==> if e.Song? then IsTrack(xs[i]) else IsCollection(xs[i])
  {
    var xs := LatestReleases(api, artistId, e, val).value;
    forall i | 0 <= i < |xs|
      ensures if e.Song? then IsTrack(xs[i]) else IsCollection(xs[i])
    {
      LatestReleasesShape(api, artistId, e, val, i);
    }
  }

  /** The fetched outputs are the songs' tracks followed by the albums' collections. */
  lemma FetchOutputsSongsThenAlbums(api: ItunesApi, input: Json, val: Validators)
    requires FetchOutputs(api, input, val).Ok?
    ensures var out := FetchOutputs(api, input, val).value;
      var n := |LatestReleases(api, ArtistTerm(input), Song, val).value|;
      n <= |out|
      && (forall i :: 0 <= i < n ==> IsTrack(out[i]))
      && (forall i :: n <= i < |out| ==> IsCollection(out[i]))
  {
    var term := ArtistTerm(input);
    var songs := LatestReleases(api, term, Song, val).value;
    var albums := LatestReleases(api, term, Album, val).value;
    LatestReleasesAllShape(api, term, Song, val);
    LatestReleasesAllShape(api, term, Album, val);
    ConcatShape(songs, albums, FetchOutputs(api, input, val).value);
  }

  /** Tracks followed by collections. */
  lemma ConcatShape(songs: seq<Json>, albums: seq<Json>, out: seq<Json>)
    requires out == songs + albums
    requires forall i :: 0 <= i < |songs| ==> IsTrack(songs[i])
    requires forall i :: 0 <= i < |albums| ==> IsCollection(albums[i])
    ensures forall i :: 0 <= i < |songs| ==> IsTrack(out[i])
    ensures forall i :: |songs| <= i < |out| ==> IsCollection(out[i])
  {
    forall i | |songs| <= i < |out| ensures IsCollection(out[i]) {
      assert out[i] == albums[i - |songs|];
    }
  }

  // ---------------------------------------------------------------------
  // mappers

  /** `fromInputToPersistence`: the row id is `String(artistId)`. */
  function FromInputToPersistence(item: Json): (r: InputRow)
    ensures r.provider == ItunesMusicRelease && r.raw == item
    ensures r.id == ArtistTerm(item)
  {
    InputRow(ArtistTerm(item), ItunesMusicRelease, item)
  }

  /** `fromPersistenceToInput`: the stored raw parsed as an input with its extra. */
  function FromPersistenceToInput(row: InputRow, val: Validators): Result<Json>
  {
    Parse(row.raw, InputWithExtraFields, val)
  }

  /**
   * A looked-up input survives a store and a read, and its row id is the
   * decimal `artistId`, which is the term `fetchInput` looks it up by.
   */
  lemma InputRoundTrip(y: Json, val: Validators)
    requires val.Coherent() && Parse(y, InputWithExtraFields, val).Ok?
    ensures var x := Parse(y, InputWithExtraFields, val).value;
      FromPersistenceToInput(FromInputToPersistence(x), val) == Ok(x)
      && exists n :: Prop(x, "artistId") == Some(Num(n)) && JsNumber(FromInputToPersistence(x).id) == Some(n)
  {
    var x := Parse(y, InputWithExtraFields, val).value;
    InputSchemaOk();
    ExtraField();
    ParseStable(y, InputWithExtraFields, val);
    ParseNumber(y, InputWithExtraFields, val, 4);
    var n := Prop(x, "artistId").value.n;
    NumberRoundTrip(n);
  }

  /** `fromOutputToPersistence`: id from the item, `input_id` and provider from the input row. */
  function FromOutputToPersistence(row: InputRow, item: Json): (r: OutputRow)
    ensures r.inputId == row.id && r.provider == row.provider && r.raw == item
    ensures r.id == ReleaseId(item)
  {
    OutputRow(ReleaseId(item), row.id, row.provider, item)
  }

  /** `fromOutputToJsonPatchPersistance`: the same row key, the item without `releaseDate`. */
  function FromOutputToJsonPatchPersistance(row: InputRow, item: Json): (r: OutputRow)
    ensures KeyOf(r) == KeyOf(FromOutputToPersistence(row, item))
    ensures r.raw.Obj? && Prop(r.raw, "releaseDate") == None
    ensures forall k :: k != "releaseDate" ==> Prop(r.raw, k) == Prop(item, k)
  {
    OutputRow(ReleaseId(item), row.id, row.provider, Obj(Remove(Spread(item), "releaseDate")))
  }

  /** `fromPersistenceToOutput`: a stored collection reads as an album, anything else as a song. */
  function FromPersistenceToOutput(row: OutputRow, val: Validators): Result<Json>
  {
    if IsCollection(row.raw) then Parse(row.raw, AlbumFields, val) else Parse(row.raw, SongFields, val)
  }

  /** A fetched output survives a store and a read. */
  lemma OutputRoundTrip(row: InputRow, y: Json, e: Entity, val: Validators)
    requires val.Coherent() && Parse(y, EntityFields(e), val).Ok?
    ensures var x := Parse(y, EntityFields(e), val).value;
      FromPersistenceToOutput(FromOutputToPersistence(row, x), val) == Ok(x)
  {
    EntitySchemaOk(e);
    ParsedWrapperType(y, e, val);
    ParseStable(y, EntityFields(e), val);
  }

  /**
   * The patch of a fetched output is already contained in its full raw:
   * inserting the full row and patching it again changes nothing.
   */
  lemma PatchAbsorbed(row: InputRow, y: Json, e: Entity, val: Validators)
    requires Parse(y, EntityFields(e), val).Ok?
    ensures var x := Parse(y, EntityFields(e), val).value;
      WellFormed(FromOutputToJsonPatchPersistance(row, x).raw)
      && MergePatch(x, FromOutputToJsonPatchPersistance(row, x).raw) == x
  {
    var x := Parse(y, EntityFields(e), val).value;
    EntitySchemaOk(e);
    ParseClean(y, EntityFields(e), val);
    RemoveAbsorbed(x, "releaseDate");
  }

  /**
   * Re-ingesting an output whose key is stored merges its patch: the
   * stored `releaseDate` survives, every other member of the item is
   * written (scalars replace, objects merge).
   */
  lemma ReingestKeepsReleaseDate(stored: Json, row: InputRow, item: Json, k: string)
    requires stored.Obj? && item.Obj? && UniqueKeys(item.members)
    ensures var merged := MergePatch(stored, FromOutputToJsonPatchPersistance(row, item).raw);
      Prop(merged, "releaseDate") == Prop(stored, "releaseDate")
      && (k != "releaseDate" && Prop(item, k).Some? && Prop(item, k).value != Null ==>
            Prop(merged, k) == Some(MergePatch(GetOrNull(stored.members, k), Prop(item, k).value)))
  {
    var patch := FromOutputToJsonPatchPersistance(row, item).raw;
    assert "releaseDate" !in Keys(patch.members);
    MergeKeeps(stored, patch, "releaseDate");
    if k != "releaseDate" && Prop(item, k).Some? && Prop(item, k).value != Null {
      MergeOverwrites(stored, patch, k);
    }
  }

  /** The provider's mapper surface, as the jobs call it. */
  function Mapper(api: ItunesApi, val: Validators): (c: Capabilities)
    ensures c.provider == ItunesMusicRelease && c.fromOutputToJsonPatchPersistance.Some?
  {
    Capabilities(
      ItunesMusicRelease,
      FromInputToPersistence,
      (row: InputRow) => FromPersistenceToInput(row, val),
      FromOutputToPersistence,
      Some(FromOutputToJsonPatchPersistance))
  }

  // ---------------------------------------------------------------------
  // feed

  /** Feed item id `<provider>@album|song@<row id>`; `tag` is the `ITUNES_MUSIC_RELEASE` value. */
  function FeedItemId(tag: string, output: Json, rowId: string): string
  {
    tag + "@" + EntityName(if IsCollection(output) then Album else Song) + "@" + rowId
  }

  /** The three parts of a feed item id are recovered by splitting on `@`. */
  lemma FeedItemIdParts(tag: string, output: Json, rowId: string)
    requires '@' !in tag && '@' !in rowId
    ensures Split(FeedItemId(tag, output, rowId), '@')
      == [tag, EntityName(if IsCollection(output) then Album else Song), rowId]
  {
    var e := EntityName(if IsCollection(output) then Album else Song);
    var parts := [tag, e, rowId];
    assert Join(parts, '@') == FeedItemId(tag, output, rowId) by {
      assert parts[..2] == [tag, e];
      assert [tag, e][..1] == [tag];
      assert Join([tag], '@') == tag;
      assert Join([tag, e], '@') == tag + "@" + e;
      assert Join(parts, '@') == Join([tag, e], '@') + "@" + rowId;
    }
    SplitJoin(parts, '@');
  }

  /** Feed image: `artworkUrl100` with its last path segment replaced by `512x512bb.jpg`. */
  function FeedImage(artwork: string): string
  {
    var ps := Split(artwork, '/');
    Join(seq(|ps|, i requires 0 <= i < |ps| => if i == |ps| - 1 then "512x512bb.jpg" else ps[i]), '/')
  }

  /** Only what follows the last `/` changes. */
  lemma FeedImageKeepsDirectory(artwork: string)
    ensures FeedImage(artwork) == artwork[..LastPieceStart(artwork, '/')] + "512x512bb.jpg"
  {
    var ps := Split(artwork, '/');
    var mapped := seq(|ps|, i requires 0 <= i < |ps| => if i == |ps| - 1 then "512x512bb.jpg" else ps[i]);
    assert mapped == ps[..|ps| - 1] + ["512x512bb.jpg"];
    ReplaceLastPiece(artwork, '/', "512x512bb.jpg");
  }
}
