/**
 * `ItunesService` and the iTunes mappers of the legacy release-source
 * pipeline: a release source is an iTunes artist, a release is one of its
 * latest songs or albums, tagged in `extra` with its release type and
 * the iTunes source provider.
 */
module ItunesService {
  import opened Wrappers
  import opened Strings
  import opened Seqs
  import opened Json
  import opened Schema
  import opened Rows
  import opened Interfaces
  import opened ItunesRules
  import ItunesProvider

  // ---------------------------------------------------------------------
  // schemas

  /** `itunesLookupArtistModelSchema`: as the provider's input schema, but `amgArtistId` is required. */
  const ArtistFields: seq<Field> := [
    Field("wrapperType", KLiteral("artist"), Required),
    Field("artistType", KLiteral("Artist"), Required),
    Field("artistName", KString, Required),
    Field("artistLinkUrl", KUrl, Required),
    Field("artistId", KNumber, Required),
    Field("amgArtistId", KNumber, Required),
    Field("primaryGenreName", KString, Required),
    Field("primaryGenreId", KNumber, Required)
  ]

  /** `itunesLookupArtistModelWithExtraSchema`. */
  const ArtistWithExtraFields: seq<Field> := ArtistFields + [Field("extra", KObject(ItunesProvider.ExtraFields), Required)]

  /** `itunesLookupAlbumModelSchema`: as the provider's album schema, but `releaseDate` has no default. */
  const AlbumFields: seq<Field> := [
    Field("wrapperType", KLiteral("collection"), Required),
    Field("collectionType", KLiteral("Album"), Required),
    Field("artistId", KNumber, Required),
    Field("collectionId", KNumber, Required),
    Field("amgArtistId", KNumber, Optional),
    Field("artistName", KString, Required),
    Field("collectionName", KString, Required),
    Field("collectionCensoredName", KString, Required),
    Field("artistViewUrl", KString, Required),
    Field("collectionViewUrl", KString, Required),
    Field("artworkUrl60", KString, Required),
    Field("artworkUrl100", KString, Required),
    Field("collectionPrice", KNumber, Optional),
    Field("collectionExplicitness", KString, Required),
    Field("trackCount", KNumber, Required),
    Field("copyright", KString, Optional),
    Field("country", KString, Required),
    Field("currency", KString, Required),
    Field("releaseDate", KDate(false), Required),
    Field("primaryGenreName", KString, Required),
    Field("contentAdvisoryRating", KString, Optional)
  ]

  /**
   * `itunesLookupSongModelSchema`: as the provider's song schema, but
   * `artistViewUrl`, `previewUrl`, `releaseDate` and `trackTimeMillis`
   * are required.
   */
  const SongFields: seq<Field> := [
    Field("wrapperType", KLiteral("track"), Required),
    Field("kind", KLiteral("song"), Required),
    Field("artistId", KNumber, Required),
    Field("collectionId", KNumber, Required),
    Field("trackId", KNumber, Required),
    Field("artistName", KString, Required),
    Field("collectionName", KString, Required),
    Field("trackName", KString, Required),
    Field("collectionCensoredName", KString, Required),
    Field("trackCensoredName", KString, Required),
    Field("collectionArtistName", KString, Optional),
    Field("artistViewUrl", KString, Required),
    Field("collectionViewUrl", KString, Required),
    Field("trackViewUrl", KString, Required),
    Field("previewUrl", KString, Required),
    Field("artworkUrl30", KString, Required),
    Field("artworkUrl60", KString, Required),
    Field("artworkUrl100", KString, Required),
    Field("releaseDate", KDate(false), Required),
    Field("collectionExplicitness", KString, Required),
    Field("trackExplicitness", KString, Required),
    Field("discCount", KNumber, Required),
    Field("discNumber", KNumber, Required),
    Field("trackCount", KNumber, Required),
    Field("trackNumber", KNumber, Required),
    Field("trackTimeMillis", KNumber, Required),
    Field("country", KString, Required),
    Field("currency", KString, Required),
    Field("primaryGenreName", KString, Required),
    Field("isStreamable", KBool, Required),
    Field("collectionPrice", KNumber, Optional),
    Field("trackPrice", KNumber, Optional),
    Field("contentAdvisoryRating", KString, Optional),
    Field("collectionArtistId", KNumber, Optional)
  ]

  function EntityFields(e: Entity): seq<Field>
  {
    if e.Song? then SongFields else AlbumFields
  }

  /** `ReleaseType.SONG` or `ReleaseType.ALBUM`. */
  function TypeValue(voc: Vocabulary, e: Entity): string
  {
    if e.Song? then voc.song else voc.album
  }

  /** The `extra` object of the `...WithExtraSchema`s: the release type and the iTunes provider, as literals. */
  function ExtraFields(voc: Vocabulary, e: Entity): seq<Field>
  {
    [Field("type", KLiteral(TypeValue(voc, e)), Required), Field("provider", KLiteral(voc.itunes), Required)]
  }

  /** `itunesLookupSongModelWithExtraSchema` / `itunesLookupAlbumModelWithExtraSchema`. */
  function WithExtraFields(voc: Vocabulary, e: Entity): seq<Field>
  {
    EntityFields(e) + [Field("extra", KObject(ExtraFields(voc, e)), Required)]
  }

  /** The `extra` object the lookup writes. */
  function Extra(voc: Vocabulary, e: Entity): Json
  {
    Obj([Member("type", Str(TypeValue(voc, e))), Member("provider", Str(voc.itunes))])
  }

  lemma ArtistSchemaOk()
    ensures SchemaOk(ArtistFields) && SchemaOk(ArtistWithExtraFields)
    ensures |ArtistWithExtraFields| == 9
    ensures ArtistWithExtraFields[8] == Field("extra", KObject(ItunesProvider.ExtraFields), Required)
  {
    ItunesProvider.InputNamesDistinct();
    ArtistNamesAsProvider();
    assert forall i :: 0 <= i < |ArtistFields| ==> KindOk(ArtistFields[i]);
    assert SchemaOk(ArtistFields);
    assert forall i :: 0 <= i < |ArtistFields| ==> |ArtistFields[i].name| != |"extra"|;
    var extra := Field("extra", KObject(ItunesProvider.ExtraFields), Required);
    assert KindOk(extra);
    SchemaAppend(ArtistFields, extra);
  }

  lemma ArtistNamesAsProvider()
    ensures |ArtistFields| == |ItunesProvider.InputFields|
    ensures forall i :: 0 <= i < |ArtistFields| ==> ArtistFields[i].name == ItunesProvider.InputFields[i].name
  {
  }

  /** The legacy schemas name the same members as the provider's, in the same order. */
  lemma AlbumNamesAsProvider()
    ensures |AlbumFields| == |ItunesProvider.AlbumFields|
    ensures forall i :: 0 <= i < |AlbumFields| ==> AlbumFields[i].name == ItunesProvider.AlbumFields[i].name
  {
  }

  lemma SongNamesAsProvider()
    ensures |SongFields| == |ItunesProvider.SongFields|
    ensures forall i :: 0 <= i < |SongFields| ==> SongFields[i].name == ItunesProvider.SongFields[i].name
  {
  }

  lemma AlbumSchemaOk()
    ensures SchemaOk(AlbumFields)
  {
    ItunesProvider.AlbumNamesDistinct();
    AlbumNamesAsProvider();
    assert forall i :: 0 <= i < |AlbumFields| ==> KindOk(AlbumFields[i]);
  }

  lemma SongKindsOk()
    ensures forall i :: 0 <= i < |SongFields| ==> KindOk(SongFields[i])
  {
  }

  lemma SongSchemaOk()
    ensures SchemaOk(SongFields)
  {
    ItunesProvider.SongSchemaOk();
    SongNamesAsProvider();
    SongKindsOk();
  }

  lemma NoExtra(e: Entity)
    ensures forall i :: 0 <= i < |EntityFields(e)| ==> EntityFields(e)[i].name != "extra"
  {
    if e.Song? {
      assert forall i :: 0 <= i < |SongFields| ==> SongFields[i].name != "extra";
    } else {
      assert forall i :: 0 <= i < |AlbumFields| ==> AlbumFields[i].name != "extra";
    }
  }

  /** Where the members the rows are built from sit in each schema. */
  lemma EntityFieldsAt(e: Entity)
    ensures |EntityFields(e)| > 18
    ensures EntityFields(e)[0] == Field("wrapperType", KLiteral(if e.Song? then "track" else "collection"), Required)
    ensures EntityFields(e)[IdIndex(e)] == Field(if e.Song? then "trackId" else "collectionId", KNumber, Required)
    ensures EntityFields(e)[18] == Field("releaseDate", KDate(false), Required)
  {
    if e.Song? { SongFieldsAt(); } else { AlbumFieldsAt(); }
  }

  lemma SongFieldsAt()
    ensures |SongFields| > 18
    ensures SongFields[0] == Field("wrapperType", KLiteral("track"), Required)
    ensures SongFields[4] == Field("trackId", KNumber, Required)
    ensures SongFields[18] == Field("releaseDate", KDate(false), Required)
  {
  }

  lemma AlbumFieldsAt()
    ensures |AlbumFields| > 18
    ensures AlbumFields[0] == Field("wrapperType", KLiteral("collection"), Required)
    ensures AlbumFields[3] == Field("collectionId", KNumber, Required)
    ensures AlbumFields[18] == Field("releaseDate", KDate(false), Required)
  {
  }

  /** `trackId` of a song, `collectionId` of an album. */
  function IdIndex(e: Entity): nat
  {
    if e.Song? then 4 else 3
  }

  lemma ExtraSchemaOk(voc: Vocabulary, e: Entity)
    ensures SchemaOk(ExtraFields(voc, e))
  {
    assert "type" != "provider";
  }

  lemma WithExtraSchemaOk(voc: Vocabulary, e: Entity)
    ensures SchemaOk(EntityFields(e)) && SchemaOk(WithExtraFields(voc, e))
    ensures WithExtraFields(voc, e)[|EntityFields(e)|] == Field("extra", KObject(ExtraFields(voc, e)), Required)
    ensures forall i :: 0 <= i < |EntityFields(e)| ==> WithExtraFields(voc, e)[i] == EntityFields(e)[i]
  {
    if e.Song? { SongSchemaOk(); } else { AlbumSchemaOk(); }
    NoExtra(e);
    ExtraSchemaOk(voc, e);
    var fs := WithExtraFields(voc, e);
    var n := |EntityFields(e)|;
    assert KindOk(fs[n]);
    assert forall i :: 0 <= i < n ==> fs[i] == EntityFields(e)[i];
  }

  /** The written `extra` is exactly what its schema accepts and returns. */
  lemma ExtraParse(voc: Vocabulary, e: Entity, val: Validators)
    ensures ParseValue(Some(Extra(voc, e)), KObject(ExtraFields(voc, e)), Required, val) == Ok(Some(Extra(voc, e)))
  {
    var fs := ExtraFields(voc, e);
    var ms := Extra(voc, e).members;
    assert Get(ms, "type") == Some(Str(TypeValue(voc, e)));
    assert Get(ms, "provider") == Some(Str(voc.itunes));
    ParseFieldsAllSome(ms, fs, val, ms);
  }

  // ---------------------------------------------------------------------
  // releases

  /** One lookup result of `lookupLatestReleasesByArtist`: parsed, given its `extra`, parsed with the extended schema. */
  function ToRelease(item: Json, e: Entity, voc: Vocabulary, val: Validators): (r: Result<Json>)
    ensures Parse(item, EntityFields(e), val).Err? ==> r.Err?
  {
    var parsed := Parse(item, EntityFields(e), val);
    if parsed.Err? then Err(parsed.error)
    else Parse(With(parsed.value, "extra", Extra(voc, e)), WithExtraFields(voc, e), val)
  }

  /**
   * `lookupLatestReleasesByArtist(artistId, entity, limit)`: drop the
   * first result (the artist), keep the usable ones, and turn each into a
   * release of the entity's type.
   */
  function LatestReleasesByArtist(api: ItunesApi, artistId: string, e: Entity, limit: nat, voc: Vocabulary, val: Validators)
    : (r: Result<seq<Json>>)
    ensures api.lookupReleases(artistId, e, limit).Err? ==> r.Err?
    ensures r.Ok? ==>
      var kept := FilterOk(DropFirst(api.lookupReleases(artistId, e, limit).value), UsableRelease);
      kept.Ok? && |r.value| == |kept.value|
      && forall i :: 0 <= i < |r.value| ==> ToRelease(kept.value[i], e, voc, val) == Ok(r.value[i])
  {
    var results := api.lookupReleases(artistId, e, limit);
    if results.Err? then Err(results.error)
    else
      var kept := FilterOk(DropFirst(results.value), UsableRelease);
      if kept.Err? then Err(kept.error)
      else MapOk(kept.value, (item: Json) => ToRelease(item, e, voc, val))
  }

  /** `results.splice(0, 1)`. */
  function DropFirst(results: seq<Json>): (r: seq<Json>)
    ensures |results| > 0 ==> r == results[1..]
    ensures |results| == 0 ==> r == []
  {
    ItunesProvider.DropFirst(results)
  }

  /**
   * A release of a song lookup is a track and one of an album lookup a
   * collection, and its `extra` names that release type and the iTunes
   * provider.
   */
  lemma ReleaseTagged(item: Json, e: Entity, voc: Vocabulary, val: Validators)
    requires ToRelease(item, e, voc, val).Ok?
    ensures var x := ToRelease(item, e, voc, val).value;
      && Path(x, "extra", "type") == Some(Str(TypeValue(voc, e)))
      && Path(x, "extra", "provider") == Some(Str(voc.itunes))
      && if e.Song? then IsTrack(x) && !IsCollection(x) else IsCollection(x) && !IsTrack(x)
  {
    var x := ToRelease(item, e, voc, val).value;
    ReleaseExtra(item, e, voc, val);
    ReleaseWrapper(item, e, voc, val);
    assert Path(x, "extra", "type") == Get(Extra(voc, e).members, "type");
    assert Path(x, "extra", "provider") == Get(Extra(voc, e).members, "provider");
    assert "type" != "provider";
  }

  lemma ReleaseExtra(item: Json, e: Entity, voc: Vocabulary, val: Validators)
    requires ToRelease(item, e, voc, val).Ok?
    ensures Prop(ToRelease(item, e, voc, val).value, "extra") == Some(Extra(voc, e))
  {
    var parsed := Parse(item, EntityFields(e), val).value;
    var j2 := With(parsed, "extra", Extra(voc, e));
    WithExtraSchemaOk(voc, e);
    ParseGet(j2, WithExtraFields(voc, e), val, |EntityFields(e)|);
    ExtraParse(voc, e, val);
  }

  lemma ReleaseWrapper(item: Json, e: Entity, voc: Vocabulary, val: Validators)
    requires ToRelease(item, e, voc, val).Ok?
    ensures var x := ToRelease(item, e, voc, val).value;
      if e.Song? then IsTrack(x) && !IsCollection(x) else IsCollection(x) && !IsTrack(x)
  {
    var parsed := Parse(item, EntityFields(e), val).value;
    var j2 := With(parsed, "extra", Extra(voc, e));
    WithExtraSchemaOk(voc, e);
    EntityFieldsAt(e);
    ParseLiteral(j2, WithExtraFields(voc, e), val, 0, if e.Song? then "track" else "collection");
  }

  /**
   * Every release comes from a usable lookup result other than the first,
   * and is tagged with the entity's release type and the iTunes provider.
   */
  lemma LatestReleasesSound(api: ItunesApi, artistId: string, e: Entity, limit: nat, voc: Vocabulary, val: Validators, i: nat)
    requires LatestReleasesByArtist(api, artistId, e, limit, voc, val).Ok?
    requires i < |LatestReleasesByArtist(api, artistId, e, limit, voc, val).value|
    ensures var results := api.lookupReleases(artistId, e, limit).value;
      var x := LatestReleasesByArtist(api, artistId, e, limit, voc, val).value[i];
      && (exists k :: 1 <= k < |results| && UsableRelease(results[k]) == Ok(true) && ToRelease(results[k], e, voc, val) == Ok(x))
      && Path(x, "extra", "type") == Some(Str(TypeValue(voc, e)))
      && Path(x, "extra", "provider") == Some(Str(voc.itunes))
  {
    var results := api.lookupReleases(artistId, e, limit).value;
    var rest := DropFirst(results);
    var kept := FilterOk(rest, UsableRelease).value;
    var x := LatestReleasesByArtist(api, artistId, e, limit, voc, val).value[i];
    assert ToRelease(kept[i], e, voc, val) == Ok(x);
    var k := FilterOkOrigin(rest, UsableRelease, i);
    assert results[k + 1] == kept[i];
    ReleaseTagged(kept[i], e, voc, val);
  }

  // ---------------------------------------------------------------------
  // mappers (the service's static methods and src/common/mappers/itunes-mappers.ts alike)

  /** `toReleaseSourcePersistance` / `fromReleaseSourceToPersistance`; `id` is the `crypto.randomUUID()` drawn. */
  function ToReleaseSourcePersistance(item: Json, id: string, voc: Vocabulary): SourceRow
  {
    SourceRow(id, voc.itunes, item)
  }

  /** `fromPersistanceToReleaseSurce`: the stored raw parsed as an artist. */
  function FromPersistanceToReleaseSource(row: SourceRow, val: Validators): Result<Json>
  {
    Parse(row.raw, ArtistFields, val)
  }

  /**
   * `toReleasePersistance` / `fromReleaseToPersistance`: id `String` of
   * `collectionId` for a collection and of `trackId` otherwise, type and
   * provider from `extra`, `releasedAt` the ISO rendering of `releaseDate`.
   */
  function ToReleasePersistance(item: Json): ReleaseRow
  {
    ReleaseRow(
      ReleaseId(item),
      JsString(Path(item, "extra", "type")),
      JsString(Path(item, "extra", "provider")),
      JsString(Prop(item, "releaseDate")),
      item)
  }

  /**
   * `fromPersistanceToRelease`: only iTunes rows are read; a song row is
   * parsed as a song, an album row as an album, any other type throws.
   */
  function FromPersistanceToRelease(row: ReleaseRow, voc: Vocabulary, val: Validators): (r: Result<Json>)
    ensures row.provider != voc.itunes ==> r == Err(UnsupportedProvider)
    ensures row.provider == voc.itunes && row.releaseType != voc.song && row.releaseType != voc.album
      ==> r == Err(UnsupportedType)
    ensures r.Ok? ==> row.provider == voc.itunes && (row.releaseType == voc.song || row.releaseType == voc.album)
    ensures r.Ok? ==> r.value.Obj? && row.raw.Obj?
  {
    if row.provider != voc.itunes then Err(UnsupportedProvider)
    else if row.releaseType == voc.song then Parse(row.raw, WithExtraFields(voc, Song), val)
    else if row.releaseType == voc.album then Parse(row.raw, WithExtraFields(voc, Album), val)
    else Err(UnsupportedType)
  }

  /**
   * The row of a looked-up release is keyed by the lookup result's own id
   * (`trackId` of a song, `collectionId` of an album), its release type
   * and the iTunes provider.
   */
  lemma ReleaseRowKey(item: Json, e: Entity, voc: Vocabulary, val: Validators)
    requires val.Coherent() && ToRelease(item, e, voc, val).Ok?
    ensures var row := ToReleasePersistance(ToRelease(item, e, voc, val).value);
      && row.id == JsString(Prop(item, if e.Song? then "trackId" else "collectionId"))
      && row.releaseType == TypeValue(voc, e) && row.provider == voc.itunes
  {
    EntityFieldsAt(e);
    ReleaseTagged(item, e, voc, val);
    ReleaseKeeps(item, e, voc, val, IdIndex(e));
  }

  /** The row of a looked-up release is dated by the rendering of the lookup result's `releaseDate`. */
  lemma ReleaseRowDate(item: Json, e: Entity, voc: Vocabulary, val: Validators)
    requires val.Coherent() && ToRelease(item, e, voc, val).Ok?
    ensures var d := Prop(item, "releaseDate");
      && d.Some? && d.value.Str? && val.toDate(d.value.s).Some?
      && ToReleasePersistance(ToRelease(item, e, voc, val).value).releasedAt == val.toDate(d.value.s).value
  {
    EntityFieldsAt(e);
    WithExtraSchemaOk(voc, e);
    ParseRawDate(item, EntityFields(e), val, 18);
    ReleaseKeeps(item, e, voc, val, 18);
  }

  /** A release holds each schema member as the first parse of the lookup result made it; a number as it was. */
  lemma ReleaseKeeps(item: Json, e: Entity, voc: Vocabulary, val: Validators, i: nat)
    requires val.Coherent() && ToRelease(item, e, voc, val).Ok? && i < |EntityFields(e)|
    ensures var name := EntityFields(e)[i].name;
      Prop(ToRelease(item, e, voc, val).value, name) == Prop(Parse(item, EntityFields(e), val).value, name)
    ensures EntityFields(e)[i].kind == KNumber && EntityFields(e)[i].presence == Required ==>
      var name := EntityFields(e)[i].name;
      Prop(ToRelease(item, e, voc, val).value, name) == Prop(item, name)
  {
    var parsed := Parse(item, EntityFields(e), val).value;
    var j2 := With(parsed, "extra", Extra(voc, e));
    var extra := Field("extra", KObject(ExtraFields(voc, e)), Required);
    WithExtraSchemaOk(voc, e);
    assert WithExtraFields(voc, e) == EntityFields(e) + [extra];
    ParseExtended(item, EntityFields(e), extra, j2, val, i);
    if EntityFields(e)[i].kind == KNumber && EntityFields(e)[i].presence == Required {
      ParseNumber(item, EntityFields(e), val, i);
    }
  }

  /**
   * The row of a looked-up release reads back as that release (when the
   * song and album type values differ, as the enum's do).
   */
  lemma ReleaseRoundTrip(item: Json, e: Entity, voc: Vocabulary, val: Validators)
    requires val.Coherent() && voc.song != voc.album && ToRelease(item, e, voc, val).Ok?
    ensures var x := ToRelease(item, e, voc, val).value;
      FromPersistanceToRelease(ToReleasePersistance(x), voc, val) == Ok(x)
  {
    var parsed := Parse(item, EntityFields(e), val).value;
    var j2 := With(parsed, "extra", Extra(voc, e));
    var x := ToRelease(item, e, voc, val).value;
    assert x == Parse(j2, WithExtraFields(voc, e), val).value;
    WithExtraSchemaOk(voc, e);
    ReleaseRowTagged(item, e, voc, val);
    var row := ToReleasePersistance(x);
    assert FromPersistanceToRelease(row, voc, val) == Parse(x, WithExtraFields(voc, e), val);
    ParseStable(j2, WithExtraFields(voc, e), val);
  }

  /** The row of a looked-up release carries the release itself, the iTunes provider and the entity's type. */
  lemma ReleaseRowTagged(item: Json, e: Entity, voc: Vocabulary, val: Validators)
    requires ToRelease(item, e, voc, val).Ok?
    ensures var x := ToRelease(item, e, voc, val).value;
      var row := ToReleasePersistance(x);
      row.raw == x && row.provider == voc.itunes && row.releaseType == TypeValue(voc, e)
  {
    ReleaseTagged(item, e, voc, val);
  }

  // ---------------------------------------------------------------------
  // artists

  /** `lookupArtistById(id)`: the artist with its picture, or nothing when the lookup returns no first result. */
  function LookupArtistById(api: ItunesApi, id: int, val: Validators): Result<Option<Json>>
  {
    LookupArtist(api, NumberToString(id), ArtistFields, ArtistWithExtraFields, val)
  }

  /** A found artist carries the resized picture of its page, or the placeholder when there is none. */
  lemma LookupArtistImage(api: ItunesApi, id: int, val: Validators)
    requires LookupArtistById(api, id, val).Ok? && LookupArtistById(api, id, val).value.Some?
    ensures var remote := api.lookup(NumberToString(id)).value[0];
      var image := ArtistImage(api, JsString(Prop(remote, "artistLinkUrl"))).value.GetOr(PlaceholderImage);
      Prop(LookupArtistById(api, id, val).value.value, "extra") == Some(Obj([Member("artistImage", Str(image))]))
  {
    var remote := api.lookup(NumberToString(id)).value[0];
    var image := ArtistImage(api, JsString(Prop(remote, "artistLinkUrl"))).value.GetOr(PlaceholderImage);
    var withImage := WithImage(Parse(remote, ArtistFields, val).value, image);
    assert Parse(withImage, ArtistWithExtraFields, val) == Ok(LookupArtistById(api, id, val).value.value);
    ArtistSchemaOk();
    ParseGet(withImage, ArtistWithExtraFields, val, 8);
    ItunesProvider.ExtraParse(image, val);
  }

  /**
   * A looked-up artist stored as a release source reads back as the
   * artist without its `extra`: what the first parse of the lookup result
   * gave, so the picture is lost.
   */
  lemma SourceRoundTrip(api: ItunesApi, id: int, rowId: string, voc: Vocabulary, val: Validators)
    requires val.Coherent()
    requires LookupArtistById(api, id, val).Ok? && LookupArtistById(api, id, val).value.Some?
    ensures var x := LookupArtistById(api, id, val).value.value;
      var remote := api.lookup(NumberToString(id)).value[0];
      var read := FromPersistanceToReleaseSource(ToReleaseSourcePersistance(x, rowId, voc), val);
      && read == Parse(remote, ArtistFields, val) && read.Ok?
      && Prop(read.value, "extra") == None
  {
    var remote := api.lookup(NumberToString(id)).value[0];
    var image := ArtistImage(api, JsString(Prop(remote, "artistLinkUrl"))).value.GetOr(PlaceholderImage);
    var withImage := WithImage(Parse(remote, ArtistFields, val).value, image);
    var extra := Field("extra", KObject(ItunesProvider.ExtraFields), Required);
    ArtistSchemaOk();
    ParseDropsExtension(remote, ArtistFields, extra, withImage, val);
  }
}
