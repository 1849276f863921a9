/**
 * `BluRayComService` and the blu-ray.com mappers of the legacy
 * release-source pipeline: a release source is a blu-ray.com country, a
 * release is a Blu-ray or DVD release of the month whose `extra` names
 * its country, type, provider, page and artwork.
 */
module BlurayService {
  import opened Wrappers
  import opened Json
  import opened Schema
  import opened Rows
  import opened Interfaces
  import opened BlurayRules
  import opened Strings

  /** `ReleaseType.BLURAY` or `ReleaseType.DVD`. */
  function TypeValue(voc: Vocabulary, t: ReleaseType): string
  {
    if t.Bluray? then voc.bluray else voc.dvd
  }

  /** The `extra` object of `bluRayComReleaseWithExtraSchema`. */
  function ExtraFields(voc: Vocabulary): seq<Field>
  {
    [
      Field("country", KString, Required),
      Field("artworkUrl", KUrl, Required),
      Field("type", KEnum([voc.bluray, voc.dvd]), Required),
      Field("link", KUrl, Required),
      Field("provider", KLiteral(voc.blurayCom), Required)
    ]
  }

  /** `bluRayComReleaseWithExtraSchema`: `bluRayComReleaseSchema.extend({extra})`. */
  function WithExtraFields(voc: Vocabulary): seq<Field>
  {
    ReleaseFields + [Field("extra", KObject(ExtraFields(voc)), Required)]
  }

  lemma WithExtraSchemaOk(voc: Vocabulary)
    ensures SchemaOk(ReleaseFields) && SchemaOk(WithExtraFields(voc))
    ensures |WithExtraFields(voc)| == 16 && WithExtraFields(voc)[15] == Field("extra", KObject(ExtraFields(voc)), Required)
    ensures WithExtraFields(voc)[0] == Field("id", KNumber, Required)
    ensures WithExtraFields(voc)[11] == Field("releasedate", KDate(true), Required)
  {
    ReleaseSchemaOk();
    ReleaseNamesDistinct();
    ExtraSchemaOk(voc);
    var fields := WithExtraFields(voc);
    assert forall i :: 0 <= i < |ReleaseFields| ==> fields[i] == ReleaseFields[i];
    assert forall i :: 0 <= i < |ReleaseFields| ==> ReleaseFields[i].name != "extra";
  }

  lemma ExtraSchemaOk(voc: Vocabulary)
    ensures SchemaOk(ExtraFields(voc))
  {
    var ex := ExtraFields(voc);
    ExtraFieldsAt(voc);
    forall i, j | 0 <= i < j < 5 ensures ex[i].name != ex[j].name {
      assert ex[i].name[0] != ex[j].name[0];
    }
  }

  lemma ExtraFieldsAt(voc: Vocabulary)
    ensures |ExtraFields(voc)| == 5
    ensures ExtraFields(voc)[0] == Field("country", KString, Required)
    ensures ExtraFields(voc)[1] == Field("artworkUrl", KUrl, Required)
    ensures ExtraFields(voc)[2] == Field("type", KEnum([voc.bluray, voc.dvd]), Required)
    ensures ExtraFields(voc)[3] == Field("link", KUrl, Required)
    ensures ExtraFields(voc)[4] == Field("provider", KLiteral(voc.blurayCom), Required)
  {
  }

  // ---------------------------------------------------------------------
  // releases

  /** The `extra` object as `#toReleaseWithExtra` writes it. */
  function ExtraOf(release: Json, country: string, t: ReleaseType, voc: Vocabulary): Json
  {
    Obj([
      Member("country", Str(country)),
      Member("type", Str(TypeValue(voc, t))),
      Member("provider", Str(voc.blurayCom)),
      Member("link", Str(MovieLink(release))),
      Member("artworkUrl", Str(Artwork(release)))])
  }

  /** The `extra` object as the schema returns it, in schema order. */
  function ParsedExtra(release: Json, country: string, t: ReleaseType, voc: Vocabulary): Json
  {
    Obj([
      Member("country", Str(country)),
      Member("artworkUrl", Str(Artwork(release))),
      Member("type", Str(TypeValue(voc, t))),
      Member("link", Str(MovieLink(release))),
      Member("provider", Str(voc.blurayCom))])
  }

  /** `#toReleaseWithExtra(country, type, release)`. */
  function ToReleaseWithExtra(country: string, t: ReleaseType, release: Json, voc: Vocabulary, val: Validators): Result<Json>
  {
    Parse(With(release, "extra", ExtraOf(release, country, t, voc)), WithExtraFields(voc), val)
  }

  /** One movie object: `bluRayComReleaseSchema.parse`, then `#toReleaseWithExtra`. */
  function ToRelease(movie: Json, country: string, t: ReleaseType, voc: Vocabulary, val: Validators): (r: Result<Json>)
    ensures Parse(movie, ReleaseFields, val).Err? ==> r.Err?
  {
    var release := Parse(movie, ReleaseFields, val);
    if release.Err? then Err(release.error) else ToReleaseWithExtra(country, t, release.value, voc, val)
  }

  /** The written `extra` is accepted exactly when its link and artwork are URLs, and then only reordered. */
  lemma ExtraParse(release: Json, country: string, t: ReleaseType, voc: Vocabulary, val: Validators)
    ensures var v := ParseValue(Some(ExtraOf(release, country, t, voc)), KObject(ExtraFields(voc)), Required, val);
      && (v.Ok? <==> val.isUrl(Artwork(release)) && val.isUrl(MovieLink(release)))
      && (v.Ok? ==> v.value == Some(ParsedExtra(release, country, t, voc)))
  {
    var ty, link, art := TypeValue(voc, t), MovieLink(release), Artwork(release);
    var ms := [Member("country", Str(country)), Member("type", Str(ty)), Member("provider", Str(voc.blurayCom)),
      Member("link", Str(link)), Member("artworkUrl", Str(art))];
    assert ExtraOf(release, country, t, voc) == Obj(ms);
    WrittenMembers(country, ty, voc.blurayCom, link, art);
    ExtraFieldsParse(ms, country, ty, link, art, voc, val);
    ParseObjectValue(ms, ExtraFields(voc), Required, val);
  }

  lemma WrittenMembers(country: string, ty: string, provider: string, link: string, art: string)
    ensures var ms := [Member("country", Str(country)), Member("type", Str(ty)), Member("provider", Str(provider)),
        Member("link", Str(link)), Member("artworkUrl", Str(art))];
      && Get(ms, "country") == Some(Str(country)) && Get(ms, "type") == Some(Str(ty))
      && Get(ms, "provider") == Some(Str(provider)) && Get(ms, "link") == Some(Str(link))
      && Get(ms, "artworkUrl") == Some(Str(art))
  {
    var ms := [Member("country", Str(country)), Member("type", Str(ty)), Member("provider", Str(provider)),
      Member("link", Str(link)), Member("artworkUrl", Str(art))];
    assert "type"[0] != "link"[0];
    assert UniqueKeys(ms);
    GetUnique(ms, 0);
    GetUnique(ms, 1);
    GetUnique(ms, 2);
    GetUnique(ms, 3);
    GetUnique(ms, 4);
  }

  /** `ExtraFields` over any members holding the five values. */
  lemma ExtraFieldsParse(ms: seq<Member>, country: string, ty: string, link: string, art: string, voc: Vocabulary, val: Validators)
    requires ty in [voc.bluray, voc.dvd]
    requires Get(ms, "country") == Some(Str(country)) && Get(ms, "type") == Some(Str(ty))
    requires Get(ms, "provider") == Some(Str(voc.blurayCom))
    requires Get(ms, "link") == Some(Str(link)) && Get(ms, "artworkUrl") == Some(Str(art))
    ensures var v := ParseFields(ms, ExtraFields(voc), val);
      && (v.Ok? <==> val.isUrl(art) && val.isUrl(link))
      && (v.Ok? ==> v.value == [Member("country", Str(country)), Member("artworkUrl", Str(art)), Member("type", Str(ty)),
            Member("link", Str(link)), Member("provider", Str(voc.blurayCom))])
  {
    if val.isUrl(art) && val.isUrl(link) {
      ExtraFieldsOk(ms, country, ty, link, art, voc, val);
    } else {
      ExtraFieldsBad(ms, link, art, voc, val);
    }
  }

  lemma ExtraFieldsOk(ms: seq<Member>, country: string, ty: string, link: string, art: string, voc: Vocabulary, val: Validators)
    requires ty in [voc.bluray, voc.dvd] && val.isUrl(art) && val.isUrl(link)
    requires Get(ms, "country") == Some(Str(country)) && Get(ms, "type") == Some(Str(ty))
    requires Get(ms, "provider") == Some(Str(voc.blurayCom))
    requires Get(ms, "link") == Some(Str(link)) && Get(ms, "artworkUrl") == Some(Str(art))
    ensures ParseFields(ms, ExtraFields(voc), val) == Ok([Member("country", Str(country)), Member("artworkUrl", Str(art)),
      Member("type", Str(ty)), Member("link", Str(link)), Member("provider", Str(voc.blurayCom))])
  {
    CheckCountry(ms, country, voc, val);
    CheckUrl(ms, 1, art, voc, val);
    CheckType(ms, ty, voc, val);
    CheckUrl(ms, 3, link, voc, val);
    CheckProvider(ms, voc, val);
    ParseFiveSome(ms, ExtraFields(voc), val, Str(country), Str(art), Str(ty), Str(link), Str(voc.blurayCom));
  }

  lemma ExtraFieldsBad(ms: seq<Member>, link: string, art: string, voc: Vocabulary, val: Validators)
    requires !(val.isUrl(art) && val.isUrl(link))
    requires Get(ms, "link") == Some(Str(link)) && Get(ms, "artworkUrl") == Some(Str(art))
    ensures ParseFields(ms, ExtraFields(voc), val).Err?
  {
    var i := if val.isUrl(art) then 3 else 1;
    CheckUrlFails(ms, i, if val.isUrl(art) then link else art, voc, val);
    ParseFieldsFails(ms, ExtraFields(voc), val, i);
  }

  lemma CheckUrlFails(ms: seq<Member>, i: nat, s: string, voc: Vocabulary, val: Validators)
    requires i == 1 || i == 3
    requires Get(ms, if i == 1 then "artworkUrl" else "link") == Some(Str(s)) && !val.isUrl(s)
    ensures i < |ExtraFields(voc)|
    ensures var f := ExtraFields(voc)[i]; ParseValue(Get(ms, f.name), f.kind, f.presence, val).Err?
  {
    ExtraFieldsAt(voc);
  }

  lemma CheckCountry(ms: seq<Member>, country: string, voc: Vocabulary, val: Validators)
    requires Get(ms, "country") == Some(Str(country))
    ensures var f := ExtraFields(voc)[0];
      f.name == "country" && ParseValue(Get(ms, f.name), f.kind, f.presence, val) == Ok(Some(Str(country)))
  {
    ExtraFieldsAt(voc);
  }

  lemma CheckUrl(ms: seq<Member>, i: nat, s: string, voc: Vocabulary, val: Validators)
    requires i == 1 || i == 3
    requires Get(ms, if i == 1 then "artworkUrl" else "link") == Some(Str(s)) && val.isUrl(s)
    ensures var f := ExtraFields(voc)[i];
      f.name == (if i == 1 then "artworkUrl" else "link") && ParseValue(Get(ms, f.name), f.kind, f.presence, val) == Ok(Some(Str(s)))
  {
    ExtraFieldsAt(voc);
    UrlValue(ms, if i == 1 then "artworkUrl" else "link", s, val);
  }

  lemma CheckType(ms: seq<Member>, ty: string, voc: Vocabulary, val: Validators)
    requires ty in [voc.bluray, voc.dvd] && Get(ms, "type") == Some(Str(ty))
    ensures var f := ExtraFields(voc)[2];
      f.name == "type" && ParseValue(Get(ms, f.name), f.kind, f.presence, val) == Ok(Some(Str(ty)))
  {
    ExtraFieldsAt(voc);
    EnumValue(ms, "type", ty, [voc.bluray, voc.dvd], val);
  }

  lemma CheckProvider(ms: seq<Member>, voc: Vocabulary, val: Validators)
    requires Get(ms, "provider") == Some(Str(voc.blurayCom))
    ensures var f := ExtraFields(voc)[4];
      f.name == "provider" && ParseValue(Get(ms, f.name), f.kind, f.presence, val) == Ok(Some(Str(voc.blurayCom)))
  {
    ExtraFieldsAt(voc);
  }

  /** Every item carries `extra` = `{country, artworkUrl, type, link, provider}`, both URLs valid. */
  lemma ReleaseExtra(movie: Json, country: string, t: ReleaseType, voc: Vocabulary, val: Validators)
    requires ToRelease(movie, country, t, voc, val).Ok?
    ensures var release := Parse(movie, ReleaseFields, val).value;
      && Prop(ToRelease(movie, country, t, voc, val).value, "extra") == Some(ParsedExtra(release, country, t, voc))
      && val.isUrl(Artwork(release)) && val.isUrl(MovieLink(release))
  {
    var release := Parse(movie, ReleaseFields, val).value;
    var full := With(release, "extra", ExtraOf(release, country, t, voc));
    WithExtraSchemaOk(voc);
    ParseGet(full, WithExtraFields(voc), val, 15);
    ExtraParse(release, country, t, voc, val);
  }

  /** The five members of an item's `extra`. */
  lemma ReleasePaths(movie: Json, country: string, t: ReleaseType, voc: Vocabulary, val: Validators)
    requires ToRelease(movie, country, t, voc, val).Ok?
    ensures var item := ToRelease(movie, country, t, voc, val).value;
      var release := Parse(movie, ReleaseFields, val).value;
      && Path(item, "extra", "country") == Some(Str(country))
      && Path(item, "extra", "type") == Some(Str(TypeValue(voc, t)))
      && Path(item, "extra", "provider") == Some(Str(voc.blurayCom))
      && Path(item, "extra", "link") == Some(Str(MovieLink(release)))
      && Path(item, "extra", "artworkUrl") == Some(Str(Artwork(release)))
  {
    var release := Parse(movie, ReleaseFields, val).value;
    ReleaseExtra(movie, country, t, voc, val);
    ParsedMembers(country, Artwork(release), TypeValue(voc, t), MovieLink(release), voc.blurayCom);
  }

  lemma ParsedMembers(country: string, art: string, ty: string, link: string, provider: string)
    ensures var x := Obj([Member("country", Str(country)), Member("artworkUrl", Str(art)), Member("type", Str(ty)),
        Member("link", Str(link)), Member("provider", Str(provider))]);
      && Prop(x, "country") == Some(Str(country)) && Prop(x, "artworkUrl") == Some(Str(art))
      && Prop(x, "type") == Some(Str(ty)) && Prop(x, "link") == Some(Str(link))
      && Prop(x, "provider") == Some(Str(provider))
  {
    var ms := [Member("country", Str(country)), Member("artworkUrl", Str(art)), Member("type", Str(ty)),
      Member("link", Str(link)), Member("provider", Str(provider))];
    assert "type"[0] != "link"[0];
    assert UniqueKeys(ms);
    GetUnique(ms, 0);
    GetUnique(ms, 1);
    GetUnique(ms, 2);
    GetUnique(ms, 3);
    GetUnique(ms, 4);
  }

  /** Every release field of an item is what the release parse made of the movie. */
  lemma ReleaseKept(movie: Json, country: string, t: ReleaseType, voc: Vocabulary, val: Validators, i: nat)
    requires val.Coherent() && ToRelease(movie, country, t, voc, val).Ok? && i < |ReleaseFields|
    ensures Prop(ToRelease(movie, country, t, voc, val).value, ReleaseFields[i].name)
      == Prop(Parse(movie, ReleaseFields, val).value, ReleaseFields[i].name)
  {
    var release := Parse(movie, ReleaseFields, val).value;
    var full := With(release, "extra", ExtraOf(release, country, t, voc));
    WithExtraSchemaOk(voc);
    ParseStable(movie, ReleaseFields, val);
    ParseExtended(release, ReleaseFields, Field("extra", KObject(ExtraFields(voc)), Required), full, val, i);
  }

  /** `#extractMovieListItems(html, releaseType, country)`. */
  function Releases(scripts: seq<Script>, country: string, t: ReleaseType, voc: Vocabulary, val: Validators): Result<seq<Json>>
  {
    MovieListItems(scripts, (m: Json) => ToRelease(m, country, t, voc, val))
  }

  /** Every extracted release names the country, the type and blu-ray.com in its `extra`. */
  lemma ReleasesTagged(scripts: seq<Script>, country: string, t: ReleaseType, voc: Vocabulary, val: Validators)
    requires Releases(scripts, country, t, voc, val).Ok?
    ensures forall i :: 0 <= i < |Releases(scripts, country, t, voc, val).value| ==>
      Tagged(Releases(scripts, country, t, voc, val).value[i], country, TypeValue(voc, t), voc)
  {
    var items := Releases(scripts, country, t, voc, val).value;
    forall i | 0 <= i < |items| ensures Tagged(items[i], country, TypeValue(voc, t), voc) {
      var toItem := (m: Json) => ToRelease(m, country, t, voc, val);
      var movie := MovieListItemOrigin(scripts, toItem, i);
      assert ToRelease(movie, country, t, voc, val) == Ok(items[i]);
      ReleasePaths(movie, country, t, voc, val);
    }
  }

  /** The `extra` of a release names this country, type and provider. */
  predicate Tagged(item: Json, country: string, ty: string, voc: Vocabulary)
  {
    Path(item, "extra", "country") == Some(Str(country)) && Path(item, "extra", "type") == Some(Str(ty))
    && Path(item, "extra", "provider") == Some(Str(voc.blurayCom))
  }

  // ---------------------------------------------------------------------
  // service calls

  /** `getCountries()`: the locale list of the home page, every element parsed as a country. */
  function GetCountries(api: BlurayApi, val: Validators): (r: Result<seq<Json>>)
    ensures api.home.Err? ==> r == Err(api.home.error)
    ensures api.home.Ok? ==> r == ParseCountries(api.home.value, val)
  {
    if api.home.Err? then Err(api.home.error) else ParseCountries(api.home.value, val)
  }

  /**
   * `getBlurayReleasesByCountryForMonth(country, year, month)`: the
   * Blu-ray page and then the DVD page are fetched one after the other,
   * then the Blu-ray releases and the DVD releases are extracted; the
   * first failure in that order is the result.
   */
  function GetReleasesForMonth(api: BlurayApi, country: string, year: int, month: int, voc: Vocabulary, val: Validators): (r: Result<seq<Json>>)
    ensures api.releaseDates(Bluray, country, year, month).Err? ==> r == Err(api.releaseDates(Bluray, country, year, month).error)
    ensures api.releaseDates(Bluray, country, year, month).Ok? && api.releaseDates(Dvd, country, year, month).Err?
      ==> r == Err(api.releaseDates(Dvd, country, year, month).error)
    ensures r.Ok? ==>
      var blurays := api.releaseDates(Bluray, country, year, month);
      var dvds := api.releaseDates(Dvd, country, year, month);
      && blurays.Ok? && dvds.Ok?
      && Releases(blurays.value, country, Bluray, voc, val).Ok? && Releases(dvds.value, country, Dvd, voc, val).Ok?
      && r.value == Releases(blurays.value, country, Bluray, voc, val).value + Releases(dvds.value, country, Dvd, voc, val).value
  {
    var blurayPage := api.releaseDates(Bluray, country, year, month);
    if blurayPage.Err? then Err(blurayPage.error)
    else
      var dvdPage := api.releaseDates(Dvd, country, year, month);
      if dvdPage.Err? then Err(dvdPage.error)
      else
        var blurays := Releases(blurayPage.value, country, Bluray, voc, val);
        if blurays.Err? then Err(blurays.error)
        else
          var dvds := Releases(dvdPage.value, country, Dvd, voc, val);
          if dvds.Err? then Err(dvds.error)
          else Ok(blurays.value + dvds.value)
  }

  /** The month's releases are all of this country: the Blu-ray ones first, then the DVD ones. */
  lemma ReleasesForMonthOrder(api: BlurayApi, country: string, year: int, month: int, voc: Vocabulary, val: Validators)
    requires GetReleasesForMonth(api, country, year, month, voc, val).Ok?
    ensures var out := GetReleasesForMonth(api, country, year, month, voc, val).value;
      var n := |Releases(api.releaseDates(Bluray, country, year, month).value, country, Bluray, voc, val).value|;
      && n <= |out|
      && (forall i :: 0 <= i < n ==> Tagged(out[i], country, voc.bluray, voc))
      && (forall i :: n <= i < |out| ==> Tagged(out[i], country, voc.dvd, voc))
  {
    var bs := api.releaseDates(Bluray, country, year, month).value;
    var ds := api.releaseDates(Dvd, country, year, month).value;
    ReleasesTagged(bs, country, Bluray, voc, val);
    ReleasesTagged(ds, country, Dvd, voc, val);
    TaggedConcat(Releases(bs, country, Bluray, voc, val).value, Releases(ds, country, Dvd, voc, val).value, country, voc);
  }

  lemma TaggedConcat(b: seq<Json>, d: seq<Json>, country: string, voc: Vocabulary)
    requires forall i :: 0 <= i < |b| ==> Tagged(b[i], country, TypeValue(voc, Bluray), voc)
    requires forall i :: 0 <= i < |d| ==> Tagged(d[i], country, TypeValue(voc, Dvd), voc)
    ensures forall i :: 0 <= i < |b| ==> Tagged((b + d)[i], country, voc.bluray, voc)
    ensures forall i :: |b| <= i < |b + d| ==> Tagged((b + d)[i], country, voc.dvd, voc)
  {
    forall i | |b| <= i < |b + d| ensures Tagged((b + d)[i], country, voc.dvd, voc) {
      assert (b + d)[i] == d[i - |b|];
    }
  }

  // ---------------------------------------------------------------------
  // mappers (the service's methods and src/common/mappers/blu-ray-com-mappers.ts alike)

  /** `fromReleaseSourceToPersistance`: the row id is the country code. */
  function FromReleaseSourceToPersistance(item: Json, voc: Vocabulary): (r: SourceRow)
    ensures r.provider == voc.blurayCom && r.raw == item
    ensures Prop(item, "code").Some? && Prop(item, "code").value.Str? ==> r.id == Prop(item, "code").value.s
  {
    SourceRow(JsString(Prop(item, "code")), voc.blurayCom, item)
  }

  /** `fromPersistanceToReleaseSurce`: the stored raw parsed as a country. */
  function FromPersistanceToReleaseSource(row: SourceRow, val: Validators): Result<Json>
  {
    Parse(row.raw, CountryFields, val)
  }

  /** A listed country survives a store and a read, and its row id is its code. */
  lemma SourceRoundTrip(api: BlurayApi, val: Validators, voc: Vocabulary, i: nat)
    requires GetCountries(api, val).Ok? && i < |GetCountries(api, val).value|
    ensures var c := GetCountries(api, val).value[i];
      && FromPersistanceToReleaseSource(FromReleaseSourceToPersistance(c, voc), val) == Ok(c)
      && FromReleaseSourceToPersistance(c, voc).id == CountryCode(api.home.value[i])
  {
    var e := api.home.value[i];
    assert ParseCountry(e, val) == Ok(GetCountries(api, val).value[i]);
    CountryStable(e, val);
  }

  /**
   * `fromReleaseToPersistance`: id `String(item.id)`, provider and type
   * from `extra`, `releasedAt` the ISO rendering of `releasedate`.
   */
  function FromReleaseToPersistance(item: Json): (r: ReleaseRow)
    ensures r.raw == item
    ensures Prop(item, "id").Some? && Prop(item, "id").value.Num? ==> r.id == NumberToString(Prop(item, "id").value.n)
    ensures Path(item, "extra", "type").Some? && Path(item, "extra", "type").value.Str?
      ==> r.releaseType == Path(item, "extra", "type").value.s
    ensures Path(item, "extra", "provider").Some? && Path(item, "extra", "provider").value.Str?
      ==> r.provider == Path(item, "extra", "provider").value.s
    ensures Prop(item, "releasedate").Some? && Prop(item, "releasedate").value.Str?
      ==> r.releasedAt == Prop(item, "releasedate").value.s
  {
    ReleaseRow(
      JsString(Prop(item, "id")),
      JsString(Path(item, "extra", "type")),
      JsString(Path(item, "extra", "provider")),
      JsString(Prop(item, "releasedate")),
      item)
  }

  /** `fromPersistanceToRelease`: the stored raw parsed with `bluRayComReleaseWithExtraSchema`. */
  function FromPersistanceToRelease(row: ReleaseRow, voc: Vocabulary, val: Validators): Result<Json>
  {
    Parse(row.raw, WithExtraFields(voc), val)
  }

  /**
   * The row of an extracted release: keyed by the decimal id, the type
   * and blu-ray.com, dated by the movie's release date, and its raw
   * reads back as the release.
   */
  lemma ReleaseRowOf(movie: Json, country: string, t: ReleaseType, voc: Vocabulary, val: Validators) returns (n: int)
    requires val.Coherent() && ToRelease(movie, country, t, voc, val).Ok?
    ensures var item := ToRelease(movie, country, t, voc, val).value;
      var row := FromReleaseToPersistance(item);
      && Prop(item, "id") == Some(Num(n)) && row.id == NumberToString(n) && JsNumber(row.id) == Some(n)
      && row.releaseType == TypeValue(voc, t) && row.provider == voc.blurayCom
      && FromPersistanceToRelease(row, voc, val) == Ok(item)
  {
    var item := ToRelease(movie, country, t, voc, val).value;
    var release := Parse(movie, ReleaseFields, val).value;
    var full := With(release, "extra", ExtraOf(release, country, t, voc));
    WithExtraSchemaOk(voc);
    ParseStable(full, WithExtraFields(voc), val);
    ParseNumber(full, WithExtraFields(voc), val, 0);
    n := Prop(item, "id").value.n;
    NumberRoundTrip(n);
    ReleasePaths(movie, country, t, voc, val);
  }

  /** The row's `releasedAt` is the rendering of the date the movie's `releasedate` text denotes. */
  lemma ReleaseRowDate(movie: Json, country: string, t: ReleaseType, voc: Vocabulary, val: Validators)
    requires val.Coherent() && ToRelease(movie, country, t, voc, val).Ok?
    ensures var d := Prop(movie, "releasedate");
      && d.Some? && d.value.Str? && val.toDate(Trim(d.value.s)).Some?
      && FromReleaseToPersistance(ToRelease(movie, country, t, voc, val).value).releasedAt == val.toDate(Trim(d.value.s)).value
  {
    ReleaseKeyFields();
    ReleaseSchemaOk();
    ParseDate(movie, ReleaseFields, val, 11);
    ReleaseKept(movie, country, t, voc, val, 11);
  }
}
