/**
 * `BluRayComPhysicalReleasesProvider`: an input is a blu-ray.com country,
 * its outputs are the Blu-ray and DVD releases listed for the current
 * month in that country.
 */
module BlurayProvider {
  import opened Wrappers
  import opened Strings
  import opened Seqs
  import opened Json
  import opened Schema
  import opened Rows
  import opened Interfaces
  import opened BlurayRules

  /** The wire value of `EBLuRayComPhysicalReleaseType`. */
  function TypeName(t: ReleaseType): string
  {
    if t.Bluray? then "bluray" else "dvd"
  }

  /** The `extra` object of `bluRayComPhysicalReleaseOutputWithExtraSchema`. */
  const ExtraFields: seq<Field> := [
    Field("artworkUrl", KUrl, Required),
    Field("type", KEnum(["bluray", "dvd"]), Required),
    Field("link", KUrl, Required)
  ]

  /** `bluRayComPhysicalReleaseOutputWithExtraSchema`: the release schema extended with `extra`. */
  const OutputFields: seq<Field> := ReleaseFields + [Field("extra", KObject(ExtraFields), Required)]

  lemma OutputSchemaOk()
    ensures SchemaOk(ReleaseFields) && SchemaOk(OutputFields)
    ensures |OutputFields| == 16 && OutputFields[15] == Field("extra", KObject(ExtraFields), Required)
    ensures OutputFields[0] == Field("id", KNumber, Required)
  {
    ReleaseSchemaOk();
    ReleaseNamesDistinct();
    assert forall i :: 0 <= i < |ReleaseFields| ==> OutputFields[i] == ReleaseFields[i];
    assert forall i :: 0 <= i < |ReleaseFields| ==> ReleaseFields[i].name != "extra";
  }

  // ---------------------------------------------------------------------
  // inputs

  /** `item.code === term`. */
  predicate HasCode(c: Json, term: string)
  {
    Prop(c, "code") == Some(Str(term))
  }

  /**
   * `lookupInput(term)`: every locale element of the home page is parsed
   * as a country (one failure fails the lookup), and the first one whose
   * code is `term` is the result.
   */
  function LookupInput(api: BlurayApi, term: string, val: Validators): (r: Result<Option<Json>>)
    ensures api.home.Err? ==> r.Err?
    ensures api.home.Ok? ==> (r.Err? <==> exists i :: 0 <= i < |api.home.value| && api.home.value[i].lastText.None?)
  {
    if api.home.Err? then Err(api.home.error)
    else
      var countries := ParseCountries(api.home.value, val);
      if countries.Err? then Err(countries.error)
      else Ok(Find(countries.value, (c: Json) => HasCode(c, term)))
  }

  /** A parsed country has the code of its element. */
  lemma CountryHasCode(e: LocaleElement, val: Validators, term: string)
    requires ParseCountry(e, val).Ok?
    ensures HasCode(ParseCountry(e, val).value, term) <==> CountryCode(e) == term
  {
  }

  /**
   * A found country is `{code: term, name}` read from the first element
   * whose code is `term`.
   */
  lemma LookupInputFirstMatch(api: BlurayApi, term: string, val: Validators) returns (k: nat)
    requires LookupInput(api, term, val).Ok? && LookupInput(api, term, val).value.Some?
    ensures var els := api.home.value;
      && k < |els| && els[k].lastText.Some? && CountryCode(els[k]) == term
      && LookupInput(api, term, val).value.value
        == Obj([Member("code", Str(term)), Member("name", Str(Trim(els[k].lastText.value)))])
      && forall j :: 0 <= j < k ==> CountryCode(els[j]) != term
  {
    var els := api.home.value;
    var cs := ParseCountries(els, val).value;
    var p := (c: Json) => HasCode(c, term);
    var found := FindFirst(cs, p);
    k := found.value;
    assert ParseCountry(els[k], val) == Ok(cs[k]);
    CountryHasCode(els[k], val, term);
    forall j | 0 <= j < k ensures CountryCode(els[j]) != term {
      assert ParseCountry(els[j], val) == Ok(cs[j]);
      CountryHasCode(els[j], val, term);
    }
  }

  /** Nothing is found exactly when no element has the code `term`. */
  lemma LookupInputNone(api: BlurayApi, term: string, val: Validators)
    requires LookupInput(api, term, val).Ok?
    ensures LookupInput(api, term, val).value.None?
      <==> forall j :: 0 <= j < |api.home.value| ==> CountryCode(api.home.value[j]) != term
  {
    var els := api.home.value;
    var cs := ParseCountries(els, val).value;
    forall j | 0 <= j < |els| ensures HasCode(cs[j], term) <==> CountryCode(els[j]) == term {
      assert ParseCountry(els[j], val) == Ok(cs[j]);
      CountryHasCode(els[j], val, term);
    }
  }

  /** `fetchInput(row)`: look the stored country up again by its code; nothing found throws. */
  function FetchInput(api: BlurayApi, row: InputRow, val: Validators): (r: Result<Json>)
    ensures FromPersistenceToInput(row, val).Err? ==> r.Err?
    ensures r.Ok? ==> LookupInput(api, CodeOf(FromPersistenceToInput(row, val).value), val) == Ok(Some(r.value))
    ensures FromPersistenceToInput(row, val).Ok?
      && LookupInput(api, CodeOf(FromPersistenceToInput(row, val).value), val) == Ok(None)
      ==> r == Err(NotFound("input"))
  {
    var parsed := FromPersistenceToInput(row, val);
    if parsed.Err? then Err(parsed.error)
    else
      var input := LookupInput(api, CodeOf(parsed.value), val);
      if input.Err? then Err(input.error)
      else if input.value.None? then Err(NotFound("input"))
      else Ok(input.value.value)
  }

  /** The `code` string of a country. */
  function CodeOf(input: Json): string
  {
    JsString(Prop(input, "code"))
  }

  // ---------------------------------------------------------------------
  // outputs

  /** The `extra` object as `#extractMovieListItems` writes it: type, link, artwork. */
  function ExtraOf(release: Json, t: ReleaseType): Json
  {
    Obj([
      Member("type", Str(TypeName(t))),
      Member("link", Str(MovieLink(release))),
      Member("artworkUrl", Str(Artwork(release)))])
  }

  /** The `extra` object as the output schema returns it, in schema order. */
  function ParsedExtra(release: Json, t: ReleaseType): Json
  {
    Obj([
      Member("artworkUrl", Str(Artwork(release))),
      Member("type", Str(TypeName(t))),
      Member("link", Str(MovieLink(release)))])
  }

  /**
   * One movie object of the movie list: parsed as a release, given its
   * `extra`, and parsed with the output schema.
   */
  function ToOutput(movie: Json, t: ReleaseType, val: Validators): (r: Result<Json>)
    ensures Parse(movie, ReleaseFields, val).Err? ==> r.Err?
  {
    var release := Parse(movie, ReleaseFields, val);
    if release.Err? then Err(release.error)
    else Parse(With(release.value, "extra", ExtraOf(release.value, t)), OutputFields, val)
  }

  /** The `extra` object is accepted exactly when its link and artwork are URLs, and then reordered only. */
  lemma ExtraParse(release: Json, t: ReleaseType, val: Validators)
    ensures var v := ParseValue(Some(ExtraOf(release, t)), KObject(ExtraFields), Required, val);
      && (v.Ok? <==> val.isUrl(Artwork(release)) && val.isUrl(MovieLink(release)))
      && (v.Ok? ==> v.value == Some(ParsedExtra(release, t)))
  {
    var ty, link, art := TypeName(t), MovieLink(release), Artwork(release);
    assert ExtraOf(release, t) == Obj([Member("type", Str(ty)), Member("link", Str(link)), Member("artworkUrl", Str(art))]);
    assert ParsedExtra(release, t) == Obj([Member("artworkUrl", Str(art)), Member("type", Str(ty)), Member("link", Str(link))]);
    ExtraMembersParse(ty, link, art, val);
  }

  lemma ExtraMembersParse(ty: string, link: string, art: string, val: Validators)
    requires ty in ["bluray", "dvd"]
    ensures var v := ParseValue(Some(Obj([Member("type", Str(ty)), Member("link", Str(link)), Member("artworkUrl", Str(art))])),
        KObject(ExtraFields), Required, val);
      && (v.Ok? <==> val.isUrl(art) && val.isUrl(link))
      && (v.Ok? ==> v.value == Some(Obj([Member("artworkUrl", Str(art)), Member("type", Str(ty)), Member("link", Str(link))])))
  {
    var ms := [Member("type", Str(ty)), Member("link", Str(link)), Member("artworkUrl", Str(art))];
    WrittenExtraMembers(ty, link, art);
    ExtraFieldsParse(ms, ty, link, art, val);
    ParseObjectValue(ms, ExtraFields, Required, val);
  }

  lemma WrittenExtraMembers(ty: string, link: string, art: string)
    ensures var ms := [Member("type", Str(ty)), Member("link", Str(link)), Member("artworkUrl", Str(art))];
      Get(ms, "type") == Some(Str(ty)) && Get(ms, "link") == Some(Str(link)) && Get(ms, "artworkUrl") == Some(Str(art))
  {
    var ms := [Member("type", Str(ty)), Member("link", Str(link)), Member("artworkUrl", Str(art))];
    assert ms[1..] == [Member("link", Str(link)), Member("artworkUrl", Str(art))];
    assert ms[1..][1..] == [Member("artworkUrl", Str(art))];
    assert "type"[0] != "artworkUrl"[0] && "link"[0] != "artworkUrl"[0] && "link"[0] != "type"[0];
    assert Get(ms[1..][1..], "artworkUrl") == Some(Str(art));
    assert Get(ms[1..], "artworkUrl") == Some(Str(art));
  }

  /** `ExtraFields` over any members holding the three values. */
  lemma ExtraFieldsParse(ms: seq<Member>, ty: string, link: string, art: string, val: Validators)
    requires ty in ["bluray", "dvd"]
    requires Get(ms, "type") == Some(Str(ty)) && Get(ms, "link") == Some(Str(link)) && Get(ms, "artworkUrl") == Some(Str(art))
    ensures var v := ParseFields(ms, ExtraFields, val);
      && (v.Ok? <==> val.isUrl(art) && val.isUrl(link))
      && (v.Ok? ==> v.value == [Member("artworkUrl", Str(art)), Member("type", Str(ty)), Member("link", Str(link))])
  {
    if val.isUrl(art) && val.isUrl(link) {
      ExtraFieldsOk(ms, ty, link, art, val);
    } else {
      ExtraFieldsBad(ms, link, art, val);
    }
  }

  lemma ExtraFieldsOk(ms: seq<Member>, ty: string, link: string, art: string, val: Validators)
    requires ty in ["bluray", "dvd"] && val.isUrl(art) && val.isUrl(link)
    requires Get(ms, "type") == Some(Str(ty)) && Get(ms, "link") == Some(Str(link)) && Get(ms, "artworkUrl") == Some(Str(art))
    ensures ParseFields(ms, ExtraFields, val) == Ok([Member("artworkUrl", Str(art)), Member("type", Str(ty)), Member("link", Str(link))])
  {
    ExtraFieldsAt();
    UrlValue(ms, "artworkUrl", art, val);
    EnumValue(ms, "type", ty, ["bluray", "dvd"], val);
    UrlValue(ms, "link", link, val);
    ParseThreeFields(ms, ExtraFields[0], ExtraFields[1], ExtraFields[2], val, Str(art), Str(ty), Str(link));
    assert ExtraFields == [ExtraFields[0], ExtraFields[1], ExtraFields[2]];
  }

  lemma ExtraFieldsBad(ms: seq<Member>, link: string, art: string, val: Validators)
    requires !(val.isUrl(art) && val.isUrl(link))
    requires Get(ms, "link") == Some(Str(link)) && Get(ms, "artworkUrl") == Some(Str(art))
    ensures ParseFields(ms, ExtraFields, val).Err?
  {
    ExtraFieldsAt();
    if !val.isUrl(art) {
      UrlRefused(ms, "artworkUrl", art, val);
      ParseFieldsFails(ms, ExtraFields, val, 0);
    } else {
      UrlRefused(ms, "link", link, val);
      ParseFieldsFails(ms, ExtraFields, val, 2);
    }
  }

  lemma ExtraFieldsAt()
    ensures |ExtraFields| == 3
    ensures ExtraFields[0] == Field("artworkUrl", KUrl, Required)
    ensures ExtraFields[1] == Field("type", KEnum(["bluray", "dvd"]), Required)
    ensures ExtraFields[2] == Field("link", KUrl, Required)
  {
  }

  /**
   * An output carries `extra` = `{artworkUrl, type, link}` derived from the
   * parsed release, both URLs valid.
   */
  lemma OutputExtra(movie: Json, t: ReleaseType, val: Validators)
    requires ToOutput(movie, t, val).Ok?
    ensures var release := Parse(movie, ReleaseFields, val).value;
      && Prop(ToOutput(movie, t, val).value, "extra") == Some(ParsedExtra(release, t))
      && val.isUrl(Artwork(release)) && val.isUrl(MovieLink(release))
  {
    var release := Parse(movie, ReleaseFields, val).value;
    var full := With(release, "extra", ExtraOf(release, t));
    OutputSchemaOk();
    ParseGet(full, OutputFields, val, 15);
    ExtraParse(release, t, val);
  }

  /** Every release field of an output is what the release parse made of the movie. */
  lemma OutputRelease(movie: Json, t: ReleaseType, val: Validators, i: nat)
    requires val.Coherent() && ToOutput(movie, t, val).Ok? && i < |ReleaseFields|
    ensures Prop(ToOutput(movie, t, val).value, ReleaseFields[i].name)
      == Prop(Parse(movie, ReleaseFields, val).value, ReleaseFields[i].name)
  {
    var release := Parse(movie, ReleaseFields, val).value;
    var full := With(release, "extra", ExtraOf(release, t));
    OutputSchemaOk();
    ParseStable(movie, ReleaseFields, val);
    ParseExtended(release, ReleaseFields, Field("extra", KObject(ExtraFields), Required), full, val, i);
  }

  /**
   * The link of an output is the movie page of its `title_keywords` and
   * decimal `id`, and the artwork falls back to the id's cover.
   */
  lemma OutputLink(movie: Json, t: ReleaseType, val: Validators) returns (n: int, keywords: string)
    requires val.Coherent() && ToOutput(movie, t, val).Ok?
    ensures var out := ToOutput(movie, t, val).value;
      var release := Parse(movie, ReleaseFields, val).value;
      && Prop(out, "id") == Some(Num(n)) && Prop(out, "title_keywords") == Some(Str(keywords))
      && Path(out, "extra", "link") == Some(Str("https://www.blu-ray.com/movies/" + keywords + "-Blu-ray/" + NumberToString(n) + "/"))
      && Path(out, "extra", "type") == Some(Str(TypeName(t)))
      && (Prop(release, "artworkurl").None? ==>
            Path(out, "extra", "artworkUrl") == Some(Str("https://images.blu-ray.com/movies/covers/" + NumberToString(n) + "_medium.jpg")))
  {
    n, keywords := DerivedFields(movie, val);
    OutputKeys(movie, t, val);
    OutputPaths(movie, t, val);
  }

  /** `id` and `title_keywords` of an output are those of the parsed release. */
  lemma OutputKeys(movie: Json, t: ReleaseType, val: Validators)
    requires val.Coherent() && ToOutput(movie, t, val).Ok?
    ensures var out := ToOutput(movie, t, val).value;
      var release := Parse(movie, ReleaseFields, val).value;
      Prop(out, "id") == Prop(release, "id") && Prop(out, "title_keywords") == Prop(release, "title_keywords")
  {
    ReleaseKeyFields();
    OutputRelease(movie, t, val, 0);
    OutputRelease(movie, t, val, 7);
  }

  /** The three members of an output's `extra`. */
  lemma OutputPaths(movie: Json, t: ReleaseType, val: Validators)
    requires ToOutput(movie, t, val).Ok?
    ensures var out := ToOutput(movie, t, val).value;
      var release := Parse(movie, ReleaseFields, val).value;
      && Path(out, "extra", "type") == Some(Str(TypeName(t)))
      && Path(out, "extra", "link") == Some(Str(MovieLink(release)))
      && Path(out, "extra", "artworkUrl") == Some(Str(Artwork(release)))
  {
    var release := Parse(movie, ReleaseFields, val).value;
    OutputExtra(movie, t, val);
    ExtraMembers(TypeName(t), MovieLink(release), Artwork(release));
  }

  lemma ExtraMembers(ty: string, link: string, art: string)
    ensures var x := Obj([Member("artworkUrl", Str(art)), Member("type", Str(ty)), Member("link", Str(link))]);
      Prop(x, "artworkUrl") == Some(Str(art)) && Prop(x, "type") == Some(Str(ty)) && Prop(x, "link") == Some(Str(link))
  {
    var ms := [Member("artworkUrl", Str(art)), Member("type", Str(ty)), Member("link", Str(link))];
    assert ms[1..] == [Member("type", Str(ty)), Member("link", Str(link))];
    assert ms[1..][1..] == [Member("link", Str(link))];
    assert "type"[0] != "artworkUrl"[0] && "link"[0] != "artworkUrl"[0] && "link"[0] != "type"[0];
    assert Get(ms[1..][1..], "link") == Some(Str(link));
    assert Get(ms[1..], "link") == Some(Str(link));
  }

  /** `#extractMovieListItems(html, type)`. */
  function Items(scripts: seq<Script>, t: ReleaseType, val: Validators): Result<seq<Json>>
  {
    MovieListItems(scripts, (m: Json) => ToOutput(m, t, val))
  }

  /** Every extracted item has the requested type. */
  lemma ItemsType(scripts: seq<Script>, t: ReleaseType, val: Validators, i: nat)
    requires Items(scripts, t, val).Ok? && i < |Items(scripts, t, val).value|
    ensures Path(Items(scripts, t, val).value[i], "extra", "type") == Some(Str(TypeName(t)))
  {
    var toItem := (m: Json) => ToOutput(m, t, val);
    var movie := MovieListItemOrigin(scripts, toItem, i);
    assert ToOutput(movie, t, val) == Ok(Items(scripts, t, val).value[i]);
    OutputPaths(movie, t, val);
  }

  /**
   * `fetchOutputs(input)` for the month `year`/`month` of the clock: the
   * Blu-ray items, then the DVD items, of the input's country. The two
   * pages are fetched concurrently and each is extracted as it arrives;
   * when both sides fail, the Blu-ray side's error is the one reported.
   */
  function FetchOutputs(api: BlurayApi, input: Json, year: int, month: int, val: Validators): (r: Result<seq<Json>>)
    ensures r.Ok? ==>
      var blurays := api.releaseDates(Bluray, CodeOf(input), year, month);
      var dvds := api.releaseDates(Dvd, CodeOf(input), year, month);
      && blurays.Ok? && dvds.Ok?
      && Items(blurays.value, Bluray, val).Ok? && Items(dvds.value, Dvd, val).Ok?
      && r.value == Items(blurays.value, Bluray, val).value + Items(dvds.value, Dvd, val).value
  {
    var blurayPage := api.releaseDates(Bluray, CodeOf(input), year, month);
    var dvdPage := api.releaseDates(Dvd, CodeOf(input), year, month);
    var blurays := if blurayPage.Err? then Err(blurayPage.error) else Items(blurayPage.value, Bluray, val);
    var dvds := if dvdPage.Err? then Err(dvdPage.error) else Items(dvdPage.value, Dvd, val);
    if blurays.Err? then Err(blurays.error)
    else if dvds.Err? then Err(dvds.error)
    else Ok(blurays.value + dvds.value)
  }

  /** The fetched outputs are the Blu-ray releases followed by the DVD releases. */
  lemma FetchOutputsBlurayThenDvd(api: BlurayApi, input: Json, year: int, month: int, val: Validators)
    requires FetchOutputs(api, input, year, month, val).Ok?
    ensures var out := FetchOutputs(api, input, year, month, val).value;
      var n := |Items(api.releaseDates(Bluray, CodeOf(input), year, month).value, Bluray, val).value|;
      && n <= |out|
      && (forall i :: 0 <= i < n ==> Path(out[i], "extra", "type") == Some(Str("bluray")))
      && (forall i :: n <= i < |out| ==> Path(out[i], "extra", "type") == Some(Str("dvd")))
  {
    var code := CodeOf(input);
    var bs := api.releaseDates(Bluray, code, year, month).value;
    var ds := api.releaseDates(Dvd, code, year, month).value;
    ItemsAllType(bs, Bluray, val);
    ItemsAllType(ds, Dvd, val);
    TypedConcat(Items(bs, Bluray, val).value, Items(ds, Dvd, val).value);
  }

  lemma ItemsAllType(scripts: seq<Script>, t: ReleaseType, val: Validators)
    requires Items(scripts, t, val).Ok?
    ensures forall i :: 0 <= i < |Items(scripts, t, val).value| ==>
      Path(Items(scripts, t, val).value[i], "extra", "type") == Some(Str(TypeName(t)))
  {
    forall i | 0 <= i < |Items(scripts, t, val).value|
      ensures Path(Items(scripts, t, val).value[i], "extra", "type") == Some(Str(TypeName(t)))
    {
      ItemsType(scripts, t, val, i);
    }
  }

  lemma TypedConcat(b: seq<Json>, d: seq<Json>)
    requires forall i :: 0 <= i < |b| ==> Path(b[i], "extra", "type") == Some(Str(TypeName(Bluray)))
    requires forall i :: 0 <= i < |d| ==> Path(d[i], "extra", "type") == Some(Str(TypeName(Dvd)))
    ensures forall i :: 0 <= i < |b| ==> Path((b + d)[i], "extra", "type") == Some(Str("bluray"))
    ensures forall i :: |b| <= i < |b + d| ==> Path((b + d)[i], "extra", "type") == Some(Str("dvd"))
  {
    forall i | |b| <= i < |b + d| ensures Path((b + d)[i], "extra", "type") == Some(Str("dvd")) {
      assert (b + d)[i] == d[i - |b|];
    }
  }

  // ---------------------------------------------------------------------
  // mappers

  /** `fromInputToPersistence`: the row id is the country code. */
  function FromInputToPersistence(item: Json): (r: InputRow)
    ensures r.provider == BluRayComPhysicalRelease && r.raw == item
    ensures Prop(item, "code").Some? && Prop(item, "code").value.Str? ==> r.id == Prop(item, "code").value.s
  {
    InputRow(CodeOf(item), BluRayComPhysicalRelease, item)
  }

  /** `fromPersistenceToInput`: the stored raw parsed as a country. */
  function FromPersistenceToInput(row: InputRow, val: Validators): Result<Json>
  {
    Parse(row.raw, CountryFields, val)
  }

  /** A looked-up country survives a store and a read, and its row id is the code it was looked up by. */
  lemma InputRoundTrip(api: BlurayApi, term: string, val: Validators)
    requires LookupInput(api, term, val).Ok? && LookupInput(api, term, val).value.Some?
    ensures var x := LookupInput(api, term, val).value.value;
      && FromPersistenceToInput(FromInputToPersistence(x), val) == Ok(x)
      && FromInputToPersistence(x).id == term
  {
    var k := LookupInputFirstMatch(api, term, val);
    var e := api.home.value[k];
    assert ParseCountries(api.home.value, val).value[k] == ParseCountry(e, val).value;
    CountryStable(e, val);
  }

  /** `fromOutputToPersistence`: id `String(item.id)`, `input_id` and provider from the input row. */
  function FromOutputToPersistence(row: InputRow, item: Json): (r: OutputRow)
    ensures r.inputId == row.id && r.provider == row.provider && r.raw == item
    ensures Prop(item, "id").Some? && Prop(item, "id").value.Num? ==> r.id == NumberToString(Prop(item, "id").value.n)
  {
    OutputRow(JsString(Prop(item, "id")), row.id, row.provider, item)
  }

  /** `fromPersistenceToOutput`: the stored raw parsed with the output schema. */
  function FromPersistenceToOutput(row: OutputRow, val: Validators): Result<Json>
  {
    Parse(row.raw, OutputFields, val)
  }

  /** An extracted output survives a store and a read, and its row id reads back as its numeric id. */
  lemma OutputRoundTrip(row: InputRow, movie: Json, t: ReleaseType, val: Validators)
    requires val.Coherent() && ToOutput(movie, t, val).Ok?
    ensures var x := ToOutput(movie, t, val).value;
      && FromPersistenceToOutput(FromOutputToPersistence(row, x), val) == Ok(x)
      && Prop(x, "id").Some? && Prop(x, "id").value.Num?
      && JsNumber(FromOutputToPersistence(row, x).id) == Some(Prop(x, "id").value.n)
  {
    var release := Parse(movie, ReleaseFields, val).value;
    var full := With(release, "extra", ExtraOf(release, t));
    OutputSchemaOk();
    ParseStable(full, OutputFields, val);
    ParseNumber(full, OutputFields, val, 0);
    NumberRoundTrip(Prop(ToOutput(movie, t, val).value, "id").value.n);
  }

  /** The provider's mapper surface, as the jobs call it: there is no patch mapper. */
  function Mapper(val: Validators): (c: Capabilities)
    ensures c.provider == BluRayComPhysicalRelease && c.fromOutputToJsonPatchPersistance.None?
  {
    Capabilities(
      BluRayComPhysicalRelease,
      FromInputToPersistence,
      (row: InputRow) => FromPersistenceToInput(row, val),
      FromOutputToPersistence,
      None)
  }

  /**
   * The mapper surface with the patch mapper the provider lacks: the full
   * row, as the Steam provider uses, so a re-fetched output patches the
   * stored one with every member it has.
   */
  function MapperFixed(val: Validators): (c: Capabilities)
    ensures c.provider == BluRayComPhysicalRelease
    ensures c.fromOutputToJsonPatchPersistance == Some(c.fromOutputToPersistence)
    ensures c == Mapper(val).(fromOutputToJsonPatchPersistance := Some(FromOutputToPersistence))
  {
    Mapper(val).(fromOutputToJsonPatchPersistance := Some(FromOutputToPersistence))
  }
}
