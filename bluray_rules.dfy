/**
 * What the blu-ray.com provider and the legacy blu-ray.com service share:
 * the release schema, the country list of the home page, the movie list
 * script of a release-dates page, and the link and artwork derived for a
 * release.
 */
module BlurayRules {
  import opened Wrappers
  import opened Strings
  import opened Seqs
  import opened Json
  import opened Schema
  import opened Interfaces

  /** `bluRayComPhysicalReleaseOutputSchema` (and the identical `bluRayComReleaseSchema`). */
  const ReleaseFields: seq<Field> := [
    Field("id", KNumber, Required),
    Field("casing", KTrimmedOrAbsent, Optional),
    Field("artworkurl", KTrimmedOrAbsent, Optional),
    Field("title_sort", KTrimmed, Required),
    Field("title", KTrimmed, Required),
    Field("edition", KTrimmedOrAbsent, Optional),
    Field("extended", KTrimmedOrAbsent, Optional),
    Field("title_keywords", KTrimmed, Required),
    Field("studio", KTrimmedOrAbsent, Optional),
    Field("year", KNumeric, Required),
    Field("yearend", KNumeric, Required),
    Field("releasedate", KDate(true), Required),
    Field("popularity", KNumber, Required),
    Field("width", KNumber, Required),
    Field("height", KNumber, Required)
  ]

  /** `bluRayComPhysicalReleaseInputSchema` (and the identical `bluRayComCountrySchema`). */
  const CountryFields: seq<Field> := [Field("code", KString, Required), Field("name", KString, Required)]

  lemma ReleaseSchemaOk()
    ensures SchemaOk(ReleaseFields) && SchemaOk(CountryFields)
  {
    ReleaseNamesDistinct();
  }

  lemma ReleaseNamesDistinct()
    ensures forall i, j :: 0 <= i < j < |ReleaseFields| ==> ReleaseFields[i].name != ReleaseFields[j].name
  {
  }

  /**
   * The text fields come out trimmed; `casing`, `artworkurl`, `edition`,
   * `extended` and `studio` are non-empty when present.
   */
  lemma ReleaseTrimmed(movie: Json, val: Validators, i: nat)
    requires Parse(movie, ReleaseFields, val).Ok?
    requires i < |ReleaseFields| && ReleaseFields[i].kind in {KTrimmed, KTrimmedOrAbsent}
    ensures var v := Prop(Parse(movie, ReleaseFields, val).value, ReleaseFields[i].name);
      && (ReleaseFields[i].presence == Required ==> v.Some?)
      && (v.Some? ==> v.value.Str? && Trim(v.value.s) == v.value.s)
      && (v.Some? && ReleaseFields[i].kind == KTrimmedOrAbsent ==> v.value.s != "")
  {
    ReleaseSchemaOk();
    ParseTrimmed(movie, ReleaseFields, val, i);
  }

  /** The numeric text fields (`year`, `yearend`) come out as numbers, read from a number or from numeric text. */
  lemma ReleaseYears(movie: Json, val: Validators, i: nat)
    requires Parse(movie, ReleaseFields, val).Ok?
    requires i < |ReleaseFields| && ReleaseFields[i].kind == KNumeric
    ensures var v := Prop(movie, ReleaseFields[i].name);
      && v.Some? && (v.value.Num? || (v.value.Str? && val.toNumber(v.value.s).Some?))
      && Prop(Parse(movie, ReleaseFields, val).value, ReleaseFields[i].name)
        == Some(if v.value.Num? then v.value else Num(val.toNumber(v.value.s).value))
  {
    ReleaseSchemaOk();
    ReleaseNumericRequired(i);
    ParseNumeric(movie, ReleaseFields, val, i);
  }

  /** Every numeric field of the release schema is required. */
  lemma ReleaseNumericRequired(i: nat)
    requires i < |ReleaseFields| && ReleaseFields[i].kind in {KNumber, KNumeric}
    ensures ReleaseFields[i].presence == Required
  {
  }

  /** Every number field (`id`, `popularity`, `width`, `height`) comes out as the number the input holds. */
  lemma ReleaseNumber(movie: Json, val: Validators, i: nat)
    requires Parse(movie, ReleaseFields, val).Ok?
    requires i < |ReleaseFields| && ReleaseFields[i].kind == KNumber
    ensures var v := Prop(movie, ReleaseFields[i].name);
      && v.Some? && v.value.Num?
      && Prop(Parse(movie, ReleaseFields, val).value, ReleaseFields[i].name) == v
  {
    ReleaseSchemaOk();
    ReleaseNumericRequired(i);
    ParseNumber(movie, ReleaseFields, val, i);
  }

  /** Where the fields the derived values use sit in the release schema. */
  lemma ReleaseKeyFields()
    ensures ReleaseFields[0] == Field("id", KNumber, Required)
    ensures ReleaseFields[2] == Field("artworkurl", KTrimmedOrAbsent, Optional)
    ensures ReleaseFields[7] == Field("title_keywords", KTrimmed, Required)
    ensures ReleaseFields[9] == Field("year", KNumeric, Required)
    ensures ReleaseFields[10] == Field("yearend", KNumeric, Required)
    ensures ReleaseFields[11] == Field("releasedate", KDate(true), Required)
  {
  }

  /** The two release-dates pages: Blu-ray discs (`/movies/`) and DVDs (`/dvd/`). */
  datatype ReleaseType = Bluray | Dvd

  /**
   * blu-ray.com as the model sees it: the locale list of the home page,
   * and the scripts of the release-dates page of a type, a country and a
   * month (`releasedates.php?year=..&month=..` with the `country` cookie).
   */
  datatype BlurayApi = BlurayApi(
    home: Result<seq<LocaleElement>>,
    releaseDates: (ReleaseType, string, int, int) -> Result<seq<Script>>)

  // ---------------------------------------------------------------------
  // countries

  /**
   * An `li` of the home page's locale list: its element id and the text of
   * its last child node, if it has one.
   */
  datatype LocaleElement = LocaleElement(id: string, lastText: Option<string>)

  /** `e.id.replace("country_", "").trim()`. */
  function CountryCode(e: LocaleElement): string
  {
    Trim(ReplaceFirst(e.id, "country_", ""))
  }

  /** `{name: <last child text, trimmed>, code}`; an undefined name is an absent member. */
  function CountryCandidate(e: LocaleElement): Json
  {
    Obj((if e.lastText.Some? then [Member("name", Str(Trim(e.lastText.value)))] else [])
      + [Member("code", Str(CountryCode(e)))])
  }

  /** One locale element parsed as a country `{code, name}`. */
  function ParseCountry(e: LocaleElement, val: Validators): (r: Result<Json>)
    ensures r.Ok? <==> e.lastText.Some?
    ensures r.Ok? ==>
      r.value == Obj([Member("code", Str(CountryCode(e))), Member("name", Str(Trim(e.lastText.value)))])
  {
    CountryParsed(e, val);
    Parse(CountryCandidate(e), CountryFields, val)
  }

  lemma CountryParsed(e: LocaleElement, val: Validators)
    ensures var r := Parse(CountryCandidate(e), CountryFields, val);
      && (r.Ok? <==> e.lastText.Some?)
      && (r.Ok? ==> r.value == Obj([Member("code", Str(CountryCode(e))), Member("name", Str(Trim(e.lastText.value)))]))
  {
    var ms := CountryCandidate(e).members;
    var codeField := Field("code", KString, Required);
    var nameField := Field("name", KString, Required);
    assert CountryFields == [codeField] + [nameField];
    var code := Str(CountryCode(e));
    assert Get(ms, "code") == Some(code);
    if e.lastText.Some? {
      var name := Str(Trim(e.lastText.value));
      assert Get(ms, "name") == Some(name);
      assert ParseFields(ms, [], val) == Ok([]);
      ParseFieldsCons(ms, nameField, [], val, Some(name), []);
      assert [nameField] + [] == [nameField];
      ParseFieldsCons(ms, codeField, [nameField], val, Some(code), [Member("name", name)] + []);
    } else {
      assert Get(ms, "name") == None;
      ParseFieldsHeadFails(ms, nameField, [], val);
      assert [nameField] + [] == [nameField];
      assert ParseFields(ms, [nameField], val).Err?;
    }
  }

  /** The home page's locale list parsed in order; one element without a name fails the whole list. */
  function ParseCountries(elements: seq<LocaleElement>, val: Validators): (r: Result<seq<Json>>)
    ensures r.Err? <==> exists i :: 0 <= i < |elements| && elements[i].lastText.None?
    ensures r.Ok? ==> |r.value| == |elements|
    ensures r.Ok? ==> forall i :: 0 <= i < |elements| ==> ParseCountry(elements[i], val) == Ok(r.value[i])
  {
    MapOk(elements, (e: LocaleElement) => ParseCountry(e, val))
  }

  /** A stored country reads back as itself. */
  lemma CountryStable(e: LocaleElement, val: Validators)
    requires ParseCountry(e, val).Ok?
    ensures Parse(ParseCountry(e, val).value, CountryFields, val) == ParseCountry(e, val)
  {
    var x := ParseCountry(e, val).value;
    assert ParseFields(x.members, CountryFields[2..], val) == Ok([]);
    assert CountryFields[1..][1..] == CountryFields[2..];
    assert ParseFields(x.members, CountryFields[1..], val) == Ok([x.members[1]] + []);
    assert ParseFields(x.members, CountryFields, val) == Ok([x.members[0]] + [x.members[1]]);
  }

  // ---------------------------------------------------------------------
  // release-dates page

  const MovieListMarker := "function movielist()"

  /**
   * A `script` element of a release-dates page: its text, and the objects
   * the `movies[n] = {...}` assignments in it evaluate to, in text order.
   */
  datatype Script = Script(text: string, movies: seq<Json>)

  predicate IsMovieList(s: Script)
  {
    Contains(s.text, MovieListMarker)
  }

  /** The movies of the first script that defines `movielist()`, if any. */
  function MovieList(scripts: seq<Script>): (r: Option<seq<Json>>)
    ensures r.None? <==> forall i :: 0 <= i < |scripts| ==> !IsMovieList(scripts[i])
    ensures r.Some? ==> exists i :: (0 <= i < |scripts| && IsMovieList(scripts[i]) && scripts[i].movies == r.value
      && forall j :: 0 <= j < i ==> !IsMovieList(scripts[j]))
  {
    var s := Find(scripts, IsMovieList);
    if s.None? then None else Some(s.value.movies)
  }

  /**
   * What `#extractMovieListItems` returns: nothing without a movie list
   * script, otherwise each movie turned into an item, in order; the first
   * movie that fails stops the extraction with its error.
   */
  function MovieListItems(scripts: seq<Script>, toItem: Json -> Result<Json>): Result<seq<Json>>
  {
    var movies := MovieList(scripts);
    if movies.None? then Ok([]) else MapOk(movies.value, toItem)
  }

  /** The `while ((match = regexp.exec(script)) !== null)` loop of `#extractMovieListItems`. */
  method ExtractMovieListItems(scripts: seq<Script>, toItem: Json -> Result<Json>) returns (r: Result<seq<Json>>)
    ensures r == MovieListItems(scripts, toItem)
    ensures r.Ok? && MovieList(scripts).Some? ==> |r.value| == |MovieList(scripts).value|
  {
    var script := MovieList(scripts);
    if script.None? {
      return Ok([]);
    }
    var movies := script.value;
    var items: seq<Json> := [];
    var i := 0;
    while i < |movies|
      invariant 0 <= i <= |movies| && |items| == i
      invariant forall j :: 0 <= j < i ==> toItem(movies[j]) == Ok(items[j])
    {
      var item := toItem(movies[i]);
      if item.Err? {
        MapOkFirstError(movies, toItem, i);
        return Err(item.error);
      }
      items := items + [item.value];
      i := i + 1;
    }
    MapOkAll(movies, toItem, items);
    return Ok(items);
  }

  /** An extracted item came from some movie of the movie list. */
  lemma MovieListItemOrigin(scripts: seq<Script>, toItem: Json -> Result<Json>, i: nat) returns (movie: Json)
    requires MovieListItems(scripts, toItem).Ok? && i < |MovieListItems(scripts, toItem).value|
    ensures MovieList(scripts).Some? && movie in MovieList(scripts).value
    ensures toItem(movie) == Ok(MovieListItems(scripts, toItem).value[i])
  {
    movie := MovieList(scripts).value[i];
  }

  // ---------------------------------------------------------------------
  // derived fields

  /** `https://www.blu-ray.com/movies/${title_keywords}-Blu-ray/${id}/`. */
  function MovieLink(release: Json): string
  {
    "https://www.blu-ray.com/movies/" + JsString(Prop(release, "title_keywords")) + "-Blu-ray/"
      + JsString(Prop(release, "id")) + "/"
  }

  /** `release.artworkurl ?? https://images.blu-ray.com/movies/covers/${id}_medium.jpg`. */
  function Artwork(release: Json): (r: string)
    ensures Prop(release, "artworkurl").Some? && Prop(release, "artworkurl").value.Str?
      ==> r == Prop(release, "artworkurl").value.s
  {
    var a := Prop(release, "artworkurl");
    if a.None? || a.value == Null then
      "https://images.blu-ray.com/movies/covers/" + JsString(Prop(release, "id")) + "_medium.jpg"
    else JsValueString(a.value)
  }

  /** A parsed release's link ends with its decimal id, and artwork falls back to the id's cover. */
  lemma DerivedFields(movie: Json, val: Validators) returns (n: int, keywords: string)
    requires Parse(movie, ReleaseFields, val).Ok?
    ensures var release := Parse(movie, ReleaseFields, val).value;
      && Prop(release, "id") == Some(Num(n)) && JsNumber(JsString(Prop(release, "id"))) == Some(n)
      && Prop(release, "title_keywords") == Some(Str(keywords))
      && MovieLink(release) == "https://www.blu-ray.com/movies/" + keywords + "-Blu-ray/" + NumberToString(n) + "/"
      && (Prop(release, "artworkurl").None? ==>
            Artwork(release) == "https://images.blu-ray.com/movies/covers/" + NumberToString(n) + "_medium.jpg")
      && (Prop(release, "artworkurl").Some? ==>
            Prop(release, "artworkurl").value.Str? && Artwork(release) == Prop(release, "artworkurl").value.s)
  {
    var release := Parse(movie, ReleaseFields, val).value;
    n, keywords := ParsedKeys(movie, val);
    DerivedFrom(release, n, keywords);
  }

  lemma ParsedKeys(movie: Json, val: Validators) returns (n: int, keywords: string)
    requires Parse(movie, ReleaseFields, val).Ok?
    ensures var release := Parse(movie, ReleaseFields, val).value;
      && Prop(release, "id") == Some(Num(n))
      && Prop(release, "title_keywords") == Some(Str(keywords))
      && (Prop(release, "artworkurl").Some? ==> Prop(release, "artworkurl").value.Str?)
  {
    var release := Parse(movie, ReleaseFields, val).value;
    ReleaseKeyFields();
    ReleaseNumber(movie, val, 0);
    ReleaseTrimmed(movie, val, 7);
    ReleaseTrimmed(movie, val, 2);
    n := Prop(release, "id").value.n;
    keywords := Prop(release, "title_keywords").value.s;
  }

  lemma DerivedFrom(release: Json, n: int, keywords: string)
    requires Prop(release, "id") == Some(Num(n)) && Prop(release, "title_keywords") == Some(Str(keywords))
    requires Prop(release, "artworkurl").Some? ==> Prop(release, "artworkurl").value.Str?
    ensures JsNumber(JsString(Prop(release, "id"))) == Some(n)
    ensures MovieLink(release) == "https://www.blu-ray.com/movies/" + keywords + "-Blu-ray/" + NumberToString(n) + "/"
    ensures Prop(release, "artworkurl").None? ==>
      Artwork(release) == "https://images.blu-ray.com/movies/covers/" + NumberToString(n) + "_medium.jpg"
    ensures Prop(release, "artworkurl").Some? ==> Artwork(release) == Prop(release, "artworkurl").value.s
  {
    NumberRoundTrip(n);
  }
}
