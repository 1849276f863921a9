/**
 * The rules the iTunes provider and the legacy iTunes service share:
 * which lookup results are kept, which number identifies a release, and
 * how the artist picture is found on the artist's page and resized.
 */
module ItunesRules {
  import opened Wrappers
  import opened Strings
  import opened Json
  import opened Schema
  import opened Interfaces

  /** `ITunesLookupEntityType`. */
  datatype Entity = Song | Album

  function EntityName(e: Entity): string
  {
    if e.Song? then "song" else "album"
  }

  /**
   * The iTunes HTTP API as the model sees it: `lookup?id=term`,
   * `lookup?id=..&entity=..&media=music&sort=recent&limit=..`, a page read
   * as decoded chunks, and the two regular expressions run on the head of
   * the artist page.
   */
  datatype ItunesApi = ItunesApi(
    lookup: string -> Result<seq<Json>>,
    lookupReleases: (string, Entity, nat) -> Result<seq<Json>>,
    page: string -> Result<seq<string>>,
    headDone: string -> bool,
    ogImage: string -> Option<string>)

  const ReleaseLimit: nat := 50
  const PlaceholderImage := "https://placehold.co/256"
  /** `"Various Artists".toLowerCase()`. */
  const CompilationArtist := "various artists"
  /** `"DJ Mix".toLowerCase()`. */
  const DjMixMarker := "dj mix"
  const AppleMusicMarker := "apple-music-"

  // ---------------------------------------------------------------------
  // curation

  predicate IsTrack(item: Json)
  {
    Prop(item, "wrapperType") == Some(Str("track"))
  }

  predicate IsCollection(item: Json)
  {
    Prop(item, "wrapperType") == Some(Str("collection"))
  }

  /** `v?.toLowerCase?.()?.includes?.(needle)`: only a string can mention anything. */
  predicate MentionsCI(v: Option<Json>, needle: string)
  {
    v.Some? && v.value.Str? && Contains(ToLower(v.value.s), needle)
  }

  /** The credited artist: `collectionArtistName` of a track, `artistName` of anything else. */
  function ArtistOf(item: Json): Option<Json>
  {
    if IsTrack(item) then Prop(item, "collectionArtistName") else Prop(item, "artistName")
  }

  predicate IsCompilation(item: Json)
  {
    MentionsCI(ArtistOf(item), CompilationArtist)
  }

  predicate IsDjMix(item: Json)
  {
    MentionsCI(Prop(item, "collectionName"), DjMixMarker)
    || MentionsCI(Prop(item, "collectionCensoredName"), DjMixMarker)
  }

  /** A track must be streamable (truthy `isStreamable`); anything else is. */
  predicate IsStreamable(item: Json)
  {
    !IsTrack(item) || Truthy(Prop(item, "isStreamable"))
  }

  /** `usableRelease` of the legacy service: no compilation, no DJ mix; a `null` result throws. */
  function UsableRelease(item: Json): (r: Result<bool>)
    ensures r.Err? <==> item == Null
    ensures r.Ok? ==> (r.value <==> !IsCompilation(item) && !IsDjMix(item))
  {
    if item == Null then Err(TypeError("wrapperType")) else Ok(!IsCompilation(item) && !IsDjMix(item))
  }

  /** `usableOutput` of the provider: the legacy rules plus streamability. */
  function UsableOutput(item: Json): (r: Result<bool>)
    ensures r.Err? <==> item == Null
    ensures r.Ok? ==> (r.value <==> !IsCompilation(item) && !IsDjMix(item) && IsStreamable(item))
  {
    if item == Null then Err(TypeError("wrapperType"))
    else Ok(!IsCompilation(item) && !IsDjMix(item) && IsStreamable(item))
  }

  /**
   * The provider keeps exactly what the legacy service keeps and can be
   * streamed; for collections the two filters agree.
   */
  lemma UsableOutputRefinesRelease(item: Json)
    ensures UsableOutput(item).Ok? == UsableRelease(item).Ok?
    ensures UsableOutput(item) == Ok(true) <==> UsableRelease(item) == Ok(true) && IsStreamable(item)
    ensures !IsTrack(item) ==> UsableOutput(item) == UsableRelease(item)
  {
  }

  // ---------------------------------------------------------------------
  // ids

  /** `String(wrapperType === "collection" ? collectionId : trackId)`. */
  function ReleaseId(item: Json): string
  {
    JsString(if IsCollection(item) then Prop(item, "collectionId") else Prop(item, "trackId"))
  }

  /** A numeric id renders to text that reads back as that id, so distinct ids give distinct row ids. */
  lemma ReleaseIdNumber(a: Json, b: Json, na: int, nb: int)
    requires Prop(a, if IsCollection(a) then "collectionId" else "trackId") == Some(Num(na))
    requires Prop(b, if IsCollection(b) then "collectionId" else "trackId") == Some(Num(nb))
    ensures JsNumber(ReleaseId(a)) == Some(na)
    ensures ReleaseId(a) == ReleaseId(b) <==> na == nb
  {
    NumberRoundTrip(na);
    if ReleaseId(a) == ReleaseId(b) {
      NumberToStringInjective(na, nb);
    }
  }

  // ---------------------------------------------------------------------
  // artist image

  /** The chunks joined in order. */
  function Concat(chunks: seq<string>): string
  {
    if |chunks| == 0 then "" else Concat(chunks[..|chunks| - 1]) + chunks[|chunks| - 1]
  }

  /** What the page read holds when it stops: after the first chunk that completes the head, or at the end. */
  function ReadFrom(acc: string, chunks: seq<string>, done: string -> bool): string
    decreases |chunks|
  {
    if |chunks| == 0 then acc
    else
      var html := acc + chunks[0];
      if done(html) then html else ReadFrom(html, chunks[1..], done)
  }

  /**
   * The `for await` loop over the page: append each chunk, stop as soon as
   * `done` holds of what was read. `read` is the number of chunks consumed.
   */
  method ReadHead(chunks: seq<string>, done: string -> bool) returns (html: string, read: nat)
    ensures html == ReadFrom("", chunks, done)
    ensures read <= |chunks| && html == Concat(chunks[..read])
    ensures read < |chunks| ==> done(html)
    ensures forall j :: 0 < j < read ==> !done(Concat(chunks[..j]))
  {
    html := "";
    read := 0;
    while read < |chunks|
      invariant read <= |chunks|
      invariant html == Concat(chunks[..read])
      invariant ReadFrom(html, chunks[read..], done) == ReadFrom("", chunks, done)
      invariant forall j :: 0 < j <= read ==> !done(Concat(chunks[..j]))
    {
      assert chunks[..read + 1][..read] == chunks[..read];
      assert chunks[read..][1..] == chunks[read + 1..];
      html := html + chunks[read];
      read := read + 1;
      if done(html) {
        return;
      }
    }
  }

  /**
   * `imageFile.at(1)`: the second piece of the file name split on `.`, i.e.
   * the text between its first `.` and the next one (or the end), or
   * `undefined` when the name has no `.`.
   */
  function ImageExtension(url: string): string
  {
    var ps := Split(url, '/');
    var file := Split(ps[|ps| - 1], '.');
    if |file| > 1 then file[1] else "undefined"
  }

  /**
   * The rewrite of the og:image URL: no URL, an empty one or Apple
   * Music's generic picture give nothing; otherwise the last path segment
   * becomes `256x256.<extension>`.
   */
  function ResolveArtistImage(og: Option<string>): (r: Option<string>)
    ensures r.None? <==> og.None? || og.value == "" || Contains(og.value, AppleMusicMarker)
    ensures r.Some? ==>
      r.value == og.value[..LastPieceStart(og.value, '/')] + "256x256." + ImageExtension(og.value)
  {
    if og.None? || og.value == "" || Contains(og.value, AppleMusicMarker) then None
    else
      var url := og.value;
      var ps := Split(url, '/');
      var name := "256x256." + ImageExtension(url);
      ReplaceLastPiece(url, '/', name);
      Some(Join(ps[..|ps| - 1] + [name], '/'))
  }

  /**
   * Segment view of the rewrite: split on `/`, the new URL has the old
   * URL's segments except the last, which is `256x256.<extension>`.
   */
  lemma ResolveReplacesLastSegment(og: string)
    requires og != "" && !Contains(og, AppleMusicMarker)
    ensures var ps := Split(og, '/');
      Split(ResolveArtistImage(Some(og)).value, '/') == ps[..|ps| - 1] + ["256x256." + ImageExtension(og)]
  {
    var ps := Split(og, '/');
    var name := "256x256." + ImageExtension(og);
    NewNameSlashFree(og);
    var parts := ps[..|ps| - 1] + [name];
    assert ResolveArtistImage(Some(og)) == Some(Join(parts, '/'));
    assert forall k :: 0 <= k < |parts| ==> '/' !in parts[k];
    SplitJoin(parts, '/');
  }

  /** The new last segment has no `/`: the extension is cut from a segment. */
  lemma NewNameSlashFree(og: string)
    ensures '/' !in "256x256." + ImageExtension(og)
  {
    var ps := Split(og, '/');
    var file := Split(ps[|ps| - 1], '.');
    if |file| > 1 {
      SplitPieceChars(ps[|ps| - 1], '.', 1);
    }
  }

  /** `#getArtistImage(url)` / `resolveArtistImage(httpClient, url)`: a failed page read throws. */
  function ArtistImage(api: ItunesApi, url: string): Result<Option<string>>
  {
    var chunks := api.page(url);
    if chunks.Err? then Err(chunks.error)
    else Ok(ResolveArtistImage(api.ogImage(ReadFrom("", chunks.value, api.headDone))))
  }

  // ---------------------------------------------------------------------
  // artist lookup

  /** `{...parsed, extra: {artistImage: image}}`. */
  function WithImage(parsed: Json, image: string): Json
  {
    With(parsed, "extra", Obj([Member("artistImage", Str(image))]))
  }

  /**
   * `lookupInput(term)` / `lookupArtistById(id)`: the first lookup result
   * (nothing when it is missing or falsy), parsed with `base`, given the
   * artist's picture or the placeholder as `extra.artistImage`, and parsed
   * with `withExtra`. The picture is read before the first parse.
   */
  function LookupArtist(api: ItunesApi, term: string, base: seq<Field>, withExtra: seq<Field>, val: Validators)
    : (r: Result<Option<Json>>)
    ensures api.lookup(term).Err? ==> r.Err?
    ensures api.lookup(term).Ok? && (|api.lookup(term).value| == 0 || !Truthy(Some(api.lookup(term).value[0])))
      ==> r == Ok(None)
    ensures r.Ok? && r.value.Some? ==>
      var remote := api.lookup(term).value[0];
      var image := ArtistImage(api, JsString(Prop(remote, "artistLinkUrl")));
      && image.Ok? && Parse(remote, base, val).Ok?
      && Parse(WithImage(Parse(remote, base, val).value, image.value.GetOr(PlaceholderImage)), withExtra, val)
        == Ok(r.value.value)
  {
    var results := api.lookup(term);
    if results.Err? then Err(results.error)
    else if |results.value| == 0 || !Truthy(Some(results.value[0])) then Ok(None)
    else
      var remote := results.value[0];
      var image := ArtistImage(api, JsString(Prop(remote, "artistLinkUrl")));
      if image.Err? then Err(image.error)
      else
        var parsed := Parse(remote, base, val);
        if parsed.Err? then Err(parsed.error)
        else
          var full := Parse(WithImage(parsed.value, image.value.GetOr(PlaceholderImage)), withExtra, val);
          if full.Err? then Err(full.error) else Ok(Some(full.value))
  }
}
