/**
 * The RSS feed app's `fetch`: the favicon path, the check of the
 * `provider` query, and the choice of feed format and content type from
 * the `Accept` header. Rendering the feed itself is left to the feed
 * library and is not part of this model; a response records which feed
 * and which format it carries.
 */
module RssFeed {
  import opened Wrappers
  import opened Strings
  import opened Rows

  /** The wire value of each `EInputProvider` member. */
  datatype ProviderTags = ProviderTags(bluray: string, itunes: string, steam: string)
  {
    predicate Distinct()
    {
      bluray != itunes && bluray != steam && itunes != steam
    }

    function Of(p: InputProvider): string
    {
      match p
      case BluRayComPhysicalRelease => bluray
      case ItunesMusicRelease => itunes
      case SteamGamesFreePromos => steam
    }
  }

  /**
   * `z.object({ provider: z.enum(EInputProvider) }).parse(queries)`: the
   * member whose value the `provider` query holds; a missing or unknown
   * value throws.
   */
  function ParseProvider(tags: ProviderTags, queries: map<string, string>): (r: Result<InputProvider>)
    ensures r.Ok? <==> "provider" in queries && queries["provider"] in {tags.bluray, tags.itunes, tags.steam}
    ensures r.Ok? ==> tags.Of(r.value) == queries["provider"]
    ensures r.Err? ==> r.error.SchemaViolation?
  {
    if "provider" !in queries then Err(SchemaViolation("provider"))
    else
      var v := queries["provider"];
      if v == tags.bluray then Ok(BluRayComPhysicalRelease)
      else if v == tags.itunes then Ok(ItunesMusicRelease)
      else if v == tags.steam then Ok(SteamGamesFreePromos)
      else Err(SchemaViolation("provider"))
  }

  /** A query naming a provider by its value parses back to that provider, whatever else the query holds. */
  lemma ParseProviderRoundTrip(tags: ProviderTags, queries: map<string, string>, p: InputProvider)
    requires tags.Distinct()
    ensures ParseProvider(tags, queries["provider" := tags.Of(p)]) == Ok(p)
  {
    var q := queries["provider" := tags.Of(p)];
    assert q["provider"] == tags.Of(p);
  }

  // ---------------------------------------------------------------------
  // the Accept header

  const RssType: string := "application/rss+xml"
  const AtomType: string := "application/atom+xml"
  const JsonType: string := "application/json"
  const XmlType: string := "application/xml"

  /** The three renderings of `IProviderFeed`: `rss2()`, `atom1()`, `json1()`. */
  datatype Format = Rss2 | Atom1 | Json1

  /** `accepts?.includes(t)`: `undefined` (None) when the request has no `Accept` header. */
  function Includes(accepts: Option<string>, t: string): Option<bool>
  {
    if accepts.None? then None else Some(Contains(accepts.value, t))
  }

  /** `a ?? b`: `b` only when `a` is `undefined`. */
  function Coalesce(a: Option<bool>, b: Option<bool>): Option<bool>
  {
    if a.Some? then a else b
  }

  /** The truthiness of `true`, `false` or `undefined`. */
  predicate Truthy(v: Option<bool>)
  {
    v == Some(true)
  }

  /** The header is present and names media type `t`. */
  predicate Has(accepts: Option<string>, t: string)
  {
    accepts.Some? && Contains(accepts.value, t)
  }

  /**
   * The if-chain as written, with `??` between the RSS and XML tests: a
   * present header makes the left operand a boolean, so the XML test is
   * never consulted. Its result, in plain precedence: RSS when the header
   * names RSS, else Atom, else JSON Feed, else RSS as `application/xml`.
   */
  function NegotiateAsWritten(accepts: Option<string>): (r: (Format, string))
    ensures r == if Has(accepts, RssType) then (Rss2, RssType)
      else if Has(accepts, AtomType) then (Atom1, AtomType)
      else if Has(accepts, JsonType) then (Json1, JsonType)
      else (Rss2, XmlType)
  {
    if Truthy(Coalesce(Includes(accepts, RssType), Includes(accepts, XmlType))) then
      (Rss2, if Truthy(Includes(accepts, RssType)) then RssType else XmlType)
    else if Truthy(Includes(accepts, AtomType)) then (Atom1, AtomType)
    else if Truthy(Includes(accepts, JsonType)) then (Json1, JsonType)
    else (Rss2, XmlType)
  }

  /**
   * The if-chain with `||` in place of `??`: a header naming RSS or plain
   * XML gets RSS 2, labelled with whichever of the two it names (RSS
   * first); then Atom; then JSON Feed; anything else RSS as
   * `application/xml`.
   */
  function Negotiate(accepts: Option<string>): (r: (Format, string))
    ensures r == if Has(accepts, RssType) then (Rss2, RssType)
      else if Has(accepts, XmlType) then (Rss2, XmlType)
      else if Has(accepts, AtomType) then (Atom1, AtomType)
      else if Has(accepts, JsonType) then (Json1, JsonType)
      else (Rss2, XmlType)
  {
    if Truthy(Includes(accepts, RssType)) || Truthy(Includes(accepts, XmlType)) then
      (Rss2, if Truthy(Includes(accepts, RssType)) then RssType else XmlType)
    else if Truthy(Includes(accepts, AtomType)) then (Atom1, AtomType)
    else if Truthy(Includes(accepts, JsonType)) then (Json1, JsonType)
    else (Rss2, XmlType)
  }

  /** Each media type the app serves labels exactly its own format. */
  lemma NegotiateLabels(accepts: Option<string>)
    ensures var (f, ct) := Negotiate(accepts);
      && (f == Rss2 <==> ct in {RssType, XmlType})
      && (f == Atom1 <==> ct == AtomType)
      && (f == Json1 <==> ct == JsonType)
    ensures var (f, ct) := NegotiateAsWritten(accepts);
      && (f == Rss2 <==> ct in {RssType, XmlType})
      && (f == Atom1 <==> ct == AtomType)
      && (f == Json1 <==> ct == JsonType)
  {
  }

  /**
   * As written, the `"application/xml"` label of the first branch is dead:
   * XML is only ever the fall-through answer, for a header naming none of
   * RSS, Atom and JSON.
   */
  lemma AsWrittenXmlOnlyFallback(accepts: Option<string>)
    ensures NegotiateAsWritten(accepts).1 == XmlType <==>
      !Has(accepts, RssType) && !Has(accepts, AtomType) && !Has(accepts, JsonType)
  {
  }

  /** The two chains differ exactly on a header naming plain XML but not RSS, together with Atom or JSON. */
  lemma NegotiateDiffers(accepts: Option<string>)
    ensures NegotiateAsWritten(accepts) != Negotiate(accepts) <==>
      Has(accepts, XmlType) && !Has(accepts, RssType) && (Has(accepts, AtomType) || Has(accepts, JsonType))
  {
  }

  /** A header missing a character of `t` does not contain `t`. */
  lemma MissingChar(s: string, t: string, c: char)
    requires c in t && c !in s
    ensures !Contains(s, t)
  {
  }

  /** A header naming JSON Feed and plain XML, in that order: `application/json, application/xml`. */
  const JsonThenXml: string := JsonType + ", " + XmlType

  /** It names neither RSS (it has no `r`) nor Atom (it has no `+`). */
  lemma JsonThenXmlLacks()
    ensures !Contains(JsonThenXml, RssType) && !Contains(JsonThenXml, AtomType)
  {
    assert RssType[12] == 'r' && AtomType[16] == '+';
    assert 'r' !in JsonType && 'r' !in ", " && 'r' !in XmlType;
    assert '+' !in JsonType && '+' !in ", " && '+' !in XmlType;
    MissingChar(JsonThenXml, RssType, 'r');
    MissingChar(JsonThenXml, AtomType, '+');
  }

  /** It names JSON Feed at its start and plain XML at its end. */
  lemma JsonThenXmlHas()
    ensures Contains(JsonThenXml, JsonType) && Contains(JsonThenXml, XmlType)
  {
    assert JsonThenXml[..|JsonType|] == JsonType;
    ContainsPrefix(JsonThenXml, JsonType);
    ContainsPrefix(XmlType, XmlType);
    assert JsonThenXml == (JsonType + ", ") + XmlType + "";
    ContainsWithin(JsonType + ", ", XmlType, "", XmlType);
  }

  /** As written, `Accept: application/json, application/xml` gets JSON Feed; with `||` it gets RSS 2 as `application/xml`. */
  lemma XmlIgnoredExample()
    ensures NegotiateAsWritten(Some(JsonThenXml)) == (Json1, JsonType)
    ensures Negotiate(Some(JsonThenXml)) == (Rss2, XmlType)
  {
    JsonThenXmlLacks();
    JsonThenXmlHas();
  }

  // ---------------------------------------------------------------------
  // the request handler

  const FaviconPath: string := "/favicon.ico"
  const FaviconFile: string := "src/entrypoints/apps/rss-feed/public/favicon.ico"

  /** What `fetch` answers: the favicon file's stream, or a provider's feed in one format. */
  datatype Response =
    | File(path: string)
    | FeedResponse(status: nat, provider: InputProvider, queries: map<string, string>, format: Format, contentType: string)

  /**
   * `fetch(request)` on the request's path, its query parameters and its
   * `Accept` header: the favicon path is served from disk before any
   * check; otherwise the `provider` query picks whose `getOutputsFeed`
   * answers, with every query passed on, and the header picks the format.
   */
  function Fetch(tags: ProviderTags, pathname: string, queries: map<string, string>, accepts: Option<string>): (r: Result<Response>)
    ensures pathname == FaviconPath ==> r == Ok(File(FaviconFile))
    ensures pathname != FaviconPath ==> (r.Ok? <==> ParseProvider(tags, queries).Ok?)
    ensures pathname != FaviconPath && r.Ok? ==>
      && r.value.FeedResponse?
      && r.value.status == 200
      && r.value.provider == ParseProvider(tags, queries).value
      && r.value.queries == queries
      && (r.value.format, r.value.contentType) == Negotiate(accepts)
  {
    if pathname == FaviconPath then Ok(File(FaviconFile))
    else
      var provider := ParseProvider(tags, queries);
      if provider.Err? then Err(provider.error)
      else
        var (format, contentType) := Negotiate(accepts);
        Ok(FeedResponse(200, provider.value, queries, format, contentType))
  }

  /** A request without an `Accept` header, or with one naming none of the four types, gets RSS 2 as `application/xml`. */
  lemma FetchDefaultsToXml(tags: ProviderTags, pathname: string, queries: map<string, string>, accepts: Option<string>)
    requires pathname != FaviconPath && ParseProvider(tags, queries).Ok?
    requires !Has(accepts, RssType) && !Has(accepts, XmlType) && !Has(accepts, AtomType) && !Has(accepts, JsonType)
    ensures Fetch(tags, pathname, queries, accepts).value.format == Rss2
    ensures Fetch(tags, pathname, queries, accepts).value.contentType == XmlType
  {
  }
}
