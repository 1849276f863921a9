/**
 * `SteamGamesFreePromosProvider`: a single input, the steamdb page of
 * upcoming free promotions; its outputs are the promotion panels of that
 * page, one per game.
 */
module SteamProvider {
  import opened Wrappers
  import opened Strings
  import opened Seqs
  import opened Json
  import opened Schema
  import opened Rows
  import opened Interfaces

  const PromosUrl := "https://steamdb.info/upcoming/free/"
  /** The app id of the panel the provider always leaves out. */
  const ExcludedAppId := "730"
  const StoreAppPrefix := "https://store.steampowered.com/app"
  /** The wire values of `SteamGamesFreePromoTypes`. */
  const FreeToPlay := "free-to-play"
  const FreeToKeep := "free-to-keep"

  /** `steamGamesFreePromosInputSchema`. */
  const InputFields: seq<Field> := [Field("url", KUrl, Required)]

  /** `steamGamesFreePromosOutputSchema`. */
  const OutputFields: seq<Field> := [
    Field("id", KNumeric, Required),
    Field("image", KUrl, Required),
    Field("link", KUrl, Required),
    Field("name", KNonEmpty, Required),
    Field("promoType", KEnum([FreeToPlay, FreeToKeep]), Required),
    Field("startDate", KDate(false), Required),
    Field("endDate", KDate(false), Required)
  ]

  /** The member names of the object each panel is turned into, in the order it is written. */
  const OutputKeys: seq<string> := ["id", "image", "link", "name", "promoType", "startDate", "endDate"]

  lemma OutputSchemaOk()
    ensures SchemaOk(InputFields) && SchemaOk(OutputFields)
    ensures |OutputFields| == |OutputKeys| == 7
    ensures forall i :: 0 <= i < 7 ==> OutputFields[i].name == OutputKeys[i]
    ensures forall a, b :: 0 <= a < b < 7 ==> OutputKeys[a] != OutputKeys[b]
  {
    forall a, b | 0 <= a < b < 7 ensures OutputKeys[a] != OutputKeys[b] {
      if a == 0 && b == 1 {
        assert |OutputKeys[a]| != |OutputKeys[b]|;
      } else if a == 5 && b == 6 {
        assert OutputKeys[a][0] != OutputKeys[b][0];
      } else {
        assert OutputKeys[a][0] != OutputKeys[b][0];
      }
    }
  }

  /**
   * What the DOM query reads from one `.panel-sale` element: `data-appid`,
   * the class of `div.cat` (None without one), the `datetime` of each
   * `div.panel-sale-time`'s `relative-time`, the `src` of
   * `img.sale-image`, the `href` of each child of `div.app-history-type`,
   * and the text of `h4.panel-sale-name a`. `None` is a missing element
   * or attribute.
   */
  datatype Panel = Panel(
    appId: Option<string>,
    catClass: Option<string>,
    saleTimes: seq<Option<string>>,
    image: Option<string>,
    historyHrefs: seq<Option<string>>,
    name: Option<string>)

  /** The panels of the page at a URL, in document order, or the error fetching it. */
  datatype SteamApi = SteamApi(page: string -> Result<seq<Panel>>)

  // ---------------------------------------------------------------------
  // inputs

  /** `{ url }` of the promotions page. */
  function PromosInput(): Json
  {
    Obj([Member("url", Str(PromosUrl))])
  }

  /** `lookupInput(term)`: the term is not consulted. */
  function LookupInput(term: string): (r: Option<Json>)
    ensures r == Some(PromosInput())
  {
    Some(PromosInput())
  }

  /** `fetchInput(row)`: the stored row is not consulted. */
  function FetchInput(row: InputRow): (r: Json)
    ensures r == PromosInput()
  {
    PromosInput()
  }

  /** `item.url`. */
  function UrlOf(input: Json): string
  {
    JsString(Prop(input, "url"))
  }

  // ---------------------------------------------------------------------
  // outputs

  /** `e.getAttribute("data-appid")?.trim() !== "730"`. */
  predicate Kept(p: Panel)
  {
    p.appId.None? || Trim(p.appId.value) != ExcludedAppId
  }

  /** `x?.trim()`. */
  function Trimmed(x: Option<string>): Option<string>
  {
    if x.None? then None else Some(Trim(x.value))
  }

  /** The promotion type named by the class of `div.cat`; free-to-keep wins when both are named. */
  function PromoType(cls: Option<string>): (r: Option<string>)
    ensures r == Some(FreeToKeep) <==> cls.Some? && Contains(cls.value, "cat-free-to-keep")
    ensures r == Some(FreeToPlay) <==>
      cls.Some? && !Contains(cls.value, "cat-free-to-keep") && Contains(cls.value, "cat-play-for-free")
    ensures r.None? || r == Some(FreeToKeep) || r == Some(FreeToPlay)
  {
    if cls.Some? && Contains(cls.value, "cat-free-to-keep") then Some(FreeToKeep)
    else if cls.Some? && Contains(cls.value, "cat-play-for-free") then Some(FreeToPlay)
    else None
  }

  /** `.filter((item) => !!item)`: the defined, non-empty texts, in order. */
  function Present(xs: seq<Option<string>>): (r: seq<string>)
    ensures forall s :: s in r <==> Some(s) in xs && s != ""
    ensures |r| <= |xs|
  {
    if |xs| == 0 then []
    else
      assert xs == [xs[0]] + xs[1..];
      (if xs[0].Some? && xs[0].value != "" then [xs[0].value] else []) + Present(xs[1..])
  }

  /** `const [startDate, endDate] = times.toSorted()`: the first two after an ascending sort. */
  function SaleDates(times: seq<Option<string>>): (Option<string>, Option<string>)
  {
    var sorted := Sort(Present(times));
    (if |sorted| > 0 then Some(sorted[0]) else None, if |sorted| > 1 then Some(sorted[1]) else None)
  }

  /**
   * The start is the least sale time and the end the least of the others,
   * so the start never comes after the end; each is missing only when
   * the panel has too few sale times.
   */
  lemma SaleDatesOrder(times: seq<Option<string>>)
    ensures var (start, end) := SaleDates(times);
      var ts := Present(times);
      && (start.Some? <==> |ts| >= 1) && (end.Some? <==> |ts| >= 2)
      && (start.Some? ==> start.value in ts && forall k :: 0 <= k < |ts| ==> LessEq(start.value, ts[k]))
      && (end.Some? ==>
            && end.value in multiset(ts) - multiset{start.value}
            && LessEq(start.value, end.value)
            && forall x :: x in multiset(ts) - multiset{start.value} ==> LessEq(end.value, x))
  {
    var ts := Present(times);
    var r := Sort(ts);
    if |ts| >= 1 {
      SortedHeadIsLeast(ts);
    }
    if |ts| >= 2 {
      SortedSecondLeast(r);
    }
  }

  /** A child link that, trimmed, is a store app page. */
  predicate StoreLink(href: Option<string>)
  {
    href.Some? && IsPrefix(StoreAppPrefix, Trim(href.value))
  }

  /** `.map((x) => x.getAttribute("href")?.trim()).find((link) => link?.startsWith(StoreAppPrefix))`. */
  function Link(hrefs: seq<Option<string>>): (r: Option<string>)
    ensures r.Some? ==> IsPrefix(StoreAppPrefix, r.value)
  {
    if |hrefs| == 0 then None
    else if StoreLink(hrefs[0]) then Some(Trim(hrefs[0].value))
    else Link(hrefs[1..])
  }

  /** There is no link exactly when no child is a store app link. */
  lemma {:induction false} LinkNone(hrefs: seq<Option<string>>)
    ensures Link(hrefs).None? <==> forall j :: 0 <= j < |hrefs| ==> !StoreLink(hrefs[j])
  {
    if |hrefs| > 0 && !StoreLink(hrefs[0]) {
      var rest := hrefs[1..];
      LinkNone(rest);
      assert forall j :: 1 <= j < |hrefs| ==> hrefs[j] == rest[j - 1];
    }
  }

  /** The link is the first store app link among the children, trimmed. */
  lemma {:induction false} LinkFirst(hrefs: seq<Option<string>>) returns (k: nat)
    ensures Link(hrefs).Some? ==>
      k < |hrefs| && StoreLink(hrefs[k]) && Link(hrefs) == Some(Trim(hrefs[k].value))
      && forall j :: 0 <= j < k ==> !StoreLink(hrefs[j])
  {
    if |hrefs| == 0 || StoreLink(hrefs[0]) {
      k := 0;
    } else {
      var rest := hrefs[1..];
      var k' := LinkFirst(rest);
      k := k' + 1;
      if Link(rest).Some? {
        assert hrefs[k] == rest[k'];
        assert forall j :: 1 <= j < k ==> hrefs[j] == rest[j - 1];
      }
    }
  }

  /** The values written for `OutputKeys`, `undefined` as None. */
  function Values(p: Panel): (vs: seq<Option<string>>)
    ensures |vs| == |OutputKeys|
  {
    var (start, end) := SaleDates(p.saleTimes);
    [Trimmed(p.appId), Trimmed(p.image), Link(p.historyHrefs), Trimmed(p.name), PromoType(p.catClass), start, end]
  }

  /** The members `JSON.stringify` and the schema see: undefined values are no members at all. */
  function Defined(keys: seq<string>, vs: seq<Option<string>>): seq<Member>
    requires |keys| == |vs|
  {
    if |keys| == 0 then []
    else (if vs[0].Some? then [Member(keys[0], Str(vs[0].value))] else []) + Defined(keys[1..], vs[1..])
  }

  lemma {:induction false} DefinedAbsent(keys: seq<string>, vs: seq<Option<string>>, k: string)
    requires |keys| == |vs| && k !in keys
    ensures Get(Defined(keys, vs), k).None?
  {
    if |keys| > 0 {
      DefinedAbsent(keys[1..], vs[1..], k);
    }
  }

  /** With distinct keys, each key holds its own value, and is missing when that value is undefined. */
  lemma DefinedCons(keys: seq<string>, vs: seq<Option<string>>)
    requires |keys| == |vs| && |keys| > 0
    ensures vs[0].Some? ==> Defined(keys, vs) == [Member(keys[0], Str(vs[0].value))] + Defined(keys[1..], vs[1..])
    ensures vs[0].None? ==> Defined(keys, vs) == Defined(keys[1..], vs[1..])
  {
  }

  lemma {:induction false} DefinedGet(keys: seq<string>, vs: seq<Option<string>>, i: nat)
    requires |keys| == |vs| && i < |keys|
    requires forall a, b :: 0 <= a < b < |keys| ==> keys[a] != keys[b]
    ensures Get(Defined(keys, vs), keys[i]) == if vs[i].Some? then Some(Str(vs[i].value)) else None
  {
    DefinedCons(keys, vs);
    var rest := Defined(keys[1..], vs[1..]);
    if i == 0 {
      if vs[0].None? {
        DefinedAbsent(keys[1..], vs[1..], keys[0]);
      }
    } else {
      DefinedSkip(keys, vs, i);
      DefinedGet(keys[1..], vs[1..], i - 1);
    }
  }

  lemma DefinedSkip(keys: seq<string>, vs: seq<Option<string>>, i: nat)
    requires |keys| == |vs| && 0 < i < |keys|
    requires forall a, b :: 0 <= a < b < |keys| ==> keys[a] != keys[b]
    ensures Get(Defined(keys, vs), keys[i]) == Get(Defined(keys[1..], vs[1..]), keys[1..][i - 1])
    ensures forall a, b :: 0 <= a < b < |keys[1..]| ==> keys[1..][a] != keys[1..][b]
    ensures vs[1..][i - 1] == vs[i]
  {
    DefinedCons(keys, vs);
    assert keys[1..][i - 1] == keys[i];
  }

  /** The object literal the schema is given: the values under `OutputKeys`, undefined ones left out. */
  function Candidate(vs: seq<Option<string>>): Json
    requires |vs| == |OutputKeys|
  {
    Obj(Defined(OutputKeys, vs))
  }

  /** Each field of the output schema finds the value written under its name. */
  lemma CandidateAt(vs: seq<Option<string>>, i: nat)
    requires |vs| == |OutputKeys| && i < |OutputKeys|
    ensures Prop(Candidate(vs), OutputFields[i].name) == if vs[i].Some? then Some(Str(vs[i].value)) else None
  {
    OutputSchemaOk();
    DefinedGet(OutputKeys, vs, i);
  }

  /** One panel, turned into its object and parsed with the output schema. */
  function ToOutput(p: Panel, val: Validators): Result<Json>
  {
    Parse(Candidate(Values(p)), OutputFields, val)
  }

  /** The id of an accepted panel is the number its trimmed app id reads as. */
  lemma OutputId(p: Panel, val: Validators)
    requires ToOutput(p, val).Ok?
    ensures p.appId.Some? && val.toNumber(Trim(p.appId.value)).Some?
    ensures Prop(ToOutput(p, val).value, "id") == Some(Num(val.toNumber(Trim(p.appId.value)).value))
  {
    OutputSchemaOk();
    CandidateAt(Values(p), 0);
    ParseNumeric(Candidate(Values(p)), OutputFields, val, 0);
  }

  /** The image of an accepted panel is its trimmed image source, a URL. */
  lemma OutputImage(p: Panel, val: Validators)
    requires ToOutput(p, val).Ok?
    ensures p.image.Some? && val.isUrl(Trim(p.image.value))
    ensures Prop(ToOutput(p, val).value, "image") == Some(Str(Trim(p.image.value)))
  {
    OutputSchemaOk();
    CandidateAt(Values(p), 1);
    ParseUrl(Candidate(Values(p)), OutputFields, val, 1);
  }

  /** The link of an accepted panel is its first store app link, a URL. */
  lemma OutputLink(p: Panel, val: Validators)
    requires ToOutput(p, val).Ok?
    ensures Link(p.historyHrefs).Some? && val.isUrl(Link(p.historyHrefs).value)
    ensures Prop(ToOutput(p, val).value, "link") == Some(Str(Link(p.historyHrefs).value))
  {
    var vs := Values(p);
    assert vs[2] == Link(p.historyHrefs);
    OutputSchemaOk();
    CandidateAt(vs, 2);
    ParseUrl(Candidate(vs), OutputFields, val, 2);
  }

  /** The name of an accepted panel is its trimmed title, never empty. */
  lemma OutputName(p: Panel, val: Validators)
    requires ToOutput(p, val).Ok?
    ensures p.name.Some? && Trim(p.name.value) != ""
    ensures Prop(ToOutput(p, val).value, "name") == Some(Str(Trim(p.name.value)))
  {
    OutputSchemaOk();
    CandidateAt(Values(p), 3);
    ParseNonEmpty(Candidate(Values(p)), OutputFields, val, 3);
  }

  /** The promotion type of an accepted panel is the one its class names. */
  lemma OutputPromoType(p: Panel, val: Validators)
    requires ToOutput(p, val).Ok?
    ensures PromoType(p.catClass).Some?
    ensures Prop(ToOutput(p, val).value, "promoType") == Some(Str(PromoType(p.catClass).value))
  {
    OutputSchemaOk();
    CandidateAt(Values(p), 4);
    ParseEnum(Candidate(Values(p)), OutputFields, val, 4, [FreeToPlay, FreeToKeep]);
  }

  /** An accepted panel has two sale times, and its dates are the renderings of the least two. */
  lemma OutputDates(p: Panel, val: Validators)
    requires ToOutput(p, val).Ok?
    ensures var (start, end) := SaleDates(p.saleTimes);
      var x := ToOutput(p, val).value;
      && |Present(p.saleTimes)| >= 2 && start.Some? && end.Some?
      && val.toDate(start.value).Some? && Prop(x, "startDate") == Some(Str(val.toDate(start.value).value))
      && val.toDate(end.value).Some? && Prop(x, "endDate") == Some(Str(val.toDate(end.value).value))
  {
    OutputSchemaOk();
    CandidateAt(Values(p), 5);
    CandidateAt(Values(p), 6);
    ParseRawDate(Candidate(Values(p)), OutputFields, val, 5);
    ParseRawDate(Candidate(Values(p)), OutputFields, val, 6);
    SaleDatesOrder(p.saleTimes);
  }

  /** A panel without a known promotion type, without two sale times or without a store link is rejected. */
  lemma OutputRejects(p: Panel, val: Validators)
    requires PromoType(p.catClass).None? || |Present(p.saleTimes)| < 2
      || forall j :: 0 <= j < |p.historyHrefs| ==> !StoreLink(p.historyHrefs[j])
    ensures ToOutput(p, val).Err?
  {
    var _ := LinkFirst(p.historyHrefs);
    if ToOutput(p, val).Ok? {
      OutputLink(p, val);
      OutputPromoType(p, val);
      OutputDates(p, val);
    }
  }

  /** The `id` of an output, the key `distinctBy` compares. */
  function IdOf(x: Json): Option<Json>
  {
    Prop(x, "id")
  }

  /** The panels other than app 730, in page order. */
  function KeptPanels(panels: seq<Panel>): (r: seq<Panel>)
    ensures forall x :: x in r <==> x in panels && Kept(x)
  {
    if |panels| == 0 then []
    else
      assert panels == [panels[0]] + panels[1..];
      (if Kept(panels[0]) then [panels[0]] else []) + KeptPanels(panels[1..])
  }

  /** Mapping the kept panels fails exactly when some kept panel of the page fails. */
  lemma MapKeptOk(panels: seq<Panel>, f: Panel -> Result<Json>)
    ensures MapOk(KeptPanels(panels), f).Err? <==> exists i :: 0 <= i < |panels| && Kept(panels[i]) && f(panels[i]).Err?
  {
    var kept := KeptPanels(panels);
    if MapOk(kept, f).Err? {
      var k :| 0 <= k < |kept| && f(kept[k]).Err?;
      assert kept[k] in panels;
    } else {
      forall i | 0 <= i < |panels| && Kept(panels[i]) ensures f(panels[i]).Ok? {
        assert panels[i] in kept;
      }
    }
  }

  /**
   * `fetchOutputs(input)`: the panels other than app 730 are parsed in
   * page order (one failure fails the call), and only the first output
   * of each id is kept.
   */
  function FetchOutputs(api: SteamApi, input: Json, val: Validators): (r: Result<seq<Json>>)
    ensures api.page(UrlOf(input)).Err? ==> r == Err(api.page(UrlOf(input)).error)
    ensures api.page(UrlOf(input)).Ok? ==>
      (r.Err? <==>
        exists i :: 0 <= i < |api.page(UrlOf(input)).value|
          && Kept(api.page(UrlOf(input)).value[i]) && ToOutput(api.page(UrlOf(input)).value[i], val).Err?)
    ensures r.Ok? ==> forall i, j :: 0 <= i < j < |r.value| ==> IdOf(r.value[i]) != IdOf(r.value[j])
  {
    var page := api.page(UrlOf(input));
    if page.Err? then Err(page.error)
    else
      var toOutput := (p: Panel) => ToOutput(p, val);
      var outputs := MapOk(KeptPanels(page.value), toOutput);
      MapKeptOk(page.value, toOutput);
      if outputs.Err? then Err(outputs.error)
      else Ok(DistinctBy(outputs.value, IdOf))
  }

  /**
   * Each output comes from a panel of the page whose app id is not 730,
   * and it is the first output of the page with its id.
   */
  lemma FetchOutputsOrigin(api: SteamApi, input: Json, val: Validators, i: nat) returns (p: Panel)
    requires FetchOutputs(api, input, val).Ok? && i < |FetchOutputs(api, input, val).value|
    ensures p in api.page(UrlOf(input)).value && Kept(p)
    ensures p.appId.None? || Trim(p.appId.value) != ExcludedAppId
    ensures ToOutput(p, val) == Ok(FetchOutputs(api, input, val).value[i])
  {
    var panels := api.page(UrlOf(input)).value;
    var kept := KeptPanels(panels);
    var outputs := MapOk(kept, (p: Panel) => ToOutput(p, val)).value;
    var k := DistinctFromFirst(outputs, IdOf, {}, i);
    p := kept[k];
    assert p in kept;
  }

  /** Every accepted panel's id is among the outputs: only duplicates are dropped. */
  lemma FetchOutputsCover(api: SteamApi, input: Json, val: Validators, i: nat) returns (j: nat)
    requires FetchOutputs(api, input, val).Ok? && api.page(UrlOf(input)).Ok?
    requires i < |api.page(UrlOf(input)).value| && Kept(api.page(UrlOf(input)).value[i])
    ensures ToOutput(api.page(UrlOf(input)).value[i], val).Ok?
    ensures j < |FetchOutputs(api, input, val).value|
      && IdOf(FetchOutputs(api, input, val).value[j]) == IdOf(ToOutput(api.page(UrlOf(input)).value[i], val).value)
  {
    var panels := api.page(UrlOf(input)).value;
    var kept := KeptPanels(panels);
    var outputs := MapOk(kept, (p: Panel) => ToOutput(p, val)).value;
    assert panels[i] in kept;
    var k :| 0 <= k < |kept| && kept[k] == panels[i];
    j := DistinctFromCovers(outputs, IdOf, {}, k);
  }

  // ---------------------------------------------------------------------
  // mappers

  /** `fromInputToPersistence`: the row id is the URL and only the URL is stored. */
  function FromInputToPersistence(item: Json): (r: InputRow)
    ensures r.provider == SteamGamesFreePromos && r.id == UrlOf(item)
    ensures Prop(item, "url").Some? ==> r.raw == Obj([Member("url", Prop(item, "url").value)])
    ensures Prop(item, "url").None? ==> r.raw == Obj([])
  {
    var url := Prop(item, "url");
    InputRow(UrlOf(item), SteamGamesFreePromos, Obj(if url.Some? then [Member("url", url.value)] else []))
  }

  /** `fromPersistenceToInput`: the stored raw parsed as `{url}`. */
  function FromPersistenceToInput(row: InputRow, val: Validators): Result<Json>
  {
    Parse(row.raw, InputFields, val)
  }

  /** The looked-up input survives a store and a read, keyed by the page URL. */
  lemma InputRoundTrip(term: string, val: Validators)
    requires val.isUrl(PromosUrl)
    ensures var x := LookupInput(term).value;
      && FromPersistenceToInput(FromInputToPersistence(x), val) == Ok(x)
      && FromInputToPersistence(x).id == PromosUrl
  {
    var ms := [Member("url", Str(PromosUrl))];
    assert Get(ms, "url") == Some(Str(PromosUrl));
    UrlValue(ms, "url", PromosUrl, val);
    assert ParseFields(ms, [], val) == Ok([]);
    ParseFieldsCons(ms, Field("url", KUrl, Required), [], val, Some(Str(PromosUrl)), []);
    assert [Field("url", KUrl, Required)] + [] == InputFields;
    assert [Member("url", Str(PromosUrl))] + [] == ms;
    assert ParseFields(ms, InputFields, val) == Ok(ms);
    assert FromInputToPersistence(PromosInput()).raw == Obj(ms);
  }

  /** `fromOutputToPersistence`: id `String(item.id)`, `input_id` and provider from the input row. */
  function FromOutputToPersistence(row: InputRow, item: Json): (r: OutputRow)
    ensures r.inputId == row.id && r.provider == row.provider && r.raw == item
    ensures IdOf(item).Some? && IdOf(item).value.Num? ==> r.id == NumberToString(IdOf(item).value.n)
  {
    OutputRow(JsString(IdOf(item)), row.id, row.provider, item)
  }

  /** `fromPersistenceToOutput`: the stored raw parsed with the output schema. */
  function FromPersistenceToOutput(row: OutputRow, val: Validators): Result<Json>
  {
    Parse(row.raw, OutputFields, val)
  }

  /** An accepted output survives a store and a read, and its row id reads back as its numeric id. */
  lemma OutputRoundTrip(row: InputRow, p: Panel, val: Validators)
    requires val.Coherent() && ToOutput(p, val).Ok?
    ensures var x := ToOutput(p, val).value;
      && FromPersistenceToOutput(FromOutputToPersistence(row, x), val) == Ok(x)
      && IdOf(x).Some? && IdOf(x).value.Num?
      && JsNumber(FromOutputToPersistence(row, x).id) == Some(IdOf(x).value.n)
  {
    OutputSchemaOk();
    ParseStable(Candidate(Values(p)), OutputFields, val);
    OutputId(p, val);
    NumberRoundTrip(IdOf(ToOutput(p, val).value).value.n);
  }

  /**
   * The patch row is the full row, and an accepted output patched onto
   * itself is unchanged: ingesting the same output again changes nothing.
   */
  lemma PatchIsFull(outputs: map<OutputKey, Json>, row: InputRow, p: Panel, val: Validators)
    requires ToOutput(p, val).Ok?
    ensures var full := FromOutputToPersistence(row, ToOutput(p, val).value);
      && MergePatch(full.raw, full.raw) == full.raw
      && UpsertOutput(UpsertOutput(outputs, full, full), full, full) == UpsertOutput(outputs, full, full)
  {
    var full := FromOutputToPersistence(row, ToOutput(p, val).value);
    OutputSchemaOk();
    ParseClean(Candidate(Values(p)), OutputFields, val);
    MergePatchSelf(full.raw);
    UpsertOutputTwice(outputs, full, full);
  }

  /** The provider's mapper surface, as the jobs call it: the patch mapper is the full mapper. */
  function Mapper(val: Validators): (c: Capabilities)
    ensures c.provider == SteamGamesFreePromos && c.fromOutputToJsonPatchPersistance == Some(c.fromOutputToPersistence)
  {
    Capabilities(
      SteamGamesFreePromos,
      FromInputToPersistence,
      (row: InputRow) => FromPersistenceToInput(row, val),
      FromOutputToPersistence,
      Some(FromOutputToPersistence))
  }
}
