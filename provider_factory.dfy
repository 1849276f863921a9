/**
 * `providerFactory`: picks the provider class for an `EInputProvider` tag
 * and hands it the gateway and the HTTP client it was given.
 */
module ProviderFactory {
  import opened Wrappers
  import opened Rows
  import opened Schema
  import opened Interfaces
  import ItunesRules
  import ItunesProvider
  import BlurayProvider
  import SteamProvider

  /** `ProviderFactoryProps`: the database and HTTP client a provider is built with. */
  datatype Props<D, H> = Props(database: D, httpClient: H)

  /** An instance of one of the provider classes, holding the props it was constructed with. */
  datatype Provider<D, H> =
    | BluRayComPhysicalReleasesProvider(props: Props<D, H>)
    | ItunesMusicReleasesProvider(props: Props<D, H>)
    | SteamGamesFreePromosProvider(props: Props<D, H>)
  {
    /** The `readonly provider` field each class declares. */
    function Tag(): InputProvider
    {
      match this
      case BluRayComPhysicalReleasesProvider(_) => BluRayComPhysicalRelease
      case ItunesMusicReleasesProvider(_) => ItunesMusicRelease
      case SteamGamesFreePromosProvider(_) => SteamGamesFreePromos
    }

    /** The mapper surface of the instance (the iTunes one also needs its lookup API). */
    function Mappers(itunes: ItunesRules.ItunesApi, val: Validators): Capabilities
    {
      match this
      case BluRayComPhysicalReleasesProvider(_) => BlurayProvider.MapperFixed(val)
      case ItunesMusicReleasesProvider(_) => ItunesProvider.Mapper(itunes, val)
      case SteamGamesFreePromosProvider(_) => SteamProvider.Mapper(val)
    }
  }

  /**
   * The switch as written: a case for Blu-ray and one for iTunes; any
   * other tag falls off the end and the factory returns `undefined`.
   */
  function Factory<D, H>(p: InputProvider, props: Props<D, H>): (r: Option<Provider<D, H>>)
    ensures r.Some? <==> p != SteamGamesFreePromos
    ensures r.Some? ==> r.value.Tag() == p && r.value.props == props
  {
    match p
    case BluRayComPhysicalRelease => Some(BluRayComPhysicalReleasesProvider(Props(props.database, props.httpClient)))
    case ItunesMusicRelease => Some(ItunesMusicReleasesProvider(Props(props.database, props.httpClient)))
    case SteamGamesFreePromos => None
  }

  /** The Steam tag, which has a provider class, gets no provider from the factory. */
  lemma FactoryMissesSteam<D, H>(props: Props<D, H>)
    ensures Factory(SteamGamesFreePromos, props) == None
    ensures exists p: Provider<D, H> :: p.Tag() == SteamGamesFreePromos
  {
    assert SteamGamesFreePromosProvider(props).Tag() == SteamGamesFreePromos;
  }

  /** The factory with the missing case added: every tag gets its own class. */
  function FactoryFixed<D, H>(p: InputProvider, props: Props<D, H>): (r: Provider<D, H>)
    ensures r.Tag() == p && r.props == props
  {
    match p
    case BluRayComPhysicalRelease => BluRayComPhysicalReleasesProvider(Props(props.database, props.httpClient))
    case ItunesMusicRelease => ItunesMusicReleasesProvider(Props(props.database, props.httpClient))
    case SteamGamesFreePromos => SteamGamesFreePromosProvider(Props(props.database, props.httpClient))
  }

  /** Where the factory as written answers, the corrected one gives the same provider. */
  lemma FactoryFixedExtends<D, H>(p: InputProvider, props: Props<D, H>)
    ensures Factory(p, props).Some? ==> Factory(p, props).value == FactoryFixed(p, props)
    ensures Factory(p, props).None? ==> p == SteamGamesFreePromos
  {
  }

  /**
   * The provider the corrected factory builds for a tag maps its rows
   * under that same tag, so a job built from it selects and writes the
   * rows of the requested provider.
   */
  lemma FactoryFixedMappers<D, H>(p: InputProvider, props: Props<D, H>, itunes: ItunesRules.ItunesApi, val: Validators)
    ensures FactoryFixed(p, props).Mappers(itunes, val).provider == p
  {
  }
}
