/** The adapter registry of the older content-script tree (src/entries), matched on `location.hostname`. */
module LegacyRegistry {
  import opened Common
  import opened Adapters
  import Strings
  import LegacyE621
  import E621
  import Registry

  /**
   * `collectImagesModules` of the older tree: five adapters and no local, sankakuComplex,
   * realbooru or yandere entry. Apart from e621 the entries carry the same domains as in
   * the newer tree.
   */
  function CollectImagesModules(): (r: seq<Adapter>)
    ensures |r| == 5
    ensures forall i :: 0 <= i < |r| ==> r[i].site == [Site.E621, Furaffinity, Gelbooru, Inkbunny, Rule34][i]
  {
    [LegacyE621.Descriptor, Registry.FuraffinityAdapter, Registry.GelbooruAdapter,
     Registry.InkbunnyAdapter, Registry.Rule34Adapter]
  }

  /** `getCollectImagesModule(location)`: lodash `find` over the five adapters, tested against the hostname. */
  function GetCollectImagesModule(location: Registry.Location): (r: Option<Adapter>)
    ensures r.Some? ==> r.value in CollectImagesModules() && Matches(r.value, location.hostname)
    ensures r.None? <==> forall a :: a in CollectImagesModules() ==> !Matches(a, location.hostname)
  {
    Find(CollectImagesModules(), location.hostname)
  }

  /** The first adapter in list order whose domains occur in the hostname is returned, and `undefined` exactly when none does. */
  lemma LookupIsFirstMatch(location: Registry.Location)
    ensures var modules := CollectImagesModules();
            var r := GetCollectImagesModule(location);
            && (r.None? <==> forall j :: 0 <= j < |modules| ==> !Matches(modules[j], location.hostname))
            && (r.Some? ==> exists i :: 0 <= i < |modules| && r.value == modules[i] && Matches(modules[i], location.hostname)
                              && forall j :: 0 <= j < i ==> !Matches(modules[j], location.hostname))
  {
    var modules := CollectImagesModules();
    match FirstMatch(modules, location.hostname)
    case None =>
    case Some(i) =>
      assert GetCollectImagesModule(location) == Some(modules[i]);
  }

  /** The port never takes part in a match: two locations with the same hostname select the same adapter. */
  lemma PortIsIgnored(a: Registry.Location, b: Registry.Location)
    requires a.hostname == b.hostname
    ensures GetCollectImagesModule(a) == GetCollectImagesModule(b)
  {
  }

  /** A hostname lacking `6`, `9`, `f`, `g`, `i` and `3` matches none of the five adapters. */
  lemma ForeignHostnameSelectsNothing(location: Registry.Location)
    requires var host := location.hostname; '6' !in host && '9' !in host && 'f' !in host && 'g' !in host && 'i' !in host && '3' !in host
    ensures GetCollectImagesModule(location) == None
  {
    var host := location.hostname;
    Registry.MissesBooruDomains(host);
    assert !Matches(LegacyE621.Descriptor, host) by {
      assert LegacyE621.Descriptor.domains == E621.Descriptor.domains;
    }
    Registry.MissingCharacters(Registry.Rule34Adapter, host, "3");
  }

  /** The local server page `localhost:8474` has hostname `localhost`; the older list holds no adapter for it and selects nothing. */
  lemma LocalhostSelectsNothing(location: Registry.Location)
    requires location == Registry.Location("localhost", "8474")
    ensures GetCollectImagesModule(location) == None
  {
    ForeignHostnameSelectsNothing(location);
  }

  /** Any hostname containing `e621.net` or `e926.net` selects e621, which heads the list. */
  lemma E621HostsSelectE621(location: Registry.Location)
    requires Strings.Contains(location.hostname, "e621.net") || Strings.Contains(location.hostname, "e926.net")
    ensures GetCollectImagesModule(location) == Some(LegacyE621.Descriptor)
  {
    FindIsFirst(CollectImagesModules(), location.hostname, 0);
  }
}
