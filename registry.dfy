/** The adapter registry of the current extension (entrypoints tree), matched on `location.host`. */
module Registry {
  import opened Common
  import opened Adapters
  import Strings
  import E621
  import Realbooru

  /** The parts of `window.location` the registry reads; `port` is "" when the URL names none. */
  datatype Location = Location(hostname: string, port: string)

  /** `location.host`: the hostname, then `:` and the port when there is one. */
  function Host(location: Location): (r: string)
    ensures location.port == "" ==> r == location.hostname
    ensures location.port != "" ==> r == location.hostname + ":" + location.port
  {
    if location.port == "" then location.hostname else location.hostname + ":" + location.port
  }

  const FuraffinityAdapter: Adapter := Adapter(Furaffinity, OneDomain("furaffinity.net"), None, false)
  const GelbooruAdapter: Adapter := Adapter(Gelbooru, OneDomain("gelbooru.com"), None, false)
  const InkbunnyAdapter: Adapter := Adapter(Inkbunny, OneDomain("inkbunny.net"), None, false)
  const Rule34Adapter: Adapter := Adapter(Rule34, OneDomain("rule34.us"), None, false)
  const LocalAdapter: Adapter := Adapter(Local, ManyDomains(["127.0.0.1:8474", "localhost:8474"]), Some(500), false)
  const YandereAdapter: Adapter := Adapter(Yandere, ManyDomains(["yande.re"]), None, true)

  /** `collectImagesModules`, in priority order; the sankakuComplex entry is supplied by the caller. */
  function CollectImagesModules(sankaku: Adapter): (r: seq<Adapter>)
    ensures |r| == 9 && r[6] == sankaku
    ensures forall i :: 0 <= i < |r| && i != 6 ==> r[i].site == [Site.E621, Furaffinity, Gelbooru, Inkbunny, Rule34, Local, SankakuComplex, Site.Realbooru, Yandere][i]
  {
    [E621.Descriptor, FuraffinityAdapter, GelbooruAdapter, InkbunnyAdapter, Rule34Adapter,
     LocalAdapter, sankaku, Realbooru.Descriptor, YandereAdapter]
  }

  /** `getCollectImagesModule(location)`: the first adapter whose domains occur in `location.host`. */
  function GetCollectImagesModule(location: Location, sankaku: Adapter): (r: Option<Adapter>)
    ensures r.Some? ==> r.value in CollectImagesModules(sankaku) && Matches(r.value, Host(location))
    ensures r.None? <==> forall a :: a in CollectImagesModules(sankaku) ==> !Matches(a, Host(location))
  {
    Find(CollectImagesModules(sankaku), Host(location))
  }

  /** The lookup returns the first adapter in list order whose domains match the host, and `undefined` exactly when none does. */
  lemma LookupIsFirstMatch(location: Location, sankaku: Adapter)
    ensures var modules := CollectImagesModules(sankaku);
            var r := GetCollectImagesModule(location, sankaku);
            && (r.None? <==> forall j :: 0 <= j < |modules| ==> !Matches(modules[j], Host(location)))
            && (r.Some? ==> exists i :: 0 <= i < |modules| && r.value == modules[i] && Matches(modules[i], Host(location))
                              && forall j :: 0 <= j < i ==> !Matches(modules[j], Host(location)))
  {
    var modules := CollectImagesModules(sankaku);
    var host := Host(location);
    match FirstMatch(modules, host)
    case None =>
    case Some(i) =>
      assert GetCollectImagesModule(location, sankaku) == Some(modules[i]);
  }

  /** Any host containing `e926.net` (or `e621.net`) selects e621, which heads the list. */
  lemma E621HostsSelectE621(location: Location, sankaku: Adapter)
    requires Strings.Contains(Host(location), "e621.net") || Strings.Contains(Host(location), "e926.net")
    ensures GetCollectImagesModule(location, sankaku) == Some(E621.Descriptor)
  {
    FindIsFirst(CollectImagesModules(sankaku), Host(location), 0);
  }

  /** Substring matching accepts look-alike hosts: `e621.net.evil.com` selects e621. */
  lemma LookalikeHostSelectsE621(sankaku: Adapter)
    ensures GetCollectImagesModule(Location("e621.net.evil.com", ""), sankaku) == Some(E621.Descriptor)
  {
    Strings.ContainsInContext("", "e621.net", ".evil.com", "e621.net");
    assert "" + "e621.net" + ".evil.com" == "e621.net.evil.com";
    E621HostsSelectE621(Location("e621.net.evil.com", ""), sankaku);
  }

  /** An adapter each of whose domains holds a character missing from `host` does not match it. */
  lemma MissingCharacters(a: Adapter, host: string, missing: string)
    requires |missing| == |DomainList(a.domains)|
    requires forall k :: 0 <= k < |missing| ==> missing[k] in DomainList(a.domains)[k] && missing[k] !in host
    ensures !Matches(a, host)
  {
    var domains := DomainList(a.domains);
    forall k | 0 <= k < |domains|
      ensures !Strings.Contains(host, domains[k])
    {
      Strings.MissingCharacter(host, domains[k], missing[k]);
    }
  }

  /** A host that holds `localhost:8474` but none of the characters that tell the earlier adapters' domains apart selects the local adapter. */
  lemma LocalServerHostSelectsLocal(host: string, sankaku: Adapter)
    requires '6' !in host && '9' !in host && 'f' !in host && 'g' !in host && 'i' !in host && 'r' !in host
    requires Strings.Contains(host, "localhost:8474")
    ensures Find(CollectImagesModules(sankaku), host) == Some(LocalAdapter)
  {
    MissesBooruDomains(host);
    MissingCharacters(Rule34Adapter, host, "r");
    FindIsFirst(CollectImagesModules(sankaku), host, 5);
  }

  /** The characters `localhost:8474` lacks, and the domain it holds. */
  lemma LocalhostFacts(host: string)
    requires host == "localhost:8474"
    ensures '6' !in host && '9' !in host && 'f' !in host && 'g' !in host && 'i' !in host && 'r' !in host
    ensures Strings.Contains(host, "localhost:8474")
  {
    LocalhostLacksDigits(host);
    LocalhostLacksLetters(host);
    Strings.ContainsItself(host);
  }

  lemma LocalhostLacksDigits(host: string)
    requires host == "localhost:8474"
    ensures '6' !in host && '9' !in host
  {
  }

  lemma LocalhostLacksLetters(host: string)
    requires host == "localhost:8474"
    ensures 'f' !in host && 'g' !in host && 'i' !in host && 'r' !in host
  {
  }

  /** The port takes part in matching: `localhost:8474` selects the local adapter. */
  lemma LocalhostPortSelectsLocal(location: Location, sankaku: Adapter)
    requires location == Location("localhost", "8474")
    ensures GetCollectImagesModule(location, sankaku) == Some(LocalAdapter)
  {
    var host := Host(location);
    LocalhostFacts(host);
    LocalServerHostSelectsLocal(host, sankaku);
  }

  /** A host lacking `6`, `9`, `f`, `g` and `i` matches none of the e621, furaffinity, gelbooru and inkbunny adapters. */
  lemma MissesBooruDomains(host: string)
    requires '6' !in host && '9' !in host && 'f' !in host && 'g' !in host && 'i' !in host
    ensures !Matches(E621.Descriptor, host) && !Matches(FuraffinityAdapter, host)
    ensures !Matches(GelbooruAdapter, host) && !Matches(InkbunnyAdapter, host)
  {
    MissingCharacters(E621.Descriptor, host, "69");
    MissingCharacters(FuraffinityAdapter, host, "f");
    MissingCharacters(GelbooruAdapter, host, "g");
    MissingCharacters(InkbunnyAdapter, host, "i");
  }

  /** A host missing a character of every known domain selects nothing unless the sankakuComplex entry matches it. */
  lemma ForeignHostSelectsNothing(host: string, sankaku: Adapter)
    requires '6' !in host && '9' !in host && 'f' !in host && 'g' !in host && 'i' !in host
    requires '3' !in host && ':' !in host && 'l' !in host && 'y' !in host
    requires !Matches(sankaku, host)
    ensures Find(CollectImagesModules(sankaku), host) == None
  {
    MissesBooruDomains(host);
    MissesLaterDomains(host);
  }

  /** A host lacking `3`, `:`, `l` and `y` matches none of the rule34, local, realbooru and yande.re adapters. */
  lemma MissesLaterDomains(host: string)
    requires '3' !in host && ':' !in host && 'l' !in host && 'y' !in host
    ensures !Matches(Rule34Adapter, host) && !Matches(LocalAdapter, host)
    ensures !Matches(Realbooru.Descriptor, host) && !Matches(YandereAdapter, host)
  {
    MissingCharacters(Rule34Adapter, host, "3");
    MissingCharacters(LocalAdapter, host, "::");
    MissingCharacters(Realbooru.Descriptor, host, "l");
    MissingCharacters(YandereAdapter, host, "y");
  }

  /** `notbooru.com` selects nothing, provided the sankakuComplex entry does not match it either. */
  lemma UnknownHostSelectsNothing(location: Location, sankaku: Adapter)
    requires location == Location("notbooru.com", "")
    requires !Matches(sankaku, Host(location))
    ensures GetCollectImagesModule(location, sankaku) == None
  {
    var host := Host(location);
    NotbooruFacts(host);
    ForeignHostSelectsNothing(host, sankaku);
  }

  /** The characters `notbooru.com` lacks. */
  lemma NotbooruFacts(host: string)
    requires host == "notbooru.com"
    ensures '6' !in host && '9' !in host && 'f' !in host && 'g' !in host && 'i' !in host
    ensures '3' !in host && ':' !in host && 'l' !in host && 'y' !in host
  {
  }
}
