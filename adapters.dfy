/**
 * The adapter descriptor (`CollectImagesOptions` without its callbacks) and the
 * domain matching both registries perform: wrap a scalar `domains` into a list,
 * then accept the adapter when some domain is a substring of the host string.
 */
module Adapters {
  import opened Common
  import Strings

  /** Which site's scan callback and pagination getters an adapter carries. */
  datatype Site = E621 | Furaffinity | Gelbooru | Inkbunny | Rule34 | Local | SankakuComplex | Realbooru | Yandere

  /** The `domains` field: one domain, or an array of them. */
  datatype Domains = OneDomain(domain: string) | ManyDomains(list: seq<string>)

  /** What the registry reads from an adapter: its site, domains, rescan interval, and whether it has pagination getters. */
  datatype Adapter = Adapter(site: Site, domains: Domains, rescanInterval: Option<nat>, hasPagination: bool)

  /** `if (!(domains instanceof Array)) domains = [domains]` */
  function DomainList(d: Domains): seq<string>
  {
    match d
    case OneDomain(x) => [x]
    case ManyDomains(xs) => xs
  }

  /** The `for (const domain of domains)` loop: true as soon as one domain occurs in `host`. */
  function AnyDomainIn(host: string, domains: seq<string>): (r: bool)
    ensures r <==> exists k :: 0 <= k < |domains| && Strings.Contains(host, domains[k])
  {
    if domains == [] then false
    else Strings.Contains(host, domains[0]) || AnyDomainIn(host, domains[1..])
  }

  /** The predicate handed to `find`. */
  predicate Matches(a: Adapter, host: string)
  {
    AnyDomainIn(host, DomainList(a.domains))
  }

  /** The position `find` stops at: the first adapter, in list order, that matches `host`. */
  function FirstMatch(modules: seq<Adapter>, host: string): (r: Option<nat>)
    ensures r.Some? ==> r.value < |modules| && Matches(modules[r.value], host)
    ensures r.Some? ==> forall j :: 0 <= j < r.value ==> !Matches(modules[j], host)
    ensures r.None? ==> forall j :: 0 <= j < |modules| ==> !Matches(modules[j], host)
  {
    if modules == [] then None
    else if Matches(modules[0], host) then Some(0)
    else match FirstMatch(modules[1..], host)
      case None => None
      case Some(i) => Some(i + 1)
  }

  /** `modules.find(matches)`: the first matching adapter, or `undefined`. */
  function Find(modules: seq<Adapter>, host: string): (r: Option<Adapter>)
    ensures r.None? <==> forall j :: 0 <= j < |modules| ==> !Matches(modules[j], host)
    ensures r.Some? ==> r.value in modules && Matches(r.value, host)
  {
    match FirstMatch(modules, host)
    case None => None
    case Some(i) => Some(modules[i])
  }

  /** An adapter that matches, with no match before it, is the one `Find` returns. */
  lemma FindIsFirst(modules: seq<Adapter>, host: string, j: nat)
    requires j < |modules| && Matches(modules[j], host)
    requires forall i :: 0 <= i < j ==> !Matches(modules[i], host)
    ensures Find(modules, host) == Some(modules[j])
  {
    var r := FirstMatch(modules, host);
    assert r.Some?;
    assert r.value == j;
  }

  /** A scalar domain behaves exactly like the one-element list holding it. */
  lemma ScalarDomainIsSingleton(a: Adapter, host: string)
    requires a.domains.OneDomain?
    ensures Matches(a, host) == Matches(a.(domains := ManyDomains([a.domains.domain])), host)
    ensures Matches(a, host) <==> Strings.Contains(host, a.domains.domain)
  {
  }

  /** An adapter with an empty domain matches every host, since `includes("")` always holds. */
  lemma EmptyDomainMatchesAll(a: Adapter, host: string)
    requires "" in DomainList(a.domains)
    ensures Matches(a, host)
  {
    Strings.EmptyIsContained(host);
  }
}
