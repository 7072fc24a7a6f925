/** The realbooru adapter: every thumbnail's media is found by fetching its post page. */
module Realbooru {
  import opened Common
  import opened Media
  import opened Adapters
  import LightboxUtils

  const RealbooruDomains: Domains := ManyDomains(["realbooru.com"])

  /** The registry entry: realbooru's domain, no rescan interval, both pagination getters. */
  const Descriptor: Adapter := Adapter(Site.Realbooru, RealbooruDomains, None, true)

  /** The network as the adapter sees it: `ky.get(url).text()` parsed by `DOMParser`, or the failure. */
  type Fetch = string -> Settled<Document>

  /**
   * The item read from a fetched post page: the `#image` element's `src` as an
   * Image; failing that, the `<source>` inside `#gelcomVideoPlayer` as a Video;
   * failing both, an empty source typed Video. A player without a `<source>`
   * throws a TypeError.
   */
  function ItemFromPage(page: Document, href: string): (r: Settled<MediaData>)
    ensures var image := QuerySelector(page, "#image");
            var video := QuerySelector(page, "#gelcomVideoPlayer");
            && (r.Rejected? <==> image.None? && video.Some? && QueryWithin(video.value, "source").None?)
            && (r.Fulfilled? ==> r.value.pageUrl == Some(href) && r.value.mediaLabel.None?)
            && (r.Fulfilled? ==> (r.value.mediaType == Some(Image) <==> image.Some?))
            && (r.Fulfilled? ==> r.value.mediaType.Some?)
            && (image.Some? ==> r == Fulfilled(MediaData(Some(image.value.node.src), None, Some(Image), Some(href))))
            && (image.None? && video.Some? && r.Fulfilled? ==> r.value.src == Some(QueryWithin(video.value, "source").value.src))
            && (image.None? && video.None? ==> r == Fulfilled(MediaData(Some(""), None, Some(Video), Some(href))))
  {
    var mediaImage := QuerySelector(page, "#image");
    var mediaVideo := QuerySelector(page, "#gelcomVideoPlayer");
    var kind := if mediaImage.None? then Video else Image;
    if mediaImage.Some? then
      Fulfilled(MediaData(Some(mediaImage.value.node.src), None, Some(kind), Some(href)))
    else if mediaVideo.Some? then
      match QueryWithin(mediaVideo.value, "source")
      case None => Rejected(TypeError)
      case Some(source) => Fulfilled(MediaData(Some(source.src), None, Some(kind), Some(href)))
    else
      Fulfilled(MediaData(Some(""), None, Some(kind), Some(href)))
  }

  /**
   * The callback's body as written: `isVideo` is fixed first, then `src` starts empty and
   * is overwritten from the image or from the player's `<source>`.
   */
  method ReadPage(page: Document, href: string) returns (r: Settled<MediaData>)
    ensures r == ItemFromPage(page, href)
  {
    var mediaImage := QuerySelector(page, "#image");
    var mediaVideo := QuerySelector(page, "#gelcomVideoPlayer");
    var isVideo := mediaImage.None?;
    var src := "";
    if mediaImage.Some? {
      src := mediaImage.value.node.src;
    } else if mediaVideo.Some? {
      var source := QueryWithin(mediaVideo.value, "source");
      if source.None? {
        return Rejected(TypeError);
      }
      src := source.value.src;
    }
    r := Fulfilled(MediaData(Some(src), None, Some(if isVideo then Video else Image), Some(href)));
  }

  /** The whole-item callback of one thumbnail anchor: fetch its `href`, then read the page. */
  function ItemCallback(fetch: Fetch, href: string): (r: Settled<MediaData>)
    ensures fetch(href).Rejected? ==> r == Rejected(fetch(href).reason)
    ensures r.Fulfilled? ==> fetch(href).Fulfilled? && r.value.pageUrl == Some(href)
  {
    match fetch(href)
    case Rejected(e) => Rejected(e)
    case Fulfilled(page) => ItemFromPage(page, href)
  }

  /** The scan callback: one deferred item per `.items .col.thumb a`, in order; nothing is fetched during the scan. */
  function Collect(doc: Document, fetch: Fetch): (r: seq<MediaListItem>)
    ensures |r| == |QuerySelectorAll(doc, ".items .col.thumb a")|
    ensures forall i :: 0 <= i < |r| ==>
      var anchor := QuerySelectorAll(doc, ".items .col.thumb a")[i].node;
      r[i].el == anchor.handle && r[i].item.Deferred? && r[i].item.callback() == ItemCallback(fetch, anchor.href)
  {
    var anchors := QuerySelectorAll(doc, ".items .col.thumb a");
    seq(|anchors|, i requires 0 <= i < |anchors| =>
      MediaListItem(anchors[i].node.handle, Deferred(() => ItemCallback(fetch, anchors[i].node.href))))
  }

  /**
   * Resolving a scanned item runs its callback once: a failed fetch rejects that
   * item alone, and a fetched page gives the item read from it, whose page URL
   * is the thumbnail anchor's `href`.
   */
  lemma ResolveCollected(doc: Document, fetch: Fetch, i: nat)
    requires i < |QuerySelectorAll(doc, ".items .col.thumb a")|
    ensures var href := QuerySelectorAll(doc, ".items .col.thumb a")[i].node.href;
            var res := LightboxUtils.ResolveScalarOrFunction(Collect(doc, fetch)[i].item);
            && res.callbackRuns == 1
            && (fetch(href).Rejected? ==> res.outcome == Rejected(fetch(href).reason))
            && (fetch(href).Fulfilled? ==> res.outcome == ItemFromPage(fetch(href).value, href))
            && (res.outcome.Fulfilled? ==> res.outcome.value.pageUrl == Some(href))
  {
  }

  /** `getPrevPageUrl` reads the paginator's `[alt=next]` link: previous and next are swapped on this site. */
  function GetPrevPageUrl(doc: Document): (r: Option<string>)
    ensures r.Some? <==> QuerySelector(doc, "#paginator [alt=next]").Some? && "href" in QuerySelector(doc, "#paginator [alt=next]").value.node.attributes
  {
    LinkHref(doc, "#paginator [alt=next]")
  }

  /** `getNextPageUrl` reads the paginator's `[alt=back]` link. */
  function GetNextPageUrl(doc: Document): (r: Option<string>)
    ensures r.Some? <==> QuerySelector(doc, "#paginator [alt=back]").Some? && "href" in QuerySelector(doc, "#paginator [alt=back]").value.node.attributes
  {
    LinkHref(doc, "#paginator [alt=back]")
  }
}
