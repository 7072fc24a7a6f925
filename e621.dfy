/** The e621 adapter of the current extension (entrypoints tree). */
module E621 {
  import opened Common
  import opened Media
  import opened Adapters

  const E621Domains: Domains := ManyDomains(["e621.net", "e926.net"])

  /** The registry entry: e621's domains, no rescan interval, both pagination getters. */
  const Descriptor: Adapter := Adapter(Site.E621, E621Domains, None, true)

  /**
   * The item for one `article.thumbnail`: `data-file-ext` chooses the source
   * and the media type, and the first anchor gives the page URL. Reading the
   * `href` of a missing anchor, or the `src` of a missing image for an `swf`
   * post, throws a TypeError.
   */
  function ThumbnailItem(el: Element): (r: Result<MediaData, Rejection>)
    ensures r.Err? <==> QueryWithin(el, "a").None?
                        || (GetAttribute(el.node, "data-file-ext") == Some("swf") && QueryWithin(el, "img").None?)
    ensures r.Ok? ==> r.value.pageUrl == Some(QueryWithin(el, "a").value.href)
    ensures r.Ok? ==> r.value.src == if GetAttribute(el.node, "data-file-ext") == Some("swf")
                                    then Some(QueryWithin(el, "img").value.src)
                                    else GetAttribute(el.node, "data-file-url")
    ensures r.Ok? ==> (r.value.mediaType == Some(Video) <==> GetAttribute(el.node, "data-file-ext") in {Some("webm"), Some("mp4")})
    ensures r.Ok? ==> r.value.mediaType.Some? && r.value.mediaLabel.None?
  {
    var fileUrl := GetAttribute(el.node, "data-file-url");
    var fileExt := GetAttribute(el.node, "data-file-ext");
    match QueryWithin(el, "a")
    case None => Err(TypeError)
    case Some(anchor) =>
      var pageUrl := Some(anchor.href);
      match fileExt
      case Some("swf") =>
        (match QueryWithin(el, "img")
         case None => Err(TypeError)
         case Some(img) => Ok(MediaData(Some(img.src), None, Some(Image), pageUrl)))
      case Some("webm") => Ok(MediaData(fileUrl, None, Some(Video), pageUrl))
      case Some("mp4") => Ok(MediaData(fileUrl, None, Some(Video), pageUrl))
      case _ => Ok(MediaData(fileUrl, None, Some(Image), pageUrl))
  }

  /** The scan callback. */
  function Collect(doc: Document): (r: Settled<seq<MediaListItem>>)
    ensures r.Fulfilled? <==> forall e :: e in QuerySelectorAll(doc, "article.thumbnail") ==> ThumbnailItem(e).Ok?
    ensures r.Rejected? ==> r.reason == TypeError
  {
    var els := QuerySelectorAll(doc, "article.thumbnail");
    assert forall i :: 0 <= i < |els| ==> els[i] in els;
    ScanLiterals(QuerySelectorAll(doc, "article.thumbnail"), ThumbnailItem)
  }

  /** A page whose thumbnails all carry an anchor (and an image when they are `swf`) yields one item per thumbnail, in order, each a literal bound to its article. */
  lemma CollectPerThumbnail(doc: Document)
    requires forall e :: e in QuerySelectorAll(doc, "article.thumbnail") ==> ThumbnailItem(e).Ok?
    ensures Collect(doc).Fulfilled?
    ensures |Collect(doc).value| == |QuerySelectorAll(doc, "article.thumbnail")|
    ensures forall i :: 0 <= i < |Collect(doc).value| ==>
      var e := QuerySelectorAll(doc, "article.thumbnail")[i];
      Collect(doc).value[i].el == e.node.handle && Collect(doc).value[i].item == Literal(ThumbnailItem(e).value)
  {
    var els := QuerySelectorAll(doc, "article.thumbnail");
    assert forall i :: 0 <= i < |els| ==> els[i] in els;
  }

  /** `getPrevPageUrl`: the `href` of `#paginator-prev`, undefined when the link or its `href` is absent. */
  function GetPrevPageUrl(doc: Document): (r: Option<string>)
    ensures r.Some? <==> QuerySelector(doc, "#paginator-prev").Some? && "href" in QuerySelector(doc, "#paginator-prev").value.node.attributes
  {
    LinkHref(doc, "#paginator-prev")
  }

  /** `getNextPageUrl`: the `href` of `#paginator-next`, undefined when the link or its `href` is absent. */
  function GetNextPageUrl(doc: Document): (r: Option<string>)
    ensures r.Some? <==> QuerySelector(doc, "#paginator-next").Some? && "href" in QuerySelector(doc, "#paginator-next").value.node.attributes
  {
    LinkHref(doc, "#paginator-next")
  }
}
