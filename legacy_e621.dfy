/** The e621 adapter of the older content-script tree (src/entries). */
module LegacyE621 {
  import opened Common
  import opened Media
  import opened Adapters

  const E621Domains: Domains := ManyDomains(["e621.net", "e926.net"])

  /** The registry entry: e621's domains, no rescan interval and no pagination getters. */
  const Descriptor: Adapter := Adapter(Site.E621, E621Domains, None, false)

  /**
   * The item for one `.post-preview`: the source is always `data-file-url`, the
   * label links to the first anchor, and the type is Video only for `webm`.
   * Reading the `href` of a missing anchor throws a TypeError.
   */
  function PreviewItem(el: Element): (r: Result<MediaData, Rejection>)
    ensures r.Err? <==> QueryWithin(el, "a").None?
    ensures r.Ok? ==> r.value.src == GetAttribute(el.node, "data-file-url")
    ensures r.Ok? ==> r.value.mediaLabel == Some(LinkLabel(QueryWithin(el, "a").value.href, "Show image"))
    ensures r.Ok? ==> (r.value.mediaType == Some(Video) <==> GetAttribute(el.node, "data-file-ext") == Some("webm"))
    ensures r.Ok? ==> r.value.mediaType.Some? && r.value.pageUrl.None?
  {
    var src := GetAttribute(el.node, "data-file-url");
    match QueryWithin(el, "a")
    case None => Err(TypeError)
    case Some(anchor) =>
      var link := LinkLabel(anchor.href, "Show image");
      var kind := if GetAttribute(el.node, "data-file-ext") == Some("webm") then Video else Image;
      Ok(MediaData(src, Some(link), Some(kind), None))
  }

  /** The scan callback. */
  function Collect(doc: Document): (r: Settled<seq<MediaListItem>>)
    ensures r.Fulfilled? <==> forall e :: e in QuerySelectorAll(doc, ".post-preview") ==> QueryWithin(e, "a").Some?
    ensures r.Rejected? ==> r.reason == TypeError
  {
    var els := QuerySelectorAll(doc, ".post-preview");
    assert forall i :: 0 <= i < |els| ==> els[i] in els;
    ScanLiterals(QuerySelectorAll(doc, ".post-preview"), PreviewItem)
  }

  /** A page whose previews all carry an anchor yields one item per `.post-preview`, in order, each a literal bound to its element. */
  lemma CollectPerPreview(doc: Document)
    requires forall e :: e in QuerySelectorAll(doc, ".post-preview") ==> QueryWithin(e, "a").Some?
    ensures Collect(doc).Fulfilled?
    ensures |Collect(doc).value| == |QuerySelectorAll(doc, ".post-preview")|
    ensures forall i :: 0 <= i < |Collect(doc).value| ==>
      var e := QuerySelectorAll(doc, ".post-preview")[i];
      Collect(doc).value[i].el == e.node.handle && Collect(doc).value[i].item == Literal(PreviewItem(e).value)
  {
    var els := QuerySelectorAll(doc, ".post-preview");
    assert forall i :: 0 <= i < |els| ==> els[i] in els;
  }

  /** `mp4` and `swf` posts, which the newer adapter treats differently, are plain images here with their `data-file-url` as source. */
  lemma Mp4AndSwfAreImages(el: Element)
    requires QueryWithin(el, "a").Some?
    requires GetAttribute(el.node, "data-file-ext") in {Some("mp4"), Some("swf")}
    ensures PreviewItem(el).Ok? && PreviewItem(el).value.mediaType == Some(Image)
    ensures PreviewItem(el).value.src == GetAttribute(el.node, "data-file-url")
  {
  }
}
