/**
 * The media-list vocabulary shared by the site adapters (the MediaData and
 * MediaListItem shapes), and the small abstraction of the DOM they read.
 */
module Media {
  import opened Common

  datatype MediaType = Image | Video

  /** A label: plain text, or the `<a href=…>` link the older e621 adapter renders. */
  datatype Label = TextLabel(text: string) | LinkLabel(href: string, text: string)

  /** Why a promise rejected: a property read on `null`, or a failed network fetch. */
  datatype Rejection = TypeError | FetchError

  /** The settled state of a promise. */
  datatype Settled<+T> = Fulfilled(value: T) | Rejected(reason: Rejection)

  /** A field that is either a value or a zero-argument async callback producing one. */
  datatype Lazy<+T> = Literal(value: T) | Deferred(callback: () -> Settled<T>)

  /**
   * One media record (`mediaLabel` is the source's `label`). `src` is `None` where the source passes on the `null`
   * of a missing attribute through a non-null assertion.
   */
  datatype MediaData = MediaData(src: Option<string>, mediaLabel: Option<Label>, mediaType: Option<MediaType>, pageUrl: Option<string>)

  /** One scanned element and its media, as a value or as a whole-item callback. */
  datatype MediaListItem = MediaListItem(el: nat, item: Lazy<MediaData>)

  /**
   * A DOM element: a handle standing for its identity, its attributes, and its
   * `href`/`src` properties (the absolute URLs the browser resolves; "" when the
   * element has none).
   */
  datatype Node = Node(handle: nat, attributes: map<string, string>, href: string, src: string)

  /** An element together with the first descendant matching each selector the adapters ask for. */
  datatype Element = Element(node: Node, firstMatch: map<string, Node>)

  /** A document, known through the elements each selector matches, in document order. */
  datatype Document = Document(matches: map<string, seq<Element>>)

  /** `el.getAttribute(name)`: `null` (None) when the attribute is absent. */
  function GetAttribute(n: Node, name: string): (r: Option<string>)
    ensures r.Some? <==> name in n.attributes
  {
    if name in n.attributes then Some(n.attributes[name]) else None
  }

  /** `document.querySelectorAll(selector)`, in document order. */
  function QuerySelectorAll(doc: Document, selector: string): seq<Element>
  {
    if selector in doc.matches then doc.matches[selector] else []
  }

  /** `document.querySelector(selector)`: the first element `QuerySelectorAll` would list. */
  function QuerySelector(doc: Document, selector: string): (r: Option<Element>)
    ensures r.None? <==> QuerySelectorAll(doc, selector) == []
    ensures r.Some? ==> r.value == QuerySelectorAll(doc, selector)[0]
  {
    var all := QuerySelectorAll(doc, selector);
    if all == [] then None else Some(all[0])
  }

  /** `el.querySelector(selector)` inside one element. */
  function QueryWithin(e: Element, selector: string): Option<Node>
  {
    if selector in e.firstMatch then Some(e.firstMatch[selector]) else None
  }

  /** `document.querySelector(selector)?.getAttribute('href') ?? undefined`, the pagination getters. */
  function LinkHref(doc: Document, selector: string): (r: Option<string>)
    ensures r.Some? <==> QuerySelector(doc, selector).Some? && "href" in QuerySelector(doc, selector).value.node.attributes
    ensures r.Some? ==> r.value == QuerySelectorAll(doc, selector)[0].node.attributes["href"]
  {
    match QuerySelector(doc, selector)
    case None => None
    case Some(e) => GetAttribute(e.node, "href")
  }

  /**
   * `Array.from(elements).map(toItem)` inside an async scan callback: one literal
   * item per element, in document order, bound to that element. An element whose
   * mapping throws rejects the whole callback with the first such error.
   */
  function ScanLiterals(els: seq<Element>, toItem: Element -> Result<MediaData, Rejection>): (r: Settled<seq<MediaListItem>>)
    ensures r.Fulfilled? <==> forall i :: 0 <= i < |els| ==> toItem(els[i]).Ok?
    ensures r.Fulfilled? ==> |r.value| == |els|
    ensures r.Fulfilled? ==> forall i :: 0 <= i < |els| ==>
      r.value[i] == MediaListItem(els[i].node.handle, Literal(toItem(els[i]).value))
    ensures r.Rejected? ==> exists i :: 0 <= i < |els| && toItem(els[i]) == Err(r.reason)
  {
    if els == [] then Fulfilled([])
    else match toItem(els[0])
      case Err(e) => Rejected(e)
      case Ok(d) =>
        match ScanLiterals(els[1..], toItem)
        case Rejected(e) => Rejected(e)
        case Fulfilled(rest) => Fulfilled([MediaListItem(els[0].node.handle, Literal(d))] + rest)
  }
}
