/** The part of an lxml element tree that the modelled code reads and
    writes: the tag in Clark notation (`{namespace}local` or `local`), the
    attributes keyed the same way, the text before the first child, the tail
    after the element's end tag, the child elements in document order and the
    prefix-to-namespace map (the empty prefix stands for lxml's `None`). */
module Xml {
  import opened Wrappers

  datatype Element = Element(
    tag: string,
    attrs: map<string, string>,
    text: Option<string>,
    tail: Option<string>,
    children: seq<Element>,
    nsmap: map<string, string>)

  /** The attribute key lxml uses for `xml:id`. */
  const XmlIdKey: string := "{http://www.w3.org/XML/1998/namespace}id"

  /** `element.get(key, default)` */
  function Get(e: Element, key: string, default: string): (r: string)
    ensures key in e.attrs ==> r == e.attrs[key]
    ensures key !in e.attrs ==> r == default
  {
    if key in e.attrs then e.attrs[key] else default
  }

  /** `element.get(key)`, which is `None` for an absent attribute. */
  function GetOpt(e: Element, key: string): (r: Option<string>)
    ensures r.Some? <==> key in e.attrs
    ensures r.Some? ==> r.value == e.attrs[key]
  {
    if key in e.attrs then Some(e.attrs[key]) else None
  }

  /** Python truthiness of an lxml element: it has at least one child. */
  predicate ElementTruthy(e: Element)
  {
    |e.children| > 0
  }

  /** A position in a tree: the child indices from the root down. */
  type Position = seq<nat>

  /** The element at a position, if the position exists. */
  function At(e: Element, p: Position): (r: Option<Element>)
    decreases |p|
  {
    if |p| == 0 then Some(e)
    else if p[0] < |e.children| then At(e.children[p[0]], p[1..])
    else None
  }
}
