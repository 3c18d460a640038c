/** The generic XML tree transformer: each element is dispatched on its
    (namespace, local name) to a transform, with the identity transform as
    the fallback; a transform that yields nothing drops the element; text
    and tails pass through an overridable text hook. */
module Transformer {
  import opened Wrappers
  import opened Xml
  import PyStr
  import Cache

  /** The namespace `_add_tei_namespace` puts elements in. */
  const TeiNamespace: string := "http://www.tei-c.org/ns/1.0"

  /** `(namespace_uri, tag_name)`, with None for an element in no namespace. */
  type Key = (Option<string>, string)

  /** The transform methods a dispatch table can name: the identity
      transform, `_skip_transform`, and `_add_tei_namespace` with its
      optional new local name and extra attributes. */
  datatype Rule = Identity | Skip | AddTeiNamespace(tagName: Option<string>, extraAttrs: map<string, string>)

  /** A transformer: its `_transforms` table and its `_transform_text` hook. */
  datatype XmlTransformer = XmlTransformer(transforms: map<Key, Rule>, transformText: Option<string> -> Option<string>)

  /** `XMLTransformer()`: an empty table and the text hook that returns
      the text unchanged. */
  function DefaultTransformer(): (t: XmlTransformer)
    ensures t.transforms == map[] && forall s :: t.transformText(s) == s
  {
    XmlTransformer(map[], s => s)
  }

  /** lxml only has tags whose `tag[1:].split('}', 1)` has two parts when
      they hold a '}' at all. */
  predicate SplittableTag(tag: string)
  {
    '}' in tag ==> '}' in tag[1..]
  }

  predicate SplittableTags(e: Element)
    decreases e
  {
    SplittableTag(e.tag) && forall i :: 0 <= i < |e.children| ==> SplittableTags(e.children[i])
  }

  /** The lookup key of a tag: `{ns}local` gives (ns, local), a tag without
      '}' gives (None, tag). */
  function QName(tag: string): (r: Key)
    requires SplittableTag(tag)
  {
    if '}' in tag then
      var parts := PyStr.SplitOnce(tag[1..], '}');
      (Some(parts.0), parts.1)
    else (None, tag)
  }

  /** The tag in the TEI namespace with the given local name. */
  function TeiTag(localName: string): string
  {
    "{" + TeiNamespace + "}" + localName
  }

  /** `transform_node`: the table's rule for the node's key, else identity. */
  function TransformNode(t: XmlTransformer, node: Element): Option<Element>
    requires SplittableTags(node)
    decreases node, 2
  {
    var key := QName(node.tag);
    match if key in t.transforms then t.transforms[key] else Identity
    case Identity => Some(IdentityTransform(t, node))
    case Skip => None
    case AddTeiNamespace(tagName, extraAttrs) => Some(AddTeiNamespaceTransform(t, node, tagName, extraAttrs))
  }

  /** The results of the first `n` children that are not dropped, in order;
      each takes the child's tail, through the text hook when `hookTails`. */
  function Kept(t: XmlTransformer, node: Element, n: nat, hookTails: bool): (r: seq<Element>)
    requires SplittableTags(node) && n <= |node.children|
    ensures |r| <= n
    decreases node, 0, n
  {
    if n == 0 then []
    else
      var prev := Kept(t, node, n - 1, hookTails);
      var child := node.children[n - 1];
      match TransformNode(t, child)
      case None => prev
      case Some(c) => prev + [c.(tail := if hookTails then t.transformText(child.tail) else child.tail)]
  }

  /** `_identity_transform`: a fresh element with the node's tag and
      attributes, the hooked text, no tail, and the kept children. */
  function IdentityTransform(t: XmlTransformer, node: Element): Element
    requires SplittableTags(node)
    decreases node, 1
  {
    Element(node.tag, node.attrs, t.transformText(node.text), None, Kept(t, node, |node.children|, true), map[])
  }

  /** `_add_tei_namespace`: the element in the TEI namespace under the given
      or the node's own local name, the node's attributes overridden by the
      extra ones, the `tei` prefix added to the node's prefixes, the hooked
      text, the node's own tail, and the kept children with their tails
      unchanged. */
  function AddTeiNamespaceTransform(t: XmlTransformer, node: Element, tagName: Option<string>, extraAttrs: map<string, string>): Element
    requires SplittableTags(node)
    decreases node, 1
  {
    var localName := if tagName.Some? then tagName.value else QName(node.tag).1;
    Element(TeiTag(localName), node.attrs + extraAttrs, t.transformText(node.text), node.tail,
      Kept(t, node, |node.children|, false), node.nsmap["tei" := TeiNamespace])
  }

  // ---------------------------------------------------------------------
  // The walk as the source runs it

  /** `transform_node` */
  method TransformNodeWalk(t: XmlTransformer, node: Element) returns (result: Option<Element>)
    requires SplittableTags(node)
    ensures result == TransformNode(t, node)
    decreases node, 2
  {
    var key := QName(node.tag);
    var rule := if key in t.transforms then t.transforms[key] else Identity;
    match rule {
      case Identity =>
        var r := IdentityTransformWalk(t, node);
        result := Some(r);
      case Skip =>
        result := None;
      case AddTeiNamespace(tagName, extraAttrs) =>
        var r := AddTeiNamespaceWalk(t, node, tagName, extraAttrs);
        result := Some(r);
    }
  }

  /** The loop over the children: each child is transformed, and a result
      that is not None gets its tail and is appended. */
  method KeptWalk(t: XmlTransformer, node: Element, hookTails: bool) returns (kids: seq<Element>)
    requires SplittableTags(node)
    ensures kids == Kept(t, node, |node.children|, hookTails)
    decreases node, 0, |node.children| + 1
  {
    kids := [];
    var i := 0;
    while i < |node.children|
      invariant 0 <= i <= |node.children|
      invariant kids == Kept(t, node, i, hookTails)
    {
      var child := node.children[i];
      var transformedChild := TransformNodeWalk(t, child);
      if transformedChild.Some? {
        var tail := if hookTails then t.transformText(child.tail) else child.tail;
        kids := kids + [transformedChild.value.(tail := tail)];
      }
      i := i + 1;
    }
  }

  /** `_identity_transform` */
  method IdentityTransformWalk(t: XmlTransformer, node: Element) returns (newNode: Element)
    requires SplittableTags(node)
    ensures newNode == IdentityTransform(t, node)
    decreases node, 1
  {
    newNode := Element(node.tag, node.attrs, None, None, [], map[]);
    newNode := newNode.(text := t.transformText(node.text));
    var kids := KeptWalk(t, node, true);
    newNode := newNode.(children := kids);
  }

  /** `_add_tei_namespace` */
  method AddTeiNamespaceWalk(t: XmlTransformer, node: Element, tagName: Option<string>, extraAttrs: map<string, string>)
    returns (newNode: Element)
    requires SplittableTags(node)
    ensures newNode == AddTeiNamespaceTransform(t, node, tagName, extraAttrs)
    decreases node, 1
  {
    var localName := if tagName.Some? then tagName.value else QName(node.tag).1;
    var nsmap := node.nsmap;
    nsmap := nsmap["tei" := TeiNamespace];
    newNode := Element(TeiTag(localName), node.attrs + extraAttrs, None, None, [], nsmap);
    newNode := newNode.(text := t.transformText(node.text), tail := node.tail);
    var kids := KeptWalk(t, node, false);
    newNode := newNode.(children := kids);
  }

  /** `transform_file`: whether the output was written, and the tree
      written. An input that does not parse, or a root the transform drops
      (an empty tree cannot be written), gives False. */
  function TransformFile(t: XmlTransformer, input: Cache.FileContent): (r: (bool, Option<Element>))
    requires input.Parsable? ==> SplittableTags(input.root)
    ensures r.0 <==> r.1.Some?
    ensures input.Unparsable? ==> r == (false, None)
  {
    match input
    case Unparsable(_) => (false, None)
    case Parsable(root) =>
      match TransformNode(t, root)
      case None => (false, None)
      case Some(out) => (true, Some(out))
  }

  // ---------------------------------------------------------------------
  // Properties

  /** Clark notation is read back as its namespace and local name. */
  lemma QNameOfClark(ns: string, local: string)
    requires '}' !in ns
    ensures SplittableTag("{" + ns + "}" + local)
    ensures QName("{" + ns + "}" + local) == (Some(ns), local)
  {
    var tag := "{" + ns + "}" + local;
    assert tag[1..] == ns + "}" + local;
    assert tag[1 + |ns|] == '}';
    PyStr.SplitOnceOf(ns, local, '}');
    assert ns + "}" + local == ns + ['}'] + local;
  }

  /** An unqualified tag is looked up under (None, tag). */
  lemma QNameOfPlain(tag: string)
    requires '}' !in tag
    ensures QName(tag) == (None, tag)
  {
  }

  /** The dispatch: a node whose key the table does not hold is copied by
      the identity transform; a `Skip` rule drops it. */
  lemma TransformNodeDispatch(t: XmlTransformer, node: Element)
    requires SplittableTags(node)
    ensures QName(node.tag) !in t.transforms ==> TransformNode(t, node) == Some(IdentityTransform(t, node))
    ensures TransformNode(t, node).None? <==> (QName(node.tag) in t.transforms && t.transforms[QName(node.tag)] == Skip)
  {
  }

  /** A node whose rule is `AddTeiNamespace` lands in the TEI namespace
      with the extra attributes laid over its own, its prefixes plus `tei`,
      its hooked text and its own tail. */
  lemma AddTeiShape(t: XmlTransformer, node: Element, tagName: Option<string>, extraAttrs: map<string, string>)
    requires SplittableTags(node)
    requires QName(node.tag) in t.transforms && t.transforms[QName(node.tag)] == AddTeiNamespace(tagName, extraAttrs)
    ensures TransformNode(t, node).Some?
    ensures var r := TransformNode(t, node).value;
      && r.tag == TeiTag(if tagName.Some? then tagName.value else QName(node.tag).1)
      && r.attrs == node.attrs + extraAttrs && r.text == t.transformText(node.text)
      && r.tail == node.tail && r.nsmap == node.nsmap["tei" := TeiNamespace]
  {
  }

  /** The tree as the identity transform with the default hook rebuilds it:
      everything kept, except that the root has no tail and no element
      carries prefix declarations of its own. */
  function Copy(e: Element): Element
    decreases e, 1
  {
    Element(e.tag, e.attrs, e.text, None, CopyKids(e, |e.children|), map[])
  }

  function CopyKids(e: Element, n: nat): (r: seq<Element>)
    requires n <= |e.children|
    ensures |r| == n
    decreases e, 0, n
  {
    if n == 0 then [] else CopyKids(e, n - 1) + [Copy(e.children[n - 1]).(tail := e.children[n - 1].tail)]
  }

  /** With no rules and the default text hook, every element is copied. */
  lemma {:induction false} IdentityReproduces(t: XmlTransformer, node: Element)
    requires SplittableTags(node)
    requires t.transforms == map[] && forall s :: t.transformText(s) == s
    ensures TransformNode(t, node) == Some(Copy(node))
    decreases node, 1
  {
    KeptIsCopy(t, node, |node.children|);
  }

  lemma {:induction false} KeptIsCopy(t: XmlTransformer, node: Element, n: nat)
    requires SplittableTags(node) && n <= |node.children|
    requires t.transforms == map[] && forall s :: t.transformText(s) == s
    ensures Kept(t, node, n, true) == CopyKids(node, n)
    decreases node, 0, n
  {
    if n > 0 {
      KeptIsCopy(t, node, n - 1);
      var child := node.children[n - 1];
      IdentityReproduces(t, child);
      assert t.transformText(child.tail) == child.tail;
    }
  }

  /** The number of the first `n` children the transform drops. */
  function Dropped(t: XmlTransformer, node: Element, n: nat): nat
    requires SplittableTags(node) && n <= |node.children|
  {
    if n == 0 then 0
    else Dropped(t, node, n - 1) + (if TransformNode(t, node.children[n - 1]).None? then 1 else 0)
  }

  /** Each child either contributes one element to the output or is
      dropped; the output children are the kept results in order, so a
      child whose transform is None leaves no trace. */
  lemma {:induction false} KeptCount(t: XmlTransformer, node: Element, n: nat, hookTails: bool)
    requires SplittableTags(node) && n <= |node.children|
    ensures |Kept(t, node, n, hookTails)| + Dropped(t, node, n) == n
  {
    if n > 0 {
      KeptCount(t, node, n - 1, hookTails);
    }
  }

  /** A kept child's result is its transform's result with the child's own
      tail (hooked, for the identity transform). */
  lemma {:induction false} KeptTails(t: XmlTransformer, node: Element, n: nat, hookTails: bool, k: nat)
    requires SplittableTags(node) && n <= |node.children|
    requires k < |Kept(t, node, n, hookTails)|
    ensures exists j :: (0 <= j < n && TransformNode(t, node.children[j]).Some?
      && Kept(t, node, n, hookTails)[k]
         == TransformNode(t, node.children[j]).value.(tail := if hookTails then t.transformText(node.children[j].tail) else node.children[j].tail))
  {
    var prev := Kept(t, node, n - 1, hookTails);
    if k < |prev| {
      KeptTails(t, node, n - 1, hookTails, k);
    } else {
      assert TransformNode(t, node.children[n - 1]).Some?;
    }
  }
}
