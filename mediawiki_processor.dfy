/** The MediaWiki-to-XML processor: parsed wikitext nodes, the bounded
    recursive processing of nested templates, tags and wikilinks, the
    top-level pass that records warnings and errors, and the processor object
    whose handler tables, pre- and postprocessor lists and captured wikilinks
    change between calls. */
module MediaWikiProcessor {
  import opened Wrappers
  import PyStr
  import opened MediaWikiPreprocess
  import opened MediaWikiHandlers

  // ---------------------------------------------------------------------
  // Parsed wikitext
  // ---------------------------------------------------------------------

  /** A parsed node. `Text` stands for every node the processor passes through
      unchanged (text, comments, entities, headings, external links); `full`
      is the node's own wikitext, `str(node)`. */
  datatype Node =
    | Text(value: string)
    | Template(name: string, params: seq<Param>, full: string)
    | Tag(tag: string, attrs: seq<Attr>, contents: seq<Node>, full: string)
    | Wikilink(title: seq<Node>, text: seq<Node>, namespace: Option<string>, section: Option<string>,
               fragment: Option<string>, full: string)

  /** A template parameter; `showKey` is false for a positional one. */
  datatype Param = Param(name: string, value: seq<Node>, showKey: bool)

  function Full(n: Node): string
  {
    if n.Text? then n.value else n.full
  }

  /** `str(wikicode)`: the nodes' wikitext, one after the other. */
  function Source(nodes: seq<Node>): string
  {
    if |nodes| == 0 then "" else Full(nodes[0]) + Source(nodes[1..])
  }

  function NodeSize(n: Node): nat
    decreases n, 1
  {
    match n
    case Text(_) => 1
    case Template(_, params, _) => 1 + ParamsSize(params)
    case Tag(_, _, contents, _) => 1 + Size(contents)
    case Wikilink(title, text, _, _, _, _) => 1 + Size(title) + Size(text)
  }

  function Size(nodes: seq<Node>): nat
    decreases nodes, 0
  {
    if |nodes| == 0 then 0 else NodeSize(nodes[0]) + Size(nodes[1..])
  }

  function ParamsSize(params: seq<Param>): nat
    decreases params
  {
    if |params| == 0 then 0 else 1 + Size(params[0].value) + ParamsSize(params[1..])
  }

  /** The handler tables the nested processing consults. */
  datatype Handlers = Handlers(templates: map<string, TemplateHandler>, tags: map<string, TagHandler>)

  /** The key a template is looked up by: its stripped name. */
  function TemplateKey(name: string): string
  {
    PyStr.Strip(name)
  }

  /** The key a tag is looked up by: its stripped, lower-cased name. */
  function TagKey(tag: string): string
  {
    PyStr.Lower(PyStr.Strip(tag))
  }

  /** A template or tag that no handler answers. */
  predicate Unknown(h: Handlers, n: Node)
  {
    (n.Template? && TemplateKey(n.name) !in h.templates) || (n.Tag? && TagKey(n.tag) !in h.tags)
  }

  // ---------------------------------------------------------------------
  // Wikilinks
  // ---------------------------------------------------------------------

  /** What is captured for each processed wikilink. */
  datatype LinkInfo = LinkInfo(title: string, text: string, namespace: Option<string>,
                               section: Option<string>, fragment: Option<string>)

  /** `str(x) if x else None` */
  function Kept(o: Option<string>): (r: Option<string>)
    ensures r.Some? <==> Truthy(o)
  {
    if Truthy(o) then o else None
  }

  /** `<__link__ title=".." namespace=".." section=".." fragment="..">text</__link__>`,
      each attribute only when present. */
  function LinkXml(info: LinkInfo): string
  {
    var attrs := (if info.title != "" then [Quoted("title", info.title)] else [])
      + (if info.namespace.Some? then [Quoted("namespace", info.namespace.value)] else [])
      + (if info.section.Some? then [Quoted("section", info.section.value)] else [])
      + (if info.fragment.Some? then [Quoted("fragment", info.fragment.value)] else []);
    "<__link__" + AttrString(attrs) + ">" + info.text + "</__link__>"
  }

  /** The text processing produced (or the exception it raised), and the
      wikilinks captured on the way; links captured before an exception stay
      captured. */
  datatype Outcome = Outcome(text: Result<string, string>, links: seq<LinkInfo>)

  datatype ParamsOutcome = ParamsOutcome(args: Result<seq<Arg>, string>, links: seq<LinkInfo>)

  // ---------------------------------------------------------------------
  // Nested processing
  // ---------------------------------------------------------------------

  /** The recursion measure's depth part: it falls as the depth rises to the
      limit of 10. */
  function Bound(depth: nat): nat
  {
    if depth > 10 then 0 else 11 - depth
  }

  /** `_process_nested_content`: past depth 10 the content is returned as it
      is; below it, each node is processed in turn. */
  function NestedNodes(h: Handlers, nodes: seq<Node>, depth: nat): Outcome
    decreases Size(nodes), Bound(depth), 2
  {
    if depth > 10 then Outcome(Ok(Source(nodes)), []) else NestedSeq(h, nodes, depth)
  }

  /** The node loop of `_process_nested_content`; the first exception ends it. */
  function NestedSeq(h: Handlers, nodes: seq<Node>, depth: nat): Outcome
    requires depth <= 10
    decreases Size(nodes), Bound(depth), 1
  {
    if |nodes| == 0 then Outcome(Ok(""), [])
    else
      var first := NestedNode(h, nodes[0], depth);
      if first.text.Err? then first
      else
        var rest := NestedSeq(h, nodes[1..], depth);
        Outcome(if rest.text.Err? then rest.text else Ok(first.text.value + rest.text.value),
                first.links + rest.links)
  }

  /** One node of `_process_nested_content`. A known template or tag is
      handed to its handler after its parameters or contents are processed
      two levels deeper; if that raises, the handler is tried again on the
      unprocessed node, and an exception from the second try propagates. An
      unknown template or tag is processed again as wikitext one level
      deeper. A wikilink that fails keeps its wikitext. */
  function NestedNode(h: Handlers, node: Node, depth: nat): Outcome
    requires depth <= 10
    decreases NodeSize(node), Bound(depth), 0
  {
    match node
    case Text(t) => Outcome(Ok(t), [])
    case Template(name, params, _) =>
      if TemplateKey(name) in h.templates then
        var handler := h.templates[TemplateKey(name)];
        var pp := ProcessParams(h, params, depth + 2);
        var tried := if pp.args.Ok? then ApplyTemplate(handler, TemplateCall(name, pp.args.value)) else Err(pp.args.error);
        if tried.Ok? then Outcome(tried, pp.links)
        else Outcome(ApplyTemplate(handler, TemplateCall(name, RawArgs(params))), pp.links)
      else
        assert Size([node]) == NodeSize(node) by { SizeOfOne(node); }
        NestedNodes(h, [node], depth + 1)
    case Tag(tag, attrs, contents, _) =>
      if TagKey(tag) in h.tags then
        var handler := h.tags[TagKey(tag)];
        var pc := if Source(contents) != "" then NestedNodes(h, contents, depth + 2) else Outcome(Ok(""), []);
        var tried := if pc.text.Ok? then ApplyTag(handler, TagCall(tag, attrs, pc.text.value)) else Err(pc.text.error);
        if tried.Ok? then Outcome(tried, pc.links)
        else Outcome(ApplyTag(handler, TagCall(tag, attrs, Source(contents))), pc.links)
      else
        assert Size([node]) == NodeSize(node) by { SizeOfOne(node); }
        NestedNodes(h, [node], depth + 1)
    case Wikilink(_, _, _, _, _, full) =>
      var o := LinkOutcome(h, node);
      if o.text.Err? then Outcome(Ok(full), o.links) else o
  }

  /** `_process_template_with_nesting`: every parameter value processed at
      the given depth. */
  function ProcessParams(h: Handlers, params: seq<Param>, depth: nat): ParamsOutcome
    decreases ParamsSize(params), Bound(depth), 3
  {
    if |params| == 0 then ParamsOutcome(Ok([]), [])
    else
      var v := NestedNodes(h, params[0].value, depth);
      if v.text.Err? then ParamsOutcome(Err(v.text.error), v.links)
      else
        var rest := ProcessParams(h, params[1..], depth);
        var a := Arg(params[0].name, v.text.value, params[0].showKey);
        ParamsOutcome(if rest.args.Err? then rest.args else Ok([a] + rest.args.value), v.links + rest.links)
  }

  /** The parameters of an unprocessed template, as its handler sees them. */
  function RawArgs(params: seq<Param>): (r: seq<Arg>)
    ensures |r| == |params|
    ensures forall i :: 0 <= i < |params| ==> r[i] == Arg(params[i].name, Source(params[i].value), params[i].showKey)
  {
    if |params| == 0 then [] else [Arg(params[0].name, Source(params[0].value), params[0].showKey)] + RawArgs(params[1..])
  }

  /** `_handle_wikilink`: the link text (the title when there is none) is
      processed from depth 0, the link is captured, and the `__link__`
      element is built. */
  function LinkOutcome(h: Handlers, node: Node): Outcome
    requires node.Wikilink?
    decreases NodeSize(node), 0, 0
  {
    var textNodes := if Source(node.text) != "" then node.text else node.title;
    var inner := NestedNodes(h, textNodes, 0);
    if inner.text.Err? then inner
    else
      var info := LinkInfo(Source(node.title), inner.text.value, Kept(node.namespace), Kept(node.section),
                           Kept(node.fragment));
      Outcome(Ok(LinkXml(info)), inner.links + [info])
  }

  lemma SizeOfOne(n: Node)
    ensures Size([n]) == NodeSize(n)
  {
    assert [n][1..] == [];
  }

  lemma SourceOfOne(n: Node)
    ensures Source([n]) == Full(n)
  {
    assert [n][1..] == [];
  }

  lemma {:induction false} SourceSnoc(nodes: seq<Node>, n: Node)
    ensures Source(nodes + [n]) == Source(nodes) + Full(n)
  {
    if |nodes| == 0 {
      assert nodes + [n] == [n];
      SourceOfOne(n);
    } else {
      assert (nodes + [n])[1..] == nodes[1..] + [n];
      SourceSnoc(nodes[1..], n);
    }
  }

  /** An unknown template or tag is processed again as the same wikitext
      until the depth limit is passed, so it comes back unchanged, nothing
      inside it is processed and no link inside it is captured. */
  lemma {:induction false} UnknownKeptVerbatim(h: Handlers, node: Node, depth: nat)
    requires Unknown(h, node)
    ensures NestedNodes(h, [node], depth) == Outcome(Ok(Full(node)), [])
    decreases Bound(depth)
  {
    SourceOfOne(node);
    if depth <= 10 {
      UnknownKeptVerbatim(h, node, depth + 1);
      assert NestedNode(h, node, depth) == Outcome(Ok(Full(node)), []);
      assert [node][1..] == [];
      assert NestedSeq(h, [node][1..], depth) == Outcome(Ok(""), []);
      assert Full(node) + "" == Full(node);
    }
  }

  /** Plain text is passed through at every depth. */
  lemma {:induction false} NestedPlainText(h: Handlers, nodes: seq<Node>, depth: nat)
    requires forall i :: 0 <= i < |nodes| ==> nodes[i].Text?
    ensures NestedNodes(h, nodes, depth) == Outcome(Ok(Source(nodes)), [])
  {
    if depth <= 10 {
      PlainTextSeq(h, nodes, depth);
    }
  }

  lemma {:induction false} PlainTextSeq(h: Handlers, nodes: seq<Node>, depth: nat)
    requires depth <= 10
    requires forall i :: 0 <= i < |nodes| ==> nodes[i].Text?
    ensures NestedSeq(h, nodes, depth) == Outcome(Ok(Source(nodes)), [])
  {
    if |nodes| > 0 {
      PlainTextSeq(h, nodes[1..], depth);
    }
  }

  /** No handler a caller added: every handler is one the processor is built
      with, and none of those raises. */
  predicate BuiltinOnly(h: Handlers)
  {
    && (forall k :: k in h.templates ==> !IsCustomTemplate(h.templates[k]))
    && (forall k :: k in h.tags ==> !IsCustomTag(h.tags[k]))
  }

  /** With only built-in handlers, nested processing never raises. */
  lemma {:induction false} NestedNeverFails(h: Handlers, nodes: seq<Node>, depth: nat)
    requires BuiltinOnly(h)
    ensures NestedNodes(h, nodes, depth).text.Ok?
    decreases Size(nodes), Bound(depth), 2
  {
    if depth <= 10 {
      SeqNeverFails(h, nodes, depth);
    }
  }

  lemma {:induction false} SeqNeverFails(h: Handlers, nodes: seq<Node>, depth: nat)
    requires BuiltinOnly(h) && depth <= 10
    ensures NestedSeq(h, nodes, depth).text.Ok?
    decreases Size(nodes), Bound(depth), 1
  {
    if |nodes| > 0 {
      NodeNeverFails(h, nodes[0], depth);
      SeqNeverFails(h, nodes[1..], depth);
    }
  }

  lemma {:induction false} NodeNeverFails(h: Handlers, node: Node, depth: nat)
    requires BuiltinOnly(h) && depth <= 10
    ensures NestedNode(h, node, depth).text.Ok?
    decreases NodeSize(node), Bound(depth), 0
  {
    if Unknown(h, node) {
      SizeOfOne(node);
      NestedNeverFails(h, [node], depth + 1);
    } else if node.Template? {
      BuiltinTemplateSucceeds(h.templates[TemplateKey(node.name)], TemplateCall(node.name, RawArgs(node.params)));
    } else if node.Tag? {
      BuiltinTagSucceeds(h.tags[TagKey(node.tag)], TagCall(node.tag, node.attrs, Source(node.contents)));
    }
  }

  lemma BuiltinTemplateSucceeds(t: TemplateHandler, call: TemplateCall)
    requires !IsCustomTemplate(t)
    ensures ApplyTemplate(t, call).Ok?
  {
  }

  lemma BuiltinTagSucceeds(t: TagHandler, call: TagCall)
    requires !IsCustomTag(t)
    ensures ApplyTag(t, call).Ok?
  {
  }

  /** With only built-in handlers, processing a template's parameters never
      raises, and every parameter keeps its name and kind. */
  lemma {:induction false} ParamsNeverFail(h: Handlers, params: seq<Param>, depth: nat)
    requires BuiltinOnly(h)
    ensures ProcessParams(h, params, depth).args.Ok?
    ensures |ProcessParams(h, params, depth).args.value| == |params|
  {
    if |params| > 0 {
      NestedNeverFails(h, params[0].value, depth);
      ParamsNeverFail(h, params[1..], depth);
    }
  }

  /** With only built-in handlers, a wikilink is always converted. */
  lemma LinkNeverFails(h: Handlers, node: Node)
    requires BuiltinOnly(h) && node.Wikilink?
    ensures LinkOutcome(h, node).text.Ok?
  {
    NestedNeverFails(h, if Source(node.text) != "" then node.text else node.title, 0);
  }

  // ---------------------------------------------------------------------
  // The top-level pass
  // ---------------------------------------------------------------------

  /** What the top-level loop of `process_wikitext` makes of one node: the
      text that replaces it, the warning or the error it records, and the
      wikilinks captured. */
  datatype Step = Step(out: string, warning: Option<string>, error: Option<string>, links: seq<LinkInfo>)

  /** One node of the top-level loop. Parameters and contents are processed
      one level down and there is no second try: a handler that raises is
      recorded as an error and the node is kept. An unknown template or tag
      is recorded as a warning and kept. */
  function TopNode(h: Handlers, node: Node): (r: Step)
    ensures r.warning.Some? <==> Unknown(h, node)
    ensures (r.warning.Some? || r.error.Some?) ==> r.out == Full(node)
    ensures r.warning.Some? ==> r.error.None? && r.links == []
    ensures node.Text? ==> r == Step(node.value, None, None, [])
  {
    match node
    case Text(t) => Step(t, None, None, [])
    case Template(name, params, full) =>
      var key := TemplateKey(name);
      if key !in h.templates then Step(full, Some("Unknown template: " + key), None, [])
      else
        var pp := ProcessParams(h, params, 1);
        var x := if pp.args.Ok? then ApplyTemplate(h.templates[key], TemplateCall(name, pp.args.value)) else Err(pp.args.error);
        if x.Ok? then Step(x.value, None, None, pp.links)
        else Step(full, None, Some("Error processing template " + key + ": " + x.error), pp.links)
    case Tag(tag, attrs, contents, full) =>
      var key := TagKey(tag);
      if key !in h.tags then Step(full, Some("Unknown tag: " + key), None, [])
      else
        var pc := if Source(contents) != "" then NestedNodes(h, contents, 1) else Outcome(Ok(""), []);
        var x := if pc.text.Ok? then ApplyTag(h.tags[key], TagCall(tag, attrs, pc.text.value)) else Err(pc.text.error);
        if x.Ok? then Step(x.value, None, None, pc.links)
        else Step(full, None, Some("Error processing tag " + key + ": " + x.error), pc.links)
    case Wikilink(_, _, _, _, _, full) =>
      var o := LinkOutcome(h, node);
      if o.text.Ok? then Step(o.text.value, None, None, o.links)
      else Step(full, None, Some("Error processing wikilink: " + o.text.error), o.links)
  }

  function Listed(o: Option<string>): (r: seq<string>)
    ensures |r| == (if o.Some? then 1 else 0)
  {
    if o.Some? then [o.value] else []
  }

  /** The whole top-level pass, node after node. */
  datatype Pass = Pass(out: string, warnings: seq<string>, errors: seq<string>, links: seq<LinkInfo>)

  function TopAll(h: Handlers, nodes: seq<Node>): Pass
  {
    if |nodes| == 0 then Pass("", [], [], [])
    else
      var p := TopAll(h, nodes[..|nodes| - 1]);
      var s := TopNode(h, nodes[|nodes| - 1]);
      Pass(p.out + s.out, p.warnings + Listed(s.warning), p.errors + Listed(s.error), p.links + s.links)
  }

  /** The number of unknown templates and tags among the nodes. */
  function UnknownCount(h: Handlers, nodes: seq<Node>): nat
  {
    if |nodes| == 0 then 0 else (if Unknown(h, nodes[0]) then 1 else 0) + UnknownCount(h, nodes[1..])
  }

  lemma {:induction false} UnknownCountSnoc(h: Handlers, nodes: seq<Node>, n: Node)
    ensures UnknownCount(h, nodes + [n]) == UnknownCount(h, nodes) + (if Unknown(h, n) then 1 else 0)
  {
    if |nodes| == 0 {
      assert nodes + [n] == [n];
      assert [n][1..] == [];
    } else {
      assert (nodes + [n])[1..] == nodes[1..] + [n];
      UnknownCountSnoc(h, nodes[1..], n);
    }
  }

  /** One warning per unknown template or tag at the top level. */
  lemma {:induction false} WarningPerUnknown(h: Handlers, nodes: seq<Node>)
    ensures |TopAll(h, nodes).warnings| == UnknownCount(h, nodes)
  {
    if |nodes| > 0 {
      var init := nodes[..|nodes| - 1];
      WarningPerUnknown(h, init);
      UnknownCountSnoc(h, init, nodes[|nodes| - 1]);
      assert init + [nodes[|nodes| - 1]] == nodes;
    }
  }

  /** With only built-in handlers, the top-level pass records no error. */
  lemma {:induction false} BuiltinNoErrors(h: Handlers, nodes: seq<Node>)
    requires BuiltinOnly(h)
    ensures TopAll(h, nodes).errors == []
  {
    if |nodes| > 0 {
      BuiltinNoErrors(h, nodes[..|nodes| - 1]);
      TopNodeNoError(h, nodes[|nodes| - 1]);
    }
  }

  lemma TopNodeNoError(h: Handlers, node: Node)
    requires BuiltinOnly(h)
    ensures TopNode(h, node).error.None?
  {
    if node.Template? && TemplateKey(node.name) in h.templates {
      ParamsNeverFail(h, node.params, 1);
      var pp := ProcessParams(h, node.params, 1);
      BuiltinTemplateSucceeds(h.templates[TemplateKey(node.name)], TemplateCall(node.name, pp.args.value));
    } else if node.Tag? && TagKey(node.tag) in h.tags {
      NestedNeverFails(h, node.contents, 1);
      var pc := if Source(node.contents) != "" then NestedNodes(h, node.contents, 1) else Outcome(Ok(""), []);
      BuiltinTagSucceeds(h.tags[TagKey(node.tag)], TagCall(node.tag, node.attrs, pc.text.value));
    } else if node.Wikilink? {
      LinkNeverFails(h, node);
    }
  }

  /** Wikitext made only of plain text and unknown templates and tags comes
      out as it went in, with no error and no link. */
  lemma {:induction false} UnchangedPage(h: Handlers, nodes: seq<Node>)
    requires forall i :: 0 <= i < |nodes| ==> nodes[i].Text? || Unknown(h, nodes[i])
    ensures TopAll(h, nodes).out == Source(nodes)
    ensures TopAll(h, nodes).errors == [] && TopAll(h, nodes).links == []
  {
    if |nodes| > 0 {
      var init := nodes[..|nodes| - 1];
      UnchangedPage(h, init);
      SourceSnoc(init, nodes[|nodes| - 1]);
      assert init + [nodes[|nodes| - 1]] == nodes;
    }
  }

  // ---------------------------------------------------------------------
  // Pre- and postprocessing
  // ---------------------------------------------------------------------

  /** The preprocessors the processor is built with, and those callers add
      (which may raise). Metadata extraction leaves the content as it is. */
  datatype Preprocessor =
    | FixNoinclude
    | ParagraphBreaks
    | NormalizeSpace
    | SpecialCharacters
    | ExtractMetadata
    | CustomPre(f: string -> Result<string, string>)

  function ApplyPre(p: Preprocessor, s: string): Result<string, string>
  {
    match p
    case FixNoinclude => Ok(FixNoincludeLineBreaks(s))
    case ParagraphBreaks => Ok(ConvertParagraphBreaks(s))
    case NormalizeSpace => Ok(NormalizeWhitespace(s))
    case SpecialCharacters => Ok(EscapeAmpersands(s))
    case ExtractMetadata => Ok(s)
    case CustomPre(f) => f(s)
  }

  /** The preprocessors in order; the first exception ends the run. */
  function Preprocess(ps: seq<Preprocessor>, s: string): Result<string, string>
  {
    if |ps| == 0 then Ok(s)
    else match ApplyPre(ps[0], s)
      case Err(e) => Err(e)
      case Ok(t) => Preprocess(ps[1..], t)
  }

  /** The postprocessors the processor is built with (both leave the content
      as it is), and those callers add. */
  datatype Postprocessor =
    | ValidateXmlStructure
    | FinalizeMetadata
    | CustomPost(f: string -> Result<string, string>)

  function ApplyPost(p: Postprocessor, s: string): Result<string, string>
  {
    match p
    case ValidateXmlStructure => Ok(s)
    case FinalizeMetadata => Ok(s)
    case CustomPost(f) => f(s)
  }

  function Postprocess(ps: seq<Postprocessor>, s: string): Result<string, string>
  {
    if |ps| == 0 then Ok(s)
    else match ApplyPost(ps[0], s)
      case Err(e) => Err(e)
      case Ok(t) => Postprocess(ps[1..], t)
  }

  function DefaultPreprocessors(): seq<Preprocessor>
  {
    [FixNoinclude, ParagraphBreaks, NormalizeSpace, SpecialCharacters, ExtractMetadata]
  }

  function DefaultPostprocessors(): seq<Postprocessor>
  {
    [ValidateXmlStructure, FinalizeMetadata]
  }

  function DefaultHandlers(): Handlers
  {
    Handlers(BuiltinTemplates(), BuiltinTags())
  }

  /** Line breaks after `</noinclude>`, then paragraph marks, then single
      spaces and newlines, then escaped ampersands. */
  function DefaultPreprocessed(w: string): string
  {
    EscapeAmpersands(NormalizeWhitespace(ConvertParagraphBreaks(FixNoincludeLineBreaks(w))))
  }

  /** The built-in preprocessors run in a fixed order and cannot fail; the
      built-in postprocessors change nothing. */
  lemma DefaultPipeline(w: string, x: string)
    ensures Preprocess(DefaultPreprocessors(), w) == Ok(DefaultPreprocessed(w))
    ensures Postprocess(DefaultPostprocessors(), x) == Ok(x)
  {
    var ps := DefaultPreprocessors();
    var a := FixNoincludeLineBreaks(w);
    var b := ConvertParagraphBreaks(a);
    var c := NormalizeWhitespace(b);
    var d := EscapeAmpersands(c);
    assert Preprocess(ps[5..], d) == Ok(d);
    assert Preprocess(ps[4..], d) == Ok(d);
    assert Preprocess(ps[3..], c) == Ok(d);
    assert Preprocess(ps[2..], b) == Ok(d);
    assert Preprocess(ps[1..], a) == Ok(d);
    var qs := DefaultPostprocessors();
    assert Postprocess(qs[1..], x) == Ok(x);
  }

  lemma DefaultHandlersBuiltin()
    ensures BuiltinOnly(DefaultHandlers())
  {
    forall k | k in BuiltinTemplates()
      ensures !IsCustomTemplate(BuiltinTemplates()[k])
    {
      BuiltinTemplatesNeverFail(k, TemplateCall(k, []));
    }
    forall k | k in BuiltinTags()
      ensures !IsCustomTag(BuiltinTags()[k])
    {
      BuiltinTagsNeverFail(k, TagCall(k, [], ""));
    }
  }

  // ---------------------------------------------------------------------
  // A whole conversion
  // ---------------------------------------------------------------------

  /** The result of `process_wikitext`; metadata is always empty and is
      left out. */
  datatype ConversionResult = ConversionResult(xml: string, warnings: seq<string>, errors: seq<string>,
                                               wikilinks: seq<LinkInfo>)

  /** A conversion's result and the processor's captured wikilinks after it. */
  datatype Run = Run(result: ConversionResult, links: seq<LinkInfo>)

  const FatalPrefix := "Fatal error in processing: "
  const EmptyDocument := "<mediawiki></mediawiki>"

  /** `process_wikitext` on a processor with these handlers, processors and
      captured links; `parse` stands for the wikitext parser. An exception in
      pre- or postprocessing or in parsing is fatal: the empty document, the
      warnings and errors so far plus the fatal one, and no links in the
      result, although the processor keeps the links it captured. */
  function Convert(h: Handlers, pres: seq<Preprocessor>, posts: seq<Postprocessor>,
                   parse: string -> Result<seq<Node>, string>, wikitext: string, links: seq<LinkInfo>): Run
  {
    match Preprocess(pres, wikitext)
    case Err(e) => Run(ConversionResult(EmptyDocument, [], [FatalPrefix + e], []), links)
    case Ok(content) =>
      match parse(content)
      case Err(e) => Run(ConversionResult(EmptyDocument, [], [FatalPrefix + e], []), links)
      case Ok(nodes) =>
        var p := TopAll(h, nodes);
        match Postprocess(posts, p.out)
        case Err(e) => Run(ConversionResult(EmptyDocument, p.warnings, p.errors + [FatalPrefix + e], []), links + p.links)
        case Ok(xml) =>
          Run(ConversionResult("<mediawiki>" + xml + "</mediawiki>", p.warnings, p.errors, links + p.links), links + p.links)
  }

  /** Every result is a `<mediawiki>` document. */
  lemma ConvertWrapped(h: Handlers, pres: seq<Preprocessor>, posts: seq<Postprocessor>,
                       parse: string -> Result<seq<Node>, string>, wikitext: string, links: seq<LinkInfo>)
    ensures var x := Convert(h, pres, posts, parse, wikitext, links).result.xml;
      PyStr.StartsWith(x, "<mediawiki>") && PyStr.EndsWith(x, "</mediawiki>")
  {
    var x := Convert(h, pres, posts, parse, wikitext, links).result.xml;
    assert x[..11] == "<mediawiki>" && x[|x| - 12..] == "</mediawiki>";
  }

  /** The links captured before are never lost, and the result lists every
      captured link unless the conversion failed, in which case it lists
      none, the document is empty and the last error is the fatal one. */
  lemma ConvertKeepsLinks(h: Handlers, pres: seq<Preprocessor>, posts: seq<Postprocessor>,
                          parse: string -> Result<seq<Node>, string>, wikitext: string, links: seq<LinkInfo>)
    ensures var c := Convert(h, pres, posts, parse, wikitext, links);
      |links| <= |c.links| && c.links[..|links|] == links
    ensures var c := Convert(h, pres, posts, parse, wikitext, links);
      c.result.wikilinks == c.links || (c.result.wikilinks == [] && c.result.xml == EmptyDocument
        && |c.result.errors| > 0 && PyStr.StartsWith(c.result.errors[|c.result.errors| - 1], FatalPrefix))
  {
    var c := Convert(h, pres, posts, parse, wikitext, links);
    if c.result.wikilinks != c.links {
      var e := c.result.errors[|c.result.errors| - 1];
      assert e[..|FatalPrefix|] == FatalPrefix;
    }
  }

  /** With built-in handlers, processors and postprocessors, parsed wikitext
      converts without an error, with one warning per unknown top-level
      template or tag, to the processed nodes inside `<mediawiki>`. */
  lemma BuiltinConversion(h: Handlers, parse: string -> Result<seq<Node>, string>, wikitext: string,
                          links: seq<LinkInfo>, nodes: seq<Node>)
    requires BuiltinOnly(h)
    requires Preprocess(DefaultPreprocessors(), wikitext).Ok?
    requires parse(Preprocess(DefaultPreprocessors(), wikitext).value) == Ok(nodes)
    ensures var c := Convert(h, DefaultPreprocessors(), DefaultPostprocessors(), parse, wikitext, links);
      c.result.errors == [] && |c.result.warnings| == UnknownCount(h, nodes)
      && c.result.xml == "<mediawiki>" + TopAll(h, nodes).out + "</mediawiki>"
      && c.result.wikilinks == c.links == links + TopAll(h, nodes).links
  {
    DefaultPipeline(wikitext, TopAll(h, nodes).out);
    BuiltinNoErrors(h, nodes);
    WarningPerUnknown(h, nodes);
  }

  /** A page of plain text, through `process_page`: the preprocessed text
      inside `<mediawiki>`, no warning, no error, no link. */
  lemma PlainTextPage(parse: string -> Result<seq<Node>, string>, page: string, nodes: seq<Node>)
    requires parse(DefaultPreprocessed(page)) == Ok(nodes)
    requires forall i :: 0 <= i < |nodes| ==> nodes[i].Text?
    requires Source(nodes) == DefaultPreprocessed(page)
    ensures Convert(DefaultHandlers(), DefaultPreprocessors(), DefaultPostprocessors(), parse, page, []).result
      == ConversionResult("<mediawiki>" + Source(nodes) + "</mediawiki>", [], [], [])
  {
    var h := DefaultHandlers();
    DefaultPipeline(page, Source(nodes));
    DefaultHandlersBuiltin();
    BuiltinConversion(h, parse, page, [], nodes);
    UnchangedPage(h, nodes);
    NoUnknown(h, nodes);
    var c := Convert(h, DefaultPreprocessors(), DefaultPostprocessors(), parse, page, []);
    assert c.result.warnings == [];
    assert c.result.wikilinks == [];
  }

  lemma {:induction false} NoUnknown(h: Handlers, nodes: seq<Node>)
    requires forall i :: 0 <= i < |nodes| ==> nodes[i].Text?
    ensures UnknownCount(h, nodes) == 0
  {
    if |nodes| > 0 {
      NoUnknown(h, nodes[1..]);
    }
  }

  // ---------------------------------------------------------------------
  // The processor object
  // ---------------------------------------------------------------------

  /** `MediaWikiProcessor`: the handler tables and processor lists callers
      may extend, and the wikilinks captured by every conversion since the
      last clearing. */
  class Processor {
    var templateHandlers: map<string, TemplateHandler>
    var tagHandlers: map<string, TagHandler>
    var preprocessors: seq<Preprocessor>
    var postprocessors: seq<Postprocessor>
    var wikilinks: seq<LinkInfo>

    constructor()
      ensures Tables() == DefaultHandlers()
      ensures preprocessors == DefaultPreprocessors() && postprocessors == DefaultPostprocessors()
      ensures wikilinks == []
    {
      templateHandlers := BuiltinTemplates();
      tagHandlers := BuiltinTags();
      preprocessors := DefaultPreprocessors();
      postprocessors := DefaultPostprocessors();
      wikilinks := [];
    }

    function Tables(): Handlers
      reads this
    {
      Handlers(templateHandlers, tagHandlers)
    }

    /** `add_template_handler`: a handler for the name, replacing any other. */
    method AddTemplateHandler(name: string, handler: TemplateHandler)
      modifies this
      ensures templateHandlers == old(templateHandlers)[name := handler]
      ensures tagHandlers == old(tagHandlers) && wikilinks == old(wikilinks)
      ensures preprocessors == old(preprocessors) && postprocessors == old(postprocessors)
    {
      templateHandlers := templateHandlers[name := handler];
    }

    /** `add_tag_handler` */
    method AddTagHandler(name: string, handler: TagHandler)
      modifies this
      ensures tagHandlers == old(tagHandlers)[name := handler]
      ensures templateHandlers == old(templateHandlers) && wikilinks == old(wikilinks)
      ensures preprocessors == old(preprocessors) && postprocessors == old(postprocessors)
    {
      tagHandlers := tagHandlers[name := handler];
    }

    /** `add_preprocessor`: runs after the others. */
    method AddPreprocessor(f: string -> Result<string, string>)
      modifies this
      ensures preprocessors == old(preprocessors) + [CustomPre(f)]
      ensures Tables() == old(Tables()) && wikilinks == old(wikilinks) && postprocessors == old(postprocessors)
    {
      preprocessors := preprocessors + [CustomPre(f)];
    }

    /** `add_postprocessor`: runs after the others. */
    method AddPostprocessor(f: string -> Result<string, string>)
      modifies this
      ensures postprocessors == old(postprocessors) + [CustomPost(f)]
      ensures Tables() == old(Tables()) && wikilinks == old(wikilinks) && preprocessors == old(preprocessors)
    {
      postprocessors := postprocessors + [CustomPost(f)];
    }

    /** `get_wikilinks`: a copy of the captured links. */
    method GetWikilinks() returns (r: seq<LinkInfo>)
      ensures r == wikilinks
    {
      r := wikilinks;
    }

    /** `clear_wikilinks` */
    method ClearWikilinks()
      modifies this
      ensures wikilinks == []
      ensures Tables() == old(Tables()) && preprocessors == old(preprocessors) && postprocessors == old(postprocessors)
    {
      wikilinks := [];
    }

    /** `process_wikitext`: preprocess, parse, replace the top-level nodes
        (capturing wikilinks on the way), postprocess, and wrap. */
    method ProcessWikitext(parse: string -> Result<seq<Node>, string>, wikitext: string) returns (r: ConversionResult)
      modifies this
      ensures Run(r, wikilinks)
        == Convert(old(Tables()), old(preprocessors), old(postprocessors), parse, wikitext, old(wikilinks))
      ensures Tables() == old(Tables()) && preprocessors == old(preprocessors) && postprocessors == old(postprocessors)
    {
      var h := Tables();
      var pre := RunPreprocessors(preprocessors, wikitext);
      if pre.Err? {
        r := ConversionResult(EmptyDocument, [], [FatalPrefix + pre.error], []);
        return;
      }
      var parsed := parse(pre.value);
      if parsed.Err? {
        r := ConversionResult(EmptyDocument, [], [FatalPrefix + parsed.error], []);
        return;
      }
      var p := RunTopPass(h, parsed.value);
      wikilinks := wikilinks + p.links;
      var post := RunPostprocessors(postprocessors, p.out);
      if post.Err? {
        r := ConversionResult(EmptyDocument, p.warnings, p.errors + [FatalPrefix + post.error], []);
        return;
      }
      r := ConversionResult("<mediawiki>" + post.value + "</mediawiki>", p.warnings, p.errors, wikilinks);
    }
  }

  /** The preprocessor loop of `process_wikitext`. */
  method RunPreprocessors(pres: seq<Preprocessor>, wikitext: string) returns (r: Result<string, string>)
    ensures r == Preprocess(pres, wikitext)
  {
    var content := wikitext;
    var i := 0;
    while i < |pres|
      invariant 0 <= i <= |pres|
      invariant Preprocess(pres[i..], content) == Preprocess(pres, wikitext)
    {
      assert pres[i..][1..] == pres[i + 1..];
      var step := ApplyPre(pres[i], content);
      if step.Err? {
        return Err(step.error);
      }
      content := step.value;
      i := i + 1;
    }
    r := Ok(content);
  }

  /** The node loop of `process_wikitext`: each node's replacement, warning,
      error and captured links, in document order. */
  method RunTopPass(h: Handlers, nodes: seq<Node>) returns (p: Pass)
    ensures p == TopAll(h, nodes)
  {
    p := Pass("", [], [], []);
    var j := 0;
    while j < |nodes|
      invariant 0 <= j <= |nodes|
      invariant p == TopAll(h, nodes[..j])
    {
      var s := TopNode(h, nodes[j]);
      p := Pass(p.out + s.out, p.warnings + Listed(s.warning), p.errors + Listed(s.error), p.links + s.links);
      assert nodes[..j + 1][..j] == nodes[..j];
      j := j + 1;
    }
    assert nodes[..j] == nodes;
  }

  /** The postprocessor loop of `process_wikitext`. */
  method RunPostprocessors(posts: seq<Postprocessor>, content: string) returns (r: Result<string, string>)
    ensures r == Postprocess(posts, content)
  {
    var xml := content;
    var k := 0;
    while k < |posts|
      invariant 0 <= k <= |posts|
      invariant Postprocess(posts[k..], xml) == Postprocess(posts, content)
    {
      assert posts[k..][1..] == posts[k + 1..];
      var step := ApplyPost(posts[k], xml);
      if step.Err? {
        return Err(step.error);
      }
      xml := step.value;
      k := k + 1;
    }
    r := Ok(xml);
  }

  /** `process_page`: a conversion by a new processor. */
  method ProcessPage(parse: string -> Result<seq<Node>, string>, page: string) returns (r: ConversionResult)
    ensures r == Convert(DefaultHandlers(), DefaultPreprocessors(), DefaultPostprocessors(), parse, page, []).result
  {
    var p := new Processor();
    r := p.ProcessWikitext(parse, page);
  }
}
