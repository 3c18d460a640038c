/** The transclusion compiler (`CompilerProcessor` and its External and
    Inline variants) as functions: each processor's walk over an element tree,
    with the top processing-context frame threaded through explicitly. The
    walks that mutate the shared frame in place are in module `CompilerWalk`,
    which is proved to compute these functions.

    Files are read from a file system value (`Env.fs`); since every cached
    tree is the parse of its file, reading through the cache and reading the
    disk give the same trees. The URN resolver's database is `Env.rows`, and
    `Env.priority` is the linear data's `project_priority`. */
module Compiler {
  import opened Wrappers
  import opened Xml
  import opened Linear
  import PyStr
  import Cache
  import RefDb
  import Urn

  const JlpteiNamespace: string := "http://jewishliturgy.org/ns/jlptei/2"
  const ProcessingNamespace: string := "http://jewishliturgy.org/ns/processing"

  /** `{JLPTEI}transclude` in Clark notation, as lxml reports the tag. */
  const TranscludeTag: string := "{http://jewishliturgy.org/ns/jlptei/2}transclude"
  /** The element a transclusion becomes (`p:transclude`). */
  const ProcessingTranscludeTag: string := "{http://jewishliturgy.org/ns/processing}transclude"
  /** The text carrier the inline walk returns for every element. */
  const TranscludeInlineTag: string := "{http://jewishliturgy.org/ns/processing}transcludeInline"
  /** The wrapper the external walk returns. */
  const TransclusionTag: string := "__TRANSCLUSION__"

  datatype Env = Env(fs: Cache.FileSystem, basePath: Cache.Path, rows: seq<RefDb.MappingRow>, priority: seq<string>)

  /** `ns_map`: the root's namespace map with `p` bound to the processing
      namespace. */
  function NsMapOf(root: Element): (r: map<string, string>)
    ensures r.Keys == root.nsmap.Keys + {"p"} && r["p"] == ProcessingNamespace
    ensures forall k :: k in root.nsmap && k != "p" ==> r[k] == root.nsmap[k]
  {
    root.nsmap["p" := ProcessingNamespace]
  }

  /** The root tree of a processor: `parse_xml(project, file_name).getroot()`. */
  function LoadRoot(env: Env, project: string, fileName: string): Result<Element, PyError>
  {
    Cache.ParseFromDisk(env.fs, env.basePath, project, fileName)
  }

  // ---------------------------------------------------------------------
  // Start and end of a transclusion

  /** Python's `repr` of a string without quotes or backslashes in it. */
  function Repr(s: string): string
  {
    "'" + s + "'"
  }

  function ReprList(s: seq<string>): string
  {
    "[" + PyStr.Join(seq(|s|, i requires 0 <= i < |s| => Repr(s[i])), ", ") + "]"
  }

  function ToCandidate(x: Urn.Resolution): Urn.Candidate
  {
    match x
    case Single(u) => Urn.UrnCandidate(u)
    case Range(r) => Urn.RangeCandidate(r)
  }

  /** The resolver's results as `prioritize_range` sees them. */
  function Candidates(rs: seq<Urn.Resolution>): (r: seq<Urn.Candidate>)
    ensures |r| == |rs| && forall i :: 0 <= i < |rs| ==> r[i] == ToCandidate(rs[i])
    ensures forall c :: c in r ==> !c.ReferenceCandidate?
  {
    seq(|rs|, i requires 0 <= i < |rs| => ToCandidate(rs[i]))
  }

  /** `_get_start_and_end_from_ranges`: resolve the target and take the
      best-priority hit; a range gives start and end, and may not be combined
      with `targetEnd`; a single URN is the start, and the end is either the
      start or `targetEnd` resolved within the start's project. */
  function StartAndEnd(rows: seq<RefDb.MappingRow>, priority: seq<string>, target: string, targetEnd: Option<string>): Result<Urn.ResolvedUrnRange, PyError>
  {
    var hits := Urn.ResolveRangeSpec(rows, target);
    if hits == [] then Err(ValueError("Target URN target=" + Repr(target) + " not found"))
    else
      var items := Candidates(hits);
      match Urn.PrioritizeRange(items, priority, false)
      case None => Err(ValueError("No prioritized URNs found: target=" + Repr(target) + " project_priority=" + ReprList(priority)))
      case Some(best) =>
        Urn.PrioritizeRangeBest(items, priority);
        match best.best
        case RangeCandidate(range) =>
          if targetEnd.Some? then
            Err(ValueError("If target target=" + Repr(target) + " is a range, target_end target_end=" + Repr(targetEnd.value) + " cannot be provided"))
          else Ok(range)
        case UrnCandidate(start) =>
          if targetEnd.None? then Ok(Urn.ResolvedUrnRange(start, start))
          else EndInStartFile(rows, start, targetEnd.value)
  }

  /** The `targetEnd` half: resolved within the start's project only, and
      required to be in the start's file; a range there has no `file_name`. */
  function EndInStartFile(rows: seq<RefDb.MappingRow>, start: Urn.ResolvedUrn, targetEnd: string): Result<Urn.ResolvedUrnRange, PyError>
  {
    var hits := Urn.ResolveRangeSpec(rows, targetEnd);
    if hits == [] then Err(ValueError("Target URN target_end=" + Repr(targetEnd) + " not found"))
    else
      var items := Candidates(hits);
      match Urn.PrioritizeRange(items, [start.project], false)
      case None => Err(ValueError("No prioritized URNs found: target_end=" + Repr(targetEnd) + " in project " + start.project))
      case Some(best) =>
        Urn.PrioritizeRangeBest(items, [start.project]);
        match best.best
        case RangeCandidate(_) => Err(AttributeError("file_name"))
        case UrnCandidate(end) =>
          if start.fileName != end.fileName then
            Err(ValueError("In a range, the start and end of a range must be in the same file: start.file_name="
              + Repr(start.fileName) + " != end.file_name=" + Repr(end.fileName)))
          else Ok(Urn.ResolvedUrnRange(start, end))
  }

  // ---------------------------------------------------------------------
  // Recognising a transclusion

  /** As written, the guard compares the Clark-notation tag with the bare
      local name and then reads `element.namespace`, which lxml elements do
      not have: a namespaced `transclude` is never recognised, and an
      element whose tag is the bare `transclude` raises. */
  function IsTranscludeAsWritten(e: Element): (r: Result<bool, PyError>)
    ensures r.Ok? <==> e.tag != "transclude"
    ensures r != Ok(true)
  {
    if e.tag == "transclude" then Err(AttributeError("namespace")) else Ok(false)
  }

  /** The intended guard: a `transclude` element in the JLPTEI namespace. */
  predicate IsTransclude(e: Element)
  {
    e.tag == TranscludeTag
  }

  /** As written, the output element is created from the prefixed name
      `p:transclude`, which lxml refuses as a tag name. */
  function ProcessingElementAsWritten(attrs: map<string, string>, nsMap: map<string, string>): (r: Result<Element, PyError>)
    ensures r.Err? && r.error.ValueError?
  {
    Err(ValueError("Invalid tag name 'p:transclude'"))
  }

  /** The intended element: `transclude` in the namespace the map binds `p` to. */
  function ProcessingElement(attrs: map<string, string>, nsMap: map<string, string>): (r: Element)
    ensures r.tag == ProcessingTranscludeTag && r.attrs == attrs && r.tail.None?
  {
    Element(ProcessingTranscludeTag, attrs, None, None, [], nsMap)
  }

  /** No element of the tree is a transclusion. */
  predicate NoTransclusion(e: Element)
    decreases e
  {
    !IsTransclude(e) && forall i :: 0 <= i < |e.children| ==> NoTransclusion(e.children[i])
  }

  // ---------------------------------------------------------------------
  // The base processor: an identity copy

  /** The frame `process` pushes in the base processor. */
  const BaseFrame: Context := Context(None, None, false, false, Some(false), CopyAndRecurse)

  /** A child's result with the child's tail taken over when it is non-empty. */
  function WithTail(processed: Element, child: Element): Element
  {
    if Truthy(child.tail) then processed.(tail := child.tail) else processed
  }

  function BaseElement(env: Env, nsMap: map<string, string>, fuel: nat, e: Element): Result<Element, PyError>
    decreases fuel, e, 2, 0
  {
    match Transclude(env, nsMap, fuel, e, None)
    case Err(x) => Err(x)
    case Ok(t) =>
      if t.Some? && ElementTruthy(t.value) then Ok(t.value)
      else match BaseChildren(env, nsMap, fuel, e, 0, [])
        case Err(x) => Err(x)
        case Ok(kids) => Ok(Element(e.tag, e.attrs, e.text, None, kids, nsMap))
  }

  function BaseChildren(env: Env, nsMap: map<string, string>, fuel: nat, e: Element, i: nat, acc: seq<Element>): Result<seq<Element>, PyError>
    requires i <= |e.children|
    decreases fuel, e, 1, |e.children| - i
  {
    if i == |e.children| then Ok(acc)
    else
      var child := e.children[i];
      match BaseElement(env, nsMap, fuel, child)
      case Err(x) => Err(x)
      case Ok(processed) => BaseChildren(env, nsMap, fuel, e, i + 1, acc + [WithTail(processed, child)])
  }

  /** `CompilerProcessor(project, file_name).process()`. */
  function BaseProcess(env: Env, fuel: nat, project: string, fileName: string): Result<Element, PyError>
  {
    match LoadRoot(env, project, fileName)
    case Err(x) => Err(x)
    case Ok(root) => BaseElement(env, NsMapOf(root), fuel, root)
  }

  // ---------------------------------------------------------------------
  // Transclusion

  /** The attributes of the `p:transclude` element. */
  function TranscludeAttrs(target: string, targetEnd: Option<string>, kind: string): (r: map<string, string>)
    ensures "target" in r && r["target"] == target && "type" in r && r["type"] == kind
    ensures "targetEnd" in r <==> Truthy(targetEnd)
    ensures Truthy(targetEnd) ==> r["targetEnd"] == targetEnd.value
    ensures r.Keys <= {"target", "targetEnd", "type"}
  {
    if Truthy(targetEnd) then map["target" := target, "targetEnd" := targetEnd.value, "type" := kind]
    else map["target" := target, "type" := kind]
  }

  /** The type of a transclusion: the override when one is given, else the
      element's own `type`. */
  function TranscludeType(e: Element, typeOverride: Option<string>): Option<string>
  {
    if Truthy(typeOverride) then typeOverride else GetOpt(e, "type")
  }

  /** `_transclude`: None for an element that is not a transclusion; otherwise
      the `p:transclude` element holding what the external or inline walk of
      the target range produced. lxml refuses a `None` attribute value, so a
      missing `target` or type raises. Python's recursion limit is `fuel`. */
  function Transclude(env: Env, nsMap: map<string, string>, fuel: nat, e: Element, typeOverride: Option<string>): Result<Option<Element>, PyError>
    decreases fuel, e, 0, 0
  {
    if !IsTransclude(e) then Ok(None)
    else
      var target := GetOpt(e, "target");
      var targetEnd := GetOpt(e, "targetEnd");
      var kind := TranscludeType(e, typeOverride);
      if target.None? || kind.None? then Err(TypeError)
      else
        var shell := ProcessingElement(TranscludeAttrs(target.value, targetEnd, kind.value), nsMap);
        match StartAndEnd(env.rows, env.priority, target.value, targetEnd)
        case Err(x) => Err(x)
        case Ok(range) =>
          if kind.value == "external" then
            match ExternalProcess(env, range.start.project, range.start.fileName, range.start.urn, range.end.urn)
            case Err(x) => Err(x)
            case Ok(wrapper) => Ok(Some(shell.(children := wrapper.children)))
          else if fuel == 0 then Err(RecursionError)
          else
            match InlineProcess(env, fuel - 1, range.start.project, range.start.fileName, range.start.urn, range.end.urn)
            case Err(x) => Err(x)
            case Ok(inline) => Ok(Some(shell.(text := inline.text, children := inline.children)))
  }

  // ---------------------------------------------------------------------
  // The inline processor

  /** `corresp == target or (target.startswith('#') and xml_id == target[1:])`. */
  predicate InlineAnchor(target: string, corresp: string, xmlId: string)
  {
    corresp == target || (PyStr.StartsWith(target, "#") && xmlId == target[1..])
  }

  /** The inline walk reads `xml:id` under lxml's own key. */
  predicate InlineIsStart(fromStart: string, e: Element)
  {
    var corresp := Get(e, "corresp", "");
    var xmlId := Get(e, XmlIdKey, "");
    (corresp != "" || xmlId != "") && InlineAnchor(fromStart, corresp, xmlId)
  }

  predicate InlineIsEnd(toEnd: string, e: Element)
  {
    InlineAnchor(toEnd, Get(e, "corresp", ""), Get(e, XmlIdKey, ""))
  }

  /** `_update_processing_context_before` of the inline walk, with the
      command it returns stored in the frame as `_process_element` does. */
  function InlineBefore(fromStart: string, ctx: Context, e: Element): (r: Context)
    ensures r.afterEnd == ctx.afterEnd && r.insideDca == ctx.insideDca
    ensures r.fromStart == ctx.fromStart && r.toEnd == ctx.toEnd
    ensures ctx.afterEnd ==> r == ctx.(command := Skip)
    ensures r.command != Skip ==> r.command in {Recurse, CopyTextAndRecurse}
    ensures !ctx.afterEnd ==> (r.beforeStart <==> ctx.beforeStart && !InlineIsStart(fromStart, e))
    ensures !ctx.afterEnd ==> (r.command == Recurse <==> r.beforeStart)
  {
    if ctx.afterEnd then ctx.(command := Skip)
    else if InlineIsStart(fromStart, e) then ctx.(beforeStart := false, command := CopyTextAndRecurse)
    else if ctx.beforeStart then ctx.(command := Recurse)
    else ctx.(command := CopyTextAndRecurse)
  }

  /** `_update_processing_context_after` of the inline walk: the end is
      recognised once its subtree has been walked. */
  function InlineAfter(toEnd: string, ctx: Context, e: Element): (r: Context)
    ensures r.afterEnd <==> ctx.afterEnd || (!ctx.beforeStart && InlineIsEnd(toEnd, e))
    ensures r == ctx.(afterEnd := r.afterEnd)
  {
    if !ctx.beforeStart && !ctx.afterEnd && InlineIsEnd(toEnd, e) then ctx.(afterEnd := true)
    else ctx
  }

  /** The text carrier the inline walk starts every element with. */
  function EmptyInline(nsMap: map<string, string>): Element
  {
    Element(TranscludeInlineTag, map[], Some(""), None, [], nsMap)
  }

  /** The locals of the inline children loop: the frame, the text gathered so
      far and the elements appended so far; `previous_child` is the last of
      these, when there is one. */
  datatype InlineState = InlineState(ctx: Context, text: string, kids: seq<Element>)

  /** One turn of the inline children loop after the child's walk (which
      left the shared frame as `ctx`): the child's result is gathered as text
      or kept as an element, and the child's tail is gathered when the command
      in the shared frame is COPY_TEXT_AND_RECURSE; after a kept element
      it goes onto that element's tail, which raises when the tail is `None`. */
  function InlineStep(st: InlineState, ctx: Context, processed: Element, child: Element): (r: Result<InlineState, PyError>)
    ensures r.Ok? ==> r.value.ctx == ctx
  {
    var st1 :=
      if processed.tag == TranscludeInlineTag then InlineState(ctx, st.text + processed.text.GetOr(""), st.kids)
      else InlineState(ctx, st.text, st.kids + [processed]);
    if ctx.command == CopyTextAndRecurse && Truthy(child.tail) then
      if |st1.kids| > 0 && ElementTruthy(st1.kids[|st1.kids| - 1]) then
        var last := st1.kids[|st1.kids| - 1];
        if last.tail.None? then Err(TypeError)
        else Ok(st1.(kids := st1.kids[..|st1.kids| - 1] + [last.(tail := Some(last.tail.value + " " + child.tail.value))]))
      else Ok(st1.(text := st1.text + " " + child.tail.value))
    else Ok(st1)
  }

  function InlineElement(env: Env, nsMap: map<string, string>, fromStart: string, toEnd: string, fuel: nat, ctx: Context, e: Element): Result<(Context, Element), PyError>
    decreases fuel, e, 2, 0
  {
    var ctx1 := InlineBefore(fromStart, ctx, e);
    if ctx1.command == Skip then Ok((ctx1, EmptyInline(nsMap)))
    else match Transclude(env, nsMap, fuel, e, Some("inline"))
      case Err(x) => Err(x)
      case Ok(t) =>
        if t.Some? && ElementTruthy(t.value) then Ok((ctx1, t.value))
        else
          var text := if ctx1.command == CopyTextAndRecurse && Truthy(e.text) then e.text.value else "";
          match InlineChildren(env, nsMap, fromStart, toEnd, fuel, e, 0, InlineState(ctx1, text, []))
          case Err(x) => Err(x)
          case Ok(st) => Ok((InlineAfter(toEnd, st.ctx, e), Element(TranscludeInlineTag, map[], Some(st.text), None, st.kids, nsMap)))
  }

  function InlineChildren(env: Env, nsMap: map<string, string>, fromStart: string, toEnd: string, fuel: nat, e: Element, i: nat, st: InlineState): Result<InlineState, PyError>
    requires i <= |e.children|
    decreases fuel, e, 1, |e.children| - i
  {
    if i == |e.children| then Ok(st)
    else
      var child := e.children[i];
      match InlineElement(env, nsMap, fromStart, toEnd, fuel, st.ctx, child)
      case Err(x) => Err(x)
      case Ok(res) =>
        match InlineStep(st, res.0, res.1, child)
        case Err(x) => Err(x)
        case Ok(st2) => InlineChildren(env, nsMap, fromStart, toEnd, fuel, e, i + 1, st2)
  }

  /** The frame `process` pushes in the inline processor. */
  function InlineFrame(fromStart: string, toEnd: string): Context
  {
    Context(Some(fromStart), Some(toEnd), true, false, Some(false), Recurse)
  }

  /** `InlineCompilerProcessor(project, file_name, from_start, to_end).process()`. */
  function InlineProcess(env: Env, fuel: nat, project: string, fileName: string, fromStart: string, toEnd: string): Result<Element, PyError>
    decreases fuel
  {
    match LoadRoot(env, project, fileName)
    case Err(x) => Err(x)
    case Ok(root) =>
      match InlineElement(env, NsMapOf(root), fromStart, toEnd, fuel, InlineFrame(fromStart, toEnd), root)
      case Err(x) => Err(x)
      case Ok(res) => Ok(res.1)
  }

  // ---------------------------------------------------------------------
  // The external processor

  /** `split('#')[1]`: the text between the first and a second `#`, or up to
      the end; `None` where Python raises IndexError. */
  function HashPart(s: string): (r: Option<string>)
    ensures r.None? <==> '#' !in s
  {
    var parts := PyStr.Split(s, '#');
    PyStr.JoinSplit(s, '#');
    if |parts| >= 2 then Some(parts[1])
    else
      assert parts == [s];
      None
  }

  /** The external walk reads `xml:id` under this literal key, which is not
      the key lxml stores it under. */
  const LiteralXmlIdKey: string := "xml:id"

  /** `corresp == target or xml_id == target.split('#')[1]`, the second test
      reached only when the first fails. */
  function ExternalAnchor(target: string, e: Element): (r: Result<bool, PyError>)
    ensures Get(e, "corresp", "") == target ==> r == Ok(true)
    ensures r.Err? <==> Get(e, "corresp", "") != target && '#' !in target
  {
    if Get(e, "corresp", "") == target then Ok(true)
    else match HashPart(target)
      case None => Err(IndexError)
      case Some(h) => Ok(Get(e, LiteralXmlIdKey, "") == h)
  }

  /** `_update_processing_context_before` of the external walk; `pos == dca`
      is `element is self.deepest_common_ancestor`. A frame without the
      `inside_deepest_common_ancestor` key raises when that key is read. */
  function ExternalBefore(fromStart: string, dca: Position, ctx: Context, e: Element, pos: Position): (r: Result<Context, PyError>)
    ensures ctx.afterEnd ==> r == Ok(ctx.(command := Skip))
    ensures r.Ok? ==> r.value.command in {Skip, Recurse, CopyElementAndRecurse, CopyAndRecurse}
    ensures r.Ok? ==> r.value.afterEnd == ctx.afterEnd && r.value.fromStart == ctx.fromStart && r.value.toEnd == ctx.toEnd
  {
    if ctx.afterEnd then Ok(ctx.(command := Skip))
    else
      var isStart :=
        if Get(e, "corresp", "") != "" || Get(e, LiteralXmlIdKey, "") != "" then ExternalAnchor(fromStart, e)
        else Ok(false);
      if isStart.Err? then Err(isStart.error)
      else if isStart.value then Ok(ctx.(beforeStart := false, command := CopyAndRecurse))
      else if !ctx.beforeStart then Ok(ctx.(command := CopyAndRecurse))
      else if pos == dca then Ok(ctx.(insideDca := Some(true), command := CopyElementAndRecurse))
      else if ctx.insideDca.None? then Err(KeyError("inside_deepest_common_ancestor"))
      else if ctx.insideDca.value then Ok(ctx.(command := CopyElementAndRecurse))
      else Ok(ctx.(command := Recurse))
  }

  /** `_update_processing_context_after` of the external walk: leaving the
      deepest common ancestor returns before any test for the end. */
  function ExternalAfter(toEnd: string, dca: Position, ctx: Context, e: Element, pos: Position): (r: Result<Context, PyError>)
    ensures pos == dca ==> r == Ok(ctx.(insideDca := Some(false)))
    ensures pos != dca && (ctx.beforeStart || ctx.afterEnd) ==> r == Ok(ctx)
  {
    if pos == dca then Ok(ctx.(insideDca := Some(false)))
    else if !ctx.beforeStart && !ctx.afterEnd then
      match ExternalAnchor(toEnd, e)
      case Err(x) => Err(x)
      case Ok(isEnd) => Ok(if isEnd then ctx.(afterEnd := true) else ctx)
    else Ok(ctx)
  }

  /** The copy of an element the external walk makes: tag and attributes,
      and the text only under COPY_AND_RECURSE. */
  function ExternalCopy(e: Element, command: Command, kids: seq<Element>, nsMap: map<string, string>): Element
  {
    Element(e.tag, e.attrs, if command == CopyAndRecurse then e.text else None, None, kids, nsMap)
  }

  /** `_process_element` of the external walk: the list of elements it
      returns, and the shared frame as it leaves it. */
  function ExternalElement(nsMap: map<string, string>, fromStart: string, toEnd: string, dca: Position, ctx: Context, e: Element, pos: Position): Result<(Context, seq<Element>), PyError>
    decreases e, 1, 0
  {
    match ExternalBefore(fromStart, dca, ctx, e, pos)
    case Err(x) => Err(x)
    case Ok(ctx1) =>
      if ctx1.command == Skip then Ok((ctx1, []))
      else
        match ExternalChildren(nsMap, fromStart, toEnd, dca, e, pos, 0, ctx1, [])
        case Err(x) => Err(x)
        case Ok(res) =>
          match ExternalAfter(toEnd, dca, res.0, e, pos)
          case Err(x) => Err(x)
          case Ok(ctx2) =>
            Ok((ctx2, if ctx1.command == Recurse then res.1 else [ExternalCopy(e, ctx1.command, res.1, nsMap)]))
  }

  /** The children loop of the external walk over `append_to`: each child's
      results are appended, and under COPY_AND_RECURSE in the shared frame a
      non-empty child tail is added to the tail of the last appended element
      (`append_to[-1].tail += child.tail`). */
  function ExternalChildren(nsMap: map<string, string>, fromStart: string, toEnd: string, dca: Position, e: Element, pos: Position, i: nat, ctx: Context, acc: seq<Element>): Result<(Context, seq<Element>), PyError>
    requires i <= |e.children|
    decreases e, 0, |e.children| - i
  {
    if i == |e.children| then Ok((ctx, acc))
    else
      var child := e.children[i];
      match ExternalElement(nsMap, fromStart, toEnd, dca, ctx, child, pos + [i])
      case Err(x) => Err(x)
      case Ok(res) =>
        var acc1 := acc + res.1;
        if res.0.command == CopyAndRecurse && Truthy(child.tail) then
          if acc1 == [] then Err(IndexError)
          else
            var last := acc1[|acc1| - 1];
            if last.tail.None? then Err(TypeError)
            else ExternalChildren(nsMap, fromStart, toEnd, dca, e, pos, i + 1, res.0,
              acc1[..|acc1| - 1] + [last.(tail := Some(last.tail.value + child.tail.value))])
        else ExternalChildren(nsMap, fromStart, toEnd, dca, e, pos, i + 1, res.0, acc1)
  }

  /** The first element strictly below `e` in document order, from child `i`
      on, whose attribute `key` is `value`: `./descendant::*[@key='value'][0]`. */
  function FindBelow(e: Element, key: string, value: string, i: nat): (r: Option<Position>)
    requires i <= |e.children|
    ensures r.Some? ==> |r.value| > 0 && r.value[0] >= i
    ensures r.Some? ==> At(e, r.value).Some? && key in At(e, r.value).value.attrs && At(e, r.value).value.attrs[key] == value
    decreases e, |e.children| - i
  {
    if i == |e.children| then None
    else
      var c := e.children[i];
      if key in c.attrs && c.attrs[key] == value then
        assert At(e, [i]) == At(c, []);
        Some([i])
      else match FindBelow(c, key, value, 0)
        case Some(p) =>
          assert ([i] + p)[1..] == p;
          Some([i] + p)
        case None => FindBelow(e, key, value, i + 1)
  }

  /** The attribute an anchor is looked up by: `corresp` for a URN, the
      `xml:id` after the `#` otherwise. */
  function AnchorKey(v: string): (r: Result<(string, string), PyError>)
    ensures PyStr.StartsWith(v, "urn:") ==> r == Ok(("corresp", v))
    ensures !PyStr.StartsWith(v, "urn:") ==> (r.Err? <==> '#' !in v) && (r.Ok? ==> r.value.0 == XmlIdKey)
  {
    if PyStr.StartsWith(v, "urn:") then Ok(("corresp", v))
    else match HashPart(v)
      case None => Err(IndexError)
      case Some(h) => Ok((XmlIdKey, h))
  }

  /** Evaluating the XPath: a quote in the value ends the XPath string
      literal early and makes the expression invalid. */
  function FindAnchor(root: Element, k: (string, string)): Result<Option<Position>, PyError>
  {
    if '\'' in k.1 then Err(XPathEvalError) else Ok(FindBelow(root, k.0, k.1, 0))
  }

  /** `_get_deepest_common_ancestor`: the start element when it is the end
      element; otherwise the code reads `.parent`, which lxml elements do not
      have. */
  function DeepestCommonAncestor(root: Element, fromStart: string, toEnd: string): (r: Result<Position, PyError>)
    ensures r.Ok? ==> |r.value| > 0 && At(root, r.value).Some?
  {
    match AnchorKey(fromStart)
    case Err(x) => Err(x)
    case Ok(sk) =>
      match AnchorKey(toEnd)
      case Err(x) => Err(x)
      case Ok(ek) =>
        match FindAnchor(root, sk)
        case Err(x) => Err(x)
        case Ok(None) => Err(ValueError("Start URN from_start=" + Repr(fromStart) + " not found"))
        case Ok(Some(sp)) =>
          match FindAnchor(root, ek)
          case Err(x) => Err(x)
          case Ok(None) => Err(ValueError("End URN to_end=" + Repr(toEnd) + " not found"))
          case Ok(Some(ep)) => if sp == ep then Ok(sp) else Err(AttributeError("parent"))
  }

  /** The frame the external `process` pushes, as written: `after_end` is set
      because `to_end` is given, and `inside_deepest_common_ancestor` is missing. */
  function ExternalFrameAsWritten(fromStart: string, toEnd: string): Context
  {
    Context(Some(fromStart), Some(toEnd), true, true, None, Recurse)
  }

  /** The intended frame, as the inline processor pushes it. */
  function ExternalFrame(fromStart: string, toEnd: string): Context
  {
    Context(Some(fromStart), Some(toEnd), true, false, Some(false), Recurse)
  }

  /** `ExternalCompilerProcessor(...)` followed by `process()` with a given
      initial frame: the root is loaded and the deepest common ancestor found
      on construction, then the walk's list is wrapped. */
  function ExternalRun(env: Env, project: string, fileName: string, fromStart: string, toEnd: string, frame: Context): Result<Element, PyError>
  {
    match LoadRoot(env, project, fileName)
    case Err(x) => Err(x)
    case Ok(root) =>
      match DeepestCommonAncestor(root, fromStart, toEnd)
      case Err(x) => Err(x)
      case Ok(dca) =>
        var nsMap := NsMapOf(root);
        match ExternalElement(nsMap, fromStart, toEnd, dca, frame, root, [])
        case Err(x) => Err(x)
        case Ok(res) => Ok(Element(TransclusionTag, map[], None, None, res.1, nsMap))
  }

  /** As written, the first frame already says the end has passed, so the
      root is skipped and the wrapper is always empty. */
  function ExternalProcessAsWritten(env: Env, project: string, fileName: string, fromStart: string, toEnd: string): (r: Result<Element, PyError>)
    ensures r.Ok? <==> LoadRoot(env, project, fileName).Ok? && DeepestCommonAncestor(LoadRoot(env, project, fileName).value, fromStart, toEnd).Ok?
    ensures r.Ok? ==> r.value.tag == TransclusionTag && r.value.children == []
  {
    ExternalRun(env, project, fileName, fromStart, toEnd, ExternalFrameAsWritten(fromStart, toEnd))
  }

  function ExternalProcess(env: Env, project: string, fileName: string, fromStart: string, toEnd: string): Result<Element, PyError>
  {
    ExternalRun(env, project, fileName, fromStart, toEnd, ExternalFrame(fromStart, toEnd))
  }
}
