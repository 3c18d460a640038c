/** The compiler's processors as they run: methods that mutate the top frame
    of the shared `processing_context` stack in place, push and pop one frame
    per `process()` call, read files through the XML cache, and build their
    output by appending in loops over children. Each is proved to compute the
    corresponding function of module `Compiler`. */
module CompilerWalk {
  import opened Wrappers
  import opened Xml
  import opened Linear
  import opened Compiler
  import Cache
  import Urn

  /** The linear data a compiler run uses agrees with the environment the
      functions are evaluated in: the same base path and project priority,
      and a cache holding only parses of the environment's files. */
  ghost predicate Runs(linear: LinearData, env: Env)
    reads linear, linear.xmlCache
  {
    env.basePath == linear.xmlCache.basePath && env.priority == linear.projectPriority
    && linear.xmlCache.ConsistentWith(env.fs)
  }

  /** `processing_context[-1]` */
  function Top(linear: LinearData): Context
    reads linear
    requires linear.processingContext != []
  {
    linear.processingContext[|linear.processingContext| - 1]
  }

  /** The frames below the top one. */
  function Below(s: seq<Context>): seq<Context>
    requires s != []
  {
    s[..|s| - 1]
  }

  /** `parse_xml(project, file_name).getroot()` through the cache. */
  method LoadRootWalk(linear: LinearData, env: Env, project: string, fileName: string) returns (r: Result<Element, PyError>)
    requires Runs(linear, env)
    modifies linear.xmlCache
    ensures Runs(linear, env)
    ensures r == LoadRoot(env, project, fileName)
  {
    ghost var before := linear.xmlCache.cache;
    r := linear.xmlCache.ParseXml(project, fileName, env.fs);
    if (project, fileName) in before {
      Cache.CachedAgreesWithDisk(before, env.fs, env.basePath, project, fileName);
    }
  }

  // ---------------------------------------------------------------------
  // The base processor

  /** `CompilerProcessor._process_element`. */
  method BaseElementWalk(linear: LinearData, env: Env, nsMap: map<string, string>, fuel: nat, e: Element) returns (r: Result<Element, PyError>)
    requires Runs(linear, env)
    modifies linear, linear.xmlCache
    ensures Runs(linear, env)
    ensures r == BaseElement(env, nsMap, fuel, e)
    ensures r.Ok? ==> linear.processingContext == old(linear.processingContext)
    decreases fuel, e, 2, 0
  {
    var t := TranscludeWalk(linear, env, nsMap, fuel, e, None);
    if t.Err? {
      return Err(t.error);
    }
    if t.value.Some? && ElementTruthy(t.value.value) {
      return Ok(t.value.value);
    }
    var kids := BaseChildrenWalk(linear, env, nsMap, fuel, e);
    if kids.Err? {
      return Err(kids.error);
    }
    return Ok(Element(e.tag, e.attrs, e.text, None, kids.value, nsMap));
  }

  /** The loop over children of `CompilerProcessor._process_element`: each
      child's copy, with its tail, appended in order. */
  method BaseChildrenWalk(linear: LinearData, env: Env, nsMap: map<string, string>, fuel: nat, e: Element) returns (r: Result<seq<Element>, PyError>)
    requires Runs(linear, env)
    modifies linear, linear.xmlCache
    ensures Runs(linear, env)
    ensures r == BaseChildren(env, nsMap, fuel, e, 0, [])
    ensures r.Ok? ==> linear.processingContext == old(linear.processingContext)
    decreases fuel, e, 1, 1
  {
    var kids: seq<Element> := [];
    var i := 0;
    while i < |e.children|
      invariant 0 <= i <= |e.children|
      invariant Runs(linear, env)
      invariant linear.processingContext == old(linear.processingContext)
      invariant BaseChildren(env, nsMap, fuel, e, 0, []) == BaseChildren(env, nsMap, fuel, e, i, kids)
      decreases |e.children| - i
    {
      var next := BaseNextWalk(linear, env, nsMap, fuel, e, i, kids);
      if next.Err? {
        return Err(next.error);
      }
      kids := next.value;
      i := i + 1;
    }
    return Ok(kids);
  }

  /** One turn of that loop: child `i` is walked and its copy appended. */
  method BaseNextWalk(linear: LinearData, env: Env, nsMap: map<string, string>, fuel: nat, e: Element, i: nat, kids: seq<Element>)
    returns (r: Result<seq<Element>, PyError>)
    requires Runs(linear, env) && i < |e.children|
    modifies linear, linear.xmlCache
    ensures Runs(linear, env)
    ensures r.Err? ==> BaseChildren(env, nsMap, fuel, e, i, kids) == Err(r.error)
    ensures r.Ok? ==> (linear.processingContext == old(linear.processingContext)
      && BaseChildren(env, nsMap, fuel, e, i, kids) == BaseChildren(env, nsMap, fuel, e, i + 1, r.value))
    decreases fuel, e, 1, 0
  {
    var child := e.children[i];
    var processed := BaseElementWalk(linear, env, nsMap, fuel, child);
    if processed.Err? {
      return Err(processed.error);
    }
    var copied := processed.value;
    if Truthy(child.tail) {
      copied := copied.(tail := child.tail);
    }
    return Ok(kids + [copied]);
  }

  /** `CompilerProcessor(project, file_name).process()`: one frame is pushed
      for the walk and popped after it. */
  method BaseProcessWalk(linear: LinearData, env: Env, fuel: nat, project: string, fileName: string) returns (r: Result<Element, PyError>)
    requires Runs(linear, env)
    modifies linear, linear.xmlCache
    ensures Runs(linear, env)
    ensures r == BaseProcess(env, fuel, project, fileName)
    ensures r.Ok? ==> linear.processingContext == old(linear.processingContext)
  {
    var root := LoadRootWalk(linear, env, project, fileName);
    if root.Err? {
      return Err(root.error);
    }
    var nsMap := NsMapOf(root.value);
    linear.PushContext(BaseFrame);
    r := BaseElementWalk(linear, env, nsMap, fuel, root.value);
    if r.Err? {
      return;
    }
    var popped := linear.PopContext();
  }

  // ---------------------------------------------------------------------
  // Transclusion

  /** `_transclude`: the nested processor for the target range runs on the
      same linear data, with its own frame. */
  method TranscludeWalk(linear: LinearData, env: Env, nsMap: map<string, string>, fuel: nat, e: Element, typeOverride: Option<string>) returns (r: Result<Option<Element>, PyError>)
    requires Runs(linear, env)
    modifies linear, linear.xmlCache
    ensures Runs(linear, env)
    ensures r == Transclude(env, nsMap, fuel, e, typeOverride)
    ensures r.Ok? ==> linear.processingContext == old(linear.processingContext)
    decreases fuel, e, 1, 0
  {
    if !IsTransclude(e) {
      return Ok(None);
    }
    var target := GetOpt(e, "target");
    var targetEnd := GetOpt(e, "targetEnd");
    var kind := TranscludeType(e, typeOverride);
    if target.None? || kind.None? {
      return Err(TypeError);
    }
    var shell := ProcessingElement(TranscludeAttrs(target.value, targetEnd, kind.value), nsMap);
    var range := StartAndEnd(env.rows, linear.projectPriority, target.value, targetEnd);
    if range.Err? {
      return Err(range.error);
    }
    TranscludeByRange(env, nsMap, fuel, e, typeOverride, range.value);
    r := RangeWalk(linear, env, fuel, kind.value, shell, range.value, e);
  }

  lemma TranscludeByRange(env: Env, nsMap: map<string, string>, fuel: nat, e: Element, typeOverride: Option<string>, range: Urn.ResolvedUrnRange)
    requires IsTransclude(e) && GetOpt(e, "target").Some? && TranscludeType(e, typeOverride).Some?
    requires StartAndEnd(env.rows, env.priority, GetOpt(e, "target").value, GetOpt(e, "targetEnd")) == Ok(range)
    ensures Transclude(env, nsMap, fuel, e, typeOverride)
      == TranscludedRange(env, fuel, TranscludeType(e, typeOverride).value,
           ProcessingElement(TranscludeAttrs(GetOpt(e, "target").value, GetOpt(e, "targetEnd"), TranscludeType(e, typeOverride).value), nsMap), range)
  {
  }

  /** What `_transclude` returns once the range is known. */
  ghost function TranscludedRange(env: Env, fuel: nat, kind: string, shell: Element, range: Urn.ResolvedUrnRange): Result<Option<Element>, PyError>
  {
    var s := range.start;
    if kind == "external" then
      match ExternalProcess(env, s.project, s.fileName, s.urn, range.end.urn)
      case Err(x) => Err(x)
      case Ok(wrapper) => Ok(Some(shell.(children := wrapper.children)))
    else if fuel == 0 then Err(RecursionError)
    else
      match InlineProcess(env, fuel - 1, s.project, s.fileName, s.urn, range.end.urn)
      case Err(x) => Err(x)
      case Ok(inline) => Ok(Some(shell.(text := inline.text, children := inline.children)))
  }

  /** The second half of `_transclude`: the nested processor runs on the
      same linear data. */
  method RangeWalk(linear: LinearData, env: Env, fuel: nat, kind: string, shell: Element, range: Urn.ResolvedUrnRange, ghost e: Element)
    returns (r: Result<Option<Element>, PyError>)
    requires Runs(linear, env)
    modifies linear, linear.xmlCache
    ensures Runs(linear, env)
    ensures r == TranscludedRange(env, fuel, kind, shell, range)
    ensures r.Ok? ==> linear.processingContext == old(linear.processingContext)
    decreases fuel, e, 0, 0
  {
    var s := range.start;
    if kind == "external" {
      var wrapper := ExternalProcessWalk(linear, env, s.project, s.fileName, s.urn, range.end.urn);
      if wrapper.Err? {
        return Err(wrapper.error);
      }
      return Ok(Some(shell.(children := wrapper.value.children)));
    }
    if fuel == 0 {
      return Err(RecursionError);
    }
    var inline := InlineProcessWalk(linear, env, fuel - 1, s.project, s.fileName, s.urn, range.end.urn);
    if inline.Err? {
      return Err(inline.error);
    }
    return Ok(Some(shell.(text := inline.value.text, children := inline.value.children)));
  }

  // ---------------------------------------------------------------------
  // The inline processor

  /** `InlineCompilerProcessor._process_element`: the top frame is updated in
      place, first by the before-hook (which stores its command there), then
      by the children's walks, then by the after-hook. */
  method InlineElementWalk(linear: LinearData, env: Env, nsMap: map<string, string>, fromStart: string, toEnd: string, fuel: nat, e: Element)
    returns (r: Result<Element, PyError>)
    requires Runs(linear, env) && linear.processingContext != []
    modifies linear, linear.xmlCache
    ensures Runs(linear, env)
    ensures r.Err? ==> InlineElement(env, nsMap, fromStart, toEnd, fuel, old(Top(linear)), e) == Err(r.error)
    ensures r.Ok? ==> (|linear.processingContext| == |old(linear.processingContext)|
      && Below(linear.processingContext) == Below(old(linear.processingContext))
      && InlineElement(env, nsMap, fromStart, toEnd, fuel, old(Top(linear)), e) == Ok((Top(linear), r.value)))
    decreases fuel, e, 2, 0
  {
    ghost var stack := linear.processingContext;
    linear.SetTop(InlineBefore(fromStart, Top(linear), e));
    if Top(linear).command == Skip {
      return Ok(EmptyInline(nsMap));
    }
    var t := TranscludeWalk(linear, env, nsMap, fuel, e, Some("inline"));
    if t.Err? {
      return Err(t.error);
    }
    if t.value.Some? && ElementTruthy(t.value.value) {
      return Ok(t.value.value);
    }
    var text := "";
    if Top(linear).command == CopyTextAndRecurse && Truthy(e.text) {
      text := text + e.text.value;
      assert text == e.text.value;
    }
    assert Top(linear) == InlineBefore(fromStart, stack[|stack| - 1], e);
    var gathered := InlineChildrenWalk(linear, env, nsMap, fromStart, toEnd, fuel, e, text);
    if gathered.Err? {
      return Err(gathered.error);
    }
    linear.SetTop(InlineAfter(toEnd, Top(linear), e));
    return Ok(Element(TranscludeInlineTag, map[], Some(gathered.value.text), None, gathered.value.kids, nsMap));
  }

  /** The loop over the children in `InlineCompilerProcessor._process_element`:
      the gathered text and the list of elements kept, with each child's
      tail placed by the command its walk left in the top frame. */
  method InlineChildrenWalk(linear: LinearData, env: Env, nsMap: map<string, string>, fromStart: string, toEnd: string, fuel: nat, e: Element, text0: string)
    returns (r: Result<InlineState, PyError>)
    requires Runs(linear, env) && linear.processingContext != []
    modifies linear, linear.xmlCache
    ensures Runs(linear, env)
    ensures r.Err? ==> InlineChildren(env, nsMap, fromStart, toEnd, fuel, e, 0, InlineState(old(Top(linear)), text0, [])) == Err(r.error)
    ensures r.Ok? ==> (|linear.processingContext| == |old(linear.processingContext)|
      && Below(linear.processingContext) == Below(old(linear.processingContext))
      && r.value.ctx == Top(linear)
      && InlineChildren(env, nsMap, fromStart, toEnd, fuel, e, 0, InlineState(old(Top(linear)), text0, [])) == r)
    decreases fuel, e, 1, 0
  {
    ghost var stack := linear.processingContext;
    var text := text0;
    var kids: seq<Element> := [];
    var i := 0;
    while i < |e.children|
      invariant 0 <= i <= |e.children|
      invariant Runs(linear, env)
      invariant |linear.processingContext| == |stack| && Below(linear.processingContext) == Below(stack)
      invariant InlineChildren(env, nsMap, fromStart, toEnd, fuel, e, 0, InlineState(stack[|stack| - 1], text0, []))
        == InlineChildren(env, nsMap, fromStart, toEnd, fuel, e, i, InlineState(Top(linear), text, kids))
      decreases |e.children| - i
    {
      var next := InlineNextWalk(linear, env, nsMap, fromStart, toEnd, fuel, e, i, text, kids);
      if next.Err? {
        return Err(next.error);
      }
      text, kids := next.value.text, next.value.kids;
      i := i + 1;
    }
    return Ok(InlineState(Top(linear), text, kids));
  }

  /** One turn of the loop over children: the walk of child `i`, which
      advances `InlineChildren` from `i` to `i + 1`. */
  method InlineNextWalk(linear: LinearData, env: Env, nsMap: map<string, string>, fromStart: string, toEnd: string, fuel: nat, e: Element,
                        i: nat, text0: string, kids0: seq<Element>)
    returns (r: Result<InlineState, PyError>)
    requires Runs(linear, env) && linear.processingContext != [] && i < |e.children|
    modifies linear, linear.xmlCache
    ensures Runs(linear, env)
    ensures r.Err? ==> InlineChildren(env, nsMap, fromStart, toEnd, fuel, e, i, InlineState(old(Top(linear)), text0, kids0)) == Err(r.error)
    ensures r.Ok? ==> (|linear.processingContext| == |old(linear.processingContext)|
      && Below(linear.processingContext) == Below(old(linear.processingContext))
      && r.value.ctx == Top(linear)
      && InlineChildren(env, nsMap, fromStart, toEnd, fuel, e, i, InlineState(old(Top(linear)), text0, kids0))
         == InlineChildren(env, nsMap, fromStart, toEnd, fuel, e, i + 1, r.value))
    decreases fuel, e, 0, 0
  {
    ghost var st := InlineState(Top(linear), text0, kids0);
    r := InlineChildWalk(linear, env, nsMap, fromStart, toEnd, fuel, e.children[i], text0, kids0);
    ChildrenStep(env, nsMap, fromStart, toEnd, fuel, e, i, st, r);
  }

  /** One child of the loop: its walk, then where its result and its tail go. */
  ghost function InlineChildSpec(env: Env, nsMap: map<string, string>, fromStart: string, toEnd: string, fuel: nat, st: InlineState, child: Element): Result<InlineState, PyError>
  {
    match InlineElement(env, nsMap, fromStart, toEnd, fuel, st.ctx, child)
    case Err(x) => Err(x)
    case Ok(res) => InlineStep(st, res.0, res.1, child)
  }

  lemma ChildrenStep(env: Env, nsMap: map<string, string>, fromStart: string, toEnd: string, fuel: nat, e: Element, i: nat, st: InlineState, next: Result<InlineState, PyError>)
    requires i < |e.children|
    requires InlineChildSpec(env, nsMap, fromStart, toEnd, fuel, st, e.children[i]) == next
    ensures next.Err? ==> InlineChildren(env, nsMap, fromStart, toEnd, fuel, e, i, st) == Err(next.error)
    ensures next.Ok? ==> InlineChildren(env, nsMap, fromStart, toEnd, fuel, e, i, st) == InlineChildren(env, nsMap, fromStart, toEnd, fuel, e, i + 1, next.value)
  {
  }

  /** The body of the loop over children for one child: the text carrier's
      text is gathered, any other result is appended, and with the command
      `COPY_TEXT_AND_RECURSE` the child's tail goes after the last kept
      element or, when there is none with children, into the text. */
  method InlineChildWalk(linear: LinearData, env: Env, nsMap: map<string, string>, fromStart: string, toEnd: string, fuel: nat, child: Element, text0: string, kids0: seq<Element>)
    returns (r: Result<InlineState, PyError>)
    requires Runs(linear, env) && linear.processingContext != []
    modifies linear, linear.xmlCache
    ensures Runs(linear, env)
    ensures r.Err? ==> InlineChildSpec(env, nsMap, fromStart, toEnd, fuel, InlineState(old(Top(linear)), text0, kids0), child) == Err(r.error)
    ensures r.Ok? ==> (|linear.processingContext| == |old(linear.processingContext)|
      && Below(linear.processingContext) == Below(old(linear.processingContext))
      && r.value.ctx == Top(linear)
      && InlineChildSpec(env, nsMap, fromStart, toEnd, fuel, InlineState(old(Top(linear)), text0, kids0), child) == r)
    decreases fuel, child, 3, 0
  {
    var processed := InlineElementWalk(linear, env, nsMap, fromStart, toEnd, fuel, child);
    if processed.Err? {
      return Err(processed.error);
    }
    var text, kids := text0, kids0;
    if processed.value.tag == TranscludeInlineTag {
      text := text + processed.value.text.GetOr("");
    } else {
      kids := kids + [processed.value];
    }
    if Top(linear).command == CopyTextAndRecurse && Truthy(child.tail) {
      if |kids| > 0 && ElementTruthy(kids[|kids| - 1]) {
        var last := kids[|kids| - 1];
        if last.tail.None? {
          return Err(TypeError);
        }
        kids := kids[..|kids| - 1] + [last.(tail := Some(last.tail.value + " " + child.tail.value))];
      } else {
        text := text + " " + child.tail.value;
      }
    }
    return Ok(InlineState(Top(linear), text, kids));
  }

  /** `InlineCompilerProcessor(project, file_name, from_start, to_end).process()`. */
  method InlineProcessWalk(linear: LinearData, env: Env, fuel: nat, project: string, fileName: string, fromStart: string, toEnd: string)
    returns (r: Result<Element, PyError>)
    requires Runs(linear, env)
    modifies linear, linear.xmlCache
    ensures Runs(linear, env)
    ensures r == InlineProcess(env, fuel, project, fileName, fromStart, toEnd)
    ensures r.Ok? ==> linear.processingContext == old(linear.processingContext)
    decreases fuel
  {
    var root := LoadRootWalk(linear, env, project, fileName);
    if root.Err? {
      return Err(root.error);
    }
    ghost var stack := linear.processingContext;
    linear.PushContext(InlineFrame(fromStart, toEnd));
    r := InlineElementWalk(linear, env, NsMapOf(root.value), fromStart, toEnd, fuel, root.value);
    if r.Err? {
      return;
    }
    var popped := linear.PopContext();
    assert linear.processingContext == stack;
  }

  // ---------------------------------------------------------------------
  // The external processor

  /** `ExternalCompilerProcessor._process_element`: the list of elements
      produced, built in `append_to`. */
  method ExternalElementWalk(linear: LinearData, nsMap: map<string, string>, fromStart: string, toEnd: string, dca: Position, e: Element, pos: Position)
    returns (r: Result<seq<Element>, PyError>)
    requires linear.processingContext != []
    modifies linear
    ensures linear.projectPriority == old(linear.projectPriority)
    ensures r.Err? ==> ExternalElement(nsMap, fromStart, toEnd, dca, old(Top(linear)), e, pos) == Err(r.error)
    ensures r.Ok? ==> (|linear.processingContext| == |old(linear.processingContext)|
      && Below(linear.processingContext) == Below(old(linear.processingContext))
      && ExternalElement(nsMap, fromStart, toEnd, dca, old(Top(linear)), e, pos) == Ok((Top(linear), r.value)))
    decreases e, 1, 0
  {
    ghost var stack := linear.processingContext;
    var before := ExternalBefore(fromStart, dca, Top(linear), e, pos);
    if before.Err? {
      return Err(before.error);
    }
    linear.SetTop(before.value);
    var command := before.value.command;
    if command == Skip {
      return Ok([]);
    }
    var children := ExternalChildrenWalk(linear, nsMap, fromStart, toEnd, dca, e, pos);
    if children.Err? {
      return Err(children.error);
    }
    var appendTo := children.value;
    var after := ExternalAfter(toEnd, dca, Top(linear), e, pos);
    if after.Err? {
      return Err(after.error);
    }
    linear.SetTop(after.value);
    if command == Recurse {
      return Ok(appendTo);
    }
    return Ok([ExternalCopy(e, command, appendTo, nsMap)]);
  }

  /** The loop over children of `ExternalCompilerProcessor._process_element`,
      appending to `append_to`. */
  method ExternalChildrenWalk(linear: LinearData, nsMap: map<string, string>, fromStart: string, toEnd: string, dca: Position, e: Element, pos: Position)
    returns (r: Result<seq<Element>, PyError>)
    requires linear.processingContext != []
    modifies linear
    ensures linear.projectPriority == old(linear.projectPriority)
    ensures r.Err? ==> ExternalChildren(nsMap, fromStart, toEnd, dca, e, pos, 0, old(Top(linear)), []) == Err(r.error)
    ensures r.Ok? ==> (|linear.processingContext| == |old(linear.processingContext)|
      && Below(linear.processingContext) == Below(old(linear.processingContext))
      && ExternalChildren(nsMap, fromStart, toEnd, dca, e, pos, 0, old(Top(linear)), []) == Ok((Top(linear), r.value)))
    decreases e, 0, 1
  {
    ghost var stack := linear.processingContext;
    var appendTo: seq<Element> := [];
    var i := 0;
    while i < |e.children|
      invariant 0 <= i <= |e.children|
      invariant |linear.processingContext| == |stack| && Below(linear.processingContext) == Below(stack)
      invariant linear.projectPriority == old(linear.projectPriority)
      invariant ExternalChildren(nsMap, fromStart, toEnd, dca, e, pos, 0, stack[|stack| - 1], [])
        == ExternalChildren(nsMap, fromStart, toEnd, dca, e, pos, i, Top(linear), appendTo)
      decreases |e.children| - i
    {
      var next := ExternalNextWalk(linear, nsMap, fromStart, toEnd, dca, e, pos, i, appendTo);
      if next.Err? {
        return Err(next.error);
      }
      appendTo := next.value;
      i := i + 1;
    }
    return Ok(appendTo);
  }

  /** One turn of that loop: the walk of child `i`, its results appended and
      its tail added under `COPY_AND_RECURSE`. */
  method ExternalNextWalk(linear: LinearData, nsMap: map<string, string>, fromStart: string, toEnd: string, dca: Position, e: Element, pos: Position,
                          i: nat, acc: seq<Element>)
    returns (r: Result<seq<Element>, PyError>)
    requires linear.processingContext != [] && i < |e.children|
    modifies linear
    ensures linear.projectPriority == old(linear.projectPriority)
    ensures r.Err? ==> ExternalChildren(nsMap, fromStart, toEnd, dca, e, pos, i, old(Top(linear)), acc) == Err(r.error)
    ensures r.Ok? ==> (|linear.processingContext| == |old(linear.processingContext)|
      && Below(linear.processingContext) == Below(old(linear.processingContext))
      && ExternalChildren(nsMap, fromStart, toEnd, dca, e, pos, i, old(Top(linear)), acc)
         == ExternalChildren(nsMap, fromStart, toEnd, dca, e, pos, i + 1, Top(linear), r.value))
    decreases e, 0, 0
  {
    var child := e.children[i];
    var processed := ExternalElementWalk(linear, nsMap, fromStart, toEnd, dca, child, pos + [i]);
    if processed.Err? {
      return Err(processed.error);
    }
    var appendTo := acc + processed.value;
    if Top(linear).command == CopyAndRecurse && Truthy(child.tail) {
      if appendTo == [] {
        return Err(IndexError);
      }
      var last := appendTo[|appendTo| - 1];
      if last.tail.None? {
        return Err(TypeError);
      }
      appendTo := appendTo[..|appendTo| - 1] + [last.(tail := Some(last.tail.value + child.tail.value))];
    }
    return Ok(appendTo);
  }

  /** `ExternalCompilerProcessor(...)` and `process()`, with the intended
      first frame. */
  method ExternalProcessWalk(linear: LinearData, env: Env, project: string, fileName: string, fromStart: string, toEnd: string)
    returns (r: Result<Element, PyError>)
    requires Runs(linear, env)
    modifies linear, linear.xmlCache
    ensures Runs(linear, env)
    ensures r == ExternalProcess(env, project, fileName, fromStart, toEnd)
    ensures r.Ok? ==> linear.processingContext == old(linear.processingContext)
  {
    var root := LoadRootWalk(linear, env, project, fileName);
    if root.Err? {
      return Err(root.error);
    }
    var dca := DeepestCommonAncestor(root.value, fromStart, toEnd);
    if dca.Err? {
      return Err(dca.error);
    }
    var nsMap := NsMapOf(root.value);
    ghost var stack := linear.processingContext;
    linear.PushContext(ExternalFrame(fromStart, toEnd));
    var list := ExternalElementWalk(linear, nsMap, fromStart, toEnd, dca.value, root.value, []);
    if list.Err? {
      return Err(list.error);
    }
    var popped := linear.PopContext();
    assert linear.processingContext == stack;
    return Ok(Element(TransclusionTag, map[], None, None, list.value, nsMap));
  }
}
